/** What two toggles in a row do, and what a self-follow does. */
module Laws {
  import opened Collections
  import opened Entities
  import opened Transitions
  import opened Invariants

  // ---------------------------------------------------------------------
  // toggleLike twice
  // ---------------------------------------------------------------------

  /** Two likes toggles restore every post with the id to the first such
      post's like count and flag (the flag now present); other posts and
      collections are untouched. */
  lemma {:induction false} ToggleLikeTwice(s: State, postId: string)
    ensures var r := ToggleLike(ToggleLike(s, postId), postId);
      && r.currentUser == s.currentUser && r.users == s.users
      && r.comments == s.comments && r.connections == s.connections
      && |r.posts| == |s.posts|
      && match FindIndex(s.posts, PostIdIs(postId))
         case None => r == s
         case Some(j) =>
           forall i :: 0 <= i < |s.posts| ==>
             r.posts[i] == if s.posts[i].id == postId
               then s.posts[i].(isLiked := Some(Truth(s.posts[j].isLiked)), likesCount := s.posts[j].likesCount)
               else s.posts[i]
  {
    var m := ToggleLike(s, postId);
    match FindIndex(s.posts, PostIdIs(postId))
    case None =>
    case Some(j) =>
      FindIndexPointwise(s.posts, PostIdIs(postId), m.posts, PostIdIs(postId));
  }

  /** With unique post ids, two toggles give back the like count and the
      truth of the flag of every post. */
  lemma ToggleLikeTwiceRestores(s: State, postId: string)
    requires Distinct(s.posts, PostKey)
    ensures var r := ToggleLike(ToggleLike(s, postId), postId);
      && |r.posts| == |s.posts|
      && forall i :: 0 <= i < |s.posts| ==>
           && r.posts[i].likesCount == s.posts[i].likesCount
           && Truth(r.posts[i].isLiked) == Truth(s.posts[i].isLiked)
           && r.posts[i].(isLiked := s.posts[i].isLiked) == s.posts[i]
  {
    ToggleLikeTwice(s, postId);
    match FindIndex(s.posts, PostIdIs(postId))
    case None =>
    case Some(j) =>
      assert forall i :: 0 <= i < |s.posts| && s.posts[i].id == postId ==> i == j by {
        forall i | 0 <= i < |s.posts| && s.posts[i].id == postId ensures i == j {
          assert i != j ==> PostKey(s.posts[i]) != PostKey(s.posts[j]);
        }
      }
  }

  // ---------------------------------------------------------------------
  // toggleFollow twice
  // ---------------------------------------------------------------------

  lemma FollowToggledTwice(u: User, userId: string, viewerId: string, following: bool)
    ensures FollowToggled(FollowToggled(u, userId, viewerId, following), userId, viewerId, !following)
         == if u.id == userId then u.(isFollowing := Some(following)) else u
  {
  }

  /** Two follow toggles give every user record back its counters; the
      target's flag returns to its truth value, now present. */
  lemma ToggleFollowTwiceRestoresUsers(s: State, userId: string, id1: string, t1: int, id2: string, t2: int)
    ensures var r := ToggleFollow(ToggleFollow(s, userId, id1, t1), userId, id2, t2);
      && |r.users| == |s.users|
      && forall i :: 0 <= i < |s.users| ==>
           r.users[i] == if FollowApplies(s, userId) && s.users[i].id == userId
             then s.users[i].(isFollowing := Some(FollowingFlag(s, userId)))
             else s.users[i]
  {
    if FollowApplies(s, userId) {
      var m := ToggleFollow(s, userId, id1, t1);
      var me := s.currentUser.value.id;
      var f := FollowingFlag(s, userId);
      ToggleFollowParts(s, userId, id1, t1);
      FindIndexPointwise(s.users, UserIdIs(userId), m.users, UserIdIs(userId));
      assert FollowApplies(m, userId) && FollowingFlag(m, userId) == !f;
      ToggleFollowParts(m, userId, id2, t2);
      forall i | 0 <= i < |s.users| {
        FollowToggledTwice(s.users[i], userId, me, f);
      }
    }
  }

  /** Following a user the viewer does not follow and has no edge to, then
      unfollowing it, appends one accepted edge and removes it again. */
  lemma FollowThenUnfollowRestoresEdges(s: State, userId: string, id1: string, t1: int, id2: string, t2: int)
    requires FollowApplies(s, userId) && !FollowingFlag(s, userId)
    requires ExistingEdge(s, s.currentUser.value.id, userId).None?
    requires forall i :: 0 <= i < |s.connections| ==> s.connections[i].id != id1
    ensures var m := ToggleFollow(s, userId, id1, t1);
      && m.connections == s.connections + [Connection(id1, s.currentUser.value.id, userId, Accepted, t1)]
      && ToggleFollow(m, userId, id2, t2).connections == s.connections
  {
    var m := ToggleFollow(s, userId, id1, t1);
    var me := s.currentUser.value.id;
    var x := Connection(id1, me, userId, Accepted, t1);
    ToggleFollowParts(s, userId, id1, t1);
    FindIndexPointwise(s.users, UserIdIs(userId), m.users, UserIdIs(userId));
    assert FollowApplies(m, userId) && FollowingFlag(m, userId);
    ToggleFollowParts(m, userId, id2, t2);
    assert m.connections == s.connections + [x];
    FindIndexAppended(s.connections, x, EdgeIs(me, userId));
    assert ExistingEdge(m, me, userId) == Some(|s.connections|);
    assert m.connections[|s.connections|] == x;
    FilterAppendedOut(s.connections, x, ConnIdIsNot(id1));
  }

  // ---------------------------------------------------------------------
  // Self-follow
  // ---------------------------------------------------------------------

  /** Nothing stops the viewer from following itself: the edge to itself is
      added and its follower counter moves, but its following counter does
      not, so the following counter no longer matches the edges. */
  lemma SelfFollowSkewsFollowingCount(s: State, connId: string, now: int)
    requires s.currentUser.Some? && FollowsCounted(s)
    requires FindIndex(s.users, UserIdIs(s.currentUser.value.id)).Some?
    requires !FollowingFlag(s, s.currentUser.value.id)
    requires ExistingEdge(s, s.currentUser.value.id, s.currentUser.value.id).None?
    ensures !FollowsCounted(ToggleFollow(s, s.currentUser.value.id, connId, now))
  {
    var me := s.currentUser.value.id;
    var r := ToggleFollow(s, me, connId, now);
    var j := FindIndex(s.users, UserIdIs(me)).value;
    var x := Connection(connId, me, me, Accepted, now);
    ToggleFollowParts(s, me, connId, now);
    assert r.connections == s.connections + [x];
    CountConcat(s.connections, [x], AcceptedFrom(me));
    assert Count([x], AcceptedFrom(me)) == 1;
    assert r.users[j].id == me;
    assert r.users[j].followingCount == s.users[j].followingCount;
    assert r.users[j].followingCount != Count(r.connections, AcceptedFrom(r.users[j].id));
  }

  /** A follow of a target whose flag is off while an edge to it already
      exists (a pending request, say) adds no edge, yet still raises the
      target's follower counter, which then exceeds its accepted edges. */
  lemma ExistingEdgeSkewsFollowerCount(s: State, userId: string, connId: string, now: int)
    requires s.currentUser.Some? && FollowsCounted(s)
    requires FindIndex(s.users, UserIdIs(userId)).Some?
    requires !FollowingFlag(s, userId)
    requires ExistingEdge(s, s.currentUser.value.id, userId).Some?
    ensures !FollowsCounted(ToggleFollow(s, userId, connId, now))
  {
    var r := ToggleFollow(s, userId, connId, now);
    var j := FindIndex(s.users, UserIdIs(userId)).value;
    ToggleFollowParts(s, userId, connId, now);
    assert r.connections == s.connections;
    assert r.users[j].id == userId;
    assert r.users[j].followersCount == s.users[j].followersCount + 1;
    assert r.users[j].followersCount != Count(r.connections, AcceptedInto(r.users[j].id));
  }
}
