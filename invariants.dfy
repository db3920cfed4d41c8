/** The consistency the store's denormalised counters and flags are meant to
    keep with its collections, and which mutators keep it under which
    conditions. */
module Invariants {
  import opened Collections
  import opened Entities
  import opened Transitions
  import opened Queries

  /** Every user record's post counter is the number of posts it authored. */
  predicate PostsCounted(s: State)
  {
    forall i :: 0 <= i < |s.users| ==> s.users[i].postsCount == Count(s.posts, AuthoredBy(s.users[i].id))
  }

  /** Every post's comment counter is the number of comments on its id. */
  predicate CommentsCounted(s: State)
  {
    forall i :: 0 <= i < |s.posts| ==> s.posts[i].commentsCount == Count(s.comments, OnPost(s.posts[i].id))
  }

  /** Every user record's follower and following counters are its numbers
      of accepted edges in and out. */
  predicate FollowsCounted(s: State)
  {
    forall i :: 0 <= i < |s.users| ==>
      && s.users[i].followersCount == Count(s.connections, AcceptedInto(s.users[i].id))
      && s.users[i].followingCount == Count(s.connections, AcceptedFrom(s.users[i].id))
  }

  /** Connection ids are unique and no ordered pair has two edges. */
  predicate EdgesWellFormed(s: State)
  {
    Distinct(s.connections, ConnKey) && Distinct(s.connections, EdgeKey)
  }

  /** The viewer's edges are accepted, and the `isFollowing` flag of every
      other user record says whether the viewer follows it. */
  predicate ViewerFlagsAgree(s: State)
  {
    s.currentUser.Some? ==>
      var me := s.currentUser.value.id;
      && (forall c :: c in s.connections && c.userId == me ==> c.status == Accepted)
      && (forall i :: 0 <= i < |s.users| && s.users[i].id != me ==>
            (Truth(s.users[i].isFollowing) <==> Follows(s.connections, me, s.users[i].id)))
  }

  // ---------------------------------------------------------------------
  // Posts and comments
  // ---------------------------------------------------------------------

  lemma AddPostKeepsPostsCounted(s: State, post: Post)
    requires PostsCounted(s)
    ensures PostsCounted(AddPost(s, post))
  {
    var r := AddPost(s, post);
    forall i | 0 <= i < |r.users|
      ensures r.users[i].postsCount == Count(r.posts, AuthoredBy(r.users[i].id))
    {
      CountConcat([post], s.posts, AuthoredBy(s.users[i].id));
    }
  }

  /** With unique post ids, deleting a post removes exactly one post, so the
      author's counter (at least one before) falls by exactly one. */
  lemma DeletePostKeepsPostsCounted(s: State, postId: string)
    requires PostsCounted(s) && Distinct(s.posts, PostKey)
    ensures PostsCounted(DeletePost(s, postId))
    ensures Distinct(DeletePost(s, postId).posts, PostKey)
  {
    var r := DeletePost(s, postId);
    match FindIndex(s.posts, PostIdIs(postId))
    case None =>
    case Some(j) =>
      var q := PostIdIsNot(postId);
      assert r.posts == Filter(s.posts, q);
      forall i | 0 <= i < |s.posts| ensures !q(s.posts[i]) <==> i == j {
        assert i != j ==> PostKey(s.posts[i]) != PostKey(s.posts[j]);
      }
      forall i | 0 <= i < |r.users|
        ensures r.users[i].postsCount == Count(r.posts, AuthoredBy(r.users[i].id))
      {
        var a := AuthoredBy(s.users[i].id);
        CountFilterOne(s.posts, q, j, a);
        if a(s.posts[j]) {
          assert s.posts[j] in Filter(s.posts, a);
        }
      }
      FilterDistinct(s.posts, q, PostKey);
  }

  lemma AddCommentKeepsCommentsCounted(s: State, comment: Comment)
    requires CommentsCounted(s)
    ensures CommentsCounted(AddComment(s, comment))
  {
    var r := AddComment(s, comment);
    forall i | 0 <= i < |r.posts|
      ensures r.posts[i].commentsCount == Count(r.comments, OnPost(r.posts[i].id))
    {
      CountConcat(s.comments, [comment], OnPost(s.posts[i].id));
    }
  }

  /** After `addComment(c)` the comment is among the comments of its post. */
  lemma AddedCommentIsListed(s: State, comment: Comment)
    ensures comment in PostComments(AddComment(s, comment).comments, comment.postId)
  {
    assert comment in AddComment(s, comment).comments;
  }

  /** After `deletePost(id)` no post with that id is among any user's posts. */
  lemma DeletedPostIsNotListed(s: State, postId: string, userId: string)
    ensures forall p :: p in UserPosts(DeletePost(s, postId).posts, userId) ==> p.id != postId
  {
  }

  // ---------------------------------------------------------------------
  // Mutators that leave ids, authors and counted fields alone
  // ---------------------------------------------------------------------

  /** `s` and `r` hold the same users and comments, and posts with the same
      ids, authors and comment counters position by position. */
  predicate SameCountedPostFields(s: State, r: State)
  {
    && r.users == s.users && r.comments == s.comments
    && |r.posts| == |s.posts|
    && forall i :: 0 <= i < |s.posts| ==>
         && r.posts[i].id == s.posts[i].id
         && r.posts[i].userId == s.posts[i].userId
         && r.posts[i].commentsCount == s.posts[i].commentsCount
  }

  lemma SameCountedPostFieldsKeep(s: State, r: State)
    requires SameCountedPostFields(s, r)
    requires PostsCounted(s) && CommentsCounted(s) && Distinct(s.posts, PostKey)
    ensures PostsCounted(r) && CommentsCounted(r) && Distinct(r.posts, PostKey)
  {
    forall i | 0 <= i < |r.users|
      ensures r.users[i].postsCount == Count(r.posts, AuthoredBy(r.users[i].id))
    {
      CountPointwise(s.posts, AuthoredBy(s.users[i].id), r.posts, AuthoredBy(s.users[i].id));
    }
  }

  /** An update that sets neither the id, the author nor the comment counter
      keeps the post and comment counters consistent. */
  lemma UpdatePostKeepsCounts(s: State, postId: string, update: PostUpdate)
    requires PostsCounted(s) && CommentsCounted(s) && Distinct(s.posts, PostKey)
    requires update.id.None? && update.userId.None? && update.commentsCount.None?
    ensures var r := UpdatePost(s, postId, update);
      PostsCounted(r) && CommentsCounted(r) && Distinct(r.posts, PostKey)
  {
    SameCountedPostFieldsKeep(s, UpdatePost(s, postId, update));
  }

  lemma ToggleLikeKeepsCounts(s: State, postId: string)
    requires PostsCounted(s) && CommentsCounted(s) && Distinct(s.posts, PostKey)
    ensures var r := ToggleLike(s, postId);
      PostsCounted(r) && CommentsCounted(r) && Distinct(r.posts, PostKey)
  {
    SameCountedPostFieldsKeep(s, ToggleLike(s, postId));
  }

  // ---------------------------------------------------------------------
  // toggleFollow and the follow graph
  // ---------------------------------------------------------------------

  /** With the viewer's flags agreeing with its edges, toggleFollow finds an
      edge to remove exactly when the flag says it is following. */
  lemma EdgeFoundIffFollowing(s: State, userId: string)
    requires ViewerFlagsAgree(s) && FollowApplies(s, userId)
    requires s.currentUser.value.id != userId
    ensures ExistingEdge(s, s.currentUser.value.id, userId).Some? <==> FollowingFlag(s, userId)
  {
    var me := s.currentUser.value.id;
    var j := FindIndex(s.users, UserIdIs(userId)).value;
    assert s.users[j].id == userId;
    if Follows(s.connections, me, userId) {
      var c :| c in s.connections && c.userId == me && c.connectedUserId == userId && c.status == Accepted;
      var i :| 0 <= i < |s.connections| && s.connections[i] == c;
      assert EdgeIs(me, userId)(s.connections[i]);
    }
    match ExistingEdge(s, me, userId)
    case None =>
    case Some(k) =>
      assert s.connections[k] in s.connections;
  }

  /** What toggleFollow assigns, when it acts. */
  lemma ToggleFollowParts(s: State, userId: string, connId: string, now: int)
    requires FollowApplies(s, userId)
    ensures var r := ToggleFollow(s, userId, connId, now);
      var me := s.currentUser.value.id;
      var following := FollowingFlag(s, userId);
      && r.users == FollowUsers(s.users, userId, me, following)
      && r.connections == FollowConnections(s, me, userId, following, connId, now)
      && r.currentUser == s.currentUser
  {
  }

  /** The per-user counter and flag obligations of the graph invariants. */
  predicate UserAgrees(u: User, connections: seq<Connection>, me: string)
  {
    && u.followersCount == Count(connections, AcceptedInto(u.id))
    && u.followingCount == Count(connections, AcceptedFrom(u.id))
    && (u.id != me ==> (Truth(u.isFollowing) <==> Follows(connections, me, u.id)))
  }

  /** One user record after an unfollow that removes the single edge at
      position `k` (the viewer's edge to the target). */
  lemma UnfollowUser(conns: seq<Connection>, q: Connection -> bool, k: nat,
                     me: string, userId: string, u: User)
    requires k < |conns| && forall i :: 0 <= i < |conns| ==> (!q(conns[i]) <==> i == k)
    requires conns[k].userId == me && conns[k].connectedUserId == userId && conns[k].status == Accepted
    requires forall c :: c in Filter(conns, q) ==> EdgeKey(c) != (me, userId)
    requires me != userId && UserAgrees(u, conns, me)
    ensures UserAgrees(FollowToggled(u, userId, me, true), Filter(conns, q), me)
  {
    CountFilterOne(conns, q, k, AcceptedInto(u.id));
    CountFilterOne(conns, q, k, AcceptedFrom(u.id));
    assert conns[k] in conns;
    if u.id != me && u.id != userId && Follows(conns, me, u.id) {
      var c :| c in conns && c.userId == me && c.connectedUserId == u.id && c.status == Accepted;
      assert c in Filter(conns, q);
    }
  }

  /** The graph invariants survive replacing the users by their unfollow
      update and dropping the viewer's edge at position `k` by its id. */
  lemma UnfollowGraph(s: State, r: State, userId: string, k: nat)
    requires FollowsCounted(s) && ViewerFlagsAgree(s) && EdgesWellFormed(s)
    requires s.currentUser.Some? && s.currentUser.value.id != userId
    requires k < |s.connections|
    requires s.connections[k].userId == s.currentUser.value.id && s.connections[k].connectedUserId == userId
    requires r.currentUser == s.currentUser
    requires r.users == FollowUsers(s.users, userId, s.currentUser.value.id, true)
    requires r.connections == Filter(s.connections, ConnIdIsNot(s.connections[k].id))
    ensures FollowsCounted(r) && ViewerFlagsAgree(r) && EdgesWellFormed(r)
  {
    var me := s.currentUser.value.id;
    var e := s.connections[k];
    var q := ConnIdIsNot(e.id);
    forall i | 0 <= i < |s.connections| ensures !q(s.connections[i]) <==> i == k {
      assert i != k ==> ConnKey(s.connections[i]) != ConnKey(s.connections[k]);
    }
    assert e in s.connections;
    // the removed edge was the viewer's only edge to the target
    forall c | c in r.connections ensures EdgeKey(c) != (me, userId) {
      var i :| 0 <= i < |s.connections| && s.connections[i] == c;
      assert i != k ==> EdgeKey(s.connections[i]) != EdgeKey(s.connections[k]);
    }
    forall i | 0 <= i < |r.users| ensures UserAgrees(r.users[i], r.connections, me) {
      assert UserAgrees(s.users[i], s.connections, me);
      UnfollowUser(s.connections, q, k, me, userId, s.users[i]);
    }
    assert FollowsCounted(r);
    assert forall c :: c in r.connections ==> c in s.connections;
    assert ViewerFlagsAgree(r);
    FilterDistinct(s.connections, q, ConnKey);
    FilterDistinct(s.connections, q, EdgeKey);
  }

  lemma UnfollowKeepsGraph(s: State, userId: string, connId: string, now: int)
    requires FollowsCounted(s) && ViewerFlagsAgree(s) && EdgesWellFormed(s)
    requires FollowApplies(s, userId) && s.currentUser.value.id != userId
    requires FollowingFlag(s, userId)
    ensures var r := ToggleFollow(s, userId, connId, now);
      FollowsCounted(r) && ViewerFlagsAgree(r) && EdgesWellFormed(r)
  {
    var me := s.currentUser.value.id;
    ToggleFollowParts(s, userId, connId, now);
    EdgeFoundIffFollowing(s, userId);
    var k := ExistingEdge(s, me, userId).value;
    UnfollowGraph(s, ToggleFollow(s, userId, connId, now), userId, k);
  }

  /** One user record after a follow that appends the viewer's edge `x` to
      the target. */
  lemma FollowUser(conns: seq<Connection>, x: Connection, me: string, userId: string, u: User)
    requires x.userId == me && x.connectedUserId == userId && x.status == Accepted
    requires !Follows(conns, me, userId)
    requires me != userId && UserAgrees(u, conns, me)
    ensures UserAgrees(FollowToggled(u, userId, me, false), conns + [x], me)
  {
    CountConcat(conns, [x], AcceptedInto(u.id));
    CountConcat(conns, [x], AcceptedFrom(u.id));
    if u.id != me {
      FollowsAfterAppend(conns, x, me, u.id);
    }
  }

  /** Appending the viewer's edge to `userId` makes the viewer follow
      exactly the users it followed before, and `userId`. */
  lemma FollowsAfterAppend(conns: seq<Connection>, x: Connection, me: string, id: string)
    requires x.userId == me && x.status == Accepted
    ensures Follows(conns + [x], me, id) <==> Follows(conns, me, id) || x.connectedUserId == id
  {
    if Follows(conns, me, id) {
      var c :| c in conns && c.userId == me && c.connectedUserId == id && c.status == Accepted;
      assert c in conns + [x];
    }
    assert x in conns + [x];
  }

  lemma NoEdgeFound(conns: seq<Connection>, me: string, userId: string)
    requires FindIndex(conns, EdgeIs(me, userId)).None?
    ensures forall i :: 0 <= i < |conns| ==> EdgeKey(conns[i]) != (me, userId)
    ensures forall c :: c in conns ==> EdgeKey(c) != (me, userId)
  {
    forall i | 0 <= i < |conns| ensures EdgeKey(conns[i]) != (me, userId) {
      assert !EdgeIs(me, userId)(conns[i]);
    }
  }

  /** The graph invariants survive replacing the users by their follow
      update and appending a fresh accepted edge from the viewer to a target
      it has no edge to. */
  lemma FollowGraph(s: State, r: State, userId: string, x: Connection)
    requires FollowsCounted(s) && ViewerFlagsAgree(s) && EdgesWellFormed(s)
    requires s.currentUser.Some? && s.currentUser.value.id != userId
    requires x.userId == s.currentUser.value.id && x.connectedUserId == userId && x.status == Accepted
    requires forall i :: 0 <= i < |s.connections| ==> s.connections[i].id != x.id
    requires FindIndex(s.connections, EdgeIs(s.currentUser.value.id, userId)).None?
    requires r.currentUser == s.currentUser
    requires r.users == FollowUsers(s.users, userId, s.currentUser.value.id, false)
    requires r.connections == s.connections + [x]
    ensures FollowsCounted(r) && ViewerFlagsAgree(r) && EdgesWellFormed(r)
  {
    var me := s.currentUser.value.id;
    NoEdgeFound(s.connections, me, userId);
    assert !Follows(s.connections, me, userId);
    forall i | 0 <= i < |r.users| ensures UserAgrees(r.users[i], r.connections, me) {
      assert UserAgrees(s.users[i], s.connections, me);
      FollowUser(s.connections, x, me, userId, s.users[i]);
    }
    assert FollowsCounted(r);
    forall c | c in r.connections && c.userId == me ensures c.status == Accepted {
      assert c in s.connections || c == x;
    }
    assert ViewerFlagsAgree(r);
    assert EdgeKey(x) == (me, userId);
    DistinctAppend(s.connections, x, ConnKey);
    DistinctAppend(s.connections, x, EdgeKey);
  }

  lemma FollowKeepsGraph(s: State, userId: string, connId: string, now: int)
    requires FollowsCounted(s) && ViewerFlagsAgree(s) && EdgesWellFormed(s)
    requires FollowApplies(s, userId) && s.currentUser.value.id != userId
    requires !FollowingFlag(s, userId)
    requires forall i :: 0 <= i < |s.connections| ==> s.connections[i].id != connId
    ensures var r := ToggleFollow(s, userId, connId, now);
      FollowsCounted(r) && ViewerFlagsAgree(r) && EdgesWellFormed(r)
  {
    var me := s.currentUser.value.id;
    ToggleFollowParts(s, userId, connId, now);
    EdgeFoundIffFollowing(s, userId);
    FollowGraph(s, ToggleFollow(s, userId, connId, now), userId, Connection(connId, me, userId, Accepted, now));
  }

  /** toggleFollow keeps the follow counters, the viewer's flags and the
      edge list consistent, provided the target is not the viewer and the
      new connection id is fresh. */
  lemma ToggleFollowKeepsGraph(s: State, userId: string, connId: string, now: int)
    requires FollowsCounted(s) && ViewerFlagsAgree(s) && EdgesWellFormed(s)
    requires s.currentUser.Some? ==> s.currentUser.value.id != userId
    requires forall i :: 0 <= i < |s.connections| ==> s.connections[i].id != connId
    ensures var r := ToggleFollow(s, userId, connId, now);
      FollowsCounted(r) && ViewerFlagsAgree(r) && EdgesWellFormed(r)
  {
    if FollowApplies(s, userId) {
      if FollowingFlag(s, userId) {
        UnfollowKeepsGraph(s, userId, connId, now);
      } else {
        FollowKeepsGraph(s, userId, connId, now);
      }
    }
  }
}
