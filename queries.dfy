/** The store's read-only queries. Each builds a fresh sequence from the
    collections and changes nothing. */
module Queries {
  import opened Collections
  import opened Entities

  /** The comments on a post, oldest first; comments with equal timestamps
      keep their order in the collection (the engine's sort is stable). */
  function PostComments(comments: seq<Comment>, postId: string): (r: seq<Comment>)
    ensures forall c :: c in r <==> c in comments && c.postId == postId
    ensures forall c :: multiset(r)[c] == if c.postId == postId then multiset(comments)[c] else 0
    ensures forall i, j :: 0 <= i < j < |r| ==> r[i].createdAt <= r[j].createdAt
    ensures forall t :: KeyClass(r, CommentTime, t) == KeyClass(Filter(comments, OnPost(postId)), CommentTime, t)
  {
    var mine := Filter(comments, OnPost(postId));
    var r := SortBy(mine, CommentTime);
    SortByKeeps(mine, CommentTime);
    r
  }

  /** The posts of a user, newest first; posts with equal timestamps keep
      their order in the collection. */
  function UserPosts(posts: seq<Post>, userId: string): (r: seq<Post>)
    ensures forall p :: p in r <==> p in posts && p.userId == userId
    ensures forall p :: multiset(r)[p] == if p.userId == userId then multiset(posts)[p] else 0
    ensures forall i, j :: 0 <= i < j < |r| ==> r[i].createdAt >= r[j].createdAt
    ensures forall t :: KeyClass(r, PostAge, t) == KeyClass(Filter(posts, AuthoredBy(userId)), PostAge, t)
  {
    var mine := Filter(posts, AuthoredBy(userId));
    var r := SortBy(mine, PostAge);
    SortByKeeps(mine, PostAge);
    AgeOrderIsNewestFirst(r);
    r
  }

  lemma AgeOrderIsNewestFirst(r: seq<Post>)
    requires SortedBy(r, PostAge)
    ensures forall i, j :: 0 <= i < j < |r| ==> r[i].createdAt >= r[j].createdAt
  {
    forall i, j | 0 <= i < j < |r| ensures r[i].createdAt >= r[j].createdAt {
      assert PostAge(r[i]) <= PostAge(r[j]);
    }
  }

  /** PostComments is the only ascending order of the post's comments that
      keeps equal timestamps in collection order: whatever stable sort the
      engine runs gives this sequence. */
  lemma PostCommentsUnique(comments: seq<Comment>, postId: string, t: seq<Comment>)
    requires forall i, j :: 0 <= i < j < |t| ==> t[i].createdAt <= t[j].createdAt
    requires forall k :: KeyClass(t, CommentTime, k) == KeyClass(Filter(comments, OnPost(postId)), CommentTime, k)
    ensures t == PostComments(comments, postId)
  {
    assert SortedBy(t, CommentTime) by {
      forall i, j | 0 <= i < j < |t| ensures CommentTime(t[i]) <= CommentTime(t[j]) {}
    }
    SortByUnique(Filter(comments, OnPost(postId)), t, CommentTime);
  }

  /** Likewise UserPosts is the only newest-first order of the user's posts
      that keeps equal timestamps in collection order. */
  lemma UserPostsUnique(posts: seq<Post>, userId: string, t: seq<Post>)
    requires forall i, j :: 0 <= i < j < |t| ==> t[i].createdAt >= t[j].createdAt
    requires forall k :: KeyClass(t, PostAge, k) == KeyClass(Filter(posts, AuthoredBy(userId)), PostAge, k)
    ensures t == UserPosts(posts, userId)
  {
    assert SortedBy(t, PostAge) by {
      forall i, j | 0 <= i < j < |t| ensures PostAge(t[i]) <= PostAge(t[j]) {}
    }
    SortByUnique(Filter(posts, AuthoredBy(userId)), t, PostAge);
  }

  /** `a` follows `b` through an accepted connection. */
  predicate Follows(connections: seq<Connection>, a: string, b: string)
  {
    exists c :: c in connections && c.userId == a && c.connectedUserId == b && c.status == Accepted
  }

  /** The ids of the followers of `userId`, one per accepted edge into it. */
  function FollowerIds(connections: seq<Connection>, userId: string): (ids: seq<string>)
    ensures forall id :: id in ids <==> Follows(connections, id, userId)
  {
    var edges := Filter(connections, AcceptedInto(userId));
    var ids := seq(|edges|, i requires 0 <= i < |edges| => edges[i].userId);
    assert forall id :: id in ids ==> Follows(connections, id, userId) by {
      forall id | id in ids ensures Follows(connections, id, userId) {
        var i :| 0 <= i < |ids| && ids[i] == id;
        assert edges[i] in edges;
      }
    }
    assert forall id :: Follows(connections, id, userId) ==> id in ids by {
      forall id | Follows(connections, id, userId) ensures id in ids {
        var c :| c in connections && c.userId == id && c.connectedUserId == userId && c.status == Accepted;
        assert c in edges;
        var i :| 0 <= i < |edges| && edges[i] == c;
        assert ids[i] == id;
      }
    }
    ids
  }

  /** The ids `userId` follows, one per accepted edge out of it. */
  function FollowingIds(connections: seq<Connection>, userId: string): (ids: seq<string>)
    ensures forall id :: id in ids <==> Follows(connections, userId, id)
  {
    var edges := Filter(connections, AcceptedFrom(userId));
    var ids := seq(|edges|, i requires 0 <= i < |edges| => edges[i].connectedUserId);
    assert forall id :: id in ids ==> Follows(connections, userId, id) by {
      forall id | id in ids ensures Follows(connections, userId, id) {
        var i :| 0 <= i < |ids| && ids[i] == id;
        assert edges[i] in edges;
      }
    }
    assert forall id :: Follows(connections, userId, id) ==> id in ids by {
      forall id | Follows(connections, userId, id) ensures id in ids {
        var c :| c in connections && c.userId == userId && c.connectedUserId == id && c.status == Accepted;
        assert c in edges;
        var i :| 0 <= i < |edges| && edges[i] == c;
        assert ids[i] == id;
      }
    }
    ids
  }

  function IdIn(ids: seq<string>): User -> bool { (u: User) => u.id in ids }

  /** A user record is a follower of `userId`. */
  function FollowerOf(connections: seq<Connection>, userId: string): User -> bool
  {
    (u: User) => Follows(connections, u.id, userId)
  }

  /** A user record is followed by `userId`. */
  function FollowedBy(connections: seq<Connection>, userId: string): User -> bool
  {
    (u: User) => Follows(connections, userId, u.id)
  }

  /** The user records, in collection order, of the followers of `userId`. */
  function UserFollowers(users: seq<User>, connections: seq<Connection>, userId: string): (r: seq<User>)
    ensures r == Filter(users, FollowerOf(connections, userId))
    ensures forall u :: u in r <==> u in users && Follows(connections, u.id, userId)
    ensures forall u :: multiset(r)[u] == if Follows(connections, u.id, userId) then multiset(users)[u] else 0
  {
    var r := Filter(users, IdIn(FollowerIds(connections, userId)));
    FilterSame(users, IdIn(FollowerIds(connections, userId)), FollowerOf(connections, userId));
    r
  }

  /** The user records, in collection order, of the users `userId` follows. */
  function UserFollowing(users: seq<User>, connections: seq<Connection>, userId: string): (r: seq<User>)
    ensures r == Filter(users, FollowedBy(connections, userId))
    ensures forall u :: u in r <==> u in users && Follows(connections, userId, u.id)
    ensures forall u :: multiset(r)[u] == if Follows(connections, userId, u.id) then multiset(users)[u] else 0
  {
    var r := Filter(users, IdIn(FollowingIds(connections, userId)));
    FilterSame(users, IdIn(FollowingIds(connections, userId)), FollowedBy(connections, userId));
    r
  }
}
