/** The social store as a mutable object: the viewer pointer and four
    collections as fields, one method per mutator and one function per
    query. Every method leaves the snapshot its transition function gives,
    and keeps the store consistent when its call is allowed. */
module SocialStore {
  import opened Collections
  import opened Entities
  import T = Transitions
  import Q = Queries
  import I = Invariants
  import H = Histories

  class Store {
    var currentUser: Option<User>
    var users: seq<User>
    var posts: seq<Post>
    var comments: seq<Comment>
    var connections: seq<Connection>

    /** The fields as one value. */
    function Snapshot(): T.State
      reads this
    {
      T.State(currentUser, users, posts, comments, connections)
    }

    /** A store seeded with the given data. */
    constructor (seed: T.State)
      ensures Snapshot() == seed
    {
      currentUser := seed.currentUser;
      users := seed.users;
      posts := seed.posts;
      comments := seed.comments;
      connections := seed.connections;
    }

    // Each pure mutator is `set(state => ({ ...fields }))`: it computes the
    // next snapshot from the current one and assigns back exactly the
    // fields its object literal names.

    method SetCurrentUser(user: User)
      modifies this
      ensures Snapshot() == T.SetCurrentUser(old(Snapshot()), user)
      ensures H.Keeps(old(Snapshot()), H.SetViewer(user), Snapshot())
    {
      ghost var before := Snapshot();
      currentUser := Some(user);
      assert H.Apply(before, H.SetViewer(user)) == Snapshot();
      H.StepPreserves(before, H.SetViewer(user));
    }

    method AddPost(post: Post)
      modifies this
      ensures Snapshot() == T.AddPost(old(Snapshot()), post)
      ensures H.Keeps(old(Snapshot()), H.NewPost(post), Snapshot())
    {
      ghost var before := Snapshot();
      var next := T.AddPost(Snapshot(), post);
      posts, users := next.posts, next.users;
      assert Snapshot() == next;
      assert H.Apply(before, H.NewPost(post)) == Snapshot();
      H.StepPreserves(before, H.NewPost(post));
    }

    method UpdatePost(postId: string, update: PostUpdate)
      modifies this
      ensures Snapshot() == T.UpdatePost(old(Snapshot()), postId, update)
      ensures H.Keeps(old(Snapshot()), H.EditPost(postId, update), Snapshot())
    {
      ghost var before := Snapshot();
      var next := T.UpdatePost(Snapshot(), postId, update);
      posts := next.posts;
      assert Snapshot() == next;
      assert H.Apply(before, H.EditPost(postId, update)) == Snapshot();
      H.StepPreserves(before, H.EditPost(postId, update));
    }

    method DeletePost(postId: string)
      modifies this
      ensures Snapshot() == T.DeletePost(old(Snapshot()), postId)
      ensures H.Keeps(old(Snapshot()), H.RemovePost(postId), Snapshot())
    {
      ghost var before := Snapshot();
      var next := T.DeletePost(Snapshot(), postId);
      posts, users := next.posts, next.users;
      assert Snapshot() == next;
      assert H.Apply(before, H.RemovePost(postId)) == Snapshot();
      H.StepPreserves(before, H.RemovePost(postId));
    }

    method ToggleLike(postId: string)
      modifies this
      ensures Snapshot() == T.ToggleLike(old(Snapshot()), postId)
      ensures H.Keeps(old(Snapshot()), H.Like(postId), Snapshot())
    {
      ghost var before := Snapshot();
      var next := T.ToggleLike(Snapshot(), postId);
      posts := next.posts;
      assert Snapshot() == next;
      assert H.Apply(before, H.Like(postId)) == Snapshot();
      H.StepPreserves(before, H.Like(postId));
    }

    method AddComment(comment: Comment)
      modifies this
      ensures Snapshot() == T.AddComment(old(Snapshot()), comment)
      ensures H.Keeps(old(Snapshot()), H.NewComment(comment), Snapshot())
    {
      ghost var before := Snapshot();
      var next := T.AddComment(Snapshot(), comment);
      comments, posts := next.comments, next.posts;
      assert Snapshot() == next;
      assert H.Apply(before, H.NewComment(comment)) == Snapshot();
      H.StepPreserves(before, H.NewComment(comment));
    }

    /** Builds the new connection list step by step: a copy, then either a
        filtered copy without the existing edge or the copy with one new
        accepted edge appended. */
    method ToggleFollow(userId: string, connId: string, now: int)
      modifies this
      ensures Snapshot() == T.ToggleFollow(old(Snapshot()), userId, connId, now)
      ensures H.Keeps(old(Snapshot()), H.Follow(userId, connId, now), Snapshot())
    {
      ghost var before := Snapshot();
      var found := FindIndex(users, UserIdIs(userId));
      if found.Some? && currentUser.Some? {
        var isFollowing := Truth(users[found.value].isFollowing);
        var currentUserId := currentUser.value.id;
        var updatedUsers := T.FollowUsers(users, userId, currentUserId, isFollowing);

        var updatedConnections := connections;
        var existing := FindIndex(updatedConnections, EdgeIs(currentUserId, userId));
        if isFollowing && existing.Some? {
          updatedConnections := Filter(updatedConnections, ConnIdIsNot(updatedConnections[existing.value].id));
        } else if !isFollowing && existing.None? {
          updatedConnections := updatedConnections + [Connection(connId, currentUserId, userId, Accepted, now)];
        }
        assert updatedConnections == T.FollowConnections(before, currentUserId, userId, isFollowing, connId, now);

        users := updatedUsers;
        connections := updatedConnections;
        I.ToggleFollowParts(before, userId, connId, now);
      }
      assert Snapshot() == T.ToggleFollow(before, userId, connId, now);
      assert H.Apply(before, H.Follow(userId, connId, now)) == Snapshot();
      H.StepPreserves(before, H.Follow(userId, connId, now));
    }

    /** The comments on a post, oldest first, ties in collection order. */
    function GetPostComments(postId: string): (r: seq<Comment>)
      reads this
      ensures forall c :: c in r <==> c in comments && c.postId == postId
      ensures forall c :: multiset(r)[c] == if c.postId == postId then multiset(comments)[c] else 0
      ensures forall i, j :: 0 <= i < j < |r| ==> r[i].createdAt <= r[j].createdAt
      ensures forall t :: KeyClass(r, CommentTime, t) == KeyClass(Filter(comments, OnPost(postId)), CommentTime, t)
    {
      Q.PostComments(comments, postId)
    }

    /** The posts of a user, newest first, ties in collection order. */
    function GetUserPosts(userId: string): (r: seq<Post>)
      reads this
      ensures forall p :: p in r <==> p in posts && p.userId == userId
      ensures forall p :: multiset(r)[p] == if p.userId == userId then multiset(posts)[p] else 0
      ensures forall i, j :: 0 <= i < j < |r| ==> r[i].createdAt >= r[j].createdAt
      ensures forall t :: KeyClass(r, PostAge, t) == KeyClass(Filter(posts, AuthoredBy(userId)), PostAge, t)
    {
      Q.UserPosts(posts, userId)
    }

    /** The user records of the followers of a user, in collection order. */
    function GetUserFollowers(userId: string): (r: seq<User>)
      reads this
      ensures r == Filter(users, Q.FollowerOf(connections, userId))
      ensures forall u :: u in r <==> u in users && Q.Follows(connections, u.id, userId)
      ensures forall u :: multiset(r)[u] == if Q.Follows(connections, u.id, userId) then multiset(users)[u] else 0
    {
      Q.UserFollowers(users, connections, userId)
    }

    /** The user records of the users a user follows, in collection order. */
    function GetUserFollowing(userId: string): (r: seq<User>)
      reads this
      ensures r == Filter(users, Q.FollowedBy(connections, userId))
      ensures forall u :: u in r <==> u in users && Q.Follows(connections, userId, u.id)
      ensures forall u :: multiset(r)[u] == if Q.Follows(connections, userId, u.id) then multiset(users)[u] else 0
    {
      Q.UserFollowing(users, connections, userId)
    }
  }
}
