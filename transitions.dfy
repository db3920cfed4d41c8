/** The store's snapshot and each mutator as a total function from the old
    snapshot to the new one. A missing target makes a mutator return the
    snapshot unchanged; nothing is ever rejected. */
module Transitions {
  import opened Collections
  import opened Entities

  /** Everything the store holds: the viewer and the four collections. */
  datatype State = State(
    currentUser: Option<User>,
    users: seq<User>,
    posts: seq<Post>,
    comments: seq<Comment>,
    connections: seq<Connection>)

  function Max(a: int, b: int): int { if a < b then b else a }

  // ---------------------------------------------------------------------
  // setCurrentUser
  // ---------------------------------------------------------------------

  /** Replaces the viewer pointer without validating it. */
  function SetCurrentUser(s: State, user: User): (r: State)
    ensures r.currentUser == Some(user)
    ensures r.users == s.users && r.posts == s.posts
    ensures r.comments == s.comments && r.connections == s.connections
  {
    s.(currentUser := Some(user))
  }

  // ---------------------------------------------------------------------
  // addPost
  // ---------------------------------------------------------------------

  function CreditPost(u: User, authorId: string): User
  {
    if u.id == authorId then u.(postsCount := u.postsCount + 1) else u
  }

  /** Prepends the post and bumps the counter of every user record with the
      author's id; an unknown author or a duplicate post id is not rejected. */
  function AddPost(s: State, post: Post): (r: State)
    ensures r.posts == [post] + s.posts
    ensures |r.users| == |s.users|
    ensures forall i :: 0 <= i < |s.users| ==>
      && r.users[i].postsCount == s.users[i].postsCount + (if s.users[i].id == post.userId then 1 else 0)
      && r.users[i].(postsCount := s.users[i].postsCount) == s.users[i]
    ensures r.currentUser == s.currentUser
    ensures r.comments == s.comments && r.connections == s.connections
  {
    s.(posts := [post] + s.posts,
       users := seq(|s.users|, i requires 0 <= i < |s.users| => CreditPost(s.users[i], post.userId)))
  }

  // ---------------------------------------------------------------------
  // updatePost
  // ---------------------------------------------------------------------

  /** Merges the update into every post with the id; counters are not
      touched unless the update itself carries them. */
  function UpdatePost(s: State, postId: string, update: PostUpdate): (r: State)
    ensures |r.posts| == |s.posts|
    ensures forall i :: 0 <= i < |s.posts| ==>
      r.posts[i] == (if s.posts[i].id == postId then Merge(s.posts[i], update) else s.posts[i])
    ensures FindIndex(s.posts, PostIdIs(postId)).None? ==> r == s
    ensures r.currentUser == s.currentUser && r.users == s.users
    ensures r.comments == s.comments && r.connections == s.connections
  {
    var posts := seq(|s.posts|, i requires 0 <= i < |s.posts| =>
      if s.posts[i].id == postId then Merge(s.posts[i], update) else s.posts[i]);
    assert FindIndex(s.posts, PostIdIs(postId)).None? ==> posts == s.posts;
    s.(posts := posts)
  }

  // ---------------------------------------------------------------------
  // deletePost
  // ---------------------------------------------------------------------

  function DebitPost(u: User, authorId: string): User
  {
    if u.id == authorId then u.(postsCount := Max(0, u.postsCount - 1)) else u
  }

  /** Removes every post with the id and lowers, floored at zero, the
      counter of the author of the first such post. Comments on the post
      stay in the store. No post with the id: nothing changes. */
  function DeletePost(s: State, postId: string): (r: State)
    ensures FindIndex(s.posts, PostIdIs(postId)).None? ==> r == s
    ensures forall p :: p in r.posts <==> p in s.posts && p.id != postId
    ensures FindIndex(s.posts, PostIdIs(postId)).Some? ==> r.posts == Filter(s.posts, PostIdIsNot(postId))
    ensures |r.users| == |s.users|
    ensures FindIndex(s.posts, PostIdIs(postId)).Some? ==>
      var author := s.posts[FindIndex(s.posts, PostIdIs(postId)).value].userId;
      forall i :: 0 <= i < |s.users| ==>
        if s.users[i].id == author then
          && r.users[i].postsCount >= 0
          && r.users[i].postsCount == Max(0, s.users[i].postsCount - 1)
          && r.users[i].(postsCount := s.users[i].postsCount) == s.users[i]
        else r.users[i] == s.users[i]
    ensures r.currentUser == s.currentUser
    ensures r.comments == s.comments && r.connections == s.connections
  {
    match FindIndex(s.posts, PostIdIs(postId))
    case None => s
    case Some(j) =>
      var author := s.posts[j].userId;
      s.(posts := Filter(s.posts, PostIdIsNot(postId)),
         users := seq(|s.users|, i requires 0 <= i < |s.users| => DebitPost(s.users[i], author)))
  }

  // ---------------------------------------------------------------------
  // toggleLike
  // ---------------------------------------------------------------------

  /** Every post with the id takes the flipped flag and the adjusted count
      of the first post with that id. */
  function LikeToggled(p: Post, postId: string, liked: bool, count: int): Post
  {
    if p.id == postId then
      p.(isLiked := Some(!liked), likesCount := if liked then count - 1 else count + 1)
    else p
  }

  /** Flips the liked flag of the post (an absent flag counts as false) and
      moves its like counter one step the same way, with no floor. */
  function ToggleLike(s: State, postId: string): (r: State)
    ensures FindIndex(s.posts, PostIdIs(postId)).None? ==> r == s
    ensures |r.posts| == |s.posts|
    ensures FindIndex(s.posts, PostIdIs(postId)).Some? ==>
      var first := s.posts[FindIndex(s.posts, PostIdIs(postId)).value];
      forall i :: 0 <= i < |s.posts| ==>
        if s.posts[i].id == postId then
          && r.posts[i].isLiked == Some(!Truth(first.isLiked))
          && r.posts[i].likesCount == first.likesCount + (if Truth(first.isLiked) then -1 else 1)
          && r.posts[i].(isLiked := s.posts[i].isLiked, likesCount := s.posts[i].likesCount) == s.posts[i]
        else r.posts[i] == s.posts[i]
    ensures r.currentUser == s.currentUser && r.users == s.users
    ensures r.comments == s.comments && r.connections == s.connections
  {
    match FindIndex(s.posts, PostIdIs(postId))
    case None => s
    case Some(j) =>
      var liked := Truth(s.posts[j].isLiked);
      var count := s.posts[j].likesCount;
      s.(posts := seq(|s.posts|, i requires 0 <= i < |s.posts| => LikeToggled(s.posts[i], postId, liked, count)))
  }

  // ---------------------------------------------------------------------
  // addComment
  // ---------------------------------------------------------------------

  function CreditComment(p: Post, postId: string): Post
  {
    if p.id == postId then p.(commentsCount := p.commentsCount + 1) else p
  }

  /** Appends the comment, whether or not its post exists, and bumps the
      comment counter of every post with the comment's post id. */
  function AddComment(s: State, comment: Comment): (r: State)
    ensures r.comments == s.comments + [comment]
    ensures |r.posts| == |s.posts|
    ensures forall i :: 0 <= i < |s.posts| ==>
      && r.posts[i].commentsCount == s.posts[i].commentsCount + (if s.posts[i].id == comment.postId then 1 else 0)
      && r.posts[i].(commentsCount := s.posts[i].commentsCount) == s.posts[i]
    ensures r.currentUser == s.currentUser && r.users == s.users
    ensures r.connections == s.connections
  {
    s.(comments := s.comments + [comment],
       posts := seq(|s.posts|, i requires 0 <= i < |s.posts| => CreditComment(s.posts[i], comment.postId)))
  }

  // ---------------------------------------------------------------------
  // toggleFollow
  // ---------------------------------------------------------------------

  /** toggleFollow acts only when there is a viewer and a user with the id. */
  predicate FollowApplies(s: State, userId: string)
  {
    s.currentUser.Some? && FindIndex(s.users, UserIdIs(userId)).Some?
  }

  /** The `isFollowing || false` flag of the first user with the id. */
  function FollowingFlag(s: State, userId: string): bool
    requires FollowApplies(s, userId)
  {
    Truth(s.users[FindIndex(s.users, UserIdIs(userId)).value].isFollowing)
  }

  /** The per-user step of toggleFollow: the target flips its flag and moves
      its follower counter; otherwise the viewer's record moves its
      following counter. A target that is the viewer takes the first branch
      only. */
  function FollowToggled(u: User, userId: string, viewerId: string, following: bool): User
  {
    if u.id == userId then
      u.(isFollowing := Some(!following),
         followersCount := if following then u.followersCount - 1 else u.followersCount + 1)
    else if u.id == viewerId then
      u.(followingCount := if following then u.followingCount - 1 else u.followingCount + 1)
    else u
  }

  /** The users after a toggle: the target takes the definite flipped flag
      and moves its follower counter by one; the viewer, when it is not the
      target, moves its following counter by one; every other record and
      every other field is kept. */
  function FollowUsers(users: seq<User>, userId: string, viewerId: string, following: bool): (r: seq<User>)
    ensures |r| == |users|
    ensures forall i :: 0 <= i < |users| ==>
      if users[i].id == userId then
        && r[i].isFollowing == Some(!following)
        && r[i].followersCount == users[i].followersCount + (if following then -1 else 1)
        && r[i].(isFollowing := users[i].isFollowing, followersCount := users[i].followersCount) == users[i]
      else if users[i].id == viewerId then
        && r[i].followingCount == users[i].followingCount + (if following then -1 else 1)
        && r[i].(followingCount := users[i].followingCount) == users[i]
      else r[i] == users[i]
  {
    seq(|users|, i requires 0 <= i < |users| => FollowToggled(users[i], userId, viewerId, following))
  }

  /** The edge an unfollow removes, or the absence that lets a follow add one. */
  function ExistingEdge(s: State, viewerId: string, userId: string): Option<nat>
  {
    FindIndex(s.connections, EdgeIs(viewerId, userId))
  }

  /** The connection list after a toggle: an unfollow with an existing edge
      drops every connection with that edge's id; a follow with no edge adds
      one accepted edge; every other combination keeps the list. */
  function FollowConnections(s: State, viewerId: string, userId: string, following: bool,
                             connId: string, now: int): seq<Connection>
  {
    match ExistingEdge(s, viewerId, userId)
    case Some(k) =>
      if following then Filter(s.connections, ConnIdIsNot(s.connections[k].id)) else s.connections
    case None =>
      if following then s.connections
      else s.connections + [Connection(connId, viewerId, userId, Accepted, now)]
  }

  /** Toggles the viewer's follow of a user. `connId` and `now` stand for the
      `conn-${Date.now()}` id and the ISO timestamp of a new edge. */
  function ToggleFollow(s: State, userId: string, connId: string, now: int): (r: State)
    ensures !FollowApplies(s, userId) ==> r == s
    ensures FollowApplies(s, userId) ==>
      var following := FollowingFlag(s, userId);
      var viewerId := s.currentUser.value.id;
      && |r.users| == |s.users|
      && (forall i :: 0 <= i < |s.users| ==>
            if s.users[i].id == userId then
              && r.users[i].isFollowing == Some(!following)
              && r.users[i].followersCount == s.users[i].followersCount + (if following then -1 else 1)
              && r.users[i].(isFollowing := s.users[i].isFollowing,
                             followersCount := s.users[i].followersCount) == s.users[i]
            else if s.users[i].id == viewerId then
              && r.users[i].followingCount == s.users[i].followingCount + (if following then -1 else 1)
              && r.users[i].(followingCount := s.users[i].followingCount) == s.users[i]
            else r.users[i] == s.users[i])
      && (match ExistingEdge(s, viewerId, userId)
          case Some(k) =>
            if following then
              && r.connections == Filter(s.connections, ConnIdIsNot(s.connections[k].id))
              && (forall c :: c in r.connections <==> c in s.connections && c.id != s.connections[k].id)
              && |r.connections| < |s.connections|
            else r.connections == s.connections
          case None =>
            if following then r.connections == s.connections
            else r.connections == s.connections + [Connection(connId, viewerId, userId, Accepted, now)])
    ensures |r.connections| <= |s.connections| + 1
    ensures r.currentUser == s.currentUser && r.posts == s.posts && r.comments == s.comments
  {
    if !FollowApplies(s, userId) then s
    else
      var following := FollowingFlag(s, userId);
      var viewerId := s.currentUser.value.id;
      var conns := FollowConnections(s, viewerId, userId, following, connId, now);
      match ExistingEdge(s, viewerId, userId)
      case Some(k) =>
        var r := s.(users := FollowUsers(s.users, userId, viewerId, following), connections := conns);
        if following then
          FilterDrops(s.connections, ConnIdIsNot(s.connections[k].id), s.connections[k]);
          r
        else r
      case None =>
        s.(users := FollowUsers(s.users, userId, viewerId, following), connections := conns)
  }
}
