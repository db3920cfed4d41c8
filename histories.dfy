/** Sequences of store operations and the consistency they keep. */
module Histories {
  import opened Collections
  import opened Entities
  import opened Transitions
  import opened Invariants

  /** One call of a store mutator, with its arguments. */
  datatype Op =
    | SetViewer(user: User)
    | NewPost(post: Post)
    | EditPost(postId: string, update: PostUpdate)
    | RemovePost(postId: string)
    | Like(postId: string)
    | NewComment(comment: Comment)
    | Follow(userId: string, connId: string, now: int)

  function Apply(s: State, op: Op): State
  {
    match op
    case SetViewer(u) => SetCurrentUser(s, u)
    case NewPost(p) => AddPost(s, p)
    case EditPost(id, u) => UpdatePost(s, id, u)
    case RemovePost(id) => DeletePost(s, id)
    case Like(id) => ToggleLike(s, id)
    case NewComment(c) => AddComment(s, c)
    case Follow(id, connId, now) => ToggleFollow(s, id, connId, now)
  }

  function Run(s: State, ops: seq<Op>): State
    decreases |ops|
  {
    if ops == [] then s else Run(Apply(s, ops[0]), ops[1..])
  }

  /** Every counter and flag agrees with the collections, post ids and
      connection ids are unique, and no pair has two edges. */
  predicate Consistent(s: State)
  {
    && PostsCounted(s) && CommentsCounted(s) && Distinct(s.posts, PostKey)
    && FollowsCounted(s) && ViewerFlagsAgree(s) && EdgesWellFormed(s)
  }

  /** What a caller must respect for a call to keep the store consistent:
      fresh ids, a new post's comment counter matching the comments already
      filed under its id, no edit of ids, authors or comment counters, no
      self-follow, and a new viewer whose flags are already right. */
  predicate Allowed(s: State, op: Op)
  {
    match op
    case SetViewer(u) => ViewerFlagsAgree(SetCurrentUser(s, u))
    case NewPost(p) =>
      && (forall i :: 0 <= i < |s.posts| ==> s.posts[i].id != p.id)
      && p.commentsCount == Count(s.comments, OnPost(p.id))
    case EditPost(_, u) => u.id.None? && u.userId.None? && u.commentsCount.None?
    case RemovePost(_) => true
    case Like(_) => true
    case NewComment(_) => true
    case Follow(id, connId, _) =>
      && (s.currentUser.Some? ==> s.currentUser.value.id != id)
      && (forall i :: 0 <= i < |s.connections| ==> s.connections[i].id != connId)
  }

  predicate AllAllowed(s: State, ops: seq<Op>)
    decreases |ops|
  {
    ops == [] || (Allowed(s, ops[0]) && AllAllowed(Apply(s, ops[0]), ops[1..]))
  }

  /** `s` and `r` hold the same connections and viewer, and users that agree
      position by position on everything but the post counter. */
  predicate SameGraph(s: State, r: State)
  {
    && r.connections == s.connections && r.currentUser == s.currentUser
    && |r.users| == |s.users|
    && forall i :: 0 <= i < |s.users| ==> r.users[i].(postsCount := s.users[i].postsCount) == s.users[i]
  }

  lemma SameGraphKeeps(s: State, r: State)
    requires SameGraph(s, r) && FollowsCounted(s) && ViewerFlagsAgree(s) && EdgesWellFormed(s)
    ensures FollowsCounted(r) && ViewerFlagsAgree(r) && EdgesWellFormed(r)
  {
    forall i | 0 <= i < |s.users|
      ensures r.users[i].id == s.users[i].id && r.users[i].isFollowing == s.users[i].isFollowing
      ensures r.users[i].followersCount == s.users[i].followersCount
      ensures r.users[i].followingCount == s.users[i].followingCount
    {
      assert r.users[i].(postsCount := s.users[i].postsCount) == s.users[i];
    }
  }

  lemma AddPostKeepsSameGraph(s: State, p: Post)
    ensures SameGraph(s, AddPost(s, p))
  {
  }

  lemma AddPostKeepsCommentsCounted(s: State, p: Post)
    requires CommentsCounted(s) && p.commentsCount == Count(s.comments, OnPost(p.id))
    ensures CommentsCounted(AddPost(s, p))
  {
    var r := AddPost(s, p);
    forall i | 0 <= i < |r.posts|
      ensures r.posts[i].commentsCount == Count(r.comments, OnPost(r.posts[i].id))
    {
      if i > 0 { assert r.posts[i] == s.posts[i - 1]; }
    }
  }

  lemma AddPostKeepsDistinct(s: State, p: Post)
    requires Distinct(s.posts, PostKey)
    requires forall i :: 0 <= i < |s.posts| ==> s.posts[i].id != p.id
    ensures Distinct(AddPost(s, p).posts, PostKey)
  {
    var posts := AddPost(s, p).posts;
    forall i, j | 0 <= i < j < |posts| ensures PostKey(posts[i]) != PostKey(posts[j]) {
      assert posts[j] == s.posts[j - 1];
      if i > 0 { assert posts[i] == s.posts[i - 1]; }
    }
  }

  lemma NewPostKeeps(s: State, p: Post)
    requires Consistent(s) && Allowed(s, NewPost(p))
    ensures Consistent(AddPost(s, p))
  {
    AddPostKeepsPostsCounted(s, p);
    AddPostKeepsCommentsCounted(s, p);
    AddPostKeepsDistinct(s, p);
    AddPostKeepsSameGraph(s, p);
    SameGraphKeeps(s, AddPost(s, p));
  }

  lemma DeletePostKeepsSameGraph(s: State, id: string)
    ensures SameGraph(s, DeletePost(s, id))
  {
  }

  lemma DeletePostKeepsCommentsCounted(s: State, id: string)
    requires CommentsCounted(s)
    ensures CommentsCounted(DeletePost(s, id))
  {
    var r := DeletePost(s, id);
    forall i | 0 <= i < |r.posts|
      ensures r.posts[i].commentsCount == Count(r.comments, OnPost(r.posts[i].id))
    {
      assert r.posts[i] in s.posts;
    }
  }

  lemma RemovePostKeeps(s: State, id: string)
    requires Consistent(s)
    ensures Consistent(DeletePost(s, id))
  {
    DeletePostKeepsPostsCounted(s, id);
    DeletePostKeepsCommentsCounted(s, id);
    DeletePostKeepsSameGraph(s, id);
    SameGraphKeeps(s, DeletePost(s, id));
  }

  lemma AddCommentKeepsPostsCounted(s: State, c: Comment)
    requires PostsCounted(s)
    ensures PostsCounted(AddComment(s, c))
  {
    var r := AddComment(s, c);
    forall i | 0 <= i < |r.users|
      ensures r.users[i].postsCount == Count(r.posts, AuthoredBy(r.users[i].id))
    {
      CountPointwise(s.posts, AuthoredBy(s.users[i].id), r.posts, AuthoredBy(s.users[i].id));
    }
  }

  lemma AddCommentKeepsDistinct(s: State, c: Comment)
    requires Distinct(s.posts, PostKey)
    ensures Distinct(AddComment(s, c).posts, PostKey)
  {
    var posts := AddComment(s, c).posts;
    assert forall i :: 0 <= i < |s.posts| ==> PostKey(posts[i]) == PostKey(s.posts[i]);
  }

  lemma NewCommentKeeps(s: State, c: Comment)
    requires Consistent(s)
    ensures Consistent(AddComment(s, c))
  {
    AddCommentKeepsCommentsCounted(s, c);
    AddCommentKeepsPostsCounted(s, c);
    AddCommentKeepsDistinct(s, c);
  }

  /** `r` holds the same posts and comments as `s`, and users that keep
      their ids and post counters position by position. */
  predicate SamePostData(s: State, r: State)
  {
    && r.posts == s.posts && r.comments == s.comments && |r.users| == |s.users|
    && forall i :: 0 <= i < |s.users| ==>
         r.users[i].id == s.users[i].id && r.users[i].postsCount == s.users[i].postsCount
  }

  lemma SamePostDataKeeps(s: State, r: State)
    requires SamePostData(s, r) && PostsCounted(s) && CommentsCounted(s) && Distinct(s.posts, PostKey)
    ensures PostsCounted(r) && CommentsCounted(r) && Distinct(r.posts, PostKey)
  {
  }

  lemma ToggleFollowKeepsPostData(s: State, id: string, connId: string, now: int)
    ensures SamePostData(s, ToggleFollow(s, id, connId, now))
  {
    if FollowApplies(s, id) {
      ToggleFollowParts(s, id, connId, now);
    }
  }

  lemma FollowKeeps(s: State, id: string, connId: string, now: int)
    requires Consistent(s) && Allowed(s, Follow(id, connId, now))
    ensures Consistent(ToggleFollow(s, id, connId, now))
  {
    ToggleFollowKeepsGraph(s, id, connId, now);
    ToggleFollowKeepsPostData(s, id, connId, now);
    SamePostDataKeeps(s, ToggleFollow(s, id, connId, now));
  }

  lemma SetViewerKeeps(s: State, u: User)
    requires Consistent(s) && Allowed(s, SetViewer(u))
    ensures Consistent(SetCurrentUser(s, u))
  {
    var r := SetCurrentUser(s, u);
    assert PostsCounted(r) && CommentsCounted(r) && FollowsCounted(r) && EdgesWellFormed(r);
  }

  lemma EditPostKeeps(s: State, id: string, u: PostUpdate)
    requires Consistent(s) && Allowed(s, EditPost(id, u))
    ensures Consistent(UpdatePost(s, id, u))
  {
    var r := UpdatePost(s, id, u);
    UpdatePostKeepsCounts(s, id, u);
    assert r.users == s.users && r.connections == s.connections && r.currentUser == s.currentUser;
    assert FollowsCounted(r) && ViewerFlagsAgree(r) && EdgesWellFormed(r);
  }

  lemma LikeKeeps(s: State, id: string)
    requires Consistent(s)
    ensures Consistent(ToggleLike(s, id))
  {
    var r := ToggleLike(s, id);
    ToggleLikeKeepsCounts(s, id);
    assert r.users == s.users && r.connections == s.connections && r.currentUser == s.currentUser;
    assert FollowsCounted(r) && ViewerFlagsAgree(r) && EdgesWellFormed(r);
  }

  /** Each allowed call keeps the store consistent. */
  lemma StepKeepsConsistent(s: State, op: Op)
    requires Consistent(s) && Allowed(s, op)
    ensures Consistent(Apply(s, op))
  {
    match op
    case SetViewer(u) => SetViewerKeeps(s, u);
    case NewPost(p) => NewPostKeeps(s, p);
    case EditPost(id, u) => EditPostKeeps(s, id, u);
    case RemovePost(id) => RemovePostKeeps(s, id);
    case Like(id) => LikeKeeps(s, id);
    case NewComment(c) => NewCommentKeeps(s, c);
    case Follow(id, connId, now) => FollowKeeps(s, id, connId, now);
  }

  /** A call of `op` from `s` to `r` keeps consistency if it is allowed. */
  predicate Keeps(s: State, op: Op, r: State)
  {
    Consistent(s) && Allowed(s, op) ==> Consistent(r)
  }

  /** StepKeepsConsistent as one implication a caller can use without a
      case split. */
  lemma StepPreserves(s: State, op: Op)
    ensures Keeps(s, op, Apply(s, op))
  {
    if Consistent(s) && Allowed(s, op) {
      StepKeepsConsistent(s, op);
    }
  }

  /** Any history of allowed calls from a consistent store ends in a
      consistent store: every counter equals the count it caches. */
  lemma {:induction false} RunKeepsConsistent(s: State, ops: seq<Op>)
    requires Consistent(s) && AllAllowed(s, ops)
    ensures Consistent(Run(s, ops))
    decreases |ops|
  {
    if ops != [] {
      StepKeepsConsistent(s, ops[0]);
      RunKeepsConsistent(Apply(s, ops[0]), ops[1..]);
    }
  }
}
