/** The four record types the store holds, and the partial post used by
    `updatePost`. Timestamps (ISO-8601 strings in the application) are
    modelled as integers ordered like the instants they denote. */
module Entities {
  import opened Collections

  /** A person in the graph. `isFollowing` is relative to the viewer and
      absent on the viewer's own record. */
  datatype User = User(
    id: string,
    name: string,
    avatar: Option<string>,
    postsCount: int,
    followersCount: int,
    followingCount: int,
    isFollowing: Option<bool>)

  datatype Post = Post(
    id: string,
    userId: string,
    userName: string,
    userAvatar: Option<string>,
    content: string,
    imageUrl: Option<string>,
    likesCount: int,
    commentsCount: int,
    sharesCount: int,
    isLiked: Option<bool>,
    createdAt: int)

  datatype Comment = Comment(
    id: string,
    postId: string,
    userId: string,
    userName: string,
    userAvatar: Option<string>,
    content: string,
    likesCount: int,
    createdAt: int)

  datatype ConnectionStatus = Pending | Accepted

  /** A directed "follows" edge from `userId` to `connectedUserId`. */
  datatype Connection = Connection(
    id: string,
    userId: string,
    connectedUserId: string,
    status: ConnectionStatus,
    createdAt: int)

  /** A `Partial<Post>`: None is a key the object does not have. For the
      optional fields of Post, Some(None) is a key present with the value
      `undefined`, which the object spread copies over the old value. */
  datatype PostUpdate = PostUpdate(
    id: Option<string>,
    userId: Option<string>,
    userName: Option<string>,
    userAvatar: Option<Option<string>>,
    content: Option<string>,
    imageUrl: Option<Option<string>>,
    likesCount: Option<int>,
    commentsCount: Option<int>,
    sharesCount: Option<int>,
    isLiked: Option<Option<bool>>,
    createdAt: Option<int>)

  const NoUpdate := PostUpdate(None, None, None, None, None, None, None, None, None, None, None)

  /** `flag || false`: an absent flag reads as false. */
  function Truth(flag: Option<bool>): bool
  {
    flag == Some(true)
  }

  function Pick<T>(o: Option<T>, current: T): T
  {
    if o.Some? then o.value else current
  }

  /** `{ ...p, ...updates }`: every key present in `updates` wins. */
  function Merge(p: Post, u: PostUpdate): Post
  {
    p.(id := Pick(u.id, p.id),
       userId := Pick(u.userId, p.userId),
       userName := Pick(u.userName, p.userName),
       userAvatar := Pick(u.userAvatar, p.userAvatar),
       content := Pick(u.content, p.content),
       imageUrl := Pick(u.imageUrl, p.imageUrl),
       likesCount := Pick(u.likesCount, p.likesCount),
       commentsCount := Pick(u.commentsCount, p.commentsCount),
       sharesCount := Pick(u.sharesCount, p.sharesCount),
       isLiked := Pick(u.isLiked, p.isLiked),
       createdAt := Pick(u.createdAt, p.createdAt))
  }

  /** Merging the empty update leaves a post as it was; merging the same
      update twice is the same as merging it once. */
  lemma MergeLaws(p: Post, u: PostUpdate)
    ensures Merge(p, NoUpdate) == p
    ensures Merge(Merge(p, u), u) == Merge(p, u)
  {
  }

  // The predicates the store's `find` and `filter` calls use.

  function UserIdIs(id: string): User -> bool { (u: User) => u.id == id }
  function PostIdIs(id: string): Post -> bool { (p: Post) => p.id == id }
  function PostIdIsNot(id: string): Post -> bool { (p: Post) => p.id != id }
  function AuthoredBy(userId: string): Post -> bool { (p: Post) => p.userId == userId }
  function OnPost(postId: string): Comment -> bool { (c: Comment) => c.postId == postId }
  function ConnIdIsNot(id: string): Connection -> bool { (c: Connection) => c.id != id }

  /** An edge from `from` to `to`, whatever its status. */
  function EdgeIs(from: string, to: string): Connection -> bool
  {
    (c: Connection) => c.userId == from && c.connectedUserId == to
  }

  /** An accepted edge into `userId` (a follower of it). */
  function AcceptedInto(userId: string): Connection -> bool
  {
    (c: Connection) => c.connectedUserId == userId && c.status == Accepted
  }

  /** An accepted edge out of `userId` (someone it follows). */
  function AcceptedFrom(userId: string): Connection -> bool
  {
    (c: Connection) => c.userId == userId && c.status == Accepted
  }

  function PostKey(p: Post): string { p.id }
  function ConnKey(c: Connection): string { c.id }

  /** The ordered pair of endpoints of an edge. */
  function EdgeKey(c: Connection): (string, string) { (c.userId, c.connectedUserId) }

  function CommentTime(c: Comment): int { c.createdAt }

  /** Sort key for newest-first order: the comparator `b - a` orders like an
      ascending comparison of negated timestamps. */
  function PostAge(p: Post): int { -p.createdAt }
}
