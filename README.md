# Social graph store, modelled in Dafny

This project models the in-memory store of a small social-feed app,
`useSocialStore` in `src/store/socialStore.ts`. The store holds a viewer
pointer (`currentUser`) and four collections: users, posts, comments and
directed "follows" connections. It has seven mutators:

- `setCurrentUser`
- `addPost`, `updatePost`, `deletePost`
- `toggleLike`
- `addComment`
- `toggleFollow`

It has four read-only queries:

- `getPostComments`, `getUserPosts`
- `getUserFollowers`, `getUserFollowing`

User and post records carry counters: `postsCount`, `followersCount` and
`followingCount` on users, and `likesCount` and `commentsCount` on posts. The
mutators update these counters by hand, next to the change to a collection.
The store also keeps two flags relative to the viewer, `isFollowing` and
`isLiked`.

Layout, one module per file:

- `collections.dfy` (`Collections`): the JavaScript array operations the
  store uses, as functions on sequences. `find` is `FindIndex` (first match),
  `filter` is `Filter`, and there is a counting `Count`. The stable `sort`
  is `SortBy`, an insertion sort with proofs that it is sorted, a
  permutation, stable, and the only stable sorted order (`SortByUnique`).
- `entities.dfy` (`Entities`): the records `User`, `Post`, `Comment` and
  `Connection`, and `PostUpdate` for `Partial<Post>`. It also defines
  `Merge` for the object spread `{ ...p, ...updates }`, `Truth` for
  `flag || false`, and the predicates the store's callbacks use.
- `transitions.dfy` (`Transitions`): the snapshot `State` and each mutator
  as a total function from the old snapshot to the new one.
- `queries.dfy` (`Queries`): the four queries.
- `invariants.dfy` (`Invariants`): the consistency the counters and flags
  are meant to keep with the collections (`PostsCounted`,
  `CommentsCounted`, `FollowsCounted`, `EdgesWellFormed`,
  `ViewerFlagsAgree`), with lemmas saying which mutators keep which
  invariant, and under which conditions.
- `laws.dfy` (`Laws`): what two toggles in a row do, and what a self-follow
  does.
- `histories.dfy` (`Histories`): any sequence of allowed calls keeps the
  store consistent.
- `scenarios.dfy` (`Scenarios`): worked examples with concrete records.
- `store.dfy` (`SocialStore`): the store as a class whose fields its
  methods reassign. Each method's postcondition is its transition function
  applied to the old snapshot, and each method also keeps consistency when
  its call is allowed (`Histories.Keeps`). Each pure mutator is a `set`
  with an updater function: it computes the next snapshot and writes back
  only the fields its object literal names. `ToggleFollow` builds its new
  connection list step by step, as the source does.

How the model represents the source:

- **Record types:** the record types live in `src/types`, which is not part
  of this model. Their fields are taken from the records the store reads
  and writes and from the records the screens build: the new post in
  `src/screens/CreatePostScreen.tsx` (lines 38-49) and the new comment in
  `src/screens/PostDetailsScreen.tsx` (lines 49-58).
- **Optional fields:** these are `Option` values.
- **Timestamps:** ISO-8601 strings and `Date` arithmetic become integers
  ordered like the instants they denote.
- **Generated values:** the `conn-${Date.now()}` id and the timestamp of a
  new connection are parameters of `ToggleFollow`.

Three points where the code does something other than a first reading
suggests. The model follows the code in each:

- Both queries sort non-strictly: posts or comments with equal timestamps
  keep their collection order.
- Following oneself changes only `followersCount`, not both of the viewer's
  counters. The `if` on the target id returns before the viewer branch is
  reached (`SelfFollowSkewsFollowingCount`).
- Two `toggleLike` calls restore the truth value of `isLiked`, not the
  field. An absent flag comes back as `false`.

Properties the source does not enforce but its counters rely on are stated
as part of the consistency conjunction `Histories.Consistent` or as
caller obligations in `Histories.Allowed`:

- post ids and connection ids are unique;
- an update leaves `id`, `userId` and `commentsCount` alone;
- the viewer does not follow itself;
- a new viewer's users already carry the right `isFollowing` flags, since
  `setCurrentUser` (line 32) does not recompute them;
- a new post's `commentsCount` equals the number of comments already filed
  under its id, which is not zero when comments of a deleted post with the
  same id remain;
- every edge out of the viewer is accepted. With a pending request from
  the viewer to a user, `toggleFollow` of that user flips the flag and moves
  both counters but adds no edge (lines 111-117);
- only the records in `users` are checked. The `currentUser` copy is not:
  `addPost`, `deletePost` and `toggleFollow` never update it (lines 34-39,
  53-55, 127-130), so its
  counters go stale (`Scenarios.ViewerCopyGoesStale`).

`Scenarios.PendingRequestSkewsCounts` gives a concrete store for the pending
request case.

`Scenarios.DuplicateIdSkewsPostsCount`, `Laws.SelfFollowSkewsFollowingCount`
and `Laws.ExistingEdgeSkewsFollowerCount` show the counters drifting when
unique ids, no self-follow or accepted viewer edges are missing.

## Model

| member | source | states |
|---|---|---|
| Transitions.SetCurrentUser | src/store/socialStore.ts:32 | the viewer becomes the given user, unvalidated; the collections are unchanged |
| Transitions.AddPost | src/store/socialStore.ts:34-39 | the post is prepended; every user with the author's id gains one post; other fields of users are unchanged and so are the other collections; no check of the author or of duplicate ids |
| Transitions.UpdatePost | src/store/socialStore.ts:41-45 | every post with the id becomes the merge of the update into it; other posts and collections are unchanged; no match leaves the state unchanged |
| Entities.MergeLaws | src/store/socialStore.ts:43 | merging an empty update is the identity and merging an update twice equals merging it once |
| Transitions.DeletePost | src/store/socialStore.ts:47-57 | no match leaves the state unchanged; otherwise the remaining posts are the old ones with other ids, in their order and with their multiplicities (`Filter`); the first match's author gets max(0, count-1), which is never negative; other users and all comments stay |
| Transitions.ToggleLike | src/store/socialStore.ts:59-73 | no match leaves the state unchanged; otherwise every post with the id gets the definite negation of the first match's flag (absent reads false) and that post's count moved by one the same way, with no floor; nothing else changes |
| Transitions.AddComment | src/store/socialStore.ts:75-82 | the comment is appended even without a parent post; every post with its post id gains one comment; nothing else changes |
| Transitions.FollowUsers | src/store/socialStore.ts:92-107 | the target takes the definite negated flag and its follower counter moves by one; the viewer, when not the target, moves its following counter by one; every other record and every other field is kept, position by position |
| Transitions.ToggleFollow | src/store/socialStore.ts:84-131 | no viewer or no target leaves the state unchanged; the target's flag becomes the definite negation and its follower count moves, and the viewer, when not the target, moves its following count; on unfollow with an existing edge the list is filtered by that edge's id, keeping the order and multiplicity of the rest and getting shorter; on follow with no edge one accepted edge is appended; otherwise the list is kept; at most one edge is added |
| Queries.PostComments | src/store/socialStore.ts:133-137 | exactly the comments on the post, with their multiplicities, in ascending timestamp order, with equal timestamps in collection order |
| Queries.PostCommentsUnique | src/store/socialStore.ts:133-137 | any ascending order of the post's comments that keeps equal timestamps in collection order is the query's result |
| Queries.UserPosts | src/store/socialStore.ts:139-143 | exactly the user's posts, with their multiplicities, newest first, with equal timestamps in collection order |
| Queries.UserPostsUnique | src/store/socialStore.ts:139-143 | any newest-first order of the user's posts that keeps equal timestamps in collection order is the query's result |
| Queries.FollowerIds | src/store/socialStore.ts:146-148 | an id is listed if and only if it has an accepted edge into the user |
| Queries.UserFollowers | src/store/socialStore.ts:145-150 | the user records whose id has an accepted edge into the user, in `users` order and with their multiplicities (`Filter` by followership) |
| Queries.FollowingIds | src/store/socialStore.ts:153-155 | an id is listed if and only if the user has an accepted edge to it |
| Queries.UserFollowing | src/store/socialStore.ts:152-157 | the user records the user has an accepted edge to, in `users` order and with their multiplicities (`Filter` by being followed) |
| Collections.FindIndex | src/store/socialStore.ts:48 | the index of the first element satisfying the predicate, or none exactly when no element does |
| Collections.Filter | src/store/socialStore.ts:52 | exactly the elements satisfying the predicate, with their multiplicities, never longer than the input; `FilterConcat` fixes their order |
| Collections.SortBy | src/store/socialStore.ts:136 | an ascending permutation of the input |
| Collections.SortByStable | src/store/socialStore.ts:136 | elements with equal keys keep their relative order |
| Collections.SortByUnique | src/store/socialStore.ts:136 | any sorted sequence with the same equal-key classes as the input equals the sort |
| Invariants.AddPostKeepsPostsCounted | src/store/socialStore.ts:34-39 | adding a post keeps every user's post counter equal to its number of posts |
| Invariants.DeletePostKeepsPostsCounted | src/store/socialStore.ts:47-57 | with unique post ids, deleting a post keeps every post counter equal to the user's number of posts, and keeps ids unique |
| Invariants.DeletedPostIsNotListed | src/store/socialStore.ts:47-57 | after a delete, no post with the id appears among any user's posts |
| Invariants.AddCommentKeepsCommentsCounted | src/store/socialStore.ts:75-82 | adding a comment keeps every post's comment counter equal to its number of comments |
| Invariants.AddedCommentIsListed | src/store/socialStore.ts:75-82 | after adding a comment it is among the comments of its post |
| Invariants.UpdatePostKeepsCounts | src/store/socialStore.ts:41-45 | from a store whose post and comment counters are consistent and whose post ids are unique, an update that sets no id, author or comment counter keeps all three |
| Invariants.ToggleLikeKeepsCounts | src/store/socialStore.ts:59-73 | from a store whose post and comment counters are consistent and whose post ids are unique, toggling a like keeps all three |
| Invariants.EdgeFoundIffFollowing | src/store/socialStore.ts:109-115 | for a target other than the viewer, when the viewer's flags agree with its edges, an edge to the target exists if and only if the target's flag says following |
| Invariants.UnfollowKeepsGraph | src/store/socialStore.ts:84-131 | an unfollow of a user other than the viewer keeps follower and following counters equal to the edge counts, the flags in agreement, and edges unique |
| Invariants.FollowKeepsGraph | src/store/socialStore.ts:84-131 | a follow of a user other than the viewer, with a fresh connection id, keeps the same three graph invariants |
| Invariants.ToggleFollowKeepsGraph | src/store/socialStore.ts:84-131 | any toggle of a user other than the viewer, with a fresh connection id, keeps the graph invariants |
| Laws.ToggleLikeTwice | src/store/socialStore.ts:59-73 | two toggles give every post with the id the first match's count and flag truth, with the flag now present; nothing else changes |
| Laws.ToggleLikeTwiceRestores | src/store/socialStore.ts:59-73 | with unique ids, two toggles restore every post's like count and flag truth and leave its other fields as they were |
| Laws.FollowToggledTwice | src/store/socialStore.ts:92-107 | the per-user step applied with the flag and then its negation restores the counters |
| Laws.ToggleFollowTwiceRestoresUsers | src/store/socialStore.ts:84-107 | two toggles restore every user's counters, and the target's flag to its truth value |
| Laws.FollowThenUnfollowRestoresEdges | src/store/socialStore.ts:109-125 | a follow with no prior edge and a fresh connection id appends one accepted edge, and the next toggle removes it, restoring the connections |
| Laws.SelfFollowSkewsFollowingCount | src/store/socialStore.ts:92-107 | a self-follow leaves the viewer's following counter out of step with its edges |
| Laws.ExistingEdgeSkewsFollowerCount | src/store/socialStore.ts:92-125 | a follow of an unflagged target that already has an edge from the viewer, such as a pending request, adds no edge but raises the follower counter, breaking the counter invariant |
| Histories.StepKeepsConsistent | src/store/socialStore.ts:32-131 | each allowed mutator call keeps every counter, flag and uniqueness invariant |
| Histories.RunKeepsConsistent | src/store/socialStore.ts:32-131 | any sequence of allowed calls from a consistent store ends consistent |
| Scenarios.CreateAndLike | src/store/socialStore.ts:34-73 | a new post credits its author; liking twice goes to one like and back to zero |
| Scenarios.FollowGraph | src/store/socialStore.ts:84-150 | a follow makes both counters one and the viewer the sole follower; a second toggle returns both to zero with no followers |
| Scenarios.DeleteOrphansComment | src/store/socialStore.ts:47-57 | deleting a post zeroes its author's counter, hides it from the author's posts and keeps its comment |
| Scenarios.DuplicateIdSkewsPostsCount | src/store/socialStore.ts:34-57 | two posts with one id are both removed by a delete, but the counter drops by one only |
| Scenarios.PendingRequestSkewsCounts | src/store/socialStore.ts:84-131 | with a pending request from the viewer and all counters right, a follow adds no edge and leaves the follower counter out of step |
| Scenarios.ViewerCopyGoesStale | src/store/socialStore.ts:34-39 | after an addPost the author's record in `users` is credited while the viewer copy keeps its old counter |
| SocialStore.Store.constructor | src/store/socialStore.ts:25-30 | the store starts with the given seed snapshot |
| SocialStore.Store.SetCurrentUser | src/store/socialStore.ts:32 | the new snapshot is the transition's, and an allowed call keeps consistency |
| SocialStore.Store.AddPost | src/store/socialStore.ts:34-39 | the new snapshot is the transition's, and an allowed call keeps consistency |
| SocialStore.Store.UpdatePost | src/store/socialStore.ts:41-45 | the new snapshot is the transition's, and an allowed call keeps consistency |
| SocialStore.Store.DeletePost | src/store/socialStore.ts:47-57 | the new snapshot is the transition's, and a call from a consistent store keeps consistency |
| SocialStore.Store.ToggleLike | src/store/socialStore.ts:59-73 | the new snapshot is the transition's, and a call from a consistent store keeps consistency |
| SocialStore.Store.AddComment | src/store/socialStore.ts:75-82 | the new snapshot is the transition's, and a call from a consistent store keeps consistency |
| SocialStore.Store.ToggleFollow | src/store/socialStore.ts:84-131 | the imperatively built users and connections equal the transition's, and an allowed call keeps consistency |
| SocialStore.Store.GetPostComments | src/store/socialStore.ts:133-137 | exactly the post's stored comments, with their multiplicities, in ascending timestamp order, with equal timestamps in collection order |
| SocialStore.Store.GetUserPosts | src/store/socialStore.ts:139-143 | exactly the user's stored posts, with their multiplicities, newest first, with equal timestamps in collection order |
| SocialStore.Store.GetUserFollowers | src/store/socialStore.ts:145-150 | the stored users with an accepted edge into the user, in `users` order and with their multiplicities |
| SocialStore.Store.GetUserFollowing | src/store/socialStore.ts:152-157 | the stored users the user has an accepted edge to, in `users` order and with their multiplicities |

## Left out

- The zustand `create`/`set`/`get` machinery (line 25) is replaced by the
  class's fields and methods. Subscriptions and re-rendering are not
  modelled.
- The seed data from `src/data/mockData` is not part of this model. The
  constructor takes any seed snapshot.
- `Date.now()` and `new Date().toISOString()` (lines 119, 123) become the
  `connId` and `now` parameters. An invalid date string, whose `getTime()`
  is `NaN` and makes the comparator inconsistent, is not modelled.
- Which sorting algorithm the JavaScript engine runs is not modelled. The
  model pins down its result instead: the engine's sort is stable, and
  `SortByUnique` shows there is only one stable sorted result.
- The screens, `App.tsx` and `src/utils/dateUtils.ts` are presentation and
  not part of this model. The non-empty-content checks in the screens are
  guards on the caller side, not store behaviour.
- `Partial<Post>` keys beyond the fields of `Post` are not modelled.
- `PostUpdate` can leave out any key and can give an optional field the
  value `undefined`, but it cannot give a required field such as
  `likesCount` an explicit `undefined`, which `Partial<Post>` admits and the
  spread would copy.
- Histories.RunKeepsConsistent: holds only for histories whose calls meet
  `Histories.Allowed`. These obligations are listed above: unique ids, no
  self-follow, edits that leave ids and counters alone, a correctly flagged
  new viewer, and a new post counting its existing comments. Its
  `Consistent` also demands accepted viewer edges and says nothing about
  the `currentUser` copy's counters.
- Invariants.DeletePostKeepsPostsCounted: assumes unique post ids, which the
  store does not enforce; `Scenarios.DuplicateIdSkewsPostsCount` shows the
  counter drifting without it.
- Invariants.ToggleFollowKeepsGraph: excludes following oneself, which the
  store allows; `Laws.SelfFollowSkewsFollowingCount` shows the counter
  drifting then.
- Invariants.EdgeFoundIffFollowing: only for a target other than the viewer.
  The viewer's own flag is not tied to its edges, so for a self-toggle the
  flag and the edge can disagree.
- Invariants.UnfollowKeepsGraph: excludes unfollowing oneself. A
  self-unfollow removes the viewer's edge to itself and lowers only
  `followersCount` (lines 93-99), so `followingCount` drifts.
- Invariants.FollowKeepsGraph: excludes following oneself, for the reason
  `Laws.SelfFollowSkewsFollowingCount` shows.
- Laws.FollowThenUnfollowRestoresEdges: needs a fresh id for the first
  follow. Otherwise the unfollow's filter by id (line 116) also removes
  older connections with the same id.
