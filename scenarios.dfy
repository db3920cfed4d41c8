/** Small worked scenarios: a post created and liked twice, a follow and
    unfollow between two users, and a post deleted under a comment. */
module Scenarios {
  import opened Collections
  import opened Entities
  import opened Transitions
  import opened Queries
  import Invariants
  import Laws

  const Alice := User("U1", "Alice", None, 0, 0, 0, None)
  const Bob := User("U2", "Bob", None, 0, 0, 0, None)
  const FirstPost := Post("p1", "U1", "Alice", None, "hello", None, 0, 0, 0, Some(false), 100)

  /** Creating a post credits its author; liking it twice goes up by one
      and back to the start. */
  lemma CreateAndLike()
    ensures var s0 := State(Some(Alice), [Alice], [], [], []);
      var s1 := AddPost(s0, FirstPost);
      var s2 := ToggleLike(s1, "p1");
      var s3 := ToggleLike(s2, "p1");
      && s1.users[0].postsCount == 1 && s1.posts == [FirstPost]
      && s2.posts[0].likesCount == 1 && s2.posts[0].isLiked == Some(true)
      && s3.posts[0].likesCount == 0 && s3.posts[0].isLiked == Some(false)
  {
    var s1 := AddPost(State(Some(Alice), [Alice], [], [], []), FirstPost);
    assert FindIndex(s1.posts, PostIdIs("p1")) == Some(0);
    var s2 := ToggleLike(s1, "p1");
    assert FindIndex(s2.posts, PostIdIs("p1")) == Some(0);
  }

  const Edge := Connection("c1", "U1", "U2", Accepted, 200)
  const Before := State(Some(Alice), [Alice, Bob], [], [], [])
  const Following := State(Some(Alice), [Alice.(followingCount := 1),
                                         Bob.(isFollowing := Some(true), followersCount := 1)], [], [], [Edge])
  const After := State(Some(Alice), [Alice, Bob.(isFollowing := Some(false))], [], [], [])

  lemma FollowStep()
    ensures ToggleFollow(Before, "U2", "c1", 200) == Following
  {
    assert FindIndex(Before.users, UserIdIs("U2")) == Some(1);
    assert FindIndex(Before.connections, EdgeIs("U1", "U2")) == None;
    var r := ToggleFollow(Before, "U2", "c1", 200);
    assert r.users == Following.users;
  }

  lemma UnfollowStep()
    ensures ToggleFollow(Following, "U2", "c2", 300) == After
  {
    assert FindIndex(Following.users, UserIdIs("U2")) == Some(1);
    assert FindIndex(Following.connections, EdgeIs("U1", "U2")) == Some(0);
    var r := ToggleFollow(Following, "U2", "c2", 300);
    assert Filter(Following.connections, ConnIdIsNot("c1")) == [];
    assert r.users == After.users;
  }

  /** Alice follows Bob: one accepted edge, both counters at one, and Alice
      is Bob's only follower. Toggling again removes the edge and returns
      both counters to zero. */
  lemma FollowGraph()
    ensures var s1 := ToggleFollow(Before, "U2", "c1", 200);
      var s2 := ToggleFollow(s1, "U2", "c2", 300);
      && s1.connections == [Connection("c1", "U1", "U2", Accepted, 200)]
      && s1.users[1].followersCount == 1 && s1.users[0].followingCount == 1
      && UserFollowers(s1.users, s1.connections, "U2") == [s1.users[0]]
      && s1.users[0] == Alice.(followingCount := 1)
      && s2.connections == []
      && s2.users[1].followersCount == 0 && s2.users[0].followingCount == 0
      && UserFollowers(s2.users, s2.connections, "U2") == []
  {
    FollowStep();
    UnfollowStep();
    FollowersWhileFollowing();
    FollowersAfter();
  }

  lemma FollowersWhileFollowing()
    ensures UserFollowers(Following.users, Following.connections, "U2") == [Following.users[0]]
  {
    var ids := FollowerIds(Following.connections, "U2");
    assert Filter(Following.connections, AcceptedInto("U2")) == [Edge];
    assert ids == ["U1"];
    assert Filter(Following.users, IdIn(ids)) == [Following.users[0]];
  }

  lemma FollowersAfter()
    ensures UserFollowers(After.users, After.connections, "U2") == []
  {
    assert FollowerIds(After.connections, "U2") == [];
    assert Filter(After.users, IdIn([])) == [];
  }

  /** Deleting the post returns its author's counter to zero and hides it
      from the author's posts; the comment on it stays. */
  lemma DeleteOrphansComment()
    ensures var c1 := Comment("c1", "p1", "U2", "Bob", None, "nice", 0, 150);
      var s0 := State(Some(Alice), [Alice.(postsCount := 1)], [FirstPost], [c1], []);
      var s1 := DeletePost(s0, "p1");
      && s1.users[0].postsCount == 0
      && UserPosts(s1.posts, "U1") == []
      && s1.comments == [c1]
  {
    var c1 := Comment("c1", "p1", "U2", "Bob", None, "nice", 0, 150);
    var s0 := State(Some(Alice), [Alice.(postsCount := 1)], [FirstPost], [c1], []);
    assert FindIndex(s0.posts, PostIdIs("p1")) == Some(0);
    var s1 := DeletePost(s0, "p1");
    assert s1.posts == [];
  }

  /** addPost does not reject a second post with an id already present;
      deletePost then removes both but lowers the counter once, so the
      author's counter no longer matches its posts. */
  lemma DuplicateIdSkewsPostsCount()
    ensures var s0 := State(Some(Alice), [Alice], [], [], []);
      var s2 := AddPost(AddPost(s0, FirstPost), FirstPost);
      var s3 := DeletePost(s2, "p1");
      && s2.users[0].postsCount == 2 && Count(s2.posts, AuthoredBy("U1")) == 2
      && s3.posts == []
      && s3.users[0].postsCount == 1 && Count(s3.posts, AuthoredBy("U1")) == 0
  {
    var s2 := AddPost(AddPost(State(Some(Alice), [Alice], [], [], []), FirstPost), FirstPost);
    assert s2.posts == [FirstPost, FirstPost];
    assert Filter(s2.posts, AuthoredBy("U1")) == [FirstPost, FirstPost];
    assert FindIndex(s2.posts, PostIdIs("p1")) == Some(0);
    assert Filter(s2.posts, PostIdIsNot("p1")) == [];
  }

  /** The viewer pointer is a copy: addPost credits the author's record in
      `users` but leaves the viewer's own counter where it was. */
  lemma ViewerCopyGoesStale()
    ensures var s1 := AddPost(State(Some(Alice), [Alice], [], [], []), FirstPost);
      && s1.users[0].postsCount == 1
      && s1.currentUser == Some(Alice) && Alice.postsCount == 0
  {
  }

  const Request := Connection("c0", "U1", "U2", Pending, 50)
  const Requested := State(Some(Alice), [Alice, Bob], [], [], [Request])

  /** Alice has a pending request to Bob, so every counter is right at zero.
      Toggling the follow of Bob adds no edge but counts Bob as followed. */
  lemma PendingRequestSkewsCounts()
    ensures Invariants.FollowsCounted(Requested)
    ensures ToggleFollow(Requested, "U2", "c1", 200).connections == [Request]
    ensures !Invariants.FollowsCounted(ToggleFollow(Requested, "U2", "c1", 200))
  {
    assert Filter([Request], AcceptedInto("U1")) == [] && Filter([Request], AcceptedInto("U2")) == [];
    assert Filter([Request], AcceptedFrom("U1")) == [] && Filter([Request], AcceptedFrom("U2")) == [];
    assert FindIndex(Requested.users, UserIdIs("U2")) == Some(1);
    assert FindIndex(Requested.connections, EdgeIs("U1", "U2")) == Some(0);
    Laws.ExistingEdgeSkewsFollowerCount(Requested, "U2", "c1", 200);
  }
}
