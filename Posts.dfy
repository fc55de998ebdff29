/** The post records every widget works on, as the upstream list delivers
    them (`{userId, id, title, body}`), and the per-user count that the two
    charts are built from. */
module Posts {
  import JsArray

  datatype Post = Post(userId: nat, id: nat, title: string, body: string)

  /** How many posts in `posts` belong to user `uid`. */
  function CountUser(posts: seq<Post>, uid: nat): (c: nat)
    ensures c <= |posts|
  {
    if posts == [] then 0
    else (if posts[0].userId == uid then 1 else 0) + CountUser(posts[1..], uid)
  }

  /** The distinct user ids that occur in `posts`. */
  ghost function UserIds(posts: seq<Post>): set<nat> {
    set p | p in posts :: p.userId
  }

  /** A user has at least one post exactly when their id occurs in the list. */
  lemma {:induction false} CountUserPositive(posts: seq<Post>, uid: nat)
    ensures CountUser(posts, uid) >= 1 <==> uid in UserIds(posts)
  {
    if posts != [] {
      CountUserPositive(posts[1..], uid);
      assert posts == [posts[0]] + posts[1..];
      assert UserIds(posts) == {posts[0].userId} + UserIds(posts[1..]);
    }
  }

  /** Counting one more post at the end. */
  lemma {:induction false} CountUserAppend(posts: seq<Post>, p: Post, uid: nat)
    ensures CountUser(posts + [p], uid) == CountUser(posts, uid) + (if p.userId == uid then 1 else 0)
  {
    if posts != [] {
      assert (posts + [p])[1..] == posts[1..] + [p];
      CountUserAppend(posts[1..], p, uid);
    }
  }

  /** Keeping the posts of one user keeps exactly as many as that user has. */
  lemma {:induction false} FilterByUserCount(posts: seq<Post>, uid: nat)
    ensures |JsArray.Filter(posts, (p: Post) => p.userId == uid)| == CountUser(posts, uid)
  {
    if posts != [] {
      FilterByUserCount(posts[1..], uid);
    }
  }
}
