/** The bar chart of posts per user: a counting dictionary keyed by
    `userId`, filled in place by one pass over the posts, then read out as
    `Object.keys` / `Object.values` into parallel `labels` and `data`.
    The keys are array indices (user ids below 2^32 - 1), so JavaScript
    enumerates them in ascending numeric order (OrdinaryOwnPropertyKeys,
    section 10.1.11.1 of ECMA-262), not in the order they were first seen. */
module Chart1Widget {
  import opened JsNumber
  import opened JsArray
  import opened Posts

  ghost predicate Ascending(keys: seq<nat>) {
    forall i, j :: 0 <= i < j < |keys| ==> keys[i] < keys[j]
  }

  /** The `forEach` tally: `userPostCount[post.userId] = (… || 0) + 1`. */
  method CountPostsPerUser(posts: seq<Post>) returns (userPostCount: map<nat, nat>)
    ensures userPostCount.Keys == UserIds(posts)
    ensures forall u :: u in userPostCount ==> userPostCount[u] == CountUser(posts, u)
  {
    userPostCount := map[];
    for i := 0 to |posts|
      invariant userPostCount.Keys == UserIds(posts[..i])
      invariant forall u :: u in userPostCount ==> userPostCount[u] == CountUser(posts[..i], u)
    {
      var post := posts[i];
      var before := userPostCount;
      var previous := if post.userId in userPostCount then userPostCount[post.userId] else 0;
      userPostCount := userPostCount[post.userId := previous + 1];
      assert posts[..i + 1] == posts[..i] + [post];
      assert UserIds(posts[..i + 1]) == UserIds(posts[..i]) + {post.userId};
      forall u | u in userPostCount
        ensures userPostCount[u] == CountUser(posts[..i + 1], u)
      {
        CountUserAppend(posts[..i], post, u);
        if u == post.userId && u !in before {
          CountUserPositive(posts[..i], u);
        }
      }
    }
    assert posts[..|posts|] == posts;
  }

  /** Every non-empty finite set of naturals has a least element. */
  lemma {:induction false} LeastElement(s: set<nat>) returns (least: nat)
    requires s != {}
    ensures least in s && forall u :: u in s ==> least <= u
    decreases |s|
  {
    var x :| x in s;
    var rest := s - {x};
    least := x;
    if rest != {} {
      var m := LeastElement(rest);
      if m < x {
        least := m;
      }
    }
    forall u | u in s ensures least <= u {
      assert u == x || u in rest;
    }
  }

  /** `Object.keys(userPostCount)`: every key once, in ascending order. */
  method ObjectKeys(userPostCount: map<nat, nat>) returns (keys: seq<nat>)
    ensures Ascending(keys)
    ensures forall u :: u in keys <==> u in userPostCount
  {
    keys := [];
    var rest := userPostCount.Keys;
    while rest != {}
      invariant forall u :: u in userPostCount <==> u in keys || u in rest
      invariant Ascending(keys)
      invariant forall i, u :: 0 <= i < |keys| && u in rest ==> keys[i] < u
      decreases rest
    {
      ghost var least := LeastElement(rest);
      var k :| k in rest && forall u :: u in rest ==> k <= u;
      keys := keys + [k];
      rest := rest - {k};
    }
  }

  /** `Object.values(userPostCount)`, which enumerates in the same key order. */
  function ObjectValues(userPostCount: map<nat, nat>, keys: seq<nat>): (values: seq<nat>)
    requires forall i :: 0 <= i < |keys| ==> keys[i] in userPostCount
    ensures |values| == |keys|
    ensures forall i :: 0 <= i < |keys| ==> values[i] == userPostCount[keys[i]]
  {
    seq(|keys|, i requires 0 <= i < |keys| => userPostCount[keys[i]])
  }

  /** `users.map(userId => "User " + userId)`. */
  function Labels(users: seq<nat>): (labels: seq<string>)
    ensures |labels| == |users|
    ensures forall i :: 0 <= i < |users| ==> labels[i] == "User " + NatToString(users[i])
  {
    seq(|users|, i requires 0 <= i < |users| => "User " + NatToString(users[i]))
  }

  /** The per-user counts over a list of distinct keys. */
  function CountsFor(keys: seq<nat>, posts: seq<Post>): seq<nat> {
    seq(|keys|, i requires 0 <= i < |keys| => CountUser(posts, keys[i]))
  }

  /** How often `uid` occurs in `keys`: once if present when keys are distinct. */
  function Occurrences(keys: seq<nat>, uid: nat): nat {
    if keys == [] then 0 else (if keys[0] == uid then 1 else 0) + Occurrences(keys[1..], uid)
  }

  lemma {:induction false} OccurrencesOfAscending(keys: seq<nat>, uid: nat)
    requires Ascending(keys)
    ensures Occurrences(keys, uid) == if uid in keys then 1 else 0
  {
    if keys != [] {
      OccurrencesOfAscending(keys[1..], uid);
      assert keys == [keys[0]] + keys[1..];
      if keys[0] == uid {
        assert uid !in keys[1..];
      }
    }
  }

  /** Adding one post at the front raises the total by the occurrences of its user id. */
  lemma {:induction false} SumCountsCons(keys: seq<nat>, p: Post, posts: seq<Post>)
    ensures Sum(CountsFor(keys, [p] + posts)) == Occurrences(keys, p.userId) + Sum(CountsFor(keys, posts))
  {
    if keys != [] {
      SumCountsCons(keys[1..], p, posts);
      assert CountsFor(keys, [p] + posts)[1..] == CountsFor(keys[1..], [p] + posts);
      assert CountsFor(keys, posts)[1..] == CountsFor(keys[1..], posts);
      assert ([p] + posts)[1..] == posts;
    }
  }

  lemma {:induction false} SumCountsEmpty(keys: seq<nat>)
    ensures Sum(CountsFor(keys, [])) == 0
  {
    if keys != [] {
      SumCountsEmpty(keys[1..]);
      assert CountsFor(keys, [])[1..] == CountsFor(keys[1..], []);
    }
  }

  /** The counts over all distinct user ids add up to the number of posts. */
  lemma {:induction false} SumOfCounts(keys: seq<nat>, posts: seq<Post>)
    requires Ascending(keys)
    requires forall u :: u in UserIds(posts) ==> u in keys
    ensures Sum(CountsFor(keys, posts)) == |posts|
  {
    if posts == [] {
      SumCountsEmpty(keys);
    } else {
      var p := posts[0];
      assert posts == [p] + posts[1..];
      assert p.userId in UserIds(posts);
      assert UserIds(posts[1..]) <= UserIds(posts);
      SumCountsCons(keys, p, posts[1..]);
      OccurrencesOfAscending(keys, p.userId);
      SumOfCounts(keys, posts[1..]);
    }
  }

  /** The chart data: one bar per distinct user id in ascending order,
      labelled "User <id>", whose height is that user's post count; the bars
      add up to the number of posts, and no posts give no bars. */
  method BuildBarChart(posts: seq<Post>) returns (users: seq<nat>, labels: seq<string>, data: seq<nat>)
    ensures |users| == |labels| == |data|
    ensures Ascending(users)
    ensures forall u :: u in users <==> u in UserIds(posts)
    ensures forall i :: 0 <= i < |users| ==>
      labels[i] == "User " + NatToString(users[i]) && data[i] == CountUser(posts, users[i]) && data[i] >= 1
    ensures Sum(data) == |posts|
    ensures posts == [] ==> labels == [] && data == []
  {
    var userPostCount := CountPostsPerUser(posts);
    users := ObjectKeys(userPostCount);
    data := ObjectValues(userPostCount, users);
    labels := Labels(users);
    forall i | 0 <= i < |users| ensures data[i] >= 1 {
      CountUserPositive(posts, users[i]);
    }
    assert data == CountsFor(users, posts);
    SumOfCounts(users, posts);
  }
}
