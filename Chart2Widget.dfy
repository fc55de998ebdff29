/** The line chart of cumulative posts for users 1 and 2: each user's posts
    are picked out of the list, counted, and turned into a strided series of
    at most `maxPoints` points (plus one closing point) that always ends at
    the user's true number of posts. */
module Chart2Widget {
  import opened JsNumber
  import opened JsArray
  import opened Posts

  /** One point of the series: label `x`, cumulative count `y`. */
  datatype SamplePoint = SamplePoint(x: string, y: int)

  /** The two counts shown under the chart. */
  datatype UserStats = UserStats(user1: nat, user2: nat)

  const DefaultMaxPoints: nat := 10

  /** `posts.filter(post => post.userId === uid)`: the user's posts and no
      others, as many as the user has. */
  function PostsOfUser(posts: seq<Post>, uid: nat): (userPosts: seq<Post>)
    ensures forall p :: p in userPosts <==> p in posts && p.userId == uid
    ensures |userPosts| == CountUser(posts, uid)
  {
    FilterByUserCount(posts, uid);
    Filter(posts, (p: Post) => p.userId == uid)
  }

  /** The posts of one user: in their original order, every one of them and nothing else. */
  lemma PostsOfUserSpec(posts: seq<Post>, uid: nat)
    ensures IsSubsequence(PostsOfUser(posts, uid), posts)
    ensures forall i :: 0 <= i < |PostsOfUser(posts, uid)| ==> PostsOfUser(posts, uid)[i].userId == uid
    ensures forall p :: multiset(PostsOfUser(posts, uid))[p] == if p.userId == uid then multiset(posts)[p] else 0
    ensures |PostsOfUser(posts, uid)| == CountUser(posts, uid)
  {
    FilterIsSubsequence(posts, (p: Post) => p.userId == uid);
    forall p ensures multiset(PostsOfUser(posts, uid))[p] == if p.userId == uid then multiset(posts)[p] else 0 {
      FilterMultiplicity(posts, (p: Post) => p.userId == uid, p);
    }
  }

  /** `userStats`: how many posts users 1 and 2 have. */
  function ComputeUserStats(posts: seq<Post>): (stats: UserStats)
    ensures stats.user1 == CountUser(posts, 1) && stats.user2 == CountUser(posts, 2)
  {
    UserStats(|PostsOfUser(posts, 1)|, |PostsOfUser(posts, 2)|)
  }

  /** The point for the post at (zero-based) position `i` of the user's
      list: it counts i + 1 posts. */
  function PointAt(i: nat): (point: SamplePoint)
    ensures point.y == i + 1
  {
    SamplePoint("Post " + NatToString(i + 1), i + 1)
  }

  /** A point's label is "Post " followed by digits that read back as its count. */
  lemma PointLabelReadsBack(i: nat)
    ensures var point := PointAt(i);
            && |point.x| > 5 && point.x[..5] == "Post "
            && AllDigits(point.x[5..]) && ParseDigits(point.x[5..]) == point.y
  {
    ParseNatToString(i + 1);
    assert PointAt(i).x[5..] == NatToString(i + 1);
  }

  /** `Math.ceil(userPosts.length / maxPoints)`. */
  function SampleStep(n: nat, maxPoints: nat): (step: nat)
    requires maxPoints >= 1
    ensures n > 0 <==> step >= 1
    ensures (step - 1) * maxPoints < n <= step * maxPoints
  {
    CeilDiv(n, maxPoints)
  }

  /** The series in closed form: the stride points at positions 0, step,
      2·step, … below n, then the closing point for position n−1 when the
      last stride point falls short of it. */
  function CumulativeSeries(n: nat, maxPoints: nat): seq<SamplePoint>
    requires maxPoints >= 1
  {
    if n == 0 then []
    else
      var step := SampleStep(n, maxPoints);
      var m := CeilDiv(n, step);
      // the loop `for (i = 0; i < n; i += step)` visits ceil(n / step) positions
      var stride := seq(m, k requires 0 <= k < m => PointAt(k * step));
      if stride[m - 1].y < n then stride + [PointAt(n - 1)] else stride
  }

  /** `createCumulativeData(userPosts, maxPoints)`. */
  method CreateCumulativeData(userPosts: seq<Post>, maxPoints: nat) returns (data: seq<SamplePoint>)
    requires maxPoints >= 1
    ensures data == CumulativeSeries(|userPosts|, maxPoints)
  {
    data := [];
    var n := |userPosts|;
    var step := SampleStep(n, maxPoints);
    var i := 0;
    while i < n
      invariant n > 0 ==> step >= 1
      invariant i == |data| * step
      invariant forall k :: 0 <= k < |data| ==> data[k] == PointAt(k * step)
      invariant |data| > 0 ==> (|data| - 1) * step < n
      decreases n - i
    {
      data := data + [PointAt(i)];
      assert i + step == |data| * step by {
        assert |data| * step == (|data| - 1) * step + step;
      }
      i := i + step;
    }
    if n > 0 {
      StridesComplete(n, maxPoints, data);
      var lastPoint := data[|data| - 1];
      if lastPoint.y < n {
        data := data + [PointAt(n - 1)];
      }
    }
  }

  /** Once the stride loop has covered all n posts, its points are the stride
      part of the closed form. */
  lemma StridesComplete(n: nat, maxPoints: nat, stride: seq<SamplePoint>)
    requires maxPoints >= 1 && n > 0
    requires var step := SampleStep(n, maxPoints);
             && |stride| > 0 && (|stride| - 1) * step < n <= |stride| * step
             && forall k :: 0 <= k < |stride| ==> stride[k] == PointAt(k * step)
    ensures CumulativeSeries(n, maxPoints) ==
            if stride[|stride| - 1].y < n then stride + [PointAt(n - 1)] else stride
  {
    var step := SampleStep(n, maxPoints);
    CeilDivUnique(n, step, |stride|);
    assert stride == seq(|stride|, k requires 0 <= k < |stride| => PointAt(k * step));
  }

  /** The chart's two datasets and the stats, with the default cap of 10 points. */
  method BuildLineChart(posts: seq<Post>) returns (stats: UserStats, user1Data: seq<SamplePoint>, user2Data: seq<SamplePoint>)
    ensures stats.user1 == CountUser(posts, 1) && stats.user2 == CountUser(posts, 2)
    ensures user1Data == CumulativeSeries(CountUser(posts, 1), DefaultMaxPoints)
    ensures user2Data == CumulativeSeries(CountUser(posts, 2), DefaultMaxPoints)
  {
    var user1Posts := PostsOfUser(posts, 1);
    var user2Posts := PostsOfUser(posts, 2);
    stats := ComputeUserStats(posts);
    user1Data := CreateCumulativeData(user1Posts, DefaultMaxPoints);
    user2Data := CreateCumulativeData(user2Posts, DefaultMaxPoints);
  }

  // Properties of the series

  /** No posts, no points. */
  lemma SeriesOfNoPosts(maxPoints: nat)
    requires maxPoints >= 1
    ensures CumulativeSeries(0, maxPoints) == []
  {
  }

  /** What the closed form is made of: m stride points, then possibly the closing point. */
  lemma SeriesParts(n: nat, maxPoints: nat)
    requires maxPoints >= 1 && n > 0
    ensures var step := SampleStep(n, maxPoints);
            var m := CeilDiv(n, step);
            var r := CumulativeSeries(n, maxPoints);
            && step >= 1 && m >= 1
            && (m - 1) * step < n <= m * step
            && (|r| == m || |r| == m + 1)
            && (forall k :: 0 <= k < m ==> r[k] == PointAt(k * step))
            && (|r| == m + 1 <==> (m - 1) * step + 1 < n)
            && (|r| == m + 1 ==> r[m] == PointAt(n - 1))
  {
  }

  /** A multiple of b leaves no remainder. */
  lemma MultipleMod(k: nat, b: nat)
    requires b > 0
    ensures (k * b) % b == 0 && (k * b) / b == k
  {
    var q, rem := (k * b) / b, (k * b) % b;
    assert k * b == q * b + rem;
    assert (k - q) * b == rem;
    if k - q >= 1 {
      MulMonotone(1, k - q, b);
    } else if k - q <= -1 {
      MulMonotone(k - q, -1, b);
    }
  }

  /** A position below n = m·step that is a multiple of step is the start of stride k < m. */
  lemma DivisibleIsStride(i: nat, step: nat, m: nat, n: nat) returns (k: nat)
    requires step >= 1 && i < n <= m * step && i % step == 0
    ensures k < m && k * step == i
  {
    k := i / step;
    assert i == k * step + i % step;
    if k >= m {
      MulMonotone(m, k, step);
    }
  }

  /** The stride points are exactly the positions i < n with i mod step = 0. */
  lemma StridePositions(n: nat, maxPoints: nat, i: nat)
    requires maxPoints >= 1 && n > 0 && i < n
    ensures var step := SampleStep(n, maxPoints);
            var m := CeilDiv(n, step);
            var r := CumulativeSeries(n, maxPoints);
            i % step == 0 <==> exists k :: 0 <= k < m && r[k].y == i + 1
  {
    SeriesParts(n, maxPoints);
    var step := SampleStep(n, maxPoints);
    var m := CeilDiv(n, step);
    var r := CumulativeSeries(n, maxPoints);
    if i % step == 0 {
      var k := DivisibleIsStride(i, step, m, n);
      assert r[k] == PointAt(k * step);
    }
    if exists k :: 0 <= k < m && r[k].y == i + 1 {
      var k :| 0 <= k < m && r[k].y == i + 1;
      assert r[k] == PointAt(k * step);
      MultipleMod(k, step);
    }
  }

  /** Every point is labelled with its own count, which lies in 1..n. */
  lemma SeriesLabels(n: nat, maxPoints: nat)
    requires maxPoints >= 1
    ensures var r := CumulativeSeries(n, maxPoints);
            forall k :: 0 <= k < |r| ==> 1 <= r[k].y <= n && r[k].x == "Post " + NatToString(r[k].y)
  {
    if n > 0 {
      SeriesParts(n, maxPoints);
      var step := SampleStep(n, maxPoints);
      var m := CeilDiv(n, step);
      var r := CumulativeSeries(n, maxPoints);
      forall k | 0 <= k < |r| ensures 1 <= r[k].y <= n && r[k].x == "Post " + NatToString(r[k].y) {
        if k < m {
          MulMonotone(k, m - 1, step);
          assert r[k] == PointAt(k * step);
        }
      }
    }
  }

  /** The counts strictly increase along the series. */
  lemma SeriesIncreasing(n: nat, maxPoints: nat)
    requires maxPoints >= 1
    ensures var r := CumulativeSeries(n, maxPoints);
            forall j, k :: 0 <= j < k < |r| ==> r[j].y < r[k].y
  {
    if n > 0 {
      SeriesParts(n, maxPoints);
      var step := SampleStep(n, maxPoints);
      var m := CeilDiv(n, step);
      var r := CumulativeSeries(n, maxPoints);
      forall j, k | 0 <= j < k < |r| ensures r[j].y < r[k].y {
        StridesIncrease(j, if k < m then k else m - 1, step);
        assert r[j] == PointAt(j * step);
        if k < m {
          assert r[k] == PointAt(k * step);
        }
      }
    }
  }

  lemma StridesIncrease(j: nat, k: nat, step: nat)
    requires j <= k && step >= 1
    ensures j * step <= k * step
    ensures j < k ==> j * step < k * step
  {
    MulMonotone(j, k, step);
    if j < k {
      MulMonotone(j + 1, k, step);
    }
  }

  /** A non-empty series starts at 1, ends at n, and has between 1 and
      maxPoints + 1 points; the closing point is added exactly when the last
      stride point falls short of n. */
  lemma SeriesEnds(n: nat, maxPoints: nat)
    requires maxPoints >= 1 && n > 0
    ensures var step := SampleStep(n, maxPoints);
            var m := CeilDiv(n, step);
            var r := CumulativeSeries(n, maxPoints);
            && 1 <= |r| <= maxPoints + 1
            && r[0].y == 1
            && r[|r| - 1].y == n
            && (|r| == m + 1 <==> (m - 1) * step + 1 < n)
  {
    var step := SampleStep(n, maxPoints);
    var m := CeilDiv(n, step);
    var r := CumulativeSeries(n, maxPoints);
    if m > maxPoints {
      MulMonotone(maxPoints, m - 1, step);
    }
    if r[m - 1].y >= n {
      assert (m - 1) * step + 1 == n;
    }
  }

  /** 23 posts with the default cap: step 3, eight stride points (1, 4, …, 22)
      and the closing point 23. */
  lemma SeriesOfTwentyThree()
    ensures SampleStep(23, DefaultMaxPoints) == 3
    ensures |CumulativeSeries(23, DefaultMaxPoints)| == 9
    ensures CumulativeSeries(23, DefaultMaxPoints)[7].y == 22
    ensures CumulativeSeries(23, DefaultMaxPoints)[8].y == 23
  {
    CeilDivUnique(23, 10, 3);
    CeilDivUnique(23, 3, 8);
  }
}
