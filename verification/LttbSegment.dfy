/** Largest-triangle selection over the inner points of one segment. Inside a segment, positions
    are local: 0 is its start, Last() its end. */
module LttbSegment {
  import opened NumpyOps

  /** Length of the step (dx, dy): the source takes the Euclidean norm, and only needs that
      lengths are not negative. */
  type Norm = f: (real, real) -> real | forall dx, dy :: f(dx, dy) >= 0.0
    ghost witness (dx, dy) => 0.0

  // ----- walking over buckets, one choice at a time

  /** The choices made in buckets i to n - 1, when the last choice before them was prev.
      A negative choice means that nothing is chosen in that bucket. */
  function Walk(choose: (int, int) -> int, n: nat, i: nat, prev: int): (r: seq<int>)
    requires i <= n
    decreases n - i
  {
    if i == n then []
    else if choose(i, prev) < 0 then Walk(choose, n, i + 1, prev)
    else [choose(i, prev)] + Walk(choose, n, i + 1, choose(i, prev))
  }

  lemma PrependAdvances(p: int, rest: seq<int>, lo: int, hi: int)
    requires lo <= p <= hi && Increasing(rest) && Within(rest, p + 1, hi)
    ensures Increasing([p] + rest) && Within([p] + rest, lo, hi)
  {}

  lemma {:induction false} WalkAdvances(choose: (int, int) -> int, n: nat, i: nat, prev: int, hi: int)
    requires i <= n
    requires forall b, p :: choose(b, p) < 0 || p < choose(b, p) <= hi
    ensures Increasing(Walk(choose, n, i, prev)) && Within(Walk(choose, n, i, prev), prev + 1, hi)
    ensures |Walk(choose, n, i, prev)| <= n - i
    decreases n - i
  {
    if i < n {
      var c := choose(i, prev);
      if c < 0 {
        WalkAdvances(choose, n, i + 1, prev, hi);
      } else {
        WalkAdvances(choose, n, i + 1, c, hi);
        PrependAdvances(c, Walk(choose, n, i + 1, c), prev + 1, hi);
      }
    }
  }

  /** From bucket i on, picks holds exactly one good pick for every occupied bucket, in order, each
      judged from the pick before it. */
  ghost predicate OnePerBucket(occupied: int -> bool, good: (int, int, int) -> bool,
                               n: nat, i: nat, prev: int, picks: seq<int>)
    requires i <= n
    decreases n - i
  {
    if i == n then picks == []
    else if !occupied(i) then OnePerBucket(occupied, good, n, i + 1, prev, picks)
    else picks != [] && good(i, prev, picks[0]) && OnePerBucket(occupied, good, n, i + 1, picks[0], picks[1..])
  }

  /** Choices are made exactly in occupied buckets and are good, as long as `ready` is kept. */
  ghost predicate ChoosesWell(choose: (int, int) -> int, occupied: int -> bool, good: (int, int, int) -> bool,
                              ready: (int, int) -> bool, n: nat)
  {
    forall b, p :: 0 <= b < n && ready(b, p) ==>
      && (choose(b, p) >= 0 <==> occupied(b))
      && (choose(b, p) < 0 ==> ready(b + 1, p))
      && (choose(b, p) >= 0 ==> good(b, p, choose(b, p)) && ready(b + 1, choose(b, p)))
  }

  lemma {:induction false} WalkPicksOnePerBucket(choose: (int, int) -> int, occupied: int -> bool,
                                                 good: (int, int, int) -> bool, ready: (int, int) -> bool,
                                                 n: nat, i: nat, prev: int)
    requires i <= n && ready(i, prev) && ChoosesWell(choose, occupied, good, ready, n)
    ensures OnePerBucket(occupied, good, n, i, prev, Walk(choose, n, i, prev))
    decreases n - i
  {
    if i < n {
      var c := choose(i, prev);
      if c < 0 {
        WalkPicksOnePerBucket(choose, occupied, good, ready, n, i + 1, prev);
      } else {
        WalkPicksOnePerBucket(choose, occupied, good, ready, n, i + 1, c);
        assert ([c] + Walk(choose, n, i + 1, c))[1..] == Walk(choose, n, i + 1, c);
      }
    }
  }

  /** If e is a good pick in the last bucket only, it is picked iff every good pick there is e. */
  lemma {:induction false} LastBucketDecides(occupied: int -> bool, good: (int, int, int) -> bool,
                                             n: nat, i: nat, prev: int, picks: seq<int>, e: int, alone: bool)
    requires i <= n && OnePerBucket(occupied, good, n, i, prev, picks)
    requires n > 0 && occupied(n - 1)
    requires forall b, p, c :: 0 <= b < n && good(b, p, c) ==> (c == e <==> b == n - 1 && alone)
    ensures e in picks <==> i < n && alone
    decreases n - i
  {
    if i < n {
      if !occupied(i) {
        LastBucketDecides(occupied, good, n, i + 1, prev, picks, e, alone);
      } else {
        assert picks == [picks[0]] + picks[1..];
        LastBucketDecides(occupied, good, n, i + 1, picks[0], picks[1..], e, alone);
      }
    }
  }

  /** A segment cut into buckets: bucket i runs from edges[i] to edges[i + 1] in cumulative arc
      length, and area(i, prev, j) weighs position j of bucket i seen from position prev. */
  datatype Segment = Segment(cum: seq<real>, edges: seq<real>, area: (nat, nat, nat) -> real) {

    ghost predicate Valid() {
      && |cum| >= 2 && cum[0] == 0.0
      && (forall j, k :: 0 <= j <= k < |cum| ==> cum[j] <= cum[k])
      && |edges| >= 2 && edges[0] == 0.0 && edges[Buckets()] == cum[Last()]
      && (forall j, k :: 0 <= j <= k < |edges| ==> edges[j] <= edges[k])
    }

    function Last(): nat
      requires |cum| > 0
    {
      |cum| - 1
    }

    function Buckets(): nat
      requires |edges| > 0
    {
      |edges| - 1
    }

    /** Buckets are half open; the last one is closed. */
    predicate InBucket(i: nat, j: nat)
      requires i + 1 < |edges| && j < |cum|
    {
      && edges[i] <= cum[j]
      && (if i + 2 == |edges| then cum[j] <= edges[i + 1] else cum[j] < edges[i + 1])
    }

    /** The positions of bucket i that lie after position `after`: `np.where` of the mask. */
    function Bucket(i: nat, after: int): (r: seq<int>)
      requires i + 1 < |edges|
      ensures Increasing(r) && Within(r, 0, |cum| - 1)
      ensures forall j: nat :: j in r <==> j < |cum| && InBucket(i, j) && j > after
    {
      BucketBelow(i, after, |cum|)
    }

    function BucketBelow(i: nat, after: int, n: nat): (r: seq<int>)
      requires i + 1 < |edges| && n <= |cum|
      ensures Increasing(r) && Within(r, 0, n - 1)
      ensures forall j: nat :: j in r <==> j < n && InBucket(i, j) && j > after
    {
      if n == 0 then []
      else BucketBelow(i, after, n - 1) + if InBucket(i, n - 1) && n - 1 > after then [n - 1] else []
    }

    /** Where the first largest triangle is among the first n positions: `np.argmax`. */
    function ArgMax(i: nat, prev: nat, positions: seq<int>, n: nat): (k: nat)
      requires 0 < n <= |positions| && Within(positions, 0, |cum| - 1)
      ensures k < n
    {
      if n == 1 then 0
      else
        var k := ArgMax(i, prev, positions, n - 1);
        if area(i, prev, positions[n - 1]) > area(i, prev, positions[k]) then n - 1 else k
    }

    /** The position selected from bucket i. */
    function Pick(i: nat, prev: nat): (p: nat)
      requires i + 1 < |edges| && Bucket(i, prev) != []
      ensures prev < p < |cum| && p in Bucket(i, prev)
    {
      var positions := Bucket(i, prev);
      assert positions[ArgMax(i, prev, positions, |positions|)] in positions;
      positions[ArgMax(i, prev, positions, |positions|)]
    }

    /** The choice made in bucket i. */
    function Choose(i: int, prev: int): (c: int)
      requires |edges| > 0
      ensures c < 0 || prev < c < |cum|
    {
      if 0 <= i < Buckets() && 0 <= prev && Bucket(i, prev) != [] then Pick(i, prev) else -1
    }

    /** The local positions selected in this segment. */
    function Picks(): seq<int>
      requires |edges| > 0
    {
      Walk(Choose, Buckets(), 0, 0)
    }
  }

  lemma {:induction false} ArgMaxIsFirst(g: Segment, i: nat, prev: nat, positions: seq<int>, n: nat)
    requires 0 < n <= |positions| && Within(positions, 0, |g.cum| - 1)
    ensures forall k :: 0 <= k < n ==>
              g.area(i, prev, positions[k]) <= g.area(i, prev, positions[g.ArgMax(i, prev, positions, n)])
    ensures forall k :: 0 <= k < g.ArgMax(i, prev, positions, n)
              ==> g.area(i, prev, positions[k]) < g.area(i, prev, positions[g.ArgMax(i, prev, positions, n)])
  {
    if n > 1 { ArgMaxIsFirst(g, i, prev, positions, n - 1); }
  }

  // ----- the buckets partition the segment into consecutive runs

  lemma BucketOf(g: Segment, j: nat, i: nat) returns (b: nat)
    requires g.Valid() && j < |g.cum| && i < g.Buckets() && g.edges[i] <= g.cum[j]
    ensures i <= b < g.Buckets() && g.InBucket(b, j)
    decreases g.Buckets() - i
  {
    if i + 1 == g.Buckets() || g.cum[j] < g.edges[i + 1] {
      b := i;
    } else {
      b := BucketOf(g, j, i + 1);
    }
  }

  /** Later positions lie in the same or a later bucket. */
  lemma BucketsAreRuns(g: Segment, i: nat, j: nat, i': nat, j': nat)
    requires g.Valid() && j <= j' < |g.cum| && i < g.Buckets() && i' < g.Buckets()
    requires g.InBucket(i, j) && g.InBucket(i', j')
    ensures i <= i'
  {}

  /** Every position lies in exactly one bucket, and buckets follow the order of positions. */
  lemma BucketsPartition(g: Segment, j: nat)
    requires g.Valid() && j < |g.cum|
    ensures exists i: nat :: i < g.Buckets() && g.InBucket(i, j)
    ensures forall i: nat, i': nat, j': nat :: i < g.Buckets() && i' < g.Buckets() && j <= j' < |g.cum|
              && g.InBucket(i, j) && g.InBucket(i', j')
              ==> i <= i' && (j == j' ==> i == i')
  {
    var b := BucketOf(g, j, 0);
    forall i: nat, i': nat, j': nat | i < g.Buckets() && i' < g.Buckets() && j <= j' < |g.cum|
      && g.InBucket(i, j) && g.InBucket(i', j')
      ensures i <= i' && (j == j' ==> i == i')
    {
      BucketsAreRuns(g, i, j, i', j');
      if j == j' { BucketsAreRuns(g, i', j, i, j); }
    }
  }

  // ----- one pick per occupied bucket

  /** Bucket i holds a position other than the segment's own start. */
  ghost predicate Occupied(g: Segment, i: int) {
    0 <= i < |g.edges| - 1 && exists j: nat :: 1 <= j < |g.cum| && g.InBucket(i, j)
  }

  /** Everything selected so far lies before bucket i. */
  ghost predicate BeforeBucket(g: Segment, i: int, prev: int) {
    prev == 0 || (0 < prev < |g.cum| && exists b: nat :: b < i && b + 1 < |g.edges| && g.InBucket(b, prev))
  }

  /** Position p is the first largest triangle of bucket i, seen from position prev. */
  ghost predicate IsPick(g: Segment, i: int, prev: int, p: int) {
    && 0 <= i < |g.edges| - 1 && 0 <= prev && 1 <= p < |g.cum| && g.InBucket(i, p)
    && (forall j: nat :: 1 <= j < |g.cum| && g.InBucket(i, j) ==> g.area(i, prev, j) <= g.area(i, prev, p))
    && (forall j: nat :: 1 <= j < p && g.InBucket(i, j) ==> g.area(i, prev, j) < g.area(i, prev, p))
  }

  lemma NoEarlierBucket(g: Segment, i: nat, j: nat, prev: nat)
    requires g.Valid() && i < g.Buckets() && j <= prev < |g.cum| && g.InBucket(i, j)
    ensures forall b: nat :: b < i ==> !g.InBucket(b, prev)
  {}

  /** The filter on positions after the previous pick only ever removes the segment's start. */
  lemma FilterOnlyDropsStart(g: Segment, i: nat, prev: nat)
    requires g.Valid() && i < g.Buckets() && BeforeBucket(g, i, prev)
    ensures forall j: nat :: j in g.Bucket(i, prev) <==> 1 <= j < |g.cum| && g.InBucket(i, j)
  {
    forall j: nat | 1 <= j < |g.cum| && g.InBucket(i, j) ensures j > prev {
      if prev != 0 && j <= prev { NoEarlierBucket(g, i, j, prev); }
    }
  }

  lemma PickIsFirstLargest(g: Segment, i: nat, prev: nat)
    requires g.Valid() && i < g.Buckets() && BeforeBucket(g, i, prev) && g.Bucket(i, prev) != []
    ensures IsPick(g, i, prev, g.Pick(i, prev))
  {
    FilterOnlyDropsStart(g, i, prev);
    var positions := g.Bucket(i, prev);
    ArgMaxIsFirst(g, i, prev, positions, |positions|);
    var p := g.Pick(i, prev);
    forall j: nat | 1 <= j < |g.cum| && g.InBucket(i, j)
      ensures g.area(i, prev, j) <= g.area(i, prev, p)
      ensures j < p ==> g.area(i, prev, j) < g.area(i, prev, p)
    {
      var k :| 0 <= k < |positions| && positions[k] == j;
    }
  }

  lemma SegmentChoosesWell(g: Segment, b: int, p: int)
    requires g.Valid() && 0 <= b < g.Buckets() && BeforeBucket(g, b, p)
    ensures g.Choose(b, p) >= 0 <==> Occupied(g, b)
    ensures g.Choose(b, p) < 0 ==> BeforeBucket(g, b + 1, p)
    ensures g.Choose(b, p) >= 0 ==> IsPick(g, b, p, g.Choose(b, p)) && BeforeBucket(g, b + 1, g.Choose(b, p))
  {
    FilterOnlyDropsStart(g, b, p);
    HasMember(g.Bucket(b, p));
    if g.Bucket(b, p) != [] { PickIsFirstLargest(g, b, p); }
  }

  ghost function OccupiedIn(g: Segment): int -> bool { b => Occupied(g, b) }

  ghost function PickIn(g: Segment): (int, int, int) -> bool { (b, p, c) => IsPick(g, b, p, c) }

  ghost function BeforeIn(g: Segment): (int, int) -> bool { (b, p) => BeforeBucket(g, b, p) }

  lemma SegmentAlwaysChoosesWell(g: Segment)
    requires g.Valid()
    ensures ChoosesWell(g.Choose, OccupiedIn(g), PickIn(g), BeforeIn(g), g.Buckets())
  {
    var ready := BeforeIn(g);
    forall b, p | 0 <= b < g.Buckets() && ready(b, p)
      ensures g.Choose(b, p) >= 0 <==> Occupied(g, b)
      ensures g.Choose(b, p) < 0 ==> ready(b + 1, p)
      ensures g.Choose(b, p) >= 0 ==> IsPick(g, b, p, g.Choose(b, p)) && ready(b + 1, g.Choose(b, p))
    {
      SegmentChoosesWell(g, b, p);
    }
  }

  /** Exactly one pick in every bucket that holds a position other than the start, each the first
      largest triangle of its bucket seen from the pick before it. */
  lemma OnePickPerOccupiedBucket(g: Segment)
    requires g.Valid()
    ensures OnePerBucket(OccupiedIn(g), PickIn(g), g.Buckets(), 0, 0, g.Picks())
  {
    SegmentAlwaysChoosesWell(g);
    WalkPicksOnePerBucket(g.Choose, OccupiedIn(g), PickIn(g), BeforeIn(g), g.Buckets(), 0, 0);
  }

  // ----- when the segment's end is selected

  /** Triangle areas are not negative, and seen from the last bucket the one over the segment's
      end is degenerate. */
  ghost predicate AreasValid(g: Segment)
    requires |g.edges| >= 2 && |g.cum| > 0
  {
    var last, end := g.Buckets() - 1, g.Last();
    && (forall i: nat, prev: nat, j: nat :: g.area(i, prev, j) >= 0.0)
    && (forall prev: nat :: g.area(last, prev, end) == 0.0)
  }

  /** The last bucket holds no position but the segment's end (and perhaps its start). */
  ghost predicate EndIsAlone(g: Segment)
    requires |g.edges| >= 2 && |g.cum| > 0
  {
    var last := g.Buckets() - 1;
    forall j: nat :: 1 <= j < g.Last() ==> !g.InBucket(last, j)
  }

  lemma EndInLastBucketOnly(g: Segment, b: nat)
    requires g.Valid() && b < g.Buckets()
    ensures g.InBucket(b, g.Last()) <==> b == g.Buckets() - 1
  {}

  lemma EndIsPickIffAlone(g: Segment, b: int, p: int, c: int)
    requires g.Valid() && AreasValid(g) && IsPick(g, b, p, c)
    ensures c == g.Last() <==> b == g.Buckets() - 1 && EndIsAlone(g)
  {
    var last, end := g.Buckets() - 1, g.Last();
    EndInLastBucketOnly(g, b);
    EndInLastBucketOnly(g, last);
    if c == end {
      forall j: nat | 1 <= j < end ensures !g.InBucket(last, j) {
        assert g.area(last, p, j) >= 0.0 && g.area(last, p, end) == 0.0;
      }
    }
  }

  /** The docstring promises picks strictly inside the segment. The closed last bucket breaks that
      exactly when it holds no other candidate. */
  lemma EndPickedOnlyAlone(g: Segment)
    requires g.Valid() && AreasValid(g)
    ensures g.Last() in g.Picks() <==> EndIsAlone(g)
  {
    OnePickPerOccupiedBucket(g);
    assert g.InBucket(g.Buckets() - 1, g.Last());
    forall b, p, c | IsPick(g, b, p, c) ensures c == g.Last() <==> b == g.Buckets() - 1 && EndIsAlone(g) {
      EndIsPickIffAlone(g, b, p, c);
    }
    LastBucketDecides(OccupiedIn(g), PickIn(g), g.Buckets(), 0, 0, g.Picks(), g.Last(), EndIsAlone(g));
  }

  // ----- building a segment from the series

  function CumulativeDistance(x: seq<real>, y: seq<real>, start: nat, norm: Norm, n: nat): (r: seq<real>)
    requires |x| == |y| && start + n < |x|
    ensures |r| == n + 1 && r[0] == 0.0
    ensures forall j, k :: 0 <= j <= k < |r| ==> r[j] <= r[k]
  {
    if n == 0 then [0.0]
    else
      var r := CumulativeDistance(x, y, start, norm, n - 1);
      var k := start + n;
      r + [r[n - 1] + norm(x[k] - x[k - 1], y[k] - y[k - 1])]
  }

  /** `np.linspace(0, total, budget + 1)`. */
  function Edges(total: real, budget: nat): (r: seq<real>)
    requires budget > 0
    ensures |r| == budget + 1
  {
    seq(budget + 1, k => total * (k as real / budget as real))
  }

  lemma EdgesAscend(total: real, budget: nat)
    requires total >= 0.0 && budget > 0
    ensures Edges(total, budget)[0] == 0.0 && Edges(total, budget)[budget] == total
    ensures forall j, k :: 0 <= j <= k <= budget ==> Edges(total, budget)[j] <= Edges(total, budget)[k]
  {
    assert budget as real / budget as real == 1.0;
    forall j: nat, k: nat | j <= k <= budget ensures Edges(total, budget)[j] <= Edges(total, budget)[k] {
      var a, b := j as real / budget as real, k as real / budget as real;
      QuotientsAscend(j as real, k as real, budget as real);
      ProductsAscend(total, a, b);
      assert Edges(total, budget)[j] == total * a && Edges(total, budget)[k] == total * b;
    }
  }

  lemma ProductsAscend(total: real, a: real, b: real)
    requires total >= 0.0 && a <= b
    ensures total * a <= total * b
  {
    assert total * (b - a) >= 0.0;
  }

  lemma QuotientsAscend(j: real, k: real, budget: real)
    requires j <= k && budget > 0.0
    ensures j / budget <= k / budget
  {
    var a, b := j / budget, k / budget;
    assert a * budget == j && b * budget == k;
    assert (b - a) * budget >= 0.0;
  }

  function SumAt(values: seq<real>, start: nat, positions: seq<int>): real
    requires Within(positions, 0, |values| - 1 - start)
  {
    if positions == [] then 0.0
    else
      var n := |positions| - 1;
      SumAt(values, start, positions[..n]) + values[start + positions[n]]
  }

  /** `values[start + positions].mean()`. */
  function MeanAt(values: seq<real>, start: nat, positions: seq<int>): real
    requires positions != [] && Within(positions, 0, |values| - 1 - start)
  {
    SumAt(values, start, positions) / |positions| as real
  }

  /** The third triangle corner: the centroid of the next bucket, or the segment's end. */
  function Target(x: seq<real>, y: seq<real>, start: nat, g: Segment, i: nat): (real, real)
    requires |x| == |y| && |g.cum| > 0 && |g.edges| > 0 && start + g.Last() < |x|
  {
    var end := start + g.Last();
    if i + 2 < |g.edges| && g.Bucket(i + 1, -1) != [] then
      (MeanAt(x, start, g.Bucket(i + 1, -1)), MeanAt(y, start, g.Bucket(i + 1, -1)))
    else
      (x[end], y[end])
  }

  function TwiceArea(ax: real, ay: real, bx: real, bY: real, cx: real, cy: real): (a: real)
    ensures a >= 0.0
    ensures bx == cx && bY == cy ==> a == 0.0
  {
    Abs((ax - cx) * (bY - ay) - (ax - bx) * (cy - ay))
  }

  /** Weights of the positions of bucket i; positions outside the series weigh nothing. */
  function TriangleArea(x: seq<real>, y: seq<real>, start: nat, g: Segment, i: nat, prev: nat, j: nat): (a: real)
    requires |x| == |y| && |g.cum| > 0 && |g.edges| > 0 && start + g.Last() < |x|
    ensures a >= 0.0
    ensures i + 2 == |g.edges| && j == g.Last() ==> a == 0.0
  {
    if prev > g.Last() || j > g.Last() then 0.0
    else
      var (cx, cy) := Target(x, y, start, g, i);
      TwiceArea(x[start + prev], y[start + prev], x[start + j], y[start + j], cx, cy)
  }

  function MakeSegment(x: seq<real>, y: seq<real>, start: nat, end: nat, budget: nat, norm: Norm): (g: Segment)
    requires |x| == |y| && start < end < |x| && budget > 0
    ensures |g.cum| == end - start + 1 && |g.edges| == budget + 1
  {
    var cum := CumulativeDistance(x, y, start, norm, end - start);
    var plain := Segment(cum, Edges(cum[end - start], budget), (i, prev, j) => 0.0);
    plain.(area := (i: nat, prev: nat, j: nat) => TriangleArea(x, y, start, plain, i, prev, j))
  }

  lemma MakeSegmentValid(x: seq<real>, y: seq<real>, start: nat, end: nat, budget: nat, norm: Norm)
    requires |x| == |y| && start < end < |x| && budget > 0
    ensures MakeSegment(x, y, start, end, budget, norm).Valid()
    ensures AreasValid(MakeSegment(x, y, start, end, budget, norm))
  {
    var cum := CumulativeDistance(x, y, start, norm, end - start);
    EdgesAscend(cum[end - start], budget);
  }

  // ----- what the buckets and triangles of a series' segment are

  lemma {:induction false} CumulativeSteps(x: seq<real>, y: seq<real>, start: nat, norm: Norm, n: nat, j: nat)
    requires |x| == |y| && start + n < |x| && j < n
    ensures var cum, k := CumulativeDistance(x, y, start, norm, n), start + j;
            cum[j + 1] - cum[j] == norm(x[k + 1] - x[k], y[k + 1] - y[k])
  {
    if j < n - 1 { CumulativeSteps(x, y, start, norm, n - 1, j); }
  }

  lemma {:induction false} SumAtSplits(values: seq<real>, start: nat, a: seq<int>, b: seq<int>)
    requires Within(a, 0, |values| - 1 - start) && Within(b, 0, |values| - 1 - start)
    ensures SumAt(values, start, a + b) == SumAt(values, start, a) + SumAt(values, start, b)
    ensures forall p :: b == [p] ==> SumAt(values, start, b) == values[start + p]
  {
    if b == [] {
      assert a + b == a;
    } else {
      var init := b[..|b| - 1];
      SumAtSplits(values, start, a, init);
      assert (a + b)[..|a + b| - 1] == a + init;
      if |b| == 1 { assert init == []; }
    }
  }

  lemma MeanTimesCount(values: seq<real>, start: nat, positions: seq<int>)
    requires positions != [] && Within(positions, 0, |values| - 1 - start)
    ensures MeanAt(values, start, positions) * |positions| as real == SumAt(values, start, positions)
  {}

  /** Twice the area of a triangle by its corners in turn. */
  function Shoelace(ax: real, ay: real, bx: real, bY: real, cx: real, cy: real): real {
    ax * (bY - cy) + bx * (cy - ay) + cx * (ay - bY)
  }

  lemma TwiceAreaIsShoelace(ax: real, ay: real, bx: real, bY: real, cx: real, cy: real)
    ensures TwiceArea(ax, ay, bx, bY, cx, cy) == Abs(Shoelace(ax, ay, bx, bY, cx, cy))
  {
    assert (ax - cx) * (bY - ay) - (ax - bx) * (cy - ay) == Shoelace(ax, ay, bx, bY, cx, cy);
  }

  lemma EdgeAt(total: real, budget: nat, k: nat, c: real)
    requires 0 < budget && k <= budget
    ensures Edges(total, budget)[k] <= c <==> total * k as real <= c * budget as real
    ensures c <= Edges(total, budget)[k] <==> c * budget as real <= total * k as real
  {
    assert Edges(total, budget)[k] == total * (k as real / budget as real);
    EdgeScaled(total, k as real, budget as real, c);
  }

  lemma BucketScaled(g: Segment, total: real, budget: nat, i: nat, j: nat)
    requires i < budget && j < |g.cum| && g.edges == Edges(total, budget)
    ensures g.InBucket(i, j) <==>
              && total * i as real <= g.cum[j] * budget as real
              && if i == budget - 1 then g.cum[j] * budget as real <= total * (i + 1) as real
                 else g.cum[j] * budget as real < total * (i + 1) as real
  {
    EdgeAt(total, budget, i, g.cum[j]);
    EdgeAt(total, budget, i + 1, g.cum[j]);
  }

  /** The buckets cut the segment's arc length into equal parts, half open but for the last. */
  lemma BucketsAreEqualParts(x: seq<real>, y: seq<real>, start: nat, end: nat, budget: nat, norm: Norm, i: nat, j: nat)
    requires |x| == |y| && start < end < |x| && i < budget && j <= end - start
    ensures var g := MakeSegment(x, y, start, end, budget, norm);
            var total, at := g.cum[end - start], g.cum[j] * budget as real;
            g.InBucket(i, j) <==>
              && total * i as real <= at
              && if i == budget - 1 then at <= total * (i + 1) as real else at < total * (i + 1) as real
  {
    var g := MakeSegment(x, y, start, end, budget, norm);
    BucketScaled(g, g.cum[end - start], budget, i, j);
  }

  /** The arc length grows from point to point by the length of the step. */
  lemma ArcLengthSteps(x: seq<real>, y: seq<real>, start: nat, end: nat, budget: nat, norm: Norm, j: nat)
    requires |x| == |y| && start < end < |x| && 0 < budget && 0 < j <= end - start
    ensures var g, k := MakeSegment(x, y, start, end, budget, norm), start + j;
            && g.cum[0] == 0.0
            && g.cum[j] - g.cum[j - 1] == norm(x[k] - x[k - 1], y[k] - y[k - 1])
  {
    CumulativeSteps(x, y, start, norm, end - start, j - 1);
  }

  lemma EdgeScaled(total: real, k: real, cut: real, c: real)
    requires cut > 0.0
    ensures total * (k / cut) <= c <==> total * k <= c * cut
    ensures c <= total * (k / cut) <==> c * cut <= total * k
  {
    var edge := total * (k / cut);
    ScaledBack(total, k, cut);
    if edge <= c { ProductsAscend(cut, edge, c); } else { ProductsStrict(cut, c, edge); }
    if c <= edge { ProductsAscend(cut, c, edge); } else { ProductsStrict(cut, edge, c); }
  }

  lemma ScaledBack(total: real, k: real, cut: real)
    requires cut > 0.0
    ensures total * (k / cut) * cut == total * k
  {
    assert k / cut * cut == k;
  }

  lemma ProductsStrict(total: real, a: real, b: real)
    requires total > 0.0 && a < b
    ensures total * a < total * b
  {
    assert total * (b - a) > 0.0;
  }

  /** next are the positions of bucket b. */
  ghost predicate AreMembers(g: Segment, b: nat, next: seq<int>)
    requires b + 1 < |g.edges|
  {
    && Increasing(next) && Within(next, 0, |g.cum| - 1)
    && forall j: nat :: j in next <==> j < |g.cum| && g.InBucket(b, j)
  }

  ghost predicate IsCentroid(x: seq<real>, y: seq<real>, start: nat, next: seq<int>, cx: real, cy: real) {
    && next != [] && Within(next, 0, |x| - 1 - start) && Within(next, 0, |y| - 1 - start)
    && cx * |next| as real == SumAt(x, start, next) && cy * |next| as real == SumAt(y, start, next)
  }

  /** (cx, cy) is the point that the bucket before bucket b aims at: the centroid of bucket b, or the segment's
      end if there is no bucket b or nothing in it. */
  ghost predicate IsTarget(x: seq<real>, y: seq<real>, start: nat, end: nat, g: Segment, b: nat, cx: real, cy: real)
    requires |x| == |y| && start < end < |x| && |g.cum| == end - start + 1
  {
    if b + 1 < |g.edges| && !AreMembers(g, b, []) then
      exists next :: AreMembers(g, b, next) && IsCentroid(x, y, start, next, cx, cy)
    else cx == x[end] && cy == y[end]
  }

  /** The weight of position j of a bucket, seen from position prev, is twice the area of the triangle between
      the two points and the point (cx, cy) the bucket aims at. */
  lemma AreasAreTriangles(x: seq<real>, y: seq<real>, start: nat, end: nat, budget: nat, norm: Norm,
                          i: nat, prev: nat, j: nat) returns (cx: real, cy: real)
    requires |x| == |y| && start < end < |x| && i < budget && prev <= end - start && j <= end - start
    ensures var g := MakeSegment(x, y, start, end, budget, norm);
            && IsTarget(x, y, start, end, g, i + 1, cx, cy)
            && g.area(i, prev, j)
               == Abs(Shoelace(x[start + prev], y[start + prev], x[start + j], y[start + j], cx, cy))
  {
    var g := MakeSegment(x, y, start, end, budget, norm);
    var plain := Segment(g.cum, g.edges, (i, prev, j) => 0.0);
    var target := Target(x, y, start, plain, i);
    cx, cy := target.0, target.1;
    TwiceAreaIsShoelace(x[start + prev], y[start + prev], x[start + j], y[start + j], cx, cy);
    TargetIs(x, y, start, end, g, plain, i);
  }

  lemma BucketMembers(g: Segment, plain: Segment, b: nat)
    requires plain.cum == g.cum && plain.edges == g.edges && b + 1 < |g.edges|
    ensures AreMembers(g, b, plain.Bucket(b, -1))
  {
    forall j: nat ensures j in plain.Bucket(b, -1) <==> j < |g.cum| && g.InBucket(b, j) {}
  }

  lemma SomeMembers(g: Segment, b: nat, next: seq<int>)
    requires b + 1 < |g.edges| && AreMembers(g, b, next) && next != []
    ensures !AreMembers(g, b, [])
  {
    var j: nat := next[0];
    assert j in next;
    assert j !in [];
  }

  lemma TargetIs(x: seq<real>, y: seq<real>, start: nat, end: nat, g: Segment, plain: Segment, i: nat)
    requires |x| == |y| && start < end < |x| && |g.cum| == end - start + 1 && |g.edges| > 0
    requires plain.cum == g.cum && plain.edges == g.edges
    ensures IsTarget(x, y, start, end, g, i + 1, Target(x, y, start, plain, i).0, Target(x, y, start, plain, i).1)
  {
    if i + 2 < |g.edges| {
      var next := plain.Bucket(i + 1, -1);
      BucketMembers(g, plain, i + 1);
      if next != [] {
        SomeMembers(g, i + 1, next);
        CentroidIs(x, y, start, next);
      }
    }
  }

  lemma CentroidIs(x: seq<real>, y: seq<real>, start: nat, next: seq<int>)
    requires next != [] && Within(next, 0, |x| - 1 - start) && Within(next, 0, |y| - 1 - start)
    ensures IsCentroid(x, y, start, next, MeanAt(x, start, next), MeanAt(y, start, next))
  {
    MeanTimesCount(x, start, next);
    MeanTimesCount(y, start, next);
  }

  // ----- the method

  function Shift(start: nat, picks: seq<int>): (r: seq<int>)
    ensures |r| == |picks| && forall k :: 0 <= k < |r| ==> r[k] == start + picks[k]
  {
    seq(|picks|, k requires 0 <= k < |picks| => start + picks[k])
  }

  lemma AppendAssociates(a: seq<int>, p: int, b: seq<int>)
    ensures (a + [p]) + b == a + ([p] + b)
  {}

  lemma ShiftAdvances(start: nat, picks: seq<int>, last: nat)
    requires Increasing(picks) && Within(picks, 1, last)
    ensures Increasing(Shift(start, picks)) && Within(Shift(start, picks), start + 1, start + last)
  {}

  lemma ShiftHas(start: nat, picks: seq<int>, p: int)
    ensures start + p in Shift(start, picks) <==> p in picks
  {
    if p in picks {
      var k :| 0 <= k < |picks| && picks[k] == p;
      assert Shift(start, picks)[k] == start + p;
    }
  }

  /** What the walk over the buckets of a series' segment selects: one first largest triangle per occupied
      bucket, and the end exactly when it is alone in the last bucket. */
  lemma SegmentPicks(x: seq<real>, y: seq<real>, start: nat, end: nat, budget: nat, norm: Norm)
    requires |x| == |y| && start < end < |x| && budget > 0
    ensures var g := MakeSegment(x, y, start, end, budget, norm);
            && OnePerBucket(OccupiedIn(g), PickIn(g), budget, 0, 0, g.Picks())
            && (end in Shift(start, g.Picks()) <==> EndIsAlone(g))
  {
    var g := MakeSegment(x, y, start, end, budget, norm);
    MakeSegmentValid(x, y, start, end, budget, norm);
    OnePickPerOccupiedBucket(g);
    EndPickedOnlyAlone(g);
    ShiftHas(start, g.Picks(), end - start);
  }

  method SelectFromBuckets(choose: (int, int) -> int, n: nat, start: nat) returns (selected: seq<int>)
    ensures selected == Shift(start, Walk(choose, n, 0, 0))
  {
    ghost var picks := [];
    selected := [];
    var prev := start;
    for i := 0 to n
      invariant picks + Walk(choose, n, i, prev - start) == Walk(choose, n, 0, 0)
      invariant selected == Shift(start, picks)
    {
      var best := choose(i, prev - start);
      if best >= 0 {
        var idx := start + best;
        AppendAssociates(picks, best, Walk(choose, n, i + 1, best));
        picks := picks + [best];
        selected := selected + [idx];
        prev := idx;
      }
    }
    assert picks + [] == picks;
  }

  /** What canonical LTTB selects between start and end: all inner points if they fit, and otherwise the picks of
      the walk over the buckets. */
  ghost function SelectedIn(x: seq<real>, y: seq<real>, start: nat, end: nat, budget: nat, norm: Norm): seq<int>
    requires |x| == |y| && start < end < |x| && budget > 0
  {
    if end - start - 1 <= budget then Shift(start + 1, Arange(end - start - 1))
    else Shift(start, MakeSegment(x, y, start, end, budget, norm).Picks())
  }

  /** Canonical LTTB between start and end. */
  method SelectInSegment(x: seq<real>, y: seq<real>, start: nat, end: nat, budget: nat, norm: Norm)
      returns (selected: seq<int>)
    requires |x| == |y| && start < end < |x| && budget > 0
    ensures selected == SelectedIn(x, y, start, end, budget, norm)
    ensures Increasing(selected) && Within(selected, start + 1, end) && |selected| <= budget
    ensures end - start - 1 <= budget ==> selected == Shift(start + 1, Arange(end - start - 1))
    ensures end - start - 1 > budget ==>
              var g := MakeSegment(x, y, start, end, budget, norm);
              selected == Shift(start, g.Picks()) && OnePerBucket(OccupiedIn(g), PickIn(g), budget, 0, 0, g.Picks())
    ensures end in selected <==>
              end - start - 1 > budget && EndIsAlone(MakeSegment(x, y, start, end, budget, norm))
  {
    var candidates := Shift(start + 1, Arange(end - start - 1));
    if |candidates| <= budget { return candidates; }

    var g := MakeSegment(x, y, start, end, budget, norm);
    WalkAdvances(g.Choose, g.Buckets(), 0, 0, g.Last());
    selected := SelectFromBuckets(g.Choose, g.Buckets(), start);
    ShiftAdvances(start, g.Picks(), end - start);
    SegmentPicks(x, y, start, end, budget, norm);
  }
}
