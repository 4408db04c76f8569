/** The inflection-aware downsampler: anchors, segments, budgets, per-segment selection and the
    exact-size guarantee. */
module Downsampler {
  import opened NumpyOps
  import opened SegmentBudgets
  import opened LttbSegment

  const TINY := 0.000000000001  // 1e-12

  // ----- geometry of the series

  function MinOf(s: seq<real>): (m: real)
    requires s != []
    ensures m in s && forall k :: 0 <= k < |s| ==> m <= s[k]
  {
    if |s| == 1 then s[0]
    else
      var m := MinOf(s[..|s| - 1]);
      if s[|s| - 1] < m then s[|s| - 1] else m
  }

  function MaxOf(s: seq<real>): (m: real)
    requires s != []
    ensures m in s && forall k :: 0 <= k < |s| ==> s[k] <= m
  {
    if |s| == 1 then s[0]
    else
      var m := MaxOf(s[..|s| - 1]);
      if s[|s| - 1] > m then s[|s| - 1] else m
  }

  function Normalize(s: seq<real>): (r: seq<real>)
    requires s != []
    ensures |r| == |s|
  {
    var lo, hi := MinOf(s), MaxOf(s);
    assert lo <= s[0] <= hi;
    seq(|s|, k requires 0 <= k < |s| => (s[k] - lo) / (hi - lo + TINY))
  }

  /** Normalizing moves the least value to zero and scales by the spread, which 1e-12 keeps from being zero. */
  lemma NormalizeScales(s: seq<real>) returns (lo: real, hi: real)
    requires s != []
    ensures lo in s && hi in s && forall k :: 0 <= k < |s| ==> lo <= s[k] <= hi
    ensures forall k :: 0 <= k < |s| ==> Normalize(s)[k] == (s[k] - lo) / (hi - lo + 0.000000000001)
  {
    lo, hi := MinOf(s), MaxOf(s);
  }

  /** Signed curvature of the two steps that leave position i. */
  function Cross(x: seq<real>, y: seq<real>, i: nat): real
    requires |x| == |y| && i + 2 < |x|
  {
    (x[i + 1] - x[i]) * (y[i + 2] - y[i + 1]) - (y[i + 1] - y[i]) * (x[i + 2] - x[i + 1])
  }

  /** It is twice the signed area of the triangle of three consecutive points. */
  lemma CrossIsShoelace(x: seq<real>, y: seq<real>, i: nat)
    requires |x| == |y| && i + 2 < |x|
    ensures Cross(x, y, i) == Shoelace(x[i], y[i], x[i + 1], y[i + 1], x[i + 2], y[i + 2])
  {}

  function Sign(r: real): int {
    if r > 0.0 then 1 else if r < 0.0 then -1 else 0
  }

  predicate TurnsAt(x: seq<real>, y: seq<real>, eps: real, i: nat)
    requires |x| == |y| && i + 3 < |x|
  {
    && Sign(Cross(x, y, i)) * Sign(Cross(x, y, i + 1)) < 0
    && Abs(Cross(x, y, i)) > eps && Abs(Cross(x, y, i + 1)) > eps
  }

  /** The inflections among positions 1 to n, ascending. */
  function InflectionsUpTo(x: seq<real>, y: seq<real>, eps: real, n: nat): (r: seq<int>)
    requires |x| == |y| && n + 2 < |x|
    ensures Increasing(r) && Within(r, 1, n)
  {
    if n == 0 then []
    else InflectionsUpTo(x, y, eps, n - 1) + if TurnsAt(x, y, eps, n - 1) then [n] else []
  }

  /** The curvature changes sign at position k, with both values above the threshold. */
  ghost predicate InflectsAt(x: seq<real>, y: seq<real>, eps: real, k: int)
    requires |x| == |y|
  {
    && 1 <= k <= |x| - 3
    && (Cross(x, y, k - 1) < 0.0 < Cross(x, y, k) || Cross(x, y, k) < 0.0 < Cross(x, y, k - 1))
    && Abs(Cross(x, y, k - 1)) > eps && Abs(Cross(x, y, k)) > eps
  }

  lemma TurnInflects(x: seq<real>, y: seq<real>, eps: real, i: nat)
    requires |x| == |y| && i + 3 < |x|
    ensures TurnsAt(x, y, eps, i) <==> InflectsAt(x, y, eps, i + 1)
  {
    SignsDiffer(Cross(x, y, i), Cross(x, y, i + 1));
  }

  lemma SignsDiffer(a: real, b: real)
    ensures Sign(a) * Sign(b) < 0 <==> (a < 0.0 < b) || (b < 0.0 < a)
  {}

  /** A position is an inflection exactly if the curvature inflects there. */
  lemma {:induction false} InflectionsAreTurns(x: seq<real>, y: seq<real>, eps: real, n: nat)
    requires |x| == |y| && n + 2 < |x|
    ensures forall k :: k in InflectionsUpTo(x, y, eps, n) <==> k <= n && InflectsAt(x, y, eps, k)
  {
    if n > 0 {
      InflectionsAreTurns(x, y, eps, n - 1);
      TurnInflects(x, y, eps, n - 1);
    }
  }

  function InflectionPoints(x: seq<real>, y: seq<real>, eps: real): (r: seq<int>)
    requires |x| == |y| >= 3
    ensures Increasing(r) && Within(r, 1, |x| - 3)
  {
    InflectionsUpTo(x, y, eps, |x| - 3)
  }

  /** The points that must survive: both ends of a series of n points and the inner ones given. */
  function AnchorSet(inner: seq<int>, n: nat): set<int> {
    {0, n - 1} + set k | k in inner
  }

  lemma MembersWithin(r: seq<int>, lo: int, hi: int)
    requires forall k :: k in r ==> lo <= k <= hi
    ensures Within(r, lo, hi)
  {
    forall k | 0 <= k < |r| ensures lo <= r[k] <= hi { assert r[k] in r; }
  }

  lemma WithinMembers(r: seq<int>, lo: int, hi: int)
    requires Within(r, lo, hi)
    ensures forall k :: k in r ==> lo <= k <= hi
  {}

  lemma EndsOfIncreasing(r: seq<int>, lo: int, hi: int)
    requires Increasing(r) && Within(r, lo, hi) && lo in r && hi in r
    ensures r[0] == lo && r[|r| - 1] == hi
  {
    var a :| 0 <= a < |r| && r[a] == lo;
    var b :| 0 <= b < |r| && r[b] == hi;
    IncreasingSpread(r, 0, a);
    IncreasingSpread(r, b, |r| - 1);
  }

  lemma AnchorEnds(inner: seq<int>, n: nat, anchors: seq<int>)
    requires n >= 4 && Within(inner, 1, n - 3)
    requires Increasing(anchors) && forall k :: k in anchors <==> k in AnchorSet(inner, n)
    ensures Within(anchors, 0, n - 1) && |anchors| >= 2 && anchors[0] == 0 && anchors[|anchors| - 1] == n - 1
  {
    WithinMembers(inner, 1, n - 3);
    MembersWithin(anchors, 0, n - 1);
    assert 0 in anchors && n - 1 in anchors;
    EndsOfIncreasing(anchors, 0, n - 1);
  }

  // ----- segments between neighbouring anchors

  function Segments(anchors: seq<int>): (r: seq<(int, int)>)
    ensures forall k :: 0 <= k < |r| ==> r[k].0 in anchors && r[k].1 in anchors && r[k].0 + 1 < r[k].1
  {
    if |anchors| < 2 then []
    else
      var n := |anchors| - 1;
      assert forall k :: k in anchors[..n] ==> k in anchors;
      Segments(anchors[..n]) + if anchors[n] - anchors[n - 1] > 1 then [(anchors[n - 1], anchors[n])] else []
  }

  ghost predicate IsGap(anchors: seq<int>, segment: (int, int)) {
    exists i :: 0 < i < |anchors| && segment == (anchors[i - 1], anchors[i]) && segment.1 - segment.0 > 1
  }

  lemma GapsGrow(anchors: seq<int>, segment: (int, int))
    requires Increasing(anchors) && |anchors| >= 2 && IsGap(anchors[..|anchors| - 1], segment)
    ensures IsGap(anchors, segment) && segment.1 <= anchors[|anchors| - 2]
  {
    var before := anchors[..|anchors| - 1];
    var i :| 0 < i < |before| && segment == (before[i - 1], before[i]);
    assert anchors[i] == before[i] && anchors[i - 1] == before[i - 1];
  }

  /** The segments are gaps between neighbouring anchors that have a point in between. */
  lemma {:induction false} SegmentsAreGaps(anchors: seq<int>)
    requires Increasing(anchors)
    ensures forall k :: 0 <= k < |Segments(anchors)| ==> IsGap(anchors, Segments(anchors)[k])
  {
    if |anchors| >= 2 {
      var n := |anchors| - 1;
      var first := Segments(anchors[..n]);
      SegmentsAreGaps(anchors[..n]);
      forall k | 0 <= k < |first| ensures IsGap(anchors, first[k]) { GapsGrow(anchors, first[k]); }
      assert anchors[n] - anchors[n - 1] > 1 ==> IsGap(anchors, (anchors[n - 1], anchors[n]));
    }
  }

  ghost predicate InOrder(segments: seq<(int, int)>) {
    forall j, k :: 0 <= j < k < |segments| ==> segments[j].1 <= segments[k].0
  }

  lemma OrderGrows(segments: seq<(int, int)>, next: (int, int))
    requires InOrder(segments) && forall k :: 0 <= k < |segments| ==> segments[k].1 <= next.0
    ensures InOrder(segments + [next])
  {}

  /** They come in order. */
  lemma {:induction false} SegmentsInOrder(anchors: seq<int>)
    requires Increasing(anchors)
    ensures InOrder(Segments(anchors))
  {
    if |anchors| >= 2 {
      var n := |anchors| - 1;
      SegmentsInOrder(anchors[..n]);
      SegmentsEnd(anchors, n);
      if anchors[n] - anchors[n - 1] > 1 { OrderGrows(Segments(anchors[..n]), (anchors[n - 1], anchors[n])); }
    }
  }

  lemma SegmentsEnd(anchors: seq<int>, n: nat)
    requires Increasing(anchors) && 0 < n == |anchors| - 1
    ensures forall k :: 0 <= k < |Segments(anchors[..n])| ==> Segments(anchors[..n])[k].1 <= anchors[n - 1]
  {
    SegmentsAreGaps(anchors[..n]);
    forall k | 0 <= k < |Segments(anchors[..n])| ensures Segments(anchors[..n])[k].1 <= anchors[n - 1] {
      GapsGrow(anchors, Segments(anchors[..n])[k]);
    }
  }

  /** Every such gap is a segment. */
  lemma {:induction false} GapsAreSegments(anchors: seq<int>, i: nat)
    requires 0 < i < |anchors| && anchors[i] - anchors[i - 1] > 1
    ensures (anchors[i - 1], anchors[i]) in Segments(anchors)
  {
    if i < |anchors| - 1 { GapsAreSegments(anchors[..|anchors| - 1], i); }
  }

  /** No inflection falls on the next-to-last point, so there is always a last segment. */
  lemma LastSegmentExists(inner: seq<int>, n: nat, anchors: seq<int>)
    requires n >= 4 && Within(inner, 1, n - 3)
    requires Increasing(anchors) && forall k :: k in anchors <==> k in AnchorSet(inner, n)
    ensures Segments(anchors) != []
  {
    AnchorEnds(inner, n, anchors);
    var before := anchors[|anchors| - 2];
    assert before in anchors;
    assert before < anchors[|anchors| - 1];
    WithinMembers(inner, 1, n - 3);
  }

  lemma SegmentsWithin(anchors: seq<int>, n: nat)
    requires Within(anchors, 0, n - 1)
    ensures forall k :: 0 <= k < |Segments(anchors)| ==>
              0 <= Segments(anchors)[k].0 < Segments(anchors)[k].1 < n
  {
    WithinMembers(anchors, 0, n - 1);
  }

  /** `np.sum(np.abs(...))` over the steps of x[start:end], which leaves out the segment's end. */
  function SegmentCurvature(x: seq<real>, y: seq<real>, start: nat, end: nat): (c: real)
    requires |x| == |y| && start <= end < |x|
    ensures c >= 0.0
    decreases end
  {
    if end < start + 3 then 0.0
    else SegmentCurvature(x, y, start, end - 1) + Abs(Cross(x, y, end - 3))
  }

  /** A part with one turn weighs that turn. */
  lemma CurvatureOfOneTurn(x: seq<real>, y: seq<real>, start: nat)
    requires |x| == |y| && start + 3 < |x|
    ensures SegmentCurvature(x, y, start, start + 3) == Abs(Cross(x, y, start))
  {}

  /** Curvature adds up over overlapping parts, which share the two points a turn needs on either side. */
  lemma {:induction false} CurvatureAddsUp(x: seq<real>, y: seq<real>, start: nat, mid: nat, end: nat)
    requires |x| == |y| && start + 2 <= mid <= end < |x|
    ensures SegmentCurvature(x, y, start, end)
         == SegmentCurvature(x, y, start, mid) + SegmentCurvature(x, y, mid - 2, end)
    decreases end
  {
    if mid < end { CurvatureAddsUp(x, y, start, mid, end - 1); }
  }

  /** A segment weighs nothing exactly if the line through its points, but for the last, never turns. */
  lemma {:induction false} CurvatureVanishesIff(x: seq<real>, y: seq<real>, start: nat, end: nat)
    requires |x| == |y| && start <= end < |x|
    ensures SegmentCurvature(x, y, start, end) == 0.0 <==>
              forall i :: start <= i < end - 2 ==> Cross(x, y, i) == 0.0
    decreases end
  {
    if end >= start + 3 { CurvatureVanishesIff(x, y, start, end - 1); }
  }

  function Weights(x: seq<real>, y: seq<real>, segments: seq<(int, int)>): (w: seq<real>)
    requires |x| == |y|
    requires forall k :: 0 <= k < |segments| ==> 0 <= segments[k].0 < segments[k].1 < |x|
    ensures |w| == |segments| && forall k :: 0 <= k < |w| ==> w[k] > 0.0
  {
    seq(|segments|, k requires 0 <= k < |segments| =>
      SegmentCurvature(x, y, segments[k].0, segments[k].1) + TINY)
  }

  // ----- what is selected

  /** The weights of the segments: their curvature, and 1e-12 more so that none is zero. */
  ghost predicate AreWeights(weights: seq<real>, x: seq<real>, y: seq<real>, segments: seq<(int, int)>)
    requires |x| == |y| && forall k :: 0 <= k < |segments| ==> 0 <= segments[k].0 < segments[k].1 < |x|
  {
    |weights| == |segments|
    && forall k :: 0 <= k < |weights| ==>
         weights[k] == SegmentCurvature(x, y, segments[k].0, segments[k].1) + 0.000000000001
  }

  /** Which positions canonical LTTB selects in which segment, with the segment's budget. */
  ghost function PickedIn(x: seq<real>, y: seq<real>, segments: seq<(int, int)>, budgets: seq<int>, norm: Norm)
    : (int, int) -> bool
    requires |x| == |y| && |budgets| == |segments|
    requires forall k :: 0 <= k < |segments| ==> 0 <= segments[k].0 < segments[k].1 < |x|
  {
    (i: int, p: int) =>
      && 0 <= i < |segments| && budgets[i] > 0
      && p in SelectedIn(x, y, segments[i].0, segments[i].1, budgets[i], norm)
  }

  /** Exactly the anchors are selected, and in the first n segments what is picked there. */
  ghost predicate IsSelection(selected: set<int>, anchors: seq<int>, picked: (int, int) -> bool, n: nat) {
    forall p :: p in selected <==> p in anchors || exists i :: 0 <= i < n && picked(i, p)
  }

  /** How the room that anchors leave is shared: segments, their weights and budgets. */
  datatype Split = Split(segments: seq<(int, int)>, weights: seq<real>, budgets: seq<int>)

  /** The split is the fair one for these anchors. */
  ghost predicate IsFairSplit(split: Split, x: seq<real>, y: seq<real>, anchors: seq<int>, target: int, pointBudget: int)
    requires |x| == |y|
  {
    && split.segments == Segments(anchors) && |split.budgets| == |split.segments|
    && (forall k :: 0 <= k < |split.segments| ==> 0 <= split.segments[k].0 < split.segments[k].1 < |x|)
    && AreWeights(split.weights, x, y, split.segments) && Sum(split.weights) > 0.0
    && LargestRemainder(split.budgets, split.weights, target - |anchors|, pointBudget)
  }

  /** A selection around these anchors under their fair split. */
  ghost predicate SelectsAround(selected: set<int>, split: Split, x: seq<real>, y: seq<real>, anchors: seq<int>,
                                target: int, pointBudget: int, norm: Norm)
    requires |x| == |y|
  {
    && IsFairSplit(split, x, y, anchors, target, pointBudget)
    && IsSelection(selected, anchors, PickedIn(x, y, split.segments, split.budgets, norm), |split.segments|)
  }

  /** r is the selection, filled up with evenly spread missing indices if it is too small. */
  ghost predicate IsFilledUp(r: seq<int>, selected: set<int>, n: nat, target: nat) {
    if |selected| == target then forall k :: k in r <==> k in selected
    else exists missing :: IsPadded(r, selected, missing, n, target)
  }

  // ----- exact size

  function Gather(s: seq<int>, positions: seq<int>): (r: seq<int>)
    requires Within(positions, 0, |s| - 1)
    ensures |r| == |positions| && forall k :: 0 <= k < |r| ==> r[k] == s[positions[k]]
  {
    seq(|positions|, k requires 0 <= k < |positions| => s[positions[k]])
  }

  /** The exact-size contract: target strictly increasing indices below n. */
  ghost predicate Exactly(r: seq<int>, n: nat, target: nat) {
    |r| == target && Increasing(r) && Within(r, 0, n - 1)
  }

  /** Thins sorted indices out to the target, keeping the first and, for two or more, the last. */
  method SubsampleWithEndpoints(indices: seq<int>, target: nat) returns (r: seq<int>)
    requires target >= 1 && Increasing(indices)
    ensures Increasing(r) && |r| == if |indices| <= target then |indices| else target
    ensures |indices| <= target ==> r == indices
    ensures indices != [] ==> r[0] == indices[0]
    ensures indices != [] && target >= 2 ==> r[|r| - 1] == indices[|indices| - 1]
    ensures forall k :: k in r ==> k in indices
    ensures |indices| > target >= 2 ==> r == EvenPicks(indices, target)
  {
    if |indices| <= target { return indices; }
    if target <= 1 { return [indices[0]]; }
    LinspaceSpreads(|indices| - 1, target);
    var picked := EvenPicks(indices, target);
    r := Unique(picked);
    PaddingPicks(indices, target);
    EvenPicksEnds(indices, target);
    IncreasingUnique(picked, r);
  }

  /** Evenly spaced picks. */
  function EvenPicks(s: seq<int>, n: nat): (r: seq<int>)
    requires 0 < n <= |s|
  {
    LinspaceSpreads(|s| - 1, n);
    Gather(s, Linspace(|s| - 1, n))
  }

  /** Pick number k lies k steps of (|s| - 1) / (n - 1) from the first, rounded down. */
  lemma EvenPicksAt(s: seq<int>, n: nat, k: nat) returns (q: nat)
    requires 2 <= n <= |s| && k < n
    ensures |EvenPicks(s, n)| == n && q < |s| && EvenPicks(s, n)[k] == s[q]
    ensures q * (n - 1) <= k * (|s| - 1) < q * (n - 1) + (n - 1)
  {
    LinspaceSpreads(|s| - 1, n);
    q := Linspace(|s| - 1, n)[k];
    assert q == k * (|s| - 1) / (n - 1);
    DivisionIs(k * (|s| - 1), n - 1, q);
  }

  lemma DivisionIs(a: nat, d: nat, q: nat)
    requires d > 0 && q == a / d
    ensures q * d <= a < q * d + d
  {
    assert a == q * d + a % d;
  }

  lemma PaddingPicks(missing: seq<int>, need: nat)
    requires 0 < need <= |missing| && Increasing(missing)
    ensures |EvenPicks(missing, need)| == need && Increasing(EvenPicks(missing, need))
    ensures forall k :: k in EvenPicks(missing, need) ==> k in missing
  {
    LinspaceSpreads(|missing| - 1, need);
  }

  lemma EvenPicksEnds(s: seq<int>, n: nat)
    requires 2 <= n <= |s|
    ensures EvenPicks(s, n)[0] == s[0] && EvenPicks(s, n)[n - 1] == s[|s| - 1]
  {
    LinspaceSpreads(|s| - 1, n);
  }

  lemma MissingCount(selected: set<int>, n: nat, idx: seq<int>)
    requires forall k :: k in selected ==> 0 <= k < n
    requires forall k :: k in idx <==> k in selected
    ensures |Range(n) - set k | k in idx| == n - |selected|
  {
    var members := set k | k in idx;
    assert forall k :: k in members <==> k in selected;
    assert members == selected;
    assert Range(n) == selected + (Range(n) - selected);
  }

  lemma DisjointBagsCountOnce(a: seq<int>, b: seq<int>)
    requires Increasing(a) && Increasing(b) && forall k :: k in a ==> k !in b
    ensures forall k :: multiset(a + b)[k] <= 1
  {
    IncreasingCountsOnce(a);
    IncreasingCountsOnce(b);
    assert multiset(a + b) == multiset(a) + multiset(b);
    forall k ensures multiset(a + b)[k] <= 1 {
      assert k in a <==> k in multiset(a);
      assert k in b <==> k in multiset(b);
    }
  }

  /** `np.sort(np.concatenate([a, b]))` of two index sets without common members. */
  method SortTogether(a: seq<int>, b: seq<int>, n: nat) returns (r: seq<int>)
    requires Increasing(a) && Increasing(b) && Within(a, 0, n - 1) && Within(b, 0, n - 1)
    requires forall k :: k in a ==> k !in b
    ensures Exactly(r, n, |a| + |b|)
    ensures forall k :: k in r <==> k in a || k in b
  {
    r := Sort(a + b);
    DisjointBagsCountOnce(a, b);
    OrderedIsIncreasing(r);
    SameBag(r, a + b);
    WithinMembers(a + b, 0, n - 1);
    MembersWithin(r, 0, n - 1);
  }

  /** missing are the indices below n that are not selected, in order. */
  ghost predicate AreMissing(missing: seq<int>, selected: set<int>, n: nat) {
    Increasing(missing) && forall k :: k in missing <==> 0 <= k < n && k !in selected
  }

  /** r holds what is selected and as many of the missing indices as are needed, evenly spread. */
  ghost predicate IsPadded(r: seq<int>, selected: set<int>, missing: seq<int>, n: nat, target: nat) {
    && AreMissing(missing, selected, n) && |selected| < target <= |selected| + |missing|
    && forall k :: k in r <==> k in selected || k in EvenPicks(missing, target - |selected|)
  }

  /** Exactly `target` indices out of more than `target`. Given at most `target` selected ones, this
      never drops any and padding always finds what it needs; given more, it thins them out. */
  method EnforceExactBudget(selected: set<int>, n: nat, target: nat) returns (r: seq<int>)
    requires 1 <= target < n && forall k :: k in selected ==> 0 <= k < n
    ensures Exactly(r, n, target)
    ensures |selected| <= target ==> forall k :: k in selected ==> k in r
    ensures |selected| > target ==> forall k :: k in r ==> k in selected
    ensures |selected| <= target ==> IsFilledUp(r, selected, n, target)
  {
    var idx := SortSet(selected);
    MembersWithin(idx, 0, n - 1);
    if |idx| == target { return idx; }
    if |idx| > target {
      r := SubsampleWithEndpoints(idx, target);
      MembersWithin(r, 0, n - 1);
      return;
    }
    r := PadTo(idx, selected, n, target);
  }

  /** Fills up with evenly spread missing indices. */
  method PadTo(idx: seq<int>, ghost selected: set<int>, n: nat, target: nat) returns (r: seq<int>)
    requires |selected| < target < n && forall k :: k in selected ==> 0 <= k < n
    requires Increasing(idx) && |idx| == |selected| && Within(idx, 0, n - 1) && forall k :: k in idx <==> k in selected
    ensures Exactly(r, n, target) && IsFilledUp(r, selected, n, target)
    ensures forall k :: k in selected ==> k in r
  {
    var need := target - |idx|;
    var missing := MissingBelow(n, idx);
    MissingCount(selected, n, idx);
    // |missing| == n - |idx| > need: the source's two branches for too few missing indices are dead.
    assert 0 < need < |missing|;
    PaddingPicks(missing, need);
    MembersWithin(EvenPicks(missing, need), 0, n - 1);
    r := SortTogether(idx, EvenPicks(missing, need), n);
    assert IsPadded(r, selected, missing, n, target);
  }

  // ----- the output frame

  function Points(x: seq<real>, y: seq<real>, indices: seq<int>): (r: seq<(real, real)>)
    requires |x| == |y| && Within(indices, 0, |x| - 1)
    ensures |r| == |indices| && forall k :: 0 <= k < |r| ==> r[k] == (x[indices[k]], y[indices[k]])
  {
    seq(|indices|, k requires 0 <= k < |indices| => (x[indices[k]], y[indices[k]]))
  }

  function InRange(indices: seq<int>, n: nat): (r: seq<int>)
    ensures forall k :: k in r <==> k in indices && 0 <= k < n
  {
    if indices == [] then []
    else (if 0 <= indices[0] < n then [indices[0]] else []) + InRange(indices[1..], n)
  }

  /** The output checks drop indices out of range, sort, bound the size and never return nothing for
      a non-empty series; a selection that meets the contract passes through unchanged. */
  method BuildOutput(x: seq<real>, y: seq<real>, indices: seq<int>, target: nat) returns (out: seq<(real, real)>)
    requires |x| == |y| > 0 && target >= 1
    ensures 1 <= |out| <= target
    ensures (indices != [] && |indices| <= target && Increasing(indices) && Within(indices, 0, |x| - 1))
              ==> out == Points(x, y, indices)
    ensures exists kept: seq<int> :: Increasing(kept) && Within(kept, 0, |x| - 1) && out == Points(x, y, kept)
  {
    var idx := Unique(InRange(indices, |x|));
    if |indices| <= target && Increasing(indices) && Within(indices, 0, |x| - 1) {
      WithinMembers(indices, 0, |x| - 1);
      IncreasingUnique(indices, idx);
    }
    if |idx| > target {
      idx := SubsampleWithEndpoints(idx, target);
    }
    if |idx| == 0 { idx := [0]; }
    MembersWithin(idx, 0, |x| - 1);
    out := Points(x, y, idx);
  }

  function Truncate(r: real): (t: int)
    ensures r >= 0.0 ==> t as real <= r < t as real + 1.0
    ensures r <= 0.0 ==> t as real - 1.0 < r <= t as real
  {
    if r >= 0.0 then r.Floor else -((-r).Floor)
  }

  class LTTBDownsampler {
    var targetPoints: int
    const inflectionEps: real
    const pointBudget: int
    const norm: Norm

    constructor (targetPoints: int, inflectionEps: real, pointBudget: int, norm: Norm)
      ensures this.targetPoints == targetPoints && this.inflectionEps == inflectionEps
      ensures this.pointBudget == pointBudget && this.norm == norm
    {
      this.targetPoints := targetPoints;
      this.inflectionEps := inflectionEps;
      this.pointBudget := pointBudget;
      this.norm := norm;
    }

    /** The set of selected points before padding: the anchors, and in each segment what canonical LTTB selects
        with the segment's budget. */
    method SelectPoints(x: seq<real>, y: seq<real>, anchors: seq<int>, segments: seq<(int, int)>, budgets: array<int>,
                        ghost target: nat)
        returns (selected: set<int>)
      requires |x| == |y| && Increasing(anchors) && Within(anchors, 0, |x| - 1)
      requires |segments| == budgets.Length
      requires forall k :: 0 <= k < |segments| ==> 0 <= segments[k].0 < segments[k].1 < |x|
      requires forall k :: 0 <= k < budgets.Length ==> budgets[k] >= 0
      requires |anchors| + Total(budgets[..]) == target
      ensures IsSelection(selected, anchors, PickedIn(x, y, segments, budgets[..], norm), |segments|)
      ensures |selected| <= target
      ensures forall k :: k in selected ==> 0 <= k < |x|
      ensures forall k :: k in anchors ==> k in selected
    {
      selected := set k | k in anchors;
      IncreasingNoDuplicates(anchors);
      WithinMembers(anchors, 0, |x| - 1);
      ghost var spent := budgets[..];
      ghost var picked := PickedIn(x, y, segments, spent, norm);
      for i := 0 to |segments|
        invariant IsSelection(selected, anchors, picked, i)
        invariant |selected| <= |anchors| + Total(spent[..i])
        invariant forall k :: k in selected ==> 0 <= k < |x|
      {
        assert spent[..i + 1][..i] == spent[..i];
        ghost var before := selected;
        if budgets[i] > 0 {
          var picks := SelectSegment(x, y, segments[i], budgets[i]);
          UnionSize(selected, picks);
          selected := selected + picks;
        }
        SelectionGrows(before, selected, anchors, picked, i);
      }
      assert spent[..|segments|] == spent;
    }

    method SelectSegment(x: seq<real>, y: seq<real>, segment: (int, int), budget: int) returns (picks: set<int>)
      requires |x| == |y| && 0 <= segment.0 < segment.1 < |x| && budget > 0
      ensures forall p :: p in picks <==> p in SelectedIn(x, y, segment.0, segment.1, budget, norm)
      ensures |picks| <= budget && forall p :: p in picks ==> 0 <= p < |x|
    {
      var selected := SelectInSegment(x, y, segment.0, segment.1, budget, norm);
      IncreasingNoDuplicates(selected);
      WithinMembers(selected, segment.0 + 1, segment.1);
      picks := set k | k in selected;
    }

    method SelectAround(x: seq<real>, y: seq<real>, anchors: seq<int>, target: nat)
        returns (selected: set<int>, ghost split: Split)
      requires |x| == |y| && Increasing(anchors) && Within(anchors, 0, |x| - 1)
      requires |anchors| < target && Segments(anchors) != []
      ensures SelectsAround(selected, split, x, y, anchors, target, pointBudget, norm)
      ensures |selected| <= target
      ensures forall k :: k in selected ==> 0 <= k < |x|
      ensures forall k :: k in anchors ==> k in selected
    {
      var budgets;
      budgets, split := AllocateAround(x, y, anchors, target);
      selected := SelectPoints(x, y, anchors, Segments(anchors), budgets, target);
    }

    method AllocateAround(x: seq<real>, y: seq<real>, anchors: seq<int>, target: nat)
        returns (budgets: array<int>, ghost split: Split)
      requires |x| == |y| && Within(anchors, 0, |x| - 1) && |anchors| < target && Segments(anchors) != []
      ensures IsFairSplit(split, x, y, anchors, target, pointBudget) && split.budgets == budgets[..]
      ensures |anchors| + Total(budgets[..]) == target
      ensures forall k :: 0 <= k < budgets.Length ==> budgets[k] >= 0
    {
      SegmentsWithin(anchors, |x|);
      var segments := Segments(anchors);
      var weights := Weights(x, y, segments);
      assert AreWeights(weights, x, y, segments);
      budgets := AllocateSegmentBudgets(weights, target - |anchors|, pointBudget);
      split := Split(segments, weights, budgets[..]);
    }

    /** Selection and padding around given anchors that include both ends of the series. */
    method DownsampleAround(x: seq<real>, y: seq<real>, anchors: seq<int>, target: nat)
        returns (r: seq<int>, ghost selected: set<int>, ghost split: Split)
      requires |x| == |y| > target >= 3 && Increasing(anchors) && Within(anchors, 0, |x| - 1)
      requires |anchors| >= 2 && anchors[0] == 0 && anchors[|anchors| - 1] == |x| - 1
      requires Segments(anchors) != []
      ensures Exactly(r, |x|, target) && r[0] == 0 && r[target - 1] == |x| - 1
      ensures |anchors| < target ==>
                SelectsAround(selected, split, x, y, anchors, target, pointBudget, norm) && IsFilledUp(r, selected, |x|, target)
      ensures |anchors| == target ==> r == anchors
      ensures |anchors| > target ==> r == EvenPicks(anchors, target)
      ensures |anchors| <= target ==> forall k :: k in anchors ==> k in r
      ensures |anchors| > target ==> forall k :: k in r ==> k in anchors
    {
      var n := |x|;
      selected, split := {}, Split([], [], []);
      if target - |anchors| <= 0 {
        r := ThinOut(anchors, n, target);
        return;
      }
      r, selected, split := FillAround(x, y, anchors, target);
      EndsKept(anchors, r, n);
    }

    /** If the anchors leave no room. */
    method ThinOut(anchors: seq<int>, n: nat, target: nat) returns (r: seq<int>)
      requires Increasing(anchors) && Within(anchors, 0, n - 1) && |anchors| >= target >= 3
      ensures Exactly(r, n, target) && r[0] == anchors[0] && r[target - 1] == anchors[|anchors| - 1]
      ensures forall k :: k in r ==> k in anchors
      ensures |anchors| == target ==> r == anchors
      ensures |anchors| > target ==> r == EvenPicks(anchors, target)
    {
      r := SubsampleWithEndpoints(anchors, target);
      WithinMembers(anchors, 0, n - 1);
      MembersWithin(r, 0, n - 1);
    }

    /** If the anchors leave room. */
    method FillAround(x: seq<real>, y: seq<real>, anchors: seq<int>, target: nat)
        returns (r: seq<int>, ghost selected: set<int>, ghost split: Split)
      requires |x| == |y| > target > |anchors| && Increasing(anchors) && Within(anchors, 0, |x| - 1)
      requires Segments(anchors) != []
      ensures Exactly(r, |x|, target) && forall k :: k in anchors ==> k in r
      ensures SelectsAround(selected, split, x, y, anchors, target, pointBudget, norm)
      ensures IsFilledUp(r, selected, |x|, target)
    {
      var picked;
      picked, split := SelectAround(x, y, anchors, target);
      r := EnforceExactBudget(picked, |x|, target);
      selected := picked;
    }

    /** For a series longer than the target: exactly `target` strictly increasing indices from the
        first to the last point, with every anchor kept whenever the anchors fit, and nothing but
        anchors when they do not. If they leave room, it goes to what canonical LTTB selects between them
        under a fair split, and only what that leaves is filled up. */
    method DownsampleIndices(x: seq<real>, y: seq<real>, target: nat) returns (r: seq<int>, ghost how: Reduction)
      requires |x| == |y| && target >= 1
      ensures |x| <= target ==> r == Arange(|x|)
      ensures |x| > target ==> Exactly(r, |x|, target) && r[0] == 0
      ensures |x| > target >= 2 ==> r[target - 1] == |x| - 1
      ensures |x| > target >= 3 ==>
                && IsReduced(r, how, Normalize(x), Normalize(y), target, inflectionEps, pointBudget, norm)
                && (|how.anchors| <= target ==> forall k :: k in how.anchors ==> k in r)
                && (|how.anchors| > target ==> forall k :: k in r ==> k in how.anchors)
    {
      var n := |x|;
      how := Reduction([], {}, Split([], [], []));
      if n <= target {
        r := Arange(n);
        return;
      }
      LinspaceSpreads(n - 1, target);
      if target <= 2 {
        r := Linspace(n - 1, target);
        return;
      }
      var xn, yn := Normalize(x), Normalize(y);
      var inner := InflectionPoints(xn, yn, inflectionEps);
      var anchors := SortSet(AnchorSet(inner, n));
      AnchorEnds(inner, n, anchors);
      // The source falls back to an even spread when there is no segment; there always is one.
      LastSegmentExists(inner, n, anchors);
      ghost var selected, split;
      r, selected, split := DownsampleAround(xn, yn, anchors, target);
      AnchorsAre(xn, yn, inflectionEps, anchors);
      how := Reduction(anchors, selected, split);
    }

    /** The stated output contract, with the exact size: min(n, max(1, targetPoints)) points in source
        order. The promised bound by targetPoints itself fails exactly for a target below one. */
    method Downsample(x: seq<real>, y: seq<real>)
        returns (out: seq<(real, real)>, ghost indices: seq<int>, ghost how: Reduction)
      requires |x| == |y|
      ensures |out| == |indices| == if |x| <= Max(1, targetPoints) then |x| else Max(1, targetPoints)
      ensures Increasing(indices) && Within(indices, 0, |x| - 1) && out == Points(x, y, indices)
      ensures out != [] ==> out[0] == (x[0], y[0])
      ensures |out| >= 2 ==> out[|out| - 1] == (x[|x| - 1], y[|y| - 1])
      ensures |x| > targetPoints >= 3 ==>
                IsReduced(indices, how, Normalize(x), Normalize(y), targetPoints, inflectionEps, pointBudget, norm)
      ensures |out| <= targetPoints <==> targetPoints >= if |x| == 0 then 0 else 1
    {
      indices, how := [], Reduction([], {}, Split([], [], []));
      if |x| == 0 {
        out := [];
        return;
      }
      var n := |x|;
      var target := Max(1, targetPoints);
      if n <= target {
        out, indices := KeepAll(x, y, target);
        return;
      }
      out, indices, how := Reduce(x, y, target);
    }

    /** A series that is short enough. */
    method KeepAll(x: seq<real>, y: seq<real>, target: nat) returns (out: seq<(real, real)>, ghost indices: seq<int>)
      requires 1 <= |x| == |y| <= target
      ensures |indices| == |x| && Increasing(indices) && Within(indices, 0, |x| - 1) && out == Points(x, y, indices)
      ensures indices[0] == 0 && indices[|x| - 1] == |x| - 1
    {
      indices := Arange(|x|);
      out := BuildOutput(x, y, Arange(|x|), target);
    }

    /** A series longer than the target. */
    method Reduce(x: seq<real>, y: seq<real>, target: nat)
        returns (out: seq<(real, real)>, ghost indices: seq<int>, ghost how: Reduction)
      requires |x| == |y| > target >= 1
      ensures Exactly(indices, |x|, target) && out == Points(x, y, indices) && indices[0] == 0
      ensures target >= 2 ==> indices[target - 1] == |x| - 1
      ensures target >= 3 ==>
                IsReduced(indices, how, Normalize(x), Normalize(y), target, inflectionEps, pointBudget, norm)
    {
      var selected;
      selected, how := DownsampleIndices(x, y, target);
      indices := selected;
      out := BuildOutput(x, y, selected, target);
    }

    /** Downsampling by a factor borrows the target field and puts it back. */
    method DownsampleByFactor(x: seq<real>, y: seq<real>, factor: real)
        returns (out: seq<(real, real)>, ghost indices: seq<int>, ghost how: Reduction)
      requires |x| == |y|
      modifies this`targetPoints
      ensures targetPoints == old(targetPoints)
      ensures var target := Max(100, Truncate(|x| as real * factor));
              && |out| == (if |x| <= target then |x| else target)
              && Increasing(indices) && Within(indices, 0, |x| - 1) && out == Points(x, y, indices)
              && (|x| > target ==>
                    IsReduced(indices, how, Normalize(x), Normalize(y), target, inflectionEps, pointBudget, norm))
    {
      var target := Max(100, Truncate(|x| as real * factor));
      var originalTarget := targetPoints;
      targetPoints := target;
      out, indices, how := Downsample(x, y);
      targetPoints := originalTarget;
    }
  }

  /** How a series was reduced: its anchors, what was selected around them, and the split of the room they left. */
  datatype Reduction = Reduction(anchors: seq<int>, selected: set<int>, split: Split)

  /** r is what a normalized series reduces to. */
  ghost predicate IsReduced(r: seq<int>, how: Reduction, x: seq<real>, y: seq<real>, target: nat, eps: real,
                            pointBudget: int, norm: Norm)
    requires |x| == |y| >= 4 && target >= 3
  {
    && AreAnchors(how.anchors, x, y, eps)
    && if |how.anchors| < target then
         && SelectsAround(how.selected, how.split, x, y, how.anchors, target, pointBudget, norm)
         && IsFilledUp(r, how.selected, |x|, target)
       else if |how.anchors| == target then r == how.anchors
       else r == EvenPicks(how.anchors, target)
  }

  /** The anchors are both ends and the inflections in between, in order. */
  ghost predicate AreAnchors(anchors: seq<int>, x: seq<real>, y: seq<real>, eps: real)
    requires |x| == |y| >= 4
  {
    && Increasing(anchors) && Within(anchors, 0, |x| - 1)
    && forall k :: k in anchors <==> k == 0 || k == |x| - 1 || InflectsAt(x, y, eps, k)
  }

  lemma AnchorsAre(x: seq<real>, y: seq<real>, eps: real, anchors: seq<int>)
    requires |x| == |y| >= 4 && Increasing(anchors) && Within(anchors, 0, |x| - 1)
    requires forall k :: k in anchors <==> k in AnchorSet(InflectionPoints(x, y, eps), |x|)
    ensures AreAnchors(anchors, x, y, eps)
  {
    InflectionsAreTurns(x, y, eps, |x| - 3);
  }

  lemma EndsKept(anchors: seq<int>, r: seq<int>, n: nat)
    requires |anchors| >= 2 && anchors[0] == 0 && anchors[|anchors| - 1] == n - 1
    requires Increasing(r) && Within(r, 0, n - 1) && forall k :: k in anchors ==> k in r
    ensures r != [] && r[0] == 0 && r[|r| - 1] == n - 1
  {
    assert anchors[0] in anchors && anchors[|anchors| - 1] in anchors;
    EndsOfIncreasing(r, 0, n - 1);
  }

  lemma SelectionGrows(before: set<int>, after: set<int>, anchors: seq<int>, picked: (int, int) -> bool, i: nat)
    requires IsSelection(before, anchors, picked, i)
    requires forall p :: p in after <==> p in before || picked(i, p)
    ensures IsSelection(after, anchors, picked, i + 1)
  {
    forall p ensures p in after <==> p in anchors || exists j :: 0 <= j < i + 1 && picked(j, p) {
      if p in after && p !in anchors && p !in before { assert picked(i, p); }
    }
  }

  lemma UnionSize(a: set<int>, b: set<int>)
    ensures |a + b| <= |a| + |b|
  {
    assert a + b == a + (b - a);
    SubsetSize(b - a, b);
  }
}
