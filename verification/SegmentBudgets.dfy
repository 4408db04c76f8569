/** Sharing a point budget among segments by largest remainder. */
module SegmentBudgets {
  import opened NumpyOps

  function Sum(s: seq<real>): real {
    if s == [] then 0.0 else Sum(s[..|s| - 1]) + s[|s| - 1]
  }

  function Total(s: seq<int>): int {
    if s == [] then 0 else Total(s[..|s| - 1]) + s[|s| - 1]
  }

  /** The minimum every segment receives when the budget covers it for all of them. */
  function Base(segments: nat, available: int, pointBudget: int): (b: nat)
    ensures pointBudget > 0 && segments * pointBudget <= available ==> b == pointBudget
    ensures pointBudget <= 0 || segments * pointBudget > available ==> b == 0
  {
    var minBudget := Max(0, pointBudget);
    if minBudget > 0 && available >= segments * minBudget then minBudget else 0
  }

  /** What is shared in proportion to the weights once the minimum is paid out. */
  function Rest(segments: nat, available: int, pointBudget: int): int {
    available - segments * Base(segments, available, pointBudget)
  }

  /** The exact proportional share of segment i. */
  function Share(weights: seq<real>, rest: int, i: nat): real
    requires i < |weights| && Sum(weights) > 0.0
  {
    rest as real * (weights[i] / Sum(weights))
  }

  function Ceiling(r: real): (c: int)
    ensures r <= c as real < r + 1.0
  {
    if r == r.Floor as real then r.Floor else r.Floor + 1
  }

  function Fraction(r: real): (f: real)
    ensures 0.0 <= f < 1.0 && r - f == (r - f).Floor as real
  {
    r - r.Floor as real
  }

  /** A fair integer split: it spends everything, each segment gets its proportional share
      rounded down or up on top of the minimum, and rounding up goes to the larger fractions. */
  ghost predicate LargestRemainder(budgets: seq<int>, weights: seq<real>, available: int, pointBudget: int)
    requires |budgets| == |weights| && Sum(weights) > 0.0
  {
    var base := Base(|weights|, available, pointBudget);
    var rest := Rest(|weights|, available, pointBudget);
    && Total(budgets) == available
    && (forall i :: 0 <= i < |weights| ==>
          base + Share(weights, rest, i).Floor <= budgets[i] <= base + Ceiling(Share(weights, rest, i)))
    && (forall i, j :: 0 <= i < |weights| && 0 <= j < |weights|
                       && budgets[i] > base + Share(weights, rest, i).Floor
                       && budgets[j] == base + Share(weights, rest, j).Floor
          ==> Fraction(Share(weights, rest, i)) >= Fraction(Share(weights, rest, j)))
  }

  // ----- sums

  lemma {:induction false} SumPositive(s: seq<real>)
    requires forall i :: 0 <= i < |s| ==> s[i] > 0.0
    ensures s != [] ==> Sum(s) > 0.0
    ensures Sum(s) >= 0.0
  {
    if s != [] { SumPositive(s[..|s| - 1]); }
  }

  lemma ScaleOne(c: real, w: real, total: real)
    requires total > 0.0
    ensures c * (w / total) == (c / total) * w
  {}

  lemma Distribute(k: real, a: real, b: real)
    ensures k * (a + b) == k * a + k * b
  {}

  lemma {:induction false} SumScaled(s: seq<real>, t: seq<real>, k: real)
    requires |s| == |t| && forall i :: 0 <= i < |s| ==> t[i] == k * s[i]
    ensures Sum(t) == k * Sum(s)
  {
    if s != [] {
      var n := |s| - 1;
      SumScaled(s[..n], t[..n], k);
      Distribute(k, Sum(s[..n]), s[n]);
    }
  }

  /** The proportional shares add up to exactly what was to be shared. */
  lemma SharesSum(weights: seq<real>, rest: int, raw: seq<real>)
    requires Sum(weights) > 0.0 && |raw| == |weights|
    requires forall i :: 0 <= i < |raw| ==> raw[i] == Share(weights, rest, i)
    ensures Sum(raw) == rest as real
  {
    var total := Sum(weights);
    var k := rest as real / total;
    forall i | 0 <= i < |weights| ensures raw[i] == k * weights[i] {
      ScaleOne(rest as real, weights[i], total);
    }
    SumScaled(weights, raw, k);
    Cancel(rest as real, total);
  }

  /** A share is to the whole as its weight is to all weights. */
  lemma ShareIsProportional(weights: seq<real>, rest: int, i: nat)
    requires i < |weights| && Sum(weights) > 0.0
    ensures Share(weights, rest, i) * Sum(weights) == rest as real * weights[i]
  {
    var total := Sum(weights);
    ScaleOne(rest as real, weights[i], total);
    Proportion(rest as real, weights[i], total);
  }

  lemma Proportion(c: real, w: real, total: real)
    requires total > 0.0
    ensures c * (w / total) * total == c * w
  {
    assert w / total * total == w;
  }

  lemma Cancel(a: real, b: real)
    requires b > 0.0
    ensures a / b * b == a
  {}

  lemma {:induction false} SplitFloors(raw: seq<real>, floors: seq<int>, fractions: seq<real>)
    requires |raw| == |floors| == |fractions|
    requires forall i :: 0 <= i < |raw| ==> floors[i] == raw[i].Floor && fractions[i] == raw[i] - floors[i] as real
    ensures Sum(raw) == Total(floors) as real + Sum(fractions)
  {
    if raw != [] {
      var n := |raw| - 1;
      SplitFloors(raw[..n], floors[..n], fractions[..n]);
    }
  }

  ghost function Positives(s: seq<real>): set<int> {
    set i | 0 <= i < |s| && s[i] > 0.0
  }

  /** Fractions sum to less than the number of positive ones, unless there are none. */
  lemma {:induction false} FractionsBelowCount(s: seq<real>)
    requires forall i :: 0 <= i < |s| ==> 0.0 <= s[i] < 1.0
    ensures 0.0 <= Sum(s) <= |Positives(s)| as real
    ensures Positives(s) != {} ==> Sum(s) < |Positives(s)| as real
  {
    if s != [] {
      var n := |s| - 1;
      FractionsBelowCount(s[..n]);
      if s[n] > 0.0 {
        assert Positives(s) == Positives(s[..n]) + {n};
      } else {
        assert Positives(s) == Positives(s[..n]);
      }
    } else {
      assert Positives(s) == {};
    }
  }

  lemma {:induction false} TotalUpdate(s: seq<int>, i: nat, v: int)
    requires i < |s|
    ensures Total(s[i := v]) == Total(s) - s[i] + v
  {
    var n := |s| - 1;
    if i == n {
      assert s[i := v][..n] == s[..n];
    } else {
      assert s[i := v][..n] == s[..n][i := v];
      TotalUpdate(s[..n], i, v);
    }
  }

  lemma {:induction false} TotalShift(s: seq<int>, b: seq<int>, c: int)
    requires |s| == |b| && forall i :: 0 <= i < |s| ==> b[i] == c + s[i]
    ensures Total(b) == |s| * c + Total(s)
  {
    if s != [] {
      var n := |s| - 1;
      TotalShift(s[..n], b[..n], c);
      assert |s| * c == n * c + c;
    }
  }

  // ----- np.argsort

  ghost predicate IsArgSort(order: seq<int>, keys: seq<real>) {
    |order| == |keys| && Distinct(order) && KeysAscend(order, keys)
  }

  ghost predicate Distinct(s: seq<int>) {
    forall j, k :: 0 <= j < k < |s| ==> s[j] != s[k]
  }

  lemma InsertKeepsDistinct(s: seq<int>, at: nat, v: int)
    requires at <= |s| && Distinct(s) && forall k :: 0 <= k < |s| ==> s[k] != v
    ensures Distinct(InsertAt(s, at, v))
  {}

  ghost predicate KeysAscend(order: seq<int>, keys: seq<real>) {
    && (forall k :: 0 <= k < |order| ==> 0 <= order[k] < |keys|)
    && (forall j, k :: 0 <= j < k < |order| ==> keys[order[j]] <= keys[order[k]])
  }

  lemma InsertKeepsAscending(order: seq<int>, keys: seq<real>, at: nat, v: nat)
    requires at <= |order| && v < |keys| && KeysAscend(order, keys)
    requires forall k :: at <= k < |order| ==> keys[order[k]] > keys[v]
    requires at > 0 ==> keys[order[at - 1]] <= keys[v]
    ensures KeysAscend(InsertAt(order, at, v), keys)
  {
    forall k | 0 <= k < at ensures keys[order[k]] <= keys[v] {
      assert k == at - 1 || keys[order[k]] <= keys[order[at - 1]];
    }
  }

  /** Positions of keys in ascending key order. NumPy's default sort is not stable, so callers
      may rely on nothing but this contract. */
  method ArgSort(keys: seq<real>) returns (order: seq<int>)
    ensures IsArgSort(order, keys)
  {
    order := [];
    for n := 0 to |keys|
      invariant |order| == n && Distinct(order) && KeysAscend(order, keys)
      invariant forall k :: 0 <= k < n ==> order[k] < n
    {
      var at := n;
      while at > 0 && keys[order[at - 1]] > keys[n]
        invariant 0 <= at <= n
        invariant forall k :: at <= k < n ==> keys[order[k]] > keys[n]
      {
        at := at - 1;
      }
      InsertKeepsDistinct(order, at, n);
      InsertKeepsAscending(order, keys, at, n);
      order := InsertAt(order, at, n);
    }
  }

  /** The segments that get a leftover point: the last `leftover` of the ascending order. */
  ghost function Lucky(order: seq<int>, leftover: nat): set<int>
    requires leftover <= |order|
  {
    set k | |order| - leftover <= k < |order| :: order[k]
  }

  lemma {:induction false} LuckyCount(order: seq<int>, leftover: nat)
    requires leftover <= |order|
    requires Distinct(order)
    ensures |Lucky(order, leftover)| == leftover
  {
    if leftover > 0 {
      LuckyCount(order, leftover - 1);
      var k := |order| - leftover;
      assert Lucky(order, leftover) == Lucky(order, leftover - 1) + {order[k]};
      assert order[k] !in Lucky(order, leftover - 1);
    }
  }

  /** Every segment outside the lucky ones has a fraction no larger than any inside. */
  lemma LuckyAreLargest(order: seq<int>, keys: seq<real>, leftover: nat, i: int, j: int)
    requires IsArgSort(order, keys) && leftover <= |order|
    requires i in Lucky(order, leftover) && 0 <= j < |keys| && j !in Lucky(order, leftover)
    ensures keys[i] >= keys[j]
  {
    Surjective(order, |keys|, j);
    var a :| 0 <= a < |order| && order[a] == j;
    var b :| |order| - leftover <= b < |order| && order[b] == i;
    assert a < |order| - leftover;
  }

  lemma Surjective(order: seq<int>, n: nat, j: int)
    requires |order| == n && 0 <= j < n
    requires forall k :: 0 <= k < n ==> 0 <= order[k] < n
    requires Distinct(order)
    ensures exists a :: 0 <= a < n && order[a] == j
  {
    LuckyCount(order, n);
    var image := Lucky(order, n);
    SubsetSize(image, Range(n));
    assert j in image;
  }

  /** Rounding up never reaches a segment whose share is already whole. */
  lemma LuckyArePositive(order: seq<int>, fractions: seq<real>, leftover: nat, i: int)
    requires IsArgSort(order, fractions) && 0 < leftover <= |order|
    requires forall k :: 0 <= k < |fractions| ==> 0.0 <= fractions[k] < 1.0
    requires Sum(fractions) == leftover as real
    requires i in Lucky(order, leftover)
    ensures fractions[i] > 0.0
  {
    var lucky := Lucky(order, leftover);
    LuckyCount(order, leftover);
    FractionsBelowCount(fractions);
    if fractions[i] == 0.0 {
      forall p | p in Positives(fractions) ensures p in lucky - {i} {
        if p !in lucky { LuckyAreLargest(order, fractions, leftover, i, p); }
      }
      SubsetSize(Positives(fractions), lucky - {i});
    }
  }

  // ----- the allocation itself

  /** Paying the minimum, the floors and then one extra point to each lucky segment is fair. */
  lemma FloorsPlusLucky(weights: seq<real>, available: int, pointBudget: int, raw: seq<real>, floors: seq<int>,
                        fractions: seq<real>, order: seq<int>, leftover: nat, budgets: seq<int>)
    requires |raw| == |floors| == |fractions| == |weights| == |budgets| > 0 && Sum(weights) > 0.0
    requires forall i :: 0 <= i < |raw| ==>
               raw[i] == Share(weights, Rest(|weights|, available, pointBudget), i)
    requires forall i :: 0 <= i < |raw| ==> floors[i] == raw[i].Floor && fractions[i] == raw[i] - floors[i] as real
    requires Sum(fractions) == leftover as real
    requires leftover == 0 || (leftover <= |order| && IsArgSort(order, fractions))
    requires forall i :: 0 <= i < |raw| ==>
               budgets[i] == Base(|weights|, available, pointBudget) + floors[i]
                             + if leftover > 0 && i in Lucky(order, leftover) then 1 else 0
    requires Total(budgets) == available
    ensures LargestRemainder(budgets, weights, available, pointBudget)
  {
    var rest := Rest(|weights|, available, pointBudget);
    forall i | 0 <= i < |raw| ensures fractions[i] == Fraction(Share(weights, rest, i)) {}
    if leftover > 0 {
      forall i | i in Lucky(order, leftover) ensures fractions[i] > 0.0 {
        LuckyArePositive(order, fractions, leftover, i);
      }
      forall i, j | i in Lucky(order, leftover) && 0 <= j < |raw| && j !in Lucky(order, leftover)
        ensures fractions[i] >= fractions[j]
      {
        LuckyAreLargest(order, fractions, leftover, i, j);
      }
    }
  }

  method AllocateSegmentBudgets(weights: seq<real>, available: int, pointBudget: int)
      returns (budgets: array<int>)
    requires forall i :: 0 <= i < |weights| ==> weights[i] > 0.0
    ensures budgets.Length == |weights|
    ensures available <= 0 ==> forall i :: 0 <= i < budgets.Length ==> budgets[i] == 0
    ensures weights != [] ==> Sum(weights) > 0.0
    ensures weights != [] && available > 0 ==> LargestRemainder(budgets[..], weights, available, pointBudget)
    ensures forall i :: 0 <= i < budgets.Length ==> budgets[i] >= 0
  {
    var n := |weights|;
    budgets := new int[n](_ => 0);
    SumPositive(weights);
    if n == 0 || available <= 0 { return; }

    var minBudget := Max(0, pointBudget);
    var rest := available;
    if minBudget > 0 && rest >= n * minBudget {
      forall i | 0 <= i < n { budgets[i] := budgets[i] + minBudget; }
      rest := rest - n * minBudget;
    }
    assert rest == Rest(n, available, pointBudget) && rest >= 0;
    ShareRest(budgets, weights, available, pointBudget, rest);
  }

  /** The proportional part: floors of the exact shares, then the leftover points. */
  method ShareRest(budgets: array<int>, weights: seq<real>, ghost available: int, ghost pointBudget: int, rest: nat)
    requires |weights| == budgets.Length > 0 && Sum(weights) > 0.0
    requires forall i :: 0 <= i < |weights| ==> weights[i] > 0.0
    requires rest == Rest(|weights|, available, pointBudget)
    requires forall i :: 0 <= i < budgets.Length ==> budgets[i] == Base(|weights|, available, pointBudget)
    modifies budgets
    ensures LargestRemainder(budgets[..], weights, available, pointBudget)
    ensures forall i :: 0 <= i < budgets.Length ==> budgets[i] >= 0
  {
    var n := |weights|;
    ghost var base := Base(n, available, pointBudget);
    var raw := Shares(weights, rest);
    var floors := Floors(raw);
    var fractions := Fractions(raw);
    AddFloors(budgets, floors, base);

    var leftover := rest - Total(floors);
    LeftoverBounds(weights, rest, raw, floors, fractions);
    TotalShift(floors, budgets[..], base);
    FloorsNonNegative(weights, rest, raw, floors);

    var order := [];
    if leftover > 0 {
      order := ArgSort(fractions);
      AddLeftover(budgets, order, leftover);
    }
    FloorsPlusLucky(weights, available, pointBudget, raw, floors, fractions, order, leftover, budgets[..]);
  }

  method AddFloors(budgets: array<int>, floors: seq<int>, ghost base: int)
    requires |floors| == budgets.Length && forall i :: 0 <= i < budgets.Length ==> budgets[i] == base
    modifies budgets
    ensures forall i :: 0 <= i < budgets.Length ==> budgets[i] == base + floors[i]
  {
    forall i | 0 <= i < budgets.Length { budgets[i] := budgets[i] + floors[i]; }
  }

  function Shares(weights: seq<real>, rest: int): (raw: seq<real>)
    requires Sum(weights) > 0.0
    ensures |raw| == |weights| && forall i :: 0 <= i < |raw| ==> raw[i] == Share(weights, rest, i)
  {
    seq(|weights|, i requires 0 <= i < |weights| => Share(weights, rest, i))
  }

  function Floors(raw: seq<real>): (floors: seq<int>)
    ensures |floors| == |raw| && forall i :: 0 <= i < |raw| ==> floors[i] == raw[i].Floor
  {
    seq(|raw|, i requires 0 <= i < |raw| => raw[i].Floor)
  }

  function Fractions(raw: seq<real>): (fractions: seq<real>)
    ensures |fractions| == |raw|
    ensures forall i :: 0 <= i < |raw| ==> fractions[i] == raw[i] - raw[i].Floor as real
  {
    seq(|raw|, i requires 0 <= i < |raw| => raw[i] - raw[i].Floor as real)
  }

  /** `for idx in order[::-1][:leftover]: budgets[idx] += 1`. */
  method AddLeftover(budgets: array<int>, order: seq<int>, leftover: nat)
    requires leftover <= |order| == budgets.Length
    requires forall k :: 0 <= k < |order| ==> 0 <= order[k] < budgets.Length
    requires Distinct(order)
    modifies budgets
    ensures Total(budgets[..]) == old(Total(budgets[..])) + leftover
    ensures forall i :: 0 <= i < budgets.Length ==>
              budgets[i] == old(budgets[i]) + if i in Lucky(order, leftover) then 1 else 0
  {
    for k := 0 to leftover
      invariant Total(budgets[..]) == old(Total(budgets[..])) + k
      invariant forall i :: 0 <= i < budgets.Length ==>
                  budgets[i] == old(budgets[i]) + if i in Lucky(order, k) then 1 else 0
    {
      var idx := order[|order| - 1 - k];
      ghost var before := budgets[..];
      TotalUpdate(before, idx, before[idx] + 1);
      LuckyGrows(order, k);
      budgets[idx] := budgets[idx] + 1;
      assert budgets[..] == before[idx := before[idx] + 1];
    }
  }

  lemma FloorsNonNegative(weights: seq<real>, rest: int, raw: seq<real>, floors: seq<int>)
    requires forall k :: 0 <= k < |weights| ==> weights[k] > 0.0
    requires Sum(weights) > 0.0 && rest >= 0 && |raw| == |weights| == |floors|
    requires forall i :: 0 <= i < |raw| ==> raw[i] == Share(weights, rest, i) && floors[i] == raw[i].Floor
    ensures forall i :: 0 <= i < |floors| ==> floors[i] >= 0
  {
    forall i | 0 <= i < |floors| ensures floors[i] >= 0 { ShareNonNegative(weights, rest, i); }
  }

  lemma LuckyGrows(order: seq<int>, k: nat)
    requires k < |order|
    requires Distinct(order)
    ensures Lucky(order, k + 1) == Lucky(order, k) + {order[|order| - 1 - k]}
    ensures order[|order| - 1 - k] !in Lucky(order, k)
  {}

  lemma ShareNonNegative(weights: seq<real>, rest: int, i: nat)
    requires forall k :: 0 <= k < |weights| ==> weights[k] > 0.0
    requires Sum(weights) > 0.0 && rest >= 0 && i < |weights|
    ensures Share(weights, rest, i) >= 0.0
  {
    ScaleOne(rest as real, weights[i], Sum(weights));
    assert weights[i] / Sum(weights) >= 0.0;
  }

  lemma LeftoverBounds(weights: seq<real>, rest: int, raw: seq<real>, floors: seq<int>, fractions: seq<real>)
    requires weights != [] && Sum(weights) > 0.0
    requires |raw| == |floors| == |fractions| == |weights|
    requires forall i :: 0 <= i < |raw| ==> raw[i] == Share(weights, rest, i)
    requires forall i :: 0 <= i < |raw| ==> floors[i] == raw[i].Floor && fractions[i] == raw[i] - floors[i] as real
    ensures Sum(fractions) == (rest - Total(floors)) as real
    ensures 0 <= rest - Total(floors) < |weights|
  {
    SharesSum(weights, rest, raw);
    SplitFloors(raw, floors, fractions);
    FractionsBelowCount(fractions);
    SubsetSize(Positives(fractions), Range(|weights|));
    assert Positives(fractions) == {} ==> Sum(fractions) <= 0.0;
  }
}
