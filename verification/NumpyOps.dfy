/** The NumPy and built-in operations the downsampler relies on, over exact numbers. */
module NumpyOps {

  ghost predicate Increasing(s: seq<int>) {
    forall i, j :: 0 <= i < j < |s| ==> s[i] < s[j]
  }

  ghost predicate Ordered(s: seq<int>) {
    forall i, j :: 0 <= i < j < |s| ==> s[i] <= s[j]
  }

  ghost predicate Within(s: seq<int>, lo: int, hi: int) {
    forall k :: 0 <= k < |s| ==> lo <= s[k] <= hi
  }

  function Max(a: int, b: int): (m: int)
    ensures m >= a && m >= b && (m == a || m == b)
  {
    if a >= b then a else b
  }

  function Abs(r: real): (a: real)
    ensures a >= 0.0 && (a == r || a == -r) && (a == 0.0 <==> r == 0.0)
  {
    if r < 0.0 then -r else r
  }

  /** `np.arange(n)`. */
  function Arange(n: nat): (r: seq<int>)
    ensures |r| == n && forall k :: 0 <= k < n ==> r[k] == k
  {
    seq(n, k => k)
  }

  /** The indices below n, as a set. */
  function Range(n: nat): (r: set<int>)
    ensures |r| == n
    ensures forall k :: k in r <==> 0 <= k < n
  {
    if n == 0 then {} else Range(n - 1) + {n - 1}
  }

  lemma SubsetSize<T>(a: set<T>, b: set<T>)
    requires a <= b
    ensures |a| <= |b|
    ensures |a| == |b| ==> a == b
  {
    assert b == a + (b - a);
  }

  // ----- sorting: `sorted(set)`, `np.sort(array)`, `np.unique(array)`, `np.setdiff1d(array, array)`

  ghost function AnElement<T>(s: set<T>): (x: T)
    requires s != {}
    ensures x in s
  {
    var x :| x in s;
    x
  }

  lemma {:induction false} LeastExists(s: set<int>)
    requires s != {}
    ensures exists x :: x in s && forall y :: y in s ==> x <= y
  {
    var x := AnElement(s);
    var rest := s - {x};
    assert forall y :: y in s ==> y == x || y in rest;
    if rest != {} {
      LeastExists(rest);
      var z :| z in rest && forall y :: y in rest ==> z <= y;
      assert z in s;
    }
  }

  method SortSet(s: set<int>) returns (r: seq<int>)
    ensures Increasing(r) && |r| == |s|
    ensures forall x :: x in r <==> x in s
  {
    r := [];
    var rest := s;
    while rest != {}
      invariant Increasing(r) && |r| + |rest| == |s|
      invariant forall x :: x in s <==> x in r || x in rest
      invariant forall k, y :: 0 <= k < |r| && y in rest ==> r[k] < y
      decreases |rest|
    {
      LeastExists(rest);
      var x :| x in rest && forall y | y in rest :: x <= y;
      r := r + [x];
      rest := rest - {x};
    }
  }

  method Unique(s: seq<int>) returns (r: seq<int>)
    ensures Increasing(r)
    ensures forall x :: x in r <==> x in s
  {
    r := SortSet(set x | x in s);
  }

  /** `np.setdiff1d(np.arange(n), idx)`. */
  method MissingBelow(n: nat, idx: seq<int>) returns (r: seq<int>)
    ensures Increasing(r) && |r| == |Range(n) - set k | k in idx|
    ensures forall k :: k in r <==> 0 <= k < n && k !in idx
  {
    r := SortSet(Range(n) - set k | k in idx);
  }

  function InsertAt(s: seq<int>, at: nat, v: int): (r: seq<int>)
    requires at <= |s|
    ensures |r| == |s| + 1 && r[at] == v
    ensures forall k :: 0 <= k < at ==> r[k] == s[k]
    ensures forall k :: at < k < |r| ==> r[k] == s[k - 1]
  {
    s[..at] + [v] + s[at..]
  }

  lemma InsertAddsOne(s: seq<int>, at: nat, v: int)
    requires at <= |s|
    ensures multiset(InsertAt(s, at, v)) == multiset(s) + multiset{v}
  {
    assert s == s[..at] + s[at..];
  }

  lemma InsertKeepsOrdered(s: seq<int>, at: nat, v: int)
    requires at <= |s| && Ordered(s) && (at > 0 ==> s[at - 1] <= v)
    requires forall k :: at <= k < |s| ==> s[k] > v
    ensures Ordered(InsertAt(s, at, v))
  {
    forall k | 0 <= k < at ensures s[k] <= v { assert k == at - 1 || s[k] <= s[at - 1]; }
  }

  method Sort(s: seq<int>) returns (r: seq<int>)
    ensures Ordered(r) && multiset(r) == multiset(s)
  {
    r := [];
    for n := 0 to |s|
      invariant Ordered(r) && multiset(r) == multiset(s[..n])
    {
      var at := |r|;
      while at > 0 && r[at - 1] > s[n]
        invariant 0 <= at <= |r|
        invariant forall k :: at <= k < |r| ==> r[k] > s[n]
      {
        at := at - 1;
      }
      assert s[..n + 1] == s[..n] + [s[n]];
      InsertAddsOne(r, at, s[n]);
      InsertKeepsOrdered(r, at, s[n]);
      r := InsertAt(r, at, s[n]);
    }
    assert s[..|s|] == s;
  }

  lemma RepeatCountsTwice(s: seq<int>, i: nat, j: nat)
    requires i < j < |s| && s[i] == s[j]
    ensures multiset(s)[s[i]] >= 2
  {
    assert s == s[..j] + s[j..];
    assert multiset(s) == multiset(s[..j]) + multiset(s[j..]);
    assert s[..j][i] in multiset(s[..j]);
    assert s[j..][0] in multiset(s[j..]);
  }

  lemma OrderedIsIncreasing(r: seq<int>)
    requires Ordered(r) && forall x :: multiset(r)[x] <= 1
    ensures Increasing(r)
  {
    forall i, j | 0 <= i < j < |r| ensures r[i] < r[j] {
      if r[i] == r[j] { RepeatCountsTwice(r, i, j); }
    }
  }

  lemma SameBag(a: seq<int>, b: seq<int>)
    requires multiset(a) == multiset(b)
    ensures |a| == |b| && forall x :: x in a <==> x in b
  {
    assert |multiset(a)| == |a| && |multiset(b)| == |b|;
    assert forall x :: x in a <==> x in multiset(a);
    assert forall x :: x in b <==> x in multiset(b);
  }

  lemma HasMember(s: seq<int>)
    ensures s == [] || s[0] in s
  {
  }

  /** Two increasing sequences with the same members are the same sequence. */
  lemma {:induction false} IncreasingUnique(a: seq<int>, b: seq<int>)
    requires Increasing(a) && Increasing(b)
    requires forall x :: x in a <==> x in b
    ensures a == b
  {
    if a == [] {
      HasMember(b);
    } else {
      assert a[0] in a;
      assert b != [];
      assert b[0] in b;
      assert a[0] == b[0];
      forall x ensures x in a[1..] <==> x in b[1..] {
        if x in a[1..] { assert x in b && x != a[0]; }
        if x in b[1..] { assert x in a && x != b[0]; }
      }
      IncreasingUnique(a[1..], b[1..]);
      assert a == [a[0]] + a[1..] && b == [b[0]] + b[1..];
    }
  }

  lemma {:induction false} IncreasingNoDuplicates(s: seq<int>)
    requires Increasing(s)
    ensures |set x | x in s| == |s|
  {
    if s != [] {
      var last := s[|s| - 1];
      var init := s[..|s| - 1];
      IncreasingNoDuplicates(init);
      assert s == init + [last];
      var before := set x | x in init;
      assert (set x | x in s) == before + {last};
      assert last !in before;
    }
  }

  lemma {:induction false} IncreasingCountsOnce(s: seq<int>)
    requires Increasing(s)
    ensures forall x :: multiset(s)[x] <= 1
  {
    if s != [] {
      var last := s[|s| - 1];
      var init := s[..|s| - 1];
      IncreasingCountsOnce(init);
      assert s == init + [last];
      assert last !in init;
      assert multiset(s) == multiset(init) + multiset{last};
    }
  }

  /** An increasing sequence inside [lo, hi] has at most hi - lo + 1 elements. */
  lemma {:induction false} IncreasingSpread(s: seq<int>, i: nat, j: nat)
    requires Increasing(s) && i <= j < |s|
    ensures s[j] - s[i] >= j - i
    decreases j - i
  {
    if i < j { IncreasingSpread(s, i, j - 1); }
  }

  // ----- np.linspace(0, hi, num, dtype=np.int64)

  /** Evenly spaced from 0 to hi, each value floored. */
  function Linspace(hi: nat, num: nat): (r: seq<int>)
    ensures |r| == num
    ensures forall k :: 0 <= k < num ==> r[k] == if num == 1 then 0 else k * hi / (num - 1)
  {
    seq(num, k requires 0 <= k < num => if num == 1 then 0 else k * hi / (num - 1))
  }

  lemma DivStep(a: nat, hi: nat, d: nat)
    requires 0 < d <= hi
    ensures (a + hi) / d >= a / d + 1
  {
    var q := a / d;
    assert q * d <= a;
    assert (q + 1) * d == q * d + d;
    DivAtLeast(a + hi, d, q + 1);
  }

  lemma DivAtLeast(a: nat, d: nat, q: nat)
    requires d > 0 && q * d <= a
    ensures a / d >= q
  {
    var t := a / d;
    assert a == t * d + a % d;
    assert (t + 1) * d == t * d + d;
    if t < q { MulMonotone(t + 1, q, d); }
  }

  lemma MulMonotone(a: nat, b: nat, d: nat)
    requires a <= b
    ensures a * d <= b * d
  {}

  lemma LinspaceStep(hi: nat, num: nat, k: nat)
    requires 2 <= num <= hi + 1 && k < num - 1
    ensures Linspace(hi, num)[k] < Linspace(hi, num)[k + 1]
  {
    assert (k + 1) * hi == k * hi + hi;
    DivStep(k * hi, hi, num - 1);
  }

  lemma CancelDiv(hi: nat, d: nat)
    requires d > 0
    ensures d * hi / d == hi
  {
    DivAtLeast(d * hi, d, hi);
    if d * hi / d > hi { MulMonotone(hi + 1, d * hi / d, d); }
  }

  /** With at least as many positions as points, flooring never merges two points. */
  lemma LinspaceSpreads(hi: nat, num: nat)
    requires 1 <= num <= hi + 1
    ensures Increasing(Linspace(hi, num)) && Within(Linspace(hi, num), 0, hi)
    ensures Linspace(hi, num)[0] == 0
    ensures num >= 2 ==> Linspace(hi, num)[num - 1] == hi
  {
    var r := Linspace(hi, num);
    if num >= 2 {
      forall k | 0 <= k < num - 1 ensures r[k] < r[k + 1] { LinspaceStep(hi, num, k); }
      StepwiseIncreasing(r);
      LinspaceEnds(hi, num);
      forall k | 0 <= k < num ensures 0 <= r[k] <= hi {
        assert k == 0 || r[0] < r[k];
        assert k == num - 1 || r[k] < r[num - 1];
      }
    }
  }

  lemma LinspaceEnds(hi: nat, num: nat)
    requires 2 <= num
    ensures Linspace(hi, num)[0] == 0 && Linspace(hi, num)[num - 1] == hi
  {
    CancelDiv(hi, num - 1);
    assert 0 * hi / (num - 1) == 0;
  }

  lemma {:induction false} StepwiseIncreasing(s: seq<int>)
    requires forall k :: 0 <= k < |s| - 1 ==> s[k] < s[k + 1]
    ensures Increasing(s)
  {
    if |s| > 1 {
      StepwiseIncreasing(s[..|s| - 1]);
      forall i, j | 0 <= i < j < |s| ensures s[i] < s[j] {
        var init := s[..|s| - 1];
        if j == |s| - 1 && i < j - 1 {
          assert init[i] < init[j - 1];
        } else if j < |s| - 1 {
          assert init[i] < init[j];
        }
      }
    }
  }
}
