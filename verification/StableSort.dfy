/** `list.sort`: a stable sort by a total preorder. */
module StableSort {
  ghost predicate TotalPreorder<T(!new)>(le: (T, T) -> bool) {
    && (forall a, b :: le(a, b) || le(b, a))
    && (forall a, b, c :: le(a, b) && le(b, c) ==> le(a, c))
  }

  predicate IsSorted<T>(le: (T, T) -> bool, s: seq<T>) {
    forall i, j :: 0 <= i < j < |s| ==> le(s[i], s[j])
  }

  /** x goes behind the last element that is not greater. */
  function Insert<T>(le: (T, T) -> bool, sorted: seq<T>, x: T): seq<T> {
    if sorted == [] || le(sorted[|sorted| - 1], x) then sorted + [x]
    else Insert(le, sorted[..|sorted| - 1], x) + [sorted[|sorted| - 1]]
  }

  function Sort<T>(le: (T, T) -> bool, s: seq<T>): seq<T> {
    if s == [] then [] else Insert(le, Sort(le, s[..|s| - 1]), s[|s| - 1])
  }

  /** x when it is equivalent to z. */
  function OneAlike<T>(le: (T, T) -> bool, x: T, z: T): seq<T> {
    if le(x, z) && le(z, x) then [x] else []
  }

  /** The elements equivalent to z, in order. */
  function Alike<T>(le: (T, T) -> bool, s: seq<T>, z: T): seq<T> {
    if s == [] then [] else Alike(le, s[..|s| - 1], z) + OneAlike(le, s[|s| - 1], z)
  }

  lemma {:induction false} InsertHas<T>(le: (T, T) -> bool, sorted: seq<T>, x: T)
    ensures multiset(Insert(le, sorted, x)) == multiset(sorted) + multiset{x}
  {
    if sorted != [] && !le(sorted[|sorted| - 1], x) {
      InsertHas(le, sorted[..|sorted| - 1], x);
      assert sorted == sorted[..|sorted| - 1] + [sorted[|sorted| - 1]];
    }
  }

  /** Sorting permutes. */
  lemma {:induction false} SortHas<T>(le: (T, T) -> bool, s: seq<T>)
    ensures multiset(Sort(le, s)) == multiset(s)
  {
    if s != [] {
      SortHas(le, s[..|s| - 1]);
      InsertHas(le, Sort(le, s[..|s| - 1]), s[|s| - 1]);
      assert s == s[..|s| - 1] + [s[|s| - 1]];
    }
  }

  lemma {:induction false} InsertSorted<T(!new)>(le: (T, T) -> bool, sorted: seq<T>, x: T)
    requires TotalPreorder(le) && IsSorted(le, sorted)
    ensures IsSorted(le, Insert(le, sorted, x))
  {
    if sorted != [] {
      var n := |sorted| - 1;
      var last := sorted[n];
      if le(last, x) {
        forall i | 0 <= i < |sorted| ensures le(sorted[i], x) { assert i < n ==> le(sorted[i], last); }
      } else {
        InsertSorted(le, sorted[..n], x);
        InsertHas(le, sorted[..n], x);
        var more := Insert(le, sorted[..n], x);
        forall i | 0 <= i < |more| ensures le(more[i], last) {
          assert more[i] in multiset(more);
          if more[i] != x { assert more[i] in sorted[..n]; }
        }
      }
    }
  }

  lemma {:induction false} SortSorted<T(!new)>(le: (T, T) -> bool, s: seq<T>)
    requires TotalPreorder(le)
    ensures IsSorted(le, Sort(le, s))
  {
    if s != [] {
      SortSorted(le, s[..|s| - 1]);
      InsertSorted(le, Sort(le, s[..|s| - 1]), s[|s| - 1]);
    }
  }

  lemma AlikeNext<T>(le: (T, T) -> bool, s: seq<T>, x: T, z: T)
    ensures Alike(le, s + [x], z) == Alike(le, s, z) + OneAlike(le, x, z)
  {
    assert (s + [x])[..|s|] == s;
  }

  /** A greater element in front is never equivalent to the same z. */
  lemma NotBothAlike<T(!new)>(le: (T, T) -> bool, last: T, x: T, z: T)
    requires TotalPreorder(le) && !le(last, x)
    ensures OneAlike(le, last, z) == [] || OneAlike(le, x, z) == []
  {
    assert le(last, z) && le(z, x) ==> le(last, x);
  }

  lemma Swap<T>(a: seq<T>, b: seq<T>, c: seq<T>)
    requires b == [] || c == []
    ensures a + b + c == a + c + b
  {}

  lemma {:induction false} InsertAlike<T(!new)>(le: (T, T) -> bool, sorted: seq<T>, x: T, z: T)
    requires TotalPreorder(le)
    ensures Alike(le, Insert(le, sorted, x), z) == Alike(le, sorted, z) + OneAlike(le, x, z)
  {
    if sorted == [] || le(sorted[|sorted| - 1], x) {
      AlikeNext(le, sorted, x, z);
    } else {
      var front, last := sorted[..|sorted| - 1], sorted[|sorted| - 1];
      InsertAlike(le, front, x, z);
      AlikeNext(le, Insert(le, front, x), last, z);
      NotBothAlike(le, last, x, z);
      Swap(Alike(le, front, z), OneAlike(le, last, z), OneAlike(le, x, z));
    }
  }

  /** Sorting is stable: equivalent elements keep their order. */
  lemma {:induction false} SortAlike<T(!new)>(le: (T, T) -> bool, s: seq<T>, z: T)
    requires TotalPreorder(le)
    ensures Alike(le, Sort(le, s), z) == Alike(le, s, z)
  {
    if s != [] {
      SortAlike(le, s[..|s| - 1], z);
      InsertAlike(le, Sort(le, s[..|s| - 1]), s[|s| - 1], z);
    }
  }
}
