/** Event ids generated from file names. */
module EventIds {
  datatype EventId = EventId(text: string)

  /** `os.path.basename`. */
  function Basename(path: string): string {
    if path == "" || path[|path| - 1] == '/' then "" else Basename(path[..|path| - 1]) + [path[|path| - 1]]
  }

  /** The base name is the part of the path behind its last slash. */
  lemma {:induction false} BasenameIsTail(path: string)
    ensures var name := Basename(path);
            && '/' !in name && |name| <= |path| && name == path[|path| - |name|..]
            && (|name| < |path| ==> path[|path| - |name| - 1] == '/')
  {
    if path != "" && path[|path| - 1] != '/' {
      var rest := path[..|path| - 1];
      BasenameIsTail(rest);
    }
  }

  predicate IsLetter(c: char, lower: char, upper: char) { c == lower || c == upper }

  /** The name ends with ".csv" or ".rsp" in any case. */
  predicate HasDataExtension(name: string) {
    var n := |name|;
    && n >= 4 && name[n - 4] == '.'
    && ((IsLetter(name[n - 3], 'c', 'C') && IsLetter(name[n - 2], 's', 'S') && IsLetter(name[n - 1], 'v', 'V'))
        || (IsLetter(name[n - 3], 'r', 'R') && IsLetter(name[n - 2], 's', 'S') && IsLetter(name[n - 1], 'p', 'P')))
  }

  function BaseName(filename: string): string {
    var name := Basename(filename);
    if HasDataExtension(name) then name[..|name| - 4] else name
  }

  function Lower(c: char): char {
    if 'A' <= c <= 'Z' then c - 'A' + 'a' else c
  }

  /** ".csv" or ".rsp" in lower case. */
  predicate IsDataExtension(ext: string) {
    var lower := seq(|ext|, i requires 0 <= i < |ext| => Lower(ext[i]));
    lower == ".csv" || lower == ".rsp"
  }

  lemma HasExtensionIff(name: string)
    ensures HasDataExtension(name) <==> |name| >= 4 && IsDataExtension(name[|name| - 4..])
  {
    if |name| >= 4 {
      var ext := name[|name| - 4..];
      var lower := seq(|ext|, i requires 0 <= i < |ext| => Lower(ext[i]));
      assert |lower| == 4;
      assert lower == [lower[0], lower[1], lower[2], lower[3]];
    }
  }

  /** The base name is the file's name without the data extension at its end, which is taken off once, and is
      the whole name when another extension or none is there. */
  lemma BaseNameIs(filename: string, stem: string, ext: string)
    requires Basename(filename) == stem + ext
    ensures IsDataExtension(ext) ==> BaseName(filename) == stem
    ensures |ext| == 4 && !IsDataExtension(ext) ==> BaseName(filename) == Basename(filename)
    ensures |Basename(filename)| < 4 ==> BaseName(filename) == Basename(filename)
  {
    HasExtensionIff(stem + ext);
    if |ext| == 4 {
      assert (stem + ext)[|stem + ext| - 4..] == ext;
    }
  }

  // ----- candidates

  function Digit(d: nat): char
    requires d < 10
  {
    ('0' as int + d) as char
  }

  function Decimal(n: nat): (r: string)
    ensures r != ""
  {
    if n < 10 then [Digit(n)] else Decimal(n / 10) + [Digit(n % 10)]
  }

  predicate AreDigits(s: string) {
    forall i :: 0 <= i < |s| ==> '0' <= s[i] <= '9'
  }

  function Value(s: string): nat
    requires AreDigits(s)
  {
    if s == "" then 0 else 10 * Value(s[..|s| - 1]) + (s[|s| - 1] as int - '0' as int)
  }

  /** The decimal digits of a number, without a leading zero. */
  lemma {:induction false} DecimalIs(n: nat)
    ensures AreDigits(Decimal(n)) && Value(Decimal(n)) == n
    ensures n > 0 ==> Decimal(n)[0] != '0'
  {
    if n >= 10 {
      DecimalIs(n / 10);
      assert Decimal(n)[..|Decimal(n)| - 1] == Decimal(n / 10);
    }
  }

  lemma {:induction false} DecimalInjective(m: nat, n: nat)
    requires Decimal(m) == Decimal(n)
    ensures m == n
  {
    var a, b := Decimal(m), Decimal(n);
    assert a[|a| - 1] == Digit(m % 10) && b[|b| - 1] == Digit(n % 10);
    if m >= 10 && n >= 10 {
      assert a[..|a| - 1] == Decimal(m / 10) && b[..|b| - 1] == Decimal(n / 10);
      DecimalInjective(m / 10, n / 10);
    }
  }

  /** The k-th id tried for a base name: the name itself, then with suffixes _1, _2, … */
  function Candidate(base: string, k: nat): EventId {
    EventId(if k == 0 then base else base + "_" + Decimal(k))
  }

  lemma CandidateInjective(base: string, j: nat, k: nat)
    requires Candidate(base, j) == Candidate(base, k)
    ensures j == k
  {
    if j > 0 && k > 0 {
      var n := |base + "_"|;
      assert Candidate(base, j).text[n..] == Decimal(j) && Candidate(base, k).text[n..] == Decimal(k);
      DecimalInjective(j, k);
    }
  }

  ghost predicate AllTaken(base: string, existing: set<EventId>, k: nat) {
    forall j: nat :: j < k ==> Candidate(base, j) in existing
  }

  /** id is the first candidate that is not taken. */
  ghost predicate IsFirstFree(base: string, existing: set<EventId>, id: EventId) {
    id !in existing && exists k: nat :: id == Candidate(base, k) && AllTaken(base, existing, k)
  }

  lemma FirstFreeUnique(base: string, existing: set<EventId>, a: EventId, b: EventId)
    requires IsFirstFree(base, existing, a) && IsFirstFree(base, existing, b)
    ensures a == b
  {
    var j: nat :| a == Candidate(base, j) && AllTaken(base, existing, j);
    var k: nat :| b == Candidate(base, k) && AllTaken(base, existing, k);
    assert j < k ==> Candidate(base, j) in existing;
    assert k < j ==> Candidate(base, k) in existing;
  }

  ghost function Tried(base: string, k: nat): (r: set<EventId>) {
    if k == 0 then {} else Tried(base, k - 1) + {Candidate(base, k - 1)}
  }

  lemma {:induction false} TriedAre(base: string, k: nat, id: EventId)
    requires id in Tried(base, k)
    ensures exists j: nat :: j < k && id == Candidate(base, j)
  {
    if id != Candidate(base, k - 1) { TriedAre(base, k - 1, id); }
  }

  lemma {:induction false} TriedCounts(base: string, k: nat)
    ensures |Tried(base, k)| == k
  {
    if k > 0 {
      TriedCounts(base, k - 1);
      if Candidate(base, k - 1) in Tried(base, k - 1) {
        TriedAre(base, k - 1, Candidate(base, k - 1));
        var j: nat :| j < k - 1 && Candidate(base, k - 1) == Candidate(base, j);
        CandidateInjective(base, k - 1, j);
      }
    }
  }

  lemma SubsetCounts(a: set<EventId>, b: set<EventId>)
    requires a <= b
    ensures |a| <= |b|
  {
    if a != {} {
      var x :| x in a;
      SubsetCounts(a - {x}, b - {x});
    }
  }

  /** Pigeonhole: k distinct candidates are taken only by at least k existing ids. */
  lemma TakenAreMany(base: string, existing: set<EventId>, k: nat)
    requires AllTaken(base, existing, k)
    ensures k <= |existing|
  {
    TriedCounts(base, k);
    forall id | id in Tried(base, k) ensures id in existing { TriedAre(base, k, id); }
    SubsetCounts(Tried(base, k), existing);
  }

  lemma TakenNext(base: string, existing: set<EventId>, k: nat)
    requires AllTaken(base, existing, k) && Candidate(base, k) in existing
    ensures AllTaken(base, existing, k + 1) && k + 1 <= |existing|
  {
    TakenAreMany(base, existing, k + 1);
  }

  /** Terminates for every finite set of ids, with the first free candidate. */
  method FirstFree(base: string, existing: set<EventId>) returns (id: EventId)
    ensures IsFirstFree(base, existing, id)
  {
    id := EventId(base);
    var counter: nat := 1;
    while id in existing
      invariant counter >= 1 && id == Candidate(base, counter - 1) && AllTaken(base, existing, counter - 1)
      decreases |existing| + 1 - counter
    {
      TakenNext(base, existing, counter - 1);
      id := EventId(base + "_" + Decimal(counter));
      counter := counter + 1;
    }
  }

  method GenerateEventId(filename: string, existing: set<EventId>) returns (id: EventId)
    ensures IsFirstFree(BaseName(filename), existing, id)
  {
    id := FirstFree(BaseName(filename), existing);
  }

  // ----- a batch of files

  function Elements(ids: seq<EventId>): set<EventId> {
    set id | id in ids
  }

  lemma NextElements(ids: seq<EventId>, id: EventId)
    ensures Elements(ids + [id]) == Elements(ids) + {id}
  {}

  /** One id per base name, each the first free one given the ids before it. */
  ghost predicate AreBatchIds(bases: seq<string>, existing: set<EventId>, ids: seq<EventId>)
    decreases |ids|
  {
    && |ids| == |bases|
    && (ids == [] ||
        var n := |ids| - 1;
        AreBatchIds(bases[..n], existing, ids[..n]) && IsFirstFree(bases[n], existing + Elements(ids[..n]), ids[n]))
  }

  /** All ids of a batch are new and pairwise distinct. */
  lemma {:induction false} BatchIdsFresh(bases: seq<string>, existing: set<EventId>, ids: seq<EventId>)
    requires AreBatchIds(bases, existing, ids)
    ensures forall i :: 0 <= i < |ids| ==> ids[i] !in existing
    ensures forall i, j :: 0 <= i < j < |ids| ==> ids[i] != ids[j]
    decreases |ids|
  {
    if ids != [] {
      var n := |ids| - 1;
      BatchIdsFresh(bases[..n], existing, ids[..n]);
      assert ids[n] !in existing + Elements(ids[..n]);
      forall i | 0 <= i < n ensures ids[i] !in existing && ids[i] != ids[n] { assert ids[i] == ids[..n][i]; }
      forall i, j | 0 <= i < j < n ensures ids[i] != ids[j] {
        assert ids[i] == ids[..n][i] && ids[j] == ids[..n][j];
      }
    }
  }

  lemma BatchIdsExtend(bases: seq<string>, existing: set<EventId>, ids: seq<EventId>, base: string, id: EventId)
    requires AreBatchIds(bases, existing, ids) && IsFirstFree(base, existing + Elements(ids), id)
    ensures AreBatchIds(bases + [base], existing, ids + [id])
  {
    var n := |ids|;
    assert (ids + [id])[..n] == ids && (bases + [base])[..n] == bases;
  }

  /** The ids are determined by the base names and the starting set. */
  lemma {:induction false} BatchIdsUnique(bases: seq<string>, existing: set<EventId>, a: seq<EventId>, b: seq<EventId>)
    requires AreBatchIds(bases, existing, a) && AreBatchIds(bases, existing, b)
    ensures a == b
    decreases |a|
  {
    if |a| > 0 {
      var n := |a| - 1;
      BatchIdsUnique(bases[..n], existing, a[..n], b[..n]);
      FirstFreeUnique(bases[n], existing + Elements(a[..n]), a[n], b[n]);
      assert a == a[..n] + [a[n]] && b == b[..n] + [b[n]];
    }
  }

  lemma NextOfSameName(existing: set<EventId>, ids: seq<EventId>, base: string)
    requires forall k: nat :: Candidate(base, k) !in existing
    requires forall i :: 0 <= i < |ids| ==> ids[i] == Candidate(base, i)
    ensures IsFirstFree(base, existing + Elements(ids), Candidate(base, |ids|))
  {
    var n, taken := |ids|, existing + Elements(ids);
    forall j: nat | j < n ensures Candidate(base, j) in taken { assert ids[j] in Elements(ids); }
    forall j | 0 <= j < n ensures ids[j] != Candidate(base, n) {
      if Candidate(base, j) == Candidate(base, n) { CandidateInjective(base, j, n); }
    }
    assert AllTaken(base, taken, n);
  }

  lemma LastOfSameName(bases: seq<string>, existing: set<EventId>, ids: seq<EventId>, base: string)
    requires AreBatchIds(bases, existing, ids) && |ids| > 0 && bases[|ids| - 1] == base
    requires forall k: nat :: Candidate(base, k) !in existing
    requires forall i :: 0 <= i < |ids| - 1 ==> ids[..|ids| - 1][i] == Candidate(base, i)
    ensures ids[|ids| - 1] == Candidate(base, |ids| - 1)
  {
    var n := |ids| - 1;
    NextOfSameName(existing, ids[..n], base);
    FirstFreeUnique(base, existing + Elements(ids[..n]), ids[n], Candidate(base, n));
  }

  /** Files that share a base name nobody used get the name itself, then the suffixes 1, 2, … in order. */
  lemma {:induction false} SameNamesCountUp(bases: seq<string>, existing: set<EventId>, ids: seq<EventId>, base: string)
    requires AreBatchIds(bases, existing, ids)
    requires forall i :: 0 <= i < |bases| ==> bases[i] == base
    requires forall k: nat :: Candidate(base, k) !in existing
    ensures forall i :: 0 <= i < |ids| ==> ids[i] == Candidate(base, i)
    ensures forall i :: 0 <= i < |ids| ==> ids[i].text == if i == 0 then base else base + "_" + Decimal(i)
    decreases |ids|
  {
    if |ids| > 0 {
      var n := |ids| - 1;
      SameNamesCountUp(bases[..n], existing, ids[..n], base);
      LastOfSameName(bases, existing, ids, base);
      forall i | 0 <= i < n ensures ids[i] == Candidate(base, i) { assert ids[i] == ids[..n][i]; }
    }
  }
}
