/** Schedule rows built from the parsed entries and the files of a program's events. */
module ScheduleRows {
  import opened DamageModel
  import DamageStore
  import opened FileTokens
  import opened Options
  import opened StableSort
  import opened Text

  datatype ProgramEvent = ProgramEvent(id: string, sourceFile: Option<string>)

  datatype Entry = Entry(pattern: Option<string>, repeats: Option<int>, weight: Option<real>)

  datatype Row = Row(eventId: string, fileName: string, eventName: string, pattern: string,
                     repeats: Option<int>, weight: Option<real>, sequence: Option<nat>)

  function SourceFile(e: ProgramEvent): string {
    Strip(e.sourceFile.GetOr(""))
  }

  function Files(events: seq<ProgramEvent>): seq<string> {
    if events == [] then []
    else
      var n := |events| - 1;
      Files(events[..n]) + if SourceFile(events[n]) == "" then [] else [SourceFile(events[n])]
  }

  // ----- matching

  /** `pattern in stem`. */
  predicate OccursIn(pattern: string, stem: string) {
    exists i :: 0 <= i <= |stem| && OccursAt(pattern, stem, i)
  }

  predicate OccursAt(pattern: string, stem: string, i: nat) {
    i + |pattern| <= |stem| && stem[i..i + |pattern|] == pattern
  }

  lemma OccursIff(pattern: string, stem: string)
    ensures OccursIn(pattern, stem) <==> exists before, behind :: stem == before + pattern + behind
  {
    if i :| 0 <= i <= |stem| && OccursAt(pattern, stem, i) {
      assert stem == stem[..i] + pattern + stem[i + |pattern|..];
    }
    if before, behind :| stem == before + pattern + behind {
      assert OccursAt(pattern, stem, |before|);
    }
  }

  function Matching(stem: string, patterns: seq<string>): seq<string> {
    if patterns == [] then []
    else
      var n := |patterns| - 1;
      Matching(stem, patterns[..n]) + if OccursIn(patterns[n], stem) then [patterns[n]] else []
  }

  /** `max(matches, key=len)`: the first of the longest. */
  function FirstLongest(matches: seq<string>): string
    requires matches != []
  {
    var n := |matches| - 1;
    if n == 0 then matches[0]
    else if |matches[n]| > |FirstLongest(matches[..n])| then matches[n] else FirstLongest(matches[..n])
  }

  function MatchPattern(stem: string, patterns: seq<string>): Option<string> {
    var matches := Matching(stem, patterns);
    if matches == [] then None else Some(FirstLongest(matches))
  }

  /** k is the place of the first longest pattern that occurs in the stem. */
  ghost predicate IsFirstLongest(stem: string, patterns: seq<string>, k: int) {
    && 0 <= k < |patterns| && OccursIn(patterns[k], stem)
    && (forall j :: 0 <= j < |patterns| && OccursIn(patterns[j], stem) ==> |patterns[j]| <= |patterns[k]|)
    && (forall j :: 0 <= j < k && OccursIn(patterns[j], stem) ==> |patterns[j]| < |patterns[k]|)
  }

  lemma PlaceStays(stem: string, patterns: seq<string>, n: nat, k: int)
    requires n + 1 == |patterns| && IsFirstLongest(stem, patterns[..n], k)
    requires OccursIn(patterns[n], stem) ==> |patterns[n]| <= |patterns[k]|
    ensures IsFirstLongest(stem, patterns, k)
  {
    forall j | 0 <= j < n ensures patterns[..n][j] == patterns[j] {}
  }

  lemma PlaceMoves(stem: string, patterns: seq<string>, n: nat, k: int)
    requires n + 1 == |patterns| && OccursIn(patterns[n], stem)
    requires if IsFirstLongest(stem, patterns[..n], k) then |patterns[n]| > |patterns[k]|
             else forall j :: 0 <= j < n ==> !OccursIn(patterns[..n][j], stem)
    ensures IsFirstLongest(stem, patterns, n)
  {
    forall j | 0 <= j < n ensures patterns[..n][j] == patterns[j] {}
  }

  /** A stem matches its first longest occurring pattern, and none only when no pattern occurs. */
  lemma {:induction false} MatchIsFirstLongest(stem: string, patterns: seq<string>) returns (k: int)
    ensures MatchPattern(stem, patterns).Some? ==>
              IsFirstLongest(stem, patterns, k) && MatchPattern(stem, patterns).value == patterns[k]
    ensures MatchPattern(stem, patterns).None? ==> forall j :: 0 <= j < |patterns| ==> !OccursIn(patterns[j], stem)
  {
    k := 0;
    if patterns != [] {
      var n := |patterns| - 1;
      var before := Matching(stem, patterns[..n]);
      k := MatchIsFirstLongest(stem, patterns[..n]);
      assert before + [] == before;
      LastMatch(before, patterns[n]);
      if !OccursIn(patterns[n], stem) {
        if before != [] { PlaceStays(stem, patterns, n, k); }
        forall j | 0 <= j < n ensures patterns[..n][j] == patterns[j] {}
      } else if before != [] && |patterns[n]| <= |FirstLongest(before)| {
        PlaceStays(stem, patterns, n, k);
      } else {
        PlaceMoves(stem, patterns, n, k);
        k := n;
      }
    }
  }

  lemma LastMatch(before: seq<string>, last: string)
    ensures FirstLongest(before + [last]) ==
              if before == [] || |last| > |FirstLongest(before)| then last else FirstLongest(before)
  {
    assert (before + [last])[..|before|] == before;
  }

  // ----- rows

  /** The first entry with this very pattern. */
  function EntryOf(entries: seq<Entry>, pattern: Option<string>): (r: Option<nat>)
    ensures r.Some? ==> r.value < |entries| && entries[r.value].pattern == pattern
    ensures r.Some? ==> forall j :: 0 <= j < r.value ==> entries[j].pattern != pattern
    ensures r.None? ==> forall j :: 0 <= j < |entries| ==> entries[j].pattern != pattern
  {
    if entries == [] then None
    else
      var n := |entries| - 1;
      var before := EntryOf(entries[..n], pattern);
      if before.Some? then before else if entries[n].pattern == pattern then Some(n) else None
  }

  function Patterns(entries: seq<Entry>): seq<string> {
    seq(|entries|, i requires 0 <= i < |entries| => entries[i].pattern.GetOr(""))
  }

  function RowOf(e: ProgramEvent, entries: seq<Entry>, delimiter: Option<Token>): Row {
    var matched := MatchPattern(FileStem(SourceFile(e)), Patterns(entries));
    var k := EntryOf(entries, matched);
    Row(e.id, SourceFile(e), EventName(SourceFile(e), delimiter), matched.GetOr(""),
        if k.Some? then entries[k.value].repeats else None,
        if k.Some? then entries[k.value].weight else None,
        if k.Some? then Some(k.value + 1) else None)
  }

  /** One row per event with a source file, in event order. */
  function HydratedBy(events: seq<ProgramEvent>, make: ProgramEvent -> Row): seq<Row> {
    if events == [] then []
    else
      var n := |events| - 1;
      HydratedBy(events[..n], make) + if SourceFile(events[n]) == "" then [] else [make(events[n])]
  }

  function Hydrated(events: seq<ProgramEvent>, entries: seq<Entry>, delimiter: Option<Token>): seq<Row> {
    HydratedBy(events, e => RowOf(e, entries, delimiter))
  }

  lemma {:induction false} HydratedHas(events: seq<ProgramEvent>, make: ProgramEvent -> Row, row: Row)
    ensures row in HydratedBy(events, make) <==>
              exists e :: e in events && SourceFile(e) != "" && row == make(e)
  {
    if events != [] {
      var n := |events| - 1;
      HydratedHas(events[..n], make, row);
      assert events == events[..n] + [events[n]];
    }
  }

  // ----- order

  predicate TextLe(a: string, b: string) {
    a == "" || (b != "" && (a[0] < b[0] || (a[0] == b[0] && TextLe(a[1..], b[1..]))))
  }

  const NO_SEQUENCE: nat := 1_000_000_000

  /** By sequence, rows without one counting as the number above, then by file name. */
  predicate RowLe(a: Row, b: Row) {
    var m, n := a.sequence.GetOr(NO_SEQUENCE), b.sequence.GetOr(NO_SEQUENCE);
    m < n || (m == n && TextLe(a.fileName, b.fileName))
  }

  /** The texts agree before position k, where the first has the smaller character. */
  predicate SmallerAt(a: string, b: string, k: int) {
    0 <= k < |a| && k < |b| && a[..k] == b[..k] && a[k] < b[k]
  }

  /** A text is not greater than another exactly when it is a beginning of it or has the smaller character
      where the two first differ. */
  lemma {:induction false} TextLeIs(a: string, b: string)
    ensures TextLe(a, b) <==> a <= b || exists k :: SmallerAt(a, b, k)
  {
    if a != "" && b != "" {
      if a[0] == b[0] {
        TextLeIs(a[1..], b[1..]);
        TailsDiffer(a, b);
      } else if a[0] < b[0] {
        assert SmallerAt(a, b, 0);
      } else {
        forall k | SmallerAt(a, b, k) ensures k > 0 ==> a[..k][0] == b[..k][0] {}
      }
    }
  }

  lemma TailsDiffer(a: string, b: string)
    requires a != "" && b != "" && a[0] == b[0]
    ensures a <= b <==> a[1..] <= b[1..]
    ensures (exists k :: SmallerAt(a, b, k)) <==> exists k :: SmallerAt(a[1..], b[1..], k)
  {
    assert a == [a[0]] + a[1..] && b == [b[0]] + b[1..];
    if k :| SmallerAt(a, b, k) {
      assert a[1..][..k - 1] == a[..k][1..] && b[1..][..k - 1] == b[..k][1..];
      assert SmallerAt(a[1..], b[1..], k - 1);
    }
    if k :| SmallerAt(a[1..], b[1..], k) {
      assert a[..k + 1] == [a[0]] + a[1..][..k] && b[..k + 1] == [b[0]] + b[1..][..k];
      assert SmallerAt(a, b, k + 1);
    }
  }

  /** Sorted rows ascend by sequence, equal ones by file name; a row without a sequence follows every row with
      one below a thousand million. */
  lemma SortedRowsAscend(rows: seq<Row>, i: nat, j: nat)
    requires IsSorted(RowLe, rows) && i < j < |rows|
    ensures var a, b := rows[i], rows[j];
            && (a.sequence.Some? && b.sequence.Some? ==> a.sequence.value <= b.sequence.value)
            && (a.sequence == b.sequence ==>
                  a.fileName <= b.fileName || exists k :: SmallerAt(a.fileName, b.fileName, k))
            && (a.sequence.None? && b.sequence.Some? ==> b.sequence.value >= 1_000_000_000)
  {
    TextLeIs(rows[i].fileName, rows[j].fileName);
  }

  lemma {:induction false} TextLeTotal(a: string, b: string)
    ensures TextLe(a, b) || TextLe(b, a)
  {
    if a != "" && b != "" { TextLeTotal(a[1..], b[1..]); }
  }

  lemma {:induction false} TextLeTransitive(a: string, b: string, c: string)
    requires TextLe(a, b) && TextLe(b, c)
    ensures TextLe(a, c)
  {
    if a != "" && b != "" && c != "" && a[0] == b[0] == c[0] { TextLeTransitive(a[1..], b[1..], c[1..]); }
  }

  lemma RowLeIsPreorder()
    ensures TotalPreorder(RowLe)
  {
    forall a: Row, b: Row ensures RowLe(a, b) || RowLe(b, a) { TextLeTotal(a.fileName, b.fileName); }
    forall a: Row, b: Row, c: Row | RowLe(a, b) && RowLe(b, c) ensures RowLe(a, c) {
      if TextLe(a.fileName, b.fileName) && TextLe(b.fileName, c.fileName) {
        TextLeTransitive(a.fileName, b.fileName, c.fileName);
      }
    }
  }

  // ----- the generated schedule

  /** The delimiter the files share, as far as its discovery determines it. */
  ghost predicate IsDelimiter(paths: seq<string>, d: Option<Token>) {
    var files, met := TokenLists(paths), Met(TokenLists(paths));
    && (forall t :: t in met <==> IsToken(files, t))
    && (d.None? <==> met == [])
    && (d.Some? ==> exists k :: IsFirstBest(Scores(files, met), k) && d == Some(met[k]))
  }

  /** Appends a row per event with a file, then sorts. */
  method BuildScheduleEventRows(events: seq<ProgramEvent>, entries: seq<Entry>) returns (rows: seq<Row>)
    ensures exists d :: IsDelimiter(Files(events), d) && rows == Sort(RowLe, Hydrated(events, entries, d))
  {
    var paths: seq<string> := [];
    for n := 0 to |events|
      invariant paths == Files(events[..n])
    {
      assert events[..n + 1][..n] == events[..n];
      var file := SourceFile(events[n]);
      if file != "" { paths := paths + [file]; }
    }
    assert events[..|events|] == events;
    var delimiter := DiscoverEventDelimiter(paths);
    rows := HydrateRows(events, entries, delimiter);
    rows := Sort(RowLe, rows);
  }

  method HydrateRows(events: seq<ProgramEvent>, entries: seq<Entry>, delimiter: Option<Token>) returns (rows: seq<Row>)
    ensures rows == Hydrated(events, entries, delimiter)
  {
    var make := (e: ProgramEvent) => RowOf(e, entries, delimiter);
    rows := [];
    for n := 0 to |events|
      invariant rows == HydratedBy(events[..n], make)
    {
      assert events[..n + 1][..n] == events[..n];
      if SourceFile(events[n]) != "" { rows := rows + [make(events[n])]; }
    }
    assert events[..|events|] == events;
  }

  /** There is one row per event with a source file, in event order before sorting. */
  lemma {:induction false} OneRowPerFile(events: seq<ProgramEvent>, entries: seq<Entry>, d: Option<Token>)
    ensures var rows := Hydrated(events, entries, d);
            |rows| == |Files(events)| && forall i :: 0 <= i < |rows| ==> rows[i].fileName == Files(events)[i]
  {
    if events != [] { OneRowPerFile(events[..|events| - 1], entries, d); }
  }

  /** The generated rows are the hydrated ones, sorted by sequence and file name, equal keys in event order. */
  lemma RowsAreSorted(events: seq<ProgramEvent>, entries: seq<Entry>, d: Option<Token>, z: Row)
    ensures var hydrated, rows := Hydrated(events, entries, d), Sort(RowLe, Hydrated(events, entries, d));
            && IsSorted(RowLe, rows) && multiset(rows) == multiset(hydrated)
            && Alike(RowLe, rows, z) == Alike(RowLe, hydrated, z)
  {
    var hydrated := Hydrated(events, entries, d);
    RowLeIsPreorder();
    SortHas(RowLe, hydrated);
    SortSorted(RowLe, hydrated);
    SortAlike(RowLe, hydrated, z);
  }

  /** A row's pattern is the first longest one in its file's stem; a non-empty pattern brings the scaling
      and the number of the first entry that has it. */
  lemma RowFollowsItsEntry(e: ProgramEvent, entries: seq<Entry>, d: Option<Token>)
    ensures var row, patterns, stem := RowOf(e, entries, d), Patterns(entries), FileStem(SourceFile(e));
            && (row.pattern != "" ==>
                  exists k, j :: IsFirstLongest(stem, patterns, k) && row.pattern == patterns[k]
                    && EntryOf(entries, Some(row.pattern)) == Some(j)
                    && row.repeats == entries[j].repeats && row.weight == entries[j].weight
                    && row.sequence == Some(j + 1))
            && (row.pattern == "" ==> forall p :: p in patterns && p != "" ==> !OccursIn(p, stem))
  {
    var row, patterns, stem := RowOf(e, entries, d), Patterns(entries), FileStem(SourceFile(e));
    var k := MatchIsFirstLongest(stem, patterns);
    if row.pattern != "" {
      assert patterns[k] == entries[k].pattern.GetOr("");
      var j := EntryOf(entries, Some(row.pattern));
      assert j.Some?;
      assert IsFirstLongest(stem, patterns, k) && j == Some(j.value);
    } else {
      forall p | p in patterns && p != "" ensures !OccursIn(p, stem) {
        if MatchPattern(stem, patterns).Some? { LongestIsLongest(stem, patterns, k, p); }
      }
    }
  }

  /** A row names its event, its stripped file and the event name in it; without a pattern it has the scaling of
      the first entry that states the empty pattern, and none when no entry does. */
  lemma RowNamesItsEvent(e: ProgramEvent, entries: seq<Entry>, d: Option<Token>)
    ensures var row, k := RowOf(e, entries, d), EntryOf(entries, Some(""));
            && row.eventId == e.id && row.eventName == EventName(row.fileName, d)
            && row.fileName == (if e.sourceFile.Some? then Strip(e.sourceFile.value) else "")
            && (row.pattern == "" && k.Some? ==>
                  && row.repeats == entries[k.value].repeats && row.weight == entries[k.value].weight
                  && row.sequence == Some(k.value + 1))
            && (row.pattern == "" && k.None? ==> row.repeats.None? && row.weight.None? && row.sequence.None?)
  {
    var patterns, stem := Patterns(entries), FileStem(SourceFile(e));
    var k := MatchIsFirstLongest(stem, patterns);
    if MatchPattern(stem, patterns).None? {
      forall j | 0 <= j < |entries| ensures entries[j].pattern.GetOr("") != "" {
        EmptyOccurs(stem);
        assert !OccursIn(patterns[j], stem);
      }
    }
  }

  lemma EmptyOccurs(stem: string)
    ensures OccursIn("", stem)
  {
    assert OccursAt("", stem, 0);
  }

  lemma LongestIsLongest(stem: string, patterns: seq<string>, k: int, p: string)
    requires IsFirstLongest(stem, patterns, k) && p in patterns
    ensures OccursIn(p, stem) ==> |p| <= |patterns[k]|
  {
    var i :| 0 <= i < |patterns| && patterns[i] == p;
  }

  // ----- validation

  function EventRowOf(row: Row): EventRow {
    EventRow(row.eventId, row.pattern, row.repeats, row.weight)
  }

  function EventRows(rows: seq<Row>): seq<EventRow> {
    seq(|rows|, i requires 0 <= i < |rows| => EventRowOf(rows[i]))
  }

  /** The issues a schedule with these rows has. */
  function IssuesIn(rows: seq<Row>): seq<DamageStore.Issue> {
    DamageStore.AllIssues(ScheduledRows(EventRows(rows)))
  }

  /** Validation has nothing to say about this row. */
  predicate IsScaled(row: Row) {
    !IsBlank(row.pattern) ==> row.repeats.Some? && row.weight.Some?
  }

  lemma PassesWhenScaled(rows: seq<Row>)
    ensures IssuesIn(rows) == [] <==> forall row :: row in rows ==> IsScaled(row)
  {
    var all := EventRows(rows);
    var scheduled := ScheduledRows(all);
    if AllScaled(scheduled) {
      forall row | row in rows && !IsBlank(row.pattern) ensures IsScaled(row) {
        var i :| 0 <= i < |rows| && rows[i] == row;
        assert all[i] == EventRowOf(row);
        ScheduledRowsComplete(all, EventRowOf(row));
      }
    } else {
      var k :| 0 <= k < |scheduled| && !HasScaling(scheduled[k]);
      var i :| 0 <= i < |all| && all[i] == scheduled[k];
      assert rows[i] in rows && EventRowOf(rows[i]) == scheduled[k];
    }
  }

  /** The entry an event's file leads to, if its pattern is not blank, states both repeats and weight. */
  predicate LeadsToScaling(e: ProgramEvent, entries: seq<Entry>) {
    var matched := MatchPattern(FileStem(SourceFile(e)), Patterns(entries));
    matched.Some? && !IsBlank(matched.value) ==>
      var k := EntryOf(entries, matched);
      k.Some? && entries[k.value].repeats.Some? && entries[k.value].weight.Some?
  }

  lemma SameRows(rows: seq<Row>, sorted: seq<Row>)
    requires multiset(rows) == multiset(sorted)
    ensures forall row :: row in rows <==> row in sorted
  {
    forall row ensures row in rows <==> row in sorted { assert row in multiset(rows) <==> row in multiset(sorted); }
  }

  lemma ScaledIff(e: ProgramEvent, entries: seq<Entry>, d: Option<Token>)
    ensures IsScaled(RowOf(e, entries, d)) <==> LeadsToScaling(e, entries)
  {}

  lemma HydratedPassesIff(events: seq<ProgramEvent>, make: ProgramEvent -> Row, rows: seq<Row>)
    requires multiset(rows) == multiset(HydratedBy(events, make))
    ensures IssuesIn(rows) == [] <==> forall e :: e in events && SourceFile(e) != "" ==> IsScaled(make(e))
  {
    var hydrated := HydratedBy(events, make);
    SameRows(hydrated, rows);
    PassesWhenScaled(rows);
    forall e | e in events && SourceFile(e) != "" ensures make(e) in hydrated { HydratedHas(events, make, make(e)); }
    forall row | row in hydrated ensures exists e :: e in events && SourceFile(e) != "" && row == make(e) {
      HydratedHas(events, make, row);
    }
  }

  /** The generated schedule passes validation exactly when every event with a file leads to an entry with
      repeats and weight, or to a blank pattern. */
  lemma GeneratedPassesIff(events: seq<ProgramEvent>, entries: seq<Entry>, d: Option<Token>)
    ensures IssuesIn(Sort(RowLe, Hydrated(events, entries, d))) == [] <==>
              forall e :: e in events && SourceFile(e) != "" ==> LeadsToScaling(e, entries)
  {
    var make := (e: ProgramEvent) => RowOf(e, entries, d);
    SortHas(RowLe, HydratedBy(events, make));
    HydratedPassesIff(events, make, Sort(RowLe, HydratedBy(events, make)));
    forall e: ProgramEvent ensures IsScaled(make(e)) <==> LeadsToScaling(e, entries) { ScaledIff(e, entries, d); }
  }

  /** Entries that all state repeats and weight always yield a schedule that passes. */
  lemma CompleteEntriesPass(events: seq<ProgramEvent>, entries: seq<Entry>, d: Option<Token>)
    requires forall k :: 0 <= k < |entries| ==> entries[k].repeats.Some? && entries[k].weight.Some?
    ensures IssuesIn(Sort(RowLe, Hydrated(events, entries, d))) == []
  {
    GeneratedPassesIff(events, entries, d);
    forall e | e in events && SourceFile(e) != "" ensures LeadsToScaling(e, entries) {
      RowFollowsItsEntry(e, entries, d);
    }
  }
}
