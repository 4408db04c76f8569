/** The transactions of a folder upload, and what a stopped upload and its cleanup leave of them. */
module UploadRuns {
  import opened EventIds
  import opened Options
  import opened UploadCleanup

  /** One file of an upload: its name and owner, the source artifact its contents are stored as, the one its
      run names, which is that of the last file of its name, its canonical artifact, the ids it is given, its
      event's rows, and the (program, version, file hash) of its retained artifact. */
  datatype FileRecord = FileRecord(filename: string, owner: Option<string>, stored: Artifact, source: Artifact,
                                   derived: Artifact, run: RunId, event: EventId,
                                   rows: map<EventTable, seq<string>>, hash: Artifact)

  /** One transaction of an upload. */
  datatype Op =
    | StoreSource(file: FileRecord)
    | StoreDerived(file: FileRecord)
    | CreateRun(file: FileRecord)
    | CommitEvent(file: FileRecord)
    | Retain(file: FileRecord)

  /** Measurements are appended, the other tables upserted. */
  function RowsWith(rows: map<(EventTable, EventId), seq<string>>, f: FileRecord)
    : map<(EventTable, EventId), seq<string>>
  {
    rows + map table | table in f.rows ::
      (table, f.event) :=
        if (table.MeasurementsRaw? || table.MeasurementsLttb?) && (table, f.event) in rows
        then rows[(table, f.event)] + f.rows[table] else f.rows[table]
  }

  /** Artifacts are upserted under their content, so an original that was stored before now has the new name
      and owner, a canonical file the new source and owner, and a retained artifact the new event. */
  function Apply(t: Tables, op: Op): Tables {
    var f := op.file;
    match op
    case StoreSource(_) => t.(sources := t.sources[f.stored := SourceRow(f.filename, f.owner)])
    case StoreDerived(_) => t.(deriveds := t.deriveds[f.derived := DerivedRow(f.source, f.owner)])
    case CreateRun(_) => t.(runs := t.runs[f.run := Run(f.source, f.derived)])
    case CommitEvent(_) =>
      t.(events := t.events + {f.event}, rows := RowsWith(t.rows, f), links := t.links[f.event := f.run],
         lineage := t.lineage[f.event := Lineage(f.run, f.derived)])
    case Retain(_) => t.(retained := t.retained[f.hash := Some(f.event)])
  }

  /** A commit puts the measurements of its event behind those it had and replaces its other rows, and leaves
      the rows of every other event and of the tables it writes nothing to. */
  lemma CommitWrites(t: Tables, f: FileRecord, table: EventTable, e: EventId)
    ensures var rows, now, k := t.rows, Apply(t, CommitEvent(f)).rows, (table, e);
            if e != f.event || table !in f.rows then (k in now <==> k in rows) && (k in rows ==> now[k] == rows[k])
            else k in now
                 && (k !in rows || table.CustomFieldValues? || table.Previews? ==> now[k] == f.rows[table])
                 && (k in rows && (table.MeasurementsRaw? || table.MeasurementsLttb?) ==>
                       now[k] == rows[k] + f.rows[table])
  {}

  function After(t: Tables, ops: seq<Op>): Tables {
    if ops == [] then t else Apply(After(t, ops[..|ops| - 1]), ops[|ops| - 1])
  }

  // ----- well-formed runs of transactions

  /** Every transaction follows those it builds on. */
  ghost predicate InOrder(ops: seq<Op>) {
    forall i :: 0 <= i < |ops| ==> Prepared(ops[..i], ops[i])
  }

  ghost predicate StoresSource(ops: seq<Op>, a: Artifact) {
    exists op :: op in ops && op.StoreSource? && op.file.stored == a
  }

  ghost predicate Prepared(before: seq<Op>, op: Op) {
    match op
    case StoreSource(_) => true
    case StoreDerived(f) => StoresSource(before, f.source)
    case CreateRun(f) => StoresSource(before, f.source) && StoreDerived(f) in before
    case CommitEvent(f) => CreateRun(f) in before
    case Retain(f) => CommitEvent(f) in before
  }

  predicate Has(ops: seq<Op>, f: FileRecord) {
    exists op :: op in ops && op.file == f
  }

  /** Files have ids of their own, new to the tables; no link, not even a stale one, names a new run. */
  ghost predicate Fresh(t: Tables, ops: seq<Op>) {
    && (forall a, b :: a in ops && b in ops && (a.file.run == b.file.run || a.file.event == b.file.event)
          ==> a.file == b.file)
    && (forall op :: op in ops ==>
          && op.file.event !in t.events && op.file.run !in t.runs
          && forall e :: e in t.links ==> t.links[e] != op.file.run)
  }

  /** The ids a cleanup is given: recorded ones, each committed. */
  ghost predicate AreCommitted(ops: seq<Op>, ids: set<EventId>) {
    forall e :: e in ids ==> exists op :: op in ops && op.CommitEvent? && op.file.event == e
  }

  // ----- what a prefix of an upload did to each table

  ghost predicate RunsAfter(t: Tables, ops: seq<Op>, runs: map<RunId, Run>) {
    && (forall r :: r in runs <==> r in t.runs || exists op :: op in ops && op.CreateRun? && op.file.run == r)
    && (forall r :: r in t.runs ==> runs[r] == t.runs[r])
    && (forall op :: op in ops && op.CreateRun? ==> runs[op.file.run] == Run(op.file.source, op.file.derived))
  }

  ghost predicate LinksAfter(t: Tables, ops: seq<Op>, links: map<EventId, RunId>) {
    && (forall e :: e in links <==>
          e in t.links || exists op :: op in ops && op.CommitEvent? && op.file.event == e)
    && (forall op :: op in ops && op.CommitEvent? ==> links[op.file.event] == op.file.run)
    && (forall e :: e in t.links && links[e] != t.links[e] ==>
          exists op :: op in ops && op.CommitEvent? && op.file.event == e && links[e] == op.file.run)
  }

  lemma LastOp(ops: seq<Op>, op: Op)
    ensures ops != [] ==> (op in ops <==> op in ops[..|ops| - 1] || op == ops[|ops| - 1])
  {
    if ops != [] { assert ops == ops[..|ops| - 1] + [ops[|ops| - 1]]; }
  }

  lemma FreshBefore(t: Tables, ops: seq<Op>)
    requires Fresh(t, ops) && ops != []
    ensures Fresh(t, ops[..|ops| - 1])
  {
    forall op | op in ops[..|ops| - 1] ensures op in ops { LastOp(ops, op); }
  }

  lemma {:induction false} RunsAt(t: Tables, ops: seq<Op>, r: RunId)
    ensures r in After(t, ops).runs <==> r in t.runs || exists op :: op in ops && op.CreateRun? && op.file.run == r
  {
    if ops != [] {
      RunsAt(t, ops[..|ops| - 1], r);
      assert ops == ops[..|ops| - 1] + [ops[|ops| - 1]];
    }
  }

  lemma {:induction false} OldRunAt(t: Tables, ops: seq<Op>, r: RunId)
    requires Fresh(t, ops) && r in t.runs
    ensures r in After(t, ops).runs && After(t, ops).runs[r] == t.runs[r]
  {
    if ops != [] {
      FreshBefore(t, ops);
      OldRunAt(t, ops[..|ops| - 1], r);
      assert ops[|ops| - 1] in ops;
    }
  }

  lemma {:induction false} NewRunAt(t: Tables, ops: seq<Op>, f: FileRecord)
    requires Fresh(t, ops) && CreateRun(f) in ops
    ensures f.run in After(t, ops).runs && After(t, ops).runs[f.run] == Run(f.source, f.derived)
  {
    var last := ops[|ops| - 1];
    FreshBefore(t, ops);
    LastOp(ops, CreateRun(f));
    if last != CreateRun(f) {
      NewRunAt(t, ops[..|ops| - 1], f);
      assert last in ops;
    }
  }

  lemma RunsAreAfter(t: Tables, ops: seq<Op>)
    requires Fresh(t, ops)
    ensures RunsAfter(t, ops, After(t, ops).runs)
  {
    var runs := After(t, ops).runs;
    forall r ensures r in runs <==> r in t.runs || exists op :: op in ops && op.CreateRun? && op.file.run == r {
      RunsAt(t, ops, r);
    }
    forall r | r in t.runs ensures r in runs && runs[r] == t.runs[r] { OldRunAt(t, ops, r); }
    forall op | op in ops && op.CreateRun?
      ensures op.file.run in runs && runs[op.file.run] == Run(op.file.source, op.file.derived)
    {
      NewRunAt(t, ops, op.file);
    }
  }

  lemma {:induction false} LinksAt(t: Tables, ops: seq<Op>, e: EventId)
    ensures var links := After(t, ops).links;
            && (e in links <==> e in t.links || exists op :: op in ops && op.CommitEvent? && op.file.event == e)
            && (e in t.links && links[e] != t.links[e] ==>
                  exists op :: op in ops && op.CommitEvent? && op.file.event == e && links[e] == op.file.run)
  {
    if ops != [] {
      LinksAt(t, ops[..|ops| - 1], e);
      assert ops == ops[..|ops| - 1] + [ops[|ops| - 1]];
    }
  }

  lemma {:induction false} NewLinkAt(t: Tables, ops: seq<Op>, f: FileRecord)
    requires Fresh(t, ops) && CommitEvent(f) in ops
    ensures f.event in After(t, ops).links && After(t, ops).links[f.event] == f.run
  {
    var last := ops[|ops| - 1];
    FreshBefore(t, ops);
    LastOp(ops, CommitEvent(f));
    if last != CommitEvent(f) {
      NewLinkAt(t, ops[..|ops| - 1], f);
      assert last in ops;
    }
  }

  lemma LinksAreAfter(t: Tables, ops: seq<Op>)
    requires Fresh(t, ops)
    ensures LinksAfter(t, ops, After(t, ops).links)
  {
    var links := After(t, ops).links;
    forall e ensures e in links <==> e in t.links || exists op :: op in ops && op.CommitEvent? && op.file.event == e {
      LinksAt(t, ops, e);
    }
    forall op | op in ops && op.CommitEvent?
      ensures op.file.event in links && links[op.file.event] == op.file.run
    {
      NewLinkAt(t, ops, op.file);
    }
    forall e | e in t.links && links[e] != t.links[e]
      ensures exists op :: op in ops && op.CommitEvent? && op.file.event == e && links[e] == op.file.run
    {
      LinksAt(t, ops, e);
    }
  }

  /** The row of a source artifact after the last time it was stored. */
  function LastStored(ops: seq<Op>, a: Artifact): Option<SourceRow> {
    if ops == [] then None
    else
      var last := ops[|ops| - 1];
      if last.StoreSource? && last.file.stored == a then Some(SourceRow(last.file.filename, last.file.owner))
      else LastStored(ops[..|ops| - 1], a)
  }

  lemma {:induction false} SourcesAreAfter(t: Tables, ops: seq<Op>, a: Artifact)
    ensures var sources := After(t, ops).sources;
            && (a in sources <==> a in t.sources || LastStored(ops, a).Some?)
            && (a in sources ==>
                  sources[a] == if LastStored(ops, a).Some? then LastStored(ops, a).value else t.sources[a])
  {
    if ops != [] { SourcesAreAfter(t, ops[..|ops| - 1], a); }
  }

  lemma {:induction false} LastStoredIsStored(ops: seq<Op>, a: Artifact)
    ensures LastStored(ops, a).Some? <==> StoresSource(ops, a)
  {
    if ops != [] {
      LastStoredIsStored(ops[..|ops| - 1], a);
      assert ops == ops[..|ops| - 1] + [ops[|ops| - 1]];
    }
  }

  /** The row of a derived artifact after the last time it was stored. */
  function LastDerived(ops: seq<Op>, d: Artifact): Option<DerivedRow> {
    if ops == [] then None
    else
      var last := ops[|ops| - 1];
      if last.StoreDerived? && last.file.derived == d then Some(DerivedRow(last.file.source, last.file.owner))
      else LastDerived(ops[..|ops| - 1], d)
  }

  lemma {:induction false} DerivedsAreAfter(t: Tables, ops: seq<Op>, d: Artifact)
    ensures var deriveds := After(t, ops).deriveds;
            && (d in deriveds <==> d in t.deriveds || LastDerived(ops, d).Some?)
            && (d in deriveds ==>
                  deriveds[d] == if LastDerived(ops, d).Some? then LastDerived(ops, d).value else t.deriveds[d])
  {
    if ops != [] { DerivedsAreAfter(t, ops[..|ops| - 1], d); }
  }

  lemma {:induction false} LastDerivedIsStored(ops: seq<Op>, d: Artifact)
    ensures LastDerived(ops, d).Some? <==> exists op :: op in ops && op.StoreDerived? && op.file.derived == d
  {
    if ops != [] {
      LastDerivedIsStored(ops[..|ops| - 1], d);
      assert ops == ops[..|ops| - 1] + [ops[|ops| - 1]];
    }
  }

  /** The event that the retained artifact of this content was last given to. */
  function LastOwner(ops: seq<Op>, hash: Artifact): Option<EventId> {
    if ops == [] then None
    else
      var last := ops[|ops| - 1];
      if last.Retain? && last.file.hash == hash then Some(last.file.event)
      else LastOwner(ops[..|ops| - 1], hash)
  }

  lemma {:induction false} RetainedAreAfter(t: Tables, ops: seq<Op>, hash: Artifact)
    ensures var retained := After(t, ops).retained;
            && (hash in retained <==> hash in t.retained || LastOwner(ops, hash).Some?)
            && (hash in retained ==>
                  retained[hash] == if LastOwner(ops, hash).Some? then LastOwner(ops, hash) else t.retained[hash])
  {
    if ops != [] { RetainedAreAfter(t, ops[..|ops| - 1], hash); }
  }

  lemma {:induction false} LastOwnerRetained(ops: seq<Op>, hash: Artifact)
    ensures LastOwner(ops, hash).Some? <==> exists op :: op in ops && op.Retain? && op.file.hash == hash
    ensures LastOwner(ops, hash).Some? ==>
              exists op :: op in ops && op.Retain? && op.file.hash == hash && op.file.event == LastOwner(ops, hash).value
  {
    if ops != [] {
      LastOwnerRetained(ops[..|ops| - 1], hash);
      assert ops == ops[..|ops| - 1] + [ops[|ops| - 1]];
    }
  }

  ghost predicate Commits(ops: seq<Op>, e: EventId) {
    exists op :: op in ops && op.CommitEvent? && op.file.event == e
  }

  lemma CommitsNext(before: seq<Op>, last: Op, e: EventId)
    ensures Commits(before + [last], e) <==> Commits(before, e) || (last.CommitEvent? && last.file.event == e)
  {
    if Commits(before, e) {
      var op :| op in before && op.CommitEvent? && op.file.event == e;
      assert op in before + [last];
    }
    assert last in before + [last];
  }

  lemma {:induction false} EventsAreAfter(t: Tables, ops: seq<Op>, e: EventId)
    ensures e in After(t, ops).events <==> e in t.events || Commits(ops, e)
  {
    if ops != [] {
      EventsAreAfter(t, ops[..|ops| - 1], e);
      CommitsNext(ops[..|ops| - 1], ops[|ops| - 1], e);
      assert ops == ops[..|ops| - 1] + [ops[|ops| - 1]];
    }
  }

  // ----- what is left after the cleanup of some of the events

  /** Every committed file has been registered before. */
  ghost predicate Registered(ops: seq<Op>) {
    forall op :: op in ops && op.CommitEvent? ==> CreateRun(op.file) in ops
  }

  /** A stopped upload whose recorded ids are cleaned up. */
  ghost predicate IsStopped(t: Tables, ops: seq<Op>, ids: set<EventId>) {
    Fresh(t, ops) && Registered(ops) && AreCommitted(ops, ids)
  }

  lemma OrderRegisters(ops: seq<Op>)
    requires InOrder(ops)
    ensures Registered(ops)
  {
    forall op | op in ops && op.CommitEvent? ensures CreateRun(op.file) in ops {
      var i :| 0 <= i < |ops| && ops[i] == op;
      assert Prepared(ops[..i], ops[i]);
    }
  }

  /** Some file that is cleaned up satisfies p. */
  ghost predicate SomeCleaned(ops: seq<Op>, ids: set<EventId>, p: FileRecord -> bool) {
    exists op :: op in ops && op.CommitEvent? && op.file.event in ids && p(op.file)
  }

  /** Some file that was registered but is not cleaned up satisfies p. */
  ghost predicate SomeOpen(ops: seq<Op>, ids: set<EventId>, p: FileRecord -> bool) {
    exists op :: op in ops && op.CreateRun? && op.file.event !in ids && p(op.file)
  }

  lemma CleanedLinks(t: Tables, ops: seq<Op>, ids: set<EventId>, u: Tables, r: RunId)
    requires IsStopped(t, ops, ids) && LinksAfter(t, ops, u.links)
    ensures LinkedFrom(u, ids, r) <==> SomeCleaned(ops, ids, (f: FileRecord) => f.run == r)
  {
    if LinkedFrom(u, ids, r) {
      var e :| e in ids && e in u.links && u.links[e] == r;
      var op :| op in ops && op.CommitEvent? && op.file.event == e;
      assert op.file.run == r;
    }
  }

  /** A registered run stays exactly when its file is not cleaned up; older runs always stay. */
  lemma RunStaysIff(t: Tables, ops: seq<Op>, ids: set<EventId>, u: Tables, r: RunId)
    requires IsStopped(t, ops, ids) && RunsAfter(t, ops, u.runs) && LinksAfter(t, ops, u.links)
    ensures RunStays(u, ids, r) <==> r in t.runs || SomeOpen(ops, ids, (f: FileRecord) => f.run == r)
  {
    CleanedLinks(t, ops, ids, u, r);
    if SomeCleaned(ops, ids, (f: FileRecord) => f.run == r) {
      var op :| op in ops && op.CommitEvent? && op.file.event in ids && op.file.run == r;
      assert CreateRun(op.file) in ops;
      forall e | e in u.links.Keys - ids ensures u.links[e] != r { OtherLink(t, ops, ids, u, op.file, e); }
    }
  }

  lemma OtherLink(t: Tables, ops: seq<Op>, ids: set<EventId>, u: Tables, f: FileRecord, e: EventId)
    requires IsStopped(t, ops, ids) && LinksAfter(t, ops, u.links)
    requires CommitEvent(f) in ops && f.event in ids && e in u.links && e !in ids
    ensures u.links[e] != f.run
  {
    if e !in t.links || u.links[e] != t.links[e] {
      var op :| op in ops && op.CommitEvent? && op.file.event == e;
      assert u.links[e] == op.file.run;
      assert op.file.run == f.run ==> op.file == CommitEvent(f).file;
    } else {
      assert CommitEvent(f) in ops && t.links[e] != CommitEvent(f).file.run;
    }
  }

  /** The artifact of these users stays exactly when no file using it is cleaned up, or an older run or one
      of a file that is not cleaned up uses it too. */
  ghost predicate ArtifactStays(t: Tables, ops: seq<Op>, ids: set<EventId>, older: set<RunId>, p: FileRecord -> bool) {
    SomeCleaned(ops, ids, p) ==> older != {} || SomeOpen(ops, ids, p)
  }

  lemma UserStaysIff(t: Tables, ops: seq<Op>, ids: set<EventId>, u: Tables, users: set<RunId>, older: set<RunId>,
                     p: FileRecord -> bool)
    requires IsStopped(t, ops, ids) && RunsAfter(t, ops, u.runs) && LinksAfter(t, ops, u.links)
    requires users <= u.runs.Keys && older == users * t.runs.Keys
    requires forall op :: op in ops && op.CreateRun? ==> (op.file.run in users <==> p(op.file))
    ensures UserStays(u, ids, users) <==> ArtifactStays(t, ops, ids, older, p)
  {
    UsersCleaned(t, ops, ids, u, users, p);
    UsersLeft(t, ops, ids, u, users, older, p);
  }

  lemma UsersCleaned(t: Tables, ops: seq<Op>, ids: set<EventId>, u: Tables, users: set<RunId>, p: FileRecord -> bool)
    requires IsStopped(t, ops, ids) && LinksAfter(t, ops, u.links)
    requires forall op :: op in ops && op.CreateRun? ==> (op.file.run in users <==> p(op.file))
    ensures (exists r :: r in users && LinkedFrom(u, ids, r)) <==> SomeCleaned(ops, ids, p)
  {
    if r :| r in users && LinkedFrom(u, ids, r) {
      CleanedLinks(t, ops, ids, u, r);
      var op :| op in ops && op.CommitEvent? && op.file.event in ids && op.file.run == r;
      assert CreateRun(op.file) in ops && CreateRun(op.file).file.run in users;
    }
    if SomeCleaned(ops, ids, p) {
      var op :| op in ops && op.CommitEvent? && op.file.event in ids && p(op.file);
      assert CreateRun(op.file) in ops && CreateRun(op.file).file.run in users;
      CleanedLinks(t, ops, ids, u, op.file.run);
    }
  }

  lemma UsersLeft(t: Tables, ops: seq<Op>, ids: set<EventId>, u: Tables, users: set<RunId>, older: set<RunId>,
                  p: FileRecord -> bool)
    requires IsStopped(t, ops, ids) && RunsAfter(t, ops, u.runs) && LinksAfter(t, ops, u.links)
    requires users <= u.runs.Keys && older == users * t.runs.Keys
    requires forall op :: op in ops && op.CreateRun? ==> (op.file.run in users <==> p(op.file))
    ensures (exists r :: r in users && RunStays(u, ids, r)) <==> older != {} || SomeOpen(ops, ids, p)
  {
    if r :| r in users && RunStays(u, ids, r) {
      RunStaysIff(t, ops, ids, u, r);
      if r in t.runs { assert r in older; }
    }
    if r :| r in older { RunStaysIff(t, ops, ids, u, r); assert r in users; }
    if SomeOpen(ops, ids, p) {
      var op :| op in ops && op.CreateRun? && op.file.event !in ids && p(op.file);
      RunStaysIff(t, ops, ids, u, op.file.run);
      assert op.file.run in users;
    }
  }

  predicate UsesSource(f: FileRecord, a: Artifact) { f.source == a }

  predicate UsesDerived(f: FileRecord, d: Artifact) { f.derived == d }

  /** Some file that is cleaned up had this source, so the cleanup considers deleting it. */
  ghost predicate SourceAtRisk(ops: seq<Op>, ids: set<EventId>, a: Artifact) {
    SomeCleaned(ops, ids, f => UsesSource(f, a))
  }

  /** An older run, or one of a file that is not cleaned up, keeps this source. */
  ghost predicate SourceHeld(t: Tables, ops: seq<Op>, ids: set<EventId>, a: Artifact) {
    UsersOfSource(t.runs, a) != {} || SomeOpen(ops, ids, f => UsesSource(f, a))
  }

  ghost predicate DerivedAtRisk(ops: seq<Op>, ids: set<EventId>, d: Artifact) {
    SomeCleaned(ops, ids, f => UsesDerived(f, d))
  }

  ghost predicate DerivedHeld(t: Tables, ops: seq<Op>, ids: set<EventId>, d: Artifact) {
    UsersOfDerived(t.runs, d) != {} || SomeOpen(ops, ids, f => UsesDerived(f, d))
  }

  /** The runs left: the older ones, and those of files that were registered and are not cleaned up. */
  lemma RunsLeft(t: Tables, ops: seq<Op>, ids: set<EventId>, r: RunId)
    requires IsStopped(t, ops, ids)
    ensures r in Cleaned(After(t, ops), ids).runs <==> r in t.runs || SomeOpen(ops, ids, (f: FileRecord) => f.run == r)
    ensures r in t.runs ==> Cleaned(After(t, ops), ids).runs[r] == t.runs[r]
  {
    RunsAreAfter(t, ops);
    LinksAreAfter(t, ops);
    RunStaysIff(t, ops, ids, After(t, ops), r);
  }

  /** The sources left: all that were there or stored, even for files that were never committed, but for
      those at risk that nothing holds; each with the name and owner it was last stored under. */
  lemma SourcesLeft(t: Tables, ops: seq<Op>, ids: set<EventId>, a: Artifact)
    requires IsStopped(t, ops, ids)
    ensures var sources := Cleaned(After(t, ops), ids).sources;
            && (a in sources <==>
                  && (a in t.sources || LastStored(ops, a).Some?)
                  && (SourceAtRisk(ops, ids, a) ==> SourceHeld(t, ops, ids, a)))
            && (a in sources ==>
                  sources[a] == if LastStored(ops, a).Some? then LastStored(ops, a).value else t.sources[a])
  {
    var u := After(t, ops);
    RunsAreAfter(t, ops);
    LinksAreAfter(t, ops);
    SourcesAreAfter(t, ops, a);
    var users, older := UsersOfSource(u.runs, a), UsersOfSource(t.runs, a);
    assert older == users * t.runs.Keys;
    UserStaysIff(t, ops, ids, u, users, older, f => UsesSource(f, a));
  }

  /** The derived artifacts left, each with the source and owner it was last stored under. */
  lemma DerivedsLeft(t: Tables, ops: seq<Op>, ids: set<EventId>, d: Artifact)
    requires IsStopped(t, ops, ids)
    ensures var deriveds := Cleaned(After(t, ops), ids).deriveds;
            && (d in deriveds <==>
                  && (d in t.deriveds || LastDerived(ops, d).Some?)
                  && (DerivedAtRisk(ops, ids, d) ==> DerivedHeld(t, ops, ids, d)))
            && (d in deriveds ==>
                  deriveds[d] == if LastDerived(ops, d).Some? then LastDerived(ops, d).value else t.deriveds[d])
  {
    var u := After(t, ops);
    RunsAreAfter(t, ops);
    LinksAreAfter(t, ops);
    DerivedsAreAfter(t, ops, d);
    var users, older := UsersOfDerived(u.runs, d), UsersOfDerived(t.runs, d);
    assert older == users * t.runs.Keys;
    UserStaysIff(t, ops, ids, u, users, older, f => UsesDerived(f, d));
  }

  // ----- when the cleanup restores everything

  /** Every retained file was committed before. */
  ghost predicate RetainedCommitted(ops: seq<Op>) {
    forall op :: op in ops && op.Retain? ==> CommitEvent(op.file) in ops
  }

  /** Every file that was registered is cleaned up. */
  ghost predicate NoneOpen(ops: seq<Op>, ids: set<EventId>) {
    forall op :: op in ops && op.CreateRun? ==> op.file.event in ids
  }

  /** No row left behind by an older event of the same id. */
  ghost predicate NoTrace(t: Tables, ids: set<EventId>) {
    && (forall e :: e in ids ==> e !in t.links && e !in t.lineage)
    && (forall k :: k in t.rows ==> k.1 !in ids)
    && (forall k :: k in t.retained && t.retained[k].Some? ==> t.retained[k].value !in ids)
  }

  /** No retained artifact was there before: the content is new even to deleted events. */
  ghost predicate HashesNew(t: Tables, ops: seq<Op>) {
    forall op :: op in ops && op.Retain? ==> op.file.hash !in t.retained
  }

  /** A source that was there has an older run if it is at risk, and was last stored under the name and owner
      it had; a new one is at risk and has no older run. */
  ghost predicate SourcesUndone(t: Tables, ops: seq<Op>, ids: set<EventId>) {
    && (forall a :: a in t.sources ==>
          && (SourceAtRisk(ops, ids, a) ==> UsersOfSource(t.runs, a) != {})
          && (LastStored(ops, a).Some? ==> LastStored(ops, a).value == t.sources[a]))
    && (forall op :: op in ops && op.StoreSource? && op.file.stored !in t.sources ==>
          SourceAtRisk(ops, ids, op.file.stored) && UsersOfSource(t.runs, op.file.stored) == {})
  }

  /** The same of derived artifacts, with the source they were made from. */
  ghost predicate DerivedsUndone(t: Tables, ops: seq<Op>, ids: set<EventId>) {
    && (forall d :: d in t.deriveds ==>
          && (DerivedAtRisk(ops, ids, d) ==> UsersOfDerived(t.runs, d) != {})
          && (LastDerived(ops, d).Some? ==> LastDerived(ops, d).value == t.deriveds[d]))
    && (forall op :: op in ops && op.StoreDerived? && op.file.derived !in t.deriveds ==>
          DerivedAtRisk(ops, ids, op.file.derived) && UsersOfDerived(t.runs, op.file.derived) == {})
  }

  ghost predicate Restorable(t: Tables, ops: seq<Op>, ids: set<EventId>) {
    NoneOpen(ops, ids) && NoTrace(t, ids) && HashesNew(t, ops) && SourcesUndone(t, ops, ids) && DerivedsUndone(t, ops, ids)
  }

  lemma RunsRestoredIff(t: Tables, ops: seq<Op>, ids: set<EventId>)
    requires IsStopped(t, ops, ids)
    ensures Cleaned(After(t, ops), ids).runs == t.runs <==> NoneOpen(ops, ids)
  {
    var runs := Cleaned(After(t, ops), ids).runs;
    forall r ensures (r in runs <==> r in t.runs || SomeOpen(ops, ids, (f: FileRecord) => f.run == r))
                     && (r in t.runs ==> runs[r] == t.runs[r])
    {
      RunsLeft(t, ops, ids, r);
    }
    if op :| op in ops && op.CreateRun? && op.file.event !in ids {
      assert SomeOpen(ops, ids, (f: FileRecord) => f.run == op.file.run);
      assert op.file.run in runs && op.file.run !in t.runs;
    } else {
      assert runs.Keys == t.runs.Keys;
    }
  }

  lemma NoneOpenHolds(ops: seq<Op>, ids: set<EventId>, p: FileRecord -> bool)
    requires NoneOpen(ops, ids)
    ensures !SomeOpen(ops, ids, p)
  {}

  lemma SourcesRestoredIff(t: Tables, ops: seq<Op>, ids: set<EventId>)
    requires IsStopped(t, ops, ids) && NoneOpen(ops, ids)
    ensures Cleaned(After(t, ops), ids).sources == t.sources <==> SourcesUndone(t, ops, ids)
  {
    var sources := Cleaned(After(t, ops), ids).sources;
    forall a
      ensures a in sources <==>
                && (a in t.sources || LastStored(ops, a).Some?)
                && (SourceAtRisk(ops, ids, a) ==> UsersOfSource(t.runs, a) != {})
      ensures a in sources ==>
                sources[a] == if LastStored(ops, a).Some? then LastStored(ops, a).value else t.sources[a]
    {
      SourcesLeft(t, ops, ids, a);
      NoneOpenHolds(ops, ids, f => UsesSource(f, a));
    }
    if sources == t.sources {
      forall op | op in ops && op.StoreSource? && op.file.stored !in t.sources
        ensures SourceAtRisk(ops, ids, op.file.stored) && UsersOfSource(t.runs, op.file.stored) == {}
      {
        LastStoredIsStored(ops, op.file.stored);
        assert op.file.stored !in sources;
      }
    }
    if SourcesUndone(t, ops, ids) {
      forall a | a in sources ensures a in t.sources { LastStoredIsStored(ops, a); }
      assert sources.Keys == t.sources.Keys;
    }
  }

  lemma DerivedsRestoredIff(t: Tables, ops: seq<Op>, ids: set<EventId>)
    requires IsStopped(t, ops, ids) && NoneOpen(ops, ids)
    ensures Cleaned(After(t, ops), ids).deriveds == t.deriveds <==> DerivedsUndone(t, ops, ids)
  {
    var deriveds := Cleaned(After(t, ops), ids).deriveds;
    forall d
      ensures d in deriveds <==>
                && (d in t.deriveds || LastDerived(ops, d).Some?)
                && (DerivedAtRisk(ops, ids, d) ==> UsersOfDerived(t.runs, d) != {})
      ensures d in deriveds ==>
                deriveds[d] == if LastDerived(ops, d).Some? then LastDerived(ops, d).value else t.deriveds[d]
    {
      DerivedsLeft(t, ops, ids, d);
      NoneOpenHolds(ops, ids, f => UsesDerived(f, d));
    }
    if deriveds == t.deriveds {
      forall op | op in ops && op.StoreDerived? && op.file.derived !in t.deriveds
        ensures DerivedAtRisk(ops, ids, op.file.derived) && UsersOfDerived(t.runs, op.file.derived) == {}
      {
        LastDerivedIsStored(ops, op.file.derived);
        assert op.file.derived !in deriveds;
      }
    }
    if DerivedsUndone(t, ops, ids) {
      forall d | d in deriveds ensures d in t.deriveds {
        LastDerivedIsStored(ops, d);
      }
      assert deriveds.Keys == t.deriveds.Keys;
    }
  }

  // ----- rows, links and retained artifacts

  lemma {:induction false} UncommittedRows(t: Tables, ops: seq<Op>, k: (EventTable, EventId))
    requires !Commits(ops, k.1)
    ensures k in After(t, ops).rows <==> k in t.rows
    ensures k in t.rows ==> After(t, ops).rows[k] == t.rows[k]
  {
    if ops != [] {
      assert ops == ops[..|ops| - 1] + [ops[|ops| - 1]];
      assert ops[|ops| - 1] in ops;
      UncommittedRows(t, ops[..|ops| - 1], k);
    }
  }

  lemma {:induction false} UncommittedLineage(t: Tables, ops: seq<Op>, e: EventId)
    requires !Commits(ops, e)
    ensures e in After(t, ops).lineage <==> e in t.lineage
    ensures e in t.lineage ==> After(t, ops).lineage[e] == t.lineage[e]
  {
    if ops != [] {
      assert ops == ops[..|ops| - 1] + [ops[|ops| - 1]];
      assert ops[|ops| - 1] in ops;
      UncommittedLineage(t, ops[..|ops| - 1], e);
    }
  }

  /** Exactly the cleaned events were committed. */
  lemma AllCommittedCleaned(t: Tables, ops: seq<Op>, ids: set<EventId>, e: EventId)
    requires IsStopped(t, ops, ids) && NoneOpen(ops, ids)
    ensures Commits(ops, e) <==> e in ids
  {
    if op :| op in ops && op.CommitEvent? && op.file.event == e { assert CreateRun(op.file) in ops; }
  }

  lemma EventsRestored(t: Tables, ops: seq<Op>, ids: set<EventId>)
    requires IsStopped(t, ops, ids) && NoneOpen(ops, ids)
    ensures Cleaned(After(t, ops), ids).events == t.events
  {
    var events := After(t, ops).events;
    forall e ensures e in events - ids <==> e in t.events {
      EventsAreAfter(t, ops, e);
      AllCommittedCleaned(t, ops, ids, e);
    }
  }

  lemma LinksRestoredIff(t: Tables, ops: seq<Op>, ids: set<EventId>)
    requires IsStopped(t, ops, ids) && NoneOpen(ops, ids)
    ensures After(t, ops).links - ids == t.links <==> forall e :: e in ids ==> e !in t.links
  {
    var links := After(t, ops).links;
    forall e | e !in ids ensures (e in links <==> e in t.links) && (e in t.links ==> links[e] == t.links[e]) {
      AllCommittedCleaned(t, ops, ids, e);
      LinksAt(t, ops, e);
    }
    if forall e :: e in ids ==> e !in t.links { assert (links - ids).Keys == t.links.Keys; }
  }

  lemma LineageRestoredIff(t: Tables, ops: seq<Op>, ids: set<EventId>)
    requires IsStopped(t, ops, ids) && NoneOpen(ops, ids)
    ensures After(t, ops).lineage - ids == t.lineage <==> forall e :: e in ids ==> e !in t.lineage
  {
    var lineage := After(t, ops).lineage;
    forall e | e !in ids
      ensures (e in lineage <==> e in t.lineage) && (e in t.lineage ==> lineage[e] == t.lineage[e])
    {
      AllCommittedCleaned(t, ops, ids, e);
      UncommittedLineage(t, ops, e);
    }
    if forall e :: e in ids ==> e !in t.lineage { assert (lineage - ids).Keys == t.lineage.Keys; }
  }

  lemma RowsRestoredIff(t: Tables, ops: seq<Op>, ids: set<EventId>)
    requires IsStopped(t, ops, ids) && NoneOpen(ops, ids)
    ensures Cleaned(After(t, ops), ids).rows == t.rows <==> forall k :: k in t.rows ==> k.1 !in ids
  {
    var rows := After(t, ops).rows;
    forall k: (EventTable, EventId) | k.1 !in ids
      ensures (k in rows <==> k in t.rows) && (k in t.rows ==> rows[k] == t.rows[k])
    {
      AllCommittedCleaned(t, ops, ids, k.1);
      UncommittedRows(t, ops, k);
    }
    if forall k :: k in t.rows ==> k.1 !in ids { assert KeptRows(rows, ids).Keys == t.rows.Keys; }
  }

  lemma RetainedLeft(t: Tables, ops: seq<Op>, ids: set<EventId>, hash: Artifact)
    requires IsStopped(t, ops, ids) && NoneOpen(ops, ids) && RetainedCommitted(ops)
    ensures var retained := Cleaned(After(t, ops), ids).retained;
            && (hash in retained <==>
                  && hash in t.retained && LastOwner(ops, hash).None?
                  && !(t.retained[hash].Some? && t.retained[hash].value in ids))
            && (hash in retained ==> retained[hash] == t.retained[hash])
  {
    RetainedAreAfter(t, ops, hash);
    LastOwnerRetained(ops, hash);
    if LastOwner(ops, hash).Some? {
      var op :| op in ops && op.Retain? && op.file.hash == hash && op.file.event == LastOwner(ops, hash).value;
      assert CommitEvent(op.file) in ops;
      AllCommittedCleaned(t, ops, ids, op.file.event);
    }
  }

  lemma RetainedRestoredIff(t: Tables, ops: seq<Op>, ids: set<EventId>)
    requires IsStopped(t, ops, ids) && NoneOpen(ops, ids) && RetainedCommitted(ops)
    ensures Cleaned(After(t, ops), ids).retained == t.retained <==>
              && HashesNew(t, ops)
              && forall k :: k in t.retained && t.retained[k].Some? ==> t.retained[k].value !in ids
  {
    var retained := Cleaned(After(t, ops), ids).retained;
    forall hash
      ensures hash in retained <==>
                && hash in t.retained && LastOwner(ops, hash).None?
                && !(t.retained[hash].Some? && t.retained[hash].value in ids)
      ensures hash in retained ==> retained[hash] == t.retained[hash]
      ensures LastOwner(ops, hash).Some? <==> exists op :: op in ops && op.Retain? && op.file.hash == hash
    {
      RetainedLeft(t, ops, ids, hash);
      LastOwnerRetained(ops, hash);
    }
    if HashesNew(t, ops) && forall k :: k in t.retained && t.retained[k].Some? ==> t.retained[k].value !in ids {
      assert retained.Keys == t.retained.Keys;
    }
  }

  /** A stopped upload, wherever it stopped, is undone completely by the cleanup of these ids exactly when
      every file it registered is among them, no older event of the same id left a trace, no retained
      content was there before, and the artifacts come out even. */
  lemma StoppedUploadRestoredIff(t: Tables, ops: seq<Op>, ids: set<EventId>)
    requires IsStopped(t, ops, ids) && RetainedCommitted(ops)
    ensures Cleaned(After(t, ops), ids) == t <==> Restorable(t, ops, ids)
  {
    RunsRestoredIff(t, ops, ids);
    if NoneOpen(ops, ids) {
      SourcesRestoredIff(t, ops, ids);
      DerivedsRestoredIff(t, ops, ids);
      EventsRestored(t, ops, ids);
      LinksRestoredIff(t, ops, ids);
      LineageRestoredIff(t, ops, ids);
      RowsRestoredIff(t, ops, ids);
      RetainedRestoredIff(t, ops, ids);
    }
  }

  /** A cleanup of a file whose content a deleted event had before takes the retained artifact of that
      event with it, although nothing else is left over. */
  lemma ReuploadLosesRetained(t: Tables, ops: seq<Op>, ids: set<EventId>, f: FileRecord)
    requires IsStopped(t, ops, ids) && RetainedCommitted(ops) && NoneOpen(ops, ids)
    requires Retain(f) in ops && f.hash in t.retained
    ensures f.hash !in Cleaned(After(t, ops), ids).retained && !Restorable(t, ops, ids)
  {
    RetainedLeft(t, ops, ids, f.hash);
    LastOwnerRetained(ops, f.hash);
    assert Retain(f).file.hash in t.retained;
  }

  // ----- derived artifacts that name a missing source

  /** Every derived artifact names a stored source. */
  ghost predicate SourcesNamed(t: Tables) {
    forall d :: d in t.deriveds ==> t.deriveds[d].source in t.sources
  }

  /** The source a derived artifact is left naming. */
  function NamedSource(t: Tables, ops: seq<Op>, d: Artifact): Option<Artifact> {
    if LastDerived(ops, d).Some? then Some(LastDerived(ops, d).value.source)
    else if d in t.deriveds then Some(t.deriveds[d].source) else None
  }

  /** A cleanup looks for users of a source among the runs only. It leaves some derived artifact naming a
      source that is gone exactly when one stays whose last source was not stored, or is at risk and not
      held. */
  lemma SourceNameDanglesIff(t: Tables, ops: seq<Op>, ids: set<EventId>)
    requires IsStopped(t, ops, ids)
    ensures SourcesNamed(Cleaned(After(t, ops), ids)) <==>
              forall d :: NamedSource(t, ops, d).Some? && (DerivedAtRisk(ops, ids, d) ==> DerivedHeld(t, ops, ids, d)) ==>
                var a := NamedSource(t, ops, d).value;
                && (a in t.sources || LastStored(ops, a).Some?)
                && (SourceAtRisk(ops, ids, a) ==> SourceHeld(t, ops, ids, a))
  {
    var v := Cleaned(After(t, ops), ids);
    forall d
      ensures d in v.deriveds <==>
                NamedSource(t, ops, d).Some? && (DerivedAtRisk(ops, ids, d) ==> DerivedHeld(t, ops, ids, d))
      ensures d in v.deriveds ==> NamedSource(t, ops, d) == Some(v.deriveds[d].source)
    {
      DerivedsLeft(t, ops, ids, d);
    }
    forall a
      ensures a in v.sources <==>
                && (a in t.sources || LastStored(ops, a).Some?)
                && (SourceAtRisk(ops, ids, a) ==> SourceHeld(t, ops, ids, a))
    {
      SourcesLeft(t, ops, ids, a);
    }
  }

  /** So it goes wrong for every cleaned file with the canonical content of an older run but a source of its
      own. */
  lemma SharedContentDangles(t: Tables, ops: seq<Op>, ids: set<EventId>, f: FileRecord)
    requires IsStopped(t, ops, ids) && CommitEvent(f) in ops && f.event in ids
    requires NamedSource(t, ops, f.derived) == Some(f.source) && UsersOfDerived(t.runs, f.derived) != {}
    requires !SourceHeld(t, ops, ids, f.source)
    ensures !SourcesNamed(Cleaned(After(t, ops), ids))
  {
    SourceNameDanglesIff(t, ops, ids);
    assert CommitEvent(f).file.event in ids && UsesSource(CommitEvent(f).file, f.source);
    assert DerivedHeld(t, ops, ids, f.derived);
  }

  // ----- what an upload leaves changed even if it commits nothing

  /** A known original that was last stored under another name or owner keeps these: no cleanup puts the old
      ones back. */
  lemma OverwrittenSourceStays(t: Tables, ops: seq<Op>, ids: set<EventId>, a: Artifact)
    requires IsStopped(t, ops, ids) && a in t.sources
    requires LastStored(ops, a).Some? && LastStored(ops, a).value != t.sources[a]
    ensures var sources := Cleaned(After(t, ops), ids).sources;
            && (a in sources ==> sources[a] == LastStored(ops, a).value)
            && (!SourceAtRisk(ops, ids, a) ==> a in sources)
    ensures Cleaned(After(t, ops), ids) != t
  {
    SourcesLeft(t, ops, ids, a);
  }

  /** A new original that no registered file's run names stays without a user. */
  lemma UnusedSourceStays(t: Tables, ops: seq<Op>, ids: set<EventId>, a: Artifact)
    requires IsStopped(t, ops, ids) && a !in t.sources && StoresSource(ops, a) && UsersOfSource(t.runs, a) == {}
    requires forall op :: op in ops && op.CreateRun? ==> op.file.source != a
    ensures var v := Cleaned(After(t, ops), ids); a in v.sources && UsersOfSource(v.runs, a) == {} && v != t
  {
    LastStoredIsStored(ops, a);
    SourcesLeft(t, ops, ids, a);
    forall op | op in ops && op.CommitEvent? ensures op.file.source != a {
      assert CreateRun(op.file) in ops;
    }
    RunsAreAfter(t, ops);
    var u := After(t, ops);
    forall r | r in u.runs ensures u.runs[r].source != a {
      if r in t.runs { assert r !in UsersOfSource(t.runs, a); }
    }
  }

  // ----- closure

  lemma CreateRunKeepsClosure(t: Tables, f: FileRecord)
    requires Closed(t) && f.derived in t.deriveds && f.source in t.sources
    requires f.run !in t.runs && forall e :: e in t.links ==> t.links[e] != f.run
    ensures Closed(Apply(t, CreateRun(f)))
  {
    var next := Apply(t, CreateRun(f));
    forall e | e in t.lineage ensures t.lineage[e] == Lineage(next.links[e], next.runs[next.links[e]].derived) {
      assert t.links[e] != f.run;
    }
  }

  lemma CommitEventKeepsClosure(t: Tables, f: FileRecord)
    requires Closed(t) && f.run in t.runs && t.runs[f.run].derived == f.derived
    ensures Closed(Apply(t, CommitEvent(f)))
  {
    var next := Apply(t, CommitEvent(f));
    assert next.runs == t.runs && next.retained == t.retained;
    forall k | k in next.rows ensures k.1 in next.events { assert k in t.rows || k.1 == f.event; }
  }

  lemma StoresKeepClosure(t: Tables, op: Op)
    requires Closed(t) && (op.StoreSource? || op.StoreDerived? || (op.Retain? && op.file.event in t.events))
    ensures Closed(Apply(t, op))
  {
    if op.StoreDerived? {
      assert RunsResolve(t.runs, t.deriveds[op.file.derived := DerivedRow(op.file.source, op.file.owner)], t.sources);
    }
  }

  lemma RunIsNew(t: Tables, ops: seq<Op>, f: FileRecord)
    requires Fresh(t, ops) && ops != [] && ops[|ops| - 1] == CreateRun(f)
    requires var before := ops[..|ops| - 1]; InOrder(before) && CreateRun(f) !in before
    ensures var u := After(t, ops[..|ops| - 1]);
            f.run !in u.runs && forall e :: e in u.links ==> u.links[e] != f.run
  {
    var before := ops[..|ops| - 1];
    var u := After(t, before);
    forall op | op in before ensures op in ops { LastOp(ops, op); }
    FreshBefore(t, ops);
    RunsAt(t, before, f.run);
    LinksAreAfter(t, before);
    OrderRegisters(before);
    assert CreateRun(f) in ops;
    forall op | op in before && op.file.run == f.run ensures op.file == f { assert CreateRun(f).file == f; }
    forall e | e in u.links ensures u.links[e] != f.run {
      if e in t.links && u.links[e] == t.links[e] {
        assert t.links[e] != CreateRun(f).file.run;
      } else {
        var op :| op in before && op.CommitEvent? && op.file.event == e;
        assert u.links[e] == op.file.run && CreateRun(op.file) in before;
      }
    }
  }

  lemma CreateRunNext(t: Tables, ops: seq<Op>, f: FileRecord)
    requires Fresh(t, ops) && ops != [] && ops[|ops| - 1] == CreateRun(f)
    requires var before := ops[..|ops| - 1];
             InOrder(before) && Prepared(before, CreateRun(f)) && Closed(After(t, before))
    ensures Closed(Apply(After(t, ops[..|ops| - 1]), CreateRun(f)))
  {
    var before := ops[..|ops| - 1];
    FreshBefore(t, ops);
    if CreateRun(f) in before {
      NewRunAt(t, before, f);
      assert Apply(After(t, before), CreateRun(f)) == After(t, before);
    } else {
      assert StoresSource(before, f.source) && StoreDerived(f) in before;
      SourcesAreAfter(t, before, f.source);
      LastStoredIsStored(before, f.source);
      DerivedsAreAfter(t, before, f.derived);
      LastDerivedIsStored(before, f.derived);
      RunIsNew(t, ops, f);
      CreateRunKeepsClosure(After(t, before), f);
    }
  }

  lemma RetainNext(t: Tables, before: seq<Op>, f: FileRecord)
    requires Closed(After(t, before)) && CommitEvent(f) in before
    ensures Closed(Apply(After(t, before), Retain(f)))
  {
    EventsAreAfter(t, before, f.event);
    assert CommitEvent(f).file.event == f.event;
    StoresKeepClosure(After(t, before), Retain(f));
  }

  lemma InOrderBefore(ops: seq<Op>)
    requires InOrder(ops) && ops != []
    ensures InOrder(ops[..|ops| - 1]) && Prepared(ops[..|ops| - 1], ops[|ops| - 1])
  {
    var before := ops[..|ops| - 1];
    forall i | 0 <= i < |before| ensures Prepared(before[..i], before[i]) {
      assert before[..i] == ops[..i] && Prepared(ops[..i], ops[i]);
    }
  }

  /** Stopped anywhere, an upload leaves every reference resolved that was. */
  lemma {:induction false} UploadKeepsClosure(t: Tables, ops: seq<Op>)
    requires Closed(t) && Fresh(t, ops) && InOrder(ops)
    ensures Closed(After(t, ops))
  {
    if ops != [] {
      var before, last := ops[..|ops| - 1], ops[|ops| - 1];
      FreshBefore(t, ops);
      InOrderBefore(ops);
      UploadKeepsClosure(t, before);
      var u := After(t, before);
      match last
      case CreateRun(f) => CreateRunNext(t, ops, f);
      case CommitEvent(f) =>
        NewRunAt(t, before, f);
        CommitEventKeepsClosure(u, f);
      case Retain(f) => RetainNext(t, before, f);
      case _ => StoresKeepClosure(u, last);
    }
  }
}
