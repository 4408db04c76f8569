/** What an ingestion that ended in a certain way leaves in the store once its task is cleaned up. */
module UploadRestoration {
  import opened Options
  import opened EventIds
  import opened Ingestion
  import opened UploadCleanup
  import opened UploadRuns

  // ----- the transactions of an ingestion on the tables

  function OpOf(x: Txn, contents: seq<FileRecord>): Op
    requires x.file < |contents|
  {
    var f := contents[x.file];
    match x.kind
    case Sourcing => StoreSource(f)
    case Deriving => StoreDerived(f)
    case Registering => CreateRun(f)
    case Committing => CommitEvent(f)
    case Retaining => Retain(f)
  }

  ghost predicate Covers(contents: seq<FileRecord>, log: seq<Txn>) {
    forall x :: x in log ==> x.file < |contents|
  }

  function OpsOf(log: seq<Txn>, contents: seq<FileRecord>): seq<Op>
    requires Covers(contents, log)
  {
    seq(|log|, i requires 0 <= i < |log| => assert log[i] in log; OpOf(log[i], contents))
  }

  lemma OpsHave(log: seq<Txn>, contents: seq<FileRecord>, x: Txn)
    requires Covers(contents, log) && x in log
    ensures OpOf(x, contents) in OpsOf(log, contents)
  {
    var i :| 0 <= i < |log| && log[i] == x;
    assert OpsOf(log, contents)[i] == OpOf(x, contents);
  }

  lemma OpsComeFrom(log: seq<Txn>, contents: seq<FileRecord>, op: Op) returns (x: Txn)
    requires Covers(contents, log) && op in OpsOf(log, contents)
    ensures x in log && op == OpOf(x, contents)
  {
    var i :| 0 <= i < |log| && OpsOf(log, contents)[i] == op;
    x := log[i];
  }

  /** Committed files are registered ones, retained files committed ones. */
  ghost predicate Linked(log: seq<Txn>) {
    && (forall i: nat :: Txn(Committing, i) in log ==> Txn(Registering, i) in log)
    && (forall i: nat :: Txn(Retaining, i) in log ==> Txn(Committing, i) in log)
  }

  lemma LogRegisters(log: seq<Txn>, contents: seq<FileRecord>)
    requires Covers(contents, log)
    requires Linked(log)
    ensures Registered(OpsOf(log, contents))
  {
    var ops := OpsOf(log, contents);
    forall op | op in ops && op.CommitEvent? ensures CreateRun(op.file) in ops {
      var x := OpsComeFrom(log, contents, op);
      assert x == Txn(Committing, x.file);
      OpsHave(log, contents, Txn(Registering, x.file));
    }
  }

  lemma LogCommits(log: seq<Txn>, contents: seq<FileRecord>)
    requires Covers(contents, log)
    requires Linked(log)
    ensures RetainedCommitted(OpsOf(log, contents))
  {
    var ops := OpsOf(log, contents);
    forall op | op in ops && op.Retain? ensures CommitEvent(op.file) in ops {
      var x := OpsComeFrom(log, contents, op);
      assert x == Txn(Retaining, x.file);
      OpsHave(log, contents, Txn(Committing, x.file));
    }
  }

  /** The first n files are those whose events are given. */
  ghost predicate FirstOnes(contents: seq<FileRecord>, ids: set<EventId>, n: nat) {
    forall i :: 0 <= i < |contents| ==> (contents[i].event in ids <==> i < n)
  }

  lemma LogOpen(log: seq<Txn>, contents: seq<FileRecord>, ids: set<EventId>, n: nat, p: FileRecord -> bool)
    requires Covers(contents, log) && FirstOnes(contents, ids, n)
    ensures SomeOpen(OpsOf(log, contents), ids, p) <==>
              exists i :: n <= i < |contents| && Txn(Registering, i) in log && p(contents[i])
  {
    var ops := OpsOf(log, contents);
    if SomeOpen(ops, ids, p) {
      var op :| op in ops && op.CreateRun? && op.file.event !in ids && p(op.file);
      var x := OpsComeFrom(log, contents, op);
      assert x == Txn(Registering, x.file) && contents[x.file] == op.file;
    }
    if i :| n <= i < |contents| && Txn(Registering, i) in log && p(contents[i]) {
      OpsHave(log, contents, Txn(Registering, i));
      assert CreateRun(contents[i]).file.event !in ids && p(CreateRun(contents[i]).file);
    }
  }

  /** Only files before the n-th are registered. */
  ghost predicate RegistersBelow(log: seq<Txn>, n: nat) {
    forall i: nat :: Txn(Registering, i) in log ==> i < n
  }

  lemma LogNoneOpen(log: seq<Txn>, contents: seq<FileRecord>, ids: set<EventId>, n: nat)
    requires Covers(contents, log) && FirstOnes(contents, ids, n)
    ensures NoneOpen(OpsOf(log, contents), ids) <==> RegistersBelow(log, n)
  {
    var ops, any := OpsOf(log, contents), (f: FileRecord) => true;
    LogOpen(log, contents, ids, n, any);
    assert NoneOpen(ops, ids) <==> !SomeOpen(ops, ids, any);
    assert forall i: nat :: Txn(Registering, i) in log ==> Txn(Registering, i).file < |contents|;
  }

  // ----- what an ingestion's log holds

  lemma {:induction false} SourceLogHas(n: nat, x: Txn)
    ensures x in SourceLog(n) <==> x.kind == Sourcing && x.file < n
  {
    if n > 0 { SourceLogHas(n - 1, x); }
  }

  /** The fates of files whose event was committed. */
  predicate IsCommitted(fate: Fate) {
    fate.Goes? || fate.CancelledLate? || fate.BrokenAfter?
  }

  lemma FileLogHas(mode: Mode, f: FileUpload, n: nat, x: Txn)
    ensures x in FileLog(mode, f, n) ==> x.file == n && !x.kind.Sourcing?
    ensures Txn(Registering, n) in FileLog(mode, f, n) <==> mode != Mapped && CheckFate(f).Goes?
    ensures Txn(Committing, n) in FileLog(mode, f, n) <==> mode != Checking && IsCommitted(FateOf(mode, f))
    ensures Txn(Retaining, n) in FileLog(mode, f, n) ==> Txn(Committing, n) in FileLog(mode, f, n)
  {}

  lemma FileLogNamed(mode: Mode, f: FileUpload, n: nat, x: Txn)
    ensures x in FileLog(mode, f, n) ==> x.file == n && !x.kind.Sourcing?
  {
    FileLogHas(mode, f, n, x);
  }

  lemma {:induction false} JoinedHas(part: nat -> seq<Txn>, n: nat, x: Txn)
    requires forall i: nat, y: Txn :: y in part(i) ==> y.file == i
    ensures x in Joined(part, n) <==> x.file < n && x in part(x.file)
  {
    if n > 0 { JoinedHas(part, n - 1, x); }
  }

  lemma LogHas(mode: Mode, files: seq<FileUpload>, n: nat, x: Txn)
    requires n <= |files|
    ensures x in LogOf(mode, files, n) <==> x.file < n && x in FileLog(mode, files[x.file], x.file)
  {
    var part := LogAt(mode, files);
    forall i: nat, y: Txn | y in part(i) ensures y.file == i { FileLogNamed(mode, files[i], i, y); }
    JoinedHas(part, n, x);
  }

  lemma LogHasKind(mode: Mode, files: seq<FileUpload>, kind: Kind, i: nat)
    ensures var n, log := Reach(mode, files), LogOf(mode, files, Reach(mode, files));
            && (Txn(Registering, i) in log <==> i < n && mode != Mapped && CheckFate(files[i]).Goes?)
            && (Txn(Committing, i) in log <==> i < n && mode != Checking && IsCommitted(FateOf(mode, files[i])))
            && (Txn(Retaining, i) in log ==> Txn(Committing, i) in log)
            && (Txn(kind, i) in log ==> i < n)
  {
    var n := Reach(mode, files);
    LogHas(mode, files, n, Txn(Registering, i));
    LogHas(mode, files, n, Txn(Committing, i));
    LogHas(mode, files, n, Txn(Retaining, i));
    LogHas(mode, files, n, Txn(kind, i));
    if i < n { FileLogHas(mode, files[i], i, Txn(kind, i)); }
  }

  /** The loops that ran, and with a channel map whether all files passed the checks. */
  lemma IngestLogHas(files: seq<FileUpload>, hasMap: bool, env: Surroundings, x: Txn)
    requires x.kind != Sourcing
    ensures x in IngestLog(files, hasMap, env) <==>
              && files != [] && env.storedSources >= |files|
              && if hasMap then
                   && env.loadsMap
                   && (x in LogOf(Checking, files, Reach(Checking, files))
                       || (WritesMapped(files, env) && x in LogOf(Mapped, files, Reach(Mapped, files))))
                 else env.prepares && x in LogOf(Pending, files, Reach(Pending, files))
  {
    SourceLogHas(|files|, x);
    SourceLogHas(env.storedSources, x);
  }

  predicate Did(files: seq<FileUpload>, hasMap: bool, env: Surroundings, kind: Kind, i: nat) {
    Txn(kind, i) in IngestLog(files, hasMap, env)
  }

  /** The originals are stored and the first loop starts. */
  predicate Loops(files: seq<FileUpload>, hasMap: bool, env: Surroundings) {
    files != [] && env.storedSources >= |files| && if hasMap then env.loadsMap else env.prepares
  }

  /** A file is registered exactly when the loop that checks reaches it and its checks all go through. */
  lemma RegistersIff(files: seq<FileUpload>, hasMap: bool, env: Surroundings, i: nat)
    ensures Did(files, hasMap, env, Registering, i) <==>
              Loops(files, hasMap, env) && i < Reach(if hasMap then Checking else Pending, files) && CheckFate(files[i]).Goes?
  {
    IngestLogHas(files, hasMap, env, Txn(Registering, i));
    LogHasKind(Pending, files, Registering, i);
    LogHasKind(Checking, files, Registering, i);
    LogHasKind(Mapped, files, Registering, i);
  }

  lemma CommitsIff(files: seq<FileUpload>, hasMap: bool, env: Surroundings, i: nat)
    ensures Did(files, hasMap, env, Committing, i) <==>
              && Loops(files, hasMap, env) && (hasMap ==> WritesMapped(files, env))
              && var mode := if hasMap then Mapped else Pending;
                 i < Reach(mode, files) && IsCommitted(FateOf(mode, files[i]))
    ensures Did(files, hasMap, env, Retaining, i) ==> Did(files, hasMap, env, Committing, i)
  {
    IngestLogHas(files, hasMap, env, Txn(Committing, i));
    IngestLogHas(files, hasMap, env, Txn(Retaining, i));
    LogHasKind(Pending, files, Committing, i);
    LogHasKind(Checking, files, Committing, i);
    LogHasKind(Mapped, files, Committing, i);
  }

  lemma ChecksAllGo(files: seq<FileUpload>, i: nat)
    requires EndOf(Checking, files, true).Goes? && i < |files|
    ensures i < Reach(Checking, files) && CheckFate(files[i]).Goes?
  {
    assert GoesFrom(Checking, files[i]);
  }

  lemma CommittedWasRegistered(files: seq<FileUpload>, hasMap: bool, env: Surroundings, i: nat)
    requires Did(files, hasMap, env, Committing, i)
    ensures Did(files, hasMap, env, Registering, i)
  {
    CommitsIff(files, hasMap, env, i);
    RegistersIff(files, hasMap, env, i);
    if hasMap { ChecksAllGo(files, i); }
  }

  lemma CountedHere(mode: Mode, files: seq<FileUpload>, finishes: bool, i: nat)
    requires i < CommittedCount(StopOf(mode, files), EndOf(mode, files, finishes)) <= |files|
    ensures i < Reach(mode, files) && IsCommitted(FateOf(mode, files[i]))
  {
    if i < StopOf(mode, files) { assert GoesFrom(mode, files[i]); }
  }

  lemma CountedIsCommitted(files: seq<FileUpload>, hasMap: bool, env: Surroundings, i: nat)
    requires var (k, fate) := Ended(files, hasMap, env); i < CommittedCount(k, fate) <= |files|
    ensures Did(files, hasMap, env, Committing, i)
  {
    CommitsIff(files, hasMap, env, i);
    if hasMap {
      if !WritesMapped(files, env) { NothingCountsInChecks(files, env); }
      CountedHere(Mapped, files, env.finishes, i);
    } else {
      if !Loops(files, false, env) { NothingCountsWithoutLoop(files, env); }
      CountedHere(Pending, files, env.finishes, i);
    }
  }

  lemma NothingCountsWithoutLoop(files: seq<FileUpload>, env: Surroundings)
    requires !Loops(files, false, env)
    ensures var (k, fate) := Ended(files, false, env); k == 0 && CommittedCount(k, fate) == 0 && !fate.Goes?
  {}

  /** A run with a channel map that ends before its write loop commits and reports nothing. */
  lemma NothingCountsInChecks(files: seq<FileUpload>, env: Surroundings)
    requires !WritesMapped(files, env)
    ensures var (k, fate) := Ended(files, true, env); k == 0 && CommittedCount(k, fate) == 0 && !fate.Goes?
  {
    CheckEnds(files);
  }

  lemma CheckEnds(files: seq<FileUpload>)
    ensures var fate := EndOf(Checking, files, true); fate.Goes? || fate.Refused? || fate.CancelledEarly?
  {}

  // ----- which registered files are reported

  /** The number of ids the ingestion reports. */
  function Reports(files: seq<FileUpload>, hasMap: bool, env: Surroundings): nat {
    ReportedCount(Ended(files, hasMap, env).0, Ended(files, hasMap, env).1)
  }

  /** Every registered file is reported: with a map only by a success, or if already the first file does not
      pass the checks; without one by a success, or if the file that stops the run is not registered and
      either it was a cancel request or nothing came before it. */
  predicate AllReported(files: seq<FileUpload>, hasMap: bool, env: Surroundings) {
    var (k, fate) := Ended(files, hasMap, env);
    || files == [] || env.storedSources < |files| || fate.Goes?
    || if hasMap then !env.loadsMap || StopOf(Checking, files) == 0
       else !env.prepares || (k < |files| && !CheckFate(files[k]).Goes? && (fate.CancelledEarly? || k == 0))
  }

  lemma ReportsWithMap(files: seq<FileUpload>, env: Surroundings)
    requires files != []
    ensures Ended(files, true, env).1.Goes? ==> Reports(files, true, env) == |files| && StopOf(Checking, files) == |files|
    ensures !Ended(files, true, env).1.Goes? && Loops(files, true, env) ==>
              Reports(files, true, env) < StopOf(Checking, files) || StopOf(Checking, files) == 0
  {
    if !WritesMapped(files, env) { NothingCountsInChecks(files, env); }
  }

  lemma AllReportedMapped(files: seq<FileUpload>, env: Surroundings)
    requires files != []
    ensures AllReported(files, true, env) <==>
              forall i: nat :: Did(files, true, env, Registering, i) ==> i < Reports(files, true, env)
  {
    var stop := StopOf(Checking, files);
    forall i: nat | i < stop ensures CheckFate(files[i]).Goes? { assert GoesFrom(Checking, files[i]); }
    forall i: nat ensures Did(files, true, env, Registering, i) <==> Loops(files, true, env) && i < stop {
      RegistersIff(files, true, env, i);
      assert stop < |files| ==> !GoesFrom(Checking, files[stop]);
    }
    ReportsWithMap(files, env);
    if Loops(files, true, env) && stop > 0 { assert Did(files, true, env, Registering, stop - 1); }
  }

  lemma RegistersPendingIff(files: seq<FileUpload>, env: Surroundings, i: nat)
    requires Loops(files, false, env)
    ensures var stop := StopOf(Pending, files);
            Did(files, false, env, Registering, i) <==>
              i < stop || (i == stop && stop < |files| && CheckFate(files[stop]).Goes?)
  {
    RegistersIff(files, false, env, i);
    if i < StopOf(Pending, files) { assert GoesFrom(Pending, files[i]); }
  }

  lemma AllBelow(did: nat -> bool, stop: nat, last: bool, n: nat)
    requires forall i: nat :: did(i) <==> i < stop || (i == stop && last)
    ensures (forall i: nat :: did(i) ==> i < n) <==> if last then stop < n else stop <= n
  {
    assert stop > 0 ==> did(stop - 1);
    assert last ==> did(stop);
  }

  lemma ReportsPending(files: seq<FileUpload>, env: Surroundings)
    requires Loops(files, false, env)
    ensures var stop := StopOf(Pending, files);
            AllReported(files, false, env) <==>
              if stop < |files| && CheckFate(files[stop]).Goes? then stop < Reports(files, false, env)
              else stop <= Reports(files, false, env)
  {}

  lemma AllReportedPending(files: seq<FileUpload>, env: Surroundings)
    requires files != []
    ensures AllReported(files, false, env) <==>
              forall i: nat :: Did(files, false, env, Registering, i) ==> i < Reports(files, false, env)
  {
    var did := (i: nat) => Did(files, false, env, Registering, i);
    var n := Reports(files, false, env);
    if Loops(files, false, env) {
      var stop := StopOf(Pending, files);
      var last := stop < |files| && CheckFate(files[stop]).Goes?;
      forall i: nat ensures did(i) <==> i < stop || (i == stop && last) { RegistersPendingIff(files, env, i); }
      AllBelow(did, stop, last, n);
      ReportsPending(files, env);
    } else {
      forall i: nat ensures !did(i) { RegistersIff(files, false, env, i); }
    }
    assert (forall i: nat :: did(i) ==> i < n) <==>
           (forall i: nat :: Did(files, false, env, Registering, i) ==> i < n) by {
      forall i: nat ensures did(i) <==> Did(files, false, env, Registering, i) {}
    }
  }

  lemma AllReportedIff(files: seq<FileUpload>, hasMap: bool, env: Surroundings)
    ensures AllReported(files, hasMap, env) <==>
              RegistersBelow(IngestLog(files, hasMap, env), Reports(files, hasMap, env))
  {
    assert RegistersBelow(IngestLog(files, hasMap, env), Reports(files, hasMap, env)) <==>
             forall i: nat :: Did(files, hasMap, env, Registering, i) ==> i < Reports(files, hasMap, env)
    by {
      forall i: nat ensures Did(files, hasMap, env, Registering, i) <==> Txn(Registering, i) in IngestLog(files, hasMap, env) {}
    }
    if files == [] {
    } else if hasMap {
      AllReportedMapped(files, env);
    } else {
      AllReportedPending(files, env);
    }
  }

  // ----- the tables after the upload and its cleanup

  /** The last file of the same name: stored originals are kept by file name. */
  function LastNamed(files: seq<FileUpload>, i: nat): (j: nat)
    requires i < |files|
    ensures i <= j < |files| && files[j].name == files[i].name
    ensures forall k :: j < k < |files| ==> files[k].name != files[i].name
  {
    LastNamedBelow(files, i, |files|)
  }

  function LastNamedBelow(files: seq<FileUpload>, i: nat, n: nat): (j: nat)
    requires i < n <= |files|
    ensures i <= j < n && files[j].name == files[i].name
    ensures forall k :: j < k < n ==> files[k].name != files[i].name
  {
    if files[n - 1].name == files[i].name then n - 1 else LastNamedBelow(files, i, n - 1)
  }

  /** The records of the files of one upload: all of one owner, each under its file's name, and each file's
      run naming what the last file of its name was stored as. */
  ghost predicate Describes(files: seq<FileUpload>, contents: seq<FileRecord>) {
    && |contents| == |files|
    && (forall i, j :: 0 <= i < j < |contents| ==> contents[i].owner == contents[j].owner)
    && (forall i: nat :: i < |contents| ==>
          contents[i].filename == files[i].name && contents[i].source == contents[LastNamed(files, i)].stored)
  }

  ghost predicate OwnEvents(contents: seq<FileRecord>) {
    forall i, j :: 0 <= i < j < |contents| ==> contents[i].event != contents[j].event
  }

  lemma SameEvent(contents: seq<FileRecord>, i: nat, j: nat)
    requires OwnEvents(contents) && i < |contents| && j < |contents| && contents[i].event == contents[j].event
    ensures i == j
  {}

  /** A run of an ingestion on given tables: the records of its files carry the ids it generated, and are
      fresh. */
  ghost predicate RunsOn(t: Tables, files: seq<FileUpload>, hasMap: bool, env: Surroundings, contents: seq<FileRecord>,
                         committed: seq<EventId>, r: IngestionResult)
  {
    && Describes(files, contents) && Covers(contents, IngestLog(files, hasMap, env))
    && AccountsAt(files, Ended(files, hasMap, env).0, Ended(files, hasMap, env).1, t.events, committed, r)
    && |committed| <= |files| && (forall i :: 0 <= i < |committed| ==> contents[i].event == committed[i])
    && OwnEvents(contents)
    && Fresh(t, OpsOf(IngestLog(files, hasMap, env), contents))
  }

  lemma LeadingEvents(contents: seq<FileRecord>, committed: seq<EventId>, n: nat, i: nat)
    requires OwnEvents(contents) && n <= |committed| <= |contents| && i < |contents|
    requires forall k :: 0 <= k < |committed| ==> contents[k].event == committed[k]
    ensures contents[i].event in Elements(committed[..n]) <==> i < n
  {
    if i < n { assert committed[..n][i] == committed[i]; }
    if contents[i].event in Elements(committed[..n]) {
      var j :| 0 <= j < n && committed[..n][j] == contents[i].event;
      SameEvent(contents, i, j);
    }
  }

  /** The reported ids are those of the first files. */
  lemma ReportedAre(t: Tables, files: seq<FileUpload>, hasMap: bool, env: Surroundings, contents: seq<FileRecord>,
                    committed: seq<EventId>, r: IngestionResult, i: nat)
    requires RunsOn(t, files, hasMap, env, contents, committed, r) && i < |files|
    ensures contents[i].event in Elements(r.eventIds) <==> i < Reports(files, hasMap, env)
  {
    LeadingEvents(contents, committed, Reports(files, hasMap, env), i);
  }

  lemma ReportedCounts(t: Tables, files: seq<FileUpload>, hasMap: bool, env: Surroundings, contents: seq<FileRecord>,
                       committed: seq<EventId>, r: IngestionResult, i: nat)
    requires RunsOn(t, files, hasMap, env, contents, committed, r) && i < |r.eventIds|
    ensures i < |committed| && contents[i].event == r.eventIds[i]
    ensures i < |contents| && Did(files, hasMap, env, Committing, i)
  {
    CountOf(t, files, hasMap, env, contents, committed, r);
    CountedIsCommitted(files, hasMap, env, i);
    assert r.eventIds[i] == committed[i];
  }

  lemma CommittedOp(log: seq<Txn>, contents: seq<FileRecord>, i: nat)
    requires Covers(contents, log) && Txn(Committing, i) in log
    ensures i < |contents| && CommitEvent(contents[i]) in OpsOf(log, contents)
  {
    OpsHave(log, contents, Txn(Committing, i));
  }

  /** A reported id is that of a committed file. */
  lemma ReportedCommits(t: Tables, files: seq<FileUpload>, hasMap: bool, env: Surroundings, contents: seq<FileRecord>,
                        committed: seq<EventId>, r: IngestionResult, i: nat)
    requires RunsOn(t, files, hasMap, env, contents, committed, r) && i < |r.eventIds|
    ensures i < |contents| && contents[i].event == r.eventIds[i]
    ensures CommitEvent(contents[i]) in OpsOf(IngestLog(files, hasMap, env), contents)
  {
    ReportedCounts(t, files, hasMap, env, contents, committed, r, i);
    CommittedOp(IngestLog(files, hasMap, env), contents, i);
  }

  lemma LogIsLinked(files: seq<FileUpload>, hasMap: bool, env: Surroundings)
    ensures Linked(IngestLog(files, hasMap, env))
  {
    var log := IngestLog(files, hasMap, env);
    forall i: nat | Txn(Committing, i) in log ensures Txn(Registering, i) in log {
      CommittedWasRegistered(files, hasMap, env, i);
    }
    forall i: nat | Txn(Retaining, i) in log ensures Txn(Committing, i) in log { CommitsIff(files, hasMap, env, i); }
  }

  /** Every ingestion is a stopped upload in the sense of the tables. */
  lemma IngestionIsStopped(t: Tables, files: seq<FileUpload>, hasMap: bool, env: Surroundings,
                           contents: seq<FileRecord>, committed: seq<EventId>, r: IngestionResult)
    requires RunsOn(t, files, hasMap, env, contents, committed, r)
    ensures var ops := OpsOf(IngestLog(files, hasMap, env), contents);
            IsStopped(t, ops, Elements(r.eventIds)) && RetainedCommitted(ops)
  {
    var ops := OpsOf(IngestLog(files, hasMap, env), contents);
    LogIsLinked(files, hasMap, env);
    LogRegisters(IngestLog(files, hasMap, env), contents);
    LogCommits(IngestLog(files, hasMap, env), contents);
    forall e | e in Elements(r.eventIds) ensures exists op :: op in ops && op.CommitEvent? && op.file.event == e {
      var i :| 0 <= i < |r.eventIds| && r.eventIds[i] == e;
      ReportedCommits(t, files, hasMap, env, contents, committed, r, i);
    }
  }

  lemma CountOf(t: Tables, files: seq<FileUpload>, hasMap: bool, env: Surroundings, contents: seq<FileRecord>,
                committed: seq<EventId>, r: IngestionResult)
    requires RunsOn(t, files, hasMap, env, contents, committed, r)
    ensures |committed| == CommittedCount(Ended(files, hasMap, env).0, Ended(files, hasMap, env).1)
  {}

  lemma NoneOpenIff(t: Tables, files: seq<FileUpload>, hasMap: bool, env: Surroundings, contents: seq<FileRecord>,
                    committed: seq<EventId>, r: IngestionResult)
    requires RunsOn(t, files, hasMap, env, contents, committed, r)
    ensures NoneOpen(OpsOf(IngestLog(files, hasMap, env), contents), Elements(r.eventIds)) <==>
              AllReported(files, hasMap, env)
  {
    AllReportedIff(files, hasMap, env);
    FirstAreReported(t, files, hasMap, env, contents, committed, r);
    LogNoneOpen(IngestLog(files, hasMap, env), contents, Elements(r.eventIds), Reports(files, hasMap, env));
  }

  lemma FirstAreReported(t: Tables, files: seq<FileUpload>, hasMap: bool, env: Surroundings, contents: seq<FileRecord>,
                         committed: seq<EventId>, r: IngestionResult)
    requires RunsOn(t, files, hasMap, env, contents, committed, r)
    ensures FirstOnes(contents, Elements(r.eventIds), Reports(files, hasMap, env))
  {
    forall i | 0 <= i < |contents|
      ensures contents[i].event in Elements(r.eventIds) <==> i < Reports(files, hasMap, env)
    {
      ReportedAre(t, files, hasMap, env, contents, committed, r, i);
    }
  }

  /** Over whole runs: an upload, however it ended, followed by the cleanup of the ids it reported restores
      every table exactly when it reported all files it registered, the ids left no trace from older events,
      no content was retained before, and the stored artifacts come out even. */
  lemma UploadRestoredIff(t: Tables, files: seq<FileUpload>, hasMap: bool, env: Surroundings,
                          contents: seq<FileRecord>, committed: seq<EventId>, r: IngestionResult)
    requires RunsOn(t, files, hasMap, env, contents, committed, r)
    ensures var ops, ids := OpsOf(IngestLog(files, hasMap, env), contents), Elements(r.eventIds);
            Cleaned(After(t, ops), ids) == t <==>
              && AllReported(files, hasMap, env) && NoTrace(t, ids) && HashesNew(t, ops)
              && SourcesUndone(t, ops, ids) && DerivedsUndone(t, ops, ids)
  {
    IngestionIsStopped(t, files, hasMap, env, contents, committed, r);
    StoppedUploadRestoredIff(t, OpsOf(IngestLog(files, hasMap, env), contents), Elements(r.eventIds));
    NoneOpenIff(t, files, hasMap, env, contents, committed, r);
  }

  /** The runs a cleanup leaves are the older ones and those of files that were registered but not reported. */
  lemma UploadLeavesRuns(t: Tables, files: seq<FileUpload>, hasMap: bool, env: Surroundings,
                         contents: seq<FileRecord>, committed: seq<EventId>, r: IngestionResult, run: RunId)
    requires RunsOn(t, files, hasMap, env, contents, committed, r)
    ensures var ops, ids := OpsOf(IngestLog(files, hasMap, env), contents), Elements(r.eventIds);
            run in Cleaned(After(t, ops), ids).runs <==>
              run in t.runs || exists i :: Reports(files, hasMap, env) <= i < |contents|
                                           && Txn(Registering, i) in IngestLog(files, hasMap, env) && contents[i].run == run
  {
    IngestionIsStopped(t, files, hasMap, env, contents, committed, r);
    FirstAreReported(t, files, hasMap, env, contents, committed, r);
    LeavesRuns(t, IngestLog(files, hasMap, env), contents, Elements(r.eventIds), Reports(files, hasMap, env), run);
  }

  lemma LeavesRuns(t: Tables, log: seq<Txn>, contents: seq<FileRecord>, ids: set<EventId>, n: nat, run: RunId)
    requires Covers(contents, log) && FirstOnes(contents, ids, n) && IsStopped(t, OpsOf(log, contents), ids)
    ensures run in Cleaned(After(t, OpsOf(log, contents)), ids).runs <==>
              run in t.runs || exists i :: n <= i < |contents| && Txn(Registering, i) in log && contents[i].run == run
  {
    RunsLeft(t, OpsOf(log, contents), ids, run);
    LogOpen(log, contents, ids, n, (f: FileRecord) => f.run == run);
  }

  lemma LastIsOpen(files: seq<FileUpload>, env: Surroundings)
    requires WritesMapped(files, env) && !Ended(files, true, env).1.Goes?
    ensures Did(files, true, env, Registering, |files| - 1) && Reports(files, true, env) < |files|
  {
    ChecksAllGo(files, |files| - 1);
    RegistersIff(files, true, env, |files| - 1);
    ReportsWithMap(files, env);
  }

  lemma NewRunIsNew(t: Tables, log: seq<Txn>, contents: seq<FileRecord>, i: nat)
    requires Covers(contents, log) && Fresh(t, OpsOf(log, contents)) && Txn(Registering, i) in log
    ensures contents[i].run !in t.runs
  {
    OpsHave(log, contents, Txn(Registering, i));
    assert OpOf(Txn(Registering, i), contents).file.run !in t.runs;
  }

  lemma Differ(v: Tables, t: Tables, run: RunId)
    requires run in v.runs && run !in t.runs
    ensures v != t
  {}

  /** With a channel map every file is registered before the first is committed, so an upload that is
      stopped in its write loop is never undone: the last file's run always stays. */
  lemma StoppedMappedUploadLeavesRun(t: Tables, files: seq<FileUpload>, env: Surroundings,
                                     contents: seq<FileRecord>, committed: seq<EventId>, r: IngestionResult)
    requires RunsOn(t, files, true, env, contents, committed, r) && WritesMapped(files, env) && !r.success
    ensures var v := Cleaned(After(t, OpsOf(IngestLog(files, true, env), contents)), Elements(r.eventIds));
            var last := contents[|files| - 1].run;
            v != t && last in v.runs && last !in t.runs
  {
    var last := |files| - 1;
    LastIsOpen(files, env);
    NewRunIsNew(t, IngestLog(files, true, env), contents, last);
    UploadLeavesRuns(t, files, true, env, contents, committed, r, contents[last].run);
    Differ(Cleaned(After(t, OpsOf(IngestLog(files, true, env), contents)), Elements(r.eventIds)), t, contents[last].run);
  }

  // ----- what an upload changes even if it reports nothing

  lemma {:induction false} SourceLogIs(n: nat)
    ensures |SourceLog(n)| == n
    ensures n > 0 ==> SourceLog(n)[..n - 1] == SourceLog(n - 1) && SourceLog(n)[n - 1] == Txn(Sourcing, n - 1)
  {
    if n > 0 { SourceLogIs(n - 1); }
  }

  lemma {:induction false} SourceLogLast(n: nat, contents: seq<FileRecord>, i: nat)
    requires i < n <= |contents| && Covers(contents, SourceLog(n))
    requires forall k :: i < k < n ==> contents[k].stored != contents[i].stored
    ensures LastStored(OpsOf(SourceLog(n), contents), contents[i].stored)
         == Some(SourceRow(contents[i].filename, contents[i].owner))
  {
    SourceLogIs(n);
    var ops := OpsOf(SourceLog(n), contents);
    assert ops[n - 1] == StoreSource(contents[n - 1]);
    if i < n - 1 {
      forall x | x in SourceLog(n - 1) ensures x.file < |contents| { SourceLogHas(n - 1, x); }
      SourceLogLast(n - 1, contents, i);
      assert ops[..n - 1] == OpsOf(SourceLog(n - 1), contents);
    }
  }

  /** If already the first file does not pass its checks, only originals have been stored. */
  lemma RefusedLogsSources(files: seq<FileUpload>, hasMap: bool, env: Surroundings)
    requires files != [] && env.storedSources >= |files| && !PassesChecks(files[0])
    ensures IngestLog(files, hasMap, env) == SourceLog(|files|)
    ensures Reports(files, hasMap, env) == 0
  {
    assert !GoesFrom(Checking, files[0]) && !GoesFrom(Pending, files[0]);
    assert StopOf(Checking, files) == 0 && StopOf(Pending, files) == 0;
    assert Reach(Checking, files) == 1 && Reach(Pending, files) == 1;
    FirstLogEmpty(Checking, files);
    FirstLogEmpty(Pending, files);
    assert SourceLog(|files|) + [] == SourceLog(|files|);
  }

  lemma FirstLogEmpty(mode: Mode, files: seq<FileUpload>)
    requires files != [] && mode != Mapped && !PassesChecks(files[0])
    ensures LogOf(mode, files, 1) == []
  {
    assert FileLog(mode, files[0], 0) == [];
    assert LogOf(mode, files, 1) == LogOf(mode, files, 0) + FileLog(mode, files[0], 0);
  }

  /** An upload whose first file is refused, say as a duplicate, has nevertheless stored its originals: one that
      was known under another name or owner keeps the new ones, and there is nothing to clean up. */
  lemma RefusedUploadOverwrites(t: Tables, files: seq<FileUpload>, hasMap: bool, env: Surroundings,
                                contents: seq<FileRecord>, committed: seq<EventId>, r: IngestionResult, i: nat)
    requires RunsOn(t, files, hasMap, env, contents, committed, r)
    requires i < |files| <= env.storedSources && !PassesChecks(files[0])
    requires forall k :: i < k < |files| ==> contents[k].stored != contents[i].stored
    requires contents[i].stored in t.sources
             && t.sources[contents[i].stored] != SourceRow(contents[i].filename, contents[i].owner)
    ensures r.eventIds == []
    ensures var v := Cleaned(After(t, OpsOf(IngestLog(files, hasMap, env), contents)), {});
            && contents[i].stored in v.sources
            && v.sources[contents[i].stored] == SourceRow(contents[i].filename, contents[i].owner)
            && v != t
  {
    RefusedLogsSources(files, hasMap, env);
    assert r.eventIds == [] && Elements(r.eventIds) == {};
    IngestionIsStopped(t, files, hasMap, env, contents, committed, r);
    SourceLogLast(|files|, contents, i);
    OverwrittenSourceStays(t, OpsOf(SourceLog(|files|), contents), {}, contents[i].stored);
  }

  /** Every file of this content is followed by one of the same name. */
  ghost predicate Shadowed(files: seq<FileUpload>, contents: seq<FileRecord>, a: Artifact)
    requires |contents| == |files|
  {
    forall j: nat :: j < |contents| && contents[j].stored == a ==> LastNamed(files, j) != j
  }

  lemma ShadowedStays(t: Tables, log: seq<Txn>, files: seq<FileUpload>, contents: seq<FileRecord>, ids: set<EventId>,
                      i: nat)
    requires Describes(files, contents) && Covers(contents, log) && IsStopped(t, OpsOf(log, contents), ids)
    requires i < |files| && Txn(Sourcing, i) in log && Shadowed(files, contents, contents[i].stored)
    requires contents[i].stored !in t.sources && UsersOfSource(t.runs, contents[i].stored) == {}
    ensures var v := Cleaned(After(t, OpsOf(log, contents)), ids);
            contents[i].stored in v.sources && UsersOfSource(v.runs, contents[i].stored) == {} && v != t
  {
    var ops, a := OpsOf(log, contents), contents[i].stored;
    OpsHave(log, contents, Txn(Sourcing, i));
    assert StoresSource(ops, a) by { assert StoreSource(contents[i]) in ops; }
    forall op | op in ops && op.CreateRun? ensures op.file.source != a {
      var x := OpsComeFrom(log, contents, op);
      NamesLast(files, contents, x.file);
    }
    UnusedSourceStays(t, ops, ids, a);
  }

  /** Of two files of one name with different new contents, the first's original stays without a user, however
      the upload ends: both runs name the second's. */
  lemma SameNameLeavesSource(t: Tables, files: seq<FileUpload>, hasMap: bool, env: Surroundings,
                             contents: seq<FileRecord>, committed: seq<EventId>, r: IngestionResult, i: nat)
    requires RunsOn(t, files, hasMap, env, contents, committed, r)
    requires i < |files| && i < env.storedSources && Shadowed(files, contents, contents[i].stored)
    requires contents[i].stored !in t.sources && UsersOfSource(t.runs, contents[i].stored) == {}
    ensures var v := Cleaned(After(t, OpsOf(IngestLog(files, hasMap, env), contents)), Elements(r.eventIds));
            contents[i].stored in v.sources && UsersOfSource(v.runs, contents[i].stored) == {} && v != t
  {
    IngestionIsStopped(t, files, hasMap, env, contents, committed, r);
    SourceIsLogged(files, hasMap, env, i);
    ShadowedStays(t, IngestLog(files, hasMap, env), files, contents, Elements(r.eventIds), i);
  }

  /** A run never names an original of which every file was followed by one of the same name. */
  lemma NamesLast(files: seq<FileUpload>, contents: seq<FileRecord>, i: nat)
    requires Describes(files, contents) && i < |files|
    ensures exists j: nat :: j < |files| && LastNamed(files, j) == j && contents[j].stored == contents[i].source
  {
    var j := LastNamed(files, i);
    assert LastNamed(files, j) == j;
  }

  lemma SourceIsLogged(files: seq<FileUpload>, hasMap: bool, env: Surroundings, i: nat)
    requires i < |files| && i < env.storedSources
    ensures Txn(Sourcing, i) in IngestLog(files, hasMap, env)
  {
    SourceLogHas(|files|, Txn(Sourcing, i));
    SourceLogHas(env.storedSources, Txn(Sourcing, i));
  }

  // ----- the transactions come in order

  /** The originals of all n files are stored. */
  ghost predicate AllSourced(n: nat, before: seq<Txn>) {
    forall i: nat :: i < n ==> Txn(Sourcing, i) in before
  }

  ghost predicate Ready(n: nat, before: seq<Txn>, x: Txn) {
    match x.kind
    case Sourcing => true
    case Deriving => AllSourced(n, before)
    case Registering => AllSourced(n, before) && Txn(Deriving, x.file) in before
    case Committing => Txn(Registering, x.file) in before
    case Retaining => Txn(Committing, x.file) in before
  }

  /** After what came before, each transaction of an upload of n files follows those it builds on. */
  ghost predicate OrderedAfter(n: nat, before: seq<Txn>, log: seq<Txn>) {
    forall i :: 0 <= i < |log| ==> Ready(n, before + log[..i], log[i])
  }

  lemma OrderedAppend(n: nat, before: seq<Txn>, a: seq<Txn>, b: seq<Txn>)
    requires OrderedAfter(n, before, a) && OrderedAfter(n, before + a, b)
    ensures OrderedAfter(n, before, a + b)
  {
    forall i | 0 <= i < |a + b| ensures Ready(n, before + (a + b)[..i], (a + b)[i]) {
      if i < |a| {
        assert (a + b)[..i] == a[..i];
      } else {
        assert before + (a + b)[..i] == before + a + b[..i - |a|];
      }
    }
  }

  lemma ReadyLater(n: nat, before: seq<Txn>, more: seq<Txn>, x: Txn)
    requires Ready(n, before, x) && forall y :: y in before ==> y in more
    ensures Ready(n, more, x)
  {}

  lemma OrderedLater(n: nat, before: seq<Txn>, more: seq<Txn>, log: seq<Txn>)
    requires OrderedAfter(n, before, log) && forall y :: y in before ==> y in more
    ensures OrderedAfter(n, more, log)
  {
    forall i | 0 <= i < |log| ensures Ready(n, more + log[..i], log[i]) {
      ReadyLater(n, before + log[..i], more + log[..i], log[i]);
    }
  }

  lemma {:induction false} JoinedOrdered(n: nat, before: seq<Txn>, part: nat -> seq<Txn>, k: nat)
    requires forall i: nat :: i < k ==> OrderedAfter(n, before, part(i))
    ensures OrderedAfter(n, before, Joined(part, k))
  {
    if k > 0 {
      JoinedOrdered(n, before, part, k - 1);
      OrderedLater(n, before, before + Joined(part, k - 1), part(k - 1));
      OrderedAppend(n, before, Joined(part, k - 1), part(k - 1));
    }
  }

  lemma {:induction false} SourcesOrdered(n: nat, k: nat)
    ensures OrderedAfter(n, [], SourceLog(k))
  {
    if k > 0 {
      SourcesOrdered(n, k - 1);
      OrderedAppend(n, [], SourceLog(k - 1), [Txn(Sourcing, k - 1)]);
    }
  }

  lemma CheckOrdered(n: nat, before: seq<Txn>, f: FileUpload, i: nat)
    requires AllSourced(n, before)
    ensures OrderedAfter(n, before, CheckLog(f, i))
  {
    var log := CheckLog(f, i);
    forall k | 0 <= k < |log| ensures Ready(n, before + log[..k], log[k]) {
      if k == 1 { assert log[..k][0] == Txn(Deriving, i); }
    }
  }

  lemma WriteOrdered(n: nat, before: seq<Txn>, f: FileUpload, i: nat)
    requires Txn(Registering, i) in before
    ensures OrderedAfter(n, before, WriteLog(f, i))
  {
    var log := WriteLog(f, i);
    forall k | 0 <= k < |log| ensures Ready(n, before + log[..k], log[k]) {
      if k == 1 { assert log[..k][0] == Txn(Committing, i); }
    }
  }

  lemma FileOrdered(n: nat, mode: Mode, before: seq<Txn>, f: FileUpload, i: nat)
    requires if mode == Mapped then Txn(Registering, i) in before else AllSourced(n, before)
    ensures OrderedAfter(n, before, FileLog(mode, f, i))
  {
    if mode == Mapped {
      WriteOrdered(n, before, f, i);
    } else {
      CheckOrdered(n, before, f, i);
      if CheckFate(f).Goes? {
        assert CheckLog(f, i)[1] == Txn(Registering, i);
        WriteOrdered(n, before + CheckLog(f, i), f, i);
        OrderedAppend(n, before, CheckLog(f, i), WriteLog(f, i));
      }
    }
  }

  lemma LoopOrdered(mode: Mode, before: seq<Txn>, files: seq<FileUpload>)
    requires if mode == Mapped then forall i: nat :: i < |files| ==> Txn(Registering, i) in before
             else AllSourced(|files|, before)
    ensures OrderedAfter(|files|, before, LogOf(mode, files, Reach(mode, files)))
  {
    var part := LogAt(mode, files);
    forall i: nat | i < Reach(mode, files) ensures OrderedAfter(|files|, before, part(i)) {
      FileOrdered(|files|, mode, before, files[i], i);
    }
    JoinedOrdered(|files|, before, part, Reach(mode, files));
  }

  lemma SourcesStored(n: nat)
    ensures AllSourced(n, SourceLog(n))
  {
    forall i: nat | i < n ensures Txn(Sourcing, i) in SourceLog(n) { SourceLogHas(n, Txn(Sourcing, i)); }
  }

  lemma SourcesThenLoop(mode: Mode, files: seq<FileUpload>)
    requires mode != Mapped
    ensures OrderedAfter(|files|, [], SourceLog(|files|) + LogOf(mode, files, Reach(mode, files)))
  {
    var n, sources := |files|, SourceLog(|files|);
    SourcesOrdered(n, n);
    SourcesStored(n);
    LoopOrdered(mode, sources, files);
    assert [] + sources == sources;
    OrderedAppend(n, [], sources, LogOf(mode, files, Reach(mode, files)));
  }

  lemma ChecksRegister(files: seq<FileUpload>, i: nat)
    requires EndOf(Checking, files, true).Goes? && i < |files|
    ensures Txn(Registering, i) in LogOf(Checking, files, Reach(Checking, files))
  {
    ChecksAllGo(files, i);
    LogHasKind(Checking, files, Registering, i);
  }

  lemma MappedOrdered(files: seq<FileUpload>, before: seq<Txn>)
    requires EndOf(Checking, files, true).Goes? && OrderedAfter(|files|, [], before)
    requires forall x :: x in LogOf(Checking, files, Reach(Checking, files)) ==> x in before
    ensures OrderedAfter(|files|, [], before + LogOf(Mapped, files, Reach(Mapped, files)))
  {
    forall i: nat | i < |files| ensures Txn(Registering, i) in before { ChecksRegister(files, i); }
    LoopOrdered(Mapped, before, files);
    assert [] + before == before;
    OrderedAppend(|files|, [], before, LogOf(Mapped, files, Reach(Mapped, files)));
  }

  lemma IngestionOrdered(files: seq<FileUpload>, hasMap: bool, env: Surroundings)
    ensures OrderedAfter(|files|, [], IngestLog(files, hasMap, env))
  {
    var sources, checks := SourceLog(|files|), LogOf(Checking, files, Reach(Checking, files));
    SourcesOrdered(|files|, |files|);
    SourcesOrdered(|files|, env.storedSources);
    SourcesThenLoop(Pending, files);
    SourcesThenLoop(Checking, files);
    if WritesMapped(files, env) { MappedOrdered(files, sources + checks); }
    assert sources + [] == sources && checks + [] == checks;
    AssociateLog(sources, checks, LogOf(Mapped, files, Reach(Mapped, files)));
  }

  /** What the transactions before did, the operations before did. */
  ghost predicate Performs(before: seq<Txn>, ops: seq<Op>, contents: seq<FileRecord>) {
    forall x :: x in before && x.file < |contents| ==> OpOf(x, contents) in ops
  }

  lemma FirstPerform(log: seq<Txn>, contents: seq<FileRecord>, i: nat)
    requires Covers(contents, log) && i <= |log|
    ensures Performs(log[..i], OpsOf(log, contents)[..i], contents)
  {
    forall x | x in log[..i] && x.file < |contents| ensures OpOf(x, contents) in OpsOf(log, contents)[..i] {
      var j :| 0 <= j < i && log[j] == x;
      assert OpsOf(log, contents)[..i][j] == OpOf(x, contents);
    }
  }

  lemma Performed(before: seq<Txn>, ops: seq<Op>, contents: seq<FileRecord>, x: Txn)
    requires Performs(before, ops, contents) && x.file < |contents| && x in before
    ensures OpOf(x, contents) in ops
  {}

  lemma ReadyIsPrepared(before: seq<Txn>, ops: seq<Op>, files: seq<FileUpload>, contents: seq<FileRecord>, x: Txn)
    requires Describes(files, contents) && Performs(before, ops, contents)
    requires x.file < |contents| && Ready(|files|, before, x)
    ensures Prepared(ops, OpOf(x, contents))
  {
    match x.kind
    case Sourcing =>
    case Deriving => SourceIsStored(before, ops, files, contents, x.file);
    case Registering =>
      SourceIsStored(before, ops, files, contents, x.file);
      Performed(before, ops, contents, Txn(Deriving, x.file));
    case Committing => Performed(before, ops, contents, Txn(Registering, x.file));
    case Retaining => Performed(before, ops, contents, Txn(Committing, x.file));
  }

  lemma OrderedOps(log: seq<Txn>, files: seq<FileUpload>, contents: seq<FileRecord>)
    requires Describes(files, contents) && Covers(contents, log) && OrderedAfter(|files|, [], log)
    ensures InOrder(OpsOf(log, contents))
  {
    var ops := OpsOf(log, contents);
    forall i | 0 <= i < |ops| ensures Prepared(ops[..i], ops[i]) {
      assert [] + log[..i] == log[..i] && log[i] in log;
      FirstPerform(log, contents, i);
      ReadyIsPrepared(log[..i], ops[..i], files, contents, log[i]);
    }
  }

  lemma SourceIsStored(before: seq<Txn>, ops: seq<Op>, files: seq<FileUpload>, contents: seq<FileRecord>, i: nat)
    requires Describes(files, contents) && AllSourced(|files|, before) && i < |files|
    requires Performs(before, ops, contents)
    ensures StoresSource(ops, contents[i].source)
  {
    var j := LastNamed(files, i);
    assert OpOf(Txn(Sourcing, j), contents) == StoreSource(contents[j]);
  }

  /** However an upload ends, it and its cleanup leave every reference resolved that was. */
  lemma IngestionKeepsClosure(t: Tables, files: seq<FileUpload>, hasMap: bool, env: Surroundings,
                              contents: seq<FileRecord>, ids: set<EventId>)
    requires Closed(t) && Describes(files, contents) && Covers(contents, IngestLog(files, hasMap, env))
    requires Fresh(t, OpsOf(IngestLog(files, hasMap, env), contents))
    ensures var u := After(t, OpsOf(IngestLog(files, hasMap, env), contents)); Closed(u) && Closed(Cleaned(u, ids))
  {
    var ops := OpsOf(IngestLog(files, hasMap, env), contents);
    IngestionOrdered(files, hasMap, env);
    OrderedOps(IngestLog(files, hasMap, env), files, contents);
    UploadKeepsClosure(t, ops);
    CleanupKeepsClosure(After(t, ops), ids);
  }
}
