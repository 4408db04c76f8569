/** Folder ingestion with one commit per event, and how what it reports relates to what it committed. */
module Ingestion {
  import opened EventIds
  import opened TaskKinds
  import UploadCleanup

  /** One normalized file, with the answers its surroundings give while it is ingested: whether a cancel
      request is seen at each check, and whether each step outside this model succeeds. `progressSaved` is the
      progress update before a file is parsed, `writeStarts` the reading of the task row that the write loop with
      a map looks at first. */
  datatype FileUpload = FileUpload(
    name: string, rowCount: nat,
    cancelAtStart: bool, progressSaved: bool, parses: bool, cancelParsed: bool, valid: bool, cancelValidated: bool,
    derives: bool, registers: bool,
    writeStarts: bool, cancelWriting: bool, cancelBeforeCommit: bool, commits: bool, cancelCommitted: bool,
    retained: bool, notified: bool)

  datatype IngestionResult =
    IngestionResult(success: bool, eventIds: seq<EventId>, totalRows: nat, cancelled: bool, pendingChannelMap: bool)

  const FAILURE := IngestionResult(false, [], 0, false, false)

  /** Without a channel map each file is checked and written in turn; with one, all files are checked first. */
  datatype Mode = Pending | Checking | Mapped

  // ----- what becomes of a file

  datatype Fate =
    | Goes
    | Refused          // unparsable, invalid, or an error before its commit
    | CancelledEarly   // a cancel request seen before its commit
    | CommitFailed
    | CancelledLate    // a cancel request seen right after its commit
    | BrokenAfter      // an error after its commit
    | BrokenAtEnd      // an error after the last file

  function CheckFate(f: FileUpload): Fate {
    if f.cancelAtStart then CancelledEarly
    else if !f.progressSaved || !f.parses then Refused
    else if f.cancelParsed then CancelledEarly
    else if !f.valid then Refused
    else if f.cancelValidated then CancelledEarly
    else if !f.derives || !f.registers then Refused else Goes
  }

  function WriteFate(f: FileUpload): Fate {
    if f.cancelBeforeCommit then CancelledEarly
    else if !f.commits then CommitFailed
    else if f.cancelCommitted then CancelledLate
    else if !f.retained || !f.notified then BrokenAfter else Goes
  }

  function FateOf(mode: Mode, f: FileUpload): Fate {
    match mode
    case Checking => CheckFate(f)
    case Pending => if CheckFate(f).Goes? then WriteFate(f) else CheckFate(f)
    case Mapped => if !f.writeStarts then Refused else if f.cancelWriting then CancelledEarly else WriteFate(f)
  }

  /** The index of the first file that stops the run. */
  function StopOf(mode: Mode, files: seq<FileUpload>): (k: nat)
    ensures k <= |files|
    ensures forall i :: 0 <= i < k ==> GoesFrom(mode, files[i])
    ensures k < |files| ==> !GoesFrom(mode, files[k])
  {
    if files == [] || !GoesFrom(mode, files[0]) then 0 else 1 + StopOf(mode, files[1..])
  }

  function EndOf(mode: Mode, files: seq<FileUpload>, finishes: bool): Fate {
    var k := StopOf(mode, files);
    if k < |files| then FateOf(mode, files[k]) else if finishes then Goes else BrokenAtEnd
  }

  // ----- what is written to the store on the way

  datatype Kind = Sourcing | Deriving | Registering | Committing | Retaining

  predicate EndsUncommitted(fate: Fate) {
    fate.Refused? || fate.CancelledEarly? || fate.CommitFailed?
  }

  /** A transaction on behalf of one file, given by its place in the upload. */
  datatype Txn = Txn(kind: Kind, file: nat)

  /** The checks before the file's canonical artifact is stored. */
  predicate PassesChecks(f: FileUpload) {
    !f.cancelAtStart && f.progressSaved && f.parses && !f.cancelParsed && f.valid && !f.cancelValidated
  }

  function CheckLog(f: FileUpload, n: nat): seq<Txn> {
    if !PassesChecks(f) || !f.derives then []
    else [Txn(Deriving, n)] + if f.registers then [Txn(Registering, n)] else []
  }

  function WriteLog(f: FileUpload, n: nat): seq<Txn> {
    if f.cancelBeforeCommit || !f.commits then []
    else [Txn(Committing, n)] + if f.cancelCommitted || !f.retained then [] else [Txn(Retaining, n)]
  }

  function FileLog(mode: Mode, f: FileUpload, n: nat): seq<Txn> {
    match mode
    case Checking => CheckLog(f, n)
    case Pending => CheckLog(f, n) + if CheckFate(f).Goes? then WriteLog(f, n) else []
    case Mapped => if !f.writeStarts || f.cancelWriting then [] else WriteLog(f, n)
  }

  function Joined(part: nat -> seq<Txn>, n: nat): seq<Txn> {
    if n == 0 then [] else Joined(part, n - 1) + part(n - 1)
  }

  function LogAt(mode: Mode, files: seq<FileUpload>): nat -> seq<Txn> {
    (i: nat) => if i < |files| then FileLog(mode, files[i], i) else []
  }

  /** The transactions of the first n files. */
  function LogOf(mode: Mode, files: seq<FileUpload>, n: nat): seq<Txn> {
    Joined(LogAt(mode, files), n)
  }

  /** How many files a loop touches: those that go through and the one that stops it. */
  function Reach(mode: Mode, files: seq<FileUpload>): (n: nat)
    ensures n <= |files|
  {
    var k := StopOf(mode, files);
    if k < |files| then k + 1 else k
  }

  function SourceLog(n: nat): seq<Txn> {
    if n == 0 then [] else SourceLog(n - 1) + [Txn(Sourcing, n - 1)]
  }

  function CommittedCount(k: nat, fate: Fate): nat {
    if (fate.CancelledLate? || fate.BrokenAfter?) then k + 1 else k
  }

  function ReportedCount(k: nat, fate: Fate): nat {
    if (fate.Refused? || fate.BrokenAfter? || fate.BrokenAtEnd?) then 0 else k
  }

  function SumRows(files: seq<FileUpload>): nat {
    if files == [] then 0 else SumRows(files[..|files| - 1]) + files[|files| - 1].rowCount
  }

  function BasesOf(files: seq<FileUpload>): (r: seq<string>)
    ensures |r| == |files|
  {
    if files == [] then [] else BasesOf(files[..|files| - 1]) + [BaseName(files[|files| - 1].name)]
  }

  lemma NextFile(files: seq<FileUpload>, n: nat)
    requires n < |files|
    ensures BasesOf(files[..n + 1]) == BasesOf(files[..n]) + [BaseName(files[n].name)]
    ensures SumRows(files[..n + 1]) == SumRows(files[..n]) + files[n].rowCount
  {
    assert files[..n + 1][..n] == files[..n];
  }

  /** How a run ends that stops at file k with this fate: committed are the ids of the files up to the stop,
      in order, and the leading ones are reported unless an error escaped the loop. */
  ghost predicate AccountsAt(files: seq<FileUpload>, k: nat, fate: Fate, existing: set<EventId>,
                             committed: seq<EventId>, r: IngestionResult)
  {
    && CommittedCount(k, fate) <= |files|
    && AreBatchIds(BasesOf(files[..CommittedCount(k, fate)]), existing, committed)
    && ReportedCount(k, fate) <= |committed| && r.eventIds == committed[..ReportedCount(k, fate)]
    && r.success == fate.Goes? && r.cancelled == (fate.CancelledEarly? || fate.CancelledLate?)
    && r.totalRows == if fate.Refused? || fate.BrokenAfter? || fate.BrokenAtEnd? then 0 else SumRows(files[..k])
  }

  ghost predicate Accounts(mode: Mode, files: seq<FileUpload>, finishes: bool, existing: set<EventId>,
                           committed: seq<EventId>, r: IngestionResult)
  {
    AccountsAt(files, StopOf(mode, files), EndOf(mode, files, finishes), existing, committed, r)
  }

  /** The stop is determined by the fates before it. */
  lemma StopsAt(mode: Mode, files: seq<FileUpload>, n: nat)
    requires n <= |files| && (n < |files| ==> !FateOf(mode, files[n]).Goes?)
    requires AllGo(mode, files, n)
    ensures StopOf(mode, files) == n
  {
    assert forall i :: 0 <= i < n ==> GoesFrom(mode, files[i]);
  }

  /** The result of a run that stopped with this fate after collecting these ids and rows. */
  function ResultOf(fate: Fate, created: seq<EventId>, totalRows: nat, pending: bool): IngestionResult {
    match fate
    case Goes => IngestionResult(true, created, totalRows, false, pending)
    case CancelledEarly | CancelledLate => IngestionResult(false, created, totalRows, true, pending)
    case CommitFailed => IngestionResult(false, created, totalRows, false, false)
    case Refused | BrokenAfter | BrokenAtEnd => FAILURE
  }

  predicate GoesFrom(mode: Mode, f: FileUpload) {
    FateOf(mode, f).Goes?
  }

  ghost predicate AllGo(mode: Mode, files: seq<FileUpload>, n: nat)
    requires n <= |files|
  {
    forall i :: 0 <= i < n ==> GoesFrom(mode, files[i])
  }

  /** The first n files went through and were committed as these ids. */
  ghost predicate Underway(mode: Mode, files: seq<FileUpload>, n: nat, existing: set<EventId>, created: seq<EventId>,
                           totalRows: nat)
  {
    && n <= |files| && AreBatchIds(BasesOf(files[..n]), existing, created) && totalRows == SumRows(files[..n])
    && AllGo(mode, files, n)
  }

  lemma StopsBeforeCommit(mode: Mode, files: seq<FileUpload>, finishes: bool, existing: set<EventId>, n: nat,
                          created: seq<EventId>, totalRows: nat, pending: bool)
    requires Underway(mode, files, n, existing, created, totalRows) && n < |files|
    requires EndsUncommitted(FateOf(mode, files[n]))
    ensures Accounts(mode, files, finishes, existing, created,
                     ResultOf(FateOf(mode, files[n]), created, totalRows, pending))
  {
    StopsAt(mode, files, n);
  }

  lemma StopsAfterCommit(mode: Mode, files: seq<FileUpload>, finishes: bool, existing: set<EventId>, n: nat,
                         created: seq<EventId>, totalRows: nat, pending: bool, id: EventId)
    requires Underway(mode, files, n, existing, created, totalRows) && n < |files|
    requires (FateOf(mode, files[n]).CancelledLate? || FateOf(mode, files[n]).BrokenAfter?)
    requires IsFirstFree(BaseName(files[n].name), existing + Elements(created), id)
    ensures Accounts(mode, files, finishes, existing, created + [id],
                     ResultOf(FateOf(mode, files[n]), created, totalRows, pending))
  {
    StopsAt(mode, files, n);
    IdsGoOn(files, existing, n, created, id);
    assert (created + [id])[..n] == created;
  }

  lemma IdsGoOn(files: seq<FileUpload>, existing: set<EventId>, n: nat, created: seq<EventId>, id: EventId)
    requires n < |files| && AreBatchIds(BasesOf(files[..n]), existing, created)
    requires IsFirstFree(BaseName(files[n].name), existing + Elements(created), id)
    ensures AreBatchIds(BasesOf(files[..n + 1]), existing, created + [id])
  {
    NextFile(files, n);
    BatchIdsExtend(BasesOf(files[..n]), existing, created, BaseName(files[n].name), id);
  }

  lemma NextGoes(mode: Mode, files: seq<FileUpload>, n: nat)
    requires n < |files| && AllGo(mode, files, n) && GoesFrom(mode, files[n])
    ensures AllGo(mode, files, n + 1)
  {}

  lemma GoesOn(mode: Mode, files: seq<FileUpload>, existing: set<EventId>, n: nat, created: seq<EventId>,
               totalRows: nat, id: EventId)
    requires Underway(mode, files, n, existing, created, totalRows) && n < |files| && GoesFrom(mode, files[n])
    requires IsFirstFree(BaseName(files[n].name), existing + Elements(created), id)
    ensures Underway(mode, files, n + 1, existing, created + [id], totalRows + files[n].rowCount)
  {
    IdsGoOn(files, existing, n, created, id);
    NextGoes(mode, files, n);
    NextFile(files, n);
  }

  lemma RunsThrough(mode: Mode, files: seq<FileUpload>, finishes: bool, existing: set<EventId>,
                    created: seq<EventId>, totalRows: nat, pending: bool)
    requires Underway(mode, files, |files|, existing, created, totalRows)
    ensures Accounts(mode, files, finishes, existing, created,
                     ResultOf(if finishes then Goes else BrokenAtEnd, created, totalRows, pending))
    ensures Reach(mode, files) == StopOf(mode, files) == |files| == |created|
  {
    StopsAt(mode, files, |files|);
    assert files[..|files|] == files;
  }

  lemma AssociateLog(a: seq<Txn>, b: seq<Txn>, c: seq<Txn>)
    ensures a + b + c == a + (b + c)
  {}

  lemma JoinedGrows(part: nat -> seq<Txn>, n: nat, start: seq<Txn>)
    ensures start + Joined(part, n) + part(n) == start + Joined(part, n + 1)
  {}

  lemma LogGrows(mode: Mode, files: seq<FileUpload>, n: nat, start: seq<Txn>)
    requires n < |files|
    ensures start + LogOf(mode, files, n) + FileLog(mode, files[n], n) == start + LogOf(mode, files, n + 1)
  {
    JoinedGrows(LogAt(mode, files), n, start);
  }

  /** What a write loop carries along: the ids in use, the events created and their rows. */
  datatype Progress = Progress(existing: set<EventId>, created: seq<EventId>, totalRows: nat)

  class IngestionService {
    /** Ids in `dim_event`, in the order they were committed. */
    var events: seq<EventId>
    /** Event ids on the upload task's row, where a later cleanup looks for them. */
    var recorded: seq<EventId>
    /** The transactions on the store, in order. */
    var done: seq<Txn>

    /** The parse, validation and registration steps of one file, none of which commits an event. */
    method CheckFile(f: FileUpload, n: nat) returns (fate: Fate)
      modifies this`done
      ensures fate == CheckFate(f) && done == old(done) + CheckLog(f, n)
    {
      if f.cancelAtStart { return CancelledEarly; }
      if !f.progressSaved || !f.parses { return Refused; }
      if f.cancelParsed { return CancelledEarly; }
      if !f.valid { return Refused; }
      if f.cancelValidated { return CancelledEarly; }
      if !f.derives { return Refused; }
      done := done + [Txn(Deriving, n)];
      if !f.registers { return Refused; }
      done := done + [Txn(Registering, n)];
      return Goes;
    }

    /** The write steps of one file. */
    method WriteFile(f: FileUpload, n: nat, existing: set<EventId>) returns (fate: Fate, id: EventId)
      modifies this
      ensures done == old(done) + WriteLog(f, n)
      ensures fate == WriteFate(f) && IsFirstFree(BaseName(f.name), existing, id)
      ensures events == if (fate.CancelledEarly? || fate.CommitFailed?) then old(events) else old(events) + [id]
      ensures recorded == if fate.Goes? then old(recorded) + [id] else old(recorded)
    {
      id := GenerateEventId(f.name, existing);
      if f.cancelBeforeCommit { return CancelledEarly, id; }
      if !f.commits { return CommitFailed, id; }
      events := events + [id];
      done := done + [Txn(Committing, n)];
      if f.cancelCommitted { return CancelledLate, id; }
      if !f.retained { return BrokenAfter, id; }
      done := done + [Txn(Retaining, n)];
      if !f.notified { return BrokenAfter, id; }
      recorded := recorded + [id];
      return Goes, id;
    }

    /** The head of one round: the checks without a channel map, a look at the cancel request with one. */
    method BeginFile(mode: Mode, f: FileUpload, n: nat) returns (fate: Fate)
      requires mode != Checking
      modifies this`done
      ensures if fate.Goes? then FateOf(mode, f) == WriteFate(f) else FateOf(mode, f) == fate && EndsUncommitted(fate)
      ensures if fate.Goes? then done + WriteLog(f, n) == old(done) + FileLog(mode, f, n)
              else done == old(done) + FileLog(mode, f, n)
    {
      if mode == Mapped {
        return if !f.writeStarts then Refused else if f.cancelWriting then CancelledEarly else Goes;
      }
      AssociateLog(done, CheckLog(f, n), WriteLog(f, n));
      fate := CheckFile(f, n);
    }

    /** The first n files went through since the events were `start` and the log was `log`. */
    ghost predicate Midway(mode: Mode, files: seq<FileUpload>, n: nat, start: seq<EventId>, log: seq<Txn>, p: Progress)
      reads this
    {
      && n <= |files| && done == log + LogOf(mode, files, n)
      && events == start + p.created && p.existing == Elements(start) + Elements(p.created)
      && Underway(mode, files, n, Elements(start), p.created, p.totalRows)
    }

    /** The writing half of a round: the file either joins the created events or ends the run. */
    method WriteNext(mode: Mode, files: seq<FileUpload>, n: nat, p: Progress, ghost start: seq<EventId>,
                     ghost finishes: bool, ghost pending: bool)
      returns (fate: Fate, next: Progress, ghost committed: seq<EventId>, ghost made: EventId)
      requires n < |files| && FateOf(mode, files[n]) == WriteFate(files[n])
      requires events == start + p.created && p.existing == Elements(start) + Elements(p.created)
      requires Underway(mode, files, n, Elements(start), p.created, p.totalRows)
      modifies this
      ensures fate == WriteFate(files[n]) && done == old(done) + WriteLog(files[n], n)
      ensures events == start + committed && p.created <= committed
      ensures recorded == if fate.Goes? then old(recorded) + [made] else old(recorded)
      ensures fate.Goes? ==> next.created == p.created + [made]
      ensures fate.Goes? ==>
        && next.created == committed && next.existing == Elements(start) + Elements(committed)
        && Underway(mode, files, n + 1, Elements(start), next.created, next.totalRows)
      ensures !fate.Goes? ==>
        Accounts(mode, files, finishes, Elements(start), committed, ResultOf(fate, p.created, p.totalRows, pending))
    {
      ghost var existing := Elements(start);
      var id;
      fate, id := WriteFile(files[n], n, p.existing);
      RecordGrows(start, p.created, id);
      made := id;
      next := Progress(p.existing + {id}, p.created + [id], p.totalRows + files[n].rowCount);
      committed := if fate.CancelledEarly? || fate.CommitFailed? then p.created else p.created + [id];
      if fate.CancelledEarly? || fate.CommitFailed? {
        StopsBeforeCommit(mode, files, finishes, existing, n, p.created, p.totalRows, pending);
      } else if !fate.Goes? {
        StopsAfterCommit(mode, files, finishes, existing, n, p.created, p.totalRows, pending, id);
      } else {
        GoesOn(mode, files, existing, n, p.created, p.totalRows, id);
        NextElements(p.created, id);
      }
    }

    /** The file's checks and writes. */
    method IngestFile(mode: Mode, files: seq<FileUpload>, n: nat, p: Progress, ghost start: seq<EventId>,
                      ghost finishes: bool, ghost pending: bool)
      returns (fate: Fate, next: Progress, ghost committed: seq<EventId>, ghost made: EventId)
      requires mode != Checking && n < |files|
      requires events == start + p.created && p.existing == Elements(start) + Elements(p.created)
      requires Underway(mode, files, n, Elements(start), p.created, p.totalRows)
      modifies this
      ensures fate == FateOf(mode, files[n]) && done == old(done) + FileLog(mode, files[n], n)
      ensures events == start + committed && p.created <= committed
      ensures recorded == if fate.Goes? then old(recorded) + [made] else old(recorded)
      ensures fate.Goes? ==>
        && next.created == committed == p.created + [made] && next.existing == Elements(start) + Elements(committed)
        && Underway(mode, files, n + 1, Elements(start), next.created, next.totalRows)
      ensures !fate.Goes? ==>
        Accounts(mode, files, finishes, Elements(start), committed, ResultOf(fate, p.created, p.totalRows, pending))
    {
      fate := BeginFile(mode, files[n], n);
      if !fate.Goes? {
        StopsBeforeCommit(mode, files, finishes, Elements(start), n, p.created, p.totalRows, pending);
        return fate, p, p.created, EventId("");
      }
      fate, next, committed, made := WriteNext(mode, files, n, p, start, finishes, pending);
    }

    /** One round of either write loop. */
    method IngestNext(mode: Mode, files: seq<FileUpload>, n: nat, p: Progress, ghost start: seq<EventId>,
                      ghost log: seq<Txn>, ghost finishes: bool, ghost pending: bool)
      returns (fate: Fate, next: Progress, ghost committed: seq<EventId>, ghost made: EventId)
      requires mode != Checking && n < |files| && Midway(mode, files, n, start, log, p)
      modifies this
      ensures fate == FateOf(mode, files[n]) && events == start + committed && p.created <= committed
      ensures recorded == if fate.Goes? then old(recorded) + [made] else old(recorded)
      ensures fate.Goes? ==> Midway(mode, files, n + 1, start, log, next) && next.created == p.created + [made]
      ensures !fate.Goes? ==>
        && done == log + LogOf(mode, files, Reach(mode, files))
        && Accounts(mode, files, finishes, Elements(start), committed, ResultOf(fate, p.created, p.totalRows, pending))
    {
      LogGrows(mode, files, n, log);
      fate, next, committed, made := IngestFile(mode, files, n, p, start, finishes, pending);
      if !fate.Goes? { StopsAt(mode, files, n); }
    }

    /** Either write loop. */
    method RunLoop(mode: Mode, files: seq<FileUpload>, finishes: bool)
      returns (r: IngestionResult, ghost committed: seq<EventId>)
      requires mode != Checking
      modifies this
      ensures events == old(events) + committed && done == old(done) + LogOf(mode, files, Reach(mode, files))
      ensures Accounts(mode, files, finishes, Elements(old(events)), committed, r)
      ensures RecordsLeading(old(recorded), recorded, committed, StopOf(mode, files))
      ensures r.pendingChannelMap ==> mode == Pending
      ensures mode == Pending && (r.success || r.cancelled) ==> r.pendingChannelMap
    {
      ghost var start, log, before := events, done, recorded;
      var p, pending := Progress(Elements(events), [], 0), mode == Pending;
      for n := 0 to |files|
        invariant Midway(mode, files, n, start, log, p) && recorded == before + p.created
      {
        var fate, next;
        ghost var made;
        fate, next, committed, made := IngestNext(mode, files, n, p, start, log, finishes, pending);
        if !fate.Goes? {
          StopsAt(mode, files, n);
          RecordStops(before, p.created, committed);
          return ResultOf(fate, p.created, p.totalRows, pending), committed;
        }
        RecordGrows(before, p.created, made);
        p := next;
      }
      RunsThrough(mode, files, finishes, Elements(start), p.created, p.totalRows, pending);
      RecordStops(before, p.created, p.created);
      return ResultOf(if finishes then Goes else BrokenAtEnd, p.created, p.totalRows, pending), p.created;
    }

    /** Without a channel map: each file is checked, then committed. */
    method IngestPending(files: seq<FileUpload>, finishes: bool)
      returns (r: IngestionResult, ghost committed: seq<EventId>)
      modifies this
      ensures events == old(events) + committed && done == old(done) + LogOf(Pending, files, Reach(Pending, files))
      ensures Accounts(Pending, files, finishes, Elements(old(events)), committed, r)
      ensures RecordsLeading(old(recorded), recorded, committed, StopOf(Pending, files))
      ensures r.success || r.cancelled ==> r.pendingChannelMap
    {
      r, committed := RunLoop(Pending, files, finishes);
    }

    /** With a channel map: the write phase, after all files were checked. */
    method WriteMapped(files: seq<FileUpload>, finishes: bool)
      returns (r: IngestionResult, ghost committed: seq<EventId>)
      modifies this
      ensures events == old(events) + committed && done == old(done) + LogOf(Mapped, files, Reach(Mapped, files))
      ensures Accounts(Mapped, files, finishes, Elements(old(events)), committed, r)
      ensures RecordsLeading(old(recorded), recorded, committed, StopOf(Mapped, files))
      ensures !r.pendingChannelMap
    {
      r, committed := RunLoop(Mapped, files, finishes);
    }

    /** With a channel map: the first phase checks every file and commits nothing. */
    method CheckFiles(files: seq<FileUpload>) returns (fate: Fate)
      modifies this`done
      ensures fate == EndOf(Checking, files, true)
      ensures done == old(done) + LogOf(Checking, files, Reach(Checking, files))
    {
      for n := 0 to |files|
        invariant AllGo(Checking, files, n) && done == old(done) + LogOf(Checking, files, n)
      {
        LogGrows(Checking, files, n, old(done));
        fate := CheckFile(files[n], n);
        if !fate.Goes? {
          StopsAt(Checking, files, n);
          return;
        }
        NextGoes(Checking, files, n);
      }
      StopsAt(Checking, files, |files|);
      return Goes;
    }

    /** All originals are stored before the first file is looked at. */
    method StoreSources(count: nat)
      modifies this`done
      ensures done == old(done) + SourceLog(count)
    {
      for n := 0 to count
        invariant done == old(done) + SourceLog(n)
      {
        done := done + [Txn(Sourcing, n)];
      }
    }

    /** One ingestion. An error outside the guarded parts escapes, before anything was committed. */
    method Ingest(files: seq<FileUpload>, hasMap: bool, env: Surroundings)
      returns (r: IngestionResult, raised: bool, ghost committed: seq<EventId>)
      modifies this
      ensures events == old(events) + committed
      ensures var (k, fate) := Ended(files, hasMap, env);
              && AccountsAt(files, k, fate, Elements(old(events)), committed, r)
              && RecordsLeading(old(recorded), recorded, committed, k)
      ensures done == old(done) + IngestLog(files, hasMap, env)
      ensures raised ==> recorded == old(recorded) && r == FAILURE && committed == []
      ensures r.success || r.cancelled ==> r.pendingChannelMap == !hasMap
    {
      committed, raised := [], false;
      ghost var log, sources := done, SourceLog(|files|);
      if files == [] { return (if env.cancelled then ResultOf(CancelledEarly, [], 0, !hasMap) else FAILURE), false, []; }
      StoreSources(if env.storedSources < |files| then env.storedSources else |files|);
      if env.storedSources < |files| { return FAILURE, false, []; }
      if !hasMap {
        if !env.prepares { return FAILURE, false, []; }
        AssociateLog(log, sources, LogOf(Pending, files, Reach(Pending, files)));
        r, committed := IngestPending(files, env.finishes);
        return;
      }
      if !env.loadsMap { return FAILURE, false, []; }
      ghost var checks := LogOf(Checking, files, Reach(Checking, files));
      ghost var writes := LogOf(Mapped, files, Reach(Mapped, files));
      AssociateLog(log, sources, checks);
      AssociateLog(log, sources + checks, writes);
      AssociateLog(sources, checks, writes);
      var checked := CheckFiles(files);
      if !checked.Goes? { return ResultOf(checked, [], 0, false), false, []; }
      if !env.savesSnapshot { return FAILURE, true, []; }
      if !env.prepares { return FAILURE, false, []; }
      r, committed := WriteMapped(files, env.finishes);
    }

    /** The upload worker: when the ingestion has ended, the ids on the task's row are replaced by the
        reported ones, unless writing that row fails; then the ids recorded on the way stay. */
    method RunUpload(files: seq<FileUpload>, hasMap: bool, env: Surroundings, rowWritten: bool)
      returns (status: TaskStatus, ghost r: IngestionResult, ghost committed: seq<EventId>)
      requires recorded == []
      modifies this
      ensures events == old(events) + committed
      ensures done == old(done) + IngestLog(files, hasMap, env)
      ensures var (k, fate) := Ended(files, hasMap, env);
              && AccountsAt(files, k, fate, Elements(old(events)), committed, r)
              && k <= |committed| && recorded == (if rowWritten then r.eventIds else committed[..k])
              && status == (if rowWritten && fate.Goes? then Completed
                            else if rowWritten && (fate.CancelledEarly? || fate.CancelledLate?) then Cancelled
                            else Failed)
    {
      var result, raised;
      result, raised, committed := Ingest(files, hasMap, env);
      r := result;
      if raised || !rowWritten { return Failed, r, committed; }
      recorded := result.eventIds;
      status := if result.cancelled then Cancelled else if result.success then Completed else Failed;
    }
  }

  /** The first k committed ids have been recorded on the way. */
  ghost predicate RecordsLeading(before: seq<EventId>, recorded: seq<EventId>, committed: seq<EventId>, k: nat) {
    k <= |committed| && recorded == before + committed[..k]
  }

  lemma RecordGrows(before: seq<EventId>, created: seq<EventId>, id: EventId)
    ensures before + created + [id] == before + (created + [id])
  {}

  lemma RecordStops(before: seq<EventId>, created: seq<EventId>, committed: seq<EventId>)
    requires created <= committed
    ensures RecordsLeading(before, before + created, committed, |created|)
  {}

  /** Whether the steps around the loops succeed: `storedSources` is how many originals are stored before an
      error, `finishes` covers what follows the last file. */
  datatype Surroundings = Surroundings(cancelled: bool, storedSources: nat, prepares: bool, loadsMap: bool,
                                       savesSnapshot: bool, finishes: bool)

  /** The write loop with a map is reached. */
  predicate WritesMapped(files: seq<FileUpload>, env: Surroundings) {
    && files != [] && env.storedSources >= |files| && env.loadsMap
    && EndOf(Checking, files, true).Goes? && env.savesSnapshot && env.prepares
  }

  /** The transactions of an ingestion. */
  function IngestLog(files: seq<FileUpload>, hasMap: bool, env: Surroundings): seq<Txn> {
    if files == [] then []
    else if env.storedSources < |files| then SourceLog(env.storedSources)
    else
      SourceLog(|files|)
      + if !hasMap then (if env.prepares then LogOf(Pending, files, Reach(Pending, files)) else [])
        else if !env.loadsMap then []
        else LogOf(Checking, files, Reach(Checking, files))
             + if WritesMapped(files, env) then LogOf(Mapped, files, Reach(Mapped, files)) else []
  }

  /** Where an ingestion stops, counted in files committed before, and how. */
  function Ended(files: seq<FileUpload>, hasMap: bool, env: Surroundings): (nat, Fate) {
    if files == [] then (0, if env.cancelled then CancelledEarly else Refused)
    else if env.storedSources < |files| then (0, Refused)
    else if !hasMap then
      if env.prepares then (StopOf(Pending, files), EndOf(Pending, files, env.finishes)) else (0, Refused)
    else if !env.loadsMap then (0, Refused)
    else if !EndOf(Checking, files, true).Goes? then (0, EndOf(Checking, files, true))
    else if !env.savesSnapshot || !env.prepares then (0, Refused)
    else (StopOf(Mapped, files), EndOf(Mapped, files, env.finishes))
  }

  // ----- the checks of a file, in the order they are made

  /** A look at the cancel request, a step outside this model, or the commit. */
  datatype Check = Cancel(seen: bool) | Step(succeeds: bool) | Commit(committed: bool) {
    predicate Passes() {
      match this
      case Cancel(seen) => !seen
      case Step(succeeds) => succeeds
      case Commit(committed) => committed
    }
  }

  function ReadChecks(f: FileUpload): seq<Check> {
    [Cancel(f.cancelAtStart), Step(f.progressSaved), Step(f.parses), Cancel(f.cancelParsed), Step(f.valid),
     Cancel(f.cancelValidated), Step(f.derives), Step(f.registers)]
  }

  function WriteChecks(f: FileUpload): seq<Check> {
    [Cancel(f.cancelBeforeCommit), Commit(f.commits), Cancel(f.cancelCommitted), Step(f.retained), Step(f.notified)]
  }

  function ChecksOf(mode: Mode, f: FileUpload): seq<Check> {
    match mode
    case Checking => ReadChecks(f)
    case Pending => ReadChecks(f) + WriteChecks(f)
    case Mapped => [Step(f.writeStarts), Cancel(f.cancelWriting)] + WriteChecks(f)
  }

  /** Check number i is the first that does not pass. */
  ghost predicate FailsAt(checks: seq<Check>, i: nat) {
    i < |checks| && !checks[i].Passes() && forall j :: 0 <= j < i ==> checks[j].Passes()
  }

  /** The event has been committed when check number i is made. */
  predicate CommitBefore(checks: seq<Check>, i: nat)
    requires i <= |checks|
  {
    exists j :: 0 <= j < i && checks[j].Commit?
  }

  ghost predicate AllPass(checks: seq<Check>) {
    forall j :: 0 <= j < |checks| ==> checks[j].Passes()
  }

  /** What the first check that fails makes of a file: a look at the cancel request cancels, a step or the commit
      refuses it, and what comes behind the commit leaves the event committed. */
  function DecidedBy(checks: seq<Check>, i: nat): Fate
    requires i < |checks|
  {
    match checks[i]
    case Cancel(_) => if CommitBefore(checks, i) then CancelledLate else CancelledEarly
    case Step(_) => if CommitBefore(checks, i) then BrokenAfter else Refused
    case Commit(_) => CommitFailed
  }

  lemma ReadFateIs(f: FileUpload, i: nat)
    ensures FailsAt(ReadChecks(f), i) ==> CheckFate(f) == if ReadChecks(f)[i].Cancel? then CancelledEarly else Refused
    ensures AllPass(ReadChecks(f)) ==> CheckFate(f) == Goes
  {
    var c := ReadChecks(f);
    if FailsAt(c, i) || AllPass(c) {
      var n := if FailsAt(c, i) then i else 8;
      assert n > 0 ==> c[0].Passes();
      assert n > 1 ==> c[1].Passes();
      assert n > 2 ==> c[2].Passes();
      assert n > 3 ==> c[3].Passes();
      assert n > 4 ==> c[4].Passes();
      assert n > 5 ==> c[5].Passes();
      assert n > 6 ==> c[6].Passes();
      assert n > 7 ==> c[7].Passes();
    }
  }

  lemma WriteFateIs(f: FileUpload, i: nat)
    ensures FailsAt(WriteChecks(f), i) ==> WriteFate(f) == DecidedBy(WriteChecks(f), i)
    ensures AllPass(WriteChecks(f)) ==> WriteFate(f) == Goes
  {
    var c := WriteChecks(f);
    assert c[1].Commit?;
    if FailsAt(c, i) || AllPass(c) {
      var n := if FailsAt(c, i) then i else 5;
      assert n > 0 ==> c[0].Passes();
      assert n > 1 ==> c[1].Passes();
      assert n > 2 ==> c[2].Passes();
      assert n > 3 ==> c[3].Passes();
      assert n > 4 ==> c[4].Passes();
    }
  }

  lemma FailsInSecond(a: seq<Check>, b: seq<Check>, i: nat)
    requires FailsAt(a + b, i)
    ensures i < |a| ==> FailsAt(a, i)
    ensures i >= |a| ==> FailsAt(b, i - |a|) && AllPass(a)
  {
    if i < |a| {
      forall j | 0 <= j < i ensures a[j].Passes() { assert (a + b)[j] == a[j]; }
    } else {
      forall j | 0 <= j < |a| ensures a[j].Passes() { assert (a + b)[j] == a[j]; }
      forall j | 0 <= j < i - |a| ensures b[j].Passes() { assert (a + b)[j + |a|] == b[j]; }
    }
  }

  lemma AllPassBoth(a: seq<Check>, b: seq<Check>)
    requires AllPass(a + b)
    ensures AllPass(a) && AllPass(b)
  {
    forall j | 0 <= j < |a| ensures a[j].Passes() { assert (a + b)[j] == a[j]; }
    forall j | 0 <= j < |b| ensures b[j].Passes() { assert (a + b)[j + |a|] == b[j]; }
  }

  /** Checks without a commit in front do not change what the first failing one decides. */
  lemma DecidedBehind(a: seq<Check>, b: seq<Check>, i: nat)
    requires i < |a + b| && forall j :: 0 <= j < |a| ==> !a[j].Commit?
    ensures i < |a| ==> DecidedBy(a + b, i) == if a[i].Cancel? then CancelledEarly else Refused
    ensures i >= |a| ==> DecidedBy(a + b, i) == DecidedBy(b, i - |a|)
  {
    var c := a + b;
    if i >= |a| {
      assert c[i] == b[i - |a|];
      if CommitBefore(c, i) {
        var j :| 0 <= j < i && c[j].Commit?;
        assert j >= |a| && b[j - |a|].Commit?;
      }
      if CommitBefore(b, i - |a|) {
        var j :| 0 <= j < i - |a| && b[j].Commit?;
        assert c[j + |a|].Commit?;
      }
    } else {
      assert c[i] == a[i] && !CommitBefore(c, i);
    }
  }

  /** A file goes through exactly if all its checks pass; otherwise the first that fails decides. */
  lemma FirstFailingCheckDecides(mode: Mode, f: FileUpload, i: nat)
    ensures FailsAt(ChecksOf(mode, f), i) ==> FateOf(mode, f) == DecidedBy(ChecksOf(mode, f), i)
    ensures AllPass(ChecksOf(mode, f)) ==> FateOf(mode, f) == Goes
  {
    match mode
    case Checking => ReadDecides(f, i);
    case Pending => PendingDecides(f, i);
    case Mapped => MappedDecides(f, i);
  }

  lemma NoCommitRead(f: FileUpload)
    ensures forall j :: 0 <= j < |ReadChecks(f)| ==> !ReadChecks(f)[j].Commit?
  {}

  lemma ReadDecides(f: FileUpload, i: nat)
    ensures FailsAt(ReadChecks(f), i) ==> CheckFate(f) == DecidedBy(ReadChecks(f), i)
    ensures AllPass(ReadChecks(f)) ==> CheckFate(f) == Goes
  {
    ReadFateIs(f, i);
    NoCommitRead(f);
  }

  lemma PendingDecides(f: FileUpload, i: nat)
    ensures FailsAt(ChecksOf(Pending, f), i) ==> FateOf(Pending, f) == DecidedBy(ChecksOf(Pending, f), i)
    ensures AllPass(ChecksOf(Pending, f)) ==> FateOf(Pending, f) == Goes
  {
    var a, b := ReadChecks(f), WriteChecks(f);
    ReadFateIs(f, i);
    NoCommitRead(f);
    if FailsAt(a + b, i) {
      FailsInSecond(a, b, i);
      DecidedBehind(a, b, i);
      if i >= |a| { WriteFateIs(f, i - |a|); }
    } else if AllPass(a + b) {
      AllPassBoth(a, b);
      WriteFateIs(f, 0);
    }
  }

  lemma MappedDecides(f: FileUpload, i: nat)
    ensures FailsAt(ChecksOf(Mapped, f), i) ==> FateOf(Mapped, f) == DecidedBy(ChecksOf(Mapped, f), i)
    ensures AllPass(ChecksOf(Mapped, f)) ==> FateOf(Mapped, f) == Goes
  {
    var a, b := [Step(f.writeStarts), Cancel(f.cancelWriting)], WriteChecks(f);
    if FailsAt(a + b, i) {
      FailsInSecond(a, b, i);
      DecidedBehind(a, b, i);
      if i >= 2 {
        assert a[0].Passes() && a[1].Passes();
        WriteFateIs(f, i - 2);
      } else {
        assert i == 1 ==> a[0].Passes();
      }
    } else if AllPass(a + b) {
      AllPassBoth(a, b);
      assert a[0].Passes() && a[1].Passes();
      WriteFateIs(f, 0);
    }
  }

  /** Check number i of file k is the first that does not pass. */
  ghost predicate StopsBy(mode: Mode, files: seq<FileUpload>, k: nat, i: nat) {
    && k < |files| && FailsAt(ChecksOf(mode, files[k]), i)
    && forall n :: 0 <= n < k ==> AllPass(ChecksOf(mode, files[n]))
  }

  lemma StopIs(mode: Mode, files: seq<FileUpload>, k: nat, i: nat)
    requires StopsBy(mode, files, k, i)
    ensures StopOf(mode, files) == k
  {
    FirstFailingCheckDecides(mode, files[k], i);
    forall n | 0 <= n < k ensures GoesFrom(mode, files[n]) { FirstFailingCheckDecides(mode, files[n], 0); }
    StopsAt(mode, files, k);
  }

  /** How a write loop ends, by the answers of its files: the first check that fails cancels the run if it was a
      look at the cancel request, and otherwise fails it. Nothing is reported if it was a step; then, and also
      if a cancel request was seen behind a commit, an event may be committed and not reported. */
  lemma RunEndsBy(files: seq<FileUpload>, hasMap: bool, env: Surroundings, k: nat, i: nat, existing: set<EventId>,
                  committed: seq<EventId>, r: IngestionResult)
    requires Writes(files, hasMap, env) && StopsBy(if hasMap then Mapped else Pending, files, k, i)
    requires AccountsAt(files, Ended(files, hasMap, env).0, Ended(files, hasMap, env).1, existing, committed, r)
    ensures var checks := ChecksOf(if hasMap then Mapped else Pending, files[k]);
            && !r.success && (r.cancelled <==> checks[i].Cancel?)
            && |committed| == k + (if CommitBefore(checks, i) then 1 else 0)
            && r.eventIds == if checks[i].Step? then [] else committed[..k]
  {
    var mode := if hasMap then Mapped else Pending;
    EndedBy(files, hasMap, env, k, i);
    if ChecksOf(mode, files[k])[i].Commit? { OneCommit(mode, files[k], i); }
    RunEndsWith(files, k, ChecksOf(mode, files[k]), i, existing, committed, r);
  }

  lemma RunEndsWith(files: seq<FileUpload>, k: nat, checks: seq<Check>, i: nat, existing: set<EventId>,
                    committed: seq<EventId>, r: IngestionResult)
    requires i < |checks| && AccountsAt(files, k, DecidedBy(checks, i), existing, committed, r)
    requires checks[i].Commit? ==> !CommitBefore(checks, i)
    ensures !r.success && (r.cancelled <==> checks[i].Cancel?)
    ensures |committed| == k + if CommitBefore(checks, i) then 1 else 0
    ensures r.eventIds == if checks[i].Step? then [] else committed[..k]
  {
    AccountsBy(files, k, DecidedBy(checks, i), existing, committed, r);
  }

  lemma OneCommit(mode: Mode, f: FileUpload, i: nat)
    requires i < |ChecksOf(mode, f)| && ChecksOf(mode, f)[i].Commit?
    ensures !CommitBefore(ChecksOf(mode, f), i)
  {
    NoCommitRead(f);
    match mode
    case Checking =>
    case Pending => OneCommitBehind(ReadChecks(f), f, i);
    case Mapped => OneCommitBehind([Step(f.writeStarts), Cancel(f.cancelWriting)], f, i);
  }

  lemma OneCommitBehind(head: seq<Check>, f: FileUpload, i: nat)
    requires (forall j :: 0 <= j < |head| ==> !head[j].Commit?) && i < |head| + 5
    requires (head + WriteChecks(f))[i].Commit?
    ensures !CommitBefore(head + WriteChecks(f), i)
  {
    var checks := head + WriteChecks(f);
    assert i >= |head| && checks[i] == WriteChecks(f)[i - |head|];
    forall j | 0 <= j < i ensures !checks[j].Commit? {
      if j >= |head| { assert checks[j] == WriteChecks(f)[j - |head|]; }
    }
  }

  lemma EndedBy(files: seq<FileUpload>, hasMap: bool, env: Surroundings, k: nat, i: nat)
    requires Writes(files, hasMap, env) && StopsBy(if hasMap then Mapped else Pending, files, k, i)
    ensures Ended(files, hasMap, env) == (k, DecidedBy(ChecksOf(if hasMap then Mapped else Pending, files[k]), i))
  {
    var mode := if hasMap then Mapped else Pending;
    StopIs(mode, files, k, i);
    FirstFailingCheckDecides(mode, files[k], i);
    EndedInLoop(files, hasMap, env);
  }

  lemma AccountsBy(files: seq<FileUpload>, k: nat, fate: Fate, existing: set<EventId>, committed: seq<EventId>,
                   r: IngestionResult)
    requires AccountsAt(files, k, fate, existing, committed, r) && fate != Goes && fate != BrokenAtEnd
    ensures !r.success && (r.cancelled <==> fate == CancelledEarly || fate == CancelledLate)
    ensures |committed| == k + if fate == CancelledLate || fate == BrokenAfter then 1 else 0
    ensures r.eventIds == if fate == Refused || fate == BrokenAfter then [] else committed[..k]
  {}

  /** With a channel map a file that fails its first checks ends the run before anything is committed. */
  lemma ChecksEndBy(files: seq<FileUpload>, env: Surroundings, k: nat, i: nat, existing: set<EventId>,
                    committed: seq<EventId>, r: IngestionResult)
    requires env.storedSources >= |files| && env.loadsMap && StopsBy(Checking, files, k, i)
    requires AccountsAt(files, Ended(files, true, env).0, Ended(files, true, env).1, existing, committed, r)
    ensures !r.success && committed == r.eventIds == []
    ensures r.cancelled <==> ChecksOf(Checking, files[k])[i].Cancel?
  {
    StopIs(Checking, files, k, i);
    FirstFailingCheckDecides(Checking, files[k], i);
  }

  /** If every file passes, the run succeeds exactly if what follows the last one does. */
  lemma RunPasses(files: seq<FileUpload>, hasMap: bool, env: Surroundings, existing: set<EventId>,
                  committed: seq<EventId>, r: IngestionResult)
    requires Writes(files, hasMap, env)
    requires var mode := if hasMap then Mapped else Pending;
             forall n :: 0 <= n < |files| ==> AllPass(ChecksOf(mode, files[n]))
    requires AccountsAt(files, Ended(files, hasMap, env).0, Ended(files, hasMap, env).1, existing, committed, r)
    ensures |committed| == |files| && !r.cancelled && (r.success <==> env.finishes)
    ensures r.eventIds == if env.finishes then committed else []
  {
    var mode := if hasMap then Mapped else Pending;
    forall n | 0 <= n < |files| ensures GoesFrom(mode, files[n]) { FirstFailingCheckDecides(mode, files[n], 0); }
    StopsAt(mode, files, |files|);
  }

  /** Without its originals stored, its channel map loaded or its tables prepared, an upload fails and commits
      nothing; without files it is cancelled if a request is seen and fails otherwise. */
  lemma NothingToWrite(files: seq<FileUpload>, hasMap: bool, env: Surroundings, existing: set<EventId>,
                       committed: seq<EventId>, r: IngestionResult)
    requires files == [] || env.storedSources < |files| || (hasMap && !env.loadsMap) || (!hasMap && !env.prepares)
    requires AccountsAt(files, Ended(files, hasMap, env).0, Ended(files, hasMap, env).1, existing, committed, r)
    ensures committed == r.eventIds == [] && !r.success && (r.cancelled <==> files == [] && env.cancelled)
  {}

  lemma {:induction false} FirstFailure(checks: seq<Check>, n: nat) returns (i: nat)
    requires n <= |checks| && forall j :: 0 <= j < n ==> checks[j].Passes()
    ensures AllPass(checks) || FailsAt(checks, i)
    decreases |checks| - n
  {
    i := n;
    if n < |checks| && checks[n].Passes() { i := FirstFailure(checks, n + 1); }
  }

  lemma GoesIffAllPass(mode: Mode, f: FileUpload)
    ensures GoesFrom(mode, f) <==> AllPass(ChecksOf(mode, f))
  {
    var i := FirstFailure(ChecksOf(mode, f), 0);
    FirstFailingCheckDecides(mode, f, i);
  }

  /** A write loop is reached exactly if there is a file, what surrounds the loops succeeds and, with a channel
      map, every file passes the first checks. */
  lemma WritesIff(files: seq<FileUpload>, hasMap: bool, env: Surroundings)
    ensures Writes(files, hasMap, env) <==>
              && files != [] && env.storedSources >= |files| && env.prepares
              && (hasMap ==>
                    && env.loadsMap && env.savesSnapshot
                    && forall n :: 0 <= n < |files| ==> AllPass(ChecksOf(Checking, files[n])))
  {
    forall n | 0 <= n < |files| ensures GoesFrom(Checking, files[n]) <==> AllPass(ChecksOf(Checking, files[n])) {
      GoesIffAllPass(Checking, files[n]);
    }
    if forall n :: 0 <= n < |files| ==> GoesFrom(Checking, files[n]) { StopsAt(Checking, files, |files|); }
  }

  /** With a channel map and all first checks passed, an upload whose snapshot or tables cannot be prepared fails
      with nothing committed. */
  lemma SetupFails(files: seq<FileUpload>, env: Surroundings, existing: set<EventId>, committed: seq<EventId>,
                   r: IngestionResult)
    requires files != [] && env.storedSources >= |files| && env.loadsMap && !(env.savesSnapshot && env.prepares)
    requires forall n :: 0 <= n < |files| ==> AllPass(ChecksOf(Checking, files[n]))
    requires AccountsAt(files, Ended(files, true, env).0, Ended(files, true, env).1, existing, committed, r)
    ensures committed == r.eventIds == [] && !r.success && !r.cancelled
  {
    forall n | 0 <= n < |files| ensures GoesFrom(Checking, files[n]) { GoesIffAllPass(Checking, files[n]); }
    StopsAt(Checking, files, |files|);
  }

  /** What a file's checks leave in the store: each transaction exactly if all checks up to its own pass. */
  lemma LoggedByChecks(f: FileUpload, n: nat, i: nat)
    requires FailsAt(ChecksOf(Pending, f), i) || (i == 13 && AllPass(ChecksOf(Pending, f)))
    ensures FileLog(Pending, f, n)
         == (if i > 6 then [Txn(Deriving, n)] else []) + (if i > 7 then [Txn(Registering, n)] else [])
            + (if i > 9 then [Txn(Committing, n)] else []) + if i > 11 then [Txn(Retaining, n)] else []
  {
    var c := ChecksOf(Pending, f);
    assert c[0] == Cancel(f.cancelAtStart) && c[1] == Step(f.progressSaved) && c[2] == Step(f.parses);
    assert c[3] == Cancel(f.cancelParsed) && c[4] == Step(f.valid) && c[5] == Cancel(f.cancelValidated);
    assert c[6] == Step(f.derives) && c[7] == Step(f.registers) && c[8] == Cancel(f.cancelBeforeCommit);
    assert c[9] == Commit(f.commits) && c[10] == Cancel(f.cancelCommitted) && c[11] == Step(f.retained);
  }

  // ----- what is reported

  /** The reported ids are leading committed ones, all new and distinct; a cancelled run leaves out at
      most the last. */
  lemma ReportedWereCommitted(files: seq<FileUpload>, k: nat, fate: Fate, existing: set<EventId>,
                              committed: seq<EventId>, r: IngestionResult)
    requires AccountsAt(files, k, fate, existing, committed, r)
    ensures r.eventIds <= committed
    ensures forall i :: 0 <= i < |committed| ==> committed[i] !in existing
    ensures forall i, j :: 0 <= i < j < |committed| ==> committed[i] != committed[j]
    ensures r.cancelled ==> |committed| - 1 <= |r.eventIds|
  {
    BatchIdsFresh(BasesOf(files[..CommittedCount(k, fate)]), existing, committed);
  }

  lemma EndsThrough(files: seq<FileUpload>, hasMap: bool, env: Surroundings)
    requires Ended(files, hasMap, env).1.Goes?
    ensures Ended(files, hasMap, env).0 == |files|
  {}

  /** A successful run committed one event per file and reports exactly these, in order, with the sum of
      their rows. */
  lemma SuccessReportsAll(files: seq<FileUpload>, hasMap: bool, env: Surroundings, existing: set<EventId>,
                          committed: seq<EventId>, r: IngestionResult)
    requires r.success
    requires AccountsAt(files, Ended(files, hasMap, env).0, Ended(files, hasMap, env).1, existing, committed, r)
    ensures r.eventIds == committed && |committed| == |files| && r.totalRows == SumRows(files)
    ensures AreBatchIds(BasesOf(files), existing, committed)
  {
    EndsThrough(files, hasMap, env);
    assert files[..|files|] == files;
  }

  /** The write loop is reached. */
  predicate Writes(files: seq<FileUpload>, hasMap: bool, env: Surroundings) {
    if hasMap then WritesMapped(files, env) else files != [] && env.storedSources >= |files| && env.prepares
  }

  /** A write loop loses no id: either all files go through and so does what follows the last one, or the
      file that stops it was not committed itself and, unless nothing was committed before, stopped it by a
      cancel request or a failed commit. */
  predicate LosesNothing(mode: Mode, files: seq<FileUpload>, finishes: bool) {
    var k := StopOf(mode, files);
    if k == |files| then finishes || k == 0
    else
      && Txn(Committing, k) !in FileLog(mode, files[k], k)
      && (k == 0 || FateOf(mode, files[k]).CancelledEarly? || FateOf(mode, files[k]).CommitFailed?)
  }

  /** Every committed id is reported exactly when no write loop was reached or it loses nothing. */
  lemma ReportsAllIff(files: seq<FileUpload>, hasMap: bool, env: Surroundings, existing: set<EventId>,
                      committed: seq<EventId>, r: IngestionResult)
    requires AccountsAt(files, Ended(files, hasMap, env).0, Ended(files, hasMap, env).1, existing, committed, r)
    ensures r.eventIds == committed <==>
              (Writes(files, hasMap, env) ==> LosesNothing(if hasMap then Mapped else Pending, files, env.finishes))
  {
    BatchIdsFresh(BasesOf(files[..CommittedCount(Ended(files, hasMap, env).0, Ended(files, hasMap, env).1)]),
                  existing, committed);
    if Writes(files, hasMap, env) {
      LosesNothingCounts(if hasMap then Mapped else Pending, files, env.finishes);
    } else {
      NothingWritten(files, hasMap, env);
    }
  }

  lemma LosesNothingCounts(mode: Mode, files: seq<FileUpload>, finishes: bool)
    requires mode != Checking
    ensures var (k, fate) := (StopOf(mode, files), EndOf(mode, files, finishes));
            LosesNothing(mode, files, finishes) <==> ReportedCount(k, fate) == CommittedCount(k, fate)
  {
    var k := StopOf(mode, files);
    if k < |files| { CommitsAt(mode, files[k], k); }
  }

  /** A file's own event is committed exactly if the file goes through or is stopped behind its commit. */
  lemma CommitsAt(mode: Mode, f: FileUpload, n: nat)
    requires mode != Checking
    ensures Txn(Committing, n) in FileLog(mode, f, n) <==>
              FateOf(mode, f).Goes? || FateOf(mode, f).CancelledLate? || FateOf(mode, f).BrokenAfter?
  {}

  lemma NothingWritten(files: seq<FileUpload>, hasMap: bool, env: Surroundings)
    requires !Writes(files, hasMap, env)
    ensures var (k, fate) := Ended(files, hasMap, env); ReportedCount(k, fate) == CommittedCount(k, fate) == 0
  {}

  /** Whatever the files and the ids in use: a run whose files all go through and then fails before it
      returns has committed one event per file and reports none of them. */
  lemma CommitsAllReportsNone(files: seq<FileUpload>, env: Surroundings, existing: set<EventId>,
                              committed: seq<EventId>, r: IngestionResult)
    requires env.storedSources >= |files| && env.prepares && !env.finishes
    requires forall i :: 0 <= i < |files| ==> GoesFrom(Pending, files[i])
    requires files != []
    requires AccountsAt(files, Ended(files, false, env).0, Ended(files, false, env).1, existing, committed, r)
    ensures |committed| == |files| && r.eventIds == [] && !r.success && !r.cancelled
  {
    StopsAt(Pending, files, |files|);
    assert files[..|files|] == files;
  }

  /** A file no step of which fails. */
  function Smooth(name: string): FileUpload {
    FileUpload(name, 1, false, true, true, false, true, false, true, true, true, false, false, true, false, true, true)
  }

  /** Such a run exists for every name and database: one good file is committed under its new id, an error
      follows, and nothing is reported. */
  lemma UnreportedEvent(name: string, existing: set<EventId>, id: EventId, env: Surroundings)
    requires env == Surroundings(false, 1, true, true, true, false)
    requires IsFirstFree(BaseName(name), existing, id)
    ensures var (k, fate) := Ended([Smooth(name)], false, env);
            AccountsAt([Smooth(name)], k, fate, existing, [id], FAILURE)
  {
    var files := [Smooth(name)];
    StopsAt(Pending, files, 1);
    assert files[..0] == [] && files[..1] == files;
    IdsGoOn(files, existing, 0, [], id);
    assert [] + [id] == [id];
  }

  /** A cleanup finds the recorded ids only: it removes every event of a run exactly when the run reported
      all it committed. Otherwise the unreported events stay. */
  lemma CleanupRestoresEventsIff(files: seq<FileUpload>, hasMap: bool, env: Surroundings, start: set<EventId>,
                                 committed: seq<EventId>, r: IngestionResult, t: UploadCleanup.Tables)
    requires AccountsAt(files, Ended(files, hasMap, env).0, Ended(files, hasMap, env).1, start, committed, r)
    requires t.events == start + Elements(committed)
    ensures UploadCleanup.Cleaned(t, Elements(r.eventIds)).events
         == start + Elements(committed[|r.eventIds|..])
    ensures UploadCleanup.Cleaned(t, Elements(r.eventIds)).events == start <==>
              (Writes(files, hasMap, env) ==> LosesNothing(if hasMap then Mapped else Pending, files, env.finishes))
  {
    var (k, fate) := Ended(files, hasMap, env);
    BatchIdsFresh(BasesOf(files[..CommittedCount(k, fate)]), start, committed);
    LeftEvents(start, committed, ReportedCount(k, fate));
    ReportsAllIff(files, hasMap, env, start, committed, r);
  }

  /** If writing the final row fails, a cleanup finds the ids recorded on the way, never fewer than those
      reported: it removes every event exactly when the file that stopped a write loop was not committed. */
  lemma RecordedRestoresEventsIff(files: seq<FileUpload>, hasMap: bool, env: Surroundings, start: set<EventId>,
                                  committed: seq<EventId>, r: IngestionResult, t: UploadCleanup.Tables)
    requires AccountsAt(files, Ended(files, hasMap, env).0, Ended(files, hasMap, env).1, start, committed, r)
    requires t.events == start + Elements(committed)
    ensures var (k, mode) := (Ended(files, hasMap, env).0, if hasMap then Mapped else Pending);
            && k <= |committed| && r.eventIds <= committed[..k]
            && (UploadCleanup.Cleaned(t, Elements(committed[..k])).events == start <==>
                  (Writes(files, hasMap, env) && k < |files| ==> Txn(Committing, k) !in FileLog(mode, files[k], k)))
  {
    var (k, fate) := Ended(files, hasMap, env);
    ReportedWereRecorded(files, k, fate, start, committed, r);
    LeftEvents(start, committed, k);
    RecordedAllIff(files, hasMap, env);
    assert committed[..k] == committed <==> CommittedCount(k, fate) == k;
  }

  lemma ReportedWereRecorded(files: seq<FileUpload>, k: nat, fate: Fate, existing: set<EventId>,
                             committed: seq<EventId>, r: IngestionResult)
    requires AccountsAt(files, k, fate, existing, committed, r)
    ensures |committed| == CommittedCount(k, fate) && r.eventIds <= committed[..k]
    ensures forall i :: 0 <= i < |committed| ==> committed[i] !in existing
    ensures forall i, j :: 0 <= i < j < |committed| ==> committed[i] != committed[j]
  {
    BatchIdsFresh(BasesOf(files[..CommittedCount(k, fate)]), existing, committed);
  }

  lemma RecordedAllIff(files: seq<FileUpload>, hasMap: bool, env: Surroundings)
    ensures var (k, fate) := Ended(files, hasMap, env);
            var mode := if hasMap then Mapped else Pending;
            CommittedCount(k, fate) == k <==>
              (Writes(files, hasMap, env) && k < |files| ==> Txn(Committing, k) !in FileLog(mode, files[k], k))
  {
    if Writes(files, hasMap, env) {
      var k, mode := Ended(files, hasMap, env).0, if hasMap then Mapped else Pending;
      if k < |files| { CommitsAt(mode, files[k], k); }
      EndedInLoop(files, hasMap, env);
    } else {
      NothingWritten(files, hasMap, env);
    }
  }

  lemma EndedInLoop(files: seq<FileUpload>, hasMap: bool, env: Surroundings)
    requires Writes(files, hasMap, env)
    ensures var (k, fate) := Ended(files, hasMap, env);
            var mode := if hasMap then Mapped else Pending;
            && k == StopOf(mode, files) && fate == EndOf(mode, files, env.finishes)
            && (CommittedCount(k, fate) == k + 1 <==>
                  k < |files| && (FateOf(mode, files[k]).CancelledLate? || FateOf(mode, files[k]).BrokenAfter?))
            && (k < |files| ==> !FateOf(mode, files[k]).Goes?)
  {
    assert StopOf(Pending, files) < |files| ==> !GoesFrom(Pending, files[StopOf(Pending, files)]);
    assert StopOf(Mapped, files) < |files| ==> !GoesFrom(Mapped, files[StopOf(Mapped, files)]);
  }

  lemma LeftEvents(start: set<EventId>, committed: seq<EventId>, n: nat)
    requires n <= |committed|
    requires forall i :: 0 <= i < |committed| ==> committed[i] !in start
    requires forall i, j :: 0 <= i < j < |committed| ==> committed[i] != committed[j]
    ensures start + Elements(committed) - Elements(committed[..n]) == start + Elements(committed[n..])
    ensures start + Elements(committed[n..]) == start <==> committed[..n] == committed
  {
    assert committed == committed[..n] + committed[n..];
    if n < |committed| { assert committed[n] in Elements(committed[n..]); }
  }
}
