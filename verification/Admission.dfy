/** Request handlers, background workers and the guards that keep database swaps apart from them. */
module Admission {
  import opened Options
  import opened TaskKinds

  type Scope = (string, string)
  type TaskId = nat
  type HandlerId = nat
  type RequestId = nat

  /** A database file. A file created later counts as another one even under the name of a deleted file. */
  type Store = nat

  /** A row of `upload_tasks`, with the database it lives in. */
  datatype Row = Row(kind: TaskKind, status: TaskStatus, scope: Scope, store: Store)

  /** How far a live worker thread is: not yet running, at work, deciding on its follow-up task, past it. */
  datatype Stage = Begun | Working | Admitted | Creating | FollowedUp

  /** A live worker thread. It keeps the store of the request that started it. `lost` records that the active
      row it, or the worker it follows up, once had was taken away; no step looks at it. */
  datatype Worker = Worker(stage: Stage, kind: TaskKind, scope: Scope, store: Store, lost: bool)

  datatype Operation = Create | Switch | Delete

  /** A handler of an exclusive operation: past its guard, inside the section, past the change. */
  datatype Phase = Checked(op: Operation) | Inside(op: Operation) | Changed(op: Operation)

  /** The whole server. `current` is the active database, `gone` the deleted ones, `captured` the store each
      pending request was given, `slot` the holder of the exclusive section, `loop` the handler the event
      loop is busy with. `exports` are the live export threads, each with whether a status poll has meanwhile
      marked it as stalled. */
  datatype Sys = Sys(current: Store, gone: set<Store>, tasks: map<TaskId, Row>, workers: map<TaskId, Worker>,
                     exports: map<nat, bool>, captured: map<RequestId, Store>, slot: Option<HandlerId>,
                     loop: Option<HandlerId>, phases: map<HandlerId, Phase>)

  datatype Step =
    | Resolve(q: RequestId)
    | CheckChange(h: HandlerId, op: Operation, othersPresent: bool)
    | BeginCreate(h: HandlerId)
    | Acquire(h: HandlerId)
    | Change(h: HandlerId, target: Store, succeeds: bool)
    | Release(h: HandlerId)
    | Start(q: RequestId, t: TaskId, kind: TaskKind, scope: Scope, latest: Option<TaskId>, reuse: set<TaskKind>)
    | StartExport(e: nat)
    | RequestCancel(t: TaskId)
    | DeleteScope(q: RequestId, program: string, version: Option<string>)
    | WorkerRuns(t: TaskId)
    | WorkerReports(t: TaskId, status: TaskStatus)
    | WorkerDecides(t: TaskId, needed: bool)
    | WorkerLooks(t: TaskId, latest: Option<TaskId>)
    | WorkerCreates(t: TaskId, next: TaskId)
    | WorkerEnds(t: TaskId, status: TaskStatus)
    | ExportStalls(e: nat)
    | ExportEnds(e: nat)
    | RowsReconciled(ids: set<TaskId>)
    | RowsExpired(ids: set<TaskId>)

  // ----- guards

  predicate ActiveIn(s: Sys, store: Store, t: TaskId) {
    t in s.tasks && s.tasks[t].store == store && IsActive(s.tasks[t].status)
  }

  predicate ActiveDerived(s: Sys, store: Store, scope: Scope, t: TaskId) {
    ActiveIn(s, store, t) && IsDerived(s.tasks[t].kind) && s.tasks[t].scope == scope
  }

  /** No active upload or derived task in this database. */
  predicate IdleIn(s: Sys, store: Store) {
    forall t :: t in s.tasks ==> !ActiveIn(s, store, t)
  }

  /** Every export still running counts as stalled. */
  predicate NoExportListed(s: Sys) {
    forall e :: e in s.exports ==> s.exports[e]
  }

  /** No active upload or derived task in the current database and no export listed as running. */
  predicate Quiet(s: Sys) {
    NoExportListed(s) && IdleIn(s, s.current)
  }

  /** latest is some active derived task of the scope, or None when there is none. */
  predicate IsLatest(s: Sys, store: Store, scope: Scope, latest: Option<TaskId>) {
    if latest.Some? then ActiveDerived(s, store, scope, latest.value)
    else forall t :: t in s.tasks ==> !ActiveDerived(s, store, scope, t)
  }

  predicate Reuses(s: Sys, latest: Option<TaskId>, allowed: set<TaskKind>) {
    latest.Some? && latest.value in s.tasks && s.tasks[latest.value].kind in allowed
  }

  // ----- steps

  /** Steps taken by request handlers, which run one at a time on the event loop. A request's dependencies
      are resolved beside it, on the thread pool. */
  predicate ByHandler(step: Step) {
    step.CheckChange? || step.BeginCreate? || step.Acquire? || step.Change? || step.Release?
    || step.Start? || step.StartExport? || step.RequestCancel? || step.DeleteScope?
  }

  predicate ByWorker(step: Step) {
    step.WorkerRuns? || step.WorkerReports? || step.WorkerDecides? || step.WorkerLooks? || step.WorkerCreates?
    || step.WorkerEnds?
  }

  /** The loop is free, or busy with this very handler. */
  predicate LoopAllows(s: Sys, step: Step) {
    s.loop.None? || ((step.Acquire? || step.Change? || step.Release?) && s.loop == Some(step.h))
  }

  predicate InSection(s: Sys, h: HandlerId) {
    h in s.phases && (s.phases[h].Inside? || s.phases[h].Changed?)
  }

  predicate Unused(s: Sys, t: TaskId) {
    t !in s.tasks && t !in s.workers
  }

  /** The kinds of running task a start may return instead of starting: none for an upload, either derived
      kind for a reprocess. */
  predicate MayReuse(kind: TaskKind, reuse: set<TaskKind>) {
    match kind
    case FolderUpload => reuse == {}
    case ChannelReprocess => reuse == {ChannelReprocess, DamageCalculation}
    case DamageCalculation => true
  }

  predicate Covers(program: string, version: Option<string>, scope: Scope) {
    scope.0 == program && (version.None? || scope.1 == version.value)
  }

  /** The deletion of a scope takes this row: those of derived tasks, whatever their status. */
  predicate DeletedWith(s: Sys, step: Step, kind: TaskKind, scope: Scope, store: Store)
    requires step.DeleteScope? && step.q in s.captured
  {
    IsDerived(kind) && Covers(step.program, step.version, scope) && store == s.captured[step.q]
  }

  /** A worker that may still fail, or end otherwise. */
  predicate MayEnd(w: Worker, status: TaskStatus) {
    && !IsActive(status) && !w.stage.Begun?
    && (w.kind == ChannelReprocess && !w.stage.FollowedUp? ==> status == Failed)
  }

  predicate WorkerCan(s: Sys, step: Step) {
    match step
    case WorkerRuns(t) => t in s.workers && s.workers[t].stage.Begun?
    case WorkerReports(t, status) => t in s.workers && IsActive(status)
    case WorkerDecides(t, _) => t in s.workers && s.workers[t].stage.Working? && s.workers[t].kind == ChannelReprocess
    case WorkerLooks(t, latest) =>
      t in s.workers && s.workers[t].stage.Admitted? && IsLatest(s, s.workers[t].store, s.workers[t].scope, latest)
    case WorkerCreates(t, next) => t in s.workers && s.workers[t].stage.Creating? && Unused(s, next)
    case WorkerEnds(t, status) => t in s.workers && MayEnd(s.workers[t], status)
    case _ => true
  }

  predicate OthersCan(s: Sys, step: Step) {
    match step
    case Resolve(q) => q !in s.captured
    case CheckChange(h, op, _) => h !in s.phases && op != Create
    case BeginCreate(h) => h !in s.phases
    case Acquire(h) => h in s.phases && s.phases[h].Checked?
    case Change(h, target, _) => h in s.phases && s.phases[h].Inside? && target != s.current && target !in s.gone
    case Release(h) => InSection(s, h)
    case Start(q, t, kind, scope, latest, reuse) =>
      && q in s.captured && Unused(s, t) && MayReuse(kind, reuse) && IsLatest(s, s.captured[q], scope, latest)
    case StartExport(e) => e !in s.exports
    case DeleteScope(q, _, _) => q in s.captured
    case _ => true
  }

  /** With `atomic`, a handler that passed its guard keeps the event loop until it is done: there is no
      await between guard and release. */
  predicate Enabled(s: Sys, step: Step, atomic: bool) {
    && (atomic && ByHandler(step) ==> LoopAllows(s, step))
    && if ByWorker(step) then WorkerCan(s, step) else OthersCan(s, step)
  }

  /** An update of a row that is not there changes nothing. */
  function SetStatus(s: Sys, t: TaskId, status: TaskStatus): Sys {
    if t in s.tasks then s.(tasks := s.tasks[t := s.tasks[t].(status := status)]) else s
  }

  function SetStage(s: Sys, t: TaskId, stage: Stage): Sys
    requires t in s.workers
  {
    s.(workers := s.workers[t := s.workers[t].(stage := stage)])
  }

  function StartTask(s: Sys, t: TaskId, kind: TaskKind, scope: Scope, store: Store, lost: bool): Sys {
    s.(tasks := s.tasks[t := Row(kind, Queued, scope, store)],
       workers := s.workers[t := Worker(Begun, kind, scope, store, lost)])
  }

  function WorkerStops(s: Sys, t: TaskId, status: TaskStatus): Sys {
    var after := SetStatus(s, t, status);
    after.(workers := after.workers - {t})
  }

  function Leave(s: Sys, h: HandlerId): Sys {
    s.(loop := None, phases := s.phases - {h})
  }

  /** The start is admitted and creates a new task, in the store its request was given. */
  predicate Starts(s: Sys, step: Step)
    requires step.Start? && step.q in s.captured
  {
    s.slot.None? && s.captured[step.q] !in s.gone && !Reuses(s, step.latest, step.reuse)
  }

  // ----- rows taken away

  /** The step fails or deletes the active row of this worker: when its heartbeat or its row has expired, when
      its scope is deleted, and when its database is opened for a switch. */
  predicate Takes(s: Sys, step: Step, t: TaskId)
    requires Enabled(s, step, false) && t in s.workers
  {
    var w := s.workers[t];
    match step
    case RowsReconciled(ids) => t in ids
    case RowsExpired(ids) => t in ids
    case DeleteScope(_, _, _) => DeletedWith(s, step, w.kind, w.scope, w.store)
    case Change(h, target, _) => s.phases[h].op == Switch && w.store == target
    case _ => false
  }

  function MarkLost(s: Sys, step: Step): map<TaskId, Worker>
    requires Enabled(s, step, false)
  {
    map t | t in s.workers :: s.workers[t].(lost := s.workers[t].lost || Takes(s, step, t))
  }

  function FailedRow(row: Row): Row {
    if IsActive(row.status) then row.(status := Failed) else row
  }

  /** Opening a database for a switch fails its active rows, also if the switch itself does not succeed. A
      deletion removes a database with its rows. */
  function Changing(s: Sys, op: Operation, target: Store, succeeds: bool): Sys {
    match op
    case Create => s
    case Switch =>
      s.(current := if succeeds then target else s.current,
         tasks := map t | t in s.tasks :: if s.tasks[t].store == target then FailedRow(s.tasks[t]) else s.tasks[t])
    case Delete =>
      if !succeeds then s
      else s.(gone := s.gone + {target}, tasks := map t | t in s.tasks && s.tasks[t].store != target :: s.tasks[t])
  }

  /** Steps that fail or delete rows. */
  predicate TakesRows(step: Step) {
    step.Change? || step.DeleteScope? || step.RowsReconciled? || step.RowsExpired?
  }

  function ApplyToRows(s: Sys, step: Step): Sys
    requires Enabled(s, step, false) && TakesRows(step)
  {
    var after := s.(workers := MarkLost(s, step));
    match step
    case Change(h, target, succeeds) =>
      var op := s.phases[h].op;
      Changing(after.(phases := s.phases[h := Changed(op)]), op, target, succeeds)
    case DeleteScope(_, _, _) =>
      after.(tasks := map t | t in s.tasks && !DeletedWith(s, step, s.tasks[t].kind, s.tasks[t].scope, s.tasks[t].store)
                        :: s.tasks[t])
    case RowsReconciled(ids) =>
      after.(tasks := map t | t in s.tasks :: if t in ids then FailedRow(s.tasks[t]) else s.tasks[t])
    case RowsExpired(ids) => after.(tasks := s.tasks - ids)
  }

  /** What a worker's step comes to: it goes on, with its row updated to an active status if any, stops with
      its row terminal, or creates its follow-up task. */
  datatype Outcome = Goes(report: Option<TaskStatus>, stage: Stage) | Stops(status: TaskStatus) | Spawns(next: TaskId)

  function OutcomeOf(s: Sys, step: Step): Outcome
    requires ByWorker(step) && WorkerCan(s, step)
  {
    var w := s.workers[step.t];
    match step
    case WorkerRuns(_) => Goes(Some(Running), Working)
    case WorkerReports(_, status) => Goes(Some(status), w.stage)
    case WorkerDecides(_, needed) =>
      if w.store in s.gone || (needed && s.slot.Some?) then Stops(Failed)
      else Goes(None, if needed then Admitted else FollowedUp)
    case WorkerLooks(_, latest) => Goes(None, if Reuses(s, latest, {DamageCalculation}) then FollowedUp else Creating)
    case WorkerCreates(_, next) => if w.store in s.gone then Stops(Failed) else Spawns(next)
    case WorkerEnds(_, status) => Stops(status)
  }

  function Perform(s: Sys, t: TaskId, outcome: Outcome): Sys
    requires t in s.workers
  {
    var w := s.workers[t];
    match outcome
    case Goes(report, stage) => SetStage(if report.Some? then SetStatus(s, t, report.value) else s, t, stage)
    case Stops(status) => WorkerStops(s, t, status)
    case Spawns(next) => StartTask(SetStage(s, t, FollowedUp), next, DamageCalculation, w.scope, w.store, w.lost)
  }

  function ApplyOther(s: Sys, step: Step): Sys
    requires Enabled(s, step, false) && !TakesRows(step) && !ByWorker(step)
  {
    match step
    case Resolve(q) => s.(captured := s.captured[q := s.current])
    case CheckChange(h, op, othersPresent) =>
      if (op == Switch && othersPresent) || !Quiet(s) || s.slot.Some? then s
      else s.(loop := Some(h), phases := s.phases[h := Checked(op)])
    case BeginCreate(h) => s.(loop := Some(h), phases := s.phases[h := Checked(Create)])
    case Acquire(h) =>
      if s.slot.Some? then Leave(s, h)
      else s.(slot := Some(h), phases := s.phases[h := Inside(s.phases[h].op)])
    case Release(h) => Leave(s.(slot := None), h)
    case Start(q, t, kind, scope, _, _) =>
      if Starts(s, step) then StartTask(s, t, kind, scope, s.captured[q], false) else s
    case StartExport(e) => if s.slot.Some? then s else s.(exports := s.exports[e := false])
    case RequestCancel(t) =>
      if t in s.tasks && (s.tasks[t].status.Queued? || s.tasks[t].status.Running?) then SetStatus(s, t, Cancelling)
      else s
    case ExportStalls(e) => if e in s.exports then s.(exports := s.exports[e := true]) else s
    case ExportEnds(e) => s.(exports := s.exports - {e})
  }

  function Apply(s: Sys, step: Step, atomic: bool): Sys
    requires Enabled(s, step, atomic)
  {
    if TakesRows(step) then ApplyToRows(s, step)
    else if ByWorker(step) then Perform(s, step.t, OutcomeOf(s, step))
    else ApplyOther(s, step)
  }

  /** A started server: nothing runs yet, whatever rows the databases hold. */
  predicate Init(s: Sys) {
    && s.current !in s.gone && RowsExist(s) && s.workers == map[] && s.exports == map[] && s.captured == map[]
    && s.slot.None? && s.loop.None? && s.phases == map[]
  }

  ghost predicate IsRun(s: Sys, steps: seq<Step>, atomic: bool)
    decreases |steps|
  {
    steps == [] || (Enabled(s, steps[0], atomic) && IsRun(Apply(s, steps[0], atomic), steps[1..], atomic))
  }

  /** The state before step number i. */
  ghost function Before(s: Sys, steps: seq<Step>, atomic: bool, i: nat): Sys
    requires IsRun(s, steps, atomic) && i <= |steps|
    decreases |steps|
  {
    if i == 0 then s else Before(Apply(s, steps[0], atomic), steps[1..], atomic, i - 1)
  }

  lemma BeforeLater(s: Sys, steps: seq<Step>, atomic: bool, i: nat)
    requires IsRun(s, steps, atomic) && 0 < i <= |steps|
    ensures Before(s, steps, atomic, i) == Before(Apply(s, steps[0], atomic), steps[1..], atomic, i - 1)
    ensures i == 1 ==> Before(s, steps, atomic, i) == Apply(s, steps[0], atomic)
  {}

  // ----- the exclusive section, under every interleaving

  /** The slot is held by exactly the handler inside the section. */
  ghost predicate SlotMarksSection(s: Sys) {
    forall h: HandlerId :: InSection(s, h) <==> s.slot == Some(h)
  }

  /** What a worker's step may come to. */
  predicate MayPerform(s: Sys, t: TaskId, outcome: Outcome) {
    && t in s.workers
    && match outcome
       case Goes(report, _) => report.Some? ==> IsActive(report.value)
       case Stops(status) => !IsActive(status)
       case Spawns(next) => Unused(s, next) && s.workers[t].store !in s.gone
  }

  lemma WorkerPerforms(s: Sys, step: Step, atomic: bool)
    requires Enabled(s, step, atomic) && ByWorker(step)
    ensures MayPerform(s, step.t, OutcomeOf(s, step))
    ensures Apply(s, step, atomic) == Perform(s, step.t, OutcomeOf(s, step))
  {}

  lemma PerformKeepsControl(s: Sys, t: TaskId, outcome: Outcome)
    requires MayPerform(s, t, outcome)
    ensures var s' := Perform(s, t, outcome);
            && s'.slot == s.slot && s'.loop == s.loop && s'.phases == s.phases
            && s'.current == s.current && s'.gone == s.gone && s'.exports == s.exports
  {}

  /** Workers and row clean-up leave everything else alone. */
  lemma ControlKept(s: Sys, step: Step, atomic: bool)
    requires Enabled(s, step, atomic) && (TakesRows(step) || ByWorker(step)) && !step.Change?
    ensures var s' := Apply(s, step, atomic);
            && s'.slot == s.slot && s'.loop == s.loop && s'.phases == s.phases
            && s'.current == s.current && s'.gone == s.gone && s'.exports == s.exports
  {
    if ByWorker(step) {
      WorkerPerforms(s, step, atomic);
      PerformKeepsControl(s, step.t, OutcomeOf(s, step));
    }
  }

  lemma ChangeKeepsControl(s: Sys, step: Step, atomic: bool)
    requires Enabled(s, step, atomic) && step.Change?
    ensures var s' := Apply(s, step, atomic);
            && s'.slot == s.slot && s'.loop == s.loop
            && s'.phases == s.phases[step.h := Changed(s.phases[step.h].op)]
  {}

  lemma StepKeepsSlot(s: Sys, step: Step, atomic: bool)
    requires Enabled(s, step, atomic) && SlotMarksSection(s)
    ensures SlotMarksSection(Apply(s, step, atomic))
  {
    var s' := Apply(s, step, atomic);
    if step.Change? {
      ChangeKeepsControl(s, step, atomic);
    } else if TakesRows(step) || ByWorker(step) {
      ControlKept(s, step, atomic);
    }
    forall h: HandlerId ensures InSection(s', h) <==> s'.slot == Some(h) {
      assert InSection(s, h) <==> s.slot == Some(h);
      match step
      case Acquire(g) => assert InSection(s, g) <==> s.slot == Some(g);
      case Release(g) => assert InSection(s, g) <==> s.slot == Some(g);
      case _ =>
    }
  }

  /** In every interleaving, atomic or not, at most one handler is inside the exclusive section, and the
      slot is held exactly while one is: a rejected caller never clears it. */
  lemma {:induction false} AtMostOneInSection(s: Sys, steps: seq<Step>, atomic: bool, i: nat)
    requires SlotMarksSection(s) && IsRun(s, steps, atomic) && i <= |steps|
    ensures var now := Before(s, steps, atomic, i);
            && SlotMarksSection(now)
            && (forall g: HandlerId, h: HandlerId :: InSection(now, g) && InSection(now, h) ==> g == h)
            && (now.slot.Some? <==> exists h: HandlerId :: InSection(now, h))
    decreases |steps|
  {
    if i > 0 {
      StepKeepsSlot(s, steps[0], atomic);
      AtMostOneInSection(Apply(s, steps[0], atomic), steps[1..], atomic, i - 1);
    } else if s.slot.Some? {
      assert InSection(s, s.slot.value);
    }
  }

  // ----- rows and workers

  /** Rows live in databases that are there. */
  predicate RowsExist(s: Sys) {
    forall t :: t in s.tasks ==> s.tasks[t].store !in s.gone
  }

  /** A worker's row, if it is there, is of the worker's kind, scope and database. */
  predicate RowsMatch(s: Sys) {
    forall t :: t in s.workers && t in s.tasks ==>
      && s.tasks[t].kind == s.workers[t].kind && s.tasks[t].scope == s.workers[t].scope
      && s.tasks[t].store == s.workers[t].store
  }

  /** The row of a live worker that has not lost it is active in the worker's own database, as long as that
      database is there. */
  predicate OwnRowsActive(s: Sys) {
    forall t :: t in s.workers && !s.workers[t].lost && s.workers[t].store !in s.gone ==>
      ActiveIn(s, s.workers[t].store, t)
  }

  lemma TakingKeepsRowsExist(s: Sys, step: Step)
    requires Enabled(s, step, true) && RowsExist(s) && TakesRows(step)
    ensures RowsExist(Apply(s, step, true))
  {
    var s' := Apply(s, step, true);
    forall t | t in s'.tasks ensures s'.tasks[t].store !in s'.gone { assert t in s.tasks; }
  }

  lemma PerformKeepsRowsExist(s: Sys, t: TaskId, outcome: Outcome)
    requires MayPerform(s, t, outcome) && RowsExist(s)
    ensures RowsExist(Perform(s, t, outcome))
  {
    var s' := Perform(s, t, outcome);
    forall o | o in s'.tasks ensures s'.tasks[o].store !in s'.gone {
      assert o in s.tasks ==> s.tasks[o].store !in s.gone;
    }
  }

  lemma StepKeepsRowsExist(s: Sys, step: Step)
    requires Enabled(s, step, true) && RowsExist(s)
    ensures RowsExist(Apply(s, step, true))
  {
    if TakesRows(step) {
      TakingKeepsRowsExist(s, step);
    } else if ByWorker(step) {
      WorkerPerforms(s, step, true);
      PerformKeepsRowsExist(s, step.t, OutcomeOf(s, step));
    }
  }

  lemma TakingKeepsRowsMatch(s: Sys, step: Step)
    requires Enabled(s, step, true) && RowsMatch(s) && TakesRows(step)
    ensures RowsMatch(Apply(s, step, true))
  {
    var s' := Apply(s, step, true);
    forall t | t in s'.workers && t in s'.tasks
      ensures s'.tasks[t].kind == s'.workers[t].kind && s'.tasks[t].scope == s'.workers[t].scope
              && s'.tasks[t].store == s'.workers[t].store
    {
      assert t in s.workers && t in s.tasks;
    }
  }

  lemma PerformKeepsRowsMatch(s: Sys, t: TaskId, outcome: Outcome)
    requires MayPerform(s, t, outcome) && RowsMatch(s)
    ensures RowsMatch(Perform(s, t, outcome))
  {}

  lemma StepKeepsRowsMatch(s: Sys, step: Step)
    requires Enabled(s, step, true) && RowsMatch(s)
    ensures RowsMatch(Apply(s, step, true))
  {
    if TakesRows(step) {
      TakingKeepsRowsMatch(s, step);
    } else if ByWorker(step) {
      WorkerPerforms(s, step, true);
      PerformKeepsRowsMatch(s, step.t, OutcomeOf(s, step));
    }
  }

  lemma TakingLosesRowIff(s: Sys, step: Step, t: TaskId)
    requires Enabled(s, step, true) && TakesRows(step) && RowsMatch(s)
    requires t in s.workers && ActiveIn(s, s.workers[t].store, t)
    ensures var s' := Apply(s, step, true);
            && t in s'.workers && s'.workers[t] == s.workers[t].(lost := s.workers[t].lost || Takes(s, step, t))
            && (s.workers[t].store !in s'.gone ==> (ActiveIn(s', s.workers[t].store, t) <==> !Takes(s, step, t)))
  {
    TakingMarksLost(s, step, t);
    TakingEndsRow(s, step, t);
  }

  lemma TakingMarksLost(s: Sys, step: Step, t: TaskId)
    requires Enabled(s, step, true) && TakesRows(step) && t in s.workers
    ensures var s' := Apply(s, step, true);
            t in s'.workers && s'.workers[t] == s.workers[t].(lost := s.workers[t].lost || Takes(s, step, t))
  {}

  lemma TakingEndsRow(s: Sys, step: Step, t: TaskId)
    requires Enabled(s, step, true) && TakesRows(step) && RowsMatch(s)
    requires t in s.workers && ActiveIn(s, s.workers[t].store, t)
    ensures var s' := Apply(s, step, true);
            s.workers[t].store !in s'.gone ==> (ActiveIn(s', s.workers[t].store, t) <==> !Takes(s, step, t))
  {}

  lemma PerformKeepsRow(s: Sys, t: TaskId, outcome: Outcome, o: TaskId)
    requires MayPerform(s, t, outcome) && o in s.workers && ActiveIn(s, s.workers[o].store, o)
    ensures var s' := Perform(s, t, outcome);
            o in s'.workers ==>
              && s'.workers[o].lost == s.workers[o].lost && s'.workers[o].store == s.workers[o].store
              && ActiveIn(s', s.workers[o].store, o)
  {}

  lemma OthersKeepRow(s: Sys, step: Step, t: TaskId)
    requires Enabled(s, step, true) && !TakesRows(step) && !ByWorker(step)
    requires t in s.workers && ActiveIn(s, s.workers[t].store, t)
    ensures var s' := Apply(s, step, true);
            && t in s'.workers && s'.workers[t] == s.workers[t] && ActiveIn(s', s.workers[t].store, t)
  {}

  /** A live worker with its row active keeps it so exactly when the step does not take it away; a reprocess
      worker creates its follow-up row before its own turns terminal. */
  lemma LosesRowIff(s: Sys, step: Step, t: TaskId)
    requires Enabled(s, step, true) && RowsMatch(s) && OwnRowsActive(s)
    requires t in s.workers && !s.workers[t].lost && s.workers[t].store !in s.gone
    ensures var s' := Apply(s, step, true);
            t in s'.workers && s'.workers[t].store !in s'.gone ==>
              && s'.workers[t].store == s.workers[t].store
              && (ActiveIn(s', s'.workers[t].store, t) <==> !Takes(s, step, t))
              && (s'.workers[t].lost <==> Takes(s, step, t))
  {
    assert ActiveIn(s, s.workers[t].store, t);
    if TakesRows(step) {
      TakingLosesRowIff(s, step, t);
    } else if ByWorker(step) {
      WorkerPerforms(s, step, true);
      PerformKeepsRow(s, step.t, OutcomeOf(s, step), t);
    } else {
      OthersKeepRow(s, step, t);
    }
  }

  /** A live worker and its loss are older than a worker's step, but for a follow-up, which inherits both and
      has its row active. */
  lemma PerformedWorker(s: Sys, t: TaskId, outcome: Outcome, o: TaskId)
    requires MayPerform(s, t, outcome) && o in Perform(s, t, outcome).workers
    ensures var s', w := Perform(s, t, outcome), if outcome.Spawns? && o == outcome.next then t else o;
            && w in s.workers && s.workers[w].lost == s'.workers[o].lost && s.workers[w].store == s'.workers[o].store
            && (w != o ==> o !in s.workers && ActiveIn(s', s'.workers[o].store, o))
  {}

  /** A worker that was already live had its database and its loss before; a new one has its row active. */
  lemma NotLostBefore(s: Sys, step: Step, t: TaskId)
    requires Enabled(s, step, true)
    requires t in Apply(s, step, true).workers && !Apply(s, step, true).workers[t].lost
    ensures var s' := Apply(s, step, true);
            if t in s.workers then !s.workers[t].lost && s.workers[t].store == s'.workers[t].store
            else ActiveIn(s', s'.workers[t].store, t)
  {
    if ByWorker(step) {
      WorkerPerforms(s, step, true);
      PerformedWorker(s, step.t, OutcomeOf(s, step), t);
    }
  }

  lemma GoneGrows(s: Sys, step: Step)
    requires Enabled(s, step, true)
    ensures s.gone <= Apply(s, step, true).gone
  {
    if ByWorker(step) { ControlKept(s, step, true); }
  }

  /** So every step keeps the rows of workers active that never lost theirs. */
  lemma StepKeepsOwnRows(s: Sys, step: Step)
    requires Enabled(s, step, true) && RowsMatch(s) && OwnRowsActive(s)
    ensures OwnRowsActive(Apply(s, step, true))
  {
    var s' := Apply(s, step, true);
    GoneGrows(s, step);
    forall t | t in s'.workers && !s'.workers[t].lost && s'.workers[t].store !in s'.gone
      ensures ActiveIn(s', s'.workers[t].store, t)
    {
      NotLostBefore(s, step, t);
      if t in s.workers { LosesRowIff(s, step, t); }
    }
  }

  // ----- what swaps meet, when handlers are atomic

  /** The event loop is held by the one handler that is under way. */
  ghost predicate LoopHeld(s: Sys) {
    forall h: HandlerId :: h in s.phases <==> s.loop == Some(h)
  }

  /** Whatever still works on the current database has lost its row. */
  predicate OnlyLostRemain(s: Sys) {
    && NoExportListed(s)
    && (forall t :: t in s.workers && s.workers[t].store == s.current ==> s.workers[t].lost)
    && (forall t :: t in s.tasks && ActiveIn(s, s.current, t) ==> t in s.workers && s.workers[t].lost)
  }

  /** So it is from the guard of a switch or deletion until its change. */
  predicate GuardHolds(s: Sys) {
    forall h :: h in s.phases && s.phases[h].op != Create && !s.phases[h].Changed? ==> OnlyLostRemain(s)
  }

  predicate RowsSafe(s: Sys) {
    s.current !in s.gone && RowsExist(s) && RowsMatch(s) && OwnRowsActive(s)
  }

  ghost predicate Safe(s: Sys) {
    RowsSafe(s) && LoopHeld(s) && SlotMarksSection(s) && GuardHolds(s)
  }

  /** No live worker belongs to this database. */
  predicate NoWorkerOf(s: Sys, store: Store) {
    forall t :: t in s.workers ==> s.workers[t].store != store
  }

  /** No live worker of this database has lost its row. */
  predicate NoneLostOf(s: Sys, store: Store) {
    forall t :: t in s.workers && s.workers[t].lost ==> s.workers[t].store != store
  }

  /** An existing database has no live worker exactly when none that has lost its row is still live there and
      no active row in it is a live worker's. */
  lemma NoWorkerIff(s: Sys, store: Store)
    requires RowsMatch(s) && OwnRowsActive(s) && store !in s.gone
    ensures NoWorkerOf(s, store) <==> NoneLostOf(s, store) && forall t :: t in s.workers ==> !ActiveIn(s, store, t)
  {
    if NoneLostOf(s, store) && forall t :: t in s.workers ==> !ActiveIn(s, store, t) {
      forall t | t in s.workers ensures s.workers[t].store != store { assert !ActiveIn(s, store, t); }
    }
  }

  /** What the guard sees: a quiet database may have live workers, exactly those that have lost their row. */
  lemma QuietLeavesOnlyLost(s: Sys)
    requires RowsSafe(s) && Quiet(s)
    ensures OnlyLostRemain(s)
  {
    forall t | t in s.workers && s.workers[t].store == s.current ensures s.workers[t].lost {
      assert t in s.tasks ==> !ActiveIn(s, s.current, t);
    }
  }

  lemma StepKeepsLoopHeld(s: Sys, step: Step)
    requires Enabled(s, step, true) && LoopHeld(s)
    ensures LoopHeld(Apply(s, step, true))
  {
    var s' := Apply(s, step, true);
    if step.Change? {
      ChangeKeepsControl(s, step, true);
    } else if TakesRows(step) || ByWorker(step) {
      ControlKept(s, step, true);
    }
    forall h: HandlerId ensures h in s'.phases <==> s'.loop == Some(h) {
      assert h in s.phases <==> s.loop == Some(h);
      match step
      case Acquire(g) => assert g in s.phases <==> s.loop == Some(g);
      case Change(g, _, _) => assert g in s.phases <==> s.loop == Some(g);
      case Release(g) => assert g in s.phases <==> s.loop == Some(g);
      case _ =>
    }
  }

  /** A row that is active in a database only after a worker's step is that worker's or its follow-up's. */
  lemma PerformedRow(s: Sys, t: TaskId, outcome: Outcome, o: TaskId, store: Store)
    requires MayPerform(s, t, outcome) && RowsMatch(s)
    requires var s' := Perform(s, t, outcome); o in s'.tasks && ActiveIn(s', store, o)
    ensures if o == t || (outcome.Spawns? && o == outcome.next)
            then s.workers[t].store == store && o in Perform(s, t, outcome).workers else ActiveIn(s, store, o)
  {}

  lemma PerformKeepsGuard(s: Sys, t: TaskId, outcome: Outcome)
    requires MayPerform(s, t, outcome) && RowsMatch(s) && OnlyLostRemain(s)
    ensures OnlyLostRemain(Perform(s, t, outcome))
  {
    var s' := Perform(s, t, outcome);
    PerformKeepsControl(s, t, outcome);
    forall o | o in s'.workers && s'.workers[o].store == s'.current ensures s'.workers[o].lost {
      PerformedWorker(s, t, outcome, o);
    }
    forall o | o in s'.tasks && ActiveIn(s', s'.current, o) ensures o in s'.workers && s'.workers[o].lost {
      PerformedRow(s, t, outcome, o, s.current);
      if o in s.workers && o != t { OtherWorkersStay(s, t, outcome, o); }
      if o in s'.workers { PerformedWorker(s, t, outcome, o); }
    }
  }

  lemma OtherWorkersStay(s: Sys, t: TaskId, outcome: Outcome, o: TaskId)
    requires MayPerform(s, t, outcome) && o in s.workers && o != t
    ensures o in Perform(s, t, outcome).workers
  {}

  lemma HeldTakingKeepsGuard(s: Sys, step: Step)
    requires Enabled(s, step, true) && (step.RowsReconciled? || step.RowsExpired?) && OnlyLostRemain(s)
    ensures OnlyLostRemain(Apply(s, step, true))
  {
    var s' := Apply(s, step, true);
    forall t | t in s'.tasks && ActiveIn(s', s'.current, t) ensures t in s'.workers && s'.workers[t].lost {
      assert ActiveIn(s, s.current, t);
    }
  }

  /** Once a handler holds the loop, only workers, exports and row clean-up can move. A worker that lost its
      row may make it active again or start its follow-up; no other works on the current database. */
  lemma HeldStepsKeepGuard(s: Sys, step: Step, h: HandlerId)
    requires Enabled(s, step, true) && RowsMatch(s) && OnlyLostRemain(s) && s.loop == Some(h) && !step.Change?
    ensures OnlyLostRemain(Apply(s, step, true))
  {
    if ByWorker(step) {
      WorkerPerforms(s, step, true);
      PerformKeepsGuard(s, step.t, OutcomeOf(s, step));
    } else if TakesRows(step) {
      HeldTakingKeepsGuard(s, step);
    } else {
      var s' := Apply(s, step, true);
      assert s'.tasks == s.tasks && s'.workers == s.workers && s'.current == s.current;
      forall t | t in s'.tasks && ActiveIn(s', s'.current, t) ensures t in s'.workers && s'.workers[t].lost {
        assert ActiveIn(s, s.current, t);
      }
    }
  }

  /** A handler passes its guard only in a quiet state. */
  lemma GuardPassed(s: Sys, step: Step, h: HandlerId)
    requires Enabled(s, step, true) && RowsSafe(s)
    requires var s' := Apply(s, step, true); h !in s.phases && h in s'.phases && s'.phases[h].op != Create
    ensures OnlyLostRemain(Apply(s, step, true))
  {
    if step.CheckChange? {
      QuietLeavesOnlyLost(s);
      assert Apply(s, step, true) == s.(loop := Some(h), phases := s.phases[h := Checked(step.op)]);
    } else if step.Change? {
      ChangeKeepsControl(s, step, true);
    } else if TakesRows(step) || ByWorker(step) {
      ControlKept(s, step, true);
    }
  }

  lemma ChangePassesAll(s: Sys, step: Step)
    requires Enabled(s, step, true) && LoopHeld(s) && step.Change?
    ensures GuardHolds(Apply(s, step, true))
  {
    var s' := Apply(s, step, true);
    ChangeKeepsControl(s, step, true);
    forall h | h in s'.phases ensures s'.phases[h].Changed? {
      assert h in s.phases ==> s.loop == Some(h);
      assert step.h in s.phases ==> s.loop == Some(step.h);
    }
  }

  lemma PhaseKept(s: Sys, step: Step, h: HandlerId)
    requires Enabled(s, step, true) && !step.Change? && h in s.phases && h in Apply(s, step, true).phases
    ensures var s' := Apply(s, step, true);
            s'.phases[h].op == s.phases[h].op && (s.phases[h].Changed? ==> s'.phases[h].Changed?)
  {
    if TakesRows(step) || ByWorker(step) { ControlKept(s, step, true); }
  }

  lemma StepKeepsGuard(s: Sys, step: Step)
    requires Enabled(s, step, true) && RowsSafe(s) && LoopHeld(s) && GuardHolds(s)
    ensures GuardHolds(Apply(s, step, true))
  {
    var s' := Apply(s, step, true);
    if step.Change? {
      ChangePassesAll(s, step);
    } else {
      forall h | h in s'.phases && s'.phases[h].op != Create && !s'.phases[h].Changed? ensures OnlyLostRemain(s') {
        if h in s.phases {
          PhaseKept(s, step, h);
          assert s.loop == Some(h) && OnlyLostRemain(s);
          HeldStepsKeepGuard(s, step, h);
        } else {
          GuardPassed(s, step, h);
        }
      }
    }
  }

  lemma StepKeepsSafe(s: Sys, step: Step)
    requires Enabled(s, step, true) && Safe(s)
    ensures Safe(Apply(s, step, true))
  {
    StepKeepsRowsExist(s, step);
    StepKeepsRowsMatch(s, step);
    StepKeepsOwnRows(s, step);
    StepKeepsLoopHeld(s, step);
    StepKeepsSlot(s, step, true);
    StepKeepsGuard(s, step);
  }

  lemma {:induction false} RunStaysSafe(s: Sys, steps: seq<Step>, i: nat)
    requires Safe(s) && IsRun(s, steps, true) && i <= |steps|
    ensures Safe(Before(s, steps, true, i))
    decreases |steps|
  {
    if i > 0 {
      StepKeepsSafe(s, steps[0]);
      RunStaysSafe(Apply(s, steps[0], true), steps[1..], i - 1);
    }
  }

  lemma {:induction false} RunIsEnabled(s: Sys, steps: seq<Step>, atomic: bool, i: nat)
    requires IsRun(s, steps, atomic) && i < |steps|
    ensures Enabled(Before(s, steps, atomic, i), steps[i], atomic)
    decreases |steps|
  {
    if i > 0 { RunIsEnabled(Apply(s, steps[0], atomic), steps[1..], atomic, i - 1); }
  }

  /** Step number i switches or deletes a database. */
  ghost predicate Swaps(s: Sys, steps: seq<Step>, i: nat)
    requires IsRun(s, steps, true) && i < |steps|
  {
    var now := Before(s, steps, true, i);
    steps[i].Change? && steps[i].h in now.phases && now.phases[steps[i].h].op != Create
  }

  lemma SwapMeetsOnlyLost(s: Sys, steps: seq<Step>, i: nat)
    requires Init(s) && IsRun(s, steps, true) && i < |steps| && Swaps(s, steps, i)
    ensures Safe(Before(s, steps, true, i)) && OnlyLostRemain(Before(s, steps, true, i))
    ensures steps[i].target !in Before(s, steps, true, i).gone
  {
    RunStaysSafe(s, steps, i);
    RunIsEnabled(s, steps, true, i);
  }

  /** In every run of atomic handlers and freely interleaved workers and row clean-ups, a database switch or
      deletion meets a live worker of the current database exactly if one that has lost its row is still live
      there, an active task exactly if such a worker has set its row active again since the guard, and a live
      export exactly if it was marked as stalled. The database it switches to or deletes has no live worker
      exactly if none there has lost its row and none has it: the guard looks at the current database only. */
  lemma SwapMeetsWorkerIff(s: Sys, steps: seq<Step>, i: nat)
    requires Init(s) && IsRun(s, steps, true) && i < |steps| && Swaps(s, steps, i)
    ensures var now := Before(s, steps, true, i);
            && (NoWorkerOf(now, now.current) <==> NoneLostOf(now, now.current))
            && (IdleIn(now, now.current) <==>
                  forall t :: t in now.workers && now.workers[t].lost ==> !ActiveIn(now, now.current, t))
            && (now.exports == map[] <==> forall e :: e in now.exports ==> !now.exports[e])
            && (NoWorkerOf(now, steps[i].target) <==>
                  && NoneLostOf(now, steps[i].target)
                  && forall t :: t in now.workers ==> !ActiveIn(now, steps[i].target, t))
  {
    SwapMeetsOnlyLost(s, steps, i);
    var now := Before(s, steps, true, i);
    NoWorkerIff(now, steps[i].target);
    OnlyLostMeans(now);
  }

  lemma OnlyLostMeans(s: Sys)
    requires OnlyLostRemain(s)
    ensures NoWorkerOf(s, s.current) <==> NoneLostOf(s, s.current)
    ensures IdleIn(s, s.current) <==> forall t :: t in s.workers && s.workers[t].lost ==> !ActiveIn(s, s.current, t)
    ensures s.exports == map[] <==> forall e :: e in s.exports ==> !s.exports[e]
  {
    if forall e :: e in s.exports ==> !s.exports[e] {
      if e :| e in s.exports { assert false; }
    }
  }

  // ----- runs in which no worker loses its row

  ghost predicate TakesAny(s: Sys, step: Step)
    requires Enabled(s, step, false)
  {
    exists t :: t in s.workers && Takes(s, step, t)
  }

  predicate NoneLost(s: Sys) {
    forall t :: t in s.workers ==> !s.workers[t].lost
  }

  lemma TakingLosesAnyIff(s: Sys, step: Step)
    requires Enabled(s, step, true) && NoneLost(s) && TakesRows(step)
    ensures NoneLost(Apply(s, step, true)) <==> !TakesAny(s, step)
  {
    var s' := Apply(s, step, true);
    assert s'.workers == MarkLost(s, step);
    if t :| t in s.workers && Takes(s, step, t) { assert s'.workers[t].lost; }
  }

  /** A first worker loses its row exactly when a step takes a live worker's. */
  lemma LosesAnyIff(s: Sys, step: Step)
    requires Enabled(s, step, true) && NoneLost(s)
    ensures NoneLost(Apply(s, step, true)) <==> !TakesAny(s, step)
  {
    if TakesRows(step) {
      TakingLosesAnyIff(s, step);
    } else if ByWorker(step) {
      WorkerPerforms(s, step, true);
      forall t | t in Apply(s, step, true).workers ensures !Apply(s, step, true).workers[t].lost {
        PerformedWorker(s, step.t, OutcomeOf(s, step), t);
      }
    }
  }

  ghost predicate NoneTaken(s: Sys, steps: seq<Step>, i: nat)
    requires IsRun(s, steps, true) && i <= |steps|
  {
    forall j: nat :: j < i ==>
      Enabled(Before(s, steps, true, j), steps[j], false) && !TakesAny(Before(s, steps, true, j), steps[j])
  }

  lemma NoneTakenLater(s: Sys, steps: seq<Step>, i: nat)
    requires IsRun(s, steps, true) && 0 < i <= |steps| && NoneTaken(s, steps, i)
    ensures !TakesAny(s, steps[0]) && NoneTaken(Apply(s, steps[0], true), steps[1..], i - 1)
  {
    assert Before(s, steps, true, 0) == s;
    var next := Apply(s, steps[0], true);
    forall j: nat | j < i - 1
      ensures Enabled(Before(next, steps[1..], true, j), steps[1..][j], false)
              && !TakesAny(Before(next, steps[1..], true, j), steps[1..][j])
    {
      BeforeLater(s, steps, true, j + 1);
      assert !TakesAny(Before(s, steps, true, j + 1), steps[j + 1]);
    }
  }

  lemma {:induction false} RunLosesNone(s: Sys, steps: seq<Step>, i: nat)
    requires NoneLost(s) && IsRun(s, steps, true) && i <= |steps| && NoneTaken(s, steps, i)
    ensures NoneLost(Before(s, steps, true, i))
    decreases |steps|
  {
    if i > 0 {
      NoneTakenLater(s, steps, i);
      LosesAnyIff(s, steps[0]);
      RunLosesNone(Apply(s, steps[0], true), steps[1..], i - 1);
    }
  }

  /** As long as no live worker's row has been taken away, a swap meets a current database without any active
      task or live worker. */
  lemma SwapsAreQuiet(s: Sys, steps: seq<Step>, i: nat)
    requires Init(s) && IsRun(s, steps, true) && i < |steps| && Swaps(s, steps, i) && NoneTaken(s, steps, i)
    ensures var now := Before(s, steps, true, i); Quiet(now) && NoWorkerOf(now, now.current)
  {
    RunLosesNone(s, steps, i);
    SwapMeetsOnlyLost(s, steps, i);
    OnlyLostMeans(Before(s, steps, true, i));
  }

  /** A reprocess that starts, and so changes its scope's channel map, meets no live derived task of the scope
      in its database but such as have lost their row. */
  lemma ReprocessMeetsOnlyLost(s: Sys, step: Step, t: TaskId)
    requires Enabled(s, step, true) && RowsSafe(s) && step.Start? && step.kind == ChannelReprocess && Starts(s, step)
    requires t in s.workers && IsDerived(s.workers[t].kind)
    requires s.workers[t].scope == step.scope && s.workers[t].store == s.captured[step.q]
    ensures s.workers[t].lost
  {
    if !s.workers[t].lost {
      assert ActiveDerived(s, s.captured[step.q], step.scope, t);
    }
  }

  // ----- live workers on other databases

  /** Every live worker belongs to the current database. */
  predicate AllAtHome(s: Sys) {
    forall t :: t in s.workers ==> s.workers[t].store == s.current
  }

  /** A request starts a task after the database it was given has been switched away. */
  predicate StartsAway(s: Sys, step: Step) {
    step.Start? && step.q in s.captured && Starts(s, step) && s.captured[step.q] != s.current
  }

  /** The step makes another database the current one. */
  predicate SwitchesOver(s: Sys, step: Step) {
    step.Change? && step.succeeds && step.h in s.phases && s.phases[step.h].op == Switch
  }

  lemma HomeAloneIsEmpty(s: Sys)
    requires AllAtHome(s) && NoWorkerOf(s, s.current)
    ensures s.workers == map[]
  {
    if t :| t in s.workers { assert false; }
  }

  lemma ChangeLeavesHomeIff(s: Sys, step: Step)
    requires Enabled(s, step, true) && Safe(s) && AllAtHome(s) && step.Change?
    ensures AllAtHome(Apply(s, step, true)) <==> (SwitchesOver(s, step) ==> NoneLost(s))
  {
    var s' := Apply(s, step, true);
    assert s'.workers == MarkLost(s, step);
    if SwitchesOver(s, step) {
      assert s.loop == Some(step.h) && OnlyLostRemain(s);
      if t :| t in s.workers { assert t in s'.workers && s'.workers[t].store != s'.current && s.workers[t].lost; }
    }
  }

  lemma OthersLeaveHomeIff(s: Sys, step: Step)
    requires Enabled(s, step, true) && AllAtHome(s) && !ByWorker(step) && !step.Change?
    ensures AllAtHome(Apply(s, step, true)) <==> !StartsAway(s, step)
  {
    var s' := Apply(s, step, true);
    if StartsAway(s, step) { assert step.t in s'.workers && s'.workers[step.t].store != s'.current; }
  }

  /** While all workers are at home, a step leaves one behind or starts one elsewhere exactly when a request
      starts a task in a database that is no longer the current one, or a switch happens under a worker that
      has lost its row. */
  lemma LeavesHomeIff(s: Sys, step: Step)
    requires Enabled(s, step, true) && Safe(s) && AllAtHome(s)
    ensures AllAtHome(Apply(s, step, true)) <==> !StartsAway(s, step) && (SwitchesOver(s, step) ==> NoneLost(s))
  {
    if step.Change? {
      ChangeLeavesHomeIff(s, step);
    } else if ByWorker(step) {
      WorkerPerforms(s, step, true);
      PerformKeepsControl(s, step.t, OutcomeOf(s, step));
      forall t | t in Apply(s, step, true).workers ensures Apply(s, step, true).workers[t].store == s.current {
        PerformedWorker(s, step.t, OutcomeOf(s, step), t);
      }
    } else {
      OthersLeaveHomeIff(s, step);
    }
  }

  ghost predicate NoneStartAway(s: Sys, steps: seq<Step>, i: nat)
    requires IsRun(s, steps, true) && i <= |steps|
  {
    forall j: nat :: j < i ==> !StartsAway(Before(s, steps, true, j), steps[j])
  }

  lemma NoneStartAwayLater(s: Sys, steps: seq<Step>, i: nat)
    requires IsRun(s, steps, true) && 0 < i <= |steps| && NoneStartAway(s, steps, i)
    ensures !StartsAway(s, steps[0]) && NoneStartAway(Apply(s, steps[0], true), steps[1..], i - 1)
  {
    assert Before(s, steps, true, 0) == s;
    forall j: nat | j < i - 1 ensures !StartsAway(Before(Apply(s, steps[0], true), steps[1..], true, j), steps[1..][j]) {
      BeforeLater(s, steps, true, j + 1);
      assert !StartsAway(Before(s, steps, true, j + 1), steps[j + 1]);
    }
  }

  lemma {:induction false} RunStaysHome(s: Sys, steps: seq<Step>, i: nat)
    requires Safe(s) && AllAtHome(s) && NoneLost(s) && IsRun(s, steps, true) && i <= |steps|
    requires NoneStartAway(s, steps, i) && NoneTaken(s, steps, i)
    ensures AllAtHome(Before(s, steps, true, i))
    decreases |steps|
  {
    if i > 0 {
      NoneStartAwayLater(s, steps, i);
      NoneTakenLater(s, steps, i);
      LeavesHomeIff(s, steps[0]);
      LosesAnyIff(s, steps[0]);
      StepKeepsSafe(s, steps[0]);
      RunStaysHome(Apply(s, steps[0], true), steps[1..], i - 1);
    }
  }

  /** A switch or deletion meets no live worker at all, so none on its target, exactly when every live worker
      is at home and none has lost its row; and as long as no request has started a task away and no live
      worker's row has been taken, that is so. */
  lemma SwapMeetsNoWorkerIff(s: Sys, steps: seq<Step>, i: nat)
    requires Init(s) && IsRun(s, steps, true) && i < |steps| && Swaps(s, steps, i)
    ensures var now := Before(s, steps, true, i);
            && (now.workers == map[] <==> AllAtHome(now) && NoneLost(now))
            && (NoneStartAway(s, steps, i) && NoneTaken(s, steps, i) ==> now.workers == map[])
  {
    SwapMeetsOnlyLost(s, steps, i);
    var now := Before(s, steps, true, i);
    OnlyLostMeans(now);
    if AllAtHome(now) && NoneLost(now) { HomeAloneIsEmpty(now); }
    if NoneStartAway(s, steps, i) && NoneTaken(s, steps, i) {
      RunStaysHome(s, steps, i);
      RunLosesNone(s, steps, i);
    }
  }

  // ----- runs that go wrong

  /** The steps lead from one state to another. */
  ghost predicate Leads(s: Sys, steps: seq<Step>, atomic: bool, now: Sys) {
    IsRun(s, steps, atomic) && Before(s, steps, atomic, |steps|) == now
  }

  lemma {:induction false} LeadsOn(s: Sys, steps: seq<Step>, atomic: bool, now: Sys, step: Step)
    requires Leads(s, steps, atomic, now) && Enabled(now, step, atomic)
    ensures Leads(s, steps + [step], atomic, Apply(now, step, atomic))
    ensures Before(s, steps + [step], atomic, |steps|) == now
    decreases |steps|
  {
    var more := steps + [step];
    if steps == [] {
      assert more == [step] && more[1..] == [];
      BeforeLater(s, more, atomic, 1);
    } else {
      var next := Apply(s, steps[0], atomic);
      BeforeLater(s, steps, atomic, |steps|);
      LeadsOn(next, steps[1..], atomic, now, step);
      assert more[1..] == steps[1..] + [step];
      BeforeLater(s, more, atomic, |more|);
      BeforeLater(s, more, atomic, |steps|);
    }
  }

  const SCOPE: Scope := ("P", "V")

  function Upload(q: RequestId, t: TaskId): Step {
    Start(q, t, FolderUpload, SCOPE, None, {})
  }

  /** No derived task of the scope is active in the database. */
  predicate NoneLatest(s: Sys, store: Store) {
    IsLatest(s, store, SCOPE, None)
  }

  /** An upload starts between the guard and the section of a switch. */
  lemma UploadInterleaves(s: Sys, t: TaskId) returns (steps: seq<Step>, now: Sys)
    requires Init(s) && Quiet(s) && Unused(s, t)
    ensures steps == [Resolve(0), CheckChange(0, Switch, false), Upload(0, t)] && Leads(s, steps, false, now)
    ensures now == StartTask(s.(captured := map[0 := s.current], loop := Some(0), phases := map[0 := Checked(Switch)]),
                             t, FolderUpload, SCOPE, s.current, false)
  {
    var a, b := Resolve(0), CheckChange(0, Switch, false);
    var s1 := Apply(s, a, false);
    var s2 := s.(captured := map[0 := s.current], loop := Some(0), phases := map[0 := Checked(Switch)]);
    QuietAlike(s, s1);
    LeadsOn(s, [], false, s, a);
    LeadsOn(s, [] + [a], false, s1, b);
    assert Apply(s1, b, false) == s2 && NoneLatest(s2, s.current) by {
      forall o | o in s.tasks ensures !ActiveIn(s2, s.current, o) { assert !ActiveIn(s, s.current, o); }
    }
    LeadsOn(s, [] + [a] + [b], false, s2, Upload(0, t));
    steps := [] + [a] + [b] + [Upload(0, t)];
    now := Apply(s2, Upload(0, t), false);
  }

  /** The slot alone is not enough: if another handler may run between guard and section, an upload can
      start there and the switch then happens under a live worker of the current database. */
  lemma InterleavedHandlersBreakSwaps(s: Sys, t: TaskId, target: Store)
    requires Init(s) && Quiet(s) && Unused(s, t) && target != s.current && target !in s.gone
    ensures var steps := [Resolve(0), CheckChange(0, Switch, false), Upload(0, t), Acquire(0), Change(0, target, true)];
            && IsRun(s, steps, false)
            && !Quiet(Before(s, steps, false, 4)) && !NoWorkerOf(Before(s, steps, false, 4), s.current)
  {
    var steps, now := UploadInterleaves(s, t);
    var d, e := Acquire(0), Change(0, target, true);
    LeadsOn(s, steps, false, now, d);
    LeadsOn(s, steps + [d], false, Apply(now, d, false), e);
    assert steps + [d] + [e] == [Resolve(0), CheckChange(0, Switch, false), Upload(0, t), d, e];
    assert ActiveIn(now, s.current, t) && t in now.workers;
  }

  /** Nothing is under way on the event loop. */
  predicate Idle(s: Sys) {
    s.slot.None? && s.loop.None? && s.phases == map[]
  }

  /** The state after a switch: rows of the other database have failed, and workers there have lost theirs. */
  function Switched(s: Sys, other: Store): Sys {
    s.(current := other,
       tasks := map t | t in s.tasks :: if s.tasks[t].store == other then FailedRow(s.tasks[t]) else s.tasks[t],
       workers := map t | t in s.workers :: s.workers[t].(lost := s.workers[t].lost || s.workers[t].store == other))
  }

  /** From a quiet state the guard of a switch or deletion lets it into the section; workers and rows are as
      they were when the change comes. */
  lemma EntersSection(s: Sys, steps: seq<Step>, now: Sys, h: HandlerId, op: Operation)
    requires Leads(s, steps, true, now) && Quiet(now) && Idle(now) && op != Create
    ensures Leads(s, steps + [CheckChange(h, op, false)] + [Acquire(h)], true,
                  now.(slot := Some(h), loop := Some(h), phases := map[h := Inside(op)]))
  {
    var a, b := CheckChange(h, op, false), Acquire(h);
    var s1 := Apply(now, a, true);
    LeadsOn(s, steps, true, now, a);
    LeadsOn(s, steps + [a], true, s1, b);
    assert s1.phases[h := Inside(op)] == map[h := Inside(op)];
  }

  lemma ChangeSwitches(now: Sys, h: HandlerId, other: Store)
    requires Idle(now) && other != now.current && other !in now.gone
    ensures var inside := now.(slot := Some(h), loop := Some(h), phases := map[h := Inside(Switch)]);
            && Enabled(inside, Change(h, other, true), true)
            && Apply(inside, Change(h, other, true), true)
               == Switched(now, other).(slot := Some(h), loop := Some(h), phases := map[h := Changed(Switch)])
  {
    var inside := now.(slot := Some(h), loop := Some(h), phases := map[h := Inside(Switch)]);
    var after, goal := Apply(inside, Change(h, other, true), true), Switched(now, other);
    assert after.workers == goal.workers;
    assert after.tasks == goal.tasks;
    assert after.phases == map[h := Changed(Switch)];
  }

  lemma SwitchLeads(s: Sys, steps: seq<Step>, now: Sys, h: HandlerId, other: Store) returns (more: seq<Step>)
    requires Leads(s, steps, true, now) && Quiet(now) && Idle(now) && other != now.current && other !in now.gone
    ensures Leads(s, more, true, Switched(now, other))
    ensures |more| == |steps| + 4
  {
    EntersSection(s, steps, now, h, Switch);
    ChangeSwitches(now, h, other);
    var a, b, c := CheckChange(h, Switch, false), Acquire(h), Change(h, other, true);
    var s2 := now.(slot := Some(h), loop := Some(h), phases := map[h := Inside(Switch)]);
    var s3 := Apply(s2, c, true);
    LeadsOn(s, steps + [a] + [b], true, s2, c);
    LeadsOn(s, steps + [a] + [b] + [c], true, s3, Release(h));
    assert s3.phases - {h} == map[];
    more := steps + [a] + [b] + [c] + [Release(h)];
  }

  /** A quiet state is one step short of a swap that leaves workers as they are until then. */
  lemma SwapFollows(s: Sys, steps: seq<Step>, now: Sys, h: HandlerId, op: Operation, target: Store)
      returns (more: seq<Step>)
    requires Leads(s, steps, true, now) && Quiet(now) && Idle(now) && op != Create
    requires target != now.current && target !in now.gone
    ensures var n := |steps| + 2;
            && |more| == n + 1 && IsRun(s, more, true) && Swaps(s, more, n) && more[n] == Change(h, target, true)
            && var at := Before(s, more, true, n);
               Quiet(at) && at.workers == now.workers && at.current == now.current
  {
    EntersSection(s, steps, now, h, op);
    var before := steps + [CheckChange(h, op, false)] + [Acquire(h)];
    var inside := now.(slot := Some(h), loop := Some(h), phases := map[h := Inside(op)]);
    LeadsOn(s, before, true, inside, Change(h, target, true));
    more := before + [Change(h, target, true)];
    assert Quiet(inside) by { QuietAlike(now, inside); }
  }

  lemma QuietAlike(s: Sys, s': Sys)
    requires Quiet(s) && s'.tasks == s.tasks && s'.exports == s.exports && s'.current == s.current
    ensures Quiet(s')
  {
    forall t | t in s'.tasks ensures !ActiveIn(s', s'.current, t) { assert !ActiveIn(s, s.current, t); }
  }

  /** An upload, whose request was given the first database, starts behind the switch to another one. */
  lemma UploadStartsAway(s: Sys, t: TaskId, other: Store) returns (steps: seq<Step>, now: Sys)
    requires Init(s) && Quiet(s) && IdleIn(s, other) && Unused(s, t) && other != s.current && other !in s.gone
    ensures |steps| == 6 && Leads(s, steps, true, now)
    ensures now == StartTask(s.(current := other, captured := map[0 := s.current]), t, FolderUpload, SCOPE, s.current,
                             false)
  {
    var s1 := Apply(s, Resolve(0), true);
    LeadsOn(s, [], true, s, Resolve(0));
    QuietAlike(s, s1);
    steps := SwitchLeads(s, [] + [Resolve(0)], s1, 0, other);
    var s5 := s1.(current := other);
    assert Switched(s1, other) == s5 by {
      forall o | o in s.tasks && s.tasks[o].store == other ensures FailedRow(s.tasks[o]) == s.tasks[o] {
        assert !ActiveIn(s, other, o);
      }
      assert Switched(s1, other).tasks == s1.tasks && Switched(s1, other).workers == s1.workers;
    }
    assert NoneLatest(s5, s.current) by {
      forall o | o in s.tasks ensures !ActiveIn(s5, s.current, o) { assert !ActiveIn(s, s.current, o); }
    }
    LeadsOn(s, steps, true, s5, Upload(0, t));
    now := Apply(s5, Upload(0, t), true);
    steps := steps + [Upload(0, t)];
  }

  lemma AwayIsQuiet(s: Sys, t: TaskId, other: Store)
    requires Init(s) && IdleIn(s, other) && Unused(s, t) && other != s.current
    ensures Quiet(StartTask(s.(current := other, captured := map[0 := s.current]), t, FolderUpload, SCOPE, s.current, false))
  {
    var now := StartTask(s.(current := other, captured := map[0 := s.current]), t, FolderUpload, SCOPE, s.current, false);
    forall o | o in now.tasks ensures !ActiveIn(now, other, o) { assert o in s.tasks ==> !ActiveIn(s, other, o); }
  }

  /** The guard reads the current database only. A request given a database before it was switched away can
      start an upload there afterwards, and that database can then be deleted under the live worker, every
      handler running without interruption and the guard finding all quiet. */
  lemma DeletionUnderLiveWorker(s: Sys, t: TaskId, other: Store) returns (steps: seq<Step>)
    requires Init(s) && Quiet(s) && IdleIn(s, other) && Unused(s, t) && other != s.current && other !in s.gone
    ensures |steps| == 9 && IsRun(s, steps, true) && Swaps(s, steps, 8) && steps[8] == Change(1, s.current, true)
    ensures var now := Before(s, steps, true, 8);
            Quiet(now) && t in now.workers && now.workers[t].store == s.current
  {
    var before, now := UploadStartsAway(s, t, other);
    AwayIsQuiet(s, t, other);
    steps := SwapFollows(s, before, now, 1, Delete, s.current);
  }

  /** Opening a database fails the rows of its live workers. The upload of the run above loses its row when
      its database is switched back to, and the next switch then happens under it. */
  lemma SwitchBackHidesWorker(s: Sys, t: TaskId, other: Store) returns (steps: seq<Step>)
    requires Init(s) && Quiet(s) && IdleIn(s, other) && Unused(s, t) && other != s.current && other !in s.gone
    ensures |steps| == 13 && IsRun(s, steps, true) && Swaps(s, steps, 12) && steps[12] == Change(2, other, true)
    ensures var now := Before(s, steps, true, 12);
            Quiet(now) && t in now.workers && now.workers[t].store == now.current == s.current
  {
    var before, away := UploadStartsAway(s, t, other);
    AwayIsQuiet(s, t, other);
    before := SwitchLeads(s, before, away, 1, s.current);
    var now := Switched(away, s.current);
    forall o | o in now.tasks ensures !ActiveIn(now, now.current, o) {}
    steps := SwapFollows(s, before, now, 2, Switch, other);
  }

  /** A damage task starts and then its scope is deleted, and its row with it. */
  lemma ScopeDeletedAfterStart(s: Sys, t: TaskId) returns (steps: seq<Step>, now: Sys)
    requires Init(s) && Quiet(s) && Unused(s, t)
    ensures |steps| == 3 && Leads(s, steps, true, now) && Idle(now)
    ensures now.current == s.current && now.gone == s.gone && now.exports == s.exports
    ensures t in now.workers && now.workers[t].store == s.current
    ensures forall o :: o in now.tasks ==> o in s.tasks && now.tasks[o] == s.tasks[o]
  {
    var a, b := Resolve(0), Start(0, t, DamageCalculation, SCOPE, None, {});
    var c := DeleteScope(0, SCOPE.0, Some(SCOPE.1));
    var s1 := s.(captured := map[0 := s.current]);
    assert Apply(s, a, true) == s1;
    assert NoneLatest(s1, s.current) by {
      forall o | o in s.tasks ensures !ActiveIn(s1, s.current, o) { assert !ActiveIn(s, s.current, o); }
    }
    var s2 := StartTask(s1, t, DamageCalculation, SCOPE, s.current, false);
    assert Apply(s1, b, true) == s2;
    LeadsOn(s, [], true, s, a);
    LeadsOn(s, [] + [a], true, s1, b);
    LeadsOn(s, [] + [a] + [b], true, s2, c);
    now := ApplyToRows(s2, c);
    steps := [] + [a] + [b] + [c];
  }

  /** No guard stands before the deletion of a scope. It deletes the row of a damage task that has just been
      started there, and the next switch happens under the live worker. */
  lemma ScopeDeletionHidesWorker(s: Sys, t: TaskId, other: Store) returns (steps: seq<Step>)
    requires Init(s) && Quiet(s) && Unused(s, t) && other != s.current && other !in s.gone
    ensures |steps| == 6 && IsRun(s, steps, true) && Swaps(s, steps, 5) && steps[5] == Change(1, other, true)
    ensures var now := Before(s, steps, true, 5);
            Quiet(now) && t in now.workers && now.workers[t].store == now.current == s.current
  {
    var before, now := ScopeDeletedAfterStart(s, t);
    forall o | o in now.tasks ensures !ActiveIn(now, s.current, o) { assert !ActiveIn(s, s.current, o); }
    steps := SwapFollows(s, before, now, 1, Switch, other);
  }
}
