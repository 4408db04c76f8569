/** The store operations and task loops that change persisted damage. */
module DamageStore {
  import opened Options
  import opened DamageModel
  import opened TaskKinds

  datatype TaskRow = TaskRow(status: TaskStatus, completed: nat, total: nat, error: Option<string>)

  /** An update of a task row: a field is left alone unless a value is given for it. */
  datatype TaskChange =
    TaskChange(status: Option<TaskStatus>, completed: Option<nat>, total: Option<nat>, error: Option<string>)
  {
    function On(row: TaskRow): (r: TaskRow)
      ensures r.status == if status == None then row.status else status.value
      ensures r.completed == if completed == None then row.completed else completed.value
      ensures r.total == if total == None then row.total else total.value
      ensures error == None ==> r.error == row.error
      ensures error.Some? ==> r.error == error
    {
      TaskRow(status.GetOr(row.status), completed.GetOr(row.completed), total.GetOr(row.total),
              if error.Some? then error else row.error)
    }
  }

  datatype Issue = Issue(eventId: string, field: string)

  function IssuesOf(er: EventRow): seq<Issue> {
    (if er.repeats.None? then [Issue(er.eventId, "repeats")] else [])
    + (if er.weight.None? then [Issue(er.eventId, "weight")] else [])
  }

  function AllIssues(scheduled: seq<EventRow>): (r: seq<Issue>)
    ensures r == [] <==> AllScaled(scheduled)
  {
    if scheduled == [] then []
    else AllIssues(scheduled[..|scheduled| - 1]) + IssuesOf(scheduled[|scheduled| - 1])
  }

  lemma IssuesNext(scheduled: seq<EventRow>, n: nat)
    requires n < |scheduled|
    ensures AllIssues(scheduled[..n + 1]) == AllIssues(scheduled[..n]) + IssuesOf(scheduled[n])
  {
    assert scheduled[..n + 1][..n] == scheduled[..n];
  }

  /** Issues come in the order of the rows. */
  lemma {:induction false} AllIssuesSplit(a: seq<EventRow>, b: seq<EventRow>)
    ensures AllIssues(a + b) == AllIssues(a) + AllIssues(b)
  {
    if b == [] {
      assert a + b == a;
    } else {
      var init, last := b[..|b| - 1], b[|b| - 1];
      assert (a + b)[..|a + b| - 1] == a + init && (a + b)[|a + b| - 1] == last;
      AllIssuesSplit(a, init);
      IssuesRegroup(AllIssues(a), AllIssues(init), IssuesOf(last));
    }
  }

  lemma IssuesRegroup(a: seq<Issue>, b: seq<Issue>, c: seq<Issue>)
    ensures a + b + c == a + (b + c)
  {}

  /** Of one row, that of repeats comes before that of weight. */
  lemma IssuesOfOne(er: EventRow)
    ensures AllIssues([er]) == (if er.repeats == None then [Issue(er.eventId, "repeats")] else [])
                               + if er.weight == None then [Issue(er.eventId, "weight")] else []
  {
    assert [er][..0] == [];
  }

  /** Reports every blank repeats or weight of a scheduled row, in row order. */
  method ValidateScheduleForDamage(preview: Preview) returns (issues: seq<Issue>)
    ensures issues == AllIssues(ScheduledRows(preview.eventRows))
    ensures issues == [] <==> AllScaled(ScheduledRows(preview.eventRows))
  {
    var scheduled := ScheduledRows(preview.eventRows);
    issues := [];
    for n := 0 to |scheduled|
      invariant issues == AllIssues(scheduled[..n])
    {
      IssuesNext(scheduled, n);
      issues := issues + IssuesOf(scheduled[n]);
    }
    assert scheduled[..|scheduled|] == scheduled;
  }

  // ----- repair state

  datatype RepairState = Complete | NeedsRecalc | StaleOnly

  function StatusAt(rows: Table, events: Events, program: string, version: string, k: Key): Option<Status> {
    var row := ScopeRow(rows, events, program, version, k);
    if row.None? then None else Some(row.value.status)
  }

  /** Some scheduled (event, channel) has this status. */
  ghost predicate SomeScheduled(rows: Table, events: Events, program: string, version: string,
                                scheduled: seq<EventRow>, series: Series, status: Status)
  {
    exists k {:trigger IsScheduledKey(scheduled, series, k)} ::
      IsScheduledKey(scheduled, series, k) && StatusAt(rows, events, program, version, k) == Some(status)
  }

  ghost predicate AllCurrent(rows: Table, events: Events, program: string, version: string,
                             scheduled: seq<EventRow>, series: Series)
  {
    forall k {:trigger IsScheduledKey(scheduled, series, k)} ::
      IsScheduledKey(scheduled, series, k) ==> StatusAt(rows, events, program, version, k) == Some(Current)
  }

  /** The flags the repair scan keeps. */
  datatype Flags = Flags(hasCurrent: bool, hasStale: bool, hasError: bool, allCurrent: bool) {
    function See(status: Option<Status>): Flags {
      if status == None then this.(allCurrent := false)
      else if status == Some(Current) then this.(hasCurrent := true)
      else if status == Some(Stale) then this.(hasStale := true, allCurrent := false)
      else if status == Some(Error) then this.(hasError := true, allCurrent := false)
      else this.(allCurrent := false)
    }

    function State(): RepairState {
      if allCurrent then Complete
      else if hasError || (hasCurrent && !allCurrent) then NeedsRecalc
      else if hasStale && !hasCurrent && !hasError then StaleOnly
      else NeedsRecalc
    }

    /** The flags say of the statuses seen which of them occurred. */
    ghost predicate Summarize(seen: set<Option<Status>>) {
      && (hasCurrent <==> Some(Current) in seen) && (hasStale <==> Some(Stale) in seen)
      && (hasError <==> Some(Error) in seen) && (allCurrent <==> seen <= {Some(Current)})
    }
  }

  ghost function ScheduledStatuses(rows: Table, events: Events, program: string, version: string,
                                   keys: set<Key>): set<Option<Status>>
  {
    set k | k in keys :: StatusAt(rows, events, program, version, k)
  }

  /** The meaning of a repair state: complete iff every scheduled (event, channel) is current, and
      stale-only iff some are stale, none current and none in error. */
  ghost predicate DescribesScope(state: RepairState, rows: Table, events: Events, program: string, version: string,
                                 scheduled: seq<EventRow>, series: Series)
  {
    && (state == Complete <==> AllCurrent(rows, events, program, version, scheduled, series))
    && (state == StaleOnly <==>
          && SomeScheduled(rows, events, program, version, scheduled, series, Stale)
          && !SomeScheduled(rows, events, program, version, scheduled, series, Current)
          && !SomeScheduled(rows, events, program, version, scheduled, series, Error))
  }

  /** keys are the scheduled (event, channel) pairs. */
  ghost predicate AreScheduledKeys(keys: set<Key>, scheduled: seq<EventRow>, series: Series) {
    forall k :: k in keys <==> IsScheduledKey(scheduled, series, k)
  }

  // ----- eligibility

  const MISSING := "missing_base_damage"
  const ERRONEOUS := "error_base_damage"
  const STALE := "stale_base_damage"

  /** Why a row may not be reused; empty when it may. */
  function Refusal(row: Option<DamageRow>): (r: string)
    ensures r == "" <==> Reusable(row)
  {
    if row.None? || row.value.base.None? then MISSING
    else if row.value.status == Error then ERRONEOUS
    else if Reusable(row) then "" else STALE
  }

  /** The reasons, column by column. */
  lemma RefusalIs(rows: Table, events: Events, program: string, version: string, k: Key)
    ensures var refusal := Refusal(ScopeRow(rows, events, program, version, k));
            if !(&& k in rows && k.event in events && !events[k.event].isDeleted
                 && events[k.event].program == program && events[k.event].version == version)
               || rows[k].base == None then refusal == "missing_base_damage"
            else if rows[k].status == Error then refusal == "error_base_damage"
            else if rows[k].status == Stale && rows[k].staleReason.Some?
                    && rows[k].staleReason.value != "" && rows[k].staleReason.value != "schedule_changed"
            then refusal == "stale_base_damage"
            else refusal == ""
  {}

  lemma StatusAtIs(rows: Table, events: Events, program: string, version: string, k: Key)
    ensures StatusAt(rows, events, program, version, k)
         == if && k in rows && k.event in events && !events[k.event].isDeleted
               && events[k.event].program == program && events[k.event].version == version
            then Some(rows[k].status) else None
  {}

  // ----- decisions

  datatype Decision =
    | NoOp(reason: string)
    | Blocked
    | Started
    | Reused
    | Refused
    | RescaledRows(updated: nat)

  /** Start a damage task, or reuse the latest active derived-data task of the scope if allowed. */
  function StartOrReuse(active: Option<TaskKind>, allowed: set<TaskKind>): Decision {
    if active.Some? && active.value in allowed then Reused else Started
  }

  predicate PreservesStale(rows: Table, events: Events, program: string, version: string) {
    exists k :: k in rows && InScope(events, k.event, program, version)
                && rows[k].status == Stale && rows[k].staleReason == Some(CHANNEL_REPROCESS_REQUIRED)
  }

  /** The damage rows a schedule save leaves before any task runs. */
  ghost function SavedRows(rows: Table, events: Events, program: string, version: string, previous: Option<Preview>,
                           preview: Preview, schedule: Schedule, prerequisitesMet: bool, series: Series): Table
  {
    var scheduled := ScheduledRows(preview.eventRows);
    var change := ScalingOnlyChange(previous, preview);
    if !prerequisitesMet || change.None? then rows
    else if change.value && Eligible(rows, events, program, version, scheduled, series) then
      Rescaled(rows, scheduled, Multiplier(preview), schedule)
    else if PreservesStale(rows, events, program, version) then rows
    else Cleared(rows, events, program, version)
  }

  function DecideAfterReprocess(hasSchedule: bool, repair: RepairState, prerequisitesMet: bool,
                                active: Option<TaskKind>): Decision
  {
    if !hasSchedule then NoOp("no_active_schedule")
    else if repair == Complete then NoOp("damage_current")
    else if !prerequisitesMet then Blocked
    else StartOrReuse(active, {DamageCalculation})
  }

  function DecideAfterInspect(hasSchedule: bool, repair: RepairState, prerequisitesMet: bool,
                              active: Option<TaskKind>): Decision
  {
    if !hasSchedule then NoOp("no_active_schedule")
    else if repair == Complete then NoOp("damage_current")
    else if repair == StaleOnly then NoOp("persisted_damage_exists")
    else if !prerequisitesMet then Blocked
    else StartOrReuse(active, {DamageCalculation})
  }

  const INVALID := "Schedule validation failed"
  const UNEXPECTED := "Damage calculation task failed unexpectedly"

  /** A place in the calculation: behind the first `items` channels of a scheduled row. */
  datatype Place = Place(row: nat, items: nat) {
    predicate IsIn(scheduled: seq<EventRow>, series: Series) {
      row < |scheduled| && items <= |series(scheduled[row].eventId)|
    }
  }

  /** The damage table when the calculation ends at that place. */
  function CalculatedUpTo(rows: Table, scheduled: seq<EventRow>, series: Series, multiplier: real, schedule: Schedule,
                          calculate: Calculator, place: Place): Table
    requires AllScaled(scheduled) && place.IsIn(scheduled, series)
  {
    var er := scheduled[place.row];
    UpsertItems(Recalculated(rows, scheduled[..place.row], series, multiplier, schedule, calculate),
                er, series(er.eventId)[..place.items], multiplier, schedule, calculate)
  }

  /** The (event, channel) pair the scan meets there. */
  function KeyAt(scheduled: seq<EventRow>, series: Series, e: nat, j: nat): Key
    requires e < |scheduled| && j < |series(scheduled[e].eventId)|
  {
    Key(scheduled[e].eventId, series(scheduled[e].eventId)[j].channelKey)
  }

  /** Every row the scan meets before channel m of row n may be reused. */
  ghost predicate ReusableBefore(rows: Table, events: Events, program: string, version: string,
                                 scheduled: seq<EventRow>, series: Series, n: nat, m: nat)
  {
    forall e: nat, j: nat :: e < |scheduled| && j < |series(scheduled[e].eventId)| && (e < n || (e == n && j < m)) ==>
      Reusable(ScopeRow(rows, events, program, version, KeyAt(scheduled, series, e, j)))
  }

  /** The reason is that of the first row met that may not be reused. */
  ghost predicate IsFirstRefusal(rows: Table, events: Events, program: string, version: string,
                                 scheduled: seq<EventRow>, series: Series, n: nat, m: nat, reason: string)
  {
    && n < |scheduled| && m < |series(scheduled[n].eventId)| && reason != ""
    && reason == Refusal(ScopeRow(rows, events, program, version, KeyAt(scheduled, series, n, m)))
    && ReusableBefore(rows, events, program, version, scheduled, series, n, m)
  }

  /** Some damage row of a live event of the scope waits for its channels to be reprocessed. */
  ghost predicate AwaitsReprocess(rows: Table, events: Events, program: string, version: string) {
    exists k :: && k in rows && k.event in events && !events[k.event].isDeleted
                && events[k.event].program == program && events[k.event].version == version
                && rows[k].status == Stale && rows[k].staleReason == Some("channel_reprocess_required")
  }

  lemma PreservesStaleIff(rows: Table, events: Events, program: string, version: string)
    ensures PreservesStale(rows, events, program, version) <==> AwaitsReprocess(rows, events, program, version)
  {
    if PreservesStale(rows, events, program, version) {
      var k :| && k in rows && InScope(events, k.event, program, version)
               && rows[k].status == Stale && rows[k].staleReason == Some(CHANNEL_REPROCESS_REQUIRED);
      assert k.event in events && !events[k.event].isDeleted;
    }
  }

  /** The damage rows a schedule save leaves, by what a caller can look up. */
  lemma SavedRowsAre(rows: Table, events: Events, program: string, version: string, previous: Option<Preview>,
                     preview: Preview, schedule: Schedule, prerequisitesMet: bool, series: Series)
    ensures var scheduled := ScheduledRows(preview.eventRows);
            var change := ScalingOnlyChange(previous, preview);
            SavedRows(rows, events, program, version, previous, preview, schedule, prerequisitesMet, series) ==
              if !prerequisitesMet || change == None then rows
              else if change == Some(true) && Eligible(rows, events, program, version, scheduled, series)
              then Rescaled(rows, scheduled, Multiplier(preview), schedule)
              else if AwaitsReprocess(rows, events, program, version) then rows
              else Cleared(rows, events, program, version)
  {
    PreservesStaleIff(rows, events, program, version);
  }

  /** After a reprocess a damage task is started or reused exactly if there is a schedule whose damage is not
      complete and its prerequisites are met; only a running damage task is reused. */
  lemma ReprocessDecides(hasSchedule: bool, repair: RepairState, prerequisitesMet: bool, active: Option<TaskKind>)
    ensures var decision := DecideAfterReprocess(hasSchedule, repair, prerequisitesMet, active);
            && (decision == NoOp("no_active_schedule") <==> !hasSchedule)
            && (decision == NoOp("damage_current") <==> hasSchedule && repair == Complete)
            && (decision == Blocked <==> hasSchedule && repair != Complete && !prerequisitesMet)
            && (decision == Reused || decision == Started <==> hasSchedule && repair != Complete && prerequisitesMet)
            && (decision == Reused ==> active == Some(DamageCalculation))
            && (decision == Started ==> active != Some(DamageCalculation))
  {}

  /** When damage is inspected, persisted stale damage alone starts nothing. */
  lemma InspectDecides(hasSchedule: bool, repair: RepairState, prerequisitesMet: bool, active: Option<TaskKind>)
    ensures var decision := DecideAfterInspect(hasSchedule, repair, prerequisitesMet, active);
            && (decision == NoOp("no_active_schedule") <==> !hasSchedule)
            && (decision == NoOp("damage_current") <==> hasSchedule && repair == Complete)
            && (decision == NoOp("persisted_damage_exists") <==> hasSchedule && repair == StaleOnly)
            && (decision == Blocked <==> hasSchedule && repair == NeedsRecalc && !prerequisitesMet)
            && (decision == Reused || decision == Started <==> hasSchedule && repair == NeedsRecalc && prerequisitesMet)
            && (decision == Reused ==> active == Some(DamageCalculation))
            && (decision == Started ==> active != Some(DamageCalculation))
  {}

  predicate OnlyTaskChanged(before: map<string, TaskRow>, after: map<string, TaskRow>, taskId: string) {
    after.Keys == before.Keys && forall t :: t in after && t != taskId ==> after[t] == before[t]
  }

  /** The rows the fast path selects. */
  function RescaleKeys(rows: Table, scheduled: seq<EventRow>): set<Key> {
    set k | k in rows && LastRow(scheduled, k.event).Some? && rows[k].base.Some?
  }

  class DamageStore {
    var rows: Table
    var events: Events
    var tasks: map<string, TaskRow>

    constructor (rows: Table, events: Events, tasks: map<string, TaskRow>)
      ensures this.rows == rows && this.events == events && this.tasks == tasks
    {
      this.rows := rows;
      this.events := events;
      this.tasks := tasks;
    }

    method UpsertEventChannelDamage(k: Key, row: DamageRow)
      modifies this`rows
      ensures rows == old(rows)[k := row]
    {
      rows := rows[k := row];
    }

    /** Only rows that are current turn stale, so the first stale reason sticks. */
    method MarkEventChannelDamageStale(program: string, version: string, reason: string) returns (marked: nat)
      modifies this`rows
      ensures rows == MarkedStale(old(rows), events, program, version, reason)
      ensures marked == |CurrentKeys(old(rows), events, program, version)|
      ensures CurrentKeys(rows, events, program, version) == {}
    {
      marked := |CurrentKeys(rows, events, program, version)|;
      rows := MarkedStale(rows, events, program, version, reason);
    }

    method ClearEventChannelDamage(program: string, version: string) returns (cleared: nat)
      modifies this`rows
      ensures rows == Cleared(old(rows), events, program, version)
      ensures |old(rows)| == |rows| + cleared
    {
      var kept := Cleared(rows, events, program, version);
      var gone := set k | k in rows && InScope(events, k.event, program, version);
      assert rows.Keys == kept.Keys + gone;
      cleared := |gone|;
      rows := kept;
    }

    method UpdateUploadTask(taskId: string, change: TaskChange)
      modifies this`tasks
      ensures tasks == if taskId in old(tasks) then old(tasks)[taskId := change.On(old(tasks)[taskId])] else old(tasks)
    {
      if taskId in tasks { tasks := tasks[taskId := change.On(tasks[taskId])]; }
    }

    /** The fast path: every row of a scheduled event that holds a base is rewritten from that base. */
    method RescaleScheduleDamage(schedule: Schedule, preview: Preview) returns (updated: Option<nat>)
      modifies this`rows
      ensures updated.Some? <==> AllScaled(ScheduledRows(preview.eventRows))
      ensures updated.None? ==> rows == old(rows)
      ensures updated.Some? ==>
                && rows == Rescaled(old(rows), ScheduledRows(preview.eventRows), Multiplier(preview), schedule)
                && updated.value == |RescaleKeys(old(rows), ScheduledRows(preview.eventRows))|
    {
      var issues := ValidateScheduleForDamage(preview);
      if issues != [] { return None; }
      var count := RescaleRows(ScheduledRows(preview.eventRows), Multiplier(preview), schedule);
      updated := Some(count);
    }

    method RescaleRows(scheduled: seq<EventRow>, multiplier: real, schedule: Schedule) returns (count: nat)
      requires AllScaled(scheduled)
      modifies this`rows
      ensures rows == Rescaled(old(rows), scheduled, multiplier, schedule)
      ensures count == |RescaleKeys(old(rows), scheduled)|
    {
      var selected := rows;
      var todo := RescaleKeys(selected, scheduled);
      ghost var all, target := todo, Rescaled(selected, scheduled, multiplier, schedule);
      count := 0;
      while todo != {}
        invariant todo <= all && count + |todo| == |all|
        invariant rows == (map k | k in selected :: if k in todo then selected[k] else target[k])
        decreases |todo|
      {
        var k :| k in todo;
        UpsertEventChannelDamage(k, RescaledRow(selected[k], LastRow(scheduled, k.event).value, multiplier, schedule));
        todo := todo - {k};
        count := count + 1;
      }
    }

    /** The slow path: validate, then compute and upsert every channel of every scheduled row. An error may
        come up in any row, after any number of its channels. */
    method RunDamageCalculationTask(taskId: string, schedule: Schedule, preview: Preview, series: Series,
                                    calculate: Calculator, breaks: Option<Place>)
      modifies this`rows, this`tasks
      ensures OnlyTaskChanged(old(tasks), tasks, taskId)
      ensures var scheduled := ScheduledRows(preview.eventRows);
              if !AllScaled(scheduled) then
                && rows == old(rows)
                && (taskId in tasks ==>
                      tasks[taskId] == TaskChange(Some(Failed), None, None, Some(INVALID)).On(old(tasks)[taskId]))
              else if breaks.Some? && breaks.value.IsIn(scheduled, series) then
                && rows == CalculatedUpTo(old(rows), scheduled, series, Multiplier(preview), schedule, calculate,
                                          breaks.value)
                && (taskId in tasks ==>
                      tasks[taskId] == TaskRow(Failed, breaks.value.row, |scheduled|, Some(UNEXPECTED)))
              else
                && rows == Recalculated(old(rows), scheduled, series, Multiplier(preview), schedule, calculate)
                && (taskId in tasks ==>
                      tasks[taskId] == TaskRow(Completed, |scheduled|, |scheduled|, old(tasks)[taskId].error))
    {
      UpdateUploadTask(taskId, TaskChange(Some(Running), None, None, None));
      var issues := ValidateScheduleForDamage(preview);
      if issues != [] {
        UpdateUploadTask(taskId, TaskChange(Some(Failed), None, None, Some(INVALID)));
        return;
      }
      CalculateOrFail(taskId, ScheduledRows(preview.eventRows), Multiplier(preview), schedule, series, calculate, breaks);
    }

    method CalculateOrFail(taskId: string, scheduled: seq<EventRow>, multiplier: real, schedule: Schedule,
                           series: Series, calculate: Calculator, breaks: Option<Place>)
      requires AllScaled(scheduled)
      modifies this`rows, this`tasks
      ensures OnlyTaskChanged(old(tasks), tasks, taskId)
      ensures if breaks.Some? && breaks.value.IsIn(scheduled, series) then
                && rows == CalculatedUpTo(old(rows), scheduled, series, multiplier, schedule, calculate, breaks.value)
                && (taskId in tasks ==>
                      tasks[taskId] == TaskRow(Failed, breaks.value.row, |scheduled|, Some(UNEXPECTED)))
              else
                && rows == Recalculated(old(rows), scheduled, series, multiplier, schedule, calculate)
                && (taskId in tasks ==>
                      tasks[taskId] == TaskRow(Completed, |scheduled|, |scheduled|, old(tasks)[taskId].error))
    {
      var broke := CalculateEvents(taskId, scheduled, multiplier, schedule, series, calculate, breaks);
      if broke { UpdateUploadTask(taskId, TaskChange(Some(Failed), None, None, Some(UNEXPECTED))); }
    }

    method CalculateEvents(taskId: string, scheduled: seq<EventRow>, multiplier: real, schedule: Schedule,
                           series: Series, calculate: Calculator, breaks: Option<Place>)
        returns (broke: bool)
      requires AllScaled(scheduled)
      modifies this`rows, this`tasks
      ensures OnlyTaskChanged(old(tasks), tasks, taskId)
      ensures broke <==> breaks.Some? && breaks.value.IsIn(scheduled, series)
      ensures broke ==>
                && rows == CalculatedUpTo(old(rows), scheduled, series, multiplier, schedule, calculate, breaks.value)
                && (taskId in tasks ==>
                      tasks[taskId]
                      == TaskRow(old(tasks)[taskId].status, breaks.value.row, |scheduled|, old(tasks)[taskId].error))
      ensures !broke ==>
                && rows == Recalculated(old(rows), scheduled, series, multiplier, schedule, calculate)
                && (taskId in tasks ==>
                      tasks[taskId] == TaskRow(Completed, |scheduled|, |scheduled|, old(tasks)[taskId].error))
    {
      var completed := 0;
      UpdateUploadTask(taskId, TaskChange(None, Some(0), Some(|scheduled|), None));
      while completed < |scheduled|
        invariant 0 <= completed <= |scheduled|
        invariant OnlyTaskChanged(old(tasks), tasks, taskId)
        invariant taskId in tasks ==>
                    tasks[taskId] == TaskRow(old(tasks)[taskId].status, completed, |scheduled|, old(tasks)[taskId].error)
        invariant breaks.Some? && breaks.value.IsIn(scheduled, series) ==> completed <= breaks.value.row
        invariant rows == Recalculated(old(rows), scheduled[..completed], series, multiplier, schedule, calculate)
      {
        var er := scheduled[completed];
        var items := series(er.eventId);
        if breaks.Some? && breaks.value.row == completed && breaks.value.items <= |items| {
          CalculateEvent(er, items[..breaks.value.items], multiplier, schedule, calculate);
          return true;
        }
        assert scheduled[..completed + 1][..completed] == scheduled[..completed];
        CalculateEvent(er, items, multiplier, schedule, calculate);
        completed := completed + 1;
        UpdateUploadTask(taskId, TaskChange(None, Some(completed), None, None));
      }
      assert scheduled[..|scheduled|] == scheduled;
      UpdateUploadTask(taskId, TaskChange(Some(Completed), Some(completed), Some(|scheduled|), None));
      return false;
    }

    method CalculateEvent(er: EventRow, items: seq<SeriesItem>, multiplier: real, schedule: Schedule,
                          calculate: Calculator)
      requires HasScaling(er)
      modifies this`rows
      ensures rows == UpsertItems(old(rows), er, items, multiplier, schedule, calculate)
    {
      for n := 0 to |items|
        invariant rows == UpsertItems(old(rows), er, items[..n], multiplier, schedule, calculate)
      {
        assert items[..n + 1][..n] == items[..n];
        UpsertEventChannelDamage(Key(er.eventId, items[n].channelKey),
                                 ComputedRow(er, items[n], multiplier, schedule, calculate));
      }
      assert items[..|items|] == items;
    }

    /** Scans the scheduled channels in order and stops at the first row that cannot be reused. */
    method AssessRescaleEligibility(program: string, version: string, preview: Preview, series: Series)
        returns (eligible: bool, reason: string)
      ensures eligible <==> Eligible(rows, events, program, version, ScheduledRows(preview.eventRows), series)
      ensures eligible <==> reason == ""
      ensures !eligible ==> exists n: nat, m: nat :: IsFirstRefusal(rows, events, program, version,
                                                        ScheduledRows(preview.eventRows), series, n, m, reason)
    {
      var scheduled := ScheduledRows(preview.eventRows);
      for n := 0 to |scheduled|
        invariant ReusableBefore(rows, events, program, version, scheduled, series, n, 0)
      {
        var items := series(scheduled[n].eventId);
        for m := 0 to |items|
          invariant ReusableBefore(rows, events, program, version, scheduled, series, n, m)
        {
          var k := KeyAt(scheduled, series, n, m);
          reason := Refusal(ScopeRow(rows, events, program, version, k));
          if reason != "" {
            LoopKeyIsScheduled(scheduled, series, n, m);
            assert IsFirstRefusal(rows, events, program, version, scheduled, series, n, m, reason);
            return false, reason;
          }
        }
      }
      forall k | IsScheduledKey(scheduled, series, k)
        ensures Reusable(ScopeRow(rows, events, program, version, k))
      {
        var e, j := ScheduledKeyIndex(scheduled, series, k);
        assert k == KeyAt(scheduled, series, e, j);
      }
      return true, "";
    }

    /** Folds the statuses of all scheduled channels into the scope's repair state. */
    method AssessScopeDamageRepairState(program: string, version: string, preview: Preview, series: Series)
        returns (state: RepairState)
      ensures DescribesScope(state, rows, events, program, version, ScheduledRows(preview.eventRows), series)
    {
      var scheduled := ScheduledRows(preview.eventRows);
      if scheduled == [] { return Complete; }
      state := ScanScope(program, version, scheduled, series);
    }

    method ScanScope(program: string, version: string, scheduled: seq<EventRow>, series: Series)
        returns (state: RepairState)
      ensures DescribesScope(state, rows, events, program, version, scheduled, series)
    {
      var flags := Flags(false, false, false, true);
      ghost var keys: set<Key> := {};
      ghost var seen: set<Option<Status>> := {};
      for n := 0 to |scheduled|
        invariant flags.Summarize(seen) && seen == ScheduledStatuses(rows, events, program, version, keys)
        invariant AreScheduledKeys(keys, scheduled[..n], series)
      {
        assert scheduled[..n + 1][..n] == scheduled[..n];
        ghost var before := keys;
        flags, seen, keys := ScanEvent(program, version, scheduled[n].eventId, series, flags, seen, keys);
        ScheduledKeysGrow(scheduled[..n + 1], series, before, keys);
      }
      assert scheduled[..|scheduled|] == scheduled;
      RepairStateMeans(flags, rows, events, program, version, scheduled, series, keys);
      return flags.State();
    }

    method ScanEvent(program: string, version: string, event: string, series: Series, before: Flags,
                     ghost seenBefore: set<Option<Status>>, ghost keysBefore: set<Key>)
        returns (flags: Flags, ghost seen: set<Option<Status>>, ghost keys: set<Key>)
      requires before.Summarize(seenBefore)
      requires seenBefore == ScheduledStatuses(rows, events, program, version, keysBefore)
      ensures flags.Summarize(seen) && seen == ScheduledStatuses(rows, events, program, version, keys)
      ensures forall k :: k in keys <==>
                k in keysBefore || (k.event == event && LastItem(series(event), k.channel).Some?)
    {
      var items := series(event);
      flags, seen, keys := before, seenBefore, keysBefore;
      for m := 0 to |items|
        invariant flags.Summarize(seen) && seen == ScheduledStatuses(rows, events, program, version, keys)
        invariant forall k :: k in keys <==>
                    k in keysBefore || (k.event == event && LastItem(items[..m], k.channel).Some?)
      {
        var k := Key(event, items[m].channelKey);
        var status := StatusAt(rows, events, program, version, k);
        LastItemGrows(items, m);
        StatusesGrow(rows, events, program, version, keys, k);
        SeeSummarizes(flags, seen, status);
        flags, seen, keys := flags.See(status), seen + {status}, keys + {k};
      }
      assert items[..|items|] == items;
    }

    /** After a schedule has been saved: rescale when only scaling changed and every base is reusable,
        otherwise clear what need not stay visible and recalculate, unless an exclusive operation refuses the
        start, which is only looked at then. None is the unhandled failure on a
        blank repeats or weight while comparing scaling. */
    method DecideAfterScheduleSave(program: string, version: string, schedule: Schedule, preview: Preview,
                                   previous: Option<Preview>, prerequisitesMet: bool, series: Series,
                                   active: Option<TaskKind>, admitted: bool)
        returns (decision: Option<Decision>)
      modifies this`rows
      ensures rows == SavedRows(old(rows), events, program, version, previous, preview, schedule,
                                prerequisitesMet, series)
      ensures decision == Some(Blocked) <==> !prerequisitesMet
      ensures decision.None? <==>
                && prerequisitesMet && previous.Some?
                && var before, after := ScheduledRows(previous.value.eventRows), ScheduledRows(preview.eventRows);
                   SameMatching(before, after) && (!AllScaled(before) || !AllScaled(after))
      ensures decision.Some? && decision.value.RescaledRows? <==>
                && prerequisitesMet && ScalingOnlyChange(previous, preview) == Some(true)
                && Eligible(old(rows), events, program, version, ScheduledRows(preview.eventRows), series)
      ensures decision.Some? && prerequisitesMet && !decision.value.RescaledRows? ==>
                decision == Some(if !admitted then Refused
                                 else if active == Some(ChannelReprocess) || active == Some(DamageCalculation)
                                 then Reused else Started)
    {
      if previous.Some? {
        MatchingEqualIff(ScheduledRows(previous.value.eventRows), ScheduledRows(preview.eventRows));
      }
      if !prerequisitesMet { return Some(Blocked); }
      var change := ScalingOnlyChange(previous, preview);
      if change.None? { return None; }
      if change.value {
        var eligible, _ := AssessRescaleEligibility(program, version, preview, series);
        if eligible {
          var updated := RescaleScheduleDamage(schedule, preview);
          return Some(RescaledRows(updated.value));
        }
      }
      if !PreservesStale(rows, events, program, version) {
        var _ := ClearEventChannelDamage(program, version);
      }
      if !admitted { return Some(Refused); }
      return Some(StartOrReuse(active, {ChannelReprocess, DamageCalculation}));
    }
  }

  // ----- scheduled keys and loop positions

  lemma StatusesGrow(rows: Table, events: Events, program: string, version: string, keys: set<Key>, k: Key)
    ensures ScheduledStatuses(rows, events, program, version, keys + {k})
         == ScheduledStatuses(rows, events, program, version, keys) + {StatusAt(rows, events, program, version, k)}
  {}

  lemma SeeSummarizes(flags: Flags, seen: set<Option<Status>>, status: Option<Status>)
    requires flags.Summarize(seen)
    ensures flags.See(status).Summarize(seen + {status})
  {}

  lemma LastItemGrows(items: seq<SeriesItem>, m: nat)
    requires m < |items|
    ensures forall channel :: LastItem(items[..m + 1], channel).Some?
              <==> LastItem(items[..m], channel).Some? || channel == items[m].channelKey
  {
    assert items[..m + 1][..m] == items[..m];
  }

  lemma ScheduledKeysGrow(scheduled: seq<EventRow>, series: Series, before: set<Key>, after: set<Key>)
    requires scheduled != [] && AreScheduledKeys(before, scheduled[..|scheduled| - 1], series)
    requires var event := scheduled[|scheduled| - 1].eventId;
             forall k :: k in after <==> k in before || (k.event == event && LastItem(series(event), k.channel).Some?)
    ensures AreScheduledKeys(after, scheduled, series)
  {}

  /** The flags of all scheduled statuses decide the repair state as stated over the schedule. */
  lemma RepairStateMeans(flags: Flags, rows: Table, events: Events, program: string, version: string,
                         scheduled: seq<EventRow>, series: Series, keys: set<Key>)
    requires AreScheduledKeys(keys, scheduled, series)
    requires flags.Summarize(ScheduledStatuses(rows, events, program, version, keys))
    ensures DescribesScope(flags.State(), rows, events, program, version, scheduled, series)
  {
    var seen := ScheduledStatuses(rows, events, program, version, keys);
    forall status ensures Some(status) in seen <==>
      SomeScheduled(rows, events, program, version, scheduled, series, status) {}
    assert seen <= {Some(Current)} <==> AllCurrent(rows, events, program, version, scheduled, series) by {
      if AllCurrent(rows, events, program, version, scheduled, series) {
        forall status | status in seen ensures status == Some(Current) {}
      } else {
        var k :| IsScheduledKey(scheduled, series, k) && StatusAt(rows, events, program, version, k) != Some(Current);
        assert StatusAt(rows, events, program, version, k) in seen;
      }
    }
    // SomeScheduled(Stale) rules out AllCurrent.
    assert Some(Stale) in seen ==> !(seen <= {Some(Current)});
  }

  lemma LoopKeyIsScheduled(scheduled: seq<EventRow>, series: Series, n: nat, m: nat)
    requires n < |scheduled| && m < |series(scheduled[n].eventId)|
    ensures IsScheduledKey(scheduled, series,
                           Key(scheduled[n].eventId, series(scheduled[n].eventId)[m].channelKey))
  {}

  lemma ScheduledKeyIndex(scheduled: seq<EventRow>, series: Series, k: Key) returns (e: nat, j: nat)
    requires IsScheduledKey(scheduled, series, k)
    ensures e < |scheduled| && j < |series(scheduled[e].eventId)|
    ensures k == Key(scheduled[e].eventId, series(scheduled[e].eventId)[j].channelKey)
  {
    var er := LastRow(scheduled, k.event).value;
    var item := LastItem(series(k.event), k.channel).value;
    e :| 0 <= e < |scheduled| && scheduled[e] == er;
    j :| 0 <= j < |series(k.event)| && series(k.event)[j] == item;
  }
}
