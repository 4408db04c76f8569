/** What every run of schedule saves, channel-map changes and recalculations keeps of the damage table. */
module DamageLifecycle {
  import opened Options
  import opened DamageModel
  import opened DamageStore
  import opened TaskKinds

  /** A row holds a base exactly when it is current or stale, its scheduled value is its base under the
      scaling stored beside it, and it carries a stale reason exactly when it is stale. */
  ghost predicate WellFormed(row: DamageRow) {
    && (row.base.Some? <==> row.status == Current || row.status == Stale)
    && (row.staleReason.Some? <==> row.status == Stale)
    && (if row.base.Some? then
          && row.repeats.Some? && row.weight.Some? && row.multiplier.Some?
          && row.scheduled
             == Some(Product(row.base.value, row.repeats.value, row.weight.value, row.multiplier.value))
        else row.scheduled.None?)
  }

  /** Every row is well formed and belongs to one of the fixed damage channels. */
  ghost predicate TableWellFormed(rows: Table, channels: seq<string>) {
    forall k :: k in rows ==> k.channel in channels && WellFormed(rows[k])
  }

  /** The row was stale for a channel-map change and has not been recalculated since. */
  predicate Stamped(rows: Table, k: Key) {
    k in rows && rows[k].status == Stale && rows[k].staleReason == Some("channel_reprocess_required")
  }

  /** The query service lists the fixed channels for every known event, whatever the channel map says,
      and nothing for others. */
  ghost predicate SeriesFits(series: Series, events: Events, channels: seq<string>) {
    forall e ::
      if e in events then
        && |series(e)| == |channels|
        && forall j :: 0 <= j < |channels| ==> series(e)[j].channelKey == channels[j]
      else series(e) == []
  }

  datatype World = World(rows: Table, events: Events, channels: seq<string>)

  type TaskId = nat

  /** A damage task reads an event's series at once and then stores its channels one by one. Only a reprocess
      marks damage stale when it changes the channel map; a folder upload replaces the map, and the deletion
      of a scope drops it, without touching damage rows. */
  datatype Step =
    | ChannelMapChanged(program: string, version: string)
    | ChannelMapReplaced(program: string, version: string)
    | ScopeDeleted(program: string, which: Option<string>)
    | ScheduleSaved(program: string, version: string, previous: Option<Preview>, preview: Preview,
                    schedule: Schedule, prerequisitesMet: bool, series: Series)
    | SeriesRead(task: TaskId, event: string)
    | TaskEnds(task: TaskId)
    | ChannelRecalculated(task: TaskId, er: EventRow, item: SeriesItem, multiplier: real, schedule: Schedule,
                          calculate: Calculator)
    | EventsReplaced(events: Events)

  predicate Covers(program: string, version: Option<string>, scope: (string, string)) {
    scope.0 == program && (version.None? || scope.1 == version.value)
  }

  /** The events left by the deletion of a scope, or of all of a program's: those deleted softly before stay. */
  function WithoutScope(events: Events, program: string, version: Option<string>): Events {
    map e | e in events && (events[e].isDeleted || !Covers(program, version, (events[e].program, events[e].version)))
      :: events[e]
  }

  lemma WithoutScopeIs(events: Events, program: string, version: Option<string>, e: string)
    ensures var left := WithoutScope(events, program, version);
            && (e in left <==>
                  e in events && (events[e].isDeleted || events[e].program != program
                                  || (version.Some? && version.value != events[e].version)))
            && (e in left ==> left[e] == events[e])
  {}

  /** Saved rows name live events of the scope; the task only sees rows of a validated schedule. */
  ghost predicate Enabled(w: World, step: Step) {
    match step
    case ScheduleSaved(program, version, _, preview, _, _, series) =>
      && SeriesFits(series, w.events, w.channels)
      && forall er :: er in preview.eventRows ==> InScope(w.events, er.eventId, program, version)
    case ChannelRecalculated(_, er, item, _, _, _) => HasScaling(er) && item.channelKey in w.channels
    case _ => true
  }

  ghost function Apply(w: World, step: Step): World
    requires Enabled(w, step)
  {
    match step
    case ChannelMapChanged(program, version) =>
      w.(rows := MarkedStale(w.rows, w.events, program, version, CHANNEL_REPROCESS_REQUIRED))
    case ScheduleSaved(program, version, previous, preview, schedule, prerequisitesMet, series) =>
      var marked := MarkedStale(w.rows, w.events, program, version, SCHEDULE_CHANGED);
      w.(rows := SavedRows(marked, w.events, program, version, previous, preview, schedule, prerequisitesMet, series))
    case ScopeDeleted(program, version) => w.(events := WithoutScope(w.events, program, version))
    case ChannelRecalculated(_, er, item, multiplier, schedule, calculate) =>
      w.(rows := w.rows[Key(er.eventId, item.channelKey) := ComputedRow(er, item, multiplier, schedule, calculate)])
    case EventsReplaced(events) => w.(events := events)
    case _ => w
  }

  /** A channel-map change leaves every current row of a live event of its scope stale, a schedule save without
      its prerequisites does so with its own reason, and both leave all other rows alone. */
  lemma ChangesMark(w: World, step: Step, k: Key)
    requires Enabled(w, step) && k in w.rows
    requires step.ChannelMapChanged? || (step.ScheduleSaved? && !step.prerequisitesMet)
    ensures k in Apply(w, step).rows
    ensures Apply(w, step).rows[k] ==
              if k.event in w.events && w.events[k.event] == Event(step.program, step.version, false)
                 && w.rows[k].status == Current
              then w.rows[k].(status := Stale, staleReason := Some(if step.ScheduleSaved? then "schedule_changed"
                                                                   else "channel_reprocess_required"))
              else w.rows[k]
  {}

  ghost predicate IsRun(w: World, steps: seq<Step>)
    decreases |steps|
  {
    steps == [] || (Enabled(w, steps[0]) && IsRun(Apply(w, steps[0]), steps[1..]))
  }

  ghost function After(w: World, steps: seq<Step>): World
    requires IsRun(w, steps)
    decreases |steps|
  {
    if steps == [] then w else After(Apply(w, steps[0]), steps[1..])
  }

  predicate Recalculates(step: Step, k: Key) {
    step.ChannelRecalculated? && k == Key(step.er.eventId, step.item.channelKey)
  }

  // ----- rows stay well formed

  lemma RescaledRowWellFormed(row: DamageRow, er: EventRow, multiplier: real, schedule: Schedule)
    requires HasScaling(er) && row.base.Some?
    ensures WellFormed(RescaledRow(row, er, multiplier, schedule))
  {
    ScheduledDamageIs(row.base.value, er.repeats.value, er.weight.value, multiplier);
  }

  lemma ComputedRowWellFormed(er: EventRow, item: SeriesItem, multiplier: real, schedule: Schedule,
                              calculate: Calculator)
    requires HasScaling(er)
    ensures WellFormed(ComputedRow(er, item, multiplier, schedule, calculate))
  {
    if calculate(item).damage.Some? {
      ScheduledDamageIs(calculate(item).damage.value, er.repeats.value, er.weight.value, multiplier);
    }
  }

  lemma RescaleKeepsWellFormed(rows: Table, scheduled: seq<EventRow>, multiplier: real, schedule: Schedule,
                               channels: seq<string>)
    requires AllScaled(scheduled) && TableWellFormed(rows, channels)
    ensures TableWellFormed(Rescaled(rows, scheduled, multiplier, schedule), channels)
  {
    var after := Rescaled(rows, scheduled, multiplier, schedule);
    forall k | k in after ensures k.channel in channels && WellFormed(after[k]) {
      if LastRow(scheduled, k.event).Some? && rows[k].base.Some? {
        RescaledRowWellFormed(rows[k], LastRow(scheduled, k.event).value, multiplier, schedule);
      }
    }
  }

  lemma MarkKeepsWellFormed(rows: Table, events: Events, program: string, version: string, reason: string,
                            channels: seq<string>)
    requires TableWellFormed(rows, channels)
    ensures TableWellFormed(MarkedStale(rows, events, program, version, reason), channels)
  {}

  lemma SaveKeepsWellFormed(w: World, step: Step)
    requires Enabled(w, step) && step.ScheduleSaved? && TableWellFormed(w.rows, w.channels)
    ensures TableWellFormed(Apply(w, step).rows, w.channels)
  {
    var marked := MarkedStale(w.rows, w.events, step.program, step.version, SCHEDULE_CHANGED);
    var scheduled := ScheduledRows(step.preview.eventRows);
    MarkKeepsWellFormed(w.rows, w.events, step.program, step.version, SCHEDULE_CHANGED, w.channels);
    if AllScaled(scheduled) {
      RescaleKeepsWellFormed(marked, scheduled, Multiplier(step.preview), step.schedule, w.channels);
    }
  }

  lemma StepKeepsWellFormed(w: World, step: Step)
    requires Enabled(w, step) && TableWellFormed(w.rows, w.channels)
    ensures TableWellFormed(Apply(w, step).rows, w.channels)
  {
    match step
    case ScheduleSaved(_, _, _, _, _, _, _) => SaveKeepsWellFormed(w, step);
    case ChannelRecalculated(_, er, item, multiplier, schedule, calculate) =>
      ComputedRowWellFormed(er, item, multiplier, schedule, calculate);
    case _ =>
  }

  /** In every reachable table each row is well formed. */
  lemma {:induction false} RunKeepsWellFormed(w: World, steps: seq<Step>)
    requires IsRun(w, steps) && TableWellFormed(w.rows, w.channels)
    ensures TableWellFormed(After(w, steps).rows, w.channels)
    decreases |steps|
  {
    if steps != [] {
      StepKeepsWellFormed(w, steps[0]);
      RunKeepsWellFormed(Apply(w, steps[0]), steps[1..]);
    }
  }

  // ----- the channel-map stamp is only lifted by recalculating the row

  lemma LiveEventListsChannel(scheduled: seq<EventRow>, series: Series, events: Events, channels: seq<string>, k: Key)
    requires SeriesFits(series, events, channels) && k.event in events && k.channel in channels
    requires LastRow(scheduled, k.event).Some?
    ensures IsScheduledKey(scheduled, series, k)
  {
    var j :| 0 <= j < |channels| && channels[j] == k.channel;
    assert series(k.event)[j].channelKey == k.channel;
  }

  lemma EligibleSkipsStamped(rows: Table, events: Events, program: string, version: string,
                             scheduled: seq<EventRow>, series: Series, k: Key)
    requires Eligible(rows, events, program, version, scheduled, series) && Stamped(rows, k)
    ensures !IsScheduledKey(scheduled, series, k)
  {}

  lemma SaveKeepsStamp(w: World, step: Step, k: Key)
    requires Enabled(w, step) && step.ScheduleSaved? && TableWellFormed(w.rows, w.channels) && Stamped(w.rows, k)
    ensures k in Apply(w, step).rows ==> Stamped(Apply(w, step).rows, k)
  {
    var marked := MarkedStale(w.rows, w.events, step.program, step.version, SCHEDULE_CHANGED);
    var scheduled := ScheduledRows(step.preview.eventRows);
    assert marked[k] == w.rows[k];
    if Eligible(marked, w.events, step.program, step.version, scheduled, step.series) {
      EligibleSkipsStamped(marked, w.events, step.program, step.version, scheduled, step.series, k);
      if LastRow(scheduled, k.event).Some? {
        LiveEventListsChannel(scheduled, step.series, w.events, w.channels, k);
        assert false;
      }
    }
  }

  lemma StepKeepsStamp(w: World, step: Step, k: Key)
    requires Enabled(w, step) && TableWellFormed(w.rows, w.channels) && Stamped(w.rows, k) && !Recalculates(step, k)
    ensures k in Apply(w, step).rows ==> Stamped(Apply(w, step).rows, k)
  {
    if step.ScheduleSaved? { SaveKeepsStamp(w, step, k); }
  }

  lemma {:induction false} RunKeepsStamp(w: World, steps: seq<Step>, k: Key)
    requires IsRun(w, steps) && TableWellFormed(w.rows, w.channels)
    requires k !in w.rows || Stamped(w.rows, k)
    requires forall i :: 0 <= i < |steps| ==> !Recalculates(steps[i], k)
    ensures k in After(w, steps).rows ==> Stamped(After(w, steps).rows, k)
    decreases |steps|
  {
    if steps != [] {
      StepKeepsWellFormed(w, steps[0]);
      if k in w.rows {
        StepKeepsStamp(w, steps[0], k);
      } else {
        StepAddsOnlyRecalculated(w, steps[0], k);
      }
      RunKeepsStamp(Apply(w, steps[0]), steps[1..], k);
    }
  }

  lemma StepAddsOnlyRecalculated(w: World, step: Step, k: Key)
    requires Enabled(w, step) && k !in w.rows && !Recalculates(step, k)
    ensures k !in Apply(w, step).rows
  {}

  /** A row stamped by a channel-map change is current again only if it was recalculated in between. */
  lemma CurrentAgainOnlyByRecalculation(w: World, steps: seq<Step>, k: Key)
    requires IsRun(w, steps) && TableWellFormed(w.rows, w.channels) && Stamped(w.rows, k)
    requires k in After(w, steps).rows && After(w, steps).rows[k].status == Current
    ensures exists i :: 0 <= i < |steps| && Recalculates(steps[i], k)
  {
    if forall i :: 0 <= i < |steps| ==> !Recalculates(steps[i], k) {
      RunKeepsStamp(w, steps, k);
    }
  }

  /** On its own, without a save's check that events are live, the eligible fast path makes a stamped
      row current exactly when its event is scheduled but the row's channel is no longer listed, as for
      an event purged from the database. */
  lemma RescaleRevivesOnlyUnlisted(rows: Table, events: Events, program: string, version: string,
                                   scheduled: seq<EventRow>, series: Series, multiplier: real, schedule: Schedule,
                                   k: Key)
    requires AllScaled(scheduled) && Stamped(rows, k) && rows[k].base.Some?
    requires Eligible(rows, events, program, version, scheduled, series)
    ensures Rescaled(rows, scheduled, multiplier, schedule)[k].status == Current
       <==> LastRow(scheduled, k.event).Some? && LastItem(series(k.event), k.channel).None?
  {
    EligibleSkipsStamped(rows, events, program, version, scheduled, series, k);
  }

  /** A purged event's stamped row is such a case. */
  lemma PurgedEventRevives(k: Key, channels: seq<string>)
    requires k.channel in channels
    ensures exists rows: Table, scheduled: seq<EventRow>, series: Series ::
              && TableWellFormed(rows, channels) && AllScaled(scheduled) && Stamped(rows, k)
              && SeriesFits(series, map[], channels) && Eligible(rows, map[], "P", "V", scheduled, series)
              && Rescaled(rows, scheduled, 1.0, Schedule(1, "s"))[k].status == Current
  {
    var row := DamageRow("c", None, Some(1.0), Some(1.0), Some(1), Some(1.0), Some(1.0), Some(1), Some("s"),
                         Stale, Some(CHANNEL_REPROCESS_REQUIRED), None);
    var rows: Table := map[k := row];
    var scheduled := [EventRow(k.event, "p", Some(1), Some(1.0))];
    var series: Series := e => [];
    assert ScheduledDamage(1.0, 1, 1.0, 1.0) == 1.0;
    assert Stamped(rows, k) && TableWellFormed(rows, channels);
    assert LastRow(scheduled, k.event) == Some(scheduled[0]);
    assert Eligible(rows, map[], "P", "V", scheduled, series) by {
      forall j ensures !IsScheduledKey(scheduled, series, j) {}
    }
    assert Rescaled(rows, scheduled, 1.0, Schedule(1, "s"))[k].status == Current;
  }

  // ----- a full recalculation settles the scope

  /** After a recalculation the scope is complete exactly when every scheduled event is live in the
      scope and every one of its channels calculates; then both follow-up decisions do nothing. */
  lemma RecalculationIsFixpoint(rows: Table, events: Events, program: string, version: string,
                                scheduled: seq<EventRow>, series: Series, multiplier: real, schedule: Schedule,
                                calculate: Calculator, state: RepairState, prerequisitesMet: bool,
                                active: Option<TaskKind>)
    requires AllScaled(scheduled)
    requires DescribesScope(state, Recalculated(rows, scheduled, series, multiplier, schedule, calculate),
                            events, program, version, scheduled, series)
    ensures state == Complete <==>
              forall k {:trigger IsScheduledKey(scheduled, series, k)} :: IsScheduledKey(scheduled, series, k) ==>
                var item := LastItem(series(k.event), k.channel).value;
                && InScope(events, k.event, program, version)
                && !item.unavailable && calculate(item).ok && calculate(item).damage.Some?
    ensures state == Complete ==>
              && DecideAfterReprocess(true, state, prerequisitesMet, active) == NoOp("damage_current")
              && DecideAfterInspect(true, state, prerequisitesMet, active) == NoOp("damage_current")
  {
    var after := Recalculated(rows, scheduled, series, multiplier, schedule, calculate);
    forall k | IsScheduledKey(scheduled, series, k)
      ensures StatusAt(after, events, program, version, k) == Some(Current) <==>
                var item := LastItem(series(k.event), k.channel).value;
                && InScope(events, k.event, program, version)
                && !item.unavailable && calculate(item).ok && calculate(item).damage.Some?
    {
      RecalculatedAt(rows, scheduled, series, multiplier, schedule, calculate, k);
    }
  }

  // ----- is a reusable base from the newest channel map?

  type Scope = (string, string)

  /** A version of a scope's channel map. */
  datatype MapVersion = MapVersion(scope: Scope, count: nat)

  /** A series that a task has read and is storing: of which event, under which map. */
  datatype Reading = Reading(event: string, under: MapVersion)

  /** A world that remembers how often each scope's channel map changed, what each task has read, and per row
      under which map the series of its base was read. */
  datatype Traced = Traced(w: World, changes: Scope -> nat, readings: map<TaskId, Reading>, baseMap: map<Key, MapVersion>)

  function NewestMap(t: Traced, events: Events, event: string): MapVersion
    requires event in events
  {
    var scope := (events[event].program, events[event].version);
    MapVersion(scope, t.changes(scope))
  }

  predicate Live(events: Events, event: string) {
    event in events && !events[event].isDeleted
  }

  /** Under these events the row's base is from the newest map of its event's scope. */
  predicate FreshUnder(t: Traced, events: Events, k: Key)
    requires k.event in events
  {
    k in t.baseMap && t.baseMap[k] == NewestMap(t, events, k.event)
  }

  predicate Fresh(t: Traced, k: Key)
    requires k.event in t.w.events
  {
    FreshUnder(t, t.w.events, k)
  }

  /** A row that a rescale of its event could reuse, as far as the table alone can tell. */
  predicate Usable(rows: Table, k: Key) {
    k in rows && rows[k].base.Some? && !Stamped(rows, k)
  }

  /** Every base that a rescale could reuse was calculated under its scope's newest map. */
  ghost predicate UsableIsFresh(t: Traced) {
    forall k :: Usable(t.w.rows, k) && Live(t.w.events, k.event) ==> Fresh(t, k)
  }

  /** A task stores only channels of the event whose series it has read. */
  ghost predicate CanTrace(t: Traced, step: Step) {
    && Enabled(t.w, step)
    && (step.ChannelRecalculated? ==> step.task in t.readings && t.readings[step.task].event == step.er.eventId)
  }

  function ChangedOnce(changes: Scope -> nat, program: string, version: Option<string>): Scope -> nat {
    scope => if Covers(program, version, scope) then changes(scope) + 1 else changes(scope)
  }

  /** The series of an unknown event is empty, so there is nothing to store of it. */
  ghost function Trace(t: Traced, step: Step): Traced
    requires CanTrace(t, step)
  {
    var next := t.(w := Apply(t.w, step));
    match step
    case ChannelMapChanged(program, version) => next.(changes := ChangedOnce(t.changes, program, Some(version)))
    case ChannelMapReplaced(program, version) => next.(changes := ChangedOnce(t.changes, program, Some(version)))
    case ScopeDeleted(program, version) => next.(changes := ChangedOnce(t.changes, program, version))
    case SeriesRead(task, event) =>
      next.(readings := if event in t.w.events then t.readings[task := Reading(event, NewestMap(t, t.w.events, event))]
                     else t.readings - {task})
    case TaskEnds(task) => next.(readings := t.readings - {task})
    case ChannelRecalculated(task, er, item, _, _, _) =>
      next.(baseMap := t.baseMap[Key(er.eventId, item.channelKey) := t.readings[task].under])
    case _ => next
  }

  /** No live row of the scope is stale for another reason while it still holds a base. */
  ghost predicate NothingElseStale(w: World, program: string, version: string) {
    forall k :: Usable(w.rows, k) && InScope(w.events, k.event, program, version) ==> w.rows[k].status == Current
  }

  /** A channel-map change keeps every reusable base fresh exactly when nothing in the scope is stale
      for another reason: the first stale reason sticks, so a row already stale for a schedule change
      keeps looking reusable. */
  lemma MapChangeKeepsFreshIff(t: Traced, program: string, version: string)
    requires TableWellFormed(t.w.rows, t.w.channels) && UsableIsFresh(t)
    ensures UsableIsFresh(Trace(t, ChannelMapChanged(program, version)))
       <==> NothingElseStale(t.w, program, version)
  {
    var after := Trace(t, ChannelMapChanged(program, version));
    if NothingElseStale(t.w, program, version) {
      forall k | Usable(after.w.rows, k) && Live(after.w.events, k.event) ensures Fresh(after, k) {
        assert Fresh(t, k);
        assert !InScope(t.w.events, k.event, program, version);
      }
    } else {
      var k :| Usable(t.w.rows, k) && InScope(t.w.events, k.event, program, version)
               && t.w.rows[k].status != Current;
      assert Fresh(t, k) && after.w.rows[k] == t.w.rows[k];
      assert !Fresh(after, k);
    }
  }

  /** The scope has no live row that a rescale could reuse. */
  ghost predicate NothingUsable(w: World, program: string, version: string) {
    forall k :: Usable(w.rows, k) ==> !InScope(w.events, k.event, program, version)
  }

  /** A map that is replaced without marking rows keeps every reusable base fresh exactly when there is none
      in the scope. */
  lemma MapReplacedKeepsFreshIff(t: Traced, program: string, version: string)
    requires UsableIsFresh(t)
    ensures UsableIsFresh(Trace(t, ChannelMapReplaced(program, version))) <==> NothingUsable(t.w, program, version)
  {
    var after := Trace(t, ChannelMapReplaced(program, version));
    if NothingUsable(t.w, program, version) {
      forall k | Usable(after.w.rows, k) && Live(after.w.events, k.event) ensures Fresh(after, k) {
        assert Fresh(t, k) && !InScope(t.w.events, k.event, program, version);
      }
    } else {
      var k :| Usable(t.w.rows, k) && InScope(t.w.events, k.event, program, version);
      assert Fresh(t, k) && !Fresh(after, k);
    }
  }

  /** The event is live now and was not, or was live in another scope. */
  predicate Enters(before: Events, after: Events, event: string) {
    Live(after, event) && (!Live(before, event) || before[event] != after[event])
  }

  /** No event that enters finds a usable row it left behind under an older map, or under another
      scope's. */
  ghost predicate NothingOutdatedReturns(t: Traced, events: Events) {
    forall k: Key :: Enters(t.w.events, events, k.event) && Usable(t.w.rows, k) ==> FreshUnder(t, events, k)
  }

  /** Soft-deleting, purging, moving and uploading events keeps every reusable base fresh exactly when
      nothing outdated returns: neither deletion removes an event's damage rows. */
  lemma EventsReplacedKeepsFreshIff(t: Traced, events: Events)
    requires UsableIsFresh(t)
    ensures UsableIsFresh(Trace(t, EventsReplaced(events))) <==> NothingOutdatedReturns(t, events)
  {
    var after := Trace(t, EventsReplaced(events));
    if NothingOutdatedReturns(t, events) {
      forall k | Usable(after.w.rows, k) && Live(after.w.events, k.event) ensures Fresh(after, k) {
        if !Enters(t.w.events, events, k.event) { assert Fresh(t, k); }
      }
    } else {
      var k: Key :| Enters(t.w.events, events, k.event) && Usable(t.w.rows, k) && !FreshUnder(t, events, k);
      assert !Fresh(after, k);
    }
  }

  /** The deletion of a scope leaves no live event there that could use an outdated base. */
  lemma ScopeDeletedKeepsFresh(t: Traced, program: string, version: Option<string>)
    requires UsableIsFresh(t)
    ensures UsableIsFresh(Trace(t, ScopeDeleted(program, version)))
  {
    var after := Trace(t, ScopeDeleted(program, version));
    forall k | Usable(after.w.rows, k) && Live(after.w.events, k.event) ensures Fresh(after, k) {
      assert Fresh(t, k) && !Covers(program, version, (t.w.events[k.event].program, t.w.events[k.event].version));
    }
  }

  /** What is stored was read under the newest map, or cannot be reused. */
  ghost predicate StoresNewest(t: Traced, step: Step)
    requires CanTrace(t, step) && step.ChannelRecalculated?
  {
    Live(t.w.events, step.er.eventId)
      && ComputedRow(step.er, step.item, step.multiplier, step.schedule, step.calculate).base.Some?
    ==> t.readings[step.task].under == NewestMap(t, t.w.events, step.er.eventId)
  }

  /** Storing a channel keeps every reusable base fresh exactly when it stores nothing read under an older map. */
  lemma StoreKeepsFreshIff(t: Traced, step: Step)
    requires CanTrace(t, step) && step.ChannelRecalculated?
    requires TableWellFormed(t.w.rows, t.w.channels) && UsableIsFresh(t)
    ensures UsableIsFresh(Trace(t, step)) <==> StoresNewest(t, step)
  {
    var after, stored := Trace(t, step), Key(step.er.eventId, step.item.channelKey);
    var row := ComputedRow(step.er, step.item, step.multiplier, step.schedule, step.calculate);
    assert after.w.rows[stored] == row && !Stamped(after.w.rows, stored);
    forall k | k != stored && Usable(after.w.rows, k) && Live(after.w.events, k.event) ensures Fresh(after, k) {
      KeepsUsable(t.w, step, k);
      assert Fresh(t, k);
    }
    if !StoresNewest(t, step) { assert Usable(after.w.rows, stored) && !Fresh(after, stored); }
  }

  /** Saves never make a reusable base outdated. */
  lemma SaveKeepsFresh(t: Traced, step: Step)
    requires Enabled(t.w, step) && TableWellFormed(t.w.rows, t.w.channels) && UsableIsFresh(t)
    requires step.ScheduleSaved?
    ensures UsableIsFresh(Trace(t, step))
  {
    var after := Trace(t, step);
    forall k | Usable(after.w.rows, k) && Live(after.w.events, k.event) ensures Fresh(after, k) {
      KeepsUsable(t.w, step, k);
      assert Fresh(t, k);
    }
  }

  /** A row that holds a reusable base after a step that did not recalculate it held one before. */
  lemma KeepsUsable(w: World, step: Step, k: Key)
    requires Enabled(w, step) && TableWellFormed(w.rows, w.channels) && !Recalculates(step, k)
    requires Usable(Apply(w, step).rows, k)
    ensures Usable(w.rows, k)
  {
    if k !in w.rows {
      StepAddsOnlyRecalculated(w, step, k);
    } else if Stamped(w.rows, k) {
      StepKeepsStamp(w, step, k);
    }
  }

  ghost predicate IsTracedRun(t: Traced, steps: seq<Step>)
    decreases |steps|
  {
    steps == [] || (CanTrace(t, steps[0]) && IsTracedRun(Trace(t, steps[0]), steps[1..]))
  }

  /** At the start and after every step of the run each reusable base is fresh. */
  ghost predicate StaysFresh(t: Traced, steps: seq<Step>)
    requires IsTracedRun(t, steps)
    decreases |steps|
  {
    UsableIsFresh(t) && (steps == [] || StaysFresh(Trace(t, steps[0]), steps[1..]))
  }

  ghost predicate IsClean(t: Traced, step: Step)
    requires CanTrace(t, step)
  {
    match step
    case ChannelMapChanged(program, version) => NothingElseStale(t.w, program, version)
    case ChannelMapReplaced(program, version) => NothingUsable(t.w, program, version)
    case EventsReplaced(events) => NothingOutdatedReturns(t, events)
    case ChannelRecalculated(_, _, _, _, _, _) => StoresNewest(t, step)
    case _ => true
  }

  /** Every channel-map change of the run finds nothing stale for another reason, every replaced map nothing
      usable, nothing outdated returns with an event, and nothing outdated is stored. */
  ghost predicate ChangesCleanly(t: Traced, steps: seq<Step>)
    requires IsTracedRun(t, steps)
    decreases |steps|
  {
    steps == [] || (IsClean(t, steps[0]) && ChangesCleanly(Trace(t, steps[0]), steps[1..]))
  }

  lemma StepKeepsFreshIff(t: Traced, step: Step)
    requires CanTrace(t, step) && TableWellFormed(t.w.rows, t.w.channels) && UsableIsFresh(t)
    ensures UsableIsFresh(Trace(t, step)) <==> IsClean(t, step)
  {
    match step
    case ChannelMapChanged(program, version) => MapChangeKeepsFreshIff(t, program, version);
    case ChannelMapReplaced(program, version) => MapReplacedKeepsFreshIff(t, program, version);
    case ScopeDeleted(program, version) => ScopeDeletedKeepsFresh(t, program, version);
    case EventsReplaced(events) => EventsReplacedKeepsFreshIff(t, events);
    case ScheduleSaved(_, _, _, _, _, _, _) => SaveKeepsFresh(t, step);
    case ChannelRecalculated(_, _, _, _, _, _) => StoreKeepsFreshIff(t, step);
    case _ => ReadKeepsFresh(t, step);
  }

  lemma ReadKeepsFresh(t: Traced, step: Step)
    requires (step.SeriesRead? || step.TaskEnds?) && UsableIsFresh(t)
    ensures UsableIsFresh(Trace(t, step))
  {
    var after := Trace(t, step);
    forall k | Usable(after.w.rows, k) && Live(after.w.events, k.event) ensures Fresh(after, k) { assert Fresh(t, k); }
  }

  /** Over any run, whatever is saved, read, recalculated, remapped, deleted, purged or uploaded, every base
      a rescale may reuse stays one of its scope's newest map exactly when all its changes are clean. */
  lemma {:induction false} StaysFreshIffClean(t: Traced, steps: seq<Step>)
    requires IsTracedRun(t, steps)
    requires TableWellFormed(t.w.rows, t.w.channels) && UsableIsFresh(t)
    ensures StaysFresh(t, steps) <==> ChangesCleanly(t, steps)
    decreases |steps|
  {
    if steps != [] {
      var next := Trace(t, steps[0]);
      StepKeepsWellFormed(t.w, steps[0]);
      StepKeepsFreshIff(t, steps[0]);
      if UsableIsFresh(next) { StaysFreshIffClean(next, steps[1..]); }
    }
  }

  // ----- changes between reading and storing

  /** Whatever a task has read of a live event is from the newest map. */
  ghost predicate ReadsNewest(t: Traced) {
    forall task :: task in t.readings && Live(t.w.events, t.readings[task].event) ==>
      t.readings[task].under == NewestMap(t, t.w.events, t.readings[task].event)
  }

  /** The step changes no map of an event that a task is storing, and moves no such event. */
  ghost predicate InterruptsNoRead(t: Traced, step: Step) {
    match step
    case ChannelMapChanged(program, version) =>
      forall task :: task in t.readings ==> !InScope(t.w.events, t.readings[task].event, program, version)
    case ChannelMapReplaced(program, version) =>
      forall task :: task in t.readings ==> !InScope(t.w.events, t.readings[task].event, program, version)
    case EventsReplaced(events) =>
      forall task :: task in t.readings && Enters(t.w.events, events, t.readings[task].event) ==>
        t.readings[task].under == NewestMap(t, events, t.readings[task].event)
    case _ => true
  }

  /** A step leaves some task with a reading of an older map exactly when it comes between the reading and
      the storing of a live event: the deletion of a scope does not, since its events are gone. */
  lemma StepKeepsReadsNewestIff(t: Traced, step: Step)
    requires CanTrace(t, step) && ReadsNewest(t)
    ensures ReadsNewest(Trace(t, step)) <==> InterruptsNoRead(t, step)
  {
    var after := Trace(t, step);
    if InterruptsNoRead(t, step) {
      forall task | task in after.readings && Live(after.w.events, after.readings[task].event)
        ensures after.readings[task].under == NewestMap(after, after.w.events, after.readings[task].event)
      {
        assert task in t.readings && Live(t.w.events, t.readings[task].event) ==>
          t.readings[task].under == NewestMap(t, t.w.events, t.readings[task].event);
      }
    } else {
      match step
      case ChannelMapChanged(program, version) =>
        var task :| task in t.readings && InScope(t.w.events, t.readings[task].event, program, version);
        assert after.readings[task].under != NewestMap(after, after.w.events, after.readings[task].event);
      case ChannelMapReplaced(program, version) =>
        var task :| task in t.readings && InScope(t.w.events, t.readings[task].event, program, version);
        assert after.readings[task].under != NewestMap(after, after.w.events, after.readings[task].event);
      case EventsReplaced(events) =>
    }
  }

  ghost predicate NoneInterrupted(t: Traced, steps: seq<Step>)
    requires IsTracedRun(t, steps)
    decreases |steps|
  {
    steps == [] || (InterruptsNoRead(t, steps[0]) && NoneInterrupted(Trace(t, steps[0]), steps[1..]))
  }

  /** Every channel-map change of the run finds nothing stale for another reason, every replaced map nothing
      usable, and nothing outdated returns with an event. */
  ghost predicate MapsChangeCleanly(t: Traced, steps: seq<Step>)
    requires IsTracedRun(t, steps)
    decreases |steps|
  {
    steps == [] || (
      && (steps[0].ChannelRecalculated? || IsClean(t, steps[0]))
      && MapsChangeCleanly(Trace(t, steps[0]), steps[1..]))
  }

  /** In a run that never comes between the reading and the storing of a series only the changes of maps and
      events matter: every stored base is fresh. */
  lemma {:induction false} UninterruptedStoresAreFresh(t: Traced, steps: seq<Step>)
    requires IsTracedRun(t, steps) && ReadsNewest(t) && NoneInterrupted(t, steps)
    ensures ChangesCleanly(t, steps) <==> MapsChangeCleanly(t, steps)
    decreases |steps|
  {
    if steps != [] {
      StepKeepsReadsNewestIff(t, steps[0]);
      UninterruptedStoresAreFresh(Trace(t, steps[0]), steps[1..]);
    }
  }

  /** A reprocess between the reading and the storing: the stored row is current, of an outdated base, and no
      later step marks it. The map change itself may be clean. */
  lemma InterruptedReadIsStored(t: Traced, program: string, version: string, store: Step)
    requires store.ChannelRecalculated? && Enabled(t.w, store) && InScope(t.w.events, store.er.eventId, program, version)
    requires ComputedRow(store.er, store.item, store.multiplier, store.schedule, store.calculate).base.Some?
    ensures var read := Trace(t, SeriesRead(store.task, store.er.eventId));
            var changed := Trace(read, ChannelMapChanged(program, version));
            && CanTrace(changed, store)
            && var after, k := Trace(changed, store), Key(store.er.eventId, store.item.channelKey);
               && after.w.rows[k].status == Current
               && Reusable(ScopeRow(after.w.rows, after.w.events, program, version, k)) && !Fresh(after, k)
  {}

  /** The unconditional claim fails for every fresh current row: a save that is blocked, followed by a
      channel-map change, leaves it reusable with a base from the old map. */
  lemma FirstReasonSticks(t: Traced, k: Key, program: string, version: string, save: Step)
    requires k in t.w.rows && t.w.rows[k].status == Current && t.w.rows[k].base.Some?
    requires InScope(t.w.events, k.event, program, version) && Fresh(t, k)
    requires save.ScheduleSaved? && save.program == program && save.version == version && !save.prerequisitesMet
    requires Enabled(t.w, save)
    ensures var after := Trace(Trace(t, save), ChannelMapChanged(program, version));
            Reusable(ScopeRow(after.w.rows, after.w.events, program, version, k)) && !Fresh(after, k)
  {
    var change := ChannelMapChanged(program, version);
    var saved := Trace(t, save);
    assert saved.w.rows[k] == t.w.rows[k].(status := Stale, staleReason := Some(SCHEDULE_CHANGED));
    assert Trace(saved, change).w.rows[k] == saved.w.rows[k];
  }

  /** Deleting an event, changing its scope's map, purging the event and uploading it again under the
      same id: its current row, marked by none of these, comes back reusable with its old base, though
      the map change itself is as clean as it would have been before the deletion. */
  lemma PurgedRowReturns(t: Traced, k: Key, program: string, version: string)
    requires k in t.w.rows && t.w.rows[k].status == Current && t.w.rows[k].base.Some?
    requires InScope(t.w.events, k.event, program, version) && Fresh(t, k)
    ensures var deleted := Trace(t, EventsReplaced(t.w.events[k.event := Event(program, version, true)]));
            var changed := Trace(deleted, ChannelMapChanged(program, version));
            var purged := Trace(changed, EventsReplaced(t.w.events - {k.event}));
            var after := Trace(purged, EventsReplaced(t.w.events));
            && Reusable(ScopeRow(after.w.rows, after.w.events, program, version, k)) && !Fresh(after, k)
            && (NothingElseStale(t.w, program, version) ==> NothingElseStale(deleted.w, program, version))
  {
    var deleted := Trace(t, EventsReplaced(t.w.events[k.event := Event(program, version, true)]));
    var changed := Trace(deleted, ChannelMapChanged(program, version));
    assert changed.w.rows[k] == t.w.rows[k];
    assert Trace(Trace(changed, EventsReplaced(t.w.events - {k.event})), EventsReplaced(t.w.events)).w.rows[k]
        == t.w.rows[k];
    if NothingElseStale(t.w, program, version) {
      forall j | Usable(deleted.w.rows, j) && InScope(deleted.w.events, j.event, program, version)
        ensures deleted.w.rows[j].status == Current
      {
        assert InScope(t.w.events, j.event, program, version);
      }
    }
  }
}
