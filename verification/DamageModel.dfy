/** The damage table, schedule previews and the pure rules over them. */
module DamageModel {
  import opened Options
  import opened Text

  const SCHEDULE_CHANGED := "schedule_changed"
  const CHANNEL_REPROCESS_REQUIRED := "channel_reprocess_required"

  datatype Key = Key(event: string, channel: string)

  datatype Status = Current | Stale | Error | Unavailable

  datatype DamageRow = DamageRow(
    channelName: string, channelUnit: Option<string>,
    base: Option<real>, scheduled: Option<real>,
    repeats: Option<int>, weight: Option<real>, multiplier: Option<real>,
    scheduleId: Option<int>, scheduleSha: Option<string>,
    status: Status, staleReason: Option<string>, error: Option<string>)

  /** `event_channel_damage`: one row per event and channel. */
  type Table = map<Key, DamageRow>

  datatype Event = Event(program: string, version: string, isDeleted: bool)

  type Events = map<string, Event>

  datatype EventRow = EventRow(eventId: string, pattern: string, repeats: Option<int>, weight: Option<real>)

  datatype Preview = Preview(multiplier: Option<real>, eventRows: seq<EventRow>)

  datatype Schedule = Schedule(id: int, sha: string)

  /** One entry of `get_damage_channel_series`. */
  datatype SeriesItem = SeriesItem(channelKey: string, channelName: string, unit: Option<string>,
                                   unavailable: bool, error: Option<string>, values: seq<Option<real>>)

  datatype ChannelResult = ChannelResult(ok: bool, damage: Option<real>, error: Option<string>)

  /** The query service and the fatigue calculator, as functions of the data they see. */
  type Series = string -> seq<SeriesItem>
  type Calculator = SeriesItem -> ChannelResult

  // ----- scheduled rows of a preview

  function ScheduledRows(rows: seq<EventRow>): (r: seq<EventRow>)
    ensures forall k :: 0 <= k < |r| ==> !IsBlank(r[k].pattern) && r[k] in rows
  {
    if rows == [] then []
    else (if IsBlank(rows[0].pattern) then [] else [rows[0]]) + ScheduledRows(rows[1..])
  }

  lemma {:induction false} ScheduledRowsComplete(rows: seq<EventRow>, er: EventRow)
    requires er in rows && !IsBlank(er.pattern)
    ensures er in ScheduledRows(rows)
  {
    if rows[0] != er { ScheduledRowsComplete(rows[1..], er); }
  }

  lemma ScheduledRowsOf(rows: seq<EventRow>)
    ensures rows != [] ==>
              ScheduledRows(rows) == (if IsBlank(rows[0].pattern) then [] else [rows[0]]) + ScheduledRows(rows[1..])
  {}

  /** Scheduled rows keep their order: only those with a blank pattern drop out. */
  lemma {:induction false} ScheduledRowsSplit(a: seq<EventRow>, b: seq<EventRow>)
    ensures ScheduledRows(a + b) == ScheduledRows(a) + ScheduledRows(b)
  {
    if a == [] {
      assert a + b == b;
    } else {
      assert (a + b)[0] == a[0] && (a + b)[1..] == a[1..] + b;
      ScheduledRowsSplit(a[1..], b);
      ScheduledRowsOf(a + b);
      ScheduledRowsOf(a);
    }
  }

  lemma OneScheduledRow(er: EventRow)
    ensures ScheduledRows([er]) == if IsBlank(er.pattern) then [] else [er]
  {
    assert [er][1..] == [];
  }

  predicate HasScaling(er: EventRow) {
    er.repeats.Some? && er.weight.Some?
  }

  /** The schedule passes validation. */
  predicate AllScaled(scheduled: seq<EventRow>) {
    forall k :: 0 <= k < |scheduled| ==> HasScaling(scheduled[k])
  }

  /** `preview.get("multiplier") or 1.0`: a missing or zero multiplier counts as one. */
  function Multiplier(preview: Preview): (m: real)
    ensures preview.multiplier == None || preview.multiplier == Some(0.0) ==> m == 1.0
    ensures m != 1.0 ==> preview.multiplier == Some(m)
    ensures forall v :: preview.multiplier == Some(v) && v != 0.0 ==> m == v
  {
    if preview.multiplier.None? || preview.multiplier.value == 0.0 then 1.0 else preview.multiplier.value
  }

  /** The last scheduled row of an event: later duplicates overwrite earlier ones. */
  function LastRow(scheduled: seq<EventRow>, event: string): (r: Option<EventRow>)
    ensures r.Some? ==> r.value in scheduled && r.value.eventId == event
    ensures r.None? ==> forall k :: 0 <= k < |scheduled| ==> scheduled[k].eventId != event
  {
    if scheduled == [] then None
    else
      var n := |scheduled| - 1;
      if scheduled[n].eventId == event then Some(scheduled[n]) else LastRow(scheduled[..n], event)
  }

  /** The last series item of a channel. */
  function LastItem(items: seq<SeriesItem>, channel: string): (r: Option<SeriesItem>)
    ensures r.Some? ==> r.value in items && r.value.channelKey == channel
    ensures r.None? ==> forall k :: 0 <= k < |items| ==> items[k].channelKey != channel
  {
    if items == [] then None
    else
      var n := |items| - 1;
      if items[n].channelKey == channel then Some(items[n]) else LastItem(items[..n], channel)
  }

  /** k names a scheduled event and one of its damage channels. */
  predicate IsScheduledKey(scheduled: seq<EventRow>, series: Series, k: Key) {
    LastRow(scheduled, k.event).Some? && LastItem(series(k.event), k.channel).Some?
  }

  // ----- scopes

  predicate InScope(events: Events, event: string, program: string, version: string) {
    event in events && events[event] == Event(program, version, false)
  }

  function MarkedStale(rows: Table, events: Events, program: string, version: string, reason: string): Table {
    map k | k in rows ::
      if InScope(events, k.event, program, version) && rows[k].status == Current
      then rows[k].(status := Stale, staleReason := Some(reason)) else rows[k]
  }

  function CurrentKeys(rows: Table, events: Events, program: string, version: string): set<Key> {
    set k | k in rows && InScope(events, k.event, program, version) && rows[k].status == Current
  }

  function Cleared(rows: Table, events: Events, program: string, version: string): Table {
    map k | k in rows && !InScope(events, k.event, program, version) :: rows[k]
  }

  /** Exactly the current rows of live events of the program and version turn stale, with the reason. */
  lemma MarkedStaleAt(rows: Table, events: Events, program: string, version: string, reason: string, k: Key)
    ensures var after := MarkedStale(rows, events, program, version, reason);
            && (k in after <==> k in rows)
            && (k in rows ==>
                  var inScope := && k.event in events && !events[k.event].isDeleted
                                 && events[k.event].program == program && events[k.event].version == version;
                  after[k] == if inScope && rows[k].status == Current
                              then rows[k].(status := Stale, staleReason := Some(reason)) else rows[k])
  {}

  /** Exactly the rows of live events of the program and version go. */
  lemma ClearedAt(rows: Table, events: Events, program: string, version: string, k: Key)
    ensures var after := Cleared(rows, events, program, version);
            && (k in after <==> k in rows && !(&& k.event in events && !events[k.event].isDeleted
                                               && events[k.event].program == program && events[k.event].version == version))
            && (k in after ==> after[k] == rows[k])
  {}

  // ----- rows written by a recalculation and by a rescale

  function ScheduledDamage(base: real, repeats: int, weight: real, multiplier: real): real {
    base * repeats as real * weight * multiplier
  }

  /** The product a damage row promises: base times repeats times weight times multiplier. */
  ghost function Product(base: real, repeats: int, weight: real, multiplier: real): real {
    multiplier * (weight * (repeats as real * base))
  }

  lemma ScheduledDamageIs(base: real, repeats: int, weight: real, multiplier: real)
    ensures ScheduledDamage(base, repeats, weight, multiplier) == Product(base, repeats, weight, multiplier)
  {}

  /** What determines it: unscaled it is the base, it adds up over repeats, and it scales with the weight and
      with the multiplier. */
  lemma ScheduledDamageScales(base: real, m: int, n: int, weight: real, multiplier: real, factor: real)
    ensures ScheduledDamage(base, 1, 1.0, 1.0) == base
    ensures ScheduledDamage(base, m + n, weight, multiplier)
         == ScheduledDamage(base, m, weight, multiplier) + ScheduledDamage(base, n, weight, multiplier)
    ensures ScheduledDamage(base, m, factor * weight, multiplier) == factor * ScheduledDamage(base, m, weight, multiplier)
    ensures ScheduledDamage(base, m, weight, factor * multiplier) == factor * ScheduledDamage(base, m, weight, multiplier)
  {
    assert (m + n) as real == m as real + n as real;
  }

  /** `value or default` for strings. */
  function OrDefault(value: Option<string>, default: string): string {
    if value.None? || value.value == "" then default else value.value
  }

  function ComputedRow(er: EventRow, item: SeriesItem, multiplier: real, schedule: Schedule, calculate: Calculator)
      : (row: DamageRow)
    requires HasScaling(er)
  {
    var result := calculate(item);
    var blank := DamageRow(item.channelName, item.unit, None, None, er.repeats, er.weight, Some(multiplier),
                           Some(schedule.id), Some(schedule.sha), Unavailable, None, None);
    if item.unavailable then blank.(error := Some(OrDefault(item.error, "Damage channel is unavailable")))
    else if !result.ok || result.damage.None? then
      blank.(status := Error, error := Some(OrDefault(result.error, "Damage calculation failed")))
    else
      blank.(base := result.damage, status := Current, scheduled :=
        Some(ScheduledDamage(result.damage.value, er.repeats.value, er.weight.value, multiplier)))
  }

  function RescaledRow(row: DamageRow, er: EventRow, multiplier: real, schedule: Schedule): DamageRow
    requires HasScaling(er) && row.base.Some?
  {
    DamageRow(row.channelName, row.channelUnit, row.base,
              Some(ScheduledDamage(row.base.value, er.repeats.value, er.weight.value, multiplier)),
              er.repeats, er.weight, Some(multiplier), Some(schedule.id), Some(schedule.sha), Current, None, None)
  }

  /** The table after the fast path: every row of a scheduled event that holds a base is rescaled. */
  function Rescaled(rows: Table, scheduled: seq<EventRow>, multiplier: real, schedule: Schedule): Table
    requires AllScaled(scheduled)
  {
    map k | k in rows ::
      if LastRow(scheduled, k.event).Some? && rows[k].base.Some?
      then RescaledRow(rows[k], LastRow(scheduled, k.event).value, multiplier, schedule) else rows[k]
  }

  // ----- the slow path as the fold the task performs

  function UpsertItems(rows: Table, er: EventRow, items: seq<SeriesItem>, multiplier: real, schedule: Schedule,
                       calculate: Calculator): Table
    requires HasScaling(er)
  {
    if items == [] then rows
    else
      var n := |items| - 1;
      UpsertItems(rows, er, items[..n], multiplier, schedule, calculate)
        [Key(er.eventId, items[n].channelKey) := ComputedRow(er, items[n], multiplier, schedule, calculate)]
  }

  function Recalculated(rows: Table, scheduled: seq<EventRow>, series: Series, multiplier: real,
                        schedule: Schedule, calculate: Calculator): Table
    requires AllScaled(scheduled)
  {
    if scheduled == [] then rows
    else
      var n := |scheduled| - 1;
      var er := scheduled[n];
      UpsertItems(Recalculated(rows, scheduled[..n], series, multiplier, schedule, calculate),
                  er, series(er.eventId), multiplier, schedule, calculate)
  }

  lemma {:induction false} UpsertItemsAt(rows: Table, er: EventRow, items: seq<SeriesItem>, multiplier: real,
                                         schedule: Schedule, calculate: Calculator, k: Key)
    requires HasScaling(er)
    ensures var after := UpsertItems(rows, er, items, multiplier, schedule, calculate);
            var item := LastItem(items, k.channel);
            if k.event == er.eventId && item.Some?
            then k in after && after[k] == ComputedRow(er, item.value, multiplier, schedule, calculate)
            else (k in after <==> k in rows) && (k in rows ==> after[k] == rows[k])
  {
    if items != [] {
      UpsertItemsAt(rows, er, items[..|items| - 1], multiplier, schedule, calculate, k);
    }
  }

  /** What the whole task leaves at a key: the row computed from the event's last schedule row and
      the channel's item for a scheduled key, the old row everywhere else. */
  lemma {:induction false} RecalculatedAt(rows: Table, scheduled: seq<EventRow>, series: Series, multiplier: real,
                                          schedule: Schedule, calculate: Calculator, k: Key)
    requires AllScaled(scheduled)
    ensures var after := Recalculated(rows, scheduled, series, multiplier, schedule, calculate);
            if IsScheduledKey(scheduled, series, k)
            then k in after && after[k] == ComputedRow(LastRow(scheduled, k.event).value,
                                                       LastItem(series(k.event), k.channel).value,
                                                       multiplier, schedule, calculate)
            else (k in after <==> k in rows) && (k in rows ==> after[k] == rows[k])
  {
    if scheduled != [] {
      var n := |scheduled| - 1;
      var before := Recalculated(rows, scheduled[..n], series, multiplier, schedule, calculate);
      RecalculatedAt(rows, scheduled[..n], series, multiplier, schedule, calculate, k);
      UpsertItemsAt(before, scheduled[n], series(scheduled[n].eventId), multiplier, schedule, calculate, k);
    }
  }

  /** The row a recalculation leaves at a scheduled key, column by column. */
  lemma RecalculatedRowIs(rows: Table, scheduled: seq<EventRow>, series: Series, multiplier: real, schedule: Schedule,
                          calculate: Calculator, k: Key)
    requires AllScaled(scheduled) && IsScheduledKey(scheduled, series, k)
    ensures var after := Recalculated(rows, scheduled, series, multiplier, schedule, calculate);
            var er, item := LastRow(scheduled, k.event).value, LastItem(series(k.event), k.channel).value;
            var result := calculate(item);
            && k in after
            && after[k].channelName == item.channelName && after[k].channelUnit == item.unit
            && after[k].repeats == er.repeats && after[k].weight == er.weight && after[k].multiplier == Some(multiplier)
            && after[k].scheduleId == Some(schedule.id) && after[k].scheduleSha == Some(schedule.sha)
            && after[k].staleReason == None
            && (if item.unavailable then
                  && after[k].status == Unavailable && after[k].base == after[k].scheduled == None
                  && after[k].error == (if item.error == None || item.error == Some("")
                                        then Some("Damage channel is unavailable") else item.error)
                else if !result.ok || result.damage == None then
                  && after[k].status == Error && after[k].base == after[k].scheduled == None
                  && after[k].error == (if result.error == None || result.error == Some("")
                                        then Some("Damage calculation failed") else result.error)
                else
                  && after[k].status == Current && after[k].error == None && after[k].base == result.damage
                  && after[k].scheduled
                     == Some(Product(result.damage.value, er.repeats.value, er.weight.value, multiplier)))
  {
    RecalculatedAt(rows, scheduled, series, multiplier, schedule, calculate, k);
    var er, item := LastRow(scheduled, k.event).value, LastItem(series(k.event), k.channel).value;
    if calculate(item).damage.Some? {
      ScheduledDamageIs(calculate(item).damage.value, er.repeats.value, er.weight.value, multiplier);
    }
  }

  /** The row a rescale leaves, column by column. */
  lemma RescaledRowIs(rows: Table, scheduled: seq<EventRow>, multiplier: real, schedule: Schedule, k: Key)
    requires AllScaled(scheduled) && k in rows
    ensures var after := Rescaled(rows, scheduled, multiplier, schedule);
            && k in after
            && (LastRow(scheduled, k.event) == None || rows[k].base == None ==> after[k] == rows[k])
            && (LastRow(scheduled, k.event).Some? && rows[k].base.Some? ==>
                  var er := LastRow(scheduled, k.event).value;
                  && after[k].channelName == rows[k].channelName && after[k].channelUnit == rows[k].channelUnit
                  && after[k].base == rows[k].base
                  && after[k].repeats == er.repeats && after[k].weight == er.weight
                  && after[k].multiplier == Some(multiplier)
                  && after[k].scheduleId == Some(schedule.id) && after[k].scheduleSha == Some(schedule.sha)
                  && after[k].scheduled
                     == Some(Product(rows[k].base.value, er.repeats.value, er.weight.value, multiplier))
                  && after[k].status == Current && after[k].staleReason == None && after[k].error == None)
  {
    if LastRow(scheduled, k.event).Some? && rows[k].base.Some? {
      var er := LastRow(scheduled, k.event).value;
      ScheduledDamageIs(rows[k].base.value, er.repeats.value, er.weight.value, multiplier);
    }
  }

  // ----- eligibility for the fast path

  /** `list_event_channel_damage_for_program_version`, keyed. */
  function ScopeRow(rows: Table, events: Events, program: string, version: string, k: Key): Option<DamageRow> {
    if k in rows && InScope(events, k.event, program, version) then Some(rows[k]) else None
  }

  /** A row whose base may be reused. */
  predicate Reusable(row: Option<DamageRow>) {
    && row.Some? && row.value.base.Some?
    && row.value.status != Error
    && (row.value.status == Stale ==> OrDefault(row.value.staleReason, SCHEDULE_CHANGED) == SCHEDULE_CHANGED)
  }

  ghost predicate Eligible(rows: Table, events: Events, program: string, version: string,
                           scheduled: seq<EventRow>, series: Series)
  {
    forall k {:trigger IsScheduledKey(scheduled, series, k)} ::
      IsScheduledKey(scheduled, series, k) ==> Reusable(ScopeRow(rows, events, program, version, k))
  }

  /** What a scheduled row must be for its base to be reused, column by column. */
  lemma ReusableIs(rows: Table, events: Events, program: string, version: string, k: Key)
    ensures Reusable(ScopeRow(rows, events, program, version, k)) <==>
              && k in rows && k.event in events && !events[k.event].isDeleted
              && events[k.event].program == program && events[k.event].version == version
              && rows[k].base.Some? && rows[k].status != Error
              && (rows[k].status == Stale ==>
                    rows[k].staleReason == None || rows[k].staleReason == Some("")
                    || rows[k].staleReason == Some("schedule_changed"))
  {}

  // ----- scaling-only changes

  function Matching(scheduled: seq<EventRow>): map<string, string> {
    if scheduled == [] then map[]
    else
      var n := |scheduled| - 1;
      Matching(scheduled[..n])[scheduled[n].eventId := Strip(scheduled[n].pattern)]
  }

  function Scaling(scheduled: seq<EventRow>): map<string, (int, real)>
    requires AllScaled(scheduled)
  {
    if scheduled == [] then map[]
    else
      var n := |scheduled| - 1;
      Scaling(scheduled[..n])[scheduled[n].eventId := (scheduled[n].repeats.value, scheduled[n].weight.value)]
  }

  /** Whether two previews schedule the same events and differ only in scaling. None is the failure
      the source runs into when it converts a blank repeats or weight. */
  function ScalingOnlyChange(previous: Option<Preview>, current: Preview): Option<bool> {
    if previous.None? then Some(false)
    else
      RowsOnlyScaled(ScheduledRows(previous.value.eventRows), ScheduledRows(current.eventRows),
                     Multiplier(previous.value) != Multiplier(current))
  }

  function RowsOnlyScaled(before: seq<EventRow>, after: seq<EventRow>, otherMultiplier: bool): Option<bool> {
    if Matching(before) != Matching(after) then Some(false)
    else if !AllScaled(before) || !AllScaled(after) then None
    else Some(otherMultiplier || Scaling(before) != Scaling(after))
  }

  lemma {:induction false} MatchingAt(scheduled: seq<EventRow>, event: string)
    ensures event in Matching(scheduled) <==> LastRow(scheduled, event).Some?
    ensures event in Matching(scheduled) ==>
              Matching(scheduled)[event] == Strip(LastRow(scheduled, event).value.pattern)
  {
    if scheduled != [] { MatchingAt(scheduled[..|scheduled| - 1], event); }
  }

  lemma {:induction false} ScalingAt(scheduled: seq<EventRow>, event: string)
    requires AllScaled(scheduled)
    ensures event in Scaling(scheduled) <==> LastRow(scheduled, event).Some?
    ensures event in Scaling(scheduled) ==> HasScaling(LastRow(scheduled, event).value)
    ensures event in Scaling(scheduled) ==>
              Scaling(scheduled)[event]
              == (LastRow(scheduled, event).value.repeats.value, LastRow(scheduled, event).value.weight.value)
  {
    if scheduled != [] { ScalingAt(scheduled[..|scheduled| - 1], event); }
  }

  /** The same events are scheduled, with the same patterns. */
  ghost predicate SameMatching(before: seq<EventRow>, after: seq<EventRow>) {
    forall event ::
      && (LastRow(before, event).Some? <==> LastRow(after, event).Some?)
      && (LastRow(before, event).Some? ==>
            Strip(LastRow(before, event).value.pattern) == Strip(LastRow(after, event).value.pattern))
  }

  /** An event scheduled in both has other repeats or another weight. */
  predicate ScalesOtherwise(before: seq<EventRow>, after: seq<EventRow>, event: string) {
    && LastRow(before, event).Some? && LastRow(after, event).Some?
    && (LastRow(before, event).value.repeats != LastRow(after, event).value.repeats
        || LastRow(before, event).value.weight != LastRow(after, event).value.weight)
  }

  lemma MatchingEqualIff(before: seq<EventRow>, after: seq<EventRow>)
    ensures Matching(before) == Matching(after) <==> SameMatching(before, after)
  {
    forall event
      ensures event in Matching(before) <==> LastRow(before, event).Some?
      ensures event in Matching(after) <==> LastRow(after, event).Some?
      ensures event in Matching(before) ==> Matching(before)[event] == Strip(LastRow(before, event).value.pattern)
      ensures event in Matching(after) ==> Matching(after)[event] == Strip(LastRow(after, event).value.pattern)
    {
      MatchingAt(before, event);
      MatchingAt(after, event);
    }
  }

  lemma ScalingEqualIff(before: seq<EventRow>, after: seq<EventRow>)
    requires AllScaled(before) && AllScaled(after) && SameMatching(before, after)
    ensures Scaling(before) != Scaling(after) <==> exists event :: ScalesOtherwise(before, after, event)
  {
    forall event
      ensures event in Scaling(before) <==> event in Scaling(after)
      ensures event in Scaling(before) ==>
                (ScalesOtherwise(before, after, event) <==> Scaling(before)[event] != Scaling(after)[event])
      ensures ScalesOtherwise(before, after, event) ==> event in Scaling(before)
    {
      ScalingAt(before, event);
      ScalingAt(after, event);
    }
    if Scaling(before) != Scaling(after) {
      var event :| event in Scaling(before) && Scaling(before)[event] != Scaling(after)[event];
      assert ScalesOtherwise(before, after, event);
    }
  }

  lemma RowsOnlyScaledIff(before: seq<EventRow>, after: seq<EventRow>, otherMultiplier: bool)
    ensures RowsOnlyScaled(before, after, otherMultiplier) == Some(true) <==>
              && AllScaled(before) && AllScaled(after) && SameMatching(before, after)
              && (otherMultiplier || exists event :: ScalesOtherwise(before, after, event))
  {
    MatchingEqualIff(before, after);
    if AllScaled(before) && AllScaled(after) && SameMatching(before, after) { ScalingEqualIff(before, after); }
  }

  /** A change is scaling-only exactly when all scheduled rows state their scaling, the same events are
      scheduled with the same patterns, and the multiplier or some event's scaling differs. */
  lemma ScalingOnlyIff(previous: Preview, current: Preview)
    ensures var before, after := ScheduledRows(previous.eventRows), ScheduledRows(current.eventRows);
            ScalingOnlyChange(Some(previous), current) == Some(true) <==>
              && AllScaled(before) && AllScaled(after) && SameMatching(before, after)
              && (Multiplier(previous) != Multiplier(current)
                  || exists event :: ScalesOtherwise(before, after, event))
  {
    RowsOnlyScaledIff(ScheduledRows(previous.eventRows), ScheduledRows(current.eventRows),
                      Multiplier(previous) != Multiplier(current));
  }
}
