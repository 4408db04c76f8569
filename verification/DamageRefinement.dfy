/** The fast path (rescaling stored bases) against the slow path (recalculating every channel). */
module DamageRefinement {
  import opened Options
  import opened DamageModel

  /** Everything a damage row says except how its channel is labelled. */
  predicate SameDamage(a: DamageRow, b: DamageRow) {
    a.(channelName := b.channelName, channelUnit := b.channelUnit) == b
  }

  /** What the calculator would return now is the stored base. */
  predicate StillCalculates(item: SeriesItem, calculate: Calculator, base: Option<real>) {
    !item.unavailable && calculate(item).ok && calculate(item).damage.Some? && calculate(item).damage == base
  }

  /** For an eligible, validated schedule the two paths agree on a scheduled (event, channel) exactly
      when the calculator would still return the stored base. */
  lemma RescaleAgreesIffBaseHolds(rows: Table, events: Events, program: string, version: string,
                                  scheduled: seq<EventRow>, series: Series, multiplier: real, schedule: Schedule,
                                  calculate: Calculator, k: Key)
    requires AllScaled(scheduled) && Eligible(rows, events, program, version, scheduled, series)
    requires IsScheduledKey(scheduled, series, k)
    ensures var fast := Rescaled(rows, scheduled, multiplier, schedule);
            var slow := Recalculated(rows, scheduled, series, multiplier, schedule, calculate);
            && k in rows && k in fast && k in slow
            && (SameDamage(fast[k], slow[k])
                <==> StillCalculates(LastItem(series(k.event), k.channel).value, calculate, rows[k].base))
  {
    RecalculatedAt(rows, scheduled, series, multiplier, schedule, calculate, k);
  }

  /** Rescaling refines recalculating: if every scheduled channel still calculates to its stored base,
      the fast path leaves every scheduled row as the slow path does, and both leave every row of an
      unscheduled event alone. */
  lemma RescaleRefinesRecalculation(rows: Table, events: Events, program: string, version: string,
                                    scheduled: seq<EventRow>, series: Series, multiplier: real, schedule: Schedule,
                                    calculate: Calculator)
    requires AllScaled(scheduled) && Eligible(rows, events, program, version, scheduled, series)
    requires forall k :: IsScheduledKey(scheduled, series, k) && k in rows ==>
               StillCalculates(LastItem(series(k.event), k.channel).value, calculate, rows[k].base)
    ensures var fast := Rescaled(rows, scheduled, multiplier, schedule);
            var slow := Recalculated(rows, scheduled, series, multiplier, schedule, calculate);
            && fast.Keys == slow.Keys == rows.Keys
            && (forall k :: IsScheduledKey(scheduled, series, k) ==> k in fast && SameDamage(fast[k], slow[k]))
            && (forall k :: k in rows && LastRow(scheduled, k.event).None? ==> fast[k] == slow[k] == rows[k])
  {
    var fast := Rescaled(rows, scheduled, multiplier, schedule);
    var slow := Recalculated(rows, scheduled, series, multiplier, schedule, calculate);
    forall k ensures k in slow <==> k in rows {
      RecalculatedAt(rows, scheduled, series, multiplier, schedule, calculate, k);
      if IsScheduledKey(scheduled, series, k) { assert Reusable(ScopeRow(rows, events, program, version, k)); }
    }
    forall k | IsScheduledKey(scheduled, series, k) ensures k in fast && SameDamage(fast[k], slow[k]) {
      RescaleAgreesIffBaseHolds(rows, events, program, version, scheduled, series, multiplier, schedule, calculate, k);
    }
    forall k | k in rows && LastRow(scheduled, k.event).None? ensures fast[k] == slow[k] == rows[k] {
      RecalculatedAt(rows, scheduled, series, multiplier, schedule, calculate, k);
    }
  }
}
