/** Deleting the committed rows of a failed folder upload, and what stays consistent afterwards. */
module UploadCleanup {
  import opened Options
  import opened EventIds
  import opened TaskKinds

  type RunId = nat

  /** An artifact row, named by its unique (program, version, sha256). */
  type Artifact = (string, string, string)

  /** The tables that hold plain rows of one event. */
  datatype EventTable = MeasurementsRaw | MeasurementsLttb | CustomFieldValues | Previews

  datatype Run = Run(source: Artifact, derived: Artifact)

  /** A row of `event_derived_data`. */
  datatype Lineage = Lineage(run: RunId, derived: Artifact)

  /** What a source artifact's row says besides its content: type and URI follow from the file name. */
  datatype SourceRow = SourceRow(filename: string, owner: Option<string>)

  /** What a derived artifact's row says: the source it was made from, and its owner. */
  datatype DerivedRow = DerivedRow(source: Artifact, owner: Option<string>)

  /** `retained` maps an ingestion artifact, named by its (program, version, file hash), to its event. */
  datatype Tables = Tables(events: set<EventId>, rows: map<(EventTable, EventId), seq<string>>,
                           retained: map<Artifact, Option<EventId>>, links: map<EventId, RunId>,
                           lineage: map<EventId, Lineage>, runs: map<RunId, Run>,
                           deriveds: map<Artifact, DerivedRow>, sources: map<Artifact, SourceRow>)

  /** A task row; `recorded` holds the strings among the event ids of its result. */
  datatype UploadTask = UploadTask(kind: Option<TaskKind>, status: TaskStatus, recorded: seq<EventId>)

  datatype Outcome = Rejected(reason: string) | Deleted(ids: set<EventId>)

  // ----- what is kept

  /** One of these events is linked to the run. */
  predicate LinkedFrom(t: Tables, ids: set<EventId>, r: RunId) {
    exists e :: e in ids && e in t.links && t.links[e] == r
  }

  /** A run goes when the deleted events used it and no other event does. */
  predicate RunStays(t: Tables, ids: set<EventId>, r: RunId) {
    r in t.runs && (LinkedFrom(t, ids, r) ==> LinkedFrom(t, t.links.Keys - ids, r))
  }

  function UsersOfDerived(runs: map<RunId, Run>, d: Artifact): set<RunId> {
    set r | r in runs && runs[r].derived == d
  }

  function UsersOfSource(runs: map<RunId, Run>, a: Artifact): set<RunId> {
    set r | r in runs && runs[r].source == a
  }

  /** An artifact goes when a run of the deleted events used it and no remaining run does. */
  predicate UserStays(t: Tables, ids: set<EventId>, users: set<RunId>) {
    (exists r :: r in users && LinkedFrom(t, ids, r)) ==> exists r :: r in users && RunStays(t, ids, r)
  }

  function KeptRows(rows: map<(EventTable, EventId), seq<string>>, ids: set<EventId>)
    : map<(EventTable, EventId), seq<string>>
  {
    map k | k in rows && k.1 !in ids :: rows[k]
  }

  function RetainedBy(retained: map<Artifact, Option<EventId>>, ids: set<EventId>): set<Artifact> {
    set a | a in retained && retained[a].Some? && retained[a].value in ids
  }

  function KeptRuns(t: Tables, ids: set<EventId>): map<RunId, Run> {
    map r | r in t.runs && RunStays(t, ids, r) :: t.runs[r]
  }

  function KeptDeriveds(t: Tables, ids: set<EventId>): map<Artifact, DerivedRow> {
    map d | d in t.deriveds && UserStays(t, ids, UsersOfDerived(t.runs, d)) :: t.deriveds[d]
  }

  function KeptSources(t: Tables, ids: set<EventId>): map<Artifact, SourceRow> {
    map a | a in t.sources && UserStays(t, ids, UsersOfSource(t.runs, a)) :: t.sources[a]
  }

  /** The tables once the given events are deleted. */
  function Cleaned(t: Tables, ids: set<EventId>): Tables {
    Tables(t.events - ids, KeptRows(t.rows, ids), t.retained - RetainedBy(t.retained, ids), t.links - ids,
           t.lineage - ids, KeptRuns(t, ids), KeptDeriveds(t, ids), KeptSources(t, ids))
  }

  function WithoutRows(rows: map<(EventTable, EventId), seq<string>>, table: EventTable, ids: set<EventId>)
    : map<(EventTable, EventId), seq<string>>
  {
    map k | k in rows && !(k.0 == table && k.1 in ids) :: rows[k]
  }

  class UploadStore {
    var tasks: map<string, UploadTask>
    var events: set<EventId>
    var rows: map<(EventTable, EventId), seq<string>>
    var retained: map<Artifact, Option<EventId>>
    var links: map<EventId, RunId>
    var lineage: map<EventId, Lineage>
    var runs: map<RunId, Run>
    var deriveds: map<Artifact, DerivedRow>
    var sources: map<Artifact, SourceRow>

    ghost function State(): Tables
      reads this
    {
      Tables(events, rows, retained, links, lineage, runs, deriveds, sources)
    }

    /** Deletes what a failed or cancelled folder upload recorded; anything else is refused. Nothing but
        the recorded, still existing events and what only they used is deleted. */
    method CleanupFailedFolderUploadTask(id: string) returns (outcome: Outcome)
      modifies this`events, this`rows, this`retained, this`links, this`lineage, this`runs, this`deriveds, this`sources
      ensures outcome.Rejected? <==>
        id !in tasks || tasks[id].kind.GetOr(FolderUpload) != FolderUpload || tasks[id].status !in {Failed, Cancelled}
      ensures outcome.Rejected? ==> State() == old(State())
      ensures outcome.Deleted? ==>
        && outcome.ids == (set e | e in tasks[id].recorded) * old(events)
        && State() == if outcome.ids == {} then old(State()) else Cleaned(old(State()), outcome.ids)
    {
      if id !in tasks { return Rejected("Unknown upload task"); }
      var task := tasks[id];
      if task.kind.GetOr(FolderUpload) != FolderUpload { return Rejected("Task is not a folder upload"); }
      if task.status !in {Failed, Cancelled} {
        return Rejected("Only failed or cancelled folder uploads can be cleaned up");
      }
      var existing := set e | e in task.recorded && e in events;
      assert existing == (set e | e in task.recorded) * events;
      if existing == {} { return Deleted({}); }
      ghost var t := State();
      var runIds := LinkedRuns(links, runs, existing);
      var derivedIds, sourceIds := DerivedOf(runs, runIds), SourcesOf(runs, runIds);
      DeleteEventRows(existing);
      retained := retained - RetainedBy(retained, existing);
      DeleteUnused(runIds, derivedIds, sourceIds);
      SweptRuns(t, existing);
      SweptDeriveds(t, existing);
      SweptSources(t, existing);
      return Deleted(existing);
    }

    method DeleteEventRows(ids: set<EventId>)
      modifies this`events, this`rows, this`links, this`lineage
      ensures events == old(events) - ids && rows == KeptRows(old(rows), ids)
      ensures links == old(links) - ids && lineage == old(lineage) - ids
    {
      rows := WithoutRows(rows, MeasurementsRaw, ids);
      rows := WithoutRows(rows, MeasurementsLttb, ids);
      rows := WithoutRows(rows, CustomFieldValues, ids);
      lineage := lineage - ids;
      rows := WithoutRows(rows, Previews, ids);
      links := links - ids;
      events := events - ids;
    }

    method DeleteUnused(runIds: set<RunId>, derivedIds: set<Artifact>, sourceIds: set<Artifact>)
      modifies this`runs, this`deriveds, this`sources
      ensures runs == old(runs) - (runIds - links.Values)
      ensures deriveds == old(deriveds) - (derivedIds - DerivedOf(runs, runs.Keys))
      ensures sources == old(sources) - (sourceIds - SourcesOf(runs, runs.Keys))
    {
      runs := runs - (runIds - links.Values);
      deriveds := deriveds - (derivedIds - DerivedOf(runs, runs.Keys));
      sources := sources - (sourceIds - SourcesOf(runs, runs.Keys));
    }
  }

  function LinkedRuns(links: map<EventId, RunId>, runs: map<RunId, Run>, ids: set<EventId>): set<RunId> {
    set e | e in ids && e in links && links[e] in runs :: links[e]
  }

  function DerivedOf(runs: map<RunId, Run>, ids: set<RunId>): set<Artifact> {
    set r | r in ids && r in runs :: runs[r].derived
  }

  function SourcesOf(runs: map<RunId, Run>, ids: set<RunId>): set<Artifact> {
    set r | r in ids && r in runs :: runs[r].source
  }

  // ----- each statement sees what the ones before left; together they reach the cleaned tables

  lemma SweptRuns(t: Tables, ids: set<EventId>)
    ensures t.runs - (LinkedRuns(t.links, t.runs, ids) - (t.links - ids).Values) == KeptRuns(t, ids)
  {
    var links := t.links - ids;
    forall r | r in t.runs ensures r in links.Values <==> LinkedFrom(t, t.links.Keys - ids, r) {
      if LinkedFrom(t, t.links.Keys - ids, r) {
        var e :| e in t.links.Keys - ids && e in t.links && t.links[e] == r;
        assert e in links && links[e] == r;
      }
    }
    forall r | r in t.runs ensures r in LinkedRuns(t.links, t.runs, ids) <==> LinkedFrom(t, ids, r) {}
  }

  lemma SweptDeriveds(t: Tables, ids: set<EventId>)
    ensures var left := KeptRuns(t, ids);
            t.deriveds - (DerivedOf(t.runs, LinkedRuns(t.links, t.runs, ids)) - DerivedOf(left, left.Keys))
            == KeptDeriveds(t, ids)
  {
    var left, linked := KeptRuns(t, ids), LinkedRuns(t.links, t.runs, ids);
    forall r | r in t.runs ensures r in linked <==> LinkedFrom(t, ids, r) {}
    forall d ensures d in DerivedOf(t.runs, linked) <==>
                     exists r :: r in UsersOfDerived(t.runs, d) && LinkedFrom(t, ids, r) {}
    forall d ensures d in DerivedOf(left, left.Keys) <==>
                     exists r :: r in UsersOfDerived(t.runs, d) && RunStays(t, ids, r) {
      if r :| r in UsersOfDerived(t.runs, d) && RunStays(t, ids, r) { assert r in left; }
    }
  }

  lemma SweptSources(t: Tables, ids: set<EventId>)
    ensures var left := KeptRuns(t, ids);
            t.sources - (SourcesOf(t.runs, LinkedRuns(t.links, t.runs, ids)) - SourcesOf(left, left.Keys))
            == KeptSources(t, ids)
  {
    var left, linked := KeptRuns(t, ids), LinkedRuns(t.links, t.runs, ids);
    forall r | r in t.runs ensures r in linked <==> LinkedFrom(t, ids, r) {}
    forall a ensures a in SourcesOf(t.runs, linked) <==>
                     exists r :: r in UsersOfSource(t.runs, a) && LinkedFrom(t, ids, r) {}
    forall a ensures a in SourcesOf(left, left.Keys) <==>
                     exists r :: r in UsersOfSource(t.runs, a) && RunStays(t, ids, r) {
      if r :| r in UsersOfSource(t.runs, a) && RunStays(t, ids, r) { assert r in left; }
    }
  }

  // ----- referential closure

  ghost predicate RunsResolve(runs: map<RunId, Run>, deriveds: map<Artifact, DerivedRow>,
                              sources: map<Artifact, SourceRow>)
  {
    forall r :: r in runs ==> runs[r].derived in deriveds && runs[r].source in sources
  }

  ghost predicate LineageFollows(lineage: map<EventId, Lineage>, links: map<EventId, RunId>, runs: map<RunId, Run>)
    requires forall e :: e in links ==> links[e] in runs
  {
    forall e :: e in lineage ==> e in links && lineage[e] == Lineage(links[e], runs[links[e]].derived)
  }

  /** Every reference between the tables resolves, but for the source a derived artifact names. */
  ghost predicate Closed(t: Tables) {
    && t.links.Keys <= t.events && (forall e :: e in t.links ==> t.links[e] in t.runs)
    && RunsResolve(t.runs, t.deriveds, t.sources)
    && LineageFollows(t.lineage, t.links, t.runs)
    && (forall k :: k in t.rows ==> k.1 in t.events)
    && (forall a :: a in t.retained && t.retained[a].Some? ==> t.retained[a].value in t.events)
  }

  lemma LinkedRunStays(t: Tables, ids: set<EventId>, e: EventId)
    requires e in t.links && e !in ids && t.links[e] in t.runs
    ensures RunStays(t, ids, t.links[e])
  {
    assert e in t.links.Keys - ids;
  }

  lemma KeptRunKeepsArtifacts(t: Tables, ids: set<EventId>, r: RunId)
    requires Closed(t) && RunStays(t, ids, r)
    ensures t.runs[r].derived in KeptDeriveds(t, ids) && t.runs[r].source in KeptSources(t, ids)
  {
    assert r in UsersOfDerived(t.runs, t.runs[r].derived) && r in UsersOfSource(t.runs, t.runs[r].source);
  }

  /** Cleaning keeps the closure: surviving links have their run, surviving runs both artifacts,
      lineage, rows and retained artifacts their event. */
  lemma CleanupKeepsClosure(t: Tables, ids: set<EventId>)
    requires Closed(t)
    ensures Closed(Cleaned(t, ids))
  {
    var c := Cleaned(t, ids);
    forall e | e in c.links ensures c.links[e] in c.runs { LinkedRunStays(t, ids, e); }
    forall r | r in c.runs ensures c.runs[r].derived in c.deriveds && c.runs[r].source in c.sources {
      KeptRunKeepsArtifacts(t, ids, r);
    }
  }

  /** A surviving event keeps every row it had, its run, and its run's two artifacts. */
  lemma SurvivorsKeepEverything(t: Tables, ids: set<EventId>, e: EventId)
    requires Closed(t) && e in t.events && e !in ids
    ensures var c := Cleaned(t, ids);
            && e in c.events
            && (forall table: EventTable :: (table, e) in c.rows <==> (table, e) in t.rows)
            && (forall table: EventTable :: (table, e) in t.rows ==> c.rows[(table, e)] == t.rows[(table, e)])
            && (forall a :: a in t.retained && t.retained[a] == Some(e) ==> a in c.retained && c.retained[a] == Some(e))
            && (e in c.lineage <==> e in t.lineage) && (e in t.lineage ==> c.lineage[e] == t.lineage[e])
            && (e in c.links <==> e in t.links)
            && (e in t.links ==>
                  var r := t.links[e];
                  && c.links[e] == r && r in c.runs && c.runs[r] == t.runs[r]
                  && t.runs[r].source in c.sources && t.runs[r].derived in c.deriveds
                  && c.sources[t.runs[r].source] == t.sources[t.runs[r].source]
                  && c.deriveds[t.runs[r].derived] == t.deriveds[t.runs[r].derived])
  {
    if e in t.links {
      LinkedRunStays(t, ids, e);
      KeptRunKeepsArtifacts(t, ids, t.links[e]);
    }
  }

  lemma KeptRunHasLink(t: Tables, ids: set<EventId>, r: RunId)
    requires LinkedFrom(t, ids, r) && r in t.runs
    ensures r in KeptRuns(t, ids) <==> LinkedFrom(Cleaned(t, ids), Cleaned(t, ids).links.Keys, r)
  {
    var c := Cleaned(t, ids);
    if LinkedFrom(t, t.links.Keys - ids, r) {
      var e :| e in t.links.Keys - ids && e in t.links && t.links[e] == r;
      assert e in c.links && c.links[e] == r;
    }
    if LinkedFrom(c, c.links.Keys, r) {
      var e :| e in c.links.Keys && e in c.links && c.links[e] == r;
      assert e in t.links.Keys - ids;
    }
  }

  lemma KeptDerivedHasUser(t: Tables, ids: set<EventId>, r: RunId)
    requires LinkedFrom(t, ids, r) && r in t.runs && t.runs[r].derived in t.deriveds
    ensures t.runs[r].derived in KeptDeriveds(t, ids) <==> UsersOfDerived(Cleaned(t, ids).runs, t.runs[r].derived) != {}
  {
    var c, d := Cleaned(t, ids), t.runs[r].derived;
    assert r in UsersOfDerived(t.runs, d);
    if g :| g in UsersOfDerived(t.runs, d) && RunStays(t, ids, g) { assert g in UsersOfDerived(c.runs, d); }
    if g :| g in UsersOfDerived(c.runs, d) { assert g in UsersOfDerived(t.runs, d); }
  }

  lemma KeptSourceHasUser(t: Tables, ids: set<EventId>, r: RunId)
    requires LinkedFrom(t, ids, r) && r in t.runs && t.runs[r].source in t.sources
    ensures t.runs[r].source in KeptSources(t, ids) <==> UsersOfSource(Cleaned(t, ids).runs, t.runs[r].source) != {}
  {
    var c, a := Cleaned(t, ids), t.runs[r].source;
    assert r in UsersOfSource(t.runs, a);
    if g :| g in UsersOfSource(t.runs, a) && RunStays(t, ids, g) { assert g in UsersOfSource(c.runs, a); }
    if g :| g in UsersOfSource(c.runs, a) { assert g in UsersOfSource(t.runs, a); }
  }

  /** What the deleted events used goes exactly when nothing that remains uses it; what they did not use
      stays. */
  lemma CandidatesGoUnlessShared(t: Tables, ids: set<EventId>, r: RunId)
    requires Closed(t) && r in t.runs
    ensures var c, run := Cleaned(t, ids), t.runs[r];
            && (LinkedFrom(t, ids, r) ==>
                  && (r in c.runs <==> LinkedFrom(c, c.links.Keys, r))
                  && (run.derived in c.deriveds <==> UsersOfDerived(c.runs, run.derived) != {})
                  && (run.source in c.sources <==> UsersOfSource(c.runs, run.source) != {}))
            && (!LinkedFrom(t, ids, r) ==> r in c.runs && run.derived in c.deriveds && run.source in c.sources)
  {
    if LinkedFrom(t, ids, r) {
      KeptRunHasLink(t, ids, r);
      KeptDerivedHasUser(t, ids, r);
      KeptSourceHasUser(t, ids, r);
    } else {
      assert RunStays(t, ids, r);
      KeptRunKeepsArtifacts(t, ids, r);
    }
  }

  // ----- nothing new is left over

  lemma SplitLink(t: Tables, ids: set<EventId>, r: RunId)
    requires LinkedFrom(t, t.links.Keys, r)
    ensures LinkedFrom(t, ids, r) || LinkedFrom(t, t.links.Keys - ids, r)
  {
    var e :| e in t.links.Keys && e in t.links && t.links[e] == r;
    assert e in ids || e in t.links.Keys - ids;
  }

  lemma StayingUserRemains(t: Tables, ids: set<EventId>, users: set<RunId>) returns (r: RunId)
    requires users <= t.runs.Keys && users != {} && UserStays(t, ids, users)
    ensures r in users && RunStays(t, ids, r)
  {
    r :| r in users;
    if LinkedFrom(t, ids, r) { r :| r in users && RunStays(t, ids, r); }
  }

  lemma KeptRunKeepsLink(t: Tables, ids: set<EventId>, r: RunId)
    requires LinkedFrom(t, t.links.Keys, r) && r in KeptRuns(t, ids)
    ensures LinkedFrom(Cleaned(t, ids), Cleaned(t, ids).links.Keys, r)
  {
    SplitLink(t, ids, r);
    var e :| e in t.links.Keys - ids && e in t.links && t.links[e] == r;
    assert e in Cleaned(t, ids).links;
  }

  lemma KeptDerivedKeepsUser(t: Tables, ids: set<EventId>, d: Artifact)
    requires UsersOfDerived(t.runs, d) != {} && d in KeptDeriveds(t, ids)
    ensures UsersOfDerived(Cleaned(t, ids).runs, d) != {}
  {
    var r := StayingUserRemains(t, ids, UsersOfDerived(t.runs, d));
    assert r in UsersOfDerived(Cleaned(t, ids).runs, d);
  }

  lemma KeptSourceKeepsUser(t: Tables, ids: set<EventId>, a: Artifact)
    requires UsersOfSource(t.runs, a) != {} && a in KeptSources(t, ids)
    ensures UsersOfSource(Cleaned(t, ids).runs, a) != {}
  {
    var r := StayingUserRemains(t, ids, UsersOfSource(t.runs, a));
    assert r in UsersOfSource(Cleaned(t, ids).runs, a);
  }

  /** Whatever a cleanup leaves without a user had none before: a run without event, an artifact without
      run. */
  lemma CleanupLeavesNothingNewOver(t: Tables, ids: set<EventId>)
    ensures var c := Cleaned(t, ids);
            && (forall r :: r in c.runs && !LinkedFrom(c, c.links.Keys, r) ==> !LinkedFrom(t, t.links.Keys, r))
            && (forall d :: d in c.deriveds && UsersOfDerived(c.runs, d) == {} ==> UsersOfDerived(t.runs, d) == {})
            && (forall a :: a in c.sources && UsersOfSource(c.runs, a) == {} ==> UsersOfSource(t.runs, a) == {})
  {
    var c := Cleaned(t, ids);
    forall r | r in c.runs && LinkedFrom(t, t.links.Keys, r) ensures LinkedFrom(c, c.links.Keys, r) {
      KeptRunKeepsLink(t, ids, r);
    }
    forall d | d in c.deriveds && UsersOfDerived(t.runs, d) != {} ensures UsersOfDerived(c.runs, d) != {} {
      KeptDerivedKeepsUser(t, ids, d);
    }
    forall a | a in c.sources && UsersOfSource(t.runs, a) != {} ensures UsersOfSource(c.runs, a) != {} {
      KeptSourceKeepsUser(t, ids, a);
    }
  }

  // ----- several cleanups

  lemma LinkedAfter(t: Tables, first: set<EventId>, ids: set<EventId>, r: RunId)
    ensures LinkedFrom(Cleaned(t, first), ids, r) <==> LinkedFrom(t, ids - first, r)
  {
    if LinkedFrom(t, ids - first, r) {
      var e :| e in ids - first && e in t.links && t.links[e] == r;
      assert e in Cleaned(t, first).links;
    }
    if LinkedFrom(Cleaned(t, first), ids, r) {
      var e :| e in ids && e in (t.links - first) && (t.links - first)[e] == r;
      assert e in ids - first;
    }
  }

  lemma LinkedFromUnion(t: Tables, a: set<EventId>, b: set<EventId>, r: RunId)
    ensures LinkedFrom(t, a + b, r) <==> LinkedFrom(t, a, r) || LinkedFrom(t, b, r)
  {}

  lemma RunStaysTwice(t: Tables, a: set<EventId>, b: set<EventId>, r: RunId)
    ensures RunStays(t, a, r) && RunStays(Cleaned(t, a), b, r) <==> RunStays(t, a + b, r)
  {
    var u := Cleaned(t, a);
    LinkedAfter(t, a, b, r);
    LinkedAfter(t, a, u.links.Keys - b, r);
    assert u.links.Keys - b - a == t.links.Keys - (a + b);
    LinkedFromUnion(t, a, b - a, r);
    assert a + (b - a) == a + b;
    LinkedFromUnion(t, t.links.Keys - (a + b), b - a, r);
    assert LinkedFrom(t, t.links.Keys - a, r) ==> LinkedFrom(t, t.links.Keys - (a + b) + (b - a), r);
  }

  function Remaining(t: Tables, ids: set<EventId>, users: set<RunId>): set<RunId> {
    set r | r in users && RunStays(t, ids, r)
  }

  lemma UserStaysTwice(t: Tables, a: set<EventId>, b: set<EventId>, users: set<RunId>)
    requires users <= t.runs.Keys
    ensures UserStays(t, a, users) && UserStays(Cleaned(t, a), b, Remaining(t, a, users)) <==> UserStays(t, a + b, users)
  {
    var u, left := Cleaned(t, a), Remaining(t, a, users);
    forall r | r in users ensures r in left && RunStays(u, b, r) <==> RunStays(t, a + b, r) {
      RunStaysTwice(t, a, b, r);
    }
    forall r | r in users ensures LinkedFrom(t, a + b, r) <==> LinkedFrom(t, a, r) || LinkedFrom(u, b, r) {
      LinkedAfter(t, a, b, r);
      LinkedFromUnion(t, a, b - a, r);
      assert a + (b - a) == a + b;
    }
    forall r | r in left ensures LinkedFrom(u, b, r) || RunStays(u, b, r) {}
  }

  lemma RunsAddUp(t: Tables, a: set<EventId>, b: set<EventId>)
    ensures KeptRuns(Cleaned(t, a), b) == KeptRuns(t, a + b)
  {
    var u := Cleaned(t, a);
    forall r ensures r in KeptRuns(u, b) <==> r in KeptRuns(t, a + b) { RunStaysTwice(t, a, b, r); }
  }

  lemma DerivedsAddUp(t: Tables, a: set<EventId>, b: set<EventId>)
    ensures KeptDeriveds(Cleaned(t, a), b) == KeptDeriveds(t, a + b)
  {
    var u := Cleaned(t, a);
    forall d | d in t.deriveds ensures d in KeptDeriveds(u, b) <==> d in KeptDeriveds(t, a + b) {
      UserStaysTwice(t, a, b, UsersOfDerived(t.runs, d));
      assert UsersOfDerived(u.runs, d) == Remaining(t, a, UsersOfDerived(t.runs, d));
    }
  }

  lemma SourcesAddUp(t: Tables, a: set<EventId>, b: set<EventId>)
    ensures KeptSources(Cleaned(t, a), b) == KeptSources(t, a + b)
  {
    var u := Cleaned(t, a);
    forall s | s in t.sources ensures s in KeptSources(u, b) <==> s in KeptSources(t, a + b) {
      UserStaysTwice(t, a, b, UsersOfSource(t.runs, s));
      assert UsersOfSource(u.runs, s) == Remaining(t, a, UsersOfSource(t.runs, s));
    }
  }

  /** Cleanups add up: deleting two sets of events one after the other is deleting them at once, so the
      order of cleanups does not matter and repeating one changes nothing. */
  lemma CleanupsAddUp(t: Tables, a: set<EventId>, b: set<EventId>)
    ensures Cleaned(Cleaned(t, a), b) == Cleaned(t, a + b)
  {
    RunsAddUp(t, a, b);
    DerivedsAddUp(t, a, b);
    SourcesAddUp(t, a, b);
    PlainTablesAddUp(t, a, b);
  }

  lemma RetainedAddUp(retained: map<Artifact, Option<EventId>>, a: set<EventId>, b: set<EventId>)
    ensures var left := retained - RetainedBy(retained, a);
            left - RetainedBy(left, b) == retained - RetainedBy(retained, a + b)
  {
    var ra, rb := RetainedBy(retained, a), RetainedBy(retained - RetainedBy(retained, a), b);
    assert ra + rb == RetainedBy(retained, a + b);
  }

  lemma RowsAddUp(rows: map<(EventTable, EventId), seq<string>>, a: set<EventId>, b: set<EventId>)
    ensures KeptRows(KeptRows(rows, a), b) == KeptRows(rows, a + b)
  {}

  lemma PlainTablesAddUp(t: Tables, a: set<EventId>, b: set<EventId>)
    ensures var u, v := Cleaned(Cleaned(t, a), b), Cleaned(t, a + b);
            && u.events == v.events && u.rows == v.rows && u.retained == v.retained
            && u.links == v.links && u.lineage == v.lineage
  {
    RetainedAddUp(t.retained, a, b);
    RowsAddUp(t.rows, a, b);
    assert t.links - a - b == t.links - (a + b) && t.lineage - a - b == t.lineage - (a + b);
  }

  /** A second cleanup of the same task finds no recorded event left and deletes nothing. */
  lemma SecondCleanupDeletesNothing(t: Tables, recorded: set<EventId>)
    ensures recorded * Cleaned(t, recorded * t.events).events == {}
    ensures Cleaned(Cleaned(t, recorded * t.events), recorded * t.events) == Cleaned(t, recorded * t.events)
  {
    CleanupsAddUp(t, recorded * t.events, recorded * t.events);
    assert recorded * t.events + recorded * t.events == recorded * t.events;
  }
}
