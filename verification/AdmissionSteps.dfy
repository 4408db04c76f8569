/** What each step of the admission system comes to, on rows, workers and the slot. */
module AdmissionSteps {
  import opened Options
  import opened TaskKinds
  import opened Admission

  /** The row is that of a queued, running or cancelling task. */
  ghost predicate Pending(row: Row) {
    row.status == Queued || row.status == Running || row.status == Cancelling
  }

  /** The row is that of an unfinished reprocess or damage task of the scope in the database. */
  ghost predicate PendingDerived(row: Row, scope: Scope, store: Store) {
    Pending(row) && (row.kind == ChannelReprocess || row.kind == DamageCalculation) && row.scope == scope
    && row.store == store
  }

  /** A start creates its task exactly if no exclusive operation is under way, the database its request was given
      is not deleted, and the unfinished derived task of the scope it finds there, if any, is of no kind to be
      returned instead. Otherwise it changes nothing. */
  lemma StartIff(s: Sys, step: Step)
    requires Enabled(s, step, true) && step.Start?
    ensures var s', store := Apply(s, step, true), s.captured[step.q];
            && (step.latest == None <==> forall o :: o in s.tasks ==> !PendingDerived(s.tasks[o], step.scope, store))
            && (step.latest.Some? ==>
                  step.latest.value in s.tasks && PendingDerived(s.tasks[step.latest.value], step.scope, store))
            && (step.t in s'.workers <==>
                  && s.slot == None && store !in s.gone
                  && (step.latest.Some? ==> s.tasks[step.latest.value].kind !in step.reuse))
            && (if step.t in s'.workers then
                  s' == s.(tasks := s.tasks[step.t := Row(step.kind, Queued, step.scope, store)],
                           workers := s.workers[step.t := Worker(Begun, step.kind, step.scope, store, false)])
                else s' == s)
  {
    var store := s.captured[step.q];
    forall o | o in s.tasks
      ensures PendingDerived(s.tasks[o], step.scope, store) <==> ActiveDerived(s, store, step.scope, o)
    {}
  }

  /** So an upload is kept out by nothing but an exclusive operation or the deletion of its database. */
  lemma UploadStartsIff(s: Sys, step: Step)
    requires Enabled(s, step, true) && step.Start? && step.kind == FolderUpload
    ensures step.t in Apply(s, step, true).workers <==> s.slot == None && s.captured[step.q] !in s.gone
  {
    StartIff(s, step);
  }

  /** A reprocess starts exactly if, besides, no derived task of its scope is unfinished there. */
  lemma ReprocessStartsIff(s: Sys, step: Step)
    requires Enabled(s, step, true) && step.Start? && step.kind == ChannelReprocess
    ensures step.t in Apply(s, step, true).workers <==>
              && s.slot == None && s.captured[step.q] !in s.gone
              && forall o :: o in s.tasks ==> !PendingDerived(s.tasks[o], step.scope, s.captured[step.q])
  {
    StartIff(s, step);
  }

  /** Whether a reprocess worker goes on to a follow-up: it fails if its database is deleted, or if it needs one
      while an exclusive operation is under way. */
  lemma DecisionIs(s: Sys, step: Step)
    requires Enabled(s, step, true) && step.WorkerDecides?
    ensures var s', w := Apply(s, step, true), s.workers[step.t];
            && (step.t !in s'.workers <==> w.store in s.gone || (step.needed && s.slot.Some?))
            && (step.t !in s'.workers && step.t in s.tasks ==> s'.tasks[step.t] == s.tasks[step.t].(status := Failed))
            && (step.t in s'.workers ==>
                  && s'.workers[step.t] == w.(stage := if step.needed then Admitted else FollowedUp)
                  && s'.tasks == s.tasks)
  {}

  /** It creates one exactly if the unfinished derived task it finds is no damage task, or there is none. */
  lemma FollowUpIff(s: Sys, looks: Step, creates: Step)
    requires Enabled(s, looks, true) && looks.WorkerLooks? && s.workers[looks.t].store !in s.gone
    requires creates.WorkerCreates? && creates.t == looks.t && Unused(s, creates.next)
    ensures var mid, w := Apply(s, looks, true), s.workers[looks.t];
            && (looks.latest == None <==> forall o :: o in s.tasks ==> !PendingDerived(s.tasks[o], w.scope, w.store))
            && (Enabled(mid, creates, true) <==>
                  looks.latest.Some? ==> s.tasks[looks.latest.value].kind != DamageCalculation)
            && (Enabled(mid, creates, true) ==>
                  var s' := Apply(mid, creates, true);
                  && s'.tasks == s.tasks[creates.next := Row(DamageCalculation, Queued, w.scope, w.store)]
                  && creates.next in s'.workers
                  && s'.workers[creates.next] == Worker(Begun, DamageCalculation, w.scope, w.store, w.lost)
                  && s'.workers[creates.t] == w.(stage := FollowedUp))
  {
    var w := s.workers[looks.t];
    forall o | o in s.tasks
      ensures PendingDerived(s.tasks[o], w.scope, w.store) <==> ActiveDerived(s, w.store, w.scope, o)
    {}
  }

  /** The guard of a switch or deletion passes exactly if no other user works on the database to be switched, no
      export is listed as running, no task of the current database is unfinished, and no exclusive operation is
      under way. */
  lemma GuardPassesIff(s: Sys, step: Step)
    requires Enabled(s, step, true) && step.CheckChange?
    ensures var s' := Apply(s, step, true);
            && (step.h in s'.phases <==>
                  && !(step.op == Switch && step.othersPresent)
                  && (forall e :: e in s.exports ==> s.exports[e])
                  && (forall o :: o in s.tasks && s.tasks[o].store == s.current ==> !Pending(s.tasks[o]))
                  && s.slot == None)
            && s' == if step.h in s'.phases then s.(loop := Some(step.h), phases := s.phases[step.h := Checked(step.op)])
                     else s
  {
    forall o | o in s.tasks ensures ActiveIn(s, s.current, o) <==> s.tasks[o].store == s.current && Pending(s.tasks[o]) {}
  }

  /** A caller enters the section exactly if nobody is inside, and leaves the slot free. */
  lemma SectionIs(s: Sys, step: Step)
    requires Enabled(s, step, true) && (step.Acquire? || step.Release?)
    ensures var s' := Apply(s, step, true);
            && s'.tasks == s.tasks && s'.workers == s.workers && s'.exports == s.exports && s'.current == s.current
            && (step.Acquire? && s.slot == None ==> s'.slot == Some(step.h) && s'.phases[step.h] == Inside(s.phases[step.h].op))
            && (step.Acquire? && s.slot.Some? ==> s'.slot == s.slot && step.h !in s'.phases)
            && (step.Release? ==> s'.slot == None && step.h !in s'.phases)
  {}

  /** An export starts exactly if no exclusive operation is under way; a poll may mark it, and it ends. */
  lemma ExportIs(s: Sys, step: Step)
    requires Enabled(s, step, true) && (step.StartExport? || step.ExportStalls? || step.ExportEnds?)
    ensures Apply(s, step, true)
         == s.(exports := if step.StartExport? then (if s.slot == None then s.exports[step.e := false] else s.exports)
                          else if step.ExportStalls? then
                            (if step.e in s.exports then s.exports[step.e := true] else s.exports)
                          else s.exports - {step.e})
  {}

  /** A cancel request reaches exactly the queued and running tasks. */
  lemma CancelIs(s: Sys, step: Step, t: TaskId)
    requires Enabled(s, step, true) && step.RequestCancel?
    ensures var s' := Apply(s, step, true);
            && s'.workers == s.workers && (t in s'.tasks <==> t in s.tasks)
            && (t in s.tasks ==>
                  s'.tasks[t] == if t == step.t && (s.tasks[t].status == Queued || s.tasks[t].status == Running)
                                 then s.tasks[t].(status := Cancelling) else s.tasks[t])
  {}

  /** A worker writes its status to its row, if that is still there, and ends with its row terminal. */
  lemma WorkerWrites(s: Sys, step: Step, t: TaskId)
    requires Enabled(s, step, true) && (step.WorkerRuns? || step.WorkerReports? || step.WorkerEnds?)
    ensures var s' := Apply(s, step, true);
            var status := if step.WorkerRuns? then Running else step.status;
            && (t in s'.tasks <==> t in s.tasks)
            && (t in s.tasks ==>
                  s'.tasks[t] == if t == step.t then s.tasks[t].(status := status) else s.tasks[t])
            && s'.workers == if step.WorkerEnds? then s.workers - {step.t}
                             else if step.WorkerRuns? then s.workers[step.t := s.workers[step.t].(stage := Working)]
                             else s.workers
  {}

  /** Which rows a step that takes rows fails or deletes: those of expired heartbeats and of a database opened
      for a switch fail if they are unfinished, expired ones and derived ones of a deleted scope go, and all of
      a deleted database. */
  lemma TakenRowIs(s: Sys, step: Step, t: TaskId)
    requires Enabled(s, step, true) && TakesRows(step) && t in s.tasks
    ensures var s', row := Apply(s, step, true), s.tasks[t];
            var fails := || (step.RowsReconciled? && t in step.ids)
                         || (step.Change? && s.phases[step.h].op == Switch && row.store == step.target);
            var goes := || (step.RowsExpired? && t in step.ids)
                        || (step.Change? && s.phases[step.h].op == Delete && step.succeeds && row.store == step.target)
                        || (&& step.DeleteScope? && (row.kind == ChannelReprocess || row.kind == DamageCalculation)
                            && row.scope.0 == step.program && (step.version == None || step.version == Some(row.scope.1))
                            && row.store == s.captured[step.q]);
            && (t in s'.tasks <==> !goes)
            && (!goes ==> s'.tasks[t] == if fails && Pending(row) then row.(status := Failed) else row)
  {}

  /** A switch or deletion changes the databases exactly if it succeeds. */
  lemma ChangeIs(s: Sys, step: Step)
    requires Enabled(s, step, true) && step.Change?
    ensures var s', op := Apply(s, step, true), s.phases[step.h].op;
            && s'.current == (if op == Switch && step.succeeds then step.target else s.current)
            && s'.gone == (if op == Delete && step.succeeds then s.gone + {step.target} else s.gone)
            && s'.workers.Keys == s.workers.Keys && s'.exports == s.exports
  {}

  // ----- nothing else hinders a step

  /** A request that was given a database may start a task whenever the event loop is free. */
  lemma StartEnabledIff(s: Sys, step: Step)
    requires step.Start? && step.kind != DamageCalculation
    ensures Enabled(s, step, true) <==>
              && s.loop == None && step.q in s.captured && step.t !in s.tasks && step.t !in s.workers
              && step.reuse == (if step.kind == FolderUpload then {} else {ChannelReprocess, DamageCalculation})
              && (if step.latest == None
                  then forall o :: o in s.tasks ==> !PendingDerived(s.tasks[o], step.scope, s.captured[step.q])
                  else && step.latest.value in s.tasks
                       && PendingDerived(s.tasks[step.latest.value], step.scope, s.captured[step.q]))
  {
    if step.q in s.captured {
      forall o | o in s.tasks
        ensures PendingDerived(s.tasks[o], step.scope, s.captured[step.q])
           <==> ActiveDerived(s, s.captured[step.q], step.scope, o)
      {}
    }
  }

  /** A switch or deletion goes from its guard through the section, and a scope can be deleted at any time. */
  lemma HandlersEnabledIff(s: Sys, step: Step)
    requires step.CheckChange? || step.Acquire? || step.Change? || step.DeleteScope?
    ensures Enabled(s, step, true) <==>
              && (s.loop == None || ((step.Acquire? || step.Change?) && s.loop == Some(step.h)))
              && (step.CheckChange? ==> step.h !in s.phases && (step.op == Switch || step.op == Delete))
              && (step.Acquire? ==> step.h in s.phases && s.phases[step.h].Checked?)
              && (step.Change? ==>
                    && step.h in s.phases && s.phases[step.h].Inside?
                    && step.target != s.current && step.target !in s.gone)
              && (step.DeleteScope? ==> step.q in s.captured)
  {}

  /** Workers run beside every handler: one that has begun may always report, and end or decide in time. */
  lemma WorkersEnabledIff(s: Sys, step: Step)
    requires step.WorkerRuns? || step.WorkerReports? || step.WorkerDecides? || step.WorkerEnds?
    ensures Enabled(s, step, true) <==>
              && step.t in s.workers
              && var w := s.workers[step.t];
                 && (step.WorkerRuns? ==> w.stage == Begun)
                 && (step.WorkerReports? ==>
                       step.status == Queued || step.status == Running || step.status == Cancelling)
                 && (step.WorkerDecides? ==> w.stage == Working && w.kind == ChannelReprocess)
                 && (step.WorkerEnds? ==>
                       && w.stage != Begun
                       && (step.status == Completed || step.status == Failed || step.status == Cancelled)
                       && (w.kind == ChannelReprocess && w.stage != FollowedUp ==> step.status == Failed))
  {}
}
