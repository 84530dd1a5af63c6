/** What MemJobManager shows of a job, over every interleaving, in terms of what happened to it: how
    its submission went, what the generator returned, and whether it was cancelled. */
module JobOutcomes {
  import opened Options
  import opened JobManager

  // ----- Jobs that ran -----

  /** The run marked the job cancelled after its execution began. */
  ghost predicate CancelledInRun(r: Run, id: Id) {
    r.Then? &&
    (|| CancelledInRun(r.before, id)
     || (&& r.step.CancelWrite? && r.step.caller in After(r.before).cancelling
         && After(r.before).cancelling[r.step.caller] == id && Starts(r.before, id) == 1))
  }

  lemma {:induction false} MarkedIff(r: Run, id: Id)
    requires Legal(r)
    ensures id in After(r).marked <==> CancelledInRun(r, id)
  {
    if r.Then? {
      var s, t := After(r.before), r.step;
      MarkedIff(r.before, id);
      assert id in s.started <==> Starts(r.before, id) == 1 by { RunAtMostOnce(r.before, id); }
      assert Inv(s) by { RunInv(r.before); }
      MarkedStep(s, t, id);
      assert After(r) == Next(s, t);
    }
  }

  lemma MarkedStep(s: State, t: Step, id: Id)
    requires Inv(s) && Enabled(s, t)
    ensures id in Next(s, t).marked <==> id in s.marked || (t.CancelWrite? && s.cancelling[t.caller] == id && id in s.started)
  {
  }

  /** While a job executes it is shown as cancelled only if it was marked so meanwhile. */
  ghost predicate OnlyMarkedCancelled(s: State) {
    forall id :: id in s.started - s.ended && id in s.shared.records && s.shared.records[id].status == Cancelled ==> id in s.marked
  }

  lemma OnlyMarkedStep(s: State, t: Step)
    requires Inv(s) && OnlyMarkedCancelled(s) && Enabled(s, t)
    ensures OnlyMarkedCancelled(Next(s, t))
  {
  }

  lemma {:induction false} RunOnlyMarked(r: Run)
    requires Legal(r)
    ensures OnlyMarkedCancelled(After(r))
  {
    if r.Then? {
      RunOnlyMarked(r.before);
      RunInv(r.before);
      OnlyMarkedStep(After(r.before), r.step);
    }
  }

  /** What is shown of a job whose generator returned o at that instant, unless it was marked. */
  predicate ShownAs(j: Job, at: int, o: Outcome, marked: bool) {
    && j.completedAt == Some(at)
    && (j.status == Cancelled <==> marked)
    && (!marked ==>
          match o
          case Success(report) => j.status == Completed && j.phase == PhaseCompleted && j.reportID == Some(report)
          case Error(message) => j.status == Failed && j.phase == PhaseFailed && j.error == Some(message))
  }

  ghost predicate Shows(s: State, id: Id, at: int, o: Outcome) {
    id in s.ended && id in s.shared.records && ShownAs(s.shared.records[id], at, o, id in s.marked)
  }

  lemma FinishShows(s: State, w: nat, at: int, o: Outcome, id: Id)
    requires Inv(s) && OnlyMarkedCancelled(s) && Enabled(s, FinishRun(w, at, o)) && s.workers[w].id == id
    ensures Shows(Next(s, FinishRun(w, at, o)), id, at, o)
  {
    assert s.workers[w] == Executing(id) && id in s.started - s.ended;
  }

  lemma ShowsStep(s: State, t: Step, id: Id, at: int, o: Outcome)
    requires Inv(s) && Enabled(s, t) && Shows(s, id, at, o)
    ensures Shows(Next(s, t), id, at, o)
  {
  }

  lemma {:induction false} ShowsForever(r: Run, more: Run, id: Id, at: int, o: Outcome)
    requires Legal(Append(r, more)) && Shows(After(r), id, at, o)
    ensures Shows(After(Append(r, more)), id, at, o)
  {
    if more.Then? {
      ShowsForever(r, more.before, id, at, o);
      RunInv(Append(r, more.before));
      ShowsStep(After(Append(r, more.before)), more.step, id, at, o);
    }
  }

  lemma {:induction false} LegalPrefix(r: Run, more: Run)
    requires Legal(Append(r, more))
    ensures Legal(r)
  {
    if more.Then? { LegalPrefix(r, more.before); }
  }

  /** Once its generator has returned, a job is shown ever after as cancelled exactly if it was
      marked so after its run began; otherwise as completed with the report if the generator
      succeeded, and as failed with its error if not. When it ended is kept too. */
  lemma OutcomeIsShown(r: Run, w: nat, at: int, o: Outcome, more: Run, id: Id)
    requires Legal(Append(Then(r, FinishRun(w, at, o)), more)) && w in After(r).workers && After(r).workers[w] == Executing(id)
    ensures var q := Append(Then(r, FinishRun(w, at, o)), more);
            && id in After(q).shared.records
            && var j := After(q).shared.records[id];
               && j.completedAt == Some(at)
               && (j.status == Cancelled <==> CancelledInRun(q, id))
               && (j.status == Completed <==> !CancelledInRun(q, id) && o.Success?)
               && (j.status == Failed <==> !CancelledInRun(q, id) && o.Error?)
               && (j.status == Completed ==> j.reportID == Some(o.report))
               && (j.status == Failed ==> j.error == Some(o.message))
  {
    var t := FinishRun(w, at, o);
    LegalPrefix(Then(r, t), more);
    RunInv(r);
    RunOnlyMarked(r);
    FinishShows(After(r), w, at, o, id);
    ShowsForever(Then(r, t), more, id, at, o);
    MarkedIff(Append(Then(r, t), more), id);
  }

  // ----- Running jobs -----

  /** When the run of the job began. */
  ghost function StartedAt(r: Run, id: Id): Option<int> {
    if r.Start? then None
    else if r.step.StartRun? && Enabled(After(r.before), r.step) && Subject(After(r.before), r.step) == id then Some(r.step.at)
    else StartedAt(r.before, id)
  }

  lemma {:induction false} StartIsKept(r: Run, id: Id)
    requires Legal(r) && id in After(r).shared.records
    ensures After(r).shared.records[id].startedAt == StartedAt(r, id)
    ensures StartedAt(r, id).Some? <==> id in After(r).started
  {
    if r.Then? {
      var s, t := After(r.before), r.step;
      assert Inv(s) by { RunInv(r.before); }
      StartStep(s, t, id);
      if id in s.shared.records {
        StartIsKept(r.before, id);
      } else {
        NeverStarted(r.before, id);
      }
    }
  }

  lemma StartStep(s: State, t: Step, id: Id)
    requires Inv(s) && Enabled(s, t) && id in Next(s, t).shared.records
    ensures var s', begins := Next(s, t), t.StartRun? && Subject(s, t) == id;
            && (id in s'.started <==> id in s.started || begins)
            && s'.shared.records[id].startedAt ==
               if begins then Some(t.at) else if id in s.shared.records then s.shared.records[id].startedAt else None
  {
  }

  lemma {:induction false} NeverStarted(r: Run, id: Id)
    requires Legal(r) && id !in After(r).shared.records
    ensures StartedAt(r, id) == None && id !in After(r).started
  {
    RunInv(r);
    if r.Then? {
      RunInv(r.before);
      NextGrows(After(r.before), r.step);
      NeverStarted(r.before, id);
    }
  }

  /** While a job executes it is shown as running since that instant, or as cancelled if it was
      marked meanwhile. */
  lemma ExecutingShows(r: Run, w: nat, id: Id)
    requires Legal(r) && w in After(r).workers && After(r).workers[w] == Executing(id)
    ensures id in After(r).shared.records
    ensures After(r).shared.records[id].status == if CancelledInRun(r, id) then Cancelled else Running
    ensures StartedAt(r, id).Some? && After(r).shared.records[id].startedAt == StartedAt(r, id)
  {
    RunInv(r);
    RunOnlyMarked(r);
    MarkedIff(r, id);
    StartIsKept(r, id);
  }

  /** The phase last reported for the job since its run began. */
  ghost function PhaseOf(r: Run, id: Id): Option<Phase> {
    if r.Start? then None
    else
      var s, t := After(r.before), r.step;
      if Enabled(s, t) && Subject(s, t) == id && t.StartRun? then Some(PhasePending)
      else if Enabled(s, t) && Subject(s, t) == id && t.ReportProgress? then Some(t.phase)
      else PhaseOf(r.before, id)
  }

  lemma PhaseStep(s: State, t: Step, id: Id)
    requires Inv(s) && Enabled(s, t) && id in Next(s, t).started - Next(s, t).ended
    ensures id in Next(s, t).shared.records
    ensures t.StartRun? && Subject(s, t) == id ==> Next(s, t).shared.records[id].phase == PhasePending
    ensures t.ReportProgress? && Subject(s, t) == id ==> Next(s, t).shared.records[id].phase == t.phase
    ensures !(t.StartRun? && Subject(s, t) == id) ==> id in s.started - s.ended && id in s.shared.records
    ensures Subject(s, t) != id || (!t.StartRun? && !t.ReportProgress?) ==>
              id in s.shared.records && Next(s, t).shared.records[id].phase == s.shared.records[id].phase
  {
  }

  /** While a job executes it shows the phase last reported. */
  lemma {:induction false} PhaseIsShown(r: Run, id: Id)
    requires Legal(r) && id in After(r).started - After(r).ended
    ensures id in After(r).shared.records && PhaseOf(r, id) == Some(After(r).shared.records[id].phase)
  {
    var s, t := After(r.before), r.step;
    assert Inv(s) by { RunInv(r.before); }
    PhaseStep(s, t, id);
    if id in s.started - s.ended { PhaseIsShown(r.before, id); }
  }

  // ----- Jobs that wait -----

  /** The job is being submitted, is queued, or has been received but not begun. */
  ghost predicate Waits(s: State, id: Id) {
    id in s.submitting || id in s.shared.workCh || exists w :: w in s.workers && s.workers[w] == Holding(id)
  }

  predicate NotBegun(j: Job) { (j.status == Pending || j.status == Cancelled) && j.startedAt == None && j.completedAt == None }

  ghost predicate AllNotBegun(s: State) {
    forall id :: Waits(s, id) ==> id in s.shared.records && NotBegun(s.shared.records[id])
  }

  lemma WaitedBefore(s: State, t: Step, id: Id)
    requires Inv(s) && Enabled(s, t) && Waits(Next(s, t), id)
    ensures Waits(s, id) || t == SubmitRegister(id)
    ensures !(t.StartRun? && Subject(s, t) == id) && t != SubmitAbort(id, if t.SubmitAbort? then t.message else "")
  {
    var s' := Next(s, t);
    if t.Take? {
      assert s.shared.workCh[0] in s.shared.workCh;
      assert forall x :: x in s'.shared.workCh ==> x in s.shared.workCh;
    }
    if w :| w in s'.workers && s'.workers[w] == Holding(id) {
      assert (t.Take? && t.worker == w) || (w in s.workers && s.workers[w] == Holding(id));
    }
  }

  lemma WaitingStep(s: State, t: Step, id: Id)
    requires Inv(s) && AllNotBegun(s) && Enabled(s, t) && Waits(Next(s, t), id)
    ensures id in Next(s, t).shared.records && NotBegun(Next(s, t).shared.records[id])
  {
    WaitedBefore(s, t, id);
    if t != SubmitRegister(id) {
      assert NotBegun(s.shared.records[id]);
      assert id !in s.started;
    }
  }

  /** A job that waits is shown as pending, or as cancelled already, and as neither begun nor ended. */
  lemma {:induction false} WaitingShows(r: Run)
    requires Legal(r)
    ensures AllNotBegun(After(r))
  {
    if r.Then? {
      WaitingShows(r.before);
      RunInv(r.before);
      forall id | Waits(After(r), id) ensures id in After(r).shared.records && NotBegun(After(r).shared.records[id]) {
        WaitingStep(After(r.before), r.step, id);
      }
    }
  }

  // ----- Jobs that never run -----

  /** The job waits nowhere, and no one will start it. */
  predicate Shelved(s: State, id: Id) {
    && id in s.shared.records && id !in s.started && id !in s.submitting && id !in s.shared.workCh
    && forall w :: w in s.workers ==> s.workers[w] != Holding(id) && s.workers[w] != Executing(id)
  }

  lemma ShelvedStep(s: State, t: Step, id: Id)
    requires Inv(s) && Enabled(s, t) && Shelved(s, id)
    ensures Shelved(Next(s, t), id)
    ensures var j, j' := s.shared.records[id], Next(s, t).shared.records[id];
            j' == j || (t.CancelWrite? && s.cancelling[t.caller] == id && j' == j.(status := Cancelled))
  {
    if t.Take? { assert forall x :: x in s.shared.workCh[1..] ==> x in s.shared.workCh; }
  }

  lemma {:induction false} ShelvedForever(r: Run, more: Run, id: Id)
    requires Legal(Append(r, more)) && Shelved(After(r), id)
    ensures Shelved(After(Append(r, more)), id)
    ensures var j, j' := After(r).shared.records[id], After(Append(r, more)).shared.records[id];
            j' == j || j' == j.(status := Cancelled)
  {
    if more.Then? {
      ShelvedForever(r, more.before, id);
      RunInv(Append(r, more.before));
      ShelvedStep(After(Append(r, more.before)), more.step, id);
    }
  }

  /** A job whose submission was aborted is never run; it is shown as failed with the context's error,
      or as cancelled by a Cancel that found it pending. */
  lemma AbortedNeverRuns(r: Run, id: Id, message: string, more: Run)
    requires Legal(Append(Then(r, SubmitAbort(id, message)), more))
    ensures var q := Append(Then(r, SubmitAbort(id, message)), more);
            && Starts(q, id) == 0 && id in After(q).shared.records
            && After(q).shared.records[id].status in {Failed, Cancelled} && After(q).shared.records[id].error == Some(message)
  {
    var r' := Then(r, SubmitAbort(id, message));
    LegalPrefix(r', more);
    RunInv(r);
    assert Shelved(After(r'), id);
    ShelvedForever(r', more, id);
    RunAtMostOnce(Append(r', more), id);
  }

  /** No Cancel is under way for the job. */
  predicate Uncancelled(s: State, id: Id) { forall c :: c in s.cancelling ==> s.cancelling[c] != id }

  lemma {:induction false} CompletedStays(r: Run, more: Run, id: Id)
    requires Legal(Append(r, more)) && Shelved(After(r), id) && Uncancelled(After(r), id)
    requires After(r).shared.records[id].status == Completed
    ensures Shelved(After(Append(r, more)), id) && Uncancelled(After(Append(r, more)), id)
    ensures After(Append(r, more)).shared.records[id] == After(r).shared.records[id]
  {
    if more.Then? {
      CompletedStays(r, more.before, id);
      RunInv(Append(r, more.before));
      ShelvedStep(After(Append(r, more.before)), more.step, id);
    }
  }

  /** A job recorded as completed at once is never run and never shown as anything else. */
  lemma CompletedSubmissionStays(r: Run, id: Id, at: int, more: Run)
    requires Legal(Append(Then(r, SubmitCompleted(id, at)), more))
    ensures var q := Append(Then(r, SubmitCompleted(id, at)), more);
            && Starts(q, id) == 0 && id in After(q).shared.records
            && After(q).shared.records[id].status == Completed && After(q).shared.records[id].completedAt == Some(at)
  {
    var r' := Then(r, SubmitCompleted(id, at));
    LegalPrefix(r', more);
    RunInv(r);
    assert Shelved(After(r'), id) && Uncancelled(After(r'), id);
    CompletedStays(r', more, id);
    RunAtMostOnce(Append(r', more), id);
  }

  // ----- The queue -----

  function SentBy(t: Step): seq<Id> { if t.SubmitEnqueue? then [t.id] else [] }

  function ReceivedBy(s: State, t: Step): seq<Id>
    requires Enabled(s, t)
  {
    if t.Take? then [Subject(s, t)] else []
  }

  /** The jobs sent on the work channel, and those received from it, in order. */
  ghost function Sent(r: Run): seq<Id> {
    if r.Start? then [] else Sent(r.before) + SentBy(r.step)
  }

  ghost function Received(r: Run): seq<Id> {
    if r.Start? then []
    else
      var s := After(r.before);
      Received(r.before) + if Enabled(s, r.step) then ReceivedBy(s, r.step) else []
  }

  lemma QueueStep(s: State, t: Step)
    requires Inv(s) && Enabled(s, t)
    ensures s.shared.workCh + SentBy(t) == ReceivedBy(s, t) + Next(s, t).shared.workCh
    ensures |s.shared.workCh| <= 100 ==> |Next(s, t).shared.workCh| <= 100
  {
  }

  lemma Regroup<T>(sent: seq<T>, more: seq<T>, received: seq<T>, got: seq<T>, q: seq<T>, q': seq<T>)
    requires sent == received + q && q + more == got + q'
    ensures sent + more == received + got + q'
  {
    assert received + q + more == received + (q + more);
    assert received + (got + q') == received + got + q';
  }

  /** Workers receive jobs in the order they were sent; at most 100 wait. */
  lemma {:induction false} FirstInFirstOut(r: Run)
    requires Legal(r)
    ensures Sent(r) == Received(r) + After(r).shared.workCh
    ensures |After(r).shared.workCh| <= 100
  {
    if r.Then? {
      FirstInFirstOut(r.before);
      var s, t := After(r.before), r.step;
      assert Inv(s) by { RunInv(r.before); }
      QueueStep(s, t);
      Regroup(Sent(r.before), SentBy(t), Received(r.before), ReceivedBy(s, t), s.shared.workCh, Next(s, t).shared.workCh);
    }
  }

  // ----- Cancel and Delete -----

  /** A Cancel goes on to mark a job exactly when it finds it pending or running. */
  lemma CancelTakesActive(s: State, caller: nat, id: Id)
    requires Inv(s) && Enabled(s, CancelSnapshot(caller, id))
    ensures var s' := Next(s, CancelSnapshot(caller, id));
            && s'.shared == s.shared
            && (caller in s'.cancelling <==> s.shared.records[id].status == Pending || s.shared.records[id].status == Running)
            && (caller in s'.cancelling ==> s'.cancelling[caller] == id)
  {
  }

  /** A Delete removes a job exactly when it is completed, failed or cancelled, and no other job. */
  lemma DeleteTakesFinished(s: State, id: Id, other: Id)
    requires Inv(s) && Enabled(s, DeleteJob(id))
    ensures var s' := Next(s, DeleteJob(id));
            && s'.shared.records == s.shared.records
            && (id in s'.shared.jobs <==> s.shared.records[id].status == Pending || s.shared.records[id].status == Running)
            && (other != id ==> (other in s'.shared.jobs <==> other in s.shared.jobs))
  {
  }

  /** The job has been deleted. */
  ghost predicate DeletedIn(r: Run, id: Id) {
    r.Then? &&
    (|| DeletedIn(r.before, id)
     || (r.step == DeleteJob(id) && id in After(r.before).shared.jobs * After(r.before).shared.records.Keys && Terminal(After(r.before).shared.records[id].status)))
  }

  lemma ListStep(s: State, t: Step, id: Id)
    requires Inv(s) && Enabled(s, t)
    ensures id in Next(s, t).shared.records <==> id in s.shared.records || t == SubmitRegister(id) || (t.SubmitCompleted? && t.id == id)
    ensures id in Next(s, t).shared.jobs <==>
            || t == SubmitRegister(id) || (t.SubmitCompleted? && t.id == id)
            || (id in s.shared.jobs && !(t == DeleteJob(id) && Terminal(s.shared.records[id].status)))
  {
  }

  lemma {:induction false} NotDeletedBefore(r: Run, id: Id)
    requires Legal(r) && id !in After(r).shared.records
    ensures !DeletedIn(r, id) && id !in After(r).shared.jobs
  {
    RunInv(r);
    if r.Then? {
      RunInv(r.before);
      ListStep(After(r.before), r.step, id);
      NotDeletedBefore(r.before, id);
    }
  }

  /** Every submitted job is listed until it is deleted. */
  lemma {:induction false} ListedUntilDeleted(r: Run, id: Id)
    requires Legal(r) && id in After(r).shared.records
    ensures id in After(r).shared.jobs <==> !DeletedIn(r, id)
  {
    if r.Then? {
      var s, t := After(r.before), r.step;
      assert Inv(s) by { RunInv(r.before); }
      ListStep(s, t, id);
      if id in s.shared.records { ListedUntilDeleted(r.before, id); } else { NotDeletedBefore(r.before, id); }
    }
  }
}
