/** The in-process job manager of api/internal/runner/mem_job_manager.go.

    Each method of the source is several critical sections under one mutex, plus channel
    operations. The class below has one method per critical section and channel operation, each
    proved to take the object from one state of the protocol to the next; the protocol
    interleaves them freely between submitters, workers and callers of Cancel and Delete. A job record is an
    entry of a table keyed by the job's (fresh) identifier, so that holding a *Job and knowing
    its identifier are the same thing. */
module JobManager {
  import opened Options

  datatype Id = Id(text: string)
  datatype Status = Pending | Running | Completed | Failed | Cancelled
  datatype Phase = PhasePending | PhaseWorking(name: string) | PhaseCompleted | PhaseFailed
  datatype Job = Job(status: Status, phase: Phase, startedAt: Option<int>, completedAt: Option<int>,
                     reportID: Option<string>, error: Option<string>)

  predicate Terminal(s: Status) { s == Completed || s == Failed || s == Cancelled }

  const QUEUE_CAPACITY := 100

  // ----- The shared object and its critical sections -----

  /** `jobs` is the set of identifiers in the source's map; `records` outlives it. */
  datatype Shared = Shared(jobs: set<Id>, records: map<Id, Job>, cancels: set<Id>, workCh: seq<Id>)

  datatype Outcome = Success(report: string) | Error(message: string)

  function Register(s: Shared, id: Id): Shared {
    s.(jobs := s.jobs + {id}, records := s.records[id := Job(Pending, PhasePending, None, None, None, None)])
  }

  function RegisterCompleted(s: Shared, id: Id, now: int): Shared {
    s.(jobs := s.jobs + {id}, records := s.records[id := Job(Completed, PhasePending, None, Some(now), None, None)])
  }

  function Put(s: Shared, id: Id, j: Job): Shared { s.(records := s.records[id := j]) }

  function Begun(j: Job, now: int): Job {
    j.(status := Running, phase := PhasePending, startedAt := Some(now))
  }

  function Ended(j: Job, now: int, o: Outcome): Job {
    var j := j.(completedAt := Some(now));
    if j.status == Cancelled then j
    else match o
      case Error(message) => j.(status := Failed, phase := PhaseFailed, error := Some(message))
      case Success(report) => j.(status := Completed, phase := PhaseCompleted, reportID := Some(report))
  }

  class MemJobManager {
    var jobs: set<Id>
    var records: map<Id, Job>
    var cancels: set<Id>
    var workCh: seq<Id>

    ghost function View(): Shared
      reads this
    {
      Shared(jobs, records, cancels, workCh)
    }

    /** The object stands where the protocol stands after some run. */
    ghost predicate Reached(s: State)
      reads this
    {
      View() == s.shared && Inv(s)
    }

    constructor (pool: set<nat>)
      ensures Reached(After(Start(pool)))
    {
      jobs, records, cancels, workCh := {}, map[], {}, [];
    }

    /** Submit, first critical section. */
    method Submit(id: Id, ghost s: State)
      requires Reached(s) && Enabled(s, SubmitRegister(id))
      modifies this
      ensures Reached(Next(s, SubmitRegister(id)))
    {
      InvStep(s, SubmitRegister(id));
      records := records[id := Job(Pending, PhasePending, None, None, None, None)];
      jobs := jobs + {id};
    }

    /** Submit, the send on the work channel. */
    method Enqueue(id: Id, ghost s: State)
      requires Reached(s) && Enabled(s, SubmitEnqueue(id))
      modifies this
      ensures Reached(Next(s, SubmitEnqueue(id)))
    {
      InvStep(s, SubmitEnqueue(id));
      workCh := workCh + [id];
    }

    /** Submit, when the context ends before the job is enqueued. */
    method AbortSubmit(id: Id, message: string, ghost s: State)
      requires Reached(s) && Enabled(s, SubmitAbort(id, message))
      modifies this
      ensures Reached(Next(s, SubmitAbort(id, message)))
    {
      InvStep(s, SubmitAbort(id, message));
      records := records[id := records[id].(status := Failed, error := Some(message))];
    }

    /** The submissions that only record a completed job. */
    method SubmitCompleted(id: Id, now: int, ghost s: State)
      requires Reached(s) && Enabled(s, Step.SubmitCompleted(id, now))
      modifies this
      ensures Reached(Next(s, Step.SubmitCompleted(id, now)))
    {
      InvStep(s, Step.SubmitCompleted(id, now));
      records := records[id := Job(Completed, PhasePending, None, Some(now), None, None)];
      jobs := jobs + {id};
    }

    /** Cancel, first critical section: None when there is no such job; the caller goes on to the
        second one exactly when the status is not terminal. */
    method SnapshotStatus(id: Id, ghost s: State, ghost caller: nat) returns (status: Option<Status>)
      requires Reached(s) && caller !in s.cancelling
      ensures status.Some? <==> Enabled(s, CancelSnapshot(caller, id))
      ensures status.Some? ==>
                var s' := Next(s, CancelSnapshot(caller, id));
                Reached(s') && (Terminal(status.value) <==> caller !in s'.cancelling)
    {
      if id !in jobs {
        return None;
      }
      InvStep(s, CancelSnapshot(caller, id));
      return Some(records[id].status);
    }

    /** Cancel, second critical section: unconditional. */
    method MarkCancelled(id: Id, ghost s: State, ghost caller: nat)
      requires Reached(s) && Enabled(s, CancelWrite(caller)) && s.cancelling[caller] == id
      modifies this
      ensures Reached(Next(s, CancelWrite(caller)))
    {
      InvStep(s, CancelWrite(caller));
      records := records[id := records[id].(status := Cancelled)];
    }

    method Delete(id: Id, ghost s: State) returns (ok: bool)
      requires Reached(s)
      modifies this
      ensures ok <==> id in old(jobs) && Terminal(old(records)[id].status)
      ensures Reached(if Enabled(s, DeleteJob(id)) then Next(s, DeleteJob(id)) else s)
      ensures ok <==> id in old(jobs) && id !in jobs
    {
      if id !in jobs {
        return false;
      }
      InvStep(s, DeleteJob(id));
      if records[id].status != Completed && records[id].status != Failed && records[id].status != Cancelled {
        return false;
      }
      jobs := jobs - {id};
      return true;
    }

    method Get(id: Id) returns (job: Option<Job>)
      requires jobs <= records.Keys
      ensures job == if id in jobs then Some(records[id]) else None
    {
      if id !in jobs {
        return None;
      }
      return Some(records[id]);
    }

    /** An idle worker receives from the work channel. */
    method Receive(ghost s: State, ghost worker: nat) returns (id: Id)
      requires Reached(s) && Enabled(s, Take(worker))
      modifies this
      ensures Reached(Next(s, Take(worker))) && Next(s, Take(worker)).workers[worker] == Holding(id)
    {
      InvStep(s, Take(worker));
      id := workCh[0];
      workCh := workCh[1..];
    }

    /** runJob, before the generator is called. */
    method BeginRun(id: Id, now: int, ghost s: State, ghost worker: nat)
      requires Reached(s) && Enabled(s, StartRun(worker, now)) && s.workers[worker].id == id
      modifies this
      ensures Reached(Next(s, StartRun(worker, now)))
    {
      InvStep(s, StartRun(worker, now));
      cancels := cancels + {id};
      records := records[id := records[id].(status := Running, phase := PhasePending, startedAt := Some(now))];
    }

    /** The progress reporter a running job is given. */
    method Report(id: Id, phase: Phase, ghost s: State, ghost worker: nat)
      requires Reached(s) && Enabled(s, ReportProgress(worker, phase)) && s.workers[worker].id == id
      modifies this
      ensures Reached(Next(s, ReportProgress(worker, phase)))
    {
      InvStep(s, ReportProgress(worker, phase));
      records := records[id := records[id].(phase := phase)];
    }

    /** runJob, after the generator returned. */
    method EndRun(id: Id, now: int, o: Outcome, ghost s: State, ghost worker: nat)
      requires Reached(s) && Enabled(s, FinishRun(worker, now, o)) && s.workers[worker].id == id
      modifies this
      ensures Reached(Next(s, FinishRun(worker, now, o)))
    {
      InvStep(s, FinishRun(worker, now, o));
      var j := records[id].(completedAt := Some(now));
      if j.status != Cancelled {
        match o
        case Error(message) => j := j.(status := Failed, phase := PhaseFailed, error := Some(message));
        case Success(report) => j := j.(status := Completed, phase := PhaseCompleted, reportID := Some(report));
      }
      records := records[id := j];
      cancels := cancels - {id};
    }
  }

  // ----- The protocol -----

  datatype Worker = Idle | Holding(id: Id) | Executing(id: Id)

  /** `started`, `ended` and `marked` record history and are read by no step: the jobs whose run
      has begun, whose run has finished, and that were marked cancelled after their run began. */
  datatype State = State(
    shared: Shared,
    submitting: set<Id>,
    workers: map<nat, Worker>,
    cancelling: map<nat, Id>,
    started: set<Id>, ended: set<Id>, marked: set<Id>)

  datatype Step =
    | SubmitRegister(id: Id)
    | SubmitEnqueue(id: Id)
    | SubmitAbort(id: Id, message: string)
    | SubmitCompleted(id: Id, at: int)
    | Take(worker: nat)
    | StartRun(worker: nat, at: int)
    | ReportProgress(worker: nat, phase: Phase)
    | FinishRun(worker: nat, at: int, outcome: Outcome)
    | CancelSnapshot(caller: nat, id: Id)
    | CancelWrite(caller: nat)
    | DeleteJob(id: Id)

  predicate Enabled(s: State, t: Step) {
    match t
    case SubmitRegister(id) => id !in s.shared.records
    case SubmitEnqueue(id) => id in s.submitting && |s.shared.workCh| < QUEUE_CAPACITY
    case SubmitAbort(id, _) => id in s.submitting
    case SubmitCompleted(id, _) => id !in s.shared.records
    case Take(w) => w in s.workers && s.workers[w].Idle? && s.shared.workCh != []
    case StartRun(w, _) => w in s.workers && s.workers[w].Holding?
    case ReportProgress(w, _) => w in s.workers && s.workers[w].Executing?
    case FinishRun(w, _, _) => w in s.workers && s.workers[w].Executing?
    case CancelSnapshot(c, id) => c !in s.cancelling && id in s.shared.jobs
    case CancelWrite(c) => c in s.cancelling
    case DeleteJob(id) => id in s.shared.jobs
  }

  /** The job a step acts on. */
  function Subject(s: State, t: Step): Id
    requires Enabled(s, t)
  {
    match t
    case Take(_) => s.shared.workCh[0]
    case StartRun(w, _) => s.workers[w].id
    case ReportProgress(w, _) => s.workers[w].id
    case FinishRun(w, _, _) => s.workers[w].id
    case CancelWrite(c) => s.cancelling[c]
    case SubmitRegister(id) => id
    case SubmitEnqueue(id) => id
    case SubmitAbort(id, _) => id
    case SubmitCompleted(id, _) => id
    case CancelSnapshot(_, id) => id
    case DeleteJob(id) => id
  }

  function Next(s: State, t: Step): State
    requires Enabled(s, t) && Consistent(s)
  {
    var sh, id := s.shared, Subject(s, t);
    match t
    case SubmitRegister(_) => s.(shared := Register(sh, id), submitting := s.submitting + {id})
    case SubmitEnqueue(_) => s.(shared := sh.(workCh := sh.workCh + [id]), submitting := s.submitting - {id})
    case SubmitAbort(_, message) =>
      s.(shared := Put(sh, id, sh.records[id].(status := Failed, error := Some(message))), submitting := s.submitting - {id})
    case SubmitCompleted(_, at) => s.(shared := RegisterCompleted(sh, id, at))
    case Take(w) => s.(shared := sh.(workCh := sh.workCh[1..]), workers := s.workers[w := Holding(id)])
    case StartRun(w, at) =>
      s.(shared := Put(sh, id, Begun(sh.records[id], at)).(cancels := sh.cancels + {id}),
         workers := s.workers[w := Executing(id)], started := s.started + {id})
    case ReportProgress(_, phase) => s.(shared := Put(sh, id, sh.records[id].(phase := phase)))
    case FinishRun(w, at, o) =>
      s.(shared := Put(sh, id, Ended(sh.records[id], at, o)).(cancels := sh.cancels - {id}),
         workers := s.workers[w := Idle], ended := s.ended + {id})
    case CancelSnapshot(c, _) =>
      if Terminal(sh.records[id].status) then s else s.(cancelling := s.cancelling[c := id])
    case CancelWrite(c) =>
      s.(shared := Put(sh, id, sh.records[id].(status := Cancelled)), cancelling := s.cancelling - {c},
         marked := if id in s.started then s.marked + {id} else s.marked)
    case DeleteJob(_) => if Terminal(sh.records[id].status) then s.(shared := sh.(jobs := sh.jobs - {id})) else s
  }

  /** Every identifier anyone holds has a record. */
  ghost predicate Consistent(s: State) {
    && s.shared.jobs <= s.shared.records.Keys
    && s.submitting <= s.shared.records.Keys
    && (forall i :: 0 <= i < |s.shared.workCh| ==> s.shared.workCh[i] in s.shared.records)
    && (forall w :: w in s.workers && !s.workers[w].Idle? ==> s.workers[w].id in s.shared.records)
    && (forall c :: c in s.cancelling ==> s.cancelling[c] in s.shared.records)
    && s.started <= s.shared.records.Keys
  }

  predicate SameJob(a: Worker, b: Worker) { !a.Idle? && !b.Idle? && a.id == b.id }

  /** Each job is in one place at a time, so only one worker ever holds it. */
  ghost predicate OnePlace(s: State) {
    && (forall i, j :: 0 <= i < j < |s.shared.workCh| ==> s.shared.workCh[i] != s.shared.workCh[j])
    && (forall i :: 0 <= i < |s.shared.workCh| ==> s.shared.workCh[i] !in s.submitting)
    && (forall w :: w in s.workers && !s.workers[w].Idle? ==>
          s.workers[w].id !in s.submitting && s.workers[w].id !in s.shared.workCh)
    && (forall w, v :: w in s.workers && v in s.workers && SameJob(s.workers[w], s.workers[v]) ==> w == v)
  }

  ghost predicate History(s: State) {
    && s.ended <= s.started
    && s.marked <= s.started
    && (forall w :: w in s.workers && s.workers[w].Holding? ==> s.workers[w].id !in s.started)
    && (forall w :: w in s.workers && s.workers[w].Executing? ==> s.workers[w].id in s.started - s.ended)
    && (forall id :: id in s.started ==> id !in s.submitting && id !in s.shared.workCh)
    && s.shared.cancels == s.started - s.ended
  }

  ghost predicate Statuses(s: State) {
    && s.ended + s.marked <= s.started <= s.shared.records.Keys
    && (forall id :: id in s.ended ==> Terminal(s.shared.records[id].status))
    && (forall id :: id in s.started - s.ended ==> s.shared.records[id].status in {Running, Cancelled})
    && (forall id :: id in s.marked ==> s.shared.records[id].status == Cancelled)
  }

  ghost predicate Inv(s: State) { Consistent(s) && OnePlace(s) && History(s) && Statuses(s) }

  // ----- Every step keeps the invariant -----

  lemma ConsistentStep(s: State, t: Step)
    requires Inv(s) && Enabled(s, t)
    ensures Consistent(Next(s, t))
  {
    var s' := Next(s, t);
    assert s.shared.records.Keys <= s'.shared.records.Keys;
    if t.Take? {
      assert forall i :: 0 <= i < |s'.shared.workCh| ==> s'.shared.workCh[i] == s.shared.workCh[i + 1];
    }
  }

  lemma OnePlaceStep(s: State, t: Step)
    requires Inv(s) && Enabled(s, t)
    ensures OnePlace(Next(s, t))
  {
    if t.Take? {
      OnePlaceTake(s, t);
    } else if t.SubmitEnqueue? {
      OnePlaceEnqueue(s, t);
    } else {
      assert Next(s, t).shared.workCh == s.shared.workCh;
    }
  }

  lemma OnePlaceTake(s: State, t: Step)
    requires Inv(s) && Enabled(s, t) && t.Take?
    ensures OnePlace(Next(s, t))
  {
    var s' := Next(s, t);
    assert s.shared.workCh[0] in s.shared.workCh;
    assert forall i :: 0 <= i < |s'.shared.workCh| ==> s'.shared.workCh[i] == s.shared.workCh[i + 1];
    assert forall x :: x in s'.shared.workCh ==> x in s.shared.workCh;
  }

  lemma OnePlaceEnqueue(s: State, t: Step)
    requires Inv(s) && Enabled(s, t) && t.SubmitEnqueue?
    ensures OnePlace(Next(s, t))
  {
    assert Next(s, t).workers == s.workers;
  }

  lemma HistoryStep(s: State, t: Step)
    requires Inv(s) && Enabled(s, t)
    ensures History(Next(s, t))
  {
    var s' := Next(s, t);
    if t.Take? {
      assert s.shared.workCh[0] in s.shared.workCh;
      assert forall x :: x in s'.shared.workCh ==> x in s.shared.workCh;
    }
  }

  lemma StatusesStep(s: State, t: Step)
    requires Inv(s) && Enabled(s, t)
    ensures Statuses(Next(s, t))
  {
  }

  lemma InvStep(s: State, t: Step)
    requires Inv(s) && Enabled(s, t)
    ensures Inv(Next(s, t))
  {
    ConsistentStep(s, t);
    OnePlaceStep(s, t);
    HistoryStep(s, t);
    StatusesStep(s, t);
  }

  // ----- Runs -----

  datatype Run = Start(pool: set<nat>) | Then(before: Run, step: Step)

  function Boot(pool: set<nat>): State {
    State(Shared({}, map[], {}, []), {}, map w | w in pool :: Idle, map[], {}, {}, {})
  }

  ghost function After(r: Run): State {
    match r
    case Start(pool) => Boot(pool)
    case Then(before, t) =>
      var s := After(before);
      if Consistent(s) && Enabled(s, t) then Next(s, t) else s
  }

  /** Every step of the run is enabled where it is taken. */
  ghost predicate Legal(r: Run) {
    r.Then? ==> Legal(r.before) && Enabled(After(r.before), r.step)
  }

  lemma {:induction false} RunInv(r: Run)
    requires Legal(r)
    ensures Inv(After(r))
  {
    if r.Then? {
      RunInv(r.before);
      InvStep(After(r.before), r.step);
    }
  }

  /** How often the run began, and finished, executing a job. */
  ghost function Starts(r: Run, id: Id): nat {
    if r.Start? then 0
    else
      var s := After(r.before);
      Starts(r.before, id) + if r.step.StartRun? && Enabled(s, r.step) && Subject(s, r.step) == id then 1 else 0
  }

  ghost function Finishes(r: Run, id: Id): nat {
    if r.Start? then 0
    else
      var s := After(r.before);
      Finishes(r.before, id) + if r.step.FinishRun? && Enabled(s, r.step) && Subject(s, r.step) == id then 1 else 0
  }

  /** In every interleaving a job is run at most once, and `cancels` holds it exactly between the
      beginning and the end of that run. */
  lemma {:induction false} RunAtMostOnce(r: Run, id: Id)
    requires Legal(r)
    ensures Finishes(r, id) <= Starts(r, id) <= 1
    ensures id in After(r).shared.cancels <==> Starts(r, id) == 1 && Finishes(r, id) == 0
    ensures id in After(r).started <==> Starts(r, id) == 1
    ensures id in After(r).ended <==> Finishes(r, id) == 1
  {
    assert History(After(r)) by { RunInv(r); }
    if r.Then? {
      RunAtMostOnce(r.before, id);
      RunInv(r.before);
      HistoryOf(After(r.before), r.step, id);
    }
  }

  /** What one step does to the history of a job. */
  lemma HistoryOf(s: State, t: Step, id: Id)
    requires Inv(s) && Enabled(s, t)
    ensures var s', mine := Next(s, t), Subject(s, t) == id;
            && (id in s'.started <==> id in s.started || (t.StartRun? && mine))
            && (id in s'.ended <==> id in s.ended || (t.FinishRun? && mine))
            && (t.StartRun? && mine ==> id !in s.started)
            && (t.FinishRun? && mine ==> id in s.started - s.ended)
  {
  }

  /** `cancels` holds a job exactly while some worker executes it. */
  lemma {:induction false} CancelsAreExecuting(r: Run, id: Id)
    requires Legal(r)
    ensures id in After(r).shared.cancels <==> Executed(After(r), id)
  {
    RunInv(r);
    if r.Then? {
      CancelsAreExecuting(r.before, id);
      RunInv(r.before);
      CancelsStep(After(r.before), r.step, id);
    }
  }

  ghost predicate Executed(s: State, id: Id) { exists w :: w in s.workers && s.workers[w] == Executing(id) }

  lemma CancelsStep(s: State, t: Step, id: Id)
    requires Inv(s) && Enabled(s, t) && (id in s.shared.cancels <==> Executed(s, id))
    ensures id in Next(s, t).shared.cancels <==> Executed(Next(s, t), id)
  {
    var s' := Next(s, t);
    if Executed(s, id) {
      var w :| w in s.workers && s.workers[w] == Executing(id);
      assert id in s'.shared.cancels ==> s'.workers[w] == Executing(id);
    } else if t.StartRun? {
      assert s'.workers[t.worker] == Executing(Subject(s, t));
    }
  }

  function Append(r: Run, more: Run): Run {
    match more
    case Start(_) => r
    case Then(before, t) => Then(Append(r, before), t)
  }

  lemma NextGrows(s: State, t: Step)
    requires Consistent(s) && Enabled(s, t)
    ensures s.ended <= Next(s, t).ended && s.marked <= Next(s, t).marked
    ensures s.shared.records.Keys <= Next(s, t).shared.records.Keys
  {
  }

  lemma {:induction false} HistoryGrows(r: Run, more: Run)
    requires Legal(Append(r, more))
    ensures Legal(r) && After(r).ended <= After(Append(r, more)).ended && After(r).marked <= After(Append(r, more)).marked
    ensures After(r).shared.records.Keys <= After(Append(r, more)).shared.records.Keys
  {
    if more.Then? {
      HistoryGrows(r, more.before);
      RunInv(Append(r, more.before));
      NextGrows(After(Append(r, more.before)), more.step);
    }
  }

  /** A job whose run has ended is terminal in all later states. */
  lemma EndedStaysTerminal(r: Run, more: Run, id: Id)
    requires Legal(Append(r, more)) && Finishes(r, id) == 1
    ensures id in After(Append(r, more)).shared.records
    ensures Terminal(After(Append(r, more)).shared.records[id].status)
  {
    HistoryGrows(r, more);
    RunAtMostOnce(r, id);
    RunInv(Append(r, more));
  }

  /** A job marked cancelled after its run began is shown as cancelled in all later states. */
  lemma MarkedStaysCancelled(r: Run, t: Step, more: Run, id: Id)
    requires Legal(Append(Then(r, t), more)) && Starts(r, id) == 1
    requires t.CancelWrite? && t.caller in After(r).cancelling && After(r).cancelling[t.caller] == id
    ensures id in After(Append(Then(r, t), more)).shared.records
    ensures After(Append(Then(r, t), more)).shared.records[id].status == Cancelled
  {
    HistoryGrows(Then(r, t), more);
    RunAtMostOnce(r, id);
    assert id in After(Then(r, t)).marked by { RunInv(r); }
    assert Statuses(After(Append(Then(r, t), more))) by { RunInv(Append(Then(r, t), more)); }
  }

  /** Before its run begins a terminal status is not final: exactly the worker that holds the job
      takes it back to Running. */
  lemma TerminalLeftOnlyByStart(r: Run, t: Step, id: Id)
    requires Legal(Then(r, t)) && id in After(r).shared.records && Terminal(After(r).shared.records[id].status)
    ensures id in After(Then(r, t)).shared.records
    ensures !Terminal(After(Then(r, t)).shared.records[id].status) <==>
            t.StartRun? && After(r).workers[t.worker] == Holding(id)
  {
    RunInv(r);
    LeavesTerminal(After(r), t, id);
  }

  lemma LeavesTerminal(s: State, t: Step, id: Id)
    requires Inv(s) && Enabled(s, t) && id in s.shared.records && Terminal(s.shared.records[id].status)
    ensures id in Next(s, t).shared.records
    ensures !Terminal(Next(s, t).shared.records[id].status) <==> t.StartRun? && s.workers[t.worker] == Holding(id)
  {
  }

  /** Such a run exists: submitted, cancelled while queued, and run all the same. */
  lemma CancelledWhilePendingStillRuns(id: Id) returns (r: Run)
    ensures Legal(r) && id in After(r).shared.records && After(r).shared.records[id].status == Running
    ensures r.Then? && id in After(r.before).shared.records && After(r.before).shared.records[id].status == Cancelled
  {
    var q := QueuedAndCancelled(id);
    RunInv(q);
    assert Enabled(After(q), Take(0));
    RunInv(Then(q, Take(0)));
    r := Then(Then(q, Take(0)), StartRun(0, 0));
  }

  lemma QueuedAndCancelled(id: Id) returns (r: Run)
    ensures Legal(r) && After(r).workers == map[0 := Idle] && After(r).shared.workCh == [id]
    ensures id in After(r).shared.records && After(r).shared.records[id].status == Cancelled
  {
    var r1 := Then(Then(Start({0}), SubmitRegister(id)), SubmitEnqueue(id));
    RunInv(r1);
    var r2 := Then(r1, CancelSnapshot(0, id));
    RunInv(r2);
    r := Then(r2, CancelWrite(0));
  }
}
