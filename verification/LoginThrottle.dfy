/** Logins under the failure throttle: AuthHandler.Login of api/internal/handlers/auth.go.

    An attempt probes the throttler and, if it is let through, sleeps for the recommended delay,
    compares passwords and only then records its outcome. Nothing is held in between, so other
    attempts and sweeps interleave freely with the two steps of each attempt. */
module LoginThrottle {
  import opened Options
  import opened AccountThrottle

  /** Let through and not to record before `readyAt`; or finished. */
  datatype Attempt = Pending(user: User, readyAt: real) | Over

  datatype State = State(entries: Entries, attempts: map<nat, Attempt>)

  datatype Step =
    | Probe(id: nat, user: User, at: real)
    | Record(id: nat, good: bool, at: real)
    | Sweep(at: real)

  predicate Enabled(s: State, t: Step) {
    match t
    case Probe(id, _, _) => id !in s.attempts
    case Record(id, _, at) => id in s.attempts && s.attempts[id].Pending? && s.attempts[id].readyAt <= at
    case Sweep(_) => true
  }

  function Next(p: Policy, s: State, t: Step): State
    requires Enabled(s, t)
  {
    match t
    case Probe(id, user, at) =>
      var r := CheckResult(p, s.entries, user, at);
      s.(attempts := s.attempts[id := if r.allowed then Pending(user, at + r.delay) else Over])
    case Record(id, good, at) =>
      var user := s.attempts[id].user;
      State(AccountThrottle.Step(p, s.entries, if good then Success(user, at) else Failure(user, at)), s.attempts[id := Over])
    case Sweep(at) => s.(entries := AccountThrottle.Step(p, s.entries, Cleanup(at)))
  }

  datatype Run = Start | Then(before: Run, step: Step)

  function After(p: Policy, r: Run): State {
    match r
    case Start => State(map[], map[])
    case Then(before, t) => var s := After(p, before); if Enabled(s, t) then Next(p, s, t) else s
  }

  predicate NotAfter(r: Run, t: real) { r.Then? ==> r.step.at <= t }

  /** Every step is enabled where it is taken, and the clock never goes back. */
  predicate Legal(p: Policy, r: Run) {
    r.Then? ==> Legal(p, r.before) && Enabled(After(p, r.before), r.step) && NotAfter(r.before, r.step.at)
  }

  function Append(r: Run, more: Run): Run {
    match more
    case Start => r
    case Then(before, t) => Run.Then(Append(r, before), t)
  }

  // ----- The throttler's view -----

  /** The calls a run of logins makes to the throttler. */
  function Calls(p: Policy, r: Run): AccountThrottle.Run {
    match r
    case Start => AccountThrottle.Run.Start
    case Then(before, t) => AccountThrottle.Run.Then(Calls(p, before), CallOf(After(p, before), t))
  }

  /** A probe checks, the record of an attempt counts a success or a failure of the account probed,
      and a sweep cleans up. */
  function CallOf(s: State, t: Step): Op {
    match t
    case Probe(_, user, at) => Check(user, at)
    case Record(id, good, at) =>
      var user := if id in s.attempts && s.attempts[id].Pending? then s.attempts[id].user else NOBODY;
      if good then Success(user, at) else Failure(user, at)
    case Sweep(at) => Cleanup(at)
  }

  /** So the laws of the throttler hold of logins: its entries are those its calls make, and its clock
      does not go back either. */
  lemma {:induction false} LoginsAreCalls(p: Policy, r: Run)
    requires Legal(p, r)
    ensures After(p, r).entries == Final(p, Calls(p, r)) && Ordered(Calls(p, r))
    ensures r.Then? ==> Calls(p, r).Then? && Calls(p, r).op.at == r.step.at
  {
    if r.Then? { LoginsAreCalls(p, r.before); }
  }

  /** A probe lets the attempt through exactly when Check allows it, to record after the delay. */
  lemma ProbeFollowsCheck(p: Policy, r: Run, id: nat, user: User, at: real)
    requires Legal(p, Run.Then(r, Probe(id, user, at)))
    ensures var s, answer := After(p, Run.Then(r, Probe(id, user, at))), CheckResult(p, Final(p, Calls(p, r)), user, at);
            && id in s.attempts && s.entries == After(p, r).entries
            && (answer.allowed ==> s.attempts[id] == Pending(user, at + answer.delay))
            && (!answer.allowed ==> s.attempts[id] == Over)
  {
    LoginsAreCalls(p, r);
  }

  // ----- Every reachable entry -----

  /** A lock runs from the last failure, and only a count at the threshold carries one. */
  ghost predicate LocksFit(p: Policy, m: Entries, now: real) {
    forall k :: k in m ==>
      && m[k].lastFailure <= now
      && (m[k].lockedUntil.Some? ==>
            m[k].failureCount >= p.lockoutThreshold && m[k].lockedUntil.value == m[k].lastFailure + p.lockoutDuration)
  }

  lemma StepFits(p: Policy, s: State, t: Step)
    requires LocksFit(p, s.entries, t.at) && Enabled(s, t)
    ensures LocksFit(p, Next(p, s, t).entries, t.at)
  {
  }

  lemma {:induction false} RunFits(p: Policy, r: Run, now: real)
    requires Legal(p, r) && NotAfter(r, now)
    ensures LocksFit(p, After(p, r).entries, now)
  {
    if r.Then? {
      RunFits(p, r.before, r.step.at);
      StepFits(p, After(p, r.before), r.step);
    }
  }

  // ----- When a lock holds -----

  /** Every probe of the account before `until` is refused. */
  ghost predicate Refuses(p: Policy, m: Entries, user: User, until: real) {
    forall t :: t < until ==> !CheckResult(p, m, user, t).allowed
  }

  lemma RefusesIffLocked(p: Policy, m: Entries, user: User, until: real)
    requires user != NOBODY
    ensures Refuses(p, m, user, until) <==> user in m && m[user].lockedUntil.Some? && m[user].lockedUntil.value >= until
  {
    if user !in m || m[user].lockedUntil.None? {
      assert CheckResult(p, m, user, until - 1.0).allowed;
    } else if m[user].lockedUntil.value < until {
      assert CheckResult(p, m, user, m[user].lockedUntil.value).allowed;
    }
  }

  /** The lock holds throughout `more`: after each of its steps every probe before `until` is refused. */
  ghost predicate Holds(p: Policy, r: Run, more: Run, user: User, until: real) {
    more.Then? ==> Holds(p, r, more.before, user, until) && Refuses(p, After(p, Append(r, more)).entries, user, until)
  }

  /** An attempt that was let through before the lock records a success, or records a failure when
      the window is over and one failure does not lock again. `first` begins the window. */
  predicate Lifts(p: Policy, s: State, user: User, first: real, t: Step) {
    && t.Record? && t.id in s.attempts && s.attempts[t.id].Pending? && s.attempts[t.id].user == user
    && (t.good || (t.at - first > p.window && p.lockoutThreshold > 1))
  }

  predicate NothingLifts(p: Policy, s: State, user: User, first: real, more: Run) {
    more.Then? ==> NothingLifts(p, s, user, first, more.before) && !Lifts(p, s, user, first, more.step)
  }

  /** All steps of `more` come before `until`. */
  predicate Within(more: Run, until: real) {
    more.Then? ==> Within(more.before, until) && more.step.at < until
  }

  /** What holds while the lock does: whoever is still pending for the account was so before, and
      the window is the same unless one failure is enough to lock. */
  ghost predicate StillLocked(p: Policy, s: State, s': State, user: User, until: real) {
    && Refuses(p, s'.entries, user, until)
    && (forall i :: i in s.attempts ==> i in s'.attempts && (s'.attempts[i] == s.attempts[i] || s'.attempts[i].Over?))
    && (forall i :: i in s'.attempts && s'.attempts[i].Pending? && s'.attempts[i].user == user ==>
          i in s.attempts && s.attempts[i] == s'.attempts[i])
    && user in s.entries && user in s'.entries
    && (p.lockoutThreshold > 1 ==> s'.entries[user].firstFailure == s.entries[user].firstFailure)
  }

  /** One step under the lock. */
  lemma LockedStep(p: Policy, s: State, s': State, user: User, until: real, t: Step)
    requires user != NOBODY && StillLocked(p, s, s', user, until) && Enabled(s', t) && t.at < until && LocksFit(p, s'.entries, t.at)
    ensures Refuses(p, Next(p, s', t).entries, user, until) <==> !Lifts(p, s, user, s.entries[user].firstFailure, t)
    ensures Refuses(p, Next(p, s', t).entries, user, until) ==> StillLocked(p, s, Next(p, s', t), user, until)
  {
    var s'' := Next(p, s', t);
    RefusesIffLocked(p, s'.entries, user, until);
    RefusesIffLocked(p, s''.entries, user, until);
    if t.Record? && s'.attempts[t.id].user == user {
      assert s.attempts[t.id] == s'.attempts[t.id];
    }
  }

  lemma {:induction false} LegalPrefix(p: Policy, r: Run, more: Run)
    requires Legal(p, Append(r, more))
    ensures Legal(p, r)
  {
    if more.Then? { LegalPrefix(p, r, more.before); }
  }

  lemma {:induction false} LockRuns(p: Policy, r: Run, more: Run, user: User, until: real)
    requires user != NOBODY && Legal(p, Append(r, more)) && Within(more, until)
    requires user in After(p, r).entries && After(p, r).entries[user].lockedUntil == Some(until)
    ensures var s := After(p, r);
            && (Holds(p, r, more, user, until) <==> NothingLifts(p, s, user, s.entries[user].firstFailure, more))
            && (Holds(p, r, more, user, until) ==> StillLocked(p, s, After(p, Append(r, more)), user, until))
  {
    var s := After(p, r);
    if more.Start? {
      RefusesIffLocked(p, s.entries, user, until);
    } else {
      LockRuns(p, r, more.before, user, until);
      if Holds(p, r, more.before, user, until) {
        var q := Append(r, more.before);
        RunFits(p, q, more.step.at);
        LockedStep(p, s, After(p, q), user, until, more.step);
      }
    }
  }

  /** A lock holds until its end, against all logins and sweeps, if and only if no attempt that was
      let through before it was set records, while it runs, a success, or a failure after the
      window is over (with a threshold above 1). */
  lemma LockSurvivesIff(p: Policy, r: Run, more: Run, user: User, until: real)
    requires user != NOBODY && Legal(p, Append(r, more)) && Within(more, until)
    requires user in After(p, r).entries && After(p, r).entries[user].lockedUntil == Some(until)
    ensures Holds(p, r, more, user, until) <==>
            NothingLifts(p, After(p, r), user, After(p, r).entries[user].firstFailure, more)
  {
    LockRuns(p, r, more, user, until);
  }

  // ----- Locks that do not hold -----

  /** n attempts let through at once, at instant 0, before any of them records. */
  function Crowd(user: User, n: nat): Run {
    if n == 0 then Run.Start else Run.Then(Crowd(user, n - 1), Probe(n - 1, user, 0.0))
  }

  lemma {:induction false} CrowdPends(p: Policy, user: User, n: nat)
    ensures Legal(p, Crowd(user, n)) && NotAfter(Crowd(user, n), 0.0)
    ensures var s := After(p, Crowd(user, n));
            && s.entries == map[]
            && (forall i: nat :: i in s.attempts <==> i < n)
            && (forall i: nat :: i < n ==> s.attempts[i] == Pending(user, 0.0))
  {
    if n > 0 { CrowdPends(p, user, n - 1); }
  }

  /** The first m of them fail at instant 0. */
  function Failed(r: Run, m: nat): Run {
    if m == 0 then r else Run.Then(Failed(r, m - 1), Record(m - 1, false, 0.0))
  }

  function CountOf(p: Policy, m: nat): Entry {
    Entry(m, 0.0, 0.0, if m >= p.lockoutThreshold then Some(p.lockoutDuration) else None)
  }

  lemma {:induction false} FailedCounts(p: Policy, user: User, n: nat, m: nat)
    requires user != NOBODY && m <= n && p.window >= 0.0
    ensures var r := Failed(Crowd(user, n), m);
            && Legal(p, r) && NotAfter(r, 0.0)
            && After(p, r).entries == (if m == 0 then map[] else map[user := CountOf(p, m)])
            && (forall i: nat :: i in After(p, r).attempts <==> i < n)
            && (forall i: nat :: m <= i < n ==> After(p, r).attempts[i] == Pending(user, 0.0))
  {
    CrowdPends(p, user, n);
    if m > 0 {
      FailedCounts(p, user, n, m - 1);
      FailOnce(p, After(p, Failed(Crowd(user, n), m - 1)), user, m - 1);
    }
  }

  lemma FailOnce(p: Policy, s: State, user: User, m: nat)
    requires user != NOBODY && p.window >= 0.0 && m in s.attempts && s.attempts[m] == Pending(user, 0.0)
    requires s.entries == if m == 0 then map[] else map[user := CountOf(p, m)]
    ensures Next(p, s, Record(m, false, 0.0)) == State(map[user := CountOf(p, m + 1)], s.attempts[m := Over])
  {
    assert Counted(p, s.entries, user, 0.0) == CountOf(p, m + 1);
  }

  /** The lock set in r runs until `until`, step t comes before that, and after it a probe is let
      through all the same. */
  ghost predicate LockIsLifted(p: Policy, r: Run, t: Step, user: User, until: real) {
    && Legal(p, Run.Then(r, t)) && t.at < until
    && user in After(p, r).entries && After(p, r).entries[user].lockedUntil == Some(until)
    && CheckResult(p, After(p, Run.Then(r, t)).entries, user, t.at).allowed
  }

  /** Under every policy with a threshold above 1, a failed login that was let through before the
      lock and records after the window lifts it. */
  lemma PendingFailureLiftsLock(p: Policy, user: User) returns (r: Run, t: Step, until: real)
    requires user != NOBODY && p.lockoutThreshold > 1 && p.lockoutDuration > 0.0 && p.window >= 0.0
    ensures LockIsLifted(p, r, t, user, until) && t.Record? && !t.good
    ensures WindowOver(p, After(p, r).entries[user], t.at)
  {
    var n := p.lockoutThreshold;
    FailedCounts(p, user, n + 1, n - 1);
    r := Run.Then(Failed(Crowd(user, n + 1), n - 1), Record(n - 1, false, p.window));
    t := Record(n, false, p.window + p.lockoutDuration / 2.0);
    until := p.window + p.lockoutDuration;
  }

  /** Under every policy, so does a successful one. */
  lemma PendingSuccessLiftsLock(p: Policy, user: User) returns (r: Run, t: Step, until: real)
    requires user != NOBODY && p.lockoutDuration > 0.0 && p.window >= 0.0
    ensures LockIsLifted(p, r, t, user, until) && t.Record? && t.good
  {
    var n := if p.lockoutThreshold > 1 then p.lockoutThreshold else 1;
    FailedCounts(p, user, n + 1, n);
    r := Failed(Crowd(user, n + 1), n);
    t := Record(n, true, 0.0);
    until := p.lockoutDuration;
  }

  /** The policy of the API server, in seconds. */
  const PRODUCTION := Policy(900.0, 20, 900.0, 60.0)

  lemma FullDelay()
    ensures BackoffFor(19, 60.0) == 60.0
  {
    Pow2Monotone(6, 18);
    assert Pow2(6) == 64;
  }

  /** It happens within the delays the server imposes: two attempts probe at 820 s and 880 s and sleep
      the full minute; the first then locks the account until 1785 s, the second unlocks it at 941 s. */
  lemma ProductionLockIsLifted(user: User) returns (r: Run)
    requires user != NOBODY
    ensures LockIsLifted(PRODUCTION, r, Record(20, false, 941.0), user, 1785.0)
    ensures After(PRODUCTION, r).attempts[20] == Pending(user, 940.0)
  {
    var p := PRODUCTION;
    FailedCounts(p, user, 19, 19);
    FullDelay();
    var r0 := Failed(Crowd(user, 19), 19);
    var r1 := Run.Then(r0, Probe(19, user, 820.0));
    assert Legal(p, r1) && After(p, r1) == State(map[user := CountOf(p, 19)], After(p, r0).attempts[19 := Pending(user, 880.0)]);
    var r2 := Run.Then(r1, Probe(20, user, 880.0));
    assert Legal(p, r2) && After(p, r2) == State(map[user := CountOf(p, 19)], After(p, r1).attempts[20 := Pending(user, 940.0)]);
    r := Run.Then(r2, Record(19, false, 885.0));
    assert Legal(p, r) && After(p, r).entries[user] == Entry(20, 0.0, 885.0, Some(1785.0));
  }
}
