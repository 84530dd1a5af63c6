/** What Check and RecordFailure answer, in terms of what happened to the account and of nothing the
    throttler stores: the failures since its window opened. Sweeps do not appear in it. */
module ThrottleHistory {
  import opened Options
  import opened AccountThrottle

  /** Failures recorded in a row, the first of which opened the window. */
  datatype Streak = Streak(count: int, first: real, last: real)

  /** A failure continues the streak unless the window, which opened with its first failure, is over;
      a success ends it. */
  function StreakOf(p: Policy, r: Run, key: User): Option<Streak> {
    match r
    case Start => None
    case Then(before, op) =>
      var s := StreakOf(p, before, key);
      match op
      case Failure(k, at) =>
        if k != key then s
        else if s.Some? && at - s.value.first <= p.window then Some(Streak(s.value.count + 1, s.value.first, at))
        else Some(Streak(1, at, at))
      case Success(k, _) => if k == key then None else s
      case _ => s
  }

  /** The recommended delay after n failures, of which the first costs a second and each further one
      the double, up to the cap and the 31st. */
  function Delay(n: int, cap: real): real {
    if n <= 0 then 0.0
    else if n == 1 then Min(1.0, cap)
    else if n <= 31 then Min(2.0 * Delay(n - 1, cap), cap)
    else Delay(31, cap)
  }

  lemma {:induction false} DelayIsBackoff(n: int, cap: real)
    requires cap >= 0.0
    ensures BackoffFor(n, cap) == Delay(n, cap)
    decreases if n > 31 then 32 else if n > 0 then n else 0
  {
    BackoffDoubles(n, cap);
    if 2 <= n <= 31 {
      DelayIsBackoff(n - 1, cap);
      BackoffDoubles(n - 1, cap);
    } else if n > 31 {
      DelayIsBackoff(31, cap);
    }
  }

  /** A streak that has reached the threshold locks from its last failure on. */
  function LockEnd(p: Policy, s: Streak): Option<real> {
    if s.count >= p.lockoutThreshold then Some(s.last + p.lockoutDuration) else None
  }

  function EntryOf(p: Policy, s: Streak): Entry { Entry(s.count, s.first, s.last, LockEnd(p, s)) }

  /** The stored entry is the streak's; where there is none, a streak is over and locks no more. */
  ghost predicate Stored(p: Policy, m: Entries, s: Option<Streak>, key: User, now: real) {
    if key in m then s.Some? && m[key] == EntryOf(p, s.value)
    else s.Some? ==> now - s.value.first > p.window && !LockedAt(EntryOf(p, s.value), now)
  }

  lemma StoredStep(p: Policy, m: Entries, r: Run, key: User, op: Op)
    requires key != NOBODY && Stored(p, m, StreakOf(p, r, key), key, op.at)
    requires key in m ==> m[key].firstFailure <= m[key].lastFailure
    ensures Stored(p, Step(p, m, op), StreakOf(p, Run.Then(r, op), key), key, op.at)
  {
  }

  lemma {:induction false} RunStores(p: Policy, r: Run, key: User, now: real)
    requires key != NOBODY && Ordered(r) && NotAfter(r, now)
    ensures Stored(p, Final(p, r), StreakOf(p, r, key), key, now)
  {
    if r.Then? {
      RunStores(p, r.before, key, r.op.at);
      RunSane(p, r.before, r.op.at);
      StoredStep(p, Final(p, r.before), r.before, key, r.op);
    }
  }

  /** RecordFailure: the n-th failure of a streak is allowed with the n-th delay while n is below the
      threshold; from there on it locks the account for the lockout duration. */
  lemma FailureFollowsHistory(p: Policy, r: Run, key: User, now: real)
    requires key != NOBODY && Ordered(Run.Then(r, Failure(key, now))) && p.backoffMax >= 0.0
    ensures var s := StreakOf(p, Run.Then(r, Failure(key, now)), key);
            && s.Some?
            && FailureResult(p, Final(p, r), key, now) ==
               if s.value.count < p.lockoutThreshold
               then Result(true, None, Delay(s.value.count, p.backoffMax), s.value.count)
               else Result(false, Some(now + p.lockoutDuration), 0.0, s.value.count)
  {
    RunStores(p, r, key, now);
    DelayIsBackoff(Counted(p, Final(p, r), key, now).failureCount, p.backoffMax);
  }

  /** Check: refused while the streak's lock lasts; else clear without a streak or once its window is
      over; else allowed with the delay and count of the streak. */
  lemma CheckFollowsHistory(p: Policy, r: Run, key: User, now: real)
    requires key != NOBODY && Ordered(r) && NotAfter(r, now) && p.backoffMax >= 0.0
    ensures var s := StreakOf(p, r, key);
            CheckResult(p, Final(p, r), key, now) ==
            if s.None? then Result(true, None, 0.0, 0)
            else if s.value.count >= p.lockoutThreshold && now < s.value.last + p.lockoutDuration
            then Result(false, Some(s.value.last + p.lockoutDuration), 0.0, s.value.count)
            else if now - s.value.first > p.window then Result(true, None, 0.0, 0)
            else Result(true, None, Delay(s.value.count, p.backoffMax), s.value.count)
  {
    RunStores(p, r, key, now);
    var s := StreakOf(p, r, key);
    if s.Some? { DelayIsBackoff(s.value.count, p.backoffMax); }
  }

  /** Nobody is never counted or refused. */
  lemma NobodyIsIgnored(p: Policy, m: Entries, now: real)
    ensures CheckResult(p, m, User(""), now) == FailureResult(p, m, User(""), now) == Result(true, None, 0.0, 0)
    ensures Step(p, m, Failure(User(""), now)) == m && Step(p, m, Success(User(""), now)) == m
  {
  }

  /** n failures in a row: the n-th one's answer, in numbers. */
  lemma {:induction false} StreakCounts(p: Policy, r: Run, key: User, t: real, n: nat)
    requires p.window >= 0.0 && StreakOf(p, r, key) == None && n >= 1
    ensures StreakOf(p, Volley(r, key, t, n), key) == Some(Streak(n, t, t))
  {
    if n > 1 { StreakCounts(p, r, key, t, n - 1); }
  }

  /** A sweep keeps the entry of an account exactly when its lock is running or its last failure is no
      older than the window; what it keeps it leaves alone. */
  lemma CleanupFollowsHistory(p: Policy, r: Run, key: User, now: real)
    requires key != NOBODY && Ordered(Run.Then(r, Cleanup(now)))
    ensures var m, m', s := Final(p, r), Final(p, Run.Then(r, Cleanup(now))), StreakOf(p, r, key);
            && (key in m' ==> key in m && m'[key] == m[key])
            && (key in m ==> s.Some?)
            && (key in m ==>
                  (key in m' <==> now - s.value.last <= p.window
                                  || (s.value.count >= p.lockoutThreshold && now < s.value.last + p.lockoutDuration)))
  {
    RunStores(p, r, key, now);
  }

  /** Right after its failures an account has an entry, so the sweep is the only way, besides a
      success, to lose one. */
  lemma EntriesAreLost(p: Policy, m: Entries, op: Op, key: User)
    requires key in m && key !in Step(p, m, op)
    ensures (op.Success? && op.key == key) || op.Cleanup?
  {
  }
}
