/** The per-account failure throttle of api/internal/middleware/account_throttle.go.

    Accounts are usernames after normalisation. Time is a
    non-decreasing argument. Every method holds the mutex for its whole body, so a run is a
    sequence of calls. `softThreshold` is stored by the source but never read, and is left out. */
module AccountThrottle {
  import opened Options
  import opened Windows

  /** A username after normalisation; the empty one is the source's no-op. */
  datatype User = User(text: string)

  const NOBODY := User("")

  datatype Policy = Policy(window: real, lockoutThreshold: int, lockoutDuration: real, backoffMax: real)
  datatype Entry = Entry(failureCount: int, firstFailure: real, lastFailure: real, lockedUntil: Option<real>)
  datatype Result = Result(allowed: bool, lockedUntil: Option<real>, delay: real, failureCount: int)
  type Entries = map<User, Entry>

  datatype Op =
    | Check(key: User, at: real)
    | Failure(key: User, at: real)
    | Success(key: User, at: real)
    | Cleanup(at: real)

  const CLEAR := Result(true, None, 0.0, 0)

  // ----- Backoff -----

  function Pow2(n: nat): (r: int)
    ensures r >= 1
  {
    if n == 0 then 1 else 2 * Pow2(n - 1)
  }

  /** 1s, 2s, 4s, ... capped; the exponent stops at 30, so no shift can overflow. */
  function BackoffFor(count: int, backoffMax: real): real {
    if count <= 0 then 0.0
    else
      var d := Pow2(if count - 1 < 30 then count - 1 else 30) as real;
      if d > backoffMax then backoffMax else d
  }

  lemma {:induction false} Pow2Monotone(m: nat, n: nat)
    requires m <= n
    ensures Pow2(m) <= Pow2(n)
  {
    if m < n { Pow2Monotone(m, n - 1); }
  }

  /** More failures never shorten the recommended delay, and the cap is never exceeded. */
  lemma BackoffMonotone(count: int, count': int, backoffMax: real)
    requires count <= count' && backoffMax >= 0.0
    ensures 0.0 <= BackoffFor(count, backoffMax) <= BackoffFor(count', backoffMax) <= backoffMax
  {
    if count > 0 {
      Pow2Monotone(if count - 1 < 30 then count - 1 else 30, if count' - 1 < 30 then count' - 1 else 30);
    }
  }

  function Min(a: real, b: real): real { if a <= b then a else b }

  /** Nothing without a failure, a second for the first one, then the double each time, up to the cap
      and up to the 31st failure. */
  lemma BackoffDoubles(n: int, backoffMax: real)
    requires backoffMax >= 0.0
    ensures n <= 0 ==> BackoffFor(n, backoffMax) == 0.0
    ensures BackoffFor(1, backoffMax) == Min(1.0, backoffMax)
    ensures 1 <= n <= 30 ==> BackoffFor(n + 1, backoffMax) == Min(2.0 * BackoffFor(n, backoffMax), backoffMax)
    ensures n >= 31 ==> BackoffFor(n, backoffMax) == BackoffFor(31, backoffMax)
  {
    if 1 <= n <= 30 { assert Pow2(n) == 2 * Pow2(n - 1); }
  }

  // ----- Specification of one call -----

  predicate LockedAt(e: Entry, now: real) { e.lockedUntil.Some? && e.lockedUntil.value > now }

  predicate WindowOver(p: Policy, e: Entry, now: real) { now - e.firstFailure > p.window }

  function CheckResult(p: Policy, m: Entries, key: User, now: real): Result {
    if key == NOBODY || key !in m then CLEAR
    else
      var e := m[key];
      if LockedAt(e, now) then Result(false, e.lockedUntil, 0.0, e.failureCount)
      else if WindowOver(p, e, now) then CLEAR
      else Result(true, None, BackoffFor(e.failureCount, p.backoffMax), e.failureCount)
  }

  /** The entry RecordFailure leaves behind. */
  function Counted(p: Policy, m: Entries, key: User, now: real): Entry {
    var e := if key !in m || WindowOver(p, m[key], now) then Entry(1, now, now, None)
             else m[key].(failureCount := m[key].failureCount + 1, lastFailure := now);
    if e.failureCount >= p.lockoutThreshold then e.(lockedUntil := Some(now + p.lockoutDuration)) else e
  }

  function FailureResult(p: Policy, m: Entries, key: User, now: real): Result {
    if key == NOBODY then CLEAR
    else
      var e := Counted(p, m, key, now);
      if e.failureCount >= p.lockoutThreshold then Result(false, e.lockedUntil, 0.0, e.failureCount)
      else Result(true, None, BackoffFor(e.failureCount, p.backoffMax), e.failureCount)
  }

  predicate Expired(p: Policy, e: Entry, now: real) {
    !LockedAt(e, now) && now - e.lastFailure > p.window
  }

  function Step(p: Policy, m: Entries, op: Op): Entries {
    match op
    case Check(_, _) => m
    case Failure(key, at) => if key == NOBODY then m else m[key := Counted(p, m, key, at)]
    case Success(key, _) => if key == NOBODY then m else m - {key}
    case Cleanup(at) => map key | key in m && !Expired(p, m[key], at) :: m[key]
  }

  // ----- The throttler itself -----

  class AccountThrottler {
    const policy: Policy
    var entries: Entries

    constructor (policy: Policy)
      ensures this.policy == policy && entries == map[]
    {
      this.policy := policy;
      entries := map[];
    }

    method Check(key: User, now: real) returns (r: Result)
      ensures r == CheckResult(policy, entries, key, now)
    {
      if key == NOBODY || key !in entries {
        return CLEAR;
      }
      var entry := entries[key];
      if entry.lockedUntil.Some? && entry.lockedUntil.value > now {
        return Result(false, entry.lockedUntil, 0.0, entry.failureCount);
      }
      if now - entry.firstFailure > policy.window {
        return CLEAR;
      }
      return Result(true, None, BackoffFor(entry.failureCount, policy.backoffMax), entry.failureCount);
    }

    method RecordFailure(key: User, now: real) returns (r: Result)
      modifies this
      ensures r == FailureResult(policy, old(entries), key, now)
      ensures entries == Step(policy, old(entries), Failure(key, now))
    {
      if key == NOBODY {
        return CLEAR;
      }
      var entry;
      if key !in entries || now - entries[key].firstFailure > policy.window {
        entry := Entry(1, now, now, None);
      } else {
        entry := entries[key];
        entry := entry.(failureCount := entry.failureCount + 1, lastFailure := now);
      }
      if entry.failureCount >= policy.lockoutThreshold {
        entry := entry.(lockedUntil := Some(now + policy.lockoutDuration));
        entries := entries[key := entry];
        return Result(false, entry.lockedUntil, 0.0, entry.failureCount);
      }
      entries := entries[key := entry];
      return Result(true, None, BackoffFor(entry.failureCount, policy.backoffMax), entry.failureCount);
    }

    method RecordSuccess(key: User, now: real)
      modifies this
      ensures entries == Step(policy, old(entries), Success(key, now))
    {
      if key != NOBODY {
        entries := entries - {key};
      }
    }

    method Cleanup(now: real)
      modifies this
      ensures entries == Step(policy, old(entries), Op.Cleanup(now))
    {
      var pending := entries.Keys;
      while pending != {}
        invariant pending <= entries.Keys <= old(entries).Keys
        invariant forall k :: k in entries ==> entries[k] == old(entries)[k]
        invariant forall k :: k in old(entries) && k !in pending ==>
                    (k in entries <==> !Expired(policy, old(entries)[k], now))
        decreases pending
      {
        var key :| key in pending;
        pending := pending - {key};
        var entry := entries[key];
        if entry.lockedUntil.Some? && entry.lockedUntil.value > now {
          continue;
        }
        if now - entry.lastFailure > policy.window {
          entries := entries - {key};
        }
      }
    }
  }

  // ----- Runs -----

  datatype Run = Start | Then(before: Run, op: Op)

  function Final(p: Policy, r: Run): Entries {
    match r
    case Start => map[]
    case Then(before, op) => Step(p, Final(p, before), op)
  }

  /** What the Check and RecordFailure calls of a run returned, in call order. */
  function Results(p: Policy, r: Run): seq<Result> {
    match r
    case Start => []
    case Then(before, op) =>
      var rest, m := Results(p, before), Final(p, before);
      match op
      case Check(key, at) => rest + [CheckResult(p, m, key, at)]
      case Failure(key, at) => rest + [FailureResult(p, m, key, at)]
      case _ => rest
  }

  /** The last call was made no later than t. */
  predicate NotAfter(r: Run, t: real) { r.Then? ==> r.op.at <= t }

  /** The clock never goes back. */
  predicate Ordered(r: Run) { r.Then? ==> Ordered(r.before) && NotAfter(r.before, r.op.at) }

  function WithoutCleanups(r: Run): Run {
    match r
    case Start => Start
    case Then(before, op) => if op.Cleanup? then WithoutCleanups(before) else Then(WithoutCleanups(before), op)
  }

  /** What every entry of a reachable state satisfies. */
  ghost predicate Sane(p: Policy, m: Entries) {
    forall k :: k in m ==>
      && m[k].firstFailure <= m[k].lastFailure
      && (m[k].lockedUntil.Some? ==> m[k].failureCount >= p.lockoutThreshold)
      && m[k].failureCount >= 1 && k != NOBODY
  }

  lemma {:induction false} RunSane(p: Policy, r: Run, now: real)
    requires Ordered(r) && NotAfter(r, now)
    ensures Sane(p, Final(p, r))
    ensures forall k :: k in Final(p, r) ==> Final(p, r)[k].lastFailure <= now
  {
    if r.Then? { RunSane(p, r.before, r.op.at); }
  }

  // ----- Cleanup -----

  /** From `now` on, an entry no call can tell from a missing one. */
  ghost predicate Forgotten(p: Policy, m: Entries, key: User, now: real) {
    key !in m || (!LockedAt(m[key], now) && WindowOver(p, m[key], now))
  }

  ghost predicate Alike(p: Policy, m: Entries, m': Entries, now: real) {
    forall k ::
      || (k in m && k in m' && m[k] == m'[k])
      || (Forgotten(p, m, k, now) && Forgotten(p, m', k, now))
  }

  lemma AlikeStep(p: Policy, m: Entries, m': Entries, op: Op)
    requires Alike(p, m, m', op.at) && !op.Cleanup?
    ensures op.Check? ==> CheckResult(p, m, op.key, op.at) == CheckResult(p, m', op.key, op.at)
    ensures op.Failure? ==> FailureResult(p, m, op.key, op.at) == FailureResult(p, m', op.key, op.at)
    ensures Alike(p, Step(p, m, op), Step(p, m', op), op.at)
  {
    var a, a' := Step(p, m, op), Step(p, m', op);
    forall k
      ensures (k in a && k in a' && a[k] == a'[k]) || (Forgotten(p, a, k, op.at) && Forgotten(p, a', k, op.at))
    {
      assert (k in m && k in m' && m[k] == m'[k]) || (Forgotten(p, m, k, op.at) && Forgotten(p, m', k, op.at));
    }
  }

  lemma AlikeLater(p: Policy, m: Entries, m': Entries, now: real, later: real)
    requires Alike(p, m, m', now) && now <= later
    ensures Alike(p, m, m', later)
  {
  }

  lemma AlikeAfterCleanup(p: Policy, m: Entries, m': Entries, now: real)
    requires Alike(p, m, m', now) && Sane(p, m)
    ensures Alike(p, Step(p, m, Cleanup(now)), m', now)
  {
    var a := Step(p, m, Cleanup(now));
    forall k
      ensures (k in a && k in m' && a[k] == m'[k]) || (Forgotten(p, a, k, now) && Forgotten(p, m', k, now))
    {
      assert (k in m && k in m' && m[k] == m'[k]) || (Forgotten(p, m, k, now) && Forgotten(p, m', k, now));
    }
  }

  /** Cleanup calls anywhere in a run change no result, whatever the policy. */
  lemma {:induction false} CleanupUnobservable(p: Policy, r: Run, now: real)
    requires Ordered(r) && NotAfter(r, now)
    ensures Results(p, r) == Results(p, WithoutCleanups(r))
    ensures Alike(p, Final(p, r), Final(p, WithoutCleanups(r)), now)
  {
    if r.Then? {
      CleanupUnobservable(p, r.before, r.op.at);
      RunSane(p, r.before, r.op.at);
      var m, m' := Final(p, r.before), Final(p, WithoutCleanups(r.before));
      if r.op.Cleanup? {
        AlikeAfterCleanup(p, m, m', r.op.at);
      } else {
        AlikeStep(p, m, m', r.op);
      }
      AlikeLater(p, Final(p, r), Final(p, WithoutCleanups(r)), r.op.at, now);
    }
  }

  // ----- The window bound -----

  /** RecordFailure answers Allowed=true for the account (see AdmitsIsAllowed). */
  predicate Admits(p: Policy, m: Entries, key: User, now: real) {
    Counted(p, m, key, now).failureCount < p.lockoutThreshold
  }

  lemma AdmitsIsAllowed(p: Policy, m: Entries, key: User, now: real)
    requires key != NOBODY
    ensures Admits(p, m, key, now) <==> FailureResult(p, m, key, now).allowed
  {
  }

  /** A RecordFailure result with Allowed=true: when, in which window, with which count. */
  datatype Admitted = Admitted(at: real, first: real, count: int)

  function AdmittedFailures(p: Policy, r: Run, key: User): seq<Admitted> {
    match r
    case Start => []
    case Then(before, op) =>
      var log, m := AdmittedFailures(p, before, key), Final(p, before);
      if op.Failure? && op.key == key && Admits(p, m, key, op.at)
      then
        var e := Counted(p, m, key, op.at);
        log + [Admitted(op.at, e.firstFailure, e.failureCount)]
      else log
  }

  /** No successful login of the account. */
  predicate NoSuccess(r: Run, key: User) {
    r.Then? ==> NoSuccess(r.before, key) && !(r.op.Success? && r.op.key == key)
  }

  function Times(log: seq<Admitted>): (r: seq<real>)
    ensures |r| == |log| && forall i :: 0 <= i < |log| ==> r[i] == log[i].at
  {
    if log == [] then [] else Times(log[..|log| - 1]) + [log[|log| - 1].at]
  }

  /** Consecutive admitted failures share a window and count up, or a fresh window begins
      strictly after the old one is over. */
  ghost predicate Linked(p: Policy, a: Admitted, b: Admitted) {
    && a.at <= b.at
    && (|| (b.first == a.first && b.count == a.count + 1)
        || (b.count == 1 && b.first > a.first + p.window))
  }

  ghost predicate Chain(p: Policy, log: seq<Admitted>) {
    && (forall i :: 0 <= i < |log| ==> 1 <= log[i].count < p.lockoutThreshold)
    && (forall i :: 0 <= i < |log| ==> log[i].first <= log[i].at && (p.window >= 0.0 ==> log[i].at <= log[i].first + p.window))
    && (forall i :: 0 <= i < |log| && log[i].count == 1 ==> log[i].at == log[i].first)
    && (forall i :: 0 < i < |log| ==> Linked(p, log[i - 1], log[i]))
  }

  /** How the stored entry continues the chain. */
  ghost predicate Continues(p: Policy, m: Entries, key: User, log: seq<Admitted>, now: real) {
    if log == [] then key !in m || p.lockoutThreshold <= 1
    else
      var r := log[|log| - 1];
      && r.at <= now
      && if key in m then
           && m[key].firstFailure == r.first
           && r.count == if m[key].failureCount < p.lockoutThreshold then m[key].failureCount
                         else p.lockoutThreshold - 1
         else now - r.first > p.window
  }

  lemma ChainSnoc(p: Policy, log: seq<Admitted>, r: Admitted)
    requires Chain(p, log) && 1 <= r.count < p.lockoutThreshold && r.first <= r.at
    requires p.window >= 0.0 ==> r.at <= r.first + p.window
    requires r.count == 1 ==> r.at == r.first
    requires log != [] ==> Linked(p, log[|log| - 1], r)
    ensures Chain(p, log + [r])
  {
  }

  lemma FailureContinues(p: Policy, m: Entries, key: User, log: seq<Admitted>, now: real)
    requires key != NOBODY && Sane(p, m) && Chain(p, log) && Continues(p, m, key, log, now)
    requires key in m ==> m[key].lastFailure <= now
    requires p.lockoutThreshold <= 1 ==> log == []
    ensures var e := Counted(p, m, key, now);
            var log' := if Admits(p, m, key, now)
                        then log + [Admitted(now, e.firstFailure, e.failureCount)] else log;
            && Chain(p, log') && Continues(p, m[key := e], key, log', now)
            && (p.lockoutThreshold <= 1 ==> log' == [])
  {
    var e := Counted(p, m, key, now);
    if e.failureCount < p.lockoutThreshold {
      ChainSnoc(p, log, Admitted(now, e.firstFailure, e.failureCount));
    }
  }

  lemma {:induction false} RunChains(p: Policy, r: Run, key: User, now: real)
    requires key != NOBODY && Ordered(r) && NotAfter(r, now) && NoSuccess(r, key)
    ensures Chain(p, AdmittedFailures(p, r, key))
    ensures Continues(p, Final(p, r), key, AdmittedFailures(p, r, key), now)
    ensures p.lockoutThreshold <= 1 ==> AdmittedFailures(p, r, key) == []
  {
    if r.Then? {
      var op, m, log := r.op, Final(p, r.before), AdmittedFailures(p, r.before, key);
      RunChains(p, r.before, key, op.at);
      RunSane(p, r.before, op.at);
      if op.Failure? && op.key == key {
        FailureContinues(p, m, key, log, op.at);
      } else {
        OtherContinues(p, m, key, log, op);
      }
      ContinuesLater(p, Final(p, r), key, AdmittedFailures(p, r, key), op.at, now);
    }
  }

  /** No other call but a success of the account touches the chain. */
  lemma OtherContinues(p: Policy, m: Entries, key: User, log: seq<Admitted>, op: Op)
    requires key != NOBODY && Sane(p, m) && Continues(p, m, key, log, op.at)
    requires !(op.Failure? && op.key == key) && !(op.Success? && op.key == key)
    ensures Continues(p, Step(p, m, op), key, log, op.at)
  {
  }

  lemma ContinuesLater(p: Policy, m: Entries, key: User, log: seq<Admitted>, now: real, later: real)
    requires Continues(p, m, key, log, now) && now <= later
    ensures Continues(p, m, key, log, later)
  {
  }

  /** The first admitted failure of the next window, counted from the i-th record. */
  lemma {:induction false} NextWindow(p: Policy, log: seq<Admitted>, i: nat) returns (j: nat)
    requires i < |log| && Chain(p, log) && i + p.lockoutThreshold - log[i].count < |log|
    ensures i < j <= i + p.lockoutThreshold - log[i].count
    ensures log[j].count == 1 && log[j].first > log[i].first + p.window
    decreases p.lockoutThreshold - log[i].count
  {
    assert Linked(p, log[i], log[i + 1]);
    if log[i + 1].count == 1 && log[i + 1].first > log[i].first + p.window {
      j := i + 1;
    } else {
      j := NextWindow(p, log, i + 1);
    }
  }

  lemma {:induction false} ChainSorted(p: Policy, log: seq<Admitted>, i: nat, j: nat)
    requires Chain(p, log) && i <= j < |log|
    ensures log[i].at <= log[j].at
  {
    if i < j {
      ChainSorted(p, log, i, j - 1);
      assert Linked(p, log[j - 1], log[j]);
    }
  }

  /** 2L-2 consecutive admitted failures never fit in one window length. */
  lemma Spread(p: Policy, log: seq<Admitted>, i: nat)
    requires Chain(p, log) && p.lockoutThreshold >= 2 && i + 2 * p.lockoutThreshold - 3 < |log|
    ensures log[i + 2 * p.lockoutThreshold - 3].at > log[i].at + p.window
  {
    var end := i + 2 * p.lockoutThreshold - 3;
    var j := NextWindow(p, log, i);
    if log[i].count == 1 {
      ChainSorted(p, log, j, end);
    } else {
      var k := NextWindow(p, log, j);
      ChainSorted(p, log, i, j);
      ChainSorted(p, log, k, end);
    }
  }

  /** The largest number of admitted failures any window-length interval can hold. */
  function WindowCap(p: Policy): nat {
    if p.lockoutThreshold <= 1 then 0
    else if p.window == 0.0 then p.lockoutThreshold - 1
    else 2 * p.lockoutThreshold - 3
  }

  /** How many failures the run admitted in [lo, hi]. */
  ghost function AdmittedWithin(p: Policy, r: Run, key: User, lo: real, hi: real): nat {
    Within(Times(AdmittedFailures(p, r, key)), lo, hi)
  }

  /** With a window of no length, failures admitted at one instant just count up. */
  lemma {:induction false} InstantCounts(p: Policy, log: seq<Admitted>, i: nat, j: nat, a: real)
    requires Chain(p, log) && p.window == 0.0 && i <= j < |log|
    requires forall k :: i <= k <= j ==> log[k].at == a
    ensures log[j].count == log[i].count + j - i
  {
    if i < j {
      InstantCounts(p, log, i, j - 1, a);
      assert Linked(p, log[j - 1], log[j]);
    }
  }

  /** Admitted failures that all lie in [a, a + window] are at most WindowCap many. */
  lemma BlockBound(p: Policy, log: seq<Admitted>, i: nat, j: nat, a: real)
    requires Chain(p, log) && (p.lockoutThreshold <= 1 ==> log == []) && i <= j <= |log|
    requires forall k :: i <= k < j ==> a <= log[k].at <= a + p.window
    ensures j - i <= WindowCap(p)
  {
    if p.lockoutThreshold >= 2 && p.window == 0.0 {
      if i < j { InstantCounts(p, log, i, j - 1, a); }
    } else if p.lockoutThreshold >= 2 && i + WindowCap(p) < j {
      Spread(p, log, i);
    }
  }

  lemma ChainTimesSorted(p: Policy, log: seq<Admitted>)
    requires Chain(p, log)
    ensures Sorted(Times(log))
  {
    forall i, j | 0 <= i <= j < |log| ensures Times(log)[i] <= Times(log)[j] {
      ChainSorted(p, log, i, j);
    }
  }

  lemma ChainBound(p: Policy, log: seq<Admitted>, a: real)
    requires p.window >= 0.0 && Chain(p, log) && (p.lockoutThreshold <= 1 ==> log == [])
    ensures Within(Times(log), a, a + p.window) <= WindowCap(p)
  {
    ChainTimesSorted(p, log);
    var i, j := WithinIsABlock(Times(log), a, a + p.window);
    BlockBound(p, log, i, j, a);
  }

  /** Over every run without RecordSuccess for the account, every closed interval of length
      `window` holds at most WindowCap admitted failures. */
  lemma WindowBound(p: Policy, r: Run, key: User, a: real)
    requires key != NOBODY && Ordered(r) && p.window >= 0.0 && NoSuccess(r, key)
    ensures AdmittedWithin(p, r, key, a, a + p.window) <= WindowCap(p)
  {
    RunChains(p, r, key, if r.Start? then 0.0 else r.op.at);
    ChainBound(p, AdmittedFailures(p, r, key), a);
  }

  // ----- The bound is attained -----

  /** `r` followed by n failures at instant t. */
  function Volley(r: Run, key: User, t: real, n: nat): Run {
    if n == 0 then r else Then(Volley(r, key, t, n - 1), Failure(key, t))
  }

  /** One failure that leaves the count below the threshold is admitted. */
  lemma OneAdmitted(p: Policy, r: Run, key: User, t: real, lo: real, hi: real)
    requires key != NOBODY && Admits(p, Final(p, r), key, t)
    ensures Final(p, Then(r, Failure(key, t))) == Final(p, r)[key := Counted(p, Final(p, r), key, t)]
    ensures AdmittedWithin(p, Then(r, Failure(key, t)), key, lo, hi) ==
            AdmittedWithin(p, r, key, lo, hi) + if lo <= t <= hi then 1 else 0
  {
    var e := Counted(p, Final(p, r), key, t);
    LogSnoc(AdmittedFailures(p, r, key), Admitted(t, e.firstFailure, e.failureCount), lo, hi);
  }

  lemma LogSnoc(log: seq<Admitted>, a: Admitted, lo: real, hi: real)
    ensures Within(Times(log + [a]), lo, hi) == Within(Times(log), lo, hi) + if lo <= a.at <= hi then 1 else 0
  {
    assert (log + [a])[..|log|] == log;
    WithinSnoc(Times(log), a.at, lo, hi);
  }

  /** A volley inside the current window that stays below the threshold is all admitted. */
  lemma {:induction false} VolleyAdmitted(p: Policy, r: Run, key: User, t: real, n: nat, lo: real, hi: real)
    requires key != NOBODY && key in Final(p, r) && !WindowOver(p, Final(p, r)[key], t) && lo <= t <= hi
    requires Final(p, r)[key].failureCount + n < p.lockoutThreshold
    ensures var m, m' := Final(p, r), Final(p, Volley(r, key, t, n));
            && key in m' && m'[key].firstFailure == m[key].firstFailure
            && m'[key].failureCount == m[key].failureCount + n
    ensures AdmittedWithin(p, Volley(r, key, t, n), key, lo, hi) == AdmittedWithin(p, r, key, lo, hi) + n
  {
    if n > 0 {
      VolleyAdmitted(p, r, key, t, n - 1, lo, hi);
      OneAdmitted(p, Volley(r, key, t, n - 1), key, t, lo, hi);
    }
  }

  /** A failure at t0 that opens a window, and n more of its allowance at instant t. */
  function Spend(r: Run, key: User, t0: real, t: real, n: nat): Run {
    Volley(Then(r, Failure(key, t0)), key, t, n)
  }

  lemma SpendAdmitted(p: Policy, r: Run, key: User, t0: real, t: real, n: nat, lo: real, hi: real)
    requires key != NOBODY && n + 1 < p.lockoutThreshold && t0 <= t <= t0 + p.window && lo <= t <= hi
    requires key in Final(p, r) ==> WindowOver(p, Final(p, r)[key], t0)
    ensures var m := Final(p, Spend(r, key, t0, t, n)); key in m && m[key].firstFailure == t0
    ensures AdmittedWithin(p, Spend(r, key, t0, t, n), key, lo, hi) ==
            AdmittedWithin(p, r, key, lo, hi) + n + if lo <= t0 <= hi then 1 else 0
  {
    OneAdmitted(p, r, key, t0, lo, hi);
    VolleyAdmitted(p, Then(r, Failure(key, t0)), key, t, n, lo, hi);
  }

  /** One window opens at 0 and its allowance is spent at its last instant; one window length later
      the whole allowance of the next window is spent at once. A window of no length has only that
      last part. */
  function WorstRun(p: Policy, key: User): Run
    requires p.lockoutThreshold >= 2
  {
    var w, n := p.window, p.lockoutThreshold - 2;
    if w == 0.0 then Spend(Start, key, 0.0, 0.0, n)
    else Spend(Spend(Start, key, 0.0, w, n), key, w + w, w + w, n)
  }

  lemma {:induction false} SpendOrdered(r: Run, key: User, t0: real, t: real, n: nat)
    requires Ordered(r) && NotAfter(r, t0) && t0 <= t && NoSuccess(r, key)
    ensures var q := Spend(r, key, t0, t, n); Ordered(q) && NotAfter(q, t) && NoSuccess(q, key)
  {
    if n > 0 { SpendOrdered(r, key, t0, t, n - 1); }
  }

  /** The bound is exact: this run, without a success, puts WindowCap admitted failures in
      [window, 2 * window]. */
  lemma WindowBoundAttained(p: Policy, key: User)
    requires key != NOBODY && p.lockoutThreshold >= 2 && p.window >= 0.0
    ensures Ordered(WorstRun(p, key)) && NoSuccess(WorstRun(p, key), key)
    ensures AdmittedWithin(p, WorstRun(p, key), key, p.window, p.window + p.window) == WindowCap(p)
  {
    var w, n := p.window, p.lockoutThreshold - 2;
    SpendOrdered(Start, key, 0.0, w, n);
    if w == 0.0 {
      SpendAdmitted(p, Start, key, 0.0, 0.0, n, 0.0, 0.0);
    } else {
      SpendOrdered(Spend(Start, key, 0.0, w, n), key, w + w, w + w, n);
      SpendTwice(p, key, w, w + w, n);
    }
  }

  lemma SpendTwice(p: Policy, key: User, t1: real, t2: real, n: nat)
    requires key != NOBODY && n + 1 < p.lockoutThreshold && 0.0 < t1 == p.window && t2 == t1 + p.window
    ensures AdmittedWithin(p, Spend(Spend(Start, key, 0.0, t1, n), key, t2, t2, n), key, t1, t2) == n + n + 1
  {
    SpendAdmitted(p, Start, key, 0.0, t1, n, t1, t2);
    var r := Spend(Start, key, 0.0, t1, n);
    assert WindowOver(p, Final(p, r)[key], t2);
    SpendAdmitted(p, r, key, t2, t2, n, t1, t2);
  }

  // ----- Lockout -----

  /** A RecordFailure on a locked account unlocks it exactly when its window is over and one failure
      is below the threshold. */
  lemma FailureUnlocksIff(p: Policy, m: Entries, key: User, now: real)
    requires key != NOBODY && key in m && Sane(p, m) && LockedAt(m[key], now) && p.lockoutDuration > 0.0
    ensures !LockedAt(Step(p, m, Failure(key, now))[key], now) <==>
            WindowOver(p, m[key], now) && p.lockoutThreshold > 1
  {
  }
}
