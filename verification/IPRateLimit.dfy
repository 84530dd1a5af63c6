/** The per-IP token bucket of api/internal/middleware/ratelimit.go.

    Time is a non-decreasing argument in seconds and tokens are reals, so float rounding
    is not modelled. Every method of the source holds the mutex for its whole body, hence a
    run of the limiter is a sequence of calls. */
module IPRateLimit {
  import opened Windows

  datatype Bucket = Bucket(tokens: real, lastSeen: real)
  datatype Config = Config(rate: real, burst: int, ttl: real)
  type Clients = map<string, Bucket>

  datatype Op = Allow(ip: string, at: real) | Cleanup(at: real)

  // ----- Specification of one call -----

  function Min(a: real, b: real): real { if a <= b then a else b }

  function Refilled(c: Config, b: Bucket, now: real): real {
    Min(c.burst as real, b.tokens + (now - b.lastSeen) * c.rate)
  }

  predicate Answer(c: Config, m: Clients, ip: string, now: real) {
    ip !in m || Refilled(c, m[ip], now) >= 1.0
  }

  function AfterAllow(c: Config, m: Clients, ip: string, now: real): Clients {
    if ip !in m then m[ip := Bucket(c.burst as real - 1.0, now)]
    else
      var x := Refilled(c, m[ip], now);
      m[ip := Bucket(if x < 1.0 then x else x - 1.0, now)]
  }

  predicate Stale(c: Config, b: Bucket, now: real) { b.lastSeen < now - c.ttl }

  function AfterCleanup(c: Config, m: Clients, now: real): Clients {
    map ip | ip in m && !Stale(c, m[ip], now) :: m[ip]
  }

  // ----- The limiter itself -----

  class IPRateLimiter {
    const config: Config
    var clients: Clients

    constructor (config: Config)
      ensures this.config == config && clients == map[]
    {
      this.config := config;
      clients := map[];
    }

    method Allow(ip: string, now: real) returns (ok: bool)
      modifies this
      ensures ok == Answer(config, old(clients), ip, now)
      ensures clients == AfterAllow(config, old(clients), ip, now)
    {
      if ip !in clients {
        clients := clients[ip := Bucket(config.burst as real - 1.0, now)];
        return true;
      }
      var limiter := clients[ip];
      var elapsed := now - limiter.lastSeen;
      limiter := limiter.(tokens := limiter.tokens + elapsed * config.rate);
      if limiter.tokens > config.burst as real {
        limiter := limiter.(tokens := config.burst as real);
      }
      limiter := limiter.(lastSeen := now);
      if limiter.tokens < 1.0 {
        clients := clients[ip := limiter];
        return false;
      }
      limiter := limiter.(tokens := limiter.tokens - 1.0);
      clients := clients[ip := limiter];
      return true;
    }

    method Cleanup(now: real)
      modifies this
      ensures clients == AfterCleanup(config, old(clients), now)
    {
      var cutoff := now - config.ttl;
      var pending := clients.Keys;
      while pending != {}
        invariant pending <= clients.Keys <= old(clients).Keys
        invariant forall ip :: ip in clients ==> clients[ip] == old(clients)[ip]
        invariant forall ip :: ip in old(clients) && ip !in pending ==>
                    (ip in clients <==> !Stale(config, old(clients)[ip], now))
        decreases pending
      {
        var ip :| ip in pending;
        if clients[ip].lastSeen < cutoff {
          clients := clients - {ip};
        }
        pending := pending - {ip};
      }
    }
  }

  // ----- Runs -----

  function Step(c: Config, m: Clients, op: Op): Clients {
    match op
    case Allow(ip, at) => AfterAllow(c, m, ip, at)
    case Cleanup(at) => AfterCleanup(c, m, at)
  }

  function Final(c: Config, m: Clients, ops: seq<Op>): Clients {
    if ops == [] then m
    else Step(c, Final(c, m, ops[..|ops| - 1]), ops[|ops| - 1])
  }

  /** The answers of the Allow calls of a run, in call order. */
  function Answers(c: Config, m: Clients, ops: seq<Op>): seq<bool> {
    if ops == [] then []
    else
      var n := |ops| - 1;
      var before := Answers(c, m, ops[..n]);
      if ops[n].Allow? then before + [Answer(c, Final(c, m, ops[..n]), ops[n].ip, ops[n].at)] else before
  }

  /** The instants at which the run admitted a request of `ip`. */
  function Admissions(c: Config, m: Clients, ops: seq<Op>, ip: string): seq<real> {
    if ops == [] then []
    else
      var n := |ops| - 1;
      var before := Admissions(c, m, ops[..n], ip);
      if ops[n].Allow? && ops[n].ip == ip && Answer(c, Final(c, m, ops[..n]), ip, ops[n].at)
      then before + [ops[n].at] else before
  }

  /** The clock never goes back, and the run starts no earlier than `start`. */
  ghost predicate Ordered(ops: seq<Op>, start: real) {
    && (forall i :: 0 <= i < |ops| ==> start <= ops[i].at)
    && (forall i, j :: 0 <= i <= j < |ops| ==> ops[i].at <= ops[j].at)
  }

  function WithoutCleanups(ops: seq<Op>): seq<Op> {
    if ops == [] then []
    else
      var n := |ops| - 1;
      WithoutCleanups(ops[..n]) + (if ops[n].Allow? then [ops[n]] else [])
  }

  function LastInstant(ops: seq<Op>, start: real): real {
    if ops == [] then start else ops[|ops| - 1].at
  }

  /** Running x and then y is running y from where x leads. */
  ghost predicate RunsOn(c: Config, m: Clients, x: seq<Op>, y: seq<Op>) {
    && Final(c, m, x + y) == Final(c, Final(c, m, x), y)
    && Answers(c, m, x + y) == Answers(c, m, x) + Answers(c, Final(c, m, x), y)
  }

  lemma RunOfConcat(c: Config, m: Clients, x: seq<Op>, y: seq<Op>)
    ensures Final(c, m, x + y) == Final(c, Final(c, m, x), y)
    ensures Answers(c, m, x + y) == Answers(c, m, x) + Answers(c, Final(c, m, x), y)
  {
    assert RunsOn(c, m, x, y) by { AlwaysRunsOn(c, m, x, y); }
  }

  lemma {:induction false} AlwaysRunsOn(c: Config, m: Clients, x: seq<Op>, y: seq<Op>)
    ensures RunsOn(c, m, x, y)
  {
    if y == [] {
      RunsOnNothing(c, m, x);
    } else {
      var n := |y| - 1;
      AlwaysRunsOn(c, m, x, y[..n]);
      RunsOneMore(c, m, x, y[..n], y[n]);
      assert y[..n] + [y[n]] == y;
    }
  }

  lemma RunsOnNothing(c: Config, m: Clients, x: seq<Op>)
    ensures RunsOn(c, m, x, [])
  {
    assert x + [] == x;
  }

  lemma RunsOneMore(c: Config, m: Clients, x: seq<Op>, y: seq<Op>, op: Op)
    requires RunsOn(c, m, x, y)
    ensures RunsOn(c, m, x, y + [op])
  {
    assert x + (y + [op]) == (x + y) + [op];
    RunOfSnoc(c, m, x + y, op);
    RunOfSnoc(c, Final(c, m, x), y, op);
  }

  /** One more call. */
  lemma RunOfSnoc(c: Config, m: Clients, x: seq<Op>, op: Op)
    ensures Final(c, m, x + [op]) == Step(c, Final(c, m, x), op)
    ensures Answers(c, m, x + [op]) ==
            Answers(c, m, x) + if op.Allow? then [Answer(c, Final(c, m, x), op.ip, op.at)] else []
  {
    assert (x + [op])[..|x|] == x;
  }

  // ----- Exact admission -----

  lemma RateSplits(rate: real, a: real, b: real, d: real)
    ensures rate * (d - a) == rate * (b - a) + (d - b) * rate
  {
  }

  lemma RateMonotone(rate: real, d: real, d': real)
    requires rate >= 0.0 && d <= d'
    ensures rate * d <= rate * d'
  {
  }

  /** The requests an interval of length d may admit. */
  function Budget(c: Config, d: real): real { c.burst as real + c.rate * d }

  /** What the window starting at the k-th admission still leaves free at instant t. */
  ghost function Slack(c: Config, adm: seq<real>, k: nat, t: real): real
    requires k < |adm|
  {
    Budget(c, t - adm[k]) - (|adm| - k) as real
  }

  /** The bucket holds exactly the smallest slack over all earlier admissions. */
  ghost predicate Exact(c: Config, adm: seq<real>, b: Bucket) {
    && adm != [] && Sorted(adm) && adm[|adm| - 1] <= b.lastSeen
    && (forall k :: 0 <= k < |adm| ==> b.tokens <= Slack(c, adm, k, b.lastSeen))
    && (exists k :: 0 <= k < |adm| && b.tokens == Slack(c, adm, k, b.lastSeen))
  }

  ghost predicate Tracks(c: Config, m: Clients, adm: seq<real>, ip: string) {
    if ip in m then Exact(c, adm, m[ip]) else adm == []
  }

  lemma SlackLater(c: Config, adm: seq<real>, k: nat, t: real, t': real)
    requires k < |adm|
    ensures Slack(c, adm, k, t') == Slack(c, adm, k, t) + (t' - t) * c.rate
  {
    RateSplits(c.rate, adm[k], t, t');
  }

  lemma SlackAfterAdmission(c: Config, adm: seq<real>, k: nat, t: real)
    requires k <= |adm|
    ensures Slack(c, adm + [t], k, t) ==
            if k < |adm| then Slack(c, adm, k, t) - 1.0 else c.burst as real - 1.0
  {
    if k < |adm| {
      assert (adm + [t])[k] == adm[k];
    } else {
      assert (adm + [t])[k] == t && t - t == 0.0;
      assert Budget(c, 0.0) == c.burst as real;
    }
  }

  /** The window of the first admission at an instant holds all later ones, ties included. */
  lemma WindowsAreSuffixes(adm: seq<real>, t: real)
    requires Sorted(adm) && forall k :: 0 <= k < |adm| ==> adm[k] <= t
    ensures forall k :: 0 <= k < |adm| ==> Within(adm, adm[k], t) >= |adm| - k
    ensures forall s :: s in adm ==>
              exists k :: 0 <= k < |adm| && adm[k] == s && Within(adm, s, t) == |adm| - k
  {
    forall s | s in adm
      ensures exists k :: 0 <= k < |adm| && adm[k] == s && Within(adm, s, t) == |adm| - k
    {
      var i, j := WithinIsABlock(adm, s, t);
      var k :| 0 <= k < |adm| && adm[k] == s;
      assert adm[i] == s;
    }
    forall k | 0 <= k < |adm|
      ensures Within(adm, adm[k], t) >= |adm| - k
    {
      var i, j := WithinIsABlock(adm, adm[k], t);
    }
  }

  lemma SlackVersusWindow(c: Config, adm: seq<real>, k: nat, t: real)
    requires k < |adm| && Within(adm, adm[k], t) >= |adm| - k
    ensures FitsWindow(c, adm, adm[k], t) ==> Slack(c, adm, k, t) >= 1.0
    ensures Within(adm, adm[k], t) == |adm| - k && Slack(c, adm, k, t) >= 1.0 ==> FitsWindow(c, adm, adm[k], t)
  {
  }

  /** The closed-interval form of the admission test equals its per-index form. */
  lemma WindowTestByIndex(c: Config, adm: seq<real>, t: real)
    requires Sorted(adm) && forall k :: 0 <= k < |adm| ==> adm[k] <= t
    ensures (forall k :: 0 <= k < |adm| ==> Slack(c, adm, k, t) >= 1.0) <==> EveryWindowFits(c, adm, t)
  {
    WindowsAreSuffixes(adm, t);
    if EveryWindowFits(c, adm, t) {
      forall k | 0 <= k < |adm| ensures Slack(c, adm, k, t) >= 1.0 {
        SlackVersusWindow(c, adm, k, t);
      }
    } else {
      var s :| s in adm && !FitsWindow(c, adm, s, t);
      var k :| 0 <= k < |adm| && adm[k] == s && Within(adm, s, t) == |adm| - k;
      SlackVersusWindow(c, adm, k, t);
    }
  }

  /** One more admission at t keeps [s, t] within the budget burst + rate * (t - s). */
  ghost predicate FitsWindow(c: Config, adm: seq<real>, s: real, t: real) {
    (Within(adm, s, t) + 1) as real <= Budget(c, t - s)
  }

  ghost predicate EveryWindowFits(c: Config, adm: seq<real>, t: real) {
    forall s :: s in adm ==> FitsWindow(c, adm, s, t)
  }

  lemma AnswerIsWindowTest(c: Config, m: Clients, adm: seq<real>, ip: string, t: real)
    requires c.burst >= 1 && Tracks(c, m, adm, ip)
    requires ip in m ==> m[ip].lastSeen <= t
    ensures Answer(c, m, ip, t) <==> EveryWindowFits(c, adm, t)
  {
    if ip in m {
      var b := m[ip];
      forall k | 0 <= k < |adm|
        ensures Slack(c, adm, k, t) == Slack(c, adm, k, b.lastSeen) + (t - b.lastSeen) * c.rate
      {
        SlackLater(c, adm, k, b.lastSeen, t);
      }
      WindowTestByIndex(c, adm, t);
    }
  }

  lemma AllowKeepsTrack(c: Config, m: Clients, adm: seq<real>, ip: string, t: real)
    requires c.burst >= 1 && Tracks(c, m, adm, ip)
    requires ip in m ==> m[ip].lastSeen <= t
    ensures Tracks(c, AfterAllow(c, m, ip, t), if Answer(c, m, ip, t) then adm + [t] else adm, ip)
  {
    if ip !in m {
      SlackAfterAdmission(c, adm, 0, t);
      return;
    }
    var b, b' := m[ip], AfterAllow(c, m, ip, t)[ip];
    forall k | 0 <= k < |adm|
      ensures Slack(c, adm, k, t) == Slack(c, adm, k, b.lastSeen) + (t - b.lastSeen) * c.rate
    {
      SlackLater(c, adm, k, b.lastSeen, t);
    }
    var w :| 0 <= w < |adm| && b.tokens == Slack(c, adm, w, b.lastSeen);
    if Answer(c, m, ip, t) {
      forall k | 0 <= k <= |adm|
        ensures b'.tokens <= Slack(c, adm + [t], k, t)
      {
        SlackAfterAdmission(c, adm, k, t);
      }
      SlackAfterAdmission(c, adm, w, t);
      SlackAfterAdmission(c, adm, |adm|, t);
      assert b'.tokens == Slack(c, adm + [t], w, t) || b'.tokens == Slack(c, adm + [t], |adm|, t);
    } else {
      assert b'.tokens == Slack(c, adm, w, t);
    }
  }

  /** Along any run without Cleanup the buckets are exactly the admission logs. */
  lemma {:induction false} RunTracks(c: Config, ops: seq<Op>, ip: string, start: real)
    requires c.burst >= 1 && Ordered(ops, start) && forall op :: op in ops ==> op.Allow?
    ensures Tracks(c, Final(c, map[], ops), Admissions(c, map[], ops, ip), ip)
    ensures ip in Final(c, map[], ops) ==>
              Final(c, map[], ops)[ip].lastSeen <= LastInstant(ops, start)
  {
    if ops != [] {
      var n := |ops| - 1;
      RunTracks(c, ops[..n], ip, start);
      var m := Final(c, map[], ops[..n]);
      assert LastInstant(ops[..n], start) <= ops[n].at;
      if ops[n].ip == ip {
        AllowKeepsTrack(c, m, Admissions(c, map[], ops[..n], ip), ip, ops[n].at);
      }
    }
  }

  lemma OrderedInit(ops: seq<Op>, last: Op, start: real)
    requires Ordered(ops + [last], start)
    ensures Ordered(ops, start) && LastInstant(ops, start) <= last.at && start <= last.at
  {
    var full := ops + [last];
    assert forall i :: 0 <= i < |ops| ==> full[i] == ops[i];
    assert full[|ops|] == last;
  }

  /** The exact admission law: a call is admitted iff every window that starts at an earlier
      admission and ends now has room for it. */
  lemma ExactAdmission(c: Config, ops: seq<Op>, ip: string, t: real, start: real)
    requires c.burst >= 1 && Ordered(ops + [Allow(ip, t)], start)
    requires forall op :: op in ops ==> op.Allow?
    ensures var adm := Admissions(c, map[], ops, ip);
            Answer(c, Final(c, map[], ops), ip, t) <==> EveryWindowFits(c, adm, t)
  {
    OrderedInit(ops, Allow(ip, t), start);
    RunTracks(c, ops, ip, start);
    AnswerIsWindowTest(c, Final(c, map[], ops), Admissions(c, map[], ops, ip), ip, t);
  }

  /** n admissions fit the budget of an interval of length d. */
  ghost predicate WithinBudget(c: Config, n: int, d: real) {
    n as real <= Budget(c, d)
  }

  ghost predicate PairwiseLegal(c: Config, adm: seq<real>) {
    && Sorted(adm)
    && forall i, j :: 0 <= i <= j < |adm| ==> WithinBudget(c, j - i + 1, adm[j] - adm[i])
  }

  lemma AdmissionKeepsPairs(c: Config, adm: seq<real>, t: real)
    requires c.burst >= 1 && PairwiseLegal(c, adm) && forall k :: 0 <= k < |adm| ==> adm[k] <= t
    requires EveryWindowFits(c, adm, t)
    ensures PairwiseLegal(c, adm + [t])
  {
    var adm' := adm + [t];
    WindowTestByIndex(c, adm, t);
    forall i, j | 0 <= i <= j < |adm'| ensures WithinBudget(c, j - i + 1, adm'[j] - adm'[i]) {
      if j < |adm| {
        assert WithinBudget(c, j - i + 1, adm[j] - adm[i]);
      } else if i < |adm| {
        assert Slack(c, adm, i, t) >= 1.0;
        assert adm'[j] == t && adm'[i] == adm[i];
      } else {
        assert adm'[j] - adm'[i] == 0.0 && Budget(c, 0.0) == c.burst as real;
      }
    }
  }

  ghost predicate NoneAfter(adm: seq<real>, t: real) {
    forall k :: 0 <= k < |adm| ==> adm[k] <= t
  }

  lemma NoneAfterLater(adm: seq<real>, t: real, later: real)
    requires NoneAfter(adm, t) && t <= later
    ensures NoneAfter(adm, later) && NoneAfter(adm + [later], later)
  {
  }

  lemma {:induction false} AdmissionsPairwiseLegal(c: Config, ops: seq<Op>, ip: string, start: real)
    requires c.burst >= 1 && Ordered(ops, start) && forall op :: op in ops ==> op.Allow?
    ensures PairwiseLegal(c, Admissions(c, map[], ops, ip))
    ensures NoneAfter(Admissions(c, map[], ops, ip), LastInstant(ops, start))
  {
    if ops != [] {
      var n := |ops| - 1;
      assert ops[..n] + [ops[n]] == ops;
      OrderedInit(ops[..n], ops[n], start);
      AdmissionsPairwiseLegal(c, ops[..n], ip, start);
      var adm, t := Admissions(c, map[], ops[..n], ip), ops[n].at;
      NoneAfterLater(adm, LastInstant(ops[..n], start), t);
      if ops[n].ip == ip && Answer(c, Final(c, map[], ops[..n]), ip, t) {
        assert ops[n] == Allow(ip, t);
        ExactAdmission(c, ops[..n], ip, t, start);
        AdmissionKeepsPairs(c, adm, t);
      }
    }
  }

  lemma BudgetGrows(c: Config, n: int, d: real, d': real)
    requires c.rate >= 0.0 && d <= d' && WithinBudget(c, n, d)
    ensures WithinBudget(c, n, d')
  {
    RateMonotone(c.rate, d, d');
  }

  lemma LegalLogBound(c: Config, adm: seq<real>, a: real, b: real)
    requires c.burst >= 1 && c.rate >= 0.0 && PairwiseLegal(c, adm) && a <= b
    ensures WithinBudget(c, Within(adm, a, b), b - a)
  {
    var i, j := WithinIsABlock(adm, a, b);
    if i < j {
      var k := j - 1;
      assert WithinBudget(c, k - i + 1, adm[k] - adm[i]);
      BudgetGrows(c, k - i + 1, adm[k] - adm[i], b - a);
    } else {
      assert WithinBudget(c, 0, 0.0);
      BudgetGrows(c, 0, 0.0, b - a);
    }
  }

  /** Over every run, every closed interval [a, b] admits at most burst + rate * (b - a). */
  lemma IntervalBound(c: Config, ops: seq<Op>, ip: string, start: real, a: real, b: real)
    requires c.burst >= 1 && c.rate >= 0.0 && Ordered(ops, start) && a <= b
    requires forall op :: op in ops ==> op.Allow?
    ensures WithinBudget(c, Within(Admissions(c, map[], ops, ip), a, b), b - a)
  {
    AdmissionsPairwiseLegal(c, ops, ip, start);
    LegalLogBound(c, Admissions(c, map[], ops, ip), a, b);
  }
}
