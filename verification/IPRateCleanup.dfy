/** What no caller of IPRateLimiter can see: denied calls, and Cleanup when the ttl is long enough for
    a bucket to fill up. */
module IPRateCleanup {
  import opened Windows
  import opened IPRateLimit

  // ----- Observational equality of limiter states -----

  /** What a request of `ip` at instant t would find in its bucket; a missing bucket is full. */
  function Level(c: Config, m: Clients, ip: string, t: real): real {
    if ip in m then Refilled(c, m[ip], t) else c.burst as real
  }

  /** No request from `now` on can tell the two states apart. */
  ghost predicate SameLevels(c: Config, m: Clients, m': Clients, now: real) {
    forall ip, t :: now <= t ==> Level(c, m, ip, t) == Level(c, m', ip, t)
  }

  lemma LevelAfterAllow(c: Config, m: Clients, ip: string, now: real, t: real)
    requires c.burst >= 1 && c.rate >= 0.0 && now <= t
    ensures var x := Level(c, m, ip, now);
            && Answer(c, m, ip, now) == (x >= 1.0)
            && Level(c, AfterAllow(c, m, ip, now), ip, t) ==
               Min(c.burst as real, (if x >= 1.0 then x - 1.0 else x) + (t - now) * c.rate)
  {
  }

  lemma AllowKeepsSameLevels(c: Config, m: Clients, m': Clients, ip: string, start: real, now: real)
    requires c.burst >= 1 && c.rate >= 0.0 && SameLevels(c, m, m', start) && start <= now
    ensures Answer(c, m, ip, now) == Answer(c, m', ip, now)
    ensures SameLevels(c, AfterAllow(c, m, ip, now), AfterAllow(c, m', ip, now), now)
  {
    var a, a' := AfterAllow(c, m, ip, now), AfterAllow(c, m', ip, now);
    LevelAfterAllow(c, m, ip, now, now);
    LevelAfterAllow(c, m', ip, now, now);
    forall q, t | now <= t ensures Level(c, a, q, t) == Level(c, a', q, t) {
      if q == ip {
        LevelAfterAllow(c, m, ip, now, t);
        LevelAfterAllow(c, m', ip, now, t);
      } else {
        assert Level(c, a, q, t) == Level(c, m, q, t);
        assert Level(c, a', q, t) == Level(c, m', q, t);
      }
    }
  }

  lemma {:induction false} SameLevelsSameAnswers(c: Config, m: Clients, m': Clients, ops: seq<Op>, start: real)
    requires c.burst >= 1 && c.rate >= 0.0 && SameLevels(c, m, m', start) && Ordered(ops, start)
    requires forall op :: op in ops ==> op.Allow?
    ensures Answers(c, m, ops) == Answers(c, m', ops)
    ensures SameLevels(c, Final(c, m, ops), Final(c, m', ops), LastInstant(ops, start))
  {
    if ops != [] {
      var n := |ops| - 1;
      SameLevelsSameAnswers(c, m, m', ops[..n], start);
      AllowKeepsSameLevels(c, Final(c, m, ops[..n]), Final(c, m', ops[..n]), ops[n].ip,
                           LastInstant(ops[..n], start), ops[n].at);
    }
  }

  lemma DeniedKeepsLevels(c: Config, m: Clients, ip: string, now: real)
    requires c.burst >= 1 && c.rate >= 0.0 && !Answer(c, m, ip, now)
    ensures SameLevels(c, m, AfterAllow(c, m, ip, now), now)
  {
    var a := AfterAllow(c, m, ip, now);
    forall q, t | now <= t ensures Level(c, m, q, t) == Level(c, a, q, t) {
      if q == ip {
        LevelAfterAllow(c, m, ip, now, t);
        RateSplits(c.rate, m[ip].lastSeen, now, t);
      }
    }
  }

  lemma RunOfOne(c: Config, m: Clients, op: Op)
    ensures Final(c, m, [op]) == Step(c, m, op)
    ensures Answers(c, m, [op]) == if op.Allow? then [Answer(c, m, op.ip, op.at)] else []
  {
    assert [op][..0] == [];
  }

  /** A denied call can be struck from the run: no other answer changes. */
  lemma DeniedCallsAreInvisible(c: Config, pre: seq<Op>, ip: string, t: real, post: seq<Op>, start: real)
    returns (rest: seq<bool>)
    requires c.burst >= 1 && c.rate >= 0.0 && Ordered(pre + [Allow(ip, t)] + post, start)
    requires forall op :: op in post ==> op.Allow?
    requires !Answer(c, Final(c, map[], pre), ip, t)
    ensures Answers(c, map[], pre + [Allow(ip, t)] + post) == Answers(c, map[], pre) + [false] + rest
    ensures Answers(c, map[], pre + post) == Answers(c, map[], pre) + rest
  {
    var d := Allow(ip, t);
    var m := Final(c, map[], pre);
    rest := Answers(c, m, post);
    RunOfConcat(c, map[], pre, [d]);
    RunOfConcat(c, map[], pre + [d], post);
    RunOfConcat(c, map[], pre, post);
    RunOfOne(c, m, d);
    DeniedKeepsLevels(c, m, ip, t);
    OrderedTail(pre, d, post, start);
    SameLevelsSameAnswers(c, m, Step(c, m, d), post, t);
  }

  lemma OrderedTail(pre: seq<Op>, op: Op, post: seq<Op>, start: real)
    requires Ordered(pre + [op] + post, start)
    ensures Ordered(post, op.at)
  {
    var run := pre + [op] + post;
    assert run[|pre|] == op;
    assert forall i :: 0 <= i < |post| ==> post[i] == run[|pre| + 1 + i];
  }

  // ----- Cleanup -----

  /** Every bucket is non-negative and was last touched no later than `now`. */
  ghost predicate Settled(m: Clients, now: real) {
    forall ip :: ip in m ==> m[ip].tokens >= 0.0 && m[ip].lastSeen <= now
  }

  lemma ProductNonNegative(a: real, x: real, y: real)
    requires a >= 0.0 && x >= 0.0 && y >= 0.0
    ensures a + x * y >= 0.0
  {
    assert x * y >= 0.0;
  }

  lemma RefillNonNegative(c: Config, b: Bucket, now: real)
    requires c.burst >= 1 && c.rate >= 0.0 && b.tokens >= 0.0 && b.lastSeen <= now
    ensures Refilled(c, b, now) >= 0.0
  {
    ProductNonNegative(b.tokens, now - b.lastSeen, c.rate);
    assert c.burst as real >= 1.0;
  }

  lemma StepSettled(c: Config, m: Clients, op: Op, now: real)
    requires c.burst >= 1 && c.rate >= 0.0 && Settled(m, now) && now <= op.at
    ensures Settled(Step(c, m, op), op.at)
  {
    if op.Allow? && op.ip in m {
      RefillNonNegative(c, m[op.ip], op.at);
    }
  }

  lemma CleanupKeepsLevels(c: Config, m: Clients, now: real)
    requires c.burst >= 1 && c.rate >= 0.0 && c.rate * c.ttl >= c.burst as real && Settled(m, now)
    ensures SameLevels(c, AfterCleanup(c, m, now), m, now)
  {
    forall ip, t | now <= t ensures Level(c, AfterCleanup(c, m, now), ip, t) == Level(c, m, ip, t) {
      if ip in m && Stale(c, m[ip], now) {
        RateMonotone(c.rate, c.ttl, t - m[ip].lastSeen);
      }
    }
  }

  /** With rate * ttl >= burst >= 1, sweeping stale buckets at any instants changes no answer. */
  lemma {:induction false} CleanupUnobservable(c: Config, ops: seq<Op>, start: real)
    requires c.burst >= 1 && c.rate >= 0.0 && c.rate * c.ttl >= c.burst as real && Ordered(ops, start)
    ensures Answers(c, map[], ops) == Answers(c, map[], WithoutCleanups(ops))
    ensures Settled(Final(c, map[], ops), LastInstant(ops, start))
    ensures SameLevels(c, Final(c, map[], ops), Final(c, map[], WithoutCleanups(ops)), LastInstant(ops, start))
  {
    if ops != [] {
      var n := |ops| - 1;
      var pre, kept := ops[..n], WithoutCleanups(ops[..n]);
      CleanupUnobservable(c, pre, start);
      var m, m' := Final(c, map[], pre), Final(c, map[], kept);
      var last := LastInstant(pre, start);
      StepSettled(c, m, ops[n], last);
      if ops[n].Allow? {
        AllowKeepsSameLevels(c, m, m', ops[n].ip, last, ops[n].at);
        assert (kept + [ops[n]])[..|kept|] == kept;
      } else {
        assert kept + [] == kept;
        CleanupKeepsLevels(c, m, ops[n].at) by {
          assert Settled(m, ops[n].at);
        }
        assert SameLevels(c, m, m', ops[n].at);
      }
    }
  }

  lemma {:induction false} StrippedOrdered(ops: seq<Op>, start: real)
    requires Ordered(ops, start)
    ensures Ordered(WithoutCleanups(ops), start)
    ensures forall op :: op in WithoutCleanups(ops) ==> op.Allow? && op.at <= LastInstant(ops, start)
  {
    if ops != [] {
      var n := |ops| - 1;
      StrippedOrdered(ops[..n], start);
      assert LastInstant(ops[..n], start) <= ops[n].at;
    }
  }

  /** Under the same condition the admissions are those of the run without its sweeps. */
  lemma {:induction false} SweptAdmissions(c: Config, ops: seq<Op>, ip: string, start: real)
    requires c.burst >= 1 && c.rate >= 0.0 && c.rate * c.ttl >= c.burst as real && Ordered(ops, start)
    ensures Admissions(c, map[], ops, ip) == Admissions(c, map[], WithoutCleanups(ops), ip)
  {
    if ops != [] {
      var n := |ops| - 1;
      var pre, kept := ops[..n], WithoutCleanups(ops[..n]);
      SweptAdmissions(c, pre, ip, start);
      CleanupUnobservable(c, pre, start);
      if ops[n].Allow? {
        AllowKeepsSameLevels(c, Final(c, map[], pre), Final(c, map[], kept), ops[n].ip, LastInstant(pre, start), ops[n].at);
        assert (kept + [ops[n]])[..|kept|] == kept;
      } else {
        assert kept + [] == kept;
      }
    }
  }

  lemma SweptAnswer(c: Config, ops: seq<Op>, ip: string, start: real, t: real)
    requires c.burst >= 1 && c.rate >= 0.0 && c.rate * c.ttl >= c.burst as real
    requires Ordered(ops, start) && LastInstant(ops, start) <= t
    ensures Answer(c, Final(c, map[], ops), ip, t) == Answer(c, Final(c, map[], WithoutCleanups(ops)), ip, t)
  {
    CleanupUnobservable(c, ops, start);
    AllowKeepsSameLevels(c, Final(c, map[], ops), Final(c, map[], WithoutCleanups(ops)), ip, LastInstant(ops, start), t);
  }

  lemma StillOrdered(ops: seq<Op>, last: Op, start: real)
    requires Ordered(ops, start) && start <= last.at && forall op :: op in ops ==> op.at <= last.at
    ensures Ordered(ops + [last], start)
  {
  }

  lemma StartsBefore(ops: seq<Op>, start: real)
    requires Ordered(ops, start)
    ensures start <= LastInstant(ops, start)
  {
  }

  /** So the exact admission law and the interval bound hold with sweeps freely interleaved. */
  lemma LimitsHoldUnderSweeps(c: Config, ops: seq<Op>, ip: string, start: real, t: real)
    requires c.burst >= 1 && c.rate >= 0.0 && c.rate * c.ttl >= c.burst as real
    requires Ordered(ops, start) && LastInstant(ops, start) <= t
    ensures var adm := Admissions(c, map[], ops, ip);
            && (Answer(c, Final(c, map[], ops), ip, t) <==> EveryWindowFits(c, adm, t))
            && forall a, b :: a <= b ==> WithinBudget(c, Within(adm, a, b), b - a)
  {
    var kept := WithoutCleanups(ops);
    StrippedOrdered(ops, start);
    SweptAdmissions(c, ops, ip, start);
    SweptAnswer(c, ops, ip, start, t);
    StartsBefore(ops, start);
    StillOrdered(kept, Allow(ip, t), start);
    ExactAdmission(c, kept, ip, t, start);
    forall a, b | a <= b ensures WithinBudget(c, Within(Admissions(c, map[], ops, ip), a, b), b - a) {
      IntervalBound(c, kept, ip, start, a, b);
    }
  }

  lemma {:induction false} StripConcat(x: seq<Op>, y: seq<Op>)
    ensures WithoutCleanups(x + y) == WithoutCleanups(x) + WithoutCleanups(y)
  {
    if y == [] {
      assert x + y == x;
    } else {
      var n := |y| - 1;
      var last := if y[n].Allow? then [y[n]] else [];
      calc {
        WithoutCleanups(x + y);
        { assert (x + y)[..|x| + n] == x + y[..n] && (x + y)[|x| + n] == y[n]; }
        WithoutCleanups(x + y[..n]) + last;
        { StripConcat(x, y[..n]); }
        (WithoutCleanups(x) + WithoutCleanups(y[..n])) + last;
        WithoutCleanups(x) + (WithoutCleanups(y[..n]) + last);
        WithoutCleanups(x) + WithoutCleanups(y);
      }
    }
  }

  lemma StripCall(pre: seq<Op>, call: Op)
    requires call.Allow?
    ensures WithoutCleanups(pre + [call]) == WithoutCleanups(pre) + [call]
  {
    assert (pre + [call])[..|pre|] == pre;
  }

  lemma StripAround(pre: seq<Op>, call: Op, post: seq<Op>)
    requires call.Allow?
    ensures WithoutCleanups(pre + [call] + post) == WithoutCleanups(pre) + [call] + WithoutCleanups(post)
    ensures WithoutCleanups(pre + post) == WithoutCleanups(pre) + WithoutCleanups(post)
  {
    StripConcat(pre + [call], post);
    StripCall(pre, call);
    StripConcat(pre, post);
  }

  lemma OrderedWithout(pre: seq<Op>, op: Op, post: seq<Op>, start: real)
    requires Ordered(pre + [op] + post, start)
    ensures Ordered(pre, start) && Ordered(pre + post, start) && LastInstant(pre, start) <= op.at
  {
    var run, rest := pre + [op] + post, pre + post;
    assert run[|pre|] == op;
    assert forall i :: 0 <= i < |pre| ==> run[i] == pre[i];
    assert forall i :: 0 <= i < |rest| ==> rest[i] == run[if i < |pre| then i else i + 1];
  }

  /** With sweeps anywhere, a denied call can still be struck from the run under that condition. */
  lemma DeniedCallsAreInvisibleUnderSweeps(c: Config, pre: seq<Op>, ip: string, t: real, post: seq<Op>, start: real)
    returns (rest: seq<bool>)
    requires c.burst >= 1 && c.rate >= 0.0 && c.rate * c.ttl >= c.burst as real
    requires Ordered(pre + [Allow(ip, t)] + post, start) && !Answer(c, Final(c, map[], pre), ip, t)
    ensures Answers(c, map[], pre + [Allow(ip, t)] + post) == Answers(c, map[], pre) + [false] + rest
    ensures Answers(c, map[], pre + post) == Answers(c, map[], pre) + rest
  {
    var d := Allow(ip, t);
    OrderedWithout(pre, d, post, start);
    StripAround(pre, d, post);
    StrippedOrdered(pre + [d] + post, start);
    CleanupUnobservable(c, pre + [d] + post, start);
    CleanupUnobservable(c, pre + post, start);
    CleanupUnobservable(c, pre, start);
    AllowKeepsSameLevels(c, Final(c, map[], pre), Final(c, map[], WithoutCleanups(pre)), ip, LastInstant(pre, start), t);
    StrippedOrdered(post, t) by { OrderedTail(pre, d, post, start); }
    rest := DeniedCallsAreInvisible(c, WithoutCleanups(pre), ip, t, WithoutCleanups(post), start);
  }
}
