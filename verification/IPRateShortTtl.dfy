/** A ttl too short for a bucket to fill up: rate * ttl < burst. Then Cleanup hands out tokens too
    early, and a denied call, which keeps its bucket from being dropped, can be seen. */
module IPRateShortTtl {
  import opened IPRateLimit
  import opened IPRateCleanup

  function Burst(ip: string, t: real, n: nat): seq<Op> {
    seq(n, _ => Allow(ip, t))
  }

  /** n calls at one instant are all admitted iff the bucket holds n tokens. */
  lemma {:induction false} BurstAnswers(c: Config, m: Clients, ip: string, t: real, n: nat)
    requires c.burst >= 1 && c.rate >= 0.0
    ensures |Answers(c, m, Burst(ip, t, n))| == n
    ensures (false !in Answers(c, m, Burst(ip, t, n))) <==> (n == 0 || Level(c, m, ip, t) >= n as real)
    ensures false !in Answers(c, m, Burst(ip, t, n)) ==>
              forall t' :: t <= t' ==>
                Level(c, Final(c, m, Burst(ip, t, n)), ip, t') ==
                  if n == 0 then Level(c, m, ip, t')
                  else Min(c.burst as real, Level(c, m, ip, t) - n as real + (t' - t) * c.rate)
  {
    if n > 0 {
      var k := n - 1;
      var ops := Burst(ip, t, n);
      assert ops[..k] == Burst(ip, t, k);
      BurstAnswers(c, m, ip, t, k);
      var m' := Final(c, m, ops[..k]);
      var before := Answers(c, m, ops[..k]);
      assert Answers(c, m, ops) == before + [Answer(c, m', ip, t)];
      assert Answers(c, m, ops)[..k] == before && Answers(c, m, ops)[k] == Answer(c, m', ip, t);
      forall t' | t <= t' { LevelAfterAllow(c, m', ip, t, t'); }
      assert false !in before ==> Level(c, m', ip, t) == Level(c, m, ip, t) - k as real;
      if false in before {
        assert Level(c, m, ip, t) < n as real;
      }
    }
  }

  /** A burst at instant 0, a sweep at t, and a second burst at t. */
  function SweptRun(ip: string, t: real, n: nat): seq<Op> {
    Burst(ip, 0.0, n) + [Cleanup(t)] + Burst(ip, t, n)
  }

  /** The condition is exact: below it, one sweep lets a full burst through too early. */
  lemma CleanupObservableBelow(c: Config, ip: string)
    requires c.burst >= 1 && c.rate >= 0.0 && c.ttl >= 0.0 && c.rate * c.ttl < c.burst as real
    ensures exists ops :: Ordered(ops, 0.0) && Answers(c, map[], ops) != Answers(c, map[], WithoutCleanups(ops))
  {
    var t: real := JustAfterTtl(c);
    SweptRunDiffers(c, ip, t);
    assert Ordered(SweptRun(ip, t, c.burst), 0.0);
  }

  lemma SweptRunDiffers(c: Config, ip: string, t: real)
    requires c.burst >= 1 && c.rate >= 0.0 && t > c.ttl >= 0.0 && c.rate * t < c.burst as real
    ensures var ops := SweptRun(ip, t, c.burst); Answers(c, map[], ops) != Answers(c, map[], WithoutCleanups(ops))
  {
    var x, z := Burst(ip, 0.0, c.burst), Burst(ip, t, c.burst);
    var m := Final(c, map[], x);
    StripSweep(ip, t, c.burst);
    EmptiedBucket(c, ip, t);
    SecondBurst(c, m, AfterCleanup(c, m, t), ip, t);
    SweptAndUnswept(c, x, t, z);
    PrefixCancels(Answers(c, map[], x), Answers(c, m, z), Answers(c, AfterCleanup(c, m, t), z));
  }

  lemma PrefixCancels(p: seq<bool>, x: seq<bool>, y: seq<bool>)
    ensures p + x == p + y <==> x == y
  {
    assert (p + x)[|p|..] == x && (p + y)[|p|..] == y;
  }

  lemma StripSweep(ip: string, t: real, n: nat)
    ensures WithoutCleanups(SweptRun(ip, t, n)) == Burst(ip, 0.0, n) + Burst(ip, t, n)
  {
    var x, y := Burst(ip, 0.0, n), Burst(ip, t, n);
    calc {
      WithoutCleanups(x + [Cleanup(t)] + y);
      { StripCalls(x + [Cleanup(t)], y); }
      WithoutCleanups(x + [Cleanup(t)]) + y;
      { assert (x + [Cleanup(t)])[..|x|] == x; }
      WithoutCleanups(x) + y;
      { StripCalls([], x); assert [] + x == x; }
      x + y;
    }
  }

  lemma SweptAndUnswept(c: Config, x: seq<Op>, t: real, z: seq<Op>)
    ensures var m := Final(c, map[], x);
            && Answers(c, map[], x + z) == Answers(c, map[], x) + Answers(c, m, z)
            && Answers(c, map[], x + [Cleanup(t)] + z) == Answers(c, map[], x) + Answers(c, AfterCleanup(c, m, t), z)
  {
    RunOfOne(c, Final(c, map[], x), Cleanup(t));
    RunOfConcat(c, map[], x, [Cleanup(t)]);
    RunOfConcat(c, map[], x + [Cleanup(t)], z);
    RunOfConcat(c, map[], x, z);
  }

  /** A burst at instant 0 empties the bucket; at t it is stale but not yet full again. */
  lemma EmptiedBucket(c: Config, ip: string, t: real)
    requires c.burst >= 1 && c.rate >= 0.0 && t > c.ttl >= 0.0 && c.rate * t < c.burst as real
    ensures var m := Final(c, map[], Burst(ip, 0.0, c.burst));
            ip !in AfterCleanup(c, m, t) && Level(c, m, ip, t) < c.burst as real
  {
    BurstAnswers(c, map[], ip, 0.0, c.burst);
    BurstTouches(c, ip, 0.0, c.burst);
    assert Level(c, map[], ip, 0.0) == c.burst as real;
    assert (t - 0.0) * c.rate == c.rate * t;
  }

  /** From a short bucket a full burst is not all admitted; from a dropped one it is. */
  lemma SecondBurst(c: Config, m: Clients, swept: Clients, ip: string, t: real)
    requires c.burst >= 1 && c.rate >= 0.0 && ip !in swept && Level(c, m, ip, t) < c.burst as real
    ensures Answers(c, swept, Burst(ip, t, c.burst)) != Answers(c, m, Burst(ip, t, c.burst))
  {
    BurstAnswers(c, m, ip, t, c.burst);
    BurstAnswers(c, swept, ip, t, c.burst);
  }

  lemma {:induction false} BurstTouches(c: Config, ip: string, t: real, n: nat)
    requires n > 0
    ensures var m := Final(c, map[], Burst(ip, t, n)); ip in m && m[ip].lastSeen == t
  {
    assert Burst(ip, t, n)[..n - 1] == Burst(ip, t, n - 1);
  }

  lemma {:induction false} StripCalls(pre: seq<Op>, calls: seq<Op>)
    requires forall op :: op in calls ==> op.Allow?
    ensures WithoutCleanups(pre + calls) == WithoutCleanups(pre) + calls
  {
    if calls == [] {
      assert pre + calls == pre;
    } else {
      var k := |calls| - 1;
      var front, last := calls[..k], [calls[k]];
      calc {
        WithoutCleanups(pre + calls);
        { assert pre + calls == (pre + front) + last; }
        WithoutCleanups((pre + front) + last);
        { StripCall(pre + front, calls[k]); }
        WithoutCleanups(pre + front) + last;
        { StripCalls(pre, front); }
        (WithoutCleanups(pre) + front) + last;
        { assert front + last == calls; }
        WithoutCleanups(pre) + calls;
      }
    }
  }

  /** An instant after the ttl at which an emptied bucket is still short of full. */
  ghost function JustAfterTtl(c: Config): (t: real)
    requires c.burst >= 1 && c.rate >= 0.0 && c.ttl >= 0.0 && c.rate * c.ttl < c.burst as real
    ensures t > c.ttl && c.rate * t < c.burst as real
  {
    if c.rate == 0.0 then c.ttl + 1.0
    else
      var full := c.burst as real / c.rate;
      assert c.rate * full == c.burst as real;
      assert c.ttl < full;
      var t := (c.ttl + full) / 2.0;
      assert t < full;
      t
  }

  // ----- Denied calls and Cleanup -----

  /** Striking the denied call from the run changes no other answer. */
  ghost predicate Invisible(c: Config, pre: seq<Op>, denied: Op, post: seq<Op>) {
    exists rest ::
      && Answers(c, map[], pre + [denied] + post) == Answers(c, map[], pre) + [false] + rest
      && Answers(c, map[], pre + post) == Answers(c, map[], pre) + rest
  }

  function Earned(rate: real, d: real): real { rate * d }

  /** A denied call at d, soon after 0, and a sweep at t that spares the bucket only because of it. */
  lemma SoonDenied(c: Config) returns (d: real, t: real)
    requires c.burst >= 1 && c.rate >= 0.0 && c.ttl >= 0.0 && c.rate * c.ttl < c.burst as real
    ensures d > 0.0 && t == c.ttl + d && Earned(c.rate, d) < 1.0 && Earned(c.rate, t) < c.burst as real
  {
    var late := JustAfterTtl(c);
    d := UnearnedYet(c.rate, late - c.ttl);
    t := c.ttl + d;
    EarnedMonotone(c.rate, t, late);
  }

  lemma EarnedMonotone(rate: real, d: real, d': real)
    requires rate >= 0.0 && d <= d'
    ensures Earned(rate, d) <= Earned(rate, d')
  {
    RateMonotone(rate, d, d');
  }

  /** A delay of at most `gap` in which no whole token is earned. */
  lemma UnearnedYet(rate: real, gap: real) returns (d: real)
    requires rate >= 0.0 && gap > 0.0
    ensures 0.0 < d <= gap && Earned(rate, d) < 1.0
  {
    if Earned(rate, gap) < 1.0 {
      d := gap;
    } else {
      assert rate > 0.0;
      d := HalfToken(rate);
      if d > gap { EarnedMonotone(rate, gap, d); }
    }
  }

  /** The time it takes to earn half a token. */
  lemma HalfToken(rate: real) returns (d: real)
    requires rate > 0.0
    ensures d > 0.0 && Earned(rate, d) == 0.5
  {
    d := 0.5 / rate;
  }

  /** After a burst at 0 the call at d is denied; it keeps the bucket, still short of full, through
      the sweep at ttl + d, which drops the bucket without it. */
  lemma DeniedCallKeepsBucket(c: Config, ip: string, d: real, t: real)
    requires c.burst >= 1 && c.rate >= 0.0 && c.ttl >= 0.0 && d > 0.0 && t == c.ttl + d
    requires Earned(c.rate, d) < 1.0 && Earned(c.rate, t) < c.burst as real
    ensures var m := Final(c, map[], Burst(ip, 0.0, c.burst));
            && !Answer(c, m, ip, d)
            && ip !in AfterCleanup(c, m, t)
            && Level(c, AfterCleanup(c, AfterAllow(c, m, ip, d), t), ip, t) < c.burst as real
  {
    var m := Final(c, map[], Burst(ip, 0.0, c.burst));
    EmptiedBucket(c, ip, t);
    BurstAnswers(c, map[], ip, 0.0, c.burst);
    BurstTouches(c, ip, 0.0, c.burst);
    assert Level(c, map[], ip, 0.0) == c.burst as real;
    assert (d - 0.0) * c.rate == c.rate * d;
    assert Level(c, m, ip, d) < 1.0;
    DeniedKeepsLevels(c, m, ip, d);
    assert AfterCleanup(c, AfterAllow(c, m, ip, d), t)[ip] == AfterAllow(c, m, ip, d)[ip];
  }

  /** The condition is exact here too: below it, for every configuration, some denied call is seen. */
  lemma DeniedCallObservableBelow(c: Config, ip: string) returns (pre: seq<Op>, denied: Op, post: seq<Op>)
    requires c.burst >= 1 && c.rate >= 0.0 && c.ttl >= 0.0 && c.rate * c.ttl < c.burst as real
    ensures denied.Allow? && Ordered(pre + [denied] + post, 0.0) && !Answer(c, Final(c, map[], pre), denied.ip, denied.at)
    ensures !Invisible(c, pre, denied, post)
  {
    var d, t := SoonDenied(c);
    var z := Burst(ip, t, c.burst);
    pre, denied, post := Burst(ip, 0.0, c.burst), Allow(ip, d), [Cleanup(t)] + z;
    var m := Final(c, map[], pre);
    DeniedCallKeepsBucket(c, ip, d, t);
    SecondBurst(c, AfterCleanup(c, AfterAllow(c, m, ip, d), t), AfterCleanup(c, m, t), ip, t);
    SweptAndUnswept(c, pre, t, z);
    DeniedThenSwept(c, pre, denied, t, z);
    assert pre + post == pre + [Cleanup(t)] + z;
    assert pre + [denied] + post == pre + [denied] + [Cleanup(t)] + z;
    DifferentRests(c, pre, denied, post, Answers(c, AfterCleanup(c, AfterAllow(c, m, ip, d), t), z), Answers(c, AfterCleanup(c, m, t), z));
    DeniedRunOrdered(c, ip, d, t);
  }

  lemma DeniedRunOrdered(c: Config, ip: string, d: real, t: real)
    requires c.burst >= 1 && 0.0 <= d <= t
    ensures Ordered(Burst(ip, 0.0, c.burst) + [Allow(ip, d)] + ([Cleanup(t)] + Burst(ip, t, c.burst)), 0.0)
  {
  }

  lemma DifferentRests(c: Config, pre: seq<Op>, denied: Op, post: seq<Op>, x: seq<bool>, y: seq<bool>)
    requires Answers(c, map[], pre + [denied] + post) == Answers(c, map[], pre) + [false] + x
    requires Answers(c, map[], pre + post) == Answers(c, map[], pre) + y && x != y
    ensures !Invisible(c, pre, denied, post)
  {
    var a := Answers(c, map[], pre);
    forall rest ensures !(a + [false] + x == a + [false] + rest && a + y == a + rest) {
      PrefixCancels(a + [false], x, rest);
      PrefixCancels(a, y, rest);
    }
  }

  lemma DeniedThenSwept(c: Config, x: seq<Op>, denied: Op, t: real, z: seq<Op>)
    requires denied.Allow? && !Answer(c, Final(c, map[], x), denied.ip, denied.at)
    ensures Answers(c, map[], x + [denied] + [Cleanup(t)] + z) ==
            Answers(c, map[], x) + [false]
            + Answers(c, AfterCleanup(c, AfterAllow(c, Final(c, map[], x), denied.ip, denied.at), t), z)
  {
    RunOfOne(c, Final(c, map[], x), denied);
    RunOfConcat(c, map[], x, [denied]);
    SweptAndUnswept(c, x + [denied], t, z);
  }
}
