/** What the runs of groupPipelineRuns guarantee about the rows they were built from:
    conservation of every counter and build, and rates that never overstate. */
module PipelineLaws {
  import opened Grouping
  import opened PipelineRuns

  // ----- Conservation within a run -----

  function SuiteFailedTests(s: SuiteResp): int { s.failed }

  /** How often a build is listed by a suite, and how often it occurs among rows. */
  ghost function Listed(b: Build): SuiteResp -> int { (s: SuiteResp) => multiset(s.builds)[b] }
  ghost function Occurs(b: Build): Row -> int { (r: Row) => if Build(r.buildID, r.buildNumber) == b then 1 else 0 }

  lemma {:induction false} BuildCount(rows: seq<Row>, b: Build)
    ensures multiset(BuildsOf(rows))[b] == Sum(rows, Occurs(b))
  {
    if rows != [] {
      var n := |rows| - 1;
      BuildCount(rows[..n], b);
    }
  }

  /** A run's aggregate counts exactly its rows, and its suites list each row's build once. */
  lemma RunConserves(run: RunResp, rows: seq<Row>, b: Build)
    requires IsRun(run, rows)
    ensures run.aggregate.testsTotal == Sum(rows, TotalOf)
    ensures run.aggregate.testsPassed == Sum(rows, PassedOf)
    ensures run.aggregate.testsSkipped == Sum(rows, SkippedOf)
    ensures run.aggregate.totalDurationMs == Sum(rows, DurationOf)
    ensures Sum(run.suites, SuiteFailedTests) == Sum(rows, FailedOf)
    ensures Sum(run.suites, Listed(b)) == Sum(rows, Occurs(b))
  {
    var keys, suites := FirstSeen(rows, ProjectOf), run.suites;
    forall j | 0 <= j < |keys|
      ensures var mine := Pick(rows, ProjectOf, keys[j]);
              && SuiteTotal(suites[j]) == Sum(mine, TotalOf)
              && SuitePassedTests(suites[j]) == Sum(mine, PassedOf)
              && SuiteSkippedTests(suites[j]) == Sum(mine, SkippedOf)
              && SuiteDuration(suites[j]) == Sum(mine, DurationOf)
              && SuiteFailedTests(suites[j]) == Sum(mine, FailedOf)
              && Listed(b)(suites[j]) == Sum(mine, Occurs(b))
    {
      assert IsSuite(suites[j], Pick(rows, ProjectOf, keys[j]));
      BuildCount(Pick(rows, ProjectOf, keys[j]), b);
    }
    GroupsConserve(suites, SuiteTotal, rows, ProjectOf, TotalOf);
    GroupsConserve(suites, SuitePassedTests, rows, ProjectOf, PassedOf);
    GroupsConserve(suites, SuiteSkippedTests, rows, ProjectOf, SkippedOf);
    GroupsConserve(suites, SuiteDuration, rows, ProjectOf, DurationOf);
    GroupsConserve(suites, SuiteFailedTests, rows, ProjectOf, FailedOf);
    GroupsConserve(suites, Listed(b), rows, ProjectOf, Occurs(b));
  }

  // ----- Conservation over all runs -----

  function RunTotal(r: RunResp): int { r.aggregate.testsTotal }
  function RunPassed(r: RunResp): int { r.aggregate.testsPassed }
  function RunSkipped(r: RunResp): int { r.aggregate.testsSkipped }
  function RunDuration(r: RunResp): int { r.aggregate.totalDurationMs }
  function RunFailed(r: RunResp): int { Sum(r.suites, SuiteFailedTests) }
  ghost function RunLists(b: Build): RunResp -> int { (r: RunResp) => Sum(r.suites, Listed(b)) }

  /** Over the whole response every counter of the rows is conserved, and each build is listed
      exactly as often as rows name it. */
  lemma ResponseConserves(result: seq<RunResp>, rows: seq<Row>, b: Build)
    requires AreRuns(result, rows, FirstSeen(rows, RunKey))
    ensures Sum(result, RunTotal) == Sum(rows, TotalOf)
    ensures Sum(result, RunPassed) == Sum(rows, PassedOf)
    ensures Sum(result, RunSkipped) == Sum(rows, SkippedOf)
    ensures Sum(result, RunDuration) == Sum(rows, DurationOf)
    ensures Sum(result, RunFailed) == Sum(rows, FailedOf)
    ensures Sum(result, RunLists(b)) == multiset(BuildsOf(rows))[b]
  {
    var keys := FirstSeen(rows, RunKey);
    forall j | 0 <= j < |keys|
      ensures var mine := Pick(rows, RunKey, keys[j]);
              && RunTotal(result[j]) == Sum(mine, TotalOf)
              && RunPassed(result[j]) == Sum(mine, PassedOf)
              && RunSkipped(result[j]) == Sum(mine, SkippedOf)
              && RunDuration(result[j]) == Sum(mine, DurationOf)
              && RunFailed(result[j]) == Sum(mine, FailedOf)
              && RunLists(b)(result[j]) == Sum(mine, Occurs(b))
    {
      RunConserves(result[j], Pick(rows, RunKey, keys[j]), b);
    }
    GroupsConserve(result, RunTotal, rows, RunKey, TotalOf);
    GroupsConserve(result, RunPassed, rows, RunKey, PassedOf);
    GroupsConserve(result, RunSkipped, rows, RunKey, SkippedOf);
    GroupsConserve(result, RunDuration, rows, RunKey, DurationOf);
    GroupsConserve(result, RunFailed, rows, RunKey, FailedOf);
    GroupsConserve(result, RunLists(b), rows, RunKey, Occurs(b));
    BuildCount(rows, b);
  }

  // ----- Rates -----

  /** Stats are all absent, or non-negative with no test counted twice. */
  predicate WellFormed(r: Row) {
    && TotalOf(r) >= 0 && PassedOf(r) >= 0 && FailedOf(r) >= 0 && SkippedOf(r) >= 0
    && PassedOf(r) + FailedOf(r) + SkippedOf(r) <= TotalOf(r)
    && (r.total.None? ==> PassedOf(r) == 0 && SkippedOf(r) == 0)
  }

  lemma {:induction false} SumsWellFormed(rows: seq<Row>)
    requires forall i :: 0 <= i < |rows| ==> WellFormed(rows[i])
    ensures 0 <= Sum(rows, PassedOf) && 0 <= Sum(rows, SkippedOf)
    ensures Sum(rows, PassedOf) + Sum(rows, SkippedOf) <= Sum(rows, TotalOf)
    ensures !AnyStats(rows) ==> Sum(rows, TotalOf) == 0
  {
    if rows != [] {
      var n := |rows| - 1;
      SumsWellFormed(rows[..n]);
      assert WellFormed(rows[n]);
    }
  }

  lemma Floor(passed: int, denom: int, tenths: int)
    requires denom > 0 && passed >= 0
    ensures Rate(passed, denom) >= tenths <==> passed * 1000 >= tenths * denom
  {
    var q := Rate(passed, denom);
    assert q * denom <= passed * 1000 < (q + 1) * denom;
    if q >= tenths {
      assert q * denom >= tenths * denom;
    } else {
      assert (q + 1) * denom <= tenths * denom;
    }
  }

  /** The floor never overstates: 100.0 is shown exactly for a suite whose tests all passed. */
  lemma FullRateIffPassed(s: SuiteResp, rows: seq<Row>)
    requires IsSuite(s, rows) && forall i :: 0 <= i < |rows| ==> WellFormed(rows[i])
    ensures s.passRate <= 1000
    ensures s.passRate == 1000 <==> s.status == SuitePassed
  {
    SumsWellFormed(rows);
    var denom := s.total - s.skipped;
    if denom > 0 {
      Floor(s.passed, denom, 1000);
      Floor(s.passed, denom, 1001);
    }
  }

  /** Flooring never moves the 70% line: degraded means at least 7 in 10 passed, but not all. */
  lemma DegradedExactly(hasStats: bool, passed: int, denom: int)
    ensures StatusOf(hasStats, passed, denom) == SuiteDegraded <==>
            hasStats && denom > 0 && 7 * denom <= 10 * passed < 10 * denom
  {
    if denom > 0 && passed >= 0 {
      Floor(passed, denom, 700);
    } else if denom > 0 {
      NegativeRate(passed, denom);
    }
  }

  lemma NegativeRate(passed: int, denom: int)
    requires denom > 0 && passed < 0
    ensures Rate(passed, denom) <= 0
  {
    assert (-(passed * 1000)) / denom >= 0;
  }

  function DenomOf(s: SuiteResp): int { s.total - s.skipped }

  /** Bounds on the rates of the suites where tests ran add up to bounds on the sums. */
  lemma {:induction false} RatesAddUp(suites: seq<SuiteResp>, lo: int, hi: int)
    requires forall i :: 0 <= i < |suites| ==> 0 <= suites[i].passed <= DenomOf(suites[i])
    requires forall i :: 0 <= i < |suites| && DenomOf(suites[i]) > 0 ==>
               lo <= Rate(suites[i].passed, DenomOf(suites[i])) <= hi
    ensures 0 <= Sum(suites, SuitePassedTests) <= Sum(suites, DenomOf)
    ensures lo * Sum(suites, DenomOf) <= Sum(suites, SuitePassedTests) * 1000
    ensures Sum(suites, DenomOf) > 0 ==> Sum(suites, SuitePassedTests) * 1000 < (hi + 1) * Sum(suites, DenomOf)
    ensures Sum(suites, DenomOf) == 0 ==> Sum(suites, SuitePassedTests) == 0
  {
    if suites != [] {
      var n := |suites| - 1;
      RatesAddUp(suites[..n], lo, hi);
      var p, d := suites[n].passed, DenomOf(suites[n]);
      var p0, d0 := Sum(suites[..n], SuitePassedTests), Sum(suites[..n], DenomOf);
      if d > 0 {
        Floor(p, d, lo);
        Floor(p, d, hi + 1);
      }
      AddBounds(lo, hi, p0, d0, p, d);
    }
  }

  lemma AddBounds(lo: int, hi: int, p0: int, d0: int, p: int, d: int)
    requires lo * d0 <= p0 * 1000 && lo * d <= p * 1000
    requires d0 >= 0 && d >= 0 && (d0 == 0 ==> p0 == 0) && (d == 0 ==> p == 0)
    requires d0 > 0 ==> p0 * 1000 < (hi + 1) * d0
    requires d > 0 ==> p * 1000 < (hi + 1) * d
    ensures lo * (d0 + d) <= (p0 + p) * 1000
    ensures d0 + d > 0 ==> (p0 + p) * 1000 < (hi + 1) * (d0 + d)
  {
    assert lo * (d0 + d) == lo * d0 + lo * d;
    assert (hi + 1) * (d0 + d) == (hi + 1) * d0 + (hi + 1) * d;
  }

  lemma {:induction false} DenomSplits(suites: seq<SuiteResp>)
    ensures Sum(suites, DenomOf) == Sum(suites, SuiteTotal) - Sum(suites, SuiteSkippedTests)
  {
    if suites != [] { DenomSplits(suites[..|suites| - 1]); }
  }

  /** A run's pass rate lies between the smallest and the largest rate of its suites where
      tests ran. */
  lemma RunRateBetween(run: RunResp, rows: seq<Row>, lo: int, hi: int)
    requires IsRun(run, rows) && forall i :: 0 <= i < |rows| ==> WellFormed(rows[i])
    requires run.aggregate.testsTotal > run.aggregate.testsSkipped
    requires forall i :: 0 <= i < |run.suites| && DenomOf(run.suites[i]) > 0 ==> lo <= run.suites[i].passRate <= hi
    ensures lo <= run.aggregate.passRate <= hi
  {
    var suites, keys := run.suites, FirstSeen(rows, ProjectOf);
    forall i | 0 <= i < |suites|
      ensures 0 <= suites[i].passed <= DenomOf(suites[i])
      ensures suites[i].passRate == Rate(suites[i].passed, DenomOf(suites[i]))
    {
      var mine := Pick(rows, ProjectOf, keys[i]);
      PickedHaveKey(rows, ProjectOf, keys[i]);
      assert IsSuite(suites[i], mine);
      SumsWellFormed(mine);
    }
    RatesAddUp(suites, lo, hi);
    DenomSplits(suites);
    var p, d := Sum(suites, SuitePassedTests), Sum(suites, DenomOf);
    Floor(p, d, lo);
    Floor(p, d, hi + 1);
  }
}
