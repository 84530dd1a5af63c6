/** groupPipelineRuns of api/internal/handlers/pipeline_handler.go: one pass over flat rows into
    maps of accumulators, then one pass over the accumulators.

    Pass rates are integer tenths of a percent, as the source computes them before dividing by
    ten. Times count from Go's zero time and are not formatted. */
module PipelineRuns {
  import opened Options
  import opened Decimal
  import opened Grouping

  datatype Row = Row(
    pipelineID: string, pipelineURL: string, commitSHA: string, branch: string, ciBuildURL: string,
    createdAt: nat, projectID: int, slug: string, displayName: string, buildNumber: int, buildID: int,
    groupProjectID: int, groupSlug: string,
    passed: Option<int>, failed: Option<int>, broken: Option<int>, skipped: Option<int>, total: Option<int>,
    durationMs: Option<int>)

  function Deref(x: Option<int>): int { if x.Some? then x.value else 0 }

  datatype Build = Build(buildID: int, buildNumber: int)

  // ----- Keys and measures of a row -----

  /** What a run is named after within its group: the pipeline, or the commit when there is none. */
  function RunRef(r: Row): string { if r.pipelineID != "" then r.pipelineID else r.commitSHA }

  datatype GroupKey = GroupKey(text: string)

  function RunKey(r: Row): GroupKey { GroupKey(FormatInt(r.groupProjectID) + ":" + RunRef(r)) }

  /** When two rows belong to one run: in one group, the pipeline decides if both name one, the commit
      if neither does, and a commit spelled like the other row's pipeline otherwise. */
  predicate SameRun(r: Row, q: Row) {
    && r.groupProjectID == q.groupProjectID
    && if r.pipelineID != "" && q.pipelineID != "" then r.pipelineID == q.pipelineID
       else if r.pipelineID == "" && q.pipelineID == "" then r.commitSHA == q.commitSHA
       else if r.pipelineID == "" then r.commitSHA == q.pipelineID
       else q.commitSHA == r.pipelineID
  }

  /** The key tells exactly that. */
  lemma RunKeyExact(r: Row, q: Row)
    ensures RunKey(r) == RunKey(q) <==> SameRun(r, q)
  {
    if RunKey(r) == RunKey(q) {
      SeparatedInjective(r.groupProjectID, q.groupProjectID, ':', RunRef(r), RunRef(q));
    }
  }

  function ProjectOf(r: Row): int { r.projectID }

  function TotalOf(r: Row): int { Deref(r.total) }
  function PassedOf(r: Row): int { Deref(r.passed) }
  function FailedOf(r: Row): int { Deref(r.failed) + Deref(r.broken) }
  function SkippedOf(r: Row): int { Deref(r.skipped) }
  function DurationOf(r: Row): int { Deref(r.durationMs) }

  // ----- The naive aggregate of one suite's rows -----

  /** The first row with the highest build number. */
  function Newest(rows: seq<Row>): Row
    requires rows != []
  {
    var n := |rows| - 1;
    if n == 0 then rows[0]
    else
      var best := Newest(rows[..n]);
      if rows[n].buildNumber > best.buildNumber then rows[n] else best
  }

  lemma {:induction false} NewestIsHighest(rows: seq<Row>) returns (i: nat)
    requires rows != []
    ensures i < |rows| && Newest(rows) == rows[i]
    ensures forall j :: 0 <= j < |rows| ==> rows[j].buildNumber <= rows[i].buildNumber
    ensures forall j :: 0 <= j < i ==> rows[j].buildNumber < rows[i].buildNumber
  {
    var n := |rows| - 1;
    if n == 0 {
      i := 0;
    } else {
      i := NewestIsHighest(rows[..n]);
      if rows[n].buildNumber > rows[i].buildNumber { i := n; }
    }
  }

  function BuildsOf(rows: seq<Row>): seq<Build> {
    if rows == [] then []
    else
      var n := |rows| - 1;
      BuildsOf(rows[..n]) + [Build(rows[n].buildID, rows[n].buildNumber)]
  }

  predicate AnyStats(rows: seq<Row>) { exists i :: 0 <= i < |rows| && rows[i].total.Some? }

  datatype SuiteAccum = SuiteAccum(
    projectID: int, slug: string, displayName: string,
    total: int, failed: int, passed: int, skipped: int, durationMs: int,
    buildID: int, buildNumber: int, hasBuild: bool, hasStats: bool, builds: seq<Build>)

  function SuiteOf(rows: seq<Row>): SuiteAccum
    requires rows != []
  {
    SuiteAccum(rows[0].projectID, rows[0].slug, rows[0].displayName,
               Sum(rows, TotalOf), Sum(rows, FailedOf), Sum(rows, PassedOf), Sum(rows, SkippedOf), Sum(rows, DurationOf),
               Newest(rows).buildID, Newest(rows).buildNumber, true, AnyStats(rows), BuildsOf(rows))
  }

  // ----- The naive aggregate of one run's rows -----

  function FirstURL(rows: seq<Row>): string {
    if rows == [] then ""
    else
      var n := |rows| - 1;
      var before := FirstURL(rows[..n]);
      if before == "" then rows[n].ciBuildURL else before
  }

  function Latest(rows: seq<Row>): nat {
    if rows == [] then 0
    else
      var n := |rows| - 1;
      var before := Latest(rows[..n]);
      if rows[n].createdAt > before then rows[n].createdAt else before
  }

  /** `head` is the run's first row, whose names the run keeps. */
  datatype RunAccum = RunAccum(head: Row, ciBuildURL: string, maxTS: nat, suites: map<int, SuiteAccum>, suiteOrder: seq<int>)

  /** An accumulator holds, per project, the aggregate of exactly that project's rows. */
  ghost predicate RunHolds(acc: RunAccum, rows: seq<Row>) {
    && rows != []
    && acc.head == rows[0] && acc.ciBuildURL == FirstURL(rows) && acc.maxTS == Latest(rows)
    && acc.suiteOrder == FirstSeen(rows, ProjectOf)
    && SuitesHold(acc.suites, acc.suiteOrder, rows)
  }

  ghost predicate SuitesHold(suites: map<int, SuiteAccum>, order: seq<int>, rows: seq<Row>) {
    && (forall p :: p in suites <==> p in order)
    && (forall p :: p in suites ==> Pick(rows, ProjectOf, p) != [] && suites[p] == SuiteOf(Pick(rows, ProjectOf, p)))
  }

  // ----- First pass -----

  function Blank(r: Row): SuiteAccum {
    SuiteAccum(r.projectID, r.slug, r.displayName, 0, 0, 0, 0, 0, 0, 0, false, false, [])
  }

  method AddToSuite(seen: Option<SuiteAccum>, r: Row, ghost rows: seq<Row>) returns (sa: SuiteAccum)
    requires seen.None? <==> rows == []
    requires seen.Some? ==> seen.value == SuiteOf(rows)
    ensures sa == SuiteOf(rows + [r])
  {
    SuiteOfSnoc(rows, r);
    sa := if seen.Some? then seen.value else Blank(r);
    sa := sa.(hasStats := sa.hasStats || r.total.Some?,
              total := sa.total + Deref(r.total),
              failed := sa.failed + (Deref(r.failed) + Deref(r.broken)),
              passed := sa.passed + Deref(r.passed),
              skipped := sa.skipped + Deref(r.skipped),
              durationMs := sa.durationMs + Deref(r.durationMs),
              builds := sa.builds + [Build(r.buildID, r.buildNumber)]);
    if !sa.hasBuild || r.buildNumber > sa.buildNumber {
      sa := sa.(buildNumber := r.buildNumber, buildID := r.buildID, hasBuild := true);
    }
  }

  /** One row more, field by field. */
  lemma SuiteOfSnoc(rows: seq<Row>, r: Row)
    ensures var a, b := if rows == [] then Blank(r) else SuiteOf(rows), SuiteOf(rows + [r]);
            var newer := !a.hasBuild || r.buildNumber > a.buildNumber;
            && b.projectID == a.projectID && b.slug == a.slug && b.displayName == a.displayName
            && b.total == a.total + TotalOf(r) && b.failed == a.failed + FailedOf(r) && b.passed == a.passed + PassedOf(r)
            && b.skipped == a.skipped + SkippedOf(r) && b.durationMs == a.durationMs + DurationOf(r)
            && b.buildID == (if newer then r.buildID else a.buildID)
            && b.buildNumber == (if newer then r.buildNumber else a.buildNumber)
            && b.hasBuild && (b.hasStats <==> a.hasStats || r.total.Some?)
            && b.builds == a.builds + [Build(r.buildID, r.buildNumber)]
  {
    SuiteSnoc(rows, r);
    assert (rows + [r])[0] == if rows == [] then r else rows[0];
  }

  lemma SuiteSnoc(rows: seq<Row>, r: Row)
    ensures var rows' := rows + [r];
            && Sum(rows', TotalOf) == Sum(rows, TotalOf) + TotalOf(r)
            && Sum(rows', FailedOf) == Sum(rows, FailedOf) + FailedOf(r)
            && Sum(rows', PassedOf) == Sum(rows, PassedOf) + PassedOf(r)
            && Sum(rows', SkippedOf) == Sum(rows, SkippedOf) + SkippedOf(r)
            && Sum(rows', DurationOf) == Sum(rows, DurationOf) + DurationOf(r)
            && BuildsOf(rows') == BuildsOf(rows) + [Build(r.buildID, r.buildNumber)]
            && (AnyStats(rows') <==> AnyStats(rows) || r.total.Some?)
            && Newest(rows') == if rows == [] || r.buildNumber > Newest(rows).buildNumber then r else Newest(rows)
  {
    var rows' := rows + [r];
    assert rows'[..|rows|] == rows;
    assert rows'[|rows|] == r;
    assert forall i :: 0 <= i < |rows| ==> rows'[i] == rows[i];
    SumSnoc(rows, r, TotalOf);
    SumSnoc(rows, r, FailedOf);
    SumSnoc(rows, r, PassedOf);
    SumSnoc(rows, r, SkippedOf);
    SumSnoc(rows, r, DurationOf);
  }

  lemma SuitesSnocHold(suites: map<int, SuiteAccum>, order: seq<int>, rows: seq<Row>, r: Row, sa: SuiteAccum)
    requires SuitesHold(suites, order, rows) && sa == SuiteOf(Pick(rows, ProjectOf, r.projectID) + [r])
    ensures SuitesHold(suites[r.projectID := sa], if r.projectID in order then order else order + [r.projectID], rows + [r])
  {
    var suites' := suites[r.projectID := sa];
    forall p | p in suites'
      ensures Pick(rows + [r], ProjectOf, p) != [] && suites'[p] == SuiteOf(Pick(rows + [r], ProjectOf, p))
    {
      PickSnoc(rows, r, ProjectOf, p);
    }
  }

  /** The per-run facts that are not about suites. */
  lemma HeadSnoc(rows: seq<Row>, r: Row)
    ensures (rows + [r])[0] == if rows == [] then r else rows[0]
    ensures FirstURL(rows + [r]) == if FirstURL(rows) == "" then r.ciBuildURL else FirstURL(rows)
    ensures Latest(rows + [r]) == if r.createdAt > Latest(rows) then r.createdAt else Latest(rows)
  {
    assert (rows + [r])[..|rows|] == rows;
  }

  method AddToSuites(suites: map<int, SuiteAccum>, order: seq<int>, r: Row, ghost rows: seq<Row>)
    returns (suites': map<int, SuiteAccum>, order': seq<int>)
    requires SuitesHold(suites, order, rows) && order == FirstSeen(rows, ProjectOf)
    ensures SuitesHold(suites', order', rows + [r]) && order' == FirstSeen(rows + [r], ProjectOf)
  {
    SeenIffPicked(rows, ProjectOf, r.projectID);
    FirstSeenSnoc(rows, r, ProjectOf);
    var seen := if r.projectID in suites then Some(suites[r.projectID]) else None;
    order' := if seen.None? then order + [r.projectID] else order;
    var sa := AddToSuite(seen, r, Pick(rows, ProjectOf, r.projectID));
    SuitesSnocHold(suites, order, rows, r, sa);
    suites' := suites[r.projectID := sa];
  }

  method AddToRun(found: Option<RunAccum>, r: Row, ghost rows: seq<Row>) returns (acc: RunAccum)
    requires found.None? <==> rows == []
    requires found.Some? ==> RunHolds(found.value, rows)
    ensures RunHolds(acc, rows + [r])
  {
    acc := if found.Some? then found.value else RunAccum(r, r.ciBuildURL, 0, map[], []);
    HeadSnoc(rows, r);
    if r.createdAt > acc.maxTS {
      acc := acc.(maxTS := r.createdAt);
    }
    if r.ciBuildURL != "" && acc.ciBuildURL == "" {
      acc := acc.(ciBuildURL := r.ciBuildURL);
    }
    var suites, order := AddToSuites(acc.suites, acc.suiteOrder, r, rows);
    acc := acc.(suites := suites, suiteOrder := order);
  }

  /** The accumulators hold, per run key, the aggregate of exactly that key's rows. */
  ghost predicate AllHold(accs: map<GroupKey, RunAccum>, rows: seq<Row>) {
    && (forall k :: k in accs <==> k in FirstSeen(rows, RunKey))
    && (forall k {:trigger accs[k]} :: k in accs ==> RunHolds(accs[k], Pick(rows, RunKey, k)))
  }

  /** The order list and the map after some rows. */
  ghost predicate Accumulated(order: seq<GroupKey>, accs: map<GroupKey, RunAccum>, rows: seq<Row>) {
    order == FirstSeen(rows, RunKey) && AllHold(accs, rows)
  }

  method Accumulate(rows: seq<Row>) returns (order: seq<GroupKey>, accs: map<GroupKey, RunAccum>)
    ensures Accumulated(order, accs, rows)
  {
    order, accs := [], map[];
    NothingAccumulated(rows);
    for i := 0 to |rows|
      invariant Accumulated(order, accs, rows[..i])
    {
      order, accs := AddNext(rows, i, order, accs);
    }
    assert rows[..|rows|] == rows;
  }

  method AddNext(rows: seq<Row>, i: nat, order: seq<GroupKey>, accs: map<GroupKey, RunAccum>)
    returns (order': seq<GroupKey>, accs': map<GroupKey, RunAccum>)
    requires i < |rows| && Accumulated(order, accs, rows[..i])
    ensures Accumulated(order', accs', rows[..i + 1])
  {
    assert rows[..i + 1] == rows[..i] + [rows[i]];
    order', accs' := AddRow(rows[..i], rows[i], order, accs);
  }

  lemma NothingAccumulated(rows: seq<Row>)
    ensures Accumulated([], map[], rows[..0])
  {
  }

  method AddRow(ghost rows: seq<Row>, r: Row, order: seq<GroupKey>, accs: map<GroupKey, RunAccum>)
    returns (order': seq<GroupKey>, accs': map<GroupKey, RunAccum>)
    requires Accumulated(order, accs, rows)
    ensures Accumulated(order', accs', rows + [r])
  {
    var key := RunKey(r);
    SeenIffPicked(rows, RunKey, key);
    FirstSeenSnoc(rows, r, RunKey);
    var found := if key in accs then Some(accs[key]) else None;
    order' := if found.None? then order + [key] else order;
    var acc := AddToRun(found, r, Pick(rows, RunKey, key));
    accs' := accs[key := acc];
    forall k | k in accs' ensures RunHolds(accs'[k], Pick(rows + [r], RunKey, k)) {
      PickSnoc(rows, r, RunKey, k);
    }
  }

  // ----- Rates and statuses -----

  /** Go's integer division truncates toward zero. */
  function TruncDiv(a: int, b: int): int
    requires b > 0
  {
    if a >= 0 then a / b else -((-a) / b)
  }

  function Rate(passed: int, denom: int): int {
    if denom > 0 then TruncDiv(passed * 1000, denom) else 0
  }

  datatype Status = SuiteFailed | SuiteSkipped | SuitePassed | SuiteDegraded

  function StatusOf(hasStats: bool, passed: int, denom: int): Status {
    if !hasStats then SuiteFailed
    else if denom <= 0 then SuiteSkipped
    else if passed >= denom then SuitePassed
    else if Rate(passed, denom) >= 700 then SuiteDegraded
    else SuiteFailed
  }

  // ----- Second pass -----

  datatype SuiteResp = SuiteResp(
    projectID: int, slug: string, displayName: string, buildNumber: int, buildID: int, passRate: int,
    total: int, passed: int, failed: int, skipped: int, durationMs: int, status: Status, builds: seq<Build>)

  datatype Aggregate = Aggregate(
    suitesPassed: int, suitesTotal: int, testsPassed: int, testsTotal: int, testsSkipped: int, passRate: int,
    totalDurationMs: int)

  datatype RunResp = RunResp(head: Row, ciBuildURL: string, timestamp: nat, suites: seq<SuiteResp>, aggregate: Aggregate)

  ghost predicate SortedByNumber(builds: seq<Build>) {
    forall i, j :: 0 <= i < j < |builds| ==> builds[i].buildNumber <= builds[j].buildNumber
  }

  /** A suite of the response is the naive aggregate of its rows, builds sorted. */
  ghost predicate IsSuite(s: SuiteResp, rows: seq<Row>) {
    && rows != []
    && var a := SuiteOf(rows);
       && s.projectID == a.projectID && s.slug == a.slug && s.displayName == a.displayName
       && s.total == a.total && s.passed == a.passed && s.failed == a.failed && s.skipped == a.skipped
       && s.durationMs == a.durationMs && s.buildNumber == a.buildNumber && s.buildID == a.buildID
       && s.passRate == Rate(a.passed, a.total - a.skipped)
       && s.status == StatusOf(a.hasStats, a.passed, a.total - a.skipped)
       && SortedByNumber(s.builds) && multiset(s.builds) == multiset(a.builds)
  }

  function InsertAt(s: seq<Build>, i: nat, b: Build): seq<Build>
    requires i <= |s|
  {
    s[..i] + [b] + s[i..]
  }

  lemma InsertSorted(s: seq<Build>, i: nat, b: Build)
    requires i <= |s| && SortedByNumber(s)
    requires i > 0 ==> s[i - 1].buildNumber <= b.buildNumber
    requires i < |s| ==> b.buildNumber <= s[i].buildNumber
    ensures SortedByNumber(InsertAt(s, i, b))
  {
    var t := InsertAt(s, i, b);
    assert forall j :: 0 <= j < i ==> t[j] == s[j] && t[j].buildNumber <= b.buildNumber;
    assert t[i] == b;
    assert forall j :: i < j < |t| ==> t[j] == s[j - 1] && b.buildNumber <= t[j].buildNumber;
  }

  lemma InsertKeepsAll(s: seq<Build>, i: nat, b: Build)
    requires i <= |s|
    ensures multiset(InsertAt(s, i, b)) == multiset(s) + multiset{b}
  {
    assert s == s[..i] + s[i..];
    assert multiset(s[..i] + [b] + s[i..]) == multiset(s[..i]) + multiset([b]) + multiset(s[i..]);
  }

  /** Inserts one build into a sorted list, after those of equal number. */
  method InsertBuild(sorted: seq<Build>, b: Build) returns (r: seq<Build>)
    requires SortedByNumber(sorted)
    ensures SortedByNumber(r) && multiset(r) == multiset(sorted) + multiset{b}
  {
    var i := |sorted|;
    while i > 0 && sorted[i - 1].buildNumber > b.buildNumber
      invariant 0 <= i <= |sorted|
      invariant i < |sorted| ==> sorted[i].buildNumber > b.buildNumber
    {
      i := i - 1;
    }
    InsertSorted(sorted, i, b);
    InsertKeepsAll(sorted, i, b);
    r := sorted[..i] + [b] + sorted[i..];
  }

  method SortBuilds(builds: seq<Build>) returns (r: seq<Build>)
    ensures SortedByNumber(r) && multiset(r) == multiset(builds)
  {
    r := [];
    for i := 0 to |builds|
      invariant SortedByNumber(r) && multiset(r) == multiset(builds[..i])
    {
      r := InsertBuild(r, builds[i]);
      assert builds[..i + 1] == builds[..i] + [builds[i]];
    }
    assert builds[..|builds|] == builds;
  }

  method FinishSuite(sa: SuiteAccum, ghost rows: seq<Row>) returns (s: SuiteResp)
    requires rows != [] && sa == SuiteOf(rows)
    ensures IsSuite(s, rows)
  {
    var builds := SortBuilds(sa.builds);
    var denom := sa.total - sa.skipped;
    var passRate := 0;
    if denom > 0 {
      passRate := TruncDiv(sa.passed * 1000, denom);
    }
    var status := SuiteFailed;
    if !sa.hasStats {
    } else if denom <= 0 {
      status := SuiteSkipped;
    } else if sa.passed >= denom {
      status := SuitePassed;
    } else if passRate >= 700 {
      status := SuiteDegraded;
    }
    s := SuiteResp(sa.projectID, sa.slug, sa.displayName, sa.buildNumber, sa.buildID, passRate,
                   sa.total, sa.passed, sa.failed, sa.skipped, sa.durationMs, status, builds);
  }

  function SuiteTotal(s: SuiteResp): int { s.total }
  function SuitePassedTests(s: SuiteResp): int { s.passed }
  function SuiteSkippedTests(s: SuiteResp): int { s.skipped }
  function SuiteDuration(s: SuiteResp): int { s.durationMs }
  function SuiteIsPassed(s: SuiteResp): int { if s.status == SuitePassed then 1 else 0 }

  /** The run's aggregate in terms of its suites. */
  function AggregateOf(suites: seq<SuiteResp>): Aggregate {
    var passed, total, skipped := Sum(suites, SuitePassedTests), Sum(suites, SuiteTotal), Sum(suites, SuiteSkippedTests);
    Aggregate(Sum(suites, SuiteIsPassed), |suites|, passed, total, skipped, Rate(passed, total - skipped), Sum(suites, SuiteDuration))
  }

  ghost predicate AreSuites(suites: seq<SuiteResp>, rows: seq<Row>, order: seq<int>) {
    |suites| == |order| && forall j :: 0 <= j < |order| ==> IsSuite(suites[j], Pick(rows, ProjectOf, order[j]))
  }

  lemma AreSuitesSnoc(suites: seq<SuiteResp>, s: SuiteResp, rows: seq<Row>, order: seq<int>, i: nat)
    requires i < |order| && AreSuites(suites, rows, order[..i]) && IsSuite(s, Pick(rows, ProjectOf, order[i]))
    ensures AreSuites(suites + [s], rows, order[..i + 1])
  {
    var suites' := suites + [s];
    forall j | 0 <= j <= i ensures IsSuite(suites'[j], Pick(rows, ProjectOf, order[..i + 1][j])) {
      if j < i { assert order[..i][j] == order[j] && suites'[j] == suites[j]; }
    }
  }

  /** A run of the response is the aggregate of exactly its rows. */
  ghost predicate IsRun(run: RunResp, rows: seq<Row>) {
    && rows != []
    && run.head == rows[0] && run.ciBuildURL == FirstURL(rows) && run.timestamp == Latest(rows)
    && AreSuites(run.suites, rows, FirstSeen(rows, ProjectOf))
    && run.aggregate == AggregateOf(run.suites)
  }

  /** The running totals are those of the suites so far. */
  ghost predicate Tallies(agg: Aggregate, effPassed: int, effDenom: int, suites: seq<SuiteResp>) {
    && agg == Aggregate(Sum(suites, SuiteIsPassed), 0, 0, Sum(suites, SuiteTotal), Sum(suites, SuiteSkippedTests), 0, Sum(suites, SuiteDuration))
    && effPassed == Sum(suites, SuitePassedTests)
    && effDenom == Sum(suites, SuiteTotal) - Sum(suites, SuiteSkippedTests)
  }

  method TallySuite(agg: Aggregate, effPassed: int, effDenom: int, s: SuiteResp, ghost suites: seq<SuiteResp>)
    returns (agg': Aggregate, effPassed': int, effDenom': int)
    requires Tallies(agg, effPassed, effDenom, suites)
    ensures Tallies(agg', effPassed', effDenom', suites + [s])
  {
    SuitesSnoc(suites, s);
    effPassed' := effPassed + s.passed;
    effDenom' := effDenom + (s.total - s.skipped);
    agg' := agg.(testsTotal := agg.testsTotal + s.total, testsSkipped := agg.testsSkipped + s.skipped,
                 totalDurationMs := agg.totalDurationMs + s.durationMs);
    if s.status == SuitePassed {
      agg' := agg'.(suitesPassed := agg'.suitesPassed + 1);
    }
  }

  method FinishRun(acc: RunAccum, ghost rows: seq<Row>) returns (run: RunResp)
    requires RunHolds(acc, rows)
    ensures IsRun(run, rows)
  {
    var suites: seq<SuiteResp> := [];
    var agg := Aggregate(0, 0, 0, 0, 0, 0, 0);
    var effPassed, effDenom := 0, 0;
    for i := 0 to |acc.suiteOrder|
      invariant AreSuites(suites, rows, acc.suiteOrder[..i])
      invariant Tallies(agg, effPassed, effDenom, suites)
    {
      var p := acc.suiteOrder[i];
      assert p in acc.suiteOrder;
      var s := FinishSuite(acc.suites[p], Pick(rows, ProjectOf, p));
      agg, effPassed, effDenom := TallySuite(agg, effPassed, effDenom, s, suites);
      AreSuitesSnoc(suites, s, rows, acc.suiteOrder, i);
      suites := suites + [s];
    }
    assert acc.suiteOrder[..|acc.suiteOrder|] == acc.suiteOrder;
    agg := agg.(suitesTotal := |suites|, testsPassed := effPassed);
    if effDenom > 0 {
      agg := agg.(passRate := TruncDiv(effPassed * 1000, effDenom));
    }
    run := RunResp(acc.head, acc.ciBuildURL, acc.maxTS, suites, agg);
  }

  lemma SuitesSnoc(suites: seq<SuiteResp>, s: SuiteResp)
    ensures Sum(suites + [s], SuiteIsPassed) == Sum(suites, SuiteIsPassed) + SuiteIsPassed(s)
    ensures Sum(suites + [s], SuiteTotal) == Sum(suites, SuiteTotal) + s.total
    ensures Sum(suites + [s], SuiteSkippedTests) == Sum(suites, SuiteSkippedTests) + s.skipped
    ensures Sum(suites + [s], SuiteDuration) == Sum(suites, SuiteDuration) + s.durationMs
    ensures Sum(suites + [s], SuitePassedTests) == Sum(suites, SuitePassedTests) + s.passed
  {
    SumSnoc(suites, s, SuiteIsPassed);
    SumSnoc(suites, s, SuiteTotal);
    SumSnoc(suites, s, SuiteSkippedTests);
    SumSnoc(suites, s, SuiteDuration);
    SumSnoc(suites, s, SuitePassedTests);
  }

  ghost predicate AreRuns(result: seq<RunResp>, rows: seq<Row>, order: seq<GroupKey>) {
    |result| == |order| && forall i :: 0 <= i < |order| ==> IsRun(result[i], Pick(rows, RunKey, order[i]))
  }

  /** One run per key in first-seen order, each the aggregate of exactly the rows of its key. */
  method GroupPipelineRuns(rows: seq<Row>) returns (result: seq<RunResp>)
    ensures AreRuns(result, rows, FirstSeen(rows, RunKey))
  {
    if |rows| == 0 {
      return [];
    }
    var order, accs := Accumulate(rows);
    result := [];
    for i := 0 to |order|
      invariant AreRuns(result, rows, order[..i])
    {
      assert order[i] in accs;
      var run := FinishRun(accs[order[i]], Pick(rows, RunKey, order[i]));
      AreRunsSnoc(result, run, rows, order, i);
      result := result + [run];
    }
    assert order[..|order|] == order;
  }

  lemma AreRunsSnoc(result: seq<RunResp>, run: RunResp, rows: seq<Row>, order: seq<GroupKey>, i: nat)
    requires i < |order| && AreRuns(result, rows, order[..i]) && IsRun(run, Pick(rows, RunKey, order[i]))
    ensures AreRuns(result + [run], rows, order[..i + 1])
  {
    var result' := result + [run];
    forall j | 0 <= j <= i ensures IsRun(result'[j], Pick(rows, RunKey, order[..i + 1][j])) {
      if j < i { assert order[..i][j] == order[j] && result'[j] == result[j]; }
    }
  }
}
