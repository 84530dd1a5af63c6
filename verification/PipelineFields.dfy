/** The response of groupPipelineRuns read off the fields of the rows: which rows make up a run and a
    suite, and what each number shown counts. */
module PipelineFields {
  import opened Options
  import opened Grouping
  import opened PipelineRuns
  import opened PipelineLaws

  // ----- Which rows make up a run -----

  /** The rows that belong to the same run as `head`, in order. */
  function RowsOf(rows: seq<Row>, head: Row): seq<Row> {
    if rows == [] then []
    else
      var n := |rows| - 1;
      RowsOf(rows[..n], head) + if SameRun(head, rows[n]) then [rows[n]] else []
  }

  lemma {:induction false} RowsOfPick(rows: seq<Row>, head: Row)
    ensures RowsOf(rows, head) == Pick(rows, RunKey, RunKey(head))
  {
    if rows != [] {
      var n := |rows| - 1;
      RowsOfPick(rows[..n], head);
      RunKeyExact(head, rows[n]);
    }
  }

  ghost predicate Grouped(result: seq<RunResp>, rows: seq<Row>) { AreRuns(result, rows, FirstSeen(rows, RunKey)) }

  lemma HeadOfRun(result: seq<RunResp>, rows: seq<Row>, j: nat)
    requires Grouped(result, rows) && j < |result|
    ensures RunKey(result[j].head) == FirstSeen(rows, RunKey)[j] && result[j].head in rows
    ensures IsRun(result[j], RowsOf(rows, result[j].head))
  {
    var k := FirstSeen(rows, RunKey)[j];
    PickedHaveKey(rows, RunKey, k);
    assert IsRun(result[j], Pick(rows, RunKey, k));
    RowsOfPick(rows, result[j].head);
  }

  lemma HeadsDiffer(result: seq<RunResp>, rows: seq<Row>, j: nat, k: nat)
    requires Grouped(result, rows) && j < k < |result|
    ensures !SameRun(result[j].head, result[k].head)
  {
    HeadOfRun(result, rows, j);
    HeadOfRun(result, rows, k);
    FirstSeenDistinct(rows, RunKey);
    RunKeyExact(result[j].head, result[k].head);
  }

  lemma RunOfRow(result: seq<RunResp>, rows: seq<Row>, r: Row) returns (j: nat)
    requires Grouped(result, rows) && r in rows
    ensures j < |result| && SameRun(result[j].head, r)
  {
    KeySeen(rows, RunKey, r);
    j :| 0 <= j < |result| && FirstSeen(rows, RunKey)[j] == RunKey(r);
    HeadOfRun(result, rows, j);
    RunKeyExact(result[j].head, r);
  }

  /** Each run is the aggregate of exactly the rows that belong together with its first row; no two
      runs belong together; and every row belongs to one of them. */
  lemma RunsPartition(result: seq<RunResp>, rows: seq<Row>)
    requires Grouped(result, rows)
    ensures forall j :: 0 <= j < |result| ==> IsRun(result[j], RowsOf(rows, result[j].head)) && result[j].head in rows
    ensures forall j, k :: 0 <= j < k < |result| ==> !SameRun(result[j].head, result[k].head)
    ensures forall r :: r in rows ==> exists j :: 0 <= j < |result| && SameRun(result[j].head, r)
  {
    forall j | 0 <= j < |result| ensures IsRun(result[j], RowsOf(rows, result[j].head)) && result[j].head in rows {
      HeadOfRun(result, rows, j);
    }
    forall j, k | 0 <= j < k < |result| ensures !SameRun(result[j].head, result[k].head) {
      HeadsDiffer(result, rows, j, k);
    }
    forall r | r in rows ensures exists j :: 0 <= j < |result| && SameRun(result[j].head, r) {
      var j := RunOfRow(result, rows, r);
    }
  }

  lemma {:induction false} KeySeen<T, K>(items: seq<T>, key: T -> K, x: T)
    requires x in items
    ensures key(x) in FirstSeen(items, key)
  {
    var n := |items| - 1;
    if x != items[n] {
      assert x in items[..n];
      KeySeen(items[..n], key, x);
    }
  }

  /** The run that holds r holds q too exactly when they belong together; so rows of one group with
      different pipelines are never in one run, and with the same pipeline always, whatever their
      commits; and rows of different groups never are. */
  lemma PipelinesDecide(result: seq<RunResp>, rows: seq<Row>, r: Row, q: Row, j: nat)
    requires Grouped(result, rows) && j < |result| && SameRun(result[j].head, r)
    ensures SameRun(result[j].head, q) <==> SameRun(r, q)
    ensures r.pipelineID != "" && q.pipelineID != "" ==>
              (SameRun(result[j].head, q) <==> r.groupProjectID == q.groupProjectID && r.pipelineID == q.pipelineID)
    ensures r.pipelineID == "" && q.pipelineID == "" ==>
              (SameRun(result[j].head, q) <==> r.groupProjectID == q.groupProjectID && r.commitSHA == q.commitSHA)
  {
    RunKeyExact(result[j].head, r);
    RunKeyExact(result[j].head, q);
    RunKeyExact(r, q);
  }

  /** The first item with the j-th key comes before all items with a later key. */
  lemma {:induction false} FirstSeenInOrder<T, K>(items: seq<T>, key: T -> K, j: nat, k: nat) returns (i: nat)
    requires j < k < |FirstSeen(items, key)|
    ensures i < |items| && key(items[i]) == FirstSeen(items, key)[j]
    ensures forall n :: 0 <= n < |items| && key(items[n]) == FirstSeen(items, key)[k] ==> i < n
  {
    FirstSeenDistinct(items, key);
    var n := |items| - 1;
    if k < |FirstSeen(items[..n], key)| {
      i := FirstSeenInOrder(items[..n], key, j, k);
    } else {
      var seen := FirstSeen(items[..n], key);
      SeenIffPicked(items[..n], key, seen[j]);
      PickedHaveKey(items[..n], key, seen[j]);
      var x := Pick(items[..n], key, seen[j])[0];
      i :| 0 <= i < n && items[..n][i] == x;
      forall m | 0 <= m < |items| && key(items[m]) == FirstSeen(items, key)[k] ensures i < m {
        if m < n { KeySeen(items[..n], key, items[m]); }
      }
    }
  }

  /** Runs are listed in the order in which their first rows occur. */
  lemma RunsInOrder(result: seq<RunResp>, rows: seq<Row>, j: nat, k: nat) returns (i: nat)
    requires Grouped(result, rows) && j < k < |result|
    ensures i < |rows| && SameRun(result[j].head, rows[i])
    ensures forall n :: 0 <= n < |rows| && SameRun(result[k].head, rows[n]) ==> i < n
  {
    HeadOfRun(result, rows, j);
    HeadOfRun(result, rows, k);
    i := FirstSeenInOrder(rows, RunKey, j, k);
    RunKeyExact(result[j].head, rows[i]);
    forall n | 0 <= n < |rows| && SameRun(result[k].head, rows[n]) ensures i < n {
      RunKeyExact(result[k].head, rows[n]);
    }
  }

  lemma SuiteProject(run: RunResp, rows: seq<Row>, j: nat)
    requires IsRun(run, rows) && j < |run.suites|
    ensures run.suites[j].projectID == FirstSeen(rows, ProjectOf)[j]
  {
    var p := FirstSeen(rows, ProjectOf)[j];
    assert IsSuite(run.suites[j], Pick(rows, ProjectOf, p));
    PickedHaveKey(rows, ProjectOf, p);
  }

  /** A run has exactly one suite per project of its rows. */
  lemma SuitesPartition(run: RunResp, rows: seq<Row>)
    requires IsRun(run, rows)
    ensures forall j, k :: 0 <= j < k < |run.suites| ==> run.suites[j].projectID != run.suites[k].projectID
    ensures forall r :: r in rows ==> exists j :: 0 <= j < |run.suites| && run.suites[j].projectID == r.projectID
  {
    FirstSeenDistinct(rows, ProjectOf);
    forall j | 0 <= j < |run.suites| ensures run.suites[j].projectID == FirstSeen(rows, ProjectOf)[j] {
      SuiteProject(run, rows, j);
    }
    forall r | r in rows ensures exists j :: 0 <= j < |run.suites| && run.suites[j].projectID == r.projectID {
      KeySeen(rows, ProjectOf, r);
      var j :| 0 <= j < |FirstSeen(rows, ProjectOf)| && FirstSeen(rows, ProjectOf)[j] == r.projectID;
      assert run.suites[j].projectID == r.projectID;
    }
  }

  // ----- What the numbers count -----

  function Totals(r: Row): Option<int> { r.total }
  function Passes(r: Row): Option<int> { r.passed }
  function Failures(r: Row): Option<int> { r.failed }
  function Breaks(r: Row): Option<int> { r.broken }
  function Skips(r: Row): Option<int> { r.skipped }
  function Durations(r: Row): Option<int> { r.durationMs }

  /** The sum of an optional column; a missing value adds nothing. */
  function Present(rows: seq<Row>, column: Row -> Option<int>): int {
    if rows == [] then 0
    else
      var n := |rows| - 1;
      Present(rows[..n], column) + match column(rows[n]) case Some(v) => v case None => 0
  }

  lemma {:induction false} SumsArePresent(rows: seq<Row>)
    ensures Sum(rows, TotalOf) == Present(rows, Totals)
    ensures Sum(rows, PassedOf) == Present(rows, Passes)
    ensures Sum(rows, FailedOf) == Present(rows, Failures) + Present(rows, Breaks)
    ensures Sum(rows, SkippedOf) == Present(rows, Skips)
    ensures Sum(rows, DurationOf) == Present(rows, Durations)
  {
    if rows != [] { SumsArePresent(rows[..|rows| - 1]); }
  }

  /** The rows of one project, in order. */
  function RowsOfProject(rows: seq<Row>, projectID: int): seq<Row> {
    if rows == [] then []
    else
      var n := |rows| - 1;
      RowsOfProject(rows[..n], projectID) + if rows[n].projectID == projectID then [rows[n]] else []
  }

  lemma {:induction false} RowsOfProjectPick(rows: seq<Row>, p: int)
    ensures RowsOfProject(rows, p) == Pick(rows, ProjectOf, p)
  {
    if rows != [] { RowsOfProjectPick(rows[..|rows| - 1], p); }
  }

  /** The build is the first of those with the highest number among the rows. */
  ghost predicate LinksTo(rows: seq<Row>, buildID: int, buildNumber: int) {
    exists i :: 0 <= i < |rows| && rows[i].buildID == buildID && rows[i].buildNumber == buildNumber
                && (forall k :: 0 <= k < |rows| ==> rows[k].buildNumber <= buildNumber)
                && (forall k :: 0 <= k < i ==> rows[k].buildNumber < buildNumber)
  }

  /** A suite is made of all rows of its project in the run: its counters are the sums of their
      columns, broken tests counting as failed, and its link leads to the first row with the highest
      build number. */
  lemma SuiteOnFields(run: RunResp, rows: seq<Row>, j: nat)
    requires IsRun(run, rows) && j < |run.suites|
    ensures var s := run.suites[j];
            var mine := RowsOfProject(rows, s.projectID);
            && mine != [] && s.slug == mine[0].slug && s.displayName == mine[0].displayName
            && s.total == Present(mine, Totals) && s.passed == Present(mine, Passes)
            && s.failed == Present(mine, Failures) + Present(mine, Breaks)
            && s.skipped == Present(mine, Skips) && s.durationMs == Present(mine, Durations)
            && LinksTo(mine, s.buildID, s.buildNumber)
  {
    var p := FirstSeen(rows, ProjectOf)[j];
    var mine := Pick(rows, ProjectOf, p);
    assert IsSuite(run.suites[j], mine);
    assert mine[0].projectID == p by { PickedHaveKey(rows, ProjectOf, p); }
    RowsOfProjectPick(rows, p);
    SumsArePresent(mine);
    NewestIsLinked(mine);
  }

  lemma NewestIsLinked(rows: seq<Row>)
    requires rows != []
    ensures LinksTo(rows, Newest(rows).buildID, Newest(rows).buildNumber)
  {
    var i := NewestIsHighest(rows);
  }

  /** The rate shown is the exact one rounded down to a tenth of a percent, and 0 when nothing ran. */
  lemma RateIsFloor(passed: int, denom: int)
    ensures denom <= 0 ==> Rate(passed, denom) == 0
    ensures denom > 0 && passed >= 0 ==>
              Rate(passed, denom) * denom <= passed * 1000 < (Rate(passed, denom) + 1) * denom
  {
  }

  /** The four statuses, by whether there are stats, whether anything ran, and how much of it passed. */
  lemma StatusExactly(hasStats: bool, passed: int, denom: int)
    ensures StatusOf(hasStats, passed, denom) == SuiteSkipped <==> hasStats && denom <= 0
    ensures StatusOf(hasStats, passed, denom) == SuitePassed <==> hasStats && denom > 0 && passed >= denom
    ensures StatusOf(hasStats, passed, denom) == SuiteDegraded <==> hasStats && denom > 0 && 7 * denom <= 10 * passed < 10 * denom
    ensures StatusOf(hasStats, passed, denom) == SuiteFailed <==> !hasStats || (denom > 0 && 10 * passed < 7 * denom)
  {
    DegradedExactly(hasStats, passed, denom);
  }

  /** What a suite shows of its rows' stats. */
  lemma SuiteShows(run: RunResp, rows: seq<Row>, j: nat)
    requires IsRun(run, rows) && j < |run.suites|
    ensures var s := run.suites[j];
            var mine := RowsOfProject(rows, s.projectID);
            && s.passRate == Rate(s.passed, s.total - s.skipped)
            && s.status == StatusOf(exists i :: 0 <= i < |mine| && mine[i].total.Some?, s.passed, s.total - s.skipped)
            && forall k :: 0 <= k < |s.builds| - 1 ==> s.builds[k].buildNumber <= s.builds[k + 1].buildNumber
  {
    var p := FirstSeen(rows, ProjectOf)[j];
    assert IsSuite(run.suites[j], Pick(rows, ProjectOf, p));
    PickedHaveKey(rows, ProjectOf, p);
    RowsOfProjectPick(rows, p);
  }

  /** How many suites passed. */
  function Passing(suites: seq<SuiteResp>): nat {
    if suites == [] then 0 else Passing(suites[..|suites| - 1]) + if suites[|suites| - 1].status == SuitePassed then 1 else 0
  }

  lemma {:induction false} PassedAreCounted(suites: seq<SuiteResp>)
    ensures Sum(suites, SuiteIsPassed) == Passing(suites)
  {
    if suites != [] { PassedAreCounted(suites[..|suites| - 1]); }
  }

  lemma {:induction false} FirstURLIsFirst(rows: seq<Row>) returns (i: int)
    ensures i < 0 ==> FirstURL(rows) == "" && forall k :: 0 <= k < |rows| ==> rows[k].ciBuildURL == ""
    ensures i >= 0 ==> i < |rows| && FirstURL(rows) == rows[i].ciBuildURL != "" && forall k :: 0 <= k < i ==> rows[k].ciBuildURL == ""
  {
    if rows == [] {
      i := -1;
    } else {
      var n := |rows| - 1;
      i := FirstURLIsFirst(rows[..n]);
      if i < 0 && rows[n].ciBuildURL != "" { i := n; }
    }
  }

  lemma {:induction false} LatestIsLatest(rows: seq<Row>)
    requires rows != []
    ensures forall k :: 0 <= k < |rows| ==> rows[k].createdAt <= Latest(rows)
    ensures exists k :: 0 <= k < |rows| && rows[k].createdAt == Latest(rows)
  {
    var n := |rows| - 1;
    if n > 0 { LatestIsLatest(rows[..n]); }
    assert rows[n].createdAt <= Latest(rows);
  }

  /** The first of the rows' URLs there is, or none. */
  ghost predicate IsFirstURL(rows: seq<Row>, url: string) {
    if forall k :: 0 <= k < |rows| ==> rows[k].ciBuildURL == "" then url == ""
    else exists i :: 0 <= i < |rows| && url == rows[i].ciBuildURL != "" && forall k :: 0 <= k < i ==> rows[k].ciBuildURL == ""
  }

  /** A run's header: its names are its first row's, its link the first there is, its time the latest. */
  lemma HeaderOnFields(run: RunResp, rows: seq<Row>)
    requires IsRun(run, rows)
    ensures run.head == rows[0] && IsFirstURL(rows, run.ciBuildURL)
    ensures forall k :: 0 <= k < |rows| ==> rows[k].createdAt <= run.timestamp
    ensures exists k :: 0 <= k < |rows| && rows[k].createdAt == run.timestamp
  {
    var i := FirstURLIsFirst(rows);
    LatestIsLatest(rows);
  }

  /** A run's aggregate counts columns of all its rows, and its suites. */
  lemma AggregateOnFields(run: RunResp, rows: seq<Row>)
    requires IsRun(run, rows)
    ensures var a := run.aggregate;
            && a.testsTotal == Present(rows, Totals) && a.testsPassed == Present(rows, Passes)
            && a.testsSkipped == Present(rows, Skips) && a.totalDurationMs == Present(rows, Durations)
            && a.suitesTotal == |run.suites| && a.suitesPassed == Passing(run.suites)
            && a.passRate == Rate(a.testsPassed, a.testsTotal - a.testsSkipped)
  {
    RunConserves(run, rows, Build(0, 0));
    SumsArePresent(rows);
    PassedAreCounted(run.suites);
  }
}
