/** countRunOrigins of api/internal/handlers/pipeline_handler.go: a run's failing tests counted
    as new, inherited (environment among them) or unknown. */
module RunOrigins {

  datatype Row = Row(projectID: int, testName: string, fullName: string, origin: string, environment: bool)
  datatype TestKey = TestKey(projectID: int, identity: string)
  datatype Counts = Counts(isNew: int, inherited: int, environment: int, unknown: int)

  const NEW := "new"
  const INHERITED := "inherited"

  /** Copies of one test share project and full name, or test name when that is empty. */
  function KeyOf(r: Row): TestKey {
    TestKey(r.projectID, if r.fullName != "" then r.fullName else r.testName)
  }

  function Rank(origin: string): int {
    if origin == INHERITED then 2 else if origin == NEW then 1 else 0
  }

  // ----- What the counts mean -----

  ghost function Keys(rows: seq<Row>): set<TestKey> { set r | r in rows :: KeyOf(r) }

  ghost predicate HasEnvironment(rows: seq<Row>, k: TestKey) {
    exists r :: r in rows && KeyOf(r) == k && r.environment
  }

  ghost predicate HasRank(rows: seq<Row>, k: TestKey, rank: int) {
    exists r :: r in rows && KeyOf(r) == k && Rank(r.origin) == rank
  }

  datatype Class = Environment | Inherited | New | Unknown

  /** A test is environment if any copy is; otherwise its strongest origin decides. */
  ghost function ClassOf(rows: seq<Row>, k: TestKey): Class {
    if HasEnvironment(rows, k) then Environment
    else if HasRank(rows, k, 2) then Inherited
    else if HasRank(rows, k, 1) then New
    else Unknown
  }

  ghost function Members(rows: seq<Row>, among: set<TestKey>, c: Class): set<TestKey> {
    set k | k in among && ClassOf(rows, k) == c
  }

  ghost function CountsOver(rows: seq<Row>, among: set<TestKey>): Counts {
    var env := |Members(rows, among, Environment)|;
    Counts(|Members(rows, among, New)|, env + |Members(rows, among, Inherited)|, env, |Members(rows, among, Unknown)|)
  }

  // ----- The single pass -----

  datatype Merged = Merged(origin: string, environment: bool)

  ghost predicate MergedRight(rows: seq<Row>, k: TestKey, t: Merged) {
    && (t.environment <==> HasEnvironment(rows, k))
    && HasRank(rows, k, Rank(t.origin))
    && (forall rank :: HasRank(rows, k, rank) ==> rank <= Rank(t.origin))
  }

  method CountRunOrigins(rows: seq<Row>) returns (counts: Counts)
    ensures counts == CountsOver(rows, Keys(rows))
  {
    var tests: map<TestKey, Merged> := map[];
    for i := 0 to |rows|
      invariant tests.Keys == Keys(rows[..i])
      invariant forall k :: k in tests ==> MergedRight(rows[..i], k, tests[k])
    {
      tests := AddRow(rows[..i], rows[i], tests);
      assert rows[..i + 1] == rows[..i] + [rows[i]];
    }
    assert rows[..|rows|] == rows;
    counts := CountTests(rows, tests);
  }

  /** The body of the first loop: one more row. */
  method AddRow(ghost rows: seq<Row>, row: Row, tests: map<TestKey, Merged>) returns (tests': map<TestKey, Merged>)
    requires tests.Keys == Keys(rows) && forall k :: k in tests ==> MergedRight(rows, k, tests[k])
    ensures tests'.Keys == Keys(rows + [row]) && forall k :: k in tests' ==> MergedRight(rows + [row], k, tests'[k])
  {
    var key := KeyOf(row);
    var t := if key in tests then tests[key] else Merged("", false);
    if key !in tests || Rank(row.origin) > Rank(t.origin) {
      t := t.(origin := row.origin);
    }
    t := t.(environment := t.environment || row.environment);
    MergeRow(rows, row, tests, t);
    tests' := tests[key := t];
  }

  /** The second loop, over the merged tests in map order. */
  method CountTests(ghost rows: seq<Row>, tests: map<TestKey, Merged>) returns (counts: Counts)
    requires forall k :: k in tests ==> MergedRight(rows, k, tests[k])
    ensures counts == CountsOver(rows, tests.Keys)
  {
    counts := Counts(0, 0, 0, 0);
    var pending := tests.Keys;
    assert forall c :: Members(rows, {}, c) == {};
    assert tests.Keys - pending == {};
    while pending != {}
      invariant pending <= tests.Keys
      invariant counts == CountsOver(rows, tests.Keys - pending)
      decreases pending
    {
      var k :| k in pending;
      var t := tests[k];
      ghost var done := tests.Keys - pending;
      CountOneMore(rows, done, k);
      ClassOfMerged(rows, k, t);
      pending := pending - {k};
      assert tests.Keys - pending == done + {k};
      if t.environment {
        counts := counts.(inherited := counts.inherited + 1, environment := counts.environment + 1);
      } else if t.origin == NEW {
        counts := counts.(isNew := counts.isNew + 1);
      } else if t.origin == INHERITED {
        counts := counts.(inherited := counts.inherited + 1);
      } else {
        counts := counts.(unknown := counts.unknown + 1);
      }
    }
    assert tests.Keys - pending == tests.Keys;
  }

  lemma ClassOfMerged(rows: seq<Row>, k: TestKey, t: Merged)
    requires MergedRight(rows, k, t)
    ensures ClassOf(rows, k) ==
            if t.environment then Environment else if t.origin == NEW then New
            else if t.origin == INHERITED then Inherited else Unknown
  {
    assert HasRank(rows, k, 2) ==> Rank(t.origin) == 2;
    assert HasRank(rows, k, 1) ==> Rank(t.origin) >= 1;
  }

  /** One more row changes the facts of its own test only. */
  lemma RowFacts(rows: seq<Row>, row: Row, k: TestKey)
    ensures HasEnvironment(rows + [row], k) <==> HasEnvironment(rows, k) || (KeyOf(row) == k && row.environment)
    ensures forall rank :: HasRank(rows + [row], k, rank) <==> HasRank(rows, k, rank) || (KeyOf(row) == k && Rank(row.origin) == rank)
    ensures Keys(rows + [row]) == Keys(rows) + {KeyOf(row)}
    ensures KeyOf(row) == k && k !in Keys(rows) ==> !HasEnvironment(rows, k) && forall rank :: !HasRank(rows, k, rank)
  {
    var rows' := rows + [row];
    assert forall r :: r in rows' <==> r in rows || r == row;
    assert row in rows';
  }

  lemma MergeRow(rows: seq<Row>, row: Row, tests: map<TestKey, Merged>, t: Merged)
    requires tests.Keys == Keys(rows)
    requires forall k :: k in tests ==> MergedRight(rows, k, tests[k])
    requires var key := KeyOf(row);
             if key in tests then
               && t.environment == (tests[key].environment || row.environment)
               && t.origin == if Rank(row.origin) > Rank(tests[key].origin) then row.origin else tests[key].origin
             else t == Merged(row.origin, row.environment)
    ensures var tests' := tests[KeyOf(row) := t];
            && tests'.Keys == Keys(rows + [row])
            && forall k :: k in tests' ==> MergedRight(rows + [row], k, tests'[k])
  {
    var tests' := tests[KeyOf(row) := t];
    RowFacts(rows, row, KeyOf(row));
    forall k | k in tests' ensures MergedRight(rows + [row], k, tests'[k]) {
      RowFacts(rows, row, k);
    }
  }

  /** Counting one more test raises exactly the counters of its class. */
  lemma CountOneMore(rows: seq<Row>, done: set<TestKey>, k: TestKey)
    requires k !in done
    ensures var c, n, n' := ClassOf(rows, k), CountsOver(rows, done), CountsOver(rows, done + {k});
            n' == match c
                  case Environment => n.(inherited := n.inherited + 1, environment := n.environment + 1)
                  case Inherited => n.(inherited := n.inherited + 1)
                  case New => n.(isNew := n.isNew + 1)
                  case Unknown => n.(unknown := n.unknown + 1)
  {
    forall d ensures |Members(rows, done + {k}, d)| == |Members(rows, done, d)| + if d == ClassOf(rows, k) then 1 else 0 {
      if d == ClassOf(rows, k) {
        assert Members(rows, done + {k}, d) == Members(rows, done, d) + {k};
      } else {
        assert Members(rows, done + {k}, d) == Members(rows, done, d);
      }
    }
  }

  // ----- Laws of the counts -----

  /** Every distinct test is counted once: new, inherited or unknown; environment is a part of
      inherited. */
  lemma CountsPartition(rows: seq<Row>)
    ensures var c := CountsOver(rows, Keys(rows));
            && c.isNew + c.inherited + c.unknown == |Keys(rows)|
            && 0 <= c.environment <= c.inherited
  {
    var all := Keys(rows);
    var e, i, n, u := Members(rows, all, Environment), Members(rows, all, Inherited), Members(rows, all, New), Members(rows, all, Unknown);
    OneClassEach(rows, all);
    DisjointSize(e, i);
    DisjointSize(e + i, n);
    DisjointSize(e + i + n, u);
  }

  lemma OneClassEach(rows: seq<Row>, all: set<TestKey>)
    ensures var e, i, n, u := Members(rows, all, Environment), Members(rows, all, Inherited), Members(rows, all, New), Members(rows, all, Unknown);
            && e !! i && (e + i) !! n && (e + i + n) !! u
            && e + i + n + u == all
  {
    forall k | k in all
      ensures k in Members(rows, all, ClassOf(rows, k))
    {
    }
  }

  lemma DisjointSize(a: set<TestKey>, b: set<TestKey>)
    requires a !! b
    ensures |a + b| == |a| + |b|
  {
  }

  /** Permuting the rows, or repeating any of them, changes no count: only which rows occur matters. */
  lemma CountsIgnoreOrderAndCopies(rows: seq<Row>, rows': seq<Row>)
    requires forall r :: r in rows <==> r in rows'
    ensures CountsOver(rows, Keys(rows)) == CountsOver(rows', Keys(rows'))
  {
    assert Keys(rows) == Keys(rows');
    forall c ensures Members(rows, Keys(rows), c) == Members(rows', Keys(rows'), c) {
      forall k ensures ClassOf(rows, k) == ClassOf(rows', k) {
        assert HasEnvironment(rows, k) <==> HasEnvironment(rows', k);
        assert forall rank :: HasRank(rows, k, rank) <==> HasRank(rows', k, rank);
      }
    }
  }

  // ----- Read off the fields -----

  /** Two rows are copies of one test: same project, and same full name if either has one. */
  predicate SameTest(r: Row, q: Row) {
    && r.projectID == q.projectID
    && if r.fullName != "" && q.fullName != "" then r.fullName == q.fullName
       else if r.fullName == "" && q.fullName == "" then r.testName == q.testName
       else if r.fullName == "" then r.testName == q.fullName
       else q.testName == r.fullName
  }

  lemma KeysTellTests(r: Row, q: Row)
    ensures KeyOf(r) == KeyOf(q) <==> SameTest(r, q)
  {
  }

  ghost predicate AnyCopyFrom(rows: seq<Row>, r: Row, origin: string) {
    exists q :: q in rows && SameTest(q, r) && q.origin == origin
  }

  ghost predicate AnyCopyEnvironment(rows: seq<Row>, r: Row) {
    exists q :: q in rows && SameTest(q, r) && q.environment
  }

  /** The class a test is counted in: environment if any copy is; else inherited if any copy is, else
      new if any copy is, else unknown. */
  lemma ClassOnFields(rows: seq<Row>, r: Row)
    requires r in rows
    ensures KeyOf(r) in Keys(rows)
    ensures ClassOf(rows, KeyOf(r)) ==
            if AnyCopyEnvironment(rows, r) then Environment
            else if AnyCopyFrom(rows, r, "inherited") then Inherited
            else if AnyCopyFrom(rows, r, "new") then New
            else Unknown
  {
    var k := KeyOf(r);
    CopiesByKey(rows, r, "inherited", 2);
    CopiesByKey(rows, r, "new", 1);
    forall q | q in rows ensures KeyOf(q) == k <==> SameTest(q, r) { KeysTellTests(q, r); }
    assert HasEnvironment(rows, k) <==> AnyCopyEnvironment(rows, r);
  }

  lemma CopiesByKey(rows: seq<Row>, r: Row, origin: string, rank: int)
    requires forall o: string :: Rank(o) == rank <==> o == origin
    ensures HasRank(rows, KeyOf(r), rank) <==> AnyCopyFrom(rows, r, origin)
  {
    if HasRank(rows, KeyOf(r), rank) {
      var q :| q in rows && KeyOf(q) == KeyOf(r) && Rank(q.origin) == rank;
      KeysTellTests(q, r);
    }
    if AnyCopyFrom(rows, r, origin) {
      var q :| q in rows && SameTest(q, r) && q.origin == origin;
      KeysTellTests(q, r);
    }
  }
}
