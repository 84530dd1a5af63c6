/** The search for the failing step of api/internal/parser/allure.go: deriveStatusFromSteps and
    its recursion walkFailedStep, over step trees of any shape. */
module FailedSteps {
  import opened Options

  datatype Details = Details(message: string, trace: string)
  datatype Step = Step(name: string, status: string, details: Option<Details>, steps: seq<Step>)

  /** What the search reports; depth -1 stands for "no matching step". */
  datatype Found = Found(message: string, trace: string, depth: int)

  const NOTHING := Found("", "", -1)

  // ----- The naive reading: a list of steps in document order -----

  datatype Visit = Visit(step: Step, depth: int)

  /** Every step of the forest in document order: a step, then its children, then its siblings. */
  ghost function Preorder(steps: seq<Step>, depth: int): seq<Visit> {
    if steps == [] then []
    else
      var n := |steps| - 1;
      Preorder(steps[..n], depth) + [Visit(steps[n], depth)] + Preorder(steps[n].steps, depth + 1)
  }

  /** The step's own message, or its name when it carries none. */
  function Report(s: Step, depth: int): Found {
    var d := if s.details.None? then Details("", "") else s.details.value;
    Found(if d.message == "" then s.name else d.message, d.trace, depth)
  }

  /** The message is the step's own, or its name if it carries none; the trace is its own. */
  predicate Reports(s: Step, message: string, trace: string) {
    match s.details
    case None => message == s.name && trace == ""
    case Some(d) => message == (if d.message != "" then d.message else s.name) && trace == d.trace
  }

  lemma ReportReports(s: Step, depth: int)
    ensures Reports(s, Report(s, depth).message, Report(s, depth).trace) && Report(s, depth).depth == depth
  {
  }

  /** Visit i is the first of the deepest steps with the wanted status. */
  ghost predicate FirstDeepest(v: seq<Visit>, want: string, i: int) {
    && 0 <= i < |v| && v[i].step.status == want
    && (forall j :: 0 <= j < |v| && v[j].step.status == want ==> v[j].depth <= v[i].depth)
    && (forall j :: 0 <= j < i && v[j].step.status == want ==> v[j].depth < v[i].depth)
  }

  ghost predicate Matches(v: seq<Visit>, want: string) {
    exists i :: 0 <= i < |v| && v[i].step.status == want
  }

  /** The first arg-max over the list; nothing when no step has the wanted status. */
  ghost predicate Answers(v: seq<Visit>, want: string, r: Found) {
    if Matches(v, want)
    then exists i :: FirstDeepest(v, want, i) && r == Report(v[i].step, v[i].depth)
    else r == NOTHING
  }

  // ----- Folding the list -----

  function Deeper(a: Found, b: Found): Found { if b.depth > a.depth then b else a }

  function Single(v: Visit, want: string): Found {
    if v.step.status == want then Report(v.step, v.depth) else NOTHING
  }

  /** The list folded left to right, replacing the best only by something strictly deeper. */
  function Deepest(v: seq<Visit>, want: string): Found {
    if v == [] then NOTHING else Deeper(Deepest(v[..|v| - 1], want), Single(v[|v| - 1], want))
  }

  ghost predicate AtLeast(v: seq<Visit>, low: int) {
    forall i :: 0 <= i < |v| ==> v[i].depth >= low
  }

  lemma {:induction false} DeepestConcat(v: seq<Visit>, w: seq<Visit>, want: string)
    requires AtLeast(v, 0) && AtLeast(w, 0)
    ensures Deepest(v + w, want) == Deeper(Deepest(v, want), Deepest(w, want))
  {
    DeepestBound(v, want, 0);
    if w == [] {
      assert v + w == v;
    } else {
      var n := |w| - 1;
      DeepestConcat(v, w[..n], want);
      assert (v + w)[..|v| + n] == v + w[..n];
    }
  }

  lemma {:induction false} DeepestBound(v: seq<Visit>, want: string, low: int)
    requires AtLeast(v, low) && low >= 0
    ensures Deepest(v, want) == NOTHING || Deepest(v, want).depth >= low
  {
    if v != [] { DeepestBound(v[..|v| - 1], want, low); }
  }

  ghost predicate NoMatch(v: seq<Visit>, want: string) {
    forall i :: 0 <= i < |v| ==> v[i].step.status != want
  }

  /** Where the fold's answer comes from. */
  lemma {:induction false} DeepestIndex(v: seq<Visit>, want: string) returns (k: int)
    requires AtLeast(v, 0)
    ensures k < 0 ==> NoMatch(v, want) && Deepest(v, want) == NOTHING
    ensures k >= 0 ==> FirstDeepest(v, want, k) && Deepest(v, want) == Report(v[k].step, v[k].depth)
  {
    if v == [] {
      k := -1;
    } else {
      var n := |v| - 1;
      k := DeepestIndex(v[..n], want);
      if v[n].step.status == want && (k < 0 || v[n].depth > v[k].depth) {
        k := n;
      }
    }
  }

  /** The fold is the first arg-max of the list. */
  lemma DeepestAnswers(v: seq<Visit>, want: string)
    requires AtLeast(v, 0)
    ensures Answers(v, want, Deepest(v, want))
    ensures Deepest(v, want).depth >= 0 <==> Matches(v, want)
  {
    var k := DeepestIndex(v, want);
    if k >= 0 {
      assert Matches(v, want);
    }
  }

  // ----- The search -----

  /** Returns the first deepest step of document order (see DeepestAnswers). */
  method WalkFailedStep(steps: seq<Step>, want: string, depth: int) returns (best: Found)
    requires depth >= 0
    ensures best == Deepest(Preorder(steps, depth), want)
    decreases steps
  {
    best := NOTHING;
    var i := 0;
    while i < |steps|
      invariant 0 <= i <= |steps|
      invariant best == Deepest(Preorder(steps[..i], depth), want)
    {
      var s := steps[i];
      var child := WalkFailedStep(s.steps, want, depth + 1);
      OneMoreStep(steps, i, depth, want);
      if child.depth > best.depth {
        best := child;
      }
      if s.status == want && depth > best.depth {
        best := Report(s, depth);
      }
      i := i + 1;
    }
    assert steps[..i] == steps;
  }

  lemma {:induction false} PreorderDepths(steps: seq<Step>, depth: int)
    requires depth >= 0
    ensures AtLeast(Preorder(steps, depth), depth)
    decreases steps
  {
    if steps != [] {
      var n := |steps| - 1;
      PreorderDepths(steps[..n], depth);
      PreorderDepths(steps[n].steps, depth + 1);
    }
  }

  /** The source looks at the children before the step itself; the answer is that of document
      order all the same, because the children are deeper. */
  lemma OneMoreStep(steps: seq<Step>, i: nat, depth: int, want: string)
    requires depth >= 0 && i < |steps|
    ensures var best, child := Deepest(Preorder(steps[..i], depth), want),
                               Deepest(Preorder(steps[i].steps, depth + 1), want);
            var b := if child.depth > best.depth then child else best;
            Deepest(Preorder(steps[..i + 1], depth), want) ==
            if steps[i].status == want && depth > b.depth then Report(steps[i], depth) else b
  {
    var self, v, w := [Visit(steps[i], depth)], Preorder(steps[..i], depth), Preorder(steps[i].steps, depth + 1);
    PreorderDepths(steps[..i], depth);
    PreorderDepths(steps[i].steps, depth + 1);
    assert steps[..i + 1][..i] == steps[..i];
    DeepestConcat(v, self, want);
    assert self[..0] == [];
    DeepestConcat(v + self, w, want);
    DeepestBound(v, want, depth);
    DeepestBound(w, want, depth + 1);
  }

  /** The answer is determined by the list alone. */
  lemma AnswersUnique(v: seq<Visit>, want: string, r: Found, r': Found)
    requires Answers(v, want, r) && Answers(v, want, r')
    ensures r == r'
  {
    if Matches(v, want) {
      var i :| FirstDeepest(v, want, i) && r == Report(v[i].step, v[i].depth);
      var j :| FirstDeepest(v, want, j) && r' == Report(v[j].step, v[j].depth);
      assert v[i].depth == v[j].depth;
    }
  }

  // ----- The derived status -----

  /** Some step of the tree has the status. */
  ghost predicate Somewhere(steps: seq<Step>, want: string) { exists p :: LeadsTo(steps, p) && StepAt(steps, p).status == want }

  /** A failed step at any depth wins over every broken one. */
  method DeriveStatusFromSteps(steps: seq<Step>) returns (message: string, trace: string, ok: bool)
    ensures var v := Preorder(steps, 0);
            && (ok <==> Matches(v, "failed") || Matches(v, "broken"))
            && (!ok ==> message == "" && trace == "")
            && (ok ==> exists i ::
                  && FirstDeepest(v, if Matches(v, "failed") then "failed" else "broken", i)
                  && Reports(v[i].step, message, trace))
    ensures ok <==> Somewhere(steps, "failed") || Somewhere(steps, "broken")
    ensures ok ==> exists p :: DeepestFirst(steps, if Somewhere(steps, "failed") then "failed" else "broken", p)
                               && Reports(StepAt(steps, p), message, trace)
  {
    ghost var v := Preorder(steps, 0);
    SearchOnTree(steps, "failed");
    SearchOnTree(steps, "broken");
    PreorderDepths(steps, 0);
    DeepestAnswers(v, "failed");
    DeepestAnswers(v, "broken");
    var fail := WalkFailedStep(steps, "failed", 0);
    if fail.depth >= 0 {
      return fail.message, fail.trace, true;
    }
    var broken := WalkFailedStep(steps, "broken", 0);
    if broken.depth >= 0 {
      return broken.message, broken.trace, true;
    }
    return "", "", false;
  }

  // ----- Document order -----

  /** How to get to a step: the position at each level, from the top. */
  type Path = seq<nat>

  ghost predicate LeadsTo(steps: seq<Step>, p: Path)
    decreases |p|
  {
    p != [] && p[0] < |steps| && (|p| > 1 ==> LeadsTo(steps[p[0]].steps, p[1..]))
  }

  ghost function StepAt(steps: seq<Step>, p: Path): Step
    requires LeadsTo(steps, p)
    decreases |p|
  {
    if |p| == 1 then steps[p[0]] else StepAt(steps[p[0]].steps, p[1..])
  }

  /** In document order p comes before q: it is further up on the same branch, or on an earlier one. */
  ghost predicate Precedes(p: Path, q: Path)
    decreases |p|
  {
    q != [] && (p == [] || p[0] < q[0] || (p[0] == q[0] && Precedes(p[1..], q[1..])))
  }

  ghost function Below(n: nat, ps: seq<Path>): seq<Path> { seq(|ps|, i requires 0 <= i < |ps| => [n] + ps[i]) }

  ghost function Paths(steps: seq<Step>): seq<Path> {
    if steps == [] then []
    else
      var n := |steps| - 1;
      Paths(steps[..n]) + [[n]] + Below(n, Paths(steps[n].steps))
  }

  /** The path leads, in the forest, to the step that was visited, at its depth. */
  ghost predicate Reaches(steps: seq<Step>, depth: int, p: Path, v: Visit) {
    LeadsTo(steps, p) && v == Visit(StepAt(steps, p), depth + |p| - 1)
  }

  ghost predicate AllReach(steps: seq<Step>, depth: int, ps: seq<Path>, vs: seq<Visit>) {
    |ps| == |vs| && forall i :: 0 <= i < |ps| ==> Reaches(steps, depth, ps[i], vs[i])
  }

  lemma ReachesInLonger(steps: seq<Step>, n: nat, depth: int, p: Path, v: Visit)
    requires n <= |steps| && Reaches(steps[..n], depth, p, v)
    ensures Reaches(steps, depth, p, v) && p[0] < n
  {
  }

  lemma ReachesBelow(steps: seq<Step>, n: nat, depth: int, p: Path, v: Visit)
    requires n < |steps| && Reaches(steps[n].steps, depth + 1, p, v)
    ensures Reaches(steps, depth, [n] + p, v)
  {
    assert ([n] + p)[1..] == p;
  }

  lemma ReachesTogether(steps: seq<Step>, n: nat, depth: int, a: seq<Path>, va: seq<Visit>, b: seq<Path>, vb: seq<Visit>)
    requires n < |steps| && AllReach(steps[..n], depth, a, va) && AllReach(steps[n].steps, depth + 1, b, vb)
    ensures AllReach(steps, depth, a + [[n]] + Below(n, b), va + [Visit(steps[n], depth)] + vb)
  {
    var ps, vs := a + [[n]] + Below(n, b), va + [Visit(steps[n], depth)] + vb;
    forall i | 0 <= i < |ps| ensures Reaches(steps, depth, ps[i], vs[i]) {
      if i < |a| {
        ReachesInLonger(steps, n, depth, a[i], va[i]);
      } else if i > |a| {
        ReachesBelow(steps, n, depth, b[i - |a| - 1], vb[i - |a| - 1]);
      }
    }
  }

  /** The list visits the steps along these paths. */
  lemma {:induction false} PreorderFollowsPaths(steps: seq<Step>, depth: int)
    ensures AllReach(steps, depth, Paths(steps), Preorder(steps, depth))
    decreases steps
  {
    if steps != [] {
      var n := |steps| - 1;
      PreorderFollowsPaths(steps[..n], depth);
      PreorderFollowsPaths(steps[n].steps, depth + 1);
      ReachesTogether(steps, n, depth, Paths(steps[..n]), Preorder(steps[..n], depth),
                      Paths(steps[n].steps), Preorder(steps[n].steps, depth + 1));
    }
  }

  /** Every path that leads anywhere is among them. */
  lemma {:induction false} PathsAreAll(steps: seq<Step>, p: Path)
    requires LeadsTo(steps, p)
    ensures p in Paths(steps)
    decreases steps
  {
    var n := |steps| - 1;
    if p[0] < n {
      assert LeadsTo(steps[..n], p);
      PathsAreAll(steps[..n], p);
    } else if |p| > 1 {
      var b := Paths(steps[n].steps);
      PathsAreAll(steps[n].steps, p[1..]);
      var i :| 0 <= i < |b| && b[i] == p[1..];
      assert Below(n, b)[i] == [n] + p[1..] == p;
    } else {
      assert p == [n];
    }
  }

  lemma {:induction false} PathsStartBelow(steps: seq<Step>, i: nat)
    requires i < |Paths(steps)|
    ensures Paths(steps)[i] != [] && Paths(steps)[i][0] < |steps|
  {
    PreorderFollowsPaths(steps, 0);
    assert Reaches(steps, 0, Paths(steps)[i], Preorder(steps, 0)[i]);
  }

  /** They are listed in document order, each once. */
  lemma {:induction false} PathsInOrder(steps: seq<Step>, i: nat, j: nat)
    requires i < j < |Paths(steps)|
    ensures Precedes(Paths(steps)[i], Paths(steps)[j])
    decreases steps
  {
    var n := |steps| - 1;
    var a, b := Paths(steps[..n]), Paths(steps[n].steps);
    if j < |a| {
      PathsInOrder(steps[..n], i, j);
    } else if i < |a| {
      PathsStartBelow(steps[..n], i);
    } else if i == |a| {
      PathsStartBelow(steps[n].steps, j - |a| - 1);
      assert ([n] + b[j - |a| - 1])[1..] == b[j - |a| - 1];
    } else {
      PathsInOrder(steps[n].steps, i - |a| - 1, j - |a| - 1);
      assert ([n] + b[i - |a| - 1])[1..] == b[i - |a| - 1] && ([n] + b[j - |a| - 1])[1..] == b[j - |a| - 1];
    }
  }

  /** A step with the status, found along p, such that no such step lies deeper and none as deep comes
      before it in the document. */
  ghost predicate DeepestFirst(steps: seq<Step>, want: string, p: Path) {
    && LeadsTo(steps, p) && StepAt(steps, p).status == want
    && (forall q :: LeadsTo(steps, q) && StepAt(steps, q).status == want ==> |q| <= |p|)
    && (forall q :: LeadsTo(steps, q) && StepAt(steps, q).status == want && Precedes(q, p) ==> |q| < |p|)
  }

  lemma {:induction false} PrecedesOneWay(p: Path, q: Path)
    requires Precedes(p, q)
    ensures !Precedes(q, p) && p != q
    decreases |p|
  {
    if p != [] && p[0] == q[0] { PrecedesOneWay(p[1..], q[1..]); }
  }

  /** The search's answer is that step of the tree itself: depth, message and trace; or none has the
      status. */
  lemma SearchOnTree(steps: seq<Step>, want: string)
    ensures var r := Deepest(Preorder(steps, 0), want);
            if r.depth < 0 then r == NOTHING && forall p :: LeadsTo(steps, p) ==> StepAt(steps, p).status != want
            else exists p :: DeepestFirst(steps, want, p) && r.depth == |p| - 1 && Reports(StepAt(steps, p), r.message, r.trace)
  {
    var v, ps := Preorder(steps, 0), Paths(steps);
    PreorderFollowsPaths(steps, 0);
    PreorderDepths(steps, 0);
    var k := DeepestIndex(v, want);
    if k < 0 {
      forall p | LeadsTo(steps, p) ensures StepAt(steps, p).status != want {
        var i := VisitOf(steps, p);
        assert v[i].step.status != want;
      }
    } else {
      var p := ps[k];
      assert Reaches(steps, 0, p, v[k]);
      FirstDeepestOnTree(steps, want, k);
      ReportReports(v[k].step, v[k].depth);
      assert DeepestFirst(steps, want, p);
    }
  }

  lemma VisitOf(steps: seq<Step>, p: Path) returns (i: nat)
    requires LeadsTo(steps, p)
    ensures i < |Paths(steps)| == |Preorder(steps, 0)| && Paths(steps)[i] == p
    ensures Preorder(steps, 0)[i] == Visit(StepAt(steps, p), |p| - 1)
  {
    PathsAreAll(steps, p);
    PreorderFollowsPaths(steps, 0);
    i :| 0 <= i < |Paths(steps)| && Paths(steps)[i] == p;
    assert Reaches(steps, 0, p, Preorder(steps, 0)[i]);
  }

  lemma FirstDeepestOnTree(steps: seq<Step>, want: string, k: nat)
    requires FirstDeepest(Preorder(steps, 0), want, k)
    ensures k < |Paths(steps)| && DeepestFirst(steps, want, Paths(steps)[k])
  {
    PreorderFollowsPaths(steps, 0);
    var v, p := Preorder(steps, 0), Paths(steps)[k];
    assert Reaches(steps, 0, p, v[k]);
    forall q | LeadsTo(steps, q) && StepAt(steps, q).status == want
      ensures |q| <= |p| && (Precedes(q, p) ==> |q| < |p|)
    {
      var i := VisitOf(steps, q);
      if Precedes(q, p) && i >= k {
        PrecedesOneWay(q, p);
        if i > k { PathsInOrder(steps, k, i); }
      }
    }
  }
}
