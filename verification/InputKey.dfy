/** The cache key material of api/internal/failure/service.go: the bytes inputHash feeds to
    SHA-256, and when two pieces of evidence share them. */
module InputKey {
  import opened Decimal

  datatype Evidence = Evidence(errorMessage: string, stepPath: seq<string>, attachText: string, lastGoodBuildID: int)

  const NUL: char := '\0'

  ghost predicate NulFree(s: string) { NUL !in s }

  /** The fields in the order they are written. */
  function Fields(ev: Evidence, model: string, promptVersion: int): seq<string> {
    [ev.errorMessage] + ev.stepPath
    + [ev.attachText, FormatInt(ev.lastGoodBuildID), model, FormatInt(promptVersion)]
  }

  /** Each field followed by a NUL. */
  function Terminated(fields: seq<string>): string {
    if fields == [] then [] else fields[0] + [NUL] + Terminated(fields[1..])
  }

  function KeyMaterial(ev: Evidence, model: string, promptVersion: int): string {
    Terminated(Fields(ev, model, promptVersion))
  }

  /** The writer of the source: fields go out one by one. */
  method WriteFields(ev: Evidence, model: string, promptVersion: int) returns (out: string)
    ensures out == KeyMaterial(ev, model, promptVersion)
  {
    var head, tail := [ev.errorMessage], [ev.attachText, FormatInt(ev.lastGoodBuildID), model, FormatInt(promptVersion)];
    out := ev.errorMessage + [NUL];
    assert out == Terminated(head) by { assert head[1..] == []; }
    var i := 0;
    assert head + ev.stepPath[..0] == head;
    while i < |ev.stepPath|
      invariant 0 <= i <= |ev.stepPath|
      invariant out == Terminated(head + ev.stepPath[..i])
    {
      out := out + ev.stepPath[i] + [NUL];
      TerminatedSnoc(head + ev.stepPath[..i], ev.stepPath[i]);
      assert head + ev.stepPath[..i + 1] == head + ev.stepPath[..i] + [ev.stepPath[i]];
      i := i + 1;
    }
    assert ev.stepPath[..i] == ev.stepPath;
    var j := 0;
    assert head + ev.stepPath + tail[..0] == head + ev.stepPath;
    while j < |tail|
      invariant 0 <= j <= |tail|
      invariant out == Terminated(head + ev.stepPath + tail[..j])
    {
      out := out + tail[j] + [NUL];
      TerminatedSnoc(head + ev.stepPath + tail[..j], tail[j]);
      assert head + ev.stepPath + tail[..j + 1] == head + ev.stepPath + tail[..j] + [tail[j]];
      j := j + 1;
    }
    assert tail[..j] == tail;
  }

  lemma {:induction false} TerminatedConcat(a: seq<string>, b: seq<string>)
    ensures Terminated(a + b) == Terminated(a) + Terminated(b)
  {
    if a == [] {
      assert a + b == b;
    } else {
      TerminatedConcat(a[1..], b);
      assert (a + b)[1..] == a[1..] + b;
    }
  }

  lemma TerminatedSnoc(a: seq<string>, f: string)
    ensures Terminated(a + [f]) == Terminated(a) + f + [NUL]
  {
    TerminatedConcat(a, [f]);
    assert [f][1..] == [];
  }

  /** NUL-free fields can be read back from their terminated form. */
  lemma {:induction false} TerminatedInjective(a: seq<string>, b: seq<string>)
    requires forall f :: f in a ==> NulFree(f)
    requires forall f :: f in b ==> NulFree(f)
    requires Terminated(a) == Terminated(b)
    ensures a == b
  {
    assert a != [] ==> |Terminated(a)| > 0;
    if a != [] && b != [] {
      assert a[0] in a && b[0] in b;
      FirstSeparator(a[0], b[0], NUL, Terminated(a[1..]), Terminated(b[1..]));
      TerminatedInjective(a[1..], b[1..]);
      assert a == [a[0]] + a[1..] && b == [b[0]] + b[1..];
    }
  }

  ghost predicate NulFreeEvidence(ev: Evidence) {
    NulFree(ev.errorMessage) && NulFree(ev.attachText) && forall i :: 0 <= i < |ev.stepPath| ==> NulFree(ev.stepPath[i])
  }

  lemma FieldsNulFree(ev: Evidence, model: string, version: int)
    requires NulFreeEvidence(ev) && NulFree(model)
    ensures forall f :: f in Fields(ev, model, version) ==> NulFree(f)
  {
    FormatChars(ev.lastGoodBuildID, NUL);
    FormatChars(version, NUL);
  }

  /** For NUL-free fields equal key material means equal evidence, model and prompt version,
      however long the step paths are. */
  lemma KeyMaterialInjective(ev: Evidence, model: string, version: int, ev': Evidence, model': string, version': int)
    requires NulFreeEvidence(ev) && NulFree(model) && NulFreeEvidence(ev') && NulFree(model')
    requires KeyMaterial(ev, model, version) == KeyMaterial(ev', model', version')
    ensures ev == ev' && model == model' && version == version'
  {
    FieldsNulFree(ev, model, version);
    FieldsNulFree(ev', model', version');
    var a, b := Fields(ev, model, version), Fields(ev', model', version');
    TerminatedInjective(a, b);
    var n := |ev.stepPath|;
    assert n == |ev'.stepPath|;
    assert a[0] == ev.errorMessage && b[0] == ev'.errorMessage;
    assert a[1..1 + n] == ev.stepPath && b[1..1 + n] == ev'.stepPath;
    assert a[1 + n] == ev.attachText && b[1 + n] == ev'.attachText;
    assert a[2 + n] == FormatInt(ev.lastGoodBuildID) && b[2 + n] == FormatInt(ev'.lastGoodBuildID);
    assert a[3 + n] == model && b[3 + n] == model';
    assert a[4 + n] == FormatInt(version) && b[4 + n] == FormatInt(version');
    FormatInjective(ev.lastGoodBuildID, ev'.lastGoodBuildID);
    FormatInjective(version, version');
  }

  // ----- Outside that condition -----

  lemma SplitField(f: string) returns (x: string, y: string)
    requires !NulFree(f)
    ensures f == x + [NUL] + y
  {
    var i :| 0 <= i < |f| && f[i] == NUL;
    x, y := f[..i], f[i + 1..];
  }

  /** Cutting a field at a NUL inside it leaves the terminated form unchanged. */
  lemma CutField(pre: seq<string>, x: string, y: string, post: seq<string>)
    ensures Terminated(pre + [x + [NUL] + y] + post) == Terminated(pre + [x, y] + post)
  {
    TerminatedSnoc(pre, x + [NUL] + y);
    TerminatedConcat(pre + [x + [NUL] + y], post);
    TerminatedSnoc(pre, x);
    TerminatedSnoc(pre + [x], y);
    assert pre + [x, y] == pre + [x] + [y];
    TerminatedConcat(pre + [x, y], post);
  }

  /** Evidence whose fields differ only in one field cut in two has the same key. */
  lemma CutEvidence(ev: Evidence, ev': Evidence, model: string, version: int,
                    pre: seq<string>, x: string, y: string, post: seq<string>)
    requires Fields(ev, model, version) == pre + [x + [NUL] + y] + post
    requires Fields(ev', model, version) == pre + [x, y] + post
    ensures ev' != ev && KeyMaterial(ev', model, version) == KeyMaterial(ev, model, version)
  {
    CutField(pre, x, y, post);
    assert |ev.stepPath| + 1 == |ev'.stepPath| by {
      assert |Fields(ev, model, version)| + 1 == |Fields(ev', model, version)|;
    }
  }

  /** The condition is exact: any evidence with a NUL in it shares its key with other evidence. */
  lemma NulCollides(ev: Evidence, model: string, version: int) returns (ev': Evidence)
    requires !NulFreeEvidence(ev)
    ensures ev' != ev && KeyMaterial(ev', model, version) == KeyMaterial(ev, model, version)
  {
    var tail := [FormatInt(ev.lastGoodBuildID), model, FormatInt(version)];
    var e, p, a := ev.errorMessage, ev.stepPath, ev.attachText;
    if !NulFree(e) {
      var x, y := SplitField(e);
      ev' := ev.(errorMessage := x, stepPath := [y] + p);
      CutEvidence(ev, ev', model, version, [], x, y, p + [a] + tail);
    } else if !NulFree(a) {
      var x, y := SplitField(a);
      ev' := ev.(stepPath := p + [x], attachText := y);
      CutEvidence(ev, ev', model, version, [e] + p, x, y, tail);
    } else {
      ev' := CutStep(ev, model, version);
    }
  }

  lemma CutStep(ev: Evidence, model: string, version: int) returns (ev': Evidence)
    requires exists i :: 0 <= i < |ev.stepPath| && !NulFree(ev.stepPath[i])
    ensures ev' != ev && KeyMaterial(ev', model, version) == KeyMaterial(ev, model, version)
  {
    var p := ev.stepPath;
    var i :| 0 <= i < |p| && !NulFree(p[i]);
    var x, y := SplitField(p[i]);
    ev' := ev.(stepPath := p[..i] + [x, y] + p[i + 1..]);
    assert p == p[..i] + [x + [NUL] + y] + p[i + 1..];
    var tail := [ev.attachText, FormatInt(ev.lastGoodBuildID), model, FormatInt(version)];
    CutEvidence(ev, ev', model, version, [ev.errorMessage] + p[..i], x, y, p[i + 1..] + tail);
  }
}
