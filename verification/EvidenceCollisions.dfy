/** Which evidence the service can assemble shares its key with other such evidence.

    Error messages, step entries and attachment names come from text columns, which hold no NUL; the
    bytes of attachments are arbitrary. The step path is capped, and attachment text is empty or
    begins with the title of the first attachment. */
module EvidenceCollisions {
  import opened Decimal
  import opened InputKey

  const MAX_STEP_PATH := 20
  const TITLE := "\n--- attachment: "
  const TITLE_END := " ---\n"

  /** An attachment title and what follows it. */
  ghost predicate TitledBy(s: string, name: string, data: string) {
    NulFree(name) && s == TITLE + name + TITLE_END + data
  }

  ghost predicate Titled(s: string) { exists name, data :: TitledBy(s, name, data) }

  /** The text of no attachment, or of some; the data of one may look like a further one. */
  ghost predicate Attached(s: string) {
    s == "" || exists name, data :: TitledBy(s, name, data) && data != ""
  }

  ghost predicate Assembled(ev: Evidence) {
    && NulFree(ev.errorMessage) && AllNulFree(ev.stepPath)
    && |ev.stepPath| <= MAX_STEP_PATH && Attached(ev.attachText)
  }

  ghost predicate AllNulFree(fields: seq<string>) { forall f :: f in fields ==> NulFree(f) }

  /** Other evidence the service could assemble, with the same key. */
  ghost predicate Collides(ev: Evidence, ev': Evidence, model: string, version: int) {
    Assembled(ev') && ev' != ev && KeyMaterial(ev, model, version) == KeyMaterial(ev', model, version)
  }

  function Nuls(s: string): nat {
    if s == "" then 0 else Nuls(s[..|s| - 1]) + if s[|s| - 1] == NUL then 1 else 0
  }

  /** A NUL in the attachment text is followed by nothing, or by what reads as the title of another
      attachment, and the text up to there can be taken for further step entries. */
  ghost predicate CutsAt(ev: Evidence, i: int) {
    && 0 <= i < |ev.attachText| && ev.attachText[i] == NUL && Attached(ev.attachText[i + 1..])
    && |ev.stepPath| + Nuls(ev.attachText[..i + 1]) <= MAX_STEP_PATH
  }

  /** A step entry reads as the title of an attachment. */
  ghost predicate TitledStep(ev: Evidence, j: int) { 0 <= j < |ev.stepPath| && Titled(ev.stepPath[j]) }

  // ----- Terminated fields -----

  lemma {:induction false} NulsOfConcat(s: string, t: string)
    ensures Nuls(s + t) == Nuls(s) + Nuls(t)
  {
    if t == "" {
      assert s + t == s;
    } else {
      NulsOfConcat(s, t[..|t| - 1]);
      assert (s + t)[..|s + t| - 1] == s + t[..|t| - 1];
    }
  }

  lemma {:induction false} NoNuls(s: string)
    requires NulFree(s)
    ensures Nuls(s) == 0 && Nuls(s + [NUL]) == 1
  {
    if s != "" { NoNuls(s[..|s| - 1]); }
    assert (s + [NUL])[..|s|] == s;
  }

  lemma {:induction false} NulsOfTerminated(fields: seq<string>)
    requires AllNulFree(fields)
    ensures Nuls(Terminated(fields)) == |fields|
  {
    if fields != [] {
      assert fields[0] in fields;
      NulsOfTerminated(fields[1..]);
      NoNuls(fields[0]);
      NulsOfConcat(fields[0] + [NUL], Terminated(fields[1..]));
    }
  }

  lemma {:induction false} LastIsNul(fields: seq<string>)
    requires fields != []
    ensures Terminated(fields) != "" && Terminated(fields)[|Terminated(fields)| - 1] == NUL
  {
    if |fields| > 1 { LastIsNul(fields[1..]); } else { assert Terminated(fields[1..]) == ""; }
  }

  /** Any text that ends in a NUL is the terminated form of as many NUL-free fields. */
  lemma {:induction false} FieldsOf(s: string) returns (fields: seq<string>)
    requires s != "" && s[|s| - 1] == NUL
    ensures AllNulFree(fields) && fields != [] && Terminated(fields) == s && |fields| == Nuls(s)
    decreases |s|
  {
    var i := FirstNul(s);
    var rest := s[i + 1..];
    assert s == s[..i] + [NUL] + rest;
    if rest == "" {
      fields := [s[..i]];
      assert fields[1..] == [];
    } else {
      var more := FieldsOf(rest);
      fields := [s[..i]] + more;
      assert fields[1..] == more;
    }
    NulsOfTerminated(fields);
  }

  lemma {:induction false} FirstNul(s: string) returns (i: nat)
    requires s != "" && s[|s| - 1] == NUL
    ensures i < |s| && s[i] == NUL && NulFree(s[..i])
    decreases |s|
  {
    var init := s[..|s| - 1];
    if NulFree(init) {
      i := |s| - 1;
    } else {
      var j :| 0 <= j < |init| && init[j] == NUL;
      i := FirstNul(s[..j + 1]);
      assert s[..j + 1][..i] == s[..i];
    }
  }

  /** Two terminated lists before any texts: the shorter list begins the longer one. */
  lemma {:induction false} CommonFields(a: seq<string>, b: seq<string>, x: string, y: string)
    requires AllNulFree(a) && AllNulFree(b) && |a| <= |b| && Terminated(a) + x == Terminated(b) + y
    ensures a == b[..|a|] && x == Terminated(b[|a|..]) + y
  {
    if a == [] {
      assert b[|a|..] == b;
    } else {
      var a', b' := a[1..], b[1..];
      FirstField(a, x);
      FirstField(b, y);
      FirstSeparator(a[0], b[0], NUL, Terminated(a') + x, Terminated(b') + y);
      CommonFields(a', b', x, y);
      FirstAndRest(a, b);
    }
  }

  lemma FirstField(fields: seq<string>, x: string)
    requires fields != [] && AllNulFree(fields)
    ensures NulFree(fields[0]) && AllNulFree(fields[1..])
    ensures Terminated(fields) + x == fields[0] + [NUL] + (Terminated(fields[1..]) + x)
  {
    assert fields[0] in fields;
  }

  lemma FirstAndRest(a: seq<string>, b: seq<string>)
    requires a != [] && |a| <= |b| && a[0] == b[0] && a[1..] == b[1..][..|a| - 1]
    ensures a == b[..|a|] && b[|a|..] == b[1..][|a| - 1..]
  {
    assert a == [a[0]] + a[1..];
  }

  lemma LastSeparator(x: string, y: string, f: string, g: string)
    requires NulFree(f) && NulFree(g) && x + [NUL] + f == y + [NUL] + g
    ensures x == y && f == g
  {
    var s := x + [NUL] + f;
    NoNulAfter(x, f);
    NoNulAfter(y, g);
    assert s[|x|] == NUL && s[|y|] == NUL;
    assert |x| == |y|;
    assert s[..|x|] == x && s[..|y|] == y;
    assert s[|x| + 1..] == f && s[|y| + 1..] == g;
  }

  lemma NoNulAfter(x: string, f: string)
    requires NulFree(f)
    ensures var s := x + [NUL] + f; forall k :: |x| < k < |s| ==> s[k] != NUL
  {
    var s := x + [NUL] + f;
    forall k | |x| < k < |s| ensures s[k] != NUL {
      assert s[k] == f[k - |x| - 1] && s[k] in f;
    }
  }

  // ----- The parts of a key -----

  function Head(ev: Evidence): seq<string> { [ev.errorMessage] + ev.stepPath }

  function Rest(model: string, version: int): string { Terminated([model, FormatInt(version)]) }

  lemma KeyParts(ev: Evidence, model: string, version: int)
    ensures KeyMaterial(ev, model, version) ==
            Terminated(Head(ev)) + (ev.attachText + [NUL] + (FormatInt(ev.lastGoodBuildID) + [NUL] + Rest(model, version)))
  {
    var tail := [ev.attachText, FormatInt(ev.lastGoodBuildID), model, FormatInt(version)];
    assert Fields(ev, model, version) == Head(ev) + tail;
    TerminatedConcat(Head(ev), tail);
    assert tail[1..] == [FormatInt(ev.lastGoodBuildID), model, FormatInt(version)];
    assert tail[1..][1..] == [model, FormatInt(version)];
  }

  /** The same key: the shorter step path begins the longer one, whose other entries open the
      attachment text of the former. */
  lemma SameKey(ev: Evidence, ev': Evidence, model: string, version: int)
    requires Assembled(ev) && Assembled(ev') && KeyMaterial(ev, model, version) == KeyMaterial(ev', model, version)
    requires |ev.stepPath| <= |ev'.stepPath|
    ensures var n := |ev.stepPath|;
            && ev.errorMessage == ev'.errorMessage && ev.stepPath == ev'.stepPath[..n]
            && ev.attachText == Terminated(ev'.stepPath[n..]) + ev'.attachText
            && ev.lastGoodBuildID == ev'.lastGoodBuildID
  {
    var n, rest := |ev.stepPath|, Rest(model, version);
    var f, f' := FormatInt(ev.lastGoodBuildID), FormatInt(ev'.lastGoodBuildID);
    var a, a' := ev.attachText, ev'.attachText;
    KeyParts(ev, model, version);
    KeyParts(ev', model, version);
    CommonFields(Head(ev), Head(ev'), a + [NUL] + (f + [NUL] + rest), a' + [NUL] + (f' + [NUL] + rest));
    SameHeads(ev, ev');
    var t := Terminated(ev'.stepPath[n..]);
    assert t + (a' + [NUL] + (f' + [NUL] + rest)) == (t + a') + [NUL] + (f' + [NUL] + rest);
    FormatChars(ev.lastGoodBuildID, NUL);
    FormatChars(ev'.lastGoodBuildID, NUL);
    SameAttachments(a, t + a', f, f', rest);
    FormatInjective(ev.lastGoodBuildID, ev'.lastGoodBuildID);
  }

  lemma SameHeads(ev: Evidence, ev': Evidence)
    requires |ev.stepPath| <= |ev'.stepPath| && Head(ev) == Head(ev')[..|Head(ev)|]
    ensures var n := |ev.stepPath|;
            && ev.errorMessage == ev'.errorMessage && ev.stepPath == ev'.stepPath[..n]
            && Head(ev')[|Head(ev)|..] == ev'.stepPath[n..]
  {
    var n := |ev.stepPath|;
    assert Head(ev)[1..] == ev.stepPath && Head(ev')[..n + 1][1..] == ev'.stepPath[..n];
    assert Head(ev)[0] == Head(ev')[..n + 1][0];
  }

  lemma SameAttachments(x: string, y: string, f: string, g: string, rest: string)
    requires NulFree(f) && NulFree(g) && x + [NUL] + (f + [NUL] + rest) == y + [NUL] + (g + [NUL] + rest)
    ensures x == y && f == g
  {
    var r := [NUL] + rest;
    assert x + [NUL] + (f + [NUL] + rest) == x + [NUL] + f + r;
    assert y + [NUL] + (g + [NUL] + rest) == y + [NUL] + g + r;
    SameBeforeSuffix(x + [NUL] + f, y + [NUL] + g, r);
    LastSeparator(x, y, f, g);
  }

  lemma SameBeforeSuffix(x: string, y: string, r: string)
    requires x + r == y + r
    ensures x == y
  {
    assert |x| == |y|;
    assert (x + r)[..|x|] == x && (y + r)[..|y|] == y;
  }

  // ----- When there is other evidence with the key -----

  /** Attachment text whose first NUL ends f opens with a field f that reads as a title. */
  lemma TitleInField(s: string, f: string)
    requires NulFree(f) && Attached(s) && |f| < |s| && s[..|f|] == f && s[|f|] == NUL
    ensures Titled(f)
  {
    var name, data :| TitledBy(s, name, data) && data != "";
    var p := TITLE + name + TITLE_END;
    assert forall k :: 0 <= k < |p| ==> s[k] == p[k] && p[k] in p;
    assert |p| <= |f|;
    assert f == p + f[|p|..] by { assert s[..|p|] == p; }
    assert TitledBy(f, name, f[|p|..]);
  }

  lemma OpensWith(fields: seq<string>, x: string)
    requires fields != []
    ensures var f, s := fields[0], Terminated(fields) + x; |f| < |s| && s[..|f|] == f && s[|f|] == NUL
  {
    assert Terminated(fields) + x == fields[0] + ([NUL] + Terminated(fields[1..]) + x);
  }

  lemma CollisionShows(ev: Evidence, ev': Evidence, model: string, version: int)
    requires Assembled(ev) && Collides(ev, ev', model, version)
    ensures (exists i :: CutsAt(ev, i)) || (exists j :: TitledStep(ev, j))
  {
    if |ev.stepPath| <= |ev'.stepPath| {
      var i := LongerPathCuts(ev, ev', model, version);
    } else {
      ShorterPathTitles(ev, ev', model, version);
    }
  }

  lemma LongerPathCuts(ev: Evidence, ev': Evidence, model: string, version: int) returns (i: int)
    requires Assembled(ev) && Collides(ev, ev', model, version) && |ev.stepPath| <= |ev'.stepPath|
    ensures CutsAt(ev, i)
  {
    SameKey(ev, ev', model, version);
    var n := |ev.stepPath|;
    var more := ev'.stepPath[n..];
    assert more == [] ==> ev.stepPath == ev'.stepPath && Terminated(more) == "";
    assert more != [];
    var t := Terminated(more);
    LastIsNul(more);
    NulsOfTerminated(more);
    assert ev.attachText[..|t|] == t && ev.attachText[|t|..] == ev'.attachText;
    i := |t| - 1;
  }

  lemma ShorterPathTitles(ev: Evidence, ev': Evidence, model: string, version: int)
    requires Assembled(ev) && Collides(ev, ev', model, version) && |ev.stepPath| > |ev'.stepPath|
    ensures TitledStep(ev, |ev'.stepPath|)
  {
    SameKey(ev', ev, model, version);
    var more := ev.stepPath[|ev'.stepPath|..];
    assert more[0] in ev.stepPath;
    OpensWith(more, ev.attachText);
    TitleInField(ev'.attachText, more[0]);
  }

  lemma SameKeyIf(ev: Evidence, ev': Evidence, model: string, version: int)
    requires ev.lastGoodBuildID == ev'.lastGoodBuildID
    requires Terminated(Head(ev)) + ev.attachText == Terminated(Head(ev')) + ev'.attachText
    ensures KeyMaterial(ev, model, version) == KeyMaterial(ev', model, version)
  {
    KeyParts(ev, model, version);
    KeyParts(ev', model, version);
    var r := [NUL] + (FormatInt(ev.lastGoodBuildID) + [NUL] + Rest(model, version));
    assert KeyMaterial(ev, model, version) == Terminated(Head(ev)) + ev.attachText + r;
    assert KeyMaterial(ev', model, version) == Terminated(Head(ev')) + ev'.attachText + r;
  }

  /** Taking the cut text for step entries. */
  lemma CutCollides(ev: Evidence, i: int, model: string, version: int) returns (ev': Evidence)
    requires Assembled(ev) && CutsAt(ev, i)
    ensures Collides(ev, ev', model, version)
  {
    var a := ev.attachText;
    assert a[..i + 1][i] == NUL;
    var more := FieldsOf(a[..i + 1]);
    ev' := ev.(stepPath := ev.stepPath + more, attachText := a[i + 1..]);
    CutParts(ev, ev', i, more);
    SameKeyIf(ev, ev', model, version);
  }

  lemma CutParts(ev: Evidence, ev': Evidence, i: int, more: seq<string>)
    requires 0 <= i < |ev.attachText| && Terminated(more) == ev.attachText[..i + 1]
    requires ev' == ev.(stepPath := ev.stepPath + more, attachText := ev.attachText[i + 1..])
    ensures Terminated(Head(ev)) + ev.attachText == Terminated(Head(ev')) + ev'.attachText
  {
    assert Head(ev') == Head(ev) + more;
    TerminatedConcat(Head(ev), more);
    assert ev.attachText == Terminated(more) + ev'.attachText;
  }

  /** Taking a titled step entry, and all that follow, for attachment text. */
  lemma TitledCollides(ev: Evidence, j: int, model: string, version: int) returns (ev': Evidence)
    requires Assembled(ev) && TitledStep(ev, j)
    ensures Collides(ev, ev', model, version)
  {
    var f, after := ev.stepPath[j], Terminated(ev.stepPath[j + 1..]) + ev.attachText;
    var name, data :| TitledBy(f, name, data);
    ev' := ev.(stepPath := ev.stepPath[..j], attachText := f + [NUL] + after);
    StillTitled(f, name, data, [NUL] + after);
    assert f + [NUL] + after == f + ([NUL] + after);
    TitledParts(ev, ev', j);
    SameKeyIf(ev, ev', model, version);
  }

  lemma StillTitled(f: string, name: string, data: string, more: string)
    requires TitledBy(f, name, data) && more != ""
    ensures Attached(f + more)
  {
    assert f + more == TITLE + name + TITLE_END + (data + more);
    assert TitledBy(f + more, name, data + more);
  }

  lemma TitledParts(ev: Evidence, ev': Evidence, j: nat)
    requires j < |ev.stepPath|
    requires ev' == ev.(stepPath := ev.stepPath[..j],
                        attachText := ev.stepPath[j] + [NUL] + (Terminated(ev.stepPath[j + 1..]) + ev.attachText))
    ensures Terminated(Head(ev)) + ev.attachText == Terminated(Head(ev')) + ev'.attachText
  {
    var q := ev.stepPath[j..];
    assert Head(ev) == Head(ev') + q && q[1..] == ev.stepPath[j + 1..];
    TerminatedConcat(Head(ev'), q);
  }

  /** Evidence the service assembles shares its key with other such evidence if and only if its
      attachment text cuts, or one of its step entries reads as the title of an attachment. */
  lemma CollidesIff(ev: Evidence, model: string, version: int)
    requires Assembled(ev)
    ensures (exists ev' :: Collides(ev, ev', model, version)) <==>
            (exists i :: CutsAt(ev, i)) || (exists j :: TitledStep(ev, j))
  {
    if i :| CutsAt(ev, i) {
      var ev' := CutCollides(ev, i, model, version);
    } else if j :| TitledStep(ev, j) {
      var ev' := TitledCollides(ev, j, model, version);
    }
    forall ev' | Collides(ev, ev', model, version)
      ensures (exists i :: CutsAt(ev, i)) || (exists j :: TitledStep(ev, j))
    {
      CollisionShows(ev, ev', model, version);
    }
  }
}
