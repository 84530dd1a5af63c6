/** The three key namespaces of api/internal/middleware/user_active_cache.go and what each request
    looks up. Keys are kept structured; their texts, which the source uses, determine them. */
module CacheKeys {
  import opened Options
  import opened Decimal

  /** An email in lower case, the form under which the user table matches it. */
  datatype Email = Email(text: string)

  /** `Numeric`: the sub of a token or an API-key username that parses as an ID; several texts may
      parse to one ID. `Oidc`: an OIDC token's email. `Env`: an env-user name without a users row;
      `email` is the name as the user table would match it. */
  datatype Key =
    | Numeric(text: string, id: int)
    | Oidc(email: Email)
    | Env(name: string, email: Email)

  function LowerChar(c: char): char {
    if 'A' <= c <= 'Z' then ('a' as int + (c as int - 'A' as int)) as char else c
  }

  function Lower(s: string): (r: string)
    ensures |r| == |s| && forall i :: 0 <= i < |s| ==> r[i] == LowerChar(s[i])
  {
    if s == [] then [] else Lower(s[..|s| - 1]) + [LowerChar(s[|s| - 1])]
  }

  lemma LowerIdempotent(s: string)
    ensures Lower(Lower(s)) == Lower(s)
  {
  }

  function EmailOf(s: string): Email { Email(Lower(s)) }

  /** Equal, or the two cases of one ASCII letter, which lie 32 apart. */
  predicate SameButCase(c: char, d: char) {
    || c == d
    || ('A' <= c <= 'Z' && d as int == c as int + 32)
    || ('A' <= d <= 'Z' && c as int == d as int + 32)
  }

  predicate EqualButCase(s: string, t: string) {
    |s| == |t| && forall i :: 0 <= i < |s| ==> SameButCase(s[i], t[i])
  }

  predicate NoCapitals(s: string) { forall i :: 0 <= i < |s| ==> !('A' <= s[i] <= 'Z') }

  /** Emails are the same exactly when they differ in the case of letters only. */
  lemma EmailsIgnoreCase(s: string, t: string)
    ensures EmailOf(s) == EmailOf(t) <==> EqualButCase(s, t)
  {
    if EqualButCase(s, t) {
      assert Lower(s) == Lower(t);
    } else if |s| == |t| {
      var i :| 0 <= i < |s| && !SameButCase(s[i], t[i]);
      assert Lower(s)[i] != Lower(t)[i];
    }
  }

  /** The form kept is the one in small letters. */
  lemma SmallLettersAreKept(s: string)
    ensures NoCapitals(EmailOf(s).text) && EqualButCase(s, EmailOf(s).text)
    ensures NoCapitals(s) ==> EmailOf(s) == Email(s)
  {
    var l := Lower(s);
    if NoCapitals(s) { assert l == s; }
  }

  predicate WellFormed(k: Key) {
    match k
    case Numeric(text, id) => ParseInt(text) == Some(id)
    case Oidc(email) => EmailOf(email.text) == email
    case Env(name, email) => EmailOf(name) == email
  }

  /** The map key of the source. */
  function Render(k: Key): string {
    match k
    case Numeric(text, _) => text
    case Oidc(email) => "oidc:" + email.text
    case Env(name, _) => "env:" + name
  }

  function OidcKey(sub: string): Key { Oidc(EmailOf(sub)) }
  function EnvUserKey(name: string): Key { Env(name, EmailOf(name)) }
  function IdKey(id: int): Key { Numeric(FormatInt(id), id) }

  lemma MadeKeysWellFormed(s: string, id: int)
    requires MIN_INT64 <= id <= MAX_INT64
    ensures WellFormed(OidcKey(s)) && WellFormed(EnvUserKey(s)) && WellFormed(IdKey(id))
  {
    LowerIdempotent(s);
    ParseFormat(id);
  }

  lemma LettersDoNotParse(s: string)
    requires s != [] && !IsDigit(s[0]) && s[0] != '-' && s[0] != '+'
    ensures ParseInt(s) == None
  {
  }

  /** The texts under which the three kinds of entries are stored. */
  lemma KeyTexts(s: string, id: int)
    ensures Render(IdKey(id)) == FormatInt(id) && Render(EnvUserKey(s)) == "env:" + s
    ensures exists e :: NoCapitals(e) && EqualButCase(s, e) && Render(OidcKey(s)) == "oidc:" + e
  {
    SmallLettersAreKept(s);
    assert Render(OidcKey(s)) == "oidc:" + EmailOf(s).text;
  }

  /** The namespaces are disjoint: no two keys share a text. */
  lemma RenderInjective(k: Key, q: Key)
    requires WellFormed(k) && WellFormed(q) && Render(k) == Render(q)
    ensures k == q
  {
    var s := Render(k);
    if !k.Numeric? {
      LettersDoNotParse(s);
    }
    if !q.Numeric? {
      LettersDoNotParse(s);
    }
    match k
    case Numeric(_, _) =>
    case Oidc(email) =>
      assert s[0] == 'o' && s[5..] == email.text;
      assert q.Oidc? ==> s[5..] == q.email.text;
    case Env(name, _) =>
      assert s[0] == 'e' && s[4..] == name;
      assert q.Env? ==> s[4..] == q.name;
  }
}
