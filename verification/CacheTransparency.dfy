/** Against a store that neither changes nor fails, UserActiveCache is invisible. */
module CacheTransparency {
  import opened Options
  import opened Decimal
  import opened CacheKeys
  import opened CacheProtocol
  import opened CacheStaleness

  // ----- What each request asks -----

  /** A request is answered outright or by a question to the cache. */
  datatype Plan = Outright(answer: Answer) | Ask(question: Question)

  function IsActivePlan(sub: string): Plan {
    var id := ParseInt(sub);
    if id.None? then Outright(Active(true)) else Ask(AskFlag(Numeric(sub, id.value)))
  }

  function TokenPlan(sub: string, provider: string): Plan {
    if provider != "oidc" then IsActivePlan(sub) else Ask(AskFlag(OidcKey(sub)))
  }

  function ResolvePlan(username: string, envUsers: set<string>): Plan {
    var id, env := ParseInt(username), username in envUsers;
    if id.Some? && !env then Ask(AskFlag(Numeric(username, id.value)))
    else Ask(AskIdentity(EmailOf(username), if env then Some(EnvUserKey(username)) else None))
  }

  /** The plans only use keys whose texts tell them apart. */
  lemma PlansUseWellFormedKeys(s: string, provider: string, envUsers: set<string>)
    ensures var p := TokenPlan(s, provider); p.Ask? ==> p.question.AskFlag? && WellFormed(p.question.key) && !p.question.key.Env?
    ensures var q := ResolvePlan(s, envUsers).question;
            if q.AskFlag? then WellFormed(q.key) && !q.key.Env?
            else q.env.Some? ==> WellFormed(q.env.value) && q.env.value.Env? && q.env.value.email == q.email
  {
    LowerIdempotent(s);
  }

  // ----- Texts stand for keys -----

  /** User IDs are 64-bit. */
  ghost predicate IdsFit(db: Db) {
    forall e :: e in db.owner ==> MIN_INT64 <= db.owner[e] <= MAX_INT64
  }

  /** Requests use the keys of their plans, and the store keeps 64-bit IDs. */
  ghost predicate Plain(r: Run) {
    match r
    case Start(db, _) => IdsFit(db)
    case Then(before, t) =>
      && Plain(before)
      && (t.Begin? ==> WellFormed(t.key))
      && (t.BeginResolve? && t.env.Some? ==> WellFormed(t.env.value))
      && (t.Update? ==> IdsFit(t.db))
  }

  ghost predicate PcNamed(pc: Pc) {
    match pc
    case EnvSampled(_, k, _) => WellFormed(k)
    case Asking(_, env) => env.Some? ==> WellFormed(env.value)
    case Asked(_, env, o) => (env.Some? ==> WellFormed(env.value)) && IdsFit(o.db)
    case Done(q, _, _) => q.AskFlag? ==> WellFormed(q.key)
    case _ => WellFormed(pc.key)
  }

  ghost predicate Named(s: State) {
    && IdsFit(s.db)
    && (forall i :: i in s.calls ==> PcNamed(s.calls[i]))
    && (forall k :: k in s.entries ==> WellFormed(k))
    && (forall k :: k in s.flights ==> WellFormed(k))
  }

  lemma WritesNamed(pc: Pc)
    requires Reading(pc) && PcNamed(pc) && Writes(pc).Some?
    ensures WellFormed(Writes(pc).value.key)
  {
    if pc.Asked? && ByEmail(pc.origin.db, pc.email).Found? {
      MadeKeysWellFormed("", ByEmail(pc.origin.db, pc.email).id);
    }
  }

  lemma MoverNamed(c: Config, r: Run)
    requires r.Then? && Legal(c, r) && Plain(r) && Named(After(c, r.before)) && HasCall(r.step)
    ensures r.step.call in After(c, r).calls && PcNamed(After(c, r).calls[r.step.call])
  {
    assert r.step.call in After(c, r.before).calls ==> PcNamed(After(c, r.before).calls[r.step.call]);
  }

  lemma TablesNamed(c: Config, r: Run)
    requires r.Then? && Legal(c, r) && Plain(r) && Named(After(c, r.before))
    ensures IdsFit(After(c, r).db)
    ensures forall k :: k in After(c, r).entries ==> WellFormed(k)
    ensures forall k :: k in After(c, r).flights ==> WellFormed(k)
  {
    var s, t := After(c, r.before), r.step;
    if t.Publish? {
      assert PcNamed(s.calls[t.call]);
      if Writes(s.calls[t.call]).Some? { WritesNamed(s.calls[t.call]); }
    } else if t.Join? {
      assert PcNamed(s.calls[t.call]);
    }
  }

  lemma {:induction false} RunNamed(c: Config, r: Run)
    requires Legal(c, r) && Plain(r)
    ensures Named(After(c, r))
  {
    if r.Then? {
      RunNamed(c, r.before);
      TablesNamed(c, r);
      forall i | i in After(c, r).calls ensures PcNamed(After(c, r).calls[i]) {
        if HasCall(r.step) && i == r.step.call {
          MoverNamed(c, r);
        } else {
          OthersStay(c, After(c, r.before), r.step, i);
        }
      }
    }
  }

  /** In every run the texts the source uses as map keys stand for the structured keys: whatever is
      asked for, stored or in flight under one text is one key. */
  lemma TextsStandForKeys(c: Config, r: Run, k: Key, q: Key)
    requires Legal(c, r) && Plain(r) && WellFormed(k) && Render(k) == Render(q)
    requires q in After(c, r).entries || q in After(c, r).flights
    ensures k == q
  {
    RunNamed(c, r);
    RenderInjective(k, q);
  }

  // ----- The uncached reading of the three requests -----

  /** The flag of the users row with this ID; no row counts as inactive. */
  predicate RowActive(db: Db, id: int) { id in db.active && db.active[id] }

  /** The row that a lookup by email finds. */
  predicate HasRow(db: Db, e: Email) { e in db.owner && db.owner[e] in db.active }

  function UncachedForToken(db: Db, sub: string, provider: string): bool {
    if provider == "oidc" then HasRow(db, EmailOf(sub)) && RowActive(db, db.owner[EmailOf(sub)])
    else match ParseInt(sub)
      case None => true
      case Some(id) => RowActive(db, id)
  }

  datatype ApiKeyIdentity = ApiKeyIdentity(userID: int, isActive: bool)

  /** A numeric username is an ID unless it names an env user; otherwise a row with that email
      decides, and only without one is it the env user (always active) or an unknown owner. */
  function UncachedIdentity(db: Db, username: string, envUsers: set<string>): ApiKeyIdentity {
    if username !in envUsers && ParseInt(username).Some? then
      var id := ParseInt(username).value;
      ApiKeyIdentity(id, RowActive(db, id))
    else if HasRow(db, EmailOf(username)) then
      var id := db.owner[EmailOf(username)];
      ApiKeyIdentity(id, RowActive(db, id))
    else ApiKeyIdentity(0, username in envUsers)
  }

  /** An OIDC token's user is active exactly when the row stored under the email in small letters is,
      however the token spells it. */
  lemma TokenFindsRow(db: Db, sub: string, email: string)
    requires EqualButCase(sub, email) && NoCapitals(email)
    ensures UncachedForToken(db, sub, "oidc") <==>
            Email(email) in db.owner && db.owner[Email(email)] in db.active && db.active[db.owner[Email(email)]]
  {
    EmailsIgnoreCase(sub, email);
    SmallLettersAreKept(email);
  }

  lemma DigitsHaveNoCase(s: string, t: string)
    requires EqualButCase(s, t) && ParseInt(s).Some?
    ensures s == t
  {
    forall i | 0 <= i < |s| ensures s[i] == t[i] { ParsedChars(s, i); }
  }

  lemma ParsedChars(s: string, i: nat)
    requires ParseInt(s).Some? && i < |s|
    ensures IsDigit(s[i]) || s[i] == '-' || s[i] == '+'
  {
    var signed := s[0] == '-' || s[0] == '+';
    if signed && i > 0 { assert s[1..][i - 1] == s[i]; }
  }

  lemma NumbersIgnoreCase(s: string, t: string)
    requires EqualButCase(s, t)
    ensures ParseInt(s) == ParseInt(t)
  {
    if ParseInt(s).Some? {
      DigitsHaveNoCase(s, t);
    } else if ParseInt(t).Some? {
      DigitsHaveNoCase(t, s);
    }
  }

  /** Names that differ in case only get equal answers, for tokens of either kind and, unless one of
      them names an env user, for API keys. */
  lemma AnswersIgnoreCase(db: Db, s: string, t: string, provider: string, envUsers: set<string>)
    requires EqualButCase(s, t)
    ensures UncachedForToken(db, s, provider) == UncachedForToken(db, t, provider)
    ensures s !in envUsers && t !in envUsers ==> UncachedIdentity(db, s, envUsers) == UncachedIdentity(db, t, envUsers)
  {
    EmailsIgnoreCase(s, t);
    NumbersIgnoreCase(s, t);
  }

  function IdentityFrom(p: Plan, a: Answer): Option<ApiKeyIdentity> {
    match a
    case Active(flag) => if p.Ask? && p.question.AskFlag? && p.question.key.Numeric? then Some(ApiKeyIdentity(p.question.key.id, flag)) else None
    case Identity(id, active) => Some(ApiKeyIdentity(id, active))
    case Failed => None
  }

  // ----- A steady store -----

  /** No update, and no read fails. */
  ghost predicate Steady(r: Run, db: Db) {
    match r
    case Start(d, _) => d == db
    case Then(before, t) => Steady(before, db) && !t.Update? && (t.Read? ==> t.ok)
  }

  ghost predicate From(o: Origin, db: Db) { o.ok && o.db == db }

  ghost predicate AllFrom(s: State, db: Db) {
    && s.db == db
    && (forall i :: i in s.calls && PcOrigin(s.calls[i]).Some? ==> From(PcOrigin(s.calls[i]).value, db))
    && (forall k :: k in s.prov ==> From(s.prov[k].origin, db))
    && (forall i :: i in s.landed ==> From(s.landed[i].origin, db))
  }

  lemma CallsFrom(c: Config, s: State, t: Step, db: Db, i: nat)
    requires Proven(s) && AllFrom(s, db) && Enabled(c, s, t) && !t.Update? && (t.Read? ==> t.ok)
    requires var s' := Next(c, s, t); i in s'.calls && PcOrigin(s'.calls[i]).Some?
    ensures From(PcOrigin(Next(c, s, t).calls[i]).value, db)
  {
    if HasCall(t) && i == t.call {
      NewOrigins(c, s, t, i);
    } else {
      OthersStay(c, s, t, i);
    }
  }

  lemma TablesFrom(c: Config, s: State, t: Step, db: Db)
    requires AllFrom(s, db) && Enabled(c, s, t) && !t.Update?
    ensures var s' := Next(c, s, t);
            && s'.db == db
            && (forall k :: k in s'.prov ==> From(s'.prov[k].origin, db))
            && (forall i :: i in s'.landed ==> From(s'.landed[i].origin, db))
  {
    var s' := Next(c, s, t);
    forall k | k in s'.prov ensures From(s'.prov[k].origin, db) { ProvOrigin(c, s, t, k); }
    forall i | i in s'.landed ensures From(s'.landed[i].origin, db) { LandedOrigin(c, s, t, i); }
  }

  lemma {:induction false} SteadyOrigins(c: Config, r: Run, db: Db)
    requires Legal(c, r) && Steady(r, db)
    ensures AllFrom(After(c, r), db)
  {
    if r.Then? {
      SteadyOrigins(c, r.before, db);
      var s, t := After(c, r.before), r.step;
      TablesFrom(c, s, t, db);
      RunProven(c, r.before);
      forall i | i in After(c, r).calls && PcOrigin(After(c, r).calls[i]).Some?
        ensures From(PcOrigin(After(c, r).calls[i]).value, db)
      {
        CallsFrom(c, s, t, db, i);
      }
    }
  }

  /** Transparency: however entries hit, expire, are invalidated or evicted, and however calls share
      loads, each answer is the uncached one; and the map never outgrows its cap. */
  lemma CacheIsTransparent(c: Config, r: Run, db: Db, i: nat)
    requires c.maxEntries >= 0 && Legal(c, r) && Steady(r, db) && i in After(c, r).calls && After(c, r).calls[i].Done?
    ensures After(c, r).calls[i].answer == Direct(db, After(c, r).calls[i].question)
    ensures |After(c, r).entries| <= c.maxEntries
  {
    RunInv(c, r);
    SteadyOrigins(c, r, db);
    assert AnswerRight(c, After(c, r).calls[i]);
    assert PcOrigin(After(c, r).calls[i]).Some?;
  }

  /** The three requests, answered through the cache, are the uncached requests. */
  lemma RequestsAreUncached(c: Config, r: Run, db: Db, i: nat, s: string, provider: string, envUsers: set<string>)
    requires c.maxEntries >= 0 && Legal(c, r) && Steady(r, db) && i in After(c, r).calls && After(c, r).calls[i].Done?
    ensures TokenPlan(s, provider) == Outright(Active(true)) ==> UncachedForToken(db, s, provider)
    ensures TokenPlan(s, provider) == Ask(After(c, r).calls[i].question) ==>
              After(c, r).calls[i].answer == Active(UncachedForToken(db, s, provider))
    ensures ResolvePlan(s, envUsers) == Ask(After(c, r).calls[i].question) ==>
              IdentityFrom(ResolvePlan(s, envUsers), After(c, r).calls[i].answer) == Some(UncachedIdentity(db, s, envUsers))
  {
    CacheIsTransparent(c, r, db, i);
    TokenAnswered(db, s, provider);
    ResolveAnswered(db, s, envUsers);
  }

  lemma TokenAnswered(db: Db, s: string, provider: string)
    ensures var p := TokenPlan(s, provider);
            if p.Ask? then Direct(db, p.question) == Active(UncachedForToken(db, s, provider)) else UncachedForToken(db, s, provider)
  {
  }

  lemma ResolveAnswered(db: Db, s: string, envUsers: set<string>)
    ensures var p := ResolvePlan(s, envUsers);
            p.Ask? && IdentityFrom(p, Direct(db, p.question)) == Some(UncachedIdentity(db, s, envUsers))
  {
  }

  /** So names that differ in case only are answered alike through the cache too. */
  lemma CacheIgnoresCase(c: Config, r: Run, db: Db, i: nat, j: nat, s: string, t: string, provider: string, envUsers: set<string>)
    requires c.maxEntries >= 0 && Legal(c, r) && Steady(r, db) && EqualButCase(s, t)
    requires i in After(c, r).calls && After(c, r).calls[i].Done? && j in After(c, r).calls && After(c, r).calls[j].Done?
    ensures TokenPlan(s, provider) == Ask(After(c, r).calls[i].question) && TokenPlan(t, provider) == Ask(After(c, r).calls[j].question) ==>
              After(c, r).calls[i].answer == After(c, r).calls[j].answer
    ensures s !in envUsers && t !in envUsers && ResolvePlan(s, envUsers) == Ask(After(c, r).calls[i].question)
            && ResolvePlan(t, envUsers) == Ask(After(c, r).calls[j].question) ==>
              IdentityFrom(ResolvePlan(s, envUsers), After(c, r).calls[i].answer) ==
              IdentityFrom(ResolvePlan(t, envUsers), After(c, r).calls[j].answer)
  {
    RequestsAreUncached(c, r, db, i, s, provider, envUsers);
    RequestsAreUncached(c, r, db, j, t, provider, envUsers);
    AnswersIgnoreCase(db, s, t, provider, envUsers);
  }
}
