/** Exactly when an Invalidate of UserActiveCache can be followed by an old answer: a call that begins
    after it can still answer from an earlier read if and only if some load of the key is in
    progress when it runs. */
module CacheStaleReads {
  import opened Options
  import opened CacheKeys
  import opened CacheEntries
  import opened CacheProtocol
  import opened CacheStaleness
  import opened CacheInvalidation
  import opened CacheSteps

  /** q goes on from p. */
  predicate Extends(p: Run, q: Run) { p == q || (q.Then? && Extends(p, q.before)) }

  lemma {:induction false} ExtendsKeeps(c: Config, p: Run, q: Run, n: nat)
    requires Extends(p, q) && n <= Length(p)
    ensures Length(p) <= Length(q) && StateAt(c, q, n) == StateAt(c, p, n)
    ensures n < Length(p) ==> StepAt(q, n) == StepAt(p, n)
  {
    if p != q { ExtendsKeeps(c, p, q.before, n); }
  }

  lemma {:induction false} ExtendsAll(p: Run, q: Run, q': Run)
    requires Extends(p, q) && Extends(q, q')
    ensures Extends(p, q')
  {
    if q != q' { ExtendsAll(p, q, q'.before); }
  }

  /** In q, which goes on from r with Invalidate(k), call i begins after that and answers a question
      about k from a read made in r. */
  ghost predicate AnswersOld(c: Config, r: Run, k: Key, q: Run, i: nat) {
    && Legal(c, q) && Extends(Then(r, Step.Invalidate(k)), q)
    && i !in After(c, r).calls && i in After(c, q).calls
    && var pc := After(c, q).calls[i];
       pc.Done? && KeyAsked(pc.question) == Some(k) && OriginOf(pc.how).step < Length(r)
  }

  // ----- No load in progress, no old answer -----

  lemma OldAnswerNeedsLoad(c: Config, r: Run, k: Key, q: Run, i: nat)
    requires c.maxEntries >= 0 && AnswersOld(c, r, k, q, i)
    ensures LoadInProgress(After(c, r), k)
  {
    var r', v := Then(r, Step.Invalidate(k)), Length(r);
    ExtendsKeeps(c, r', q, v);
    ExtendsKeeps(c, r', q, v + 1);
    ExtendsKeeps(c, r, r', v);
    LegalPrefix(c, r', q);
    assert After(c, r').calls == After(c, r).calls;
    OldAnswersOnlyFromLoadsInProgress(c, q, i, v, k);
    var o := OriginOf(After(c, q).calls[i].how);
    assert Holding(After(c, r).calls[o.loader], o, k);
  }

  lemma {:induction false} LegalPrefix(c: Config, p: Run, q: Run)
    requires Legal(c, q) && Extends(p, q)
    ensures Legal(c, p)
  {
    if p != q { LegalPrefix(c, p, q.before); }
  }

  // ----- A load in progress, an old answer -----

  lemma {:induction false} Fresh(ids: set<nat>) returns (i: nat)
    ensures i !in ids && forall j :: j in ids ==> j < i
  {
    if ids == {} {
      i := 0;
    } else {
      var some :| some in ids;
      var above := Fresh(ids - {some});
      i := if some < above then above else some + 1;
      assert forall j :: j in ids ==> j == some || j in ids - {some};
    }
  }

  /** Whatever is to be stored, some victim fits. */
  lemma SomeVictim(c: Config, s: State, w: Option<Write>) returns (victim: Option<Key>)
    requires c.maxEntries >= 0
    ensures VictimFits(c, s, w, victim)
  {
    victim := None;
    if w.Some? && |Inserted(c, s, w.value)| > c.maxEntries {
      var v := OldestExists(Inserted(c, s, w.value));
      victim := Some(v);
    }
  }

  /** ... and for a key that is not cached, one that leaves its new entry alone: no entry expires
      later than that. */
  lemma OtherVictim(c: Config, s: State, w: Write) returns (victim: Option<Key>)
    requires c.maxEntries >= 1 && EntriesRight(c, s) && w.key !in s.entries
    ensures VictimFits(c, s, Some(w), victim) && victim != Some(w.key)
  {
    var inserted := Inserted(c, s, w);
    victim := None;
    if |inserted| > c.maxEntries {
      assert s.entries != map[] by { assert s.entries == map[] ==> inserted.Keys == {w.key}; }
      var v := OldestExists(s.entries);
      victim := Some(v);
      assert s.entries[v].expiresAt <= s.now + c.ttl by { assert EntryRight(c, s, v); }
      StillOldest(s.entries, w.key, Entry(w.isActive, s.now + c.ttl), v);
    }
  }

  lemma StillOldest(m: Entries, key: Key, e: Entry, v: Key)
    requires key !in m && Oldest(m, v) && m[v].expiresAt <= e.expiresAt
    ensures Oldest(m[key := e], v) && v != key
  {
  }

  /** An API-key resolution publishes after the Invalidate; the next call for k hits its entry. */
  lemma HitAfterInvalidate(c: Config, r: Run, k: Key, j: nat, o: Origin) returns (q: Run, i: nat)
    requires c.maxEntries >= 1 && c.ttl > 0 && Legal(c, r) && j in After(c, r).calls
    requires Holding(After(c, r).calls[j], o, k) && After(c, r).calls[j].Asked? && o.step < Length(r)
    ensures AnswersOld(c, r, k, q, i)
  {
    var r0 := Then(r, Step.Invalidate(k));
    DoInvalidate(c, r, k);
    i := Fresh(After(c, r0).calls.Keys);
    var r1 := PublishAfresh(c, r0, k, j, o);
    assert After(c, r1).calls.Keys == After(c, r0).calls.Keys;
    q := AskAndHit(c, r1, k, i);
    ExtendsAll(r0, r1, q);
  }

  /** A resolution about to publish under a key that is not cached: it can, and the entry stays. */
  lemma PublishAfresh(c: Config, r: Run, k: Key, j: nat, o: Origin) returns (q: Run)
    requires c.maxEntries >= 1 && Legal(c, r) && j in After(c, r).calls && k !in After(c, r).entries
    requires Holding(After(c, r).calls[j], o, k) && After(c, r).calls[j].Asked?
    ensures Legal(c, q) && Extends(r, q) && After(c, q).calls.Keys == After(c, r).calls.Keys
    ensures var s := After(c, q);
            k in s.entries && k in s.prov && s.entries[k].expiresAt == s.now + c.ttl && s.prov[k].origin == o
  {
    var s := After(c, r);
    var w := Writes(s.calls[j]).value;
    assert EntriesRight(c, s) by { RunInv(c, r); }
    var victim := OtherVictim(c, s, w);
    DoPublish(c, r, j, victim);
    q := Then(r, Publish(j, victim));
    assert Extends(r, q);
    assert Inserted(c, s, w)[k].expiresAt == s.now + c.ttl;
  }

  lemma AskAndHit(c: Config, r: Run, k: Key, i: nat) returns (q: Run)
    requires Legal(c, r) && i !in After(c, r).calls && k in After(c, r).entries && k in After(c, r).prov
    requires After(c, r).now < After(c, r).entries[k].expiresAt
    ensures Legal(c, q) && Extends(r, q) && i in After(c, q).calls
    ensures var pc := After(c, q).calls[i];
            pc.Done? && KeyAsked(pc.question) == Some(k) && OriginOf(pc.how) == After(c, r).prov[k].origin
  {
    var t := if k.Env? then BeginResolve(i, k.email, Some(k)) else Begin(i, k);
    if k.Env? { DoBeginResolve(c, r, i, k); } else { DoBegin(c, r, i, k); }
    var r1 := Then(r, t);
    q := Then(r1, Check(i));
    var s1 := After(c, r1);
    assert Hits(s1, s1.calls[i]).Some?;
    assert After(c, q).calls[i] == AfterCheck(s1, s1.calls[i]);
    assert Extends(r, r1);
  }

  /** A lookup's flight is still registered: the next call for k misses, joins it and is given what
      it read. */
  lemma JoinAfterInvalidate(c: Config, r: Run, k: Key, j: nat, o: Origin) returns (q: Run, i: nat)
    requires c.maxEntries >= 0 && Legal(c, r) && j in After(c, r).calls
    requires Holding(After(c, r).calls[j], o, k) && !After(c, r).calls[j].Asked? && o.step < Length(r)
    ensures AnswersOld(c, r, k, q, i)
  {
    var r0 := Then(r, Step.Invalidate(k));
    DoInvalidate(c, r, k);
    i := Fresh(After(c, r0).calls.Keys);
    LeaderRegistered(c, r0, k, j);
    var r3 := AskAndJoin(c, r0, k, j, i);
    var r4 := LeaderLands(c, r3, j, o, i);
    DoWake(c, r4, i);
    q := Then(r4, Wake(i));
    ExtendsAll(r0, r3, r4);
  }

  lemma LeaderRegistered(c: Config, r: Run, k: Key, j: nat)
    requires c.maxEntries >= 0 && Legal(c, r) && j in After(c, r).calls
    requires var pc := After(c, r).calls[j]; (pc.HasRead? || pc.Published? || pc.Signalled?) && pc.key == k
    ensures k in After(c, r).flights && After(c, r).flights[k] == j && !k.Env?
  {
    RunInv(c, r);
    assert Leads(After(c, r).calls[j]) && PcRight(After(c, r).calls[j]);
  }

  /** A new call for k, which is not cached, joins the flight that j leads. */
  lemma AskAndJoin(c: Config, r: Run, k: Key, j: nat, i: nat) returns (q: Run)
    requires Legal(c, r) && i !in After(c, r).calls && j in After(c, r).calls && !k.Env?
    requires k !in After(c, r).entries && k in After(c, r).flights && After(c, r).flights[k] == j
    ensures Legal(c, q) && Extends(r, q)
    ensures var s, s' := After(c, r), After(c, q);
            && i in s'.calls && s'.calls[i] == Waiting(k, j, s.now, s.step + 2)
            && j in s'.calls && s'.calls[j] == s.calls[j]
  {
    DoBegin(c, r, i, k);
    var r1 := Then(r, Begin(i, k));
    DoMiss(c, r1, i, k);
    var r2 := Then(r1, Check(i));
    DoJoin(c, r2, i, k);
    q := Then(r2, Join(i));
    assert Extends(r, r1) && Extends(r, r2);
  }

  /** The leader goes on until it has signalled. */
  lemma LeaderLands(c: Config, r: Run, j: nat, o: Origin, i: nat) returns (q: Run)
    requires c.maxEntries >= 0 && Legal(c, r) && j in After(c, r).calls && i in After(c, r).calls && i != j
    requires var pc := After(c, r).calls[j]; (pc.HasRead? || pc.Published? || pc.Signalled?) && PcOrigin(pc) == Some(o)
    ensures Legal(c, q) && Extends(r, q) && i in After(c, q).calls && After(c, q).calls[i] == After(c, r).calls[i]
    ensures j in After(c, q).landed && After(c, q).landed[j].origin == o
  {
    var pc := After(c, r).calls[j];
    q := r;
    if pc.HasRead? {
      var victim := SomeVictim(c, After(c, r), Writes(pc));
      DoPublish(c, r, j, victim);
      q := Then(r, Publish(j, victim));
      assert Extends(r, q);
    }
    if pc.Signalled? {
      assert Signals(After(c, r)) by { RunInv(c, r); }
    } else {
      DoSignal(c, q, j);
      q := Then(q, Signal(j));
    }
  }

  // ----- The theorem -----

  /** From any reachable state: a call that begins after Invalidate(k) can answer from an earlier read
      if and only if some load of k is in progress when it runs. */
  lemma OldAnswerPossibleIff(c: Config, r: Run, k: Key)
    requires c.maxEntries >= 1 && c.ttl > 0 && Legal(c, r)
    ensures LoadInProgress(After(c, r), k) <==> exists q, i :: AnswersOld(c, r, k, q, i)
  {
    if LoadInProgress(After(c, r), k) {
      var j, o :| j in After(c, r).calls && Holding(After(c, r).calls[j], o, k);
      assert Real(c, r, o) by { OriginsReal(c, r); }
      if After(c, r).calls[j].Asked? {
        var q, i := HitAfterInvalidate(c, r, k, j, o);
      } else {
        var q, i := JoinAfterInvalidate(c, r, k, j, o);
      }
    }
    forall q, i | AnswersOld(c, r, k, q, i) ensures LoadInProgress(After(c, r), k) {
      OldAnswerNeedsLoad(c, r, k, q, i);
    }
  }
}
