/** The shared object of api/internal/middleware/user_active_cache.go, one method per critical
    section, each proved to take the object from one state of CacheProtocol to the next. */
module UserActiveCache {
  import opened Options
  import opened CacheKeys
  import opened CacheEntries
  import opened CacheProtocol

  /** The record a flight's leader shares with its waiters; no value stands for an error. */
  datatype SfCall = SfCall(value: Option<bool>, done: bool)

  function AnswerOf(value: Option<bool>): Answer { if value.Some? then Active(value.value) else Failed }

  /** The object's maps. Records are named after the call that leads the flight. */
  datatype Shared = Shared(entries: Entries, flights: map<Key, nat>, records: map<nat, SfCall>)

  /** The record of flight l holds what its load came to. */
  ghost predicate RecordRight(o: Shared, s: State, l: nat)
    requires l in s.landed
  {
    && l in o.records && o.records[l].done && l in s.calls
    && forall k :: LedFor(s.calls[l], k) ==> AnswerOf(o.records[l].value) == AnswerFrom(s.landed[l].origin, AskFlag(k))
  }

  predicate Loads(pc: Pc) { pc.Leading? || pc.HasRead? || pc.Published? }

  /** The object holds exactly the protocol's shared state: its entries, its flights, and a record
      per flight that is done once the flight has landed. */
  ghost predicate Shows(o: Shared, s: State) {
    && o.entries == s.entries && o.flights == s.flights
    && (forall i :: i in s.calls && Loads(s.calls[i]) ==> i in o.records && !o.records[i].done)
    && (forall l :: l in s.landed ==> RecordRight(o, s, l))
  }

  // ----- Each step, on values -----

  /** A step that touches neither records nor landed flights. */
  lemma RecordsStay(c: Config, o: Shared, o': Shared, s: State, t: Step)
    requires Shows(o, s) && Signals(s) && Enabled(c, s, t) && o'.records == o.records
    requires !t.Signal? && !(t.Join? && Next(c, s, t).calls[t.call].Leading?)
    requires o'.entries == Next(c, s, t).entries && o'.flights == Next(c, s, t).flights
    ensures Shows(o', Next(c, s, t))
  {
    var s' := Next(c, s, t);
    forall i | i in s'.calls && Loads(s'.calls[i]) ensures i in o'.records && !o'.records[i].done {
      if !HasCall(t) || i != t.call { OthersStay(c, s, t, i); } else { MoverLoads(c, s, t); }
    }
    forall l | l in s'.landed ensures RecordRight(o', s', l) {
      LandedSame(c, s, t, l);
      assert RecordRight(o, s, l);
      if !HasCall(t) || l != t.call { OthersStay(c, s, t, l); } else { MoverLanded(c, s, t); }
    }
  }

  /** Who loads after a step that leads no new flight was loading before. */
  lemma MoverLoads(c: Config, s: State, t: Step)
    requires Enabled(c, s, t) && HasCall(t) && t.call in Next(c, s, t).calls && Loads(Next(c, s, t).calls[t.call])
    requires !(t.Join? && Next(c, s, t).calls[t.call].Leading?)
    ensures t.call in s.calls && Loads(s.calls[t.call])
  {
    assert t.Read? || t.Publish?;
  }

  lemma LandedSame(c: Config, s: State, t: Step, l: nat)
    requires Enabled(c, s, t) && !t.Signal?
    ensures Next(c, s, t).landed == s.landed
  {
  }

  /** The only step of a landed leader is to drop its flight. */
  lemma MoverLanded(c: Config, s: State, t: Step)
    requires Signals(s) && Enabled(c, s, t) && HasCall(t) && !t.Signal? && t.call in s.landed
    ensures t.call in s.calls && t.call in Next(c, s, t).calls
    ensures forall k :: LedFor(Next(c, s, t).calls[t.call], k) ==> LedFor(s.calls[t.call], k)
  {
    assert HasLanded(s.calls[t.call], s.landed[t.call]);
    assert t.Drop?;
  }

  /** The steps that are no method of the object leave it as it is: a request begins and samples the
      clock, the store is read or changes, time passes. */
  lemma OtherStepsShow(c: Config, o: Shared, s: State, t: Step)
    requires Shows(o, s) && Signals(s) && Enabled(c, s, t)
    requires t.Begin? || t.BeginResolve? || t.Read? || t.Update? || t.Tick?
    ensures Shows(o, Next(c, s, t))
  {
    RecordsStay(c, o, o, s, t);
  }

  lemma LeadShows(c: Config, o: Shared, s: State, me: nat)
    requires Shows(o, s) && Signals(s) && Enabled(c, s, Join(me)) && s.calls[me].key !in s.flights
    ensures Shows(o.(flights := o.flights[s.calls[me].key := me], records := o.records[me := SfCall(None, false)]), Next(c, s, Join(me)))
  {
    var k, s' := s.calls[me].key, Next(c, s, Join(me));
    var o' := o.(flights := o.flights[k := me], records := o.records[me := SfCall(None, false)]);
    assert s'.calls == s.calls[me := Leading(k)] && s'.landed == s.landed;
    forall l | l in s'.landed ensures RecordRight(o', s', l) {
      assert RecordRight(o, s, l) && HasLanded(s.calls[l], s.landed[l]);
    }
  }

  lemma SignalShows(c: Config, o: Shared, s: State, me: nat, value: Option<bool>)
    requires Shows(o, s) && Signals(s) && Enabled(c, s, Signal(me))
    requires AnswerOf(value) == AnswerFrom(s.calls[me].origin, AskFlag(s.calls[me].key))
    ensures Shows(o.(records := o.records[me := SfCall(value, true)]), Next(c, s, Signal(me)))
  {
    var s', o' := Next(c, s, Signal(me)), o.(records := o.records[me := SfCall(value, true)]);
    var l := Landed(s.calls[me].origin, s.calls[me].publishedAt, s.now);
    assert s'.calls == s.calls[me := Signalled(s.calls[me].key, l)] && s'.landed == s.landed[me := l];
    forall l | l in s'.landed ensures RecordRight(o', s', l) {
      if l != me { assert RecordRight(o, s, l); }
    }
  }

  /** What storeEntry, or leaving the map alone, makes of the entries when call `me` publishes. */
  ghost predicate Stores(c: Config, m: Entries, now: int, w: Option<Write>, victim: Option<Key>, m': Entries) {
    if w.None? then victim.None? && m' == m
    else StoredWith(m, w.value.key, Entry(w.value.isActive, now + c.ttl), c.maxEntries, victim, m')
  }

  lemma CapNonNegative(c: Config, s: State)
    requires Inv(c, s)
    ensures c.maxEntries >= 0
  {
  }

  lemma PublishEnabled(c: Config, s: State, me: nat, victim: Option<Key>, entries: Entries)
    requires me in s.calls && Reading(s.calls[me]) && Stores(c, s.entries, s.now, Writes(s.calls[me]), victim, entries)
    ensures Enabled(c, s, Publish(me, victim)) && Next(c, s, Publish(me, victim)).entries == entries
    ensures Next(c, s, Publish(me, victim)).flights == s.flights
  {
    var w := Writes(s.calls[me]);
    StoresAre(c, s, w, victim, entries);
    assert VictimFits(c, s, w, victim);
  }

  lemma StoresAre(c: Config, s: State, w: Option<Write>, victim: Option<Key>, entries: Entries)
    requires Stores(c, s.entries, s.now, w, victim, entries)
    ensures EntriesAfter(c, s, w, victim) == entries && VictimFits(c, s, w, victim)
  {
  }

  lemma PublishShows(c: Config, o: Shared, s: State, me: nat, victim: Option<Key>, entries: Entries)
    requires Shows(o, s) && Inv(c, s) && me in s.calls && Reading(s.calls[me])
    requires Stores(c, s.entries, s.now, Writes(s.calls[me]), victim, entries)
    ensures var t := Publish(me, victim);
            Enabled(c, s, t) && Inv(c, Next(c, s, t)) && Shows(Shared(entries, o.flights, o.records), Next(c, s, t))
  {
    PublishEnabled(c, s, me, victim, entries);
    InvStep(c, s, Publish(me, victim));
    RecordsStay(c, o, Shared(entries, o.flights, o.records), s, Publish(me, victim));
  }

  /** What the store said to the load that read at `o`; None is an error other than not found. */
  function Fetched(o: Origin, k: Key): Option<Outcome> { if o.ok then Some(Fetch(o.db, k)) else None }

  function FetchedByEmail(o: Origin, e: Email): Option<Outcome> { if o.ok then Some(ByEmail(o.db, e)) else None }

  /** The call resolves this username, as an env user's if it is one. */
  predicate ResolvesFor(pc: Pc, username: string, envUsers: set<string>)
    requires pc.Asked?
  {
    pc.email == EmailOf(username) && pc.env' == if username in envUsers then Some(EnvUserKey(username)) else None
  }

  // ----- The object -----

  class UserActiveCache {
    const ttl: int
    const maxEntries: int
    const envUsers: set<string>
    var entries: Entries
    var flights: map<Key, nat>
    var records: map<nat, SfCall>

    function Cfg(): Config { Config(ttl, maxEntries) }

    ghost function View(): Shared
      reads this
    {
      Shared(entries, flights, records)
    }

    /** The object stands where the protocol stands after some run. */
    ghost predicate Reached(s: State)
      reads this
    {
      Shows(View(), s) && Inv(Cfg(), s)
    }

    /** ttl and cap fall back to 2 s (in nanoseconds) and 10,000; empty env-user names are ignored. */
    constructor (ttl: int, maxEntries: int, names: seq<string>, db: Db, now: int)
      ensures this.ttl == (if ttl <= 0 then 2_000_000_000 else ttl)
      ensures this.maxEntries == (if maxEntries <= 0 then 10000 else maxEntries)
      ensures envUsers == set n | n in names && n != ""
      ensures Reached(After(Cfg(), Run.Start(db, now)))
    {
      this.ttl := if ttl <= 0 then 2_000_000_000 else ttl;
      this.maxEntries := if maxEntries <= 0 then 10000 else maxEntries;
      envUsers := set n | n in names && n != "";
      entries, flights, records := map[], map[], map[];
    }

    /** The cache read of call `me`, which sampled the clock at `now`. */
    method Cached(key: Key, now: int, ghost s: State, ghost me: nat) returns (r: Option<bool>)
      requires Reached(s) && Enabled(Cfg(), s, Check(me)) && CheckKey(s.calls[me]) == key && s.calls[me].at == now
      ensures r == CachedAt(entries, key, now)
      ensures Reached(Next(Cfg(), s, Check(me)))
      ensures var pc := Next(Cfg(), s, Check(me)).calls[me];
              && (r.Some? <==> pc.Done?)
              && (r.Some? ==> pc.answer == if key.Env? then Identity(0, true) else Active(r.value))
    {
      InvStep(Cfg(), s, Check(me));
      RecordsStay(Cfg(), View(), View(), s, Check(me));
      assert PcRight(s.calls[me]);
      if key !in entries || !(now < entries[key].expiresAt) {
        return None;
      }
      return Some(entries[key].isActive);
    }

    /** Joins the flight of the key, or registers one and leads it. */
    method JoinOrLead(key: Key, me: nat, ghost s: State) returns (call: nat, leads: bool)
      requires Reached(s) && me in s.calls && s.calls[me] == Missed(key)
      modifies this`flights, this`records
      ensures Reached(Next(Cfg(), s, Join(me)))
      ensures Next(Cfg(), s, Join(me)).calls[me] == if leads then Leading(key) else Waiting(key, call, s.now, s.step)
    {
      InvStep(Cfg(), s, Join(me));
      if key in flights {
        RecordsStay(Cfg(), View(), View(), s, Join(me));
        return flights[key], false;
      }
      LeadShows(Cfg(), View(), s, me);
      records := records[me := SfCall(None, false)];
      flights := flights[key := me];
      return me, true;
    }

    /** Inserts or replaces, and past the cap drops one oldest entry. */
    method StoreEntry(key: Key, isActive: bool, now: int) returns (victim: Option<Key>)
      requires maxEntries >= 0
      modifies this`entries
      ensures StoredWith(old(entries), key, Entry(isActive, now + ttl), maxEntries, victim, entries)
      ensures old(|entries|) <= maxEntries ==> |entries| <= maxEntries
    {
      victim := None;
      entries := entries[key := Entry(isActive, now + ttl)];
      if |entries| > maxEntries {
        var oldestKey := ScanOldest();
        victim := Some(oldestKey);
        entries := entries - {oldestKey};
      }
      if old(|entries|) <= maxEntries {
        StoredKeepsCap(old(entries), key, Entry(isActive, now + ttl), maxEntries, victim, entries);
      }
    }

    /** The eviction scan, in the map's iteration order. */
    method ScanOldest() returns (oldestKey: Key)
      requires entries != map[]
      ensures Oldest(entries, oldestKey)
    {
      var pending := entries.Keys;
      var first := true;
      oldestKey :| oldestKey in entries;
      var oldestAt := 0;
      while pending != {}
        invariant pending <= entries.Keys
        invariant first ==> pending == entries.Keys
        invariant !first ==> oldestKey in entries && oldestAt == entries[oldestKey].expiresAt
        invariant !first ==> forall k :: k in entries && k !in pending ==> oldestAt <= entries[k].expiresAt
        decreases pending
      {
        var k :| k in pending;
        if first || entries[k].expiresAt < oldestAt {
          oldestKey, oldestAt, first := k, entries[k].expiresAt, false;
        }
        pending := pending - {k};
      }
    }

    method StoreIfAny(w: Option<Write>, now: int) returns (victim: Option<Key>)
      requires maxEntries >= 0
      modifies this`entries
      ensures Stores(Cfg(), old(entries), now, w, victim, entries)
    {
      victim := None;
      if w.Some? {
        victim := StoreEntry(w.value.key, w.value.isActive, now);
      }
    }

    /** The publication of call `me`: what its load stores, if anything. */
    method Publish(w: Option<Write>, now: int, ghost s: State, ghost me: nat) returns (victim: Option<Key>)
      requires Reached(s) && me in s.calls && Reading(s.calls[me]) && Writes(s.calls[me]) == w && now == s.now
      modifies this`entries
      ensures Enabled(Cfg(), s, Step.Publish(me, victim)) && Reached(Next(Cfg(), s, Step.Publish(me, victim)))
    {
      CapNonNegative(Cfg(), s);
      victim := StoreIfAny(w, now);
      PublishShows(Cfg(), old(View()), s, me, victim, entries);
    }

    /** A leader's load, once the store has answered: an unknown user is cached as inactive, an error
        is passed on and stores nothing. */
    method Load(key: Key, fetched: Option<Outcome>, now: int, ghost s: State, ghost me: nat)
      returns (value: Option<bool>, victim: Option<Key>)
      requires Reached(s) && me in s.calls && s.calls[me].HasRead? && s.calls[me].key == key && now == s.now
      requires fetched == Fetched(s.calls[me].origin, key)
      modifies this`entries
      ensures AnswerOf(value) == AnswerFrom(s.calls[me].origin, AskFlag(key))
      ensures Enabled(Cfg(), s, Step.Publish(me, victim)) && Reached(Next(Cfg(), s, Step.Publish(me, victim)))
    {
      value := if fetched.None? then None else if fetched.value.NotFound? then Some(false) else Some(fetched.value.active);
      victim := Publish(if value.None? then None else Some(Write(key, value.value)), now, s, me);
    }

    /** An API-key resolution, once the store has answered: a row is cached under its ID, an env user
        without one under its name, an unknown owner not at all. */
    method FinishResolve(username: string, fetched: Option<Outcome>, now: int, ghost s: State, ghost me: nat)
      returns (identity: Answer, victim: Option<Key>)
      requires Reached(s) && me in s.calls && now == s.now
      requires s.calls[me].Asked? && ResolvesFor(s.calls[me], username, envUsers) && fetched == FetchedByEmail(s.calls[me].origin, EmailOf(username))
      modifies this`entries
      ensures Enabled(Cfg(), s, Step.Publish(me, victim)) && Reached(Next(Cfg(), s, Step.Publish(me, victim)))
      ensures identity == AnswerFrom(s.calls[me].origin, QuestionOf(s.calls[me]))
    {
      var stored: Option<Write> := None;
      identity := Failed;
      if fetched.Some? && fetched.value.NotFound? {
        identity := Identity(0, false);
        if username in envUsers {
          stored := Some(Write(EnvUserKey(username), true));
          identity := Identity(0, true);
        }
      } else if fetched.Some? {
        stored := Some(Write(IdKey(fetched.value.id), fetched.value.active));
        identity := Identity(fetched.value.id, fetched.value.active);
      }
      victim := Publish(stored, now, s, me);
    }

    /** The leader fills in the shared record and releases the waiters. */
    method Signal(me: nat, value: Option<bool>, ghost s: State)
      requires Reached(s) && Enabled(Cfg(), s, Step.Signal(me))
      requires AnswerOf(value) == AnswerFrom(s.calls[me].origin, AskFlag(s.calls[me].key))
      modifies this`records
      ensures Reached(Next(Cfg(), s, Step.Signal(me)))
    {
      InvStep(Cfg(), s, Step.Signal(me));
      SignalShows(Cfg(), View(), s, me, value);
      records := records[me := SfCall(value, true)];
    }

    /** A waiter that has been released reads the leader's record. */
    method Await(call: nat, me: nat, ghost s: State) returns (value: Option<bool>)
      requires Reached(s) && Enabled(Cfg(), s, Wake(me)) && s.calls[me].leader == call
      ensures Reached(Next(Cfg(), s, Wake(me)))
      ensures Next(Cfg(), s, Wake(me)).calls[me].answer == AnswerOf(value)
    {
      InvStep(Cfg(), s, Wake(me));
      RecordsStay(Cfg(), View(), View(), s, Wake(me));
      assert ShareRight(s, s.calls[me]) && RecordRight(View(), s, call);
      value := records[call].value;
    }

    method DropFlight(key: Key, ghost s: State, ghost me: nat)
      requires Reached(s) && Enabled(Cfg(), s, Drop(me)) && s.calls[me].key == key
      modifies this`flights
      ensures Reached(Next(Cfg(), s, Drop(me)))
    {
      InvStep(Cfg(), s, Drop(me));
      flights := flights - {key};
      RecordsStay(Cfg(), old(View()), View(), s, Drop(me));
    }

    method Invalidate(key: Key, ghost s: State)
      requires Reached(s)
      modifies this`entries
      ensures Reached(Next(Cfg(), s, Step.Invalidate(key)))
    {
      InvStep(Cfg(), s, Step.Invalidate(key));
      entries := entries - {key};
      RecordsStay(Cfg(), old(View()), View(), s, Step.Invalidate(key));
    }
  }
}
