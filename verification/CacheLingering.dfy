/** What a lingering flight of UserActiveCache hands out. A leader publishes, signals its waiters and
    drops its flight in three separate steps; a lookup that arrives in between, after the entry is
    gone, is given the old answer, however long ago it was read. */
module CacheLingering {
  import opened Options
  import opened CacheKeys
  import opened CacheEntries
  import opened CacheProtocol
  import opened CacheStaleness
  import opened CacheSteps

  // ----- A first lookup -----

  function FirstRead(db: Db): Origin { Origin(3, 0, db, true, 0) }

  function FirstLanded(db: Db): Landed { Landed(FirstRead(db), 0, 0) }

  lemma FirstMiss(c: Config, k: Key, db: Db) returns (r: Run)
    requires !k.Env?
    ensures Legal(c, r) && After(c, r) == State(0, 2, db, map[], map[], map[], map[], map[0 := Missed(k)])
  {
    var r0 := Run.Start(db, 0);
    var s1 := State(0, 1, db, map[], map[], map[], map[], map[0 := Sampled(k, 0)]);
    Extend(c, r0, Begin(0, k), s1);
    var r1 := Then(r0, Begin(0, k));
    Extend(c, r1, Check(0), s1.(step := 2, calls := map[0 := Missed(k)]));
    r := Then(r1, Check(0));
  }

  lemma FirstLookup(c: Config, k: Key, db: Db) returns (r: Run)
    requires !k.Env?
    ensures Legal(c, r)
    ensures After(c, r) == State(0, 4, db, map[], map[], map[k := 0], map[], map[0 := HasRead(k, FirstRead(db))])
  {
    var r2 := FirstMiss(c, k, db);
    var s3 := State(0, 3, db, map[], map[], map[k := 0], map[], map[0 := Leading(k)]);
    Extend(c, r2, Join(0), s3);
    var r3 := Then(r2, Join(0));
    Extend(c, r3, Read(0, true), s3.(step := 4, calls := map[0 := HasRead(k, FirstRead(db))]));
    r := Then(r3, Read(0, true));
  }

  /** A first lookup, begun, read and published at instant 0. */
  function OncePublished(c: Config, k: Key, db: Db): State {
    State(0, 5, db, map[k := Entry(Flag(Fetch(db, k)), c.ttl)], map[k := Prov(FirstRead(db), 0, 4)],
          map[k := 0], map[], map[0 := Published(k, FirstRead(db), 0)])
  }

  lemma FirstPublished(c: Config, k: Key, db: Db) returns (r: Run)
    requires c.maxEntries >= 1 && !k.Env?
    ensures Legal(c, r) && After(c, r) == OncePublished(c, k, db)
  {
    var r4 := FirstLookup(c, k, db);
    var s4 := After(c, r4);
    var e := map[k := Entry(Flag(Fetch(db, k)), c.ttl)];
    assert Writes(s4.calls[0]) == Some(Write(k, Flag(Fetch(db, k))));
    assert EntriesAfter(c, s4, Writes(s4.calls[0]), None) == e;
    assert |e| == 1;
    Extend(c, r4, Publish(0, None), OncePublished(c, k, db));
    r := Then(r4, Publish(0, None));
  }

  /** ... and signalled at once, but not dropped. */
  function OnceSignalled(c: Config, k: Key, db: Db): State {
    OncePublished(c, k, db).(step := 6, landed := map[0 := FirstLanded(db)], calls := map[0 := Signalled(k, FirstLanded(db))])
  }

  lemma FirstSignalled(c: Config, k: Key, db: Db) returns (r: Run)
    requires c.maxEntries >= 1 && !k.Env?
    ensures Legal(c, r) && After(c, r) == OnceSignalled(c, k, db)
  {
    var r5 := FirstPublished(c, k, db);
    Extend(c, r5, Signal(0), OnceSignalled(c, k, db));
    r := Then(r5, Signal(0));
  }

  // ----- Overtaken by an update -----

  /** The row changes, its key is invalidated, and `gap` passes before a second lookup begins. */
  function Overtaken(r: Run, k: Key, db': Db, gap: int): Run {
    Then(Then(Then(r, Update(db')), Step.Invalidate(k)), Tick(gap))
  }

  /** The second lookup finds no entry, but the flight. */
  function SecondJoins(r: Run, k: Key): Run {
    Then(Then(Then(r, Begin(1, k)), Check(1)), Join(1))
  }

  lemma ReachOvertaken(c: Config, r: Run, k: Key, db': Db, gap: int)
    requires Legal(c, r) && After(c, r).now == 0 && After(c, r).entries.Keys == {k} && gap >= 0
    ensures Legal(c, Overtaken(r, k, db', gap))
    ensures var s := After(c, r); After(c, Overtaken(r, k, db', gap)) == s.(step := s.step + 3, db := db', entries := map[], now := gap)
  {
    var r1 := Then(r, Update(db'));
    DoUpdate(c, r, db');
    DoInvalidate(c, r1, k);
    assert After(c, r).entries - {k} == map[];
    DoTick(c, Then(r1, Step.Invalidate(k)), gap);
  }

  /** The second lookup waits for call 0, whatever stage that has reached. */
  lemma ReachSecondJoins(c: Config, r: Run, k: Key)
    requires Legal(c, r) && 1 !in After(c, r).calls && 0 in After(c, r).calls && !k.Env?
    requires k !in After(c, r).entries && k in After(c, r).flights && After(c, r).flights[k] == 0
    ensures Legal(c, SecondJoins(r, k)) && Legal(c, SecondJoins(r, k).before)
    ensures var s, s' := After(c, r), After(c, SecondJoins(r, k));
            && s'.now == s.now && s'.db == s.db && s'.landed == s.landed
            && 0 in s'.calls && s'.calls[0] == s.calls[0]
            && 1 in s'.calls && s'.calls[1] == Waiting(k, 0, s.now, s.step + 2)
    ensures var s := After(c, SecondJoins(r, k).before); 0 in s.calls && s.calls[0] == After(c, r).calls[0]
  {
    DoBegin(c, r, 1, k);
    var r1 := Then(r, Begin(1, k));
    DoMiss(c, r1, 1, k);
    DoJoin(c, Then(r1, Check(1)), 1, k);
  }

  /** What the two runs below have in common: call 1 began after the table changed to db' and k was
      invalidated, at step v, and answers from a read of db that is `gap` old. */
  ghost predicate OvertakenAnswer(c: Config, r: Run, v: nat, k: Key, db: Db, db': Db, gap: int) {
    && Legal(c, r) && 0 < v < Length(r)
    && StepAt(r, v - 1) == Update(db') && StepAt(r, v) == Step.Invalidate(k) && 1 !in StateAt(c, r, v + 1).calls
    && 1 in After(c, r).calls && After(c, r).db == db'
    && var pc := After(c, r).calls[1];
       && pc.Done? && pc.how.Joined? && pc.question == AskFlag(k) && pc.answer == Direct(db, AskFlag(k))
       && pc.how.landed.origin.db == db && pc.how.landed.publishedAt == pc.how.landed.origin.at
       && pc.how.at - pc.how.landed.origin.at == gap
       && pc.how.step < Length(r)
  }

  lemma StepEarlier(c: Config, r: Run, t: Step, n: nat)
    requires n < Length(r)
    ensures StepAt(Then(r, t), n) == StepAt(r, n) && StateAt(c, Then(r, t), n) == StateAt(c, r, n)
  {
  }

  /** The steps of such a run, wherever it goes on. */
  lemma OvertakenSteps(c: Config, r: Run, k: Key, db': Db, gap: int) returns (v: nat)
    ensures var q := SecondJoins(Overtaken(r, k, db', gap), k);
            && v == Length(r) + 1 && Length(q) == v + 5
            && StepAt(q, v - 1) == Update(db') && StepAt(q, v) == Step.Invalidate(k)
            && StateAt(c, q, v + 1) == After(c, Then(Then(r, Update(db')), Step.Invalidate(k)))
            && StateAt(c, q, v + 4) == After(c, q.before)
  {
    v := Length(r) + 1;
    var q2 := Then(Then(r, Update(db')), Step.Invalidate(k));
    assert StepAt(q2, v) == Step.Invalidate(k) && StepAt(q2, v - 1) == Update(db');
    var q3 := Then(q2, Tick(gap));
    StepEarlier(c, q2, Tick(gap), v);
    StepEarlier(c, q2, Tick(gap), v - 1);
    assert StateAt(c, q3, v + 1) == After(c, q2);
    var q4 := Then(q3, Begin(1, k));
    StepsBack(c, q3, Begin(1, k), v);
    var q5 := Then(q4, Check(1));
    StepsBack(c, q4, Check(1), v);
    StepsBack(c, q5, Join(1), v);
  }

  lemma StepsBack(c: Config, r: Run, t: Step, v: nat)
    requires 0 < v && v + 1 < Length(r)
    ensures StepAt(Then(r, t), v) == StepAt(r, v) && StepAt(Then(r, t), v - 1) == StepAt(r, v - 1)
    ensures StateAt(c, Then(r, t), v + 1) == StateAt(c, r, v + 1)
  {
    StepEarlier(c, r, t, v);
    StepEarlier(c, r, t, v - 1);
    StepEarlier(c, r, t, v + 1);
  }

  /** Once the flight has landed, the second lookup answers from it. */
  lemma WakeOvertaken(c: Config, k: Key, db: Db, db': Db, gap: int, q: Run, v: nat)
    requires Legal(c, q) && 0 < v && v + 4 < Length(q)
    requires StepAt(q, v - 1) == Update(db') && StepAt(q, v) == Step.Invalidate(k) && 1 !in StateAt(c, q, v + 1).calls
    requires After(c, q).db == db' && 1 in After(c, q).calls && After(c, q).calls[1] == Waiting(k, 0, gap, v + 4)
    requires 0 in After(c, q).landed
    requires var l := After(c, q).landed[0]; l.origin == FirstRead(db) && l.publishedAt == 0
    ensures OvertakenAnswer(c, Then(q, Wake(1)), v, k, db, db', gap)
    ensures After(c, Then(q, Wake(1))).calls[1].how.step == v + 4 && StateAt(c, Then(q, Wake(1)), v + 4) == StateAt(c, q, v + 4)
  {
    DoWake(c, q, 1);
    StepsBack(c, q, Wake(1), v);
    StepEarlier(c, q, Wake(1), v + 4);
  }

  /** The first gap: a leader that has published but not signalled. For every gap there is a run in
      which a lookup begun after an update and its Invalidate answers from a read `gap` old,
      although that load took no time to publish. */
  lemma UnsignalledFlightIsUnbounded(c: Config, k: Key, db: Db, db': Db, gap: int) returns (r: Run, v: nat)
    requires c.maxEntries >= 1 && !k.Env? && gap >= 0
    ensures OvertakenAnswer(c, r, v, k, db, db', gap)
    ensures var s := StateAt(c, r, After(c, r).calls[1].how.step); 0 in s.calls && s.calls[0].Published?
  {
    var first := FirstPublished(c, k, db);
    StepsCounted(c, first);
    ReachOvertaken(c, first, k, db', gap);
    ReachSecondJoins(c, Overtaken(first, k, db', gap), k);
    NotYetBegun(c, first, k, db');
    v := OvertakenSteps(c, first, k, db', gap);
    var q := SecondJoins(Overtaken(first, k, db', gap), k);
    DoSignal(c, q, 0);
    StepsBack(c, q, Signal(0), v);
    StepEarlier(c, q, Signal(0), v + 4);
    WakeOvertaken(c, k, db, db', gap, Then(q, Signal(0)), v);
    r := Then(Then(q, Signal(0)), Wake(1));
  }

  lemma NotYetBegun(c: Config, r: Run, k: Key, db': Db)
    requires 1 !in After(c, r).calls
    ensures 1 !in After(c, Then(Then(r, Update(db')), Step.Invalidate(k))).calls
  {
    assert After(c, Then(r, Update(db'))).calls == After(c, r).calls;
  }

  /** The second gap: a leader that has signalled but not dropped its flight. */
  lemma UndroppedFlightIsUnbounded(c: Config, k: Key, db: Db, db': Db, gap: int) returns (r: Run, v: nat)
    requires c.maxEntries >= 1 && !k.Env? && gap >= 0
    ensures OvertakenAnswer(c, r, v, k, db, db', gap)
    ensures var s := StateAt(c, r, After(c, r).calls[1].how.step); 0 in s.calls && s.calls[0].Signalled?
  {
    var first := FirstSignalled(c, k, db);
    StepsCounted(c, first);
    ReachOvertaken(c, first, k, db', gap);
    ReachSecondJoins(c, Overtaken(first, k, db', gap), k);
    NotYetBegun(c, first, k, db');
    v := OvertakenSteps(c, first, k, db', gap);
    var q := SecondJoins(Overtaken(first, k, db', gap), k);
    WakeOvertaken(c, k, db, db', gap, q, v);
    r := Then(q, Wake(1));
  }
}
