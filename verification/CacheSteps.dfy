/** Single steps of CacheProtocol as they are used to build runs: when a step can be taken, and the
    state it leads to. */
module CacheSteps {
  import opened Options
  import opened CacheKeys
  import opened CacheEntries
  import opened CacheProtocol

  lemma Extend(c: Config, r: Run, t: Step, s: State)
    requires Legal(c, r) && Enabled(c, After(c, r), t) && Next(c, After(c, r), t) == s
    ensures Legal(c, Then(r, t)) && After(c, Then(r, t)) == s
  {
  }

  lemma DoUpdate(c: Config, r: Run, db': Db)
    requires Legal(c, r)
    ensures Legal(c, Then(r, Update(db')))
    ensures var s := After(c, r); After(c, Then(r, Update(db'))) == s.(step := s.step + 1, db := db')
  {
  }

  lemma DoInvalidate(c: Config, r: Run, k: Key)
    requires Legal(c, r)
    ensures Legal(c, Then(r, Step.Invalidate(k)))
    ensures var s := After(c, r); After(c, Then(r, Step.Invalidate(k))) == s.(step := s.step + 1, entries := s.entries - {k})
  {
  }

  lemma DoTick(c: Config, r: Run, now: int)
    requires Legal(c, r) && After(c, r).now <= now
    ensures Legal(c, Then(r, Tick(now)))
    ensures var s := After(c, r); After(c, Then(r, Tick(now))) == s.(step := s.step + 1, now := now)
  {
  }

  lemma DoBegin(c: Config, r: Run, i: nat, k: Key)
    requires Legal(c, r) && i !in After(c, r).calls && !k.Env?
    ensures Legal(c, Then(r, Begin(i, k)))
    ensures var s := After(c, r); After(c, Then(r, Begin(i, k))) == s.(step := s.step + 1, calls := s.calls[i := Sampled(k, s.now)])
  {
  }

  lemma DoMiss(c: Config, r: Run, i: nat, k: Key)
    requires Legal(c, r) && i in After(c, r).calls && After(c, r).calls[i] == Sampled(k, After(c, r).now) && k !in After(c, r).entries
    ensures Legal(c, Then(r, Check(i)))
    ensures var s := After(c, r); After(c, Then(r, Check(i))) == s.(step := s.step + 1, calls := s.calls[i := Missed(k)])
  {
  }

  lemma DoJoin(c: Config, r: Run, i: nat, k: Key)
    requires Legal(c, r) && i in After(c, r).calls && After(c, r).calls[i] == Missed(k) && k in After(c, r).flights
    ensures Legal(c, Then(r, Join(i)))
    ensures var s := After(c, r);
            After(c, Then(r, Join(i))) == s.(step := s.step + 1, calls := s.calls[i := Waiting(k, s.flights[k], s.now, s.step)])
  {
  }

  lemma DoSignal(c: Config, r: Run, i: nat)
    requires Legal(c, r) && i in After(c, r).calls && After(c, r).calls[i].Published?
    ensures Legal(c, Then(r, Signal(i)))
    ensures var s := After(c, r);
            var l := Landed(s.calls[i].origin, s.calls[i].publishedAt, s.now);
            After(c, Then(r, Signal(i))) ==
            s.(step := s.step + 1, landed := s.landed[i := l], calls := s.calls[i := Signalled(s.calls[i].key, l)])
  {
  }

  lemma DoWake(c: Config, r: Run, i: nat)
    requires Legal(c, r) && i in After(c, r).calls && After(c, r).calls[i].Waiting? && After(c, r).calls[i].leader in After(c, r).landed
    ensures Legal(c, Then(r, Wake(i)))
    ensures var s := After(c, r);
            var pc := s.calls[i];
            var l := s.landed[pc.leader];
            After(c, Then(r, Wake(i))) == s.(step := s.step + 1, calls :=
              s.calls[i := Done(AskFlag(pc.key), AnswerFrom(l.origin, AskFlag(pc.key)), Joined(pc.leader, pc.at, pc.step, l))])
  {
  }

  lemma DoBeginResolve(c: Config, r: Run, i: nat, k: Key)
    requires Legal(c, r) && i !in After(c, r).calls && k.Env?
    ensures Legal(c, Then(r, BeginResolve(i, k.email, Some(k))))
    ensures var s := After(c, r);
            After(c, Then(r, BeginResolve(i, k.email, Some(k)))) ==
            s.(step := s.step + 1, calls := s.calls[i := EnvSampled(k.email, k, s.now)])
  {
  }

  /** A publication with a victim that fits. */
  lemma DoPublish(c: Config, r: Run, i: nat, victim: Option<Key>)
    requires Legal(c, r) && i in After(c, r).calls && Reading(After(c, r).calls[i])
    requires VictimFits(c, After(c, r), Writes(After(c, r).calls[i]), victim)
    ensures Legal(c, Then(r, Publish(i, victim)))
    ensures var s := After(c, r);
            var s', w := After(c, Then(r, Publish(i, victim))), Writes(s.calls[i]);
            && s'.now == s.now && s'.landed == s.landed && s'.calls == s.calls[i := AfterPublish(s.calls[i], s.now)]
            && s'.entries == EntriesAfter(c, s, w, victim)
            && s'.prov == if w.None? then s.prov else s.prov[w.value.key := Prov(s.calls[i].origin, s.now, s.step)]
  {
  }
}
