/** How old an answer of UserActiveCache can be, over every interleaving. */
module CacheStaleness {
  import opened Options
  import opened CacheKeys
  import opened CacheEntries
  import opened CacheProtocol

  function Length(r: Run): nat { if r.Start? then 0 else Length(r.before) + 1 }

  /** The state after the first n steps. */
  ghost function StateAt(c: Config, r: Run, n: nat): State
    requires n <= Length(r)
  {
    if n == Length(r) then After(c, r) else StateAt(c, r.before, n)
  }

  /** The n-th step, counting from 0: it leads from StateAt(n) to StateAt(n + 1). */
  function StepAt(r: Run, n: nat): Step
    requires n < Length(r)
  {
    if n == Length(r) - 1 then r.step else StepAt(r.before, n)
  }

  lemma {:induction false} StepsCounted(c: Config, r: Run)
    ensures After(c, r).step == Length(r)
  {
    if r.Then? { StepsCounted(c, r.before); }
  }

  // ----- Origins are real -----

  /** The origin is a read that happened: in the state at its step, the table and clock were so. */
  ghost predicate Real(c: Config, r: Run, o: Origin) {
    o.step < Length(r) && StateAt(c, r, o.step).db == o.db && StateAt(c, r, o.step).now == o.at
  }

  function PcOrigin(pc: Pc): Option<Origin> {
    match pc
    case HasRead(_, o) => Some(o)
    case Published(_, o, _) => Some(o)
    case Signalled(_, l) => Some(l.origin)
    case Asked(_, _, o) => Some(o)
    case Done(_, _, how) => Some(OriginOf(how))
    case _ => None
  }

  ghost predicate AllReal(c: Config, r: Run, s: State) {
    && (forall i :: i in s.calls && PcOrigin(s.calls[i]).Some? ==> Real(c, r, PcOrigin(s.calls[i]).value))
    && (forall k :: k in s.prov ==> Real(c, r, s.prov[k].origin))
    && (forall i :: i in s.landed ==> Real(c, r, s.landed[i].origin))
  }

  /** Every entry has a record of where it comes from. */
  ghost predicate Proven(s: State) { forall k :: k in s.entries ==> k in s.prov }

  lemma ProvenStep(c: Config, s: State, t: Step)
    requires Proven(s) && Enabled(c, s, t)
    ensures Proven(Next(c, s, t))
  {
  }

  lemma {:induction false} RunProven(c: Config, r: Run)
    requires Legal(c, r)
    ensures Proven(After(c, r))
  {
    if r.Then? {
      RunProven(c, r.before);
      ProvenStep(c, After(c, r.before), r.step);
    }
  }

  lemma RealLater(c: Config, r: Run, t: Step, o: Origin)
    requires Real(c, r, o)
    ensures Real(c, Then(r, t), o)
  {
  }

  /** A step invents no origin but the one of a read. */
  lemma NewOrigins(c: Config, s: State, t: Step, i: nat)
    requires Proven(s) && Enabled(c, s, t) && HasCall(t) && i == t.call
    requires var s' := Next(c, s, t); i in s'.calls && PcOrigin(s'.calls[i]).Some?
    ensures var o := PcOrigin(Next(c, s, t).calls[i]).value;
            || (t.Read? && o == Origin(s.step, s.now, s.db, t.ok, i))
            || (i in s.calls && PcOrigin(s.calls[i]) == Some(o))
            || (exists k :: k in s.prov && s.prov[k].origin == o)
            || (exists l :: l in s.landed && s.landed[l].origin == o)
  {
    if t.Check? {
      HitOrigin(c, s, t);
    } else if t.Wake? {
      assert s.calls[i].leader in s.landed;
    } else if !t.Read? {
      OwnOrigin(c, s, t);
    }
  }

  lemma HitOrigin(c: Config, s: State, t: Step)
    requires Proven(s) && Enabled(c, s, t) && t.Check? && PcOrigin(Next(c, s, t).calls[t.call]).Some?
    ensures var o := PcOrigin(Next(c, s, t).calls[t.call]).value; exists k :: k in s.prov && s.prov[k].origin == o
  {
    var pc := s.calls[t.call];
    assert Hits(s, pc).Some? && CheckKey(pc) in s.entries;
    assert PcOrigin(AfterCheck(s, pc)) == Some(s.prov[CheckKey(pc)].origin);
  }

  lemma OwnOrigin(c: Config, s: State, t: Step)
    requires Enabled(c, s, t) && HasCall(t) && !t.Check? && !t.Wake? && !t.Read?
    requires t.call in Next(c, s, t).calls && PcOrigin(Next(c, s, t).calls[t.call]).Some?
    ensures t.call in s.calls && PcOrigin(s.calls[t.call]) == PcOrigin(Next(c, s, t).calls[t.call])
  {
    if t.Publish? {
      PublishKeepsOrigin(c, s, t);
    } else {
      assert t.Signal? || t.Drop?;
    }
  }

  lemma PublishKeepsOrigin(c: Config, s: State, t: Step)
    requires Enabled(c, s, t) && t.Publish?
    ensures t.call in Next(c, s, t).calls && PcOrigin(s.calls[t.call]) == PcOrigin(Next(c, s, t).calls[t.call])
  {
    assert Next(c, s, t).calls[t.call] == AfterPublish(s.calls[t.call], s.now);
  }

  lemma CallsStayReal(c: Config, r: Run, t: Step, i: nat)
    requires Legal(c, r) && AllReal(c, r, After(c, r)) && Enabled(c, After(c, r), t)
    requires var s' := Next(c, After(c, r), t); i in s'.calls && PcOrigin(s'.calls[i]).Some?
    ensures Real(c, Then(r, t), PcOrigin(Next(c, After(c, r), t).calls[i]).value)
  {
    var s := After(c, r);
    var o := PcOrigin(Next(c, s, t).calls[i]).value;
    StepsCounted(c, r);
    RunProven(c, r);
    if HasCall(t) && i == t.call {
      NewOrigins(c, s, t, i);
      if !(t.Read? && o == Origin(s.step, s.now, s.db, t.ok, i)) {
        assert Real(c, r, o);
        RealLater(c, r, t, o);
      }
    } else {
      OthersStay(c, s, t, i);
      RealLater(c, r, t, o);
    }
  }

  lemma {:induction false} OriginsReal(c: Config, r: Run)
    requires Legal(c, r)
    ensures AllReal(c, r, After(c, r))
  {
    if r.Then? {
      OriginsReal(c, r.before);
      var s, t := After(c, r.before), r.step;
      var s' := Next(c, s, t);
      forall i | i in s'.calls && PcOrigin(s'.calls[i]).Some? ensures Real(c, r, PcOrigin(s'.calls[i]).value) {
        CallsStayReal(c, r.before, t, i);
      }
      forall k | k in s'.prov ensures Real(c, r, s'.prov[k].origin) {
        ProvStaysReal(c, r.before, t, k);
      }
      forall i | i in s'.landed ensures Real(c, r, s'.landed[i].origin) {
        LandedStaysReal(c, r.before, t, i);
      }
    }
  }

  /** Where the origin of an entry, or of a landed flight, was one step before. */
  lemma ProvOrigin(c: Config, s: State, t: Step, k: Key)
    requires Enabled(c, s, t) && k in Next(c, s, t).prov
    ensures var o := Next(c, s, t).prov[k].origin;
            || (k in s.prov && s.prov[k].origin == o)
            || (HasCall(t) && t.call in s.calls && PcOrigin(s.calls[t.call]) == Some(o))
  {
    if t.Publish? {
      PublishedOrigin(c, s, t, k);
    } else {
      OnlyPublishProves(c, s, t);
    }
  }

  lemma PublishedOrigin(c: Config, s: State, t: Step, k: Key)
    requires Enabled(c, s, t) && t.Publish? && k in Next(c, s, t).prov
    ensures var o := Next(c, s, t).prov[k].origin;
            || (k in s.prov && s.prov[k].origin == o)
            || PcOrigin(s.calls[t.call]) == Some(o)
  {
    var w := Writes(s.calls[t.call]);
    if w.Some? && k == w.value.key {
      assert Next(c, s, t).prov[k].origin == s.calls[t.call].origin;
    }
  }

  lemma OnlyPublishProves(c: Config, s: State, t: Step)
    requires Enabled(c, s, t) && !t.Publish?
    ensures Next(c, s, t).prov == s.prov
  {
  }

  lemma LandedOrigin(c: Config, s: State, t: Step, i: nat)
    requires Enabled(c, s, t) && i in Next(c, s, t).landed
    ensures var o := Next(c, s, t).landed[i].origin;
            || (i in s.landed && s.landed[i].origin == o)
            || (HasCall(t) && t.call in s.calls && PcOrigin(s.calls[t.call]) == Some(o))
  {
  }

  lemma ProvStaysReal(c: Config, r: Run, t: Step, k: Key)
    requires AllReal(c, r, After(c, r)) && Enabled(c, After(c, r), t) && k in Next(c, After(c, r), t).prov
    ensures Real(c, Then(r, t), Next(c, After(c, r), t).prov[k].origin)
  {
    ProvOrigin(c, After(c, r), t, k);
    RealLater(c, r, t, Next(c, After(c, r), t).prov[k].origin);
  }

  lemma LandedStaysReal(c: Config, r: Run, t: Step, i: nat)
    requires AllReal(c, r, After(c, r)) && Enabled(c, After(c, r), t) && i in Next(c, After(c, r), t).landed
    ensures Real(c, Then(r, t), Next(c, After(c, r), t).landed[i].origin)
  {
    LandedOrigin(c, After(c, r), t, i);
    RealLater(c, r, t, Next(c, After(c, r), t).landed[i].origin);
  }

  // ----- Joining a flight -----

  /** When the leader of a flight published its load, once it has. */
  function PublishedAt(s: State, leader: nat): Option<int> {
    if leader in s.landed then Some(s.landed[leader].publishedAt)
    else if leader in s.calls && s.calls[leader].Published? then Some(s.calls[leader].publishedAt)
    else None
  }

  lemma ClockStep(c: Config, s: State, t: Step)
    requires Enabled(c, s, t)
    ensures s.now <= Next(c, s, t).now
  {
  }

  lemma PublishedOnce(c: Config, s: State, t: Step, l: nat)
    requires Signals(s) && Enabled(c, s, t)
    ensures var p, q := PublishedAt(s, l), PublishedAt(Next(c, s, t), l);
            if p.Some? then q == p else q == None || q == Some(s.now)
  {
    if l in s.landed {
      LandedKept(c, s, t, l);
    } else if !HasCall(t) || l != t.call {
      OthersStay(c, s, t, l);
      OtherUnlanded(c, s, t, l);
    } else {
      MoverPublished(c, s, t);
    }
  }

  lemma OtherUnlanded(c: Config, s: State, t: Step, l: nat)
    requires Enabled(c, s, t) && l !in s.landed && (HasCall(t) ==> l != t.call)
    ensures l !in Next(c, s, t).landed
  {
  }

  lemma MoverPublished(c: Config, s: State, t: Step)
    requires Enabled(c, s, t) && HasCall(t) && t.call !in s.landed
    ensures var p, q := PublishedAt(s, t.call), PublishedAt(Next(c, s, t), t.call);
            if p.Some? then q == p else q == None || q == Some(s.now)
  {
    if t.call in s.calls && s.calls[t.call].Published? {
      assert t.Signal?;
    } else if !t.Publish? {
      assert !t.Signal?;
    }
  }

  /** A publication stays; one that is still to come is no earlier than now. */
  lemma {:induction false} PublishedSince(c: Config, r: Run, n: nat, l: nat)
    requires c.maxEntries >= 0 && Legal(c, r) && n <= Length(r)
    ensures StateAt(c, r, n).now <= After(c, r).now
    ensures var p, q := PublishedAt(StateAt(c, r, n), l), PublishedAt(After(c, r), l);
            if p.Some? then q == p else q.Some? ==> StateAt(c, r, n).now <= q.value
  {
    if n < Length(r) {
      PublishedSince(c, r.before, n, l);
      RunInv(c, r.before);
      ClockStep(c, After(c, r.before), r.step);
      PublishedOnce(c, After(c, r.before), r.step, l);
    }
  }

  /** At step n, at that instant, `leader` was the one to join for k. */
  ghost predicate JoinedAt(c: Config, r: Run, k: Key, leader: nat, at: int, n: nat) {
    && n < Length(r) && StateAt(c, r, n).now == at
    && k in StateAt(c, r, n).flights && StateAt(c, r, n).flights[k] == leader
  }

  ghost predicate JoinRecorded(c: Config, r: Run, pc: Pc) {
    && (pc.Waiting? ==> JoinedAt(c, r, pc.key, pc.leader, pc.at, pc.step))
    && (pc.Done? && pc.how.Joined? ==>
          pc.question.AskFlag? && JoinedAt(c, r, pc.question.key, pc.how.leader, pc.how.at, pc.how.step))
  }

  lemma JoinRecordedLater(c: Config, r: Run, t: Step, pc: Pc)
    requires JoinRecorded(c, r, pc)
    ensures JoinRecorded(c, Then(r, t), pc)
  {
  }

  lemma MoverRecorded(c: Config, r: Run, t: Step)
    requires Legal(c, Then(r, t)) && HasCall(t)
    requires t.call in After(c, r).calls ==> JoinRecorded(c, r, After(c, r).calls[t.call])
    ensures t.call in After(c, Then(r, t)).calls && JoinRecorded(c, Then(r, t), After(c, Then(r, t)).calls[t.call])
  {
    StepsCounted(c, r);
    if t.Wake? { JoinRecordedLater(c, r, t, After(c, r).calls[t.call]); }
  }

  lemma {:induction false} JoinsRecorded(c: Config, r: Run, i: nat)
    requires Legal(c, r) && i in After(c, r).calls
    ensures JoinRecorded(c, r, After(c, r).calls[i])
  {
    if r.Then? {
      var s, t := After(c, r.before), r.step;
      if i in s.calls { JoinsRecorded(c, r.before, i); }
      if HasCall(t) && i == t.call {
        MoverRecorded(c, r.before, t);
      } else {
        OthersStay(c, s, t, i);
        JoinRecordedLater(c, r.before, t, s.calls[i]);
      }
    }
  }

  /** The flight of k outlives what it published: its leader published more than ttl ago, and has
      not yet signalled, or not yet dropped the flight. */
  ghost predicate Lingers(c: Config, s: State, k: Key) {
    k in s.flights && s.flights[k] in s.calls &&
    var pc := s.calls[s.flights[k]];
    || (pc.Published? && pc.publishedAt + c.ttl < s.now)
    || (pc.Signalled? && pc.landed.publishedAt + c.ttl < s.now)
  }

  lemma LingersByInstant(c: Config, s: State, k: Key)
    requires Inv(c, s) && k in s.flights
    ensures var p := PublishedAt(s, s.flights[k]); Lingers(c, s, k) <==> p.Some? && p.value + c.ttl < s.now
  {
    var l := s.flights[k];
    if l in s.landed { assert HasLanded(s.calls[l], s.landed[l]); }
  }

  lemma {:induction false} InvAt(c: Config, r: Run, n: nat)
    requires c.maxEntries >= 0 && Legal(c, r) && n <= Length(r)
    ensures Inv(c, StateAt(c, r, n))
  {
    if n == Length(r) { RunInv(c, r); } else { InvAt(c, r.before, n); }
  }

  // ----- Bounded staleness -----

  /** The age an answer may have when the cache is asked, given when its load published it. */
  predicate WithinTtl(c: Config, at: int, o: Origin, publishedAt: int) {
    at - o.at <= c.ttl + (publishedAt - o.at)
  }

  /** A joiner's answer is older than ttl plus its load's read-to-publish delay exactly when the
      flight it found was lingering. */
  lemma StaleJoinIffLingering(c: Config, r: Run, i: nat)
    requires c.maxEntries >= 0 && c.ttl >= 0 && Legal(c, r) && i in After(c, r).calls
    requires After(c, r).calls[i].Done? && After(c, r).calls[i].how.Joined?
    ensures var pc := After(c, r).calls[i];
            && pc.question.AskFlag? && pc.how.step < Length(r)
            && (!WithinTtl(c, pc.how.at, pc.how.landed.origin, pc.how.landed.publishedAt) <==>
                Lingers(c, StateAt(c, r, pc.how.step), pc.question.key))
  {
    var pc := After(c, r).calls[i];
    JoinsRecorded(c, r, i);
    assert ShareRight(After(c, r), pc) by { RunInv(c, r); }
    PublishedSince(c, r, pc.how.step, pc.how.leader);
    InvAt(c, r, pc.how.step);
    LingersByInstant(c, StateAt(c, r, pc.how.step), pc.question.key);
  }

  /** Every answer is what an uncached lookup would have said at a step of the run: the state then
      held that table, and the clock stood at the origin's instant. */
  lemma AnswersReal(c: Config, r: Run, i: nat)
    requires c.maxEntries >= 0 && Legal(c, r) && i in After(c, r).calls && After(c, r).calls[i].Done?
    ensures var pc := After(c, r).calls[i];
            var o := OriginOf(pc.how);
            Real(c, r, o) && pc.answer == (if o.ok then Direct(StateAt(c, r, o.step).db, pc.question) else Failed)
  {
    var pc := After(c, r).calls[i];
    assert AnswerRight(c, pc) by { RunInv(c, r); }
    assert Real(c, r, OriginOf(pc.how)) by {
      OriginsReal(c, r);
      assert PcOrigin(pc) == Some(OriginOf(pc.how));
    }
  }

  /** A hit is younger, at the instant it sampled, than ttl plus the load's read-to-publish delay.
      The answer of a call that joined a flight is no older than that, at the instant it joined,
      unless the flight was lingering; and then it always is. */
  lemma BoundedStaleness(c: Config, r: Run, i: nat)
    requires c.maxEntries >= 0 && c.ttl >= 0 && Legal(c, r) && i in After(c, r).calls && After(c, r).calls[i].Done?
    ensures var pc := After(c, r).calls[i];
            var o := OriginOf(pc.how);
            && Real(c, r, o)
            && pc.answer == (if o.ok then Direct(StateAt(c, r, o.step).db, pc.question) else Failed)
            && (pc.how.Hit? ==> o.ok && pc.how.at - o.at < c.ttl + (pc.how.publishedAt - o.at))
            && (pc.how.Joined? ==>
                  && pc.question.AskFlag? && pc.how.step < Length(r)
                  && (!WithinTtl(c, pc.how.at, o, pc.how.landed.publishedAt) <==>
                      Lingers(c, StateAt(c, r, pc.how.step), pc.question.key)))
  {
    var pc := After(c, r).calls[i];
    AnswersReal(c, r, i);
    assert AnswerRight(c, pc) by { RunInv(c, r); }
    if pc.how.Joined? { StaleJoinIffLingering(c, r, i); }
  }

  // ----- Fresh entries -----

  /** A call that checks its key answers at once exactly when an entry is there and was published less
      than ttl before the instant it sampled; then it says what the table said at that read. */
  lemma HitIffFresh(c: Config, r: Run, i: nat)
    requires c.maxEntries >= 0 && Legal(c, r) && Enabled(c, After(c, r), Check(i))
    ensures var s, pc := After(c, r), After(c, r).calls[i];
            var k, pc' := CheckKey(pc), Next(c, s, Check(i)).calls[i];
            && (pc'.Done? <==> k in s.entries && k in s.prov && pc.at < s.prov[k].publishedAt + c.ttl)
            && (pc'.Done? ==> pc'.answer == Direct(s.prov[k].origin.db, pc'.question))
  {
    RunInv(c, r);
    FreshHit(c, After(c, r), i);
  }

  lemma FreshHit(c: Config, s: State, i: nat)
    requires EntriesRight(c, s) && EnvKeysRight(s) && Enabled(c, s, Check(i))
    ensures var pc := s.calls[i];
            var k, pc' := CheckKey(pc), Next(c, s, Check(i)).calls[i];
            && (pc'.Done? <==> k in s.entries && k in s.prov && pc.at < s.prov[k].publishedAt + c.ttl)
            && (pc'.Done? ==> pc'.answer == Direct(s.prov[k].origin.db, pc'.question))
  {
    var pc := s.calls[i];
    var k := CheckKey(pc);
    assert Next(c, s, Check(i)).calls[i] == AfterCheck(s, pc) && PcRight(pc);
    if k in s.entries { assert EntryRight(c, s, k); }
    if Hits(s, pc).Some? { HitRight(c, s, i); }
  }

  /** An entry goes when its key is invalidated, or when another is stored into a full cache; then
      none that stays was published before it. */
  lemma EntryLost(c: Config, s: State, t: Step, k: Key)
    requires EntriesRight(c, s) && Enabled(c, s, t) && k in s.entries && k !in Next(c, s, t).entries
    ensures || t == Step.Invalidate(k)
            || (&& t.Publish? && |s.entries| == c.maxEntries
                && forall q :: q in Next(c, s, t).entries ==>
                     q in Next(c, s, t).prov && Next(c, s, t).prov[q].publishedAt >= s.prov[k].publishedAt)
  {
    if t.Publish? {
      LostToPublish(c, s, t, k);
    }
  }

  lemma LostToPublish(c: Config, s: State, t: Step, k: Key)
    requires EntriesRight(c, s) && Enabled(c, s, t) && t.Publish? && k in s.entries && k !in Next(c, s, t).entries
    ensures |s.entries| == c.maxEntries
    ensures forall q :: q in Next(c, s, t).entries ==>
              q in Next(c, s, t).prov && Next(c, s, t).prov[q].publishedAt >= s.prov[k].publishedAt
  {
    var s', w := Next(c, s, t), Writes(s.calls[t.call]).value;
    var inserted := Inserted(c, s, w);
    assert inserted.Keys == s.entries.Keys + {w.key};
    assert w.key in s.entries ==> inserted.Keys == s.entries.Keys && |inserted| == |inserted.Keys| && |s.entries| == |s.entries.Keys|;
    assert EntryRight(c, s, k);
    assert w.key !in s.entries;
    assert |inserted.Keys| == |s.entries.Keys| + 1;
    forall q | q in s'.entries ensures q in s'.prov && s'.prov[q].publishedAt >= s.prov[k].publishedAt {
      if q != w.key { assert EntryRight(c, s, q); }
    }
  }
}
