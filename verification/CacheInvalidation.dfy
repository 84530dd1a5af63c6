/** What an Invalidate of UserActiveCache guarantees, over every interleaving. */
module CacheInvalidation {
  import opened Options
  import opened CacheKeys
  import opened CacheProtocol
  import opened CacheStaleness

  /** The call has read the store at `o` and has not yet dropped its flight of k; or it resolves an
      API key and is about to publish its answer under k. */
  predicate Holding(pc: Pc, o: Origin, k: Key) {
    && (pc.HasRead? || pc.Published? || pc.Signalled? || pc.Asked?) && PcOrigin(pc) == Some(o)
    && if pc.Asked? then Writes(pc).Some? && Writes(pc).value.key == k else pc.key == k
  }

  /** The load behind `o` was in progress when the n-th step was taken. */
  ghost predicate InProgressAt(c: Config, r: Run, n: nat, o: Origin, k: Key) {
    n <= Length(r) && o.loader in StateAt(c, r, n).calls && Holding(StateAt(c, r, n).calls[o.loader], o, k)
  }

  // ----- Loads in progress -----

  lemma HoldingBefore(c: Config, s: State, t: Step, i: nat, o: Origin, k: Key)
    requires Enabled(c, s, t) && i in Next(c, s, t).calls && Holding(Next(c, s, t).calls[i], o, k)
    ensures (i in s.calls && Holding(s.calls[i], o, k)) || (o.step == s.step && o.loader == i && i in s.calls)
  {
    if !HasCall(t) || i != t.call { OthersStay(c, s, t, i); }
  }

  /** A load that is in progress has been so ever since its read. */
  lemma {:induction false} HeldSince(c: Config, r: Run, i: nat, o: Origin, k: Key, n: nat)
    requires Legal(c, r) && i in After(c, r).calls && Holding(After(c, r).calls[i], o, k)
    ensures o.loader == i
    ensures o.step < n <= Length(r) ==> InProgressAt(c, r, n, o, k)
  {
    if r.Then? {
      HoldingBefore(c, After(c, r.before), r.step, i, o, k);
      StepsCounted(c, r.before);
      if i in After(c, r.before).calls && Holding(After(c, r.before).calls[i], o, k) {
        HeldSince(c, r.before, i, o, k, n);
      }
    }
  }

  /** ... and was so at every earlier step after its read. */
  lemma {:induction false} HeldBack(c: Config, r: Run, m: nat, n: nat, o: Origin, k: Key)
    requires Legal(c, r) && m <= Length(r) && InProgressAt(c, r, m, o, k) && o.step < n <= m
    ensures InProgressAt(c, r, n, o, k)
  {
    if m == Length(r) {
      HeldSince(c, r, o.loader, o, k, n);
    } else {
      HeldBack(c, r.before, m, n, o, k);
    }
  }

  lemma CallsStay(c: Config, s: State, t: Step)
    requires Enabled(c, s, t)
    ensures s.calls.Keys <= Next(c, s, t).calls.Keys
  {
  }

  lemma {:induction false} CallsGrow(c: Config, r: Run, n: nat)
    requires Legal(c, r) && n <= Length(r)
    ensures StateAt(c, r, n).calls.Keys <= After(c, r).calls.Keys
  {
    if n < Length(r) {
      CallsGrow(c, r.before, n);
      CallsStay(c, After(c, r.before), r.step);
    }
  }

  lemma {:induction false} CallsGrowBetween(c: Config, r: Run, n: nat, m: nat)
    requires Legal(c, r) && n <= m <= Length(r)
    ensures StateAt(c, r, n).calls.Keys <= StateAt(c, r, m).calls.Keys
  {
    if m == Length(r) { CallsGrow(c, r, n); } else { CallsGrowBetween(c, r.before, n, m); }
  }

  // ----- Entries -----

  /** What a load writes under k it holds for k. */
  lemma WritesOwnKey(pc: Pc, k: Key)
    requires Reading(pc) && Writes(pc).Some? && Writes(pc).value.key == k
    ensures Holding(pc, pc.origin, k)
  {
  }

  lemma ProvBefore(c: Config, s: State, t: Step, k: Key)
    requires Enabled(c, s, t) && k in Next(c, s, t).prov
    ensures var p := Next(c, s, t).prov[k];
            || (k in s.prov && s.prov[k] == p)
            || (p.publishedStep == s.step && t.Publish? && Holding(s.calls[t.call], p.origin, k))
  {
    if t.Publish? && Writes(s.calls[t.call]).Some? && Writes(s.calls[t.call]).value.key == k {
      WritesOwnKey(s.calls[t.call], k);
      assert Next(c, s, t).prov[k] == Prov(s.calls[t.call].origin, s.now, s.step);
    } else {
      assert k in s.prov && Next(c, s, t).prov[k] == s.prov[k];
    }
  }

  /** The load behind an entry was in progress from its read until it published. */
  lemma {:induction false} PublishedHeld(c: Config, r: Run, k: Key, n: nat)
    requires Legal(c, r) && k in After(c, r).prov
    ensures var p := After(c, r).prov[k]; p.origin.step < n <= p.publishedStep ==> InProgressAt(c, r, n, p.origin, k)
  {
    if r.Then? {
      var s, t, p := After(c, r.before), r.step, After(c, r).prov[k];
      ProvBefore(c, s, t, k);
      StepsCounted(c, r.before);
      if k in s.prov && s.prov[k] == p {
        PublishedHeld(c, r.before, k, n);
      } else {
        HeldSince(c, r.before, t.call, p.origin, k, n);
      }
    }
  }

  lemma EntryBefore(c: Config, s: State, t: Step, k: Key)
    requires Enabled(c, s, t) && k in Next(c, s, t).entries && t != Step.Invalidate(k)
    ensures (k in s.entries && Next(c, s, t).prov.Keys >= s.prov.Keys && (k in s.prov ==> Next(c, s, t).prov[k] == s.prov[k]))
            || (k in Next(c, s, t).prov && Next(c, s, t).prov[k].publishedStep == s.step)
  {
  }

  /** An entry present after an Invalidate of its key was published after it. */
  lemma {:induction false} EntrySurvives(c: Config, r: Run, k: Key, v: nat)
    requires c.maxEntries >= 0 && Legal(c, r) && v < Length(r) && StepAt(r, v) == Step.Invalidate(k) && k in After(c, r).entries
    ensures k in After(c, r).prov && After(c, r).prov[k].publishedStep > v
  {
    RunInv(c, r);
    assert EntryRight(c, After(c, r), k);
    assert r.step != Step.Invalidate(k);
    StepsCounted(c, r.before);
    EntryBefore(c, After(c, r.before), r.step, k);
    if After(c, r).prov[k].publishedStep != Length(r.before) {
      RunInv(c, r.before);
      assert EntryRight(c, After(c, r.before), k);
      EntrySurvives(c, r.before, k, v);
    }
  }

  // ----- Calls that began after the Invalidate -----

  /** The entry key a question checks. */
  function KeyAsked(q: Question): Option<Key> { if q.AskFlag? then Some(q.key) else q.env }

  predicate DoneBy(pc: Pc, hit: bool) { pc.Done? && (if hit then pc.how.Hit? else pc.how.Joined?) }

  lemma DoneBefore(c: Config, s: State, t: Step, i: nat)
    requires Enabled(c, s, t) && i in Next(c, s, t).calls && Next(c, s, t).calls[i].Done?
    ensures i in s.calls
    ensures (HasCall(t) && t.call == i) || s.calls[i] == Next(c, s, t).calls[i]
  {
    if !HasCall(t) || i != t.call { OthersStay(c, s, t, i); }
  }

  lemma HitStep(c: Config, s: State, t: Step, i: nat)
    requires Inv(c, s) && Enabled(c, s, t) && HasCall(t) && i == t.call && DoneBy(Next(c, s, t).calls[i], true)
    ensures var pc := Next(c, s, t).calls[i];
            KeyAsked(pc.question).Some? &&
            var k := KeyAsked(pc.question).value;
            k in s.entries && k in s.prov && s.prov[k] == Prov(pc.how.origin, pc.how.publishedAt, pc.how.publishedStep)
  {
  }

  /** A hit whose value was read before the Invalidate comes from a load in progress at it. */
  lemma {:induction false} StaleHit(c: Config, r: Run, i: nat, v: nat, k: Key)
    requires c.maxEntries >= 0 && Legal(c, r) && v < Length(r) && StepAt(r, v) == Step.Invalidate(k)
    requires i !in StateAt(c, r, v + 1).calls
    requires i in After(c, r).calls && DoneBy(After(c, r).calls[i], true)
    requires KeyAsked(After(c, r).calls[i].question) == Some(k) && After(c, r).calls[i].how.origin.step < v
    ensures InProgressAt(c, r, v, After(c, r).calls[i].how.origin, k)
  {
    var s, t := After(c, r.before), r.step;
    DoneBefore(c, s, t, i);
    if HasCall(t) && t.call == i {
      RunInv(c, r.before);
      HitStep(c, s, t, i);
      EntrySurvives(c, r.before, k, v);
      PublishedHeld(c, r.before, k, v);
    } else {
      StaleHit(c, r.before, i, v, k);
    }
  }

  /** What is known of a call that joined the flight of `leader` at step n. */
  ghost predicate JoinHeld(c: Config, r: Run, i: nat, n: nat, o: Origin, k: Key) {
    && n < Length(r) && i in StateAt(c, r, n).calls
    && (o.step < n ==> InProgressAt(c, r, n, o, k))
  }

  ghost predicate JoinsHeld(c: Config, r: Run, i: nat)
    requires i in After(c, r).calls
  {
    var s, pc := After(c, r), After(c, r).calls[i];
    && (pc.Waiting? ==> pc.step < Length(r) && i in StateAt(c, r, pc.step).calls)
    && (pc.Waiting? && pc.leader in s.landed ==> JoinHeld(c, r, i, pc.step, s.landed[pc.leader].origin, pc.key))
    && (DoneBy(pc, false) ==> pc.question.AskFlag? && JoinHeld(c, r, i, pc.how.step, pc.how.landed.origin, pc.question.key))
  }

  lemma JoinHeldLater(c: Config, r: Run, t: Step, i: nat, n: nat, o: Origin, k: Key)
    requires JoinHeld(c, r, i, n, o, k)
    ensures JoinHeld(c, Then(r, t), i, n, o, k)
  {
  }

  lemma LandedLeaderHolds(s: State, k: Key)
    requires Flights(s) && Signals(s) && k in s.flights && s.flights[k] in s.landed
    ensures s.flights[k] in s.calls && Holding(s.calls[s.flights[k]], s.landed[s.flights[k]].origin, k)
  {
    assert HasLanded(s.calls[s.flights[k]], s.landed[s.flights[k]]);
  }

  /** Joining: a flight that has already landed is held by its leader. */
  lemma JoinStep(c: Config, r: Run, t: Step)
    requires Legal(c, Then(r, t)) && Inv(c, After(c, r)) && t.Join?
    ensures JoinsHeld(c, Then(r, t), t.call)
  {
    var s := After(c, r);
    var k := s.calls[t.call].key;
    StepsCounted(c, r);
    if k in s.flights && s.flights[k] in s.landed {
      LandedLeaderHolds(s, k);
      HeldSince(c, r, s.flights[k], s.landed[s.flights[k]].origin, k, 0);
    }
  }

  /** Landing: the leader has held its origin since its read. */
  lemma SignalStep(c: Config, r: Run, t: Step, i: nat)
    requires Legal(c, Then(r, t)) && t.Signal? && i in After(c, r).calls && After(c, r).calls[i].Waiting?
    requires After(c, r).calls[i].leader == t.call && JoinsHeld(c, r, i) && Inv(c, After(c, r))
    ensures JoinsHeld(c, Then(r, t), i)
  {
    var s := After(c, r);
    OthersStay(c, s, t, i);
    assert ShareRight(s, s.calls[i]);
    HeldSince(c, r, t.call, s.calls[t.call].origin, s.calls[i].key, s.calls[i].step);
  }

  lemma LandedOnce(c: Config, s: State, t: Step, l: nat)
    requires Enabled(c, s, t) && !(t.Signal? && t.call == l)
    ensures l in Next(c, s, t).landed <==> l in s.landed
    ensures l in s.landed ==> Next(c, s, t).landed[l] == s.landed[l]
  {
  }

  lemma JoinedBefore(c: Config, s: State, t: Step, i: nat)
    requires Enabled(c, s, t) && HasCall(t) && i == t.call && !t.Join?
    requires i in Next(c, s, t).calls && (Next(c, s, t).calls[i].Waiting? || DoneBy(Next(c, s, t).calls[i], false))
    ensures t.Wake? && i in s.calls && s.calls[i].Waiting? && s.calls[i].leader in s.landed
    ensures var pc := Next(c, s, t).calls[i];
            pc.question == AskFlag(s.calls[i].key) && pc.how.step == s.calls[i].step && pc.how.landed == s.landed[s.calls[i].leader]
  {
  }

  lemma {:induction false} WaitersHeld(c: Config, r: Run, i: nat)
    requires c.maxEntries >= 0 && Legal(c, r) && i in After(c, r).calls
    ensures JoinsHeld(c, r, i)
  {
    if r.Then? {
      var s, t, pc := After(c, r.before), r.step, After(c, r).calls[i];
      RunInv(c, r.before);
      if pc.Waiting? || DoneBy(pc, false) {
        if HasCall(t) && i == t.call {
          if t.Join? {
            JoinStep(c, r.before, t);
          } else {
            JoinedBefore(c, s, t, i);
            WaitersHeld(c, r.before, i);
            JoinHeldLater(c, r.before, t, i, pc.how.step, pc.how.landed.origin, pc.question.key);
          }
        } else {
          OthersStay(c, s, t, i);
          WaitersHeld(c, r.before, i);
          OtherWaiters(c, r.before, t, i);
        }
      }
    }
  }

  lemma OtherWaiters(c: Config, r: Run, t: Step, i: nat)
    requires Legal(c, Then(r, t)) && (HasCall(t) ==> i != t.call) && i in After(c, r).calls && JoinsHeld(c, r, i)
    requires Inv(c, After(c, r))
    ensures i in After(c, Then(r, t)).calls && JoinsHeld(c, Then(r, t), i)
  {
    var s, pc := After(c, r), After(c, r).calls[i];
    OthersStay(c, s, t, i);
    if pc.Waiting? {
      if t.Signal? && t.call == pc.leader {
        SignalStep(c, r, t, i);
      } else {
        LandedOnce(c, s, t, pc.leader);
        if pc.leader in s.landed { JoinHeldLater(c, r, t, i, pc.step, s.landed[pc.leader].origin, pc.key); }
      }
    } else if DoneBy(pc, false) {
      JoinHeldLater(c, r, t, i, pc.how.step, pc.how.landed.origin, pc.question.key);
    }
  }

  lemma StaleJoin(c: Config, r: Run, i: nat, v: nat, k: Key)
    requires c.maxEntries >= 0 && Legal(c, r) && v < Length(r) && i !in StateAt(c, r, v + 1).calls
    requires i in After(c, r).calls && DoneBy(After(c, r).calls[i], false)
    requires KeyAsked(After(c, r).calls[i].question) == Some(k) && After(c, r).calls[i].how.landed.origin.step < v
    ensures InProgressAt(c, r, v, After(c, r).calls[i].how.landed.origin, k)
  {
    var how := After(c, r).calls[i].how;
    WaitersHeld(c, r, i);
    if how.step <= v {
      CallsGrowBetween(c, r, how.step, v + 1);
    }
    HeldBack(c, r, how.step, v, how.landed.origin, k);
  }

  // ----- Own loads -----

  predicate Owns(pc: Pc, o: Origin) { PcOrigin(pc) == Some(o) && (pc.Done? ==> pc.how.Own?) }

  /** A call's own load reads the store after the call began. */
  lemma {:induction false} OwnReadsAreLater(c: Config, r: Run, i: nat, o: Origin)
    requires Legal(c, r) && i in After(c, r).calls && Owns(After(c, r).calls[i], o)
    ensures o.step < Length(r) && i in StateAt(c, r, o.step).calls
  {
    var s, t := After(c, r.before), r.step;
    StepsCounted(c, r.before);
    OwnBefore(c, s, t, i, o);
    if i in s.calls && Owns(s.calls[i], o) { OwnReadsAreLater(c, r.before, i, o); }
  }

  lemma OwnBefore(c: Config, s: State, t: Step, i: nat, o: Origin)
    requires Enabled(c, s, t) && i in Next(c, s, t).calls && Owns(Next(c, s, t).calls[i], o)
    ensures i in s.calls && (Owns(s.calls[i], o) || o.step == s.step)
  {
    if !HasCall(t) || i != t.call { OthersStay(c, s, t, i); }
  }

  // ----- The theorem -----

  /** A call that began after Invalidate(k) and still answers from a read older than it got that
      value from a load that was in progress when Invalidate ran. */
  lemma OldAnswersOnlyFromLoadsInProgress(c: Config, r: Run, i: nat, v: nat, k: Key)
    requires c.maxEntries >= 0 && Legal(c, r) && v < Length(r) && StepAt(r, v) == Step.Invalidate(k)
    requires i !in StateAt(c, r, v + 1).calls
    requires i in After(c, r).calls && After(c, r).calls[i].Done? && KeyAsked(After(c, r).calls[i].question) == Some(k)
    requires OriginOf(After(c, r).calls[i].how).step < v
    ensures InProgressAt(c, r, v, OriginOf(After(c, r).calls[i].how), k)
  {
    var pc := After(c, r).calls[i];
    if pc.how.Hit? {
      StaleHit(c, r, i, v, k);
    } else if pc.how.Joined? {
      StaleJoin(c, r, i, v, k);
    } else {
      OwnReadsAreLater(c, r, i, pc.how.origin);
      CallsGrowBetween(c, r, pc.how.origin.step, v + 1);
    }
  }

  /** Some load has read for k and has not yet dropped its flight or, resolving an API key, not yet
      published under k. */
  ghost predicate LoadInProgress(s: State, k: Key) {
    exists i, o :: i in s.calls && Holding(s.calls[i], o, k)
  }

  /** So with no load in progress at the Invalidate, every later call answers from a table no older
      than the Invalidate, hence from after any update that preceded it. */
  lemma QuietInvalidateIsImmediate(c: Config, r: Run, i: nat, v: nat, k: Key)
    requires c.maxEntries >= 0 && Legal(c, r) && v < Length(r) && StepAt(r, v) == Step.Invalidate(k)
    requires i !in StateAt(c, r, v + 1).calls
    requires i in After(c, r).calls && After(c, r).calls[i].Done? && KeyAsked(After(c, r).calls[i].question) == Some(k)
    requires !LoadInProgress(StateAt(c, r, v), k)
    ensures var pc := After(c, r).calls[i];
            var o := OriginOf(pc.how);
            && v <= o.step < Length(r)
            && pc.answer == (if o.ok then Direct(StateAt(c, r, o.step).db, pc.question) else Failed)
  {
    var o := OriginOf(After(c, r).calls[i].how);
    AnswersReal(c, r, i);
    if o.step < v {
      OldAnswersOnlyFromLoadsInProgress(c, r, i, v, k);
    }
  }
}
