/** UserActiveCache at lock granularity: any number of lookups and API-key resolutions interleave
    with store updates, invalidations and the clock.

    `cached` reads the clock before it takes the read lock, so sampling and checking are two
    steps. A flight is named after the call that leads it. Origins, provenance and step numbers
    are history: they record where an answer came from and no step depends on them. */
module CacheProtocol {
  import opened Options
  import opened CacheKeys
  import opened CacheEntries

  datatype Config = Config(ttl: int, maxEntries: int)

  // ----- The users table -----

  /** `owner` gives the row a case-insensitive lookup by email picks. */
  datatype Db = Db(active: map<int, bool>, owner: map<Email, int>)

  datatype Outcome = Found(id: int, active: bool) | NotFound

  function ById(db: Db, id: int): Outcome {
    if id in db.active then Found(id, db.active[id]) else NotFound
  }

  function ByEmail(db: Db, e: Email): Outcome {
    if e in db.owner then ById(db, db.owner[e]) else NotFound
  }

  function Fetch(db: Db, k: Key): Outcome {
    match k
    case Numeric(_, id) => ById(db, id)
    case Oidc(e) => ByEmail(db, e)
    case Env(_, e) => ByEmail(db, e)
  }

  predicate Flag(o: Outcome) { o.Found? && o.active }

  // ----- Questions and answers -----

  /** A lookup of a flag (IsActive, IsActiveForToken, a numeric API-key username), or the
      resolution of an API-key username by email, with its env key when it names an env user. */
  datatype Question = AskFlag(key: Key) | AskIdentity(email: Email, env: Option<Key>)

  datatype Answer = Active(flag: bool) | Identity(id: int, active: bool) | Failed

  /** What an uncached lookup answers. */
  function Direct(db: Db, q: Question): Answer {
    match q
    case AskFlag(k) => Active(Flag(Fetch(db, k)))
    case AskIdentity(e, env) =>
      match ByEmail(db, e)
      case Found(id, active) => Identity(id, active)
      case NotFound => Identity(0, env.Some?)
  }

  /** A store read: at which step and instant, what the table was, whether it succeeded, by whom. */
  datatype Origin = Origin(step: nat, at: int, db: Db, ok: bool, loader: nat)

  function AnswerFrom(o: Origin, q: Question): Answer { if o.ok then Direct(o.db, q) else Failed }

  /** A finished load as its waiters see it. */
  datatype Landed = Landed(origin: Origin, publishedAt: int, signalledAt: int)

  /** How an answer was come by: from an entry fresh at the sampled instant, by joining a flight (at
      which instant and step), or by the call's own load. */
  datatype How =
    | Hit(at: int, origin: Origin, publishedAt: int, publishedStep: nat)
    | Joined(leader: nat, at: int, step: nat, landed: Landed)
    | Own(origin: Origin)

  function OriginOf(h: How): Origin { if h.Joined? then h.landed.origin else h.origin }

  datatype Pc =
    | Sampled(key: Key, at: int)
    | Missed(key: Key)
    | Leading(key: Key)
    | HasRead(key: Key, origin: Origin)
    | Published(key: Key, origin: Origin, publishedAt: int)
    | Signalled(key: Key, landed: Landed)
    | Waiting(key: Key, leader: nat, at: int, step: nat)
    | EnvSampled(email: Email, env: Key, at: int)
    | Asking(email: Email, env': Option<Key>)
    | Asked(email: Email, env': Option<Key>, origin: Origin)
    | Done(question: Question, answer: Answer, how: How)

  datatype Prov = Prov(origin: Origin, publishedAt: int, publishedStep: nat)

  datatype State = State(
    now: int, step: nat, db: Db, entries: Entries, prov: map<Key, Prov>,
    flights: map<Key, nat>, landed: map<nat, Landed>, calls: map<nat, Pc>)

  datatype Step =
    | Begin(call: nat, key: Key)
    | BeginResolve(call: nat, email: Email, env: Option<Key>)
    | Check(call: nat)
    | Join(call: nat)
    | Read(call: nat, ok: bool)
    | Publish(call: nat, victim: Option<Key>)
    | Signal(call: nat)
    | Drop(call: nat)
    | Wake(call: nat)
    | Update(db: Db)
    | Invalidate(key: Key)
    | Tick(now: int)

  // ----- Publishing -----

  datatype Write = Write(key: Key, isActive: bool)

  predicate Reading(pc: Pc) { pc.HasRead? || pc.Asked? }

  /** What a finished load stores; a failed one, and an unknown owner that is no env user, store
      nothing. */
  function Writes(pc: Pc): Option<Write>
    requires Reading(pc)
  {
    if !pc.origin.ok then None
    else if pc.HasRead? then Some(Write(pc.key, Flag(Fetch(pc.origin.db, pc.key))))
    else match ByEmail(pc.origin.db, pc.email)
      case Found(id, active) => Some(Write(IdKey(id), active))
      case NotFound => if pc.env'.Some? then Some(Write(pc.env'.value, true)) else None
  }

  function Inserted(c: Config, s: State, w: Write): Entries {
    s.entries[w.key := Entry(w.isActive, s.now + c.ttl)]
  }

  function EntriesAfter(c: Config, s: State, w: Option<Write>, victim: Option<Key>): Entries {
    if w.None? then s.entries
    else if victim.None? then Inserted(c, s, w.value)
    else Inserted(c, s, w.value) - {victim.value}
  }

  /** The protocol publishes exactly as the object's storeEntry may. */
  ghost predicate VictimFits(c: Config, s: State, w: Option<Write>, victim: Option<Key>) {
    if w.None? then victim.None?
    else StoredWith(s.entries, w.value.key, Entry(w.value.isActive, s.now + c.ttl), c.maxEntries, victim, EntriesAfter(c, s, w, victim))
  }

  // ----- Steps -----

  ghost predicate Enabled(c: Config, s: State, t: Step) {
    match t
    case Begin(i, k) => i !in s.calls && !k.Env?
    case BeginResolve(i, e, env) => i !in s.calls && (env.Some? ==> env.value.Env? && env.value.email == e)
    case Check(i) => i in s.calls && (s.calls[i].Sampled? || s.calls[i].EnvSampled?)
    case Join(i) => i in s.calls && s.calls[i].Missed?
    case Read(i, _) => i in s.calls && (s.calls[i].Leading? || s.calls[i].Asking?)
    case Publish(i, victim) => i in s.calls && Reading(s.calls[i]) && VictimFits(c, s, Writes(s.calls[i]), victim)
    case Signal(i) => i in s.calls && s.calls[i].Published?
    case Drop(i) => i in s.calls && s.calls[i].Signalled?
    case Wake(i) => i in s.calls && s.calls[i].Waiting? && s.calls[i].leader in s.landed
    case Update(_) => true
    case Invalidate(_) => true
    case Tick(now) => s.now <= now
  }

  function Moved(s: State, i: nat, pc: Pc): State { s.(calls := s.calls[i := pc]) }

  function QuestionOf(pc: Pc): Question
    requires pc.HasRead? || pc.Asked?
  {
    if pc.HasRead? then AskFlag(pc.key) else AskIdentity(pc.email, pc.env')
  }

  /** The call's next stage once its load has been published. */
  function AfterPublish(pc: Pc, now: int): Pc
    requires Reading(pc)
  {
    if pc.HasRead? then Published(pc.key, pc.origin, now)
    else Done(QuestionOf(pc), AnswerFrom(pc.origin, QuestionOf(pc)), Own(pc.origin))
  }

  function CheckKey(pc: Pc): Key
    requires pc.Sampled? || pc.EnvSampled?
  {
    if pc.Sampled? then pc.key else pc.env
  }

  function Hits(s: State, pc: Pc): Option<bool>
    requires pc.Sampled? || pc.EnvSampled?
  {
    CachedAt(s.entries, CheckKey(pc), pc.at)
  }

  /** Where the entry of a key comes from; every entry of a reachable state has such a record. */
  function ProvOf(s: State, k: Key): Prov {
    if k in s.prov then s.prov[k] else Prov(Origin(0, s.now, s.db, false, 0), s.now, 0)
  }

  function AfterCheck(s: State, pc: Pc): Pc
    requires pc.Sampled? || pc.EnvSampled?
  {
    var hit := Hits(s, pc);
    if hit.Some? then
      var p := ProvOf(s, CheckKey(pc));
      var how := Hit(pc.at, p.origin, p.publishedAt, p.publishedStep);
      if pc.Sampled? then Done(AskFlag(pc.key), Active(hit.value), how)
      else Done(AskIdentity(pc.email, Some(pc.env)), Identity(0, true), how)
    else if pc.Sampled? then Missed(pc.key)
    else Asking(pc.email, Some(pc.env))
  }

  function Effect(c: Config, s: State, t: Step): State
    requires Enabled(c, s, t)
  {
    match t
    case Begin(i, k) => Moved(s, i, Sampled(k, s.now))
    case BeginResolve(i, e, env) => Moved(s, i, if env.Some? then EnvSampled(e, env.value, s.now) else Asking(e, None))
    case Check(i) => Moved(s, i, AfterCheck(s, s.calls[i]))
    case Join(i) =>
      var k := s.calls[i].key;
      if k in s.flights then Moved(s, i, Waiting(k, s.flights[k], s.now, s.step))
      else Moved(s, i, Leading(k)).(flights := s.flights[k := i])
    case Read(i, ok) =>
      var pc, o := s.calls[i], Origin(s.step, s.now, s.db, ok, i);
      Moved(s, i, if pc.Leading? then HasRead(pc.key, o) else Asked(pc.email, pc.env', o))
    case Publish(i, victim) =>
      var pc := s.calls[i];
      var w := Writes(pc);
      Moved(s, i, AfterPublish(pc, s.now)).(
        entries := EntriesAfter(c, s, w, victim),
        prov := if w.None? then s.prov else s.prov[w.value.key := Prov(pc.origin, s.now, s.step)])
    case Signal(i) =>
      var pc := s.calls[i];
      var l := Landed(pc.origin, pc.publishedAt, s.now);
      Moved(s, i, Signalled(pc.key, l)).(landed := s.landed[i := l])
    case Drop(i) =>
      var pc := s.calls[i];
      var q := AskFlag(pc.key);
      Moved(s, i, Done(q, AnswerFrom(pc.landed.origin, q), Own(pc.landed.origin))).(flights := s.flights - {pc.key})
    case Wake(i) =>
      var pc := s.calls[i];
      var l, q := s.landed[pc.leader], AskFlag(pc.key);
      Moved(s, i, Done(q, AnswerFrom(l.origin, q), Joined(pc.leader, pc.at, pc.step, l)))
    case Update(db) => s.(db := db)
    case Invalidate(k) => s.(entries := s.entries - {k})
    case Tick(now) => s.(now := now)
  }

  function Next(c: Config, s: State, t: Step): State
    requires Enabled(c, s, t)
  {
    Effect(c, s, t).(step := s.step + 1)
  }

  // ----- Singleflight -----

  predicate Leads(pc: Pc) { pc.Leading? || pc.HasRead? || pc.Published? || pc.Signalled? }

  ghost predicate Flights(s: State) {
    && (forall k :: k in s.flights ==> s.flights[k] in s.calls && Leads(s.calls[s.flights[k]]) && s.calls[s.flights[k]].key == k)
    && (forall i :: i in s.calls && Leads(s.calls[i]) ==> s.calls[i].key in s.flights && s.flights[s.calls[i].key] == i)
  }

  /** The leader of a landed flight has signalled, or has returned its own load's answer. */
  predicate HasLanded(pc: Pc, l: Landed) {
    pc.Signalled? || (pc.Done? && pc.how == Own(l.origin) && pc.answer == AnswerFrom(l.origin, pc.question))
  }

  ghost predicate Signals(s: State) {
    && (forall i :: i in s.calls && s.calls[i].Signalled? ==> i in s.landed && s.landed[i] == s.calls[i].landed)
    && (forall i :: i in s.landed ==> i in s.calls && HasLanded(s.calls[i], s.landed[i]) && s.landed[i].signalledAt <= s.now)
  }

  predicate HasCall(t: Step) { !t.Update? && !t.Invalidate? && !t.Tick? }

  /** A step moves only the call that takes it. */
  lemma OthersStay(c: Config, s: State, t: Step, i: nat)
    requires Enabled(c, s, t) && (HasCall(t) ==> i != t.call)
    ensures i in Next(c, s, t).calls <==> i in s.calls
    ensures i in s.calls ==> Next(c, s, t).calls[i] == s.calls[i]
  {
  }

  lemma FlightsKept(s: State, s': State, i: nat)
    requires Flights(s) && s'.flights == s.flights && i in s'.calls
    requires forall j :: j != i ==> (j in s'.calls <==> j in s.calls)
    requires forall j :: j != i && j in s.calls ==> s'.calls[j] == s.calls[j]
    requires Leads(s'.calls[i]) <==> i in s.calls && Leads(s.calls[i])
    requires Leads(s'.calls[i]) ==> s'.calls[i].key == s.calls[i].key
    ensures Flights(s')
  {
  }

  lemma FlightsJoin(c: Config, s: State, t: Step)
    requires Flights(s) && Enabled(c, s, t) && t.Join?
    ensures Flights(Next(c, s, t))
  {
    var s', k := Next(c, s, t), s.calls[t.call].key;
    if k !in s.flights {
      assert s'.calls == s.calls[t.call := Leading(k)] && s'.flights == s.flights[k := t.call];
      FlightsLead(s, s', t.call, k);
    } else {
      assert s'.calls == s.calls[t.call := s'.calls[t.call]];
      FlightsKept(s, s', t.call);
    }
  }

  lemma FlightsLead(s: State, s': State, i: nat, k: Key)
    requires Flights(s) && k !in s.flights && (i in s.calls ==> !Leads(s.calls[i]))
    requires s'.calls == s.calls[i := Leading(k)] && s'.flights == s.flights[k := i]
    ensures Flights(s')
  {
  }

  lemma FlightsDrop(c: Config, s: State, t: Step)
    requires Flights(s) && Enabled(c, s, t) && t.Drop?
    ensures Flights(Next(c, s, t))
  {
    var s', k := Next(c, s, t), s.calls[t.call].key;
    assert s.flights[k] == t.call;
    assert s'.flights == s.flights - {k};
    assert forall j :: j in s.calls && j != t.call ==> s'.calls[j] == s.calls[j];
  }

  /** Only joining and dropping change who leads. */
  lemma RoleKept(c: Config, s: State, t: Step)
    requires Enabled(c, s, t) && HasCall(t) && !t.Join? && !t.Drop?
    ensures var s' := Next(c, s, t);
            && s'.flights == s.flights && t.call in s'.calls
            && (Leads(s'.calls[t.call]) <==> t.call in s.calls && Leads(s.calls[t.call]))
            && (Leads(s'.calls[t.call]) ==> s'.calls[t.call].key == s.calls[t.call].key)
  {
  }

  lemma FlightsMove(c: Config, s: State, t: Step)
    requires Flights(s) && Enabled(c, s, t) && HasCall(t) && !t.Join? && !t.Drop?
    ensures Flights(Next(c, s, t))
  {
    var s' := Next(c, s, t);
    RoleKept(c, s, t);
    forall j | j != t.call
      ensures j in s'.calls <==> j in s.calls
      ensures j in s.calls ==> s'.calls[j] == s.calls[j]
    {
      OthersStay(c, s, t, j);
    }
    FlightsKept(s, s', t.call);
  }

  lemma FlightsStep(c: Config, s: State, t: Step)
    requires Flights(s) && Enabled(c, s, t)
    ensures Flights(Next(c, s, t))
  {
    if t.Join? {
      FlightsJoin(c, s, t);
    } else if t.Drop? {
      FlightsDrop(c, s, t);
    } else if HasCall(t) {
      FlightsMove(c, s, t);
    }
  }

  lemma SignalledStep(c: Config, s: State, t: Step, i: nat)
    requires Signals(s) && Enabled(c, s, t) && i in Next(c, s, t).calls && Next(c, s, t).calls[i].Signalled?
    ensures var s' := Next(c, s, t); i in s'.landed && s'.landed[i] == s'.calls[i].landed
  {
    if !HasCall(t) || i != t.call { OthersStay(c, s, t, i); }
  }

  lemma LandedStep(c: Config, s: State, t: Step, i: nat)
    requires Signals(s) && Enabled(c, s, t) && i in Next(c, s, t).landed
    ensures var s' := Next(c, s, t);
            i in s'.calls && HasLanded(s'.calls[i], s'.landed[i]) && s'.landed[i].signalledAt <= s'.now
  {
    if !HasCall(t) || i != t.call {
      OthersStay(c, s, t, i);
      assert HasLanded(s.calls[i], s.landed[i]);
    } else {
      assert t.Signal? || t.Drop?;
    }
  }

  lemma SignalsStep(c: Config, s: State, t: Step)
    requires Signals(s) && Enabled(c, s, t)
    ensures Signals(Next(c, s, t))
  {
    var s' := Next(c, s, t);
    forall i | i in s'.calls && s'.calls[i].Signalled? ensures i in s'.landed && s'.landed[i] == s'.calls[i].landed {
      SignalledStep(c, s, t, i);
    }
    forall i | i in s'.landed
      ensures i in s'.calls && HasLanded(s'.calls[i], s'.landed[i]) && s'.landed[i].signalledAt <= s'.now
    {
      LandedStep(c, s, t, i);
    }
  }

  /** The call leads the flight of k, or has returned from it. */
  predicate LedFor(pc: Pc, k: Key) {
    (Leads(pc) && pc.key == k) || (pc.Done? && pc.question == AskFlag(k))
  }

  /** Who waits, or has waited, shares the flight of its own key. */
  ghost predicate ShareRight(s: State, pc: Pc) {
    && (pc.Waiting? ==> pc.leader in s.calls && LedFor(s.calls[pc.leader], pc.key))
    && (pc.Done? && pc.how.Joined? ==>
          && pc.question.AskFlag? && pc.how.leader in s.landed && s.landed[pc.how.leader] == pc.how.landed
          && pc.how.leader in s.calls && LedFor(s.calls[pc.how.leader], pc.question.key))
  }

  ghost predicate Shares(s: State) {
    forall i :: i in s.calls ==> ShareRight(s, s.calls[i])
  }

  lemma LedForKept(c: Config, s: State, t: Step, l: nat, k: Key)
    requires Enabled(c, s, t) && l in s.calls && LedFor(s.calls[l], k)
    ensures l in Next(c, s, t).calls && LedFor(Next(c, s, t).calls[l], k)
  {
    if !HasCall(t) || l != t.call {
      OthersStay(c, s, t, l);
    } else {
      LeaderMoves(c, s, t, k);
    }
  }

  lemma LeaderMoves(c: Config, s: State, t: Step, k: Key)
    requires Enabled(c, s, t) && HasCall(t) && t.call in s.calls && LedFor(s.calls[t.call], k)
    ensures t.call in Next(c, s, t).calls && LedFor(Next(c, s, t).calls[t.call], k)
  {
    assert Leads(s.calls[t.call]);
    assert t.Read? || t.Publish? || t.Signal? || t.Drop?;
  }

  lemma LandedKept(c: Config, s: State, t: Step, l: nat)
    requires Signals(s) && Enabled(c, s, t) && l in s.landed
    ensures l in Next(c, s, t).landed && Next(c, s, t).landed[l] == s.landed[l]
  {
    assert HasLanded(s.calls[l], s.landed[l]);
  }

  lemma JoinShares(c: Config, s: State, t: Step)
    requires Flights(s) && Enabled(c, s, t) && t.Join?
    ensures ShareRight(Next(c, s, t), Next(c, s, t).calls[t.call])
  {
  }

  lemma MoverShares(c: Config, s: State, t: Step)
    requires Signals(s) && Shares(s) && Enabled(c, s, t) && HasCall(t) && !t.Join?
    ensures t.call in Next(c, s, t).calls && ShareRight(Next(c, s, t), Next(c, s, t).calls[t.call])
  {
    if t.Wake? {
      assert ShareRight(s, s.calls[t.call]);
      LedForKept(c, s, t, s.calls[t.call].leader, s.calls[t.call].key);
    }
  }

  lemma SharesStep(c: Config, s: State, t: Step)
    requires Flights(s) && Signals(s) && Shares(s) && Enabled(c, s, t)
    ensures Shares(Next(c, s, t))
  {
    var s' := Next(c, s, t);
    forall i | i in s'.calls ensures ShareRight(s', s'.calls[i]) {
      if HasCall(t) && i == t.call {
        if t.Join? { JoinShares(c, s, t); } else { MoverShares(c, s, t); }
      } else {
        OthersStay(c, s, t, i);
        OtherShares(c, s, t, i);
      }
    }
  }

  lemma OtherShares(c: Config, s: State, t: Step, i: nat)
    requires Signals(s) && Shares(s) && Enabled(c, s, t) && i in s.calls
    ensures ShareRight(Next(c, s, t), s.calls[i])
  {
    var pc := s.calls[i];
    assert ShareRight(s, pc);
    if pc.Waiting? {
      LedForKept(c, s, t, pc.leader, pc.key);
    } else if pc.Done? && pc.how.Joined? {
      LedForKept(c, s, t, pc.how.leader, pc.question.key);
      LandedKept(c, s, t, pc.how.leader);
    }
  }

  // ----- Entries -----

  /** An entry says what the table said when its load read it. An env entry says that no row had
      the name. */
  ghost predicate Agrees(db: Db, k: Key, isActive: bool) {
    if k.Env? then isActive && Fetch(db, k).NotFound? else isActive == Flag(Fetch(db, k))
  }

  ghost predicate EntryRight(c: Config, s: State, k: Key)
    requires k in s.entries
  {
    && k in s.prov && s.prov[k].origin.ok
    && Agrees(s.prov[k].origin.db, k, s.entries[k].isActive)
    && s.entries[k].expiresAt == s.prov[k].publishedAt + c.ttl
    && s.prov[k].publishedAt <= s.now
  }

  ghost predicate EntriesRight(c: Config, s: State) {
    && (forall k :: k in s.entries ==> EntryRight(c, s, k))
    && |s.entries| <= c.maxEntries
  }

  /** Env keys occur exactly where env users are resolved. */
  predicate PcRight(pc: Pc) {
    match pc
    case Sampled(k, _) => !k.Env?
    case Missed(k) => !k.Env?
    case Leading(k) => !k.Env?
    case HasRead(k, _) => !k.Env?
    case Published(k, _, _) => !k.Env?
    case Signalled(k, _) => !k.Env?
    case EnvSampled(e, k, _) => k.Env? && k.email == e
    case Asking(e, env) => env.Some? ==> env.value.Env? && env.value.email == e
    case Asked(e, env, _) => env.Some? ==> env.value.Env? && env.value.email == e
    case _ => true
  }

  ghost predicate EnvKeysRight(s: State) {
    forall i :: i in s.calls ==> PcRight(s.calls[i])
  }

  lemma EnvKeysStep(c: Config, s: State, t: Step)
    requires EnvKeysRight(s) && Enabled(c, s, t)
    ensures EnvKeysRight(Next(c, s, t))
  {
    var s' := Next(c, s, t);
    forall i | i in s'.calls ensures PcRight(s'.calls[i]) {
      if !HasCall(t) || i != t.call { OthersStay(c, s, t, i); }
    }
  }

  lemma WriteAgrees(s: State, i: nat)
    requires EnvKeysRight(s) && i in s.calls && Reading(s.calls[i]) && Writes(s.calls[i]).Some?
    ensures var w := Writes(s.calls[i]).value; s.calls[i].origin.ok && Agrees(s.calls[i].origin.db, w.key, w.isActive)
  {
  }

  lemma PublishKeepsEntries(c: Config, s: State, t: Step)
    requires EntriesRight(c, s) && EnvKeysRight(s) && Enabled(c, s, t) && t.Publish?
    ensures EntriesRight(c, Next(c, s, t))
  {
    var w := Writes(s.calls[t.call]);
    if w.Some? {
      WriteAgrees(s, t.call);
      StoredKeepsCap(s.entries, w.value.key, Entry(w.value.isActive, s.now + c.ttl), c.maxEntries, t.victim,
                     EntriesAfter(c, s, w, t.victim));
    }
    var s' := Next(c, s, t);
    forall k | k in s'.entries ensures EntryRight(c, s', k) {
      if w.None? || k != w.value.key { assert EntryRight(c, s, k); }
    }
  }

  lemma EntriesStep(c: Config, s: State, t: Step)
    requires EntriesRight(c, s) && EnvKeysRight(s) && Enabled(c, s, t)
    ensures EntriesRight(c, Next(c, s, t))
  {
    if t.Publish? {
      PublishKeepsEntries(c, s, t);
    } else {
      EntriesOnlyGo(c, s, t);
      FewerEntries(c, s, Next(c, s, t));
    }
  }

  /** No step but a publication adds or changes an entry. */
  lemma EntriesOnlyGo(c: Config, s: State, t: Step)
    requires Enabled(c, s, t) && !t.Publish?
    ensures var s' := Next(c, s, t);
            && s.now <= s'.now && s'.prov == s.prov
            && forall k :: k in s'.entries ==> k in s.entries && s'.entries[k] == s.entries[k]
  {
  }

  lemma FewerEntries(c: Config, s: State, s': State)
    requires EntriesRight(c, s) && s.now <= s'.now && s'.prov == s.prov
    requires forall k :: k in s'.entries ==> k in s.entries && s'.entries[k] == s.entries[k]
    ensures EntriesRight(c, s')
  {
    forall k | k in s'.entries ensures EntryRight(c, s', k) { assert EntryRight(c, s, k); }
    SmallerSet(s'.entries.Keys, s.entries.Keys);
  }

  lemma SmallerSet(a: set<Key>, b: set<Key>)
    requires a <= b
    ensures |a| <= |b|
  {
    if a != {} {
      var k :| k in a;
      SmallerSet(a - {k}, b - {k});
    }
  }

  // ----- Answers -----

  /** The answer is what an uncached lookup would have said at its origin, or that load's error. */
  ghost predicate AnswerRight(c: Config, pc: Pc)
    requires pc.Done?
  {
    && pc.answer == AnswerFrom(OriginOf(pc.how), pc.question)
    && (pc.how.Hit? ==> pc.how.origin.ok && pc.how.at < pc.how.publishedAt + c.ttl)
  }

  ghost predicate AnswersRight(c: Config, s: State) {
    forall i :: i in s.calls && s.calls[i].Done? ==> AnswerRight(c, s.calls[i])
  }

  lemma HitRight(c: Config, s: State, i: nat)
    requires EntriesRight(c, s) && EnvKeysRight(s) && i in s.calls && (s.calls[i].Sampled? || s.calls[i].EnvSampled?)
    requires Hits(s, s.calls[i]).Some?
    ensures AnswerRight(c, AfterCheck(s, s.calls[i]))
  {
    assert EntryRight(c, s, CheckKey(s.calls[i]));
  }

  /** A call that finishes, other than by a hit, answers from the origin it names. */
  lemma FinishRight(c: Config, s: State, t: Step)
    requires Enabled(c, s, t) && HasCall(t) && !t.Check? && t.call in Next(c, s, t).calls && Next(c, s, t).calls[t.call].Done?
    ensures AnswerRight(c, Next(c, s, t).calls[t.call])
  {
    assert t.Publish? || t.Drop? || t.Wake?;
  }

  lemma AnswersStep(c: Config, s: State, t: Step)
    requires AnswersRight(c, s) && EntriesRight(c, s) && EnvKeysRight(s) && Enabled(c, s, t)
    ensures AnswersRight(c, Next(c, s, t))
  {
    var s' := Next(c, s, t);
    forall i | i in s'.calls && s'.calls[i].Done? ensures AnswerRight(c, s'.calls[i]) {
      if !HasCall(t) || i != t.call {
        OthersStay(c, s, t, i);
        assert AnswerRight(c, s.calls[i]);
      } else if t.Check? {
        HitRight(c, s, i);
      } else {
        FinishRight(c, s, t);
      }
    }
  }

  // ----- The whole invariant -----

  ghost predicate Inv(c: Config, s: State) {
    Flights(s) && Signals(s) && Shares(s) && EnvKeysRight(s) && EntriesRight(c, s) && AnswersRight(c, s)
  }

  lemma InvStep(c: Config, s: State, t: Step)
    requires Inv(c, s) && Enabled(c, s, t)
    ensures Inv(c, Next(c, s, t))
  {
    FlightsStep(c, s, t);
    SignalsStep(c, s, t);
    SharesStep(c, s, t);
    EnvKeysStep(c, s, t);
    EntriesStep(c, s, t);
    AnswersStep(c, s, t);
  }

  // ----- Runs -----

  datatype Run = Start(db: Db, now: int) | Then(before: Run, step: Step)

  ghost function After(c: Config, r: Run): State {
    match r
    case Start(db, now) => State(now, 0, db, map[], map[], map[], map[], map[])
    case Then(before, t) =>
      var s := After(c, before);
      if Enabled(c, s, t) then Next(c, s, t) else s.(step := s.step + 1)
  }

  /** Every step of the run is enabled where it is taken. */
  ghost predicate Legal(c: Config, r: Run) {
    r.Then? ==> Legal(c, r.before) && Enabled(c, After(c, r.before), r.step)
  }

  lemma {:induction false} RunInv(c: Config, r: Run)
    requires c.maxEntries >= 0 && Legal(c, r)
    ensures Inv(c, After(c, r))
  {
    if r.Then? {
      RunInv(c, r.before);
      InvStep(c, After(c, r.before), r.step);
    }
  }

  // ----- Singleflight -----

  /** In every interleaving at most one lookup load per key is between registering its flight and
      dropping it, and it is the registered one. */
  lemma OneLoadPerKey(c: Config, r: Run, i: nat, j: nat)
    requires c.maxEntries >= 0 && Legal(c, r) && i in After(c, r).calls && j in After(c, r).calls
    requires Leads(After(c, r).calls[i]) && Leads(After(c, r).calls[j])
    requires After(c, r).calls[i].key == After(c, r).calls[j].key
    ensures i == j
    ensures var s := After(c, r); s.calls[i].key in s.flights && s.flights[s.calls[i].key] == i
  {
    RunInv(c, r);
  }

  /** Every waiter returns exactly its leader's value, or its leader's error. */
  lemma WaiterAnswersLikeLeader(c: Config, r: Run, i: nat)
    requires c.maxEntries >= 0 && Legal(c, r) && i in After(c, r).calls
    requires After(c, r).calls[i].Done? && After(c, r).calls[i].how.Joined?
    ensures var s, pc := After(c, r), After(c, r).calls[i];
            && pc.how.leader in s.calls
            && (s.calls[pc.how.leader].Signalled? || s.calls[pc.how.leader].Done?)
            && (s.calls[pc.how.leader].Done? ==>
                  s.calls[pc.how.leader].question == pc.question && s.calls[pc.how.leader].answer == pc.answer)
  {
    RunInv(c, r);
    var s, pc := After(c, r), After(c, r).calls[i];
    assert ShareRight(s, pc) && AnswerRight(c, pc);
    assert HasLanded(s.calls[pc.how.leader], s.landed[pc.how.leader]);
  }

  /** A failed load never creates, changes or evicts an entry. */
  lemma FailedLoadStoresNothing(c: Config, s: State, t: Step)
    requires Enabled(c, s, t) && t.Publish? && !s.calls[t.call].origin.ok
    ensures Next(c, s, t).entries == s.entries && Next(c, s, t).prov == s.prov
  {
  }
}
