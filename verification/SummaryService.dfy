/** The cached failure summaries of api/internal/failure/service.go.

    The input hash is any function of the evidence; InputKey says what the source feeds to
    SHA-256. The stores and the model are inputs. First the two methods as one request runs
    them, then the protocol of many requests interleaving between their store reads, the model
    call, the upsert and the singleflight group. */
module SummaryService {
  import opened Options
  import opened Decimal
  import opened InputKey

  datatype Config = Config(enabled: bool, model: string, inputHash: Evidence -> string)

  datatype Key = Key(buildID: int, historyID: string)

  datatype Summary = Summary(inputHash: string, hypothesis: string, model: string)

  datatype Error = NoEvidence | ModelFailed | BlankHypothesis

  datatype Result = Disabled | Served(cached: bool, summary: Summary) | Soft(error: Error)

  datatype Reply = ModelError | Hypothesis(text: string)

  /** No objective failure evidence: nothing is read from the cache or generated. */
  predicate HasEvidence(ev: Evidence) { ev.errorMessage != "" || ev.stepPath != [] }

  predicate Space(ch: char) { ch == ' ' || '\t' <= ch <= '\r' }

  predicate Blank(s: string) { forall i :: 0 <= i < |s| ==> Space(s[i]) }

  /** Blank means: nothing but spaces, tabs, line feeds, vertical tabs, form feeds and carriage returns. */
  lemma BlankExactly(s: string)
    ensures Blank(s) <==> forall ch :: ch in s ==> ch in {' ', '\t', '\n', '\U{0B}', '\U{0C}', '\r'}
  {
    if Blank(s) {
      forall ch | ch in s ensures ch in {' ', '\t', '\n', '\U{0B}', '\U{0C}', '\r'} {
        var i :| 0 <= i < |s| && s[i] == ch;
        assert Space(s[i]);
      }
    } else {
      var i :| 0 <= i < |s| && !Space(s[i]);
      assert s[i] in s;
    }
  }

  /** The singleflight key of a request. */
  function FlightKey(k: Key): string { FormatInt(k.buildID) + "|" + k.historyID }

  /** Requests share a flight exactly when they name the same build and test history. */
  lemma FlightKeyExact(k: Key, q: Key)
    ensures FlightKey(k) == FlightKey(q) <==> k == q
  {
    if FlightKey(k) == FlightKey(q) {
      SeparatedInjective(k.buildID, q.buildID, '|', k.historyID, q.historyID);
    }
  }

  // ----- One request -----

  /** What a model reply comes to; a blank hypothesis is an error like a failed call. */
  function Answer(config: Config, hash: string, reply: Reply): Result {
    match reply
    case ModelError => Soft(ModelFailed)
    case Hypothesis(text) => if Blank(text) then Soft(BlankHypothesis) else Served(false, Summary(hash, text, config.model))
  }

  class Service {
    const config: Config
    var summaries: map<Key, Summary>
    var modelCalls: nat

    constructor (config: Config)
      ensures this.config == config && summaries == map[] && modelCalls == 0
    {
      this.config := config;
      summaries, modelCalls := map[], 0;
    }

    ghost predicate Fresh(k: Key, hash: string)
      reads this
    {
      k in summaries && summaries[k].inputHash == hash
    }

    /** A matching row is served without a model call; a failed or blank reply stores nothing; a
        stored row carries a non-blank hypothesis under the request's own hash. */
    method Generate(k: Key, hash: string, getOk: bool, reply: Reply, upsertOk: bool) returns (r: Result)
      modifies this
      ensures getOk && old(Fresh(k, hash)) ==>
                r == Served(true, old(summaries)[k]) && summaries == old(summaries) && modelCalls == old(modelCalls)
      ensures !(getOk && old(Fresh(k, hash))) ==>
                && modelCalls == old(modelCalls) + 1
                && r == Answer(config, hash, reply)
                && (r == Soft(ModelFailed) <==> reply == ModelError)
                && (r == Soft(BlankHypothesis) <==> reply.Hypothesis? && Blank(reply.text))
                && (reply.Hypothesis? && !Blank(reply.text) ==> r == Served(false, Summary(hash, reply.text, config.model)))
                && summaries == if r.Served? && upsertOk then old(summaries)[k := r.summary] else old(summaries)
    {
      if getOk && k in summaries && summaries[k].inputHash == hash {
        return Served(true, summaries[k]);
      }
      modelCalls := modelCalls + 1;
      match reply
      case ModelError =>
        return Soft(ModelFailed);
      case Hypothesis(text) =>
        if Blank(text) {
          return Soft(BlankHypothesis);
        }
        var rec := Summary(hash, text, config.model);
        if upsertOk {
          summaries := summaries[k := rec];
        }
        return Served(false, rec);
    }

    /** The request reaches the cache: the feature is on and there is evidence. */
    predicate Asks(ev: Evidence) { config.enabled && HasEvidence(ev) }

    /** The request alone, with no other in flight; None stands for a build that cannot be loaded or a
        failing cache read. */
    method SummaryFor(k: Key, buildOk: bool, ev: Evidence, getOk: bool, getOkAgain: bool, reply: Reply, upsertOk: bool) returns (r: Option<Result>)
      modifies this
      ensures buildOk && Asks(ev) && getOk && old(Fresh(k, config.inputHash(ev))) ==>
                r == Some(Served(true, old(summaries)[k])) && modelCalls == old(modelCalls)
      ensures summaries != old(summaries) ==>
                && k in summaries && summaries == old(summaries)[k := summaries[k]]
                && summaries[k].inputHash == config.inputHash(ev) && !Blank(summaries[k].hypothesis)
                && reply == Hypothesis(summaries[k].hypothesis)
      ensures r.Some? && r.value.Served? && !r.value.cached && upsertOk ==> Fresh(k, config.inputHash(ev))
      ensures r == Some(Disabled) <==> !config.enabled
      ensures r == Some(Soft(NoEvidence)) <==> config.enabled && buildOk && ev.errorMessage == "" && ev.stepPath == []
      ensures r.None? <==> config.enabled && (!buildOk || (HasEvidence(ev) && !getOk))
      ensures !(buildOk && Asks(ev) && getOk) ==> summaries == old(summaries) && modelCalls == old(modelCalls)
      ensures buildOk && Asks(ev) && getOk && !old(Fresh(k, config.inputHash(ev))) ==>
                && modelCalls == old(modelCalls) + 1
                && r.value == Answer(config, config.inputHash(ev), reply)
    {
      if !config.enabled {
        return Some(Disabled);
      }
      if !buildOk {
        return None;
      }
      if ev.errorMessage == "" && |ev.stepPath| == 0 {
        return Some(Soft(NoEvidence));
      }
      var hash := config.inputHash(ev);
      if !getOk {
        return None;
      }
      if k in summaries && summaries[k].inputHash == hash {
        return Some(Served(true, summaries[k]));
      }
      var g := Generate(k, hash, getOkAgain, reply, upsertOk);
      return Some(g);
    }
  }

  // ----- Many requests -----

  /** Where a request stands: about to read the cache; missed it; leading a flight before the
      second read; waiting for the model; about to store; finished but still in flight; waiting
      for the leader; answered, by its own flight or its leader's. */
  datatype Request =
    | Reading(key: Key, ev: Evidence)
    | Missed(key: Key, ev: Evidence)
    | Leading(key: Key, ev: Evidence)
    | Calling(key: Key, ev: Evidence)
    | Storing(key: Key, ev: Evidence, text: string)
    | Landing(key: Key, ev: Evidence, result: Result)
    | Waiting(key: Key, ev: Evidence, leader: nat)
    | Answered(key: Key, ev: Evidence, result: Result, joined: Option<nat>)
    | Errored(key: Key, ev: Evidence)

  /** `accepted` records every non-blank model reply: for which key, from which evidence. */
  datatype Accepted = Accepted(key: Key, ev: Evidence, text: string)

  datatype State = State(
    cache: map<Key, Summary>, flights: map<Key, nat>, requests: map<nat, Request>, accepted: seq<Accepted>)

  datatype Step =
    | Begin(id: nat, key: Key, ev: Evidence)
    | ReadCache(id: nat, ok: bool)
    | JoinOrLead(id: nat)
    | ReadAgain(id: nat, ok: bool)
    | ModelReply(id: nat, reply: Reply)
    | Upsert(id: nat, ok: bool)
    | Land(id: nat)

  predicate InFlight(r: Request) { r.Leading? || r.Calling? || r.Storing? || r.Landing? }

  predicate Enabled(s: State, t: Step) {
    match t
    case Begin(id, _, ev) => id !in s.requests && HasEvidence(ev)
    case ReadCache(id, _) => id in s.requests && s.requests[id].Reading?
    case JoinOrLead(id) => id in s.requests && s.requests[id].Missed?
    case ReadAgain(id, _) => id in s.requests && s.requests[id].Leading?
    case ModelReply(id, _) => id in s.requests && s.requests[id].Calling?
    case Upsert(id, _) => id in s.requests && s.requests[id].Storing?
    case Land(id) => id in s.requests && s.requests[id].Landing?
  }

  predicate Matches(c: Config, s: State, k: Key, ev: Evidence) {
    k in s.cache && s.cache[k].inputHash == c.inputHash(ev)
  }

  function Next(c: Config, s: State, t: Step): State
    requires Enabled(s, t)
  {
    if t.Begin? then s.(requests := s.requests[t.id := Reading(t.key, t.ev)])
    else
      var r := s.requests[t.id];
      match t
      case ReadCache(id, ok) =>
        Moved(s, id, if !ok then Errored(r.key, r.ev)
                     else if Matches(c, s, r.key, r.ev) then Answered(r.key, r.ev, Served(true, s.cache[r.key]), None)
                     else Missed(r.key, r.ev))
      case JoinOrLead(id) =>
        if r.key in s.flights then Moved(s, id, Waiting(r.key, r.ev, s.flights[r.key]))
        else Moved(s, id, Leading(r.key, r.ev)).(flights := s.flights[r.key := id])
      case ReadAgain(id, ok) =>
        Moved(s, id, if ok && Matches(c, s, r.key, r.ev) then Landing(r.key, r.ev, Served(true, s.cache[r.key]))
                     else Calling(r.key, r.ev))
      case ModelReply(id, reply) =>
        if reply.ModelError? then Moved(s, id, Landing(r.key, r.ev, Soft(ModelFailed)))
        else if Blank(reply.text) then Moved(s, id, Landing(r.key, r.ev, Soft(BlankHypothesis)))
        else Moved(s, id, Storing(r.key, r.ev, reply.text)).(accepted := s.accepted + [Accepted(r.key, r.ev, reply.text)])
      case Upsert(id, ok) =>
        var rec := Summary(c.inputHash(r.ev), r.text, c.model);
        var s' := Moved(s, id, Landing(r.key, r.ev, Served(false, rec)));
        if ok then s'.(cache := s.cache[r.key := rec]) else s'
      case Land(id) =>
        s.(flights := s.flights - {r.key},
           requests := map q | q in s.requests :: Released(s.requests[q], q, id, r.result))
  }

  /** A request q once the flight of `leader` has landed. */
  function Released(r: Request, q: nat, leader: nat, result: Result): Request {
    if q == leader then Answered(r.key, r.ev, result, None)
    else if r.Waiting? && r.leader == leader then Answered(r.key, r.ev, result, Some(leader))
    else r
  }

  function Moved(s: State, id: nat, r: Request): State { s.(requests := s.requests[id := r]) }

  // ----- Invariants -----

  /** A flight is registered for a key exactly while its leader is between leading and landing,
      so generations of one key never overlap. */
  ghost predicate OneFlight(s: State) {
    && (forall id :: id in s.requests && InFlight(s.requests[id]) ==>
          s.requests[id].key in s.flights && s.flights[s.requests[id].key] == id)
    && (forall k :: k in s.flights ==> s.flights[k] in s.requests && InFlight(s.requests[s.flights[k]]) && s.requests[s.flights[k]].key == k)
    && (forall id :: id in s.requests && s.requests[id].Waiting? ==>
          s.requests[id].key in s.flights && s.flights[s.requests[id].key] == s.requests[id].leader)
  }

  /** Every cached row was accepted from the model for exactly the evidence it is filed under. */
  ghost predicate RowsAreAccepted(c: Config, s: State) {
    && (forall k :: k in s.cache ==> AcceptedFor(c, s, k, s.cache[k]))
    && (forall id :: id in s.requests && s.requests[id].Storing? ==>
          Accepted(s.requests[id].key, s.requests[id].ev, s.requests[id].text) in s.accepted)
    && (forall i :: 0 <= i < |s.accepted| ==> !Blank(s.accepted[i].text))
  }

  ghost predicate AcceptedFor(c: Config, s: State, k: Key, row: Summary) {
    exists a :: a in s.accepted && a.key == k && row.inputHash == c.inputHash(a.ev) && row.hypothesis == a.text
  }

  lemma OneFlightLand(c: Config, s: State, t: Step)
    requires OneFlight(s) && Enabled(s, t) && t.Land?
    ensures OneFlight(Next(c, s, t))
  {
  }

  lemma OneFlightJoin(c: Config, s: State, t: Step)
    requires OneFlight(s) && Enabled(s, t) && t.JoinOrLead?
    ensures OneFlight(Next(c, s, t))
  {
  }

  lemma OneFlightStep(c: Config, s: State, t: Step)
    requires OneFlight(s) && Enabled(s, t)
    ensures OneFlight(Next(c, s, t))
  {
    if t.Land? {
      OneFlightLand(c, s, t);
    } else if t.JoinOrLead? {
      OneFlightJoin(c, s, t);
    } else {
      RoleKept(c, s, t);
      forall id | id != t.id
        ensures id in Next(c, s, t).requests <==> id in s.requests
        ensures id in s.requests ==> Next(c, s, t).requests[id] == s.requests[id]
      {
        OthersStay(c, s, t, id);
      }
      OneFlightKept(s, Next(c, s, t), t.id);
    }
  }

  /** A step other than Land moves only the request that takes it. */
  lemma OthersStay(c: Config, s: State, t: Step, id: nat)
    requires Enabled(s, t) && !t.Land? && id != t.id
    ensures id in Next(c, s, t).requests <==> id in s.requests
    ensures id in s.requests ==> Next(c, s, t).requests[id] == s.requests[id]
  {
  }

  /** Only joining and landing change who is in flight. */
  lemma RoleKept(c: Config, s: State, t: Step)
    requires Enabled(s, t) && !t.Land? && !t.JoinOrLead?
    ensures var s' := Next(c, s, t);
            && s'.flights == s.flights && t.id in s'.requests && !s'.requests[t.id].Waiting?
            && (InFlight(s'.requests[t.id]) <==> t.id in s.requests && InFlight(s.requests[t.id]))
            && (t.id in s.requests ==> s'.requests[t.id].key == s.requests[t.id].key)
  {
  }

  lemma OneFlightKept(s: State, s': State, id: nat)
    requires OneFlight(s) && s'.flights == s.flights && id in s'.requests && !s'.requests[id].Waiting?
    requires forall q :: q != id ==> (q in s'.requests <==> q in s.requests)
    requires forall q :: q != id && q in s.requests ==> s'.requests[q] == s.requests[q]
    requires InFlight(s'.requests[id]) <==> id in s.requests && InFlight(s.requests[id])
    requires id in s.requests ==> s'.requests[id].key == s.requests[id].key
    ensures OneFlight(s')
  {
  }

  lemma AcceptedForLater(c: Config, s: State, s': State, k: Key, row: Summary)
    requires AcceptedFor(c, s, k, row) && forall a :: a in s.accepted ==> a in s'.accepted
    ensures AcceptedFor(c, s', k, row)
  {
  }

  lemma AcceptedGrows(c: Config, s: State, t: Step)
    requires Enabled(s, t)
    ensures forall a :: a in s.accepted ==> a in Next(c, s, t).accepted
  {
  }

  lemma CacheRowsStep(c: Config, s: State, t: Step, k: Key)
    requires RowsAreAccepted(c, s) && Enabled(s, t) && k in Next(c, s, t).cache
    ensures AcceptedFor(c, Next(c, s, t), k, Next(c, s, t).cache[k])
  {
    var s' := Next(c, s, t);
    AcceptedGrows(c, s, t);
    if t.Upsert? && k == s.requests[t.id].key && t.ok {
      var r := s.requests[t.id];
      assert Accepted(r.key, r.ev, r.text) in s'.accepted;
    } else {
      assert k in s.cache && s'.cache[k] == s.cache[k];
      AcceptedForLater(c, s, s', k, s.cache[k]);
    }
  }

  lemma StoringStep(c: Config, s: State, t: Step, id: nat)
    requires RowsAreAccepted(c, s) && Enabled(s, t) && id in Next(c, s, t).requests && Next(c, s, t).requests[id].Storing?
    ensures var r := Next(c, s, t).requests[id]; Accepted(r.key, r.ev, r.text) in Next(c, s, t).accepted
  {
    AcceptedGrows(c, s, t);
  }

  lemma RowsStep(c: Config, s: State, t: Step)
    requires RowsAreAccepted(c, s) && Enabled(s, t)
    ensures RowsAreAccepted(c, Next(c, s, t))
  {
    var s' := Next(c, s, t);
    forall k | k in s'.cache ensures AcceptedFor(c, s', k, s'.cache[k]) {
      CacheRowsStep(c, s, t, k);
    }
    forall id | id in s'.requests && s'.requests[id].Storing?
      ensures Accepted(s'.requests[id].key, s'.requests[id].ev, s'.requests[id].text) in s'.accepted
    {
      StoringStep(c, s, t, id);
    }
  }

  // ----- Runs -----

  datatype Run = Start | Then(before: Run, step: Step)

  const BOOT := State(map[], map[], map[], [])

  function After(c: Config, r: Run): State {
    match r
    case Start => BOOT
    case Then(before, t) => var s := After(c, before); if Enabled(s, t) then Next(c, s, t) else s
  }

  ghost predicate Legal(c: Config, r: Run) {
    r.Then? ==> Legal(c, r.before) && Enabled(After(c, r.before), r.step)
  }

  /** Over every run: generations of one key never overlap, and every stored row has a non-blank
      hypothesis the model gave for the evidence whose hash the row carries. */
  lemma {:induction false} RunSafe(c: Config, r: Run)
    requires Legal(c, r)
    ensures OneFlight(After(c, r)) && RowsAreAccepted(c, After(c, r))
  {
    if r.Then? {
      RunSafe(c, r.before);
      OneFlightStep(c, After(c, r.before), r.step);
      RowsStep(c, After(c, r.before), r.step);
    }
  }

  /** Only a successful upsert changes the cache: failed and blank generations leave it alone. */
  lemma OnlyUpsertStores(c: Config, s: State, t: Step)
    requires Enabled(s, t)
    ensures Next(c, s, t).cache != s.cache ==> t.Upsert? && t.ok
    ensures t.ModelReply? && (t.reply.ModelError? || Blank(t.reply.text)) ==>
              Next(c, s, t).cache == s.cache && Next(c, s, t).requests[t.id].Landing?
  {
  }

  // ----- A request on its own -----

  /** A request that is on its own, up to its first cache read. */
  lemma AloneReads(c: Config, s: State, id: nat, k: Key, ev: Evidence, getOk: bool)
    requires id !in s.requests && (ev.errorMessage != "" || ev.stepPath != [])
    ensures Enabled(s, Begin(id, k, ev)) && Enabled(Next(c, s, Begin(id, k, ev)), ReadCache(id, getOk))
    ensures var s' := Next(c, Next(c, s, Begin(id, k, ev)), ReadCache(id, getOk));
            && s'.cache == s.cache && s'.flights == s.flights && id in s'.requests
            && s'.requests[id] ==
               if !getOk then Errored(k, ev)
               else if k in s.cache && s.cache[k].inputHash == c.inputHash(ev) then Answered(k, ev, Served(true, s.cache[k]), None)
               else Missed(k, ev)
  {
  }

  /** ... and from a miss to its answer, whether or not the second read succeeds: a failed or blank
      reply is answered as such and stores nothing; any other is answered and, if the store takes it,
      stored under the hash of the request's evidence. */
  lemma AloneGenerates(c: Config, s: State, id: nat, k: Key, ev: Evidence, getOk: bool, reply: Reply, upsertOk: bool)
    returns (s': State)
    requires id in s.requests && s.requests[id] == Missed(k, ev) && k !in s.flights
    requires !(k in s.cache && s.cache[k].inputHash == c.inputHash(ev))
    ensures id in s'.requests && s'.flights == s.flights
    ensures match reply
            case ModelError => s'.requests[id] == Answered(k, ev, Soft(ModelFailed), None) && s'.cache == s.cache
            case Hypothesis(text) =>
              if Blank(text) then s'.requests[id] == Answered(k, ev, Soft(BlankHypothesis), None) && s'.cache == s.cache
              else
                var row := Summary(c.inputHash(ev), text, c.model);
                && s'.requests[id] == Answered(k, ev, Served(false, row), None)
                && s'.cache == if upsertOk then s.cache[k := row] else s.cache
  {
    var s1 := Next(c, s, JoinOrLead(id));
    assert s1.requests[id] == Leading(k, ev) && s1.cache == s.cache;
    var s2 := Next(c, s1, ReadAgain(id, getOk));
    assert s2.requests[id] == Calling(k, ev) && s2.cache == s.cache;
    var s3 := Next(c, s2, ModelReply(id, reply));
    var s4 := if Accepts(reply) then Next(c, s3, Upsert(id, upsertOk)) else s3;
    assert s4.requests[id].Landing? && s4.requests[id].key == k && s4.flights == s.flights[k := id];
    s' := Next(c, s4, Land(id));
    assert s'.flights == s.flights[k := id] - {k};
  }

  // ----- No needless model call -----

  /** The second cache read of every generation succeeds. */
  predicate SecondReadsWork(r: Run) {
    r.Then? ==> SecondReadsWork(r.before) && (r.step.ReadAgain? ==> r.step.ok)
  }

  ghost predicate CallsAreMisses(c: Config, s: State) {
    forall id :: id in s.requests && s.requests[id].Calling? ==> !Matches(c, s, s.requests[id].key, s.requests[id].ev)
  }

  lemma CallsAreMissesStep(c: Config, s: State, t: Step)
    requires OneFlight(s) && CallsAreMisses(c, s) && Enabled(s, t) && (t.ReadAgain? ==> t.ok)
    ensures CallsAreMisses(c, Next(c, s, t))
  {
    var s' := Next(c, s, t);
    forall id | id in s'.requests && s'.requests[id].Calling?
      ensures !Matches(c, s', s'.requests[id].key, s'.requests[id].ev)
    {
      if id != t.id {
        assert s'.requests[id] == s.requests[id];
        assert s.flights[s.requests[id].key] == id;
      }
    }
  }

  /** While the model is being asked, no matching row is stored, neither when the call began nor
      since: only the flight that asks could store one. Unless its second read failed. */
  lemma {:induction false} ModelAskedOnlyOnMiss(c: Config, r: Run)
    requires Legal(c, r) && SecondReadsWork(r)
    ensures CallsAreMisses(c, After(c, r))
  {
    if r.Then? {
      ModelAskedOnlyOnMiss(c, r.before);
      RunSafe(c, r.before);
      CallsAreMissesStep(c, After(c, r.before), r.step);
    }
  }

  // ----- Whose summary a request is served -----

  /** A request's key and evidence never change. */
  lemma EvidenceFixed(c: Config, s: State, t: Step, id: nat)
    requires Enabled(s, t) && id in s.requests
    ensures var s' := Next(c, s, t);
            id in s'.requests && s'.requests[id].key == s.requests[id].key && s'.requests[id].ev == s.requests[id].ev
  {
  }

  /** The summary, if there is one, was made for this evidence. */
  predicate MadeFor(c: Config, result: Result, ev: Evidence) {
    result.Served? ==> result.summary.inputHash == c.inputHash(ev)
  }

  /** A request gets what was made for the evidence of whoever led its flight. */
  ghost predicate ServedByLeader(c: Config, s: State, r: Request) {
    && (r.Landing? ==> MadeFor(c, r.result, r.ev))
    && (r.Waiting? ==> r.leader in s.requests)
    && (r.Answered? && r.joined.None? ==> MadeFor(c, r.result, r.ev))
    && (r.Answered? && r.joined.Some? ==>
          r.joined.value in s.requests && MadeFor(c, r.result, s.requests[r.joined.value].ev))
  }

  lemma OwnStepServes(c: Config, s: State, t: Step)
    requires OneFlight(s) && Enabled(s, t) && ServedByLeader(c, s, if t.Begin? then Reading(t.key, t.ev) else s.requests[t.id])
    ensures t.id in Next(c, s, t).requests && ServedByLeader(c, Next(c, s, t), Next(c, s, t).requests[t.id])
  {
  }

  lemma OtherStepServes(c: Config, s: State, t: Step, id: nat)
    requires Enabled(s, t) && id in s.requests && id != t.id && ServedByLeader(c, s, s.requests[id])
    requires t.id in s.requests ==> ServedByLeader(c, s, s.requests[t.id])
    ensures id in Next(c, s, t).requests && ServedByLeader(c, Next(c, s, t), Next(c, s, t).requests[id])
  {
    var r := s.requests[id];
    if r.Waiting? {
      EvidenceFixed(c, s, t, r.leader);
    } else if r.Answered? && r.joined.Some? {
      EvidenceFixed(c, s, t, r.joined.value);
    }
  }

  lemma {:induction false} AllServedByLeader(c: Config, r: Run, id: nat)
    requires Legal(c, r) && id in After(c, r).requests
    ensures ServedByLeader(c, After(c, r), After(c, r).requests[id])
  {
    if r.Then? {
      var s, t := After(c, r.before), r.step;
      RunSafe(c, r.before);
      if t.id in s.requests { AllServedByLeader(c, r.before, t.id); }
      if id == t.id {
        OwnStepServes(c, s, t);
      } else {
        AllServedByLeader(c, r.before, id);
        OtherStepServes(c, s, t, id);
      }
    }
  }

  /** A flight is shared by build and history alone, whatever the evidence. So a served summary
      carries the hash of the request's own evidence if and only if the request joined no flight,
      or one whose leader has evidence with that hash. */
  lemma OwnHashIff(c: Config, r: Run, id: nat)
    requires Legal(c, r) && id in After(c, r).requests
    requires After(c, r).requests[id].Answered? && After(c, r).requests[id].result.Served?
    ensures var s, q := After(c, r), After(c, r).requests[id];
            && (q.joined.Some? ==> q.joined.value in s.requests)
            && (q.result.summary.inputHash == c.inputHash(q.ev) <==>
                q.joined.None? || c.inputHash(s.requests[q.joined.value].ev) == c.inputHash(q.ev))
  {
    AllServedByLeader(c, r, id);
  }

  lemma Extend(c: Config, r: Run, t: Step, s: State)
    requires Legal(c, r) && Enabled(After(c, r), t) && Next(c, After(c, r), t) == s
    ensures Legal(c, Then(r, t)) && After(c, Then(r, t)) == s
  {
  }

  /** Two requests for one key, with different evidence: the first leads, the second joins. */
  lemma TwoShareFlight(c: Config, k: Key, ev: Evidence, ev': Evidence) returns (r: Run)
    requires HasEvidence(ev) && HasEvidence(ev')
    ensures Legal(c, r)
    ensures After(c, r) == State(map[], map[k := 0], map[0 := Leading(k, ev), 1 := Waiting(k, ev', 0)], [])
  {
    r := Start;
    Extend(c, r, Begin(0, k, ev), BOOT.(requests := map[0 := Reading(k, ev)]));
    r := Then(r, Begin(0, k, ev));
    Extend(c, r, ReadCache(0, true), BOOT.(requests := map[0 := Missed(k, ev)]));
    r := Then(r, ReadCache(0, true));
    var s := State(map[], map[k := 0], map[0 := Leading(k, ev)], []);
    Extend(c, r, JoinOrLead(0), s);
    r := Then(r, JoinOrLead(0));
    Extend(c, r, Begin(1, k, ev'), s.(requests := map[0 := Leading(k, ev), 1 := Reading(k, ev')]));
    r := Then(r, Begin(1, k, ev'));
    Extend(c, r, ReadCache(1, true), s.(requests := map[0 := Leading(k, ev), 1 := Missed(k, ev')]));
    r := Then(r, ReadCache(1, true));
    Extend(c, r, JoinOrLead(1), s.(requests := map[0 := Leading(k, ev), 1 := Waiting(k, ev', 0)]));
    r := Then(r, JoinOrLead(1));
  }

  /** ... the first accepts the model's answer ... */
  lemma FirstAccepts(c: Config, k: Key, ev: Evidence, ev': Evidence, text: string) returns (r: Run)
    requires HasEvidence(ev) && HasEvidence(ev') && !Blank(text)
    ensures Legal(c, r)
    ensures After(c, r) ==
            State(map[], map[k := 0], map[0 := Storing(k, ev, text), 1 := Waiting(k, ev', 0)], [Accepted(k, ev, text)])
  {
    r := TwoShareFlight(c, k, ev, ev');
    var wait := Waiting(k, ev', 0);
    var s := After(c, r).(requests := map[0 := Calling(k, ev), 1 := wait]);
    Extend(c, r, ReadAgain(0, true), s);
    r := Then(r, ReadAgain(0, true));
    s := s.(requests := map[0 := Storing(k, ev, text), 1 := wait], accepted := [Accepted(k, ev, text)]);
    Extend(c, r, ModelReply(0, Hypothesis(text)), s);
    r := Then(r, ModelReply(0, Hypothesis(text)));
  }

  /** ... stores its summary ... */
  lemma FirstStores(c: Config, k: Key, ev: Evidence, ev': Evidence, text: string) returns (r: Run)
    requires HasEvidence(ev) && HasEvidence(ev') && !Blank(text)
    ensures Legal(c, r) && 0 in After(c, r).requests && 1 in After(c, r).requests
    ensures After(c, r).requests[0] == Landing(k, ev, Served(false, Summary(c.inputHash(ev), text, c.model)))
    ensures After(c, r).requests[1] == Waiting(k, ev', 0)
  {
    var q := FirstAccepts(c, k, ev, ev', text);
    var rec := Summary(c.inputHash(ev), text, c.model);
    var s := After(c, q).(requests := map[0 := Landing(k, ev, Served(false, rec)), 1 := Waiting(k, ev', 0)], cache := map[k := rec]);
    Extend(c, q, Upsert(0, true), s);
    r := Then(q, Upsert(0, true));
  }

  /** It happens: the second request is served the summary of the first one's evidence. */
  lemma ForeignSummaryServed(c: Config, k: Key, ev: Evidence, ev': Evidence, text: string) returns (r: Run)
    requires HasEvidence(ev) && HasEvidence(ev') && c.inputHash(ev) != c.inputHash(ev') && !Blank(text)
    ensures Legal(c, r) && 1 in After(c, r).requests
    ensures After(c, r).requests[1] == Answered(k, ev', Served(false, Summary(c.inputHash(ev), text, c.model)), Some(0))
  {
    var q := FirstStores(c, k, ev, ev', text);
    Extend(c, q, Land(0), Next(c, After(c, q), Land(0)));
    r := Then(q, Land(0));
  }

  // ----- Generated once -----

  /** The stores work and a key is always asked about with the same evidence. */
  ghost predicate Steady(r: Run, evidence: map<Key, Evidence>) {
    r.Then? ==> Steady(r.before, evidence) && SteadyStep(r.step, evidence)
  }

  ghost predicate SteadyStep(t: Step, evidence: map<Key, Evidence>) {
    && (t.ReadAgain? || t.Upsert? ==> t.ok)
    && (t.Begin? ==> t.key in evidence && t.ev == evidence[t.key])
  }

  /** How many model replies were accepted for a key. */
  ghost function AcceptedCount(accepted: seq<Accepted>, k: Key): nat {
    if accepted == [] then 0
    else AcceptedCount(accepted[..|accepted| - 1], k) + if accepted[|accepted| - 1].key == k then 1 else 0
  }

  lemma CountSnoc(accepted: seq<Accepted>, a: Accepted)
    ensures forall k :: AcceptedCount(accepted + [a], k) == AcceptedCount(accepted, k) + if a.key == k then 1 else 0
  {
    assert (accepted + [a])[..|accepted|] == accepted;
  }

  ghost predicate SameEvidence(c: Config, s: State, evidence: map<Key, Evidence>) {
    && (forall id :: id in s.requests ==> s.requests[id].key in evidence && s.requests[id].ev == evidence[s.requests[id].key])
    && (forall k :: k in s.cache ==> k in evidence && s.cache[k].inputHash == c.inputHash(evidence[k]))
  }

  ghost predicate IsStoring(s: State, k: Key) {
    k in s.flights && s.flights[k] in s.requests && s.requests[s.flights[k]].Storing?
  }

  ghost predicate IsCalling(s: State, k: Key) {
    k in s.flights && s.flights[k] in s.requests && s.requests[s.flights[k]].Calling?
  }

  /** A key's one accepted reply is on its way to the cache or in it, and the model is asked only
      before there is one. */
  ghost predicate OnceEach(s: State, k: Key) {
    && AcceptedCount(s.accepted, k) == (if k in s.cache || IsStoring(s, k) then 1 else 0)
    && (IsStoring(s, k) || IsCalling(s, k) ==> k !in s.cache)
  }

  lemma SameEvidenceStep(c: Config, s: State, t: Step, evidence: map<Key, Evidence>)
    requires SameEvidence(c, s, evidence) && Enabled(s, t) && SteadyStep(t, evidence)
    ensures SameEvidence(c, Next(c, s, t), evidence)
  {
  }

  predicate Accepts(reply: Reply) { reply.Hypothesis? && !Blank(reply.text) }

  /** A model reply moves the flight of its own key only, from calling to storing or landing. */
  lemma ReplyStages(c: Config, s: State, t: Step, k: Key)
    requires OneFlight(s) && Enabled(s, t) && t.ModelReply?
    ensures var s' := Next(c, s, t);
            && s'.cache == s.cache
            && if k == s.requests[t.id].key
               then IsCalling(s, k) && !IsStoring(s, k) && !IsCalling(s', k) && (IsStoring(s', k) <==> Accepts(t.reply))
               else IsStoring(s', k) == IsStoring(s, k) && IsCalling(s', k) == IsCalling(s, k)
  {
    var s', own := Next(c, s, t), s.requests[t.id].key;
    assert s'.flights == s.flights && own in s.flights && s.flights[own] == t.id;
    if k != own && k in s.flights {
      assert s.flights[k] != t.id;
      OthersStay(c, s, t, s.flights[k]);
    }
  }

  lemma ReplyCounts(c: Config, s: State, t: Step, k: Key)
    requires Enabled(s, t) && t.ModelReply?
    ensures AcceptedCount(Next(c, s, t).accepted, k) ==
            AcceptedCount(s.accepted, k) + if Accepts(t.reply) && k == s.requests[t.id].key then 1 else 0
  {
    if Accepts(t.reply) {
      var r := s.requests[t.id];
      CountSnoc(s.accepted, Accepted(r.key, r.ev, t.reply.text));
    }
  }

  /** Steps before the call, and landing, store nothing and accept nothing; a call begins only when
      the second read finds no row. */
  lemma QuietStages(c: Config, s: State, t: Step, evidence: map<Key, Evidence>, k: Key)
    requires OneFlight(s) && SameEvidence(c, s, evidence) && Enabled(s, t) && SteadyStep(t, evidence)
    requires !t.ModelReply? && !t.Upsert?
    ensures var s' := Next(c, s, t);
            && s'.cache == s.cache && s'.accepted == s.accepted
            && IsStoring(s', k) == IsStoring(s, k)
            && (IsCalling(s', k) ==> IsCalling(s, k) || k !in s.cache)
  {
    if t.JoinOrLead? {
      JoinStages(c, s, t, k);
    } else if t.Land? {
      LandStages(c, s, t, k);
    } else {
      if k in s.flights && s.flights[k] != t.id { OthersStay(c, s, t, s.flights[k]); }
      assert Next(c, s, t).flights == s.flights;
    }
  }

  lemma JoinStages(c: Config, s: State, t: Step, k: Key)
    requires OneFlight(s) && Enabled(s, t) && t.JoinOrLead?
    ensures IsStoring(Next(c, s, t), k) == IsStoring(s, k) && IsCalling(Next(c, s, t), k) == IsCalling(s, k)
  {
    if k in s.flights && s.flights[k] != t.id { OthersStay(c, s, t, s.flights[k]); }
  }

  lemma LandStages(c: Config, s: State, t: Step, k: Key)
    requires OneFlight(s) && Enabled(s, t) && t.Land?
    ensures IsStoring(Next(c, s, t), k) == IsStoring(s, k) && IsCalling(Next(c, s, t), k) == IsCalling(s, k)
  {
    var s', own := Next(c, s, t), s.requests[t.id].key;
    assert s.flights[own] == t.id && s'.flights == s.flights - {own};
    if k != own && k in s.flights {
      assert s'.requests[s.flights[k]] == s.requests[s.flights[k]];
    }
  }

  lemma OnceEachStep(c: Config, s: State, t: Step, evidence: map<Key, Evidence>, k: Key)
    requires OneFlight(s) && SameEvidence(c, s, evidence) && Enabled(s, t) && SteadyStep(t, evidence)
    requires OnceEach(s, k)
    ensures OnceEach(Next(c, s, t), k)
  {
    if t.ModelReply? {
      ReplyStages(c, s, t, k);
      ReplyCounts(c, s, t, k);
    } else if t.Upsert? {
      OnceEachUpsert(c, s, t, k);
    } else {
      QuietStages(c, s, t, evidence, k);
    }
  }

  lemma OnceEachUpsert(c: Config, s: State, t: Step, k: Key)
    requires OneFlight(s) && Enabled(s, t) && t.Upsert? && t.ok && OnceEach(s, k)
    ensures OnceEach(Next(c, s, t), k)
  {
    assert Next(c, s, t).accepted == s.accepted && Next(c, s, t).flights == s.flights;
    assert IsStoring(s, s.requests[t.id].key);
  }

  /** While the stores work and a key's evidence stays the same, the model's answer for it is
      accepted at most once, however the requests interleave. */
  lemma {:induction false} GeneratedAtMostOnce(c: Config, r: Run, evidence: map<Key, Evidence>, k: Key)
    requires Legal(c, r) && Steady(r, evidence)
    ensures AcceptedCount(After(c, r).accepted, k) <= 1
    ensures SameEvidence(c, After(c, r), evidence) && OnceEach(After(c, r), k)
  {
    if r.Then? {
      RunSafe(c, r.before);
      GeneratedAtMostOnce(c, r.before, evidence, k);
      SameEvidenceStep(c, After(c, r.before), r.step, evidence);
      OnceEachStep(c, After(c, r.before), r.step, evidence, k);
    }
  }
}
