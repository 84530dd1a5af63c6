/** Refresh requests that interleave: AuthHandler.Refresh of api/internal/handlers/auth.go reads the
    family row, decides on that copy, and writes to the row in a second statement that does not look
    at its status again. RefreshRotation is the case in which nothing comes in between. */
module RefreshRaces {
  import opened Options
  import opened RefreshRotation

  /** What a request has decided on the row it read: to rotate (or, for an inactive user, to revoke)
      the family, or to mark it compromised. */
  datatype Request = Accepted(fam: Id) | Reusing(fam: Id) | Over

  datatype State = State(families: Families, requests: map<nat, Request>)

  datatype Step =
    | Create(fam: Id, jti: Id, at: int)
    | Close(fam: Id)    // logout, password change, deactivation
    | Delete(fam: Id)
    | Read(id: nat, fam: Id, jti: Id, at: int, ok: bool)
    | Write(id: nat, user: UserCheck, minted: Option<Id>, ok: bool, at: int)

  predicate Enabled(s: State, t: Step) {
    match t
    case Read(id, _, _, _, _) => id !in s.requests
    case Write(id, _, _, _, _) => id in s.requests && !s.requests[id].Over?
    case _ => true
  }

  function Decision(m: Families, fam: Id, jti: Id, at: int): Request {
    if fam !in m || m[fam].status != Active then Over
    else if Acceptable(m[fam], jti, at) then Accepted(fam)
    else Reusing(fam)
  }

  function WithStatus(m: Families, fam: Id, status: Status): Families {
    if fam in m then m[fam := m[fam].(status := status)] else m
  }

  /** The write is a rotation: the user is active, a token is minted, and the row is still there. */
  predicate Rotates(s: State, t: Step) {
    && t.Write? && t.id in s.requests && s.requests[t.id].Accepted? && s.requests[t.id].fam in s.families
    && t.user == UserActive && t.minted.Some? && t.ok
  }

  function Next(s: State, t: Step): State
    requires Enabled(s, t)
  {
    var m := s.families;
    match t
    case Create(fam, jti, _) => s.(families := if fam in m then m else m[fam := Family(jti, None, None, Active)])
    case Close(fam) => s.(families := WithStatus(m, fam, Revoked))
    case Delete(fam) => s.(families := m - {fam})
    case Read(id, fam, jti, at, ok) => s.(requests := s.requests[id := if ok then Decision(m, fam, jti, at) else Over])
    case Write(id, user, minted, ok, at) =>
      var q := s.requests[id];
      var m' := if Rotates(s, t) then m[q.fam := Rotated(m[q.fam], minted.value, at)]
                else if !ok then m
                else if q.Reusing? then WithStatus(m, q.fam, Compromised)
                else if user == UserInactive then WithStatus(m, q.fam, Revoked)
                else m;
      State(m', s.requests[id := Over])
  }

  /** A request that nothing interrupts does exactly the atomic step. */
  lemma RefreshAlone(s: State, id: nat, fam: Id, jti: Id, at: int, a: Answers)
    requires id !in s.requests
    ensures var s1 := Next(s, Read(id, fam, jti, at, a.loadOk));
            var after := RefreshRotation.Step(s.families, Op.Refresh(fam, jti, at, a));
            if s1.requests[id].Over? then after == s.families
            else
              var ok := if s1.requests[id].Reusing? then a.compromiseOk
                        else if a.user == UserInactive then a.revokeOk else a.rotateOk;
              Next(s1, Write(id, a.user, a.minted, ok, at)).families == after
  {
  }

  // ----- Runs -----

  datatype Run = Start | Then(before: Run, step: Step)

  function After(r: Run): State {
    match r
    case Start => State(map[], map[])
    case Then(before, t) => var s := After(before); if Enabled(s, t) then Next(s, t) else s
  }

  /** The JTIs minted for a family, oldest first. */
  function Mints(r: Run, fam: Id): seq<Mint> {
    match r
    case Start => []
    case Then(before, t) =>
      var m, s := Mints(before, fam), After(before);
      if t.Create? && t.fam == fam && fam !in s.families then m + [Mint(t.jti, t.at)]
      else if Rotates(s, t) && s.requests[t.id].fam == fam then m + [Mint(t.minted.value, t.at)]
      else m
  }

  /** Every step is enabled where it is taken, and no login reuses a family identifier. */
  ghost predicate Legal(r: Run) {
    match r
    case Start => true
    case Then(before, t) => Legal(before) && Enabled(After(before), t) && (t.Create? ==> Mints(before, t.fam) == [])
  }

  /** However requests interleave, the row holds the last two mints, in the order of the rotations. */
  lemma {:induction false} RowsMatch(r: Run, fam: Id)
    requires Legal(r) && fam in After(r).families
    ensures RowMatches(After(r).families[fam], Mints(r, fam))
  {
    if r.Then? && fam in After(r.before).families {
      RowsMatch(r.before, fam);
    }
  }

  /** A request is let through exactly when the family is active as it reads and its JTI is the newest
      one then, or the one that displaced, within its grace. */
  lemma AcceptedAtRead(r: Run, id: nat, fam: Id, jti: Id, at: int)
    requires Legal(Run.Then(r, Read(id, fam, jti, at, true)))
    ensures var s, m := After(r), Mints(r, fam);
            id in After(Run.Then(r, Read(id, fam, jti, at, true))).requests &&
            (After(Run.Then(r, Read(id, fam, jti, at, true))).requests[id] == Accepted(fam) <==>
              && fam in s.families && s.families[fam].status == Active && m != []
              && (|| jti == m[|m| - 1].jti
                  || (|m| > 1 && jti == m[|m| - 2].jti && at < m[|m| - 1].at + 30)))
  {
    if fam in After(r).families { RowsMatch(r, fam); }
  }

  // ----- After a family has left the active state -----

  function Append(r: Run, more: Run): Run {
    match more
    case Start => r
    case Then(before, t) => Run.Then(Append(r, before), t)
  }

  /** The family has been created and is no longer active, or its row is gone. */
  ghost predicate Closed(r: Run, fam: Id) {
    Mints(r, fam) != [] && (fam in After(r).families ==> After(r).families[fam].status != Active)
  }

  /** Logout, the removal of the row, and a recorded compromise close a family. */
  lemma ClosingSteps(r: Run, fam: Id, t: Step)
    requires Mints(r, fam) != [] && Legal(Run.Then(r, t))
    requires || t == Close(fam) || t == Delete(fam)
             || (t.Write? && t.ok && t.id in After(r).requests && After(r).requests[t.id] == Reusing(fam))
    ensures Closed(Run.Then(r, t), fam) && Mints(Run.Then(r, t), fam) == Mints(r, fam)
    ensures fam in After(r).families && !t.Delete? ==>
              fam in After(Run.Then(r, t)).families
              && After(Run.Then(r, t)).families[fam].status == if t.Close? then Revoked else Compromised
  {
  }

  /** A login's family starts active, with the JTI it was given and none displaced. */
  lemma CreateOpens(r: Run, fam: Id, jti: Id, at: int)
    requires Legal(Run.Then(r, Create(fam, jti, at)))
    ensures var r' := Run.Then(r, Create(fam, jti, at));
            && Mints(r', fam) == [Mint(jti, at)]
            && fam in After(r').families && After(r').families[fam] == Family(jti, None, None, Active)
  {
    if fam in After(r).families { RowsMatch(r, fam); }
  }

  /** No step touches the row of another family than the one it names. */
  lemma OtherRowsUnchanged(s: State, t: Step, other: Id)
    requires Enabled(s, t)
    requires if t.Write? then s.requests[t.id].fam != other else t.Read? || t.fam != other
    ensures other in Next(s, t).families <==> other in s.families
    ensures other in s.families ==> Next(s, t).families[other] == s.families[other]
  {
  }

  /** Some request let through earlier has yet to write to the family, whose row is still there. */
  ghost predicate WritePending(s: State, fam: Id) {
    fam in s.families && exists id :: id in s.requests && s.requests[id] == Accepted(fam)
  }

  predicate Deleted(more: Run, fam: Id) {
    more.Then? && (Deleted(more.before, fam) || more.step == Delete(fam))
  }

  /** A request that was let through before s now rotates the family. */
  predicate WritesLate(s: State, fam: Id, t: Step) {
    && t.Write? && t.id in s.requests && s.requests[t.id] == Accepted(fam)
    && t.user == UserActive && t.minted.Some? && t.ok
  }

  predicate NothingWritesLate(s: State, fam: Id, more: Run) {
    more.Then? ==> NothingWritesLate(s, fam, more.before)
                   && !(WritesLate(s, fam, more.step) && fam in s.families && !Deleted(more.before, fam))
  }

  /** What stays true of a closed family: it is not active, its row is there unless deleted, and
      whoever is let through for it was so before. */
  ghost predicate StillClosed(s: State, s': State, fam: Id, deleted: bool) {
    && (fam in s'.families ==> s'.families[fam].status != Active)
    && (fam in s'.families <==> fam in s.families && !deleted)
    && (forall id :: id in s.requests ==> id in s'.requests && (s'.requests[id] == s.requests[id] || s'.requests[id].Over?))
    && (forall id :: id in s'.requests && s'.requests[id] == Accepted(fam) ==> id in s.requests && s.requests[id] == Accepted(fam))
  }

  ghost predicate StaysClosed(r: Run, more: Run, fam: Id) {
    Mints(Append(r, more), fam) != [] && StillClosed(After(r), After(Append(r, more)), fam, Deleted(more, fam))
  }

  lemma StateStaysClosed(s: State, s': State, fam: Id, deleted: bool, t: Step)
    requires StillClosed(s, s', fam, deleted) && Enabled(s', t) && !(t.Create? && t.fam == fam)
    ensures StillClosed(s, Next(s', t), fam, deleted || t == Delete(fam))
  {
  }

  /** Under that, a write for the family rotates it exactly when it is a late one. */
  lemma LateIsRotation(s: State, s': State, fam: Id, deleted: bool, t: Step)
    requires StillClosed(s, s', fam, deleted) && Enabled(s', t)
    ensures Rotates(s', t) && s'.requests[t.id].fam == fam <==> WritesLate(s, fam, t) && fam in s.families && !deleted
  {
    if t.Write? && s'.requests[t.id].Accepted? && s'.requests[t.id].fam == fam { assert s'.requests[t.id] == Accepted(fam); }
  }

  lemma ClosedStep(r: Run, more: Run, fam: Id)
    requires more.Then? && Legal(Append(r, more)) && StaysClosed(r, more.before, fam)
    ensures StaysClosed(r, more, fam)
    ensures var m, m' := Mints(Append(r, more.before), fam), Mints(Append(r, more), fam);
            if WritesLate(After(r), fam, more.step) && fam in After(r).families && !Deleted(more.before, fam)
            then |m'| == |m| + 1 else m' == m
  {
    var s, s', t := After(r), After(Append(r, more.before)), more.step;
    StateStaysClosed(s, s', fam, Deleted(more.before, fam), t);
    LateIsRotation(s, s', fam, Deleted(more.before, fam), t);
  }

  lemma {:induction false} ClosedRuns(r: Run, more: Run, fam: Id)
    requires Closed(r, fam) && Legal(Append(r, more))
    ensures StaysClosed(r, more, fam)
    ensures |Mints(Append(r, more), fam)| >= |Mints(r, fam)|
    ensures Mints(Append(r, more), fam) == Mints(r, fam) <==> NothingWritesLate(After(r), fam, more)
    ensures Mints(Append(r, more), fam) != Mints(r, fam) ==> |Mints(Append(r, more), fam)| > |Mints(r, fam)|
  {
    if more.Then? {
      ClosedRuns(r, more.before, fam);
      ClosedStep(r, more, fam);
    }
  }

  /** After a family has left the active state nothing is minted for it if and only if no request
      that was let through before writes a rotation while the row is still there. */
  lemma LateMintIff(r: Run, more: Run, fam: Id)
    requires Closed(r, fam) && Legal(Append(r, more))
    ensures Mints(Append(r, more), fam) == Mints(r, fam) <==> NothingWritesLate(After(r), fam, more)
  {
    ClosedRuns(r, more, fam);
  }

  ghost predicate MintsLater(r: Run, more: Run, fam: Id) {
    Legal(Append(r, more)) && Mints(Append(r, more), fam) != Mints(r, fam)
  }

  lemma {:induction false} LateWriterPends(s: State, fam: Id, more: Run)
    requires !NothingWritesLate(s, fam, more)
    ensures WritePending(s, fam)
  {
    if NothingWritesLate(s, fam, more.before) {
      assert s.requests[more.step.id] == Accepted(fam);
    } else {
      LateWriterPends(s, fam, more.before);
    }
  }

  /** So a token can still be minted for it exactly when such a request is pending. */
  lemma LateMintPossibleIff(r: Run, fam: Id, jti: Id)
    requires Closed(r, fam) && Legal(r)
    ensures WritePending(After(r), fam) <==> exists more :: MintsLater(r, more, fam)
  {
    if WritePending(After(r), fam) {
      var id :| id in After(r).requests && After(r).requests[id] == Accepted(fam);
      var t := Write(id, UserActive, Some(jti), true, 0);
      var more := Run.Then(Run.Start, t);
      assert Append(r, more) == Run.Then(r, t);
      assert Rotates(After(r), t);
      assert MintsLater(r, more, fam);
    }
    forall more | MintsLater(r, more, fam) ensures WritePending(After(r), fam) {
      LateMintIff(r, more, fam);
      LateWriterPends(After(r), fam, more);
    }
  }

  /** No later request gets through for a closed family, not even with a token minted late. */
  lemma ClosedRefuses(r: Run, more: Run, id: nat, fam: Id, jti: Id, at: int, ok: bool)
    requires Closed(r, fam) && Legal(Append(r, more))
    ensures Decision(After(Append(r, more)).families, fam, jti, at) == Over
  {
    ClosedRuns(r, more, fam);
  }

  /** A login, and a first request that reads. */
  lemma OneReads(fam: Id, jti: Id) returns (r: Run)
    ensures Legal(r) && Mints(r, fam) == [Mint(jti, 0)]
    ensures After(r) == State(map[fam := Family(jti, None, None, Active)], map[0 := Accepted(fam)])
  {
    assert Mints(Run.Start, fam) == [] && fam !in After(Run.Start).families;
    var r0 := Run.Then(Run.Start, Create(fam, jti, 0));
    assert Legal(r0) && Mints(r0, fam) == [Mint(jti, 0)];
    assert After(r0) == State(map[fam := Family(jti, None, None, Active)], map[]);
    r := Run.Then(r0, Read(0, fam, jti, 1, true));
  }

  /** It happens after a logout: the request reads, the family is revoked, the request rotates it. */
  lemma MintAfterRevoke(fam: Id, jti: Id, newJTI: Id) returns (r: Run, t: Step)
    ensures Legal(Run.Then(r, t)) && Closed(r, fam) && fam in After(r).families && After(r).families[fam].status == Revoked
    ensures Mints(Run.Then(r, t), fam) == Mints(r, fam) + [Mint(newJTI, 1)]
  {
    var r1 := OneReads(fam, jti);
    r := Run.Then(r1, Close(fam));
    t := Write(0, UserActive, Some(newJTI), true, 1);
  }

  /** ... and after a detected theft: while one request is between read and write, a token nobody
      minted is presented and the family marked compromised; the request mints all the same. */
  lemma MintAfterCompromise(fam: Id, jti: Id, stolen: Id, newJTI: Id) returns (r: Run, t: Step)
    requires stolen != jti
    ensures Legal(Run.Then(r, t)) && Closed(r, fam) && fam in After(r).families && After(r).families[fam].status == Compromised
    ensures Mints(Run.Then(r, t), fam) == Mints(r, fam) + [Mint(newJTI, 1)]
  {
    var r1 := OneReads(fam, jti);
    var r2 := Run.Then(r1, Read(1, fam, stolen, 1, true));
    assert Legal(r2) && Mints(r2, fam) == [Mint(jti, 0)];
    assert After(r2).families == After(r1).families && After(r2).requests == map[0 := Accepted(fam), 1 := Reusing(fam)];
    r := Run.Then(r2, Write(1, UserActive, None, true, 1));
    assert Legal(r) && Mints(r, fam) == [Mint(jti, 0)];
    t := Write(0, UserActive, Some(newJTI), true, 1);
  }
}
