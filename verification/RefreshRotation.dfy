/** Refresh-token rotation: AuthHandler.Refresh of api/internal/handlers/auth.go over the family
    table, following section 4.14.2 of RFC 9700.

    Each request is one atomic step with one clock. Token signatures, cookies and auditing are
    left out: a request is the family and the JTI its valid refresh token names, together with
    what the stores and the token generator answered. */
module RefreshRotation {
  import opened Options

  datatype Status = Active | Revoked | Compromised

  /** An identifier, such as a JTI or a family UUID. */
  datatype Id = Id(text: string)

  datatype Family = Family(current: Id, previous: Option<Id>, graceUntil: Option<int>, status: Status)

  const GRACE_SECONDS := 30

  datatype UserCheck = UserActive | UserInactive | UserLookupFails

  /** What the collaborators answer during one request. */
  datatype Answers = Answers(
    loadOk: bool, user: UserCheck, minted: Option<Id>,
    compromiseOk: bool, revokeOk: bool, rotateOk: bool, csrfOk: bool)

  datatype Op =
    | Login(fam: Id, jti: Id, at: int)
    | Refresh(fam: Id, jti: Id, at: int, answers: Answers)
    | Revoke(fam: Id)   // logout, password change, deactivation
    | Expire(fam: Id)   // the row is deleted

  datatype Response = Issued(jti: Id) | Unauthorized | ServerError

  type Families = map<Id, Family>

  // ----- One request -----

  predicate MatchesPrevious(f: Family, jti: Id, now: int) {
    f.previous == Some(jti) && f.graceUntil.Some? && now < f.graceUntil.value
  }

  predicate Acceptable(f: Family, jti: Id, now: int) {
    jti == f.current || MatchesPrevious(f, jti, now)
  }

  function Rotated(f: Family, newJTI: Id, now: int): Family {
    f.(previous := Some(f.current), current := newJTI, graceUntil := Some(now + GRACE_SECONDS))
  }

  /** The request gets as far as rotating the family. */
  predicate Rotates(m: Families, op: Op) {
    && op.Refresh? && op.answers.loadOk && op.fam in m && m[op.fam].status == Active
    && Acceptable(m[op.fam], op.jti, op.at)
    && op.answers.user == UserActive && op.answers.minted.Some? && op.answers.rotateOk
  }

  /** The session is unknown or over, the token is not acceptable, or the user is inactive. */
  predicate Refused(m: Families, fam: Id, jti: Id, now: int, user: UserCheck) {
    fam !in m || m[fam].status != Active || !Acceptable(m[fam], jti, now) || user == UserInactive
  }

  /** An active family is shown a JTI it does not accept. */
  predicate Reuse(m: Families, op: Op) {
    && op.Refresh? && op.answers.loadOk && op.fam in m && m[op.fam].status == Active
    && !Acceptable(m[op.fam], op.jti, op.at)
  }

  function Step(m: Families, op: Op): Families {
    match op
    case Login(fam, jti, _) => if fam in m then m else m[fam := Family(jti, None, None, Active)]
    case Revoke(fam) => if fam in m then m[fam := m[fam].(status := Revoked)] else m
    case Expire(fam) => m - {fam}
    case Refresh(fam, jti, at, a) =>
      if Rotates(m, op) then m[fam := Rotated(m[fam], a.minted.value, at)]
      else if Reuse(m, op) && a.compromiseOk then m[fam := m[fam].(status := Compromised)]
      else if a.loadOk && fam in m && m[fam].status == Active && Acceptable(m[fam], jti, at)
              && a.user == UserInactive && a.revokeOk then m[fam := m[fam].(status := Revoked)]
      else m
  }

  class AuthHandler {
    var families: Families

    method Refresh(fam: Id, jti: Id, now: int, a: Answers) returns (response: Response)
      modifies this
      ensures families == Step(old(families), Op.Refresh(fam, jti, now, a))
      ensures response.Issued? <==> Rotates(old(families), Op.Refresh(fam, jti, now, a)) && a.csrfOk
      ensures response.Issued? ==> fam in families && response.jti == families[fam].current == a.minted.value
      ensures response == Unauthorized <==> a.loadOk && Refused(old(families), fam, jti, now, a.user)
      ensures response.Issued? ==>
                && fam in old(families)
                && var f := old(families)[fam];
                   && f.status == Active && a.user == UserActive && a.minted.Some?
                   && (jti == f.current || (f.previous == Some(jti) && f.graceUntil.Some? && now < f.graceUntil.value))
                   && families == old(families)[fam := Family(a.minted.value, Some(f.current), Some(now + 30), Active)]
    {
      if !a.loadOk {
        return ServerError;
      }
      if fam !in families {
        return Unauthorized;
      }
      var family := families[fam];
      if family.status != Active {
        return Unauthorized;
      }
      var matchesCurrent := jti == family.current;
      var matchesPrevious :=
        family.previous.Some? && jti == family.previous.value &&
        family.graceUntil.Some? && now < family.graceUntil.value;
      if !matchesCurrent && !matchesPrevious {
        if a.compromiseOk {
          families := families[fam := family.(status := Compromised)];
        }
        return Unauthorized;
      }
      if a.user == UserLookupFails {
        return ServerError;
      }
      if a.user == UserInactive {
        if a.revokeOk {
          families := families[fam := family.(status := Revoked)];
        }
        return Unauthorized;
      }
      if a.minted.None? {
        return ServerError;
      }
      if !a.rotateOk {
        return ServerError;
      }
      families := families[fam := family.(
        previous := Some(family.current), current := a.minted.value, graceUntil := Some(now + GRACE_SECONDS))];
      if !a.csrfOk {
        return ServerError;
      }
      return Issued(a.minted.value);
    }
  }

  // ----- Runs -----

  datatype Run = Start | Then(before: Run, op: Op)

  function After(r: Run): Families {
    match r
    case Start => map[]
    case Then(before, op) => Step(After(before), op)
  }

  /** A JTI installed as a family's current one, and when. */
  datatype Mint = Mint(jti: Id, at: int)

  /** The JTIs minted for a family, oldest first: that of the login, then one per rotation. */
  function Mints(r: Run, fam: Id): seq<Mint> {
    match r
    case Start => []
    case Then(before, op) =>
      var m := Mints(before, fam);
      if op.Login? && op.fam == fam && fam !in After(before) then m + [Mint(op.jti, op.at)]
      else if op.Refresh? && op.fam == fam && Rotates(After(before), op) then m + [Mint(op.answers.minted.value, op.at)]
      else m
  }

  /** Family identifiers are fresh UUIDs: no login reuses one, even after its row is gone. */
  ghost predicate FreshFamilies(r: Run) {
    match r
    case Start => true
    case Then(before, op) => FreshFamilies(before) && (op.Login? ==> Mints(before, op.fam) == [])
  }

  /** No JTI is minted twice for a family. */
  ghost predicate FreshTokens(r: Run, fam: Id) {
    var m := Mints(r, fam);
    forall i, j :: 0 <= i < j < |m| ==> m[i].jti != m[j].jti
  }

  /** The family row holds exactly the last two mints. */
  ghost predicate RowMatches(f: Family, m: seq<Mint>) {
    && m != [] && f.current == m[|m| - 1].jti
    && (|m| == 1 ==> f.previous == None && f.graceUntil == None)
    && (|m| > 1 ==> f.previous == Some(m[|m| - 2].jti) && f.graceUntil == Some(m[|m| - 1].at + GRACE_SECONDS))
  }

  lemma {:induction false} RowsMatch(r: Run, fam: Id)
    requires FreshFamilies(r) && fam in After(r)
    ensures RowMatches(After(r)[fam], Mints(r, fam))
  {
    if r.Then? && fam in After(r.before) {
      RowsMatch(r.before, fam);
    }
  }

  /** Over every run, the JTIs a family accepts are the newest one, and the one it displaced while
      the displacement is under 30 seconds old. */
  lemma AcceptedTokens(r: Run, fam: Id, jti: Id, now: int)
    requires FreshFamilies(r) && fam in After(r)
    ensures var m := Mints(r, fam);
            && m != []
            && (Acceptable(After(r)[fam], jti, now) <==>
                || jti == m[|m| - 1].jti
                || (|m| > 1 && jti == m[|m| - 2].jti && now < m[|m| - 1].at + 30))
  {
    RowsMatch(r, fam);
  }

  /** A token displaced twice, or once and past its grace, is never accepted again. */
  lemma StaleTokenRejected(r: Run, fam: Id, i: nat, now: int)
    requires FreshFamilies(r) && FreshTokens(r, fam) && fam in After(r)
    requires var m := Mints(r, fam);
             i < |m| && (i + 2 < |m| || (i + 2 == |m| && now >= m[|m| - 1].at + 30))
    ensures !Acceptable(After(r)[fam], Mints(r, fam)[i].jti, now)
  {
    AcceptedTokens(r, fam, Mints(r, fam)[i].jti, now);
  }

  // ----- Leaving the active state -----

  /** The family has been created and can no longer be refreshed. */
  ghost predicate Closed(r: Run, fam: Id) {
    Mints(r, fam) != [] && (fam in After(r) ==> After(r)[fam].status != Active)
  }

  function Append(r: Run, more: Run): Run {
    match more
    case Start => r
    case Then(before, op) => Then(Append(r, before), op)
  }

  lemma ClosedStep(r: Run, fam: Id, op: Op)
    requires Closed(r, fam) && FreshFamilies(Then(r, op))
    ensures Closed(Then(r, op), fam) && Mints(Then(r, op), fam) == Mints(r, fam)
  {
  }

  lemma {:induction false} FreshPrefix(r: Run, more: Run)
    requires FreshFamilies(Append(r, more))
    ensures FreshFamilies(r)
  {
    if more.Then? { FreshPrefix(r, more.before); }
  }

  /** Once a family has left the active state, whatever follows, no token is minted for it. */
  lemma {:induction false} ClosedForever(r: Run, fam: Id, more: Run)
    requires Closed(r, fam) && FreshFamilies(Append(r, more))
    ensures Closed(Append(r, more), fam) && Mints(Append(r, more), fam) == Mints(r, fam)
  {
    if more.Then? {
      ClosedForever(r, fam, more.before);
      ClosedStep(Append(r, more.before), fam, more.op);
    }
  }

  /** What one step does to the row it names. */
  lemma RowAfter(m: Families, op: Op)
    requires op.Refresh? && op.fam in m
    ensures var f, m' := m[op.fam], Step(m, op);
            var accepted := f.status == Active && op.answers.loadOk
                            && (op.jti == f.current || (f.previous == Some(op.jti) && f.graceUntil.Some? && op.at < f.graceUntil.value));
            var a := op.answers;
            && op.fam in m'
            && m'[op.fam] ==
               if accepted && a.user == UserActive && a.minted.Some? && a.rotateOk
               then Family(a.minted.value, Some(f.current), Some(op.at + 30), Active)
               else if accepted && a.user == UserInactive && a.revokeOk then f.(status := Revoked)
               else if f.status == Active && a.loadOk && !accepted && a.compromiseOk then f.(status := Compromised)
               else f
  {
  }

  /** No step touches another family's row. */
  lemma OthersUnchanged(m: Families, op: Op, other: Id)
    requires other != op.fam
    ensures other in Step(m, op) <==> other in m
    ensures other in m ==> Step(m, op)[other] == m[other]
  {
  }

  /** A login's family starts active, with the JTI it was given and none displaced. */
  lemma LoginOpens(r: Run, fam: Id, jti: Id, at: int)
    requires Mints(r, fam) == [] && FreshFamilies(r)
    ensures var r' := Then(r, Login(fam, jti, at));
            && Mints(r', fam) == [Mint(jti, at)]
            && fam in After(r') && After(r')[fam] == Family(jti, None, None, Active)
  {
    RowsNeedMints(r, fam);
  }

  lemma {:induction false} RowsNeedMints(r: Run, fam: Id)
    ensures fam in After(r) ==> Mints(r, fam) != []
  {
    if r.Then? { RowsNeedMints(r.before, fam); }
  }

  /** Logout, password change and deactivation close a family, whatever its status was; so does the
      removal of its row. */
  lemma RevokeCloses(r: Run, fam: Id)
    requires Mints(r, fam) != []
    ensures Closed(Then(r, Revoke(fam)), fam)
    ensures fam in After(r) ==> fam in After(Then(r, Revoke(fam))) && After(Then(r, Revoke(fam)))[fam].status == Revoked
    ensures Closed(Then(r, Expire(fam)), fam) && fam !in After(Then(r, Expire(fam)))
  {
  }

  /** So after a logout, or once its row is removed, nothing is ever minted for the family. */
  lemma LogoutEndsSession(r: Run, fam: Id, op: Op, more: Run)
    requires op == Revoke(fam) || op == Expire(fam)
    requires Mints(r, fam) != [] && FreshFamilies(Append(Then(r, op), more))
    ensures Mints(Append(Then(r, op), more), fam) == Mints(r, fam)
  {
    RevokeCloses(r, fam);
    ClosedForever(Then(r, op), fam, more);
  }

  /** A refresh for an inactive user mints nothing, and ends the session exactly when the store can
      record the revocation. */
  lemma InactiveUserCloses(r: Run, op: Op, more: Run)
    requires op.Refresh? && op.answers.loadOk && op.answers.user == UserInactive && FreshFamilies(Append(Then(r, op), more))
    requires op.fam in After(r) && After(r)[op.fam].status == Active && Acceptable(After(r)[op.fam], op.jti, op.at)
    ensures Mints(Then(r, op), op.fam) == Mints(r, op.fam)
    ensures Closed(Then(r, op), op.fam) <==> op.answers.revokeOk
    ensures op.answers.revokeOk ==> Mints(Append(Then(r, op), more), op.fam) == Mints(r, op.fam)
  {
    FreshPrefix(Then(r, op), more);
    RowsMatch(r, op.fam);
    if op.answers.revokeOk { ClosedForever(Then(r, op), op.fam, more); }
  }

  /** Any other JTI shown to an active family closes it exactly when the store can record the
      compromise; a failing MarkCompromised leaves the family active. */
  lemma ReuseClosesIff(r: Run, op: Op)
    requires FreshFamilies(r) && Reuse(After(r), op)
    ensures !Rotates(After(r), op)
    ensures Closed(Then(r, op), op.fam) <==> op.answers.compromiseOk
    ensures After(Then(r, op))[op.fam].status == if op.answers.compromiseOk then Compromised else Active
  {
    RowsMatch(r, op.fam);
  }

  /** Theft detection over whole runs: replaying a displaced token past its grace ends the
      session for everyone, the thief's newest token included. */
  lemma ReplayEndsSession(r: Run, op: Op, i: nat, more: Run)
    requires op.Refresh? && op.answers.loadOk && op.answers.compromiseOk
    requires FreshFamilies(Append(Then(r, op), more)) && FreshTokens(r, op.fam)
    requires op.fam in After(r) && After(r)[op.fam].status == Active
    requires var m := Mints(r, op.fam);
             && i < |m| && op.jti == m[i].jti
             && (i + 2 < |m| || (i + 2 == |m| && op.at >= m[|m| - 1].at + 30))
    ensures Mints(Append(Then(r, op), more), op.fam) == Mints(r, op.fam)
  {
    FreshPrefix(Then(r, op), more);
    StaleTokenRejected(r, op.fam, i, op.at);
    ReuseClosesIff(r, op);
    ClosedForever(Then(r, op), op.fam, more);
  }
}
