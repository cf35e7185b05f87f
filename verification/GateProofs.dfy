/** What holds after every run of sign-ins, token refreshes, second-factor changes and requests. */
module GateProofs {
  import opened Text
  import opened SessionGate

  // ----- Where a stamp comes from -----

  /** The log justifies a stamp: a check by this method passed for this user at the stamped time and
      marked the session, or the stamp was carried over, at most six hours old, from another session
      of the same user, address and agent whose own stamp is justified the same way. */
  predicate Traced(log: seq<Fact>, uid: string, iat: int, ip: Option<string>, agent: string, factor: Method, stamp: int)
    decreases |log|
  {
    log != [] &&
    var init, last := log[..|log| - 1], log[|log| - 1];
    || Traced(init, uid, iat, ip, agent, factor, stamp)
    || (last == Stamped(uid, iat, ip, agent, factor, stamp) && Passed(uid, factor, stamp) in init)
    || (last.Rolled? && last == Rolled(uid, last.from, iat, ip, agent, factor, stamp, last.at)
        && last.at - stamp <= ROLLOVER_SECONDS && last.from != iat
        && Traced(init, uid, last.from, ip, agent, factor, stamp))
  }

  predicate SessionTraced(log: seq<Fact>, s: Session) {
    s.verifiedAt.Some? ==>
      s.verifiedMethod.Some? && Traced(log, s.uid, s.iat, s.ip, s.agent, s.verifiedMethod.value, s.verifiedAt.value)
  }

  ghost predicate SessionsOk(w: World) {
    && (forall k :: 0 <= k < |w.sessions| ==> SessionTraced(w.log, w.sessions[k]))
    && (forall i, j :: 0 <= i < j < |w.sessions| ==>
          w.sessions[i].uid != w.sessions[j].uid || w.sessions[i].iat != w.sessions[j].iat)
  }

  // ----- Second factors are complete -----

  predicate FactorComplete(u: User) {
    u.mfaEnabled ==>
      || (u.mfaMethod == Some(Totp) && u.totpSecret.Some?)
      || u.mfaMethod == Some(Email)
      || (u.mfaMethod == Some(Passkey) && u.credential.Some? && u.publicKey.Some?)
  }

  ghost predicate UsersOk(w: World) {
    forall uid :: uid in w.users ==> FactorComplete(w.users[uid])
  }

  // ----- Single-use slots -----

  /** The slot was filled after its last use. */
  predicate Armed(log: seq<Fact>, issued: Fact, used: Fact)
    decreases |log|
  {
    log != [] &&
    (log[|log| - 1] == issued || (log[|log| - 1] != used && Armed(log[..|log| - 1], issued, used)))
  }

  /** Every use found the slot filled. */
  predicate Separated(log: seq<Fact>, issued: Fact, used: Fact)
    decreases |log|
  {
    log == [] ||
    (Separated(log[..|log| - 1], issued, used)
     && (log[|log| - 1] == used ==> Armed(log[..|log| - 1], issued, used)))
  }

  predicate SlotsOf(log: seq<Fact>, uid: string, u: User) {
    && Separated(log, ChallengeIssued(uid), ChallengeUsed(uid))
    && Separated(log, OtpIssued(uid), OtpUsed(uid))
    && (u.challenge.Some? ==> Armed(log, ChallengeIssued(uid), ChallengeUsed(uid)))
    && (u.otp.Some? ==> Armed(log, OtpIssued(uid), OtpUsed(uid)))
  }

  ghost predicate SlotsOk(w: World) {
    forall uid :: uid in w.users ==> SlotsOf(w.log, uid, w.users[uid])
  }

  ghost predicate Inv(w: World) {
    SessionsOk(w) && UsersOk(w) && SlotsOk(w)
  }

  // ----- Growing the log -----

  lemma {:induction false} TracedGrows(log: seq<Fact>, f: Fact, s: Session)
    requires SessionTraced(log, s)
    ensures SessionTraced(log + [f], s)
  {
    assert (log + [f])[..|log|] == log;
  }

  lemma {:induction false} SlotsGrow(log: seq<Fact>, f: Fact, uid: string, u: User, u': User)
    requires SlotsOf(log, uid, u)
    requires f == ChallengeUsed(uid) ==> u.challenge.Some? && u'.challenge.None?
    requires f == OtpUsed(uid) ==> u.otp.Some? && u'.otp.None?
    requires u'.challenge.Some? ==> u.challenge.Some? || f == ChallengeIssued(uid)
    requires u'.otp.Some? ==> u.otp.Some? || f == OtpIssued(uid)
    ensures SlotsOf(log + [f], uid, u')
  {
    assert (log + [f])[..|log|] == log;
  }

  /** One committed change to a user together with the fact it records. */
  lemma {:induction false} ChangeUser(w: World, uid: string, u': User, f: Fact)
    requires Inv(w) && uid in w.users && FactorComplete(u')
    requires var u := w.users[uid];
             && (f == ChallengeUsed(uid) ==> u.challenge.Some? && u'.challenge.None?)
             && (f == OtpUsed(uid) ==> u.otp.Some? && u'.otp.None?)
             && (u'.challenge.Some? ==> u.challenge.Some? || f == ChallengeIssued(uid))
             && (u'.otp.Some? ==> u.otp.Some? || f == OtpIssued(uid))
    requires f.ChallengeUsed? || f.OtpUsed? ==> f.uid == uid
    ensures Inv(Note(WithUser(w, uid, u'), f))
  {
    hide Traced, SlotsOf, FactorComplete, SessionTraced;
    var w' := Note(WithUser(w, uid, u'), f);
    forall k | 0 <= k < |w.sessions|
      ensures SessionTraced(w'.log, w'.sessions[k])
    {
      TracedGrows(w.log, f, w.sessions[k]);
    }
    forall v | v in w'.users
      ensures SlotsOf(w'.log, v, w'.users[v])
    {
      SlotsGrow(w.log, f, v, w.users[v], w'.users[v]);
    }
  }

  /** A change to a user that records nothing. */
  lemma {:induction false} ChangeUserSilently(w: World, uid: string, u': User)
    requires Inv(w) && uid in w.users && FactorComplete(u')
    requires u'.challenge.Some? ==> w.users[uid].challenge.Some?
    requires u'.otp.Some? ==> w.users[uid].otp.Some?
    ensures Inv(WithUser(w, uid, u'))
  {
    hide Traced, FactorComplete, SessionTraced, Separated, Armed;
  }

  lemma {:induction false} NoteKeeps(w: World, f: Fact)
    requires Inv(w) && !f.ChallengeUsed? && !f.OtpUsed?
    ensures Inv(Note(w, f))
  {
    hide Traced, SlotsOf, SessionTraced;
    forall k | 0 <= k < |w.sessions|
      ensures SessionTraced(w.log + [f], w.sessions[k])
    {
      TracedGrows(w.log, f, w.sessions[k]);
    }
    forall v | v in w.users
      ensures SlotsOf(w.log + [f], v, w.users[v])
    {
      SlotsGrow(w.log, f, v, w.users[v], w.users[v]);
    }
  }

  // ----- Changing sessions -----

  lemma {:induction false} ReplaceKeeps(w: World, i: nat, s: Session)
    requires Inv(w) && i < |w.sessions| && s.uid == w.sessions[i].uid && s.iat == w.sessions[i].iat
    requires SessionTraced(w.log, s)
    ensures Inv(Replaced(w, i, s))
  {
    hide SessionTraced, SlotsOf, FactorComplete;
  }

  lemma {:induction false} UpsertKeeps(w: World, req: Request)
    requires Inv(w)
    ensures Inv(w.(sessions := Upserted(w.sessions, req)))
  {
    hide Traced, SlotsOf, FactorComplete;
  }

  lemma {:induction false} StampKeeps(w: World, uid: string, iat: int, factor: Method, now: int)
    requires Inv(w) && Passed(uid, factor, now) in w.log
    ensures Inv(Stamp(w, uid, iat, Some(factor), now))
  {
    hide SlotsOf, FactorComplete, Inv;
    var i := FindSession(w.sessions, uid, iat);
    if iat != 0 && i < |w.sessions| {
      var s := w.sessions[i].(verifiedAt := Some(now), verifiedMethod := Some(factor));
      var f := Stamped(uid, iat, s.ip, s.agent, factor, now);
      NoteKeeps(w, f);
      assert (w.log + [f])[..|w.log|] == w.log;
      assert Traced(w.log + [f], uid, iat, s.ip, s.agent, factor, now);
      hide Traced;
      ReplaceKeeps(Note(w, f), i, s);
      assert Replaced(Note(w, f), i, s) == Stamp(w, uid, iat, Some(factor), now);
    }
  }

  lemma {:induction false} RollOverKeeps(w: World, i: nat, factor: Option<Method>, now: int)
    requires Inv(w) && i < |w.sessions|
    ensures Inv(RolledOver(w, i, factor, now))
  {
    hide SlotsOf, FactorComplete, LatestDonor;
    var s := w.sessions[i];
    var donor := LatestDonor(w.sessions, s.uid, s.iat, s.ip, s.agent);
    if donor.Some? {
      var d := w.sessions[donor.value];
      assert SessionTraced(w.log, d);
      if d.verifiedMethod == factor && now - d.verifiedAt.value <= ROLLOVER_SECONDS {
        var s' := s.(verifiedAt := d.verifiedAt, verifiedMethod := d.verifiedMethod);
        var f := Rolled(s.uid, d.iat, s.iat, s.ip, s.agent, factor.value, d.verifiedAt.value, now);
        NoteKeeps(w, f);
        assert (w.log + [f])[..|w.log|] == w.log;
        assert SessionTraced(w.log + [f], s');
        hide Traced, SessionTraced, Inv;
        ReplaceKeeps(Note(w, f), i, s');
        assert Replaced(Note(w, f), i, s') == RolledOver(w, i, factor, now);
      }
    }
  }

  lemma {:induction false} MfaGateKeeps(w: World, w1: World, i: nat, u: User, req: Request, exempt: bool)
    requires Inv(w) && Inv(w1) && i < |w1.sessions| && w.users == w1.users
    ensures Inv(MfaGate(w, w1, i, u, req, exempt).0)
  {
    hide Inv, RolledOver, SessionTraced;
    RollOverKeeps(w1, i, u.mfaMethod, req.now);
    var w2 := if w1.sessions[i].verifiedAt.None? && !exempt then RolledOver(w1, i, u.mfaMethod, req.now) else w1;
    var cleared := w2.sessions[i].(verifiedAt := None, verifiedMethod := None);
    UnverifiedTraced(w2.log, cleared);
    ReplaceKeeps(w2, i, cleared);
    NoteKeeps(Replaced(w2, i, cleared), Admitted(req.uid, req.iat));
    NoteKeeps(w2, Admitted(req.uid, req.iat));
  }

  lemma {:induction false} UnverifiedTraced(log: seq<Fact>, s: Session)
    requires s.verifiedAt.None?
    ensures SessionTraced(log, s)
  {
  }

  lemma {:induction false} GateKeeps(w: World, req: Request, exempt: bool)
    requires Inv(w)
    ensures Inv(Gate(w, req, exempt).0)
  {
    hide Inv, MfaGate, Upserted;
    UpsertKeeps(w, req);
    var w1 := w.(sessions := Upserted(w.sessions, req));
    NoteKeeps(w1, Admitted(req.uid, req.iat));
    if req.uid in w.users {
      MfaGateKeeps(w, w1, FindSession(w1.sessions, req.uid, req.iat), w.users[req.uid], req, exempt);
    }
  }

  // ----- Factor checks -----

  /** A check touches nothing but the user's single-use slots, and only empties them. */
  predicate OnlySlots(u: User, u': User) {
    && u.(challenge := u'.challenge, challengeExpires := u'.challengeExpires, otp := u'.otp) == u'
    && (u'.challenge.Some? ==> u.challenge == u'.challenge && u.challengeExpires == u'.challengeExpires)
    && (u'.otp.Some? ==> u.otp == u'.otp)
  }

  lemma {:induction false} OnlySlotsKeepsFactors(u: User, u': User)
    requires OnlySlots(u, u')
    ensures FactorComplete(u') == FactorComplete(u)
  {
  }

  /** A check keeps the invariant, touches only slots, and when it succeeds records that `factor` passed. */
  ghost predicate Checked(w: World, uid: string, r: (World, Reply), factor: Method, now: int)
    requires uid in w.users
  {
    && Inv(r.0) && uid in r.0.users && OnlySlots(w.users[uid], r.0.users[uid])
    && (r.1 == Ok ==> Passed(uid, factor, now) in r.0.log)
  }

  lemma {:induction false} TotpCheck(w: World, uid: string, p: Proof, now: int)
    requires Inv(w) && uid in w.users
    ensures Checked(w, uid, CheckTotp(w, uid, p, now), Totp, now)
  {
    hide Inv;
    NoteKeeps(w, Passed(uid, Totp, now));
  }

  /** Using up a slot: the user is changed, the use and the passed check are recorded. */
  lemma {:induction false} UseSlot(w: World, uid: string, u': User, used: Fact, factor: Method, now: int)
    requires Inv(w) && uid in w.users && OnlySlots(w.users[uid], u')
    requires (used == OtpUsed(uid) && w.users[uid].otp.Some? && u'.otp.None?)
             || (used == ChallengeUsed(uid) && w.users[uid].challenge.Some? && u'.challenge.None?)
    ensures Checked(w, uid, (Note(Note(WithUser(w, uid, u'), used), Passed(uid, factor, now)), Ok), factor, now)
  {
    InvUser(w, uid);
    OnlySlotsKeepsFactors(w.users[uid], u');
    hide Inv, FactorComplete;
    ChangeUser(w, uid, u', used);
    NoteKeeps(Note(WithUser(w, uid, u'), used), Passed(uid, factor, now));
  }

  lemma {:induction false} Unchecked(w: World, uid: string, status: int, factor: Method, now: int)
    requires Inv(w) && uid in w.users
    ensures Checked(w, uid, (w, Fail(status)), factor, now)
  {
    hide Inv;
  }

  lemma {:induction false} OtpCheck(w: World, uid: string, code: string, now: int)
    requires Inv(w) && uid in w.users
    ensures Checked(w, uid, CheckEmailOtp(w, uid, code, now), Email, now)
  {
    hide Inv, Checked, WithUser, Note;
    Unchecked(w, uid, 400, Email, now);
    Unchecked(w, uid, 401, Email, now);
    var u := w.users[uid];
    if u.otp.Some? {
      UseSlot(w, uid, u.(otp := None), OtpUsed(uid), Email, now);
    }
  }

  lemma {:induction false} InvUser(w: World, uid: string)
    requires Inv(w) && uid in w.users
    ensures FactorComplete(w.users[uid])
  {
    hide FactorComplete;
  }

  lemma {:induction false} AssertionCheck(w: World, uid: string, p: Proof, now: int)
    requires Inv(w) && uid in w.users
    ensures Checked(w, uid, CheckAssertion(w, uid, p, now), Passkey, now)
  {
    hide Inv, Checked, WithUser, Note;
    Unchecked(w, uid, 400, Passkey, now);
    Unchecked(w, uid, 401, Passkey, now);
    Unchecked(w, uid, 403, Passkey, now);
    var u := w.users[uid];
    if u.challenge.Some? {
      UseSlot(w, uid, u.(challenge := None, challengeExpires := None), ChallengeUsed(uid), Passkey, now);
    }
  }

  /** The primary check is a real one: it records that the configured method passed. */
  lemma {:induction false} PrimaryCheck(w: World, uid: string, p: Proof, now: int)
    requires Inv(w) && uid in w.users
    ensures w.users[uid].mfaEnabled ==> w.users[uid].mfaMethod.Some?
    ensures w.users[uid].mfaEnabled ==> Checked(w, uid, CheckPrimary(w, uid, p, now), w.users[uid].mfaMethod.value, now)
    ensures !w.users[uid].mfaEnabled ==> CheckPrimary(w, uid, p, now) == (w, Ok)
  {
    InvUser(w, uid);
    hide Inv, Checked, CheckTotp, CheckEmailOtp, CheckAssertion;
    if w.users[uid].mfaEnabled {
      Unchecked(w, uid, 403, w.users[uid].mfaMethod.value, now);
      match w.users[uid].mfaMethod.value {
        case Totp => TotpCheck(w, uid, p, now);
        case Email =>
          if p.code.Some? {
            OtpCheck(w, uid, p.code.value, now);
          }
        case Passkey => AssertionCheck(w, uid, p, now);
      }
    }
  }

  lemma {:induction false} AnyCheck(w: World, uid: string, p: Proof, now: int)
    requires Inv(w) && uid in w.users
    ensures var (w', reply) := CheckAny(w, uid, p, now);
            Inv(w') && OnlySlots(w.users[uid], w'.users[uid])
  {
    hide Inv, CheckTotp, CheckAssertion;
    TotpCheck(w, uid, p, now);
    AssertionCheck(w, uid, p, now);
  }

  lemma {:induction false} GateAndCheckKeeps(w: World, req: Request, p: Proof)
    requires Inv(w)
    ensures Inv(GateAndCheck(w, req, p).0)
  {
    hide Inv, Gate, CheckAny;
    GateKeeps(w, req, true);
    var (w1, reply) := Gate(w, req, true);
    if reply == Ok {
      AnyCheck(w1, req.uid, p, req.now);
    }
  }

  // ----- The endpoints keep the invariant -----

  lemma {:induction false} LoginKeeps(w: World, req: Request, p: Proof)
    requires Inv(w)
    ensures Inv(LoginStep(w, req, p).0)
  {
    if req.uid in w.users {
      hide Inv, CheckPrimary, Stamp, Upserted;
      UpsertKeeps(w, req);
      var w1 := if req.iat == 0 then w else w.(sessions := Upserted(w.sessions, req));
      if w1.users[req.uid].mfaEnabled {
        PrimaryCheck(w1, req.uid, p, req.now);
        var (w2, reply) := CheckPrimary(w1, req.uid, p, req.now);
        if reply == Ok {
          StampKeeps(w2, req.uid, req.iat, w2.users[req.uid].mfaMethod.value, req.now);
        }
      }
    }
  }

  lemma {:induction false} UseEmailCodeKeeps(w: World, uid: string, code: string, now: int)
    requires Inv(w) && uid in w.users
    ensures Inv(UseEmailCode(w, uid, code, now).0)
  {
    hide Inv;
    var u := w.users[uid];
    if u.otp.Some? {
      var cleared := u.(otp := None, otpExpires := None);
      var enabled :=
        if u.pendingVerification
        then cleared.(mfaEnabled := false, pendingVerification := false,
                      mfaMethod := if u.mfaMethod == Some(Email) then None else u.mfaMethod)
        else cleared.(mfaEnabled := true, mfaMethod := Some(Email), totpSecret := None,
                      credential := None, publicKey := None, challenge := None, challengeExpires := None);
      ChangeUser(w, uid, enabled, OtpUsed(uid));
    }
  }

  lemma {:induction false} EnableEmailKeeps(w: World, uid: string, code: string, current: Proof, now: int)
    requires Inv(w)
    ensures Inv(EnableEmailStep(w, uid, code, current, now).0)
  {
    if uid in w.users {
      hide Inv, CheckPrimary, UseEmailCode;
      PrimaryCheck(w, uid, current, now);
      var u := w.users[uid];
      var (w1, reply) := if u.mfaEnabled && u.mfaMethod != Some(Email)
          then CheckPrimary(w, uid, current, now)
          else (w, Ok);
      UseEmailCodeKeeps(w1, uid, code, now);
    }
  }

  lemma {:induction false} SetupTotpKeeps(w: World, req: Request, p: Proof, secret: Token)
    requires Inv(w)
    ensures Inv(SetupTotpStep(w, req, p, secret).0)
  {
    hide Inv, GateAndCheck;
    GateAndCheckKeeps(w, req, p);
    var (w1, reply) := GateAndCheck(w, req, p);
    if reply == Ok {
      InvUser(w1, req.uid);
      ChangeUserSilently(w1, req.uid, w1.users[req.uid].(totpPending := Some(secret)));
    }
  }

  lemma {:induction false} EnableTotpKeeps(w: World, req: Request, code: string, codeValid: bool)
    requires Inv(w)
    ensures Inv(EnableTotpStep(w, req, code, codeValid).0)
  {
    hide Inv, Gate, Stamp;
    GateKeeps(w, req, true);
    var (w1, reply) := Gate(w, req, true);
    if reply == Ok && w1.users[req.uid].totpPending.Some? {
      InvUser(w1, req.uid);
      var u := w1.users[req.uid];
      var enabled := u.(mfaEnabled := true, totpSecret := u.totpPending, totpPending := None,
                        mfaMethod := if u.mfaEnabled then u.mfaMethod else Some(Totp));
      ChangeUser(w1, req.uid, enabled, Passed(req.uid, Totp, req.now));
      var w2 := Note(WithUser(w1, req.uid, enabled), Passed(req.uid, Totp, req.now));
      StampKeeps(w2, req.uid, req.iat, Totp, req.now);
    }
  }

  lemma {:induction false} IssueKeeps(w: World, uid: string, challenge: Token, now: int)
    requires Inv(w) && uid in w.users
    ensures Inv(IssueChallenge(w, uid, challenge, now))
  {
    InvUser(w, uid);
    hide Inv;
    ChangeUser(w, uid, w.users[uid].(challenge := Some(challenge), challengeExpires := Some(now + CHALLENGE_SECONDS)),
      ChallengeIssued(uid));
  }

  lemma {:induction false} RegisterOptionsKeeps(w: World, req: Request, p: Proof, challenge: Token)
    requires Inv(w)
    ensures Inv(PasskeyRegisterOptionsStep(w, req, p, challenge).0)
  {
    hide Inv, GateAndCheck, IssueChallenge;
    GateAndCheckKeeps(w, req, p);
    var (w1, reply) := GateAndCheck(w, req, p);
    if reply == Ok {
      IssueKeeps(w1, req.uid, challenge, req.now);
    }
  }

  lemma {:induction false} RegisterVerifyKeeps(
      w: World, req: Request, p: Proof, valid: bool, credential: Token, publicKey: Token)
    requires Inv(w)
    ensures Inv(PasskeyRegisterVerifyStep(w, req, p, valid, credential, publicKey).0)
  {
    hide Inv, GateAndCheck, Stamp;
    GateAndCheckKeeps(w, req, p);
    var (w1, reply) := GateAndCheck(w, req, p);
    if reply == Ok && w1.users[req.uid].challenge.Some? {
      InvUser(w1, req.uid);
      var u := w1.users[req.uid];
      var enabled := u.(credential := Some(credential), publicKey := Some(publicKey),
                        challenge := None, challengeExpires := None, otp := None, otpExpires := None,
                        mfaEnabled := true, mfaMethod := if u.mfaEnabled then u.mfaMethod else Some(Passkey));
      ChangeUser(w1, req.uid, enabled, ChallengeUsed(req.uid));
      var w2 := Note(WithUser(w1, req.uid, enabled), ChallengeUsed(req.uid));
      NoteKeeps(w2, Passed(req.uid, Passkey, req.now));
      StampKeeps(Note(w2, Passed(req.uid, Passkey, req.now)), req.uid, req.iat, Passkey, req.now);
    }
  }

  lemma {:induction false} DisableKeeps(w: World, req: Request, p: Proof)
    requires Inv(w)
    ensures Inv(DisableMfaStep(w, req, p).0)
  {
    hide Inv, Gate, CheckAny, SessionTraced;
    GateKeeps(w, req, true);
    var (w1, reply) := Gate(w, req, true);
    if reply == Ok {
      AnyCheck(w1, req.uid, p, req.now);
      var (w2, reply2) := CheckAny(w1, req.uid, p, req.now);
      if reply2 == Ok {
        var off := w2.users[req.uid].(mfaEnabled := false, totpSecret := None, totpPending := None, mfaMethod := None,
                     otp := None, otpExpires := None, credential := None, publicKey := None,
                     challenge := None, challengeExpires := None);
        ChangeUserSilently(w2, req.uid, off);
        var w3 := WithUser(w2, req.uid, off);
        var i := FindSession(w3.sessions, req.uid, req.iat);
        if i < |w3.sessions| {
          var cleared := w3.sessions[i].(verifiedAt := None, verifiedMethod := None);
          UnverifiedTraced(w3.log, cleared);
          ReplaceKeeps(w3, i, cleared);
        }
      }
    }
  }

  lemma {:induction false} SetPrimaryKeeps(w: World, req: Request, factor: Method, p: Proof)
    requires Inv(w)
    ensures Inv(SetPrimaryStep(w, req, factor, p).0)
  {
    hide Inv, Gate, Stamp;
    GateKeeps(w, req, true);
    var (w1, reply) := Gate(w, req, true);
    if reply == Ok && (factor == Totp || factor == Passkey) {
      TotpCheck(w1, req.uid, p, req.now);
      AssertionCheck(w1, req.uid, p, req.now);
      var (w2, reply2) := if factor == Totp
          then CheckTotp(w1, req.uid, p, req.now)
          else CheckAssertion(w1, req.uid, p, req.now);
      if reply2 == Ok {
        var u' := w2.users[req.uid].(mfaEnabled := true, mfaMethod := Some(factor));
        ChangeUserSilently(w2, req.uid, u');
        StampKeeps(WithUser(w2, req.uid, u'), req.uid, req.iat, factor, req.now);
      }
    }
  }

  /** Ending sessions changes nothing a stamp depends on. */
  lemma {:induction false} EndingKeeps(w: World, sessions: seq<Session>)
    requires Inv(w) && |sessions| == |w.sessions|
    requires forall k :: 0 <= k < |sessions| ==> sessions[k].(active := true) == w.sessions[k].(active := true)
    ensures Inv(w.(sessions := sessions))
  {
    hide Traced, SlotsOf, FactorComplete;
    forall k | 0 <= k < |sessions|
      ensures SessionTraced(w.log, sessions[k])
      ensures sessions[k].uid == w.sessions[k].uid && sessions[k].iat == w.sessions[k].iat
    {
      assert SessionTraced(w.log, w.sessions[k]);
      assert sessions[k].(active := true).verifiedAt == w.sessions[k].(active := true).verifiedAt;
    }
  }

  lemma {:induction false} GateThenEndKeeps(w: World, req: Request, exempt: bool, target: int)
    requires Inv(w)
    ensures var w1 := Gate(w, req, exempt).0;
            && Inv(w1.(sessions := Deactivated(w1.sessions, req.uid, target)))
            && Inv(w1.(sessions := OthersEnded(w1.sessions, req.uid, target)))
  {
    hide Inv, Gate;
    GateKeeps(w, req, exempt);
    var w1 := Gate(w, req, exempt).0;
    EndingKeeps(w1, Deactivated(w1.sessions, req.uid, target));
    EndingKeeps(w1, OthersEnded(w1.sessions, req.uid, target));
  }

  lemma {:induction false} CodeKeeps(w: World, uid: string, code: Token, now: int)
    requires Inv(w)
    ensures Inv(RequestEmailCodeStep(w, uid, code, now).0)
  {
    if uid in w.users {
      InvUser(w, uid);
      hide Inv;
      ChangeUser(w, uid, w.users[uid].(otp := Some(code), otpExpires := Some(now + OTP_SECONDS)), OtpIssued(uid));
    }
  }

  lemma {:induction false} AuthOptionsKeeps(w: World, uid: string, challenge: Token, now: int)
    requires Inv(w)
    ensures Inv(PasskeyAuthOptionsStep(w, uid, challenge, now).0)
  {
    if uid in w.users {
      hide Inv, IssueChallenge;
      IssueKeeps(w, uid, challenge, now);
    }
  }

  lemma {:induction false} ResetKeeps(w: World, uid: string, p: Proof, now: int)
    requires Inv(w)
    ensures Inv(ResetPasswordStep(w, uid, p, now).0)
  {
    if uid in w.users {
      hide Inv, CheckPrimary;
      PrimaryCheck(w, uid, p, now);
    }
  }

  /** Every step keeps the invariant. */
  lemma {:induction false} StepKeepsInv(w: World, e: Event)
    requires Inv(w)
    ensures Inv(Step(w, e).0)
  {
    hide Inv, Gate, LoginStep, RequestEmailCodeStep, EnableEmailStep, SetupTotpStep, EnableTotpStep,
        PasskeyAuthOptionsStep, PasskeyRegisterOptionsStep, PasskeyRegisterVerifyStep, DisableMfaStep, SetPrimaryStep,
        ResetPasswordStep, Deactivated, OthersEnded;
    match e {
      case Visit(req) => GateKeeps(w, req, false);
      case Login(req, proof) => LoginKeeps(w, req, proof);
      case RequestEmailCode(uid, code, now) => CodeKeeps(w, uid, code, now);
      case EnableEmail(uid, code, current, now) => EnableEmailKeeps(w, uid, code, current, now);
      case SetupTotp(req, proof, secret) => SetupTotpKeeps(w, req, proof, secret);
      case EnableTotp(req, code, codeValid) => EnableTotpKeeps(w, req, code, codeValid);
      case PasskeyAuthOptions(uid, challenge, now) => AuthOptionsKeeps(w, uid, challenge, now);
      case PasskeyRegisterOptions(req, proof, challenge) => RegisterOptionsKeeps(w, req, proof, challenge);
      case PasskeyRegisterVerify(req, proof, valid, credential, publicKey) =>
        RegisterVerifyKeeps(w, req, proof, valid, credential, publicKey);
      case DisableMfa(req, proof) => DisableKeeps(w, req, proof);
      case SetPrimary(req, factor, proof) => SetPrimaryKeeps(w, req, factor, proof);
      case Logout(req, revoked) =>
        GateKeeps(w, req, true);
        GateThenEndKeeps(w, req, true, req.iat);
      case EndSession(req, target) =>
        GateKeeps(w, req, false);
        GateThenEndKeeps(w, req, false, target);
      case EndOtherSessions(req) =>
        GateKeeps(w, req, false);
        GateThenEndKeeps(w, req, false, req.iat);
      case ResetPassword(uid, proof, now) => ResetKeeps(w, uid, proof, now);
    }
  }

  /** So does every run. */
  lemma {:induction false} RunKeepsInv(w: World, events: seq<Event>)
    requires Inv(w)
    ensures Inv(Run(w, events))
    decreases |events|
  {
    hide Inv, Step;
    if events == [] {
    } else {
      StepKeepsInv(w, events[0]);
      RunKeepsInv(Step(w, events[0]).0, events[1..]);
    }
  }

  /** The start: no sessions, nothing pending, and no incomplete second factor. */
  lemma {:induction false} StartIsFine(users: map<string, User>)
    requires forall uid :: uid in users ==>
               FactorComplete(users[uid]) && users[uid].challenge.None? && users[uid].otp.None?
    ensures Inv(World(users, [], []))
  {
    hide FactorComplete;
  }

  // ----- What the invariant gives -----

  lemma {:induction false} TracedMeansPassed(
      log: seq<Fact>, uid: string, iat: int, ip: Option<string>, agent: string, factor: Method, stamp: int)
    requires Traced(log, uid, iat, ip, agent, factor, stamp)
    ensures Passed(uid, factor, stamp) in log
    decreases |log|
  {
    var init, last := log[..|log| - 1], log[|log| - 1];
    if Traced(init, uid, iat, ip, agent, factor, stamp) {
      TracedMeansPassed(init, uid, iat, ip, agent, factor, stamp);
    } else if last.Rolled? && Traced(init, uid, last.from, ip, agent, factor, stamp) {
      TracedMeansPassed(init, uid, last.from, ip, agent, factor, stamp);
    }
  }

  /** After every run, each stamped session is traced, through any chain of token refreshes, to a
      check that really passed for its user at the stamped time. */
  lemma {:induction false} StampsAreReal(users: map<string, User>, events: seq<Event>, k: nat)
    requires forall uid :: uid in users ==>
               FactorComplete(users[uid]) && users[uid].challenge.None? && users[uid].otp.None?
    requires var w := Run(World(users, [], []), events);
             k < |w.sessions| && w.sessions[k].verifiedAt.Some?
    ensures var w := Run(World(users, [], []), events);
            var s := w.sessions[k];
            && s.verifiedMethod.Some?
            && Traced(w.log, s.uid, s.iat, s.ip, s.agent, s.verifiedMethod.value, s.verifiedAt.value)
            && Passed(s.uid, s.verifiedMethod.value, s.verifiedAt.value) in w.log
  {
    StartIsFine(users);
    RunKeepsInv(World(users, [], []), events);
    var w := Run(World(users, [], []), events);
    var s := w.sessions[k];
    assert SessionTraced(w.log, s);
    TracedMeansPassed(w.log, s.uid, s.iat, s.ip, s.agent, s.verifiedMethod.value, s.verifiedAt.value);
  }

  /** Whoever passes the gate on a path that is not exempt, with a second factor enabled, does so on
      an active session stamped by the user's current method, which is complete and really passed. */
  lemma {:induction false} AdmissionIsVerified(w: World, req: Request)
    requires Inv(w) && req.iat != 0 && req.uid in w.users && w.users[req.uid].mfaEnabled
    requires Gate(w, req, false).1 == Ok
    ensures var w' := Gate(w, req, false).0;
            var i := FindSession(w'.sessions, req.uid, req.iat);
            && i < |w'.sessions| && w'.sessions[i].active && w'.sessions[i].verifiedAt.Some?
            && w'.sessions[i].verifiedMethod == w.users[req.uid].mfaMethod
            && w.users[req.uid].mfaMethod in {Some(Totp), Some(Email), Some(Passkey)}
                && FactorComplete(w.users[req.uid])
            && Passed(req.uid, w.users[req.uid].mfaMethod.value, w'.sessions[i].verifiedAt.value) in w'.log
  {
    InvUser(w, req.uid);
    GateKeeps(w, req, false);
    AdmissionShape(w, req);
    var w' := Gate(w, req, false).0;
    var i := FindSession(w'.sessions, req.uid, req.iat);
    hide Gate;
    var s := w'.sessions[i];
    assert SessionTraced(w'.log, s);
    TracedMeansPassed(w'.log, s.uid, s.iat, s.ip, s.agent, s.verifiedMethod.value, s.verifiedAt.value);
  }

  lemma {:induction false} SamePlace(a: seq<Session>, b: seq<Session>, uid: string, iat: int)
    requires |a| == |b| && forall k :: 0 <= k < |a| ==> a[k].uid == b[k].uid && a[k].iat == b[k].iat
    ensures FindSession(a, uid, iat) == FindSession(b, uid, iat)
  {
    if a == [] {
    } else {
      SamePlace(a[1..], b[1..], uid, iat);
    }
  }

  lemma {:induction false} AdmissionShape(w: World, req: Request)
    requires req.iat != 0 && req.uid in w.users && w.users[req.uid].mfaEnabled && Gate(w, req, false).1 == Ok
    ensures var w' := Gate(w, req, false).0;
            var i := FindSession(w'.sessions, req.uid, req.iat);
            && i < |w'.sessions| && w'.sessions[i].active && w'.sessions[i].verifiedAt.Some?
            && w'.sessions[i].verifiedMethod == w.users[req.uid].mfaMethod
  {
    hide FindSession, LatestDonor;
    var w1 := w.(sessions := Upserted(w.sessions, req));
    var w' := Gate(w, req, false).0;
    UpsertedActive(w.sessions, req);
    SamePlace(w1.sessions, w'.sessions, req.uid, req.iat);
  }

  lemma {:induction false} UpsertedActive(sessions: seq<Session>, req: Request)
    requires var i := FindSession(sessions, req.uid, req.iat);
             i < |sessions| ==> sessions[i].active
    ensures var r := Upserted(sessions, req);
            r[FindSession(r, req.uid, req.iat)].active
  {
    var r := Upserted(sessions, req);
    var i := FindSession(r, req.uid, req.iat);
    if FindSession(sessions, req.uid, req.iat) == |sessions| {
      FindAppended(sessions, NewSession(req));
    }
  }
}
