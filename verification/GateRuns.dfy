/** Properties of whole runs: a killed session stays out, a single-use slot is used once per filling,
    and which second factors can be given up or replaced.
  */
module GateRuns {
  import opened Text
  import opened SessionGate
  import opened GateProofs

  // ----- A killed session stays out -----

  predicate Killed(w: World, uid: string, iat: int) {
    var i := FindSession(w.sessions, uid, iat);
    i < |w.sessions| && !w.sessions[i].active
  }

  /** Sessions are never revived, renamed or removed. */
  ghost predicate SessionsEvolve(a: seq<Session>, b: seq<Session>) {
    && |a| <= |b|
    && forall k :: 0 <= k < |a| ==>
         b[k].uid == a[k].uid && b[k].iat == a[k].iat && (b[k].active ==> a[k].active)
  }

  /** From w on, the log only grew, and nobody killed in w was admitted. */
  ghost predicate LogEvolves(w: World, log: seq<Fact>) {
    && w.log <= log
    && forall n :: |w.log| <= n < |log| && log[n].Admitted? ==> !Killed(w, log[n].uid, log[n].iat)
  }

  ghost predicate Evolves(w: World, w': World) {
    SessionsEvolve(w.sessions, w'.sessions) && LogEvolves(w, w'.log)
  }

  /** Evolves, and nobody is admitted. */
  ghost predicate Quiet(w: World, w': World) {
    && SessionsEvolve(w.sessions, w'.sessions)
    && w.log <= w'.log
    && forall n :: |w.log| <= n < |w'.log| ==> !w'.log[n].Admitted?
  }

  lemma {:induction false} KilledStays(w: World, w': World, uid: string, iat: int)
    requires SessionsEvolve(w.sessions, w'.sessions) && Killed(w, uid, iat)
    ensures Killed(w', uid, iat)
  {
    var i := FindSession(w.sessions, uid, iat);
    assert w'.sessions[i].uid == uid && w'.sessions[i].iat == iat;
  }

  lemma {:induction false} Then(a: World, b: World, c: World)
    requires Evolves(a, b) && Evolves(b, c)
    ensures Evolves(a, c)
  {
    hide Killed;
    forall n | |a.log| <= n < |c.log| && c.log[n].Admitted?
      ensures !Killed(a, c.log[n].uid, c.log[n].iat)
    {
      if n >= |b.log| && Killed(a, c.log[n].uid, c.log[n].iat) {
        KilledStays(a, b, c.log[n].uid, c.log[n].iat);
      }
    }
  }

  lemma {:induction false} QuietEvolves(w: World, w': World)
    requires Quiet(w, w')
    ensures Evolves(w, w')
  {
  }

  lemma {:induction false} ThenQuiet(a: World, b: World, c: World)
    requires Evolves(a, b) && Quiet(b, c)
    ensures Evolves(a, c)
  {
    hide *;
    QuietEvolves(b, c);
    Then(a, b, c);
  }

  lemma {:induction false} QuietThenQuiet(a: World, b: World, c: World)
    requires Quiet(a, b) && Quiet(b, c)
    ensures Quiet(a, c)
  {
  }

  lemma {:induction false} Still(w: World, users: map<string, User>)
    ensures Quiet(w, w.(users := users))
  {
  }

  // ----- Each step evolves -----

  lemma {:induction false} ChecksAreQuiet(w: World, uid: string, p: Proof, code: string, now: int)
    requires uid in w.users
    ensures Quiet(w, CheckTotp(w, uid, p, now).0)
    ensures Quiet(w, CheckEmailOtp(w, uid, code, now).0)
    ensures Quiet(w, CheckAssertion(w, uid, p, now).0)
    ensures Quiet(w, UseEmailCode(w, uid, code, now).0)
  {
  }

  lemma {:induction false} PrimaryIsQuiet(w: World, uid: string, p: Proof, now: int)
    requires uid in w.users
    ensures Quiet(w, CheckPrimary(w, uid, p, now).0)
  {
    hide Quiet, CheckTotp, CheckEmailOtp, CheckAssertion, UseEmailCode;
    Still(w, w.users);
    ChecksAreQuiet(w, uid, p, if p.code.Some? then p.code.value else "", now);
  }

  lemma {:induction false} AnyIsQuiet(w: World, uid: string, p: Proof, now: int)
    requires uid in w.users
    ensures Quiet(w, CheckAny(w, uid, p, now).0)
  {
    hide Quiet, CheckTotp, CheckEmailOtp, CheckAssertion, UseEmailCode;
    Still(w, w.users);
    ChecksAreQuiet(w, uid, p, "", now);
  }

  lemma {:induction false} StampIsQuiet(w: World, uid: string, iat: int, factor: Option<Method>, now: int)
    ensures Quiet(w, Stamp(w, uid, iat, factor, now))
  {
  }

  lemma {:induction false} RollOverIsQuiet(w: World, i: nat, factor: Option<Method>, now: int)
    requires i < |w.sessions|
    ensures Quiet(w, RolledOver(w, i, factor, now))
  {
    hide LatestDonor;
  }

  lemma {:induction false} UpsertIsQuiet(w: World, req: Request)
    ensures Quiet(w, w.(sessions := Upserted(w.sessions, req)))
  {
  }

  lemma {:induction false} ClearIsQuiet(w: World, i: nat)
    requires i < |w.sessions|
    ensures Quiet(w, Replaced(w, i, w.sessions[i].(verifiedAt := None, verifiedMethod := None)))
  {
  }

  lemma {:induction false} EndingIsQuiet(w: World, uid: string, iat: int)
    ensures Quiet(w, w.(sessions := Deactivated(w.sessions, uid, iat)))
    ensures Quiet(w, w.(sessions := OthersEnded(w.sessions, uid, iat)))
  {
  }

  lemma {:induction false} AdmitEvolves(w: World, w1: World, uid: string, iat: int)
    requires Quiet(w, w1) && !Killed(w, uid, iat)
    ensures Evolves(w, Note(w1, Admitted(uid, iat)))
  {
    hide Killed;
  }

  lemma {:induction false} MfaGateEvolves(w: World, w1: World, i: nat, u: User, req: Request, exempt: bool)
    requires i < |w1.sessions| && w.users == w1.users && Quiet(w, w1) && !Killed(w, req.uid, req.iat)
    ensures Evolves(w, MfaGate(w, w1, i, u, req, exempt).0)
  {
    hide Quiet, Evolves, Killed, RolledOver, Note, Replaced;
    Still(w, w.users);
    QuietEvolves(w, w);
    RollOverIsQuiet(w1, i, u.mfaMethod, req.now);
    var w2 := if w1.sessions[i].verifiedAt.None? && !exempt then RolledOver(w1, i, u.mfaMethod, req.now) else w1;
    Still(w1, w1.users);
    QuietThenQuiet(w, w1, w2);
    ClearIsQuiet(w2, i);
    var w3 := Replaced(w2, i, w2.sessions[i].(verifiedAt := None, verifiedMethod := None));
    QuietThenQuiet(w, w2, w3);
    QuietEvolves(w, w3);
    AdmitEvolves(w, w2, req.uid, req.iat);
    AdmitEvolves(w, w3, req.uid, req.iat);
  }

  lemma {:induction false} GateEvolves(w: World, req: Request, exempt: bool)
    ensures Evolves(w, Gate(w, req, exempt).0)
  {
    hide Quiet, Evolves, MfaGate, Upserted, Note;
    Still(w, w.users);
    QuietEvolves(w, w);
    if req.uid in w.users && req.iat != 0 && !Killed(w, req.uid, req.iat) {
      UpsertIsQuiet(w, req);
      var w1 := w.(sessions := Upserted(w.sessions, req));
      AdmitEvolves(w, w1, req.uid, req.iat);
      MfaGateEvolves(w, w1, FindSession(w1.sessions, req.uid, req.iat), w.users[req.uid], req, exempt);
    }
  }

  lemma {:induction false} GateAndCheckEvolves(w: World, req: Request, p: Proof)
    ensures Evolves(w, GateAndCheck(w, req, p).0)
  {
    hide Evolves, Quiet, Gate, CheckAny;
    GateEvolves(w, req, true);
    var (w1, reply) := Gate(w, req, true);
    if reply == Ok {
      AnyIsQuiet(w1, req.uid, p, req.now);
      ThenQuiet(w, w1, CheckAny(w1, req.uid, p, req.now).0);
    }
  }

  lemma {:induction false} LoginEvolves(w: World, req: Request, p: Proof)
    ensures Evolves(w, LoginStep(w, req, p).0)
  {
    hide Evolves, Quiet, CheckPrimary, Stamp, Upserted;
    Still(w, w.users);
    QuietEvolves(w, w);
    UpsertIsQuiet(w, req);
    var w1 := if req.iat == 0 then w else w.(sessions := Upserted(w.sessions, req));
    QuietEvolves(w, w1);
    if req.uid in w.users {
      PrimaryIsQuiet(w1, req.uid, p, req.now);
      var w2 := CheckPrimary(w1, req.uid, p, req.now).0;
      ThenQuiet(w, w1, w2);
      StampIsQuiet(w2, req.uid, req.iat, w2.users[req.uid].mfaMethod, req.now);
      ThenQuiet(w, w2, Stamp(w2, req.uid, req.iat, w2.users[req.uid].mfaMethod, req.now));
    }
  }

  lemma {:induction false} EnableEmailEvolves(w: World, uid: string, code: string, current: Proof, now: int)
    ensures Evolves(w, EnableEmailStep(w, uid, code, current, now).0)
  {
    hide Evolves, Quiet, CheckPrimary, UseEmailCode;
    Still(w, w.users);
    QuietEvolves(w, w);
    if uid in w.users {
      PrimaryIsQuiet(w, uid, current, now);
      var u := w.users[uid];
      var w1 := if u.mfaEnabled && u.mfaMethod != Some(Email) then CheckPrimary(w, uid, current, now).0 else w;
      QuietEvolves(w, w1);
      ChecksAreQuiet(w1, uid, current, code, now);
      ThenQuiet(w, w1, UseEmailCode(w1, uid, code, now).0);
    }
  }

  /** A user is changed and at most one fact that admits nobody is recorded. */
  lemma {:induction false} UserChangeIsQuiet(w: World, uid: string, u: User, f: Fact)
    requires !f.Admitted?
    ensures Quiet(w, WithUser(w, uid, u)) && Quiet(w, Note(w, f)) && Quiet(w, Note(WithUser(w, uid, u), f))
  {
  }

  lemma {:induction false} SetupTotpEvolves(w: World, req: Request, p: Proof, secret: Token)
    ensures Evolves(w, SetupTotpStep(w, req, p, secret).0)
  {
    hide Evolves, Quiet, GateAndCheck, WithUser;
    GateAndCheckEvolves(w, req, p);
    var (w1, reply) := GateAndCheck(w, req, p);
    if reply == Ok {
      var u := w1.users[req.uid].(totpPending := Some(secret));
      UserChangeIsQuiet(w1, req.uid, u, OtpIssued(req.uid));
      ThenQuiet(w, w1, WithUser(w1, req.uid, u));
    }
  }

  lemma {:induction false} EnableTotpEvolves(w: World, req: Request, code: string, codeValid: bool)
    ensures Evolves(w, EnableTotpStep(w, req, code, codeValid).0)
  {
    hide Evolves, Quiet, Gate, Stamp, WithUser, Note;
    GateEvolves(w, req, true);
    var (w1, reply) := Gate(w, req, true);
    if reply == Ok {
      var u := w1.users[req.uid];
      var enabled := u.(mfaEnabled := true, totpSecret := u.totpPending, totpPending := None,
                        mfaMethod := if u.mfaEnabled then u.mfaMethod else Some(Totp));
      var f := Passed(req.uid, Totp, req.now);
      UserChangeIsQuiet(w1, req.uid, enabled, f);
      var w2 := Note(WithUser(w1, req.uid, enabled), f);
      ThenQuiet(w, w1, w2);
      StampIsQuiet(w2, req.uid, req.iat, Some(Totp), req.now);
      ThenQuiet(w, w2, Stamp(w2, req.uid, req.iat, Some(Totp), req.now));
    }
  }

  lemma {:induction false} IssueIsQuiet(w: World, uid: string, challenge: Token, now: int)
    requires uid in w.users
    ensures Quiet(w, IssueChallenge(w, uid, challenge, now))
  {
  }

  lemma {:induction false} RegisterOptionsEvolves(w: World, req: Request, p: Proof, challenge: Token)
    ensures Evolves(w, PasskeyRegisterOptionsStep(w, req, p, challenge).0)
  {
    hide Evolves, Quiet, GateAndCheck, IssueChallenge;
    GateAndCheckEvolves(w, req, p);
    var (w1, reply) := GateAndCheck(w, req, p);
    if reply == Ok {
      IssueIsQuiet(w1, req.uid, challenge, req.now);
      ThenQuiet(w, w1, IssueChallenge(w1, req.uid, challenge, req.now));
    }
  }

  lemma {:induction false} RegisterVerifyEvolves(
      w: World, req: Request, p: Proof, valid: bool, credential: Token, publicKey: Token)
    ensures Evolves(w, PasskeyRegisterVerifyStep(w, req, p, valid, credential, publicKey).0)
  {
    hide Evolves, Quiet, GateAndCheck, Stamp, WithUser, Note;
    GateAndCheckEvolves(w, req, p);
    var (w1, reply) := GateAndCheck(w, req, p);
    if reply == Ok {
      var u := w1.users[req.uid];
      var enabled := u.(credential := Some(credential), publicKey := Some(publicKey),
                        challenge := None, challengeExpires := None, otp := None, otpExpires := None,
                        mfaEnabled := true, mfaMethod := if u.mfaEnabled then u.mfaMethod else Some(Passkey));
      UserChangeIsQuiet(w1, req.uid, enabled, ChallengeUsed(req.uid));
      var w2 := Note(WithUser(w1, req.uid, enabled), ChallengeUsed(req.uid));
      ThenQuiet(w, w1, w2);
      UserChangeIsQuiet(w2, req.uid, enabled, Passed(req.uid, Passkey, req.now));
      var w3 := Note(w2, Passed(req.uid, Passkey, req.now));
      ThenQuiet(w, w2, w3);
      StampIsQuiet(w3, req.uid, req.iat, Some(Passkey), req.now);
      ThenQuiet(w, w3, Stamp(w3, req.uid, req.iat, Some(Passkey), req.now));
    }
  }

  lemma {:induction false} DisableEvolves(w: World, req: Request, p: Proof)
    ensures Evolves(w, DisableMfaStep(w, req, p).0)
  {
    hide Evolves, Quiet, Gate, CheckAny, WithUser, Replaced;
    GateEvolves(w, req, true);
    var (w1, reply) := Gate(w, req, true);
    if reply == Ok {
      AnyIsQuiet(w1, req.uid, p, req.now);
      var w2 := CheckAny(w1, req.uid, p, req.now).0;
      ThenQuiet(w, w1, w2);
      var off := w2.users[req.uid].(mfaEnabled := false, totpSecret := None, totpPending := None, mfaMethod := None,
                   otp := None, otpExpires := None, credential := None, publicKey := None,
                   challenge := None, challengeExpires := None);
      UserChangeIsQuiet(w2, req.uid, off, OtpIssued(req.uid));
      var w3 := WithUser(w2, req.uid, off);
      ThenQuiet(w, w2, w3);
      var i := FindSession(w3.sessions, req.uid, req.iat);
      if i < |w3.sessions| {
        ClearIsQuiet(w3, i);
        ThenQuiet(w, w3, Replaced(w3, i, w3.sessions[i].(verifiedAt := None, verifiedMethod := None)));
      }
    }
  }

  lemma {:induction false} SetPrimaryEvolves(w: World, req: Request, factor: Method, p: Proof)
    ensures Evolves(w, SetPrimaryStep(w, req, factor, p).0)
  {
    hide Evolves, Quiet, Gate, Stamp, CheckTotp, CheckAssertion, WithUser, CheckEmailOtp, UseEmailCode;
    GateEvolves(w, req, true);
    var (w1, reply) := Gate(w, req, true);
    if reply == Ok {
      ChecksAreQuiet(w1, req.uid, p, "", req.now);
      var w2 := if factor == Totp
          then CheckTotp(w1, req.uid, p, req.now).0
          else CheckAssertion(w1, req.uid, p, req.now).0;
      ThenQuiet(w, w1, w2);
      var u := w2.users[req.uid].(mfaEnabled := true, mfaMethod := Some(factor));
      UserChangeIsQuiet(w2, req.uid, u, OtpIssued(req.uid));
      var w3 := WithUser(w2, req.uid, u);
      ThenQuiet(w, w2, w3);
      StampIsQuiet(w3, req.uid, req.iat, Some(factor), req.now);
      ThenQuiet(w, w3, Stamp(w3, req.uid, req.iat, Some(factor), req.now));
    }
  }

  lemma {:induction false} GateThenEndEvolves(w: World, req: Request, exempt: bool, target: int)
    ensures var w1 := Gate(w, req, exempt).0;
            && Evolves(w, w1)
            && Evolves(w, w1.(sessions := Deactivated(w1.sessions, req.uid, target)))
            && Evolves(w, w1.(sessions := OthersEnded(w1.sessions, req.uid, target)))
  {
    hide Evolves, Quiet, Gate, Deactivated, OthersEnded;
    GateEvolves(w, req, exempt);
    var w1 := Gate(w, req, exempt).0;
    EndingIsQuiet(w1, req.uid, target);
    ThenQuiet(w, w1, w1.(sessions := Deactivated(w1.sessions, req.uid, target)));
    ThenQuiet(w, w1, w1.(sessions := OthersEnded(w1.sessions, req.uid, target)));
  }

  lemma {:induction false} CodesEvolve(w: World, uid: string, code: Token, now: int)
    ensures Evolves(w, RequestEmailCodeStep(w, uid, code, now).0)
    ensures Evolves(w, PasskeyAuthOptionsStep(w, uid, code, now).0)
  {
    hide Killed;
  }

  lemma {:induction false} ResetEvolves(w: World, uid: string, p: Proof, now: int)
    ensures Evolves(w, ResetPasswordStep(w, uid, p, now).0)
  {
    hide Evolves, Quiet, CheckPrimary;
    Still(w, w.users);
    QuietEvolves(w, w);
    if uid in w.users {
      PrimaryIsQuiet(w, uid, p, now);
      QuietEvolves(w, CheckPrimary(w, uid, p, now).0);
    }
  }

  lemma {:induction false} StepEvolves(w: World, e: Event)
    ensures Evolves(w, Step(w, e).0)
  {
    hide Evolves, Gate, LoginStep, RequestEmailCodeStep, EnableEmailStep, SetupTotpStep, EnableTotpStep,
        PasskeyAuthOptionsStep, PasskeyRegisterOptionsStep, PasskeyRegisterVerifyStep, DisableMfaStep, SetPrimaryStep,
        ResetPasswordStep, Deactivated, OthersEnded;
    match e {
      case Visit(req) => GateEvolves(w, req, false);
      case Login(req, proof) => LoginEvolves(w, req, proof);
      case RequestEmailCode(uid, code, now) => CodesEvolve(w, uid, code, now);
      case EnableEmail(uid, code, current, now) => EnableEmailEvolves(w, uid, code, current, now);
      case SetupTotp(req, proof, secret) => SetupTotpEvolves(w, req, proof, secret);
      case EnableTotp(req, code, codeValid) => EnableTotpEvolves(w, req, code, codeValid);
      case PasskeyAuthOptions(uid, challenge, now) => CodesEvolve(w, uid, challenge, now);
      case PasskeyRegisterOptions(req, proof, challenge) => RegisterOptionsEvolves(w, req, proof, challenge);
      case PasskeyRegisterVerify(req, proof, valid, credential, publicKey) =>
        RegisterVerifyEvolves(w, req, proof, valid, credential, publicKey);
      case DisableMfa(req, proof) => DisableEvolves(w, req, proof);
      case SetPrimary(req, factor, proof) => SetPrimaryEvolves(w, req, factor, proof);
      case Logout(req, revoked) => GateThenEndEvolves(w, req, true, req.iat);
      case EndSession(req, target) => GateThenEndEvolves(w, req, false, target);
      case EndOtherSessions(req) => GateThenEndEvolves(w, req, false, req.iat);
      case ResetPassword(uid, proof, now) => ResetEvolves(w, uid, proof, now);
    }
  }

  lemma {:induction false} RunEvolves(w: World, events: seq<Event>)
    ensures Evolves(w, Run(w, events))
    decreases |events|
  {
    hide Evolves, Quiet, Step;
    if events == [] {
      Still(w, w.users);
      QuietEvolves(w, w);
    } else {
      StepEvolves(w, events[0]);
      RunEvolves(Step(w, events[0]).0, events[1..]);
      Then(w, Step(w, events[0]).0, Run(w, events));
    }
  }

  /** Once killed, a session is killed after every run, is refused with 401 and is never admitted again. */
  lemma {:induction false} KilledStaysOut(w: World, events: seq<Event>, uid: string, iat: int)
    requires Killed(w, uid, iat)
    ensures var w' := Run(w, events);
            && Killed(w', uid, iat)
            && (forall n :: |w.log| <= n < |w'.log| ==> w'.log[n] != Admitted(uid, iat))
            && (forall req: Request, exempt :: req.uid == uid && req.iat == iat && iat != 0
                  ==> Gate(w', req, exempt) == (w', Fail(401)))
  {
    hide MfaGate, Upserted;
    RunEvolves(w, events);
    KilledStays(w, Run(w, events), uid, iat);
  }

  /** Ending the other sessions kills exactly those: the caller's own session and everybody else's
      are as they were. */
  lemma {:induction false} OthersAreKilled(w: World, req: Request, uid: string, iat: int)
    requires EndOtherSessionsStep(w, req).1 == Ok
    ensures var w1 := Gate(w, req, false).0;
            var w' := EndOtherSessionsStep(w, req).0;
            && FindSession(w'.sessions, uid, iat) == FindSession(w1.sessions, uid, iat)
            && (FindSession(w1.sessions, uid, iat) < |w1.sessions| ==>
                  (Killed(w', uid, iat) <==> Killed(w1, uid, iat) || (uid == req.uid && iat != req.iat)))
  {
    hide Gate;
    var w1 := Gate(w, req, false).0;
    SamePlace(OthersEnded(w1.sessions, req.uid, req.iat), w1.sessions, uid, iat);
  }

  // ----- Single use -----

  lemma {:induction false} ArmedSinceIssue(log: seq<Fact>, issued: Fact, used: Fact)
    requires Armed(log, issued, used) && issued != used
    ensures exists k :: 0 <= k < |log| && log[k] == issued && forall m :: k < m < |log| ==> log[m] != used
    decreases |log|
  {
    var n := |log| - 1;
    if log[n] != issued {
      ArmedSinceIssue(log[..n], issued, used);
      var k :| 0 <= k < n && log[..n][k] == issued && forall m :: k < m < n ==> log[..n][m] != used;
      assert log[k] == issued && forall m :: k < m < n ==> log[m] == log[..n][m];
    } else {
      assert log[n] == issued;
    }
  }

  /** Every use is preceded by an issue with no other use in between. */
  lemma {:induction false} UseFollowsIssue(log: seq<Fact>, issued: Fact, used: Fact, j: nat)
    requires Separated(log, issued, used) && issued != used && j < |log| && log[j] == used
    ensures exists k :: 0 <= k < j && log[k] == issued && forall m :: k < m < j ==> log[m] != used
    decreases |log|
  {
    var n := |log| - 1;
    var init := log[..n];
    if j == n {
      ArmedSinceIssue(init, issued, used);
      var k :| 0 <= k < n && init[k] == issued && forall m :: k < m < n ==> init[m] != used;
      assert log[k] == issued && forall m :: k < m < n ==> log[m] == init[m];
    } else {
      UseFollowsIssue(init, issued, used, j);
      var k :| 0 <= k < j && init[k] == issued && forall m :: k < m < j ==> init[m] != used;
      assert log[k] == issued && forall m :: k < m < j ==> log[m] == init[m];
    }
  }

  lemma {:induction false} RunKeepsUsers(w: World, events: seq<Event>)
    ensures Run(w, events).users.Keys == w.users.Keys
    decreases |events|
  {
    if events == [] {
    } else {
      StepKeepsUsers(w, events[0]);
      hide Step;
      RunKeepsUsers(Step(w, events[0]).0, events[1..]);
    }
  }

  lemma {:induction false} StepKeepsUsers(w: World, e: Event)
    ensures Step(w, e).0.users.Keys == w.users.Keys
  {
    hide Gate, GateAndCheck, CheckPrimary, CheckAny, CheckTotp, CheckAssertion, Stamp, Deactivated, OthersEnded,
        Upserted, FindSession;
  }

  predicate FreshUsers(users: map<string, User>) {
    forall uid :: uid in users ==> FactorComplete(users[uid]) && users[uid].challenge.None? && users[uid].otp.None?
  }

  lemma {:induction false} SlotsFromInv(w: World, uid: string)
    requires Inv(w) && uid in w.users
    ensures Separated(w.log, ChallengeIssued(uid), ChallengeUsed(uid)) && Separated(w.log, OtpIssued(uid), OtpUsed(uid))
  {
    hide Separated, Armed, SessionsOk, UsersOk;
    assert SlotsOf(w.log, uid, w.users[uid]);
  }

  lemma {:induction false} RunSlots(users: map<string, User>, events: seq<Event>, uid: string)
    requires FreshUsers(users) && uid in users
    ensures var log := Run(World(users, [], []), events).log;
            Separated(log, ChallengeIssued(uid), ChallengeUsed(uid)) && Separated(log, OtpIssued(uid), OtpUsed(uid))
  {
    StartIsFine(users);
    hide *;
    RunKeepsInv(World(users, [], []), events);
    RunKeepsUsers(World(users, [], []), events);
    SlotsFromInv(Run(World(users, [], []), events), uid);
  }

  /** Over every run, each successful use of a user's passkey challenge, or of an e-mailed code, has a
      filling of that slot of its own: one between it and the use before. */
  lemma {:induction false} EachUseHasItsOwnIssue(users: map<string, User>, events: seq<Event>, uid: string, j: nat)
    requires FreshUsers(users) && uid in users
    requires var log := Run(World(users, [], []), events).log;
             j < |log| && (log[j] == ChallengeUsed(uid) || log[j] == OtpUsed(uid))
    ensures var log := Run(World(users, [], []), events).log;
            var issued := if log[j] == ChallengeUsed(uid) then ChallengeIssued(uid) else OtpIssued(uid);
            exists k :: 0 <= k < j && log[k] == issued && forall m :: k < m < j ==> log[m] != log[j]
  {
    hide *;
    RunSlots(users, events, uid);
    var log := Run(World(users, [], []), events).log;
    if log[j] == ChallengeUsed(uid) {
      UseFollowsIssue(log, ChallengeIssued(uid), ChallengeUsed(uid), j);
    } else {
      UseFollowsIssue(log, OtpIssued(uid), OtpUsed(uid), j);
    }
  }

  /** In every reachable state, whoever passes a path that is not exempt with a second factor enabled
      does so on an active session, stamped by the user's current and complete method, and the stamp
      is a check of that method that passed. */
  lemma {:induction false} ReachableAdmissionsAreVerified(users: map<string, User>, events: seq<Event>, req: Request)
    requires FreshUsers(users)
    requires var w := Run(World(users, [], []), events);
             && req.iat != 0 && req.uid in w.users && w.users[req.uid].mfaEnabled && Gate(w, req, false).1 == Ok
    ensures var w := Run(World(users, [], []), events);
            var w' := Gate(w, req, false).0;
            var u := w.users[req.uid];
            var i := FindSession(w'.sessions, req.uid, req.iat);
            && FactorComplete(u) && u.mfaMethod in {Some(Totp), Some(Email), Some(Passkey)}
            && i < |w'.sessions| && w'.sessions[i].active && w'.sessions[i].verifiedAt.Some?
            && w'.sessions[i].verifiedMethod == u.mfaMethod
            && Passed(req.uid, u.mfaMethod.value, w'.sessions[i].verifiedAt.value) in w'.log
  {
    hide Inv, Gate, Run, FactorComplete;
    StartIsFine(users);
    RunKeepsInv(World(users, [], []), events);
    AdmissionIsVerified(Run(World(users, [], []), events), req);
  }

  // ----- Giving up and replacing second factors -----

  predicate LivePasskey(u: User, now: int) {
    && u.credential.Some? && u.publicKey.Some?
    && u.challenge.Some? && u.challengeExpires.Some? && now <= u.challengeExpires.value
  }

  /** What the check before an administrative change accepts. */
  lemma {:induction false} AnyAccepts(w: World, uid: string, p: Proof, now: int)
    requires uid in w.users
    ensures var u := w.users[uid];
            CheckAny(w, uid, p, now).1 == Ok <==>
              || !u.mfaEnabled
              || (p.assertion == Assertion(true) && LivePasskey(u, now))
              || (p.assertion == NoAssertion && p.code.Some? && p.totpValid && u.totpSecret.Some?)
  {
  }

  /** Some proof disables the second factor exactly when none is enabled, a TOTP secret is set up, or
      a passkey is with a live challenge. An e-mailed code is never one, so a user whose only method
      is e-mail has no way to disable it. */
  lemma {:induction false} DisableIsPossibleIff(w: World, req: Request)
    requires Gate(w, req, true).1 == Ok
    ensures var u := w.users[req.uid];
            (exists p :: DisableMfaStep(w, req, p).1 == Ok) <==>
              !u.mfaEnabled || u.totpSecret.Some? || LivePasskey(u, req.now)
  {
    hide Gate, CheckAny, Note, WithUser, Replaced, FindSession;
    var w1 := Gate(w, req, true).0;
    var byPasskey := Proof(None, false, Assertion(true));
    var byTotp := Proof(Some("123456"), true, NoAssertion);
    DisableAccepts(w, req, byPasskey);
    DisableAccepts(w, req, byTotp);
    AnyAccepts(w1, req.uid, byPasskey, req.now);
    AnyAccepts(w1, req.uid, byTotp, req.now);
    assert CheckAny(w1, req.uid, byTotp, req.now).1 == Ok ==> DisableMfaStep(w, req, byTotp).1 == Ok;
    assert CheckAny(w1, req.uid, byPasskey, req.now).1 == Ok ==> DisableMfaStep(w, req, byPasskey).1 == Ok;
    forall p | DisableMfaStep(w, req, p).1 == Ok
      ensures CheckAny(w1, req.uid, p, req.now).1 == Ok
    {
      DisableAccepts(w, req, p);
    }
    forall p {
      AnyAccepts(w1, req.uid, p, req.now);
    }
  }

  lemma {:induction false} DisableAccepts(w: World, req: Request, p: Proof)
    requires Gate(w, req, true).1 == Ok
    ensures DisableMfaStep(w, req, p).1 == Ok <==> CheckAny(Gate(w, req, true).0, req.uid, p, req.now).1 == Ok
  {
    hide Gate, FindSession, Replaced, WithUser, CheckTotp, CheckAssertion;
  }

  /** E-mail is the user's only method, with no TOTP set-up under way. */
  predicate EmailOnly(u: User) {
    && u.mfaEnabled && u.mfaMethod == Some(Email) && !u.pendingVerification
    && u.totpSecret.None? && u.totpPending.None? && u.credential.None? && u.publicKey.None?
  }

  ghost predicate IsEmailOnly(w: World, uid: string) {
    uid in w.users && EmailOnly(w.users[uid])
  }

  lemma {:induction false} ChecksKeepEmailOnly(w: World, uid: string, v: string, p: Proof, code: string, now: int)
    requires IsEmailOnly(w, uid) && v in w.users
    ensures IsEmailOnly(CheckTotp(w, v, p, now).0, uid)
    ensures IsEmailOnly(CheckEmailOtp(w, v, code, now).0, uid)
    ensures IsEmailOnly(CheckAssertion(w, v, p, now).0, uid)
    ensures IsEmailOnly(UseEmailCode(w, v, code, now).0, uid)
  {
  }

  lemma {:induction false} PrimaryKeepsEmailOnly(w: World, uid: string, v: string, p: Proof, now: int)
    requires IsEmailOnly(w, uid) && v in w.users
    ensures IsEmailOnly(CheckPrimary(w, v, p, now).0, uid)
    ensures IsEmailOnly(CheckAny(w, v, p, now).0, uid)
  {
    hide EmailOnly, CheckTotp, CheckEmailOtp, CheckAssertion, UseEmailCode;
    ChecksKeepEmailOnly(w, uid, v, p, if p.code.Some? then p.code.value else "", now);
  }

  lemma {:induction false} EmailOnlyFailsCheck(w: World, uid: string, p: Proof, now: int)
    requires IsEmailOnly(w, uid)
    ensures CheckAny(w, uid, p, now).1 != Ok
  {
    hide CheckAny;
    AnyAccepts(w, uid, p, now);
  }

  lemma {:induction false} GateKeepsEmailOnly(w: World, uid: string, req: Request, p: Proof, exempt: bool)
    requires IsEmailOnly(w, uid)
    ensures IsEmailOnly(Gate(w, req, exempt).0, uid)
    ensures IsEmailOnly(GateAndCheck(w, req, p).0, uid)
    ensures req.uid == uid ==> GateAndCheck(w, req, p).1 != Ok
  {
    hide Gate, CheckAny, EmailOnly;
    var (w1, reply) := Gate(w, req, true);
    if reply == Ok {
      PrimaryKeepsEmailOnly(w1, uid, req.uid, p, req.now);
      EmailOnlyFailsCheck(w1, uid, p, req.now);
    }
  }

  lemma {:induction false} LoginKeepsEmailOnly(w: World, uid: string, req: Request, p: Proof)
    requires IsEmailOnly(w, uid)
    ensures IsEmailOnly(LoginStep(w, req, p).0, uid)
  {
    hide CheckPrimary, CheckAny, EmailOnly, Upserted, Stamp;
    if req.uid in w.users {
      var w1 := if req.iat == 0 then w else w.(sessions := Upserted(w.sessions, req));
      PrimaryKeepsEmailOnly(w1, uid, req.uid, p, req.now);
    }
  }

  lemma {:induction false} EmailKeepsEmailOnly(
      w: World, uid: string, v: string, code: string, p: Proof, newCode: Token, now: int)
    requires IsEmailOnly(w, uid)
    ensures IsEmailOnly(EnableEmailStep(w, v, code, p, now).0, uid)
    ensures IsEmailOnly(RequestEmailCodeStep(w, v, newCode, now).0, uid)
    ensures IsEmailOnly(PasskeyAuthOptionsStep(w, v, newCode, now).0, uid)
    ensures IsEmailOnly(ResetPasswordStep(w, v, p, now).0, uid)
  {
    hide CheckPrimary, CheckAny, UseEmailCode;
    if v in w.users {
      PrimaryKeepsEmailOnly(w, uid, v, p, now);
      ChecksKeepEmailOnly(w, uid, v, p, code, now);
      ChecksKeepEmailOnly(CheckPrimary(w, v, p, now).0, uid, v, p, code, now);
    }
  }

  lemma {:induction false} CheckedKeepsEmailOnly(
      w: World, uid: string, req: Request, p: Proof, token: Token, key: Token, valid: bool)
    requires IsEmailOnly(w, uid)
    ensures IsEmailOnly(SetupTotpStep(w, req, p, token).0, uid)
    ensures IsEmailOnly(PasskeyRegisterOptionsStep(w, req, p, token).0, uid)
    ensures IsEmailOnly(PasskeyRegisterVerifyStep(w, req, p, valid, token, key).0, uid)
  {
    hide GateAndCheck, Gate, EmailOnly, Stamp;
    GateKeepsEmailOnly(w, uid, req, p, true);
  }

  lemma {:induction false} GatedKeepsEmailOnly(w: World, uid: string, req: Request, p: Proof, code: string, valid: bool)
    requires IsEmailOnly(w, uid)
    ensures IsEmailOnly(EnableTotpStep(w, req, code, valid).0, uid)
    ensures IsEmailOnly(DisableMfaStep(w, req, p).0, uid)
    ensures req.uid == uid ==> DisableMfaStep(w, req, p).1 != Ok
  {
    hide GateAndCheck, Gate, Stamp, CheckAny, FindSession;
    var (w1, reply) := Gate(w, req, true);
    if reply == Ok {
      PrimaryKeepsEmailOnly(w1, uid, req.uid, p, req.now);
      EmailOnlyFailsCheck(w1, uid, p, req.now);
    }
  }

  lemma {:induction false} SetPrimaryKeepsEmailOnly(w: World, uid: string, req: Request, factor: Method, p: Proof)
    requires IsEmailOnly(w, uid)
    ensures IsEmailOnly(SetPrimaryStep(w, req, factor, p).0, uid)
    ensures req.uid == uid ==> SetPrimaryStep(w, req, factor, p).1 != Ok
  {
    hide Gate, Stamp;
  }

  lemma {:induction false} EndingKeepsEmailOnly(w: World, uid: string, req: Request, target: int, revoked: bool)
    requires IsEmailOnly(w, uid)
    ensures IsEmailOnly(LogoutStep(w, req, revoked).0, uid)
    ensures IsEmailOnly(EndSessionStep(w, req, target).0, uid)
    ensures IsEmailOnly(EndOtherSessionsStep(w, req).0, uid)
  {
    hide Gate, EmailOnly, Deactivated, OthersEnded, FindSession;
  }

  lemma {:induction false} StepKeepsEmailOnly(w: World, uid: string, e: Event)
    requires IsEmailOnly(w, uid)
    ensures IsEmailOnly(Step(w, e).0, uid)
  {
    hide IsEmailOnly, Gate, LoginStep, RequestEmailCodeStep, EnableEmailStep, SetupTotpStep, EnableTotpStep,
        PasskeyAuthOptionsStep, PasskeyRegisterOptionsStep, PasskeyRegisterVerifyStep, DisableMfaStep, SetPrimaryStep,
        ResetPasswordStep, LogoutStep, EndSessionStep, EndOtherSessionsStep;
    var none := Proof(None, false, NoAssertion);
    match e {
      case Visit(req) => GateKeepsEmailOnly(w, uid, req, none, false);
      case Login(req, proof) => LoginKeepsEmailOnly(w, uid, req, proof);
      case RequestEmailCode(v, code, now) => EmailKeepsEmailOnly(w, uid, v, code, none, code, now);
      case EnableEmail(v, code, current, now) => EmailKeepsEmailOnly(w, uid, v, code, current, "x", now);
      case SetupTotp(req, proof, secret) => CheckedKeepsEmailOnly(w, uid, req, proof, secret, secret, true);
      case EnableTotp(req, code, codeValid) => GatedKeepsEmailOnly(w, uid, req, none, code, codeValid);
      case PasskeyAuthOptions(v, challenge, now) => EmailKeepsEmailOnly(w, uid, v, challenge, none, challenge, now);
      case PasskeyRegisterOptions(req, proof, challenge) => CheckedKeepsEmailOnly(w, uid, req, proof, challenge,
          challenge, true);
      case PasskeyRegisterVerify(req, proof, valid, credential, publicKey) =>
        CheckedKeepsEmailOnly(w, uid, req, proof, credential, publicKey, valid);
      case DisableMfa(req, proof) => GatedKeepsEmailOnly(w, uid, req, proof, "", true);
      case SetPrimary(req, factor, proof) => SetPrimaryKeepsEmailOnly(w, uid, req, factor, proof);
      case Logout(req, revoked) => EndingKeepsEmailOnly(w, uid, req, 0, revoked);
      case EndSession(req, target) => EndingKeepsEmailOnly(w, uid, req, target, true);
      case EndOtherSessions(req) => EndingKeepsEmailOnly(w, uid, req, 0, true);
      case ResetPassword(v, proof, now) => EmailKeepsEmailOnly(w, uid, v, "", proof, "x", now);
    }
  }

  /** A user whose only method is e-mail is stuck with it: no run whatsoever leads out of that state,
      and no attempt to disable it or to choose another primary method ever succeeds. */
  lemma {:induction false} EmailOnlyIsForever(w: World, uid: string, events: seq<Event>)
    requires IsEmailOnly(w, uid)
    ensures var w' := Run(w, events);
            && IsEmailOnly(w', uid)
            && (forall req: Request, p: Proof :: req.uid == uid ==> DisableMfaStep(w', req, p).1 != Ok)
            && (forall req: Request, m: Method, p: Proof :: req.uid == uid ==> SetPrimaryStep(w', req, m, p).1 != Ok)
    decreases |events|
  {
    hide IsEmailOnly, Step, DisableMfaStep, SetPrimaryStep;
    if events != [] {
      StepKeepsEmailOnly(w, uid, events[0]);
      EmailOnlyIsForever(Step(w, events[0]).0, uid, events[1..]);
    } else {
      forall req: Request, p: Proof | req.uid == uid ensures DisableMfaStep(w, req, p).1 != Ok {
        GatedKeepsEmailOnly(w, uid, req, p, "", true);
      }
      forall req: Request, m: Method, p: Proof | req.uid == uid ensures SetPrimaryStep(w, req, m, p).1 != Ok {
        SetPrimaryKeepsEmailOnly(w, uid, req, m, p);
      }
    }
  }

  /** Registering a passkey succeeds exactly when the registration is valid, answers a live challenge
      and, if a second factor is enabled, comes with a TOTP code. A passkey assertion never serves as
      that proof, since checking it uses up the very challenge the registration has to answer. */
  lemma {:induction false} RegistrationIff(
      w: World, req: Request, p: Proof, valid: bool, credential: Token, publicKey: Token)
    requires Gate(w, req, true).1 == Ok
    ensures var u := w.users[req.uid];
            PasskeyRegisterVerifyStep(w, req, p, valid, credential, publicKey).1 == Ok <==>
              && valid && u.challenge.Some? && u.challengeExpires.Some? && req.now <= u.challengeExpires.value
              && (u.mfaEnabled ==> p.assertion == NoAssertion && p.code.Some? && p.totpValid && u.totpSecret.Some?)
  {
    hide Gate, Stamp, WithUser, Note, CheckAny;
    var w1 := Gate(w, req, true).0;
    AnyAccepts(w1, req.uid, p, req.now);
    AnySlots(w1, req.uid, p, req.now);
  }

  /** Which challenge a check for an administrative change leaves behind. */
  lemma {:induction false} AnySlots(w: World, uid: string, p: Proof, now: int)
    requires uid in w.users
    ensures var (w', reply) := CheckAny(w, uid, p, now);
            reply == Ok ==>
              && (w.users[uid].mfaEnabled && p.assertion != NoAssertion ==> w'.users[uid].challenge.None?)
              && (!w.users[uid].mfaEnabled || p.assertion == NoAssertion ==> w'.users[uid] == w.users[uid])
  {
  }

  /** Switching to e-mail with no TOTP set-up under way cannot be taken back by any run. */
  lemma {:induction false} SwitchingToEmailIsIrreversible(
      w: World, uid: string, code: string, current: Proof, now: int, events: seq<Event>)
    requires uid in w.users && !w.users[uid].pendingVerification && w.users[uid].totpPending.None?
    requires EnableEmailStep(w, uid, code, current, now).1 == Ok
    ensures IsEmailOnly(Run(EnableEmailStep(w, uid, code, current, now).0, events), uid)
  {
    BecomesEmailOnly(w, uid, code, current, now);
    hide *;
    EmailOnlyIsForever(EnableEmailStep(w, uid, code, current, now).0, uid, events);
  }

  lemma {:induction false} BecomesEmailOnly(w: World, uid: string, code: string, current: Proof, now: int)
    requires uid in w.users && !w.users[uid].pendingVerification && w.users[uid].totpPending.None?
    requires EnableEmailStep(w, uid, code, current, now).1 == Ok
    ensures IsEmailOnly(EnableEmailStep(w, uid, code, current, now).0, uid)
  {
    hide CheckPrimary;
    PrimaryKeepsPending(w, uid, current, now);
  }

  /** A check leaves alone what is neither a challenge nor a code. */
  lemma {:induction false} PrimaryKeepsPending(w: World, uid: string, p: Proof, now: int)
    requires uid in w.users
    ensures var u, u' := w.users[uid], CheckPrimary(w, uid, p, now).0.users[uid];
            u'.pendingVerification == u.pendingVerification && u'.totpPending == u.totpPending
  {
  }

  // ----- Exactly who passes the gate -----

  /** The session the request ends up with, before its stamp is looked at. */
  function OwnSession(w: World, req: Request): Session {
    var sessions := Upserted(w.sessions, req);
    sessions[FindSession(sessions, req.uid, req.iat)]
  }

  /** The stamp the gate would carry over to this request. */
  predicate CarriesOver(w: World, req: Request, s: Session, factor: Option<Method>) {
    var sessions := Upserted(w.sessions, req);
    var donor := LatestDonor(sessions, s.uid, s.iat, s.ip, s.agent);
    donor.Some? && sessions[donor.value].verifiedMethod == factor
    && req.now - sessions[donor.value].verifiedAt.value <= ROLLOVER_SECONDS
  }

  /** A path that is not exempt admits a request exactly when its user is known, its session was not
      killed and, with a second factor enabled, the session is stamped by the current method, or is
      not stamped and the latest stamp of the same device is one by that method and recent. */
  lemma {:induction false} AdmittedIff(w: World, req: Request)
    requires req.uid in w.users && req.iat != 0
    ensures var u, s := w.users[req.uid], OwnSession(w, req);
            Gate(w, req, false).1 == Ok <==>
              && !Killed(w, req.uid, req.iat)
              && (u.mfaEnabled ==>
                    if s.verifiedAt.Some? then s.verifiedMethod == u.mfaMethod else CarriesOver(w, req, s, u.mfaMethod))
  {
    hide Upserted, LatestDonor, FindSession;
    var w1 := w.(sessions := Upserted(w.sessions, req));
    var i := FindSession(w1.sessions, req.uid, req.iat);
    MfaGateIff(w, w1, i, w.users[req.uid], req);
  }

  lemma {:induction false} MfaGateIff(w: World, w1: World, i: nat, u: User, req: Request)
    requires i < |w1.sessions| && w.users == w1.users
    ensures var s := w1.sessions[i];
            var donor := LatestDonor(w1.sessions, s.uid, s.iat, s.ip, s.agent);
            MfaGate(w, w1, i, u, req, false).1 == Ok <==>
              if s.verifiedAt.Some? then s.verifiedMethod == u.mfaMethod
              else donor.Some? && w1.sessions[donor.value].verifiedMethod == u.mfaMethod
                   && req.now - w1.sessions[donor.value].verifiedAt.value <= ROLLOVER_SECONDS
  {
    hide LatestDonor;
  }

  /** A successful sign-in opens the gate for its own token at once and for good, as long as nothing else
      happens, unless the session had been killed. */
  lemma {:induction false} SignInOpensTheGate(w: World, req: Request, p: Proof, visit: Request)
    requires req.iat != 0 && LoginStep(w, req, p).1 == Ok && !Killed(w, req.uid, req.iat)
    requires visit.uid == req.uid && visit.iat == req.iat
    ensures Gate(LoginStep(w, req, p).0, visit, false).1 == Ok
  {
    SignInStamps(w, req, p);
    var w' := LoginStep(w, req, p).0;
    hide LoginStep, LatestDonor;
    var i := FindSession(w'.sessions, req.uid, req.iat);
    assert Upserted(w'.sessions, visit) == w'.sessions;
    AdmittedIff(w', visit);
  }

  lemma {:induction false} SignInStamps(w: World, req: Request, p: Proof)
    requires req.iat != 0 && LoginStep(w, req, p).1 == Ok && !Killed(w, req.uid, req.iat)
    ensures var w' := LoginStep(w, req, p).0;
            var i := FindSession(w'.sessions, req.uid, req.iat);
            && req.uid in w'.users && i < |w'.sessions| && w'.sessions[i].active
            && (w'.users[req.uid].mfaEnabled ==>
                  w'.sessions[i].verifiedAt.Some? && w'.sessions[i].verifiedMethod == w'.users[req.uid].mfaMethod)
  {
    var w1 := w.(sessions := Upserted(w.sessions, req));
    UpsertedActive(w.sessions, req);
    hide CheckPrimary, Upserted;
    PrimaryKeepsMode(w1, req.uid, p, req.now);
    var w2 := if w1.users[req.uid].mfaEnabled then CheckPrimary(w1, req.uid, p, req.now).0 else w1;
    StampPlace(w2, req.uid, req.iat, w2.users[req.uid].mfaMethod, req.now);
  }

  lemma {:induction false} PrimaryKeepsMode(w: World, uid: string, p: Proof, now: int)
    requires uid in w.users
    ensures var r := CheckPrimary(w, uid, p, now).0;
            && r.users[uid].mfaEnabled == w.users[uid].mfaEnabled && r.users[uid].mfaMethod == w.users[uid].mfaMethod
            && r.sessions == w.sessions
  {
  }

  lemma {:induction false} StampPlace(w: World, uid: string, iat: int, factor: Option<Method>, now: int)
    ensures var r := Stamp(w, uid, iat, factor, now);
            && FindSession(r.sessions, uid, iat) == FindSession(w.sessions, uid, iat) && |r.sessions| == |w.sessions|
  {
    var r := Stamp(w, uid, iat, factor, now);
    SamePlace(r.sessions, w.sessions, uid, iat);
  }

  /** Disabling leaves no second factor and no way to use one: no credential, no pending set-up, no slot. */
  lemma {:induction false} DisablingLeavesNothing(w: World, req: Request, p: Proof)
    requires DisableMfaStep(w, req, p).1 == Ok && w.users[req.uid].mfaEnabled
    ensures var w' := DisableMfaStep(w, req, p).0;
            var u := w'.users[req.uid];
            && !u.mfaEnabled && u.mfaMethod.None? && u.totpSecret.None? && u.totpPending.None?
            && u.credential.None? && u.publicKey.None? && u.challenge.None? && u.otp.None?
            && (forall code, now :: CheckEmailOtp(w', req.uid, code, now).1 != Ok)
            && (forall q, now :: CheckTotp(w', req.uid, q, now).1 != Ok && CheckAssertion(w', req.uid, q, now).1 != Ok)
  {
    hide Gate, CheckAny, FindSession;
  }
}
