/** Which proof serves for what, told from the user's record, the proof and the clock alone. */
module SignInLaws {
  import opened Text
  import opened SessionGate
  import opened GateProofs
  import opened GateRuns

  // ----- What proves a user -----

  predicate HasCode(p: Proof) {
    p.code.Some? && p.code.value != ""
  }

  /** The code is the one that was mailed, and it is not too old. */
  predicate MailedCode(u: User, code: string, now: int) {
    code != "" && u.otp.Some? && u.otp.value == code && u.otpExpires.Some? && now <= u.otpExpires.value
  }

  /** The provider accepted the assertion, for a passkey and a challenge the user still has. */
  predicate AcceptedPasskey(u: User, p: Proof, now: int) {
    && p.assertion.Assertion? && p.assertion.valid
    && u.credential.Some? && u.publicKey.Some?
    && u.challenge.Some? && u.challengeExpires.Some? && now <= u.challengeExpires.value
  }

  /** Proof by the configured method. Without one it is TOTP; a name the code does not know asks for
      nothing, and a text message is never accepted. */
  predicate Proves(u: User, p: Proof, now: int) {
    match u.mfaMethod
    case None => HasCode(p) && u.totpSecret.Some? && p.totpValid
    case Some(Totp) => HasCode(p) && u.totpSecret.Some? && p.totpValid
    case Some(Email) => HasCode(p) && MailedCode(u, p.code.value, now)
    case Some(Passkey) => AcceptedPasskey(u, p, now)
    case Some(Sms) => false
    case Some(Unknown(_)) => true
  }

  /** Proof for an administrative change: an assertion, or else a TOTP code. */
  predicate ProvesAny(u: User, p: Proof, now: int) {
    if p.assertion == NoAssertion then p.code.Some? && u.totpSecret.Some? && p.totpValid
    else AcceptedPasskey(u, p, now)
  }

  lemma {:induction false} PrimaryIff(w: World, uid: string, p: Proof, now: int)
    requires uid in w.users
    ensures CheckPrimary(w, uid, p, now).1 == Ok <==>
              !w.users[uid].mfaEnabled || Proves(w.users[uid], p, now)
  {
  }

  lemma {:induction false} AnyIff(w: World, uid: string, p: Proof, now: int)
    requires uid in w.users
    ensures CheckAny(w, uid, p, now).1 == Ok <==>
              !w.users[uid].mfaEnabled || ProvesAny(w.users[uid], p, now)
  {
  }

  // ----- Signing in -----

  /** A sign-in succeeds exactly when the user is known and, with a second factor enabled, the proof is
      one by the configured method. */
  lemma {:induction false} LoginIff(w: World, req: Request, p: Proof)
    ensures LoginStep(w, req, p).1 == Ok <==>
              && req.uid in w.users
              && (w.users[req.uid].mfaEnabled ==> Proves(w.users[req.uid], p, req.now))
  {
    hide CheckPrimary, Upserted, Stamp, Proves;
    if req.uid in w.users {
      var w1 := if req.iat == 0 then w else w.(sessions := Upserted(w.sessions, req));
      PrimaryIff(w1, req.uid, p, req.now);
    }
  }

  /** What the check used up: an e-mailed code or a passkey challenge. */
  function Spent(u: User): User {
    match u.mfaMethod
    case Some(Email) => u.(otp := None)
    case Some(Passkey) => u.(challenge := None, challengeExpires := None)
    case _ => u
  }

  lemma {:induction false} PrimarySpends(w: World, uid: string, p: Proof, now: int)
    requires uid in w.users && CheckPrimary(w, uid, p, now).1 == Ok
    ensures CheckPrimary(w, uid, p, now).0.users
            == if w.users[uid].mfaEnabled then w.users[uid := Spent(w.users[uid])] else w.users
    ensures CheckPrimary(w, uid, p, now).0.sessions == w.sessions
  {
    assert w.users[uid := w.users[uid]] == w.users;
  }

  /** A refused sign-in leaves no trace. An accepted one spends the proof and touches no other user; with
      a token it leaves one session of the token, stamped now by the configured method, and every other
      session as it was. */
  lemma {:induction false} LoginLeaves(w: World, req: Request, p: Proof)
    ensures var (w', reply) := LoginStep(w, req, p);
            && (reply != Ok ==> w' == w)
            && (reply == Ok ==>
                  && w'.users == (if w.users[req.uid].mfaEnabled then w.users[req.uid := Spent(w.users[req.uid])]
                                  else w.users)
                  && (req.iat == 0 ==> w'.sessions == w.sessions)
                  && (req.iat != 0 ==> SignedIn(w, w', req)))
  {
    hide CheckPrimary, Upserted, Spent, FindSession;
    if LoginStep(w, req, p).1 == Ok {
      var w1 := if req.iat == 0 then w else w.(sessions := Upserted(w.sessions, req));
      if w.users[req.uid].mfaEnabled {
        PrimarySpends(w1, req.uid, p, req.now);
        SpentKeepsMethod(w.users[req.uid]);
      }
      if req.iat != 0 {
        UpsertPlace(w.sessions, req);
      }
    }
  }

  lemma {:induction false} SpentKeepsMethod(u: User)
    ensures Spent(u).mfaMethod == u.mfaMethod && Spent(u).mfaEnabled == u.mfaEnabled
  {
  }

  /** The sessions after an accepted sign-in with a token. */
  ghost predicate SignedIn(w: World, w': World, req: Request)
    requires req.uid in w.users
  {
    var i := FindSession(w.sessions, req.uid, req.iat);
    && |w'.sessions| == (if i < |w.sessions| then |w.sessions| else |w.sessions| + 1)
    && (forall k :: 0 <= k < |w.sessions| && k != i ==> w'.sessions[k] == w.sessions[k])
    && (var s := w'.sessions[i];
        && s.uid == req.uid && s.iat == req.iat
        && (if w.users[req.uid].mfaEnabled
            then s.verifiedAt == Some(req.now) && s.verifiedMethod == w.users[req.uid].mfaMethod
            else i < |w.sessions| ==> s == w.sessions[i])
        && (i < |w.sessions| ==>
              s.active == w.sessions[i].active && s.ip == w.sessions[i].ip && s.agent == w.sessions[i].agent)
        && (i == |w.sessions| ==> s.active && s.ip == req.ip && s.agent == FirstOf(req.agent, 512)))
  }

  function FirstOf(s: string, n: nat): string {
    if |s| <= n then s else s[..n]
  }

  lemma {:induction false} UpsertPlace(sessions: seq<Session>, req: Request)
    ensures var i, r := FindSession(sessions, req.uid, req.iat), Upserted(sessions, req);
            && FindSession(r, req.uid, req.iat) == i
            && (if i < |sessions| then r == sessions
                else r == sessions + [Session(req.uid, req.iat, req.ip, FirstOf(req.agent, 512), true, None, None)])
  {
    hide FindSession;
    if FindSession(sessions, req.uid, req.iat) == |sessions| {
      FindAppended(sessions, NewSession(req));
    }
  }

  /** A password reset is sent to an unknown user's address as well; a known one has to prove himself. */
  lemma {:induction false} ResetPasswordIff(w: World, uid: string, p: Proof, now: int)
    ensures ResetPasswordStep(w, uid, p, now).1 == Ok <==>
              (uid in w.users && w.users[uid].mfaEnabled ==> Proves(w.users[uid], p, now))
  {
    hide CheckPrimary, Proves;
    if uid in w.users {
      PrimaryIff(w, uid, p, now);
    }
  }

  // ----- E-mailed codes -----

  /** Turning e-mail on, or confirming an address, takes the mailed code; and proof by the configured
      method when another one is enabled. */
  lemma {:induction false} EnableEmailIff(w: World, uid: string, code: string, current: Proof, now: int)
    ensures EnableEmailStep(w, uid, code, current, now).1 == Ok <==>
              && uid in w.users && MailedCode(w.users[uid], code, now)
              && (w.users[uid].mfaEnabled && w.users[uid].mfaMethod != Some(Email) ==>
                    Proves(w.users[uid], current, now))
  {
    hide CheckPrimary, Proves;
    if uid in w.users && w.users[uid].mfaEnabled && w.users[uid].mfaMethod != Some(Email) {
      PrimaryIff(w, uid, current, now);
      if CheckPrimary(w, uid, current, now).1 == Ok {
        OtherCheckKeepsCode(w, uid, current, now);
      }
    }
  }

  lemma {:induction false} OtherCheckKeepsCode(w: World, uid: string, p: Proof, now: int)
    requires uid in w.users && w.users[uid].mfaMethod != Some(Email) && CheckPrimary(w, uid, p, now).1 == Ok
    ensures var u, u' := w.users[uid], CheckPrimary(w, uid, p, now).0.users[uid];
            && u'.otp == u.otp && u'.otpExpires == u.otpExpires && u'.pendingVerification == u.pendingVerification
            && u'.mfaMethod == u.mfaMethod && u'.totpPending == u.totpPending && u'.mfaEnabled == u.mfaEnabled
            && u'.totpSecret == u.totpSecret && u'.credential == u.credential && u'.publicKey == u.publicKey
  {
  }

  /** A new account is confirmed and has no second factor yet; otherwise e-mail becomes the only one. */
  lemma {:induction false} EnableEmailLeaves(w: World, uid: string, code: string, current: Proof, now: int)
    requires EnableEmailStep(w, uid, code, current, now).1 == Ok
    ensures var u, u' := w.users[uid], EnableEmailStep(w, uid, code, current, now).0.users[uid];
            && u'.otp.None? && u'.otpExpires.None?
            && (if u.pendingVerification
                then && !u'.mfaEnabled && !u'.pendingVerification && u'.totpSecret == u.totpSecret
                     && u'.mfaMethod == (if u.mfaMethod == Some(Email) then None else u.mfaMethod)
                     && u'.credential == u.credential && u'.publicKey == u.publicKey
                else && u'.mfaEnabled && u'.mfaMethod == Some(Email) && !u'.pendingVerification && u'.totpSecret.None?
                     && u'.credential.None? && u'.publicKey.None? && u'.challenge.None?)
  {
    hide CheckPrimary;
    var u := w.users[uid];
    if u.mfaEnabled && u.mfaMethod != Some(Email) {
      OtherCheckKeepsCode(w, uid, current, now);
    }
  }

  /** A mailed code serves for ten minutes, and no other code does. */
  lemma {:induction false} MailedCodeServes(w: World, uid: string, code: Token, at: int, given: string, now: int)
    requires uid in w.users
    ensures var (w', reply) := RequestEmailCodeStep(w, uid, code, at);
            && reply == Ok && uid in w'.users && w'.sessions == w.sessions
            && (MailedCode(w'.users[uid], given, now) <==> given == code && now <= at + 600)
            && w'.users[uid].(otp := w.users[uid].otp, otpExpires := w.users[uid].otpExpires) == w.users[uid]
            && (forall v :: v in w.users && v != uid ==> v in w'.users && w'.users[v] == w.users[v])
  {
  }

  /** A passkey challenge serves for five minutes. */
  lemma {:induction false} ChallengeServes(w: World, uid: string, challenge: Token, at: int, p: Proof, now: int)
    requires PasskeyAuthOptionsStep(w, uid, challenge, at).1 == Ok
    ensures var w' := PasskeyAuthOptionsStep(w, uid, challenge, at).0;
            && uid in w'.users && w'.users[uid].challenge == Some(challenge)
            && (AcceptedPasskey(w'.users[uid], p, now) <==>
                  p.assertion == Assertion(true) && w.users[uid].publicKey.Some? && now <= at + 300)
  {
  }

  // ----- Administration -----

  /** An exempt path serves every known user whose session was not killed. */
  lemma {:induction false} ExemptIff(w: World, req: Request)
    ensures Gate(w, req, true).1 == Ok <==>
              req.uid in w.users && (req.iat == 0 || !Killed(w, req.uid, req.iat))
  {
    hide Upserted, FindSession, Note, Replaced;
  }

  predicate Serves(w: World, req: Request) {
    req.uid in w.users && (req.iat == 0 || !Killed(w, req.uid, req.iat))
  }

  /** Served, and either without a second factor or with proof of one. */
  predicate MayAdminister(w: World, req: Request, p: Proof) {
    Serves(w, req) && (w.users[req.uid].mfaEnabled ==> ProvesAny(w.users[req.uid], p, req.now))
  }

  lemma {:induction false} CheckedIff(w: World, req: Request, p: Proof)
    ensures GateAndCheck(w, req, p).1 == Ok <==> MayAdminister(w, req, p)
  {
    hide Gate, CheckAny, Killed, ProvesAny;
    ExemptIff(w, req);
    if Gate(w, req, true).1 == Ok {
      AnyIff(Gate(w, req, true).0, req.uid, p, req.now);
    }
  }

  /** Starting a TOTP or passkey set-up takes proof of an enabled factor, and so does turning it off. */
  lemma {:induction false} SetupIff(w: World, req: Request, p: Proof, secret: Token)
    ensures SetupTotpStep(w, req, p, secret).1 == Ok <==> MayAdminister(w, req, p)
    ensures PasskeyRegisterOptionsStep(w, req, p, secret).1 == Ok <==> MayAdminister(w, req, p)
    ensures DisableMfaStep(w, req, p).1 == Ok <==> MayAdminister(w, req, p)
  {
    hide Gate, CheckAny, MayAdminister, Killed, ProvesAny, FindSession, WithUser, IssueChallenge, Replaced;
    CheckedIff(w, req, p);
    ExemptIff(w, req);
    if Gate(w, req, true).1 == Ok {
      AnyIff(Gate(w, req, true).0, req.uid, p, req.now);
    }
  }

  /** TOTP is enabled by a valid code for the pending secret, which becomes the secret; it becomes the
      primary method only when no method was enabled. */
  lemma {:induction false} EnableTotpIff(w: World, req: Request, code: string, codeValid: bool)
    ensures var (w', reply) := EnableTotpStep(w, req, code, codeValid);
            && (reply == Ok <==> Serves(w, req) && code != "" && codeValid && w.users[req.uid].totpPending.Some?)
            && (reply == Ok ==>
                  var u := w.users[req.uid];
                  w'.users == w.users[req.uid := u.(mfaEnabled := true, totpSecret := u.totpPending,
                      totpPending := None,
                                                    mfaMethod := if u.mfaEnabled then u.mfaMethod else Some(Totp))])
  {
    hide Gate, FindSession, Killed, Replaced;
    ExemptIff(w, req);
  }

  /** The primary method is switched, to TOTP or a passkey, by proof of that very method. */
  lemma {:induction false} SetPrimaryIff(w: World, req: Request, factor: Method, p: Proof)
    ensures SetPrimaryStep(w, req, factor, p).1 == Ok <==>
              && Serves(w, req)
              && (|| (factor == Totp && HasCode(p) && p.totpValid && w.users[req.uid].totpSecret.Some?)
                  || (factor == Passkey && AcceptedPasskey(w.users[req.uid], p, req.now)))
    ensures SetPrimaryStep(w, req, factor, p).1 == Ok ==>
              var u' := SetPrimaryStep(w, req, factor, p).0.users[req.uid];
              u'.mfaEnabled && u'.mfaMethod == Some(factor)
  {
    hide Gate, FindSession, Killed, Replaced;
    ExemptIff(w, req);
  }

  /** Signing out takes the provider's revocation; sessions are ended by a request that the gate admits. */
  lemma {:induction false} EndingIff(w: World, req: Request, revoked: bool, target: int)
    ensures LogoutStep(w, req, revoked).1 == Ok <==> Serves(w, req) && revoked
    ensures EndOtherSessionsStep(w, req).1 == Ok <==> Gate(w, req, false).1 == Ok && req.iat != 0
    ensures EndSessionStep(w, req, target).1 == Ok <==>
              && Gate(w, req, false).1 == Ok && target != req.iat
              && exists k :: 0 <= k < |Gate(w, req, false).0.sessions|
                             && Gate(w, req, false).0.sessions[k].uid == req.uid
                             && Gate(w, req, false).0.sessions[k].iat == target
  {
    hide Gate, Deactivated, OthersEnded, Killed, FindSession;
    ExemptIff(w, req);
  }

  /** The sessions are the same, but that the one of this user and issue time is no longer active. */
  ghost predicate Ended(before: seq<Session>, after: seq<Session>, uid: string, iat: int) {
    && |after| == |before|
    && forall k :: 0 <= k < |before| ==>
         after[k] == if before[k].uid == uid && before[k].iat == iat
                        && (forall j :: 0 <= j < k ==> !(before[j].uid == uid && before[j].iat == iat))
                     then before[k].(active := false) else before[k]
  }

  lemma {:induction false} DeactivatedIsEnded(sessions: seq<Session>, uid: string, iat: int)
    ensures Ended(sessions, Deactivated(sessions, uid, iat), uid, iat)
  {
    hide FindSession;
  }

  /** Signing out ends the caller's session, and ending a session ends that one, whatever the gate did to
      the caller's own; users are left alone. */
  lemma {:induction false} EndingLeaves(w: World, req: Request, revoked: bool, target: int)
    ensures LogoutStep(w, req, revoked).1 == Ok && req.iat != 0 ==>
              && LogoutStep(w, req, revoked).0.users == w.users
              && Ended(Gate(w, req, true).0.sessions, LogoutStep(w, req, revoked).0.sessions, req.uid, req.iat)
    ensures EndSessionStep(w, req, target).1 == Ok ==>
              && EndSessionStep(w, req, target).0.users == w.users
              && Ended(Gate(w, req, false).0.sessions, EndSessionStep(w, req, target).0.sessions, req.uid, target)
  {
    DeactivatedIsEnded(Gate(w, req, true).0.sessions, req.uid, req.iat);
    DeactivatedIsEnded(Gate(w, req, false).0.sessions, req.uid, target);
    hide Gate, Deactivated, Ended, FindSession;
  }

  /** A set-up stores the pending secret, or fills the challenge slot for five minutes, and touches no one
      else. */
  lemma {:induction false} SetupLeaves(w: World, req: Request, p: Proof, secret: Token)
    ensures SetupTotpStep(w, req, p, secret).1 == Ok ==>
              var u, u' := w.users[req.uid], SetupTotpStep(w, req, p, secret).0.users[req.uid];
              u'.totpPending == Some(secret) && u'.totpSecret == u.totpSecret && u'.mfaEnabled == u.mfaEnabled
              && u'.mfaMethod == u.mfaMethod
    ensures PasskeyRegisterOptionsStep(w, req, p, secret).1 == Ok ==>
              var u' := PasskeyRegisterOptionsStep(w, req, p, secret).0.users[req.uid];
              u'.challenge == Some(secret) && u'.challengeExpires == Some(req.now + 300)
              && u'.credential == w.users[req.uid].credential
  {
    hide Gate;
    var (w1, reply) := Gate(w, req, true);
    if reply == Ok {
      AnyKeeps(w1, req.uid, p, req.now);
    }
    hide CheckAny;
  }

  lemma {:induction false} AnyKeeps(w: World, uid: string, p: Proof, now: int)
    requires uid in w.users
    ensures var u, u' := w.users[uid], CheckAny(w, uid, p, now).0.users[uid];
            && u'.totpSecret == u.totpSecret && u'.totpPending == u.totpPending && u'.mfaEnabled == u.mfaEnabled
            && u'.mfaMethod == u.mfaMethod && u'.credential == u.credential && u'.publicKey == u.publicKey
  {
  }

  /** A registration stores the credential and its key, uses up the challenge, and makes passkeys the primary
      method only when no method was enabled. */
  lemma {:induction false} RegisterLeaves(
      w: World, req: Request, p: Proof, valid: bool, credential: Token, publicKey: Token)
    requires PasskeyRegisterVerifyStep(w, req, p, valid, credential, publicKey).1 == Ok
    ensures var u, u' := w.users[req.uid],
        PasskeyRegisterVerifyStep(w, req, p, valid, credential, publicKey).0.users[req.uid];
            && u'.credential == Some(credential) && u'.publicKey == Some(publicKey)
            && u'.challenge.None? && u'.challengeExpires.None? && u'.otp.None?
            && u'.mfaEnabled && u'.mfaMethod == (if u.mfaEnabled then u.mfaMethod else Some(Passkey))
            && u'.totpSecret == u.totpSecret
  {
    hide Gate, FindSession;
    var (w1, reply) := Gate(w, req, true);
    if reply == Ok {
      AnyKeeps(w1, req.uid, p, req.now);
    }
    hide CheckAny;
  }

  // ----- Admission by an earlier session of the same device -----

  /** The stored session of the token, or the one that is created for it. */
  function TokenSession(w: World, req: Request): Session {
    var i := FindSession(w.sessions, req.uid, req.iat);
    if i < |w.sessions| then w.sessions[i]
    else Session(req.uid, req.iat, req.ip, FirstOf(req.agent, 512), true, None, None)
  }

  /** Another live session of the same user, agent and address that passed a check. */
  predicate SameDevice(s: Session, d: Session) {
    d.uid == s.uid && d.iat != s.iat && d.active && d.agent == s.agent && d.ip == s.ip && d.verifiedAt.Some?
  }

  /** The one that passed last, the first in the table among equals. */
  ghost predicate IsLatest(sessions: seq<Session>, s: Session, d: nat) {
    && d < |sessions| && SameDevice(s, sessions[d])
    && forall k :: 0 <= k < |sessions| && SameDevice(s, sessions[k]) ==>
         && sessions[k].verifiedAt.value <= sessions[d].verifiedAt.value
         && (k < d ==> sessions[k].verifiedAt.value < sessions[d].verifiedAt.value)
  }

  lemma {:induction false} LatestIs(sessions: seq<Session>, s: Session)
    ensures var d := LatestDonor(sessions, s.uid, s.iat, s.ip, s.agent);
            && (d.Some? ==> IsLatest(sessions, s, d.value))
            && (d.None? ==> forall k :: 0 <= k < |sessions| ==> !SameDevice(s, sessions[k]))
  {
    if sessions == [] {
    } else {
      LatestIs(sessions[..|sessions| - 1], s);
    }
  }

  lemma {:induction false} LatestIsOne(sessions: seq<Session>, s: Session, c: nat, d: nat)
    requires IsLatest(sessions, s, c) && IsLatest(sessions, s, d)
    ensures c == d
  {
  }

  lemma {:induction false} AppendedIsNoDevice(sessions: seq<Session>, s: Session, n: Session, d: nat)
    requires n.verifiedAt.None?
    ensures IsLatest(sessions + [n], s, d) <==> IsLatest(sessions, s, d)
  {
    var more := sessions + [n];
    assert forall k :: 0 <= k < |sessions| ==> more[k] == sessions[k];
  }

  /** Which stamp is carried over to the session: the latest of the device, if it is by the configured
      method and at most six hours old. */
  ghost predicate CanCarry(w: World, s: Session, factor: Option<Method>, now: int) {
    exists d: nat ::
      && IsLatest(w.sessions, s, d) && w.sessions[d].verifiedMethod == factor
      && now - w.sessions[d].verifiedAt.value <= 21600
  }

  lemma {:induction false} CarriesIff(w: World, req: Request, factor: Option<Method>)
    ensures CarriesOver(w, req, TokenSession(w, req), factor) <==> CanCarry(w, TokenSession(w, req), factor, req.now)
  {
    var s := TokenSession(w, req);
    var sessions := Upserted(w.sessions, req);
    UpsertPlace(w.sessions, req);
    hide LatestDonor, IsLatest, FindSession, Upserted;
    LatestIs(sessions, s);
    forall d: nat ensures IsLatest(sessions, s, d) <==> IsLatest(w.sessions, s, d) {
      if FindSession(w.sessions, req.uid, req.iat) == |w.sessions| {
        AppendedIsNoDevice(w.sessions, s, sessions[|w.sessions|], d);
      }
    }
    LatestInside(w.sessions, s);
    var donor := LatestDonor(sessions, s.uid, s.iat, s.ip, s.agent);
    if CanCarry(w, s, factor, req.now) {
      var d: nat :| IsLatest(w.sessions, s, d) && w.sessions[d].verifiedMethod == factor
               && req.now - w.sessions[d].verifiedAt.value <= 21600;
      LatestExists(sessions, s, d);
      LatestIsOne(sessions, s, d, donor.value);
    }
  }

  lemma {:induction false} LatestInside(sessions: seq<Session>, s: Session)
    ensures forall d: nat :: IsLatest(sessions, s, d) ==> d < |sessions| && SameDevice(s, sessions[d])
  {
  }

  lemma {:induction false} LatestExists(sessions: seq<Session>, s: Session, d: nat)
    requires IsLatest(sessions, s, d)
    ensures LatestDonor(sessions, s.uid, s.iat, s.ip, s.agent).Some?
  {
    LatestIs(sessions, s);
  }

  /** A user with a second factor passes the gate with a token exactly when its session is live and is
      stamped by the configured method, or is unstamped and can take over the stamp of its device. */
  lemma {:induction false} AdmittedByDevice(w: World, req: Request)
    requires req.uid in w.users && req.iat != 0 && w.users[req.uid].mfaEnabled
    ensures var s, factor := TokenSession(w, req), w.users[req.uid].mfaMethod;
            Gate(w, req, false).1 == Ok <==>
              && s.active
              && (if s.verifiedAt.Some? then s.verifiedMethod == factor else CanCarry(w, s, factor, req.now))
  {
    UpsertPlace(w.sessions, req);
    hide Gate, CarriesOver, CanCarry, Upserted, FindSession;
    AdmittedIff(w, req);
    CarriesIff(w, req, w.users[req.uid].mfaMethod);
  }
}
