/** The endpoints as the service runs them: rows are read, changed field by field and committed. */
module AuthService {
  import opened Text
  import opened SessionGate

  class Service {
    var users: map<string, User>
    var sessions: seq<Session>
    ghost var log: seq<Fact>

    constructor (users: map<string, User>, sessions: seq<Session>)
      ensures Contents() == World(users, sessions, [])
    {
      this.users, this.sessions, log := users, sessions, [];
    }

    ghost function Contents(): World
      reads this
    {
      World(users, sessions, log)
    }

    // ----- Factor checks -----

    method VerifyTotp(uid: string, p: Proof, now: int) returns (reply: Reply)
      requires uid in users
      modifies this`log
      ensures (Contents(), reply) == CheckTotp(old(Contents()), uid, p, now)
    {
      if users[uid].totpSecret.None? {
        return Fail(400);
      }
      if !p.totpValid {
        return Fail(401);
      }
      log := log + [Passed(uid, Totp, now)];
      reply := Ok;
    }

    method VerifyEmailOtp(uid: string, code: string, now: int) returns (reply: Reply)
      requires uid in users
      modifies this`users, this`log
      ensures (Contents(), reply) == CheckEmailOtp(old(Contents()), uid, code, now)
    {
      var user := users[uid];
      if user.otp.None? || user.otpExpires.None? {
        return Fail(400);
      }
      if now > user.otpExpires.value {
        return Fail(400);
      }
      if code != user.otp.value {
        return Fail(401);
      }
      users := users[uid := user.(otp := None)];
      log := log + [OtpUsed(uid)];
      log := log + [Passed(uid, Email, now)];
      reply := Ok;
    }

    method VerifyPasskeyAssertion(uid: string, p: Proof, now: int) returns (reply: Reply)
      requires uid in users
      modifies this`users, this`log
      ensures (Contents(), reply) == CheckAssertion(old(Contents()), uid, p, now)
    {
      var user := users[uid];
      if !p.assertion.Assertion? {
        return Fail(403);
      }
      if user.credential.None? || user.publicKey.None? {
        return Fail(400);
      }
      if user.challenge.None? || user.challengeExpires.None? {
        return Fail(400);
      }
      if now > user.challengeExpires.value {
        return Fail(400);
      }
      if !p.assertion.valid {
        return Fail(401);
      }
      users := users[uid := user.(challenge := None, challengeExpires := None)];
      log := log + [ChallengeUsed(uid)];
      log := log + [Passed(uid, Passkey, now)];
      reply := Ok;
    }

    method VerifyMfa(uid: string, p: Proof, now: int) returns (reply: Reply)
      requires uid in users
      modifies this`users, this`log
      ensures (Contents(), reply) == CheckPrimary(old(Contents()), uid, p, now)
    {
      var user := users[uid];
      if !user.mfaEnabled {
        return Ok;
      }
      var factor := if user.mfaMethod.Some? then user.mfaMethod.value else Totp;
      if factor == Totp {
        if !Truthy(p.code) {
          return Fail(403);
        }
        reply := VerifyTotp(uid, p, now);
      } else if factor == Email {
        if !Truthy(p.code) {
          return Fail(403);
        }
        reply := VerifyEmailOtp(uid, p.code.value, now);
      } else if factor == Passkey {
        reply := VerifyPasskeyAssertion(uid, p, now);
      } else if factor == Sms {
        reply := Fail(501);
      } else {
        reply := Ok;
      }
    }

    method VerifyAnyMfa(uid: string, p: Proof, now: int) returns (reply: Reply)
      requires uid in users
      modifies this`users, this`log
      ensures (Contents(), reply) == CheckAny(old(Contents()), uid, p, now)
    {
      var user := users[uid];
      if !user.mfaEnabled {
        return Ok;
      }
      var totpEnabled := user.totpSecret.Some?;
      var passkeyEnabled := user.credential.Some? && user.publicKey.Some?;
      if p.assertion != NoAssertion {
        if !passkeyEnabled {
          return Fail(400);
        }
        reply := VerifyPasskeyAssertion(uid, p, now);
        return;
      }
      if p.code.Some? {
        if !totpEnabled {
          return Fail(400);
        }
        reply := VerifyTotp(uid, p, now);
        return;
      }
      reply := Fail(403);
    }

    // ----- Sessions -----

    /** The query for a recently verified session of the same device. */
    method FindRecentVerified(uid: string, iat: int, ip: Option<string>, agent: string) returns (best: Option<nat>)
      ensures best == LatestDonor(sessions, uid, iat, ip, agent)
    {
      best := None;
      for i := 0 to |sessions|
        invariant best == LatestDonor(sessions[..i], uid, iat, ip, agent)
        invariant best.Some? ==> best.value < i && Donor(sessions[best.value], uid, iat, ip, agent)
      {
        assert sessions[..i + 1][..i] == sessions[..i];
        var s := sessions[i];
        if s.uid == uid && s.active && s.iat != iat && s.verifiedAt.Some? && s.agent == agent && s.ip == ip {
          if best.None? || s.verifiedAt.value > sessions[best.value].verifiedAt.value {
            best := Some(i);
          }
        }
      }
      assert sessions[..|sessions|] == sessions;
    }

    /** Writes the session record the request works on. */
    method SaveSession(i: nat, rec: Session)
      requires i <= |sessions|
      modifies this`sessions
      ensures sessions == if i < |old(sessions)| then old(sessions)[i := rec] else old(sessions) + [rec]
    {
      sessions := if i < |sessions| then sessions[i := rec] else sessions + [rec];
    }

    /** Looks for a recent stamp of the same device; a copied stamp is committed at once. */
    method RollOver(i: nat, rec: Session, factor: Option<Method>, req: Request, ghost w1: World) returns (rec': Session)
      requires i <= |sessions| && rec.uid == req.uid && rec.iat == req.iat && rec.verifiedAt.None?
      requires w1 == World(users, if i < |sessions| then sessions else sessions + [rec], log)
      requires w1.sessions[i] == rec
      modifies this`sessions, this`log
      ensures var w2 := RolledOver(w1, i, factor, req.now);
              && rec' == w2.sessions[i]
              && (rec'.verifiedAt.None? ==> w2 == w1 && Contents() == old(Contents()))
              && (rec'.verifiedAt.Some? ==> Contents() == w2)
    {
      hide LatestDonor;
      rec' := rec;
      var recent := FindRecentVerified(req.uid, req.iat, rec.ip, rec.agent);
      UnverifiedIsNoDonor(sessions, rec, req.uid, req.iat, rec.ip, rec.agent);
      if recent.Some? && sessions[recent.value].verifiedMethod == factor {
        var donor := sessions[recent.value];
        if req.now - donor.verifiedAt.value <= ROLLOVER_SECONDS {
          rec' := rec.(verifiedAt := donor.verifiedAt, verifiedMethod := donor.verifiedMethod);
          SaveSession(i, rec');
          if factor.Some? {
            log := log
                + [Rolled(req.uid, donor.iat, req.iat, rec.ip, rec.agent, factor.value, donor.verifiedAt.value,
                    req.now)];
          }
        }
      }
    }

    /** Demands a stamp by the current method, unless the path is exempt. */
    method EnforceMfa(
        i: nat, rec: Session, user: User, req: Request, exempt: bool, ghost w1: World)
      returns (reply: Reply)
      requires i <= |sessions| && rec.uid == req.uid && rec.iat == req.iat
      requires w1 == World(users, if i < |sessions| then sessions else sessions + [rec], log)
      requires w1.sessions[i] == rec
      modifies this`sessions, this`log
      ensures (Contents(), reply) == MfaGate(old(Contents()), w1, i, user, req, exempt)
    {
      hide RolledOver;
      var r := rec;
      if r.verifiedAt.None? && !exempt {
        r := RollOver(i, r, user.mfaMethod, req, w1);
      }
      ghost var w2 := if rec.verifiedAt.None? && !exempt then RolledOver(w1, i, user.mfaMethod, req.now) else w1;
      if !exempt && r.verifiedAt.None? {
        return Fail(403);
      }
      if r.verifiedAt.Some? && r.verifiedMethod != user.mfaMethod {
        r := r.(verifiedAt := None, verifiedMethod := None);
        SaveSession(i, r);
        assert sessions == w2.sessions[i := r];
        if !exempt {
          return Fail(403);
        }
      }
      SaveSession(i, r);
      assert sessions == w2.sessions[i := r];
      assert r == w2.sessions[i] ==> sessions == w2.sessions;
      log := log + [Admitted(req.uid, req.iat)];
      reply := Ok;
    }

    method GetCurrentUser(req: Request, exempt: bool) returns (reply: Reply)
      modifies this`sessions, this`log
      ensures (Contents(), reply) == Gate(old(Contents()), req, exempt)
    {
      if req.uid !in users {
        return Fail(401);
      }
      if req.iat == 0 {
        return Ok;
      }
      var i := FindSession(sessions, req.uid, req.iat);
      UpsertedAt(sessions, req);
      hide FindSession, Upserted, MfaGate;
      var rec := NewSession(req);
      if i < |sessions| {
        rec := sessions[i];
        if !rec.active {
          return Fail(401);
        }
      }
      if users[req.uid].mfaEnabled {
        reply := EnforceMfa(i, rec, users[req.uid], req, exempt, World(users, Upserted(sessions, req), log));
        return;
      }
      SaveSession(i, rec);
      assert sessions == Upserted(old(sessions), req);
      log := log + [Admitted(req.uid, req.iat)];
      reply := Ok;
    }

    method MarkSessionMfaVerified(uid: string, iat: int, factor: Option<Method>, now: int)
      modifies this`sessions, this`log
      ensures Contents() == Stamp(old(Contents()), uid, iat, factor, now)
    {
      if iat == 0 {
        return;
      }
      var i := FindSession(sessions, uid, iat);
      if i == |sessions| {
        return;
      }
      sessions := sessions[i := sessions[i].(verifiedAt := Some(now), verifiedMethod := factor)];
      if factor.Some? {
        log := log + [Stamped(uid, iat, sessions[i].ip, sessions[i].agent, factor.value, now)];
      }
    }

    // ----- Endpoints -----

    method LogIn(req: Request, p: Proof) returns (reply: Reply)
      modifies this
      ensures (Contents(), reply) == LoginStep(old(Contents()), req, p)
    {
      if req.uid !in users {
        return Fail(404);
      }
      var pending := if req.iat == 0 then sessions else Upserted(sessions, req);
      if users[req.uid].mfaEnabled {
        CheckIgnoresSessions(Contents(), pending, req.uid, p, req.now);
        reply := VerifyMfa(req.uid, p, req.now);
        if reply != Ok {
          return;
        }
        sessions := pending;
        MarkSessionMfaVerified(req.uid, req.iat, users[req.uid].mfaMethod, req.now);
      } else {
        sessions := pending;
      }
      reply := Ok;
    }

    method SendEmailCode(uid: string, code: Token, now: int) returns (reply: Reply)
      modifies this`users, this`log
      ensures (Contents(), reply) == RequestEmailCodeStep(old(Contents()), uid, code, now)
    {
      if uid in users {
        users := users[uid := users[uid].(otp := Some(code), otpExpires := Some(now + OTP_SECONDS))];
        log := log + [OtpIssued(uid)];
      }
      reply := Ok;
    }

    method EnableEmailMfa(uid: string, code: string, current: Proof, now: int) returns (reply: Reply)
      modifies this`users, this`log
      ensures (Contents(), reply) == EnableEmailStep(old(Contents()), uid, code, current, now)
    {
      if uid !in users {
        return Fail(404);
      }
      if users[uid].mfaEnabled && users[uid].mfaMethod != Some(Email) {
        reply := VerifyMfa(uid, current, now);
        if reply != Ok {
          return;
        }
      }
      var user := users[uid];
      if user.otp.None? || user.otpExpires.None? {
        return Fail(400);
      }
      if now > user.otpExpires.value {
        return Fail(400);
      }
      if code != user.otp.value {
        return Fail(401);
      }
      user := user.(otp := None, otpExpires := None);
      if user.pendingVerification {
        user := user.(mfaEnabled := false);
        if user.mfaMethod == Some(Email) {
          user := user.(mfaMethod := None);
        }
        user := user.(pendingVerification := false);
      } else {
        user := user.(mfaEnabled := true, mfaMethod := Some(Email));
        user := user.(totpSecret := None);
        user := user.(credential := None, publicKey := None);
        user := user.(challenge := None, challengeExpires := None);
      }
      users := users[uid := user];
      log := log + [OtpUsed(uid)];
      reply := Ok;
    }

    method ReauthenticateThenCheck(req: Request, p: Proof) returns (reply: Reply)
      modifies this
      ensures (Contents(), reply) == GateAndCheck(old(Contents()), req, p)
    {
      hide Gate, CheckAny;
      reply := GetCurrentUser(req, true);
      if reply == Ok {
        reply := VerifyAnyMfa(req.uid, p, req.now);
      }
    }

    method MfaSetup(req: Request, p: Proof, secret: Token) returns (reply: Reply)
      modifies this
      ensures (Contents(), reply) == SetupTotpStep(old(Contents()), req, p, secret)
    {
      hide GateAndCheck;
      reply := ReauthenticateThenCheck(req, p);
      if reply != Ok {
        return;
      }
      users := users[req.uid := users[req.uid].(totpPending := Some(secret))];
    }

    method MfaEnable(req: Request, code: string, codeValid: bool) returns (reply: Reply)
      modifies this
      ensures (Contents(), reply) == EnableTotpStep(old(Contents()), req, code, codeValid)
    {
      hide Gate, Stamp;
      reply := GetCurrentUser(req, true);
      if reply != Ok {
        return;
      }
      if code == "" {
        return Fail(400);
      }
      var user := users[req.uid];
      if user.totpPending.None? {
        return Fail(400);
      }
      if !codeValid {
        return Fail(401);
      }
      var wasEnabled := user.mfaEnabled;
      user := user.(mfaEnabled := true);
      user := user.(totpSecret := user.totpPending);
      user := user.(totpPending := None);
      if !wasEnabled {
        user := user.(mfaMethod := Some(Totp));
      }
      users := users[req.uid := user];
      log := log + [Passed(req.uid, Totp, req.now)];
      if user.mfaMethod == Some(Totp) {
        MarkSessionMfaVerified(req.uid, req.iat, Some(Totp), req.now);
      }
      reply := Ok;
    }

    method SetPasskeyChallenge(uid: string, challenge: Token, now: int)
      requires uid in users
      modifies this`users, this`log
      ensures Contents() == IssueChallenge(old(Contents()), uid, challenge, now)
    {
      users := users[uid := users[uid].(challenge := Some(challenge),
          challengeExpires := Some(now + CHALLENGE_SECONDS))];
      log := log + [ChallengeIssued(uid)];
    }

    method BeginPasskeySignIn(uid: string, challenge: Token, now: int) returns (reply: Reply)
      modifies this`users, this`log
      ensures (Contents(), reply) == PasskeyAuthOptionsStep(old(Contents()), uid, challenge, now)
    {
      if uid !in users {
        return Fail(404);
      }
      if users[uid].credential.None? {
        return Fail(400);
      }
      SetPasskeyChallenge(uid, challenge, now);
      reply := Ok;
    }

    method BeginPasskeyRegistration(req: Request, p: Proof, challenge: Token) returns (reply: Reply)
      modifies this
      ensures (Contents(), reply) == PasskeyRegisterOptionsStep(old(Contents()), req, p, challenge)
    {
      hide GateAndCheck, IssueChallenge;
      reply := ReauthenticateThenCheck(req, p);
      if reply != Ok {
        return;
      }
      SetPasskeyChallenge(req.uid, challenge, req.now);
    }

    method FinishPasskeyRegistration(req: Request, p: Proof, valid: bool, credential: Token, publicKey: Token)
      returns (reply: Reply)
      modifies this
      ensures (Contents(), reply) == PasskeyRegisterVerifyStep(old(Contents()), req, p, valid, credential, publicKey)
    {
      hide GateAndCheck, Stamp;
      reply := ReauthenticateThenCheck(req, p);
      if reply != Ok {
        return;
      }
      var user := users[req.uid];
      var wasEnabled := user.mfaEnabled;
      if user.challenge.None? || user.challengeExpires.None? {
        return Fail(400);
      }
      if req.now > user.challengeExpires.value {
        return Fail(400);
      }
      if !valid {
        return Fail(401);
      }
      user := user.(credential := Some(credential), publicKey := Some(publicKey));
      user := user.(challenge := None, challengeExpires := None);
      user := user.(mfaEnabled := true);
      if !wasEnabled {
        user := user.(mfaMethod := Some(Passkey));
      }
      user := user.(otp := None, otpExpires := None);
      users := users[req.uid := user];
      log := log + [ChallengeUsed(req.uid)];
      log := log + [Passed(req.uid, Passkey, req.now)];
      if user.mfaMethod == Some(Passkey) {
        MarkSessionMfaVerified(req.uid, req.iat, Some(Passkey), req.now);
      }
      reply := Ok;
    }

    method MfaDisable(req: Request, p: Proof) returns (reply: Reply)
      modifies this
      ensures (Contents(), reply) == DisableMfaStep(old(Contents()), req, p)
    {
      hide Gate, CheckAny, FindSession;
      reply := GetCurrentUser(req, true);
      if reply != Ok {
        return;
      }
      if !users[req.uid].mfaEnabled {
        return Ok;
      }
      reply := VerifyAnyMfa(req.uid, p, req.now);
      if reply != Ok {
        return;
      }
      var user := users[req.uid];
      user := user.(mfaEnabled := false, mfaMethod := None);
      user := user.(totpSecret := None, totpPending := None);
      user := user.(otp := None, otpExpires := None);
      user := user.(credential := None, publicKey := None);
      user := user.(challenge := None, challengeExpires := None);
      users := users[req.uid := user];
      if req.iat != 0 {
        var i := FindSession(sessions, req.uid, req.iat);
        if i < |sessions| {
          sessions := sessions[i := sessions[i].(verifiedAt := None, verifiedMethod := None)];
        }
      }
    }

    method MfaSetPrimary(req: Request, factor: Method, p: Proof) returns (reply: Reply)
      modifies this
      ensures (Contents(), reply) == SetPrimaryStep(old(Contents()), req, factor, p)
    {
      hide Gate, CheckTotp, CheckAssertion, Stamp;
      reply := GetCurrentUser(req, true);
      if reply != Ok {
        return;
      }
      if factor != Totp && factor != Passkey {
        return Fail(400);
      }
      if factor == Totp {
        if users[req.uid].totpSecret.None? {
          return Fail(400);
        }
        if !Truthy(p.code) {
          return Fail(403);
        }
        reply := VerifyTotp(req.uid, p, req.now);
      } else {
        if users[req.uid].credential.None? {
          return Fail(400);
        }
        reply := VerifyPasskeyAssertion(req.uid, p, req.now);
      }
      if reply != Ok {
        return;
      }
      users := users[req.uid := users[req.uid].(mfaEnabled := true, mfaMethod := Some(factor))];
      MarkSessionMfaVerified(req.uid, req.iat, Some(factor), req.now);
    }

    method LogOut(req: Request, revoked: bool) returns (reply: Reply)
      modifies this
      ensures (Contents(), reply) == LogoutStep(old(Contents()), req, revoked)
    {
      hide Gate, FindSession;
      reply := GetCurrentUser(req, true);
      if reply != Ok {
        return;
      }
      if !revoked {
        return Fail(502);
      }
      if req.iat != 0 {
        var i := FindSession(sessions, req.uid, req.iat);
        if i < |sessions| {
          sessions := sessions[i := sessions[i].(active := false)];
        }
      }
    }

    method TerminateSession(req: Request, target: int) returns (reply: Reply)
      modifies this
      ensures (Contents(), reply) == EndSessionStep(old(Contents()), req, target)
    {
      hide Gate, FindSession;
      reply := GetCurrentUser(req, false);
      if reply != Ok {
        return;
      }
      var i := FindSession(sessions, req.uid, target);
      if i == |sessions| {
        return Fail(404);
      }
      if sessions[i].iat == req.iat {
        return Fail(400);
      }
      sessions := sessions[i := sessions[i].(active := false)];
    }

    method TerminateOtherSessions(req: Request) returns (reply: Reply)
      modifies this
      ensures (Contents(), reply) == EndOtherSessionsStep(old(Contents()), req)
    {
      hide Gate;
      reply := GetCurrentUser(req, false);
      if reply != Ok {
        return;
      }
      if req.iat == 0 {
        return Fail(400);
      }
      ghost var before, w1 := sessions, Contents();
      for k := 0 to |sessions|
        invariant |sessions| == |before| && users == w1.users && log == w1.log
        invariant forall j :: 0 <= j < k ==> sessions[j] == OthersEnded(before, req.uid, req.iat)[j]
        invariant forall j :: k <= j < |before| ==> sessions[j] == before[j]
      {
        if sessions[k].uid == req.uid && sessions[k].iat != req.iat && sessions[k].active {
          sessions := sessions[k := sessions[k].(active := false)];
        }
      }
      assert sessions == OthersEnded(before, req.uid, req.iat);
    }

    method RequestPasswordReset(uid: string, p: Proof, now: int) returns (reply: Reply)
      modifies this`users, this`log
      ensures (Contents(), reply) == ResetPasswordStep(old(Contents()), uid, p, now)
    {
      if uid !in users {
        return Ok;
      }
      reply := VerifyMfa(uid, p, now);
    }
  }

  lemma {:induction false} UpsertedAt(sessions: seq<Session>, req: Request)
    ensures var i := FindSession(sessions, req.uid, req.iat);
            && FindSession(Upserted(sessions, req), req.uid, req.iat) == i
            && Upserted(sessions, req) == if i < |sessions| then sessions else sessions + [NewSession(req)]
  {
    if FindSession(sessions, req.uid, req.iat) == |sessions| {
      FindAppended(sessions, NewSession(req));
    }
  }

  lemma {:induction false} UnverifiedIsNoDonor(
      sessions: seq<Session>, rec: Session, uid: string, iat: int, ip: Option<string>, agent: string)
    requires rec.verifiedAt.None?
    ensures LatestDonor(sessions + [rec], uid, iat, ip, agent) == LatestDonor(sessions, uid, iat, ip, agent)
  {
    assert (sessions + [rec])[..|sessions|] == sessions;
  }

  /** A factor check does not look at sessions. */
  lemma {:induction false} CheckIgnoresSessions(w: World, sessions: seq<Session>, uid: string, p: Proof, now: int)
    requires uid in w.users
    ensures var (w1, reply) := CheckPrimary(w, uid, p, now);
            CheckPrimary(w.(sessions := sessions), uid, p, now) == (w1.(sessions := sessions), reply)
  {
  }
}
