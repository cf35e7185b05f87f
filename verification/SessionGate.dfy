/** Multi-factor sign-in and the session gate: the effect of every endpoint on users and sessions.

    A token is identified by its user and its issue time `iat`; an `iat` of 0 stands for a token
    without one. What a provider decides (a TOTP code, a passkey assertion or registration) arrives
    as an input. `log` records, in order, the checks that succeeded and what they led to; the code
    does not read it.
  */
module SessionGate {
  import opened Text

  type Token = s: string | s != "" witness "x"

  datatype Method = Totp | Email | Passkey | Sms | Unknown(name: string)

  datatype User = User(
    mfaEnabled: bool, mfaMethod: Option<Method>,
    totpSecret: Option<Token>, totpPending: Option<Token>,
    credential: Option<Token>, publicKey: Option<Token>,
    challenge: Option<Token>, challengeExpires: Option<int>,
    otp: Option<Token>, otpExpires: Option<int>,
    pendingVerification: bool)

  datatype Session = Session(
    uid: string, iat: int, ip: Option<string>, agent: string,
    active: bool, verifiedAt: Option<int>, verifiedMethod: Option<Method>)

  /** A request that carries a verified token. */
  datatype Request = Request(uid: string, iat: int, ip: Option<string>, agent: string, now: int)

  datatype Assertion = NoAssertion | EmptyAssertion | Assertion(valid: bool)

  /** What the client offers as proof: a code, and whether it fits the TOTP secret, and an assertion. */
  datatype Proof = Proof(code: Option<string>, totpValid: bool, assertion: Assertion)

  datatype Reply = Ok | Fail(status: int)

  datatype Fact =
    | Passed(uid: string, factor: Method, at: int)
    | Stamped(uid: string, iat: int, ip: Option<string>, agent: string, factor: Method, at: int)
    | Rolled(uid: string, from: int, iat: int, ip: Option<string>, agent: string, factor: Method, stamp: int, at: int)
    | Admitted(uid: string, iat: int)
    | ChallengeIssued(uid: string)
    | ChallengeUsed(uid: string)
    | OtpIssued(uid: string)
    | OtpUsed(uid: string)

  datatype World = World(users: map<string, User>, sessions: seq<Session>, log: seq<Fact>)

  const ROLLOVER_SECONDS := 6 * 60 * 60
  const CHALLENGE_SECONDS := 5 * 60
  const OTP_SECONDS := 10 * 60

  // ----- Small steps -----

  function WithUser(w: World, uid: string, u: User): World {
    w.(users := w.users[uid := u])
  }

  function Note(w: World, f: Fact): World {
    w.(log := w.log + [f])
  }

  function FindSession(sessions: seq<Session>, uid: string, iat: int): (i: nat)
    ensures i <= |sessions| && (i < |sessions| ==> sessions[i].uid == uid && sessions[i].iat == iat)
    ensures forall k :: 0 <= k < i ==> !(sessions[k].uid == uid && sessions[k].iat == iat)
  {
    if sessions == [] || (sessions[0].uid == uid && sessions[0].iat == iat) then 0
    else 1 + FindSession(sessions[1..], uid, iat)
  }

  function Shortened(agent: string): string {
    if |agent| <= 512 then agent else agent[..512]
  }

  function NewSession(req: Request): Session {
    Session(req.uid, req.iat, req.ip, Shortened(req.agent), true, None, None)
  }

  /** The session of the token exists from here on. */
  function Upserted(sessions: seq<Session>, req: Request): (r: seq<Session>)
    ensures FindSession(r, req.uid, req.iat) < |r|
  {
    if FindSession(sessions, req.uid, req.iat) < |sessions| then sessions
    else
      FindAppended(sessions, NewSession(req));
      sessions + [NewSession(req)]
  }

  lemma {:induction false} FindAppended(sessions: seq<Session>, s: Session)
    ensures FindSession(sessions + [s], s.uid, s.iat) <= |sessions|
    ensures FindSession(sessions, s.uid, s.iat) == |sessions| ==>
              FindSession(sessions + [s], s.uid, s.iat) == |sessions|
  {
    if sessions == [] {
    } else {
      assert (sessions + [s])[1..] == sessions[1..] + [s];
      FindAppended(sessions[1..], s);
    }
  }

  function Replaced(w: World, i: nat, s: Session): World
    requires i < |w.sessions|
  {
    w.(sessions := w.sessions[i := s])
  }

  /** Sets the stamp of a session, when the token has one. */
  function Stamp(w: World, uid: string, iat: int, factor: Option<Method>, now: int): (r: World)
    ensures r.users == w.users
  {
    var i := FindSession(w.sessions, uid, iat);
    if iat == 0 || i == |w.sessions| then w
    else
      var s := w.sessions[i].(verifiedAt := Some(now), verifiedMethod := factor);
      var w1 := Replaced(w, i, s);
      if factor.Some? then Note(w1, Stamped(uid, iat, s.ip, s.agent, factor.value, now)) else w1
  }

  // ----- Checking a factor -----

  function Truthy(code: Option<string>): bool {
    code.Some? && code.value != ""
  }

  function CheckTotp(w: World, uid: string, p: Proof, now: int): (r: (World, Reply))
    requires uid in w.users
    ensures r.0.users.Keys == w.users.Keys && r.0.sessions == w.sessions
    ensures r.1 != Ok ==> r.0 == w
  {
    if w.users[uid].totpSecret.None? then (w, Fail(400))
    else if !p.totpValid then (w, Fail(401))
    else (Note(w, Passed(uid, Totp, now)), Ok)
  }

  function CheckEmailOtp(w: World, uid: string, code: string, now: int): (r: (World, Reply))
    requires uid in w.users
    ensures r.0.users.Keys == w.users.Keys && r.0.sessions == w.sessions
    ensures r.1 != Ok ==> r.0 == w
  {
    var u := w.users[uid];
    if u.otp.None? || u.otpExpires.None? then (w, Fail(400))
    else if now > u.otpExpires.value then (w, Fail(400))
    else if code != u.otp.value then (w, Fail(401))
    else (Note(Note(WithUser(w, uid, u.(otp := None)), OtpUsed(uid)), Passed(uid, Email, now)), Ok)
  }

  function CheckAssertion(w: World, uid: string, p: Proof, now: int): (r: (World, Reply))
    requires uid in w.users
    ensures r.0.users.Keys == w.users.Keys && r.0.sessions == w.sessions
    ensures r.1 != Ok ==> r.0 == w
  {
    var u := w.users[uid];
    if !p.assertion.Assertion? then (w, Fail(403))
    else if u.credential.None? || u.publicKey.None? then (w, Fail(400))
    else if u.challenge.None? || u.challengeExpires.None? then (w, Fail(400))
    else if now > u.challengeExpires.value then (w, Fail(400))
    else if !p.assertion.valid then (w, Fail(401))
    else
      (Note(Note(WithUser(w, uid, u.(challenge := None, challengeExpires := None)), ChallengeUsed(uid)),
            Passed(uid, Passkey, now)), Ok)
  }

  /** The configured method is checked; a name the code does not know is let through. */
  function CheckPrimary(w: World, uid: string, p: Proof, now: int): (r: (World, Reply))
    requires uid in w.users
    ensures r.0.users.Keys == w.users.Keys && r.0.sessions == w.sessions
    ensures r.1 != Ok ==> r.0 == w
  {
    var u := w.users[uid];
    if !u.mfaEnabled then (w, Ok)
    else
      match (if u.mfaMethod.Some? then u.mfaMethod.value else Totp)
      case Totp => if !Truthy(p.code) then (w, Fail(403)) else CheckTotp(w, uid, p, now)
      case Email => if !Truthy(p.code) then (w, Fail(403)) else CheckEmailOtp(w, uid, p.code.value, now)
      case Passkey => CheckAssertion(w, uid, p, now)
      case Sms => (w, Fail(501))
      case Unknown(_) => (w, Ok)
  }

  /** Any enabled method serves to administer the others, except that a code is always a TOTP code. */
  function CheckAny(w: World, uid: string, p: Proof, now: int): (r: (World, Reply))
    requires uid in w.users
    ensures r.0.users.Keys == w.users.Keys && r.0.sessions == w.sessions
    ensures r.1 != Ok ==> r.0 == w
  {
    var u := w.users[uid];
    if !u.mfaEnabled then (w, Ok)
    else if p.assertion != NoAssertion then
      if u.credential.None? || u.publicKey.None? then (w, Fail(400)) else CheckAssertion(w, uid, p, now)
    else if p.code.Some? then
      if u.totpSecret.None? then (w, Fail(400)) else CheckTotp(w, uid, p, now)
    else (w, Fail(403))
  }

  // ----- The gate -----

  /** A session whose stamp may be carried over: another active one of the same user and device. */
  predicate Donor(s: Session, uid: string, iat: int, ip: Option<string>, agent: string) {
    s.uid == uid && s.active && s.iat != iat && s.verifiedAt.Some? && s.agent == agent && s.ip == ip
  }

  /** The donor with the latest stamp, the first in the table among equals. */
  function LatestDonor(
      sessions: seq<Session>, uid: string, iat: int, ip: Option<string>, agent: string): (r: Option<nat>)
    ensures r.Some? ==> r.value < |sessions| && Donor(sessions[r.value], uid, iat, ip, agent)
    ensures r.Some? ==> forall k :: 0 <= k < |sessions| && Donor(sessions[k], uid, iat, ip, agent)
                          ==> sessions[k].verifiedAt.value <= sessions[r.value].verifiedAt.value
    ensures r.None? ==> forall k :: 0 <= k < |sessions| ==> !Donor(sessions[k], uid, iat, ip, agent)
  {
    if sessions == [] then None
    else
      var n := |sessions| - 1;
      var best := LatestDonor(sessions[..n], uid, iat, ip, agent);
      if Donor(sessions[n], uid, iat, ip, agent)
         && (best.None? || sessions[n].verifiedAt.value > sessions[best.value].verifiedAt.value)
      then Some(n) else best
  }

  /** Carries a recent stamp of the same device over to a session without one. The stamp is copied,
      not renewed. */
  function RolledOver(w: World, i: nat, factor: Option<Method>, now: int): (r: World)
    requires i < |w.sessions|
    ensures r.users == w.users && |r.sessions| == |w.sessions|
  {
    var s := w.sessions[i];
    var donor := LatestDonor(w.sessions, s.uid, s.iat, s.ip, s.agent);
    if donor.None? then w
    else
      var d := w.sessions[donor.value];
      if d.verifiedMethod != factor || now - d.verifiedAt.value > ROLLOVER_SECONDS then w
      else
        var w1 := Replaced(w, i, s.(verifiedAt := d.verifiedAt, verifiedMethod := d.verifiedMethod));
        if factor.Some?
        then Note(w1, Rolled(s.uid, d.iat, s.iat, s.ip, s.agent, factor.value, d.verifiedAt.value, now))
        else w1
  }

  /** The part of the gate for users with a second factor: `w` is the committed state, and `w1` is
      it with the session of the request, at position i. */
  function MfaGate(w: World, w1: World, i: nat, u: User, req: Request, exempt: bool): (r: (World, Reply))
    requires i < |w1.sessions| && w.users == w1.users
    ensures r.0.users == w.users
  {
    var w2 := if w1.sessions[i].verifiedAt.None? && !exempt then RolledOver(w1, i, u.mfaMethod, req.now) else w1;
    if !exempt && w2.sessions[i].verifiedAt.None? then (w, Fail(403))
    else if w2.sessions[i].verifiedAt.Some? && w2.sessions[i].verifiedMethod != u.mfaMethod then
      var w3 := Replaced(w2, i, w2.sessions[i].(verifiedAt := None, verifiedMethod := None));
      if exempt then (Note(w3, Admitted(req.uid, req.iat)), Ok) else (w3, Fail(403))
    else (Note(w2, Admitted(req.uid, req.iat)), Ok)
  }

  /** Every authenticated request passes here. A refusal before the commit leaves no trace, not even
      the new session row. */
  function Gate(w: World, req: Request, exempt: bool): (r: (World, Reply))
    ensures r.0.users == w.users
    ensures r.1 == Ok ==> req.uid in w.users
  {
    if req.uid !in w.users then (w, Fail(401))
    else if req.iat == 0 then (w, Ok)
    else
      var found := FindSession(w.sessions, req.uid, req.iat);
      if found < |w.sessions| && !w.sessions[found].active then (w, Fail(401))
      else
        var w1 := w.(sessions := Upserted(w.sessions, req));
        var i := FindSession(w1.sessions, req.uid, req.iat);
        if !w.users[req.uid].mfaEnabled then (Note(w1, Admitted(req.uid, req.iat)), Ok)
        else MfaGate(w, w1, i, w.users[req.uid], req, exempt)
  }

  // ----- The endpoints -----

  datatype Event =
    | Visit(req: Request)
    | Login(req: Request, proof: Proof)
    | RequestEmailCode(uid: string, newCode: Token, now: int)
    | EnableEmail(uid: string, code: string, current: Proof, now: int)
    | SetupTotp(req: Request, proof: Proof, secret: Token)
    | EnableTotp(req: Request, code: string, codeValid: bool)
    | PasskeyAuthOptions(uid: string, challenge: Token, now: int)
    | PasskeyRegisterOptions(req: Request, proof: Proof, challenge: Token)
    | PasskeyRegisterVerify(req: Request, proof: Proof, valid: bool, credential: Token, publicKey: Token)
    | DisableMfa(req: Request, proof: Proof)
    | SetPrimary(req: Request, factor: Method, proof: Proof)
    | Logout(req: Request, revoked: bool)
    | EndSession(req: Request, target: int)
    | EndOtherSessions(req: Request)
    | ResetPassword(uid: string, proof: Proof, now: int)

  function LoginStep(w: World, req: Request, p: Proof): (World, Reply) {
    if req.uid !in w.users then (w, Fail(404))
    else
      var w1 := if req.iat == 0 then w else w.(sessions := Upserted(w.sessions, req));
      if !w1.users[req.uid].mfaEnabled then (w1, Ok)
      else
        var (w2, reply) := CheckPrimary(w1, req.uid, p, req.now);
        if reply != Ok then (w, reply)
        else (Stamp(w2, req.uid, req.iat, w2.users[req.uid].mfaMethod, req.now), Ok)
  }

  function RequestEmailCodeStep(w: World, uid: string, code: Token, now: int): (World, Reply) {
    if uid !in w.users then (w, Ok)
    else (Note(WithUser(w, uid, w.users[uid].(otp := Some(code), otpExpires := Some(now + OTP_SECONDS))),
        OtpIssued(uid)), Ok)
  }

  function EnableEmailStep(w: World, uid: string, code: string, current: Proof, now: int): (World, Reply) {
    if uid !in w.users then (w, Fail(404))
    else
      var u := w.users[uid];
      var (w1, reply) := if u.mfaEnabled && u.mfaMethod != Some(Email)
          then CheckPrimary(w, uid, current, now)
          else (w, Ok);
      if reply != Ok then (w1, reply) else UseEmailCode(w1, uid, code, now)
  }

  /** The code confirms a new account's address, or makes e-mail the only second factor. */
  function UseEmailCode(w: World, uid: string, code: string, now: int): (World, Reply)
    requires uid in w.users
  {
    var u := w.users[uid];
    if u.otp.None? || u.otpExpires.None? then (w, Fail(400))
    else if now > u.otpExpires.value then (w, Fail(400))
    else if code != u.otp.value then (w, Fail(401))
    else
      var cleared := u.(otp := None, otpExpires := None);
      var enabled :=
        if u.pendingVerification
        then cleared.(mfaEnabled := false, pendingVerification := false,
                      mfaMethod := if u.mfaMethod == Some(Email) then None else u.mfaMethod)
        else cleared.(mfaEnabled := true, mfaMethod := Some(Email), totpSecret := None,
                      credential := None, publicKey := None, challenge := None, challengeExpires := None);
      (Note(WithUser(w, uid, enabled), OtpUsed(uid)), Ok)
  }

  /** The gate of an exempt path, then a re-check when the user has a second factor already. */
  function GateAndCheck(w: World, req: Request, p: Proof): (r: (World, Reply))
    ensures r.0.users.Keys == w.users.Keys
    ensures r.1 == Ok ==> req.uid in w.users
  {
    var (w1, reply) := Gate(w, req, true);
    if reply != Ok then (w1, reply) else CheckAny(w1, req.uid, p, req.now)
  }

  function SetupTotpStep(w: World, req: Request, p: Proof, secret: Token): (World, Reply) {
    var (w1, reply) := GateAndCheck(w, req, p);
    if reply != Ok then (w1, reply)
    else (WithUser(w1, req.uid, w1.users[req.uid].(totpPending := Some(secret))), Ok)
  }

  function EnableTotpStep(w: World, req: Request, code: string, codeValid: bool): (World, Reply) {
    var (w1, reply) := Gate(w, req, true);
    if reply != Ok then (w1, reply)
    else
      var u := w1.users[req.uid];
      if code == "" then (w1, Fail(400))
      else if u.totpPending.None? then (w1, Fail(400))
      else if !codeValid then (w1, Fail(401))
      else
        var enabled := u.(mfaEnabled := true, totpSecret := u.totpPending, totpPending := None,
                          mfaMethod := if u.mfaEnabled then u.mfaMethod else Some(Totp));
        var w2 := Note(WithUser(w1, req.uid, enabled), Passed(req.uid, Totp, req.now));
        (if enabled.mfaMethod == Some(Totp) then Stamp(w2, req.uid, req.iat, Some(Totp), req.now) else w2, Ok)
  }

  function PasskeyAuthOptionsStep(w: World, uid: string, challenge: Token, now: int): (World, Reply) {
    if uid !in w.users then (w, Fail(404))
    else if w.users[uid].credential.None? then (w, Fail(400))
    else (IssueChallenge(w, uid, challenge, now), Ok)
  }

  function IssueChallenge(w: World, uid: string, challenge: Token, now: int): World
    requires uid in w.users
  {
    Note(WithUser(w, uid,
        w.users[uid].(challenge := Some(challenge), challengeExpires := Some(now + CHALLENGE_SECONDS))),
         ChallengeIssued(uid))
  }

  function PasskeyRegisterOptionsStep(w: World, req: Request, p: Proof, challenge: Token): (World, Reply) {
    var (w1, reply) := GateAndCheck(w, req, p);
    if reply != Ok then (w1, reply)
    else (IssueChallenge(w1, req.uid, challenge, req.now), Ok)
  }

  function PasskeyRegisterVerifyStep(
      w: World, req: Request, p: Proof, valid: bool, credential: Token, publicKey: Token): (World, Reply)
  {
    var (w1, reply) := GateAndCheck(w, req, p);
    if reply != Ok then (w1, reply)
    else
      var u := w1.users[req.uid];
      if u.challenge.None? || u.challengeExpires.None? then (w1, Fail(400))
      else if req.now > u.challengeExpires.value then (w1, Fail(400))
      else if !valid then (w1, Fail(401))
      else
        var enabled := u.(credential := Some(credential), publicKey := Some(publicKey),
                          challenge := None, challengeExpires := None, otp := None, otpExpires := None,
                          mfaEnabled := true, mfaMethod := if u.mfaEnabled then u.mfaMethod else Some(Passkey));
        var w2 := Note(Note(WithUser(w1, req.uid, enabled), ChallengeUsed(req.uid)), Passed(req.uid, Passkey, req.now));
        (if enabled.mfaMethod == Some(Passkey) then Stamp(w2, req.uid, req.iat, Some(Passkey), req.now) else w2, Ok)
  }

  function DisableMfaStep(w: World, req: Request, p: Proof): (World, Reply) {
    var (w1, reply) := Gate(w, req, true);
    if reply != Ok then (w1, reply)
    else if !w1.users[req.uid].mfaEnabled then (w1, Ok)
    else
      var (w2, reply2) := CheckAny(w1, req.uid, p, req.now);
      if reply2 != Ok then (w2, reply2)
      else
        var off := w2.users[req.uid].(mfaEnabled := false, totpSecret := None, totpPending := None, mfaMethod := None,
                     otp := None, otpExpires := None, credential := None, publicKey := None,
                     challenge := None, challengeExpires := None);
        var w3 := WithUser(w2, req.uid, off);
        var i := FindSession(w3.sessions, req.uid, req.iat);
        if req.iat == 0 || i == |w3.sessions| then (w3, Ok)
        else (Replaced(w3, i, w3.sessions[i].(verifiedAt := None, verifiedMethod := None)), Ok)
  }

  function SetPrimaryStep(w: World, req: Request, factor: Method, p: Proof): (World, Reply) {
    var (w1, reply) := Gate(w, req, true);
    if reply != Ok then (w1, reply)
    else if factor != Totp && factor != Passkey then (w1, Fail(400))
    else
      var u := w1.users[req.uid];
      var (w2, reply2) :=
        if factor == Totp then
          if u.totpSecret.None? then (w1, Fail(400))
          else if !Truthy(p.code) then (w1, Fail(403))
          else CheckTotp(w1, req.uid, p, req.now)
        else if u.credential.None? then (w1, Fail(400))
        else CheckAssertion(w1, req.uid, p, req.now);
      if reply2 != Ok then (w2, reply2)
      else
        var w3 := WithUser(w2, req.uid, w2.users[req.uid].(mfaEnabled := true, mfaMethod := Some(factor)));
        (Stamp(w3, req.uid, req.iat, Some(factor), req.now), Ok)
  }

  function Deactivated(sessions: seq<Session>, uid: string, iat: int): (r: seq<Session>)
    ensures |r| == |sessions|
  {
    var i := FindSession(sessions, uid, iat);
    if i == |sessions| then sessions else sessions[i := sessions[i].(active := false)]
  }

  /** The session is only given up when the identity provider revoked the tokens. */
  function LogoutStep(w: World, req: Request, revoked: bool): (World, Reply) {
    var (w1, reply) := Gate(w, req, true);
    if reply != Ok then (w1, reply)
    else if !revoked then (w1, Fail(502))
    else if req.iat == 0 then (w1, Ok)
    else (w1.(sessions := Deactivated(w1.sessions, req.uid, req.iat)), Ok)
  }

  function EndSessionStep(w: World, req: Request, target: int): (World, Reply) {
    var (w1, reply) := Gate(w, req, false);
    if reply != Ok then (w1, reply)
    else if FindSession(w1.sessions, req.uid, target) == |w1.sessions| then (w1, Fail(404))
    else if target == req.iat then (w1, Fail(400))
    else (w1.(sessions := Deactivated(w1.sessions, req.uid, target)), Ok)
  }

  function OthersEnded(sessions: seq<Session>, uid: string, iat: int): (r: seq<Session>)
    ensures |r| == |sessions|
    ensures forall k :: 0 <= k < |sessions| ==>
              r[k] == if sessions[k].uid == uid && sessions[k].iat != iat
                  then sessions[k].(active := false)
                  else sessions[k]
  {
    seq(|sessions|, k requires 0 <= k < |sessions| =>
      if sessions[k].uid == uid && sessions[k].iat != iat then sessions[k].(active := false) else sessions[k])
  }

  function EndOtherSessionsStep(w: World, req: Request): (World, Reply) {
    var (w1, reply) := Gate(w, req, false);
    if reply != Ok then (w1, reply)
    else if req.iat == 0 then (w1, Fail(400))
    else (w1.(sessions := OthersEnded(w1.sessions, req.uid, req.iat)), Ok)
  }

  function ResetPasswordStep(w: World, uid: string, p: Proof, now: int): (World, Reply) {
    if uid !in w.users then (w, Ok) else CheckPrimary(w, uid, p, now)
  }

  function Step(w: World, e: Event): (World, Reply) {
    match e
    case Visit(req) => Gate(w, req, false)
    case Login(req, proof) => LoginStep(w, req, proof)
    case RequestEmailCode(uid, code, now) => RequestEmailCodeStep(w, uid, code, now)
    case EnableEmail(uid, code, current, now) => EnableEmailStep(w, uid, code, current, now)
    case SetupTotp(req, proof, secret) => SetupTotpStep(w, req, proof, secret)
    case EnableTotp(req, code, codeValid) => EnableTotpStep(w, req, code, codeValid)
    case PasskeyAuthOptions(uid, challenge, now) => PasskeyAuthOptionsStep(w, uid, challenge, now)
    case PasskeyRegisterOptions(req, proof, challenge) => PasskeyRegisterOptionsStep(w, req, proof, challenge)
    case PasskeyRegisterVerify(req, proof, valid, credential, publicKey) =>
      PasskeyRegisterVerifyStep(w, req, proof, valid, credential, publicKey)
    case DisableMfa(req, proof) => DisableMfaStep(w, req, proof)
    case SetPrimary(req, factor, proof) => SetPrimaryStep(w, req, factor, proof)
    case Logout(req, revoked) => LogoutStep(w, req, revoked)
    case EndSession(req, target) => EndSessionStep(w, req, target)
    case EndOtherSessions(req) => EndOtherSessionsStep(w, req)
    case ResetPassword(uid, proof, now) => ResetPasswordStep(w, uid, proof, now)
  }

  function Run(w: World, events: seq<Event>): World
    decreases |events|
  {
    if events == [] then w else Run(Step(w, events[0]).0, events[1..])
  }
}
