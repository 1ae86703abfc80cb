/** The session registry as a value: what each critical section of the authentication
    handlers does to it, the invariant all of them keep, and what a refresh token can do. */
module SessionModel {
  import opened Wrappers

  type Token = string
  type SessionId = string
  type PendingId = string
  type UserId = string

  /** A SHA-256 digest, assumed collision free: it determines the token it was taken from. */
  datatype Fingerprint = Fingerprint(token: Token)

  datatype Binding = Binding(ipAddress: string, deviceFingerprint: string)

  datatype Claims = Claims(sessionId: SessionId, userId: UserId, tenantId: string,
                           issuedAt: int, expiresAt: int, binding: Binding)

  datatype Challenge = Challenge(challengeId: string)

  datatype Posture = Posture(compliant: bool, reasons: seq<string>)

  datatype ActiveSession = ActiveSession(
    claims: Claims,
    refreshToken: Token,
    previous: Option<Fingerprint>,
    riskScore: nat,
    posture: Option<Posture>,
    revoked: bool,
    stepUpRequired: bool,
    challenge: Option<Challenge>)

  datatype PendingLogin = PendingLogin(userId: UserId, tenantId: string, binding: Binding, challenge: Challenge)

  datatype AdaptiveResponse = Allow | StepUpAuth | TerminateSession

  /** Which session a token was issued to, and at which place in that session's chain. */
  datatype Issue = Issue(session: SessionId, place: nat)

  /** `pending` and `active` are the registry. `chain` and `issued` are its history: the refresh
      tokens each session was given, oldest first, and where each token stands. */
  datatype Registry = Registry(
    pending: map<PendingId, PendingLogin>,
    active: map<SessionId, ActiveSession>,
    chain: map<SessionId, seq<Token>>,
    issued: map<Token, Issue>)

  datatype Denial =
    | SessionNotFound
    | ReplayDetected
    | StepUpRequired(challenge: Option<Challenge>)
    | StepUpNotRequired
    | ChallengeNotFound
    | AccountNotFound
    | MissingRegistration
    | InvalidProof
    | SigningFailed
    | Revoked
    | BindingMismatch
    | TokenExpired

  /** What the account directory says about the owner of a session under step-up. */
  datatype AccountCheck = NoAccount | NoRegistration | Registered

  datatype TokenPair = TokenPair(session: SessionId, claims: Claims, refreshToken: Token)

  const SESSION_TTL_MINUTES := 15

  const STEP_UP_RISK_CEILING := 25

  // ----- Finding a session by token -----

  ghost predicate Holds(r: Registry, sid: SessionId, token: Token) {
    sid in r.active && r.active[sid].refreshToken == token && !r.active[sid].revoked
  }

  ghost predicate Replays(r: Registry, sid: SessionId, token: Token) {
    sid in r.active && r.active[sid].previous == Some(Fingerprint(token)) && !r.active[sid].revoked
  }

  /** Some unrevoked session whose current token is `token`: the scan's order is not fixed. */
  ghost function Holder(r: Registry, token: Token): (found: Option<SessionId>)
    ensures found.Some? ==> Holds(r, found.value, token)
    ensures found.None? ==> forall sid :: !Holds(r, sid, token)
  {
    if exists sid :: Holds(r, sid, token) then
      var sid :| Holds(r, sid, token);
      Some(sid)
    else None
  }

  /** Some unrevoked session whose previous token is `token`. */
  ghost function ReplayVictim(r: Registry, token: Token): (found: Option<SessionId>)
    ensures found.Some? ==> Replays(r, found.value, token)
    ensures found.None? ==> forall sid :: !Replays(r, sid, token)
  {
    if exists sid :: Replays(r, sid, token) then
      var sid :| Replays(r, sid, token);
      Some(sid)
    else None
  }

  // ----- The critical sections -----

  function Put(r: Registry, sid: SessionId, session: ActiveSession): Registry {
    r.(active := r.active[sid := session])
  }

  function Reissued(session: ActiveSession, newToken: Token, now: int): ActiveSession {
    session.(previous := Some(Fingerprint(session.refreshToken)),
             refreshToken := newToken,
             claims := session.claims.(issuedAt := now, expiresAt := now + SESSION_TTL_MINUTES))
  }

  function Rotated(r: Registry, sid: SessionId, session: ActiveSession): Registry
    requires sid in r.chain
  {
    Put(r, sid, session).(chain := r.chain[sid := r.chain[sid] + [session.refreshToken]],
                          issued := r.issued[session.refreshToken := Issue(sid, |r.chain[sid]|)])
  }

  function Answer(sid: SessionId, session: ActiveSession, signed: bool): Result<TokenPair, Denial> {
    if signed then Ok(TokenPair(sid, session.claims, session.refreshToken)) else Err(SigningFailed)
  }

  /** First critical section of a refresh: the replay scan. */
  ghost function ReplayScan(r: Registry, token: Token): (Registry, bool) {
    match ReplayVictim(r, token)
    case None => (r, false)
    case Some(sid) => (Put(r, sid, r.active[sid].(revoked := true)), true)
  }

  /** Second critical section of a refresh: the rotation. */
  ghost function RefreshRotate(r: Registry, token: Token, newToken: Token, now: int, signed: bool)
    : (Registry, Result<TokenPair, Denial>)
    requires r.chain.Keys == r.active.Keys
  {
    match Holder(r, token)
    case None => (r, Err(SessionNotFound))
    case Some(sid) =>
      var session := r.active[sid];
      if session.stepUpRequired then
        (r, Err(StepUpRequired(session.challenge)))
      else
        var session' := Reissued(session, newToken, now);
        (Rotated(r, sid, session'), Answer(sid, session', signed))
  }

  ghost function StepUpVerify(r: Registry, token: Token, account: AccountCheck, proofOk: bool,
                              newToken: Token, now: int, signed: bool)
    : (Registry, Result<TokenPair, Denial>)
    requires r.chain.Keys == r.active.Keys
  {
    match Holder(r, token)
    case None => (r, Err(SessionNotFound))
    case Some(sid) =>
      var session := r.active[sid];
      if !session.stepUpRequired then (r, Err(StepUpNotRequired))
      else if session.challenge.None? then (r, Err(ChallengeNotFound))
      else if account.NoAccount? then (r, Err(AccountNotFound))
      else if account.NoRegistration? then (r, Err(MissingRegistration))
      else if !proofOk then (r, Err(InvalidProof))
      else
        var session' := Reissued(session, newToken, now).(
                        stepUpRequired := false,
                        challenge := None,
                        riskScore := if session.riskScore < STEP_UP_RISK_CEILING then session.riskScore
                                     else STEP_UP_RISK_CEILING);
        (Rotated(r, sid, session'), Answer(sid, session', signed))
  }

  ghost function Logout(r: Registry, token: Token): (Registry, Result<(), Denial>) {
    match Holder(r, token)
    case None => (r, Err(SessionNotFound))
    case Some(sid) => (Put(r, sid, r.active[sid].(revoked := true)), Ok(()))
  }

  /** A posture report. `challenge` is what beginning a step-up challenge for the owner gave:
      `None` when the account, its registration or the challenge itself is unavailable, in which
      case the report and the score have already been stored. */
  ghost function AssessPosture(r: Registry, token: Token, report: Posture, score: nat,
                               response: AdaptiveResponse, challenge: Option<Challenge>)
    : (Registry, Option<ActiveSession>)
  {
    match Holder(r, token)
    case None => (r, None)
    case Some(sid) =>
      var assessed := r.active[sid].(posture := Some(report), riskScore := score);
      match response
      case Allow =>
        var session := assessed.(stepUpRequired := false, challenge := None);
        (Put(r, sid, session), Some(session))
      case StepUpAuth =>
        if challenge.None? then (Put(r, sid, assessed), None)
        else
          var session := assessed.(stepUpRequired := true, challenge := challenge);
          (Put(r, sid, session), Some(session))
      case TerminateSession =>
        var session := assessed.(revoked := true, stepUpRequired := false, challenge := None);
        (Put(r, sid, session), Some(session))
  }

  function RevokedFor(active: map<SessionId, ActiveSession>, user: UserId): map<SessionId, ActiveSession> {
    map sid | sid in active ::
      if active[sid].claims.userId == user then active[sid].(revoked := true) else active[sid]
  }

  function RevokeUser(r: Registry, user: UserId): Registry {
    r.(active := RevokedFor(r.active, user))
  }

  function NewSession(sid: SessionId, token: Token, login: PendingLogin, now: int): ActiveSession {
    ActiveSession(Claims(sid, login.userId, login.tenantId, now, now + SESSION_TTL_MINUTES, login.binding),
                  token, None, 0, None, false, false, None)
  }

  function OpenSession(r: Registry, sid: SessionId, token: Token, login: PendingLogin, now: int): Registry {
    r.(active := r.active[sid := NewSession(sid, token, login, now)],
       chain := r.chain[sid := [token]],
       issued := r.issued[token := Issue(sid, 0)])
  }

  const LOCALHOST := "127.0.0.1"

  /** The check every authenticated request goes through, for already parsed access-token claims and
      what its headers say of address and device: without a forwarding header the address is the local
      one, without a device header the device is taken to be that of the claims. */
  function Authenticate(active: map<SessionId, ActiveSession>, claims: Claims, now: int,
                        ipAddress: Option<string>, device: Option<string>): Result<Claims, Denial>
  {
    if now >= claims.expiresAt then Err(TokenExpired)
    else if claims.sessionId !in active then Err(SessionNotFound)
    else if active[claims.sessionId].revoked then Err(Revoked)
    else if active[claims.sessionId].stepUpRequired then
      Err(StepUpRequired(active[claims.sessionId].challenge))
    else if claims.binding
            != Binding(OrElse(ipAddress, LOCALHOST), OrElse(device, claims.binding.deviceFingerprint)) then
      Err(BindingMismatch)
    else Ok(claims)
  }

  // ----- The invariant -----

  /** A session holds the last token of its chain and remembers the one before it. */
  ghost predicate SessionInv(r: Registry, sid: SessionId)
    requires sid in r.active && sid in r.chain
  {
    var session, last := r.active[sid], |r.chain[sid]| - 1;
    && session.claims.sessionId == sid
    && last >= 0
    && session.refreshToken == r.chain[sid][last]
    && Stands(r, session.refreshToken, Issue(sid, last))
    && (session.previous.None? <==> last == 0)
    && (session.previous.Some? ==> Stands(r, session.previous.value.token, Issue(sid, last - 1)))
    && (session.challenge.Some? && !session.revoked ==> session.stepUpRequired)
  }

  predicate Stands(r: Registry, token: Token, issue: Issue) {
    token in r.issued && r.issued[token] == issue
  }

  ghost predicate TokenInv(r: Registry, token: Token)
    requires token in r.issued
  {
    var Issue(sid, place) := r.issued[token];
    sid in r.active && sid in r.chain && place < |r.chain[sid]| && r.chain[sid][place] == token
  }

  /** Every token ever issued stands at exactly one place of exactly one session's chain. */
  ghost predicate Inv(r: Registry) {
    && r.chain.Keys == r.active.Keys
    && (forall sid | sid in r.active :: SessionInv(r, sid))
    && (forall token | token in r.issued :: TokenInv(r, token))
  }

  /** How many tokens of its session were issued after this one. */
  ghost function Age(r: Registry, token: Token): nat
    requires Inv(r) && token in r.issued
  {
    assert TokenInv(r, token);
    |r.chain[r.issued[token].session]| - 1 - r.issued[token].place
  }

  /** A token that was issued and has since been rotated out. */
  ghost predicate Spent(r: Registry, token: Token)
    requires Inv(r)
  {
    token in r.issued && Age(r, token) > 0
  }

  lemma CurrentTokensAreUnique(r: Registry, sid: SessionId, other: SessionId)
    requires Inv(r) && sid in r.active && other in r.active
    ensures r.active[sid].refreshToken == r.active[other].refreshToken ==> sid == other
    ensures r.active[sid].previous != Some(Fingerprint(r.active[other].refreshToken))
    ensures r.active[sid].previous.Some? && r.active[sid].previous == r.active[other].previous ==> sid == other
  {
    assert SessionInv(r, sid) && SessionInv(r, other);
  }

  /** With the invariant the scan has at most one answer, whatever the order of the map. */
  lemma HolderIsUnique(r: Registry, sid: SessionId, token: Token)
    requires Inv(r) && Holds(r, sid, token)
    ensures Holder(r, token) == Some(sid)
  {
    CurrentTokensAreUnique(r, sid, Holder(r, token).value);
  }

  lemma ReplayVictimIsUnique(r: Registry, sid: SessionId, token: Token)
    requires Inv(r) && Replays(r, sid, token)
    ensures ReplayVictim(r, token) == Some(sid)
  {
    CurrentTokensAreUnique(r, sid, ReplayVictim(r, token).value);
  }

  // ----- Every critical section keeps the invariant -----

  /** Nothing was forgotten, no chain lost its beginning, and revoked sessions stayed as they were. */
  ghost predicate Extends(r: Registry, r': Registry) {
    && r.active.Keys <= r'.active.Keys
    && r'.chain.Keys == r'.active.Keys
    && (forall sid | sid in r.active && sid in r'.active && r.active[sid].revoked ::
          && r'.active[sid].revoked
          && r'.active[sid].refreshToken == r.active[sid].refreshToken)
    && (forall sid | sid in r.chain && sid in r'.chain :: r.chain[sid] <= r'.chain[sid])
    && (forall token | token in r.issued :: Stands(r', token, r.issued[token]))
  }

  lemma SessionKept(r: Registry, r': Registry, sid: SessionId)
    requires Inv(r) && Extends(r, r') && sid in r.active
    requires r'.chain[sid] == r.chain[sid]
    requires r'.active[sid].claims.sessionId == sid
    requires r'.active[sid].refreshToken == r.active[sid].refreshToken
    requires r'.active[sid].previous == r.active[sid].previous
    requires r'.active[sid].challenge.Some? && !r'.active[sid].revoked ==> r'.active[sid].stepUpRequired
    ensures SessionInv(r', sid)
  {
    assert SessionInv(r, sid);
  }

  lemma TokenKept(r: Registry, r': Registry, token: Token)
    requires Inv(r) && Extends(r, r') && token in r.issued
    ensures Stands(r', token, r.issued[token]) && TokenInv(r', token)
  {
    assert TokenInv(r, token);
  }

  lemma NamedByKey(r: Registry, sid: SessionId)
    requires Inv(r) && sid in r.active
    ensures sid in r.chain && SessionInv(r, sid)
  {
  }

  lemma RotationExtends(r: Registry, sid: SessionId, session: ActiveSession)
    requires r.chain.Keys == r.active.Keys && sid in r.active && session.refreshToken !in r.issued
    requires !r.active[sid].revoked
    ensures Extends(r, Rotated(r, sid, session))
  {
  }

  lemma OpeningExtends(r: Registry, sid: SessionId, token: Token, login: PendingLogin, now: int)
    requires r.chain.Keys == r.active.Keys && sid !in r.active && token !in r.issued
    ensures Extends(r, OpenSession(r, sid, token, login, now))
  {
  }

  lemma ExtendsItself(r: Registry, pending: map<PendingId, PendingLogin>)
    requires Inv(r)
    ensures Extends(r, r) && Inv(r.(pending := pending)) && Extends(r, r.(pending := pending))
  {
    var r' := r.(pending := pending);
    assert Extends(r, r');
    forall sid | sid in r'.active && sid in r'.chain ensures SessionInv(r', sid) {
      NamedByKey(r, sid);
      SessionKept(r, r', sid);
    }
    InvOfExtension(r, r');
  }

  /** The invariant of a registry that extends another, from its sessions and its new tokens. */
  lemma InvOfExtension(r: Registry, r': Registry)
    requires Inv(r) && Extends(r, r')
    requires forall sid | sid in r'.active && sid in r'.chain :: SessionInv(r', sid)
    requires forall token | token in r'.issued && token !in r.issued :: TokenInv(r', token)
    ensures Inv(r')
  {
    forall token | token in r'.issued ensures TokenInv(r', token) {
      if token in r.issued { TokenKept(r, r', token); }
    }
  }

  /** Putting a session back with its token and its predecessor unchanged. */
  lemma PutExtends(r: Registry, sid: SessionId, session: ActiveSession)
    requires r.chain.Keys == r.active.Keys && sid in r.active
    requires session.refreshToken == r.active[sid].refreshToken && (r.active[sid].revoked ==> session.revoked)
    ensures Extends(r, Put(r, sid, session))
  {
  }

  lemma PutKeepsInv(r: Registry, sid: SessionId, session: ActiveSession)
    requires Inv(r) && sid in r.active
    requires session.claims.sessionId == sid
    requires session.refreshToken == r.active[sid].refreshToken && session.previous == r.active[sid].previous
    requires session.challenge.Some? && !session.revoked ==> session.stepUpRequired
    requires r.active[sid].revoked ==> session.revoked
    ensures Inv(Put(r, sid, session)) && Extends(r, Put(r, sid, session))
  {
    var r' := Put(r, sid, session);
    assert r.chain.Keys == r.active.Keys;
    hide Inv, Extends, SessionInv, Stands;
    PutExtends(r, sid, session);
    forall other | other in r'.active && other in r'.chain ensures SessionInv(r', other) {
      NamedByKey(r, other);
      SessionKept(r, r', other);
    }
    InvOfExtension(r, r');
  }

  lemma ReplayScanKeepsInv(r: Registry, token: Token)
    requires Inv(r)
    ensures Inv(ReplayScan(r, token).0) && Extends(r, ReplayScan(r, token).0)
  {
    hide Inv, Extends;
    ExtendsItself(r, r.pending);
    var victim := ReplayVictim(r, token);
    if victim.Some? {
      NamedByKey(r, victim.value);
      PutKeepsInv(r, victim.value, r.active[victim.value].(revoked := true));
    }
  }

  /** Storing a session under a token that was never issued before. */
  lemma RotatedSession(r: Registry, sid: SessionId, session: ActiveSession)
    requires Inv(r) && sid in r.active
    requires session.claims.sessionId == sid
    requires session.refreshToken !in r.issued
    requires session.previous == Some(Fingerprint(r.active[sid].refreshToken))
    requires session.challenge.Some? && !session.revoked ==> session.stepUpRequired
    ensures sid in r.chain && SessionInv(Rotated(r, sid, session), sid)
  {
    assert SessionInv(r, sid);
  }

  lemma RotatedKeepsInv(r: Registry, sid: SessionId, session: ActiveSession)
    requires Inv(r) && sid in r.active
    requires session.claims.sessionId == sid
    requires session.refreshToken !in r.issued
    requires session.previous == Some(Fingerprint(r.active[sid].refreshToken))
    requires session.challenge.Some? && !session.revoked ==> session.stepUpRequired
    requires !r.active[sid].revoked
    ensures Inv(Rotated(r, sid, session)) && Extends(r, Rotated(r, sid, session))
  {
    var r' := Rotated(r, sid, session);
    assert r.chain.Keys == r.active.Keys;
    hide Inv, Extends, SessionInv;
    RotationExtends(r, sid, session);
    assert SessionInv(r', sid) by { RotatedSession(r, sid, session); }
    forall other | other in r'.active && other in r'.chain ensures SessionInv(r', other) {
      NamedByKey(r, other);
      if other != sid { SessionKept(r, r', other); }
    }
    InvOfExtension(r, r');
  }

  lemma RefreshRotateKeepsInv(r: Registry, token: Token, newToken: Token, now: int, signed: bool)
    requires Inv(r) && newToken !in r.issued
    ensures r.chain.Keys == r.active.Keys
    ensures Inv(RefreshRotate(r, token, newToken, now, signed).0)
    ensures Extends(r, RefreshRotate(r, token, newToken, now, signed).0)
  {
    assert r.chain.Keys == r.active.Keys;
    hide Inv, Extends;
    ExtendsItself(r, r.pending);
    var holder := Holder(r, token);
    if holder.Some? {
      var session := r.active[holder.value];
      NamedByKey(r, holder.value);
      if !session.stepUpRequired {
        RotatedKeepsInv(r, holder.value, Reissued(session, newToken, now));
      }
    }
  }

  lemma StepUpVerifyKeepsInv(r: Registry, token: Token, account: AccountCheck, proofOk: bool,
                             newToken: Token, now: int, signed: bool)
    requires Inv(r) && newToken !in r.issued
    ensures r.chain.Keys == r.active.Keys
    ensures Inv(StepUpVerify(r, token, account, proofOk, newToken, now, signed).0)
    ensures Extends(r, StepUpVerify(r, token, account, proofOk, newToken, now, signed).0)
  {
    assert r.chain.Keys == r.active.Keys;
    hide Inv, Extends;
    ExtendsItself(r, r.pending);
    var (r', reply) := StepUpVerify(r, token, account, proofOk, newToken, now, signed);
    var holder := Holder(r, token);
    if holder.Some? && r' != r {
      NamedByKey(r, holder.value);
      RotatedKeepsInv(r, holder.value, r'.active[holder.value]);
    }
  }

  lemma LogoutKeepsInv(r: Registry, token: Token)
    requires Inv(r)
    ensures Inv(Logout(r, token).0) && Extends(r, Logout(r, token).0)
  {
    hide Inv, Extends;
    ExtendsItself(r, r.pending);
    var holder := Holder(r, token);
    if holder.Some? {
      NamedByKey(r, holder.value);
      PutKeepsInv(r, holder.value, r.active[holder.value].(revoked := true));
    }
  }

  lemma AssessPostureKeepsInv(r: Registry, token: Token, report: Posture, score: nat,
                              response: AdaptiveResponse, challenge: Option<Challenge>)
    requires Inv(r)
    ensures Inv(AssessPosture(r, token, report, score, response, challenge).0)
    ensures Extends(r, AssessPosture(r, token, report, score, response, challenge).0)
  {
    hide Inv, Extends;
    ExtendsItself(r, r.pending);
    var (r', reply) := AssessPosture(r, token, report, score, response, challenge);
    var holder := Holder(r, token);
    if holder.Some? {
      NamedByKey(r, holder.value);
      PutKeepsInv(r, holder.value, r'.active[holder.value]);
    }
  }

  /** Rewriting every session in a way that leaves its identity and tokens alone. */
  lemma RewriteKeepsInv(r: Registry, active: map<SessionId, ActiveSession>)
    requires Inv(r) && active.Keys == r.active.Keys
    requires forall sid | sid in active ::
               && active[sid].claims == r.active[sid].claims
               && active[sid].refreshToken == r.active[sid].refreshToken
               && active[sid].previous == r.active[sid].previous
               && (r.active[sid].revoked ==> active[sid].revoked)
               && (active[sid].challenge.Some? && !active[sid].revoked ==> active[sid].stepUpRequired)
    ensures Inv(r.(active := active)) && Extends(r, r.(active := active))
  {
    var r' := r.(active := active);
    assert Extends(r, r');
    hide Inv, Extends, SessionInv;
    forall other | other in r'.active && other in r'.chain ensures SessionInv(r', other) {
      NamedByKey(r, other);
      SessionKept(r, r', other);
    }
    InvOfExtension(r, r');
  }

  lemma RevokeUserKeepsInv(r: Registry, user: UserId)
    requires Inv(r)
    ensures Inv(RevokeUser(r, user)) && Extends(r, RevokeUser(r, user))
  {
    hide Inv, Extends;
    forall sid | sid in r.active
      ensures r.active[sid].challenge.Some? && !r.active[sid].revoked ==> r.active[sid].stepUpRequired
    {
      NamedByKey(r, sid);
    }
    RewriteKeepsInv(r, RevokedFor(r.active, user));
  }

  lemma OpenedSession(r: Registry, sid: SessionId, token: Token, login: PendingLogin, now: int)
    ensures SessionInv(OpenSession(r, sid, token, login, now), sid)
  {
  }

  lemma OpenSessionKeepsInv(r: Registry, sid: SessionId, token: Token, login: PendingLogin, now: int)
    requires Inv(r) && sid !in r.active && token !in r.issued
    ensures Inv(OpenSession(r, sid, token, login, now)) && Extends(r, OpenSession(r, sid, token, login, now))
  {
    var r' := OpenSession(r, sid, token, login, now);
    assert r.chain.Keys == r.active.Keys;
    hide Inv, Extends, SessionInv;
    OpeningExtends(r, sid, token, login, now);
    assert SessionInv(r', sid) by { OpenedSession(r, sid, token, login, now); }
    forall other | other in r'.active && other in r'.chain ensures SessionInv(r', other) {
      if other != sid {
        NamedByKey(r, other);
        SessionKept(r, r', other);
      }
    }
    InvOfExtension(r, r');
  }

  /** A session that accepts requests. */
  predicate IsOpen(active: map<SessionId, ActiveSession>, sid: SessionId) {
    sid in active && !active[sid].revoked && !active[sid].stepUpRequired
  }

  /** A request is accepted exactly when its token has not expired, its session is open, and neither its
      address nor the device it names, if it names one, differs from those the token was issued for; a
      request without a forwarded address counts as local. A refusal names the first of these that fails. */
  lemma AccessOutcome(active: map<SessionId, ActiveSession>, claims: Claims, now: int,
                      ipAddress: Option<string>, device: Option<string>)
    ensures Authenticate(active, claims, now, ipAddress, device) == Ok(claims) <==>
              && now < claims.expiresAt && IsOpen(active, claims.sessionId)
              && (if ipAddress.Some? then ipAddress.value else "127.0.0.1") == claims.binding.ipAddress
              && device in {None, Some(claims.binding.deviceFingerprint)}
    ensures Authenticate(active, claims, now, ipAddress, device).Ok? ==>
              Authenticate(active, claims, now, ipAddress, device) == Ok(claims)
    ensures var reply, sid := Authenticate(active, claims, now, ipAddress, device), claims.sessionId;
            && (reply == Err(TokenExpired) <==> claims.expiresAt <= now)
            && (reply == Err(SessionNotFound) <==> now < claims.expiresAt && sid !in active)
            && (reply == Err(Revoked) <==> now < claims.expiresAt && sid in active && active[sid].revoked)
            && (now < claims.expiresAt && sid in active && !active[sid].revoked ==>
                  && (reply == Err(StepUpRequired(active[sid].challenge)) <==> active[sid].stepUpRequired)
                  && (reply == Err(BindingMismatch) <==> !active[sid].stepUpRequired && reply.Err?))
  {
    assert claims.binding == Binding(claims.binding.ipAddress, claims.binding.deviceFingerprint);
  }

  // ----- Sessions keep their user -----

  ghost predicate SameUsers(r: Registry, r': Registry) {
    forall sid | sid in r.active :: sid in r'.active && r'.active[sid].claims.userId == r.active[sid].claims.userId
  }

  lemma RefreshKeepsUsers(r: Registry, token: Token, newToken: Token, now: int, signed: bool)
    requires r.chain.Keys == r.active.Keys
    ensures SameUsers(r, RefreshRotate(r, token, newToken, now, signed).0)
    ensures RefreshRotate(r, token, newToken, now, signed).0.pending == r.pending
  {
  }

  lemma StepUpKeepsUsers(r: Registry, token: Token, account: AccountCheck, proofOk: bool,
                         newToken: Token, now: int, signed: bool)
    requires r.chain.Keys == r.active.Keys
    ensures SameUsers(r, StepUpVerify(r, token, account, proofOk, newToken, now, signed).0)
    ensures StepUpVerify(r, token, account, proofOk, newToken, now, signed).0.pending == r.pending
  {
  }

  lemma ScanKeepsUsers(r: Registry, token: Token)
    ensures SameUsers(r, ReplayScan(r, token).0) && ReplayScan(r, token).0.pending == r.pending
  {
  }

  lemma LogoutKeepsUsers(r: Registry, token: Token)
    ensures SameUsers(r, Logout(r, token).0) && Logout(r, token).0.pending == r.pending
  {
  }

  lemma PostureKeepsUsers(r: Registry, token: Token, report: Posture, score: nat,
                          response: AdaptiveResponse, challenge: Option<Challenge>)
    ensures SameUsers(r, AssessPosture(r, token, report, score, response, challenge).0)
    ensures AssessPosture(r, token, report, score, response, challenge).0.pending == r.pending
  {
  }

  lemma RevokeKeepsUsers(r: Registry, user: UserId)
    ensures SameUsers(r, RevokeUser(r, user))
  {
  }

  // ----- What a token presented to an undisturbed refresh does -----

  /** The whole refresh when no other request runs between its two critical sections. */
  ghost function Refresh(r: Registry, token: Token, newToken: Token, now: int, signed: bool)
    : (Registry, Result<TokenPair, Denial>)
    requires r.chain.Keys == r.active.Keys
  {
    var (scanned, replayed) := ReplayScan(r, token);
    if replayed then (scanned, Err(ReplayDetected)) else RefreshRotate(scanned, token, newToken, now, signed)
  }

  /** The complete table: the token last issued to a live session rotates it (or is held back by
      step-up), the one before it revokes it, and any other string changes nothing. A rotated session
      has the new token and remembers the presented one, its claims are good for 15 more minutes, and
      its risk score and posture stay; it is rotated even when the new access token cannot be signed. */
  lemma RefreshOutcome(r: Registry, token: Token, newToken: Token, now: int, signed: bool)
    requires Inv(r)
    ensures var (r', reply) := Refresh(r, token, newToken, now, signed);
            if token !in r.issued then r' == r && reply == Err(SessionNotFound)
            else
              var sid := r.issued[token].session;
              sid in r.active &&
              if r.active[sid].revoked || Age(r, token) > 1 then r' == r && reply == Err(SessionNotFound)
              else if Age(r, token) == 1 then
                r' == r.(active := r.active[sid := r.active[sid].(revoked := true)]) && reply == Err(ReplayDetected)
              else if r.active[sid].stepUpRequired then
                r' == r && reply == Err(StepUpRequired(r.active[sid].challenge))
              else
                var was := r.active[sid];
                var claims := Claims(sid, was.claims.userId, was.claims.tenantId, now, now + 15, was.claims.binding);
                && r'.pending == r.pending
                && r'.active == r.active[sid := ActiveSession(claims, newToken, Some(Fingerprint(token)), was.riskScore,
                                                              was.posture, false, false, was.challenge)]
                && reply == if signed then Ok(TokenPair(sid, claims, newToken)) else Err(SigningFailed)
  {
    assert r.chain.Keys == r.active.Keys;
    if token !in r.issued {
      NobodyKnows(r, token);
    } else {
      var sid := r.issued[token].session;
      OnlyTheOwnerKnows(r, token);
      assert SessionInv(r, sid);
      if Holds(r, sid, token) { HolderIsUnique(r, sid, token); }
      if Replays(r, sid, token) { ReplayVictimIsUnique(r, sid, token); }
    }
  }

  /** The token was rotated out of a live session by that session's last rotation. */
  ghost predicate OneBehind(r: Registry, token: Token)
    requires Inv(r)
  {
    token in r.issued && Age(r, token) == 1
    && r.issued[token].session in r.active && !r.active[r.issued[token].session].revoked
  }

  /** The replay scan detects exactly the tokens that are one behind in a live session, and revokes that
      session and no other. */
  lemma ScanDetectsExactly(r: Registry, token: Token)
    requires Inv(r)
    ensures ReplayScan(r, token).1 <==> OneBehind(r, token)
    ensures ReplayScan(r, token).0
         == if !OneBehind(r, token) then r
            else r.(active := r.active[r.issued[token].session := r.active[r.issued[token].session].(revoked := true)])
  {
    if token in r.issued { OnlyTheOwnerKnows(r, token); } else { NobodyKnows(r, token); }
    hide Inv;
  }

  /** A live session's current token. */
  ghost predicate IsCurrent(r: Registry, token: Token)
    requires Inv(r)
  {
    token in r.issued && Age(r, token) == 0
    && r.issued[token].session in r.active && !r.active[r.issued[token].session].revoked
  }

  /** Step-up goes through for the current token of a live session that is held back with a challenge
      and whose registered owner proves it, and for nothing else. It then clears the step-up, caps the
      risk score at 25 and rotates the token, even when the new access token cannot be signed. A refused
      step-up changes nothing, and its answer names the first condition that fails. */
  lemma StepUpOutcome(r: Registry, token: Token, account: AccountCheck, proofOk: bool,
                      newToken: Token, now: int, signed: bool)
    requires Inv(r)
    ensures r.chain.Keys == r.active.Keys
    ensures var (r', reply) := StepUpVerify(r, token, account, proofOk, newToken, now, signed);
            if !IsCurrent(r, token) then r' == r && reply == Err(SessionNotFound)
            else
              var sid := r.issued[token].session;
              var was := r.active[sid];
              if was.stepUpRequired && was.challenge.Some? && account.Registered? && proofOk then
                var claims := Claims(sid, was.claims.userId, was.claims.tenantId, now, now + 15, was.claims.binding);
                && r'.pending == r.pending
                && r'.active == r.active[sid := ActiveSession(claims, newToken, Some(Fingerprint(token)),
                                                              if was.riskScore > 25 then 25 else was.riskScore,
                                                              was.posture, false, false, None)]
                && reply == if signed then Ok(TokenPair(sid, claims, newToken)) else Err(SigningFailed)
              else
                && r' == r
                && (reply == Err(StepUpNotRequired) <==> !was.stepUpRequired)
                && (reply == Err(ChallengeNotFound) <==> was.stepUpRequired && was.challenge.None?)
                && (was.stepUpRequired && was.challenge.Some? ==>
                      && (reply == Err(AccountNotFound) <==> account.NoAccount?)
                      && (reply == Err(MissingRegistration) <==> account.NoRegistration?)
                      && (reply == Err(InvalidProof) <==> account.Registered? && !proofOk))
  {
    assert r.chain.Keys == r.active.Keys;
    if token in r.issued { OnlyTheOwnerKnows(r, token); } else { NobodyKnows(r, token); }
    var found := Holder(r, token);
    if found.Some? { assert SessionInv(r, found.value); }
    hide Inv;
  }

  /** Logging out ends exactly the live session whose current token is presented. */
  lemma LogoutOutcome(r: Registry, token: Token)
    requires Inv(r)
    ensures var (r', reply) := Logout(r, token);
            if IsCurrent(r, token) then
              var sid := r.issued[token].session;
              reply == Ok(()) && r' == r.(active := r.active[sid := r.active[sid].(revoked := true)])
            else reply == Err(SessionNotFound) && r' == r
  {
    if token in r.issued { OnlyTheOwnerKnows(r, token); } else { NobodyKnows(r, token); }
    hide Inv;
  }

  /** A posture report is about the live session whose current token it presents, and changes no other.
      It always stores posture and score. One that allows also ends a step-up, one that terminates also
      revokes, and one that asks for step-up demands it under the new challenge; without a challenge it
      is not answered, and the session is held back exactly if it was before. */
  lemma PostureOutcome(r: Registry, token: Token, report: Posture, score: nat,
                       response: AdaptiveResponse, challenge: Option<Challenge>)
    requires Inv(r)
    ensures var (r', reply) := AssessPosture(r, token, report, score, response, challenge);
            if !IsCurrent(r, token) then r' == r && reply == None
            else
              var sid := r.issued[token].session;
              && sid in r'.active && r' == r.(active := r.active[sid := r'.active[sid]])
              && var was, session := r.active[sid], r'.active[sid];
              && session.posture == Some(report) && session.riskScore == score
              && session.claims == was.claims
              && session.refreshToken == token && session.previous == was.previous
              && (session.revoked <==> response.TerminateSession?)
              && (if response.StepUpAuth? && challenge.Some? then session.stepUpRequired && session.challenge == challenge
                  else if response.StepUpAuth? then
                    session.stepUpRequired == was.stepUpRequired && session.challenge == was.challenge
                  else !session.stepUpRequired && session.challenge == None)
              && reply == if response.StepUpAuth? && challenge.None? then None else Some(session)
  {
    if token in r.issued { OnlyTheOwnerKnows(r, token); } else { NobodyKnows(r, token); }
    hide Inv;
  }

  /** Revoking the sessions of a user revokes exactly those, and changes nothing else of any session. */
  lemma RevokeUserOutcome(r: Registry, user: UserId)
    ensures var r' := RevokeUser(r, user);
            && r' == r.(active := r'.active) && r'.active.Keys == r.active.Keys
            && forall sid | sid in r.active ::
                 && r'.active[sid] == r.active[sid].(revoked := r'.active[sid].revoked)
                 && (r'.active[sid].revoked <==> r.active[sid].revoked || r.active[sid].claims.userId == user)
  {
  }

  /** A session is opened for the user, the tenant and the place of the login it comes from, live, with no
      risk and no step-up. Its requests are accepted for 15 minutes, from that place alone. */
  lemma OpenOutcome(r: Registry, sid: SessionId, token: Token, login: PendingLogin, now: int)
    ensures var r' := OpenSession(r, sid, token, login, now);
            && r'.pending == r.pending
            && r'.active == r.active[sid := r'.active[sid]]
            && var session := r'.active[sid];
            && Holds(r', sid, token) && session.previous == None
            && session.claims.sessionId == sid && session.claims.issuedAt == now
            && session.claims.userId == login.userId && session.claims.tenantId == login.tenantId
            && session.riskScore == 0 && session.posture == None
            && !session.stepUpRequired && session.challenge == None
            && forall time, ip, device ::
                 Authenticate(r'.active, session.claims, time, Some(ip), Some(device)).Ok? <==>
                   time < now + 15 && Binding(ip, device) == login.binding
  {
  }

  lemma NobodyKnows(r: Registry, token: Token)
    requires Inv(r) && token !in r.issued
    ensures Holder(r, token) == None && ReplayVictim(r, token) == None
  {
    forall sid ensures !Holds(r, sid, token) && !Replays(r, sid, token) {
      if sid in r.active { assert SessionInv(r, sid); }
    }
  }

  /** A token's age in its own session says exactly whether it is held or replayable, and no
      other session knows it. */
  lemma OnlyTheOwnerKnows(r: Registry, token: Token)
    requires Inv(r) && token in r.issued
    ensures var sid := r.issued[token].session;
            && sid in r.active
            && (Holds(r, sid, token) <==> Age(r, token) == 0 && !r.active[sid].revoked)
            && (Replays(r, sid, token) <==> Age(r, token) == 1 && !r.active[sid].revoked)
            && (forall other :: other != sid ==> !Holds(r, other, token) && !Replays(r, other, token))
  {
    var sid := r.issued[token].session;
    assert TokenInv(r, token);
    assert SessionInv(r, sid);
    if Age(r, token) == 1 {
      assert TokenInv(r, r.active[sid].previous.value.token);
    }
    forall other | other != sid ensures !Holds(r, other, token) && !Replays(r, other, token) {
      if other in r.active { assert SessionInv(r, other); }
    }
  }
}
