/** Whole runs of the session machine. Requests interleave at their critical sections, and every
    writer of the registry takes part: login, MFA, refresh, step-up, logout, posture, directory
    and UEBA. */
module SessionSystem {
  import opened Wrappers
  import opened SessionModel
  import opened Mitigation
  import Alerts = UebaAlerts

  type RequestId = nat

  /** Where a request stands between two of its critical sections. */
  datatype Stage =
    | Verifying(id: PendingId, login: PendingLogin)
    | Issuing(id: PendingId, login: PendingLogin)
    | Refreshing(token: Token)

  /** What has become of a pending login. */
  datatype Fate = Waiting | Taken(request: RequestId) | Opened(session: SessionId) | Dropped

  datatype World = World(registry: Registry, requests: map<RequestId, Stage>, fates: map<PendingId, Fate>)

  datatype Event =
    | Login(id: PendingId, login: PendingLogin)
    | BeginVerify(request: RequestId, id: PendingId)
    | Consume(request: RequestId, proofOk: bool)
    | IssueSession(request: RequestId, sid: SessionId, token: Token, now: int, signed: bool)
    | Abandon(request: RequestId)
    | Scan(request: RequestId, token: Token)
    | Rotate(request: RequestId, newToken: Token, now: int, signed: bool)
    | StepUp(token: Token, account: AccountCheck, proofOk: bool, newToken: Token, now: int, signed: bool)
    | LogOut(token: Token)
    | ReportPosture(token: Token, report: Posture, score: nat, response: AdaptiveResponse,
                    challenge: Option<Challenge>)
    | RevokeSessions(user: UserId)
    | Mitigate(actions: Actions, persistent: bool)

  /** A request is where the event needs it, and newly drawn identifiers are fresh. */
  ghost predicate Possible(w: World, e: Event) {
    match e
    case Login(id, _) => id !in w.fates
    case BeginVerify(request, _) => request !in w.requests
    case Consume(request, _) => request in w.requests && w.requests[request].Verifying?
    case IssueSession(request, sid, token, _, _) =>
      request in w.requests && w.requests[request].Issuing?
      && sid !in w.registry.active && token !in w.registry.issued
    case Abandon(request) => request in w.requests
    case Scan(request, _) => request !in w.requests
    case Rotate(request, newToken, _, _) =>
      request in w.requests && w.requests[request].Refreshing? && newToken !in w.registry.issued
    case StepUp(_, _, _, newToken, _, _) => newToken !in w.registry.issued
    case LogOut(_) => true
    case ReportPosture(_, _, _, _, _) => true
    case RevokeSessions(_) => true
    case Mitigate(_, _) => true
  }

  ghost function Step(w: World, e: Event): World
    requires Possible(w, e) && w.registry.chain.Keys == w.registry.active.Keys
  {
    var r := w.registry;
    match e
    case Login(id, login) =>
      w.(registry := r.(pending := r.pending[id := login]), fates := w.fates[id := Waiting])
    case BeginVerify(request, id) =>
      if id in r.pending then w.(requests := w.requests[request := Verifying(id, r.pending[id])]) else w
    case Consume(request, proofOk) =>
      var id, ended := w.requests[request].id, w.(requests := w.requests - {request});
      if !proofOk || id !in r.pending then ended
      else World(r.(pending := r.pending - {id}),
                 w.requests[request := Issuing(id, r.pending[id])],
                 w.fates[id := Taken(request)])
    case IssueSession(request, sid, token, now, signed) =>
      var stage, ended := w.requests[request], w.(requests := w.requests - {request});
      if !signed then ended.(fates := w.fates[stage.id := Dropped])
      else ended.(registry := OpenSession(r, sid, token, stage.login, now), fates := w.fates[stage.id := Opened(sid)])
    case Abandon(request) =>
      w.(requests := w.requests - {request},
         fates := if w.requests[request].Issuing? then w.fates[w.requests[request].id := Dropped] else w.fates)
    case Scan(request, token) =>
      var (r', replayed) := ReplayScan(r, token);
      if replayed then w.(registry := r') else w.(requests := w.requests[request := Refreshing(token)])
    case Rotate(request, newToken, now, signed) =>
      var (r', _) := RefreshRotate(r, w.requests[request].token, newToken, now, signed);
      w.(registry := r', requests := w.requests - {request})
    case StepUp(token, account, proofOk, newToken, now, signed) =>
      w.(registry := StepUpVerify(r, token, account, proofOk, newToken, now, signed).0)
    case LogOut(token) => w.(registry := Logout(r, token).0)
    case ReportPosture(token, report, score, response, challenge) =>
      w.(registry := AssessPosture(r, token, report, score, response, challenge).0)
    case RevokeSessions(user) => w.(registry := RevokeUser(r, user))
    case Mitigate(actions, persistent) =>
      w.(registry := r.(active := TreatedAll(r.active, actions, persistent)))
  }

  /** The refresh token an event asks to exchange for a new pair. */
  function Presented(w: World, e: Event): Option<Token> {
    match e
    case Rotate(request, _, _, _) =>
      if request in w.requests && w.requests[request].Refreshing? then Some(w.requests[request].token) else None
    case StepUp(token, _, _, _, _, _) => Some(token)
    case _ => None
  }

  ghost function Reply(w: World, e: Event): Result<TokenPair, Denial>
    requires Possible(w, e) && (e.Rotate? || e.StepUp?) && w.registry.chain.Keys == w.registry.active.Keys
  {
    match e
    case Rotate(request, newToken, now, signed) =>
      RefreshRotate(w.registry, w.requests[request].token, newToken, now, signed).1
    case StepUp(token, account, proofOk, newToken, now, signed) =>
      StepUpVerify(w.registry, token, account, proofOk, newToken, now, signed).1
  }

  // ----- The invariant of the system -----

  /** Pending logins wait, requests about to issue own the login they took, and each session owns
      the login it was opened from. */
  ghost predicate LoginsInv(w: World) {
    && (forall id | id in w.registry.pending :: id in w.fates && w.fates[id] == Waiting)
    && (forall request | request in w.requests && w.requests[request].Issuing? ::
          w.requests[request].id in w.fates && w.fates[w.requests[request].id] == Taken(request))
    && (forall id | id in w.fates && w.fates[id].Opened? :: w.fates[id].session in w.registry.active)
  }

  ghost predicate WorldInv(w: World) {
    Inv(w.registry) && LoginsInv(w)
  }

  lemma EmptyWorld()
    ensures WorldInv(World(Registry(map[], map[], map[], map[]), map[], map[]))
  {
  }

  lemma StepKeepsRegistryInv(w: World, e: Event)
    requires Inv(w.registry) && Possible(w, e)
    ensures w.registry.chain.Keys == w.registry.active.Keys
    ensures Inv(Step(w, e).registry) && Extends(w.registry, Step(w, e).registry)
  {
    assert w.registry.chain.Keys == w.registry.active.Keys;
    hide Inv, Extends, Possible;
    var r := w.registry;
    match e
    case LogOut(token) => LogoutKeepsInv(r, token);
    case ReportPosture(token, report, score, response, challenge) =>
      AssessPostureKeepsInv(r, token, report, score, response, challenge);
    case RevokeSessions(user) => RevokeUserKeepsInv(r, user);
    case Mitigate(actions, persistent) => PassKeepsInv(r, actions, persistent);
    case Scan(_, token) =>
      ExtendsItself(r, r.pending);
      ReplayScanKeepsInv(r, token);
    case _ => TokenStepKeepsInv(w, e);
  }

  lemma TokenStepKeepsInv(w: World, e: Event)
    requires Inv(w.registry) && Possible(w, e) && w.registry.chain.Keys == w.registry.active.Keys
    requires !e.LogOut? && !e.ReportPosture? && !e.RevokeSessions? && !e.Mitigate? && !e.Scan?
    ensures Inv(Step(w, e).registry) && Extends(w.registry, Step(w, e).registry)
  {
    hide Inv, Extends, RefreshRotate, StepUpVerify, OpenSession;
    var r := w.registry;
    if e.IssueSession? {
      ExtendsItself(r, r.pending);
      OpenSessionKeepsInv(r, e.sid, e.token, w.requests[e.request].login, e.now);
    } else if e.Rotate? {
      RefreshRotateKeepsInv(r, w.requests[e.request].token, e.newToken, e.now, e.signed);
    } else if e.StepUp? {
      StepUpVerifyKeepsInv(r, e.token, e.account, e.proofOk, e.newToken, e.now, e.signed);
    } else {
      ExtendsItself(r, Step(w, e).registry.pending);
    }
  }

  lemma StepKeepsLogins(w: World, e: Event)
    requires LoginsInv(w) && Possible(w, e) && w.registry.chain.Keys == w.registry.active.Keys
    ensures LoginsInv(Step(w, e))
  {
    NoSessionForgotten(w, e);
    if e.Login? || e.Consume? || e.IssueSession? || e.Abandon? {
      hide OpenSession;
    } else {
      QuietKeepsFates(w, e);
      QuietKeepsIssuers(w, e);
      hide Step, Possible;
    }
  }

  /** No event removes a session, and only logins and verifications touch the pending logins. */
  lemma NoSessionForgotten(w: World, e: Event)
    requires Possible(w, e) && w.registry.chain.Keys == w.registry.active.Keys
    ensures w.registry.active.Keys <= Step(w, e).registry.active.Keys
    ensures !e.Login? && !e.Consume? ==> Step(w, e).registry.pending == w.registry.pending
  {
    var r := w.registry;
    hide RefreshRotate, StepUpVerify, ReplayScan, Logout, AssessPosture;
    match e
    case Scan(_, token) => ScanKeepsUsers(r, token);
    case Rotate(request, newToken, now, signed) => RefreshKeepsUsers(r, w.requests[request].token, newToken, now, signed);
    case StepUp(token, account, proofOk, newToken, now, signed) =>
      StepUpKeepsUsers(r, token, account, proofOk, newToken, now, signed);
    case LogOut(token) => LogoutKeepsUsers(r, token);
    case ReportPosture(token, report, score, response, challenge) =>
      PostureKeepsUsers(r, token, report, score, response, challenge);
    case _ =>
  }

  lemma QuietKeepsIssuers(w: World, e: Event)
    requires Possible(w, e) && w.registry.chain.Keys == w.registry.active.Keys
    requires !(e.Login? || e.Consume? || e.IssueSession? || e.Abandon?)
    ensures forall request | request in Step(w, e).requests && Step(w, e).requests[request].Issuing? ::
              request in w.requests && w.requests[request] == Step(w, e).requests[request]
  {
    hide Holder, ReplayVictim, RefreshRotate, StepUpVerify, Logout, AssessPosture, ReplayScan, RevokeUser, TreatedAll;
  }

  lemma StepKeepsInv(w: World, e: Event)
    requires WorldInv(w) && Possible(w, e)
    ensures w.registry.chain.Keys == w.registry.active.Keys && WorldInv(Step(w, e))
  {
    hide Inv, LoginsInv;
    StepKeepsRegistryInv(w, e);
    StepKeepsLogins(w, e);
  }

  // ----- Runs -----

  ghost predicate IsStep(w: World, e: Event, w': World) {
    Possible(w, e) && w.registry.chain.Keys == w.registry.active.Keys && w' == Step(w, e)
  }

  /** A run from any good world: `worlds[i + 1]` is what `events[i]` makes of `worlds[i]`. */
  ghost predicate IsRun(worlds: seq<World>, events: seq<Event>) {
    && |worlds| == |events| + 1
    && WorldInv(worlds[0])
    && (forall i | 0 <= i < |events| ::
          && Possible(worlds[i], events[i])
          && worlds[i].registry.chain.Keys == worlds[i].registry.active.Keys
          && worlds[i + 1] == Step(worlds[i], events[i]))
  }

  lemma {:induction false} RunKeepsInv(worlds: seq<World>, events: seq<Event>, i: nat)
    requires IsRun(worlds, events) && i < |worlds|
    ensures WorldInv(worlds[i])
  {
    hide WorldInv, Step, Possible;
    if i > 0 {
      RunKeepsInv(worlds, events, i - 1);
      StepKeepsInv(worlds[i - 1], events[i - 1]);
    }
  }

  // ----- Tokens over runs -----

  /** Some session exchanges `token` for another one. */
  ghost predicate Redeems(before: Registry, after: Registry, token: Token) {
    exists sid :: sid in before.active && sid in after.active
                  && before.active[sid].refreshToken == token && after.active[sid].refreshToken != token
  }

  lemma RunStep(worlds: seq<World>, events: seq<Event>, i: nat)
    requires IsRun(worlds, events) && i < |events|
    ensures WorldInv(worlds[i]) && Possible(worlds[i], events[i])
    ensures worlds[i].registry.chain.Keys == worlds[i].registry.active.Keys
    ensures worlds[i + 1] == Step(worlds[i], events[i])
    ensures Inv(worlds[i].registry) && Inv(worlds[i + 1].registry)
    ensures Extends(worlds[i].registry, worlds[i + 1].registry)
  {
    RunKeepsInv(worlds, events, i);
    RunKeepsInv(worlds, events, i + 1);
    hide Inv, Extends, Step, Possible, LoginsInv;
    StepKeepsRegistryInv(worlds[i], events[i]);
  }

  lemma {:induction false} RunExtends(worlds: seq<World>, events: seq<Event>, i: nat, j: nat)
    requires IsRun(worlds, events) && i <= j < |worlds|
    ensures Inv(worlds[i].registry) && Inv(worlds[j].registry)
    ensures Extends(worlds[i].registry, worlds[j].registry)
    decreases j - i
  {
    RunKeepsInv(worlds, events, i);
    RunKeepsInv(worlds, events, j);
    if i == j {
      ExtendsItself(worlds[i].registry, worlds[i].registry.pending);
    } else {
      RunStep(worlds, events, i);
      RunExtends(worlds, events, i + 1, j);
      hide *;
      ExtendsIsTransitive(worlds[i].registry, worlds[i + 1].registry, worlds[j].registry);
    }
  }

  lemma ExtendsIsTransitive(a: Registry, b: Registry, c: Registry)
    requires Extends(a, b) && Extends(b, c) && Inv(a)
    ensures Extends(a, c)
  {
    assert a.chain.Keys == a.active.Keys;
    hide Inv;
  }

  lemma SpentStays(r: Registry, r': Registry, token: Token)
    requires Inv(r) && Inv(r') && Extends(r, r') && Spent(r, token)
    ensures Spent(r', token)
  {
    TokenKept(r, r', token);
  }

  /** Only a session's current token is exchanged, and exchanging it spends it. */
  lemma RedeemingSpends(r: Registry, r': Registry, token: Token)
    requires Inv(r) && Inv(r') && Extends(r, r') && Redeems(r, r', token)
    ensures !Spent(r, token) && Spent(r', token)
  {
    var sid :| sid in r.active && sid in r'.active
               && r.active[sid].refreshToken == token && r'.active[sid].refreshToken != token;
    hide Inv, Extends, Redeems;
    CurrentHasAgeZero(r, sid);
    TokenKept(r, r', token);
    if Age(r', token) == 0 { AgeZeroIsCurrent(r', token); }
  }

  lemma CurrentHasAgeZero(r: Registry, sid: SessionId)
    requires Inv(r) && sid in r.active
    ensures var token := r.active[sid].refreshToken;
            token in r.issued && r.issued[token].session == sid && Age(r, token) == 0
  {
    hide Inv;
    NamedByKey(r, sid);
  }

  lemma AgeZeroIsCurrent(r: Registry, token: Token)
    requires Inv(r) && token in r.issued && Age(r, token) == 0
    ensures var sid := r.issued[token].session;
            sid in r.active && r.active[sid].refreshToken == token
  {
    assert TokenInv(r, token);
    hide Inv;
    NamedByKey(r, r.issued[token].session);
  }

  lemma RevokedStays(r: Registry, r': Registry, sid: SessionId)
    requires Extends(r, r') && sid in r.active && r.active[sid].revoked
    ensures sid in r'.active && r'.active[sid].revoked
  {
  }

  /** In every interleaving no two sessions share a current token or remember the same one, and no
      remembered fingerprint is that of a current token. */
  lemma TokensAlwaysUnique(worlds: seq<World>, events: seq<Event>, i: nat, sid: SessionId, other: SessionId)
    requires IsRun(worlds, events) && i < |worlds|
    requires sid in worlds[i].registry.active && other in worlds[i].registry.active
    ensures var session, stranger := worlds[i].registry.active[sid], worlds[i].registry.active[other];
            && (session.refreshToken == stranger.refreshToken ==> sid == other)
            && (session.previous.Some? && session.previous == stranger.previous ==> sid == other)
            && session.previous != Some(Fingerprint(stranger.refreshToken))
  {
    RunKeepsInv(worlds, events, i);
    hide Inv, IsRun;
    CurrentTokensAreUnique(worlds[i].registry, sid, other);
  }

  /** In every interleaving each refresh token is exchanged at most once, by refresh or step-up. */
  lemma RedeemedAtMostOnce(worlds: seq<World>, events: seq<Event>, i: nat, j: nat, token: Token)
    requires IsRun(worlds, events) && i < j < |events|
    ensures !(Redeems(worlds[i].registry, worlds[i + 1].registry, token)
              && Redeems(worlds[j].registry, worlds[j + 1].registry, token))
  {
    RunStep(worlds, events, i);
    RunStep(worlds, events, j);
    RunExtends(worlds, events, i + 1, j);
    hide IsRun, Inv, Extends, Redeems;
    if Redeems(worlds[i].registry, worlds[i + 1].registry, token) {
      RedeemingSpends(worlds[i].registry, worlds[i + 1].registry, token);
      SpentStays(worlds[i + 1].registry, worlds[j].registry, token);
      if Redeems(worlds[j].registry, worlds[j + 1].registry, token) {
        RedeemingSpends(worlds[j].registry, worlds[j + 1].registry, token);
      }
    }
  }

  /** A token pair is handed out only for the token it was asked for with, which is thereby exchanged. */
  lemma PairMeansRedeemed(w: World, e: Event, token: Token)
    requires WorldInv(w) && Possible(w, e) && Presented(w, e) == Some(token)
    requires w.registry.chain.Keys == w.registry.active.Keys && Reply(w, e).Ok?
    ensures Redeems(w.registry, Step(w, e).registry, token)
  {
    var sid := Holder(w.registry, token).value;
    CurrentHasAgeZero(w.registry, sid);
    hide Inv, LoginsInv;
    var after := Step(w, e).registry.active;
    assert sid in after && after[sid].refreshToken == e.newToken;
  }

  /** In every interleaving at most one request is answered with a token pair for the same token. */
  lemma AnsweredAtMostOnce(worlds: seq<World>, events: seq<Event>, i: nat, j: nat, token: Token)
    requires IsRun(worlds, events) && i < j < |events|
    requires Presented(worlds[i], events[i]) == Some(token) == Presented(worlds[j], events[j])
    ensures !(Reply(worlds[i], events[i]).Ok? && Reply(worlds[j], events[j]).Ok?)
  {
    RunKeepsInv(worlds, events, i);
    RunKeepsInv(worlds, events, j);
    RedeemedAtMostOnce(worlds, events, i, j, token);
    hide WorldInv, Redeems, Reply;
    if Reply(worlds[i], events[i]).Ok? && Reply(worlds[j], events[j]).Ok? {
      PairMeansRedeemed(worlds[i], events[i], token);
      PairMeansRedeemed(worlds[j], events[j], token);
    }
  }

  lemma UnknownTokenIsRefused(w: World, e: Event, token: Token)
    requires Possible(w, e) && w.registry.chain.Keys == w.registry.active.Keys
    requires Presented(w, e) == Some(token) && Holder(w.registry, token) == None
    ensures Reply(w, e) == Err(SessionNotFound) && Step(w, e).registry == w.registry
  {
  }

  /** A rotated-out token never again yields a pair, in any interleaving. */
  lemma SpentTokenIsDead(worlds: seq<World>, events: seq<Event>, i: nat, j: nat, token: Token)
    requires IsRun(worlds, events) && i <= j < |events|
    requires Inv(worlds[i].registry) && Spent(worlds[i].registry, token)
    requires Presented(worlds[j], events[j]) == Some(token)
    ensures Reply(worlds[j], events[j]) == Err(SessionNotFound)
    ensures worlds[j + 1].registry == worlds[j].registry
  {
    RunExtends(worlds, events, i, j);
    SpentStays(worlds[i].registry, worlds[j].registry, token);
    OnlyTheOwnerKnows(worlds[j].registry, token);
    RunStep(worlds, events, j);
    UnknownTokenIsRefused(worlds[j], events[j], token);
  }

  /** Revocation is final: whatever writer revoked a session, it stays revoked and no access token
      of it is accepted. */
  lemma RevokedSessionIsDead(worlds: seq<World>, events: seq<Event>, i: nat, j: nat, sid: SessionId)
    requires IsRun(worlds, events) && i <= j < |worlds|
    requires sid in worlds[i].registry.active && worlds[i].registry.active[sid].revoked
    ensures sid in worlds[j].registry.active && worlds[j].registry.active[sid].revoked
    ensures forall claims: Claims, now, ip, device :: claims.sessionId == sid ==>
              Authenticate(worlds[j].registry.active, claims, now, ip, device).Err?
  {
    RunExtends(worlds, events, i, j);
    hide IsRun;
    RevokedStays(worlds[i].registry, worlds[j].registry, sid);
  }

  /** ... and none of the tokens the session was ever given is exchanged again. */
  lemma RevokedTokensAreDead(worlds: seq<World>, events: seq<Event>, i: nat, j: nat, sid: SessionId, token: Token)
    requires IsRun(worlds, events) && i <= j < |events|
    requires sid in worlds[i].registry.active && worlds[i].registry.active[sid].revoked
    requires token in worlds[j].registry.issued && worlds[j].registry.issued[token].session == sid
    requires Presented(worlds[j], events[j]) == Some(token)
    ensures Reply(worlds[j], events[j]) == Err(SessionNotFound)
    ensures worlds[j + 1].registry == worlds[j].registry
  {
    RevokedSessionIsDead(worlds, events, i, j, sid);
    RunStep(worlds, events, j);
    OnlyTheOwnerKnows(worlds[j].registry, token);
    UnknownTokenIsRefused(worlds[j], events[j], token);
  }

  /** Two requests that both pass the replay scan before either rotates: the second is refused,
      but the replay goes unnoticed and the session lives on. */
  lemma ReplayBetweenScansGoesUnnoticed(w: World, sid: SessionId, token: Token, newToken: Token, other: Token, now: int)
    returns (w1: World, w2: World, w3: World, w4: World)
    requires Inv(w.registry) && w.requests == map[]
    requires Holds(w.registry, sid, token) && !w.registry.active[sid].stepUpRequired
    requires newToken !in w.registry.issued && other !in w.registry.issued && other != newToken
    ensures IsStep(w, Scan(1, token), w1)
    ensures IsStep(w1, Scan(2, token), w2)
    ensures IsStep(w2, Rotate(1, newToken, now, true), w3) && Reply(w2, Rotate(1, newToken, now, true)).Ok?
    ensures IsStep(w3, Rotate(2, other, now, true), w4)
    ensures Reply(w3, Rotate(2, other, now, true)) == Err(SessionNotFound)
    ensures Holds(w4.registry, sid, newToken)
  {
    hide *;
    w1 := ScanPasses(w, 1, sid, token);
    w2 := ScanPasses(w1, 2, sid, token);
    w3 := RotationSpends(w2, 1, sid, token, newToken, now);
    w4 := RotationRefused(w3, 2, token, other, now);
  }

  lemma ScanPasses(w: World, request: RequestId, sid: SessionId, token: Token) returns (w': World)
    requires Inv(w.registry) && Holds(w.registry, sid, token) && request !in w.requests
    ensures IsStep(w, Scan(request, token), w')
    ensures w' == w.(requests := w.requests[request := Refreshing(token)])
  {
    w' := w.(requests := w.requests[request := Refreshing(token)]);
    NamedByKey(w.registry, sid);
    OnlyTheOwnerKnows(w.registry, token);
    assert w.registry.chain.Keys == w.registry.active.Keys;
    hide Inv;
  }

  lemma RotationSpends(w: World, request: RequestId, sid: SessionId, token: Token, newToken: Token, now: int)
    returns (w': World)
    requires Inv(w.registry) && Holds(w.registry, sid, token) && !w.registry.active[sid].stepUpRequired
    requires newToken !in w.registry.issued
    requires request in w.requests && w.requests[request] == Refreshing(token)
    ensures IsStep(w, Rotate(request, newToken, now, true), w') && Reply(w, Rotate(request, newToken, now, true)).Ok?
    ensures w'.requests == w.requests - {request} && w'.registry.issued.Keys == w.registry.issued.Keys + {newToken}
    ensures Inv(w'.registry) && Holder(w'.registry, token) == None && Holds(w'.registry, sid, newToken)
  {
    var r, e := w.registry, Rotate(request, newToken, now, true);
    hide Inv, Extends;
    StepKeepsRegistryInv(w, e);
    HolderIsUnique(r, sid, token);
    NamedByKey(r, sid);
    w' := Step(w, e);
    assert w'.registry.active[sid] == Reissued(r.active[sid], newToken, now);
    assert Redeems(r, w'.registry, token);
    RedeemedHasNoHolder(r, w'.registry, token);
  }

  lemma RotationRefused(w: World, request: RequestId, token: Token, newToken: Token, now: int) returns (w': World)
    requires Inv(w.registry) && Holder(w.registry, token) == None && newToken !in w.registry.issued
    requires request in w.requests && w.requests[request] == Refreshing(token)
    ensures IsStep(w, Rotate(request, newToken, now, true), w') && w'.registry == w.registry
    ensures Reply(w, Rotate(request, newToken, now, true)) == Err(SessionNotFound)
  {
    var e := Rotate(request, newToken, now, true);
    assert w.registry.chain.Keys == w.registry.active.Keys;
    hide Inv;
    w' := Step(w, e);
    UnknownTokenIsRefused(w, e, token);
  }

  lemma RedeemedHasNoHolder(r: Registry, r': Registry, token: Token)
    requires Inv(r) && Inv(r') && Extends(r, r') && Redeems(r, r', token)
    ensures Holder(r', token) == None
  {
    RedeemingSpends(r, r', token);
    OnlyTheOwnerKnows(r', token);
  }

  /** Once issued, a token's distance from the end of its chain never shrinks. */
  lemma AgeGrows(r: Registry, r': Registry, token: Token)
    requires Inv(r) && Inv(r') && Extends(r, r') && token in r.issued
    ensures token in r'.issued && r'.issued[token] == r.issued[token] && Age(r, token) <= Age(r', token)
  {
    TokenKept(r, r', token);
  }

  /** A replay is missed exactly by a scan that ran while the token was still current, or not yet issued:
      for a token that is one behind by the time of `j` and whose session was live at the scan, the scan
      at `i` let it pass if and only if that was so. In particular a scan let it pass if the session is
      still live at `j`. */
  lemma ReplayMissedExactly(worlds: seq<World>, events: seq<Event>, i: nat, j: nat, token: Token)
    requires IsRun(worlds, events) && i < j < |worlds| && events[i].Scan? && events[i].token == token
    ensures Inv(worlds[i].registry) && Inv(worlds[j].registry)
    ensures var r, later := worlds[i].registry, worlds[j].registry;
            token in later.issued && Age(later, token) == 1 ==>
              && (token in r.issued && !Revoked(r, r.issued[token].session) ==>
                    (!ReplayScan(r, token).1 <==> Age(r, token) == 0))
              && (token !in r.issued ==> !ReplayScan(r, token).1)
              && (OneBehind(later, token) ==>
                    !ReplayScan(r, token).1 && (token in r.issued ==> Age(r, token) == 0))
  {
    assert |worlds| == |events| + 1;
    hide IsRun, Inv, Extends, ReplayScan, WorldInv, OneBehind;
    RunExtends(worlds, events, i, j);
    RunExtends(worlds, events, i + 1, j);
    ScanDetectsExactly(worlds[i].registry, token);
    ScanInRun(worlds, events, i, token);
    if token in worlds[j].registry.issued && Age(worlds[j].registry, token) == 1 {
      MissedExactly(worlds[i].registry, worlds[i + 1].registry, worlds[j].registry, token,
                    ReplayScan(worlds[i].registry, token).1);
    }
  }

  lemma ScanInRun(worlds: seq<World>, events: seq<Event>, i: nat, token: Token)
    requires IsRun(worlds, events) && i < |events| && events[i].Scan? && events[i].token == token
    requires Inv(worlds[i].registry)
    ensures var r := worlds[i].registry;
            ReplayScan(r, token).1 ==> token in r.issued && Revoked(worlds[i + 1].registry, r.issued[token].session)
  {
    hide Inv, ReplayScan, WorldInv;
    assert worlds[i + 1] == Step(worlds[i], events[i]);
    ScanRevokesVictim(worlds[i], events[i]);
  }

  lemma MissedExactly(r: Registry, next: Registry, later: Registry, token: Token, detected: bool)
    requires Inv(r) && Inv(later) && Extends(r, later) && Extends(next, later)
    requires detected <==> OneBehind(r, token)
    requires detected ==> token in r.issued && Revoked(next, r.issued[token].session)
    requires token in later.issued && Age(later, token) == 1
    ensures token in r.issued && !Revoked(r, r.issued[token].session) ==> (!detected <==> Age(r, token) == 0)
    ensures token !in r.issued ==> !detected
    ensures OneBehind(later, token) ==> !detected && (token in r.issued ==> Age(r, token) == 0)
  {
    hide Inv, Extends;
    if token in r.issued {
      OwnerIsActive(r, token);
      AgeGrows(r, later, token);
      var sid := r.issued[token].session;
      if r.active[sid].revoked { RevokedStays(r, later, sid); }
      if detected { RevokedStays(next, later, sid); }
    }
  }

  predicate Revoked(r: Registry, sid: SessionId) {
    sid in r.active && r.active[sid].revoked
  }

  lemma OwnerIsActive(r: Registry, token: Token)
    requires Inv(r) && token in r.issued
    ensures r.issued[token].session in r.active
  {
    OnlyTheOwnerKnows(r, token);
  }

  /** A scan that detects a replay revokes the session. */
  lemma ScanRevokesVictim(w: World, e: Event)
    requires Inv(w.registry) && Possible(w, e) && e.Scan? && w.registry.chain.Keys == w.registry.active.Keys
    ensures ReplayScan(w.registry, e.token).1 ==>
              && e.token in w.registry.issued
              && Revoked(Step(w, e).registry, w.registry.issued[e.token].session)
  {
    var token := e.token;
    if token in w.registry.issued { OnlyTheOwnerKnows(w.registry, token); } else { NobodyKnows(w.registry, token); }
    hide Inv;
  }

  lemma IssuedIsHeld(w: World, e: Event, token: Token) returns (sid: SessionId)
    requires Possible(w, e) && w.registry.chain.Keys == w.registry.active.Keys
    requires token !in w.registry.issued && token in Step(w, e).registry.issued
    ensures var r' := Step(w, e).registry;
            sid in r'.active && r'.active[sid].refreshToken == token
  {
    var r := w.registry;
    if e.IssueSession? {
      sid := e.sid;
    } else if e.Rotate? {
      sid := Holder(r, w.requests[e.request].token).value;
    } else {
      assert e.StepUp?;
      sid := Holder(r, e.token).value;
    }
  }

  /** A token issued by a step is current after it. */
  lemma IssuedIsCurrent(w: World, e: Event, token: Token)
    requires Possible(w, e) && w.registry.chain.Keys == w.registry.active.Keys && Inv(Step(w, e).registry)
    requires token !in w.registry.issued
    ensures !Spent(Step(w, e).registry, token)
  {
    if token in Step(w, e).registry.issued {
      hide Inv, Step, Possible;
      var sid := IssuedIsHeld(w, e, token);
      CurrentHasAgeZero(Step(w, e).registry, sid);
    }
  }

  /** A token that is not spent becomes spent only by being exchanged. */
  lemma SpentByExchange(w: World, e: Event, token: Token)
    requires WorldInv(w) && Possible(w, e) && w.registry.chain.Keys == w.registry.active.Keys
    requires Inv(Step(w, e).registry) && !Spent(w.registry, token) && Spent(Step(w, e).registry, token)
    ensures Redeems(w.registry, Step(w, e).registry, token)
  {
    var r, r' := w.registry, Step(w, e).registry;
    StepKeepsRegistryInv(w, e);
    hide LoginsInv, Step, Possible;
    if token !in r.issued {
      IssuedIsCurrent(w, e, token);
    } else {
      hide Inv, Extends;
      AgeZeroIsCurrent(r, token);
      TokenKept(r, r', token);
      var sid := r.issued[token].session;
      OwnerIsActive(r', token);
      if r'.active[sid].refreshToken == token { CurrentHasAgeZero(r', sid); }
      assert r.active[sid].refreshToken == token;
    }
  }

  /** Between a moment at which a token is not spent and one at which it is, it was exchanged. */
  lemma {:induction false} ExchangedBetween(worlds: seq<World>, events: seq<Event>, i: nat, j: nat, token: Token)
    requires IsRun(worlds, events) && i <= j < |worlds|
    ensures Inv(worlds[i].registry) && Inv(worlds[j].registry)
    ensures !Spent(worlds[i].registry, token) && Spent(worlds[j].registry, token) ==>
              exists m :: i <= m < j && Redeems(worlds[m].registry, worlds[m + 1].registry, token)
    decreases j - i
  {
    RunKeepsInv(worlds, events, i);
    RunKeepsInv(worlds, events, j);
    if i < j {
      ExchangedBetween(worlds, events, i + 1, j, token);
      hide Inv, LoginsInv, Step, Possible, Spent, Redeems;
      if !Spent(worlds[i].registry, token) && Spent(worlds[i + 1].registry, token) {
        SpentByExchange(worlds[i], events[i], token);
        assert Redeems(worlds[i].registry, worlds[i + 1].registry, token);
      }
    }
  }

  /** So a replay that a passing scan misses is that of a token exchanged since by another request. */
  lemma MissedReplayWasExchanged(worlds: seq<World>, events: seq<Event>, i: nat, j: nat, token: Token)
    requires IsRun(worlds, events) && i < j < |worlds| && events[i].Scan? && events[i].token == token
    requires Inv(worlds[j].registry) && OneBehind(worlds[j].registry, token)
    ensures exists m :: i <= m < j && Redeems(worlds[m].registry, worlds[m + 1].registry, token)
  {
    hide IsRun, Inv, Redeems;
    ReplayMissedExactly(worlds, events, i, j, token);
    ExchangedBetween(worlds, events, i, j, token);
  }

  // ----- What each event does -----

  /** A session comes into being exactly by issuing it for a verified login with a signed access token. */
  lemma OpensExactlyBy(w: World, e: Event, sid: SessionId)
    requires Possible(w, e) && w.registry.chain.Keys == w.registry.active.Keys && sid !in w.registry.active
    ensures sid in Step(w, e).registry.active <==> e.IssueSession? && e.sid == sid && e.signed
  {
  }

  function Assessed(session: ActiveSession, report: Posture, score: nat, response: AdaptiveResponse,
                    challenge: Option<Challenge>): ActiveSession
  {
    session.(posture := Some(report), riskScore := score, revoked := response.TerminateSession?,
             stepUpRequired := response.StepUpAuth? && (challenge.Some? || session.stepUpRequired),
             challenge := if !response.StepUpAuth? then None
                          else if challenge.Some? then challenge else session.challenge)
  }

  /** What the event makes of a session. */
  ghost function SessionAfter(w: World, e: Event, sid: SessionId): ActiveSession
    requires sid in w.registry.active
  {
    var session := w.registry.active[sid];
    var current := Presented(w, e) == Some(session.refreshToken) && !session.revoked;
    match e
    case Rotate(_, newToken, now, _) =>
      if current && !session.stepUpRequired then Reissued(session, newToken, now) else session
    case StepUp(_, account, proofOk, newToken, now, _) =>
      if current && session.stepUpRequired && session.challenge.Some? && account.Registered? && proofOk then
        Reissued(session, newToken, now).(
        stepUpRequired := false, challenge := None, riskScore := if session.riskScore < 25 then session.riskScore else 25)
      else session
    case Scan(_, token) =>
      session.(revoked := session.revoked || session.previous == Some(Fingerprint(token)))
    case LogOut(token) =>
      session.(revoked := session.revoked || token == session.refreshToken)
    case ReportPosture(token, report, score, response, challenge) =>
      if session.revoked || token != session.refreshToken then session
      else Assessed(session, report, score, response, challenge)
    case RevokeSessions(user) => session.(revoked := session.revoked || session.claims.userId == user)
    case Mitigate(actions, persistent) => Treated(session, actions, persistent)
    case _ => session
  }

  lemma HolderExactly(r: Registry, sid: SessionId, token: Token)
    requires Inv(r) && sid in r.active
    ensures Holder(r, token) == Some(sid) <==> r.active[sid].refreshToken == token && !r.active[sid].revoked
    ensures ReplayVictim(r, token) == Some(sid) <==>
              r.active[sid].previous == Some(Fingerprint(token)) && !r.active[sid].revoked
  {
    if Holds(r, sid, token) { HolderIsUnique(r, sid, token); }
    if Replays(r, sid, token) { ReplayVictimIsUnique(r, sid, token); }
  }

  /** Each event does this to every session, and so only to the one session its token is of. */
  lemma StepOnSession(w: World, e: Event, sid: SessionId)
    requires Inv(w.registry) && Possible(w, e) && w.registry.chain.Keys == w.registry.active.Keys
    requires sid in w.registry.active
    ensures sid in Step(w, e).registry.active
    ensures Step(w, e).registry.active[sid] == SessionAfter(w, e, sid)
  {
    hide Inv, Step, SessionAfter, Possible;
    if e.Rotate? || e.StepUp? {
      ExchangeOnSession(w, e, sid);
    } else if e.Scan? || e.LogOut? {
      EndingOnSession(w, e, sid);
    } else if e.ReportPosture? {
      PostureOnSession(w, e, sid);
    } else {
      OtherOnSession(w, e, sid);
    }
  }

  lemma ExchangeOnSession(w: World, e: Event, sid: SessionId)
    requires Inv(w.registry) && Possible(w, e) && w.registry.chain.Keys == w.registry.active.Keys
    requires sid in w.registry.active && (e.Rotate? || e.StepUp?)
    ensures sid in Step(w, e).registry.active
    ensures Step(w, e).registry.active[sid] == SessionAfter(w, e, sid)
  {
    hide Inv, Holder, ReplayVictim, Reissued;
    HolderExactly(w.registry, sid, if e.Rotate? then w.requests[e.request].token else e.token);
  }

  lemma EndingOnSession(w: World, e: Event, sid: SessionId)
    requires Inv(w.registry) && Possible(w, e) && w.registry.chain.Keys == w.registry.active.Keys
    requires sid in w.registry.active && (e.Scan? || e.LogOut?)
    ensures sid in Step(w, e).registry.active
    ensures Step(w, e).registry.active[sid] == SessionAfter(w, e, sid)
  {
    hide Inv, Holder, ReplayVictim;
    HolderExactly(w.registry, sid, e.token);
  }

  lemma PostureOnSession(w: World, e: Event, sid: SessionId)
    requires Inv(w.registry) && Possible(w, e) && w.registry.chain.Keys == w.registry.active.Keys
    requires sid in w.registry.active && e.ReportPosture?
    ensures sid in Step(w, e).registry.active
    ensures Step(w, e).registry.active[sid] == SessionAfter(w, e, sid)
  {
    hide Inv, Step, Possible, AssessPosture, Assessed;
    ReportStep(w, e);
    ReportOnSession(w.registry, e.token, e.report, e.score, e.response, e.challenge, sid);
  }

  lemma ReportOnSession(r: Registry, token: Token, report: Posture, score: nat, response: AdaptiveResponse,
                        challenge: Option<Challenge>, sid: SessionId)
    requires Inv(r) && sid in r.active
    ensures var active, session := AssessPosture(r, token, report, score, response, challenge).0.active, r.active[sid];
            && sid in active
            && active[sid] == if session.revoked || token != session.refreshToken then session
                              else Assessed(session, report, score, response, challenge)
  {
    hide Inv, Holder;
    HolderExactly(r, sid, token);
  }

  lemma ReportStep(w: World, e: Event)
    requires Possible(w, e) && w.registry.chain.Keys == w.registry.active.Keys && e.ReportPosture?
    ensures Step(w, e).registry == AssessPosture(w.registry, e.token, e.report, e.score, e.response, e.challenge).0
  {
    hide AssessPosture;
  }

  lemma OtherOnSession(w: World, e: Event, sid: SessionId)
    requires Possible(w, e) && w.registry.chain.Keys == w.registry.active.Keys
    requires sid in w.registry.active && !e.Rotate? && !e.StepUp? && !e.Scan? && !e.LogOut? && !e.ReportPosture?
    ensures sid in Step(w, e).registry.active
    ensures Step(w, e).registry.active[sid] == SessionAfter(w, e, sid)
  {
    hide Treated;
  }

  /** A logout under the session's token, a replay of the token before it, a posture report under its token
      that terminates, a revocation of its user, or a mitigation that terminates its user. */
  predicate Ends(session: ActiveSession, e: Event) {
    match e
    case LogOut(token) => token == session.refreshToken
    case Scan(_, token) => session.previous == Some(Fingerprint(token))
    case ReportPosture(token, _, _, response, _) => token == session.refreshToken && response.TerminateSession?
    case RevokeSessions(user) => user == session.claims.userId
    case Mitigate(actions, _) =>
      session.claims.userId in actions && actions[session.claims.userId] == Alerts.TerminateSession
    case _ => false
  }

  lemma EndsAfter(w: World, e: Event, sid: SessionId)
    requires sid in w.registry.active && !w.registry.active[sid].revoked
    ensures SessionAfter(w, e, sid).revoked <==> Ends(w.registry.active[sid], e)
  {
  }

  /** A live session ends exactly by these events. */
  lemma EndsExactlyBy(w: World, e: Event, sid: SessionId)
    requires WorldInv(w) && Possible(w, e)
    requires sid in w.registry.active && !w.registry.active[sid].revoked
    ensures w.registry.chain.Keys == w.registry.active.Keys && sid in Step(w, e).registry.active
    ensures Step(w, e).registry.active[sid].revoked <==> Ends(w.registry.active[sid], e)
  {
    SameDomain(w);
    hide WorldInv, Inv, Step, Possible, SessionAfter, Ends;
    StepOnSession(w, e, sid);
    EndsAfter(w, e, sid);
  }

  lemma SameDomain(w: World)
    requires WorldInv(w)
    ensures w.registry.chain.Keys == w.registry.active.Keys && Inv(w.registry)
  {
  }

  lemma TreatedKeepsToken(w: World, e: Event, sid: SessionId)
    requires sid in w.registry.active
    ensures e.Mitigate? ==>
              Treated(w.registry.active[sid], e.actions, e.persistent).refreshToken == w.registry.active[sid].refreshToken
  {
  }

  /** A posture report under the session's token that asks for step-up and has a challenge for it, or a
      mitigation that steps its user up. */
  predicate HoldsBack(session: ActiveSession, e: Event) {
    match e
    case ReportPosture(token, _, _, response, challenge) =>
      token == session.refreshToken && response.StepUpAuth? && challenge.Some?
    case Mitigate(actions, _) => session.claims.userId in actions && actions[session.claims.userId] == Alerts.StepUpAuth
    case _ => false
  }

  lemma HoldsBackAfter(w: World, e: Event, sid: SessionId)
    requires sid in w.registry.active && !w.registry.active[sid].revoked && !w.registry.active[sid].stepUpRequired
    ensures SessionAfter(w, e, sid).stepUpRequired <==> HoldsBack(w.registry.active[sid], e)
  {
  }

  /** A live session that is not held back comes to be exactly by these events. */
  lemma StepUpBeginsExactlyBy(w: World, e: Event, sid: SessionId)
    requires WorldInv(w) && Possible(w, e)
    requires sid in w.registry.active && !w.registry.active[sid].revoked && !w.registry.active[sid].stepUpRequired
    ensures w.registry.chain.Keys == w.registry.active.Keys && sid in Step(w, e).registry.active
    ensures Step(w, e).registry.active[sid].stepUpRequired <==> HoldsBack(w.registry.active[sid], e)
  {
    SameDomain(w);
    hide WorldInv, Inv, Step, Possible, SessionAfter, HoldsBack;
    StepOnSession(w, e, sid);
    HoldsBackAfter(w, e, sid);
  }

  /** A session's token is exchanged exactly by the rotation of a refresh that presents it while the session
      is live and not held back, or by a step-up that presents it while it is live and held back with a
      challenge and that is proved by its registered owner. */
  lemma ExchangesExactlyBy(w: World, e: Event, sid: SessionId)
    requires WorldInv(w) && Possible(w, e) && sid in w.registry.active
    ensures w.registry.chain.Keys == w.registry.active.Keys && sid in Step(w, e).registry.active
    ensures var session := w.registry.active[sid];
            Step(w, e).registry.active[sid].refreshToken != session.refreshToken <==>
              && Presented(w, e) == Some(session.refreshToken) && !session.revoked
              && if e.Rotate? then !session.stepUpRequired
                 else session.stepUpRequired && session.challenge.Some? && e.account.Registered? && e.proofOk
  {
    SameDomain(w);
    hide WorldInv, Inv, Step, Treated;
    TreatedKeepsToken(w, e, sid);
    StepOnSession(w, e, sid);
    CurrentHasAgeZero(w.registry, sid);
  }

  /** A refresh with nothing between its critical sections is the whole refresh. */
  lemma UndisturbedRefresh(w: World, request: RequestId, token: Token, newToken: Token, now: int, signed: bool)
    requires Inv(w.registry) && request !in w.requests && newToken !in w.registry.issued
    ensures w.registry.chain.Keys == w.registry.active.Keys
    ensures var (whole, answer) := Refresh(w.registry, token, newToken, now, signed);
            var scanned := Step(w, Scan(request, token));
            if OneBehind(w.registry, token) then
              scanned == w.(registry := whole) && answer == Err(ReplayDetected)
            else
              && Possible(scanned, Rotate(request, newToken, now, signed))
              && scanned.registry.chain.Keys == scanned.registry.active.Keys
              && Step(scanned, Rotate(request, newToken, now, signed)) == w.(registry := whole)
              && Reply(scanned, Rotate(request, newToken, now, signed)) == answer
  {
    ScanDetectsExactly(w.registry, token);
    assert w.registry.chain.Keys == w.registry.active.Keys;
    hide Inv, RefreshRotate, ReplayScan;
    assert w.requests[request := Refreshing(token)] - {request} == w.requests;
  }

  /** A verification with nothing between its critical sections opens a session exactly for a waiting login,
      a good proof and a signed token, and takes the login out once it is proved. */
  lemma UndisturbedVerification(w: World, request: RequestId, id: PendingId, proofOk: bool,
                                sid: SessionId, token: Token, now: int, signed: bool)
    requires w.registry.chain.Keys == w.registry.active.Keys && request !in w.requests
    requires sid !in w.registry.active && token !in w.registry.issued
    ensures var begun := Step(w, BeginVerify(request, id));
            if id !in w.registry.pending then begun == w
            else
              && Possible(begun, Consume(request, proofOk))
              && var consumed := Step(begun, Consume(request, proofOk));
              if !proofOk then consumed == w
              else
                && Possible(consumed, IssueSession(request, sid, token, now, signed))
                && var done := Step(consumed, IssueSession(request, sid, token, now, signed));
                var taken := w.registry.(pending := w.registry.pending - {id});
                && done.requests == w.requests
                && done.registry == if signed then OpenSession(taken, sid, token, w.registry.pending[id], now) else taken
  {
    hide OpenSession;
    if id in w.registry.pending {
      var begun := Step(w, BeginVerify(request, id));
      assert begun == w.(requests := w.requests[request := Verifying(id, w.registry.pending[id])]);
      assert begun.requests - {request} == w.requests;
      var consumed := Step(begun, Consume(request, proofOk));
      assert consumed.requests - {request} == w.requests;
    }
  }

  // ----- Step-up -----

  /** While step-up is required a refresh of the session and every authenticated request of it are
      refused, and the refresh changes nothing. */
  lemma StepUpHoldsBack(w: World, e: Event, sid: SessionId)
    requires WorldInv(w) && Possible(w, e)
    requires sid in w.registry.active && !w.registry.active[sid].revoked && w.registry.active[sid].stepUpRequired
    ensures e.Rotate? && Presented(w, e) == Some(w.registry.active[sid].refreshToken) ==>
              Reply(w, e) == Err(StepUpRequired(w.registry.active[sid].challenge))
              && Step(w, e).registry == w.registry
    ensures forall claims: Claims, now, ip, device :: claims.sessionId == sid ==>
              Authenticate(w.registry.active, claims, now, ip, device).Err?
  {
    if e.Rotate? && Presented(w, e) == Some(w.registry.active[sid].refreshToken) {
      HolderIsUnique(w.registry, sid, w.registry.active[sid].refreshToken);
    }
  }

  /** A live session leaves step-up, staying live, exactly by a verified step-up of an issued
      challenge or by a posture report that allows it, each under its current token. In particular
      a step-up demanded without a challenge is only lifted by a posture report. */
  lemma StepUpEndsExactlyBy(w: World, e: Event, sid: SessionId)
    requires WorldInv(w) && Possible(w, e)
    requires sid in w.registry.active && !w.registry.active[sid].revoked && w.registry.active[sid].stepUpRequired
    ensures w.registry.chain.Keys == w.registry.active.Keys && sid in Step(w, e).registry.active
    ensures var session, session' := w.registry.active[sid], Step(w, e).registry.active[sid];
            !session'.stepUpRequired && !session'.revoked <==>
              || (e.StepUp? && e.token == session.refreshToken && e.proofOk && e.account.Registered?
                  && session.challenge.Some?)
              || (e.ReportPosture? && e.token == session.refreshToken && e.response.Allow?)
  {
    hide Inv, LoginsInv, Extends;
    StepKeepsRegistryInv(w, e);
    var r, session := w.registry, w.registry.active[sid];
    HolderIsUnique(r, sid, session.refreshToken);
    NamedByKey(r, sid);
    if !e.StepUp? && !e.ReportPosture? {
      OthersKeepStepUp(w, e, sid);
    } else {
      if e.token != session.refreshToken {
        StrangerKeepsStepUp(w, e, sid);
      }
    }
  }

  lemma StrangerKeepsStepUp(w: World, e: Event, sid: SessionId)
    requires Possible(w, e) && w.registry.chain.Keys == w.registry.active.Keys && (e.StepUp? || e.ReportPosture?)
    requires sid in w.registry.active && e.token != w.registry.active[sid].refreshToken
    ensures sid in Step(w, e).registry.active && Step(w, e).registry.active[sid] == w.registry.active[sid]
  {
  }

  lemma OthersKeepStepUp(w: World, e: Event, sid: SessionId)
    requires Possible(w, e) && w.registry.chain.Keys == w.registry.active.Keys && !e.StepUp? && !e.ReportPosture?
    requires sid in w.registry.active && !w.registry.active[sid].revoked && w.registry.active[sid].stepUpRequired
    ensures sid in Step(w, e).registry.active
    ensures var session' := Step(w, e).registry.active[sid];
            session'.stepUpRequired || session'.revoked
  {
  }

  /** A live session that holds a challenge is held back for step-up. */
  lemma ChallengeMeansStepUp(worlds: seq<World>, events: seq<Event>, i: nat, sid: SessionId)
    requires IsRun(worlds, events) && i < |worlds| && sid in worlds[i].registry.active
    ensures var session := worlds[i].registry.active[sid];
            session.challenge.Some? && !session.revoked ==> session.stepUpRequired
  {
    RunKeepsInv(worlds, events, i);
    NamedByKey(worlds[i].registry, sid);
  }

  // ----- Logins -----

  /** The pending login from which an event opens a session. */
  function OpenedLogin(w: World, e: Event): Option<PendingId> {
    if e.IssueSession? && e.signed && e.request in w.requests && w.requests[e.request].Issuing?
    then Some(w.requests[e.request].id)
    else None
  }

  ghost predicate IsOpened(w: World, id: PendingId) {
    id in w.fates && w.fates[id].Opened?
  }

  lemma QuietKeepsFates(w: World, e: Event)
    requires Possible(w, e) && w.registry.chain.Keys == w.registry.active.Keys
    requires !(e.Login? || e.Consume? || e.IssueSession? || e.Abandon?)
    ensures Step(w, e).fates == w.fates
  {
    hide Holder, ReplayVictim, RefreshRotate, StepUpVerify, Logout, AssessPosture, ReplayScan, RevokeUser, TreatedAll;
  }

  lemma OpenedStays(w: World, e: Event, id: PendingId)
    requires WorldInv(w) && Possible(w, e)
    ensures w.registry.chain.Keys == w.registry.active.Keys
    ensures IsOpened(w, id) ==>
              IsOpened(Step(w, e), id) && Step(w, e).fates[id] == w.fates[id] && OpenedLogin(w, e) != Some(id)
    ensures OpenedLogin(w, e) == Some(id) ==> IsOpened(Step(w, e), id)
  {
    assert w.registry.chain.Keys == w.registry.active.Keys;
    hide Inv, LoginsInv, Step, Possible;
    if e.Login? {
      if IsOpened(w, id) { LoginKeepsOpened(w, e, id); }
    } else if e.Consume? {
      ConsumeKeepsOpened(w, e, id);
    } else if e.IssueSession? || e.Abandon? {
      IssueKeepsOpened(w, e, id);
    } else {
      QuietKeepsFates(w, e);
    }
  }

  lemma LoginKeepsOpened(w: World, e: Event, id: PendingId)
    requires Possible(w, e) && w.registry.chain.Keys == w.registry.active.Keys && e.Login? && IsOpened(w, id)
    ensures IsOpened(Step(w, e), id) && Step(w, e).fates[id] == w.fates[id]
  {
  }

  lemma ConsumeKeepsOpened(w: World, e: Event, id: PendingId)
    requires LoginsInv(w) && Possible(w, e) && w.registry.chain.Keys == w.registry.active.Keys && e.Consume?
    ensures IsOpened(w, id) ==> IsOpened(Step(w, e), id) && Step(w, e).fates[id] == w.fates[id]
  {
    if w.requests[e.request].id in w.registry.pending {
      PendingWaits(w, w.requests[e.request].id);
    }
    hide LoginsInv;
  }

  lemma IssueKeepsOpened(w: World, e: Event, id: PendingId)
    requires LoginsInv(w) && Possible(w, e) && w.registry.chain.Keys == w.registry.active.Keys
    requires e.IssueSession? || e.Abandon?
    ensures IsOpened(w, id) ==>
              IsOpened(Step(w, e), id) && Step(w, e).fates[id] == w.fates[id] && OpenedLogin(w, e) != Some(id)
    ensures OpenedLogin(w, e) == Some(id) ==> IsOpened(Step(w, e), id)
  {
    if w.requests[e.request].Issuing? {
      IssuerOwnsLogin(w, e.request);
    }
    hide LoginsInv, OpenSession;
  }

  lemma IssuerOwnsLogin(w: World, request: RequestId)
    requires LoginsInv(w) && request in w.requests && w.requests[request].Issuing?
    ensures w.requests[request].id in w.fates && w.fates[w.requests[request].id] == Taken(request)
  {
  }

  lemma PendingWaits(w: World, id: PendingId)
    requires LoginsInv(w) && id in w.registry.pending
    ensures id in w.fates && w.fates[id] == Waiting
  {
  }

  lemma {:induction false} RunKeepsOpened(worlds: seq<World>, events: seq<Event>, i: nat, j: nat, id: PendingId)
    requires IsRun(worlds, events) && i <= j < |worlds| && IsOpened(worlds[i], id)
    ensures IsOpened(worlds[j], id)
    decreases j - i
  {
    if i < j {
      RunStep(worlds, events, i);
      OpenedStays(worlds[i], events[i], id);
      RunKeepsOpened(worlds, events, i + 1, j, id);
    }
  }

  /** However the verifications of one pending login interleave, at most one of them opens a session. */
  lemma OneSessionPerLogin(worlds: seq<World>, events: seq<Event>, i: nat, j: nat, id: PendingId)
    requires IsRun(worlds, events) && i < j < |events| && OpenedLogin(worlds[i], events[i]) == Some(id)
    ensures OpenedLogin(worlds[j], events[j]) != Some(id)
  {
    RunStep(worlds, events, i);
    OpenedStays(worlds[i], events[i], id);
    RunKeepsOpened(worlds, events, i + 1, j, id);
    RunStep(worlds, events, j);
    OpenedStays(worlds[j], events[j], id);
  }
}
