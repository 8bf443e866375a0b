/** The Gateway session credential: the RFC 8693 token exchange with its refresh
    (section 6 of RFC 6749) and re-registration fall-through, and the lifetime
    arithmetic that decides when a cached credential is served, renewed or dropped. */
module GatewayCredential {
  import opened IdentitySession
  import opened Wrappers

  const CREDENTIAL_REFRESH_SKEW_SECONDS := 600
  const ASSUMED_CREDENTIAL_LIFETIME_SECONDS := 3600
  const INVALID_CLIENT := "invalid_client"

  datatype Renewal = NearExpiry | HalfLife

  datatype CredentialRequest = CredentialRequest(gatewayUrl: string, team: Option<string>, renewal: Renewal)

  datatype Document = Document(tokenEndpoint: string, registrationEndpoint: string, resource: Option<string>)

  datatype Discovery = Supported(document: Document) | Unsupported

  datatype IssuedTokens = IssuedTokens(
    accessToken: string,
    refreshToken: Option<string>,
    expiresIn: Option<int>,
    userId: Option<string>,
    teamId: Option<string>)

  /** A grant is issued or refused. What leaves that open, such as a connection that fails or a server
      in trouble, is no reply but an error of the call. */
  datatype TokenReply = TokensIssued(tokens: IssuedTokens) | TokensRefused(status: nat, error: string)

  datatype Grant =
    | Exchange(clientId: string, subjectToken: string, team: Option<string>)
    | Refresh(clientId: string, refreshToken: string)

  datatype Error =
    | SignInFailed(cause: IdentityError)
    | ExchangeRefused(status: nat, code: string, team: Option<string>)
    | UnknownFreshClient
    | Transport(message: string)

  /** What is asked of the world, in order. */
  datatype Call =
    | Discover(gatewayUrl: string)
    | IdentityToken
    | Register(endpoint: string)
    | Token(document: Document, grant: Grant)

  /** An authorization server that may answer every call differently: each answer
      depends on the whole history of calls, the current one included. */
  datatype Server = Server(
    discover: seq<Call> -> Result<Discovery, string>,
    register: seq<Call> -> Result<string, string>,
    token: seq<Call> -> Result<TokenReply, string>)

  /** i64 division truncates toward zero; `/` in this language does not. */
  function HalvedTowardZero(x: int): int {
    if x >= 0 then x / 2 else -((-x) / 2)
  }

  datatype CachedCredential = CachedCredential(
    gatewayUrl: string,
    team: Option<string>,
    clientId: string,
    accessToken: string,
    refreshToken: Option<string>,
    expiresAt: int,
    issuedAt: int,
    userId: Option<string>,
    teamId: Option<string>)
  {
    predicate Matches(request: CredentialRequest) {
      gatewayUrl == request.gatewayUrl && team == request.team
    }

    predicate IsFresh(now: int, renewal: Renewal) {
      match renewal
      case NearExpiry => expiresAt > now + CREDENTIAL_REFRESH_SKEW_SECONDS
      case HalfLife => expiresAt - now > HalvedTowardZero(expiresAt - issuedAt)
    }

    predicate IsValid(now: int) {
      expiresAt > now
    }

    function Dead(now: int): CachedCredential {
      this.(expiresAt := now)
    }

    function Renewed(tokens: IssuedTokens, now: int): CachedCredential {
      CachedCredential(gatewayUrl, team, clientId, tokens.accessToken,
                       if tokens.refreshToken.Some? then tokens.refreshToken else refreshToken,
                       ExpiresAt(tokens.expiresIn, now), now,
                       if tokens.userId.Some? then tokens.userId else userId,
                       if tokens.teamId.Some? then tokens.teamId else teamId)
    }
  }

  function ExpiresAt(expiresIn: Option<int>, now: int): int {
    now + (if expiresIn.Some? then expiresIn.value else ASSUMED_CREDENTIAL_LIFETIME_SECONDS)
  }

  function NewCredential(request: CredentialRequest, clientId: string, tokens: IssuedTokens, now: int)
    : CachedCredential
  {
    CachedCredential(request.gatewayUrl, request.team, clientId, tokens.accessToken, tokens.refreshToken,
                     ExpiresAt(tokens.expiresIn, now), now, tokens.userId, tokens.teamId)
  }

  datatype Resolved = IssuedCredential(credential: CachedCredential, changed: bool) | NoExchange

  /** A result together with the calls made so far. */
  datatype Outcome<+T> = Outcome(result: Result<T, Error>, calls: seq<Call>)

  function Find(store: seq<CachedCredential>, request: CredentialRequest): Option<CachedCredential> {
    if store == [] then None
    else if store[0].Matches(request) then Some(store[0])
    else Find(store[1..], request)
  }

  function Fresh(store: seq<CachedCredential>, request: CredentialRequest, now: int): Option<CachedCredential> {
    match Find(store, request)
    case Some(credential) => if credential.IsFresh(now, request.renewal) then Some(credential) else None
    case None => None
  }

  function Resolve(server: Server, identity: Result<string, IdentityError>, store: seq<CachedCredential>,
                   request: CredentialRequest, now: int): Outcome<Resolved>
  {
    match Fresh(store, request, now)
    case Some(credential) => Outcome(Ok(IssuedCredential(credential, false)), [])
    case None =>
      var cached := Find(store, request);
      var renewed := Renew(server, identity, cached, request, now);
      if renewed.result.Err?
      then Outcome(ReuseWhileValid(cached, now, renewed.result.error), renewed.calls)
      else renewed
  }

  function Renew(server: Server, identity: Result<string, IdentityError>, cached: Option<CachedCredential>,
                 request: CredentialRequest, now: int): Outcome<Resolved>
  {
    var calls := [Discover(request.gatewayUrl)];
    match server.discover(calls)
    case Err(message) => Outcome(Err(Transport(message)), calls)
    case Ok(Unsupported) => Outcome(Ok(NoExchange), calls)
    case Ok(Supported(document)) =>
      var refreshed := if cached.Some? then TryRefresh(server, document, cached.value, calls) else Outcome(Ok(None), calls);
      match refreshed.result
      case Err(error) => Outcome(Err(error), refreshed.calls)
      case Ok(Some(tokens)) =>
        assert cached.Some?;
        Outcome(Ok(IssuedCredential(cached.value.Renewed(tokens, now), true)), refreshed.calls)
      case Ok(None) =>
        var asked := refreshed.calls + [IdentityToken];
        match identity
        case Err(cause) => Outcome(Err(SignInFailed(cause)), asked)
        case Ok(subjectToken) =>
          var knownClient := if cached.Some? then Some(cached.value.clientId) else None;
          var exchanged := ExchangeFor(server, document, subjectToken, request, knownClient, asked);
          match exchanged.result
          case Err(error) => Outcome(Err(error), exchanged.calls)
          case Ok((clientId, tokens)) =>
            Outcome(Ok(IssuedCredential(NewCredential(request, clientId, tokens, now), true)), exchanged.calls)
  }

  function ReuseWhileValid(cached: Option<CachedCredential>, now: int, error: Error): Result<Resolved, Error> {
    if cached.Some? && cached.value.IsValid(now) then Ok(IssuedCredential(cached.value, false)) else Err(error)
  }

  function TryRefresh(server: Server, document: Document, credential: CachedCredential, past: seq<Call>)
    : (o: Outcome<Option<IssuedTokens>>)
    ensures credential.refreshToken.None? ==> o == Outcome(Ok(None), past)
  {
    match credential.refreshToken
    case None => Outcome(Ok(None), past)
    case Some(refreshToken) =>
      var calls := past + [Token(document, Refresh(credential.clientId, refreshToken))];
      match server.token(calls)
      case Err(message) => Outcome(Err(Transport(message)), calls)
      case Ok(TokensIssued(tokens)) => Outcome(Ok(Some(tokens)), calls)
      case Ok(TokensRefused(_, _)) => Outcome(Ok(None), calls)
  }

  function ExchangeFor(server: Server, document: Document, subjectToken: string, request: CredentialRequest,
                       knownClient: Option<string>, past: seq<Call>): Outcome<(string, IssuedTokens)>
  {
    var first := if knownClient.Some?
                 then AttemptExchange(server, document, knownClient.value, subjectToken, request.team, past)
                 else Outcome(Ok(None), past);
    match first.result
    case Err(error) => Outcome(Err(error), first.calls)
    case Ok(Some(tokens)) =>
      assert knownClient.Some?;
      Outcome(Ok((knownClient.value, tokens)), first.calls)
    case Ok(None) =>
      var calls := first.calls + [Register(document.registrationEndpoint)];
      match server.register(calls)
      case Err(message) => Outcome(Err(Transport(message)), calls)
      case Ok(clientId) =>
        var second := AttemptExchange(server, document, clientId, subjectToken, request.team, calls);
        match second.result
        case Err(error) => Outcome(Err(error), second.calls)
        case Ok(Some(tokens)) => Outcome(Ok((clientId, tokens)), second.calls)
        case Ok(None) => Outcome(Err(UnknownFreshClient), second.calls)
  }

  /** `Ok(None)` says the Gateway does not know the client. */
  function AttemptExchange(server: Server, document: Document, clientId: string, subjectToken: string,
                           team: Option<string>, past: seq<Call>): Outcome<Option<IssuedTokens>>
  {
    var calls := past + [Token(document, Exchange(clientId, subjectToken, team))];
    match server.token(calls)
    case Err(message) => Outcome(Err(Transport(message)), calls)
    case Ok(TokensIssued(tokens)) => Outcome(Ok(Some(tokens)), calls)
    case Ok(TokensRefused(status, code)) =>
      if code == INVALID_CLIENT then Outcome(Ok(None), calls)
      else Outcome(Err(ExchangeRefused(status, code, team)), calls)
  }

  predicate SameSlot(a: CachedCredential, b: CachedCredential) {
    a.gatewayUrl == b.gatewayUrl && a.team == b.team
  }

  function Others(store: seq<CachedCredential>, credential: CachedCredential): seq<CachedCredential> {
    if store == [] then []
    else (if SameSlot(store[0], credential) then [] else [store[0]]) + Others(store[1..], credential)
  }

  function Upsert(store: seq<CachedCredential>, credential: CachedCredential): seq<CachedCredential> {
    Others(store, credential) + [credential]
  }

  // ---------------------------------------------------------------- lifetimes

  lemma FreshImpliesValid(c: CachedCredential, now: int, renewal: Renewal)
    requires c.issuedAt <= now
    requires c.IsFresh(now, renewal)
    ensures c.IsValid(now)
  {
  }

  /** Half-life freshness implies validity for every lifetime a Gateway may state, negative ones
      included, exactly when the credential was issued at most one second in the future. */
  lemma FreshImpliesValidExactly(issuedAt: int, now: int)
    ensures (forall c: CachedCredential :: c.issuedAt == issuedAt && c.IsFresh(now, HalfLife) ==> c.IsValid(now))
            <==> issuedAt <= now + 1
  {
    if issuedAt > now + 1 {
      var c := CachedCredential("", None, "", "", None, now, issuedAt, None, None);
      assert c.IsFresh(now, HalfLife) && !c.IsValid(now);
    }
  }

  /** Marked dead at `marked`, a credential counts as neither fresh nor valid at any later time. */
  lemma DeadStaysDead(c: CachedCredential, marked: int, now: int, renewal: Renewal)
    requires c.issuedAt <= marked <= now
    ensures !c.Dead(marked).IsValid(now) && !c.Dead(marked).IsFresh(now, renewal)
  {
    if c.Dead(marked).IsFresh(now, renewal) {
      FreshImpliesValid(c.Dead(marked), now, renewal);
    }
  }

  // ------------------------------------------------------- what one resolution asks

  datatype Kind = Discovers | Identities | Registers | Refreshes | Exchanges

  function KindOf(call: Call): Kind {
    match call
    case Discover(_) => Discovers
    case IdentityToken => Identities
    case Register(_) => Registers
    case Token(_, Refresh(_, _)) => Refreshes
    case Token(_, Exchange(_, _, _)) => Exchanges
  }

  function Count(calls: seq<Call>, kind: Kind): nat {
    if calls == [] then 0
    else Count(calls[..|calls| - 1], kind) + (if KindOf(calls[|calls| - 1]) == kind then 1 else 0)
  }

  lemma EmptyCount(kind: Kind)
    ensures Count([], kind) == 0
  {
  }

  lemma CountOne(calls: seq<Call>, call: Call, kind: Kind)
    ensures Count(calls + [call], kind) == Count(calls, kind) + (if KindOf(call) == kind then 1 else 0)
  {
    assert (calls + [call])[..|calls|] == calls;
  }

  lemma AttemptCalls(server: Server, document: Document, clientId: string, subjectToken: string, team: Option<string>,
                     past: seq<Call>, kind: Kind)
    ensures var attempt := AttemptExchange(server, document, clientId, subjectToken, team, past);
            && past <= attempt.calls
            && Count(attempt.calls, kind) == Count(past, kind) + (if kind == Exchanges then 1 else 0)
  {
    CountOne(past, Token(document, Exchange(clientId, subjectToken, team)), kind);
  }

  lemma ExchangeCalls(server: Server, document: Document, subjectToken: string, request: CredentialRequest,
                      knownClient: Option<string>, past: seq<Call>, kind: Kind)
    ensures var calls := ExchangeFor(server, document, subjectToken, request, knownClient, past).calls;
            past <= calls
            && Count(calls, kind) <= Count(past, kind)
                 + (if kind == Exchanges then (if knownClient.Some? then 2 else 1) else if kind == Registers then 1 else 0)
  {
    hide AttemptExchange, Count;
    var calls := past;
    if knownClient.Some? {
      AttemptCalls(server, document, knownClient.value, subjectToken, request.team, past, kind);
      calls := AttemptExchange(server, document, knownClient.value, subjectToken, request.team, past).calls;
    }
    CountOne(calls, Register(document.registrationEndpoint), kind);
    calls := calls + [Register(document.registrationEndpoint)];
    if server.register(calls).Ok? {
      AttemptCalls(server, document, server.register(calls).value, subjectToken, request.team, calls, kind);
    }
  }

  function Bound(kind: Kind): nat {
    if kind == Exchanges then 2 else 1
  }

  lemma RefreshCalls(server: Server, document: Document, credential: CachedCredential, past: seq<Call>, kind: Kind)
    ensures Count(TryRefresh(server, document, credential, past).calls, kind)
         <= Count(past, kind) + (if kind == Refreshes then 1 else 0)
  {
    if credential.refreshToken.Some? {
      CountOne(past, Token(document, Refresh(credential.clientId, credential.refreshToken.value)), kind);
    }
  }

  /** Whatever the server answers, one resolution discovers, refreshes, registers and asks for the
      identity token at most once each, and exchanges at most twice. */
  lemma ResolveIsBounded(server: Server, identity: Result<string, IdentityError>, store: seq<CachedCredential>,
                         request: CredentialRequest, now: int, kind: Kind)
    ensures Count(Resolve(server, identity, store, request, now).calls, kind) <= Bound(kind)
  {
    if Fresh(store, request, now).None? {
      RenewIsBounded(server, identity, Find(store, request), request, now, kind);
    }
  }

  lemma RenewIsBounded(server: Server, identity: Result<string, IdentityError>, cached: Option<CachedCredential>,
                       request: CredentialRequest, now: int, kind: Kind)
    ensures Count(Renew(server, identity, cached, request, now).calls, kind) <= Bound(kind)
  {
    hide ExchangeFor, TryRefresh, Count;
    EmptyCount(kind);
    var calls := [Discover(request.gatewayUrl)];
    CountOne([], calls[0], kind);
    assert [] + calls == calls;
    if server.discover(calls).Ok? && server.discover(calls).value.Supported? {
      var document := server.discover(calls).value.document;
      if cached.Some? {
        RefreshCalls(server, document, cached.value, calls, kind);
      }
      var refreshed := if cached.Some? then TryRefresh(server, document, cached.value, calls) else Outcome(Ok(None), calls);
      if refreshed.result == Ok(None) {
        CountOne(refreshed.calls, IdentityToken, kind);
        if identity.Ok? {
          ExchangeCalls(server, document, identity.value, request,
                        if cached.Some? then Some(cached.value.clientId) else None,
                        refreshed.calls + [IdentityToken], kind);
        }
      }
    }
  }

  // ------------------------------------------------------- what one resolution returns

  lemma FindSound(store: seq<CachedCredential>, request: CredentialRequest)
    ensures Find(store, request).Some? ==> Find(store, request).value in store && Find(store, request).value.Matches(request)
  {
  }

  /** The tokens a successful exchange returns are the ones the server issued in its last answer,
      for the identity token and team asked for, under the client named in the result. */
  lemma ExchangeSound(server: Server, document: Document, subjectToken: string, request: CredentialRequest,
                      knownClient: Option<string>, past: seq<Call>)
    ensures var o := ExchangeFor(server, document, subjectToken, request, knownClient, past);
            o.result.Ok? ==>
              o.calls != []
              && o.calls[|o.calls| - 1] == Token(document, Exchange(o.result.value.0, subjectToken, request.team))
              && server.token(o.calls) == Ok(TokensIssued(o.result.value.1))
  {
  }

  /** Every outcome, for every server script: an unchanged credential is the cached entry and still
      valid; a changed one is for the requested gateway and team, was issued now, and carries the
      access token of the server's last answer; a failure means no valid entry was cached; and a
      gateway without the exchange is found out by the one discovery call. */
  lemma ResolveSound(server: Server, identity: Result<string, IdentityError>, store: seq<CachedCredential>,
                     request: CredentialRequest, now: int)
    requires Find(store, request).Some? ==> Find(store, request).value.issuedAt <= now
    ensures
      var o := Resolve(server, identity, store, request, now);
      match o.result
      case Ok(IssuedCredential(c, false)) => Find(store, request) == Some(c) && c.IsValid(now)
      case Ok(IssuedCredential(c, true)) =>
        && c.Matches(request) && c.issuedAt == now
        && o.calls != [] && o.calls[|o.calls| - 1].Token?
        && server.token(o.calls).Ok? && server.token(o.calls).value.TokensIssued?
        && c.accessToken == server.token(o.calls).value.tokens.accessToken
        && c.expiresAt == ExpiresAt(server.token(o.calls).value.tokens.expiresIn, now)
      case Ok(NoExchange) => o.calls == [Discover(request.gatewayUrl)] && server.discover(o.calls) == Ok(Unsupported)
      case Err(_) => !(Find(store, request).Some? && Find(store, request).value.IsValid(now))
  {
    FindSound(store, request);
    var cached := Find(store, request);
    if Fresh(store, request, now).Some? {
      FreshImpliesValid(cached.value, now, request.renewal);
    } else {
      var calls := [Discover(request.gatewayUrl)];
      if server.discover(calls).Ok? && server.discover(calls).value.Supported? {
        var document := server.discover(calls).value.document;
        var refreshed := if cached.Some? then TryRefresh(server, document, cached.value, calls) else Outcome(Ok(None), calls);
        if refreshed.result == Ok(None) && identity.Ok? {
          ExchangeSound(server, document, identity.value, request,
                        if cached.Some? then Some(cached.value.clientId) else None,
                        refreshed.calls + [IdentityToken]);
        }
      }
    }
  }

  // ------------------------------------------------------- the fall-through, call by call

  /** What is asked next, given what was asked and answered: discovery first; then the cached refresh
      token is redeemed; where there is none or it was refused, the identity token is asked for and
      exchanged under the known client; where there is none or it was disowned, a client is registered
      and the token exchanged under that one. Any other answer ends the chain. */
  function NextCall(server: Server, identity: Result<string, IdentityError>, cached: Option<CachedCredential>,
                    request: CredentialRequest, past: seq<Call>): Option<Call>
  {
    if past == [] then Some(Discover(request.gatewayUrl))
    else
      match server.discover(past[..1])
      case Ok(Supported(document)) =>
        (match past[|past| - 1]
         case Discover(_) =>
           if cached.Some? && cached.value.refreshToken.Some?
           then Some(Token(document, Refresh(cached.value.clientId, cached.value.refreshToken.value))) else Some(IdentityToken)
         case Token(_, Refresh(_, _)) =>
           if server.token(past).Ok? && server.token(past).value.TokensRefused? then Some(IdentityToken) else None
         case IdentityToken =>
           if identity.Err? then None
           else if cached.Some? then Some(Token(document, Exchange(cached.value.clientId, identity.value, request.team)))
           else Some(Register(document.registrationEndpoint))
         case Token(_, Exchange(_, _, _)) =>
           if past[..|past| - 1] != [] && past[|past| - 2].IdentityToken? && Disowns(server, past)
           then Some(Register(document.registrationEndpoint)) else None
         case Register(_) =>
           if server.register(past).Ok? && identity.Ok?
           then Some(Token(document, Exchange(server.register(past).value, identity.value, request.team))) else None)
      case _ => None
  }

  /** The last call was answered that the client is unknown. */
  predicate Disowns(server: Server, calls: seq<Call>) {
    server.token(calls).Ok? && server.token(calls).value.TokensRefused? && server.token(calls).value.error == INVALID_CLIENT
  }

  ghost predicate IsRun(server: Server, identity: Result<string, IdentityError>, cached: Option<CachedCredential>,
                        request: CredentialRequest, calls: seq<Call>)
  {
    forall i :: 0 <= i < |calls| ==> NextCall(server, identity, cached, request, calls[..i]) == Some(calls[i])
  }

  lemma RunGoesOn(server: Server, identity: Result<string, IdentityError>, cached: Option<CachedCredential>,
                  request: CredentialRequest, calls: seq<Call>, call: Call)
    requires IsRun(server, identity, cached, request, calls) && NextCall(server, identity, cached, request, calls) == Some(call)
    ensures IsRun(server, identity, cached, request, calls + [call])
  {
    forall i | 0 <= i < |calls| + 1
      ensures NextCall(server, identity, cached, request, (calls + [call])[..i]) == Some((calls + [call])[i])
    {
      assert (calls + [call])[..i] == calls[..i];
      assert i == |calls| ==> calls[..i] == calls;
    }
  }

  /** The resolution of a credential that is not fresh goes through exactly those calls, to their end. */
  lemma RenewalIsTheRun(server: Server, identity: Result<string, IdentityError>, cached: Option<CachedCredential>,
                        request: CredentialRequest, now: int)
    ensures var calls := Renew(server, identity, cached, request, now).calls;
            && calls != [] && IsRun(server, identity, cached, request, calls)
            && NextCall(server, identity, cached, request, calls).None?
  {
    hide IsRun, NextCall;
    var calls := [Discover(request.gatewayUrl)];
    FirstCall(server, identity, cached, request);
    if server.discover(calls).Ok? && server.discover(calls).value.Supported? {
      var document := server.discover(calls).value.document;
      var refreshed := if cached.Some? then TryRefresh(server, document, cached.value, calls) else Outcome(Ok(None), calls);
      RefreshRuns(server, identity, cached, request, document);
      if refreshed.result == Ok(None) && identity.Ok? {
        var known := if cached.Some? then Some(cached.value.clientId) else None;
        ExchangeRuns(server, identity, cached, request, document, known, refreshed.calls + [IdentityToken]);
      }
    }
  }

  lemma FirstCall(server: Server, identity: Result<string, IdentityError>, cached: Option<CachedCredential>, request: CredentialRequest)
    ensures var calls := [Discover(request.gatewayUrl)];
            && IsRun(server, identity, cached, request, calls)
            && (NextCall(server, identity, cached, request, calls).None?
                <==> !(server.discover(calls).Ok? && server.discover(calls).value.Supported?))
  {
    RunGoesOn(server, identity, cached, request, [], Discover(request.gatewayUrl));
    assert [] + [Discover(request.gatewayUrl)] == [Discover(request.gatewayUrl)];
    assert [Discover(request.gatewayUrl)][..1] == [Discover(request.gatewayUrl)];
  }

  lemma RefreshRuns(server: Server, identity: Result<string, IdentityError>, cached: Option<CachedCredential>,
                    request: CredentialRequest, document: Document)
    requires server.discover([Discover(request.gatewayUrl)]) == Ok(Supported(document))
    ensures
      var calls := [Discover(request.gatewayUrl)];
      var refreshed := if cached.Some? then TryRefresh(server, document, cached.value, calls) else Outcome(Ok(None), calls);
      if refreshed.result == Ok(None) then
        var asked := refreshed.calls + [IdentityToken];
        && IsRun(server, identity, cached, request, asked) && asked[..1] == calls && asked[|asked| - 1] == IdentityToken
        && (NextCall(server, identity, cached, request, asked).None? <==> identity.Err?)
      else IsRun(server, identity, cached, request, refreshed.calls) && NextCall(server, identity, cached, request, refreshed.calls).None?
  {
    hide IsRun;
    var calls := [Discover(request.gatewayUrl)];
    FirstCall(server, identity, cached, request);
    if cached.Some? && cached.value.refreshToken.Some? {
      var redeem := Token(document, Refresh(cached.value.clientId, cached.value.refreshToken.value));
      RunGoesOn(server, identity, cached, request, calls, redeem);
      calls := calls + [redeem];
    }
    assert calls[..1] == [Discover(request.gatewayUrl)];
    if NextCall(server, identity, cached, request, calls) == Some(IdentityToken) {
      RunGoesOn(server, identity, cached, request, calls, IdentityToken);
      assert (calls + [IdentityToken])[..1] == [Discover(request.gatewayUrl)];
    }
  }

  /** What is asked once the identity token is there. */
  lemma AfterTheToken(server: Server, identity: Result<string, IdentityError>, cached: Option<CachedCredential>,
                      request: CredentialRequest, document: Document, past: seq<Call>)
    requires server.discover([Discover(request.gatewayUrl)]) == Ok(Supported(document)) && identity.Ok?
    requires past != [] && past[..1] == [Discover(request.gatewayUrl)]
    ensures past[|past| - 1].IdentityToken? ==>
      NextCall(server, identity, cached, request, past)
        == Some(if cached.Some? then Token(document, Exchange(cached.value.clientId, identity.value, request.team))
                else Register(document.registrationEndpoint))
    ensures past[|past| - 1].Token? && past[|past| - 1].grant.Exchange? ==>
      NextCall(server, identity, cached, request, past)
        == if |past| > 1 && past[|past| - 2].IdentityToken? && Disowns(server, past) then Some(Register(document.registrationEndpoint)) else None
    ensures past[|past| - 1].Register? ==>
      NextCall(server, identity, cached, request, past)
        == if server.register(past).Ok? then Some(Token(document, Exchange(server.register(past).value, identity.value, request.team))) else None
  {
  }

  lemma ExchangeRuns(server: Server, identity: Result<string, IdentityError>, cached: Option<CachedCredential>,
                     request: CredentialRequest, document: Document, known: Option<string>, asked: seq<Call>)
    requires server.discover([Discover(request.gatewayUrl)]) == Ok(Supported(document)) && identity.Ok?
    requires known == (if cached.Some? then Some(cached.value.clientId) else None)
    requires IsRun(server, identity, cached, request, asked) && asked != [] && asked[..1] == [Discover(request.gatewayUrl)]
    requires asked[|asked| - 1] == IdentityToken
    ensures var calls := ExchangeFor(server, document, identity.value, request, known, asked).calls;
            && calls != [] && IsRun(server, identity, cached, request, calls)
            && NextCall(server, identity, cached, request, calls).None?
  {
    hide IsRun, NextCall;
    var calls := asked;
    AfterTheToken(server, identity, cached, request, document, calls);
    if known.Some? {
      calls := Extended(server, identity, cached, request, document, calls, Token(document, Exchange(known.value, identity.value, request.team)));
    }
    if known.None? || Disowns(server, calls) {
      calls := Extended(server, identity, cached, request, document, calls, Register(document.registrationEndpoint));
      if server.register(calls).Ok? {
        calls := Extended(server, identity, cached, request, document, calls,
                          Token(document, Exchange(server.register(calls).value, identity.value, request.team)));
      }
    }
  }

  lemma Extended(server: Server, identity: Result<string, IdentityError>, cached: Option<CachedCredential>,
                 request: CredentialRequest, document: Document, past: seq<Call>, call: Call) returns (calls: seq<Call>)
    requires server.discover([Discover(request.gatewayUrl)]) == Ok(Supported(document)) && identity.Ok?
    requires past != [] && past[..1] == [Discover(request.gatewayUrl)] && IsRun(server, identity, cached, request, past)
    requires NextCall(server, identity, cached, request, past) == Some(call)
    ensures calls == past + [call] && IsRun(server, identity, cached, request, calls) && calls[..1] == [Discover(request.gatewayUrl)]
    ensures call.Token? && call.grant.Exchange? ==>
      NextCall(server, identity, cached, request, calls)
        == if past[|past| - 1].IdentityToken? && Disowns(server, calls) then Some(Register(document.registrationEndpoint)) else None
    ensures call.Register? ==>
      NextCall(server, identity, cached, request, calls)
        == if server.register(calls).Ok? then Some(Token(document, Exchange(server.register(calls).value, identity.value, request.team))) else None
  {
    hide IsRun, NextCall;
    calls := past + [call];
    RunGoesOn(server, identity, cached, request, past, call);
    assert calls[..1] == past[..1];
    AfterTheToken(server, identity, cached, request, document, calls);
  }

  /** The last call was answered with tokens. */
  predicate LastGranted(server: Server, calls: seq<Call>) {
    calls != [] && calls[|calls| - 1].Token? && server.token(calls).Ok? && server.token(calls).value.TokensIssued?
  }

  /** What a resolution comes to, for every server, by what is cached and the answer to its last call. A
      fresh credential takes no call. There is no exchange exactly when the Gateway says so: a discovery
      that failed does not. Tokens granted are the result, under the client they were granted to, with
      the refresh token and the ids kept where the answer to a refresh has none. Otherwise the cached
      credential is returned unchanged while it is valid, and else the failure. */
  lemma ResolvedExactly(server: Server, identity: Result<string, IdentityError>, store: seq<CachedCredential>,
                        request: CredentialRequest, now: int)
    ensures
      var o, cached := Resolve(server, identity, store, request, now), Find(store, request);
      if cached.Some? && cached.value.IsFresh(now, request.renewal) then o == Outcome(Ok(IssuedCredential(cached.value, false)), [])
      else
        && o.calls != [] && IsRun(server, identity, cached, request, o.calls) && NextCall(server, identity, cached, request, o.calls).None?
        && (o.result == Ok(NoExchange) <==> server.discover([Discover(request.gatewayUrl)]) == Ok(Unsupported))
        && (if o.result == Ok(NoExchange) then true
            else if LastGranted(server, o.calls) then
              o.result == Ok(IssuedCredential(CredentialOf(o.calls[|o.calls| - 1].grant, cached, server.token(o.calls).value.tokens, request, now), true))
            else if cached.Some? && cached.value.IsValid(now) then o.result == Ok(IssuedCredential(cached.value, false))
            else o.result.Err? && FailedBy(server, identity, request, o.calls, o.result.error))
  {
    hide IsRun, NextCall, Renew;
    var cached := Find(store, request);
    FindSound(store, request);
    RenewalIsTheRun(server, identity, cached, request, now);
    RenewalEnds(server, identity, cached, request, now);
  }

  lemma RenewalEnds(server: Server, identity: Result<string, IdentityError>, cached: Option<CachedCredential>,
                    request: CredentialRequest, now: int)
    requires cached.Some? ==> cached.value.Matches(request)
    ensures
      var o := Renew(server, identity, cached, request, now);
      && o.calls != []
      && (o.result == Ok(NoExchange) <==> server.discover([Discover(request.gatewayUrl)]) == Ok(Unsupported))
      && (o.result != Ok(NoExchange) ==> (o.result.Ok? <==> LastGranted(server, o.calls)))
      && (o.result != Ok(NoExchange) && o.result.Ok? ==>
            o.result.value == IssuedCredential(CredentialOf(o.calls[|o.calls| - 1].grant, cached, server.token(o.calls).value.tokens, request, now), true))
      && (o.result.Err? ==> FailedBy(server, identity, request, o.calls, o.result.error))
  {
    hide ExchangeFor;
    var calls := [Discover(request.gatewayUrl)];
    if server.discover(calls).Ok? && server.discover(calls).value.Supported? {
      var document := server.discover(calls).value.document;
      var refreshed := if cached.Some? then TryRefresh(server, document, cached.value, calls) else Outcome(Ok(None), calls);
      if refreshed.result == Ok(None) && identity.Ok? {
        ExchangeEnds(server, identity, document, identity.value, request,
                     if cached.Some? then Some(cached.value.clientId) else None, refreshed.calls + [IdentityToken]);
      }
    }
  }

  /** The credential a grant of tokens makes. */
  function CredentialOf(grant: Grant, cached: Option<CachedCredential>, tokens: IssuedTokens, request: CredentialRequest, now: int): CachedCredential {
    var kept := if grant.Refresh? then cached else None;
    CachedCredential(
      request.gatewayUrl, request.team, grant.clientId, tokens.accessToken,
      if tokens.refreshToken.None? && kept.Some? then kept.value.refreshToken else tokens.refreshToken,
      now + (match tokens.expiresIn case Some(seconds) => seconds case None => 3600), now,
      if tokens.userId.None? && kept.Some? then kept.value.userId else tokens.userId,
      if tokens.teamId.None? && kept.Some? then kept.value.teamId else tokens.teamId)
  }

  /** The failure of the last call. */
  predicate FailedBy(server: Server, identity: Result<string, IdentityError>, request: CredentialRequest, calls: seq<Call>, error: Error)
    requires calls != []
  {
    match calls[|calls| - 1]
    case Discover(_) => server.discover(calls).Err? && error == Transport(server.discover(calls).error)
    case IdentityToken => identity.Err? && error == SignInFailed(identity.error)
    case Register(_) => server.register(calls).Err? && error == Transport(server.register(calls).error)
    case Token(_, _) =>
      (match server.token(calls)
       case Err(message) => error == Transport(message)
       case Ok(TokensIssued(_)) => false
       case Ok(TokensRefused(status, code)) =>
         error == if code == INVALID_CLIENT then UnknownFreshClient else ExchangeRefused(status, code, request.team))
  }

  lemma ExchangeEnds(server: Server, identity: Result<string, IdentityError>, document: Document, subjectToken: string,
                     request: CredentialRequest, knownClient: Option<string>, past: seq<Call>)
    ensures var o := ExchangeFor(server, document, subjectToken, request, knownClient, past);
            && o.calls != [] && (o.result.Ok? <==> LastGranted(server, o.calls))
            && (o.result.Ok? ==> o.calls[|o.calls| - 1] == Token(document, Exchange(o.result.value.0, subjectToken, request.team))
                                 && server.token(o.calls) == Ok(TokensIssued(o.result.value.1)))
            && (o.result.Err? ==> FailedBy(server, identity, request, o.calls, o.result.error))
  {
  }

  /** Without a cached credential nothing is issued unless an identity token is there to exchange. */
  lemma NothingWithoutIdentity(server: Server, identity: Result<string, IdentityError>, store: seq<CachedCredential>,
                               request: CredentialRequest, now: int)
    requires Find(store, request).None? && identity.Err?
    ensures var result := Resolve(server, identity, store, request, now).result;
            result.Ok? ==> result.value.NoExchange?
  {
    var calls := [Discover(request.gatewayUrl)];
    assert server.discover(calls).Err? || server.discover(calls).value.Unsupported? || server.discover(calls).value.Supported?;
  }

  /** Without a cached credential nothing is issued unless the identity token was asked for. */
  lemma NothingIssuedUnasked(server: Server, identity: Result<string, IdentityError>, store: seq<CachedCredential>,
                             request: CredentialRequest, now: int)
    requires Find(store, request).None?
    ensures var o := Resolve(server, identity, store, request, now);
            o.result.Ok? && o.result.value.IssuedCredential? ==> identity.Ok? && IdentityToken in o.calls
  {
    var calls := [Discover(request.gatewayUrl)];
    if server.discover(calls).Ok? && server.discover(calls).value.Supported? && identity.Ok? {
      var asked := calls + [IdentityToken];
      ExchangeExtends(server, server.discover(calls).value.document, identity.value, request, asked);
      assert asked[|asked| - 1] == IdentityToken;
    }
  }

  lemma ExchangeExtends(server: Server, document: Document, subjectToken: string, request: CredentialRequest, past: seq<Call>)
    ensures past <= ExchangeFor(server, document, subjectToken, request, None, past).calls
  {
  }

  /** The order of the fall-through, for every server: discovery first; the identity token is asked
      for only after a cached refresh token was redeemed and refused; a client is registered only
      when none was known or the Gateway disowned the known one; and a missing sign-in fails the
      resolution only when the identity token was asked for. */
  lemma FallThroughOrder(server: Server, identity: Result<string, IdentityError>, cached: Option<CachedCredential>,
                         request: CredentialRequest, now: int)
    ensures
      var o := Renew(server, identity, cached, request, now);
      && o.calls != [] && o.calls[0] == Discover(request.gatewayUrl)
      && (IdentityToken in o.calls && cached.Some? && cached.value.refreshToken.Some? ==>
            && |o.calls| > 1 && o.calls[1].Token?
            && o.calls[1].grant == Refresh(cached.value.clientId, cached.value.refreshToken.value)
            && server.token(o.calls[..2]).Ok? && server.token(o.calls[..2]).value.TokensRefused?)
      && (Registered(o.calls) && cached.Some? ==> Disowned(server, o.calls, cached.value.clientId, request.team))
      && (o.result.Err? && o.result.error.SignInFailed? ==>
            identity == Err(o.result.error.cause) && IdentityToken in o.calls)
  {
    var o := Renew(server, identity, cached, request, now);
    var calls := [Discover(request.gatewayUrl)];
    if server.discover(calls).Ok? && server.discover(calls).value.Supported? {
      var document := server.discover(calls).value.document;
      var refreshed := if cached.Some? then TryRefresh(server, document, cached.value, calls) else Outcome(Ok(None), calls);
      if refreshed.result == Ok(None) {
        var asked := refreshed.calls + [IdentityToken];
        assert asked[|asked| - 1] == IdentityToken;
        var known := if cached.Some? then Some(cached.value.clientId) else None;
        if identity.Ok? {
          RegistersLast(server, document, identity.value, request, known, asked);
        }
        assert asked <= o.calls;
        if cached.Some? && cached.value.refreshToken.Some? {
          assert o.calls[..2] == refreshed.calls;
        }
      }
    }
  }

  predicate Registered(calls: seq<Call>) {
    exists i :: 0 <= i < |calls| && calls[i].Register?
  }

  /** Some exchange under this client was answered that the client is unknown. */
  predicate Disowned(server: Server, calls: seq<Call>, clientId: string, team: Option<string>) {
    exists i :: 0 <= i < |calls| && ExchangeUnder(calls[i], clientId, team)
                && server.token(calls[..i + 1]).Ok? && server.token(calls[..i + 1]).value.TokensRefused?
                && server.token(calls[..i + 1]).value.error == INVALID_CLIENT
  }

  predicate ExchangeUnder(call: Call, clientId: string, team: Option<string>) {
    call.Token? && call.grant.Exchange? && call.grant.clientId == clientId && call.grant.team == team
  }

  lemma RegistersLast(server: Server, document: Document, subjectToken: string, request: CredentialRequest,
                      knownClient: Option<string>, past: seq<Call>)
    requires !Registered(past)
    ensures
      var o := ExchangeFor(server, document, subjectToken, request, knownClient, past);
      && past <= o.calls
      && !(o.result.Err? && o.result.error.SignInFailed?)
      && (Registered(o.calls) && knownClient.Some? ==> Disowned(server, o.calls, knownClient.value, request.team))
  {
    var o := ExchangeFor(server, document, subjectToken, request, knownClient, past);
    if knownClient.Some? {
      var i := |past|;
      assert o.calls[..i + 1] == past + [Token(document, Exchange(knownClient.value, subjectToken, request.team))];
      assert ExchangeUnder(o.calls[i], knownClient.value, request.team);
    }
  }

  // ---------------------------------------------------------------- the store

  lemma OthersLookup(store: seq<CachedCredential>, credential: CachedCredential, request: CredentialRequest)
    ensures Find(Others(store, credential), request)
         == if credential.Matches(request) then None else Find(store, request)
  {
    if store != [] {
      OthersLookup(store[1..], credential, request);
      var rest := Others(store[1..], credential);
      assert ([store[0]] + rest)[1..] == rest;
      assert [] + rest == rest;
    }
  }

  lemma FindAppend(store: seq<CachedCredential>, last: CachedCredential, request: CredentialRequest)
    ensures Find(store + [last], request)
         == if Find(store, request).Some? then Find(store, request)
            else if last.Matches(request) then Some(last) else None
  {
    if store == [] {
      assert store + [last] == [last];
    } else {
      FindAppend(store[1..], last, request);
      assert (store + [last])[1..] == store[1..] + [last];
    }
  }

  /** The store is a map from (gateway, team): an upsert changes the one entry and no other. */
  lemma UpsertIsAMapUpdate(store: seq<CachedCredential>, credential: CachedCredential, request: CredentialRequest)
    ensures Find(Upsert(store, credential), request)
         == if credential.Matches(request) then Some(credential) else Find(store, request)
  {
    OthersLookup(store, credential, request);
    FindAppend(Others(store, credential), credential, request);
  }

  /** Afterwards exactly one entry, the last, is for the upserted gateway and team. */
  lemma UpsertedSlotIsLast(store: seq<CachedCredential>, credential: CachedCredential, i: nat)
    requires i < |Upsert(store, credential)|
    ensures SameSlot(Upsert(store, credential)[i], credential) <==> i == |Upsert(store, credential)| - 1
  {
    OthersHaveAnotherSlot(store, credential);
    assert i < |Others(store, credential)| ==> Upsert(store, credential)[i] in Others(store, credential);
  }

  lemma OthersHaveAnotherSlot(store: seq<CachedCredential>, credential: CachedCredential)
    ensures forall other :: other in Others(store, credential) ==> !SameSlot(other, credential)
  {
  }

  /** No two entries for one gateway and team. */
  predicate OneEntryPerSlot(store: seq<CachedCredential>) {
    forall i, j :: 0 <= i < j < |store| ==> !SameSlot(store[i], store[j])
  }

  lemma {:induction false} OthersKeepOnePerSlot(store: seq<CachedCredential>, credential: CachedCredential)
    requires OneEntryPerSlot(store)
    ensures OneEntryPerSlot(Others(store, credential))
    ensures forall other :: other in Others(store, credential) ==> other in store
  {
    if store != [] {
      OthersKeepOnePerSlot(store[1..], credential);
      var rest := Others(store[1..], credential);
      assert Others(store, credential) == if SameSlot(store[0], credential) then rest else [store[0]] + rest;
      forall i | 0 <= i < |rest|
        ensures !SameSlot(store[0], rest[i])
      {
        assert rest[i] in store[1..];
      }
    }
  }

  /** The store never holds two entries for one gateway and team. */
  lemma UpsertKeepsOneEntryPerSlot(store: seq<CachedCredential>, credential: CachedCredential)
    requires OneEntryPerSlot(store)
    ensures OneEntryPerSlot(Upsert(store, credential))
  {
    OthersKeepOnePerSlot(store, credential);
    OthersHaveAnotherSlot(store, credential);
    var others := Others(store, credential);
    forall i | 0 <= i < |others|
      ensures !SameSlot(others[i], credential)
    {
      assert others[i] in others;
    }
  }

  /** One renewal serves the next caller: stored, a renewed credential with a positive stated
      lifetime is found again at the same instant without a single call, for every server. */
  lemma RenewalServesTheNextCaller(server: Server, next: Server, identity: Result<string, IdentityError>,
                                   anyIdentity: Result<string, IdentityError>,
                                   store: seq<CachedCredential>, request: CredentialRequest, now: int)
    requires Find(store, request).Some? ==> Find(store, request).value.issuedAt <= now
    requires request.renewal.HalfLife?
    ensures
      var o := Resolve(server, identity, store, request, now);
      o.result.Ok? && o.result.value.IssuedCredential? && o.result.value.changed && o.result.value.credential.expiresAt > now ==>
        Resolve(next, anyIdentity, Upsert(store, o.result.value.credential), request, now)
          == Outcome(Ok(IssuedCredential(o.result.value.credential, false)), [])
  {
    ResolveSound(server, identity, store, request, now);
    var o := Resolve(server, identity, store, request, now);
    if o.result.Ok? && o.result.value.IssuedCredential? && o.result.value.changed {
      UpsertIsAMapUpdate(store, o.result.value.credential, request);
    }
  }
}
