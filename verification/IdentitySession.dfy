/** The IdP session: how long its token is used, when a refresh is due, and in which case a browser
    flow is the last way left, which not every context may take. */
module IdentitySession {
  import opened Wrappers
  import opened Text

  const REFRESH_AHEAD_SECONDS := 600
  const EXPIRY_MARGIN_SECONDS := 60

  datatype IdpSection = IdpSection(issuer: string, clientId: string, scopes: Option<string>,
                                   redirectPort: Option<nat>, authorizeUrl: string)
  {
    function NormalizedIssuer(): string {
      TrimEndSlashes(Trim(issuer))
    }

    predicate IsConfigured() {
      NormalizedIssuer() != "" && Trim(clientId) != ""
    }
  }

  /** Why no identity token came back: a browser was needed and not allowed, or the IdP failed. */
  datatype IdentityError = SignInRequired | IdentityFailed(message: string)

  /** What the IdP hands out; `exp` is the ID token's expiry claim when it is readable. */
  datatype Session = Session(idToken: string, exp: Option<int>, refreshToken: Option<string>)

  datatype CachedSession = CachedSession(issuer: string, clientId: string, token: string, exp: int,
                                         refreshToken: Option<string>)

  datatype SignIn = Allowed | CachedOnly

  datatype Advanced = Reused(token: string) | Renewed(session: CachedSession)

  datatype Step =
    | Reuse(token: string)
    | RefreshWith(refreshToken: string, stillValid: Option<string>)
    | AskForSignIn

  /** The IdP's answers to the two calls a renewal may make, each at most once. */
  datatype Provider = Provider(refresh: Result<Session, string>, signIn: Result<Session, string>)

  datatype IdpCall = SilentRefresh(refreshToken: string) | BrowserFlow

  datatype AdvanceRun = AdvanceRun(result: Result<Advanced, IdentityError>, calls: seq<IdpCall>)

  function NextStep(cached: Option<CachedSession>, now: int): Step {
    match cached
    case None => AskForSignIn
    case Some(session) =>
      var remaining := session.exp - now;
      match session.refreshToken
      case Some(refreshToken) =>
        if remaining > REFRESH_AHEAD_SECONDS then Reuse(session.token)
        else RefreshWith(refreshToken, if remaining > EXPIRY_MARGIN_SECONDS then Some(session.token) else None)
      case None =>
        if remaining > EXPIRY_MARGIN_SECONDS then Reuse(session.token) else AskForSignIn
  }

  function FromSession(idp: IdpSection, session: Session): Result<Advanced, IdentityError> {
    match session.exp
    case None => Err(IdentityFailed("the IdP issued an ID token without a readable exp claim"))
    case Some(exp) =>
      Ok(Renewed(CachedSession(idp.NormalizedIssuer(), Trim(idp.clientId), session.idToken, exp, session.refreshToken)))
  }

  function BrowserSignIn(provider: Provider, idp: IdpSection, signIn: SignIn, past: seq<IdpCall>): AdvanceRun {
    match signIn
    case CachedOnly => AdvanceRun(Err(SignInRequired), past)
    case Allowed =>
      AdvanceRun(match provider.signIn case Ok(session) => FromSession(idp, session) case Err(message) => Err(IdentityFailed(message)),
               past + [BrowserFlow])
  }

  function Advance(provider: Provider, idp: IdpSection, cached: Option<CachedSession>, now: int, signIn: SignIn): AdvanceRun {
    match NextStep(cached, now)
    case Reuse(token) => AdvanceRun(Ok(Reused(token)), [])
    case AskForSignIn => BrowserSignIn(provider, idp, signIn, [])
    case RefreshWith(refreshToken, stillValid) =>
      var calls := [SilentRefresh(refreshToken)];
      match provider.refresh
      case Ok(session) => AdvanceRun(FromSession(idp, session), calls)
      case Err(_) =>
        if stillValid.Some? then AdvanceRun(Ok(Reused(stillValid.value)), calls)
        else BrowserSignIn(provider, idp, signIn, calls)
  }

  /** The cached token still has more than the expiry margin left. */
  predicate Usable(cached: Option<CachedSession>, now: int) {
    cached.Some? && cached.value.exp - now > EXPIRY_MARGIN_SECONDS
  }

  /** A refresh is due and possible. */
  predicate Refreshable(cached: Option<CachedSession>, now: int) {
    cached.Some? && cached.value.refreshToken.Some? && cached.value.exp - now <= REFRESH_AHEAD_SECONDS
  }

  /** For every mix of IdP answers: the refresh token is used exactly when a refresh is due; the browser
      opens exactly when the caller allows it, the token is not usable and no refresh worked; the cached
      token is reused exactly while it has more than the margin left and no refresh worked; a renewed
      session is what the IdP answered last, its token, expiry and refresh token, for this issuer and
      client; and a sign-in is reported missing exactly when the browser was the only way and the caller
      disallowed it. */
  lemma AdvanceIsExact(provider: Provider, idp: IdpSection, cached: Option<CachedSession>, now: int, signIn: SignIn)
    ensures
      var a := Advance(provider, idp, cached, now, signIn);
      var refreshed := Refreshable(cached, now) && provider.refresh.Ok?;
      var stuck := !Usable(cached, now) && !refreshed;
      && a.calls == (if Refreshable(cached, now) then [SilentRefresh(cached.value.refreshToken.value)] else [])
                    + (if signIn.Allowed? && stuck then [BrowserFlow] else [])
      && (BrowserFlow in a.calls <==> signIn.Allowed? && stuck)
      && (a.result == Err(SignInRequired) <==> signIn.CachedOnly? && stuck)
      && (a.result.Ok? && a.result.value.Reused? <==> Usable(cached, now) && !refreshed)
      && (a.result.Ok? && a.result.value.Reused? ==> a.result.value.token == cached.value.token)
      && (a.result.Ok? && a.result.value.Renewed? ==>
            && a.calls != []
            && var answer := if refreshed then provider.refresh else provider.signIn;
               && answer.Ok? && answer.value.exp.Some?
               && a.result.value.session.issuer == idp.NormalizedIssuer() && a.result.value.session.clientId == Trim(idp.clientId)
               && a.result.value.session.token == answer.value.idToken && a.result.value.session.exp == answer.value.exp.value
               && a.result.value.session.refreshToken == answer.value.refreshToken)
      && (Usable(cached, now) && (provider.refresh.Ok? ==> provider.refresh.value.exp.Some?) ==> a.result.Ok?)
  {
    var a := Advance(provider, idp, cached, now, signIn);
    var stuck := !Usable(cached, now) && !(Refreshable(cached, now) && provider.refresh.Ok?);
    if stuck && signIn.Allowed? {
      assert a.calls[|a.calls| - 1] == BrowserFlow;
    }
  }
}
