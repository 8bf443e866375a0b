/** What the broker holds and works for, the invariant over it, and how each kind of step keeps it. */
module BrokerState {
  import opened BrokerLedger
  import opened GatewayCredential
  import opened IdentitySession
  import opened KeyLifetime
  import opened Settings
  import opened Text
  import opened Wrappers

  datatype Context = Interactive | NonInteractive

  function SignInOf(context: Context): SignIn {
    if context.Interactive? then Allowed else CachedOnly
  }

  datatype Source = KeySource | SessionSource | IdentitySource | StaticSource

  datatype Issued = Issued(token: string, expiresAt: Option<int>, source: Source, notice: Option<string>)

  datatype Refusal =
    | CallerRefused
    | SignedOut
    | SignInFailed
    | GatewayError
    | UnknownEnvironment
    | SwitchFailed
    | StaticKeyServed

  datatype Reply =
    | Credential(issued: Issued)
    | ProxyTokenIssued(proxyToken: seq<bv8>, notice: Option<string>)
    | SignedIn(userId: Option<string>)
    | SignOutDone
    | SwitchDone
    | Refused(refusal: Refusal)

  datatype ProxyBearer = ProxyBearer(token: string, gatewayUrl: string)

  datatype Mode = Idp(idp: IdpSection) | Static(key: string) | Unconfigured(legacyHint: bool)

  function ModeOf(settings: RelaySettings): Mode {
    if settings.idp.IsConfigured() then Idp(settings.idp.(authorizeUrl := ""))
    else if NonEmpty(settings.gateway.apiKey).Some? then Static(NonEmpty(settings.gateway.apiKey).value)
    else Unconfigured(Trim(settings.idp.authorizeUrl) != "")
  }

  const DEFAULT_CALLERS: seq<AllowedCaller> := [
    AllowedCaller("com.anthropic.claudefordesktop", Some("Q6L2SF6YDW")),
    AllowedCaller("com.anthropic.claudefordesktop.helper", Some("Q6L2SF6YDW")),
    AllowedCaller("com.anthropic.claude-code", Some("Q6L2SF6YDW")),
    AllowedCaller("codex", Some("2DC432GLL2"))]

  function Anchored(callers: seq<AllowedCaller>, anchored: bool): seq<AllowedCaller> {
    if callers == [] then []
    else (if callers[0].teamId.Some? == anchored then [callers[0]] else []) + Anchored(callers[1..], anchored)
  }

  datatype Target = Target(version: Option<nat>, mode: Mode, gatewayUrl: string, team: Option<string>,
                           environment: Option<string>, callers: seq<AllowedCaller>, unanchored: seq<AllowedCaller>)

  function TargetOf(settings: RelaySettings, version: Option<nat>): Target {
    Target(version, ModeOf(settings), TrimEndSlashes(settings.gateway.url), settings.ManagedTeam(), settings.CurrentName(),
           if settings.allowedCallers.Some? then Anchored(settings.allowedCallers.value, true) else DEFAULT_CALLERS,
           if settings.allowedCallers.Some? then Anchored(settings.allowedCallers.value, false) else [])
  }

  /** `issued_at` of the credential the gateway refused to mint for, and what it said. */
  datatype StickyRefusal = StickyRefusal(credentialIssuedAt: int, notice: string)

  datatype State = State(
    session: Option<CachedSession>,
    credential: Option<CachedCredential>,
    key: Option<MintedKey>,
    mintRefusal: Option<StickyRefusal>,
    lastSource: Option<Source>,
    refusedCallers: nat,
    proxyToken: Option<seq<bv8>>,
    completedSignIns: nat,
    pendingSignInPage: Option<string>,
    explicitSignInRunning: bool)

  const SIGNED_OUT := State(None, None, None, None, None, 0, None, 0, None, false)

  datatype GatewayHold = GatewayHold(key: Option<MintedKey>, credential: Option<CachedCredential>,
                                     mintRefusal: Option<StickyRefusal>, lastSource: Option<Source>)

  datatype Bearer = SessionBearer(credential: CachedCredential) | IdentityBearer(token: string, expiresAt: int)

  datatype KeyOutcome = KeyIssued(issued: Issued) | DeadBearer

  // ------------------------------------------------------------ the invariant

  function KeyAt(key: Option<MintedKey>): Option<At> {
    if key.Some? then Some(At(key.value.gatewayUrl, key.value.token)) else None
  }

  function AtOf(credential: CachedCredential): At {
    At(credential.gatewayUrl, credential.accessToken)
  }

  /** A credential the broker keeps was granted by its gateway, not in the future; and if it was
      marked dead it has expired, so that nothing serves it again, or its token was granted twice. */
  predicate KnownCredential(credential: CachedCredential, ledger: Ledger, now: int) {
    && AtOf(credential) in ledger.granted
    && credential.issuedAt <= now
    && (AtOf(credential) in ledger.dead ==> AtOf(credential) in ledger.reissued || credential.expiresAt <= now)
  }

  predicate Sendable(credential: CachedCredential, ledger: Ledger) {
    MaySend(ledger, AtOf(credential))
  }

  /** The key expires when its gateway last said so. */
  predicate KeyLasts(key: Option<MintedKey>, ledger: Ledger) {
    key.Some? ==> KeyAt(key).value in ledger.expiry && ledger.expiry[KeyAt(key).value] == key.value.expiresAt
  }

  /** What is held belongs to the current target: key and credential to its gateway and team, the
      IdP session to its issuer and client. */
  predicate BoundTo(target: Target, state: State) {
    && (state.credential.Some? ==>
          target.mode.Idp? && state.credential.value.gatewayUrl == target.gatewayUrl
          && state.credential.value.team == target.team)
    && (state.key.Some? ==> state.key.value.gatewayUrl == target.gatewayUrl)
    && (state.session.Some? ==> SessionOf(target, state.session.value))
  }

  predicate SessionOf(target: Target, session: CachedSession) {
    target.mode.Idp? && session.issuer == target.mode.idp.NormalizedIssuer() && session.clientId == Trim(target.mode.idp.clientId)
  }

  /** Holds at every lock boundary of every thread. */
  predicate Invariant(target: Target, state: State, log: seq<Event>, ledger: Ledger, holding: Option<At>, now: int) {
    && ledger == Replay(log) && ledger.sound
    && Conserved(ledger, KeyAt(state.key), holding)
    && ledger.dead <= ledger.granted
    && BoundTo(target, state)
    && (state.credential.Some? ==> KnownCredential(state.credential.value, ledger, now))
    && (state.key.Some? ==> state.credential.Some? && Sendable(state.credential.value, ledger))
    && KeyLasts(state.key, ledger)
    && (ledger.latest.Some? ==> ledger.latest.value <= now)
    && state.completedSignIns == ledger.interactiveIssues
  }

  /** Holds whenever no thread holds `renewal`: nothing is held back and no sign-in page is open. */
  predicate SettledState(target: Target, state: State, log: seq<Event>, ledger: Ledger, holding: Option<At>, now: int) {
    && Invariant(target, state, log, ledger, holding, now)
    && holding.None? && state.pendingSignInPage.None? && !state.explicitSignInRunning
  }

  /** What other threads may do to the state while this one holds `renewal`: serve, count a refused
      caller, hand out a first proxy token. */
  predicate Tolerated(before: State, after: State) {
    && after == before.(lastSource := after.lastSource, refusedCallers := after.refusedCallers, proxyToken := after.proxyToken)
    && (before.proxyToken.Some? ==> after.proxyToken == before.proxyToken)
  }

  lemma InvariantReplays(target: Target, state: State, log: seq<Event>, ledger: Ledger, holding: Option<At>, now: int)
    requires Invariant(target, state, log, ledger, holding, now)
    ensures ledger == Replay(log)
  {
  }

  lemma ToleratedKeepsInvariant(target: Target, before: State, after: State, log: seq<Event>, ledger: Ledger,
                                holding: Option<At>, now: int, later: int)
    requires Invariant(target, before, log, ledger, holding, now)
    requires Tolerated(before, after) && now <= later
    ensures Invariant(target, after, log, ledger, holding, later)
  {
    hide Replay, Conserved;
  }

  datatype World = World(target: Target, state: State, log: seq<Event>, clock: int, disk: RelaySettings, diskVersion: nat)

  predicate SettledWorld(w: World) {
    SettledState(w.target, w.state, w.log, Replay(w.log), None, w.clock)
  }

  /** The broker works for the config on disk. */
  predicate WorksForDisk(w: World) {
    w.target == TargetOf(w.disk, Some(w.diskVersion))
  }

  /** A version that was seen names one content: when the broker has seen the version on disk, it works
      for what is there. */
  predicate KnowsDisk(w: World) {
    w.target.version == Some(w.diskVersion) ==> WorksForDisk(w)
  }

  /** Nobody wrote the config: a target that follows it stays, and one that does not can only be
      replaced by one that does. */
  predicate Unwritten(before: World, after: World) {
    && after.disk == before.disk && after.diskVersion == before.diskVersion
    && (WorksForDisk(before) ==> after.target == before.target) && (KnowsDisk(before) ==> KnowsDisk(after))
  }

  /** A world with what some thread holds back in it. */
  datatype Scene = Scene(world: World, holding: Option<At>)

  predicate Possible(scene: Scene) {
    var w := scene.world;
    Invariant(w.target, w.state, w.log, Replay(w.log), scene.holding, w.clock)
  }

  /** The shortest way to a settled state: every key that is held, or held back, is deleted under a
      credential granted for the purpose. */
  lemma SomeWorldIsSettled(w: World, ledger: Ledger, holding: Option<At>) returns (settled: World)
    requires Invariant(w.target, w.state, w.log, ledger, holding, w.clock)
    ensures SettledWorld(settled) && w.log <= settled.log && w.clock <= settled.clock && Unwritten(w, settled)
  {
    hide Replay, Conserved, TargetOf;
    var log, final := GiveUp(w.log, ledger, holding, KeyAt(w.state.key));
    ConservedSwaps(final, KeyAt(w.state.key), None);
    log, final := GiveUp(log, final, KeyAt(w.state.key), None);
    settled := w.(state := SIGNED_OUT.(completedSignIns := w.state.completedSignIns), log := log);
  }

  lemma ConservedSwaps(ledger: Ledger, a: Option<At>, b: Option<At>)
    requires Conserved(ledger, a, b)
    ensures Conserved(ledger, b, a)
  {
  }

  lemma GiveUp(log: seq<Event>, ledger: Ledger, key: Option<At>, other: Option<At>) returns (longer: seq<Event>, final: Ledger)
    requires ledger == Replay(log) && ledger.sound && Conserved(ledger, other, key) && ledger.dead <= ledger.granted
    ensures log <= longer && final == Replay(longer) && final.sound && Conserved(final, other, None) && final.dead <= final.granted
    ensures final.interactiveIssues == ledger.interactiveIssues && final.latest == ledger.latest
  {
    hide Replay, After, Conserved;
    longer, final := log, ledger;
    if key.Some? {
      var grant := Granted(At(key.value.gateway, ""));
      OtherEventsConserve(final, other, key, grant);
      RestAfter(final, grant);
      longer, final := Logged(longer, final, grant);
      var delete := Delete(key.value.gateway, "", key.value.token);
      DeleteConserves(final, other, key.value, "");
      RestAfter(final, delete);
      longer, final := Logged(longer, final, delete);
    }
  }

  lemma Logged(log: seq<Event>, ledger: Ledger, event: Event) returns (longer: seq<Event>, next: Ledger)
    requires ledger == Replay(log)
    ensures longer == log + [event] && next == After(ledger, event) && next == Replay(longer)
  {
    ReplayOne(log, event);
    longer, next := log + [event], After(ledger, event);
  }

  /** What is true of every run so far, at every lock boundary. A key minted once has exactly one fate,
      and the fates are what they say: a key was abandoned only right after a 401 for the credential it
      was held under, and counts as lapsed only past the expiry its gateway stated last. A credential
      marked dead is not sent again by any later event, unless its gateway granted that token twice;
      and every bearer went to the gateway that had granted it. */
  lemma WhatEveryRunKeeps(t: Target, s: State, log: seq<Event>, l: Ledger, holding: Option<At>, now: int)
    requires Invariant(t, s, log, l, holding, now)
    ensures forall key :: l.minted[key] == 1 ==>
      exists fate :: Times(l, KeyAt(s.key), holding, key, fate) == 1
                     && forall other :: other != fate ==> Times(l, KeyAt(s.key), holding, key, other) == 0
    ensures forall j :: 0 <= j < |log| && log[j].Abandoned? ==>
      2 <= j && log[j - 1] == MarkedDead(log[j].under) && RefusedBearer(log[j - 2]) == Some(log[j].under)
      && log[j].under.gateway == log[j].lost.gateway
    ensures forall j :: 0 <= j < |log| && log[j].Lapsed? ==>
      exists i, expiresAt :: StatedLast(log[..j], i, log[j].lost, expiresAt) && expiresAt <= log[j].now
    ensures forall i, j :: 0 <= i < j < |log| && log[i].MarkedDead? && Sends(log[j]) == Some(log[i].credential) ==>
      GrantedTwice(log[..j], log[i].credential)
    ensures forall j :: 0 <= j < |log| && Sends(log[j]).Some? ==>
      exists i :: 0 <= i < j && log[i] == Granted(Sends(log[j]).value)
  {
    hide Replay, Times, StatedLast, GrantedTwice;
    forall key | l.minted[key] == 1
      ensures exists fate :: Times(l, KeyAt(s.key), holding, key, fate) == 1
                             && forall other :: other != fate ==> Times(l, KeyAt(s.key), holding, key, other) == 0
    {
      EveryKeyHasOneFate(l, KeyAt(s.key), holding, key);
    }
    forall j | 0 <= j < |log| && log[j].Abandoned?
      ensures 2 <= j && log[j - 1] == MarkedDead(log[j].under) && RefusedBearer(log[j - 2]) == Some(log[j].under)
              && log[j].under.gateway == log[j].lost.gateway
    {
      EveryAbandonmentFollowsA401(log, j);
    }
    forall j | 0 <= j < |log| && log[j].Lapsed?
      ensures exists i, expiresAt :: StatedLast(log[..j], i, log[j].lost, expiresAt) && expiresAt <= log[j].now
    {
      EveryLapseIsPastExpiry(log, j);
    }
    forall i, j | 0 <= i < j < |log| && log[i].MarkedDead? && Sends(log[j]) == Some(log[i].credential)
      ensures GrantedTwice(log[..j], log[i].credential)
    {
      DeadCredentialsAreNeverSent(log, i, j);
    }
    forall j | 0 <= j < |log| && Sends(log[j]).Some?
      ensures exists i :: 0 <= i < j && log[i] == Granted(Sends(log[j]).value)
    {
      NothingLeavesItsGateway(log, j);
    }
  }

  // ------------------------------------------------------------ one step at a time

  /** A hold that may be given back to, or retired at, the gateway it was taken from. */
  predicate HoldFits(held: GatewayHold, gatewayUrl: string, ledger: Ledger, now: int) {
    && (held.credential.Some? ==> held.credential.value.gatewayUrl == gatewayUrl && KnownCredential(held.credential.value, ledger, now))
    && (held.key.Some? ==> held.credential.Some? && Sendable(held.credential.value, ledger) && held.key.value.gatewayUrl == gatewayUrl)
  }

  lemma TakingTheHold(t: Target, s: State, log: seq<Event>, l: Ledger, holding: Option<At>, now: int)
    requires Invariant(t, s, log, l, holding, now) && (holding.None? || s.key.None?)
    ensures Invariant(t, Forgotten(s), log, l, if s.key.Some? then KeyAt(s.key) else holding, now)
    ensures HoldFits(GatewayHold(s.key, s.credential, s.mintRefusal, s.lastSource), t.gatewayUrl, l, now) && KeyLasts(s.key, l)
  {
    hide Replay;
  }

  lemma RestoringTheHold(t: Target, s: State, log: seq<Event>, l: Ledger, held: GatewayHold, now: int)
    requires Invariant(t, s, log, l, KeyAt(held.key), now) && s.key.None?
    requires HoldFits(held, t.gatewayUrl, l, now)
    requires held.credential.Some? ==> t.mode.Idp? && held.credential.value.team == t.team
    requires KeyLasts(held.key, l)
    ensures Invariant(t, Given(s, held), log, l, None, now)
  {
    hide Replay;
  }

  lemma ClearingTheSession(t: Target, s: State, log: seq<Event>, l: Ledger, holding: Option<At>, now: int)
    requires Invariant(t, s, log, l, holding, now)
    ensures Invariant(t, s.(session := None, proxyToken := None), log, l, holding, now)
  {
    hide Replay;
  }

  lemma PublishingThePage(t: Target, s: State, s': State, log: seq<Event>, l: Ledger, holding: Option<At>, now: int)
    requires Invariant(t, s, log, l, holding, now) && s' == s.(pendingSignInPage := s'.pendingSignInPage)
    ensures Invariant(t, s', log, l, holding, now)
  {
    hide Replay;
  }

  lemma KeepingTheSession(t: Target, s: State, session: Option<CachedSession>, log: seq<Event>, l: Ledger, holding: Option<At>, now: int)
    requires Invariant(t, s, log, l, holding, now)
    requires session == s.session || (session.Some? && SessionOf(t, session.value))
    ensures Invariant(t, s.(session := session), log, l, holding, now)
  {
    hide Replay;
  }

  lemma Retargeting(t: Target, t': Target, s: State, s': State, log: seq<Event>, l: Ledger, holding: Option<At>, now: int)
    requires Invariant(t, s, log, l, holding, now)
    requires s' == s.(proxyToken := s'.proxyToken)
    requires SameGateway(t, t') || (s.key.None? && s.credential.None?)
    requires t.mode == t'.mode || s.session.None?
    ensures Invariant(t', s', log, l, holding, now)
  {
    hide Replay, Conserved;
  }

  lemma CountingARefusal(t: Target, s: State, refused: nat, log: seq<Event>, l: Ledger, holding: Option<At>, now: int)
    requires Invariant(t, s, log, l, holding, now)
    ensures Invariant(t, s.(refusedCallers := refused), log, l, holding, now)
  {
    hide Replay, Conserved;
  }

  lemma ServingKeepsInvariant(t: Target, s: State, source: Option<Source>, log: seq<Event>, l: Ledger, holding: Option<At>, now: int)
    requires Invariant(t, s, log, l, holding, now)
    ensures Invariant(t, s.(lastSource := source), log, l, holding, now)
  {
    hide Replay, Conserved;
  }

  lemma SettingFlags(t: Target, s: State, running: bool, log: seq<Event>, l: Ledger, holding: Option<At>, now: int)
    requires Invariant(t, s, log, l, holding, now)
    ensures Invariant(t, s.(explicitSignInRunning := running), log, l, holding, now)
  {
    hide Replay, Conserved;
  }

  lemma KeyIsMinted(t: Target, s: State, log: seq<Event>, l: Ledger, holding: Option<At>, now: int)
    requires Invariant(t, s, log, l, holding, now)
    ensures s.key.Some? ==> s.key.value.gatewayUrl == t.gatewayUrl && KeyAt(s.key).value in l.minted
    ensures s.key.Some? ==> s.credential.Some? && Sendable(s.credential.value, l)
    ensures s.credential.Some? ==> s.credential.value.gatewayUrl == t.gatewayUrl && AtOf(s.credential.value) in l.granted
  {
    hide Replay;
  }

  lemma NoBrowser(before: Ledger, after: Ledger)
    ensures forall slot :: IssueLedger(before, after, NonInteractive, slot) ==> after.browserOpened == before.browserOpened
  {
  }

  /** An extension and what it makes of the key; a 401 leaves the key to be given up. */
  lemma ExtendingTheKey(t: Target, s: State, log: seq<Event>, l: Ledger, holding: Option<At>, bearer: CachedCredential,
                        said: ExtendAnswer, now: int, clock: int)
    requires Invariant(t, s, log, l, holding, clock) && s.key.Some? && now <= clock
    requires Sendable(bearer, l) && bearer.gatewayUrl == t.gatewayUrl
    ensures var event := Extend(t.gatewayUrl, bearer.accessToken, s.key.value.token, said, now);
            var key := if said.ExtendUnauthorized? then s.key.value else AfterExtension(s.key.value, now, said);
            Invariant(t, s.(key := Some(key)), log + [event], After(l, event), holding, clock)
  {
    hide Replay, After, Conserved;
    KeyIsMinted(t, s, log, l, holding, clock);
    var event := Extend(t.gatewayUrl, bearer.accessToken, s.key.value.token, said, now);
    var _, _ := Logged(log, l, event);
    OtherEventsConserve(l, KeyAt(s.key), holding, event);
    RestAfter(l, event);
  }

  lemma VersionsDoNotMatter(settings: RelaySettings, version: Option<nat>)
    ensures TargetOf(settings, version) == TargetOf(settings, None).(version := version)
  {
  }

  /** A hold outlives what happens meanwhile: only credentials granted since can have been marked dead. */
  lemma LaterHoldFits(held: GatewayHold, gatewayUrl: string, before: Ledger, after: Ledger, earlier: int, now: int)
    requires HoldFits(held, gatewayUrl, before, earlier) && earlier <= now
    requires before.granted <= after.granted && before.reissued <= after.reissued
    requires after.dead <= before.dead + after.reissued + (after.granted - before.granted)
    ensures HoldFits(held, gatewayUrl, after, now)
  {
  }

  lemma NotSignedOut(settings: RelaySettings, t: Target)
    ensures !SignsOut(settings, t, t)
  {
  }

  lemma CountingASignIn(t: Target, s: State, log: seq<Event>, l: Ledger, holding: Option<At>, now: int)
    requires Invariant(t, s, log, l, holding, now)
    ensures Invariant(t, s.(completedSignIns := s.completedSignIns + 1), log + [InteractiveIssue], After(l, InteractiveIssue), holding, now)
  {
    hide Replay, After, Conserved;
    var _, _ := Logged(log, l, InteractiveIssue);
    OtherEventsConserve(l, KeyAt(s.key), holding, InteractiveIssue);
    RestAfter(l, InteractiveIssue);
  }

  lemma RefusingToMint(t: Target, s: State, refusal: Option<StickyRefusal>, log: seq<Event>, l: Ledger, holding: Option<At>, now: int)
    requires Invariant(t, s, log, l, holding, now)
    ensures Invariant(t, s.(mintRefusal := refusal), log, l, holding, now)
  {
    hide Replay;
  }

  lemma HeldIsBound(t: Target, s: State, log: seq<Event>, l: Ledger, holding: Option<At>, now: int)
    requires Invariant(t, s, log, l, holding, now)
    ensures BoundTo(t, s) && l.dead <= l.granted
  {
    hide Replay;
  }

  lemma HeldIsKnown(t: Target, s: State, log: seq<Event>, l: Ledger, holding: Option<At>, now: int)
    requires Invariant(t, s, log, l, holding, now)
    ensures s.credential.Some? ==> KnownCredential(s.credential.value, l, now)
    ensures s.completedSignIns == l.interactiveIssues && (s.key.Some? ==> s.credential.Some?)
  {
    hide Replay;
  }

  /** What a mint does to the ledger, whatever it is answered. */
  predicate MintLedger(before: Ledger, after: Ledger, minted: multiset<At>, refusals: nat) {
    && SameCredentials(before, after) && after.deleted == before.deleted
    && after.minted == before.minted + minted && (minted == multiset{} ==> after.expiry == before.expiry)
    && after.abandoned == before.abandoned && after.unauthorized == before.unauthorized + refusals
  }

  /** The facts an event that is only about keys held or replaced leaves alone. */
  predicate SameButLosses(a: Ledger, b: Ledger) {
    && SameCredentials(a, b) && a.deleted == b.deleted && a.minted == b.minted && a.expiry == b.expiry
    && a.unauthorized == b.unauthorized
  }

  lemma LossFacts(l: Ledger, event: Event)
    requires event.Lapsed? || event.Abandoned?
    ensures SameButLosses(l, After(l, event))
    ensures After(l, event).abandoned == if event.Abandoned? then l.abandoned + multiset{event.lost} else l.abandoned
  {
    hide After, Permitted, Later;
    RestAfter(l, event);
    BagsAfter(l, event);
  }

  lemma OneMintFacts(l: Ledger, event: Event)
    requires event.Mint?
    ensures MintLedger(l, After(l, event), if event.answer.Minted? then multiset{At(event.gateway, event.answer.token)} else multiset{},
                       if event.answer.Unauthorized? then 1 else 0)
  {
    hide After, Permitted, Later;
    RestAfter(l, event);
    BagsAfter(l, event);
  }

  function MintedAt(t: Target, answer: Option<MintAnswer>): multiset<At> {
    if answer.Some? && answer.value.Minted? then multiset{At(t.gatewayUrl, answer.value.token)} else multiset{}
  }

  lemma NothingAsked(l: Ledger)
    ensures MintLedger(l, l, multiset{}, 0)
  {
  }

  lemma MintFacts(s: State, l: Ledger, gateway: string, bearer: string, team: string, answer: MintAnswer, now: int)
    ensures MintLedger(l, After(if answer.Minted? then LapseLedger(s, l, now) else l, Mint(gateway, bearer, team, answer, now)),
                       if answer.Minted? then multiset{At(gateway, answer.token)} else multiset{},
                       if answer.Unauthorized? then 1 else 0)
  {
    hide After, Permitted, Later;
    var lapsed := if answer.Minted? then LapseLedger(s, l, now) else l;
    if s.key.Some? {
      LossFacts(l, LapseLog(s, now)[0]);
    }
    OneMintFacts(lapsed, Mint(gateway, bearer, team, answer, now));
  }

  lemma DeadFacts(s: State, l: Ledger)
    requires s.credential.Some?
    ensures var after := DeadLedger(s, l);
            && after.abandoned == l.abandoned + Bag(KeyAt(s.key)) && after.deleted == l.deleted && after.minted == l.minted
            && after.expiry == l.expiry && after.browserOpened == l.browserOpened
            && after.granted == l.granted && after.dead == l.dead + {AtOf(s.credential.value)}
            && after.reissued == l.reissued && after.interactiveIssues == l.interactiveIssues
            && after.deaths == l.deaths + 1 && after.unauthorized == l.unauthorized && after.sought == l.sought
  {
    hide After, Permitted, Later;
    var event := MarkedDead(AtOf(s.credential.value));
    RestAfter(l, event);
    BagsAfter(l, event);
    if s.key.Some? {
      LossFacts(After(l, event), Abandoned(KeyAt(s.key).value, AtOf(s.credential.value)));
    }
  }

  /** The part of a ledger one issue may change; `slot` is the credential it found. Only that one, and
      those granted meanwhile, can be dead afterwards. */
  predicate IssueLedger(before: Ledger, after: Ledger, context: Context, slot: Option<CachedCredential>) {
    && after.deleted == before.deleted
    && before.browserOpened <= after.browserOpened
    && (context.NonInteractive? ==> after.browserOpened == before.browserOpened)
    && before.granted <= after.granted && before.dead <= after.dead && before.reissued <= after.reissued
    && after.dead <= before.dead + after.reissued + (after.granted - before.granted)
                     + (if slot.Some? then {AtOf(slot.value)} else {})
  }

  lemma IssueDeletesNothing(before: Ledger, after: Ledger, context: Context, slot: Option<CachedCredential>)
    requires IssueLedger(before, after, context, slot)
    ensures after.deleted == before.deleted
  {
  }

  lemma NobodyDied(before: Ledger, after: Ledger, context: Context, slot: Option<CachedCredential>)
    requires after.deleted == before.deleted && after.dead == before.dead
    requires before.granted <= after.granted && before.reissued <= after.reissued
    requires before.browserOpened <= after.browserOpened && (context.NonInteractive? ==> after.browserOpened == before.browserOpened)
    ensures IssueLedger(before, after, context, slot)
  {
  }

  /** A mint answered 401 has its bearer marked dead and the chain run once more; a second one does not. */
  predicate RetriesOnce(before: Ledger, after: Ledger) {
    && before.unauthorized <= after.unauthorized <= before.unauthorized + 2
    && (if after.unauthorized == before.unauthorized
        then after.deaths == before.deaths && after.sought <= before.sought + 1
        else after.deaths == before.deaths + 1 && after.sought == before.sought + 2)
  }

  lemma NothingDone(l: Ledger, context: Context, slot: Option<CachedCredential>)
    ensures IssueLedger(l, l, context, slot) && RetriesOnce(l, l)
  {
  }

  /** What the broker talks to. Every answer may depend on all that has happened so far, and on the
      request: the Gateway's token endpoint, the IdP, and the minting and extending of keys under a
      bearer, for a team or of a key. */
  datatype Dependencies = Dependencies(
    auth: seq<Event> -> Server,
    identity: seq<Event> -> Provider,
    mint: (seq<Event>, At, string) -> MintAnswer,
    extend: (seq<Event>, At, string) -> ExtendAnswer)

  function StoreOf(s: State): seq<CachedCredential> {
    if s.credential.Some? then [s.credential.value] else []
  }

  function RequestFor(t: Target): CredentialRequest {
    CredentialRequest(t.gatewayUrl, t.team, HalfLife)
  }

  /** One resolution with its identity closure: the identity token is asked for when the fall-through
      needs it, or afterwards when the gateway offers no exchange; never twice. */
  datatype RenewalRun = RenewalRun(result: Result<Resolved, Error>, identity: Result<string, IdentityError>,
                               session: Option<CachedSession>, asksTheIdp: bool, opensBrowser: bool)

  function RunRenewal(server: Server, provider: Provider, t: Target, s: State, context: Context, now: int): RenewalRun
    requires t.mode.Idp?
  {
    var advanced := Advance(provider, t.mode.idp, s.session, now, SignInOf(context));
    var identity := IdentityOf(advanced.result);
    var outcome := Resolve(server, identity, StoreOf(s), RequestFor(t), now);
    var asks := IdentityToken in outcome.calls || outcome.result == Ok(NoExchange);
    RenewalRun(outcome.result, identity,
             if asks && advanced.result.Ok? && advanced.result.value.Renewed? then Some(advanced.result.value.session) else s.session,
             asks, asks && BrowserFlow in advanced.calls)
  }

  /** What a resolution for the target may come back with. */
  predicate Plausible(t: Target, s: State, result: Result<Resolved, Error>, now: int) {
    result.Ok? && result.value.IssuedCredential? ==>
      var c := result.value.credential;
      if result.value.changed then c.gatewayUrl == t.gatewayUrl && c.team == t.team && c.issuedAt == now
      else s.credential == Some(c) && c.IsValid(now)
  }

  /** Whatever the IdP and the authorization server answer: no browser without leave, a renewed
      session of this IdP, a kept credential only while valid, a new one only for this target, and
      nothing at all for a signed-out broker that may not open a browser. The session kept is the one
      whose token was used; without one, and without a credential, a bearer comes through the browser. */
  lemma RenewalFacts(server: Server, provider: Provider, t: Target, s: State, context: Context, now: int)
    requires t.mode.Idp? && BoundTo(t, s) && (s.credential.Some? ==> s.credential.value.issuedAt <= now)
    ensures
      var r := RunRenewal(server, provider, t, s, context, now);
      && (r.opensBrowser ==> context.Interactive? && r.asksTheIdp)
      && (r.session == s.session || (r.asksTheIdp && r.session.Some? && SessionOf(t, r.session.value)))
      && Plausible(t, s, r.result, now)
      && (context.NonInteractive? && s.session.None? && s.credential.None? ==>
            r.identity.Err? && r.session.None? && (r.result.Ok? ==> r.result.value.NoExchange?))
      && (r.asksTheIdp && r.identity.Ok? ==> r.session.Some? && r.session.value.token == r.identity.value)
      && (s.session.None? && r.asksTheIdp && r.identity.Ok? ==> r.opensBrowser)
      && (r.result == Ok(NoExchange) ==> r.asksTheIdp)
      && (s.credential.None? && r.result.Ok? ==> r.asksTheIdp && (r.result.value.IssuedCredential? ==> r.identity.Ok?))
  {
    var advanced := Advance(provider, t.mode.idp, s.session, now, SignInOf(context));
    AdvanceIsExact(provider, t.mode.idp, s.session, now, SignInOf(context));
    hide Resolve, Advance;
    var identity := IdentityOf(advanced.result);
    assert Find(StoreOf(s), RequestFor(t)) == s.credential;
    ResolveSound(server, identity, StoreOf(s), RequestFor(t), now);
    if s.credential.None? && identity.Err? {
      NothingWithoutIdentity(server, identity, StoreOf(s), RequestFor(t), now);
    }
    if s.credential.None? {
      NothingIssuedUnasked(server, identity, StoreOf(s), RequestFor(t), now);
    }
  }

  /** What one run of the chain is, for every IdP and server: a resolution over the credential held, for the
      target's Gateway and team, with the identity token the IdP session gives now. It opens a browser
      exactly when the caller may, the token is needed, the one held is not usable and no refresh worked;
      and it keeps the session whose token was used. */
  lemma RunIsExact(server: Server, provider: Provider, t: Target, s: State, context: Context, now: int)
    requires t.mode.Idp?
    ensures
      var r := RunRenewal(server, provider, t, s, context, now);
      var store := if s.credential.Some? then [s.credential.value] else [];
      var resolved := Resolve(server, r.identity, store, CredentialRequest(t.gatewayUrl, t.team, HalfLife), now);
      var refreshed := Refreshable(s.session, now) && provider.refresh.Ok?;
      var reused := Usable(s.session, now) && !refreshed;
      var answer := if refreshed then provider.refresh else provider.signIn;
      && r.result == resolved.result
      && (r.asksTheIdp <==> IdentityToken in resolved.calls || r.result == Ok(NoExchange))
      && (r.opensBrowser <==> context.Interactive? && r.asksTheIdp && !reused && !refreshed)
      && (r.identity == Err(SignInRequired) <==> context.NonInteractive? && !reused && !refreshed)
      && (r.identity.Ok? ==> if reused then r.identity.value == s.session.value.token else answer.Ok? && r.identity.value == answer.value.idToken)
      && (if r.asksTheIdp && r.identity.Ok? && !reused then
            r.session.Some? && r.session.value.token == answer.value.idToken && Some(r.session.value.exp) == answer.value.exp
            && r.session.value.refreshToken == answer.value.refreshToken && SessionOf(t, r.session.value)
          else r.session == s.session)
  {
    AdvanceIsExact(provider, t.mode.idp, s.session, now, SignInOf(context));
    hide Resolve, Advance;
  }

  /** A run depends on nothing but the session and the credential. */
  lemma RunUses(server: Server, provider: Provider, t: Target, a: State, b: State, context: Context, now: int)
    requires t.mode.Idp? && a.session == b.session && a.credential == b.credential
    ensures RunRenewal(server, provider, t, a, context, now) == RunRenewal(server, provider, t, b, context, now)
  {
  }

  function IdentityOf(result: Result<Advanced, IdentityError>): Result<string, IdentityError> {
    match result
    case Ok(Reused(token)) => Ok(token)
    case Ok(Renewed(session)) => Ok(session.token)
    case Err(error) => Err(error)
  }

  /** The facts about keys that credential events leave alone. */
  predicate SameKeys(a: Ledger, b: Ledger) {
    && a.minted == b.minted && a.deleted == b.deleted && a.abandoned == b.abandoned && a.lapsed == b.lapsed
    && a.expiry == b.expiry && a.dead == b.dead && a.interactiveIssues == b.interactiveIssues
    && a.unauthorized == b.unauthorized && a.deaths == b.deaths
  }

  lemma SameKeysOn(a: Ledger, b: Ledger, c: Ledger)
    requires SameKeys(a, b) && SameKeys(b, c)
    ensures SameKeys(a, c) && c.minted == a.minted && c.expiry == a.expiry && c.deleted == a.deleted && c.dead == a.dead
    ensures c.abandoned == a.abandoned && c.deaths == a.deaths && c.unauthorized == a.unauthorized
  {
  }

  /** What a resolution gives may be sent: it was granted now, or is the credential kept, still valid. */
  lemma KeptIsKnown(t: Target, s: State, before: Ledger, after: Ledger, result: Result<Resolved, Error>, now: int)
    requires Plausible(t, s, result, now) && result.Ok? && result.value.IssuedCredential? && SameKeys(before, after)
    requires s.credential.Some? ==> KnownCredential(s.credential.value, before, now) && s.credential.value.gatewayUrl == t.gatewayUrl
    requires var c := result.value.credential;
      if result.value.changed then Sendable(c, after) && (AtOf(c) in before.granted ==> AtOf(c) in after.reissued)
      else before.granted == after.granted && before.reissued == after.reissued
    ensures var c := result.value.credential;
      && Sendable(c, after) && c.gatewayUrl == t.gatewayUrl && c.issuedAt <= now
      && ((s.credential == Some(c) && c.IsValid(now)) || (c.issuedAt == now && (AtOf(c) in before.granted ==> AtOf(c) in after.reissued)))
  {
  }

  function Given(s: State, held: GatewayHold): State {
    s.(key := held.key, credential := held.credential, mintRefusal := held.mintRefusal, lastSource := held.lastSource)
  }

  lemma DeletingAKey(t: Target, s: State, log: seq<Event>, l: Ledger, key: At, credential: CachedCredential, now: int)
    requires Invariant(t, s, log, l, Some(key), now)
    requires Sendable(credential, l) && credential.gatewayUrl == key.gateway
    ensures var event := Delete(key.gateway, credential.accessToken, key.token);
            Invariant(t, s, log + [event], After(l, event), None, now)
  {
    hide Replay, After, Conserved;
    var event := Delete(key.gateway, credential.accessToken, key.token);
    var _, _ := Logged(log, l, event);
    DeleteConserves(l, KeyAt(s.key), key, credential.accessToken);
    RestAfter(l, event);
  }

  function DeadState(s: State, at: int): State
    requires s.credential.Some?
  {
    s.(credential := Some(s.credential.value.Dead(at)), key := None, mintRefusal := None)
  }

  function DeadLog(s: State, log: seq<Event>): seq<Event>
    requires s.credential.Some?
  {
    log + [MarkedDead(AtOf(s.credential.value))] + (if s.key.Some? then [Abandoned(KeyAt(s.key).value, AtOf(s.credential.value))] else [])
  }

  function DeadLedger(s: State, l: Ledger): Ledger
    requires s.credential.Some?
  {
    var next := After(l, MarkedDead(AtOf(s.credential.value)));
    if s.key.Some? then After(next, Abandoned(KeyAt(s.key).value, AtOf(s.credential.value))) else next
  }

  lemma MarkingDead(t: Target, s: State, log: seq<Event>, l: Ledger, holding: Option<At>, at: int, now: int)
    requires Invariant(t, s, log, l, holding, now) && s.credential.Some?
    requires s.credential.value.issuedAt <= at <= now && JustRefused(l, AtOf(s.credential.value))
    ensures Invariant(t, DeadState(s, at), DeadLog(s, log), DeadLedger(s, l), holding, now)
  {
    hide Replay, After, Conserved;
    var dead := AtOf(s.credential.value);
    var longer, next := Logged(log, l, MarkedDead(dead));
    OtherEventsConserve(l, KeyAt(s.key), holding, MarkedDead(dead));
    RestAfter(l, MarkedDead(dead));
    if s.key.Some? {
      AbandonConserves(next, KeyAt(s.key).value, dead, holding);
      RestAfter(next, Abandoned(KeyAt(s.key).value, dead));
      longer, next := Logged(longer, next, Abandoned(KeyAt(s.key).value, dead));
    }
    assert longer == DeadLog(s, log);
  }

  lemma GrantingACredential(t: Target, s: State, log: seq<Event>, l: Ledger, holding: Option<At>, c: CachedCredential, now: int)
    requires Invariant(t, s, log, l, holding, now) && t.mode.Idp?
    requires c.gatewayUrl == t.gatewayUrl && c.team == t.team && c.issuedAt <= now
    ensures var next := After(l, Granted(AtOf(c)));
            && Invariant(t, s.(credential := Some(c)), log + [Granted(AtOf(c))], next, holding, now)
            && Sendable(c, next) && (AtOf(c) in l.granted ==> AtOf(c) in next.reissued)
  {
    hide Replay, After, Conserved;
    var _, _ := Logged(log, l, Granted(AtOf(c)));
    OtherEventsConserve(l, KeyAt(s.key), holding, Granted(AtOf(c)));
    RestAfter(l, Granted(AtOf(c)));
  }

  /** Events that move no key and grant nothing. */
  lemma JustLogging(t: Target, s: State, log: seq<Event>, l: Ledger, holding: Option<At>, event: Event, now: int)
    requires Invariant(t, s, log, l, holding, now) && Permitted(l, event)
    requires event.BrowserOpened? || event.CredentialSought? || (event.Mint? && !event.answer.Minted? && event.now <= now)
    ensures Invariant(t, s, log + [event], After(l, event), holding, now)
  {
    hide Replay, After, Conserved, Permitted;
    var _, _ := Logged(log, l, event);
    OtherEventsConserve(l, KeyAt(s.key), holding, event);
    RestAfter(l, event);
  }

  function LapseLog(s: State, now: int): seq<Event> {
    if s.key.Some? then [Lapsed(KeyAt(s.key).value, now)] else []
  }

  function LapseLedger(s: State, l: Ledger, now: int): Ledger {
    if s.key.Some? then After(l, LapseLog(s, now)[0]) else l
  }

  /** A mint fills the key slot; a key still in it has expired. */
  lemma MintingAKey(t: Target, s: State, log: seq<Event>, l: Ledger, holding: Option<At>, team: string,
                    token: string, granted: Option<int>, now: int, clock: int)
    requires Invariant(t, s, log, l, holding, clock)
    requires s.credential.Some? && Sendable(s.credential.value, l)
    requires now <= clock && (s.key.Some? ==> s.key.value.expiresAt <= now)
    ensures var mint := Mint(t.gatewayUrl, s.credential.value.accessToken, team, Minted(token, granted), now);
            var key := MintedKey(token, t.gatewayUrl, GrantedUntil(granted, now), None, false);
            Invariant(t, s.(key := Some(key), mintRefusal := None), log + LapseLog(s, now) + [mint],
                      After(LapseLedger(s, l, now), mint), holding, clock)
  {
    hide Replay, After, Conserved;
    var mint := Mint(t.gatewayUrl, s.credential.value.accessToken, team, Minted(token, granted), now);
    var longer, next := log, l;
    if s.key.Some? {
      LapseConserves(l, KeyAt(s.key).value, holding, now);
      RestAfter(l, LapseLog(s, now)[0]);
      longer, next := Logged(log, l, LapseLog(s, now)[0]);
    }
    MintConserves(next, holding, t.gatewayUrl, s.credential.value.accessToken, team, token, granted, now);
    RestAfter(next, mint);
    longer, next := Logged(longer, next, mint);
    assert longer == log + LapseLog(s, now) + [mint];
  }

  /** A gateway, and an IdP, that grant everything: the gateway always the same access token. */
  function GrantingServer(accessToken: string): Server {
    Server(_ => Ok(Supported(Document("", "", None))), _ => Err(""),
           _ => Ok(TokensIssued(IssuedTokens(accessToken, None, None, None, None))))
  }

  function GrantingProvider(exp: int): Provider {
    Provider(Ok(Session("", Some(exp), None)), Ok(Session("", Some(exp), None)))
  }

  /** Against them the renewal of a credential that was marked dead comes back with the same token. */
  lemma DeadTokenComesBack(t: Target, s: State, c: CachedCredential, now: int)
    requires t.mode.Idp? && s.credential == Some(c) && c.issuedAt <= now
    requires c.gatewayUrl == t.gatewayUrl && c.team == t.team
    ensures
      var run := RunRenewal(GrantingServer(c.accessToken), GrantingProvider(now), t, DeadState(s, now), Interactive, now);
      && run.result.Ok? && run.result.value.IssuedCredential? && run.result.value.changed
      && AtOf(run.result.value.credential) == AtOf(c)
  {
    var server, provider := GrantingServer(c.accessToken), GrantingProvider(now);
    var dead, request := c.Dead(now), RequestFor(t);
    assert Find([dead], request) == Some(dead);
    DeadStaysDead(c, now, now, HalfLife);
    var identity := IdentityOf(Advance(provider, t.mode.idp, s.session, now, Allowed).result);
    assert identity.Ok?;
    RenewedToken(server, identity, dead, request, now);
  }

  lemma RenewedToken(server: Server, identity: Result<string, IdentityError>, dead: CachedCredential,
                     request: CredentialRequest, now: int)
    requires server == GrantingServer(dead.accessToken) && identity.Ok? && dead.Matches(request)
    ensures var o := Renew(server, identity, Some(dead), request, now);
            o.result.Ok? && o.result.value.IssuedCredential? && o.result.value.changed && AtOf(o.result.value.credential) == AtOf(dead)
  {
    hide ExchangeFor;
    var calls := [Discover(request.gatewayUrl)];
    var document := Document("", "", None);
    var past := calls + [IdentityToken];
    GrantedByExchange(server, document, identity.value, request, dead.clientId, past,
                      IssuedTokens(dead.accessToken, None, None, None, None));
  }

  lemma GrantedByExchange(server: Server, document: Document, subjectToken: string, request: CredentialRequest,
                          clientId: string, past: seq<Call>, tokens: IssuedTokens)
    requires forall calls :: server.token(calls) == Ok(TokensIssued(tokens))
    ensures ExchangeFor(server, document, subjectToken, request, Some(clientId), past).result == Ok((clientId, tokens))
  {
  }

  /** What the exception for tokens granted twice is about. Take any reachable state in which the broker
      would mint: a team, a fresh credential that may be sent, no sticky refusal for it, no key that
      lives. The renewal keeps the credential, the mint may be answered 401, the credential is marked
      dead, and the renewal that follows may come back with the very same token; the broker then mints
      with the token it has marked dead. */
  lemma ReissuedTokenIsSentAgain(t: Target, s: State, log: seq<Event>, l: Ledger, holding: Option<At>,
                                 c: CachedCredential, team: string, message: string, now: int)
    returns (server: Server, provider: Provider, renewed: CachedCredential, later: State, longer: seq<Event>)
    requires Invariant(t, s, log, l, holding, now) && t.mode.Idp? && t.team == Some(team)
    requires s.credential == Some(c) && c.IsFresh(now, HalfLife) && Sendable(c, l) && !IsSticky(s, c)
    requires s.key.Some? ==> s.key.value.expiresAt <= now
    // the first round: the credential is kept, its mint is answered 401
    ensures var kept := RunRenewal(server, provider, t, s, Interactive, now);
            kept.result == Ok(IssuedCredential(c, false)) && kept.session == s.session && !kept.asksTheIdp
    ensures MintReply(t, c, Unauthorized(message), now) == DeadBearer && AfterMint(t, s, c, Unauthorized(message), now) == s
    // the second round: the same token is granted, and minted with
    ensures
      var run := RunRenewal(server, provider, t, DeadState(s, now), Interactive, now);
      var found := DeadState(s, now).(session := run.session, credential := Some(renewed));
      var sought := CredentialSought(t.gatewayUrl, t.team);
      && run.result == Ok(IssuedCredential(renewed, true)) && AtOf(renewed) == AtOf(c) && !IsSticky(found, renewed)
      && later == AfterMint(t, found, renewed, Unauthorized(message), now)
      && longer == DeadLog(s, log + [sought, Mint(t.gatewayUrl, c.accessToken, team, Unauthorized(message), now)])
                   + [sought] + (if run.opensBrowser then [BrowserOpened(true, s.explicitSignInRunning)] else [])
                   + [Granted(AtOf(renewed)), Mint(t.gatewayUrl, renewed.accessToken, team, Unauthorized(message), now)]
    ensures Invariant(t, later, longer, Replay(longer), holding, now)
  {
    hide Replay, After, Conserved, RunRenewal;
    HeldIsBound(t, s, log, l, holding, now);
    HeldIsKnown(t, s, log, l, holding, now);
    server, provider := GrantingServer(c.accessToken), GrantingProvider(now);
    FreshIsKept(server, provider, t, s, c, now);
    DeadTokenComesBack(t, s, c, now);
    var run := RunRenewal(server, provider, t, DeadState(s, now), Interactive, now);
    renewed := run.result.value.credential;
    RefusedOnce(t, s, log, l, holding, c, team, message, now);
    var sought := CredentialSought(t.gatewayUrl, t.team);
    var mint := Mint(t.gatewayUrl, c.accessToken, team, Unauthorized(message), now);
    longer := DeadLog(s, log + [sought, mint]);
    var dead := Replay(longer);
    HeldIsBound(t, DeadState(s, now), longer, dead, holding, now);
    RenewalFacts(server, provider, t, DeadState(s, now), Interactive, now);
    later := GrantedAgain(t, DeadState(s, now), longer, holding, run, renewed, team, message, now);
    longer := longer + [sought] + (if run.opensBrowser then [BrowserOpened(true, s.explicitSignInRunning)] else [])
              + [Granted(AtOf(renewed)), Mint(t.gatewayUrl, renewed.accessToken, team, Unauthorized(message), now)];
  }

  lemma FreshIsKept(server: Server, provider: Provider, t: Target, s: State, c: CachedCredential, now: int)
    requires t.mode.Idp? && BoundTo(t, s) && s.credential == Some(c) && c.IsFresh(now, HalfLife)
    ensures var kept := RunRenewal(server, provider, t, s, Interactive, now);
            kept.result == Ok(IssuedCredential(c, false)) && kept.session == s.session && !kept.asksTheIdp
  {
    hide Advance;
    assert Find(StoreOf(s), RequestFor(t)) == Some(c);
  }

  /** The first round, up to the credential marked dead. */
  lemma RefusedOnce(t: Target, s: State, log: seq<Event>, l: Ledger, holding: Option<At>, c: CachedCredential,
                    team: string, message: string, now: int)
    requires Invariant(t, s, log, l, holding, now) && s.credential == Some(c) && Sendable(c, l) && c.issuedAt <= now
    requires c.gatewayUrl == t.gatewayUrl
    ensures var longer := DeadLog(s, log + [CredentialSought(t.gatewayUrl, t.team), Mint(t.gatewayUrl, c.accessToken, team, Unauthorized(message), now)]);
            Invariant(t, DeadState(s, now), longer, Replay(longer), holding, now)
  {
    hide Replay, After, Conserved;
    var sought := CredentialSought(t.gatewayUrl, t.team);
    var mint := Mint(t.gatewayUrl, c.accessToken, team, Unauthorized(message), now);
    JustLogging(t, s, log, l, holding, sought, now);
    RestAfter(l, sought);
    var asked := After(l, sought);
    JustLogging(t, s, log + [sought], asked, holding, mint, now);
    RestAfter(asked, mint);
    assert log + [sought] + [mint] == log + [sought, mint];
    MarkingDead(t, s, log + [sought, mint], After(asked, mint), holding, now, now);
    InvariantReplays(t, DeadState(s, now), DeadLog(s, log + [sought, mint]), DeadLedger(s, After(asked, mint)), holding, now);
  }

  /** The second round, from the dead credential to the mint. */
  lemma GrantedAgain(t: Target, s: State, log: seq<Event>, holding: Option<At>, run: RenewalRun, renewed: CachedCredential,
                     team: string, message: string, now: int)
    returns (later: State)
    requires Invariant(t, s, log, Replay(log), holding, now) && t.mode.Idp? && s.mintRefusal.None?
    requires s.credential.Some? && AtOf(s.credential.value) == AtOf(renewed)
    requires renewed.gatewayUrl == t.gatewayUrl && renewed.team == t.team && renewed.issuedAt <= now
    requires run.session == s.session || (run.session.Some? && SessionOf(t, run.session.value))
    ensures var found := s.(session := run.session, credential := Some(renewed));
            !IsSticky(found, renewed) && later == AfterMint(t, found, renewed, Unauthorized(message), now)
    ensures var longer := log + [CredentialSought(t.gatewayUrl, t.team)] + (if run.opensBrowser then [BrowserOpened(true, s.explicitSignInRunning)] else [])
                          + [Granted(AtOf(renewed)), Mint(t.gatewayUrl, renewed.accessToken, team, Unauthorized(message), now)];
            Invariant(t, later, longer, Replay(longer), holding, now)
  {
    hide Replay, After, Conserved, SessionOf;
    var longer, l := log, Replay(log);
    var sought := CredentialSought(t.gatewayUrl, t.team);
    JustLogging(t, s, longer, l, holding, sought, now);
    longer, l := longer + [sought], After(l, sought);
    if run.opensBrowser {
      JustLogging(t, s, longer, l, holding, BrowserOpened(true, s.explicitSignInRunning), now);
      longer, l := longer + [BrowserOpened(true, s.explicitSignInRunning)], After(l, BrowserOpened(true, s.explicitSignInRunning));
    }
    KeepingTheSession(t, s, run.session, longer, l, holding, now);
    later := s.(session := run.session);
    GrantingACredential(t, later, longer, l, holding, renewed, now);
    later := later.(credential := Some(renewed));
    longer, l := longer + [Granted(AtOf(renewed))], After(l, Granted(AtOf(renewed)));
    var mint := Mint(t.gatewayUrl, renewed.accessToken, team, Unauthorized(message), now);
    JustLogging(t, later, longer, l, holding, mint, now);
    InvariantReplays(t, later, longer + [mint], After(l, mint), holding, now);
    assert longer + [mint] == log + [sought] + (if run.opensBrowser then [BrowserOpened(true, s.explicitSignInRunning)] else []) + [Granted(AtOf(renewed)), mint];
  }

  // ------------------------------------------------------------ settings changes

  /** A config change signs out: another IdP, or a Gateway outside the listed environments. */
  predicate SignsOut(settings: RelaySettings, current: Target, next: Target) {
    || current.mode != next.mode
    || (current.gatewayUrl != next.gatewayUrl
        && !(settings.EnvironmentWithUrl(current.gatewayUrl).Some? && settings.EnvironmentWithUrl(next.gatewayUrl).Some?))
  }

  predicate SameGateway(a: Target, b: Target) {
    a.mode == b.mode && a.gatewayUrl == b.gatewayUrl && a.team == b.team
  }

  function Forgotten(state: State): State {
    state.(key := None, credential := None, mintRefusal := None, lastSource := None)
  }

  /** What is left of the state for another target. */
  function Leaving(state: State, settings: RelaySettings, current: Target, next: Target): State {
    var kept := if SameGateway(current, next) then state else Forgotten(state);
    if SignsOut(settings, current, next) then kept.(session := None, proxyToken := None) else kept
  }

  /** What applying a loaded config leaves of the state. */
  function AfterSettings(state: State, settings: RelaySettings, current: Target, next: Target): State {
    var signedOut := Leaving(state, settings, current, next);
    if current.callers != next.callers || current.unanchored != next.unanchored
    then signedOut.(proxyToken := None) else signedOut
  }

  /** What outlives a config change, by what has changed. */
  predicate Outlives(settings: RelaySettings, was: Target, next: Target, before: State, after: State) {
    && after == before.(key := after.key, credential := after.credential, mintRefusal := after.mintRefusal,
                        lastSource := after.lastSource, session := after.session, proxyToken := after.proxyToken)
    // the same IdP, Gateway and team keep the key and the credential; anything else gives them up
    && (if next.mode == was.mode && next.gatewayUrl == was.gatewayUrl && next.team == was.team then
          && after.key == before.key && after.credential == before.credential
          && after.mintRefusal == before.mintRefusal && after.lastSource == before.lastSource
        else after.key.None? && after.credential.None? && after.mintRefusal.None? && after.lastSource.None?)
    // the session survives a new team, and a new Gateway when both are listed environments
    && (if next.mode == was.mode
           && (next.gatewayUrl == was.gatewayUrl
               || (settings.EnvironmentWithUrl(was.gatewayUrl).Some? && settings.EnvironmentWithUrl(next.gatewayUrl).Some?)) then
          && after.session == before.session
          && after.proxyToken == if next.callers == was.callers && next.unanchored == was.unanchored then before.proxyToken else None
        else after.session.None? && after.proxyToken.None?)
  }

  /** Following a config leaves that, and nothing else would. */
  lemma WhatAConfigLeaves(settings: RelaySettings, was: Target, next: Target, before: State)
    ensures forall after :: Outlives(settings, was, next, before, after) <==> after == AfterSettings(before, settings, was, next)
    ensures next.callers != was.callers || next.unanchored != was.unanchored ==> AfterSettings(before, settings, was, next).proxyToken.None?
  {
    hide RelaySettings.EnvironmentWithUrl;
  }

  lemma AllowlistRevokes(before: State, settings: RelaySettings, was: Target, next: Target)
    requires next.callers != was.callers || next.unanchored != was.unanchored
    ensures AfterSettings(before, settings, was, next).proxyToken.None?
  {
  }

  lemma LeavingFits(before: State, met: State, settings: RelaySettings, current: Target, next: Target)
    requires met.key == Leaving(before, settings, current, next).key && met.credential == Leaving(before, settings, current, next).credential
    requires met.session == Leaving(before, settings, current, next).session
    ensures SameGateway(current, next) || (met.key.None? && met.credential.None?)
    ensures current.mode == next.mode || met.session.None?
  {
  }

  lemma TargetVersion(settings: RelaySettings, version: Option<nat>)
    ensures TargetOf(settings, version).version == version
  {
  }

  /** What no switch changes of a config. */
  predicate SameButPicks(a: RelaySettings, b: RelaySettings) {
    && a.environments == b.environments && a.idp == b.idp && a.gateway.apiKey == b.gateway.apiKey
    && a.allowedCallers == b.allowedCallers
  }

  /** A switch writes nothing but the URL, the team and the parked picks, and for a team the team alone. */
  lemma PatchKeeps(settings: RelaySettings, patch: GatewayPatch)
    ensures SameButPicks(settings, patch.AppliedTo(settings))
    ensures var next := patch.AppliedTo(settings);
      && next == settings.(gateway := settings.gateway.(url := next.gateway.url, team := next.gateway.team,
                                                        teamByEnvironment := next.gateway.teamByEnvironment))
      && next.gateway.team == patch.team
      && (patch.Team? ==> next.gateway.url == settings.gateway.url && next.gateway.teamByEnvironment == settings.gateway.teamByEnvironment)
      && (patch.Environment? ==> next.gateway.url == patch.url && next.gateway.teamByEnvironment == patch.teamByEnvironment)
  {
  }

  /** The allowlist is split by who names a signing team, and no caller is lost; so dropping or adding one
      changes what the broker compares, and revokes the proxy token. */
  lemma AllowlistIsSplit(a: RelaySettings, b: RelaySettings, at: Option<nat>, bt: Option<nat>)
    requires a.allowedCallers.Some? && b.allowedCallers.Some?
    ensures var t := TargetOf(a, at);
      && multiset(t.callers) + multiset(t.unanchored) == multiset(a.allowedCallers.value)
      && (forall caller :: caller in t.callers ==> caller.teamId.Some?)
      && (forall caller :: caller in t.unanchored ==> caller.teamId.None?)
    ensures multiset(a.allowedCallers.value) != multiset(b.allowedCallers.value) ==>
      forall state, settings :: AfterSettings(state, settings, TargetOf(a, at), TargetOf(b, bt)).proxyToken.None?
  {
    hide RelaySettings.ManagedTeam, RelaySettings.CurrentName, ModeOf, SignsOut;
    SplitLosesNobody(a.allowedCallers.value);
    SplitLosesNobody(b.allowedCallers.value);
  }

  lemma {:induction false} SplitLosesNobody(callers: seq<AllowedCaller>)
    ensures multiset(Anchored(callers, true)) + multiset(Anchored(callers, false)) == multiset(callers)
    ensures forall caller, anchored :: caller in Anchored(callers, anchored) ==> caller.teamId.Some? == anchored
  {
    if callers != [] {
      SplitLosesNobody(callers[1..]);
      assert callers == [callers[0]] + callers[1..];
    }
  }

  /** An IdP that is configured comes first, whatever its authorize URL; then a key that is not blank. */
  lemma ModeIsExact(settings: RelaySettings, authorizeUrl: string)
    ensures var idp, mode := settings.idp, ModeOf(settings);
      && (mode.Idp? <==> TrimEndSlashes(Trim(idp.issuer)) != "" && Trim(idp.clientId) != "")
      && (mode.Idp? ==> ModeOf(settings.(idp := idp.(authorizeUrl := authorizeUrl))) == mode && mode.idp.(authorizeUrl := idp.authorizeUrl) == idp)
      && (forall key :: mode == Static(key) <==>
            !mode.Idp? && settings.gateway.apiKey.Some? && key == Trim(settings.gateway.apiKey.value) && key != "")
  {
    hide Trim;
  }

  lemma SameButPicksFacts(a: RelaySettings, b: RelaySettings, at: Option<nat>, bt: Option<nat>)
    requires SameButPicks(a, b)
    ensures TargetOf(a, at).mode == TargetOf(b, bt).mode
    ensures TargetOf(a, at).callers == TargetOf(b, bt).callers && TargetOf(a, at).unanchored == TargetOf(b, bt).unanchored
    ensures forall s, t :: SignsOut(a, s, t) == SignsOut(b, s, t)
  {
  }

  /** What the two config changes of a refused switch leave of the session and the proxy token, however
      others hand out a first proxy token in between. */
  lemma ThereAndBackAgain(settings: RelaySettings, written: RelaySettings, here: Target, there: Target, back: Target,
                          first: Option<nat>, second: Option<nat>, third: Option<nat>, found: State, left: State)
    requires SameButPicks(settings, written)
    requires here == TargetOf(settings, first) && there == TargetOf(written, second) && back == TargetOf(settings, third)
    requires var moved := AfterSettings(Forgotten(found), written, here, there);
             (moved.proxyToken.Some? ==> left.proxyToken == moved.proxyToken) && (moved.session.Some? ==> left.session.Some?)
    ensures back == here.(version := back.version)
    ensures
      var moved := AfterSettings(Forgotten(found), written, here, there);
      var restored := AfterSettings(left, settings, there, back);
      if SignsOut(settings, here, TargetOf(written, None)) then restored.session.None? && restored.proxyToken.None?
      else
        && (found.session.Some? ==> restored.session.Some?)
        && (found.proxyToken.Some? ==> restored.proxyToken == found.proxyToken)
        && (left.proxyToken == moved.proxyToken ==> restored.proxyToken == found.proxyToken)
  {
    hide TargetOf;
    VersionsDoNotMatter(settings, first);
    VersionsDoNotMatter(settings, third);
    VersionsDoNotMatter(written, second);
    SameButPicksFacts(settings, written, first, second);
  }

  lemma SigningOutLeavesNothing(settings: RelaySettings, written: RelaySettings, here: Target, there: Target,
                                first: Option<nat>, second: Option<nat>, found: State)
    requires SameButPicks(settings, written)
    requires here == TargetOf(settings, first) && there == TargetOf(written, second)
    ensures there.mode == here.mode
    ensures SignsOut(settings, here, TargetOf(written, None)) ==> AfterSettings(Forgotten(found), written, here, there).session.None?
  {
    hide TargetOf;
    VersionsDoNotMatter(written, second);
    SameButPicksFacts(settings, written, first, second);
  }

  lemma TargetFacts(settings: RelaySettings, version: Option<nat>)
    ensures var t := TargetOf(settings, version);
            t.team == settings.ManagedTeam() && t.environment == settings.CurrentName() && t.mode == ModeOf(settings)
  {
  }

  lemma TeamPatchRestores(settings: RelaySettings, team: Option<string>)
    ensures Team(settings.gateway.team).AppliedTo(Team(team).AppliedTo(settings)) == settings
    ensures forall version, other :: !SignsOut(settings, TargetOf(settings, version), TargetOf(Team(team).AppliedTo(settings), other))
  {
    forall version, other
      ensures !SignsOut(settings, TargetOf(settings, version), TargetOf(Team(team).AppliedTo(settings), other))
    {
      assert TargetOf(settings, version).gatewayUrl == TargetOf(Team(team).AppliedTo(settings), other).gatewayUrl;
    }
  }

  lemma EnvironmentPatchRestores(settings: RelaySettings, entry: EnvironmentEntry)
    ensures RestoringPatch(settings).AppliedTo(EnvironmentPatch(settings, entry).AppliedTo(settings)) == settings
  {
  }

  /** Whether the broker finds an environment for a URL, once it has cut off all its slashes: with a
      ragged URL only one that is listed in the cut form. */
  ghost predicate Lost(settings: RelaySettings, url: string) {
    if Ragged(url)
    then forall entry :: entry in settings.environments ==> NormalUrl(entry.url) != NormalUrl(TrimEndSlashes(url))
    else settings.EnvironmentWithUrl(url).None?
  }

  lemma {:induction false} FoundExactly(entries: seq<EnvironmentEntry>, wanted: string)
    ensures FindByUrl(entries, wanted).None? <==> forall entry :: entry in entries ==> NormalUrl(entry.url) != wanted
  {
    if entries != [] {
      FoundExactly(entries[1..], wanted);
      assert forall entry :: entry in entries <==> entry == entries[0] || entry in entries[1..];
    }
  }

  lemma LostExactly(settings: RelaySettings, url: string)
    ensures settings.EnvironmentWithUrl(TrimEndSlashes(url)).None? <==> Lost(settings, url)
  {
    hide NormalUrl, TrimEndSlashes, Ragged;
    RaggedExactly(url);
    FoundExactly(settings.environments, NormalUrl(TrimEndSlashes(url)));
  }

  /** Which environment switches sign out, for every config and every entry: those that change the
      Gateway and leave from, or arrive at, a URL that is lost once its slashes are cut off. */
  lemma SwitchSignsOutExactly(settings: RelaySettings, entry: EnvironmentEntry)
    ensures SignsOut(settings, TargetOf(settings, None), TargetOf(EnvironmentPatch(settings, entry).AppliedTo(settings), None))
       <==> TrimEndSlashes(settings.gateway.url) != TrimEndSlashes(entry.url)
            && (Lost(settings, settings.gateway.url) || Lost(settings, entry.url))
  {
    hide Lost, RelaySettings.EnvironmentWithUrl;
    PatchKeeps(settings, EnvironmentPatch(settings, entry));
    LostExactly(settings, settings.gateway.url);
    LostExactly(settings, entry.url);
  }

  /** Between listed environments, from a URL that is not ragged, a switch signs out exactly when the
      URL it arrives at is ragged and no environment is listed with what is left of it. */
  lemma ListedSwitchSignsOutExactly(settings: RelaySettings, entry: EnvironmentEntry)
    requires Distinct(settings.environments) && entry in settings.environments
    requires settings.CurrentName().Some? && settings.CurrentName().value != entry.name
    requires !Ragged(settings.gateway.url)
    ensures SignsOut(settings, TargetOf(settings, None), TargetOf(EnvironmentPatch(settings, entry).AppliedTo(settings), None))
       <==> Ragged(entry.url)
            && forall other :: other in settings.environments ==> NormalUrl(other.url) != NormalUrl(TrimEndSlashes(entry.url))
  {
    hide NormalUrl, TrimEndSlashes, Ragged, SignsOut, TargetOf;
    SwitchSignsOutExactly(settings, entry);
    FoundExactly(settings.environments, NormalUrl(entry.url));
    RaggedExactly(settings.gateway.url);
    RaggedExactly(entry.url);
    CurrentIsListed(settings);
    FindByUrlSound(settings.environments, NormalUrl(settings.gateway.url));
    if TrimEndSlashes(settings.gateway.url) == TrimEndSlashes(entry.url) && !Ragged(entry.url) {
      OnTheEntry(settings, entry);
    }
  }

  /** Both ragged shapes occur: two slashes, and white space before the slash. */
  lemma RaggedUrlsSignOut(url: string)
    requires url in {"b//", "b /"}
    ensures
      var here, there := EnvironmentEntry("A", "a", None), EnvironmentEntry("B", url, None);
      var settings := RelaySettings(GatewaySection("a", None, None, None, None, map[]), [here, there], None, None,
                                    IdpSection("i", "c", None, None, ""), None);
      && settings.CurrentEnvironment() == Some(here)
      && SignsOut(settings, TargetOf(settings, None), TargetOf(EnvironmentPatch(settings, there).AppliedTo(settings), None))
  {
    hide SignsOut, TargetOf, EnvironmentPatch;
    var here, there := EnvironmentEntry("A", "a", None), EnvironmentEntry("B", url, None);
    var settings := RelaySettings(GatewaySection("a", None, None, None, None, map[]), [here, there], None, None,
                                  IdpSection("i", "c", None, None, ""), None);
    ShortUrls();
    SwitchSignsOutExactly(settings, there);
    assert settings.environments == [here, there];
  }

  lemma ShortUrls()
    ensures TrimEndSlashes("a") == "a" && TrimEndSlashes("b//") == "b" && TrimEndSlashes("b /") == "b "
    ensures NormalUrl("a") == "a" && NormalUrl("b") == "b" && NormalUrl("b ") == "b" && NormalUrl("b//") == "b/" && NormalUrl("b /") == "b "
    ensures Ragged("b//") && Ragged("b /") && !Ragged("a")
  {
    TrimOfTrimmed("a");
    TrimOfTrimmed("b");
    TrimOfTrimmed("b//");
    TrimOfTrimmed("b /");
    assert TrimEndSlashes("b//") == TrimEndSlashes("b/") == TrimEndSlashes("b");
    assert TrimStart("b ") == "b " && TrimEnd("b ") == TrimEnd("b") == "b";
  }

  lemma AfterSettingsTolerates(before: State, met: State, settings: RelaySettings, current: Target, next: Target)
    requires Tolerated(before, met)
    ensures Tolerated(AfterSettings(before, settings, current, next), AfterSettings(met, settings, current, next))
  {
  }

  /** Folds the differences of two equally long tokens without stopping at the first. */
  function Difference(left: seq<bv8>, right: seq<bv8>, difference: bv8): bv8
    requires |left| == |right|
  {
    if left == [] then difference else Difference(left[1..], right[1..], difference | (left[0] ^ right[0]))
  }

  predicate SameBytes(left: seq<bv8>, right: seq<bv8>) {
    |left| == |right| && Difference(left, right, 0) == 0
  }

  lemma {:induction false} NoDifferenceMeansEqual(left: seq<bv8>, right: seq<bv8>, difference: bv8)
    requires |left| == |right|
    ensures Difference(left, right, difference) == 0 <==> difference == 0 && left == right
  {
    if left != [] {
      NoDifferenceMeansEqual(left[1..], right[1..], difference | (left[0] ^ right[0]));
      assert (difference | (left[0] ^ right[0])) == 0 <==> difference == 0 && left[0] == right[0];
      assert left == [left[0]] + left[1..] && right == [right[0]] + right[1..];
    }
  }

  /** The constant-time comparison accepts exactly the token itself. */
  lemma SameBytesIsEquality(left: seq<bv8>, right: seq<bv8>)
    ensures SameBytes(left, right) <==> left == right
  {
    if |left| == |right| {
      NoDifferenceMeansEqual(left, right, 0);
    }
  }

  function KeyReply(key: MintedKey): Issued {
    Issued(key.token, Some(key.expiresAt), KeySource, None)
  }

  function CredentialReply(credential: CachedCredential, notice: Option<string>): Issued {
    Issued(credential.accessToken, Some(credential.expiresAt), SessionSource, notice)
  }

  /** The gateway has refused before to mint with this credential. */
  predicate IsSticky(s: State, credential: CachedCredential) {
    s.mintRefusal.Some? && s.mintRefusal.value.credentialIssuedAt == credential.issuedAt
  }

  /** What a mint leaves behind: the key, a sticky refusal, or nothing. */
  function AfterMint(t: Target, before: State, credential: CachedCredential, answer: MintAnswer, now: int): State {
    match answer
    case Minted(token, expiresAt) =>
      before.(key := Some(MintedKey(token, t.gatewayUrl, GrantedUntil(expiresAt, now), None, false)), mintRefusal := None)
    case TeamPermission(message) => before.(mintRefusal := Some(StickyRefusal(credential.issuedAt, message)))
    case _ => before
  }

  /** The reply to a mint: the key, a dead bearer on a 401, else the credential itself with a notice. */
  function MintReply(t: Target, credential: CachedCredential, answer: MintAnswer, now: int): KeyOutcome {
    match answer
    case Minted(token, expiresAt) =>
      KeyIssued(KeyReply(MintedKey(token, t.gatewayUrl, GrantedUntil(expiresAt, now), None, false)))
    case Unauthorized(_) => DeadBearer
    case TeamPermission(message) => KeyIssued(CredentialReply(credential, Some(message)))
    case OtherRefusal(message) => KeyIssued(CredentialReply(credential, Some(message)))
    case MintFailed(message) => KeyIssued(CredentialReply(credential, Some(message)))
  }

  // ------------------------------------------------------------ what an issue answers

  /** One round of an issue: a run of the renewal chain and, when it gives a credential to mint with,
      the Gateway's answer to the mint. */
  datatype Round = Round(run: RenewalRun, answer: Option<MintAnswer>)

  /** What a run logs. */
  function RunLog(t: Target, s: State, run: RenewalRun): seq<Event> {
    [CredentialSought(t.gatewayUrl, t.team)]
    + (if run.opensBrowser then [BrowserOpened(true, s.explicitSignInRunning)] else [])
    + GrantLog(run)
  }

  function GrantLog(run: RenewalRun): seq<Event> {
    if run.result.Ok? && run.result.value.IssuedCredential? && run.result.value.changed
    then [Granted(AtOf(run.result.value.credential))] else []
  }

  /** The round the broker goes through on what it holds: the chain asks the IdP and the token endpoint
      as they answer now; a mint is asked for with the credential that came back, for the team, unless
      the Gateway has refused that before. */
  ghost predicate IsRound(d: Dependencies, t: Target, s: State, log: seq<Event>, context: Context, now: int, r: Round) {
    && t.mode.Idp? && r.run == RunRenewal(d.auth(log), d.identity(log), t, s, context, now)
    && match r.run.result
       case Ok(IssuedCredential(c, _)) => r.answer == MintAsked(d, t, s, c, log + RunLog(t, s, r.run))
       case _ => r.answer.None?
  }

  ghost predicate Serves(reply: Reply, token: string, expiresAt: Option<int>, source: Source) {
    reply.Credential? && reply.issued.token == token && reply.issued.expiresAt == expiresAt && reply.issued.source == source
  }

  /** The reply to a round; none to a mint answered 401. */
  ghost predicate RoundReply(r: Round, now: int, reply: Option<Reply>) {
    match r.run.result
    case Err(SignInFailed(SignInRequired)) => reply == Some(Refused(SignedOut))
    case Err(SignInFailed(IdentityFailed(_))) => reply == Some(Refused(Refusal.SignInFailed))
    case Err(_) => reply == Some(Refused(GatewayError))
    case Ok(NoExchange) =>
      if r.run.identity.Err? then reply == Some(Refused(GatewayError))
      else reply.Some? && r.run.session.Some? && r.run.session.value.token == r.run.identity.value
           && Serves(reply.value, r.run.identity.value, Some(r.run.session.value.exp), IdentitySource)
    case Ok(IssuedCredential(c, _)) => MintedReply(c, r.answer, now, reply)
  }

  /** The credential a round ends with, if any. */
  function RoundCredential(r: Round): Option<CachedCredential> {
    if r.run.result.Ok? && r.run.result.value.IssuedCredential? then Some(r.run.result.value.credential) else None
  }

  function AfterRun(s: State, run: RenewalRun): State {
    s.(session := run.session,
       credential := if run.result.Ok? && run.result.value.IssuedCredential? then Some(run.result.value.credential) else s.credential)
  }

  /** A run that others have watched, and what the broker then does with its credential, make a round. */
  predicate Watched(t: Target, s: State, met: State, log: seq<Event>, asked: seq<Event>, run: RenewalRun) {
    && Tolerated(AfterRun(s, run), met) && asked == log + RunLog(t, s, run)
  }

  /** What the broker does with the credential of a round: it asks for a key, as others watch. */
  ghost predicate UsedUp(d: Dependencies, t: Target, met: State, s: State, asked: seq<Event>, log: seq<Event>, now: int, r: Round) {
    match RoundCredential(r)
    case None => r.answer.None? && log == asked && Tolerated(met, s)
    case Some(c) =>
      && r.answer == MintAsked(d, t, met, c, asked) && log == asked + MintLog(t, met, c, r.answer, now)
      && Tolerated(AfterAsking(t, met, c, r.answer, now), s)
  }

  lemma MakeRound(d: Dependencies, t: Target, s: State, met: State, end: State, before: seq<Event>, asked: seq<Event>, log: seq<Event>,
                  context: Context, now: int, r: Round)
    requires t.mode.Idp? && r.run == RunRenewal(d.auth(before), d.identity(before), t, s, context, now)
    requires Watched(t, s, met, before, asked, r.run) && UsedUp(d, t, met, end, asked, log, now, r)
    requires RoundCredential(r).Some? ==> RoundCredential(r).value.gatewayUrl == t.gatewayUrl
    ensures IsRound(d, t, s, before, context, now, r)
    ensures log == before + RoundLog(t, s, r, now) && Tolerated(AfterRound(t, s, r, now), end)
  {
    hide RunRenewal, MintAsked, MintLog, AfterAsking, IsRound, RoundLog, AfterRound, Tolerated, Watched;
    match RoundCredential(r)
    case None =>
      RunMakesARound(d, t, s, met, before, asked, context, now, r);
      WatchedFacts(t, s, met, before, asked, r.run);
      ToleratedOn(AfterRun(s, r.run), met, end);
    case Some(c) =>
      AskingMakesARound(d, t, s, met, before, asked, context, now, r, c);
      ToleratedOn(AfterRound(t, s, r, now), AfterAsking(t, met, c, r.answer, now), end);
  }

  lemma MakeWatched(t: Target, s: State, asked: State, met: State, before: seq<Event>, log: seq<Event>, run: RenewalRun)
    requires Tolerated(s.(session := run.session), asked)
    requires met == if run.result.Ok? && run.result.value.IssuedCredential? then asked.(credential := Some(run.result.value.credential)) else asked
    requires log == before + [CredentialSought(t.gatewayUrl, t.team)]
                    + (if run.opensBrowser then [BrowserOpened(true, s.explicitSignInRunning)] else []) + GrantLog(run)
    ensures Watched(t, s, met, before, log, run)
  {
  }

  /** A run depends on nothing that others touch. */
  lemma WatchedFrom(t: Target, found: State, s: State, met: State, log: seq<Event>, asked: seq<Event>, run: RenewalRun)
    requires Tolerated(found, s) && Watched(t, s, met, log, asked, run)
    ensures Watched(t, found, met, log, asked, run)
  {
  }

  lemma WatchedFacts(t: Target, s: State, met: State, log: seq<Event>, asked: seq<Event>, run: RenewalRun)
    requires Watched(t, s, met, log, asked, run)
    ensures Tolerated(AfterRun(s, run), met)
  {
  }

  lemma RunMakesARound(d: Dependencies, t: Target, s: State, met: State, log: seq<Event>, asked: seq<Event>, context: Context, now: int, r: Round)
    requires t.mode.Idp? && r.run == RunRenewal(d.auth(log), d.identity(log), t, s, context, now) && Watched(t, s, met, log, asked, r.run)
    requires RoundCredential(r).None? && r.answer.None?
    ensures IsRound(d, t, s, log, context, now, r) && asked == log + RoundLog(t, s, r, now) && AfterRound(t, s, r, now) == AfterRun(s, r.run)
  {
    hide RunRenewal;
  }

  lemma AskingMakesARound(d: Dependencies, t: Target, s: State, met: State, log: seq<Event>, asked: seq<Event>, context: Context, now: int,
                          r: Round, c: CachedCredential)
    requires t.mode.Idp? && r.run == RunRenewal(d.auth(log), d.identity(log), t, s, context, now) && Watched(t, s, met, log, asked, r.run)
    requires RoundCredential(r) == Some(c) && c.gatewayUrl == t.gatewayUrl && r.answer == MintAsked(d, t, met, c, asked)
    ensures IsRound(d, t, s, log, context, now, r)
    ensures asked + MintLog(t, met, c, r.answer, now) == log + RoundLog(t, s, r, now)
    ensures Tolerated(AfterRound(t, s, r, now), AfterAsking(t, met, c, r.answer, now))
  {
    hide RunRenewal, RunLog;
    assert MintLog(t, met, c, r.answer, now) == MintLog(t, s, c, r.answer, now);
  }

  /** What no step of an issue touches: the sign-in flags, a proxy token once handed out, and the session. */
  predicate SameFlow(before: State, after: State, alone: bool) {
    && after.explicitSignInRunning == before.explicitSignInRunning
    && after.pendingSignInPage == before.pendingSignInPage
    && after.completedSignIns == before.completedSignIns
    && ((before.proxyToken.Some? || alone) ==> after.proxyToken == before.proxyToken)
    && (before.session.Some? ==> after.session.Some?)
  }

  lemma SameFlowOn(a: State, b: State, c: State, first: bool, all: bool)
    requires SameFlow(a, b, first) && (all ==> first) && (SameFlow(b, c, true) || (!all && SameFlow(b, c, false)))
    ensures SameFlow(a, c, all)
  {
  }

  lemma FlowFacts(before: State, after: State, alone: bool)
    requires SameFlow(before, after, alone) || SameFlow(before, after, false)
    ensures after.pendingSignInPage == before.pendingSignInPage && after.explicitSignInRunning == before.explicitSignInRunning
    ensures before.session.Some? ==> after.session.Some?
  {
  }

  lemma LaterBrowser(before: Ledger, after: Ledger, context: Context, slot: Option<CachedCredential>)
    requires IssueLedger(before, after, context, slot)
    ensures before.browserOpened <= after.browserOpened
  {
  }

  lemma SameFlowSelf(s: State)
    ensures SameFlow(s, s, true) && SameFlow(s, s, false)
  {
  }

  lemma ToleratedOn(a: State, b: State, c: State)
    requires Tolerated(a, b) && Tolerated(b, c)
    ensures Tolerated(a, c)
  {
  }

  /** What a round leaves of the state. */
  function AfterRound(t: Target, s: State, r: Round, now: int): State {
    var c := RoundCredential(r);
    var kept := s.(session := r.run.session, credential := if c.Some? then c else s.credential);
    if c.Some? then AfterAsking(t, kept, c.value, r.answer, now) else kept
  }

  function RoundLog(t: Target, s: State, r: Round, now: int): seq<Event> {
    var c := RoundCredential(r);
    RunLog(t, s, r.run) + (if c.Some? then MintLog(t, s, c.value, r.answer, now) else [])
  }

  /** What asking for a key logs; a key that is replaced has lapsed. */
  function MintLog(t: Target, s: State, c: CachedCredential, answer: Option<MintAnswer>, now: int): seq<Event> {
    if answer.Some? && t.team.Some?
    then (if answer.value.Minted? then LapseLog(s, now) else []) + [Mint(t.gatewayUrl, c.accessToken, t.team.value, answer.value, now)]
    else []
  }

  /** What asking for a key leaves. */
  function AfterAsking(t: Target, s: State, c: CachedCredential, answer: Option<MintAnswer>, now: int): State {
    if answer.Some? then AfterMint(t, s, c, answer.value, now) else s
  }

  /** Whether a key is asked for with this credential, and the Gateway's answer. */
  function MintAsked(d: Dependencies, t: Target, s: State, c: CachedCredential, log: seq<Event>): Option<MintAnswer> {
    if t.team.Some? && !(s.mintRefusal.Some? && s.mintRefusal.value.credentialIssuedAt == c.issuedAt)
    then Some(d.mint(log, At(t.gatewayUrl, c.accessToken), t.team.value))
    else None
  }

  /** The reply to asking for a key: that key, with the expiry stated or the default one; the credential
      itself; or none to a 401. */
  ghost predicate MintedReply(c: CachedCredential, answer: Option<MintAnswer>, now: int, reply: Option<Reply>) {
    match answer
    case Some(Unauthorized(_)) => reply.None?
    case Some(Minted(token, None)) => reply.Some? && Serves(reply.value, token, Some(now + KEY_LIFETIME_SECONDS), KeySource)
    case Some(Minted(token, Some(expiresAt))) => reply.Some? && Serves(reply.value, token, Some(expiresAt), KeySource)
    case Some(TeamPermission(message)) => ServesInstead(c, message, reply)
    case Some(OtherRefusal(message)) => ServesInstead(c, message, reply)
    case Some(MintFailed(message)) => ServesInstead(c, message, reply)
    case None => reply.Some? && Serves(reply.value, c.accessToken, Some(c.expiresAt), SessionSource)
  }

  /** The credential in place of a key, with the reason. */
  ghost predicate ServesInstead(c: CachedCredential, message: string, reply: Option<Reply>) {
    reply.Some? && Serves(reply.value, c.accessToken, Some(c.expiresAt), SessionSource) && reply.value.issued.notice == Some(message)
  }

  /** An issue: the world it started from, the time it read, its first round if it needed one, and
      after a 401 the time it read again and its second. */
  datatype IssueTrail = IssueTrail(found: World, now: int, first: Option<Round>, later: int, second: Option<Round>)

  /** What an issue answers, and why. Without an IdP the target says; a key that lives is served; else
      one round decides, and after a 401 a second one, on the credential marked dead. */
  ghost predicate Explains(d: Dependencies, context: Context, trail: IssueTrail, reply: Reply) {
    var t, s, log, now := trail.found.target, trail.found.state, trail.found.log, trail.now;
    if t.mode.Static? then trail.first.None? && reply == Credential(Issued(t.mode.key, None, StaticSource, None))
    else if t.mode.Unconfigured? then trail.first.None? && reply == Refused(GatewayError)
    else if s.key.Some? && s.key.value.expiresAt > now then
      trail.first.None? && reply == Credential(Issued(s.key.value.token, Some(s.key.value.expiresAt), KeySource, None))
    else
      && trail.first.Some? && IsRound(d, t, s, log, context, now, trail.first.value)
      && (if !Answered401(trail.first.value) then RoundReply(trail.first.value, now, Some(reply))
          else trail.second.Some? && SecondRound(d, context, trail, reply))
  }

  /** The reply to the second round: there is no third, and no falling back to the identity token. */
  ghost predicate SecondReply(r: Round, now: int, reply: Reply) {
    if Answered401(r) || r.run.result == Ok(NoExchange) then reply == Refused(GatewayError)
    else RoundReply(r, now, Some(reply))
  }

  lemma SecondIs(r: Round, now: int, served: Option<Reply>, reply: Reply)
    requires RoundReply(r, now, served) && (r.run.result == Ok(NoExchange) ==> r.run.identity.Err?)
    requires reply == if served.Some? then served.value else Refused(GatewayError)
    ensures SecondReply(r, now, reply)
  {
  }

  /** A state that others have touched meanwhile goes through the same round. */
  lemma RoundTolerates(d: Dependencies, t: Target, a: State, b: State, log: seq<Event>, context: Context, now: int, r: Round)
    requires Tolerated(a, b) && IsRound(d, t, b, log, context, now, r)
    ensures IsRound(d, t, a, log, context, now, r) && RoundLog(t, a, r, now) == RoundLog(t, b, r, now)
    ensures Tolerated(AfterRound(t, a, r, now), AfterRound(t, b, r, now))
  {
    RunUses(d.auth(log), d.identity(log), t, a, b, context, now);
    hide RunRenewal;
  }

  lemma NothingUsed(d: Dependencies, t: Target, s: State, log: seq<Event>, now: int, r: Round)
    requires r.answer.None? && RoundCredential(r).None?
    ensures UsedUp(d, t, s, s, log, log, now, r) && (r.run.result == Ok(NoExchange) ==> SecondReply(r, now, Refused(GatewayError)))
  {
  }

  lemma DiedFirst(before: Ledger, buried: Ledger, after: Ledger, context: Context, dead: CachedCredential)
    requires buried.deleted == before.deleted && buried.browserOpened == before.browserOpened && buried.reissued == before.reissued
    requires buried.granted == before.granted && buried.dead == before.dead + {AtOf(dead)}
    requires after.dead == buried.dead && buried.granted <= after.granted && buried.reissued <= after.reissued
    requires after.deleted == buried.deleted && buried.browserOpened <= after.browserOpened
    requires context.NonInteractive? ==> after.browserOpened == buried.browserOpened
    ensures IssueLedger(before, after, context, Some(dead))
  {
  }

  /** A proxied request gets what an issue in silence answers, and goes to the Gateway of that issue. */
  ghost predicate Bears(d: Dependencies, trail: IssueTrail, bearer: Result<ProxyBearer, Refusal>, source: Source) {
    match bearer
    case Ok(borne) =>
      borne.gatewayUrl == trail.found.target.gatewayUrl
      && exists issued: Issued :: issued.token == borne.token && issued.source == source && Explains(d, NonInteractive, trail, Credential(issued))
    case Err(refusal) => Explains(d, NonInteractive, trail, Refused(refusal))
  }

  /** A switch whose issue gives a bearer is done; one that is told to sign in says so; any other refusal,
      and a config that could not be written (no answer), is a failed switch. */
  ghost predicate Concludes(d: Dependencies, trail: IssueTrail, answer: Option<Reply>, reply: Reply) {
    && (answer.Some? ==> Explains(d, NonInteractive, trail, answer.value))
    && match answer
       case Some(Credential(_)) => reply == SwitchDone
       case Some(Refused(SignedOut)) => reply == Refused(SignedOut)
       case Some(Refused(_)) => reply == Refused(SwitchFailed)
       case None => reply == Refused(SwitchFailed)
       case _ => false
  }

  /** The issue of a switch started with the new target, from what is left of `entered` without the hold. */
  predicate IssuedFor(entered: World, written: RelaySettings, trail: IssueTrail) {
    && trail.found.target == TargetOf(written, trail.found.target.version) && trail.found.log == entered.log
    && Tolerated(AfterSettings(Forgotten(entered.state), written, entered.target, trail.found.target), trail.found.state)
  }

  lemma BearsTheKey(d: Dependencies, trail: IssueTrail)
    requires trail.found.target.mode.Idp? && trail.found.state.key.Some? && trail.found.state.key.value.expiresAt > trail.now
    requires trail.found.state.key.value.gatewayUrl == trail.found.target.gatewayUrl && trail.first.None?
    ensures var key := trail.found.state.key.value; Bears(d, trail, Ok(ProxyBearer(key.token, key.gatewayUrl)), KeySource)
    ensures TrailLog(trail) == trail.found.log
  {
    var key := trail.found.state.key.value;
    assert Explains(d, NonInteractive, trail, Credential(Issued(key.token, Some(key.expiresAt), KeySource, None)));
  }

  predicate Answered401(r: Round) {
    r.answer.Some? && r.answer.value.Unauthorized? && RoundCredential(r).Some?
  }

  ghost predicate SecondRound(d: Dependencies, context: Context, trail: IssueTrail, reply: Reply)
    requires trail.first.Some? && trail.second.Some? && Answered401(trail.first.value)
  {
    IsRound(d, trail.found.target, SecondState(trail), SecondLog(trail), context, trail.later, trail.second.value)
    && SecondReply(trail.second.value, trail.later, reply)
  }

  /** The whole log after an issue, but for the count of an interactive one. */
  function TrailLog(trail: IssueTrail): seq<Event> {
    var t, s := trail.found.target, trail.found.state;
    if trail.first.None? then trail.found.log
    else if trail.second.None? || !Answered401(trail.first.value) then trail.found.log + RoundLog(t, s, trail.first.value, trail.now)
    else SecondLog(trail) + RoundLog(t, SecondState(trail), trail.second.value, trail.later)
  }

  /** And the state it leaves, but for what others may touch. */
  function TrailState(trail: IssueTrail): State {
    var t, s := trail.found.target, trail.found.state;
    if trail.first.None? then s
    else if trail.second.None? || !Answered401(trail.first.value) then AfterRound(t, s, trail.first.value, trail.now)
    else AfterRound(t, SecondState(trail), trail.second.value, trail.later)
  }

  /** The state when the second round begins. */
  function SecondState(trail: IssueTrail): State
    requires trail.first.Some? && Answered401(trail.first.value)
  {
    DeadState(AfterRound(trail.found.target, trail.found.state, trail.first.value, trail.now), trail.later)
  }

  /** The log when the second round begins. */
  function SecondLog(trail: IssueTrail): seq<Event>
    requires trail.first.Some? && Answered401(trail.first.value)
  {
    var t, s := trail.found.target, trail.found.state;
    DeadLog(AfterRound(t, s, trail.first.value, trail.now), trail.found.log + RoundLog(t, s, trail.first.value, trail.now))
  }

  predicate SameSlots(a: State, b: State) {
    a.session == b.session && a.credential == b.credential && a.key == b.key && a.mintRefusal == b.mintRefusal
  }

  lemma AtOnce(d: Dependencies, context: Context, trail: IssueTrail, reply: Reply)
    requires trail.first.None?
    requires var t, key := trail.found.target, trail.found.state.key;
      if t.mode.Static? then reply == Credential(Issued(t.mode.key, None, StaticSource, None))
      else if t.mode.Unconfigured? then reply == Refused(GatewayError)
      else key.Some? && key.value.expiresAt > trail.now && reply == Credential(KeyReply(key.value))
    ensures Explains(d, context, trail, reply) && TrailLog(trail) == trail.found.log && TrailState(trail) == trail.found.state
  {
  }

  lemma OneRound(d: Dependencies, context: Context, trail: IssueTrail, served: Option<Reply>, reply: Reply)
    requires trail.first.Some? && trail.second.None? && served == Some(reply)
    requires trail.found.target.mode.Idp?
    requires trail.found.state.key.Some? ==> trail.found.state.key.value.expiresAt <= trail.now
    requires IsRound(d, trail.found.target, trail.found.state, trail.found.log, context, trail.now, trail.first.value)
    requires RoundReply(trail.first.value, trail.now, served)
    ensures Explains(d, context, trail, reply)
    ensures TrailLog(trail) == trail.found.log + RoundLog(trail.found.target, trail.found.state, trail.first.value, trail.now)
    ensures TrailState(trail) == AfterRound(trail.found.target, trail.found.state, trail.first.value, trail.now)
  {
    hide IsRound, RoundLog, AfterRound;
  }

  lemma TwoRounds(d: Dependencies, context: Context, trail: IssueTrail, met: State, asked: seq<Event>, log: seq<Event>, s: State, reply: Reply)
    requires trail.first.Some? && trail.second.Some? && trail.found.target.mode.Idp?
    requires trail.found.state.key.Some? ==> trail.found.state.key.value.expiresAt <= trail.now
    requires IsRound(d, trail.found.target, trail.found.state, trail.found.log, context, trail.now, trail.first.value)
    requires RoundReply(trail.first.value, trail.now, None)
    requires asked == trail.found.log + RoundLog(trail.found.target, trail.found.state, trail.first.value, trail.now)
    requires Tolerated(AfterRound(trail.found.target, trail.found.state, trail.first.value, trail.now), met) && met.credential.Some?
    requires IsRound(d, trail.found.target, DeadState(met, trail.later), DeadLog(met, asked), context, trail.later, trail.second.value)
    requires SecondReply(trail.second.value, trail.later, reply)
    requires log == DeadLog(met, asked) + RoundLog(trail.found.target, DeadState(met, trail.later), trail.second.value, trail.later)
    requires Tolerated(AfterRound(trail.found.target, DeadState(met, trail.later), trail.second.value, trail.later), s)
    ensures Explains(d, context, trail, reply) && log == TrailLog(trail) && Tolerated(TrailState(trail), s)
  {
    hide IsRound, RoundLog, AfterRound, SecondReply;
    RefusedIs401(trail.first.value, trail.now);
    AfterRefusal(trail.found.target, trail.found.state, trail.first.value, trail.now);
    RoundTolerates(d, trail.found.target, SecondState(trail), DeadState(met, trail.later), DeadLog(met, asked), context, trail.later, trail.second.value);
    ToleratedOn(TrailState(trail), AfterRound(trail.found.target, DeadState(met, trail.later), trail.second.value, trail.later), s);
  }

  lemma RefusedIs401(r: Round, now: int)
    requires RoundReply(r, now, None)
    ensures Answered401(r)
  {
  }

  lemma AfterRefusal(t: Target, s: State, r: Round, now: int)
    requires Answered401(r)
    ensures AfterRound(t, s, r, now).credential.Some?
  {
  }

  /** What others touch before an issue has read anything does not show in its trail. */
  lemma TrailTolerates(d: Dependencies, context: Context, trail: IssueTrail, followed: IssueTrail, reply: Reply)
    requires followed.first.Some? && trail == followed.(found := trail.found)
    requires trail.found.target == followed.found.target && trail.found.log == followed.found.log
    requires Tolerated(trail.found.state, followed.found.state) && Explains(d, context, followed, reply)
    requires trail.found.target.mode.Idp? && (trail.found.state.key.Some? ==> trail.found.state.key.value.expiresAt <= trail.now)
    ensures Explains(d, context, trail, reply) && TrailLog(trail) == TrailLog(followed) && Tolerated(TrailState(trail), TrailState(followed))
  {
    hide IsRound, RoundLog, AfterRound, SecondReply, RoundReply;
    var t, a, b, log := trail.found.target, trail.found.state, followed.found.state, trail.found.log;
    var first := trail.first.value;
    RoundTolerates(d, t, a, b, log, context, trail.now, first);
    if Answered401(first) && trail.second.Some? {
      AfterRefusal(t, a, first, trail.now);
      AfterRefusal(t, b, first, trail.now);
      RoundTolerates(d, t, SecondState(trail), SecondState(followed), SecondLog(followed), context, trail.later, trail.second.value);
    }
  }

  lemma TriedTwice(before: Ledger, tried: Ledger, after: Ledger, context: Context, slot: Option<CachedCredential>, dead: CachedCredential)
    requires IssueLedger(before, tried, context, slot) && IssueLedger(tried, after, context, Some(dead))
    requires slot == Some(dead) || AtOf(dead) !in before.granted || AtOf(dead) in tried.reissued
    requires after.dead <= after.granted
    ensures IssueLedger(before, after, context, slot)
  {
  }

  // ------------------------------------------------------------ what a tick does

  /** A tick: the world it started from, the time it read, the renewal of a stale credential, the answer
      to the extension of a key that is due, and the round that follows a 401. */
  datatype TickTrail = TickTrail(found: World, at: int, run: Option<RenewalRun>, answer: Option<ExtendAnswer>, again: Option<Round>)

  /** Only a Gateway that no longer offers the exchange ends a tick before the key is looked at. */
  predicate Offered(trail: TickTrail) {
    !(trail.run.Some? && trail.run.value.result == Ok(NoExchange) && trail.run.value.identity.Ok?)
  }

  /** A stale credential goes through the renewal chain, in silence; then comes the key. */
  ghost predicate IsTick(d: Dependencies, trail: TickTrail) {
    && Refreshes(d, trail)
    && if Offered(trail) then
         IsExtension(d, trail.found.target, RenewedState(trail), RenewedLog(trail), trail.at, trail.answer, trail.again)
       else trail.answer.None? && trail.again.None?
  }

  ghost predicate Refreshes(d: Dependencies, trail: TickTrail) {
    var t, s, log, at := trail.found.target, trail.found.state, trail.found.log, trail.at;
    && (trail.run.Some? <==> s.credential.Some? && !s.credential.value.IsFresh(at, HalfLife))
    && (trail.run.Some? ==> t.mode.Idp? && trail.run.value == RunRenewal(d.auth(log), d.identity(log), t, s, NonInteractive, at))
  }

  function RenewedState(trail: TickTrail): State {
    if trail.run.Some? then AfterRun(trail.found.state, trail.run.value) else trail.found.state
  }

  function RenewedLog(trail: TickTrail): seq<Event> {
    trail.found.log + if trail.run.Some? then RunLog(trail.found.target, trail.found.state, trail.run.value) else []
  }

  function TickLog(trail: TickTrail): seq<Event> {
    ExtensionLog(trail.found.target, RenewedState(trail), RenewedLog(trail), trail.at, trail.answer, trail.again)
  }

  function TickState(trail: TickTrail): State {
    AfterUpkeep(trail.found.target, RenewedState(trail), trail.at, trail.answer, trail.again)
  }

  /** A key is extended exactly when it is due, under the credential held; a 401 is followed by a round
      on the credential marked dead. */
  ghost predicate IsExtension(d: Dependencies, t: Target, s: State, log: seq<Event>, now: int, answer: Option<ExtendAnswer>, again: Option<Round>) {
    && (answer.Some? <==> s.credential.Some? && s.key.Some? && Due(s.key.value, now))
    && (again.Some? <==> answer == Some(ExtendUnauthorized))
    && (answer.Some? ==> answer.value == d.extend(log, At(t.gatewayUrl, s.credential.value.accessToken), s.key.value.token))
    && (again.Some? ==>
          IsRound(d, t, DeadState(s, now), DeadLog(s, AskedLog(t, s, log, now, answer.value)), NonInteractive, now, again.value))
  }

  function AskedLog(t: Target, s: State, log: seq<Event>, now: int, said: ExtendAnswer): seq<Event>
    requires s.credential.Some? && s.key.Some?
  {
    log + [Extend(t.gatewayUrl, s.credential.value.accessToken, s.key.value.token, said, now)]
  }

  function ExtensionLog(t: Target, s: State, log: seq<Event>, now: int, answer: Option<ExtendAnswer>, again: Option<Round>): seq<Event> {
    if answer.None? || s.key.None? || s.credential.None? then log
    else if again.None? then AskedLog(t, s, log, now, answer.value)
    else DeadLog(s, AskedLog(t, s, log, now, answer.value)) + RoundLog(t, DeadState(s, now), again.value, now)
  }

  function AfterUpkeep(t: Target, s: State, now: int, answer: Option<ExtendAnswer>, again: Option<Round>): State {
    if answer.None? || s.key.None? || s.credential.None? then s
    else if !answer.value.ExtendUnauthorized? then s.(key := Some(AfterExtension(s.key.value, now, answer.value)))
    else if again.Some? then AfterRound(t, DeadState(s, now), again.value, now)
    else s
  }

  lemma NotDue(d: Dependencies, t: Target, s: State, log: seq<Event>, now: int)
    requires s.key.None? || !Due(s.key.value, now)
    ensures IsExtension(d, t, s, log, now, None, None) && ExtensionLog(t, s, log, now, None, None) == log
    ensures AfterUpkeep(t, s, now, None, None) == s
  {
  }

  lemma Extending(d: Dependencies, t: Target, s: State, log: seq<Event>, now: int, said: ExtendAnswer, again: Option<Round>,
                  longer: seq<Event>, after: State)
    requires s.credential.Some? && s.key.Some? && Due(s.key.value, now)
    requires said == d.extend(log, At(t.gatewayUrl, s.credential.value.accessToken), s.key.value.token)
    requires again.Some? <==> said.ExtendUnauthorized?
    requires var asked := AskedLog(t, s, log, now, said);
      if again.None? then longer == asked && after == s.(key := Some(AfterExtension(s.key.value, now, said)))
      else && IsRound(d, t, DeadState(s, now), DeadLog(s, asked), NonInteractive, now, again.value)
           && longer == DeadLog(s, asked) + RoundLog(t, DeadState(s, now), again.value, now)
           && Tolerated(AfterRound(t, DeadState(s, now), again.value, now), after)
    ensures IsExtension(d, t, s, log, now, Some(said), again) && longer == ExtensionLog(t, s, log, now, Some(said), again)
    ensures Tolerated(AfterUpkeep(t, s, now, Some(said), again), after)
  {
    hide IsRound, RoundLog, AfterRound, DeadLog;
  }

  lemma ExtensionTolerates(d: Dependencies, t: Target, a: State, b: State, log: seq<Event>, now: int, answer: Option<ExtendAnswer>, again: Option<Round>)
    requires Tolerated(a, b) && IsExtension(d, t, b, log, now, answer, again)
    ensures IsExtension(d, t, a, log, now, answer, again) && ExtensionLog(t, a, log, now, answer, again) == ExtensionLog(t, b, log, now, answer, again)
    ensures Tolerated(AfterUpkeep(t, a, now, answer, again), AfterUpkeep(t, b, now, answer, again))
  {
    hide IsRound, RoundLog, AfterRound;
    if again.Some? {
      RoundTolerates(d, t, DeadState(a, now), DeadState(b, now), DeadLog(b, AskedLog(t, b, log, now, answer.value)), NonInteractive, now, again.value);
    }
  }

  lemma TickEnds(d: Dependencies, trail: TickTrail)
    requires Refreshes(d, trail) && !Offered(trail) && trail.answer.None? && trail.again.None?
    ensures IsTick(d, trail) && TickLog(trail) == RenewedLog(trail) && TickState(trail) == RenewedState(trail)
  {
  }

  lemma TickGoesOn(d: Dependencies, trail: TickTrail, met: State, asked: seq<Event>, log: seq<Event>, s: State)
    requires Refreshes(d, trail) && Offered(trail) && Tolerated(RenewedState(trail), met) && asked == RenewedLog(trail)
    requires IsExtension(d, trail.found.target, met, asked, trail.at, trail.answer, trail.again)
    requires log == ExtensionLog(trail.found.target, met, asked, trail.at, trail.answer, trail.again)
    requires Tolerated(AfterUpkeep(trail.found.target, met, trail.at, trail.answer, trail.again), s)
    ensures IsTick(d, trail) && log == TickLog(trail) && Tolerated(TickState(trail), s)
  {
    hide IsExtension, ExtensionLog, AfterUpkeep, Refreshes;
    var t, at, answer, again := trail.found.target, trail.at, trail.answer, trail.again;
    ExtensionTolerates(d, t, RenewedState(trail), met, asked, at, answer, again);
    ToleratedOn(AfterUpkeep(t, RenewedState(trail), at, answer, again), AfterUpkeep(t, met, at, answer, again), s);
  }

  lemma NothingHeld(d: Dependencies, trail: TickTrail)
    requires trail.run.None? && trail.answer.None? && trail.again.None? && trail.found.state.credential.None?
    ensures IsTick(d, trail) && TickLog(trail) == trail.found.log && TickState(trail) == trail.found.state
  {
  }

  /** The key a mint gives, until the expiry stated with it or else for the lifetime of a key. */
  function MintedAnew(gatewayUrl: string, answer: Option<MintAnswer>, now: int): Option<MintedKey> {
    match answer
    case Some(Minted(token, Some(expiresAt))) => Some(MintedKey(token, gatewayUrl, expiresAt, None, false))
    case Some(Minted(token, None)) => Some(MintedKey(token, gatewayUrl, now + KEY_LIFETIME_SECONDS, None, false))
    case _ => None
  }

  lemma RoundKey(d: Dependencies, t: Target, s: State, log: seq<Event>, context: Context, now: int, r: Round)
    requires IsRound(d, t, s, log, context, now, r) && s.key.None?
    ensures AfterRound(t, s, r, now).key == MintedAnew(t.gatewayUrl, r.answer, now)
  {
    hide RunRenewal, MintAsked;
  }

  /** What a tick is for, in terms of the key's lifetime. */
  lemma TickMeans(d: Dependencies, trail: TickTrail)
    requires IsTick(d, trail) && (trail.found.state.key.Some? ==> trail.found.state.credential.Some?)
    ensures var s := trail.found.state;
      && (trail.run.Some? <==> s.credential.Some? && !s.credential.value.IsFresh(trail.at, HalfLife))
      && (trail.again.Some? <==> trail.answer == Some(ExtendUnauthorized))
      && (trail.answer != Some(ExtendUnauthorized) ==>
            TickState(trail).credential == if trail.run.Some? && RoundCredential(Round(trail.run.value, None)).Some?
                                           then RoundCredential(Round(trail.run.value, None)) else s.credential)
      && (s.key.Some? && Offered(trail) ==>
            && (trail.answer.Some? <==> Due(s.key.value, trail.at))
            && (trail.answer != Some(ExtendUnauthorized) ==>
                  TickState(trail).key == Some(AfterTick(s.key.value, Tick(trail.at, if trail.answer.Some? then trail.answer.value else ExtendFailed)))))
      && (trail.again.Some? ==> TickState(trail).key == MintedAnew(trail.found.target.gatewayUrl, trail.again.value.answer, trail.at))
  {
    hide RunRenewal, IsRound, RoundLog, AfterRound, MintedAnew;
    if trail.again.Some? {
      var t, s, log := trail.found.target, RenewedState(trail), RenewedLog(trail);
      RoundKey(d, t, DeadState(s, trail.at), DeadLog(s, AskedLog(t, s, log, trail.at, trail.answer.value)), NonInteractive, trail.at, trail.again.value);
    }
  }

  // ------------------------------------------------------------ what the answers come to

  /** A run that gives no bearer: it failed, or the Gateway offers no exchange and the IdP gave no token. */
  predicate NoBearer(run: RenewalRun) {
    run.result.Err? || (run.result == Ok(NoExchange) && run.identity.Err?)
  }

  /** Under an IdP an issue is refused in exactly these cases: no key lives, and the renewal gave no
      bearer, or the mint was answered 401 and the second time the renewal gave no bearer, or the
      Gateway no longer offered the exchange, or the mint was answered 401 again. It says that nobody is
      signed in exactly when the exchange failed for that; where there is no exchange it never does. */
  lemma AnIssueRefusesExactly(d: Dependencies, context: Context, trail: IssueTrail, reply: Reply)
    requires Explains(d, context, trail, reply) && trail.found.target.mode.Idp?
    ensures reply.Credential? || reply.Refused?
    ensures var key := trail.found.state.key;
      reply.Refused? <==>
        && !(key.Some? && key.value.expiresAt > trail.now)
        && (NoBearer(trail.first.value.run)
            || (Answered401(trail.first.value)
                && (NoBearer(trail.second.value.run) || trail.second.value.run.result == Ok(NoExchange) || Answered401(trail.second.value))))
    ensures reply.Refused? ==>
      var last := if Answered401(trail.first.value) then trail.second.value else trail.first.value;
      reply.refusal == match last.run.result
                       case Err(SignInFailed(SignInRequired)) => SignedOut
                       case Err(SignInFailed(IdentityFailed(_))) => Refusal.SignInFailed
                       case _ => GatewayError
  {
    hide IsRound;
  }

  /** And this is what it serves: the key that lives; a key minted in its last round, until the expiry
      stated with it or else for the lifetime of a key; the credential of its last round, whatever else
      the mint was answered; or the very identity token of the IdP session, where there is no exchange. */
  lemma WhatAnIssueServes(d: Dependencies, context: Context, trail: IssueTrail, reply: Reply)
    requires Explains(d, context, trail, reply) && trail.found.target.mode.Idp? && reply.Credential?
    ensures var key := trail.found.state.key;
      if key.Some? && key.value.expiresAt > trail.now then
        Serves(reply, key.value.token, Some(key.value.expiresAt), KeySource) && TrailLog(trail) == trail.found.log
      else
        var again := Answered401(trail.first.value);
        var last, at := if again then trail.second.value else trail.first.value, if again then trail.later else trail.now;
        match RoundCredential(last)
        case Some(c) =>
          if last.answer.Some? && last.answer.value.Minted? then
            Serves(reply, last.answer.value.token,
                   Some(if last.answer.value.expiresAt.Some? then last.answer.value.expiresAt.value else at + KEY_LIFETIME_SECONDS), KeySource)
          else Serves(reply, c.accessToken, Some(c.expiresAt), SessionSource)
        case None =>
          !again && last.run.session.Some?
          && Serves(reply, last.run.session.value.token, Some(last.run.session.value.exp), IdentitySource)
  {
    hide IsRound;
  }

  /** A mint refused for the team's permission, and no other answer, stops further mints with that
      credential; a minted key lifts an earlier refusal. */
  lemma OnlyPermissionIsSticky(d: Dependencies, t: Target, s: State, log: seq<Event>, context: Context, now: int, r: Round, longer: seq<Event>)
    requires IsRound(d, t, s, log, context, now, r) && RoundCredential(r).Some? && r.answer.Some?
    ensures var c, after := RoundCredential(r).value, AfterRound(t, s, r, now);
      && (MintAsked(d, t, after, c, longer).None? <==> r.answer.value.TeamPermission?)
      && (r.answer.value.Minted? ==> forall other :: MintAsked(d, t, after, other, longer).Some?)
  {
    hide RunRenewal;
  }

  function Classify(error: Error): Refusal {
    match error
    case SignInFailed(SignInRequired) => SignedOut
    case SignInFailed(_) => Refusal.SignInFailed
    case _ => GatewayError
  }

  function SwitchRefusal(refusal: Refusal): Refusal {
    if refusal.SignedOut? then SignedOut else SwitchFailed
  }
}
