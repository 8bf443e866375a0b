/** The credential broker of `relay serve`. Every field is behind a mutex; the code below is cut at
    the lock boundaries. While a thread holds `renewal` the others may still serve what is held,
    hand out a proxy token, count refused callers and edit the config file (`Interfere`); while it
    holds nothing they may take any steps (`Overtaken`); when it gets `renewal` they have finished
    whole operations (`AcquireRenewal`). The invariant `Inv` holds at every one of these boundaries,
    so what is proved here holds in every interleaving. */
module Broker {
  import opened BrokerState
  import opened BrokerLedger
  import opened GatewayCredential
  import opened IdentitySession
  import opened KeyLifetime
  import opened Settings
  import opened Text
  import opened Wrappers

  class Broker {
    const deps: Dependencies
    var target: Target
    var state: State
    // the world outside: the clock, the config file, and what the broker did out there
    var clock: int
    var disk: RelaySettings
    var diskVersion: nat
    var log: seq<Event>
    ghost var ledger: Ledger
    ghost var holding: Option<At>
    // how often another thread stepped in, someone else edited the config, the config source failed
    ghost var others: nat
    ghost var edits: nat
    ghost var faults: nat

    ghost predicate Inv() reads this {
      Invariant(target, state, log, ledger, holding, clock)
    }

    ghost predicate Settled() reads this {
      SettledState(target, state, log, ledger, holding, clock)
    }

    /** The broker works for the config on disk. */
    ghost predicate InSync() reads this {
      target == TargetOf(disk, Some(diskVersion))
    }

    /** In sync, or not yet aware of the version on disk. */
    ghost predicate Coherent() reads this {
      target.version == Some(diskVersion) ==> InSync()
    }

    ghost function Here(): World reads this {
      World(target, state, log, clock, disk, diskVersion)
    }

    /** Nobody else wrote the config and its source never failed, whatever other threads did. */
    twostate predicate Unedited() reads this {
      edits == old(edits) && faults == old(faults)
    }

    /** Unless someone else writes the config, a target that follows it stays and is not led astray. */
    twostate predicate TargetKept() reads this {
      edits == old(edits) ==> (old(InSync()) ==> target == old(target)) && (old(Coherent()) ==> Coherent())
    }

    /** Nothing but this thread acted, and the config source never failed. */
    twostate predicate Quiet() reads this {
      others == old(others) && edits == old(edits) && faults == old(faults)
    }

    /** Time, the log and the counters only move forward. */
    twostate predicate Onward() reads this {
      && old(clock) <= clock && old(log) <= log
      && old(others) <= others && old(edits) <= edits && old(faults) <= faults
    }

    /** Unless someone else edits it, the config file stays. */
    twostate predicate DiskKept() reads this {
      edits == old(edits) ==> disk == old(disk) && diskVersion == old(diskVersion)
    }

    constructor (deps: Dependencies, settings: RelaySettings, version: Option<nat>, startVersion: nat, now: int)
      ensures Settled() && Coherent()
      ensures target == TargetOf(settings, version) && state == SIGNED_OUT && log == [] && this.deps == deps
    {
      this.deps := deps;
      TargetVersion(settings, version);
      target := TargetOf(settings, version);
      state := SIGNED_OUT;
      clock := now;
      disk := settings;
      diskVersion := startVersion;
      log := [];
      ledger := NOTHING_HAPPENED;
      holding := None;
      others, edits, faults := 0, 0, 0;
    }

    // -------------------------------------------------------- the others

    /** What may happen at a lock boundary while this thread holds `renewal`. */
    method Interfere()
      requires Inv()
      modifies this`clock, this`state, this`disk, this`diskVersion, this`others, this`edits
      ensures Inv() && Onward() && DiskKept()
      ensures Tolerated(old(state), state) && (others == old(others) ==> state == old(state))
    {
      hide Invariant;
      var later: int :| clock <= later;
      clock := later;
      if * {
        var source: Option<Source>, refused: nat, token: Option<seq<bv8>> := *, *, *;
        state := state.(lastSource := source, refusedCallers := state.refusedCallers + refused,
                        proxyToken := if state.proxyToken.Some? then state.proxyToken else token);
        others := others + 1;
      }
      ToleratedKeepsInvariant(target, old(state), state, log, ledger, holding, old(clock), clock);
      if * {
        disk := *;
        diskVersion := *;
        edits := edits + 1;
      }
    }

    /** Waiting for `renewal`: any number of whole operations of other threads may run meanwhile,
        each of which ends settled. */
    method AcquireRenewal()
      requires Inv()
      modifies this
      ensures Settled() && Onward() && DiskKept() && TargetKept() && Grown(old(ledger), ledger)
      ensures faults == old(faults)
      ensures others == old(others) ==>
                target == old(target) && state == old(state) && log == old(log) && ledger == old(ledger)
    {
      hide Invariant, Replay, Grown, TargetOf, Unwritten;
      var from := World(target, state, log, clock, disk, diskVersion);
      ghost var settled := SomeWorldIsSettled(from, ledger, holding);
      var wrote: bool := *;
      var w: World :| SettledWorld(w) && log <= w.log && clock <= w.clock && (wrote || Unwritten(from, w));
      assert SettledWorld(w);
      Meet(from, Scene(w, None), wrote);
    }

    /** What may happen while this thread holds no lock: others take any steps, under `renewal` or not,
        and may be in the middle of an operation when this thread goes on. */
    method Overtaken()
      requires Inv()
      modifies this
      ensures Inv() && Onward() && DiskKept() && TargetKept() && Grown(old(ledger), ledger)
      ensures faults == old(faults)
      ensures others == old(others) ==>
                target == old(target) && state == old(state) && log == old(log) && ledger == old(ledger) && holding == old(holding)
    {
      hide Invariant, Replay, Grown, TargetOf;
      InvariantReplays(target, state, log, ledger, holding, clock);
      var from := World(target, state, log, clock, disk, diskVersion);
      assert Possible(Scene(from, holding)) && Unwritten(from, Scene(from, holding).world);
      var wrote: bool := *;
      var scene: Scene :| Possible(scene) && log <= scene.world.log && clock <= scene.world.clock
                          && (wrote || Unwritten(from, scene.world));
      assert Possible(scene);
      Meet(from, scene, wrote);
    }

    /** Goes on in the world the others have left; `wrote` says that one of them has written the config. */
    method Meet(from: World, scene: Scene, wrote: bool)
      requires Inv() && Possible(scene) && log <= scene.world.log && clock <= scene.world.clock
      requires from == Here() && (wrote || Unwritten(from, scene.world))
      modifies this
      ensures Inv() && Onward() && DiskKept() && TargetKept() && Grown(old(ledger), ledger)
      ensures target == scene.world.target && state == scene.world.state && log == scene.world.log
      ensures ledger == Replay(log) && holding == scene.holding && clock == scene.world.clock && faults == old(faults)
      ensures others == old(others) ==>
                target == old(target) && state == old(state) && log == old(log) && ledger == old(ledger) && holding == old(holding)
    {
      hide Invariant, Replay, Grown, TargetOf;
      InvariantReplays(target, state, log, ledger, holding, clock);
      var w := scene.world;
      ghost var met := if target == w.target && state == w.state && log == w.log && holding == scene.holding then 0 else 1;
      LedgerGrows(w.log, |log|);
      assert w.log[..|log|] == log;
      target, state, clock, disk, diskVersion := w.target, w.state, w.clock, w.disk, w.diskVersion;
      log, ledger, holding := w.log, Replay(w.log), scene.holding;
      others, edits := others + met, edits + if wrote then 1 else 0;
    }

    method Record(event: Event)
      requires ledger == Replay(log)
      modifies this`log, this`ledger
      ensures log == old(log) + [event] && ledger == After(old(ledger), event) && ledger == Replay(log)
    {
      ReplayOne(log, event);
      log := log + [event];
      ledger := After(ledger, event);
    }

    // -------------------------------------------------------- the config source

    method Version() returns (version: Option<nat>)
      requires Inv()
      modifies this`clock, this`state, this`disk, this`diskVersion, this`others, this`edits, this`faults
      ensures Inv() && Onward() && DiskKept()
      ensures Tolerated(old(state), state) && (others == old(others) ==> state == old(state))
      ensures version == Some(diskVersion) || (version.None? && faults > old(faults))
    {
      hide Invariant;
      Interfere();
      version := Some(diskVersion);
      if * {
        version := None;
        faults := faults + 1;
      }
    }

    method Load() returns (settings: Option<RelaySettings>)
      requires Inv()
      modifies this`clock, this`state, this`disk, this`diskVersion, this`others, this`edits, this`faults
      ensures Inv() && Onward() && DiskKept()
      ensures Tolerated(old(state), state) && (others == old(others) ==> state == old(state))
      ensures settings == Some(disk) || (settings.None? && faults > old(faults))
    {
      hide Invariant;
      Interfere();
      settings := Some(disk);
      if * {
        settings := None;
        faults := faults + 1;
      }
    }

    /** A written file gets a new version; should it repeat the one the broker has seen, that is a
        fault of the source. Writing what is there already may leave the file alone. */
    method Store(settings: RelaySettings) returns (stored: bool)
      requires Inv()
      modifies this`clock, this`state, this`disk, this`diskVersion, this`others, this`edits, this`faults
      ensures Inv() && Onward()
      ensures Tolerated(old(state), state) && (others == old(others) ==> state == old(state))
      ensures stored ==> disk == settings
      ensures !stored ==> faults > old(faults) && DiskKept()
      ensures faults == old(faults) && edits == old(edits) && target.version == Some(diskVersion) ==>
                settings == old(disk) && diskVersion == old(diskVersion)
    {
      hide Invariant;
      Interfere();
      stored := true;
      if * {
        stored := false;
        faults := faults + 1;
      } else if settings != disk {
        disk := settings;
        diskVersion := *;
        if target.version == Some(diskVersion) {
          faults := faults + 1;
        }
      } else if * {
        diskVersion := *;
        if target.version == Some(diskVersion) && diskVersion != old(diskVersion) {
          faults := faults + 1;
        }
      }
    }

    // -------------------------------------------------------- the hold on a gateway

    method TakeGatewayHold() returns (held: GatewayHold)
      requires Inv() && (holding.None? || state.key.None?)
      modifies this`state, this`holding
      ensures Inv() && state == Forgotten(old(state))
      ensures held == GatewayHold(old(state).key, old(state).credential, old(state).mintRefusal, old(state).lastSource)
      ensures holding == if held.key.Some? then KeyAt(held.key) else old(holding)
      ensures HoldFits(held, target.gatewayUrl, ledger, clock) && KeyLasts(held.key, ledger)
    {
      hide Invariant, HoldFits;
      TakingTheHold(target, state, log, ledger, holding, clock);
      held := GatewayHold(state.key, state.credential, state.mintRefusal, state.lastSource);
      holding := if state.key.Some? then KeyAt(state.key) else holding;
      state := state.(key := None, credential := None, mintRefusal := None, lastSource := None);
    }

    method RestoreGatewayHold(held: GatewayHold)
      requires Inv() && holding == KeyAt(held.key) && state.key.None?
      requires HoldFits(held, target.gatewayUrl, ledger, clock)
      requires held.credential.Some? ==> target.mode.Idp? && held.credential.value.team == target.team
      requires KeyLasts(held.key, ledger)
      modifies this`state, this`holding
      ensures Inv() && holding.None? && state == Given(old(state), held)
    {
      hide Invariant;
      RestoringTheHold(target, state, log, ledger, held, clock);
      state := state.(key := held.key, credential := held.credential, mintRefusal := held.mintRefusal, lastSource := held.lastSource);
      holding := None;
    }

    /** The deletion a hold calls for. */
    ghost function Deletion(gatewayUrl: string, key: Option<MintedKey>, credential: Option<CachedCredential>): seq<Event> {
      if key.Some? && credential.Some?
      then [Delete(gatewayUrl, credential.value.accessToken, key.value.token)] else []
    }

    ghost function Deleting(before: Ledger, deletion: seq<Event>): Ledger {
      if deletion == [] then before else After(before, deletion[0])
    }

    method Retire(gatewayUrl: string, held: GatewayHold)
      requires Inv() && HoldFits(held, gatewayUrl, ledger, clock)
      requires held.key.Some? ==> holding == KeyAt(held.key)
      modifies this`clock, this`state, this`disk, this`diskVersion, this`others, this`edits, this`log, this`ledger, this`holding
      ensures Inv() && Onward() && DiskKept()
      ensures Tolerated(old(state), state) && (others == old(others) ==> state == old(state))
      ensures log == old(log) + Deletion(gatewayUrl, held.key, held.credential)
      ensures held.key.Some? ==> holding.None? && ledger == After(old(ledger), Delete(gatewayUrl, held.credential.value.accessToken, held.key.value.token))
      ensures held.key.None? ==> holding == old(holding) && ledger == old(ledger)
      ensures ledger.deleted == old(ledger).deleted + Bag(KeyAt(held.key)) && SameCredentials(old(ledger), ledger)
      ensures ledger.browserOpened == old(ledger).browserOpened
    {
      hide Invariant, Replay, After;
      Interfere();
      if held.key.None? || held.credential.None? {
        return;
      }
      DeletingAKey(target, state, log, ledger, holding.value, held.credential.value, clock);
      var event := Delete(gatewayUrl, held.credential.value.accessToken, held.key.value.token);
      RestAfter(ledger, event);
      BagsAfter(ledger, event);
      InvariantReplays(target, state, log, ledger, holding, clock);
      Record(event);
      holding := None;
    }

    method Forget(gatewayUrl: string, clearSession: bool)
      requires Inv() && gatewayUrl == target.gatewayUrl && (holding.None? || state.key.None?)
      modifies this`clock, this`state, this`disk, this`diskVersion, this`others, this`edits, this`log, this`ledger, this`holding
      ensures Inv() && Onward() && DiskKept() && holding == old(holding)
      ensures var cleared := if clearSession then old(state).(session := None, proxyToken := None) else old(state);
              Tolerated(Forgotten(cleared), state) && (others == old(others) ==> state == Forgotten(cleared))
      ensures log == old(log) + Deletion(gatewayUrl, old(state).key, old(state).credential)
      ensures ledger == Deleting(old(ledger), Deletion(gatewayUrl, old(state).key, old(state).credential))
    {
      hide Invariant, Replay, After;
      if clearSession {
        ClearingTheSession(target, state, log, ledger, holding, clock);
        state := state.(session := None, proxyToken := None);
      }
      Interfere();
      var held := TakeGatewayHold();
      Retire(gatewayUrl, held);
    }

    // -------------------------------------------------------- renewing under the lock

    method MarkDead(credential: CachedCredential, now: int)
      requires Inv() && state.credential == Some(credential) && credential.issuedAt <= now <= clock
      requires JustRefused(ledger, AtOf(credential))
      modifies this`state, this`log, this`ledger
      ensures Inv() && old(log) <= log
      ensures state == DeadState(old(state), now) && log == DeadLog(old(state), old(log))
      ensures state.credential == Some(credential.(expiresAt := now)) && state.key.None? && state.mintRefusal.None?
      ensures state.session == old(state).session && state.proxyToken == old(state).proxyToken
      ensures log == old(log) + [MarkedDead(At(credential.gatewayUrl, credential.accessToken))]
                     + (if old(state).key.Some?
                        then [Abandoned(At(old(state).key.value.gatewayUrl, old(state).key.value.token), At(credential.gatewayUrl, credential.accessToken))]
                        else [])
      ensures ledger == DeadLedger(old(state), old(ledger))
    {
      hide Invariant, Replay, After;
      InvariantReplays(target, state, log, ledger, holding, clock);
      MarkingDead(target, state, log, ledger, holding, now, clock);
      Record(MarkedDead(AtOf(credential)));
      if state.key.Some? {
        Record(Abandoned(KeyAt(state.key).value, AtOf(credential)));
      }
      state := state.(credential := Some(credential.Dead(now)), key := None, mintRefusal := None);
      assert log == DeadLog(old(state), old(log));
    }

    method Serve(issued: Issued) returns (reply: Reply)
      requires Inv()
      modifies this`clock, this`state, this`disk, this`diskVersion, this`others, this`edits
      ensures Inv() && Onward() && DiskKept() && reply == Credential(issued)
      ensures Tolerated(old(state), state)
      ensures others == old(others) ==> state == old(state).(lastSource := Some(issued.source))
    {
      hide Invariant;
      Interfere();
      ToleratedKeepsInvariant(target, state, state.(lastSource := Some(issued.source)), log, ledger, holding, clock, clock);
      state := state.(lastSource := Some(issued.source));
      reply := Credential(issued);
    }

    /** The sign-in page is published while the browser flow runs, and only then. */
    method AskTheIdp(opensBrowser: bool)
      requires Inv() && state.pendingSignInPage.None?
      modifies this`clock, this`state, this`disk, this`diskVersion, this`others, this`edits, this`log, this`ledger
      ensures Inv() && Onward() && DiskKept()
      ensures Tolerated(old(state), state) && (others == old(others) ==> state == old(state))
      ensures var shown := BrowserOpened(true, old(state).explicitSignInRunning);
              log == old(log) + (if opensBrowser then [shown] else []) && ledger == if opensBrowser then After(old(ledger), shown) else old(ledger)
    {
      hide Invariant, Replay, After;
      InvariantReplays(target, state, log, ledger, holding, clock);
      if opensBrowser {
        var page: string := *;
        state := state.(pendingSignInPage := Some(page));
        PublishingThePage(target, old(state), state, log, ledger, holding, clock);
        var shown := BrowserOpened(state.pendingSignInPage.Some?, state.explicitSignInRunning);
        JustLogging(target, state, log, ledger, holding, shown, clock);
        Record(shown);
      }
      Interfere();
      PublishingThePage(target, state, state.(pendingSignInPage := None), log, ledger, holding, clock);
      state := state.(pendingSignInPage := None);
    }

    /** Runs the resolution against the IdP and the authorization server as they answer now, and keeps
        the IdP session it leaves. */
    method ResolveForTarget(context: Context, now: int)
      returns (result: Result<Resolved, Error>, identity: Result<string, IdentityError>, ghost run: RenewalRun)
      requires Inv() && target.mode.Idp? && state.pendingSignInPage.None?
      requires state.credential.Some? ==> state.credential.value.issuedAt <= now
      modifies this`clock, this`state, this`disk, this`diskVersion, this`others, this`edits, this`log, this`ledger
      ensures Inv() && Onward() && DiskKept() && Plausible(target, state, result, now)
      ensures run == RunRenewal(deps.auth(old(log)), deps.identity(old(log)), target, old(state), context, now)
      ensures result == run.result && identity == run.identity
      ensures Tolerated(old(state).(session := run.session), state)
      ensures others == old(others) ==> state == old(state).(session := run.session)
      ensures log == old(log) + [CredentialSought(target.gatewayUrl, target.team)]
                     + (if run.opensBrowser then [BrowserOpened(true, old(state).explicitSignInRunning)] else [])
      ensures SameKeys(old(ledger), ledger) && ledger.granted == old(ledger).granted && ledger.reissued == old(ledger).reissued
      ensures ledger.sought == old(ledger).sought + 1 && old(ledger).browserOpened <= ledger.browserOpened
      ensures context.NonInteractive? ==> ledger.browserOpened == old(ledger).browserOpened
      ensures old(state).session.Some? ==> state.session.Some?
      ensures context.NonInteractive? && old(state).session.None? && old(state).credential.None? ==>
                identity.Err? && state.session.None? && (result.Ok? ==> result.value.NoExchange?)
      ensures result.Ok? && (result.value.NoExchange? ==> identity.Ok?) && old(state).session.None? && old(state).credential.None? ==>
                ledger.browserOpened > old(ledger).browserOpened && state.session.Some?
      ensures result == Ok(NoExchange) && identity.Ok? ==>
                state.session.Some? && identity.value == state.session.value.token
    {
      hide Invariant, Replay, RunRenewal, After, SessionOf, SameKeys;
      Interfere();
      HeldIsBound(target, state, log, ledger, holding, clock);
      var provider, server := deps.identity(log), deps.auth(log);
      var ran := RunRenewal(server, provider, target, state, context, now);
      RenewalFacts(server, provider, target, state, context, now);
      RunUses(server, provider, target, state, old(state), context, now);
      run := ran;
      result, identity := ran.result, ran.identity;
      Carry(ran);
    }

    /** What a run does out there and leaves behind. */
    method Carry(run: RenewalRun)
      requires Inv() && state.pendingSignInPage.None? && (run.opensBrowser ==> run.asksTheIdp)
      requires run.session == state.session || (run.asksTheIdp && run.session.Some? && SessionOf(target, run.session.value))
      modifies this`clock, this`state, this`disk, this`diskVersion, this`others, this`edits, this`log, this`ledger
      ensures Inv() && Onward() && DiskKept()
      ensures Tolerated(old(state).(session := run.session), state)
      ensures others == old(others) ==> state == old(state).(session := run.session)
      ensures log == old(log) + [CredentialSought(target.gatewayUrl, target.team)]
                     + (if run.opensBrowser then [BrowserOpened(true, old(state).explicitSignInRunning)] else [])
      ensures SameKeys(old(ledger), ledger) && ledger.granted == old(ledger).granted && ledger.reissued == old(ledger).reissued
      ensures ledger.sought == old(ledger).sought + 1
      ensures ledger.browserOpened == old(ledger).browserOpened + (if run.opensBrowser then 1 else 0)
    {
      hide Invariant, Replay, After, SessionOf;
      Seek();
      if run.asksTheIdp {
        RestAfter(ledger, BrowserOpened(true, state.explicitSignInRunning));
        BagsAfter(ledger, BrowserOpened(true, state.explicitSignInRunning));
        AskTheIdp(run.opensBrowser);
        KeepingTheSession(target, state, run.session, log, ledger, holding, clock);
        state := state.(session := run.session);
      }
    }

    method Seek()
      requires Inv()
      modifies this`log, this`ledger
      ensures Inv() && log == old(log) + [CredentialSought(target.gatewayUrl, target.team)]
      ensures SameKeys(old(ledger), ledger) && ledger.granted == old(ledger).granted && ledger.reissued == old(ledger).reissued
      ensures ledger.sought == old(ledger).sought + 1 && ledger.browserOpened == old(ledger).browserOpened
    {
      hide Invariant, Replay, After;
      var event := CredentialSought(target.gatewayUrl, target.team);
      InvariantReplays(target, state, log, ledger, holding, clock);
      JustLogging(target, state, log, ledger, holding, event, clock);
      RestAfter(ledger, event);
      BagsAfter(ledger, event);
      Record(event);
    }

    /** The bearer a run comes back with. */
    ghost predicate BearerOf(run: RenewalRun, now: int, bearer: Result<Bearer, Refusal>) {
      match run.result
      case Ok(IssuedCredential(c, _)) => bearer == Ok(SessionBearer(c))
      case Ok(NoExchange) =>
        bearer == if run.identity.Ok? then Ok(IdentityBearer(run.identity.value, if run.session.Some? then run.session.value.exp else now))
                  else Err(GatewayError)
      case Err(error) => bearer == Err(Classify(error))
    }

    lemma BearerForms(run: RenewalRun, now: int, bearer: Result<Bearer, Refusal>)
      requires BearerOf(run, now, bearer)
      ensures bearer.Ok? <==> run.result.Ok? && (run.result.value.NoExchange? ==> run.identity.Ok?)
      ensures bearer.Ok? && bearer.value.SessionBearer? <==> run.result.Ok? && run.result.value.IssuedCredential?
      ensures bearer.Ok? && bearer.value.SessionBearer? ==> bearer.value.credential == run.result.value.credential
      ensures bearer.Ok? && bearer.value.IdentityBearer? ==> Ok(bearer.value.token) == run.identity
      ensures run.result == Ok(NoExchange) && run.identity.Ok? ==> bearer.Ok? && bearer.value.IdentityBearer?
    {
    }

    /** One renewal of the session credential. A bearer comes with its credential in the slot: the one
        found, still valid, or one granted now; without session and credential only through the browser. */
    method SessionCredential(context: Context, now: int) returns (bearer: Result<Bearer, Refusal>, ghost run: RenewalRun)
      requires Inv() && target.mode.Idp? && now <= clock && state.pendingSignInPage.None?
      requires state.credential.Some? ==> KnownCredential(state.credential.value, ledger, now)
      modifies this`clock, this`state, this`disk, this`diskVersion, this`others, this`edits, this`log, this`ledger
      ensures Inv() && Onward() && DiskKept() && SameFlow(old(state), state, others == old(others)) && state.key == old(state).key
      ensures run == RunRenewal(deps.auth(old(log)), deps.identity(old(log)), target, old(state), context, now)
      ensures BearerOf(run, now, bearer) && state.session == run.session
      ensures Watched(target, old(state), state, old(log), log, run)
      ensures run.result == Ok(NoExchange) && run.identity.Ok? ==> state.session.Some? && run.identity.value == state.session.value.token
      ensures NothingMinted() && ledger.deleted == old(ledger).deleted && ledger.dead == old(ledger).dead
      ensures ledger.abandoned == old(ledger).abandoned && ledger.deaths == old(ledger).deaths && ledger.unauthorized == old(ledger).unauthorized
      ensures old(ledger).granted <= ledger.granted && old(ledger).reissued <= ledger.reissued && old(ledger).browserOpened <= ledger.browserOpened
      ensures ledger.sought == old(ledger).sought + 1
      ensures context.NonInteractive? ==> ledger.browserOpened == old(ledger).browserOpened
      ensures old(state).session.None? && old(state).credential.None? ==>
        if context.NonInteractive? then bearer.Err? && state.session.None?
        else bearer.Ok? ==> ledger.browserOpened > old(ledger).browserOpened && state.session.Some?
      ensures bearer.Ok? && bearer.value.SessionBearer? ==>
        var c := bearer.value.credential;
        && state.credential == Some(c) && Sendable(c, ledger) && c.gatewayUrl == target.gatewayUrl && c.issuedAt <= now
        && ((old(state).credential == Some(c) && c.IsValid(now))
            || (c.issuedAt == now && (AtOf(c) in old(ledger).granted ==> AtOf(c) in ledger.reissued)))
    {
      hide Invariant, Replay, RunRenewal, After, BearerOf, GrantLog, Sendable, MaySend, Plausible, SameKeys, Watched;
      HeldIsBound(target, state, log, ledger, holding, clock);
      var result, identity, ran := ResolveForTarget(context, now);
      run := ran;
      ghost var asked, met := ledger, state;
      bearer := Keep(result, identity, now, run);
      BearerForms(run, now, bearer);
      SameKeysOn(old(ledger), asked, ledger);
      MakeWatched(target, old(state), met, state, old(log), log, run);
      if result.Ok? && result.value.IssuedCredential? {
        KeptIsKnown(target, met, old(ledger), ledger, result, now);
      }
    }

    /** The bearer a resolution gives, kept in the slot when it is a credential. */
    method Keep(result: Result<Resolved, Error>, identity: Result<string, IdentityError>, now: int, ghost run: RenewalRun)
      returns (bearer: Result<Bearer, Refusal>)
      requires Inv() && target.mode.Idp? && now <= clock && Plausible(target, state, result, now)
      requires result == run.result && identity == run.identity && state.session == run.session
      modifies this`state, this`log, this`ledger
      ensures Inv() && log == old(log) + GrantLog(run) && BearerOf(run, now, bearer)
      ensures SameKeys(old(ledger), ledger) && old(ledger).granted <= ledger.granted && old(ledger).reissued <= ledger.reissued
      ensures ledger.sought == old(ledger).sought && ledger.browserOpened == old(ledger).browserOpened
      ensures match result
              case Ok(IssuedCredential(c, changed)) =>
                && state == old(state).(credential := Some(c))
                && (changed ==> Sendable(c, ledger) && (AtOf(c) in old(ledger).granted ==> AtOf(c) in ledger.reissued))
                && (!changed ==> ledger == old(ledger))
              case _ => state == old(state) && ledger == old(ledger)
    {
      hide Invariant, Replay, After;
      match result {
        case Ok(IssuedCredential(credential, changed)) =>
          if changed {
            InvariantReplays(target, state, log, ledger, holding, clock);
            RestAfter(ledger, Granted(AtOf(credential)));
            BagsAfter(ledger, Granted(AtOf(credential)));
            GrantingACredential(target, state, log, ledger, holding, credential, clock);
            Record(Granted(AtOf(credential)));
          }
          state := state.(credential := Some(credential));
          bearer := Ok(SessionBearer(credential));
        case Ok(NoExchange) =>
          var expiry := if state.session.Some? then state.session.value.exp else now;
          bearer := if identity.Ok? then Ok(IdentityBearer(identity.value, expiry)) else Err(GatewayError);
        case Err(error) =>
          bearer := Err(Classify(error));
      }
    }

    // -------------------------------------------------------- the team key

    /** Mints only for a team, and never again with a credential the gateway refused to mint for. */
    method KeyOrCredential(credential: CachedCredential, now: int)
      returns (outcome: KeyOutcome, ghost answer: Option<MintAnswer>)
      requires Inv() && state.credential == Some(credential) && Sendable(credential, ledger) && now <= clock
      requires state.key.Some? ==> state.key.value.expiresAt <= now
      modifies this`clock, this`state, this`disk, this`diskVersion, this`others, this`edits, this`log, this`ledger
      ensures Inv() && Onward() && DiskKept()
      ensures answer == MintAsked(deps, target, old(state), credential, old(log))
      ensures log == old(log) + MintLog(target, old(state), credential, answer, now)
      ensures Tolerated(AfterAsking(target, old(state), credential, answer, now), state)
      ensures others == old(others) ==> state == AfterAsking(target, old(state), credential, answer, now)
      ensures outcome == if answer.Some? then MintReply(target, credential, answer.value, now)
                         else KeyIssued(CredentialReply(credential, if target.team.Some? then Some(old(state).mintRefusal.value.notice) else None))
      ensures MintLedger(old(ledger), ledger, MintedAt(target, answer), if answer.Some? && answer.value.Unauthorized? then 1 else 0)
      ensures answer.Some? && answer.value.Unauthorized? ==> JustRefused(ledger, AtOf(credential))
    {
      hide Invariant, Replay, After, MintLedger, MintReply;
      Interfere();
      answer := None;
      if target.team.None? {
        outcome := KeyIssued(CredentialReply(credential, None));
        NothingAsked(ledger);
        return;
      }
      if IsSticky(state, credential) {
        outcome := KeyIssued(CredentialReply(credential, Some(state.mintRefusal.value.notice)));
        NothingAsked(ledger);
        return;
      }
      var said := AskForAKey(credential, now);
      answer := Some(said);
      outcome := MintReply(target, credential, said, now);
    }

    /** One mint, and what it leaves. */
    method AskForAKey(credential: CachedCredential, now: int) returns (said: MintAnswer)
      requires Inv() && state.credential == Some(credential) && Sendable(credential, ledger) && now <= clock && target.team.Some?
      requires state.key.Some? ==> state.key.value.expiresAt <= now
      modifies this`state, this`log, this`ledger
      ensures Inv() && state == AfterMint(target, old(state), credential, said, now)
      ensures said == deps.mint(old(log), At(target.gatewayUrl, credential.accessToken), target.team.value)
      ensures log == old(log) + MintLog(target, old(state), credential, Some(said), now)
      ensures MintLedger(old(ledger), ledger, MintedAt(target, Some(said)), if said.Unauthorized? then 1 else 0)
      ensures said.Unauthorized? ==> JustRefused(ledger, AtOf(credential))
    {
      hide Invariant, Replay, After, MintLedger;
      said := deps.mint(log, At(target.gatewayUrl, credential.accessToken), target.team.value);
      var mint := Mint(target.gatewayUrl, credential.accessToken, target.team.value, said, now);
      RestAfter(ledger, mint);
      MintFacts(state, ledger, target.gatewayUrl, credential.accessToken, target.team.value, said, now);
      InvariantReplays(target, state, log, ledger, holding, clock);
      HeldIsBound(target, state, log, ledger, holding, clock);
      if said.Minted? {
        MintingAKey(target, state, log, ledger, holding, target.team.value, said.token, said.expiresAt, now, clock);
        if state.key.Some? {
          Record(LapseLog(state, now)[0]);
        }
      } else {
        JustLogging(target, state, log, ledger, holding, mint, clock);
      }
      Record(mint);
      assert log == old(log) + (if said.Minted? then LapseLog(state, now) else []) + [mint];
      assert log == old(log) + MintLog(target, state, credential, Some(said), now);
      if !said.Minted? {
        RefusingToMint(target, state, AfterMint(target, state, credential, said, now).mintRefusal, log, ledger, holding, clock);
      }
      state := AfterMint(target, state, credential, said, now);
    }

    // -------------------------------------------------------- issuing

    function FreshKey(now: int): Option<Issued> reads this`state {
      if state.key.Some? && state.key.value.expiresAt > now then Some(KeyReply(state.key.value)) else None
    }

    /** Every bearer served is what its source says it is, and no credential marked dead. */
    ghost predicate Sound(issued: Issued) reads this`target, this`state, this`ledger {
      match issued.source
      case KeySource => state.key.Some? && issued == KeyReply(state.key.value)
      case SessionSource =>
        && state.credential.Some? && Sendable(state.credential.value, ledger)
        && issued == CredentialReply(state.credential.value, issued.notice)
      case IdentitySource => target.mode.Idp?
      case StaticSource => target.mode == Static(issued.token)
    }

    /** Serves the key or the credential; `None` reports a dead bearer. */
    method ServeKeyOrCredential(credential: CachedCredential, now: int) returns (reply: Option<Reply>, ghost answer: Option<MintAnswer>)
      requires Inv() && state.credential == Some(credential) && Sendable(credential, ledger) && now <= clock
      requires state.key.Some? ==> state.key.value.expiresAt <= now
      modifies this`clock, this`state, this`disk, this`diskVersion, this`others, this`edits, this`log, this`ledger
      ensures Inv() && Onward() && DiskKept() && SameFlow(old(state), state, others == old(others))
      ensures state.credential == Some(credential) && state.session == old(state).session
      ensures answer == MintAsked(deps, target, old(state), credential, old(log)) && MintedReply(credential, answer, now, reply)
      ensures log == old(log) + MintLog(target, old(state), credential, answer, now)
      ensures Tolerated(AfterAsking(target, old(state), credential, answer, now), state)
      ensures match reply
              case None =>
                && MintLedger(old(ledger), ledger, multiset{}, 1) && state.key == old(state).key
                && JustRefused(ledger, AtOf(credential))
              case Some(Credential(issued)) =>
                && Sound(issued) && (others == old(others) ==> state.lastSource == Some(issued.source))
                && MintLedger(old(ledger), ledger, if issued.source.KeySource? then multiset{At(target.gatewayUrl, issued.token)} else multiset{}, 0)
              case _ => false
    {
      hide Invariant, Replay, After, MintAsked, MintLog;
      var outcome, said := KeyOrCredential(credential, now);
      answer := said;
      match outcome {
        case DeadBearer => reply := None;
        case KeyIssued(issued) =>
          var served := Serve(issued);
          reply := Some(served);
      }
    }

    twostate predicate NothingMinted() reads this {
      ledger.minted == old(ledger).minted && ledger.expiry == old(ledger).expiry
    }

    /** What an issue answers: a sound bearer, having minted at most the key it serves, or a refusal
        that leaves no key behind. */
    twostate predicate Answered(new reply: Reply) reads this {
      match reply
      case Credential(issued) =>
        && Sound(issued)
        && (NothingMinted()
            || (issued.source.KeySource? && ledger.minted == old(ledger).minted + multiset{At(target.gatewayUrl, issued.token)}))
        && (others == old(others) ==> state.lastSource == Some(issued.source))
      case Refused(_) => NothingMinted() && (old(state).key.None? ==> state.key.None?)
      case _ => false
    }

    /** What one issue does: it deletes nothing, opens no browser unless interactive, marks dead only
        the credential it found or was just granted, and that upon a 401, after which it tries once
        more; a key that still lives is served with no call at all; a signed-out broker that may not
        open a browser refuses, and one that may has opened it when it gives a bearer. */
    twostate predicate IssueStep(context: Context, new reply: Reply) reads this {
      && IssueLedger(old(ledger), ledger, context, old(state).credential) && RetriesOnce(old(ledger), ledger)
      && SameFlow(old(state), state, others == old(others)) && Answered(reply)
      && (target.mode.Idp? && old(state).key.None? && old(state).credential.None? && old(state).session.None? && reply.Credential? ==>
            ledger.browserOpened > old(ledger).browserOpened && state.session.Some?)
      && (target.mode.Idp? && context.NonInteractive? && old(state).key.None? && old(state).credential.None? && old(state).session.None? ==>
            reply.Refused? && state.session.None?)
      && (target.mode.Idp? && old(state).key.Some? && old(state).key.value.expiresAt > clock ==>
            reply == Credential(KeyReply(old(state).key.value)) && log == old(log))
    }

    /** Marks the refused bearer dead, as of `now`, and abandons its key. */
    method Abandon(dead: CachedCredential, now: int)
      requires Inv() && state.credential == Some(dead) && JustRefused(ledger, AtOf(dead)) && dead.issuedAt <= now <= clock
      modifies this`state, this`log, this`ledger
      ensures Inv() && log == DeadLog(old(state), old(log))
      ensures state == DeadState(old(state), now) && KnownCredential(state.credential.value, ledger, now)
      ensures NothingMinted() && ledger.deleted == old(ledger).deleted
      ensures ledger.deaths == old(ledger).deaths + 1 && ledger.unauthorized == old(ledger).unauthorized && ledger.sought == old(ledger).sought
      ensures ledger.browserOpened == old(ledger).browserOpened && ledger.reissued == old(ledger).reissued
      ensures ledger.granted == old(ledger).granted && ledger.dead == old(ledger).dead + {AtOf(dead)}
      ensures ledger.abandoned == old(ledger).abandoned + Bag(KeyAt(old(state).key))
    {
      hide Invariant, Replay, After, DeadLedger, DeadLog;
      HeldIsKnown(target, state, log, ledger, holding, clock);
      DeadFacts(state, ledger);
      MarkDead(dead, now);
    }

    /** Marks the bearer dead now and gives up its key. */
    method Bury(dead: CachedCredential) returns (now: int)
      requires Inv() && target.mode.Idp? && state.credential == Some(dead) && JustRefused(ledger, AtOf(dead))
      modifies this`clock, this`state, this`disk, this`diskVersion, this`others, this`edits, this`log, this`ledger
      ensures Inv() && Onward() && DiskKept() && SameFlow(old(state), state, others == old(others)) && now <= clock
      ensures Tolerated(DeadState(old(state), now), state) && log == DeadLog(old(state), old(log))
      ensures state.pendingSignInPage == old(state).pendingSignInPage
      ensures state.credential == Some(dead.Dead(now)) && KnownCredential(state.credential.value, ledger, now) && state.key.None?
      ensures NothingMinted() && ledger.deleted == old(ledger).deleted
      ensures ledger.deaths == old(ledger).deaths + 1 && ledger.unauthorized == old(ledger).unauthorized && ledger.sought == old(ledger).sought
      ensures ledger.browserOpened == old(ledger).browserOpened && ledger.reissued == old(ledger).reissued
      ensures ledger.granted == old(ledger).granted && ledger.dead == old(ledger).dead + {AtOf(dead)}
    {
      hide Invariant, Replay;
      Interfere();
      now := clock;
      HeldIsKnown(target, state, log, ledger, holding, clock);
      Abandon(dead, now);
    }

    method IssueAfterDeadBearer(context: Context, dead: CachedCredential) returns (reply: Reply, ghost later: int, ghost round: Round)
      requires Inv() && target.mode.Idp? && state.credential == Some(dead) && state.pendingSignInPage.None?
      requires JustRefused(ledger, AtOf(dead))
      modifies this`clock, this`state, this`disk, this`diskVersion, this`others, this`edits, this`log, this`ledger
      ensures Inv() && Onward() && DiskKept()
      // the second round, on the credential marked dead, decides
      ensures IsRound(deps, target, DeadState(old(state), later), DeadLog(old(state), old(log)), context, later, round)
      ensures SecondReply(round, later, reply)
      ensures log == DeadLog(old(state), old(log)) + RoundLog(target, DeadState(old(state), later), round, later)
      ensures Tolerated(AfterRound(target, DeadState(old(state), later), round, later), state)
      ensures IssueLedger(old(ledger), ledger, context, Some(dead)) && AtOf(dead) in ledger.dead
      ensures ledger.deaths == old(ledger).deaths + 1 && ledger.sought == old(ledger).sought + 1
      ensures old(ledger).unauthorized <= ledger.unauthorized <= old(ledger).unauthorized + 1
      ensures ledger.unauthorized > old(ledger).unauthorized ==> reply.Refused?
      ensures SameFlow(old(state), state, others == old(others)) && Answered(reply) && (reply.Refused? ==> state.key.None?)
      ensures ledger.dead <= ledger.granted
    {
      hide Invariant, Replay, After, DeadLedger, IsRound, RoundLog, AfterRound, SecondReply, Tolerated, SameFlow, IssueLedger, DeadLog;
      var now := Bury(dead);
      ghost var met, buried, alone := state, ledger, others == old(others);
      later := now;
      reply, round := TryAgain(context, now);
      SameFlowOn(old(state), met, state, alone, others == old(others));
      RoundTolerates(deps, target, DeadState(old(state), now), met, DeadLog(old(state), old(log)), context, now, round);
      ToleratedOn(AfterRound(target, DeadState(old(state), now), round, now), AfterRound(target, met, round, now), state);
      DiedFirst(old(ledger), buried, ledger, context, dead);
      HeldIsBound(target, state, log, ledger, holding, clock);
    }

    /** The renewal and the mint after a 401; there is no third time. */
    method TryAgain(context: Context, now: int) returns (reply: Reply, ghost round: Round)
      requires Inv() && target.mode.Idp? && state.pendingSignInPage.None? && state.key.None? && now <= clock
      requires state.credential.Some? && KnownCredential(state.credential.value, ledger, now)
      modifies this`clock, this`state, this`disk, this`diskVersion, this`others, this`edits, this`log, this`ledger
      ensures Inv() && Onward() && DiskKept() && SameFlow(old(state), state, others == old(others))
      ensures IsRound(deps, target, old(state), old(log), context, now, round) && SecondReply(round, now, reply)
      ensures log == old(log) + RoundLog(target, old(state), round, now) && Tolerated(AfterRound(target, old(state), round, now), state)
      ensures ledger.dead == old(ledger).dead && ledger.granted >= old(ledger).granted && ledger.reissued >= old(ledger).reissued
      ensures ledger.deleted == old(ledger).deleted && old(ledger).browserOpened <= ledger.browserOpened
      ensures context.NonInteractive? ==> ledger.browserOpened == old(ledger).browserOpened
      ensures ledger.deaths == old(ledger).deaths && ledger.sought == old(ledger).sought + 1
      ensures old(ledger).unauthorized <= ledger.unauthorized <= old(ledger).unauthorized + 1
      ensures ledger.unauthorized > old(ledger).unauthorized ==> reply.Refused?
      ensures Answered(reply) && (reply.Refused? ==> state.key.None?)
    {
      hide Invariant, Replay, After, Sendable, MaySend, KnownCredential, Sound, SameFlow, RunRenewal, RunLog, MintAsked, MintLog, AfterAsking;
      hide IsRound, RoundLog, AfterRound, RoundReply, BearerOf, Watched, AfterRun, Tolerated, UsedUp;
      var bearer, run := SessionCredential(context, now);
      ghost var met, asked, alone := state, log, others == old(others);
      BearerForms(run, now, bearer);
      var served: Option<Reply>;
      if bearer.Ok? && bearer.value.IdentityBearer? {
        round := Round(run, None);
        NothingUsed(deps, target, state, log, now, round);
        SameFlowSelf(state);
        reply := Refused(GatewayError);
      } else {
        served, round := ServeBearer(bearer, now, run);
        reply := if served.Some? then served.value else Refused(GatewayError);
        SecondIs(round, now, served, reply);
      }
      SameFlowOn(old(state), met, state, alone, others == old(others));
      MakeRound(deps, target, old(state), met, state, old(log), asked, log, context, now, round);
    }

    /** Outside an IdP the target itself says what to serve. */
    method IssueWithoutIdp(mode: Mode) returns (reply: Reply)
      requires Inv() && !mode.Idp?
      modifies this`clock, this`state, this`disk, this`diskVersion, this`others, this`edits
      ensures Inv() && Onward() && DiskKept() && Tolerated(old(state), state)
      ensures others == old(others) && reply.Refused? ==> state == old(state)
      ensures others == old(others) && reply.Credential? ==> state == old(state).(lastSource := Some(StaticSource))
      ensures reply == if mode.Static? then Credential(Issued(mode.key, None, StaticSource, None)) else Refused(GatewayError)
    {
      match mode {
        case Unconfigured(_) => reply := Refused(GatewayError);
        case Static(key) => reply := Serve(Issued(key, None, StaticSource, None));
      }
    }

    /** One renewal and one mint at most; no reply means that the mint was the last event and was
        answered 401. */
    method RenewOnce(context: Context, now: int) returns (reply: Option<Reply>, ghost round: Round)
      requires Inv() && target.mode.Idp? && state.pendingSignInPage.None? && now == clock
      requires state.key.Some? ==> state.key.value.expiresAt <= now
      modifies this`clock, this`state, this`disk, this`diskVersion, this`others, this`edits, this`log, this`ledger
      ensures Inv() && Onward() && DiskKept() && SameFlow(old(state), state, others == old(others))
      ensures IsRound(deps, target, old(state), old(log), context, now, round) && RoundReply(round, now, reply)
      ensures log == old(log) + RoundLog(target, old(state), round, now) && Tolerated(AfterRound(target, old(state), round, now), state)
      ensures IssueLedger(old(ledger), ledger, context, old(state).credential)
      ensures reply.Some? ==> Answered(reply.value)
      ensures reply.None? ==>
        && state.credential.Some? && NothingMinted() && state.key == old(state).key && state.pendingSignInPage.None?
        && JustRefused(ledger, AtOf(state.credential.value))
        && (old(state).credential == state.credential || AtOf(state.credential.value) !in old(ledger).granted
            || AtOf(state.credential.value) in ledger.reissued)
      ensures ledger.deaths == old(ledger).deaths && ledger.sought == old(ledger).sought + 1
      ensures ledger.unauthorized == old(ledger).unauthorized + (if reply.None? then 1 else 0)
      ensures (reply.Some? ==> reply.value.Credential?) && old(state).credential.None? && old(state).session.None? ==>
        ledger.browserOpened > old(ledger).browserOpened && state.session.Some?
      ensures context.NonInteractive? && old(state).credential.None? && old(state).session.None? ==>
        reply.Some? && reply.value.Refused? && state.session.None?
    {
      hide Invariant, Replay, After, IssueLedger, Sendable, MaySend, KnownCredential, Sound;
      hide RunRenewal, RunLog, MintAsked, MintLog, AfterAsking, IsRound, RoundLog, AfterRound, RoundReply, BearerOf;
      hide Watched, AfterRun, Tolerated, UsedUp, SameFlow;
      HeldIsKnown(target, state, log, ledger, holding, clock);
      var bearer, run := SessionCredential(context, now);
      ghost var met, asked := state, log;
      BearerForms(run, now, bearer);
      ghost var alone := others == old(others);
      reply, round := ServeBearer(bearer, now, run);
      SameFlowOn(old(state), met, state, alone, others == old(others));
      FlowFacts(old(state), state, others == old(others));
      MakeRound(deps, target, old(state), met, state, old(log), asked, log, context, now, round);
      NobodyDied(old(ledger), ledger, context, old(state).credential);
    }

    /** What a renewal that came back with this bearer, or none, lets the broker answer. */
    method ServeBearer(bearer: Result<Bearer, Refusal>, now: int, ghost run: RenewalRun) returns (reply: Option<Reply>, ghost round: Round)
      requires Inv() && target.mode.Idp? && now <= clock && BearerOf(run, now, bearer) && state.session == run.session
      requires run.result == Ok(NoExchange) && run.identity.Ok? ==> state.session.Some? && run.identity.value == state.session.value.token
      requires bearer.Ok? && bearer.value.SessionBearer? ==>
        state.credential == Some(bearer.value.credential) && Sendable(bearer.value.credential, ledger)
      requires state.key.Some? ==> state.key.value.expiresAt <= now
      modifies this`clock, this`state, this`disk, this`diskVersion, this`others, this`edits, this`log, this`ledger
      ensures Inv() && Onward() && DiskKept() && SameFlow(old(state), state, others == old(others)) && state.credential == old(state).credential
      ensures state.session == old(state).session
      ensures round.run == run && RoundReply(round, now, reply)
      ensures UsedUp(deps, target, old(state), state, old(log), log, now, round)
      ensures match reply
              case None =>
                && bearer.Ok? && bearer.value.SessionBearer? && MintLedger(old(ledger), ledger, multiset{}, 1)
                && state.key == old(state).key && JustRefused(ledger, AtOf(bearer.value.credential))
              case Some(Credential(issued)) =>
                && bearer.Ok? && Sound(issued) && (others == old(others) ==> state.lastSource == Some(issued.source))
                && MintLedger(old(ledger), ledger, if issued.source.KeySource? then multiset{At(target.gatewayUrl, issued.token)} else multiset{}, 0)
              case Some(Refused(_)) => bearer.Err? && ledger == old(ledger) && state == old(state)
              case _ => false
    {
      hide Invariant, Replay, After, MintAsked, MintLog, AfterAsking, MintedReply;
      round := Round(run, None);
      match bearer {
        case Err(refusal) => reply := Some(Refused(refusal));
        case Ok(IdentityBearer(token, expiresAt)) =>
          var served := Serve(Issued(token, Some(expiresAt), IdentitySource, Some("no token exchange")));
          reply := Some(served);
        case Ok(SessionBearer(credential)) =>
          var served, answer := ServeKeyOrCredential(credential, now);
          reply := served;
          round := Round(run, answer);
      }
    }

    /** The slow path: no key lives, so the session credential is renewed first. */
    method RenewAndServe(context: Context, now: int) returns (reply: Reply, ghost trail: IssueTrail)
      requires Inv() && target.mode.Idp? && state.pendingSignInPage.None? && now == clock
      requires state.key.Some? ==> state.key.value.expiresAt <= now
      modifies this`clock, this`state, this`disk, this`diskVersion, this`others, this`edits, this`log, this`ledger
      ensures Inv() && Onward() && DiskKept()
      ensures trail.found == old(Here()) && trail.now == now && trail.first.Some? && Explains(deps, context, trail, reply)
      ensures log == TrailLog(trail) && Tolerated(TrailState(trail), state)
      ensures IssueLedger(old(ledger), ledger, context, old(state).credential) && RetriesOnce(old(ledger), ledger)
      ensures SameFlow(old(state), state, others == old(others)) && Answered(reply)
      ensures reply.Credential? && old(state).credential.None? && old(state).session.None? ==>
        ledger.browserOpened > old(ledger).browserOpened && state.session.Some?
      ensures context.NonInteractive? && old(state).credential.None? && old(state).session.None? ==> reply.Refused? && state.session.None?
      ensures ledger.sought > old(ledger).sought
    {
      hide Invariant, Replay, After, IsRound, RoundLog, AfterRound, RoundReply, SecondReply, Tolerated, SameFlow, IssueLedger, DeadLog, Sound;
      var served, first := RenewOnce(context, now);
      trail := IssueTrail(old(Here()), now, Some(first), now, None);
      if served.Some? {
        reply := served.value;
        OneRound(deps, context, trail, served, reply);
      } else {
        ghost var met, asked, tried, alone := state, log, ledger, others == old(others);
        HeldIsKnown(target, state, log, ledger, holding, clock);
        ghost var later, second;
        reply, later, second := IssueAfterDeadBearer(context, state.credential.value);
        SameFlowOn(old(state), met, state, alone, others == old(others));
        trail := IssueTrail(old(Here()), now, Some(first), later, Some(second));
        TwoRounds(deps, context, trail, met, asked, log, state, reply);
        FlowFacts(met, state, true);
        LaterBrowser(tried, ledger, context, Some(met.credential.value));
        TriedTwice(old(ledger), tried, ledger, context, old(state).credential, met.credential.value);
      }
    }

    method IssueFromSession(context: Context) returns (reply: Reply, ghost trail: IssueTrail)
      requires Inv() && state.pendingSignInPage.None?
      modifies this`clock, this`state, this`disk, this`diskVersion, this`others, this`edits, this`log, this`ledger
      ensures Inv() && Onward() && DiskKept()
      // what is answered, and the log and the state this leaves
      ensures trail.found == old(Here()) && old(clock) <= trail.now <= clock && Explains(deps, context, trail, reply)
      ensures log == TrailLog(trail) && Tolerated(TrailState(trail), state)
      ensures IssueStep(context, reply)
      // without a key that lives, the renewal chain runs
      ensures target.mode.Idp? && !(old(state).key.Some? && old(state).key.value.expiresAt > trail.now) ==> ledger.sought > old(ledger).sought
    {
      hide Invariant, Replay, After, Explains, TrailLog, TrailState, IssueLedger, RetriesOnce, Sound;
      ghost var found := Here();
      var served, now := AnswerAtOnce(context);
      trail := IssueTrail(found, now, None, now, None);
      if served.Some? {
        reply := served.value;
        AtOnce(deps, context, trail, reply);
        return;
      }
      ghost var followed;
      reply, followed := RenewAndServe(context, now);
      trail := followed.(found := found);
      TrailTolerates(deps, context, trail, followed, reply);
    }

    /** Without an IdP the target says what to answer, and a key that lives is served: neither takes a call. */
    method AnswerAtOnce(context: Context) returns (reply: Option<Reply>, now: int)
      requires Inv()
      modifies this`clock, this`state, this`disk, this`diskVersion, this`others, this`edits
      ensures Inv() && Onward() && DiskKept() && Tolerated(old(state), state) && old(clock) <= now <= clock
      ensures reply.None? ==>
        && now == clock && target.mode.Idp? && !(state.key.Some? && state.key.value.expiresAt > now)
        && (others == old(others) ==> state == old(state))
      ensures reply.Some? ==> IssueStep(context, reply.value)
      ensures reply.Some? ==>
        if target.mode.Static? then reply.value == Credential(Issued(target.mode.key, None, StaticSource, None))
        else if target.mode.Unconfigured? then reply.value == Refused(GatewayError)
        else state.key.Some? && state.key.value.expiresAt > now && reply.value == Credential(KeyReply(state.key.value))
    {
      hide Invariant, Replay, After, IssueLedger, RetriesOnce;
      NothingDone(ledger, context, state.credential);
      if !target.mode.Idp? {
        var answer := IssueWithoutIdp(target.mode);
        return Some(answer), clock;
      }
      Interfere();
      now := clock;
      if FreshKey(now).Some? {
        var answer := Serve(FreshKey(now).value);
        return Some(answer), now;
      }
      reply := None;
    }

    method IssueUnderRenewalLock(context: Context) returns (reply: Reply, ghost trail: IssueTrail)
      requires Inv() && state.pendingSignInPage.None?
      modifies this`clock, this`state, this`disk, this`diskVersion, this`others, this`edits, this`log, this`ledger
      ensures Inv() && Onward() && DiskKept()
      ensures trail.found == old(Here()) && old(clock) <= trail.now <= clock && Explains(deps, context, trail, reply)
      ensures log == TrailLog(trail) + (if context.Interactive? && reply.Credential? then [InteractiveIssue] else [])
      ensures SameSlots(TrailState(trail), state)
      ensures target.mode.Idp? && !(old(state).key.Some? && old(state).key.value.expiresAt > trail.now) ==> ledger.sought > old(ledger).sought
      ensures context.NonInteractive? ==> IssueStep(context, reply)
      ensures context.Interactive? ==>
        && state.completedSignIns == old(state).completedSignIns + (if reply.Credential? then 1 else 0)
        && IssueLedger(old(ledger), ledger, context, old(state).credential) && RetriesOnce(old(ledger), ledger) && Answered(reply)
        && (target.mode.Idp? && old(state).key.None? && old(state).credential.None? && old(state).session.None? && reply.Credential? ==>
              ledger.browserOpened > old(ledger).browserOpened && state.session.Some?)
        && state.explicitSignInRunning == old(state).explicitSignInRunning && state.pendingSignInPage.None?
        && (old(state).session.Some? ==> state.session.Some?)
    {
      hide Invariant, Replay, After, Explains, TrailLog, TrailState;
      reply, trail := IssueFromSession(context);
      if context.Interactive? && reply.Credential? {
        CountIssue();
      }
    }

    method CountIssue()
      requires Inv()
      modifies this`state, this`log, this`ledger
      ensures Inv() && state == old(state).(completedSignIns := old(state).completedSignIns + 1) && log == old(log) + [InteractiveIssue]
      ensures NothingMinted() && ledger.deleted == old(ledger).deleted && ledger.dead == old(ledger).dead
      ensures ledger.granted == old(ledger).granted && ledger.reissued == old(ledger).reissued && ledger.browserOpened == old(ledger).browserOpened
      ensures ledger.unauthorized == old(ledger).unauthorized && ledger.deaths == old(ledger).deaths && ledger.sought == old(ledger).sought
    {
      hide Invariant, Replay, After;
      InvariantReplays(target, state, log, ledger, holding, clock);
      RestAfter(ledger, InteractiveIssue);
      BagsAfter(ledger, InteractiveIssue);
      CountingASignIn(target, state, log, ledger, holding, clock);
      Record(InteractiveIssue);
      state := state.(completedSignIns := state.completedSignIns + 1);
    }

    // -------------------------------------------------------- following the config

    method ApplySettings(settings: RelaySettings, version: nat)
      requires Inv() && (holding.None? || state.key.None?)
      modifies this`target, this`state, this`clock, this`disk, this`diskVersion, this`others, this`edits, this`log, this`ledger, this`holding
      ensures Inv() && Onward() && DiskKept() && holding == old(holding)
      ensures target == TargetOf(settings, Some(version))
      ensures Tolerated(AfterSettings(old(state), settings, old(target), target), state)
      ensures others == old(others) ==> state == AfterSettings(old(state), settings, old(target), target)
      // what outlives the change, by what has changed
      ensures others == old(others) ==> Outlives(settings, old(target), target, old(state), state)
      ensures others == old(others) && (old(target).callers != target.callers || old(target).unanchored != target.unanchored) ==>
                state.proxyToken.None?
      ensures var deletion := if SameGateway(old(target), target) then [] else Deletion(old(target).gatewayUrl, old(state).key, old(state).credential);
              log == old(log) + deletion && ledger == Deleting(old(ledger), deletion)
    {
      hide Invariant, Replay, After, TargetOf, Deletion, Deleting, Leaving, SignsOut, Outlives;
      var current := target;
      var next := TargetOf(settings, Some(version));
      TargetVersion(settings, Some(version));
      Leave(settings, next);
      if current.callers != next.callers || current.unanchored != next.unanchored {
        Retargeting(target, target, state, state.(proxyToken := None), log, ledger, holding, clock);
        state := state.(proxyToken := None);
      }
      LeavingFits(old(state), state, settings, current, next);
      WhatAConfigLeaves(settings, current, next, old(state));
      Retargeting(target, next, state, state, log, ledger, holding, clock);
      target := next;
    }

    /** Gives up what belongs to the Gateway, the team or the IdP that is being left. */
    method Leave(settings: RelaySettings, next: Target)
      requires Inv() && (holding.None? || state.key.None?)
      modifies this`state, this`clock, this`disk, this`diskVersion, this`others, this`edits, this`log, this`ledger, this`holding
      ensures Inv() && Onward() && DiskKept() && holding == old(holding)
      ensures Tolerated(Leaving(old(state), settings, target, next), state)
      ensures others == old(others) ==> state == Leaving(old(state), settings, target, next)
      ensures var deletion := if SameGateway(target, next) then [] else Deletion(target.gatewayUrl, old(state).key, old(state).credential);
              log == old(log) + deletion && ledger == Deleting(old(ledger), deletion)
    {
      hide Invariant, Replay, After, Deletion, RelaySettings.EnvironmentWithUrl;
      var moved := target.gatewayUrl != next.gatewayUrl;
      var betweenEnvironments :=
        settings.EnvironmentWithUrl(target.gatewayUrl).Some? && settings.EnvironmentWithUrl(next.gatewayUrl).Some?;
      var signsOut := target.mode != next.mode || (moved && !betweenEnvironments);
      if signsOut || moved || target.team != next.team {
        Forget(target.gatewayUrl, signsOut);
      }
    }

    method ApplySavedSettings() returns (ghost applied: Option<RelaySettings>)
      requires Inv() && (holding.None? || state.key.None?)
      modifies this
      ensures Inv() && Onward() && DiskKept() && TargetKept() && holding == old(holding)
      ensures applied.None? ==>
        && target == old(target) && log == old(log) && ledger == old(ledger)
        && Tolerated(old(state), state) && (others == old(others) ==> state == old(state))
      ensures applied.Some? ==>
        && target.version.Some? && target == TargetOf(applied.value, target.version)
        && Tolerated(AfterSettings(old(state), applied.value, old(target), target), state)
        && (others == old(others) ==> state == AfterSettings(old(state), applied.value, old(target), target))
        && var deletion := if SameGateway(old(target), target) then [] else Deletion(old(target).gatewayUrl, old(state).key, old(state).credential);
           log == old(log) + deletion && ledger == Deleting(old(ledger), deletion)
      ensures faults == old(faults) && edits == old(edits) ==>
        && target.version == Some(diskVersion)
        && applied == if old(target).version == Some(old(diskVersion)) then None else Some(old(disk))
    {
      hide Invariant, Replay, After, TargetOf, SameGateway, Deletion;
      applied := None;
      var version := Version();
      if version.None? || target.version == version {
        return;
      }
      var settings := Load();
      if settings.None? {
        return;
      }
      applied := settings;
      TargetVersion(settings.value, version);
      AfterSettingsTolerates(old(state), state, settings.value, target, TargetOf(settings.value, version));
      ApplySettings(settings.value, version.value);
    }

    twostate predicate Unchanged() reads this {
      && target == old(target) && state == old(state) && log == old(log) && ledger == old(ledger)
      && holding == old(holding) && disk == old(disk) && diskVersion == old(diskVersion)
    }

    /** What a config that is new to the broker leaves when this thread alone follows it. */
    twostate predicate Followed() reads this {
      && state == AfterSettings(old(state), disk, old(target), target)
      && log == old(log) + if SameGateway(old(target), target) then [] else Deletion(old(target).gatewayUrl, old(state).key, old(state).credential)
    }

    /** Every request begins with this: in every interleaving, unless the config is written or cannot be
        read meanwhile, the broker works for what is on disk afterwards. */
    method Refresh()
      requires Inv()
      modifies this
      ensures Inv() && Onward() && DiskKept() && TargetKept() && ledger.interactiveIssues >= old(ledger).interactiveIssues
      ensures Unedited() && old(Coherent()) ==> InSync()
      ensures Quiet() && old(Settled()) ==> Settled()
      ensures Quiet() && old(Settled() && InSync()) ==> Unchanged()
      ensures Quiet() && old(Settled()) && old(target).version != Some(old(diskVersion)) ==> Followed()
    {
      hide Invariant, Replay, TargetOf, AfterSettings, SameGateway, Deletion;
      TargetVersion(disk, Some(diskVersion));
      var version := Version();
      Overtaken();
      if version.None? || target.version == version {
        return;
      }
      Reload();
    }

    method Reload()
      requires Inv()
      modifies this
      ensures Settled() && Onward() && DiskKept() && TargetKept() && ledger.interactiveIssues >= old(ledger).interactiveIssues
      ensures Unedited() && old(Coherent()) ==> InSync()
      ensures Quiet() && old(Settled()) && old(target).version != Some(old(diskVersion)) ==> Followed()
    {
      hide Invariant, Replay, TargetOf, SameGateway, Deletion;
      AcquireRenewal();
      var _ := ApplySavedSettings();
    }

    // -------------------------------------------------------- requests

    /** Wherever the serving thread stood, a bearer is genuine: a key some gateway minted, a session
        credential its gateway granted and that was not marked dead, or no gateway token at all. */
    ghost predicate Genuine(issued: Issued) reads this`ledger {
      && (issued.source.KeySource? ==> exists at :: at in ledger.minted && at.token == issued.token)
      && (issued.source.SessionSource? ==>
            exists at :: at in ledger.granted && (at in ledger.dead ==> at in ledger.reissued) && at.token == issued.token)
    }

    /** A key that is still alive at the end is what was served, and whatever was served is sound. */
    twostate predicate ServedSoundly(new reply: Reply) reads this {
      && (old(state).key.Some? && old(state).key.value.expiresAt > clock ==> reply == Credential(KeyReply(old(state).key.value)))
      && (reply.Credential? ==> Sound(reply.issued) && state.lastSource == Some(reply.issued.source))
    }

    /** Since the call began: the world the issue started from, and what it has left in the log. */
    twostate predicate Begun(new trail: IssueTrail) reads this {
      && old(log) <= trail.found.log && TrailLog(trail) <= log && old(clock) <= trail.now <= clock
      && (edits == old(edits) && old(InSync()) ==> trail.found.target == old(target))
      && (Quiet() ==> trail.found.target == old(target) && trail.found.state == old(state) && trail.found.log == old(log))
    }

    /** `admitted` is the target as it was when the caller was let in; outside an IdP it says what to
        serve. `trail` is what the issue asked and was answered. */
    method Issue(admitted: Target, context: Context) returns (reply: Reply, ghost trail: IssueTrail)
      requires Inv()
      modifies this
      ensures Inv() && Onward() && DiskKept() && TargetKept()
      // what is answered, and why
      ensures Explains(deps, context, trail, reply)
      ensures if admitted.mode.Idp? then Begun(trail) else trail.found.target == admitted
      ensures reply.Credential? || reply.Refused?
      ensures reply.Credential? ==> Genuine(reply.issued)
      ensures !admitted.mode.Idp? ==>
        reply == if admitted.mode.Static? then Credential(Issued(admitted.mode.key, None, StaticSource, None)) else Refused(GatewayError)
      ensures Quiet() && old(Settled()) ==>
        Settled() && target == old(target) && (context.NonInteractive? ==> ledger.browserOpened == old(ledger).browserOpened)
      ensures Quiet() && old(Settled()) && old(target).mode.Idp? && admitted.mode.Idp? ==> ServedSoundly(reply)
    {
      hide Invariant, Replay, TargetOf, IsRound, RoundReply;
      if admitted.mode.Idp? {
        reply, trail := IssueFromIdp(context);
      } else {
        Overtaken();
        trail := IssueTrail(Here().(target := admitted), clock, None, clock, None);
        reply := IssueWithoutIdp(admitted.mode);
      }
    }

    method IssueFromIdp(context: Context) returns (reply: Reply, ghost trail: IssueTrail)
      requires Inv()
      modifies this
      ensures Inv() && Onward() && DiskKept() && TargetKept()
      ensures Explains(deps, context, trail, reply) && Begun(trail)
      ensures reply.Credential? || reply.Refused?
      ensures reply.Credential? ==> Genuine(reply.issued)
      ensures Quiet() && old(Settled()) ==>
        Settled() && target == old(target) && (context.NonInteractive? ==> ledger.browserOpened == old(ledger).browserOpened)
      ensures Quiet() && old(Settled()) && old(target).mode.Idp? ==> ServedSoundly(reply)
    {
      hide Invariant, Replay, TargetOf, Genuine, Explains, TrailLog;
      var served, found := ServeFreshKey(context);
      trail := found;
      if served.Some? {
        reply := served.value;
      } else {
        reply, trail := IssueLocked(context);
      }
    }

    /** A key that lives is served without `renewal`. */
    method ServeFreshKey(ghost context: Context) returns (reply: Option<Reply>, ghost trail: IssueTrail)
      requires Inv()
      modifies this
      ensures Inv() && Onward() && DiskKept() && TargetKept()
      ensures reply.Some? ==> Explains(deps, context, trail, reply.value) && Begun(trail)
      ensures reply.Some? ==> reply.value.Credential? && Genuine(reply.value.issued)
      ensures Quiet() && old(Settled()) ==> Settled() && target == old(target) && ledger == old(ledger)
      ensures Quiet() && reply.Some? ==> ServedSoundly(reply.value)
      ensures Quiet() && reply.None? ==>
        && target == old(target) && state == old(state) && log == old(log)
        && !(old(state).key.Some? && old(state).key.value.expiresAt > clock)
    {
      hide Invariant, Replay, TargetOf, IsRound, RoundReply;
      Overtaken();
      trail := IssueTrail(Here(), clock, None, clock, None);
      var served := FreshKey(clock);
      if served.None? {
        return None, trail;
      }
      KeyIsMinted(target, state, log, ledger, holding, clock);
      HeldIsBound(target, state, log, ledger, holding, clock);
      Overtaken();
      var answer := Serve(served.value);
      reply := Some(answer);
    }

    method IssueLocked(context: Context) returns (reply: Reply, ghost trail: IssueTrail)
      requires Inv()
      modifies this
      ensures Settled() && Onward() && DiskKept() && TargetKept()
      ensures Explains(deps, context, trail, reply) && Begun(trail)
      ensures reply.Credential? || reply.Refused?
      ensures reply.Credential? ==> Genuine(reply.issued)
      ensures Quiet() ==> target == old(target) && (context.NonInteractive? ==> ledger.browserOpened == old(ledger).browserOpened)
      ensures Quiet() && old(target).mode.Idp? && reply.Credential? ==> Sound(reply.issued) && state.lastSource == Some(reply.issued.source)
    {
      hide Invariant, Replay, TargetOf, Explains, TrailLog, TrailState, SameSlots;
      AcquireRenewal();
      reply, trail := IssueUnderRenewalLock(context);
      KeyIsMinted(target, state, log, ledger, holding, clock);
    }

    /** The bearer for a proxied request: it goes to `gatewayUrl`, and that gateway is the one that
        minted or granted it (an identity token or the static key belongs to no gateway). */
    ghost predicate Paired(bearer: ProxyBearer, source: Source) reads this`ledger {
      && (source.KeySource? ==> At(bearer.gatewayUrl, bearer.token) in ledger.minted)
      && (source.SessionSource? ==>
            && At(bearer.gatewayUrl, bearer.token) in ledger.granted
            && (At(bearer.gatewayUrl, bearer.token) in ledger.dead ==> At(bearer.gatewayUrl, bearer.token) in ledger.reissued))
    }

    /** `compared` is the world in which the presented token was compared with the one handed out. */
    method BearerForProxy(presented: seq<bv8>)
      returns (bearer: Result<ProxyBearer, Refusal>, ghost source: Source, ghost entered: Ledger, ghost compared: World,
               ghost trail: IssueTrail)
      requires Inv()
      modifies this
      ensures Inv() && Onward() && DiskKept() && TargetKept()
      // to the caller it knows it bears what an issue without a browser answers
      ensures compared.state.proxyToken == Some(presented) ==>
                Bears(deps, trail, bearer, source) && compared.log <= trail.found.log && TrailLog(trail) <= log
      ensures bearer.Ok? ==> Paired(bearer.value, source)
      // in every interleaving only the token handed out is accepted, and any other has no effect
      ensures bearer.Ok? ==> compared.state.proxyToken == Some(presented)
      ensures compared.state.proxyToken != Some(presented) ==>
                bearer == Err(CallerRefused) && log == compared.log && state == compared.state
      // and that is after a config new to the broker, which may revoke it, was applied
      ensures Unedited() && old(Coherent()) ==> WorksForDisk(compared)
      ensures Quiet() && old(Settled() && Coherent()) ==>
                compared.state == if old(InSync()) then old(state) else AfterSettings(old(state), compared.disk, old(target), compared.target)
      // alone, a config on disk with another allowlist leaves no token that is accepted
      ensures Quiet() && old(Settled() && Coherent())
              && (TargetOf(old(disk), None).callers != old(target).callers || TargetOf(old(disk), None).unanchored != old(target).unanchored) ==>
                bearer == Err(CallerRefused)
      ensures Quiet() && old(Settled() && InSync()) && old(state).proxyToken == Some(presented)
              && old(state).key.Some? && old(state).key.value.expiresAt > clock ==>
                bearer == Ok(ProxyBearer(old(state).key.value.token, old(state).key.value.gatewayUrl))
      ensures Quiet() && old(Settled()) ==> Settled()
      // from the moment it starts serving (`entered`), no browser
      ensures ledger.browserOpened == entered.browserOpened
    {
      hide Invariant, Replay, TargetOf, AfterSettings, Paired, Bears, TrailLog;
      source := StaticSource;
      var known: bool;
      VersionsDoNotMatter(disk, Some(diskVersion));
      known, compared := KnowsToken(presented);
      if target.callers != old(target).callers || target.unanchored != old(target).unanchored {
        AllowlistRevokes(old(state), disk, old(target), target);
      }
      entered := ledger;
      trail := IssueTrail(compared, clock, None, clock, None);
      if !known {
        bearer := Err(CallerRefused);
        return;
      }
      bearer, source, entered, trail := BearFresh();
    }

    /** Follows the config first, so that a token it revokes is no longer known. */
    method KnowsToken(presented: seq<bv8>) returns (known: bool, ghost compared: World)
      requires Inv()
      modifies this
      ensures Inv() && Onward() && DiskKept() && TargetKept()
      ensures compared == Here() && (known <==> state.proxyToken == Some(presented))
      ensures Unedited() && old(Coherent()) ==> WorksForDisk(compared)
      ensures Quiet() && old(Settled()) ==> Settled()
      ensures Quiet() && old(Settled() && InSync()) ==> Unchanged()
      ensures Quiet() && old(Settled() && Coherent()) && !old(InSync()) ==> Followed()
    {
      hide Invariant, Replay, TargetOf, AfterSettings, SameGateway, Deletion;
      Refresh();
      Overtaken();
      if state.proxyToken.Some? {
        SameBytesIsEquality(state.proxyToken.value, presented);
      }
      known := state.proxyToken.Some? && SameBytes(state.proxyToken.value, presented);
      compared := Here();
    }

    method BearFresh()
      returns (bearer: Result<ProxyBearer, Refusal>, ghost source: Source, ghost entered: Ledger, ghost trail: IssueTrail)
      requires Inv()
      modifies this
      ensures Inv() && Onward() && DiskKept() && TargetKept()
      ensures Bears(deps, trail, bearer, source) && old(log) <= trail.found.log && TrailLog(trail) <= log
      ensures bearer.Ok? ==> Paired(bearer.value, source)
      ensures Quiet() && old(state).key.Some? && old(state).key.value.expiresAt > clock ==>
                bearer == Ok(ProxyBearer(old(state).key.value.token, old(state).key.value.gatewayUrl))
      ensures Quiet() && old(Settled()) ==> Settled()
      ensures ledger.browserOpened == entered.browserOpened
    {
      hide Invariant, Replay, TargetOf, Paired, Bears, TrailLog;
      Overtaken();
      entered := ledger;
      trail := IssueTrail(Here(), clock, None, clock, None);
      KeyIsMinted(target, state, log, ledger, holding, clock);
      HeldIsBound(target, state, log, ledger, holding, clock);
      var held := FreshProxyBearer();
      if held.Some? {
        BearsTheKey(deps, trail);
        return Ok(held.value), KeySource, entered, trail;
      }
      bearer, source, entered, trail := IssueForProxy();
    }

    method FreshProxyBearer() returns (bearer: Option<ProxyBearer>)
      requires Inv()
      modifies this`state
      ensures Inv() && (old(Settled()) ==> Settled())
      ensures if old(state).key.Some? && old(state).key.value.expiresAt > clock
              then bearer == Some(ProxyBearer(old(state).key.value.token, old(state).key.value.gatewayUrl))
                   && Paired(bearer.value, KeySource) && state == old(state).(lastSource := Some(KeySource))
              else bearer.None? && state == old(state)
    {
      hide Invariant, Replay;
      bearer := None;
      if state.key.Some? && state.key.value.expiresAt > clock {
        KeyIsMinted(target, state, log, ledger, holding, clock);
        bearer := Some(ProxyBearer(state.key.value.token, state.key.value.gatewayUrl));
        ServingKeepsInvariant(target, state, Some(KeySource), log, ledger, holding, clock);
        state := state.(lastSource := Some(KeySource));
      }
    }

    method IssueForProxy()
      returns (bearer: Result<ProxyBearer, Refusal>, ghost source: Source, ghost entered: Ledger, ghost trail: IssueTrail)
      requires Inv()
      modifies this
      ensures Settled() && Onward() && DiskKept() && TargetKept()
      ensures Bears(deps, trail, bearer, source) && old(log) <= trail.found.log && TrailLog(trail) <= log
      ensures bearer.Ok? ==> Paired(bearer.value, source)
      ensures ledger.browserOpened == entered.browserOpened
    {
      hide Invariant, Replay, IssueLedger, TargetOf, Explains, TrailLog, TrailState, SameSlots;
      source := StaticSource;
      AcquireRenewal();
      entered := ledger;
      var reply, issue := IssueUnderRenewalLock(NonInteractive);
      trail := issue;
      NoBrowser(entered, ledger);
      KeyIsMinted(target, state, log, ledger, holding, clock);
      match reply {
        case Credential(issued) =>
          bearer := Ok(ProxyBearer(issued.token, target.gatewayUrl));
          source := issued.source;
        case Refused(refusal) => bearer := Err(refusal);
        case _ => bearer := Err(GatewayError);
      }
    }

    /** The caller check decides; a refused caller is counted and reaches no gateway. */
    method CredentialFor(context: Context, allowed: bool)
      returns (reply: Reply, ghost counted: State, ghost checked: World, ghost trail: IssueTrail)
      requires Inv()
      modifies this
      ensures Inv() && Onward() && DiskKept() && TargetKept()
      // `checked` is the world whose allowlist the caller was checked against
      ensures Unedited() && old(Coherent()) ==> WorksForDisk(checked)
      ensures allowed ==> Explains(deps, context, trail, reply) && (reply.Credential? || reply.Refused?)
      ensures reply.Credential? ==> allowed && Genuine(reply.issued)
      ensures !allowed ==> reply == Refused(CallerRefused) && state == counted.(refusedCallers := counted.refusedCallers + 1)
      ensures Quiet() && old(Settled() && InSync()) && !allowed ==> log == old(log) && counted == old(state)
    {
      hide Invariant, Replay, TargetOf, Explains;
      var admitted: Target;
      admitted, checked := TargetToCheck();
      Overtaken();
      counted := state;
      trail := IssueTrail(checked, clock, None, clock, None);
      if !allowed {
        CountingARefusal(target, state, state.refusedCallers + 1, log, ledger, holding, clock);
        state := state.(refusedCallers := state.refusedCallers + 1);
        reply := Refused(CallerRefused);
        return;
      }
      reply, trail := Issue(admitted, context);
    }

    /** The target whose allowlist decides, once the config on disk was followed. */
    method TargetToCheck() returns (admitted: Target, ghost checked: World)
      requires Inv()
      modifies this
      ensures Inv() && Onward() && DiskKept() && TargetKept() && checked == Here() && admitted == target
      ensures Unedited() && old(Coherent()) ==> WorksForDisk(checked)
      ensures Quiet() && old(Settled() && InSync()) ==> Unchanged()
    {
      hide Invariant, Replay, TargetOf;
      Refresh();
      Overtaken();
      admitted := target;
      checked := Here();
    }

    /** A proxy token stands for the credential; it is handed out once and stays until it is revoked. */
    method ProxyCredential(context: Context, allowed: bool) returns (reply: Reply, ghost before: State, ghost answer: Reply, ghost trail: IssueTrail)
      requires Inv()
      modifies this
      ensures Inv() && Onward() && DiskKept() && TargetKept()
      ensures reply.ProxyTokenIssued? ==>
        state == before.(proxyToken := Some(reply.proxyToken)) && (before.proxyToken.Some? ==> state == before)
      ensures reply.ProxyTokenIssued? || (reply.Refused? && state == before)
      // an issue decides whether there is one
      ensures if allowed then Explains(deps, context, trail, answer) else answer == Refused(CallerRefused)
      ensures if answer.Credential? then reply.ProxyTokenIssued? && reply.notice == answer.issued.notice else reply == answer
    {
      hide Invariant, Replay, TargetOf, Explains;
      var credential, _, _, issue := CredentialFor(context, allowed);
      answer, trail := credential, issue;
      Overtaken();
      before := state;
      match credential {
        case Credential(issued) =>
          var minted: seq<bv8> := *;
          var token := if state.proxyToken.Some? then state.proxyToken.value else minted;
          Retargeting(target, target, state, state.(proxyToken := Some(token)), log, ledger, holding, clock);
          state := state.(proxyToken := Some(token));
          reply := ProxyTokenIssued(token, issued.notice);
        case Refused(refusal) => reply := Refused(refusal);
        case _ => reply := Refused(GatewayError);
      }
    }

    // -------------------------------------------------------- signing in and out

    /** A sign-in either joins one that was already under way or runs its own. `entered` is the world
        as it was when this call got `renewal`. */
    method SignIn() returns (reply: Reply, ghost entered: World, ghost joined: bool, ghost own: Option<(IssueTrail, Reply)>)
      requires Inv()
      modifies this
      ensures Settled() && Onward() && DiskKept() && TargetKept()
      ensures Unedited() && old(Coherent()) ==> WorksForDisk(entered)
      // a page was pending when the call began: no flow of its own, no key retired
      ensures old(state).pendingSignInPage.Some? ==> log == entered.log && state == entered.state && target == entered.target
      // a joined reply stands for an interactive issue that finished since, with a session present
      ensures reply.SignedIn? ==> ledger.interactiveIssues > old(ledger).interactiveIssues
      ensures joined ==>
        && reply.SignedIn? && (old(state).pendingSignInPage.Some? || old(state).explicitSignInRunning)
        && log == entered.log && state == entered.state && state.session.Some?
        && entered.state.completedSignIns > old(state).completedSignIns
      // it joins whenever one it found under way has finished since
      ensures joined <==>
        && entered.target.mode.Idp? && (old(state).pendingSignInPage.Some? || old(state).explicitSignInRunning)
        && entered.state.completedSignIns != old(state).completedSignIns && entered.state.session.Some?
      // its own flow retires the key and opens the browser, and ends with an interactive issue
      ensures reply.SignedIn? && !joined ==>
        && state.completedSignIns == entered.state.completedSignIns + 1
        && ledger.deleted == Replay(entered.log).deleted + Bag(KeyAt(entered.state.key))
        && ledger.browserOpened > Replay(entered.log).browserOpened && state.session.Some?
      // whose answer is the reply
      ensures own.Some? <==> entered.target.mode.Idp? && !joined && old(state).pendingSignInPage.None?
      ensures own.Some? ==> SignedInBy(entered, own.value.0, own.value.1, reply)
      ensures own.None? && !joined ==> reply == Refused(if entered.target.mode.Idp? then Refusal.SignInFailed else GatewayError)
      ensures reply.SignedIn? ==> reply.userId == if state.credential.Some? then state.credential.value.userId else None
    {
      hide Invariant, Replay, After, TargetOf, SignedInBy;
      own := None;
      var startedAt := state.completedSignIns;
      var page := state.pendingSignInPage;
      var joining := state.explicitSignInRunning;
      joined := false;
      HeldIsKnown(target, state, log, ledger, holding, clock);
      Refresh();
      AcquireRenewal();
      entered := World(target, state, log, clock, disk, diskVersion);
      HeldIsKnown(target, state, log, ledger, holding, clock);
      KeyIsMinted(target, state, log, ledger, holding, clock);
      InvariantReplays(target, state, log, ledger, holding, clock);
      if !target.mode.Idp? {
        reply := Refused(GatewayError);
        return;
      }
      if (page.Some? || joining) && state.completedSignIns != startedAt && state.session.Some? {
        reply := SignedIn(UserId());
        joined := true;
        return;
      }
      if page.Some? {
        reply := Refused(Refusal.SignInFailed);
        return;
      }
      var answer, trail, issued := OwnSignIn();
      reply, own := answer, Some((trail, issued));
    }

    /** A sign-in of one's own is an interactive issue of a broker that holds nothing: it is signed in
        exactly when that gives a bearer. */
    ghost predicate SignedInBy(entered: World, trail: IssueTrail, issued: Reply, reply: Reply) reads this {
      && Explains(deps, Interactive, trail, issued)
      && trail.found.target == entered.target && trail.found.state.explicitSignInRunning
      && trail.found.log == entered.log + Deletion(entered.target.gatewayUrl, entered.state.key, entered.state.credential)
      && trail.found.state.key.None? && trail.found.state.credential.None? && trail.found.state.session.None? && trail.found.state.mintRefusal.None?
      && (if issued.Credential? then reply.SignedIn? else issued.Refused? && reply == issued)
    }

    /** Signs out first, so that the flow cannot be answered from what is held. */
    method OwnSignIn() returns (reply: Reply, ghost trail: IssueTrail, ghost issued: Reply)
      requires Settled() && target.mode.Idp?
      modifies this`clock, this`state, this`disk, this`diskVersion, this`others, this`edits, this`log, this`ledger, this`holding
      ensures Settled() && Onward() && DiskKept() && (reply.SignedIn? || reply.Refused?)
      ensures reply.SignedIn? ==>
        && state.completedSignIns == old(state).completedSignIns + 1
        && ledger.interactiveIssues == old(ledger).interactiveIssues + 1
        && ledger.deleted == old(ledger).deleted + Bag(KeyAt(old(state).key))
        && ledger.browserOpened > old(ledger).browserOpened && state.session.Some?
      ensures SignedInBy(old(Here()), trail, issued, reply)
      ensures reply.SignedIn? ==> reply.userId == if state.credential.Some? then state.credential.value.userId else None
    {
      hide Invariant, Replay, After, Explains, TrailLog, TrailState, SameSlots, IssueLedger;
      HeldIsKnown(target, state, log, ledger, holding, clock);
      ClearForSignIn();
      ghost var cleared := ledger;
      var answer, issue := IssueUnderRenewalLock(Interactive);
      issued, trail := answer, issue;
      IssueDeletesNothing(cleared, ledger, Interactive, None);
      SettingFlags(target, state, false, log, ledger, holding, clock);
      state := state.(explicitSignInRunning := false);
      HeldIsKnown(target, state, log, ledger, holding, clock);
      reply := match answer case Credential(_) => SignedIn(UserId()) case other => other;
    }

    method ClearForSignIn()
      requires Settled()
      modifies this`clock, this`state, this`disk, this`diskVersion, this`others, this`edits, this`log, this`ledger, this`holding
      ensures Inv() && Onward() && DiskKept() && holding.None? && state.pendingSignInPage.None? && state.explicitSignInRunning
      ensures state.key.None? && state.credential.None? && state.session.None? && state.mintRefusal.None?
      ensures state.completedSignIns == old(state).completedSignIns
      ensures log == old(log) + Deletion(target.gatewayUrl, old(state).key, old(state).credential)
      ensures ledger.deleted == old(ledger).deleted + Bag(KeyAt(old(state).key))
      ensures ledger.browserOpened == old(ledger).browserOpened && ledger.interactiveIssues == old(ledger).interactiveIssues
    {
      hide Invariant, Replay, After;
      HeldIsKnown(target, state, log, ledger, holding, clock);
      KeyIsMinted(target, state, log, ledger, holding, clock);
      if state.key.Some? {
        RestAfter(ledger, Delete(target.gatewayUrl, state.credential.value.accessToken, state.key.value.token));
        BagsAfter(ledger, Delete(target.gatewayUrl, state.credential.value.accessToken, state.key.value.token));
      }
      Forget(target.gatewayUrl, true);
      SettingFlags(target, state, true, log, ledger, holding, clock);
      state := state.(explicitSignInRunning := true);
    }

    function UserId(): Option<string> reads this`state {
      if state.credential.Some? then state.credential.value.userId else None
    }

    method SignOut() returns (reply: Reply, ghost entered: World)
      requires Inv()
      modifies this
      ensures Settled() && Onward() && DiskKept() && TargetKept()
      ensures Unedited() && old(Coherent()) ==> WorksForDisk(entered)
      ensures entered.target.mode.Static? ==> reply == Refused(StaticKeyServed) && log == entered.log && state == entered.state
      ensures !entered.target.mode.Static? ==>
        && reply == SignOutDone
        && state.key.None? && state.credential.None? && state.session.None? && state.mintRefusal.None?
        && log == entered.log + Deletion(entered.target.gatewayUrl, entered.state.key, entered.state.credential)
        && (Quiet() && old(Settled() && InSync()) ==> state.proxyToken.None? && entered.state == old(state) && entered.log == old(log))
    {
      hide Invariant, Replay, After, TargetOf;
      Refresh();
      AcquireRenewal();
      entered := World(target, state, log, clock, disk, diskVersion);
      if target.mode.Static? {
        reply := Refused(StaticKeyServed);
        return;
      }
      Forget(target.gatewayUrl, true);
      reply := SignOutDone;
    }

    /** Shutting down deletes the key but keeps the IdP session. */
    method Shutdown() returns (ghost entered: World)
      requires Inv()
      modifies this
      ensures Settled() && Onward() && DiskKept() && TargetKept() && state.key.None? && state.credential.None? && state.session == entered.state.session
      ensures log == entered.log + Deletion(entered.target.gatewayUrl, entered.state.key, entered.state.credential)
    {
      hide Invariant, Replay, After, TargetOf;
      AcquireRenewal();
      entered := World(target, state, log, clock, disk, diskVersion);
      Forget(target.gatewayUrl, false);
    }

    // -------------------------------------------------------- the minute tick

    /** Extends the key when it is due; a 401 marks the bearer dead, renews it and mints anew. */
    method ExtendKey(bearer: CachedCredential, now: int) returns (ghost answer: Option<ExtendAnswer>, ghost again: Option<Round>)
      requires Inv() && target.mode.Idp? && state.credential == Some(bearer) && state.pendingSignInPage.None?
      requires bearer.issuedAt <= now <= clock
      modifies this`clock, this`state, this`disk, this`diskVersion, this`others, this`edits, this`log, this`ledger
      ensures Inv() && Onward() && DiskKept() && SameFlow(old(state), state, others == old(others))
      ensures IsExtension(deps, target, old(state), old(log), now, answer, again)
      ensures log == ExtensionLog(target, old(state), old(log), now, answer, again)
      ensures Tolerated(AfterUpkeep(target, old(state), now, answer, again), state)
      ensures ledger.browserOpened == old(ledger).browserOpened && ledger.deleted == old(ledger).deleted
      ensures ledger.sought == old(ledger).sought + (if again.Some? then 1 else 0)
      ensures answer == Some(ExtendUnauthorized) ==>
        && AtOf(bearer) in ledger.dead && ledger.abandoned >= old(ledger).abandoned + Bag(KeyAt(old(state).key))
    {
      hide Invariant, Replay, After, DeadLedger, DeadLog, IsRound, RoundLog, AfterRound, IsExtension, ExtensionLog, AfterUpkeep;
      Interfere();
      answer, again := None, None;
      if state.key.None? || !Due(state.key.value, now) {
        NotDue(deps, target, old(state), old(log), now);
        return;
      }
      ghost var met := state;
      var said := AskToExtend(bearer, now);
      answer := Some(said);
      if said.ExtendUnauthorized? {
        ghost var round := RenewAfter401(bearer, now);
        again := Some(round);
      }
      Extending(deps, target, met, old(log), now, said, again, log, state);
      ExtensionTolerates(deps, target, old(state), met, old(log), now, answer, again);
      ToleratedOn(AfterUpkeep(target, old(state), now, answer, again), AfterUpkeep(target, met, now, answer, again), state);
    }

    /** One extension, and what it makes of the key. */
    method AskToExtend(bearer: CachedCredential, now: int) returns (said: ExtendAnswer)
      requires Inv() && target.mode.Idp? && state.credential == Some(bearer) && state.key.Some? && now <= clock
      modifies this`state, this`log, this`ledger
      ensures said == deps.extend(old(log), At(target.gatewayUrl, bearer.accessToken), old(state).key.value.token)
      ensures Inv() && log == old(log) + [Extend(target.gatewayUrl, bearer.accessToken, old(state).key.value.token, said, now)]
      ensures state == if said.ExtendUnauthorized? then old(state)
                       else old(state).(key := Some(AfterExtension(old(state).key.value, now, said)))
      ensures said.ExtendUnauthorized? ==> JustRefused(ledger, AtOf(bearer))
      ensures SameCredentials(old(ledger), ledger) && ledger.deleted == old(ledger).deleted && ledger.abandoned == old(ledger).abandoned
    {
      hide Invariant, Replay, After;
      var key := state.key.value;
      said := deps.extend(log, At(target.gatewayUrl, bearer.accessToken), key.token);
      var event := Extend(target.gatewayUrl, bearer.accessToken, key.token, said, now);
      KeyIsMinted(target, state, log, ledger, holding, clock);
      InvariantReplays(target, state, log, ledger, holding, clock);
      ExtendingTheKey(target, state, log, ledger, holding, bearer, said, now, clock);
      RestAfter(ledger, event);
      BagsAfter(ledger, event);
      Record(event);
      assert state.(key := Some(key)) == state;
      if !said.ExtendUnauthorized? && state.key.Some? && state.key.value.token == key.token {
        state := state.(key := Some(AfterExtension(state.key.value, now, said)));
      }
    }

    method RenewAfter401(bearer: CachedCredential, now: int) returns (ghost again: Round)
      requires Inv() && target.mode.Idp? && state.credential == Some(bearer) && state.pendingSignInPage.None?
      requires bearer.issuedAt <= now <= clock && JustRefused(ledger, AtOf(bearer))
      modifies this`clock, this`state, this`disk, this`diskVersion, this`others, this`edits, this`log, this`ledger
      ensures Inv() && Onward() && DiskKept() && SameFlow(old(state), state, others == old(others))
      // a round on the credential marked dead, in silence
      ensures IsRound(deps, target, DeadState(old(state), now), DeadLog(old(state), old(log)), NonInteractive, now, again)
      ensures log == DeadLog(old(state), old(log)) + RoundLog(target, DeadState(old(state), now), again, now)
      ensures Tolerated(AfterRound(target, DeadState(old(state), now), again, now), state)
      ensures ledger.browserOpened == old(ledger).browserOpened && ledger.deleted == old(ledger).deleted
      ensures ledger.sought == old(ledger).sought + 1
      ensures AtOf(bearer) in ledger.dead && ledger.abandoned >= old(ledger).abandoned + Bag(KeyAt(old(state).key))
    {
      hide Invariant, Replay, KnownCredential, Sendable, IsRound, RoundLog, AfterRound;
      Abandon(bearer, now);
      again := RenewInSilence(now);
    }

    /** Renews the credential and mints if it can; the answer is not served to anyone. */
    method RenewInSilence(now: int) returns (ghost round: Round)
      requires Inv() && target.mode.Idp? && state.pendingSignInPage.None? && state.key.None? && now <= clock
      requires state.credential.Some? && KnownCredential(state.credential.value, ledger, now)
      modifies this`clock, this`state, this`disk, this`diskVersion, this`others, this`edits, this`log, this`ledger
      ensures Inv() && Onward() && DiskKept() && SameFlow(old(state), state, others == old(others))
      ensures IsRound(deps, target, old(state), old(log), NonInteractive, now, round)
      ensures log == old(log) + RoundLog(target, old(state), round, now) && Tolerated(AfterRound(target, old(state), round, now), state)
      ensures ledger.browserOpened == old(ledger).browserOpened && ledger.deleted == old(ledger).deleted
      ensures ledger.sought == old(ledger).sought + 1 && ledger.dead == old(ledger).dead && ledger.abandoned == old(ledger).abandoned
    {
      hide Invariant, Replay, After, Sendable, MaySend, KnownCredential, SameFlow, RunRenewal, RunLog, MintAsked, MintLog, AfterAsking;
      hide IsRound, RoundLog, AfterRound, BearerOf, Watched, AfterRun, Tolerated, UsedUp;
      var bearer, run := SessionCredential(NonInteractive, now);
      ghost var met, asked, alone := state, log, others == old(others);
      BearerForms(run, now, bearer);
      round := Round(run, None);
      if bearer.Ok? && bearer.value.SessionBearer? {
        var _, answer := MintAnew(bearer.value.credential, now, run);
        round := Round(run, answer);
      } else {
        NothingUsed(deps, target, state, log, now, round);
        SameFlowSelf(state);
      }
      SameFlowOn(old(state), met, state, alone, others == old(others));
      MakeRound(deps, target, old(state), met, state, old(log), asked, log, NonInteractive, now, round);
    }

    method MintAnew(credential: CachedCredential, now: int, ghost run: RenewalRun) returns (outcome: KeyOutcome, ghost answer: Option<MintAnswer>)
      requires Inv() && state.credential == Some(credential) && Sendable(credential, ledger) && now <= clock
      requires state.key.Some? ==> state.key.value.expiresAt <= now
      requires RoundCredential(Round(run, None)) == Some(credential)
      modifies this`clock, this`state, this`disk, this`diskVersion, this`others, this`edits, this`log, this`ledger
      ensures Inv() && Onward() && DiskKept() && SameFlow(old(state), state, others == old(others))
      ensures UsedUp(deps, target, old(state), state, old(log), log, now, Round(run, answer))
      ensures SameCredentials(old(ledger), ledger) && ledger.deleted == old(ledger).deleted && ledger.abandoned == old(ledger).abandoned
    {
      hide Invariant, Replay, After, LapseLedger, LapseLog, MintAsked, MintLog;
      outcome, answer := KeyOrCredential(credential, now);
    }

    /** The periodic upkeep: a credential that is no longer fresh goes through the renewal chain, and a
        key that is due is extended, all in silence. `entered` is the world when the tick got `renewal`,
        `trail` what it asked and was answered. */
    method MinuteTick() returns (ghost entered: World, ghost trail: TickTrail)
      requires Inv()
      modifies this
      ensures Settled() && Onward() && DiskKept() && TargetKept()
      ensures Unedited() && old(Coherent()) ==> WorksForDisk(entered)
      ensures TickFrom(entered, trail) && entered.clock <= trail.at <= clock
      ensures Quiet() && old(Settled() && InSync()) ==> entered.state == old(state) && entered.target == old(target) && entered.log == old(log)
    {
      hide Invariant, Replay, After, TargetOf, IsTick, TickLog, TickState;
      Refresh();
      AcquireRenewal();
      entered := Here();
      trail := TickLocked(entered);
    }

    /** What a tick does from `entered` on. */
    ghost predicate TickFrom(entered: World, trail: TickTrail) reads this {
      && trail.found == entered && IsTick(deps, trail) && log == TickLog(trail) && Tolerated(TickState(trail), state)
      && ledger.browserOpened == Replay(entered.log).browserOpened && ledger.deleted == Replay(entered.log).deleted
      // the chain runs exactly when the credential is stale, and what it gave is what is held
      && (trail.run.Some? <==> entered.state.credential.Some? && !entered.state.credential.value.IsFresh(trail.at, HalfLife))
      && ledger.sought == Replay(entered.log).sought + (if trail.run.Some? then 1 else 0)
                          + (if trail.answer == Some(ExtendUnauthorized) then 1 else 0)
      && (trail.answer != Some(ExtendUnauthorized) ==>
            state.credential == if trail.run.Some? && RoundCredential(Round(trail.run.value, None)).Some?
                                then RoundCredential(Round(trail.run.value, None)) else entered.state.credential)
      // the key changes as the lifetime model says, and is extended exactly when it is due
      && (entered.state.key.Some? && Offered(trail) ==>
            && (trail.answer.Some? <==> 0 < entered.state.key.value.expiresAt - trail.at <= 30 * 60)
            && (trail.answer != Some(ExtendUnauthorized) ==>
                  state.key == Some(AfterTick(entered.state.key.value,
                                              Tick(trail.at, if trail.answer.Some? then trail.answer.value else ExtendFailed)))))
      // after a 401 only a key minted anew is left
      && (trail.answer == Some(ExtendUnauthorized) ==>
            trail.again.Some? && state.key == MintedAnew(entered.target.gatewayUrl, trail.again.value.answer, trail.at))
    }

    method TickLocked(ghost entered: World) returns (ghost trail: TickTrail)
      requires Settled() && entered == Here()
      modifies this`clock, this`state, this`disk, this`diskVersion, this`others, this`edits, this`log, this`ledger
      ensures Settled() && Onward() && DiskKept() && TickFrom(entered, trail) && entered.clock <= trail.at <= clock
    {
      hide Invariant, Replay, After, TargetOf, IsTick, TickLog, TickState;
      trail := TickTrail(entered, clock, None, None, None);
      InvariantReplays(target, state, log, ledger, holding, clock);
      HeldIsBound(target, state, log, ledger, holding, clock);
      KeyIsMinted(target, state, log, ledger, holding, clock);
      if target.mode.Idp? {
        Interfere();
        ghost var met := state;
        var now := clock;
        trail := trail.(at := now);
        if state.credential.None? {
          NothingHeld(deps, trail);
        } else {
          trail := Upkeep(now, entered);
        }
      } else {
        NothingHeld(deps, trail);
      }
      TickMeans(deps, trail);
    }

    /** Renews the credential if it is no longer fresh, then extends the key if it is due. */
    method Upkeep(now: int, ghost entered: World) returns (ghost trail: TickTrail)
      requires Inv() && target.mode.Idp? && state.credential.Some? && state.pendingSignInPage.None? && now == clock
      requires entered.target == target && entered.log == log && Tolerated(entered.state, state)
      modifies this`clock, this`state, this`disk, this`diskVersion, this`others, this`edits, this`log, this`ledger
      ensures Inv() && Onward() && DiskKept() && SameFlow(old(state), state, others == old(others))
      ensures trail.found == entered && trail.at == now && IsTick(deps, trail)
      ensures log == TickLog(trail) && Tolerated(TickState(trail), state)
      ensures ledger.browserOpened == old(ledger).browserOpened && ledger.deleted == old(ledger).deleted
      ensures ledger.sought == old(ledger).sought + (if trail.run.Some? then 1 else 0) + (if trail.again.Some? then 1 else 0)
    {
      hide Invariant, Replay, RunRenewal, RunLog, BearerOf, SameFlow, IsExtension, ExtensionLog, AfterUpkeep, IsTick, TickLog, TickState;
      trail := TickTrail(entered, now, None, None, None);
      HeldIsKnown(target, state, log, ledger, holding, clock);
      SameFlowSelf(state);
      var credential := state.credential.value;
      if !credential.IsFresh(now, HalfLife) {
        var renewed, run := SessionCredential(NonInteractive, now);
        trail := trail.(run := Some(run));
        BearerForms(run, now, renewed);
        RunUses(deps.auth(old(log)), deps.identity(old(log)), target, entered.state, old(state), NonInteractive, now);
        WatchedFrom(target, entered.state, old(state), state, old(log), log, run);
        match renewed {
          case Ok(SessionBearer(bearer)) => credential := bearer;
          case Ok(IdentityBearer(_, _)) =>
            TickEnds(deps, trail);
            return;
          case Err(_) =>
        }
      }
      ghost var met, asked, alone := state, log, others == old(others);
      HeldIsKnown(target, state, log, ledger, holding, clock);
      ghost var answer, again;
      answer, again := ExtendKey(credential, now);
      trail := trail.(answer := answer, again := again);
      SameFlowOn(old(state), met, state, alone, others == old(others));
      TickGoesOn(deps, trail, met, asked, log, state);
    }

    // -------------------------------------------------------- switching

    /** Since `entered`, the world in which a switch got `renewal`, it has left the config, the target,
        the key, the credential and the sticky refusal as they were, and asked for no deletion. */
    ghost predicate Restored(entered: World) reads this {
      && disk == entered.disk && InSync() && target == entered.target.(version := target.version)
      && state.key == entered.state.key && state.credential == entered.state.credential
      && state.mintRefusal == entered.state.mintRefusal
      && ledger.deleted == Replay(entered.log).deleted
    }

    /** It has written this config and follows it, and has deleted the old key last. */
    ghost predicate Arrived(entered: World, settings: RelaySettings) reads this {
      && disk == settings && InSync()
      && ledger.deleted == Replay(entered.log).deleted + Bag(KeyAt(entered.state.key))
      && (entered.state.key.Some? ==> DeletedLast(entered))
    }

    /** The deletion of the key held then, at its Gateway and under its credential, is the last event. */
    ghost predicate DeletedLast(entered: World) reads this {
      && entered.state.key.Some? && entered.state.credential.Some? && log != []
      && log[|log| - 1] == Delete(entered.target.gatewayUrl, entered.state.credential.value.accessToken, entered.state.key.value.token)
    }

    /** The IdP session outlives a switch, and the proxy token once it was handed out, unless the config
        change signs out. */
    ghost predicate SessionKept(entered: World, signsOut: bool) reads this {
      if signsOut then state.session.None?
      else (entered.state.session.Some? ==> state.session.Some?)
           && (entered.state.proxyToken.Some? ==> state.proxyToken == entered.state.proxyToken)
    }

    /** What no other thread has touched: the last source and the proxy token. */
    ghost predicate Untouched(entered: World, signsOut: bool) reads this {
      state.lastSource == entered.state.lastSource
      && state.proxyToken == if signsOut then None else entered.state.proxyToken
    }

    /** Applies what has been stored while the key slot is empty. */
    method ApplyWithoutKey()
      requires Inv() && state.key.None?
      modifies this
      ensures Inv() && Onward() && DiskKept() && holding == old(holding) && ledger == old(ledger) && log == old(log)
      ensures state.key.None? && (old(state).credential.None? ==> state.credential.None?)
      ensures state.pendingSignInPage == old(state).pendingSignInPage && state.explicitSignInRunning == old(state).explicitSignInRunning
      ensures Unedited() && old(Coherent()) ==>
        && InSync() && Tolerated(AfterSettings(old(state), disk, old(target), target), state)
        && (others == old(others) ==> state == AfterSettings(old(state), disk, old(target), target))
    {
      hide Invariant, Replay, After, TargetOf, Deletion, SignsOut;
      NoDeletion(target.gatewayUrl, state.credential);
      NotSignedOut(disk, target);
      var _ := ApplySavedSettings();
    }

    lemma NoDeletion(gatewayUrl: string, credential: Option<CachedCredential>)
      ensures Deletion(gatewayUrl, None, credential) == []
    {
    }

    /** Back on the gateway it was taken from, the hold is restored; anywhere else it is retired. */
    method GiveBack(before: Target, held: GatewayHold)
      requires Inv() && holding == KeyAt(held.key) && state.key.None? && KeyLasts(held.key, ledger)
      requires HoldFits(held, before.gatewayUrl, ledger, clock)
      requires held.credential.Some? ==> before.mode.Idp? && held.credential.value.team == before.team
      modifies this`clock, this`state, this`disk, this`diskVersion, this`others, this`edits, this`log, this`ledger, this`holding
      ensures Inv() && holding.None? && Onward() && DiskKept()
      ensures state.pendingSignInPage == old(state).pendingSignInPage && state.explicitSignInRunning == old(state).explicitSignInRunning
      ensures ledger.browserOpened == old(ledger).browserOpened
      ensures SameGateway(target, before) ==>
        state == Given(old(state), held) && ledger == old(ledger) && log == old(log)
        && others == old(others) && disk == old(disk) && diskVersion == old(diskVersion)
      ensures !SameGateway(target, before) ==>
        Tolerated(old(state), state) && log == old(log) + Deletion(before.gatewayUrl, held.key, held.credential)
    {
      hide Invariant, Replay, After;
      if SameGateway(target, before) {
        RestoreGatewayHold(held);
      } else {
        Retire(before.gatewayUrl, held);
      }
    }

    method RollBack(settings: RelaySettings, previous: GatewayPatch, before: Target, held: GatewayHold)
      requires Inv() && holding == KeyAt(held.key) && state.key.None? && KeyLasts(held.key, ledger)
      requires HoldFits(held, before.gatewayUrl, ledger, clock)
      requires held.credential.Some? ==> before.mode.Idp? && held.credential.value.team == before.team
      modifies this
      ensures Inv() && holding.None? && Onward()
      ensures state.pendingSignInPage == old(state).pendingSignInPage && state.explicitSignInRunning == old(state).explicitSignInRunning
      ensures ledger.browserOpened == old(ledger).browserOpened
      // in every interleaving the hold is given back, or else its key is deleted at its own gateway
      ensures if SameGateway(target, before)
              then state.key == held.key && state.credential == held.credential && state.mintRefusal == held.mintRefusal
                   && state.lastSource == held.lastSource && log == old(log)
              else state.key.None? && log == old(log) + Deletion(before.gatewayUrl, held.key, held.credential)
      ensures var restored := previous.AppliedTo(old(disk));
        Unedited() && old(InSync()) && SameGateway(TargetOf(restored, None), before) ==>
          && disk == restored && InSync() && ledger == old(ledger) && SameGateway(target, before)
          && Tolerated(Given(AfterSettings(old(state), restored, old(target), target), held), state)
          && (others == old(others) ==> state == Given(AfterSettings(old(state), restored, old(target), target), held))
    {
      hide Invariant, Replay, After, TargetOf, GatewayPatch.AppliedTo, HoldFits, AfterSettings, Deletion;
      var loaded := Load();
      var restored := previous.AppliedTo(if loaded.Some? then loaded.value else settings);
      var _ := Store(restored);
      ghost var met := state;
      ApplyWithoutKey();
      AfterSettingsTolerates(old(state), met, restored, old(target), target);
      VersionsDoNotMatter(restored, Some(diskVersion));
      LaterHoldFits(held, before.gatewayUrl, old(ledger), ledger, old(clock), clock);
      GiveBack(before, held);
    }

    /** Writes the new config, takes the hold and issues for the new target, all under `renewal`.
        No answer means the config could not be written and nothing else happened. */
    method Attempt(written: RelaySettings) returns (answer: Option<Reply>, before: Target, held: GatewayHold, ghost trail: IssueTrail)
      requires Settled()
      modifies this
      ensures Inv() && state.pendingSignInPage.None? && !state.explicitSignInRunning && Onward()
      ensures ledger.browserOpened == old(ledger).browserOpened && ledger.deleted == old(ledger).deleted
      ensures answer.None? ==> holding.None? && !Unedited() && state.key == old(state).key
      ensures answer.Some? ==>
        && before == old(target) && holding == KeyAt(held.key) && HoldFits(held, before.gatewayUrl, ledger, clock)
        && (held.credential.Some? ==> before.mode.Idp? && held.credential.value.team == before.team)
        && held.key == old(state).key && held.credential == old(state).credential && held.mintRefusal == old(state).mintRefusal
        && (answer.value.Credential? ==> Sound(answer.value.issued))
        && (answer.value.Credential? || (answer.value.Refused? && state.key.None? && KeyLasts(held.key, ledger)))
      // the answer is that of an issue in silence for the target it has come to
      ensures answer.Some? ==>
        && Explains(deps, NonInteractive, trail, answer.value)
        && trail.found.target == target && trail.found.log == old(log) && log == TrailLog(trail)
      ensures answer.Some? && Unedited() && old(InSync()) ==>
        && disk == written && InSync()
        && IssuedFor(old(Here()), written, trail)
        && var left := AfterSettings(Forgotten(old(state)), written, old(target), target);
           && (left.session.Some? ==> state.session.Some?)
           && (left.proxyToken.Some? ==> state.proxyToken == left.proxyToken)
           && (left.session.None? && target.mode.Idp? ==> answer.value.Refused? && state.session.None?)
           && (others == old(others) ==> held.lastSource == old(state).lastSource && state.proxyToken == left.proxyToken)
    {
      hide Invariant, Replay, After, TargetOf, AfterSettings, Explains, TrailLog, TrailState, SameSlots, HoldFits, Sound;
      answer, before := None, target;
      trail := IssueTrail(Here(), clock, None, clock, None);
      held := GatewayHold(None, None, None, None);
      var stored := Store(written);
      if !stored {
        return;
      }
      HeldIsBound(target, state, log, ledger, holding, clock);
      held := TakeGatewayHold();
      ghost var earlier, at, met := ledger, clock, state;
      ApplyWithoutKey();
      AfterSettingsTolerates(Forgotten(old(state)), met, written, before, target);
      TargetVersion(written, Some(diskVersion));
      var reply, issue := IssueUnderRenewalLock(NonInteractive);
      trail := issue;
      LaterHoldFits(held, before.gatewayUrl, earlier, ledger, at, clock);
      answer := Some(reply);
    }

    /** A switch that got its credential retires the old key; one that did not rolls back. */
    method Conclude(answer: Reply, settings: RelaySettings, previous: GatewayPatch, before: Target, held: GatewayHold)
      returns (reply: Reply)
      requires Inv() && holding == KeyAt(held.key) && HoldFits(held, before.gatewayUrl, ledger, clock)
      requires held.credential.Some? ==> before.mode.Idp? && held.credential.value.team == before.team
      requires answer.Credential? || (answer.Refused? && state.key.None? && KeyLasts(held.key, ledger))
      requires answer.Credential? ==> Sound(answer.issued)
      modifies this
      ensures Inv() && holding.None? && Onward()
      ensures state.pendingSignInPage == old(state).pendingSignInPage && state.explicitSignInRunning == old(state).explicitSignInRunning
      ensures ledger.browserOpened == old(ledger).browserOpened
      ensures reply == if answer.Credential? then SwitchDone else Refused(SwitchRefusal(answer.refusal))
      ensures reply.Refused? ==>
        if SameGateway(target, before) then state.key == held.key
        else state.key.None? && log == old(log) + Deletion(before.gatewayUrl, held.key, held.credential)
      ensures reply.SwitchDone? ==>
        && log == old(log) + Deletion(before.gatewayUrl, held.key, held.credential)
        && ledger.deleted == old(ledger).deleted + Bag(KeyAt(held.key))
        && Sound(answer.issued) && target == old(target) && DiskKept() && Tolerated(old(state), state)
      ensures var restored := previous.AppliedTo(old(disk));
        reply.Refused? && Unedited() && old(InSync()) && SameGateway(TargetOf(restored, None), before) ==>
          && disk == restored && InSync() && ledger == old(ledger) && SameGateway(target, before)
          && Tolerated(Given(AfterSettings(old(state), restored, old(target), target), held), state)
          && (others == old(others) ==> state == Given(AfterSettings(old(state), restored, old(target), target), held))
      ensures reply.Refused? && SameGateway(target, before) ==>
        state.credential == held.credential && state.mintRefusal == held.mintRefusal && state.lastSource == held.lastSource
    {
      hide Invariant, Replay, After, TargetOf, AfterSettings, GatewayPatch.AppliedTo, HoldFits, Deletion, SameGateway;
      if answer.Refused? {
        RollBack(settings, previous, before, held);
        reply := Refused(SwitchRefusal(answer.refusal));
      } else {
        Retire(before.gatewayUrl, held);
        reply := SwitchDone;
      }
    }

    /** `entered` is the world when it got `renewal`, `issued` the bearer a completed switch was issued.
        In every interleaving: nothing but somebody else's write of the config, or a config source that
        fails, keeps a refused switch from being a no-op. */
    method ApplySwitch(settings: RelaySettings, next: GatewayPatch, previous: GatewayPatch)
      returns (reply: Reply, ghost entered: World, ghost answer: Option<Reply>, ghost trail: IssueTrail)
      requires Inv()
      requires previous.AppliedTo(next.AppliedTo(settings)) == settings
      modifies this
      ensures Settled() && Onward() && (reply.SwitchDone? || reply.Refused?)
      ensures ledger.browserOpened == Replay(entered.log).browserOpened
      // the old key is held again, or its deletion is the last event
      ensures entered.state.key.Some? && state.key != entered.state.key ==> DeletedLast(entered)
      // an issue for the new target decides
      ensures Concludes(deps, trail, answer, reply)
      ensures reply.SwitchDone? ==> Sound(answer.value.issued)
      ensures Unedited() && old(InSync()) && old(disk) == settings && old(target).mode.Idp? ==>
        && entered.target == old(target) && entered.disk == settings && entered.diskVersion == old(diskVersion)
        && InSync() && disk == (if reply.SwitchDone? then next.AppliedTo(settings) else settings)
        && answer.Some? && IssuedFor(entered, next.AppliedTo(settings), trail)
        && var signsOut := SignsOut(settings, old(target), TargetOf(next.AppliedTo(settings), None));
           && (reply.Refused? ==> Restored(entered) && SessionKept(entered, signsOut))
           && (reply.SwitchDone? ==> !signsOut && Arrived(entered, next.AppliedTo(settings)))
           && (others == old(others) && reply.Refused? ==> Untouched(entered, signsOut))
      ensures others == old(others) ==> entered.state == old(state) && entered.log == old(log)
    {
      hide Invariant, Replay, After, TargetOf, GatewayPatch.AppliedTo, SignsOut, IssuedFor, Concludes;
      AcquireRenewal();
      entered := Here();
      InvariantReplays(target, state, log, ledger, holding, clock);
      reply, answer, trail := SwitchLocked(settings, next, previous, entered);
    }

    method SwitchLocked(settings: RelaySettings, next: GatewayPatch, previous: GatewayPatch, ghost entered: World)
      returns (reply: Reply, ghost answer: Option<Reply>, ghost trail: IssueTrail)
      requires Settled() && entered == Here()
      requires previous.AppliedTo(next.AppliedTo(settings)) == settings
      modifies this
      ensures Settled() && Onward() && (reply.SwitchDone? || reply.Refused?)
      ensures ledger.browserOpened == old(ledger).browserOpened
      ensures entered.state.key.Some? && state.key != entered.state.key ==> DeletedLast(entered)
      // an issue for the new target decides
      ensures Concludes(deps, trail, answer, reply)
      ensures reply.SwitchDone? ==> Sound(answer.value.issued)
      ensures Unedited() && old(InSync()) && old(disk) == settings && old(target).mode.Idp? ==>
        && InSync() && disk == (if reply.SwitchDone? then next.AppliedTo(settings) else settings)
        && answer.Some? && IssuedFor(entered, next.AppliedTo(settings), trail)
        && var signsOut := SignsOut(settings, old(target), TargetOf(next.AppliedTo(settings), None));
           && (reply.Refused? ==> Restored(entered) && SessionKept(entered, signsOut))
           && (reply.SwitchDone? ==> !signsOut && Arrived(entered, next.AppliedTo(settings)))
           && (others == old(others) && reply.Refused? ==> Untouched(entered, signsOut))
    {
      hide Invariant, Replay, After, TargetOf, AfterSettings, GatewayPatch.AppliedTo, HoldFits, SignsOut, Sound, Explains, IssuedFor, TrailLog;
      HeldIsKnown(target, state, log, ledger, holding, clock);
      InvariantReplays(target, state, log, ledger, holding, clock);
      var got, before, held, issue := Attempt(next.AppliedTo(settings));
      answer, trail := got, issue;
      if got.None? {
        reply := Refused(SwitchFailed);
        return;
      }
      ghost var there, left, version := target, state, diskVersion;
      VersionsDoNotMatter(settings, Some(entered.diskVersion));
      reply := Conclude(got.value, settings, previous, before, held);
      if Unedited() && old(InSync()) && old(disk) == settings && before.mode.Idp? {
        PatchKeeps(settings, next);
        if reply.Refused? {
          ThereAndBackAgain(settings, next.AppliedTo(settings), before, there, target,
                            Some(entered.diskVersion), Some(version), Some(diskVersion), entered.state, left);
        } else {
          SigningOutLeavesNothing(settings, next.AppliedTo(settings), before, there,
                                  Some(entered.diskVersion), Some(version), entered.state);
        }
      }
    }

    /** The config a switch starts from, or why there is nothing to switch. */
    method SwitchableSettings() returns (settings: Result<RelaySettings, Refusal>)
      requires Inv()
      modifies this
      ensures Inv() && Onward() && DiskKept() && TargetKept()
      ensures Unedited() && old(InSync()) ==>
        settings == match old(target).mode
                    case Idp(_) => Ok(old(disk))
                    case Static(_) => Err(StaticKeyServed)
                    case Unconfigured(_) => Err(GatewayError)
      ensures Quiet() ==>
        target == old(target) && state == old(state) && log == old(log) && ledger == old(ledger) && holding == old(holding)
    {
      hide Invariant, Replay, TargetOf;
      Overtaken();
      match target.mode {
        case Idp(_) =>
          Overtaken();
          var loaded := Load();
          settings := if loaded.Some? then Ok(loaded.value) else Err(GatewayError);
        case Static(_) => settings := Err(StaticKeyServed);
        case Unconfigured(_) => settings := Err(GatewayError);
      }
    }

    /** Already there: the switch only makes sure that a credential can be issued. */
    method SwitchedInPlace() returns (reply: Reply, ghost answer: Reply, ghost trail: IssueTrail)
      requires Inv()
      modifies this
      ensures Concludes(deps, trail, Some(answer), reply)
      ensures Unedited() && old(InSync()) ==> trail.found.target == old(target)
      ensures Inv() && Onward() && DiskKept() && TargetKept() && (reply.SwitchDone? || reply.Refused?)
      ensures Quiet() && old(Settled()) ==>
        Settled() && target == old(target) && ledger.browserOpened == old(ledger).browserOpened
    {
      hide Invariant, Replay, TargetOf, Explains, TrailLog;
      Overtaken();
      var issued, issue := Issue(target, NonInteractive);
      answer, trail := issued, issue;
      reply := if issued.Refused? then Refused(SwitchRefusal(issued.refusal)) else SwitchDone;
    }

    /** Without an IdP nothing is switched. */
    twostate predicate NotSwitched(new reply: Reply, new entered: Option<World>) reads this {
      && entered.None? && disk == old(disk) && diskVersion == old(diskVersion)
      && reply == Refused(if ModeOf(old(disk)).Static? then StaticKeyServed else GatewayError)
    }

    /** What a switch that had to write the config comes to: with no answer a no-op, else done. */
    ghost predicate Switching(reply: Reply, entered: World, written: RelaySettings, signsOut: bool) reads this {
      && WorksForDisk(entered)
      && (reply.Refused? ==> Restored(entered) && SessionKept(entered, signsOut))
      && (reply.SwitchDone? ==> !signsOut && Arrived(entered, written))
    }

    /** Switching the team: already picked, it issues in place; otherwise the pick is written, and a
        refusal is a no-op. A team switch never ends the IdP session. `entered` is the world when it got
        `renewal`, if it had to write the config. */
    method SwitchTeam(team: string) returns (reply: Reply, ghost entered: Option<World>, ghost answer: Option<Reply>, ghost trail: IssueTrail)
      requires Inv()
      modifies this
      ensures Inv() && Onward() && (reply.SwitchDone? || reply.Refused?)
      // whatever other threads do meanwhile
      ensures Unedited() && old(Coherent()) ==>
        && InSync()
        && (!ModeOf(old(disk)).Idp? ==> NotSwitched(reply, entered))
        && (ModeOf(old(disk)).Idp? ==>
              && disk == (if reply.SwitchDone? then Switched(old(disk), ToTeam(team)) else old(disk))
              && (entered.None? <==> old(disk).ManagedTeam() == Some(team))
              && answer.Some? && Concludes(deps, trail, answer, reply)
              && (entered.None? ==> trail.found.target == TargetOf(old(disk), Some(old(diskVersion))))
              && (entered.Some? ==>
                    && entered.value.disk == old(disk)
                    && IssuedFor(entered.value, Team(Some(team)).AppliedTo(old(disk)), trail)
                    && Switching(reply, entered.value, Team(Some(team)).AppliedTo(old(disk)), false)))
      // and when they do nothing
      ensures Quiet() && old(Settled() && InSync()) ==>
        && Settled() && (!ModeOf(old(disk)).Idp? ==> Unchanged())
        && (entered.Some? ==> entered.value.state == old(state) && entered.value.log == old(log)
                              && (reply.Refused? ==> Untouched(entered.value, false)))
    {
      hide Invariant, Replay, TargetOf, GatewayPatch.AppliedTo, RelaySettings.ManagedTeam, ModeOf, Restored, Arrived, SessionKept, Untouched;
      hide IssuedFor, Concludes;
      entered, answer, trail := None, None, IssueTrail(Here(), clock, None, clock, None);
      TargetFacts(disk, Some(diskVersion));
      Refresh();
      var settings := SwitchableSettings();
      if settings.Err? {
        reply := Refused(settings.error);
        return;
      }
      if settings.value.ManagedTeam() == Some(team) {
        ghost var issued;
        reply, issued, trail := SwitchedInPlace();
        answer := Some(issued);
        return;
      }
      TeamPatchRestores(settings.value, Some(team));
      ghost var world;
      reply, world, answer, trail := ApplySwitch(settings.value, Team(Some(team)), Team(settings.value.gateway.team));
      entered := Some(world);
    }

    /** Switching the environment. A refusal is a no-op, except that a switch which signs out ends
        the IdP session, and such a switch is always refused. */
    method SwitchEnvironment(name: string) returns (reply: Reply, ghost entered: Option<World>, ghost answer: Option<Reply>, ghost trail: IssueTrail)
      requires Inv()
      modifies this
      ensures Inv() && Onward() && (reply.SwitchDone? || reply.Refused?)
      // whatever other threads do meanwhile
      ensures Unedited() && old(Coherent()) ==>
        && InSync()
        && (!ModeOf(old(disk)).Idp? ==> NotSwitched(reply, entered))
        && (ModeOf(old(disk)).Idp? ==>
              && disk == (if reply.SwitchDone? then Switched(old(disk), ToEnvironment(name)) else old(disk))
              && match old(disk).EnvironmentNamed(name)
                 case None => reply == Refused(UnknownEnvironment) && entered.None?
                 case Some(entry) =>
                   && (entered.None? <==> old(disk).CurrentName() == Some(entry.name))
                   && answer.Some? && Concludes(deps, trail, answer, reply)
                   && (entered.None? ==> trail.found.target == TargetOf(old(disk), Some(old(diskVersion))))
                   && (entered.Some? ==>
                         && entered.value.disk == old(disk)
                         && IssuedFor(entered.value, EnvironmentPatch(old(disk), entry).AppliedTo(old(disk)), trail)
                         && var written := EnvironmentPatch(old(disk), entry).AppliedTo(old(disk));
                            Switching(reply, entered.value, written, SignsOut(old(disk), TargetOf(old(disk), Some(old(diskVersion))), TargetOf(written, None)))))
      // and when they do nothing
      ensures Quiet() && old(Settled() && InSync()) ==>
        && Settled() && (!ModeOf(old(disk)).Idp? ==> Unchanged())
        && (entered.Some? ==> entered.value.state == old(state) && entered.value.log == old(log)
                              && (reply.Refused? ==> state.lastSource == old(state).lastSource))
    {
      hide Invariant, Replay, TargetOf, GatewayPatch.AppliedTo, RelaySettings.CurrentName, SignsOut, EnvironmentPatch, ModeOf;
      hide Switched, RelaySettings.EnvironmentNamed, Restored, Arrived, SessionKept, IssuedFor, Concludes;
      entered, answer, trail := None, None, IssueTrail(Here(), clock, None, clock, None);
      TargetFacts(disk, Some(diskVersion));
      SwitchedToAnEntry(disk, name);
      Refresh();
      var settings := SwitchableSettings();
      if settings.Err? {
        reply := Refused(settings.error);
        return;
      }
      var entry := settings.value.EnvironmentNamed(name);
      if entry.None? {
        reply := Refused(UnknownEnvironment);
        return;
      }
      if settings.value.CurrentName() == Some(entry.value.name) {
        ghost var issued;
        reply, issued, trail := SwitchedInPlace();
        answer := Some(issued);
        return;
      }
      EnvironmentPatchRestores(settings.value, entry.value);
      ghost var world;
      reply, world, answer, trail := ApplySwitch(settings.value, EnvironmentPatch(settings.value, entry.value), RestoringPatch(settings.value));
      entered := Some(world);
    }
  }
}
