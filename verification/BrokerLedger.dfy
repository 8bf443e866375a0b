/** The log of what the broker does to the outside world, and what a whole run may be asked about:
    what became of every minted key, and where every bearer was sent. */
module BrokerLedger {
  import opened KeyLifetime
  import opened Wrappers

  /** A token, of a key or of a session credential, at the gateway that handed it out. */
  datatype At = At(gateway: string, token: string)

  datatype MintAnswer =
    | Minted(token: string, expiresAt: Option<int>)
    | TeamPermission(message: string)
    | Unauthorized(message: string)
    | OtherRefusal(message: string)
    | MintFailed(message: string)

  /** `CredentialSought` is one run of the renewal chain. `BrowserOpened` notes whether others could see
      the page, and that a sign-in was running, when it opened. An abandoned key is named with the
      credential under which it was held. */
  datatype Event =
    | Granted(credential: At)
    | BrowserOpened(published: bool, explicit: bool)
    | InteractiveIssue
    | CredentialSought(gatewayUrl: string, teamSought: Option<string>)
    | Mint(gateway: string, bearer: string, team: string, answer: MintAnswer, now: int)
    | Extend(gateway: string, bearer: string, key: string, extension: ExtendAnswer, now: int)
    | Delete(gateway: string, bearer: string, key: string)
    | MarkedDead(credential: At)
    | Abandoned(lost: At, under: At)
    | Lapsed(lost: At, now: int)

  /** `reissued` are the access tokens a gateway granted more than once; `expiry` is when each key
      expires, by the last answer that said so; `sought`, `unauthorized` and `deaths` count renewals,
      answers 401 and credentials marked dead; `latest` is the latest time an event carries; `sound`
      records that every event so far was permitted when it happened. */
  datatype Ledger = Ledger(
    granted: set<At>,
    reissued: set<At>,
    dead: set<At>,
    minted: multiset<At>,
    expiry: map<At, int>,
    deleted: multiset<At>,
    abandoned: multiset<At>,
    lapsed: multiset<At>,
    browserOpened: nat,
    interactiveIssues: nat,
    sought: nat,
    unauthorized: nat,
    deaths: nat,
    latest: Option<int>,
    last: Option<Event>,
    sound: bool)

  const NOTHING_HAPPENED := Ledger({}, {}, {}, multiset{}, map[], multiset{}, multiset{}, multiset{}, 0, 0, 0, 0, 0, None, None, true)

  /** The bearer an event sends, with the gateway it is sent to. */
  function Sends(event: Event): Option<At> {
    match event
    case Mint(gateway, bearer, _, _, _) => Some(At(gateway, bearer))
    case Extend(gateway, bearer, _, _, _) => Some(At(gateway, bearer))
    case Delete(gateway, bearer, _) => Some(At(gateway, bearer))
    case _ => None
  }

  /** The key an event names, with the gateway it is named to. */
  function Names(event: Event): Option<At> {
    match event
    case Extend(gateway, _, key, _, _) => Some(At(gateway, key))
    case Delete(gateway, _, key) => Some(At(gateway, key))
    case _ => None
  }

  /** The bearer an event reports as answered 401, at the gateway that answered. */
  function RefusedBearer(event: Event): Option<At> {
    match event
    case Mint(gateway, bearer, _, Unauthorized(_), _) => Some(At(gateway, bearer))
    case Extend(gateway, bearer, _, ExtendUnauthorized, _) => Some(At(gateway, bearer))
    case _ => None
  }

  /** The key whose expiry an answer states, and the expiry. */
  function Until(event: Event): Option<(At, int)> {
    match event
    case Mint(gateway, _, _, Minted(token, expiresAt), now) => Some((At(gateway, token), GrantedUntil(expiresAt, now)))
    case Extend(gateway, _, key, Extended(expiresAt), now) => Some((At(gateway, key), GrantedUntil(expiresAt, now)))
    case _ => None
  }

  function TimeOf(event: Event): Option<int> {
    if event.Mint? || event.Extend? || event.Lapsed? then Some(event.now) else None
  }

  function Later(latest: Option<int>, now: Option<int>): Option<int> {
    if now.None? || (latest.Some? && now.value <= latest.value) then latest else now
  }

  /** A bearer that was marked dead may be sent only if its gateway granted it twice. */
  predicate MaySend(ledger: Ledger, credential: At) {
    credential in ledger.granted && (credential in ledger.dead ==> credential in ledger.reissued)
  }

  /** The last event was a 401 for this bearer. */
  predicate JustRefused(ledger: Ledger, credential: At) {
    ledger.last.Some? && RefusedBearer(ledger.last.value) == Some(credential)
  }

  /** A bearer goes only to the gateway that granted it and, once marked dead, only if that gateway
      granted it twice; a key is named only to the gateway that minted it. A credential is marked dead
      only upon a 401 for it, a key abandoned only with the credential at its gateway that was marked
      dead just before, and a key lapses only past the expiry its gateway last stated. */
  predicate Permitted(ledger: Ledger, event: Event) {
    && (Sends(event).Some? ==> MaySend(ledger, Sends(event).value))
    && (Names(event).Some? ==> Names(event).value in ledger.minted)
    && (event.MarkedDead? ==> JustRefused(ledger, event.credential))
    && (event.Abandoned? ==> ledger.last == Some(MarkedDead(event.under)) && event.under.gateway == event.lost.gateway)
    && (event.Lapsed? ==> event.lost in ledger.expiry && ledger.expiry[event.lost] <= event.now)
  }

  function After(ledger: Ledger, event: Event): Ledger {
    Ledger(
      granted := if event.Granted? then ledger.granted + {event.credential} else ledger.granted,
      reissued := if event.Granted? && event.credential in ledger.granted then ledger.reissued + {event.credential} else ledger.reissued,
      dead := if event.MarkedDead? then ledger.dead + {event.credential} else ledger.dead,
      minted := if event.Mint? && event.answer.Minted? then ledger.minted + multiset{At(event.gateway, event.answer.token)} else ledger.minted,
      expiry := if Until(event).Some? then ledger.expiry[Until(event).value.0 := Until(event).value.1] else ledger.expiry,
      deleted := if event.Delete? then ledger.deleted + multiset{At(event.gateway, event.key)} else ledger.deleted,
      abandoned := if event.Abandoned? then ledger.abandoned + multiset{event.lost} else ledger.abandoned,
      lapsed := if event.Lapsed? then ledger.lapsed + multiset{event.lost} else ledger.lapsed,
      browserOpened := ledger.browserOpened + (if event.BrowserOpened? then 1 else 0),
      interactiveIssues := ledger.interactiveIssues + (if event.InteractiveIssue? then 1 else 0),
      sought := ledger.sought + (if event.CredentialSought? then 1 else 0),
      unauthorized := ledger.unauthorized + (if RefusedBearer(event).Some? then 1 else 0),
      deaths := ledger.deaths + (if event.MarkedDead? then 1 else 0),
      latest := Later(ledger.latest, TimeOf(event)),
      last := Some(event),
      sound := ledger.sound && Permitted(ledger, event))
  }

  function Replay(log: seq<Event>): Ledger {
    if log == [] then NOTHING_HAPPENED else After(Replay(log[..|log| - 1]), log[|log| - 1])
  }

  lemma ReplayOne(log: seq<Event>, event: Event)
    ensures Replay(log + [event]) == After(Replay(log), event)
  {
    assert (log + [event])[..|log|] == log;
  }

  predicate Grown(a: Ledger, b: Ledger) {
    && a.granted <= b.granted && a.reissued <= b.reissued && a.dead <= b.dead && a.minted <= b.minted && a.deleted <= b.deleted
    && (b.sound ==> a.sound) && a.interactiveIssues <= b.interactiveIssues
  }

  lemma OneEventGrows(ledger: Ledger, event: Event)
    ensures Grown(ledger, After(ledger, event)) && (After(ledger, event).sound ==> Permitted(ledger, event))
  {
    hide Permitted, Until, RefusedBearer, TimeOf, Later;
  }

  lemma GrowingOn(a: Ledger, b: Ledger, c: Ledger)
    requires Grown(a, b) && Grown(b, c)
    ensures Grown(a, c)
  {
  }

  lemma NothingGrows(a: Ledger)
    ensures Grown(a, a)
  {
  }

  lemma ReplayLast(log: seq<Event>)
    requires log != []
    ensures Replay(log) == After(Replay(log[..|log| - 1]), log[|log| - 1])
  {
    hide After;
  }

  /** What a ledger knows is never forgotten later in the run. */
  lemma {:induction false} LedgerGrows(log: seq<Event>, n: nat)
    requires n <= |log|
    ensures Grown(Replay(log[..n]), Replay(log))
  {
    hide Grown, Replay, After, Permitted;
    if n == |log| {
      assert log[..n] == log;
      NothingGrows(Replay(log));
    } else {
      var shorter := log[..|log| - 1];
      assert shorter[..n] == log[..n];
      LedgerGrows(shorter, n);
      OneEventGrows(Replay(shorter), log[|log| - 1]);
      ReplayLast(log);
      GrowingOn(Replay(log[..n]), Replay(shorter), Replay(log));
    }
  }

  lemma GrownSound(a: Ledger, b: Ledger)
    requires Grown(a, b)
    ensures b.sound ==> a.sound
  {
  }

  lemma EveryEventWasPermitted(log: seq<Event>, i: nat)
    requires i < |log| && Replay(log).sound
    ensures Permitted(Replay(log[..i]), log[i])
  {
    hide Grown, Replay, After, Permitted;
    LedgerGrows(log, i + 1);
    GrownSound(Replay(log[..i + 1]), Replay(log));
    ReplayLast(log[..i + 1]);
    assert log[..i + 1][..i] == log[..i];
    OneEventGrows(Replay(log[..i]), log[i]);
  }

  lemma DeadFromNowOn(a: Ledger, credential: At, b: Ledger)
    requires Grown(After(a, MarkedDead(credential)), b)
    ensures credential in b.dead
  {
    hide Permitted, Until, RefusedBearer, TimeOf, Later;
  }

  lemma PermittedSends(ledger: Ledger, event: Event)
    requires Permitted(ledger, event) && Sends(event).Some?
    ensures MaySend(ledger, Sends(event).value)
  {
  }

  /** Over a whole run: once a credential was marked dead, no mint, extension or deletion carries its
      access token to that gateway again, unless the gateway has granted that very token twice. */
  lemma DeadCredentialsAreNeverSent(log: seq<Event>, i: nat, j: nat)
    requires i < j < |log| && Replay(log).sound
    requires log[i].MarkedDead? && Sends(log[j]) == Some(log[i].credential)
    ensures GrantedTwice(log[..j], log[i].credential)
  {
    hide Grown, Replay, After, Permitted, GrantedTwice;
    EveryEventWasPermitted(log, j);
    PermittedSends(Replay(log[..j]), log[j]);
    LedgerGrows(log[..j], i + 1);
    assert log[..j][..i + 1] == log[..i] + [log[i]];
    ReplayOne(log[..i], log[i]);
    DeadFromNowOn(Replay(log[..i]), log[i].credential, Replay(log[..j]));
    ReissuedIsGrantedTwice(log[..j], log[i].credential);
  }

  predicate GrantedTwice(log: seq<Event>, credential: At) {
    exists a, b :: 0 <= a < b < |log| && log[a] == Granted(credential) && log[b] == Granted(credential)
  }

  lemma OnlyGrantsReissue(ledger: Ledger, event: Event, credential: At)
    ensures credential in After(ledger, event).reissued ==>
      credential in ledger.reissued || (event == Granted(credential) && credential in ledger.granted)
  {
    hide Permitted, Until, RefusedBearer, TimeOf, Later;
  }

  lemma {:induction false} ReissuedIsGrantedTwice(log: seq<Event>, credential: At)
    requires credential in Replay(log).reissued
    ensures GrantedTwice(log, credential)
  {
    hide After;
    var shorter, event := log[..|log| - 1], log[|log| - 1];
    OnlyGrantsReissue(Replay(shorter), event, credential);
    if credential in Replay(shorter).reissued {
      ReissuedIsGrantedTwice(shorter, credential);
      var a, b :| 0 <= a < b < |shorter| && shorter[a] == Granted(credential) && shorter[b] == Granted(credential);
      assert log[a] == Granted(credential) && log[b] == Granted(credential);
    } else {
      GrantedEarlier(shorter, credential);
      var a :| 0 <= a < |shorter| && shorter[a] == Granted(credential);
      assert log[a] == Granted(credential) && log[|log| - 1] == Granted(credential);
    }
  }

  /** Over a whole run: a key is abandoned only right after the credential it was held under was marked
      dead, and that only right after a 401 for it from the key's own gateway. */
  lemma EveryAbandonmentFollowsA401(log: seq<Event>, j: nat)
    requires j < |log| && Replay(log).sound && log[j].Abandoned?
    ensures 2 <= j && log[j - 1] == MarkedDead(log[j].under) && RefusedBearer(log[j - 2]) == Some(log[j].under)
    ensures log[j].under.gateway == log[j].lost.gateway
  {
    EveryEventWasPermitted(log, j);
    LastIsLast(log[..j]);
    EveryDeathFollowsA401(log, j - 1);
  }

  /** Over a whole run: a credential is marked dead only right after a 401 for it. */
  lemma EveryDeathFollowsA401(log: seq<Event>, j: nat)
    requires j < |log| && Replay(log).sound && log[j].MarkedDead?
    ensures 1 <= j && RefusedBearer(log[j - 1]) == Some(log[j].credential)
  {
    EveryEventWasPermitted(log, j);
    LastIsLast(log[..j]);
  }

  lemma LastIsLast(log: seq<Event>)
    ensures Replay(log).last == if log == [] then None else Some(log[|log| - 1])
  {
    hide Permitted, Until, RefusedBearer, TimeOf, Later;
  }

  /** The last answer that stated an expiry for the key stated this one. */
  predicate StatedLast(log: seq<Event>, i: nat, key: At, expiresAt: int) {
    && i < |log| && Until(log[i]) == Some((key, expiresAt))
    && forall m :: i < m < |log| && Until(log[m]).Some? ==> Until(log[m]).value.0 != key
  }

  lemma OnlyAnswersSetExpiry(ledger: Ledger, event: Event)
    ensures After(ledger, event).expiry ==
      if Until(event).Some? then ledger.expiry[Until(event).value.0 := Until(event).value.1] else ledger.expiry
  {
    hide Permitted, Until, RefusedBearer, TimeOf, Later;
  }

  lemma {:induction false} ExpiryWasStated(log: seq<Event>, key: At)
    requires key in Replay(log).expiry
    ensures exists i :: StatedLast(log, i, key, Replay(log).expiry[key])
  {
    hide After, Until;
    var shorter, event := log[..|log| - 1], log[|log| - 1];
    OnlyAnswersSetExpiry(Replay(shorter), event);
    if Until(event).Some? && Until(event).value.0 == key {
      assert StatedLast(log, |log| - 1, key, Replay(log).expiry[key]);
    } else {
      ExpiryWasStated(shorter, key);
      var i :| StatedLast(shorter, i, key, Replay(shorter).expiry[key]);
      assert StatedLast(log, i, key, Replay(log).expiry[key]);
    }
  }

  /** Over a whole run: a key counts as lapsed only past the expiry its gateway stated last. */
  lemma EveryLapseIsPastExpiry(log: seq<Event>, j: nat)
    requires j < |log| && Replay(log).sound && log[j].Lapsed?
    ensures exists i, expiresAt :: StatedLast(log[..j], i, log[j].lost, expiresAt) && expiresAt <= log[j].now
  {
    EveryEventWasPermitted(log, j);
    ExpiryWasStated(log[..j], log[j].lost);
  }

  lemma OnlyGrantsGrant(ledger: Ledger, event: Event, credential: At)
    requires event != Granted(credential)
    ensures credential in After(ledger, event).granted ==> credential in ledger.granted
  {
    hide Permitted, Until, RefusedBearer, TimeOf, Later;
  }

  lemma {:induction false} GrantedEarlier(log: seq<Event>, credential: At)
    requires credential in Replay(log).granted
    ensures exists i :: 0 <= i < |log| && log[i] == Granted(credential)
  {
    hide After;
    var shorter := log[..|log| - 1];
    if log[|log| - 1] != Granted(credential) {
      OnlyGrantsGrant(Replay(shorter), log[|log| - 1], credential);
      GrantedEarlier(shorter, credential);
      var i :| 0 <= i < |shorter| && shorter[i] == Granted(credential);
      assert log[i] == Granted(credential);
    }
  }

  predicate Mints(event: Event, key: At) {
    event.Mint? && event.gateway == key.gateway && event.answer.Minted? && event.answer.token == key.token
  }

  lemma OnlyMintsMint(ledger: Ledger, event: Event, key: At)
    requires !Mints(event, key)
    ensures After(ledger, event).minted[key] == ledger.minted[key]
  {
    hide Permitted, Until, RefusedBearer, TimeOf, Later;
  }

  lemma {:induction false} MintedEarlier(log: seq<Event>, key: At)
    requires key in Replay(log).minted
    ensures exists i :: 0 <= i < |log| && Mints(log[i], key)
  {
    hide After;
    var shorter := log[..|log| - 1];
    if !Mints(log[|log| - 1], key) {
      OnlyMintsMint(Replay(shorter), log[|log| - 1], key);
      MintedEarlier(shorter, key);
      var i :| 0 <= i < |shorter| && Mints(shorter[i], key);
      assert Mints(log[i], key);
    }
  }

  /** Over a whole run: every bearer sent was granted earlier by the very gateway it is sent to, and
      every key extended or deleted was minted earlier by the very gateway it is named to. */
  lemma NothingLeavesItsGateway(log: seq<Event>, j: nat)
    requires j < |log| && Replay(log).sound
    ensures Sends(log[j]).Some? ==> exists i :: 0 <= i < j && log[i] == Granted(Sends(log[j]).value)
    ensures Names(log[j]).Some? ==> exists i :: 0 <= i < j && Mints(log[i], Names(log[j]).value)
  {
    EveryEventWasPermitted(log, j);
    if Sends(log[j]).Some? {
      GrantedEarlier(log[..j], Sends(log[j]).value);
      var i :| 0 <= i < j && log[..j][i] == Granted(Sends(log[j]).value);
      assert log[i] == Granted(Sends(log[j]).value);
    }
    if Names(log[j]).Some? {
      MintedEarlier(log[..j], Names(log[j]).value);
      var i :| 0 <= i < j && Mints(log[..j][i], Names(log[j]).value);
      assert Mints(log[i], Names(log[j]).value);
    }
  }

  function Bag(key: Option<At>): multiset<At> {
    if key.Some? then multiset{key.value} else multiset{}
  }

  function Gone(ledger: Ledger): multiset<At> {
    ledger.deleted + ledger.abandoned + ledger.lapsed
  }

  /** The conservation law: what was minted is what is held, what a switch holds back, what was
      asked to be deleted, what was abandoned after a 401 and what had expired when replaced. */
  predicate Conserved(ledger: Ledger, held: Option<At>, holding: Option<At>) {
    ledger.minted == Bag(held) + Bag(holding) + Gone(ledger)
  }

  /** The facts about credentials that key events leave alone. */
  predicate SameCredentials(a: Ledger, b: Ledger) {
    && a.granted == b.granted && a.dead == b.dead && a.reissued == b.reissued && a.interactiveIssues == b.interactiveIssues
    && a.deaths == b.deaths && a.sought == b.sought && a.browserOpened == b.browserOpened
  }

  lemma KeyGoes(before: Ledger, after: Ledger, key: At, held: Option<At>, holding: Option<At>)
    requires after.minted == before.minted && Gone(after) == Gone(before) + multiset{key}
    ensures Conserved(before, Some(key), holding) ==> Conserved(after, None, holding)
    ensures Conserved(before, held, Some(key)) ==> Conserved(after, held, None)
  {
    hide Gone;
    assert Bag(Some(key)) == multiset{key};
  }

  lemma KeyComes(before: Ledger, after: Ledger, key: At, holding: Option<At>)
    requires after.minted == before.minted + multiset{key} && Gone(after) == Gone(before)
    ensures Conserved(before, None, holding) ==> Conserved(after, Some(key), holding)
  {
    hide Gone;
    assert Bag(Some(key)) == multiset{key};
  }

  lemma HeldBackIsMinted(ledger: Ledger, held: Option<At>, key: At)
    requires Conserved(ledger, held, Some(key))
    ensures key in ledger.minted
  {
    hide Gone;
  }

  /** What an event adds to the keys that are gone. */
  function Losing(event: Event): multiset<At> {
    match event
    case Delete(gateway, _, key) => multiset{At(gateway, key)}
    case Abandoned(key, _) => multiset{key}
    case Lapsed(key, _) => multiset{key}
    case _ => multiset{}
  }

  lemma GoneAfter(ledger: Ledger, event: Event)
    ensures Gone(After(ledger, event)) == Gone(ledger) + Losing(event)
    ensures Losing(event) == multiset{} ==> Gone(After(ledger, event)) == Gone(ledger)
  {
    hide After;
    BagsAfter(ledger, event);
  }

  /** Where the keys are, by the ledger. */
  predicate SameBags(a: Ledger, b: Ledger) {
    a.minted == b.minted && a.deleted == b.deleted && a.abandoned == b.abandoned && a.lapsed == b.lapsed
  }

  lemma SameBagsConserve(a: Ledger, b: Ledger, held: Option<At>, holding: Option<At>)
    requires Conserved(a, held, holding) && SameBags(a, b)
    ensures Conserved(b, held, holding)
  {
  }

  lemma BagsAfter(ledger: Ledger, event: Event)
    ensures var next := After(ledger, event);
      && next.minted == (if event.Mint? && event.answer.Minted? then ledger.minted + multiset{At(event.gateway, event.answer.token)} else ledger.minted)
      && next.deleted == (if event.Delete? then ledger.deleted + multiset{At(event.gateway, event.key)} else ledger.deleted)
      && next.abandoned == (if event.Abandoned? then ledger.abandoned + multiset{event.lost} else ledger.abandoned)
      && next.lapsed == (if event.Lapsed? then ledger.lapsed + multiset{event.lost} else ledger.lapsed)
  {
    hide Permitted, Until, RefusedBearer, Later, TimeOf;
  }

  lemma RestAfter(ledger: Ledger, event: Event)
    ensures var next := After(ledger, event);
      && next.granted == ledger.granted + (if event.Granted? then {event.credential} else {})
      && next.reissued == ledger.reissued + (if event.Granted? && event.credential in ledger.granted then {event.credential} else {})
      && next.dead == ledger.dead + (if event.MarkedDead? then {event.credential} else {})
      && next.browserOpened == ledger.browserOpened + (if event.BrowserOpened? then 1 else 0)
      && next.interactiveIssues == ledger.interactiveIssues + (if event.InteractiveIssue? then 1 else 0)
      && next.sought == ledger.sought + (if event.CredentialSought? then 1 else 0)
      && next.unauthorized == ledger.unauthorized + (if RefusedBearer(event).Some? then 1 else 0)
      && next.deaths == ledger.deaths + (if event.MarkedDead? then 1 else 0)
      && next.latest == Later(ledger.latest, TimeOf(event)) && next.last == Some(event)
      && next.sound == (ledger.sound && Permitted(ledger, event))
      && next.expiry == (if Until(event).Some? then ledger.expiry[Until(event).value.0 := Until(event).value.1] else ledger.expiry)
  {
    hide Permitted, Until, RefusedBearer, Later, TimeOf;
  }

  /** What an event leaves a ledger: conserved, and with its own time at most added. */
  predicate Conserving(ledger: Ledger, event: Event, held: Option<At>, holding: Option<At>) {
    After(ledger, event).sound && Conserved(After(ledger, event), held, holding)
  }

  lemma DeleteConserves(ledger: Ledger, held: Option<At>, key: At, bearer: string)
    requires ledger.sound && Conserved(ledger, held, Some(key)) && MaySend(ledger, At(key.gateway, bearer))
    ensures Conserving(ledger, Delete(key.gateway, bearer, key.token), held, None)
  {
    hide After, MaySend, Gone, Conserved;
    var event := Delete(key.gateway, bearer, key.token);
    BagsAfter(ledger, event);
    RestAfter(ledger, event);
    GoneAfter(ledger, event);
    KeyGoes(ledger, After(ledger, event), key, held, None);
    HeldBackIsMinted(ledger, held, key);
  }

  lemma AbandonConserves(ledger: Ledger, key: At, under: At, holding: Option<At>)
    requires ledger.sound && Conserved(ledger, Some(key), holding)
    requires ledger.last == Some(MarkedDead(under)) && under.gateway == key.gateway
    ensures Conserving(ledger, Abandoned(key, under), None, holding)
  {
    hide After, MaySend, Gone, Conserved;
    BagsAfter(ledger, Abandoned(key, under));
    RestAfter(ledger, Abandoned(key, under));
    GoneAfter(ledger, Abandoned(key, under));
    KeyGoes(ledger, After(ledger, Abandoned(key, under)), key, None, holding);
  }

  lemma MintConserves(ledger: Ledger, holding: Option<At>, gateway: string, bearer: string, team: string,
                      token: string, expiresAt: Option<int>, now: int)
    requires ledger.sound && Conserved(ledger, None, holding) && MaySend(ledger, At(gateway, bearer))
    ensures Conserving(ledger, Mint(gateway, bearer, team, Minted(token, expiresAt), now), Some(At(gateway, token)), holding)
  {
    hide After, MaySend, Gone, Conserved;
    var event := Mint(gateway, bearer, team, Minted(token, expiresAt), now);
    BagsAfter(ledger, event);
    RestAfter(ledger, event);
    GoneAfter(ledger, event);
    KeyComes(ledger, After(ledger, event), At(gateway, token), holding);
  }

  lemma LapseConserves(ledger: Ledger, key: At, holding: Option<At>, now: int)
    requires ledger.sound && Conserved(ledger, Some(key), holding) && key in ledger.expiry && ledger.expiry[key] <= now
    ensures Conserving(ledger, Lapsed(key, now), None, holding)
  {
    hide After, MaySend, Gone, Conserved;
    BagsAfter(ledger, Lapsed(key, now));
    RestAfter(ledger, Lapsed(key, now));
    GoneAfter(ledger, Lapsed(key, now));
    KeyGoes(ledger, After(ledger, Lapsed(key, now)), key, None, holding);
  }

  lemma OtherEventsConserve(ledger: Ledger, held: Option<At>, holding: Option<At>, event: Event)
    requires ledger.sound && Conserved(ledger, held, holding) && Permitted(ledger, event)
    requires event.BrowserOpened? || event.CredentialSought? || event.Extend? || (event.Mint? && !event.answer.Minted?)
          || event.Granted? || event.MarkedDead? || event.InteractiveIssue?
    ensures Conserving(ledger, event, held, holding)
  {
    hide After, Conserved, Permitted, MaySend;
    BagsAfter(ledger, event);
    RestAfter(ledger, event);
    SameBagsConserve(ledger, After(ledger, event), held, holding);
  }

  datatype Fate = Held | HeldBack | Deleted | AbandonedAfter401 | ExpiredWhenReplaced

  function Times(ledger: Ledger, held: Option<At>, holding: Option<At>, key: At, fate: Fate): nat {
    match fate
    case Held => Bag(held)[key]
    case HeldBack => Bag(holding)[key]
    case Deleted => ledger.deleted[key]
    case AbandonedAfter401 => ledger.abandoned[key]
    case ExpiredWhenReplaced => ledger.lapsed[key]
  }

  lemma TotalOfTimes(ledger: Ledger, held: Option<At>, holding: Option<At>, key: At)
    requires Conserved(ledger, held, holding)
    ensures ledger.minted[key] == Times(ledger, held, holding, key, Held) + Times(ledger, held, holding, key, HeldBack)
         + Times(ledger, held, holding, key, Deleted) + Times(ledger, held, holding, key, AbandonedAfter401)
         + Times(ledger, held, holding, key, ExpiredWhenReplaced)
  {
    hide Bag;
  }

  /** A key minted once has exactly one fate, once: in particular its deletion is requested at most
      once, and never while it is still held. */
  lemma EveryKeyHasOneFate(ledger: Ledger, held: Option<At>, holding: Option<At>, key: At)
    requires Conserved(ledger, held, holding) && ledger.minted[key] == 1
    ensures exists fate :: Times(ledger, held, holding, key, fate) == 1
                           && forall other :: other != fate ==> Times(ledger, held, holding, key, other) == 0
  {
    hide Conserved, Times;
    TotalOfTimes(ledger, held, holding, key);
    var fate :| Times(ledger, held, holding, key, fate) > 0;
  }
}
