# The credential broker of `relay serve`, and the code around it

A Dafny model of the part of LiteLLM Relay that holds credentials, with proofs about whole runs of it.
`dafny verify dfyconfig.toml` checks everything.

**The broker** (`Broker.dfy`, on `BrokerState.dfy`, `BrokerLedger.dfy` and `KeyLifetime.dfy`). One object holds an IdP
session, the session credential exchanged for it, a minted team key, a sticky mint refusal and a proxy
token, for the Gateway and team its config names. It is a class whose fields are those behind the
mutexes. What it does outside (mints, extensions, deletions, browser flows) goes into a log, and a ledger
is a replay of that log: what was granted, marked dead, minted, deleted, abandoned after a 401, or had
expired when replaced. The Gateway, the authorization server and the IdP answer every request by any function of
all that has happened so far (`Dependencies`), so a method can say what it makes of what they answer: an issue
returns the rounds of renewal and mint it went through as a ghost trail, and `Explains` ties its reply to them. The
clock, the config file and the random proxy token are nondeterministic choices. Three methods stand at the lock boundaries. `Interfere`: while
this thread holds `renewal` others may serve what is held, hand out a first proxy token, count refused callers
and edit the config. `Overtaken`: while it holds nothing they may take any steps, `renewal` or not.
`AcquireRenewal`: when it gets the lock, they have finished whole operations. Every method keeps the invariant
across all three, so what it promises without a condition holds in every interleaving.

Two conditions occur. Under `Unedited()` nobody else wrote the config and its source did not fail, whatever other
threads did. Of those threads it is supposed that, unless they write the config, they leave a target that follows
it as it is (`TargetKept`), and each operation that does not write it is proved to do so. Under `Quiet()` the
operation is on its own; that adds what others may touch at any time, such as the last source. `Coherent()` says
that the broker is not mistaken about the version of the config it has seen; it is so from the start.

**The locks** (`Locks.dfy`). Each operation once more, as the locks it takes, its choices and its browser
flows, under a small-step semantics of any number of threads with requests arriving at any time.

**Credential renewal** (`GatewayCredential.dfy`, `IdentitySession.dfy`). The chain cached, refresh,
exchange, re-register, re-exchange, against a server that answers each call by any function of all calls
so far; and the IdP session's reuse, refresh, browser chain.

**Environment and team selection** (`Settings.dfy`, `Text.dfy`). The pick in use and the parked picks, seen
as one map from environment name to team.

**HTTP framing** (`HttpFraming.dfy`, `MessageHead.dfy`, `ChunkedCoding.dfy`, `ResponseRelay.dfy`,
`ResponseRoundTrip.dfy`, `RelayedHead.dfy`, on `Utf8.dfy` and `Numerals.dfy`). The message reader, the response writer, and
both together, down to hexadecimal digits, lossy UTF-8 and white space.

**Event tail** (`EventTail.dfy`), **credential check cache** (`CredentialCache.dfy`), **inference path
check** (`InferencePath.dfy`). Three small algorithms, each against the simple thing it stands for.

## What the code does that its reader may not expect

Each of these is a theorem below.

- A Gateway that grants the very same access token twice can have that token sent again after it was marked
  dead: in every reachable state in which the broker would mint with a fresh credential there are answers of the
  authorization server and the IdP by which its own renewal and mint do that
  (`BrokerState.ReissuedTokenIsSentAgain`). A token granted once never is
  (`BrokerLedger.DeadCredentialsAreNeverSent`).
- A listed environment whose URL ends in two slashes, or in a slash with white space before it, is not
  recognised once the broker's target has cut the slashes off: a switch to it is treated as leaving the listed
  environments, is refused and ends the IdP session (`BrokerState.SwitchSignsOutExactly` says for every config
  when that happens, `Settings.RaggedExactly` which URLs these are).
- Where the Gateway offers no token exchange, a missing sign-in is reported as an error of the Gateway and not as
  signed out, so a switch there fails without saying that a sign-in would help (`BrokerState.AnIssueRefusesExactly`).
- Half-life freshness can count an expired credential as fresh when it was issued two or more seconds in the
  future (`GatewayCredential.FreshImpliesValidExactly`), because the division of a negative lifetime
  truncates toward zero.
- A chunked body that ends early between two chunks is taken for complete, and of a trailer section the reader
  takes only the first line (`ResponseRoundTrip.CutIsNoticedExactly`,
  `ChunkedCoding.ConsumedExactlyWithoutTrailers`). So a tool reading through such a reader cannot tell that
  the Gateway's body broke off (`ResponseRoundTrip.ChunkedResponseReadsBack`).
- The credential cache's comment promises a single background probe for a pair. That holds along a run if and
  only if no pair is read while a probe for it is in flight that another pair's refresh has superseded
  (`CredentialCache.OneProbeEachExactly`; `CredentialCache.TwoProbesForOnePair` is the shortest run that fails).

## Assumptions

The clock never goes back. A written config gets a version the broker has not seen (a repeated one counts as
a fault of the config source). Environment names are distinct and so are their URLs, up to white space and
one slash, and picks are trimmed and not blank: stated as preconditions where they are needed. That the
environment in use is not parked is an invariant that is proved.

## Model

| member | source | states |
|---|---|---|
| BrokerState.WhatEveryRunKeeps | src/broker/mod.rs:1291-1486 | over every run: each key minted once is held, held back by a switch, deleted once, abandoned or lapsed, and only one of these; a key is abandoned only right after its credential was marked dead upon a 401 of the key's own Gateway, and lapsed only past the expiry that Gateway stated last; a credential marked dead is sent again only if its Gateway granted that token twice; every bearer was granted earlier by the Gateway it is sent to |
| BrokerLedger.EveryKeyHasOneFate | src/broker/mod.rs:1442-1486 | the conservation law gives a key minted once exactly one fate, once: no second deletion, and none while it is held |
| BrokerLedger.DeadCredentialsAreNeverSent | src/broker/mod.rs:1435-1440 | after a credential was marked dead no mint, extension or deletion of the rest of the run carries its access token to that Gateway, unless the Gateway has granted that very token twice |
| BrokerState.ReissuedTokenIsSentAgain | src/broker/mod.rs:1130-1148 | in every reachable state with a team, a fresh credential that may be sent, no sticky refusal for it and no living key: the renewal keeps the credential, a 401 to its mint marks it dead, a renewal against some server and IdP comes back with the same token, and the broker mints with it; the log is the broker's, event by event |
| BrokerLedger.EveryDeathFollowsA401 | src/broker/mod.rs:1109-1114 | a credential is marked dead only right after a 401 for it |
| BrokerLedger.EveryAbandonmentFollowsA401 | src/broker/mod.rs:1435-1440 | a key is abandoned only right after the credential it was held under was marked dead, upon a 401 of the key's own Gateway |
| BrokerLedger.EveryLapseIsPastExpiry | src/broker/mod.rs:1104-1118 | a key is replaced without a deletion only past the expiry its Gateway stated last, when it was minted or extended |
| BrokerState.ExtendingTheKey | src/broker/mod.rs:1373-1431 | an extension, whatever it is answered, keeps the invariant, with the key's new expiry the stated one |
| BrokerLedger.NothingLeavesItsGateway | src/broker/mod.rs:1373-1384 | every bearer sent was granted, and every key extended or deleted was minted, earlier in the run by the very Gateway it goes to |
| BrokerState.MarkingDead | src/broker/mod.rs:1435-1440 | marking a credential dead keeps the invariant: its key is accounted for as abandoned and the credential counts as expired from then on |
| BrokerState.MintingAKey | src/broker/mod.rs:1320-1340 | a mint into a slot that is empty or holds an expired key keeps the invariant, the replaced key accounted for as lapsed |
| BrokerState.RestoringTheHold | src/broker/mod.rs:1462-1468 | giving a hold back into an empty slot of the Gateway and team it was taken from keeps the invariant |
| BrokerState.DeletingAKey | src/broker/mod.rs:1470-1486 | a deletion under a credential that may still be sent, at the key's own Gateway, keeps the invariant |
| BrokerState.GrantingACredential | src/broker/mod.rs:1229-1245 | a renewed credential for the target's Gateway and team keeps the invariant and may be sent |
| BrokerState.RenewalFacts | src/broker/mod.rs:1193-1289 | for all answers of IdP and authorization server: a browser only in an interactive context, a renewed session only of this issuer and client and with the token that was used, a kept credential only while valid, a new one only for this target; without session and credential a bearer comes only through the browser |
| BrokerState.RunIsExact | src/broker/mod.rs:1193-1289 | for all answers of IdP and authorization server: one renewal is a resolution over the credential held, for the target's Gateway and team, with the token the IdP session gives now; the browser opens exactly when the context allows it, the token is needed, the one held is not usable and no refresh worked; the session kept is the one whose token was used |
| BrokerState.AnIssueRefusesExactly | src/broker/mod.rs:1099-1159 | under an IdP an issue is refused if and only if no key lives and the renewal gave no bearer, or the mint was answered 401 and the second round gave no bearer, no exchange, or another 401; and which refusal it is |
| BrokerState.WhatAnIssueServes | src/broker/mod.rs:1099-1178 | what is served otherwise: the key that lives; the key minted in the last round with its stated expiry or the default lifetime; that round's credential whatever else the mint was answered; without the exchange the very identity token of the session with its expiry |
| BrokerState.OnlyPermissionIsSticky | src/broker/mod.rs:1308-1371 | after a mint the same credential is not used to mint again if and only if the answer was a refusal for the team's permission; a minted key lifts every earlier refusal |
| BrokerState.SwitchSignsOutExactly | src/broker/mod.rs:1024-1032 | for every config and entry, a switch signs out if and only if it changes the Gateway and leaves from, or arrives at, a URL that is not listed once its slashes are cut off |
| BrokerState.ListedSwitchSignsOutExactly | src/broker/mod.rs:1025-1032 | between listed environments, from a URL that is not ragged, a switch signs out if and only if the URL it arrives at is ragged and no environment is listed with what is left of it |
| BrokerState.RaggedUrlsSignOut | src/broker/mod.rs:1025-1032 | both ragged shapes, "b//" and "b /", sign out in an otherwise ordinary config |
| Settings.RaggedExactly | src/config.rs:246-272 | cutting all slashes off first leaves a URL's normal form if and only if the URL does not end in a slash after a slash or white space |
| BrokerState.ThereAndBackAgain | src/broker/mod.rs:457-478 | the two config changes of a refused switch lead back to the same target and, unless they sign out, keep the session and the proxy token |
| BrokerState.WhatAConfigLeaves | src/broker/mod.rs:1023-1052 | field by field what outlives a config change: key, credential, refusal and last source exactly while IdP, Gateway and team stay; the session exactly while the IdP stays and the Gateway stays or both are listed; the proxy token exactly when the session does and the allowlist is the same |
| BrokerState.AllowlistIsSplit | src/broker/caller.rs:74-92 | the callers with and without a signing team together are the allowlist, so dropping or adding a caller revokes the proxy token |
| BrokerState.ModeIsExact | src/broker/mod.rs:395-416 | an IdP is used exactly when issuer and client are not blank, and the authorize URL does not matter then; otherwise a key that is not blank, trimmed |
| BrokerState.PatchKeeps | src/broker/mod.rs:457-478 | a switch writes nothing but the URL, the team and the parked picks, and for a team the team alone |
| BrokerState.SameBytesIsEquality | src/broker/mod.rs:295-302 | the comparison that folds all differences accepts exactly the equal token |
| Broker.Broker.constructor | src/broker/mod.rs:590-601 | a new broker works for the config it was given, is not mistaken about its version, and satisfies the invariant with nothing held and nothing done |
| Broker.Broker.SwitchTeam | src/broker/mod.rs:767-783 | in every interleaving without an edit of the config, from any state that knows the config on disk: an issue in silence decides, and the switch is done exactly when it gives a bearer; the team in use is switched to in place, by an issue for that target; otherwise the issue is for the new target, a refused switch is a no-op (config, target, key, credential, sticky refusal, no deletion) that keeps the IdP session, and a completed one has written the pick, as the selection model does, follows it and has deleted the old key last; without an IdP it refuses and writes nothing; on its own also the last source is as before |
| Broker.Broker.SwitchEnvironment | src/broker/mod.rs:795-829 | the same for environments; an unknown name writes nothing, and a switch that signs out is always refused and ends the IdP session |
| Broker.Broker.ApplySwitch | src/broker/mod.rs:857-898 | for any patch and its inverse, in every interleaving: the old key is held again or its deletion is the last event, and there is never a browser; an issue for the new target decides, told apart into done, signed out and failed; without an edit of the config refused means restored (config, target, key, credential, sticky refusal) without any deletion, and done means not signed out, config written and followed, and the old key deleted last |
| Broker.Broker.SwitchLocked | src/broker/mod.rs:863-897 | the same from the moment the lock is held |
| Broker.Broker.Attempt | src/broker/mod.rs:863-876 | the hold is taken before the config is applied, so applying it deletes nothing; the new config is followed whatever other threads do; the answer is that of an issue in silence for the target arrived at, from what is left without the hold; a switch that signed out cannot issue |
| Broker.Broker.RollBack | src/broker/mod.rs:885-897 | in every interleaving the hold is given back, or its key is deleted at its own Gateway and nothing else is logged; without an edit of the config the restored config is on disk and followed, and the hold given back unchanged |
| Broker.Broker.GiveBack | src/broker/mod.rs:890-896 | on the same Gateway the hold is restored, elsewhere its key's deletion is logged under its own credential |
| Broker.Broker.Conclude | src/broker/mod.rs:873-897 | a refused issue rolls back, in every interleaving without an edit to the restored config with the hold given back; an issued one retires the old key at the old Gateway under the old credential, with the new bearer still sound |
| Broker.Broker.SwitchableSettings | src/broker/mod.rs:844-855 | switching needs an IdP and a readable config; otherwise it is refused and nothing changes |
| Broker.Broker.SwitchedInPlace | src/broker/mod.rs:900-906 | a switch to what is in use issues for the target in use, without a browser; it is done exactly when that gives a bearer |
| Broker.Broker.SignIn | src/broker/mod.rs:698-754 | it begins by following the config on disk; once it has the lock, a sign-in that began while a page was pending starts no flow and changes nothing, so it retires no key (the config reload before it may, if the config changed); a joined reply stands for an interactive issue finished since it began, with a session present; a sign-in of its own is an interactive issue of a broker that holds nothing, is signed in exactly when that gives a bearer and otherwise passes its refusal on; the user named is the credential's |
| Broker.Broker.OwnSignIn | src/broker/mod.rs:729-742 | the old key is deleted and everything forgotten, then one interactive issue decides; when it succeeds the browser was opened because nothing held could answer, exactly one interactive issue was counted, a session is present and the flag taken back |
| Broker.Broker.SignOut | src/broker/mod.rs:756-765 | after following the config on disk: key, credential, session, sticky refusal and proxy token go and the key's deletion is the only event; a static key refuses and changes nothing |
| Broker.Broker.Shutdown | src/broker/mod.rs:919-923 | the key is deleted and the IdP session kept |
| Broker.Broker.MinuteTick | src/broker/mod.rs:964-990 | it begins by following the config on disk; never a browser and never a deletion of its own; log and state are those of the renewal and the extension as they were answered: the renewal chain runs exactly when the credential is no longer fresh, and its result is what is held; while the exchange is offered the key is extended if and only if due, under the bearer held, and changes exactly as the lifetime model says for the answer; after a 401 what is left is the key the second round minted, or none |
| Broker.Broker.TickLocked | src/broker/mod.rs:966-989 | the same from the moment the lock is held |
| Broker.Broker.Upkeep | src/broker/mod.rs:971-989 | the same for the part after the target and the time were read |
| Broker.Broker.ExtendKey | src/broker/mod.rs:1373-1433 | an extension is asked for exactly when due, under the bearer and at the key's own Gateway; log and state for every answer; a 401 marks the bearer dead, abandons the key and runs one more round in silence |
| Broker.Broker.AskToExtend | src/broker/mod.rs:1381-1431 | one extension and the key it leaves, for every answer |
| Broker.Broker.Issue | src/broker/mod.rs:1054-1065 | in every interleaving the reply is the one its trail explains: what the admitted target says outside an IdP, the key that lives, or what the rounds came to; a served bearer is a key some Gateway minted, a granted credential not marked dead, or no Gateway token; alone, a key that lives is what is served |
| Broker.Broker.IssueFromIdp | src/broker/mod.rs:1067-1074 | the same under an IdP; in a context without a browser none is opened |
| Broker.Broker.IssueUnderRenewalLock | src/broker/mod.rs:1088-1097 | answers, logs and leaves what the trail says, and counts an interactive issue exactly when it gave a credential; a non-interactive one opens no browser |
| Broker.Broker.IssueFromSession | src/broker/mod.rs:1099-1128 | the reply, the whole log and the state left, for all answers of IdP and Gateway: without a living key the chain runs, and the reply is what its rounds came to; a key that lives is served with no call at all; a bearer is sound, at most the served key is minted, nothing is deleted; without session and credential a bearer comes only through the browser |
| Broker.Broker.AnswerAtOnce | src/broker/mod.rs:1099-1106 | outside an IdP, and while a key lives, the answer takes no call |
| Broker.Broker.RenewAndServe | src/broker/mod.rs:1107-1148 | one round decides, and after a 401 a second one; the renewal chain runs at least once |
| Broker.Broker.IssueAfterDeadBearer | src/broker/mod.rs:1130-1159 | after a 401 the bearer is dead and its key given up, and the chain runs exactly once more on what is left; that round decides, and a second 401 is a refusal |
| Broker.Broker.TryAgain | src/broker/mod.rs:1139-1159 | the second round, in which no exchange and a 401 are refusals of the Gateway |
| Broker.Broker.SessionCredential | src/broker/mod.rs:1193-1255 | the run, for all answers, and the bearer it gives; the credential slot afterwards: the same one while valid, or one granted now for the target's Gateway and team; keys are untouched; without session and credential a bearer comes only through the browser |
| Broker.Broker.ResolveForTarget | src/broker/mod.rs:1200-1226 | the result, the session kept and the browser flow are those of the run, for any answers; one renewal is logged and nothing else changes |
| Broker.Broker.Keep | src/broker/mod.rs:1227-1254 | which bearer, slot and grant each result of a resolution gives |
| Broker.Broker.RenewOnce | src/broker/mod.rs:1104-1126 | one renewal and at most one mint, with the reply, log and state of that round; no reply means exactly that the mint was the last event and was answered 401, with nothing minted |
| Broker.Broker.Abandon | src/broker/mod.rs:1435-1440 | right after a 401 only: the bearer is dead, its key abandoned, nothing minted or deleted |
| Broker.Broker.Serve | src/broker/mod.rs:1161-1164 | the reply is what was issued and its source is recorded |
| Broker.Broker.AskTheIdp | src/broker/mod.rs:1257-1289 | the sign-in page is pending only while the flow runs, and the browser opens only for a flow |
| Broker.Broker.KeyOrCredential | src/broker/mod.rs:1291-1371 | mints exactly when a team is set and this credential was not refused before; state, reply and log are those of the Gateway's answer |
| Broker.Broker.RenewAfter401 | src/broker/mod.rs:1404-1412 | the refused bearer is dead, its key abandoned and not deleted; then one round in silence, whose log and state are given, mints anew if it can |
| Broker.Broker.RenewInSilence | src/broker/mod.rs:1404-1432 | that round, without a browser or a deletion |
| Broker.Broker.MarkDead | src/broker/mod.rs:1435-1440 | the whole new state, with the key abandoned in the log |
| Broker.Broker.Forget | src/broker/mod.rs:1442-1450 | everything the Gateway gave is dropped and the key's deletion asked for at that Gateway under its credential; session and proxy token go only when asked |
| Broker.Broker.TakeGatewayHold | src/broker/mod.rs:1452-1460 | the hold is what was held, and nothing is held after it |
| Broker.Broker.RestoreGatewayHold | src/broker/mod.rs:1462-1468 | the slots are exactly what the hold had |
| Broker.Broker.Retire | src/broker/mod.rs:1470-1486 | one deletion, under the held credential, if there was a key, and nothing otherwise |
| Broker.Broker.ApplySavedSettings | src/broker/mod.rs:1013-1022 | nothing happens for the version already applied or an unreadable config; otherwise the target is that of the loaded config |
| Broker.Broker.ApplySettings | src/broker/mod.rs:1023-1052 | alone, what outlives the change, field by field, for every pair of targets; a changed allowlist leaves no proxy token; the key is deleted at its own Gateway before the target moves |
| Broker.Broker.AcquireRenewal | src/broker/mod.rs:1500-1504 | whoever gets the lock finds the invariant, nothing held back by a switch, no sign-in page pending and no explicit sign-in running |
| Broker.Broker.Refresh | src/broker/mod.rs:992-1011 | in every interleaving, unless the config is edited or cannot be read meanwhile, the broker works for the config on disk afterwards, if it was not already mistaken about the version it has seen; on its own a new config leaves exactly what following it leaves, and one already followed changes nothing |
| Broker.Broker.Reload | src/broker/mod.rs:1007-1022 | the same for the part under the lock |
| Broker.Broker.BearerForProxy | src/broker/mod.rs:645-673 | in every interleaving only the proxy token handed out is accepted, any other is refused with no effect, and the comparison comes after a new config, which may revoke it, was followed; alone, when the config on disk has another allowlist every token is refused; a caller that is known gets what an issue in silence answers, for the Gateway of that issue, which minted or granted it; no browser; on its own a key that lives is what is handed out |
| Broker.Broker.KnowsToken | src/broker/mod.rs:645-660 | the comparison, in a world that follows the config on disk, is equality with the token handed out |
| Broker.Broker.FreshProxyBearer | src/broker/mod.rs:1166-1178 | a key that lives is handed out with its own Gateway, in one step |
| Broker.Broker.IssueForProxy | src/broker/mod.rs:661-672 | the answer of an issue in silence, with the Gateway of the target it was issued for |
| Broker.Broker.CredentialFor | src/broker/mod.rs:618-696 | the caller is checked against the config on disk; an allowed one gets what an issue answers, a refused one is counted and, alone, reaches no Gateway |
| Broker.Broker.ProxyCredential | src/broker/mod.rs:625-643 | exactly when an issue gives a bearer one proxy token is handed out, and it stays until revoked |
| KeyLifetime.ThirtyFailuresIsExact | src/broker/mod.rs:1373-1432 | with ticks at most a minute apart, a bound on consecutive failed extensions keeps every key alive under every schedule if and only if it is at most 30, the half-life in ticks |
| Locks.OperationsAreDisciplined | src/broker/mod.rs:603-1128 | every operation takes its locks in the order switching, renewal, then target or state, never one twice, and runs a browser flow only under renewal |
| Locks.NoDeadlock | src/broker/mod.rs:1488-1520 | in every reachable state, if some operation is unfinished some thread can step |
| Locks.WorkRunsOut | src/broker/mod.rs:1000-1128 | without new requests the threads step only boundedly often, so every operation ends |
| Locks.NeverTargetAndState | src/broker/mod.rs:1488-1498 | no thread ever holds both target and state |
| Locks.OneFlowAtATime | src/broker/mod.rs:1257-1289 | at most one thread is in a browser flow, and it holds renewal |
| Locks.RunsAreSafe | src/broker/mod.rs:1488-1520 | mutual exclusion and the lock order hold in every run of any requests |
| IdentitySession.AdvanceIsExact | src/ai_tools/token.rs:146-206 | exactly which calls are made; the browser opens exactly when allowed, no usable token is there and no refresh worked; the cached token is reused exactly while it has more than 60 seconds left and no refresh worked; a renewed session has the token, expiry and refresh token of the last answer, for this issuer and client |
| GatewayCredential.ResolveIsBounded | src/ai_tools/gateway_credential.rs:374-504 | at most one discovery, refresh, registration and identity token and two exchanges, for every server |
| GatewayCredential.ResolvedExactly | src/ai_tools/gateway_credential.rs:374-504 | for every server: no exchange if and only if nothing fresh is cached and the discovery was answered so; tokens granted by the last call are the result, field by field, with the old refresh token and ids where the answer to a refresh has none; otherwise a valid cached credential comes back unchanged, and else the failure of the last call |
| GatewayCredential.RenewalIsTheRun | src/ai_tools/gateway_credential.rs:394-504 | the calls of a renewal are exactly those of a chain in which each call follows from the answer to the one before: a refused refresh leads to the identity token and the exchange, an exchange disowned under the known client to a registration and a second exchange, and every other answer ends it |
| GatewayCredential.ResolveSound | src/ai_tools/gateway_credential.rs:374-438 | an unchanged result is the cached entry, still valid; a changed one is for the requested gateway and team and carries the server's last tokens; an error means nothing valid was cached, and no exchange that the Gateway said so |
| GatewayCredential.FallThroughOrder | src/ai_tools/gateway_credential.rs:394-479 | the identity token only after a held refresh token was refused, a registration only when no client was known or the server disowned it |
| GatewayCredential.NothingWithoutIdentity | src/ai_tools/gateway_credential.rs:394-421 | with nothing cached and no identity token nothing is issued |
| GatewayCredential.FreshImpliesValidExactly | src/ai_tools/gateway_credential.rs:285-294 | under the truncating half-life division fresh implies valid for every lifetime if and only if the credential was issued at most one second ahead |
| GatewayCredential.DeadStaysDead | src/ai_tools/gateway_credential.rs:285-304 | a credential marked dead is neither fresh nor valid at any later time |
| GatewayCredential.RenewalServesTheNextCaller | src/ai_tools/gateway_credential.rs:374-392 | a stored renewal is found again by the next caller without any call |
| GatewayCredential.UpsertIsAMapUpdate | src/ai_tools/gateway_credential.rs:528-536 | an upsert changes the entry of one gateway and team and no other |
| GatewayCredential.UpsertKeepsOneEntryPerSlot | src/ai_tools/gateway_credential.rs:528-536 | the store never holds two entries for one gateway and team |
| GatewayCredential.UpsertedSlotIsLast | src/ai_tools/gateway_credential.rs:528-536 | whatever was stored, afterwards exactly the last entry is for the upserted gateway and team |
| Settings.EnvironmentSwitchKeepsPicks | src/broker/mod.rs:808-822 | switching the environment arrives there, leaves the map of picks alone and parks nothing for the environment in use |
| Settings.TeamSwitchChangesOnePick | src/broker/mod.rs:777-782 | switching the team changes the current environment's pick and no other |
| Settings.ThereAndBack | src/broker/mod.rs:808-822 | there and back restores team, parked picks and environment exactly |
| Settings.SwitchesRefineOneMap | src/broker/mod.rs:767-829 | every run of switches refines one map from environment to pick, in which a switch to the team in use (the pick, else the environment's own team, else in the default environment a tool's) changes nothing; the team worked for is always the map's, and the environment in use is never parked |
| Settings.ManagedTeamIsSelected | src/config.rs:307-332 | the team the daemon works for is the pick, else the environment's own, else in the default environment a tool's |
| Settings.ManagedTeamOffTheList | src/config.rs:307-332 | on a Gateway in no environment: the pick, else Claude's team, else Codex's, and none exactly when all are blank |
| Settings.MovingIsSwitching | src/config.rs:278-305 | moving the Gateway onto an entry's URL and switching to it write the same gateway section, up to the URL's white space and slash |
| Settings.MovingOffTheList | src/config.rs:278-305 | moving to a URL in no environment leaves the map of picks alone, picks no team and changes nothing else |
| Settings.LiveSettings.MoveGatewayTo | src/config.rs:278-305 | the update in place is the function the other results are about |
| Settings.CarryIsAMapFormula | src/config.rs:391-506 | for every environment name the carried pick is the user's, unless it equals the seeded one, else the new managed team on the new default, else none; nothing of a dropped environment survives and the environment in use is not parked; once the environment in use is gone nothing is carried, and without one only the user's team, on the same Gateway |
| Settings.InstalledOffTheMap | src/config.rs:334-532 | for all configs: when the environment in use is gone the pushed config is installed as it is; when the Gateway was in no environment it is installed with the user's unseeded team exactly when it keeps the Gateway, up to the normal form of the URL, and there is such a team, else as it is; and never does anything but URL, team and parked picks change |
| Settings.CarriedBeforeParking | src/config.rs:334-389 | which environment, team and parked picks a carried selection keeps; nothing when the environment in use is not named again, and without one the team alone on the same Gateway |
| HttpFraming.ReadHttpMessage | src/http.rs:160-177 | whatever arrives, the raw bytes of a message that was read are exactly those taken from the stream |
| HttpFraming.ReadUntilHeaders | src/http.rs:135-158 | reads to the first empty line, or what there is, and fails on nothing or on a head over 1 MiB |
| HttpFraming.ReadLineCrlf | src/http.rs:605-622 | reads the first line with its CRLF, or all there is |
| HttpFraming.ReadChunkedBody | src/http.rs:580-603 | terminates, and decodes what the specification function says, raw and decoded |
| HttpFraming.ReadHttpBody | src/http.rs:196-222 | chunked before content-length before nothing |
| HttpFraming.ParseHeaders | src/http.rs:526-537 | the last of several fields of one name counts, names in lower case |
| HttpFraming.ChunkedBodyIsCutOff | src/http.rs:580-603 | the raw bytes of a chunked body are a prefix of the stream and the rest is left |
| ChunkedCoding.CodingReads | src/http.rs:580-603 | every chunked coding of RFC 9112 section 7.1, with any digits and extensions, is decoded to its data |
| ChunkedCoding.SizeLineReads | src/http.rs:587-591 | a size line means its hexadecimal digits, whatever extensions follow |
| ChunkedCoding.ConsumedExactlyWithoutTrailers | src/http.rs:592-596 | a coding is consumed exactly if and only if it has no trailer fields |
| Numerals.HexReadsBack | src/http.rs:589-591 | a printed hexadecimal size is read back |
| ResponseRelay.RelayResponse | src/inference.rs:389-428 | what is written: the head, then the chunks framed as the head says, and the last chunk only if the body did not break off; what a reader makes of it is said by the rows below |
| RelayedHead.HeadIsRelayed | src/inference.rs:330-403 | for every response a reader finds the status and reason, every field that is neither hop-by-hop nor content-length with its last value, and no other such field; of the rest only `connection: close` and the framing, chunked exactly when there may be a body and no length is announced; nothing follows the head of HEAD, 204, 304 and 1xx; and a head is read at all exactly up to the limit |
| RelayedHead.FramingIsExact | src/inference.rs:371-388 | which framing is chosen: by the method, the status and the first content-length if it is readable |
| ResponseRoundTrip.ChunkedRoundTrip | src/inference.rs:405-426 | for all chunks the reader gets their concatenation out of what is written and consumes exactly that |
| ResponseRoundTrip.CutIsNoticedExactly | src/http.rs:580-603 | a stream that ends early is noticed if and only if it ends inside a chunk; otherwise the chunks that arrived whole are taken for the body |
| ResponseRoundTrip.ChunkedResponseReadsBack | src/inference.rs:389-428 | a whole response, head and body, is read back byte for byte; and just so when the Gateway's body broke off |
| ResponseRoundTrip.LengthResponseReadsBack | src/inference.rs:330-428 | the same under content-length, where a body that is too short is noticed |
| MessageHead.HeadReads | src/http.rs:135-158 | the reader takes a head of non-empty lines and not a byte more |
| MessageHead.HeadIsTooLong | src/http.rs:135-158 | a head over the limit is not taken |
| MessageHead.FieldsAreFound | src/http.rs:526-537 | the fields found are those of the head's lines, whatever bytes their values have |
| EventTail.ReadEvents | src/events.rs:36-54 | terminates and returns the last events of the whole file as it is at the last read, whatever others write or clear meanwhile; nothing when the file system fails |
| EventTail.WindowAgrees | src/events.rs:56-74 | a window that starts in the middle of a line and shows enough events agrees with the whole file |
| EventTail.LogFile.NewestFrom | src/events.rs:56-74 | one windowed read computes the specification function |
| CredentialCache.RunsKeepInvariant | src/gateway.rs:99-130 | whenever a refresh is waited for its probe is in flight, and once it landed the entry speaks for its pair |
| CredentialCache.LateProbesCannotEvict | src/gateway.rs:99-112 | after the latest refresh's probe landed no late probe, in any order, evicts its entry until another refresh is started |
| CredentialCache.OneProbeForOnePair | src/gateway.rs:114-130 | while one pair is read at most one probe is in flight |
| CredentialCache.OneProbeEachExactly | src/gateway.rs:114-130 | along a run every pair has at most one probe in flight if and only if no pair is read while a probe for it is in flight that is not the one waited for |
| CredentialCache.TwoProbesForOnePair | src/gateway.rs:114-130 | with two pairs read in turn a pair can have two |
| CredentialCache.Cache.Checked | src/gateway.rs:66-83 | serves only an entry of the pair asked for, and starts a probe when it is missing or stale |
| CredentialCache.Cache.RefreshInBackground | src/gateway.rs:114-130 | starts a probe unless one for this pair is waited for |
| CredentialCache.Cache.StoreBackground | src/gateway.rs:99-112 | which landing probes take the entry |
| InferencePath.AcceptedPathsStay | src/inference.rs:46-66 | however often an accepted path is decoded, and whenever dot segments are removed in between (RFC 3986 section 5.2.4), it stays under `/v1`, and from the third decoding on it is the path that was checked |
| InferencePath.AcceptsExactly | src/inference.rs:46-66 | accepted are exactly the targets that three decodings free of escapes without laying open a backslash or a dot segment |
| InferencePath.DecodedWithinExactly | src/inference.rs:59-66 | the bounded decoding succeeds exactly when that many rounds leave no escape |
| InferencePath.FixedExactlyWithoutEscapes | src/inference.rs:59-61 | a decoding changes a path exactly when it has an escape |
| InferencePath.NothingToRemove | src/inference.rs:52-55 | removing dot segments from a path without any is the identity |

## Left out

- The identity that `src/broker/session.rs` reports with a bearer: it reads the target before issuing and
  issuing reads it again, so the two agree only when no config change comes between; `Locks` covers the locks
  these calls take.
- The status report, also the one that accompanies a completed switch, and the account service's polling.
- Key aliases, host names, notices, refusal texts and log lines: a refusal is modelled by its kind.
- The caller's code signature and the allowlist check: one boolean.
- `src/broker/key.rs` and discovery, registration and token replies as HTTP: the model starts at the outcomes
  they are classified into.
- 64-bit overflow of times, and of a chunk size plus two: integers are unbounded there.
- Locking of the credential and session files, JSON and YAML, sockets and TLS.
- Request headers sent upstream and the token a request presents: they would add case analysis only.
- The URL parser's path of an inference target is a parameter of the path check.
- I/O errors of a stream other than its end.
- Broker.Broker.IssueAfterDeadBearer: does not say that a second bearer answered 401 is marked dead, because the code
  does not mark it; the claims about dead credentials are about those that were marked.
- Broker.Broker.SwitchTeam: when somebody else writes the config meanwhile, or its source fails, it promises only
  what holds in every interleaving, because the config it restores may then no longer be the one it started from;
  so do `Broker.Broker.SwitchEnvironment` and `Broker.Broker.ApplySwitch`.
- The page that a second sign-in opens again in the browser, before it takes any lock: it is the same page.
- KeyLifetime.ThirtyFailuresIsExact: is for ticks that reach the extension; a tick on which the Gateway offers no
  token exchange or the bearer is answered 401 is outside it.
