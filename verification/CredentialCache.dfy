/** The cache of the live credential check: one entry, refreshed by background probes that may land
    late and in any order. Every method body that holds the lock is one atomic step. */
module CredentialCache {
  import opened Wrappers

  datatype Pair = Pair(gatewayUrl: string, apiKey: string)

  datatype Check = Check(pair: Pair, cachedAt: int, verdict: string)

  /** `inFlight` are the probes that were started and have not landed; `latest` is the pair for which
      a refresh was last started. */
  datatype Snapshot = Snapshot(entry: Option<Check>, refreshing: Option<Pair>, inFlight: multiset<Pair>, latest: Option<Pair>)

  const EMPTY := Snapshot(None, None, multiset{}, None)

  function Asked(s: Snapshot, pair: Pair): Snapshot {
    if s.refreshing == Some(pair) then s
    else s.(refreshing := Some(pair), inFlight := s.inFlight + multiset{pair}, latest := Some(pair))
  }

  function Landed(s: Snapshot, probed: Check): Snapshot {
    var samePair := s.entry.None? || s.entry.value.pair == probed.pair;
    var askedFor := s.refreshing == Some(probed.pair);
    s.(entry := if samePair || askedFor then Some(probed) else s.entry,
       refreshing := if askedFor then None else s.refreshing,
       inFlight := s.inFlight - multiset{probed.pair})
  }

  datatype Action = Ask(pair: Pair) | Land(probed: Check)

  predicate Possible(s: Snapshot, action: Action) {
    action.Land? ==> action.probed.pair in s.inFlight
  }

  function Do(s: Snapshot, action: Action): Snapshot {
    match action
    case Ask(pair) => Asked(s, pair)
    case Land(probed) => Landed(s, probed)
  }

  function After(actions: seq<Action>): Snapshot {
    if actions == [] then EMPTY else Do(After(actions[..|actions| - 1]), actions[|actions| - 1])
  }

  /** Any order of reads and landings, in which only probes that were started land. */
  predicate IsRun(actions: seq<Action>) {
    forall i :: 0 <= i < |actions| ==> Possible(After(actions[..i]), actions[i])
  }

  lemma RunWithoutLast(actions: seq<Action>)
    requires IsRun(actions) && actions != []
    ensures var n := |actions| - 1;
            IsRun(actions[..n]) && Possible(After(actions[..n]), actions[n])
  {
    var n := |actions| - 1;
    forall i | 0 <= i < n
      ensures Possible(After(actions[..n][..i]), actions[..n][i])
    {
      assert actions[..n][..i] == actions[..i];
    }
  }

  /** What holds after every run. */
  predicate Invariant(s: Snapshot) {
    // a refresh that is waited for is under way, and is the one started last
    && (s.refreshing.Some? ==> s.refreshing.value in s.inFlight && s.latest == s.refreshing)
    // once it has landed the entry speaks for its pair
    && (s.refreshing.None? && s.latest.Some? ==> s.entry.Some? && s.entry.value.pair == s.latest.value)
    && (s.latest.None? ==> s.entry.None? && s.inFlight == multiset{})
  }

  lemma {:induction false} RunsKeepInvariant(actions: seq<Action>)
    requires IsRun(actions)
    ensures Invariant(After(actions))
  {
    if actions != [] {
      RunWithoutLast(actions);
      RunsKeepInvariant(actions[..|actions| - 1]);
    }
  }

  /** In every order of landings: whenever `refreshing` names a pair a probe for it is in flight, and
      after the probe of the refresh started last has landed, the entry stays with that pair until
      another refresh is started, whatever late probes land in between. */
  lemma LateProbesCannotEvict(actions: seq<Action>, landings: seq<Check>)
    requires var all := actions + Landings(landings);
             IsRun(actions) && IsRun(all) && After(actions).latest.Some? && After(actions).refreshing.None?
    ensures var after := After(actions + Landings(landings));
            after.refreshing.None? && after.entry.Some? && Some(after.entry.value.pair) == After(actions).latest
  {
    var all := actions + Landings(landings);
    LandingsStartNothing(actions, landings);
    RunsKeepInvariant(all);
  }

  function Landings(checks: seq<Check>): (actions: seq<Action>)
    ensures |actions| == |checks|
  {
    seq(|checks|, i requires 0 <= i < |checks| => Land(checks[i]))
  }

  lemma OneMoreLanding(actions: seq<Action>, landings: seq<Check>)
    requires landings != []
    ensures var n := |landings| - 1;
            After(actions + Landings(landings)) == Landed(After(actions + Landings(landings[..n])), landings[n])
  {
    hide Landed;
    var n := |landings| - 1;
    var all := actions + Landings(landings);
    assert all[..|all| - 1] == actions + Landings(landings[..n]) && all[|all| - 1] == Land(landings[n]);
  }

  lemma {:induction false} LandingsStartNothing(actions: seq<Action>, landings: seq<Check>)
    ensures var before, after := After(actions), After(actions + Landings(landings));
            after.latest == before.latest && (before.refreshing.None? ==> after.refreshing.None?)
  {
    hide After, Landings;
    if landings == [] {
      assert actions + Landings(landings) == actions;
    } else {
      var n := |landings| - 1;
      LandingsStartNothing(actions, landings[..n]);
      OneMoreLanding(actions, landings);
    }
  }

  /** While only one pair is read, at most one probe is in flight. */
  lemma {:induction false} OneProbeForOnePair(actions: seq<Action>, pair: Pair)
    requires IsRun(actions) && forall i :: 0 <= i < |actions| && actions[i].Ask? ==> actions[i].pair == pair
    ensures After(actions).inFlight == if After(actions).refreshing.Some? then multiset{pair} else multiset{}
    ensures After(actions).refreshing in {None, Some(pair)}
  {
    if actions != [] {
      RunWithoutLast(actions);
      OneProbeForOnePair(actions[..|actions| - 1], pair);
    }
  }

  /** The read that goes wrong: a probe for its pair is in flight, but it is not the one waited for. */
  predicate Doubles(s: Snapshot, action: Action) {
    action.Ask? && action.pair in s.inFlight && s.refreshing != Some(action.pair)
  }

  ghost predicate OneProbeEach(s: Snapshot) {
    forall pair: Pair :: s.inFlight[pair] <= 1
  }

  lemma OneStepDoubles(s: Snapshot, action: Action)
    requires Invariant(s) && OneProbeEach(s) && Possible(s, action)
    ensures OneProbeEach(Do(s, action)) <==> !Doubles(s, action)
  {
    var next := Do(s, action);
    if Doubles(s, action) {
      assert next.inFlight[action.pair] == s.inFlight[action.pair] + 1;
    } else if action.Land? {
      assert forall pair: Pair :: next.inFlight[pair] <= s.inFlight[pair];
    }
  }

  /** Exactly when the promise of one background probe for a pair is kept, along a whole run: when no
      pair is read while a probe for it is in flight that another pair's refresh has superseded. */
  lemma {:induction false} OneProbeEachExactly(actions: seq<Action>)
    requires IsRun(actions)
    ensures (forall k :: 0 <= k <= |actions| ==> OneProbeEach(After(actions[..k])))
       <==> (forall k :: 0 <= k < |actions| ==> !Doubles(After(actions[..k]), actions[k]))
  {
    hide After, OneProbeEach, Doubles;
    if actions == [] {
      NothingInFlight();
      assert actions[..0] == [];
    } else {
      var n := |actions| - 1;
      var shorter := actions[..n];
      RunWithoutLast(actions);
      OneProbeEachExactly(shorter);
      assert forall k :: 0 <= k <= n ==> shorter[..k] == actions[..k];
      assert actions[..|actions|] == actions;
      if forall k :: 0 <= k <= n ==> OneProbeEach(After(actions[..k])) {
        RunsKeepInvariant(shorter);
        OneStepDoubles(After(shorter), actions[n]);
        LastStep(actions);
      } else {
        var k :| 0 <= k <= n && !OneProbeEach(After(actions[..k]));
        assert !OneProbeEach(After(shorter[..k]));
        var d :| 0 <= d < |shorter| && Doubles(After(shorter[..d]), shorter[d]);
        assert Doubles(After(actions[..d]), actions[d]);
      }
    }
  }

  lemma NothingInFlight()
    ensures OneProbeEach(After([]))
  {
  }

  lemma LastStep(actions: seq<Action>)
    requires actions != []
    ensures After(actions) == Do(After(actions[..|actions| - 1]), actions[|actions| - 1])
  {
  }

  /** With two pairs read in turn, a pair may have two probes in flight. */
  lemma TwoProbesForOnePair(p: Pair, q: Pair)
    requires p != q
    ensures IsRun([Ask(p), Ask(q), Ask(p)]) && After([Ask(p), Ask(q), Ask(p)]).inFlight[p] == 2
  {
    var run := [Ask(p), Ask(q), Ask(p)];
    assert run[..2] == [Ask(p), Ask(q)] && run[..2][..1] == [Ask(p)] && run[..2][..1][..0] == [];
    assert After([Ask(p)]) == Asked(EMPTY, p);
    assert After([Ask(p), Ask(q)]) == Asked(Asked(EMPTY, p), q);
  }

  class Cache {
    const ttl: int
    var entry: Option<Check>
    var refreshing: Option<Pair>
    // the background probes of the runtime, and the steps taken so far
    var inFlight: multiset<Pair>
    ghost var latest: Option<Pair>
    var history: seq<Action>

    ghost function State(): Snapshot reads this {
      Snapshot(entry, refreshing, inFlight, latest)
    }

    /** The cache is where the steps taken so far have brought it. */
    ghost predicate Valid() reads this {
      IsRun(history) && State() == After(history)
    }

    constructor (ttl: int)
      ensures Valid() && this.ttl == ttl && State() == EMPTY
    {
      this.ttl := ttl;
      entry, refreshing, inFlight, history := None, None, multiset{}, [];
      latest := None;
    }

    /** Other threads read, and probes land, while this one holds no lock. */
    method Interfere()
      requires Valid()
      modifies this
      ensures Valid() && old(history) <= history
    {
      hide After, IsRun;
      var longer: seq<Action> :| history <= longer && IsRun(longer);
      var met := After(longer);
      entry, refreshing, inFlight, history := met.entry, met.refreshing, met.inFlight, longer;
      latest := met.latest;
    }

    /** Serves what is cached for the pair at once; a stale or missing entry starts a probe. `met` is
        the cache as it was when the refresh was asked for. */
    method Checked(pair: Pair, now: int) returns (found: Option<Check>, ghost met: Snapshot)
      requires Valid()
      modifies this
      ensures Valid()
      ensures found == if old(entry).Some? && old(entry).value.pair == pair then old(entry) else None
      ensures var stale := found.None? || now - found.value.cachedAt >= ttl;
              State() == if stale then Asked(met, pair) else old(State())
    {
      found := if entry.Some? && entry.value.pair == pair then entry else None;
      met := State();
      if found.None? || now - found.value.cachedAt >= ttl {
        Interfere();
        met := State();
        RefreshInBackground(pair);
      }
    }

    method RefreshInBackground(pair: Pair)
      requires Valid()
      modifies this
      ensures Valid() && history == old(history) + [Ask(pair)]
      ensures State() == Asked(old(State()), pair)
    {
      hide After, IsRun;
      OneStep(history, Ask(pair));
      history := history + [Ask(pair)];
      if refreshing == Some(pair) {
        return;
      }
      refreshing := Some(pair);
      latest := Some(pair);
      inFlight := inFlight + multiset{pair};
    }

    /** A probe lands. */
    method StoreBackground(probed: Check)
      requires Valid() && probed.pair in inFlight
      modifies this
      ensures Valid() && history == old(history) + [Land(probed)]
      ensures State() == Landed(old(State()), probed)
    {
      hide After, IsRun;
      OneStep(history, Land(probed));
      history := history + [Land(probed)];
      inFlight := inFlight - multiset{probed.pair};
      var samePair := entry.None? || entry.value.pair == probed.pair;
      var askedFor := refreshing == Some(probed.pair);
      if askedFor {
        refreshing := None;
      }
      if samePair || askedFor {
        entry := Some(probed);
      }
    }
  }

  lemma OneStep(actions: seq<Action>, action: Action)
    requires IsRun(actions) && Possible(After(actions), action)
    ensures IsRun(actions + [action]) && After(actions + [action]) == Do(After(actions), action)
  {
    var longer := actions + [action];
    assert longer[..|actions|] == actions;
    forall i | 0 <= i < |longer|
      ensures Possible(After(longer[..i]), longer[i])
    {
      assert i < |actions| ==> longer[..i] == actions[..i];
    }
  }
}
