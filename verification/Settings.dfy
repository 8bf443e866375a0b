/** The Relay config: which environment the Gateway URL names, which team is picked there, which
    picks are parked for the other environments, and how picks survive a switch, a moved Gateway
    and a re-pushed managed config. */
module Settings {
  import opened IdentitySession
  import opened Text
  import opened Wrappers

  datatype AllowedCaller = AllowedCaller(identifier: string, teamId: Option<string>)

  datatype EnvironmentEntry = EnvironmentEntry(name: string, url: string, team: Option<string>)

  datatype GatewaySection = GatewaySection(
    url: string,
    apiKey: Option<string>,
    enrolledAt: Option<int>,
    expiresAt: Option<int>,
    team: Option<string>,
    teamByEnvironment: map<string, string>)

  datatype RelaySettings = RelaySettings(
    gateway: GatewaySection,
    environments: seq<EnvironmentEntry>,
    claudeTeam: Option<string>,
    codexTeam: Option<string>,
    idp: IdpSection,
    allowedCallers: Option<seq<AllowedCaller>>)
  {
    function CurrentEnvironment(): Option<EnvironmentEntry> {
      EnvironmentWithUrl(gateway.url)
    }

    function EnvironmentWithUrl(url: string): Option<EnvironmentEntry> {
      FindByUrl(environments, NormalUrl(url))
    }

    function EnvironmentNamed(name: string): Option<EnvironmentEntry> {
      FindByName(environments, name)
    }

    function CurrentName(): Option<string> {
      if CurrentEnvironment().Some? then Some(CurrentEnvironment().value.name) else None
    }

    /** The team the daemon works for: the pick, else the environment's own team, else (on the
        default gateway only) a tool's team. */
    function ManagedTeam(): Option<string> {
      var current := CurrentEnvironment();
      var selected := NonEmpty(gateway.team);
      var environment := if current.Some? then NonEmpty(current.value.team) else None;
      var onTheDefaultGateway := current.None? || (environments != [] && environments[0].name == current.value.name);
      var claude := if onTheDefaultGateway then NonEmpty(claudeTeam) else None;
      var codex := if onTheDefaultGateway then NonEmpty(codexTeam) else None;
      if selected.Some? then selected
      else if environment.Some? then environment
      else if claude.Some? then claude
      else codex
    }

    function WithGateway(section: GatewaySection): RelaySettings {
      this.(gateway := section)
    }

    /** `move_gateway_to` as a value. */
    function MovedTo(rawUrl: string): RelaySettings {
      var url := TrimEndSlashes(Trim(rawUrl));
      if NormalUrl(gateway.url) == url then WithGateway(gateway.(url := url))
      else
        var arriving := EnvironmentWithUrl(url);
        var parked := gateway.teamByEnvironment;
        var team := if arriving.Some? then Lookup(parked, arriving.value.name) else None;
        var remaining := if arriving.Some? then parked - {arriving.value.name} else parked;
        var picked := NonEmpty(gateway.team);
        WithGateway(gateway.(url := url, team := team,
                             teamByEnvironment := Parking(remaining, CurrentName(), picked)))
    }

    function CarryingSelectionFrom(previous: RelaySettings): CarriedSelection {
      match previous.CurrentEnvironment()
      case None => CarryingTeamOnTheSameGateway(previous)
      case Some(picked) =>
        match EnvironmentNamed(picked.name)
        case None => Nothing(EnvironmentGone)
        case Some(kept) =>
          var parked := map name | name in previous.gateway.teamByEnvironment && EnvironmentNamed(name).Some?
                        :: previous.gateway.teamByEnvironment[name];
          var onTheDefaultEnvironment := CurrentEnvironment() == Some(kept);
          if onTheDefaultEnvironment && previous.gateway.team.None? && parked == map[] then Nothing(DefaultUnpicked)
          else
            var team := if previous.gateway.team.Some? then previous.gateway.team
                        else if onTheDefaultEnvironment then gateway.team else None;
            Carried(WithGateway(gateway.(url := kept.url, team := team, teamByEnvironment := parked)))
    }

    function CarryingTeamOnTheSameGateway(previous: RelaySettings): CarriedSelection {
      if NormalUrl(gateway.url) != NormalUrl(previous.gateway.url) then Nothing(OtherGateway)
      else if previous.gateway.team.None? then Nothing(NoTeamPicked)
      else Carried(WithGateway(gateway.(team := previous.gateway.team)))
    }

    function CarryingPicksOver(previous: RelaySettings, seeded: RelaySettings): CarriedSelection {
      var picks := previous.WithoutSeededPicks(seeded);
      if picks.gateway.team.None? && picks.gateway.teamByEnvironment == map[] && picks.OnTheGatewayOf(seeded)
      then Nothing(NothingPicked)
      else CarryingPicksParkingTheManagedTeam(picks)
    }

    function CarryingInstallPicks(previous: RelaySettings, seeded: Option<RelaySettings>): CarriedSelection {
      match seeded
      case Some(seed) => CarryingPicksOver(previous, seed)
      case None => CarryingPicksParkingTheManagedTeam(previous.WithGateway(previous.gateway.(team := None)))
    }

    function CarryingPicksParkingTheManagedTeam(picks: RelaySettings): CarriedSelection {
      match CarryingSelectionFrom(picks)
      case Carried(settings) => Carried(settings.ParkingTeam(CurrentName(), NonEmpty(gateway.team)))
      case Nothing(reason) => Nothing(reason)
    }

    function ParkingTeam(environment: Option<string>, team: Option<string>): RelaySettings {
      if environment.None? || team.None? then this
      else
        var away := CurrentEnvironment().Some? && CurrentEnvironment().value.name != environment.value;
        if !away || environment.value in gateway.teamByEnvironment then this
        else WithGateway(gateway.(teamByEnvironment := gateway.teamByEnvironment[environment.value := team.value]))
    }

    predicate OnTheGatewayOf(other: RelaySettings) {
      match (CurrentEnvironment(), other.CurrentEnvironment())
      case (Some(mine), Some(theirs)) => mine.name == theirs.name
      case (None, None) => NormalUrl(gateway.url) == NormalUrl(other.gateway.url)
      case _ => false
    }

    /** The pair the earlier managed config itself put there, rather than the user. */
    predicate SeededPick(environment: Option<string>, team: string) {
      NonEmpty(gateway.team).Some? && NonEmpty(gateway.team) == NonEmpty(Some(team)) && environment == CurrentName()
    }

    function WithoutSeededPicks(seeded: RelaySettings): RelaySettings {
      var dropped := gateway.team.Some? && OnTheGatewayOf(seeded) && seeded.SeededPick(CurrentName(), gateway.team.value);
      var parked := map name | name in gateway.teamByEnvironment
                                 && !seeded.SeededPick(Some(name), gateway.teamByEnvironment[name])
                    :: gateway.teamByEnvironment[name];
      WithGateway(gateway.(team := if dropped then None else gateway.team, teamByEnvironment := parked))
    }
  }

  datatype Reason = EnvironmentGone | DefaultUnpicked | OtherGateway | NoTeamPicked | NothingPicked

  datatype CarriedSelection = Carried(settings: RelaySettings) | Nothing(reason: Reason)

  /** One slash and the surrounding white space do not distinguish URLs. */
  function NormalUrl(url: string): string {
    WithoutTrailingSlash(Trim(url))
  }

  function FindByUrl(entries: seq<EnvironmentEntry>, wanted: string): Option<EnvironmentEntry> {
    if entries == [] then None
    else if NormalUrl(entries[0].url) == wanted then Some(entries[0])
    else FindByUrl(entries[1..], wanted)
  }

  function FindByName(entries: seq<EnvironmentEntry>, name: string): Option<EnvironmentEntry> {
    if entries == [] then None
    else if entries[0].name == name then Some(entries[0])
    else FindByName(entries[1..], name)
  }

  function Lookup(m: map<string, string>, name: string): Option<string> {
    if name in m then Some(m[name]) else None
  }

  /** The parked picks once the environment being left parks its own. */
  function Parking(parked: map<string, string>, leaving: Option<string>, team: Option<string>): map<string, string> {
    if leaving.Some? && team.Some? then parked[leaving.value := team.value] else parked
  }

  /** What a switch writes over the gateway section. */
  datatype GatewayPatch =
    | Team(team: Option<string>)
    | Environment(url: string, team: Option<string>, teamByEnvironment: map<string, string>)
  {
    function AppliedTo(settings: RelaySettings): RelaySettings {
      match this
      case Team(team) => settings.WithGateway(settings.gateway.(team := team))
      case Environment(url, team, teamByEnvironment) =>
        settings.WithGateway(settings.gateway.(url := url, team := team, teamByEnvironment := teamByEnvironment))
    }
  }

  function EnvironmentPatch(settings: RelaySettings, entry: EnvironmentEntry): GatewayPatch {
    var parked := settings.gateway.teamByEnvironment;
    Environment(entry.url, Lookup(parked, entry.name),
                Parking(parked - {entry.name}, settings.CurrentName(), settings.gateway.team))
  }

  function RestoringPatch(settings: RelaySettings): GatewayPatch {
    Environment(settings.gateway.url, settings.gateway.team, settings.gateway.teamByEnvironment)
  }

  // ------------------------------------------------------------ picks as one map

  /** Environment names are distinct, and so are URLs up to one slash and white space. */
  ghost predicate Distinct(entries: seq<EnvironmentEntry>) {
    forall i, j :: 0 <= i < j < |entries| ==>
      entries[i].name != entries[j].name && NormalUrl(entries[i].url) != NormalUrl(entries[j].url)
  }

  predicate CleanPick(team: string) {
    Trimmed(team) && team != ""
  }

  ghost predicate CleanPicks(settings: RelaySettings) {
    && (settings.gateway.team.Some? ==> CleanPick(settings.gateway.team.value))
    && (forall name :: name in settings.gateway.teamByEnvironment ==> CleanPick(settings.gateway.teamByEnvironment[name]))
  }

  /** The environment in use parks nothing: its pick is `gateway.team`. */
  predicate CurrentIsNotParked(settings: RelaySettings) {
    settings.CurrentName().Some? ==> settings.CurrentName().value !in settings.gateway.teamByEnvironment
  }

  /** The abstraction: one map from environment name to picked team. */
  function Picks(settings: RelaySettings): map<string, string> {
    Parking(settings.gateway.teamByEnvironment, settings.CurrentName(), settings.gateway.team)
  }

  lemma {:induction false} FoundByUrl(entries: seq<EnvironmentEntry>, i: nat)
    requires Distinct(entries) && i < |entries|
    ensures FindByUrl(entries, NormalUrl(entries[i].url)) == Some(entries[i])
  {
    if i > 0 {
      assert NormalUrl(entries[0].url) != NormalUrl(entries[i].url);
      assert Distinct(entries[1..]);
      FoundByUrl(entries[1..], i - 1);
    }
  }

  lemma FindByUrlSound(entries: seq<EnvironmentEntry>, wanted: string)
    ensures var found := FindByUrl(entries, wanted);
            found.Some? ==> found.value in entries && NormalUrl(found.value.url) == wanted
  {
  }

  lemma FindByNameSound(entries: seq<EnvironmentEntry>, name: string)
    ensures var found := FindByName(entries, name);
            found.Some? ==> found.value in entries && found.value.name == name
  {
  }

  lemma NamesIdentify(settings: RelaySettings, a: EnvironmentEntry, b: EnvironmentEntry)
    requires Distinct(settings.environments)
    requires a in settings.environments && b in settings.environments && a.name == b.name
    ensures a == b
  {
  }

  lemma CurrentIsListed(settings: RelaySettings)
    ensures settings.CurrentEnvironment().Some? ==>
              settings.CurrentEnvironment().value in settings.environments
  {
    FindByUrlSound(settings.environments, NormalUrl(settings.gateway.url));
  }

  /** A config whose Gateway URL is an entry's URL is on that entry. */
  lemma OnTheEntry(settings: RelaySettings, entry: EnvironmentEntry)
    requires Distinct(settings.environments) && entry in settings.environments
    requires NormalUrl(settings.gateway.url) == NormalUrl(entry.url)
    ensures settings.CurrentEnvironment() == Some(entry)
  {
    var i :| 0 <= i < |settings.environments| && settings.environments[i] == entry;
    FoundByUrl(settings.environments, i);
  }

  /** Switching the environment arrives at the entry, leaves the map of picks alone, and keeps the
      environment in use out of the parked picks. */
  lemma EnvironmentSwitchKeepsPicks(settings: RelaySettings, entry: EnvironmentEntry)
    requires Distinct(settings.environments) && entry in settings.environments
    requires settings.CurrentName() != Some(entry.name)
    requires CurrentIsNotParked(settings)
    ensures
      var next := EnvironmentPatch(settings, entry).AppliedTo(settings);
      && next.CurrentEnvironment() == Some(entry)
      && Picks(next) == Picks(settings)
      && CurrentIsNotParked(next)
      && next.environments == settings.environments
  {
    OnTheEntry(EnvironmentPatch(settings, entry).AppliedTo(settings), entry);
  }

  /** Switching the team changes the current environment's pick and no other. */
  lemma TeamSwitchChangesOnePick(settings: RelaySettings, team: string)
    requires settings.CurrentName().Some?
    ensures Picks(Team(Some(team)).AppliedTo(settings)) == Picks(settings)[settings.CurrentName().value := team]
    ensures CurrentIsNotParked(settings) ==> CurrentIsNotParked(Team(Some(team)).AppliedTo(settings))
    ensures Team(Some(team)).AppliedTo(settings).CurrentName() == settings.CurrentName()
  {
    assert Team(Some(team)).AppliedTo(settings).CurrentEnvironment() == settings.CurrentEnvironment();
  }

  /** There and back again restores the team and the parked picks exactly. */
  lemma ThereAndBack(settings: RelaySettings, away: EnvironmentEntry)
    requires Distinct(settings.environments) && away in settings.environments
    requires settings.CurrentName().Some? && settings.CurrentName().value != away.name
    requires CurrentIsNotParked(settings)
    ensures
      var there := EnvironmentPatch(settings, away).AppliedTo(settings);
      var back := EnvironmentPatch(there, settings.CurrentEnvironment().value).AppliedTo(there);
      && back.gateway.team == settings.gateway.team
      && back.gateway.teamByEnvironment == settings.gateway.teamByEnvironment
      && back.CurrentEnvironment() == settings.CurrentEnvironment()
  {
    CurrentIsListed(settings);
    var home := settings.CurrentEnvironment().value;
    EnvironmentSwitchKeepsPicks(settings, away);
    var there := EnvironmentPatch(settings, away).AppliedTo(settings);
    EnvironmentSwitchKeepsPicks(there, home);
    var back := EnvironmentPatch(there, home).AppliedTo(there);
    assert back.gateway.teamByEnvironment == settings.gateway.teamByEnvironment;
  }

  /** A user's switch: to an environment by name, or to a team. */
  datatype Switch = ToEnvironment(name: string) | ToTeam(team: string)

  /** What a successful switch writes. The team the daemon works for already, the environment already
      in use and an unknown name write nothing. */
  function Switched(settings: RelaySettings, to: Switch): RelaySettings {
    match to
    case ToTeam(team) =>
      if settings.ManagedTeam() == Some(team) then settings else Team(Some(team)).AppliedTo(settings)
    case ToEnvironment(name) =>
      var entry := settings.EnvironmentNamed(name);
      if entry.None? || settings.CurrentName() == Some(name) then settings
      else EnvironmentPatch(settings, entry.value).AppliedTo(settings)
  }

  lemma SwitchedToAnEntry(settings: RelaySettings, name: string)
    ensures var entry := settings.EnvironmentNamed(name);
            Switched(settings, ToEnvironment(name)) ==
              if entry.None? || settings.CurrentName() == Some(entry.value.name) then settings
              else EnvironmentPatch(settings, entry.value).AppliedTo(settings)
  {
    FindByNameSound(settings.environments, name);
  }

  function AfterSwitches(settings: RelaySettings, run: seq<Switch>): RelaySettings
    decreases |run|
  {
    if run == [] then settings else AfterSwitches(Switched(settings, run[0]), run[1..])
  }

  /** The same run on the abstract side: where the user is and one map of picks. */
  datatype Selection = Selection(environment: string, picks: map<string, string>)

  /** The team an environment works for while nothing is picked there: its own, else in the default
      environment a tool's. */
  function OwnTeam(settings: RelaySettings, name: string): Option<string> {
    var entry := settings.EnvironmentNamed(name);
    var environment := if entry.Some? then NonEmpty(entry.value.team) else None;
    var isDefault := settings.environments != [] && settings.environments[0].name == name;
    if environment.Some? then environment
    else if isDefault && NonEmpty(settings.claudeTeam).Some? then NonEmpty(settings.claudeTeam)
    else if isDefault then NonEmpty(settings.codexTeam)
    else None
  }

  /** The team a selection works for: the pick, else the environment's own. */
  function TeamOf(settings: RelaySettings, selection: Selection): Option<string> {
    var pick := NonEmpty(Lookup(selection.picks, selection.environment));
    if pick.Some? then pick else OwnTeam(settings, selection.environment)
  }

  /** `settings` gives the environments and the tools' teams, which no switch changes. */
  function Selecting(settings: RelaySettings, selection: Selection, to: Switch): Selection {
    match to
    case ToTeam(team) =>
      if TeamOf(settings, selection) == Some(team) then selection
      else selection.(picks := selection.picks[selection.environment := team])
    case ToEnvironment(name) => if name in Names(settings) then selection.(environment := name) else selection
  }

  function AfterSelecting(settings: RelaySettings, selection: Selection, run: seq<Switch>): Selection
    decreases |run|
  {
    if run == [] then selection else AfterSelecting(settings, Selecting(settings, selection, run[0]), run[1..])
  }

  function Names(settings: RelaySettings): set<string> {
    set entry | entry in settings.environments :: entry.name
  }

  function SelectionOf(settings: RelaySettings): Selection
    requires settings.CurrentName().Some?
  {
    Selection(settings.CurrentName().value, Picks(settings))
  }

  lemma NamedIffListed(entries: seq<EnvironmentEntry>, name: string)
    ensures FindByName(entries, name).Some? <==> exists entry :: entry in entries && entry.name == name
  {
  }

  /** The team the daemon works for is the selection's. */
  lemma ManagedTeamIsSelected(settings: RelaySettings)
    requires Distinct(settings.environments) && CurrentIsNotParked(settings) && settings.CurrentName().Some?
    ensures settings.ManagedTeam() == TeamOf(settings, SelectionOf(settings))
  {
    CurrentIsListed(settings);
    var current := settings.CurrentEnvironment().value;
    NamedIffListed(settings.environments, current.name);
    FindByNameSound(settings.environments, current.name);
    NamesIdentify(settings, current, settings.EnvironmentNamed(current.name).value);
    assert Lookup(Picks(settings), current.name) == settings.gateway.team;
  }

  /** Without an environment in use the daemon works for the pick, else a tool's team, Claude's first; a
      team of white space counts as none. */
  lemma ManagedTeamOffTheList(settings: RelaySettings)
    requires settings.CurrentEnvironment().None?
    ensures settings.ManagedTeam().None? <==>
      NonEmpty(settings.gateway.team).None? && NonEmpty(settings.claudeTeam).None? && NonEmpty(settings.codexTeam).None?
    ensures forall team :: settings.ManagedTeam() == Some(team) <==>
      || NonEmpty(settings.gateway.team) == Some(team)
      || (NonEmpty(settings.gateway.team).None? && NonEmpty(settings.claudeTeam) == Some(team))
      || (NonEmpty(settings.gateway.team).None? && NonEmpty(settings.claudeTeam).None? && NonEmpty(settings.codexTeam) == Some(team))
  {
  }

  /** What no switch changes. */
  predicate SameEnvironments(a: RelaySettings, b: RelaySettings) {
    a.environments == b.environments && a.claudeTeam == b.claudeTeam && a.codexTeam == b.codexTeam
  }

  lemma OneSwitchRefines(first: RelaySettings, settings: RelaySettings, to: Switch)
    requires SameEnvironments(first, settings)
    requires Distinct(settings.environments) && CurrentIsNotParked(settings) && settings.CurrentName().Some?
    ensures var next := Switched(settings, to);
            && next.CurrentName().Some? && CurrentIsNotParked(next) && SameEnvironments(first, next)
            && SelectionOf(next) == Selecting(first, SelectionOf(settings), to)
  {
    match to
    case ToTeam(team) =>
      TeamSwitchChangesOnePick(settings, team);
      ManagedTeamIsSelected(settings);
      assert TeamOf(first, SelectionOf(settings)) == TeamOf(settings, SelectionOf(settings));
    case ToEnvironment(name) =>
      NamedIffListed(settings.environments, name);
      FindByNameSound(settings.environments, name);
      CurrentIsListed(settings);
      var entry := settings.EnvironmentNamed(name);
      if entry.Some? && settings.CurrentName() != Some(name) {
        EnvironmentSwitchKeepsPicks(settings, entry.value);
      }
  }

  /** Every run of switches refines the abstract selection, and the environment in use is never
      parked anywhere along it. */
  lemma SwitchesRefineOneMap(settings: RelaySettings, run: seq<Switch>)
    requires Distinct(settings.environments) && CurrentIsNotParked(settings) && settings.CurrentName().Some?
    ensures var last := AfterSwitches(settings, run);
            && last.CurrentName().Some? && CurrentIsNotParked(last)
            && SelectionOf(last) == AfterSelecting(settings, SelectionOf(settings), run)
            && last.ManagedTeam() == TeamOf(settings, AfterSelecting(settings, SelectionOf(settings), run))
  {
    RunRefines(settings, settings, run);
    var last := AfterSwitches(settings, run);
    ManagedTeamIsSelected(last);
    assert TeamOf(settings, SelectionOf(last)) == TeamOf(last, SelectionOf(last));
  }

  lemma {:induction false} RunRefines(first: RelaySettings, settings: RelaySettings, run: seq<Switch>)
    requires SameEnvironments(first, settings)
    requires Distinct(settings.environments) && CurrentIsNotParked(settings) && settings.CurrentName().Some?
    ensures var last := AfterSwitches(settings, run);
            && last.CurrentName().Some? && CurrentIsNotParked(last) && SameEnvironments(first, last)
            && SelectionOf(last) == AfterSelecting(first, SelectionOf(settings), run)
    decreases |run|
  {
    if run != [] {
      OneSwitchRefines(first, settings, run[0]);
      RunRefines(first, Switched(settings, run[0]), run[1..]);
    }
  }

  // ------------------------------------------------------------ cutting slashes off

  /** Ends in a slash that white space or another slash stands before. */
  predicate Ragged(url: string) {
    |url| >= 2 && url[|url| - 1] == '/'
    && (url[|url| - 2] == '/' || (IsWhiteSpace(url[|url| - 2]) && Trim(url[..|url| - 1]) != ""))
  }

  /** Cutting off all slashes first leaves a URL's normal form exactly when it is not ragged. */
  lemma RaggedExactly(url: string)
    ensures NormalUrl(TrimEndSlashes(url)) == NormalUrl(url) <==> !Ragged(url)
  {
    if url != "" && url[|url| - 1] == '/' {
      var w := url[..|url| - 1];
      assert url == w + "/";
      NormalOfSlashed(w);
      if w != "" && w[|w| - 1] == '/' {
        SlashesAreLonger(w);
      } else {
        assert TrimEndSlashes(w) == w;
        OneSlash(w);
      }
    }
  }

  lemma NormalOfSlashed(w: string)
    ensures NormalUrl(w + "/") == TrimStart(w)
  {
    TrimStartBefore(w, "/");
    assert TrimStart("/") == "/";
    assert TrimEnd(TrimStart(w) + "/") == TrimStart(w) + "/";
  }

  lemma OneSlash(w: string)
    requires w != "" ==> w[|w| - 1] != '/'
    ensures NormalUrl(w) == TrimStart(w) <==> !(w != "" && IsWhiteSpace(w[|w| - 1]) && Trim(w) != "")
  {
    TrimStartKeepsTheEnd(w);
    TrimStartDropsWhiteSpace(w);
    TrimEndKeepsTheStart(TrimStart(w));
    var t := TrimStart(w);
    if t != "" {
      assert t[|t| - 1] == w[|w| - 1];
      if !IsWhiteSpace(t[|t| - 1]) {
        assert TrimEnd(t) == t;
      } else {
        TrimEndKeepsTheStart(t[..|t| - 1]);
      }
    }
  }

  lemma SlashesAreLonger(w: string)
    requires w != "" && w[|w| - 1] == '/'
    ensures |NormalUrl(TrimEndSlashes(w))| < |TrimStart(w)|
  {
    var cut := TrimEndSlashes(w);
    CutIsShorter(w);
    var slashes := w[|cut|..];
    TrimStartBefore(cut, slashes);
    assert w == cut + slashes;
    TrimEndKeepsTheStart(TrimStart(cut));
  }

  lemma {:induction false} CutIsShorter(w: string)
    requires w != "" && w[|w| - 1] == '/'
    ensures TrimEndSlashes(w) <= w && |TrimEndSlashes(w)| < |w| && w[|TrimEndSlashes(w)|] == '/'
  {
    var shorter := w[..|w| - 1];
    if shorter != "" && shorter[|shorter| - 1] == '/' {
      CutIsShorter(shorter);
    }
  }

  // ------------------------------------------------------------ moving the Gateway

  /** At most one trailing slash, and no white space before it. */
  predicate CleanUrl(url: string) {
    TrimEndSlashes(Trim(url)) == NormalUrl(url) && Trimmed(NormalUrl(url))
  }

  lemma NormalUrlIsFixed(url: string)
    requires CleanUrl(url)
    ensures NormalUrl(NormalUrl(url)) == NormalUrl(url)
  {
    TrimOfTrimmed(NormalUrl(url));
    TrimEndSlashesIsAPrefix(Trim(url));
  }

  /** Onboarding a tool onto an entry's URL and switching to that entry write the same gateway
      section, up to the URL's white space and slash. */
  lemma MovingIsSwitching(settings: RelaySettings, entry: EnvironmentEntry)
    requires Distinct(settings.environments) && entry in settings.environments && CleanUrl(entry.url)
    requires settings.CurrentName() != Some(entry.name)
    requires settings.gateway.team.Some? ==> CleanPick(settings.gateway.team.value)
    ensures settings.MovedTo(entry.url).gateway
         == EnvironmentPatch(settings, entry).AppliedTo(settings).gateway.(url := NormalUrl(entry.url))
  {
    var url := NormalUrl(entry.url);
    NormalUrlIsFixed(entry.url);
    if settings.gateway.team.Some? {
      TrimOfTrimmed(settings.gateway.team.value);
    }
    if NormalUrl(settings.gateway.url) == url {
      OnTheEntry(settings, entry);
    }
    OnTheEntry(settings.WithGateway(settings.gateway.(url := url)), entry);
  }

  /** Moving the Gateway to a URL that is in no environment leaves the map of picks alone, with the one
      of the environment being left parked, and picks no team. */
  lemma MovingOffTheList(settings: RelaySettings, rawUrl: string)
    requires settings.gateway.team.Some? ==> CleanPick(settings.gateway.team.value)
    requires var url := TrimEndSlashes(Trim(rawUrl)); NormalUrl(settings.gateway.url) != url && settings.EnvironmentWithUrl(url).None?
    ensures var moved := settings.MovedTo(rawUrl);
      && moved.CurrentEnvironment().None? && moved.gateway.team.None? && Picks(moved) == Picks(settings)
      && moved == settings.(gateway := settings.gateway.(url := TrimEndSlashes(Trim(rawUrl)), team := None, teamByEnvironment := Picks(settings)))
  {
    if settings.gateway.team.Some? {
      TrimOfTrimmed(settings.gateway.team.value);
    }
  }

  /** The config a command edits in place before it saves it. */
  class LiveSettings {
    var settings: RelaySettings

    constructor (loaded: RelaySettings)
      ensures settings == loaded
    {
      settings := loaded;
    }

    method MoveGatewayTo(rawUrl: string)
      modifies this
      ensures settings == old(settings).MovedTo(rawUrl)
    {
      var url := TrimEndSlashes(Trim(rawUrl));
      if NormalUrl(settings.gateway.url) == url {
        settings := settings.WithGateway(settings.gateway.(url := url));
        return;
      }
      var leaving := settings.CurrentName();
      var picked := NonEmpty(settings.gateway.team);
      var arriving := settings.EnvironmentWithUrl(url);
      var parked := settings.gateway.teamByEnvironment;
      var team := None;
      if arriving.Some? {
        team := Lookup(parked, arriving.value.name);
        parked := parked - {arriving.value.name};
      }
      settings := settings.WithGateway(
        settings.gateway.(url := url, team := team, teamByEnvironment := Parking(parked, leaving, picked)));
    }
  }

  // ------------------------------------------------------------ carrying picks over a re-push

  /** What the user picked under the previous config: every pick that the earlier managed config
      did not itself seed. Without a seeded copy the current pick cannot be told apart and is dropped. */
  function UserPick(previous: RelaySettings, seeded: Option<RelaySettings>, name: string): Option<string> {
    match seeded
    case None => Lookup(previous.gateway.teamByEnvironment, name)
    case Some(seed) =>
      if name in Picks(previous) && !seed.SeededPick(Some(name), Picks(previous)[name])
      then Some(Picks(previous)[name])
      else None
  }

  /** The formula: the user's pick, else the new managed team on the new default environment. */
  function CarriedPick(pushed: RelaySettings, previous: RelaySettings, seeded: Option<RelaySettings>, name: string): Option<string> {
    if pushed.EnvironmentNamed(name).None? then None
    else if UserPick(previous, seeded, name).Some? then UserPick(previous, seeded, name)
    else if pushed.CurrentName() == Some(name) then pushed.gateway.team
    else None
  }

  function Installed(pushed: RelaySettings, carried: CarriedSelection): RelaySettings {
    match carried
    case Carried(settings) => settings
    case Nothing(_) => pushed
  }

  /** What is carried before the new managed team is parked: the environment in use with its pick and the
      parked picks of all environments that are named again; nothing when it is not named; and without
      one, the team alone, on the same Gateway. */
  lemma CarriedBeforeParking(pushed: RelaySettings, picks: RelaySettings)
    requires Distinct(pushed.environments) && pushed.gateway.teamByEnvironment == map[] && CurrentIsNotParked(picks)
    ensures
      var result := Installed(pushed, pushed.CarryingSelectionFrom(picks));
      if picks.CurrentName().None? then
        result == if picks.gateway.team.Some? && NormalUrl(pushed.gateway.url) == NormalUrl(picks.gateway.url)
                  then pushed.(gateway := pushed.gateway.(team := picks.gateway.team)) else pushed
      else
        var kept := pushed.EnvironmentNamed(picks.CurrentName().value);
        if kept.None? then result == pushed
        else
          && result.CurrentEnvironment() == kept
          && result.gateway.team == (if picks.gateway.team.Some? then picks.gateway.team
                                     else if pushed.CurrentName() == picks.CurrentName() then pushed.gateway.team else None)
          && forall name :: Lookup(result.gateway.teamByEnvironment, name)
               == if pushed.EnvironmentNamed(name).Some? then Lookup(picks.gateway.teamByEnvironment, name) else None
  {
    if picks.CurrentName().Some? && pushed.EnvironmentNamed(picks.CurrentName().value).Some? {
      CarriedWithTheEnvironment(pushed, picks, pushed.EnvironmentNamed(picks.CurrentName().value).value);
    }
  }

  lemma CarriedWithTheEnvironment(pushed: RelaySettings, picks: RelaySettings, kept: EnvironmentEntry)
    requires Distinct(pushed.environments) && pushed.gateway.teamByEnvironment == map[] && CurrentIsNotParked(picks)
    requires picks.CurrentName().Some? && pushed.EnvironmentNamed(picks.CurrentName().value) == Some(kept)
    ensures
      var result := Installed(pushed, pushed.CarryingSelectionFrom(picks));
      && kept.name == picks.CurrentName().value && result.CurrentEnvironment() == Some(kept)
      && result.gateway.team == (if picks.gateway.team.Some? then picks.gateway.team
                                 else if pushed.CurrentName() == Some(kept.name) then pushed.gateway.team else None)
      && forall name :: Lookup(result.gateway.teamByEnvironment, name)
           == if pushed.EnvironmentNamed(name).Some? then Lookup(picks.gateway.teamByEnvironment, name) else None
  {
    FindByNameSound(pushed.environments, picks.CurrentName().value);
    FindByNameSound(pushed.environments, kept.name);
    CurrentIsListed(pushed);
    if pushed.CurrentName() == Some(kept.name) {
      NamesIdentify(pushed, kept, pushed.CurrentEnvironment().value);
    }
    var carried := pushed.CarryingSelectionFrom(picks);
    var parked := map n | n in picks.gateway.teamByEnvironment && pushed.EnvironmentNamed(n).Some?
                  :: picks.gateway.teamByEnvironment[n];
    if carried.Carried? {
      OnTheEntry(carried.settings, kept);
    } else {
      forall name | name in picks.gateway.teamByEnvironment
        ensures pushed.EnvironmentNamed(name).None?
      {
        assert pushed.EnvironmentNamed(name).Some? ==> name in parked;
      }
    }
  }

  lemma CarriedSelectionPick(pushed: RelaySettings, picks: RelaySettings, name: string)
    requires Distinct(pushed.environments) && CleanPicks(pushed) && pushed.gateway.teamByEnvironment == map[]
    requires CurrentIsNotParked(picks) && picks.CurrentName().Some?
    requires pushed.EnvironmentNamed(picks.CurrentName().value).Some?
    ensures
      var result := Installed(pushed, pushed.CarryingPicksParkingTheManagedTeam(picks));
      && Lookup(Picks(result), name)
           == (if pushed.EnvironmentNamed(name).None? then None
               else if name in Picks(picks) then Some(Picks(picks)[name])
               else if pushed.CurrentName() == Some(name) then pushed.gateway.team
               else None)
      && CurrentIsNotParked(result)
      && result.CurrentName() == picks.CurrentName()
  {
    hide Trim, NormalUrl;
    var kept := pushed.EnvironmentNamed(picks.CurrentName().value).value;
    FindByNameSound(pushed.environments, picks.CurrentName().value);
    CarriedWithTheEnvironment(pushed, picks, kept);
    CurrentIsListed(pushed);
    NamedIffListed(pushed.environments, name);
    if pushed.gateway.team.Some? {
      TrimOfTrimmed(pushed.gateway.team.value);
    }
    var before := Installed(pushed, pushed.CarryingSelectionFrom(picks));
    var result := Installed(pushed, pushed.CarryingPicksParkingTheManagedTeam(picks));
    assert pushed.CarryingSelectionFrom(picks).Carried? ==>
        result == before.ParkingTeam(pushed.CurrentName(), NonEmpty(pushed.gateway.team));
    assert result.CurrentEnvironment() == before.CurrentEnvironment();
    assert before.CurrentName() == Some(kept.name);
    assert Lookup(picks.gateway.teamByEnvironment, kept.name) == None;
    assert Lookup(before.gateway.teamByEnvironment, kept.name) == None;
    assert Lookup(before.gateway.teamByEnvironment, name)
        == if pushed.EnvironmentNamed(name).Some? then Lookup(picks.gateway.teamByEnvironment, name) else None;
  }

  /** The team the user picked on a Gateway that is in no environment, unless the earlier managed config
      had put that team there for that Gateway. */
  function UserTeam(previous: RelaySettings, seeded: Option<RelaySettings>): Option<string> {
    match (seeded, previous.gateway.team)
    case (Some(seed), Some(team)) =>
      if seed.CurrentEnvironment().None? && NormalUrl(seed.gateway.url) == NormalUrl(previous.gateway.url)
         && NonEmpty(seed.gateway.team).Some? && NonEmpty(seed.gateway.team) == NonEmpty(Some(team))
      then None else Some(team)
    case _ => None
  }

  /** What is installed where the map formula does not apply. The environment in use is gone: the pushed
      config itself. The Gateway was in no environment: the pushed config with the user's team exactly
      when it keeps the Gateway, up to the normal form of the URL, and there is such a team, else the
      pushed config itself. In no case does anything change but the URL, the team and the parked picks. */
  lemma InstalledOffTheMap(pushed: RelaySettings, previous: RelaySettings, seeded: Option<RelaySettings>)
    ensures
      var installed := Installed(pushed, pushed.CarryingInstallPicks(previous, seeded));
      && (previous.CurrentName().Some? && pushed.EnvironmentNamed(previous.CurrentName().value).None? ==> installed == pushed)
      && (previous.CurrentName().None? ==>
            var team := UserTeam(previous, seeded);
            if team.Some? && NormalUrl(pushed.gateway.url) == NormalUrl(previous.gateway.url)
            then installed == pushed.(gateway := pushed.gateway.(team := team))
            else installed == pushed)
      && installed == pushed.(gateway := pushed.gateway.(url := installed.gateway.url, team := installed.gateway.team,
                                                         teamByEnvironment := installed.gateway.teamByEnvironment))
  {
    hide NormalUrl, Trim;
    var picks := match seeded
                 case None => previous.WithGateway(previous.gateway.(team := None))
                 case Some(seed) => previous.WithoutSeededPicks(seed);
    assert picks.CurrentEnvironment() == previous.CurrentEnvironment();
    if previous.CurrentName().None? && picks.gateway.team.Some? {
      var carried := pushed.WithGateway(pushed.gateway.(team := picks.gateway.team));
      assert carried.CurrentEnvironment() == pushed.CurrentEnvironment();
    }
  }

  lemma FormulaOnTheMap(pushed: RelaySettings, previous: RelaySettings, seeded: Option<RelaySettings>, name: string)
    requires Distinct(pushed.environments) && CleanPicks(pushed) && pushed.gateway.teamByEnvironment == map[]
    requires CleanPicks(previous) && CurrentIsNotParked(previous) && previous.CurrentName().Some?
    requires pushed.EnvironmentNamed(previous.CurrentName().value).Some?
    ensures var result := Installed(pushed, pushed.CarryingInstallPicks(previous, seeded));
            && Lookup(Picks(result), name) == CarriedPick(pushed, previous, seeded, name)
            && CurrentIsNotParked(result)
            && result.CurrentName() == (if pushed.CarryingInstallPicks(previous, seeded) == Nothing(NothingPicked)
                                        then pushed.CurrentName() else previous.CurrentName())
  {
    match seeded
    case None =>
      var picks := previous.WithGateway(previous.gateway.(team := None));
      assert picks.CurrentEnvironment() == previous.CurrentEnvironment();
      CarriedSelectionPick(pushed, picks, name);
    case Some(seed) =>
      var picks := previous.WithoutSeededPicks(seed);
      assert picks.CurrentEnvironment() == previous.CurrentEnvironment();
      assert name in Picks(picks) <==> UserPick(previous, seeded, name).Some?;
      CarriedSelectionPick(pushed, picks, name);
      CurrentIsListed(pushed);
      NamedIffListed(pushed.environments, name);
  }

  /** Carrying the picks into a re-pushed managed config. While the environment in use is named again it is
      the formula above, for every environment name: nothing of a dropped environment survives, and the
      environment in use is never parked. Once it is gone nothing is carried; and without one only the
      user's team can be, on the same Gateway. */
  lemma CarryIsAMapFormula(pushed: RelaySettings, previous: RelaySettings, seeded: Option<RelaySettings>, name: string)
    requires Distinct(pushed.environments) && CleanPicks(pushed) && pushed.gateway.teamByEnvironment == map[]
    requires CleanPicks(previous) && CurrentIsNotParked(previous)
    ensures
      var carried := pushed.CarryingInstallPicks(previous, seeded);
      var result := Installed(pushed, carried);
      if previous.CurrentName().None? then
        var team := UserTeam(previous, seeded);
        result == if team.Some? && NormalUrl(pushed.gateway.url) == NormalUrl(previous.gateway.url)
                  then pushed.(gateway := pushed.gateway.(team := team)) else pushed
      else if pushed.EnvironmentNamed(previous.CurrentName().value).None? then result == pushed
      else
        && Lookup(Picks(result), name) == CarriedPick(pushed, previous, seeded, name)
        && CurrentIsNotParked(result)
        && result.CurrentName() == (if carried == Nothing(NothingPicked) then pushed.CurrentName() else previous.CurrentName())
  {
    hide NormalUrl, Trim;
    if previous.CurrentName().Some? && pushed.EnvironmentNamed(previous.CurrentName().value).Some? {
      FormulaOnTheMap(pushed, previous, seeded, name);
    } else {
      InstalledOffTheMap(pushed, previous, seeded);
    }
  }
}
