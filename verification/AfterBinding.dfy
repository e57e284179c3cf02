/** What the drift audit says about a repository after it was bound: exactly when it has nothing to object to, and
    what it can still report. */
module AfterBinding {
  import opened Text
  import opened RepoBinding
  import opened BindingAudit

  // ---- Trimming and splitting ----

  lemma {:induction false} TrimStartDrops(s: string)
    ensures exists k: nat :: k <= |s| && TrimStart(s) == s[k..]
  {
    if s != "" && IsWhitespace(s[0]) {
      TrimStartDrops(s[1..]);
      var k: nat :| k <= |s[1..]| && TrimStart(s[1..]) == s[1..][k..];
      assert s[1..][k..] == s[k + 1..];
    } else {
      assert s[0..] == s;
    }
  }

  /** Trimming adds no characters. */
  lemma TrimOnlyDrops(s: string, c: char)
    requires c !in s
    ensures c !in Trim(s)
  {
    TrimStartDrops(s);
    var k: nat :| k <= |s| && TrimStart(s) == s[k..];
    var t := Trim(s);
    assert t <= TrimStart(s);
    forall i | 0 <= i < |t| ensures t[i] != c { assert t[i] == s[k + i]; }
  }

  lemma MonitorNameHasNoSlash(b: Binding)
    ensures '/' !in b.MonitorName()
    ensures '/' !in b.repo ==> b.MonitorName() == b.repo && !IsOwnerRepo(b.repo)
  {
    var parts := Split(b.repo, '/');
    assert parts[|parts| - 1] in parts;
  }

  lemma OwnerRepoHasSlash(repo: string)
    requires IsOwnerRepo(repo)
    ensures '/' in repo
  {
  }

  // ---- Who claims the repository ----

  predicate SelfClaims(b: Binding) { b.channelName.Some? && (IsOwnerRepo(b.repo) || '/' !in b.repo) }

  /** The monitor of a binding is taken for its repository iff a channel name was given and the repository is named
      `owner/name` or without a slash. */
  lemma SelfClaimsIff(b: Binding, rest: string)
    requires b.Valid()
    ensures Identity(BoundMonitor(b, rest)) == Some(b.repo) <==> SelfClaims(b)
  {
    hide IsWhitespace, Split, IsOwnerRepo, TrimStart, TrimEnd;
    TrimOfTrimmed(b.repo);
    TrimOfTrimmed(b.channel);
    if b.channelName.Some? { TrimOfTrimmed(b.channelName.value); }
    MonitorNameHasNoSlash(b);
    TrimOnlyDrops(b.MonitorName(), '/');
    var m := BoundMonitor(b, rest);
    if IsOwnerRepo(b.repo) {
      assert m.githubRepo == Some(b.repo);
    } else {
      assert m.githubRepo == None && MonitorRepo(m) == Normalize(m.name);
      if '/' in b.repo { assert Trim(b.MonitorName()) != b.repo; }
    }
  }

  lemma SetupIsBinding(r: Route, repo: string)
    requires !Blank(repo)
    ensures SetupRepo(r) == Some(repo) <==> IsBinding(r, repo)
  {
  }

  /** After a binding the repository has one setup route, to the requested channel. */
  lemma OneSetupRoute(c: Config, b: Binding)
    requires b.Valid() && Refusal(c, b) == None
    ensures var d, i := Rebound(c, b), RouteIndex(c.routes, b);
      SetupIndices(d.routes, b.repo) == [i] && SetupRouteOf(d.routes, b.repo) == SetupRoute(b.repo, [i], Some(b.channel), b.channelName)
  {
    hide Refusal, Where, SetupRepo, IsBinding, ReboundRoutes, ReboundMonitors, MonitorIndex, RouteIndex, Trim;
    Accepted(c, b);
    OneRoute(c.routes, b);
    var d := Rebound(c, b);
    assert SetupFlags(d.routes, b.repo) == RouteFlags(d.routes, b.repo) by {
      TrimOfTrimmed(b.repo);
      forall j | 0 <= j < |d.routes| ensures SetupRepo(d.routes[j]) == Some(b.repo) <==> IsBinding(d.routes[j], b.repo) {
        SetupIsBinding(d.routes[j], b.repo);
      }
    }
  }

  // ---- What cannot be reported ----

  /** After a binding there is no second setup route and no manual wildcard route for the repository. */
  lemma NoRouteConflict(c: Config, b: Binding, disk: Disk, f: Finding)
    requires b.Valid() && Refusal(c, b) == None && f.repo == b.repo && Reports(Rebound(c, b), disk, f)
    ensures f.code != DuplicateSetupRoute && f.code != ManualRouteConflict && f.code != RepoIdentityMismatch
  {
    OneSetupRoute(c, b);
    NoManualRoute(c, b);
    RouteReportsCodes(SetupRouteOf(Rebound(c, b).routes, b.repo), Rebound(c, b).monitors, disk);
    hide Refusal, SetupIndices, SetupRouteOf, PairReports, Claims, ClaimCount, IsManualFor, Rebound;
  }

  lemma NoManualRoute(c: Config, b: Binding)
    requires b.Valid() && Refusal(c, b) == None
    ensures forall j :: 0 <= j < |Rebound(c, b).routes| ==> !IsManualFor(Rebound(c, b).routes[j], b.repo)
  {
    hide Refusal, ReboundRoutes, ReboundMonitors, RouteIndex, WildcardToDiscord, Plain;
    Accepted(c, b);
    OneRoute(c.routes, b);
    TrimOfTrimmed(b.repo);
    var d := Rebound(c, b);
    forall j | 0 <= j < |d.routes| ensures !IsManualFor(d.routes[j], b.repo) {
      SetupIsBinding(d.routes[j], b.repo);
      if j != RouteIndex(c.routes, b) { assert !ManualRouteFor(c.routes[j], b.repo); }
    }
  }

  // ---- When the audit is clean ----

  /** The audit finds the repository's route and monitors in step: no duplicate, no missing monitor, no mismatch, no
      manual route. */
  ghost predicate InStep(c: Config, disk: Disk, repo: string) {
    forall f: Finding :: f.repo == repo && Reports(c, disk, f) ==>
      f.code !in {DuplicateSetupRoute, MissingGitMonitor, ChannelMismatch, ChannelNameMismatch, ManualRouteConflict}
  }

  /** A monitor that the binding leaves alone and that the audit takes for the repository's. */
  predicate OtherClaims(c: Config, b: Binding, k: nat) {
    k < |c.monitors| && k != MonitorIndex(c.monitors, b) && Identity(c.monitors[k]) == Some(b.repo)
  }

  lemma ClaimsAfter(c: Config, b: Binding, k: nat)
    requires b.Valid() && Refusal(c, b) == None
    ensures Claims(Rebound(c, b).monitors, k, b.repo) <==> OtherClaims(c, b, k) || (k == MonitorIndex(c.monitors, b) && SelfClaims(b))
    ensures OtherClaims(c, b, k) ==> k < |Rebound(c, b).monitors| && Rebound(c, b).monitors[k] == c.monitors[k]
    ensures k == MonitorIndex(c.monitors, b) ==>
              k < |Rebound(c, b).monitors| &&
              Rebound(c, b).monitors[k].channel == Some(b.channel) && Rebound(c, b).monitors[k].channelName == b.channelName
  {
    hide Refusal, MonitorIndex, Identity, SelfClaims;
    Accepted(c, b);
    OneMonitor(c.monitors, b);
    var d, own := Rebound(c, b), MonitorIndex(c.monitors, b);
    SelfClaimsIff(b, d.monitors[own].rest);
  }

  /** The findings of the five kinds are those about the route. */
  lemma InStepIsAboutTheRoute(c: Config, b: Binding, disk: Disk)
    requires b.Valid() && Refusal(c, b) == None
    ensures var d, i := Rebound(c, b), RouteIndex(c.routes, b); var route := SetupRoute(b.repo, [i], Some(b.channel), b.channelName);
      InStep(d, disk, b.repo) <==> forall f: Finding :: f.repo == b.repo && RouteReports(route, d.monitors, disk, f) ==>
        f.code !in {MissingGitMonitor, ChannelMismatch, ChannelNameMismatch}
  {
    hide Refusal, SetupIndices, SetupRouteOf, RouteReports, Claims, ClaimCount, IsManualFor, Rebound, RouteIndex;
    var d, i := Rebound(c, b), RouteIndex(c.routes, b);
    var route := SetupRoute(b.repo, [i], Some(b.channel), b.channelName);
    OneSetupRoute(c, b);
    forall f: Finding | f.repo == b.repo && Reports(d, disk, f) ensures f.code != DuplicateSetupRoute && f.code != ManualRouteConflict {
      NoRouteConflict(c, b, disk, f);
    }
  }

  lemma Mismatches(route: SetupRoute, k: nat, m: Monitor, disk: Disk)
    ensures (exists f: Finding :: f in PairFindings(route, k, m, disk) && f.code in {MissingGitMonitor, ChannelMismatch, ChannelNameMismatch})
            <==> Identity(m) == Some(route.repo) && (m.channel != route.channel || m.channelName != route.channelName)
  {
    hide Identity;
    var fs := PairFindings(route, k, m, disk);
    if Identity(m) == Some(route.repo) {
      if m.channel != route.channel { assert Finding(ChannelMismatch, route.repo, route.indices, [k]) in fs; }
      if m.channelName != route.channelName { assert Finding(ChannelNameMismatch, route.repo, route.indices, [k]) in fs; }
    }
  }

  /** A route is in step iff some monitor claims its repository and all that do have its channel and channel name. */
  lemma RouteInStepIff(route: SetupRoute, monitors: seq<Monitor>, disk: Disk)
    ensures (forall f: Finding :: f.repo == route.repo && RouteReports(route, monitors, disk, f) ==>
               f.code !in {MissingGitMonitor, ChannelMismatch, ChannelNameMismatch})
            <==> (exists k: nat :: Claims(monitors, k, route.repo))
                 && forall k: nat :: Claims(monitors, k, route.repo) ==>
                      monitors[k].channel == route.channel && monitors[k].channelName == route.channelName
  {
    hide PairFindings, Identity;
    if forall k: nat :: !Claims(monitors, k, route.repo) {
      assert RouteReports(route, monitors, disk, Finding(MissingGitMonitor, route.repo, route.indices, []));
    }
    forall k: nat | Claims(monitors, k, route.repo) && (monitors[k].channel != route.channel || monitors[k].channelName != route.channelName)
      ensures exists f: Finding :: f.repo == route.repo && RouteReports(route, monitors, disk, f)
                                   && f.code in {MissingGitMonitor, ChannelMismatch, ChannelNameMismatch}
    {
      Mismatches(route, k, monitors[k], disk);
      PairFindingsAt(route, k, monitors[k], disk);
      var f: Finding :| f in PairFindings(route, k, monitors[k], disk) && f.code in {MissingGitMonitor, ChannelMismatch, ChannelNameMismatch};
      assert RouteReports(route, monitors, disk, f);
    }
    forall f: Finding | f.repo == route.repo && RouteReports(route, monitors, disk, f) && f.code in {ChannelMismatch, ChannelNameMismatch}
      ensures exists k: nat ::
                Claims(monitors, k, route.repo) && (monitors[k].channel != route.channel || monitors[k].channelName != route.channelName)
    {
      var k := f.monitors[0];
      Mismatches(route, k, monitors[k], disk);
      assert Claims(monitors, k, route.repo);
    }
  }

  /** After a binding the audit finds the repository in step iff some monitor claims it, and every monitor that the
      binding left alone and that claims it happens to have the same channel and channel name. */
  lemma InStepIff(c: Config, b: Binding, disk: Disk)
    requires b.Valid() && Refusal(c, b) == None
    ensures InStep(Rebound(c, b), disk, b.repo) <==>
            && (SelfClaims(b) || exists k: nat :: OtherClaims(c, b, k))
            && forall k: nat :: OtherClaims(c, b, k) ==> c.monitors[k].channel == Some(b.channel) && c.monitors[k].channelName == b.channelName
  {
    hide Refusal, MonitorIndex, RouteIndex, Rebound, InStep, RouteReports, Claims, OtherClaims, SelfClaims;
    var d, i := Rebound(c, b), RouteIndex(c.routes, b);
    InStepIsAboutTheRoute(c, b, disk);
    RouteInStepIff(SetupRoute(b.repo, [i], Some(b.channel), b.channelName), d.monitors, disk);
    forall k: nat ensures Claims(d.monitors, k, b.repo) <==> OtherClaims(c, b, k) || (k == MonitorIndex(c.monitors, b) && SelfClaims(b)) {
      ClaimsAfter(c, b, k);
    }
    forall k: nat | OtherClaims(c, b, k) ensures k < |d.monitors| && k < |c.monitors| && d.monitors[k] == c.monitors[k] {
      ClaimsAfter(c, b, k);
      OtherIsThere(c, b, k);
    }
    ClaimsAfter(c, b, MonitorIndex(c.monitors, b));
    assert SelfClaims(b) ==> Claims(d.monitors, MonitorIndex(c.monitors, b), b.repo);
  }

  lemma OtherIsThere(c: Config, b: Binding, k: nat)
    requires OtherClaims(c, b, k)
    ensures k < |c.monitors|
  {
  }

  /** The monitors' names are trimmed and without slashes, their repositories trimmed and `owner/name` or blank. */
  predicate Tidy(monitors: seq<Monitor>) {
    forall k :: 0 <= k < |monitors| ==>
      var m := monitors[k];
      && (m.name.Some? ==> Trimmed(m.name.value) && '/' !in m.name.value)
      && (m.githubRepo.Some? ==> Blank(m.githubRepo.value) || (Trimmed(m.githubRepo.value) && IsOwnerRepo(m.githubRepo.value)))
  }

  /** A tidy monitor that claims the repository of a well-named binding matches the binding. */
  lemma TidyClaimMatches(m: Monitor, b: Binding)
    requires b.Valid() && SelfClaims(b) && Tidy([m]) && Identity(m) == Some(b.repo)
    ensures Matches(m, b)
  {
    assert [m][0] == m;
    MonitorNameHasNoSlash(b);
    if NonBlank(m.githubRepo) {
      TrimOfTrimmed(m.githubRepo.value);
      OwnerRepoHasSlash(b.repo);
    } else {
      assert m.name == Some(b.repo);
      if IsOwnerRepo(b.repo) { OwnerRepoHasSlash(b.repo); }
    }
  }

  /** With a channel name, a repository named `owner/name` or without a slash, and tidy monitors, a successful binding
      always leaves the repository in step. */
  lemma TidyBindingsAreInStep(c: Config, b: Binding, disk: Disk)
    requires b.Valid() && Refusal(c, b) == None && SelfClaims(b) && Tidy(c.monitors)
    ensures InStep(Rebound(c, b), disk, b.repo)
  {
    hide Refusal, MonitorIndex, InStep, SelfClaims, Identity, Matches, Tidy, Rebound;
    Accepted(c, b);
    OneMonitor(c.monitors, b);
    InStepIff(c, b, disk);
    forall k: nat | OtherClaims(c, b, k) ensures false {
      TidyOne(c.monitors, k);
      TidyClaimMatches(c.monitors[k], b);
      UnmatchedElsewhere(c, b, k);
    }
  }

  lemma TidyOne(monitors: seq<Monitor>, k: nat)
    requires Tidy(monitors) && k < |monitors|
    ensures Tidy([monitors[k]])
  {
  }

  lemma UnmatchedElsewhere(c: Config, b: Binding, k: nat)
    requires b.Valid() && Refusal(c, b) == None && k < |c.monitors| && k != MonitorIndex(c.monitors, b)
    ensures !Matches(c.monitors[k], b)
  {
    hide Refusal, Matches, MonitorIndex;
    Accepted(c, b);
    OneMonitor(c.monitors, b);
    var bound := Rebound(c, b).monitors;
    assert |bound| >= |c.monitors|;
  }

  /** Setting up the same binding twice: the second call succeeds if the first did, and leaves the config as the first
      left it; with a tidy config that is one the audit finds in step. */
  method BindTwice(config: AppConfig, repo: string, channel: string, channelName: Option<string>, path: string, disk: Disk)
    returns (first: Option<Error>, second: Option<Error>, ghost between: Config)
    modifies config
    ensures second == first && config.Value() == between
    ensures first.Some? ==> between == old(config.Value())
    ensures first == None && NonBlank(channelName) && (IsOwnerRepo(Trim(repo)) || '/' !in Trim(repo)) && Tidy(old(config.monitors)) ==>
              InStep(between, disk, Trim(repo))
  {
    hide Refusal, Rebound, InStep, IsOwnerRepo, Tidy, Trim;
    first := config.Apply(repo, channel, channelName, path);
    between := config.Value();
    ghost var request := Request(repo, channel, channelName, path);
    if first == None {
      BindingTwiceIsBindingOnce(old(config.Value()), request.value);
      if NonBlank(channelName) && (IsOwnerRepo(Trim(repo)) || '/' !in Trim(repo)) && Tidy(old(config.monitors)) {
        TidyBindingsAreInStep(old(config.Value()), request.value, disk);
      }
    }
    second := config.Apply(repo, channel, channelName, path);
  }

  // ---- What can still be reported ----

  /** Without a channel name no binding is ever in step: its monitor is not taken for the repository's, and one that
      is has a channel name. */
  lemma NamelessIsNeverInStep(c: Config, b: Binding, disk: Disk)
    requires b.Valid() && Refusal(c, b) == None && b.channelName == None
    ensures !InStep(Rebound(c, b), disk, b.repo)
  {
    hide Refusal, InStep, MonitorIndex, Rebound;
    InStepIff(c, b, disk);
  }

  ghost predicate ManualMonitorReported(c: Config, disk: Disk, repo: string) {
    exists f: Finding :: f.repo == repo && f.code == ManualMonitorConflict && Reports(c, disk, f)
  }

  /** Shares the channel of the binding without being taken for any repository's. */
  predicate SharesChannel(m: Monitor, channel: string) { Identity(m) == None && m.channel == Some(channel) }

  lemma ManualMonitorIsAboutTheRoute(c: Config, b: Binding, disk: Disk)
    requires b.Valid() && Refusal(c, b) == None
    ensures var d := Rebound(c, b);
      ManualMonitorReported(d, disk, b.repo) <==> exists k: nat :: k < |d.monitors| && SharesChannel(d.monitors[k], b.channel)
  {
    var d, i := Rebound(c, b), RouteIndex(c.routes, b);
    var route := SetupRoute(b.repo, [i], Some(b.channel), b.channelName);
    OneSetupRoute(c, b);
    hide Refusal, SetupIndices, SetupRouteOf, Claims, ClaimCount, IsManualFor, Rebound, RouteIndex, RouteReports, SharesChannel;
    forall f: Finding | f.repo == b.repo && f.code == ManualMonitorConflict
      ensures Reports(d, disk, f) <==> RouteReports(route, d.monitors, disk, f)
    {
    }
    RouteSharesChannel(route, b.channel, d.monitors, disk);
  }

  /** The binding's own monitor is taken for no repository's: no channel name, or a repository that ends in a blank. */
  predicate SelfUnclaimed(b: Binding) { b.channelName == None || (!IsOwnerRepo(b.repo) && Blank(b.MonitorName())) }

  lemma SelfUnclaimedIff(b: Binding, rest: string)
    requires b.Valid()
    ensures SharesChannel(BoundMonitor(b, rest), b.channel) <==> SelfUnclaimed(b)
  {
    hide IsWhitespace, Split, IsOwnerRepo, TrimStart, TrimEnd;
    TrimOfTrimmed(b.repo);
    TrimOfTrimmed(b.channel);
    if b.channelName.Some? { TrimOfTrimmed(b.channelName.value); }
  }

  /** Another monitor that shares the channel of the binding without being taken for any repository's. */
  predicate OtherShares(c: Config, b: Binding, k: nat) {
    k < |c.monitors| && k != MonitorIndex(c.monitors, b) && SharesChannel(c.monitors[k], b.channel)
  }

  /** A conflict with a manual monitor is reported after a binding iff another monitor shares its channel, or its own
      monitor is taken for no repository's.  The check that the binding makes itself spares the monitors that have a
      repository. */
  lemma ManualMonitorReportedIff(c: Config, b: Binding, disk: Disk)
    requires b.Valid() && Refusal(c, b) == None
    ensures ManualMonitorReported(Rebound(c, b), disk, b.repo) <==> SelfUnclaimed(b) || exists k: nat :: OtherShares(c, b, k)
  {
    hide Refusal, MonitorIndex, ManualMonitorReported, SharesChannel, SelfUnclaimed;
    Accepted(c, b);
    OneMonitor(c.monitors, b);
    ManualMonitorIsAboutTheRoute(c, b, disk);
    var d, own := Rebound(c, b), MonitorIndex(c.monitors, b);
    SelfUnclaimedIff(b, d.monitors[own].rest);
    if k: nat :| k < |d.monitors| && SharesChannel(d.monitors[k], b.channel) { assert k == own || OtherShares(c, b, k); }
    if k: nat :| OtherShares(c, b, k) {
      SameElsewhere(c, b, k);
      assert SharesChannel(d.monitors[k], b.channel);
    }
  }

  lemma SameElsewhere(c: Config, b: Binding, k: nat)
    requires b.Valid() && |MonitorMatches(c.monitors, b)| <= 1 && k < |c.monitors| && k != MonitorIndex(c.monitors, b)
    ensures k < |Rebound(c, b).monitors| && Rebound(c, b).monitors[k] == c.monitors[k]
  {
    hide MonitorMatches, MonitorIndex, BoundMonitor;
  }

  lemma RouteSharesChannel(route: SetupRoute, channel: string, monitors: seq<Monitor>, disk: Disk)
    requires route.channel == Some(channel)
    ensures (exists f: Finding :: f.repo == route.repo && f.code == ManualMonitorConflict && RouteReports(route, monitors, disk, f))
            <==> exists k: nat :: k < |monitors| && SharesChannel(monitors[k], channel)
  {
    hide Claims, Identity;
    if k: nat :| k < |monitors| && SharesChannel(monitors[k], channel) {
      var f := Finding(ManualMonitorConflict, route.repo, route.indices, [k]);
      assert PairFindings(route, k, monitors[k], disk) == [f];
      assert RouteReports(route, monitors, disk, f);
    }
    if f: Finding :| f.repo == route.repo && f.code == ManualMonitorConflict && RouteReports(route, monitors, disk, f) {
      assert SharesChannel(monitors[f.monitors[0]], channel);
    }
  }

  /** What loading a config makes of a monitor: no text is blank or untrimmed. */
  predicate Normalized(m: Monitor) {
    forall o :: o in [m.name, m.githubRepo, m.channel, m.channelName] ==> o == Normalize(o)
  }

  /** A manual monitor of another repository in the same channel is no obstacle to a binding, however tidy everything
      is, and yet the audit then reports a conflict with it. */
  lemma AcceptedWithManualConflict(disk: Disk)
    ensures var c := Config([], [Monitor("/q", Some("q"), Some("o/q"), Some("c"), None, false, "")]);
      var b := Binding("r", "c", Some("n"), "/p");
      && b.Valid() && SelfClaims(b) && Tidy(c.monitors) && Normalized(c.monitors[0])
      && Refusal(c, b) == None && ManualMonitorReported(Rebound(c, b), disk, b.repo)
  {
    hide Refusal, ManualMonitorReported, Rebound, Where, MonitorIndex;
    var m := Monitor("/q", Some("q"), Some("o/q"), Some("c"), None, false, "");
    var c, b := Config([], [m]), Binding("r", "c", Some("n"), "/p");
    hide Matches, Squats, SharesChannel, Tidy, SelfClaims, Normalized, IsOwnerRepo, Split;
    IsTidy(m, b);
    NoObstacle(m, b);
    AcceptedBeside(m, b);
    ManualMonitorReportedIff(c, b, disk);
    assert OtherShares(c, b, 0);
  }

  lemma IsTidy(m: Monitor, b: Binding)
    requires m == Monitor("/q", Some("q"), Some("o/q"), Some("c"), None, false, "") && b == Binding("r", "c", Some("n"), "/p")
    ensures Tidy([m]) && Normalized(m) && SelfClaims(b)
  {
    SplitOwner();
    NormalizedTexts();
  }

  lemma NoObstacle(m: Monitor, b: Binding)
    requires m == Monitor("/q", Some("q"), Some("o/q"), Some("c"), None, false, "") && b == Binding("r", "c", Some("n"), "/p")
    ensures !Matches(m, b) && !Squats(m, b) && SharesChannel(m, "c")
  {
    MonitorNameHasNoSlash(b);
    TrimOfTrimmed("/q");
  }

  lemma SplitOwner()
    ensures IsOwnerRepo("o/q") && Trimmed("o/q")
  {
    assert "/q"[1..] == "q" && "o/q"[1..] == "/q";
    assert Split("q", '/') == ["q"];
    assert Split("/q", '/') == [""] + ["q"];
    assert Split("o/q", '/') == [['o'] + ""] + ["q"];
  }

  lemma NormalizedTexts()
    ensures Normalize(Some("q")) == Some("q") && Normalize(Some("o/q")) == Some("o/q") && Normalize(Some("c")) == Some("c")
  {
    TrimOfTrimmed("q");
    TrimOfTrimmed("o/q");
    TrimOfTrimmed("c");
  }

  lemma AcceptedBeside(m: Monitor, b: Binding)
    requires b.Valid() && !Matches(m, b) && !Squats(m, b)
    ensures var c := Config([], [m]); Refusal(c, b) == None && MonitorIndex(c.monitors, b) == 1
  {
    hide Matches, Squats;
    assert MonitorMatches([m], b) == [] && ForeignMatches([m], b) == [];
  }
}
