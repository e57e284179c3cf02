/** The drift audit of setup-owned routes and git monitors, src/binding_verify.rs, and what it says after a binding. */
module BindingAudit {
  import opened Text
  import opened RepoBinding

  datatype Code = DuplicateSetupRoute | MissingGitMonitor | ChannelMismatch | ChannelNameMismatch | CheckoutMissing
                | CheckoutNotGitWorktree | ManualMonitorConflict | DuplicateSetupMonitor | RepoIdentityMismatch | ManualRouteConflict

  datatype Finding = Finding(code: Code, repo: string, routes: seq<nat>, monitors: seq<nat>)

  /** What the audit asks the file system. */
  datatype Disk = Disk(exists_: string -> bool, worktree: string -> bool)

  // ---- Whom a route or a monitor is for ----

  /** `is_setup_repo_route`, with the repository. */
  function SetupRepo(r: Route): Option<string> {
    if Plain(r) && NonBlank(RepoOf(r)) then RepoOf(r) else None
  }

  /** `monitor_repo_identity` */
  function MonitorRepo(m: Monitor): Option<string> {
    if NonBlank(m.githubRepo) then Some(Trim(m.githubRepo.value)) else Normalize(m.name)
  }

  /** `setup_monitor_repo_identity` */
  function Identity(m: Monitor): Option<string> {
    if m.setupOwned && NonBlank(m.channel) && NonBlank(m.channelName) then MonitorRepo(m) else None
  }

  function SetupFlags(routes: seq<Route>, repo: string): (f: seq<bool>)
    ensures |f| == |routes| && forall i :: 0 <= i < |f| ==> f[i] == (SetupRepo(routes[i]) == Some(repo))
  {
    seq(|routes|, i requires 0 <= i < |routes| => SetupRepo(routes[i]) == Some(repo))
  }

  function SetupIndices(routes: seq<Route>, repo: string): (r: seq<nat>)
    ensures forall k :: 0 <= k < |r| ==> r[k] < |routes| && SetupRepo(routes[r[k]]) == Some(repo)
    ensures r == [] <==> forall i :: 0 <= i < |routes| ==> SetupRepo(routes[i]) != Some(repo)
  {
    Where(SetupFlags(routes, repo))
  }

  lemma SetupIndicesStep(front: seq<Route>, r: Route, repo: string)
    ensures SetupIndices(front + [r], repo) == SetupIndices(front, repo) + (if SetupRepo(r) == Some(repo) then [|front|] else [])
  {
    hide SetupRepo;
    assert SetupFlags(front + [r], repo)[..|front|] == SetupFlags(front, repo);
  }

  function ClaimCount(monitors: seq<Monitor>, repo: string): nat {
    if monitors == [] then 0
    else ClaimCount(monitors[..|monitors| - 1], repo) + (if Identity(monitors[|monitors| - 1]) == Some(repo) then 1 else 0)
  }

  // ---- What is reported ----

  datatype SetupRoute = SetupRoute(repo: string, indices: seq<nat>, channel: Option<string>, channelName: Option<string>)

  /** The findings about a setup route and one monitor. */
  function PairFindings(route: SetupRoute, k: nat, m: Monitor, disk: Disk): seq<Finding> {
    var at := (code: Code) => [Finding(code, route.repo, route.indices, [k])];
    if Identity(m) == Some(route.repo) then
      (if route.channel != m.channel then at(ChannelMismatch) else [])
      + (if route.channelName != m.channelName then at(ChannelNameMismatch) else [])
      + (if !disk.exists_(m.path) then at(CheckoutMissing) else if !disk.worktree(m.path) then at(CheckoutNotGitWorktree) else [])
    else if Identity(m) == None && route.channel.Some? && route.channel == m.channel then at(ManualMonitorConflict)
    else []
  }

  predicate Claims(monitors: seq<Monitor>, k: nat, repo: string) { k < |monitors| && Identity(monitors[k]) == Some(repo) }

  /** The findings about one setup route. */
  ghost predicate RouteReports(route: SetupRoute, monitors: seq<Monitor>, disk: Disk, f: Finding) {
    && f.repo == route.repo && f.routes == route.indices
    && match f.code
       case DuplicateSetupRoute => |route.indices| > 1 && f.monitors == []
       case MissingGitMonitor => f.monitors == [] && forall k: nat :: !Claims(monitors, k, route.repo)
       case _ => PairReports(route, monitors, |monitors|, disk, f)
  }

  /** The findings about the route and one of the first `n` monitors. */
  ghost predicate PairReports(route: SetupRoute, monitors: seq<Monitor>, n: nat, disk: Disk, f: Finding)
    requires n <= |monitors|
  {
    |f.monitors| == 1 && f.monitors[0] < n && f in PairFindings(route, f.monitors[0], monitors[f.monitors[0]], disk)
  }

  function SetupRouteOf(routes: seq<Route>, repo: string): SetupRoute
    requires SetupIndices(routes, repo) != []
  {
    var indices := SetupIndices(routes, repo);
    SetupRoute(repo, indices, routes[indices[0]].channel, routes[indices[0]].channelName)
  }

  /** The findings about a monitor alone; `routed` says whether its repository has a setup route. */
  ghost predicate MonitorReports(monitors: seq<Monitor>, routed: bool, f: Finding) {
    && f.routes == [] && |f.monitors| == 1 && Claims(monitors, f.monitors[0], f.repo)
    && ((f.code.DuplicateSetupMonitor? && ClaimCount(monitors, f.repo) > 1) || (f.code.RepoIdentityMismatch? && !routed))
  }

  /** The findings about a manual route beside a setup route. */
  ghost predicate ManualReports(routes: seq<Route>, routed: bool, f: Finding) {
    f.code.ManualRouteConflict? && f.monitors == [] && |f.routes| == 1 && f.routes[0] < |routes|
    && IsManualFor(routes[f.routes[0]], f.repo) && routed
  }

  /** Exactly what `audit_route_monitor_drift` reports. */
  ghost predicate Reports(c: Config, disk: Disk, f: Finding) {
    var routed := SetupIndices(c.routes, f.repo) != [];
    || (routed && RouteReports(SetupRouteOf(c.routes, f.repo), c.monitors, disk, f))
    || MonitorReports(c.monitors, routed, f)
    || ManualReports(c.routes, routed, f)
  }

  /** The auditor's manual routes for a repository. */
  predicate IsManualFor(r: Route, repo: string) {
    SetupRepo(r) == None && WildcardToDiscord(r) && r.channel.Some? && RepoOf(r) == Some(repo)
  }

  // ---- The audit ----

  /** `setup_repo_routes`: the setup routes by repository. */
  method SetupRoutes(routes: seq<Route>) returns (m: map<string, SetupRoute>)
    ensures forall repo :: repo in m <==> SetupIndices(routes, repo) != []
    ensures forall repo :: repo in m ==> m[repo] == SetupRouteOf(routes, repo)
  {
    hide SetupRepo, SetupIndices, Where, SetupRouteOf;
    m := map[];
    SetupIndicesEmpty();
    for i := 0 to |routes|
      invariant forall repo :: repo in m <==> SetupIndices(routes[..i], repo) != []
      invariant forall repo :: repo in m ==> m[repo] == SetupRouteOf(routes[..i], repo)
    {
      ghost var was := m;
      var of := SetupRepo(routes[i]);
      if of.Some? {
        var repo := of.value;
        if repo in m {
          m := m[repo := m[repo].(indices := m[repo].indices + [i])];
        } else {
          m := m[repo := SetupRoute(repo, [i], routes[i].channel, routes[i].channelName)];
        }
      }
      forall repo
        ensures repo in m <==> SetupIndices(routes[..i + 1], repo) != []
        ensures repo in m ==> m[repo] == SetupRouteOf(routes[..i + 1], repo)
      {
        assert routes[..i + 1] == routes[..i] + [routes[i]];
        if of == Some(repo) {
          OwnEntry(routes[..i], routes[i], repo);
          SetupRouteIndices(routes[..i], repo);
        } else {
          OtherEntry(routes[..i], routes[i], repo);
        }
      }
    }
    assert routes[..|routes|] == routes;
  }

  lemma SetupRouteIndices(routes: seq<Route>, repo: string)
    ensures SetupIndices(routes, repo) != [] ==>
              SetupRouteOf(routes, repo).indices == SetupIndices(routes, repo) && SetupRouteOf(routes, repo).repo == repo
  {
  }

  lemma SetupIndicesEmpty()
    ensures forall repo :: SetupIndices([], repo) == []
  {
  }

  /** One more route for the repository joins its entry, or opens it; no other entry changes. */
  lemma OwnEntry(front: seq<Route>, r: Route, repo: string)
    requires SetupRepo(r) == Some(repo)
    ensures var was := SetupIndices(front, repo);
      SetupIndices(front + [r], repo) != [] && SetupRouteOf(front + [r], repo) ==
        if was == [] then SetupRoute(repo, [|front|], r.channel, r.channelName)
        else SetupRouteOf(front, repo).(indices := was + [|front|])
  {
    SetupIndicesStep(front, r, repo);
    hide SetupIndices, SetupRepo;
  }

  lemma OtherEntry(front: seq<Route>, r: Route, repo: string)
    requires SetupRepo(r) != Some(repo)
    ensures SetupIndices(front + [r], repo) == SetupIndices(front, repo)
    ensures SetupIndices(front, repo) != [] ==> SetupRouteOf(front + [r], repo) == SetupRouteOf(front, repo)
  {
    SetupIndicesStep(front, r, repo);
    hide SetupIndices, SetupRepo;
    assert SetupIndices(front, repo) + [] == SetupIndices(front, repo);
  }

  /** The identity counts of `setup_git_monitors`. */
  method IdentityCounts(monitors: seq<Monitor>) returns (counts: map<string, nat>)
    ensures forall repo :: ClaimCount(monitors, repo) == if repo in counts then counts[repo] else 0
  {
    counts := map[];
    for k := 0 to |monitors|
      invariant forall repo :: ClaimCount(monitors[..k], repo) == if repo in counts then counts[repo] else 0
    {
      assert monitors[..k + 1][..k] == monitors[..k];
      var repo := Identity(monitors[k]);
      if repo.Some? {
        counts := counts[repo.value := (if repo.value in counts then counts[repo.value] else 0) + 1];
      }
    }
    assert monitors[..|monitors|] == monitors;
  }

  /** The findings about one setup route and each of the monitors, and whether any monitor claims the repository. */
  method AuditPairs(route: SetupRoute, monitors: seq<Monitor>, disk: Disk) returns (claimed: bool, findings: seq<Finding>)
    ensures claimed <==> exists k: nat :: Claims(monitors, k, route.repo)
    ensures forall f :: f in findings <==> PairReports(route, monitors, |monitors|, disk, f)
  {
    hide PairFindings, Identity;
    findings, claimed := [], false;
    for k := 0 to |monitors|
      invariant claimed <==> exists j: nat :: j < k && Claims(monitors, j, route.repo)
      invariant forall f :: f in findings <==> PairReports(route, monitors, k, disk, f)
    {
      PairFindingsAt(route, k, monitors[k], disk);
      claimed := claimed || Claims(monitors, k, route.repo);
      findings := findings + PairFindings(route, k, monitors[k], disk);
    }
  }

  /** The findings about one setup route. */
  method AuditRoute(route: SetupRoute, monitors: seq<Monitor>, disk: Disk) returns (findings: seq<Finding>)
    ensures forall f :: f in findings <==> RouteReports(route, monitors, disk, f)
  {
    hide PairReports, Claims;
    findings := [];
    if |route.indices| > 1 {
      findings := [Finding(DuplicateSetupRoute, route.repo, route.indices, [])];
    }
    var claimed, pairs := AuditPairs(route, monitors, disk);
    if !claimed {
      findings := findings + [Finding(MissingGitMonitor, route.repo, route.indices, [])];
    }
    PairReportsCodes(route, monitors, disk);
    findings := findings + pairs;
  }

  lemma PairReportsCodes(route: SetupRoute, monitors: seq<Monitor>, disk: Disk)
    ensures forall f :: PairReports(route, monitors, |monitors|, disk, f) ==>
              f.repo == route.repo && f.routes == route.indices && !f.code.DuplicateSetupRoute? && !f.code.MissingGitMonitor?
  {
    forall f | PairReports(route, monitors, |monitors|, disk, f)
      ensures f.repo == route.repo && f.routes == route.indices && !f.code.DuplicateSetupRoute? && !f.code.MissingGitMonitor?
    {
      PairFindingsAt(route, f.monitors[0], monitors[f.monitors[0]], disk);
    }
  }

  lemma PairFindingsAt(route: SetupRoute, k: nat, m: Monitor, disk: Disk)
    ensures forall f :: f in PairFindings(route, k, m, disk) ==>
              f.monitors == [k] && f.repo == route.repo && f.routes == route.indices
              && f.code in {ChannelMismatch, ChannelNameMismatch, CheckoutMissing, CheckoutNotGitWorktree, ManualMonitorConflict}
  {
  }

  /** The findings about the setup routes. */
  method AuditRoutes(setup: map<string, SetupRoute>, monitors: seq<Monitor>, disk: Disk) returns (findings: seq<Finding>)
    requires forall repo :: repo in setup ==> setup[repo].repo == repo
    ensures forall f :: f in findings <==> f.repo in setup && RouteReports(setup[f.repo], monitors, disk, f)
  {
    findings := [];
    var repos := setup.Keys;
    while repos != {}
      invariant repos <= setup.Keys
      invariant forall f :: f in findings <==> f.repo in setup.Keys - repos && RouteReports(setup[f.repo], monitors, disk, f)
    {
      var repo :| repo in repos;
      var more := AuditRoute(setup[repo], monitors, disk);
      RouteReportsOwn(setup[repo], monitors, disk);
      hide RouteReports;
      findings := findings + more;
      repos := repos - {repo};
    }
  }

  lemma RouteReportsOwn(route: SetupRoute, monitors: seq<Monitor>, disk: Disk)
    ensures forall f :: RouteReports(route, monitors, disk, f) ==> f.repo == route.repo
  {
    hide PairReports, Claims;
  }

  lemma Single(k: nat)
    ensures forall s: seq<nat> :: |s| == 1 && s[0] == k ==> s == [k]
  {
  }

  /** The findings about monitors that share an identity, or whose identity has no setup route. */
  method AuditMonitors(monitors: seq<Monitor>, counts: map<string, nat>, repos: set<string>) returns (findings: seq<Finding>)
    requires forall repo :: ClaimCount(monitors, repo) == if repo in counts then counts[repo] else 0
    ensures forall f :: f in findings <==> MonitorReports(monitors, f.repo in repos, f)
  {
    hide Identity, ClaimCount;
    findings := [];
    for k := 0 to |monitors|
      invariant forall f :: f in findings <==> MonitorReports(monitors, f.repo in repos, f) && f.monitors[0] < k
    {
      Single(k);
      var of := Identity(monitors[k]);
      if of.Some? {
        if of.value in counts && counts[of.value] > 1 {
          findings := findings + [Finding(DuplicateSetupMonitor, of.value, [], [k])];
        }
        if of.value !in repos {
          findings := findings + [Finding(RepoIdentityMismatch, of.value, [], [k])];
        }
      }
    }
  }

  /** The findings about manual wildcard routes beside a setup route. */
  method AuditManualRoutes(routes: seq<Route>, repos: set<string>) returns (findings: seq<Finding>)
    ensures forall f :: f in findings <==> ManualReports(routes, f.repo in repos, f)
  {
    hide SetupRepo, WildcardToDiscord;
    findings := [];
    for i := 0 to |routes|
      invariant forall f :: f in findings <==> ManualReports(routes, f.repo in repos, f) && f.routes[0] < i
    {
      Single(i);
      var of := RepoOf(routes[i]);
      if of.Some? && IsManualFor(routes[i], of.value) && of.value in repos {
        findings := findings + [Finding(ManualRouteConflict, of.value, [i], [])];
      }
    }
  }

  /** `audit_route_monitor_drift` */
  method Audit(c: Config, disk: Disk) returns (findings: seq<Finding>)
    ensures forall f :: f in findings <==> Reports(c, disk, f)
  {
    hide SetupIndices, SetupRouteOf, RouteReports, MonitorReports, ManualReports;
    var setup := SetupRoutes(c.routes);
    forall repo | repo in setup ensures setup[repo].repo == repo { SetupRouteIndices(c.routes, repo); }
    var counts := IdentityCounts(c.monitors);
    var routeFindings := AuditRoutes(setup, c.monitors, disk);
    var monitorFindings := AuditMonitors(c.monitors, counts, setup.Keys);
    var manualFindings := AuditManualRoutes(c.routes, setup.Keys);
    findings := routeFindings + monitorFindings + manualFindings;
  }

  lemma RouteReportsCodes(route: SetupRoute, monitors: seq<Monitor>, disk: Disk)
    ensures forall f :: RouteReports(route, monitors, disk, f) ==>
              !f.code.DuplicateSetupMonitor? && !f.code.RepoIdentityMismatch? && !f.code.ManualRouteConflict?
  {
    forall f | RouteReports(route, monitors, disk, f)
      ensures !f.code.DuplicateSetupMonitor? && !f.code.RepoIdentityMismatch? && !f.code.ManualRouteConflict?
    {
      if PairReports(route, monitors, |monitors|, disk, f) {
        PairFindingsAt(route, f.monitors[0], monitors[f.monitors[0]], disk);
      }
    }
  }
}
