/** Binding a repository to a channel, `apply_repo_channel_binding` of src/config.rs: the edit of the routes and git
    monitors behind `clawhip setup --bind`. */
module RepoBinding {
  import opened Text

  // ---- Routes and monitors ----

  /** `rest` of a monitor stands for the fields that no code here looks at. */
  datatype Route = Route(event: string, filter: map<string, string>, sink: string, channel: Option<string>, thread: Option<string>,
                         channelName: Option<string>, webhook: Option<string>, slackWebhook: Option<string>, localPath: Option<string>,
                         mention: Option<string>, dynamicTokens: bool, format: Option<string>, template: Option<string>, gajae: Option<string>)
  datatype Monitor = Monitor(path: string, name: Option<string>, githubRepo: Option<string>, channel: Option<string>,
                             channelName: Option<string>, setupOwned: bool, rest: string)
  datatype Config = Config(routes: seq<Route>, monitors: seq<Monitor>)

  predicate NonBlank(o: Option<string>) { o.Some? && !Blank(o.value) }

  predicate HasSlackTarget(r: Route) { NonBlank(r.slackWebhook) || (Trim(r.sink) == "slack" && NonBlank(r.webhook)) }

  /** `effective_sink` */
  function EffectiveSink(r: Route): string {
    var sink := Trim(r.sink);
    if HasSlackTarget(r) && (sink == "" || sink == "discord") then "slack" else if sink == "" then "discord" else sink
  }

  function RepoOf(r: Route): Option<string> {
    if |r.filter| == 1 && "repo" in r.filter then Some(r.filter["repo"]) else None
  }

  predicate WildcardToDiscord(r: Route) { r.event == "*" && EffectiveSink(r) == "discord" }

  /** What `is_repo_binding_route` and the auditor's `is_setup_repo_route` ask for besides the repository. */
  predicate Plain(r: Route) {
    && WildcardToDiscord(r) && Trim(r.sink) == "discord" && NonBlank(r.channel)
    && r.thread == None && r.webhook == None && r.slackWebhook == None && r.localPath == None && r.mention == None
    && r.template == None && r.gajae == None && !r.dynamicTokens && r.format == None
  }

  /** `is_repo_binding_route` */
  predicate IsBinding(r: Route, repo: string) { Plain(r) && RepoOf(r) == Some(repo) }

  // ---- Indices ----

  /** The indices at which a flag is up, as `enumerate().filter().map()` collects them. */
  function Where(flags: seq<bool>): (r: seq<nat>)
    ensures forall k :: 0 <= k < |r| ==> r[k] < |flags| && flags[r[k]]
    ensures r == [] <==> forall i :: 0 <= i < |flags| ==> !flags[i]
  {
    if flags == [] then []
    else
      var n := |flags| - 1;
      assert forall i :: 0 <= i < n ==> flags[..n][i] == flags[i];
      Where(flags[..n]) + (if flags[n] then [n] else [])
  }

  /** Exactly one index is found iff exactly one flag is up. */
  lemma {:induction false} WhereOnly(flags: seq<bool>, i: nat)
    ensures Where(flags) == [i] <==> i < |flags| && forall j :: 0 <= j < |flags| ==> (flags[j] <==> j == i)
  {
    if flags != [] {
      var n := |flags| - 1;
      var front := Where(flags[..n]);
      assert Where(flags) == front + (if flags[n] then [n] else []);
      hide Where;
      assert forall j :: 0 <= j < n ==> flags[..n][j] == flags[j];
      if flags[n] {
        OneMore(front, n, i);
      } else {
        assert front + [] == front;
        WhereOnly(flags[..n], i);
      }
    }
  }

  lemma OneMore(front: seq<nat>, n: nat, i: nat)
    ensures front + [n] == [i] <==> front == [] && i == n
  {
    assert (front + [n])[|front|] == n;
    if front + [n] == [i] { assert |front + [n]| == 1; }
  }

  predicate AtMostOne(flags: seq<bool>) { forall i, j :: 0 <= i < j < |flags| ==> !(flags[i] && flags[j]) }

  lemma {:induction false} AtMostOneIff(flags: seq<bool>)
    ensures |Where(flags)| <= 1 <==> AtMostOne(flags)
  {
    var r := Where(flags);
    if |r| == 0 {
    } else if |r| == 1 {
      assert r == [r[0]];
      WhereOnly(flags, r[0]);
    } else {
      Increasing(flags);
      assert r[0] < r[1];
    }
  }

  lemma {:induction false} Increasing(flags: seq<bool>)
    ensures forall i, j :: 0 <= i < j < |Where(flags)| ==> Where(flags)[i] < Where(flags)[j]
  {
    if flags != [] {
      var n := |flags| - 1;
      Increasing(flags[..n]);
      var front := Where(flags[..n]);
      assert Where(flags) == front + (if flags[n] then [n] else []);
      assert forall k :: 0 <= k < |front| ==> front[k] < n;
    }
  }

  // ---- The request ----

  datatype Error = EmptyRepo | EmptyChannel | EmptyCheckout | DuplicateRoutes | ManualRoute | ManualMonitor | ForeignMonitor | DuplicateMonitors

  datatype Result<T> = Ok(value: T) | Err(error: Error)

  datatype Binding = Binding(repo: string, channel: string, channelName: Option<string>, path: string)
  {
    predicate Valid() {
      && Trimmed(repo) && repo != "" && Trimmed(channel) && channel != "" && Trimmed(path) && path != ""
      && (channelName.Some? ==> Trimmed(channelName.value) && channelName.value != "")
    }

    /** The last part of the repository name: `rsplit('/').next()`. */
    function MonitorName(): string { var parts := Split(repo, '/'); parts[|parts| - 1] }

    function GithubRepo(): Option<string> { if IsOwnerRepo(repo) then Some(repo) else None }
  }

  /** `is_owner_repo` */
  predicate IsOwnerRepo(repo: string) { var parts := Split(repo, '/'); |parts| == 2 && parts[0] != "" && parts[1] != "" }

  /** `normalize_text` */
  function Normalize(s: Option<string>): Option<string> {
    if NonBlank(s) then Some(Trim(s.value)) else None
  }

  function Request(repo: string, channel: string, channelName: Option<string>, path: string): (b: Result<Binding>)
    ensures b.Ok? <==> !Blank(repo) && !Blank(channel) && !Blank(path)
    ensures b.Ok? ==> b.value.Valid()
  {
    if Blank(repo) then Err(EmptyRepo)
    else if Blank(channel) then Err(EmptyChannel)
    else if Blank(path) then Err(EmptyCheckout)
    else Ok(Binding(Trim(repo), Trim(channel), Normalize(channelName), Trim(path)))
  }

  // ---- When a binding is refused ----

  predicate ManualRouteFor(r: Route, repo: string) { !IsBinding(r, repo) && WildcardToDiscord(r) && RepoOf(r) == Some(repo) }

  predicate Squats(m: Monitor, b: Binding) {
    m.channel == Some(b.channel) && m.githubRepo == None && m.name != Some(b.MonitorName())
  }

  predicate Matches(m: Monitor, b: Binding) {
    || Trim(m.path) == b.path
    || (b.GithubRepo().Some? && m.githubRepo == b.GithubRepo())
    || (m.name == Some(b.MonitorName())
        && (b.GithubRepo().Some? && m.githubRepo.Some? ==> Blank(m.githubRepo.value) || m.githubRepo == b.GithubRepo()))
  }

  function RouteFlags(routes: seq<Route>, repo: string): (f: seq<bool>)
    ensures |f| == |routes| && forall i :: 0 <= i < |f| ==> f[i] == IsBinding(routes[i], repo)
  {
    seq(|routes|, i requires 0 <= i < |routes| => IsBinding(routes[i], repo))
  }

  function MonitorFlags(monitors: seq<Monitor>, b: Binding): (f: seq<bool>)
    ensures |f| == |monitors| && forall i :: 0 <= i < |f| ==> f[i] == Matches(monitors[i], b)
  {
    seq(|monitors|, i requires 0 <= i < |monitors| => Matches(monitors[i], b))
  }

  function ForeignFlags(monitors: seq<Monitor>, b: Binding): (f: seq<bool>)
    ensures |f| == |monitors| && forall i :: 0 <= i < |f| ==> f[i] == (Matches(monitors[i], b) && !monitors[i].setupOwned)
  {
    seq(|monitors|, i requires 0 <= i < |monitors| => Matches(monitors[i], b) && !monitors[i].setupOwned)
  }

  function RouteMatches(routes: seq<Route>, b: Binding): seq<nat> { Where(RouteFlags(routes, b.repo)) }
  function MonitorMatches(monitors: seq<Monitor>, b: Binding): seq<nat> { Where(MonitorFlags(monitors, b)) }
  function ForeignMatches(monitors: seq<Monitor>, b: Binding): seq<nat> { Where(ForeignFlags(monitors, b)) }

  /** The first reason found to refuse a binding. */
  function Refusal(c: Config, b: Binding): Option<Error> {
    var foreign := ForeignMatches(c.monitors, b);
    if !AtMostOne(RouteFlags(c.routes, b.repo)) then Some(DuplicateRoutes)
    else if exists i :: 0 <= i < |c.routes| && ManualRouteFor(c.routes[i], b.repo) then Some(ManualRoute)
    else if exists i :: 0 <= i < |c.monitors| && Squats(c.monitors[i], b) then Some(ManualMonitor)
    else if foreign != [] then
      var m := c.monitors[foreign[0]];
      Some(if m.channel == Some(b.channel) && m.githubRepo == None then ManualMonitor else ForeignMonitor)
    else if !AtMostOne(MonitorFlags(c.monitors, b)) then Some(DuplicateMonitors)
    else None
  }

  // ---- What an accepted binding changes ----

  const DEFAULT_REST := "default"

  function BoundRoute(r: Route, b: Binding): Route {
    r.(channel := Some(b.channel), thread := None, channelName := b.channelName, webhook := None)
  }

  function NewRoute(b: Binding): Route {
    Route("*", map["repo" := b.repo], "discord", Some(b.channel), None, b.channelName, None, None, None, None, false, None, None, None)
  }

  function BoundMonitor(b: Binding, rest: string): Monitor {
    Monitor(b.path, Some(b.MonitorName()), b.GithubRepo(), Some(b.channel), b.channelName, true, rest)
  }

  function Put<T>(xs: seq<T>, i: nat, x: T): seq<T>
    requires i <= |xs|
  {
    if i < |xs| then xs[i := x] else xs + [x]
  }

  /** Where the binding's entry goes: in the place of the one that matches, or at the end. */
  function Place(flags: seq<bool>): (i: nat)
    ensures i <= |flags|
  {
    if Where(flags) == [] then |flags| else Where(flags)[0]
  }

  function RouteIndex(routes: seq<Route>, b: Binding): nat { Place(RouteFlags(routes, b.repo)) }
  function MonitorIndex(monitors: seq<Monitor>, b: Binding): nat { Place(MonitorFlags(monitors, b)) }

  function ReboundRoutes(routes: seq<Route>, b: Binding): seq<Route> {
    var i := RouteIndex(routes, b);
    Put(routes, i, if i < |routes| then BoundRoute(routes[i], b) else NewRoute(b))
  }

  function ReboundMonitors(monitors: seq<Monitor>, b: Binding): seq<Monitor> {
    var k := MonitorIndex(monitors, b);
    Put(monitors, k, BoundMonitor(b, if k < |monitors| then monitors[k].rest else DEFAULT_REST))
  }

  function Rebound(c: Config, b: Binding): Config { Config(ReboundRoutes(c.routes, b), ReboundMonitors(c.monitors, b)) }

  // ---- The editor ----

  class AppConfig {
    var routes: seq<Route>
    var monitors: seq<Monitor>

    constructor (c: Config)
      ensures Value() == c
    {
      routes, monitors := c.routes, c.monitors;
    }

    function Value(): Config
      reads this
    {
      Config(routes, monitors)
    }

    /** `apply_repo_channel_binding`: all or nothing. */
    method Apply(repo: string, channel: string, channelName: Option<string>, path: string) returns (r: Option<Error>)
      modifies this
      ensures var request := Request(repo, channel, channelName, path);
        match request
        case Err(e) => r == Some(e) && Value() == old(Value())
        case Ok(b) => r == Refusal(old(Value()), b) && Value() == if r == None then Rebound(old(Value()), b) else old(Value())
    {
      hide IsBinding, Matches, Squats, ManualRouteFor, Where, AtMostOne, Request, IsOwnerRepo, Split, NewRoute;
      var request := Request(repo, channel, channelName, path);
      if request.Err? {
        return Some(request.error);
      }
      var b := request.value;
      AtMostOneIff(RouteFlags(routes, b.repo));
      AtMostOneIff(MonitorFlags(monitors, b));
      var routeMatches := RouteMatches(routes, b);
      if |routeMatches| > 1 {
        return Some(DuplicateRoutes);
      }
      if exists i :: 0 <= i < |routes| && ManualRouteFor(routes[i], b.repo) {
        return Some(ManualRoute);
      }
      if exists i :: 0 <= i < |monitors| && Squats(monitors[i], b) {
        return Some(ManualMonitor);
      }
      var monitorMatches, foreign := MonitorMatches(monitors, b), ForeignMatches(monitors, b);
      if foreign != [] {
        var m := monitors[foreign[0]];
        return Some(if m.channel == Some(b.channel) && m.githubRepo == None then ManualMonitor else ForeignMonitor);
      }
      if |monitorMatches| > 1 {
        return Some(DuplicateMonitors);
      }
      if |routeMatches| == 1 {
        var i := routeMatches[0];
        routes := routes[i := routes[i].(channel := Some(b.channel), thread := None, channelName := b.channelName, webhook := None)];
      } else {
        routes := routes + [NewRoute(b)];
      }
      if |monitorMatches| == 1 {
        var k := monitorMatches[0];
        monitors := monitors[k := monitors[k].(path := b.path, name := Some(b.MonitorName()), githubRepo := b.GithubRepo(),
                                                channel := Some(b.channel), channelName := b.channelName, setupOwned := true)];
      } else {
        monitors := monitors + [BoundMonitor(b, DEFAULT_REST)];
      }
      r := None;
    }
  }

  // ---- Properties ----

  /** The binding's own route and monitor are found again by the binding. */
  lemma FindsItself(r: Route, b: Binding, rest: string)
    requires b.Valid()
    ensures IsBinding(NewRoute(b), b.repo) && Matches(BoundMonitor(b, rest), b)
    ensures IsBinding(r, b.repo) ==> IsBinding(BoundRoute(r, b), b.repo)
  {
    hide IsBinding, Matches, NewRoute, BoundRoute, BoundMonitor;
    NewIsBinding(b);
    BoundMatches(b, rest);
    if IsBinding(r, b.repo) { BoundIsBinding(r, b); }
  }

  lemma NewIsBinding(b: Binding)
    requires b.Valid()
    ensures IsBinding(NewRoute(b), b.repo)
  {
    hide Trim, Blank;
    TrimOfTrimmed("discord");
    NotBlank(b);
  }

  lemma BoundIsBinding(r: Route, b: Binding)
    requires b.Valid() && IsBinding(r, b.repo)
    ensures IsBinding(BoundRoute(r, b), b.repo)
  {
    hide Trim, Trimmed, Blank;
    NotBlank(b);
  }

  lemma BoundMatches(b: Binding, rest: string)
    requires b.Valid()
    ensures Matches(BoundMonitor(b, rest), b)
  {
    hide Trim, Trimmed, Blank, Binding.MonitorName, Binding.GithubRepo;
    TrimOfTrimmed(b.path);
  }

  lemma NotBlank(b: Binding)
    requires b.Valid()
    ensures !Blank(b.channel) && !Blank(b.path) && !Blank(b.repo) && (b.channelName.Some? ==> !Blank(b.channelName.value))
  {
    hide Trim;
    TrimOfTrimmed(b.channel);
    TrimOfTrimmed(b.path);
    TrimOfTrimmed(b.repo);
    if b.channelName.Some? { TrimOfTrimmed(b.channelName.value); }
  }

  lemma Accepted(c: Config, b: Binding)
    requires Refusal(c, b) == None
    ensures |RouteMatches(c.routes, b)| <= 1 && |MonitorMatches(c.monitors, b)| <= 1 && ForeignMatches(c.monitors, b) == []
    ensures forall i :: 0 <= i < |c.routes| ==> !ManualRouteFor(c.routes[i], b.repo)
    ensures forall i :: 0 <= i < |c.monitors| ==> !Squats(c.monitors[i], b)
  {
    hide ManualRouteFor, Squats, Where, AtMostOne, ForeignMatches;
    AtMostOneIff(RouteFlags(c.routes, b.repo));
    AtMostOneIff(MonitorFlags(c.monitors, b));
  }

  lemma PlaceIsOnly(flags: seq<bool>)
    requires |Where(flags)| <= 1
    ensures var i := Place(flags); Where(Put(flags, i, true)) == [i] && forall j :: 0 <= j < |flags| && j != i ==> !flags[j]
  {
    hide Where;
    var i := Place(flags);
    if Where(flags) != [] { WhereOnly(flags, i); }
    var put := Put(flags, i, true);
    assert forall j :: 0 <= j < |put| && j != i ==> j < |flags| && put[j] == flags[j];
    WhereOnly(put, i);
  }

  /** After a binding there is exactly one binding route for the repository, to the requested channel; every other
      route is as it was. */
  lemma OneRoute(routes: seq<Route>, b: Binding)
    requires b.Valid() && |RouteMatches(routes, b)| <= 1
    ensures var bound, i := ReboundRoutes(routes, b), RouteIndex(routes, b);
      && RouteMatches(bound, b) == [i] && i < |bound| && IsBinding(bound[i], b.repo)
      && bound[i].channel == Some(b.channel) && bound[i].channelName == b.channelName && BoundRoute(bound[i], b) == bound[i]
      && forall j :: 0 <= j < |bound| && j != i ==> j < |routes| && bound[j] == routes[j] && !IsBinding(routes[j], b.repo)
  {
    hide IsBinding, Where, Place;
    var bound, i, flags := ReboundRoutes(routes, b), RouteIndex(routes, b), RouteFlags(routes, b.repo);
    PlaceIsOnly(flags);
    if i < |routes| {
      assert flags[i] by { PlaceIsUp(flags); }
    }
    FindsItself(if i < |routes| then routes[i] else NewRoute(b), b, "");
    assert RouteFlags(bound, b.repo) == Put(flags, i, true);
  }

  lemma PlaceIsUp(flags: seq<bool>)
    ensures Place(flags) < |flags| ==> flags[Place(flags)]
  {
  }

  /** After a binding there is exactly one monitor that matches it; every other monitor is as it was. */
  lemma OneMonitor(monitors: seq<Monitor>, b: Binding)
    requires b.Valid() && |MonitorMatches(monitors, b)| <= 1
    ensures var bound, k := ReboundMonitors(monitors, b), MonitorIndex(monitors, b);
      && MonitorMatches(bound, b) == [k] && k < |bound| && bound[k] == BoundMonitor(b, bound[k].rest)
      && forall j :: 0 <= j < |bound| && j != k ==> j < |monitors| && bound[j] == monitors[j] && !Matches(monitors[j], b)
  {
    hide Matches, Where, Place;
    var bound, k, flags := ReboundMonitors(monitors, b), MonitorIndex(monitors, b), MonitorFlags(monitors, b);
    PlaceIsOnly(flags);
    FindsItself(NewRoute(b), b, bound[k].rest);
    assert MonitorFlags(bound, b) == Put(flags, k, true);
  }

  /** The bound route and monitor stand in nobody's way. */
  lemma StandInNobodysWay(r: Route, b: Binding, rest: string)
    requires IsBinding(r, b.repo)
    ensures !ManualRouteFor(r, b.repo) && !Squats(BoundMonitor(b, rest), b) && BoundMonitor(b, rest).setupOwned
  {
    hide IsBinding;
  }

  lemma NoneForeign(monitors: seq<Monitor>, b: Binding)
    requires forall j :: 0 <= j < |monitors| ==> !Matches(monitors[j], b) || monitors[j].setupOwned
    ensures ForeignMatches(monitors, b) == []
  {
    hide Matches, Where;
  }

  lemma NothingRefuses(c: Config, b: Binding)
    requires |RouteMatches(c.routes, b)| == 1 && |MonitorMatches(c.monitors, b)| == 1
    requires forall j :: 0 <= j < |c.routes| ==> !ManualRouteFor(c.routes[j], b.repo)
    requires forall j :: 0 <= j < |c.monitors| ==> !Squats(c.monitors[j], b) && (!Matches(c.monitors[j], b) || c.monitors[j].setupOwned)
    ensures Refusal(c, b) == None
  {
    hide ManualRouteFor, Squats, Matches, Where, AtMostOne, ForeignMatches;
    NoneForeign(c.monitors, b);
    AtMostOneIff(RouteFlags(c.routes, b.repo));
    AtMostOneIff(MonitorFlags(c.monitors, b));
  }

  lemma SameAgain(d: Config, b: Binding, i: nat, k: nat)
    requires RouteMatches(d.routes, b) == [i] && i < |d.routes| && BoundRoute(d.routes[i], b) == d.routes[i]
    requires MonitorMatches(d.monitors, b) == [k] && k < |d.monitors| && d.monitors[k] == BoundMonitor(b, d.monitors[k].rest)
    ensures Rebound(d, b) == d
  {
    hide Where, BoundRoute, BoundMonitor;
    assert Put(d.routes, i, d.routes[i]) == d.routes && Put(d.monitors, k, d.monitors[k]) == d.monitors;
  }

  /** A second identical binding is accepted and changes nothing. */
  lemma BindingTwiceIsBindingOnce(c: Config, b: Binding)
    requires b.Valid() && Refusal(c, b) == None
    ensures Refusal(Rebound(c, b), b) == None && Rebound(Rebound(c, b), b) == Rebound(c, b)
  {
    hide IsBinding, Matches, Squats, ManualRouteFor, RouteMatches, MonitorMatches, RouteIndex, MonitorIndex, ReboundRoutes, ReboundMonitors,
      BoundRoute, BoundMonitor, Refusal;
    Accepted(c, b);
    OneRoute(c.routes, b);
    OneMonitor(c.monitors, b);
    var d, i, k := Rebound(c, b), RouteIndex(c.routes, b), MonitorIndex(c.monitors, b);
    StandInNobodysWay(d.routes[i], b, d.monitors[k].rest);
    NothingRefuses(d, b);
    SameAgain(d, b, i, k);
  }
}
