// The health gate of a deploy (proxy/health.go): which upstream addresses are waited
// for, when that agrees with the routes that were installed, and the polling loop.
module HealthGate {
  import opened Text
  import opened Names
  import opened ProxyModel
  import opened RouteTable
  import opened Reconciler
  import opened LoginGate

  // A service is waited for when it has a container and a port; unlike Routable this
  // looks neither at is_private nor at the guard.
  predicate Waited(svc: Option<Service>) { svc.Some? && svc.value.Deployed() && svc.value.internalPort.Some? }

  // The deduplicated addresses WaitHealthy gates on.
  function WantedDials(slug: string, services: seq<Service>, specs: seq<RouteSpec>): set<string> {
    if specs == [] then {}
    else
      var earlier := WantedDials(slug, services, specs[..|specs| - 1]);
      var svc := FindService(services, specs[|specs| - 1].service);
      if Waited(svc) then earlier + {ServiceDial(slug, svc.value)} else earlier
  }

  lemma {:induction false} WantedOrigin(slug: string, services: seq<Service>, specs: seq<RouteSpec>, addr: string)
      returns (spec: RouteSpec)
    requires addr in WantedDials(slug, services, specs)
    ensures spec in specs && Waited(FindService(services, spec.service))
      && addr == ServiceDial(slug, FindService(services, spec.service).value)
  {
    spec := specs[|specs| - 1];
    var svc := FindService(services, spec.service);
    if !(Waited(svc) && addr == ServiceDial(slug, svc.value)) {
      spec := WantedOrigin(slug, services, specs[..|specs| - 1], addr);
    }
  }

  lemma {:induction false} WantedMember(slug: string, services: seq<Service>, specs: seq<RouteSpec>, spec: RouteSpec)
    requires spec in specs && Waited(FindService(services, spec.service))
    ensures ServiceDial(slug, FindService(services, spec.service).value) in WantedDials(slug, services, specs)
  {
    if specs[|specs| - 1] != spec {
      WantedMember(slug, services, specs[..|specs| - 1], spec);
    }
  }

  method Want(slug: string, services: seq<Service>, specs: seq<RouteSpec>) returns (want: set<string>)
    ensures want == WantedDials(slug, services, specs)
  {
    want := {};
    for i := 0 to |specs|
      invariant want == WantedDials(slug, services, specs[..i])
    {
      assert specs[..i + 1][..i] == specs[..i];
      var svc := FindService(services, specs[i].service);
      if Waited(svc) {
        want := want + {ServiceDial(slug, svc.value)};
      }
    }
    assert specs[..|specs|] == specs;
  }

  // A route that proxies an admitted request to an address.
  predicate Reaches(r: Route, addr: string) { Serve(r.handle, Request(r.host, true, true)) == FromUpstream(addr) }

  ghost predicate InstalledFor(cfg: Config, db: DB, app: App, addr: string) {
    exists spec :: spec in SpecsOf(cfg, db, app) && SelectReaches(cfg, db, app, spec, addr)
  }

  predicate SelectReaches(cfg: Config, db: DB, app: App, spec: RouteSpec, addr: string) {
    var r := Select(cfg, app, ServicesOf(db, app.id), spec);
    r.Some? && Reaches(r.value, addr)
  }

  lemma RoutableReaches(cfg: Config, db: DB, app: App, spec: RouteSpec)
    requires ValidDB(db) && app in db.apps && !app.maintenanceActive && !app.suspended && spec.redirectTo == ""
    requires Routable(cfg, FindService(ServicesOf(db, app.id), spec.service))
    ensures SelectReaches(cfg, db, app, spec, ServiceDial(app.slug, FindService(ServicesOf(db, app.id), spec.service).value))
  {
    SelectedServes(cfg, app, ServicesOf(db, app.id), spec, Request(spec.hostname, true, true));
  }

  lemma ReachesRoutable(cfg: Config, db: DB, app: App, spec: RouteSpec, svc: Service)
    requires ValidDB(db) && app in db.apps && !app.maintenanceActive && !app.suspended
    requires svc in ServicesOf(db, app.id)
    requires SelectReaches(cfg, db, app, spec, ServiceDial(app.slug, svc))
    ensures Routable(cfg, Some(svc))
  {
    var services := ServicesOf(db, app.id);
    SelectedServes(cfg, app, services, spec, Request(spec.hostname, true, true));
    var found := FindService(services, spec.service);
    AddressNamesService(cfg, db, app, found.value, app, svc);
  }

  // Every address waited for is one the app's routes install.
  ghost predicate WaitsForInstalled(cfg: Config, db: DB, app: App) {
    forall addr :: addr in WantedDials(app.slug, ServicesOf(db, app.id), SpecsOf(cfg, db, app)) ==> InstalledFor(cfg, db, app, addr)
  }

  // No desired route points at a deployed service that is private or that lacks the
  // guard it requires.
  predicate NoHiddenTarget(cfg: Config, db: DB, app: App) {
    forall spec :: spec in SpecsOf(cfg, db, app) ==> Exposed(cfg, FindService(ServicesOf(db, app.id), spec.service))
  }

  predicate Exposed(cfg: Config, svc: Option<Service>) {
    Waited(svc) ==> !svc.value.isPrivate && (svc.value.requiresAuth ==> cfg.guardEnabled)
  }

  lemma InstalledMeansExposed(cfg: Config, db: DB, app: App, spec: RouteSpec)
    requires ValidDB(db) && app in db.apps && !app.maintenanceActive && !app.suspended
    requires WaitsForInstalled(cfg, db, app) && spec in SpecsOf(cfg, db, app)
    ensures Exposed(cfg, FindService(ServicesOf(db, app.id), spec.service))
  {
    var services := ServicesOf(db, app.id);
    if Waited(FindService(services, spec.service)) {
      WantedMember(app.slug, services, SpecsOf(cfg, db, app), spec);
      var svc := FindService(services, spec.service).value;
      var via :| via in SpecsOf(cfg, db, app) && SelectReaches(cfg, db, app, via, ServiceDial(app.slug, svc));
      ReachesRoutable(cfg, db, app, via, svc);
    }
  }

  lemma ExposedMeansInstalled(cfg: Config, db: DB, app: App, addr: string)
    requires ValidDB(db) && app in db.apps && !app.maintenanceActive && !app.suspended
    requires NoHiddenTarget(cfg, db, app) && addr in WantedDials(app.slug, ServicesOf(db, app.id), SpecsOf(cfg, db, app))
    ensures InstalledFor(cfg, db, app, addr)
  {
    var spec := WantedOrigin(app.slug, ServicesOf(db, app.id), SpecsOf(cfg, db, app), addr);
    if spec.redirectTo != "" {
      RedirectSpecsNameNoService(cfg, db, app, spec);
    } else {
      RoutableReaches(cfg, db, app, spec);
    }
  }

  // For an app that is neither suspended nor in maintenance the gate agrees with the
  // installed routes exactly under NoHiddenTarget.
  lemma HealthGateAgrees(cfg: Config, db: DB, app: App)
    requires ValidDB(db) && app in db.apps && !app.maintenanceActive && !app.suspended
    ensures WaitsForInstalled(cfg, db, app) <==> NoHiddenTarget(cfg, db, app)
  {
    if WaitsForInstalled(cfg, db, app) {
      forall spec | spec in SpecsOf(cfg, db, app)
        ensures Exposed(cfg, FindService(ServicesOf(db, app.id), spec.service))
      {
        InstalledMeansExposed(cfg, db, app, spec);
      }
    }
    if NoHiddenTarget(cfg, db, app) {
      forall addr | addr in WantedDials(app.slug, ServicesOf(db, app.id), SpecsOf(cfg, db, app))
        ensures InstalledFor(cfg, db, app, addr)
      {
        ExposedMeansInstalled(cfg, db, app, addr);
      }
    }
  }

  lemma RedirectSpecsNameNoService(cfg: Config, db: DB, app: App, spec: RouteSpec)
    requires ValidDB(db) && spec in SpecsOf(cfg, db, app) && spec.redirectTo != ""
    ensures FindService(ServicesOf(db, app.id), spec.service).None?
  {
    var d, svc := SpecOrigin(cfg, db, app, spec);
    assert spec.service == "";
  }

  // What the app's specs install is in the table once the app is synced.
  lemma InstalledInTable(cfg: Config, db: DB, app: App, t: Table, addr: string) returns (r: Route)
    requires ValidDB(db) && DistinctIDs(t) && app in db.apps && InstalledFor(cfg, db, app, addr)
    ensures r in Sync(cfg, db, app, t) && Reaches(r, addr)
  {
    var spec :| spec in SpecsOf(cfg, db, app) && SelectReaches(cfg, db, app, spec, addr);
    r := Select(cfg, app, ServicesOf(db, app.id), spec).value;
    SyncLookup(cfg, db, app, t, spec.id);
    SpecsDistinct(cfg, db, app);
    FindSpecUnique(SpecsOf(cfg, db, app), spec);
  }

  // ---- Polling ----

  datatype UpstreamStatus = UpstreamStatus(address: string, fails: int)
  datatype Verdict = Healthy | Unhealthy | Cancelled

  predicate AllUp(ups: seq<UpstreamStatus>, want: set<string>) {
    forall a :: a in want ==> exists i :: 0 <= i < |ups| && ups[i].address == a && ups[i].fails == 0
  }

  // allHealthy on one listing of the pool.
  method AllHealthy(ups: seq<UpstreamStatus>, want: set<string>) returns (healthy: bool)
    ensures healthy == AllUp(ups, want)
    ensures healthy <==> forall a :: a in want ==> exists i :: 0 <= i < |ups| && ups[i] == UpstreamStatus(a, 0)
  {
    var up: set<string> := {};
    for i := 0 to |ups|
      invariant forall a :: a in up <==> exists j :: 0 <= j < i && ups[j].address == a && ups[j].fails == 0
    {
      if ups[i].fails == 0 {
        up := up + {ups[i].address};
      }
    }
    assert forall a :: a in up <==> exists i :: 0 <= i < |ups| && ups[i] == UpstreamStatus(a, 0);
    return want <= up;
  }

  // The outside world as one wait sees it: the answer to the k-th listing (None when
  // the call fails), whether the deadline has passed after it, and whether the context
  // ends during the k-th sleep.
  datatype Environment = Environment(listing: nat -> Option<seq<UpstreamStatus>>, late: nat -> bool, cancelled: nat -> bool)

  predicate PollPasses(env: Environment, k: nat, want: set<string>) {
    env.listing(k).Some? && AllUp(env.listing(k).value, want)
  }

  // WaitHealthy after the want set is built: at most max(1, retries) polls, success
  // only on a poll that shows every wanted address without fails, and no later poll
  // than the first that passes.
  method WaitHealthy(retries: int, want: set<string>, env: Environment) returns (verdict: Verdict, polls: nat)
    ensures want == {} ==> verdict == Healthy && polls == 0
    ensures polls <= if retries < 1 then 1 else retries
    ensures want != {} && verdict == Healthy ==> polls >= 1 && PollPasses(env, polls - 1, want)
    ensures forall k :: 0 <= k < polls - (if verdict == Healthy then 1 else 0) ==> !PollPasses(env, k, want)
    ensures verdict == Unhealthy ==> polls >= 1 && (polls == (if retries < 1 then 1 else retries) || env.late(polls - 1))
    ensures verdict == Cancelled ==> env.cancelled(polls)
    ensures forall k :: 0 <= k < polls ==> !env.cancelled(k)
    ensures forall k :: 0 <= k < polls - 1 ==> !env.late(k)
  {
    polls := 0;
    if want == {} {
      return Healthy, 0;
    }
    var budget := if retries < 1 then 1 else retries;
    while true
      invariant polls < budget
      invariant forall k :: 0 <= k < polls ==> !env.cancelled(k) && !env.late(k) && !PollPasses(env, k, want)
      decreases budget - polls
    {
      if env.cancelled(polls) {
        return Cancelled, polls;
      }
      var listing := env.listing(polls);
      var healthy := false;
      if listing.Some? {
        healthy := AllHealthy(listing.value, want);
      }
      polls := polls + 1;
      if healthy {
        return Healthy, polls;
      }
      if polls >= budget || env.late(polls - 1) {
        return Unhealthy, polls;
      }
    }
  }
}
