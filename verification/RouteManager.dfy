// The route manager itself: loops over Caddy's admin API and the docker network, any
// call of which may fail (proxy/manager.go). Each method is tied to the functions of
// Reconciler when nothing failed, and to a frame that holds whatever fails.
module RouteManager {
  import opened Text
  import opened Names
  import opened ProxyModel
  import opened RouteTable
  import R = Reconciler

  // ---- The frame: what an operation may touch even when calls fail ----

  // Outside the touched ids the table is the same, in the same order; inside, every
  // route is an old one or one of the added ones.
  ghost predicate Frame(before: Table, after: Table, touched: set<string>, added: set<Route>) {
    && Without(after, touched) == Without(before, touched)
    && forall r :: r in after ==> r in before || r in added
  }

  lemma FrameDelete(before: Table, t: Table, touched: set<string>, added: set<Route>, id: string)
    requires Frame(before, t, touched, added) && id in touched
    ensures Frame(before, Delete(t, id), touched, added)
  {
    DeleteWithout(t, id, touched);
  }

  lemma FrameAppend(before: Table, t: Table, touched: set<string>, added: set<Route>, r: Route)
    requires Frame(before, t, touched, added) && r.id in touched && r in added
    ensures Frame(before, t + [r], touched, added)
  {
    AppendWithout(t, r, touched);
  }

  // A route outside the touched ids survives whatever fails.
  lemma FramedRouteSurvives(before: Table, after: Table, touched: set<string>, added: set<Route>, k: string)
    requires Frame(before, after, touched, added) && k !in touched
    ensures Lookup(after, k) == Lookup(before, k)
  {
    LookupWithout(before, touched, k);
    LookupWithout(after, touched, k);
  }

  function SpecIDs(specs: seq<RouteSpec>): set<string> { set s | s in specs :: s.id }

  function SelectedRoutes(cfg: Config, app: App, services: seq<Service>, specs: seq<RouteSpec>): set<Route> {
    set s | s in specs && Select(cfg, app, services, s).Some? :: Select(cfg, app, services, s).value
  }

  function WakeRoutes(cfg: Config, specs: seq<RouteSpec>): set<Route> {
    set s | s in specs && s.redirectTo == "" :: WakeRoute(cfg, s.id, s.hostname)
  }

  function OrphanIDs(t: Table, backed: set<string>): set<string> {
    set r | r in t && R.Orphan(r.id, backed) :: r.id
  }

  // Everything a Sync of the app may touch or add.
  function SyncTouched(cfg: Config, db: DB, app: App, t: Table): set<string> {
    SpecIDs(SpecsOf(cfg, db, app)) + {CONTROL_ROUTE_ID} + OrphanIDs(t, R.BackedIDs(cfg, db))
  }

  function SyncAdded(cfg: Config, db: DB, app: App): set<Route> {
    SelectedRoutes(cfg, app, ServicesOf(db, app.id), SpecsOf(cfg, db, app)) + {ControlRoute(cfg)}
  }

  lemma FrameWiden(a: Table, b: Table, t1: set<string>, a1: set<Route>, t2: set<string>, a2: set<Route>)
    requires Frame(a, b, t1, a1) && t1 <= t2 && a1 <= a2
    ensures Frame(a, b, t2, a2)
  {
    WithoutMore(a, b, t1, t2);
  }

  // The three stages of a Sync stay within what the Sync may touch.
  lemma AppliedFrame(cfg: Config, db: DB, app: App, t0: Table, t1: Table, t2: Table)
    requires Frame(t0, t1, SpecIDs(SpecsOf(cfg, db, app)), SelectedRoutes(cfg, app, ServicesOf(db, app.id), SpecsOf(cfg, db, app)))
    requires Frame(t1, t2, {CONTROL_ROUTE_ID}, {ControlRoute(cfg)})
    ensures Frame(t0, t2, SpecIDs(SpecsOf(cfg, db, app)) + {CONTROL_ROUTE_ID}, SyncAdded(cfg, db, app))
  {
    var touched, added := SpecIDs(SpecsOf(cfg, db, app)) + {CONTROL_ROUTE_ID}, SyncAdded(cfg, db, app);
    FrameWiden(t0, t1, SpecIDs(SpecsOf(cfg, db, app)), SelectedRoutes(cfg, app, ServicesOf(db, app.id), SpecsOf(cfg, db, app)),
               touched, added);
    FrameWiden(t1, t2, {CONTROL_ROUTE_ID}, {ControlRoute(cfg)}, touched, added);
  }

  lemma PrunedFrame(cfg: Config, db: DB, app: App, t0: Table, t2: Table, t3: Table)
    requires Frame(t0, t2, SpecIDs(SpecsOf(cfg, db, app)) + {CONTROL_ROUTE_ID}, SyncAdded(cfg, db, app))
    requires Frame(t2, t3, OrphanIDs(t2, R.BackedIDs(cfg, db)), {})
    ensures Frame(t0, t3, SyncTouched(cfg, db, app, t0), SyncAdded(cfg, db, app))
  {
    var touched, added := SyncTouched(cfg, db, app, t0), SyncAdded(cfg, db, app);
    FrameWiden(t0, t2, SpecIDs(SpecsOf(cfg, db, app)) + {CONTROL_ROUTE_ID}, added, touched, added);
    OrphansWithin(cfg, db, app, t0, t2);
    FrameWiden(t2, t3, OrphanIDs(t2, R.BackedIDs(cfg, db)), {}, touched, added);
  }

  // An orphan listed at the end was there at the start, or is of the app itself.
  lemma OrphansWithin(cfg: Config, db: DB, app: App, t0: Table, t2: Table)
    requires forall r :: r in t2 ==> r in t0 || r in SyncAdded(cfg, db, app)
    ensures OrphanIDs(t2, R.BackedIDs(cfg, db)) <= SyncTouched(cfg, db, app, t0)
  {
    forall id | id in OrphanIDs(t2, R.BackedIDs(cfg, db)) ensures id in SyncTouched(cfg, db, app, t0) {
      var r :| r in t2 && R.Orphan(r.id, R.BackedIDs(cfg, db)) && r.id == id;
      assert r in t0 || r in SyncAdded(cfg, db, app);
    }
  }

  // Whatever calls fail during a Sync, the routes of other apps and foreign routes keep
  // their place and content.
  lemma FailuresSpareOthers(cfg: Config, db: DB, app: App, before: Table, after: Table, k: string)
    requires ValidDB(db) && app in db.apps
    requires Frame(before, after, SyncTouched(cfg, db, app, before), SyncAdded(cfg, db, app))
    requires (exists other :: other in db.apps && other != app && OwnsID(cfg, db, other, k))
      || (!IsManagedRouteID(k) && k != CONTROL_ROUTE_ID)
    ensures Lookup(after, k) == Lookup(before, k)
  {
    if other :| other in db.apps && other != app && OwnsID(cfg, db, other, k) {
      var theirs :| theirs in SpecsOf(cfg, db, other) && theirs.id == k;
      R.SpecsBacked(cfg, db, other, theirs);
      SpecIDManaged(cfg, db, other, theirs);
    }
    if k in SpecIDs(SpecsOf(cfg, db, app)) {
      var mine :| mine in SpecsOf(cfg, db, app) && mine.id == k;
      SpecIDManaged(cfg, db, app, mine);
      if other :| other in db.apps && other != app && OwnsID(cfg, db, other, k) {
        OwnersUnique(cfg, db, app, other, k);
      }
    }
    FramedRouteSurvives(before, after, SyncTouched(cfg, db, app, before), SyncAdded(cfg, db, app), k);
  }

  // Everything a Reconcile may touch or add.
  function AllSpecIDs(cfg: Config, db: DB, apps: seq<App>): set<string> {
    if apps == [] then {} else AllSpecIDs(cfg, db, apps[..|apps| - 1]) + SpecIDs(SpecsOf(cfg, db, apps[|apps| - 1]))
  }

  function AppSelected(cfg: Config, db: DB, app: App): set<Route> {
    SelectedRoutes(cfg, app, ServicesOf(db, app.id), SpecsOf(cfg, db, app))
  }

  function AllSelected(cfg: Config, db: DB, apps: seq<App>): set<Route> {
    if apps == [] then {} else AllSelected(cfg, db, apps[..|apps| - 1]) + AppSelected(cfg, db, apps[|apps| - 1])
  }

  function ReconcileTouched(cfg: Config, db: DB, t: Table): set<string> {
    AllSpecIDs(cfg, db, db.apps) + {CONTROL_ROUTE_ID} + OrphanIDs(t, R.BackedIDs(cfg, db))
  }

  function ReconcileAdded(cfg: Config, db: DB): set<Route> { AllSelected(cfg, db, db.apps) + {ControlRoute(cfg)} }

  lemma {:induction false} AppWithin(cfg: Config, db: DB, apps: seq<App>, app: App)
    requires app in apps
    ensures SpecIDs(SpecsOf(cfg, db, app)) <= AllSpecIDs(cfg, db, apps) && AppSelected(cfg, db, app) <= AllSelected(cfg, db, apps)
  {
    if apps[|apps| - 1] != app {
      assert app in apps[..|apps| - 1];
      AppWithin(cfg, db, apps[..|apps| - 1], app);
    }
  }

  lemma {:induction false} SpecIDsOwned(cfg: Config, db: DB, apps: seq<App>, k: string)
    ensures k in AllSpecIDs(cfg, db, apps) <==> R.Owner(cfg, db, apps, k).Some?
  {
    if apps != [] {
      SpecIDsOwned(cfg, db, apps[..|apps| - 1], k);
      SpecIDFound(SpecsOf(cfg, db, apps[|apps| - 1]), k);
    }
  }

  lemma SpecIDFound(specs: seq<RouteSpec>, k: string)
    ensures k in SpecIDs(specs) <==> R.FindSpec(specs, k).Some?
  {
    var found := R.FindSpec(specs, k);
    assert found.Some? ==> found.value.id in SpecIDs(specs);
  }

  lemma {:induction false} SelectedOwned(cfg: Config, db: DB, apps: seq<App>, r: Route)
    requires r in AllSelected(cfg, db, apps)
    ensures r.id in AllSpecIDs(cfg, db, apps)
  {
    if r !in AppSelected(cfg, db, apps[|apps| - 1]) {
      SelectedOwned(cfg, db, apps[..|apps| - 1], r);
    }
  }

  // One more app of the loop stays within what all of them may touch.
  lemma AppFrame(cfg: Config, db: DB, app: App, t0: Table, t1: Table, t2: Table)
    requires app in db.apps && Frame(t0, t1, AllSpecIDs(cfg, db, db.apps), AllSelected(cfg, db, db.apps))
    requires Frame(t1, t2, SpecIDs(SpecsOf(cfg, db, app)), AppSelected(cfg, db, app))
    ensures Frame(t0, t2, AllSpecIDs(cfg, db, db.apps), AllSelected(cfg, db, db.apps))
  {
    AppWithin(cfg, db, db.apps, app);
    FrameWiden(t1, t2, SpecIDs(SpecsOf(cfg, db, app)), AppSelected(cfg, db, app), AllSpecIDs(cfg, db, db.apps), AllSelected(cfg, db, db.apps));
  }

  lemma ControlFrame(cfg: Config, db: DB, t0: Table, t1: Table, t2: Table)
    requires Frame(t0, t1, AllSpecIDs(cfg, db, db.apps), AllSelected(cfg, db, db.apps))
    requires Frame(t1, t2, {CONTROL_ROUTE_ID}, {ControlRoute(cfg)})
    ensures Frame(t0, t2, AllSpecIDs(cfg, db, db.apps) + {CONTROL_ROUTE_ID}, ReconcileAdded(cfg, db))
  {
    var touched, added := AllSpecIDs(cfg, db, db.apps) + {CONTROL_ROUTE_ID}, ReconcileAdded(cfg, db);
    FrameWiden(t0, t1, AllSpecIDs(cfg, db, db.apps), AllSelected(cfg, db, db.apps), touched, added);
    FrameWiden(t1, t2, {CONTROL_ROUTE_ID}, {ControlRoute(cfg)}, touched, added);
  }

  lemma SweptFrame(cfg: Config, db: DB, t0: Table, t2: Table, t3: Table)
    requires Frame(t0, t2, AllSpecIDs(cfg, db, db.apps) + {CONTROL_ROUTE_ID}, ReconcileAdded(cfg, db))
    requires Frame(t2, t3, OrphanIDs(t2, R.BackedIDs(cfg, db)), {})
    ensures Frame(t0, t3, ReconcileTouched(cfg, db, t0), ReconcileAdded(cfg, db))
  {
    var touched, added := ReconcileTouched(cfg, db, t0), ReconcileAdded(cfg, db);
    FrameWiden(t0, t2, AllSpecIDs(cfg, db, db.apps) + {CONTROL_ROUTE_ID}, added, touched, added);
    OrphansAmongTouched(cfg, db, t0, t2);
    FrameWiden(t2, t3, OrphanIDs(t2, R.BackedIDs(cfg, db)), {}, touched, added);
  }

  lemma OrphansAmongTouched(cfg: Config, db: DB, t0: Table, t2: Table)
    requires forall r :: r in t2 ==> r in t0 || r in ReconcileAdded(cfg, db)
    ensures OrphanIDs(t2, R.BackedIDs(cfg, db)) <= ReconcileTouched(cfg, db, t0)
  {
    forall id | id in OrphanIDs(t2, R.BackedIDs(cfg, db)) ensures id in ReconcileTouched(cfg, db, t0) {
      var r :| r in t2 && R.Orphan(r.id, R.BackedIDs(cfg, db)) && r.id == id;
      if r !in t0 && r in AllSelected(cfg, db, db.apps) {
        SelectedOwned(cfg, db, db.apps, r);
      }
    }
  }

  // Whatever calls fail during a Reconcile, foreign routes and routes of rows that own no
  // spec keep their content, and so does the order of all untouched routes.
  lemma FailedReconcileSpares(cfg: Config, db: DB, before: Table, after: Table, k: string)
    requires ValidDB(db) && Frame(before, after, ReconcileTouched(cfg, db, before), ReconcileAdded(cfg, db))
    requires k != CONTROL_ROUTE_ID && R.Owner(cfg, db, db.apps, k).None? && (IsManagedRouteID(k) ==> k in R.BackedIDs(cfg, db))
    ensures Lookup(after, k) == Lookup(before, k)
    ensures Without(after, ReconcileTouched(cfg, db, before)) == Without(before, ReconcileTouched(cfg, db, before))
  {
    SpecIDsOwned(cfg, db, db.apps, k);
    FramedRouteSurvives(before, after, ReconcileTouched(cfg, db, before), ReconcileAdded(cfg, db), k);
  }

  // ---- The edge network ----

  // NetworkConnect: an attached container stays attached under its alias.
  function Attach(edge: map<string, string>, container: string, aliasName: string): map<string, string> {
    if container in edge then edge else edge[container := aliasName]
  }

  predicate Attaches(cfg: Config, services: seq<Service>, spec: RouteSpec) {
    spec.redirectTo == "" && Routable(cfg, FindService(services, spec.service))
  }

  function AttachSpec(cfg: Config, slug: string, services: seq<Service>, spec: RouteSpec, edge: map<string, string>)
    : map<string, string>
  {
    if Attaches(cfg, services, spec) then
      var svc := FindService(services, spec.service).value;
      Attach(edge, svc.containerID.value, Alias(slug, svc.name))
    else edge
  }

  function AttachSpecs(cfg: Config, slug: string, services: seq<Service>, specs: seq<RouteSpec>, edge: map<string, string>)
    : map<string, string>
  {
    if specs == [] then edge
    else AttachSpec(cfg, slug, services, specs[|specs| - 1], AttachSpecs(cfg, slug, services, specs[..|specs| - 1], edge))
  }

  function AttachApp(cfg: Config, db: DB, app: App, edge: map<string, string>): map<string, string> {
    if app.maintenanceActive || app.suspended then edge
    else AttachSpecs(cfg, app.slug, ServicesOf(db, app.id), SpecsOf(cfg, db, app), edge)
  }

  function AttachApps(cfg: Config, db: DB, apps: seq<App>, edge: map<string, string>): map<string, string> {
    if apps == [] then edge else AttachApp(cfg, db, apps[|apps| - 1], AttachApps(cfg, db, apps[..|apps| - 1], edge))
  }

  function Detach(services: seq<Service>, edge: map<string, string>): map<string, string> {
    if services == [] then edge
    else
      var earlier := Detach(services[..|services| - 1], edge);
      var last := services[|services| - 1];
      if last.Deployed() then earlier - {last.containerID.value} else earlier
  }

  lemma {:induction false} AttachKeys(cfg: Config, slug: string, services: seq<Service>, specs: seq<RouteSpec>, edge: map<string, string>, c: string)
    ensures c in AttachSpecs(cfg, slug, services, specs, edge) <==>
      c in edge || exists s :: s in specs && Attaches(cfg, services, s)
                     && FindService(services, s.service).value.containerID.value == c
  {
    if specs != [] {
      var init := specs[..|specs| - 1];
      AttachKeys(cfg, slug, services, init, edge, c);
      assert specs == init + [specs[|specs| - 1]];
    }
  }

  lemma {:induction false} DetachKeys(services: seq<Service>, edge: map<string, string>, c: string)
    ensures c in Detach(services, edge) <==>
      c in edge && forall s :: s in services && s.Deployed() ==> s.containerID.value != c
  {
    if services != [] {
      var init := services[..|services| - 1];
      DetachKeys(init, edge, c);
      assert services == init + [services[|services| - 1]];
    }
  }

  // After a suspension detached the app's containers, the Sync that follows the wake
  // re-attaches exactly those behind a routable spec.
  lemma WakeReattaches(cfg: Config, db: DB, app: App, edge: map<string, string>, svc: Service)
    requires ValidDB(db) && !app.maintenanceActive && !app.suspended
    requires svc in ServicesOf(db, app.id) && svc.Deployed()
    ensures var services := ServicesOf(db, app.id);
      svc.containerID.value in AttachApp(cfg, db, app, Detach(services, edge)) <==>
      exists s :: s in SpecsOf(cfg, db, app) && Attaches(cfg, services, s)
                  && FindService(services, s.service).value.containerID == svc.containerID
  {
    var services := ServicesOf(db, app.id);
    DetachKeys(services, edge, svc.containerID.value);
    AttachKeys(cfg, app.slug, services, SpecsOf(cfg, db, app), Detach(services, edge), svc.containerID.value);
  }

  // ---- The manager ----

  class Manager {
    const cfg: Config
    const hasBaseConfig: bool
    // The routes of the managed server; None after Caddy fell back to its bootstrap.
    var server: Option<Table>
    // Containers on vac-edge, with their aliases.
    var edge: map<string, string>
    // How many external calls have failed so far.
    ghost var faults: nat

    constructor (cfg: Config, hasBaseConfig: bool)
      ensures this.cfg == cfg && this.hasBaseConfig == hasBaseConfig
      ensures server == None && edge == map[] && faults == 0
    {
      this.cfg := cfg;
      this.hasBaseConfig := hasBaseConfig;
      server := None;
      edge := map[];
      faults := 0;
    }

    ghost function Routes(): Table
      reads this
    {
      if server.Some? then server.value else []
    }

    // Any request: it may not arrive, or its reply may be lost.
    method Call() returns (arrives: bool, replies: bool)
      modifies this`faults
      ensures arrives && replies <==> faults == old(faults)
      ensures faults <= old(faults) + 1 && faults >= old(faults)
    {
      arrives := *;
      replies := *;
      if !arrives || !replies {
        faults := faults + 1;
      }
    }

    // DELETE /id/{id}: an error for a missing id or server, with nothing changed.
    method DeleteRoute(id: string) returns (ok: bool)
      modifies this`server, this`faults
      ensures faults >= old(faults)
      ensures server.Some? == old(server).Some?
      ensures Routes() == old(Routes()) || Routes() == Delete(old(Routes()), id)
      ensures faults == old(faults) ==> Routes() == Delete(old(Routes()), id)
      ensures faults == old(faults) ==> (ok <==> HasID(old(Routes()), id))
    {
      var arrives, replies := Call();
      ok := arrives && replies && server.Some? && Lookup(server.value, id).Some?;
      if arrives && server.Some? {
        server := Some(Delete(server.value, id));
      }
    }

    // PutRoute: a best-effort delete, then an append; not one atomic step.
    method PutRoute(r: Route) returns (ok: bool)
      modifies this`server, this`faults
      ensures faults >= old(faults)
      ensures server.Some? == old(server).Some?
      ensures Routes() in {old(Routes()), Delete(old(Routes()), r.id), old(Routes()) + [r], Put(old(Routes()), r)}
      ensures faults == old(faults) && server.Some? ==> ok && Routes() == Put(old(Routes()), r)
      ensures server.None? ==> !ok
    {
      var found := DeleteRoute(r.id);
      var arrives, replies := Call();
      ok := arrives && replies && server.Some?;
      if arrives && server.Some? {
        server := Some(server.value + [r]);
      }
    }

    method ConnectNetwork(container: string, aliasName: string) returns (ok: bool)
      modifies this`edge, this`faults
      ensures faults >= old(faults)
      ensures edge == old(edge) || edge == Attach(old(edge), container, aliasName)
      ensures ok ==> edge == Attach(old(edge), container, aliasName)
      ensures faults == old(faults) ==> ok
    {
      var arrives, replies := Call();
      ok := arrives && replies;
      if arrives {
        edge := Attach(edge, container, aliasName);
      }
    }

    method DisconnectNetwork(container: string) returns (ok: bool)
      modifies this`edge, this`faults
      ensures faults >= old(faults)
      ensures edge == old(edge) || edge == old(edge) - {container}
      ensures faults == old(faults) ==> ok && edge == old(edge) - {container}
    {
      var arrives, replies := Call();
      ok := arrives && replies;
      if arrives {
        edge := edge - {container};
      }
    }

    // A read of the store, or any call without effect on table or network.
    method Succeeds() returns (ok: bool)
      modifies this`faults
      ensures faults >= old(faults)
      ensures ok <==> faults == old(faults)
    {
      var arrives, replies := Call();
      ok := arrives && replies;
    }

    // ensureBaseConfig: a probe that finds the server missing reloads the base
    // configuration, whose route list is empty.
    method EnsureBaseConfig()
      modifies this`server, this`faults
      ensures faults >= old(faults)
      ensures old(server).Some? ==> server == old(server)
      ensures old(server).None? ==> server == None || server == Some([])
      ensures faults == old(faults) && hasBaseConfig ==> server.Some?
      ensures Routes() == old(Routes())
    {
      if !hasBaseConfig {
        return;
      }
      var probed := Succeeds();
      if !probed || server.Some? {
        return;
      }
      var arrives, replies := Call();
      if arrives {
        server := Some([]);
      }
    }

    // applyApp's maintenance and suspended branches push the selected route of every
    // spec and leave the network alone.
    method PushSelected(app: App, services: seq<Service>, specs: seq<RouteSpec>) returns (ok: bool)
      requires app.maintenanceActive || app.suspended
      modifies this`server, this`faults
      ensures faults >= old(faults) && server.Some? == old(server).Some?
      ensures Frame(old(Routes()), Routes(), SpecIDs(specs), SelectedRoutes(cfg, app, services, specs))
      ensures faults == old(faults) && server.Some? ==> ok && Routes() == R.ApplySpecs(cfg, app, services, specs, old(Routes()))
    {
      ok := true;
      for i := 0 to |specs|
        invariant faults >= old(faults) && server.Some? == old(server).Some?
        invariant Frame(old(Routes()), Routes(), SpecIDs(specs), SelectedRoutes(cfg, app, services, specs))
        invariant faults == old(faults) && server.Some? ==>
          ok && Routes() == R.ApplySpecs(cfg, app, services, specs[..i], old(Routes()))
      {
        assert specs[..i + 1][..i] == specs[..i];
        assert specs[i] in specs;
        var r := Select(cfg, app, services, specs[i]).value;
        var pushed := Push(r, old(Routes()), SpecIDs(specs), SelectedRoutes(cfg, app, services, specs));
        ok := ok && pushed;
      }
      assert specs[..|specs|] == specs;
    }

    // PutRoute within a frame.
    method Push(r: Route, ghost base: Table, ghost touched: set<string>, ghost added: set<Route>) returns (ok: bool)
      requires Frame(base, Routes(), touched, added) && r.id in touched && r in added
      modifies this`server, this`faults
      ensures faults >= old(faults) && server.Some? == old(server).Some?
      ensures Frame(base, Routes(), touched, added)
      ensures faults == old(faults) && server.Some? ==> ok && Routes() == Put(old(Routes()), r)
    {
      FrameDelete(base, Routes(), touched, added, r.id);
      FrameAppend(base, Routes(), touched, added, r);
      FrameAppend(base, Delete(Routes(), r.id), touched, added, r);
      ok := PutRoute(r);
    }

    // DeleteRoute within a frame.
    method Drop(id: string, ghost base: Table, ghost touched: set<string>, ghost added: set<Route>) returns (ok: bool)
      requires Frame(base, Routes(), touched, added) && id in touched
      modifies this`server, this`faults
      ensures faults >= old(faults) && server.Some? == old(server).Some?
      ensures Frame(base, Routes(), touched, added)
      ensures faults == old(faults) ==> Routes() == Delete(old(Routes()), id)
      ensures faults == old(faults) ==> (ok <==> HasID(old(Routes()), id))
    {
      FrameDelete(base, Routes(), touched, added, id);
      ok := DeleteRoute(id);
    }

    // applyApp's ordinary branch: redirects unconditionally, routable services behind
    // a network attachment (made once per container), and a delete for the rest.
    method PushLive(app: App, services: seq<Service>, specs: seq<RouteSpec>) returns (ok: bool)
      requires !app.maintenanceActive && !app.suspended
      modifies this`server, this`edge, this`faults
      ensures faults >= old(faults) && server.Some? == old(server).Some?
      ensures Frame(old(Routes()), Routes(), SpecIDs(specs), SelectedRoutes(cfg, app, services, specs))
      ensures faults == old(faults) && server.Some? ==> ok && Routes() == R.ApplySpecs(cfg, app, services, specs, old(Routes()))
      ensures faults == old(faults) ==> edge == AttachSpecs(cfg, app.slug, services, specs, old(edge))
    {
      ok := true;
      var attached: set<string> := {};
      ghost var ids, routes := SpecIDs(specs), SelectedRoutes(cfg, app, services, specs);
      for i := 0 to |specs|
        invariant faults >= old(faults) && server.Some? == old(server).Some?
        invariant attached <= edge.Keys
        invariant Frame(old(Routes()), Routes(), ids, routes)
        invariant faults == old(faults) && server.Some? ==>
          ok && Routes() == R.ApplySpecs(cfg, app, services, specs[..i], old(Routes()))
        invariant faults == old(faults) ==> edge == AttachSpecs(cfg, app.slug, services, specs[..i], old(edge))
      {
        assert specs[..i + 1][..i] == specs[..i];
        SelectedListed(cfg, app, services, specs, i);
        var pushed;
        pushed, attached := PushLiveSpec(app, services, specs[i], attached, old(Routes()), ids, routes);
        ok := ok && pushed;
      }
      assert specs[..|specs|] == specs;
    }

    // One round of that loop.
    method PushLiveSpec(app: App, services: seq<Service>, spec: RouteSpec, attached: set<string>,
                        ghost base: Table, ghost ids: set<string>, ghost routes: set<Route>)
        returns (ok: bool, nowAttached: set<string>)
      requires !app.maintenanceActive && !app.suspended && attached <= edge.Keys
      requires Frame(base, Routes(), ids, routes) && spec.id in ids
      requires Select(cfg, app, services, spec).Some? ==> Select(cfg, app, services, spec).value in routes
      modifies this`server, this`edge, this`faults
      ensures faults >= old(faults) && server.Some? == old(server).Some? && nowAttached <= edge.Keys
      ensures Frame(base, Routes(), ids, routes)
      ensures faults == old(faults) && server.Some? ==> ok && Routes() == R.ApplySpec(cfg, app, services, spec, old(Routes()))
      ensures faults == old(faults) ==> edge == AttachSpec(cfg, app.slug, services, spec, old(edge))
    {
      nowAttached := attached;
      if spec.redirectTo != "" {
        ok := Push(RedirectRoute(spec.id, spec.hostname, spec.redirectTo), base, ids, routes);
        return;
      }
      var svc := FindService(services, spec.service);
      if !Routable(cfg, svc) {
        var found := Drop(spec.id, base, ids, routes);
        ok := true;
        return;
      }
      var container := svc.value.containerID.value;
      if container !in attached {
        var connected := ConnectNetwork(container, Alias(app.slug, svc.value.name));
        if !connected {
          ok := false;
          return;
        }
        nowAttached := nowAttached + {container};
      }
      ok := Push(ServiceRoute(cfg, spec.id, spec.hostname, svc.value, app.slug, app.rateLimitRPM), base, ids, routes);
    }

    // applyApp.
    method ApplyApp(db: DB, appID: string) returns (ok: bool)
      modifies this`server, this`edge, this`faults
      ensures faults >= old(faults) && server.Some? == old(server).Some?
      ensures GetApp(db.apps, appID).None? ==> !ok && server == old(server) && edge == old(edge)
      ensures GetApp(db.apps, appID).Some? ==>
        var app := GetApp(db.apps, appID).value;
        && Frame(old(Routes()), Routes(), SpecIDs(SpecsOf(cfg, db, app)),
                 SelectedRoutes(cfg, app, ServicesOf(db, app.id), SpecsOf(cfg, db, app)))
        && (faults == old(faults) && server.Some? ==> ok && Routes() == R.ApplyApp(cfg, db, app, old(Routes())))
        && (faults == old(faults) ==> edge == AttachApp(cfg, db, app, old(edge)))
    {
      var read := Succeeds();
      var found := GetApp(db.apps, appID);
      if !read || found.None? {
        return false;
      }
      var app := found.value;
      var services := ServicesOf(db, app.id);
      var specs := DesiredRoutes(cfg, app, DomainsOf(db.domains, app.id), services);
      if app.maintenanceActive || app.suspended {
        ok := PushSelected(app, services, specs);
      } else {
        ok := PushLive(app, services, specs);
      }
    }

    // applyControlRoute.
    method ApplyControlRoute() returns (ok: bool)
      modifies this`server, this`faults
      ensures faults >= old(faults) && server.Some? == old(server).Some?
      ensures Frame(old(Routes()), Routes(), {CONTROL_ROUTE_ID}, {ControlRoute(cfg)})
      ensures faults == old(faults) && server.Some? ==> ok && Routes() == R.ApplyControl(cfg, old(Routes()))
    {
      if cfg.controlDomain == "" {
        var found := Drop(CONTROL_ROUTE_ID, Routes(), {CONTROL_ROUTE_ID}, {ControlRoute(cfg)});
        return true;
      }
      ok := Push(ControlRoute(cfg), Routes(), {CONTROL_ROUTE_ID}, {ControlRoute(cfg)});
    }

    // pruneOrphans: the delete of every listed managed id that nothing stands behind.
    method PruneOrphans(db: DB) returns (ok: bool)
      modifies this`server, this`faults
      ensures faults >= old(faults) && server.Some? == old(server).Some?
      ensures Frame(old(Routes()), Routes(), OrphanIDs(old(Routes()), R.BackedIDs(cfg, db)), {})
      ensures faults == old(faults) && server.Some? && DistinctIDs(old(Routes())) ==>
        ok && Routes() == R.PruneOrphans(cfg, db, old(Routes()))
    {
      var read := Succeeds();
      if !read || server.None? {
        return false;
      }
      var listing := server.value;
      var backed := R.BackedIDs(cfg, db);
      ok := true;
      for i := 0 to |listing|
        invariant faults >= old(faults) && server.Some?
        invariant Frame(old(Routes()), Routes(), OrphanIDs(listing, backed), {})
        invariant faults == old(faults) && DistinctIDs(listing) ==> ok && Routes() == R.Sweep(listing, backed, listing[..i])
      {
        SweepStep(listing, backed, i);
        if R.Orphan(listing[i].id, backed) {
          var found := Drop(listing[i].id, old(Routes()), OrphanIDs(listing, backed), {});
          ok := ok && found;
        }
      }
      assert listing[..|listing|] == listing;
    }

    // Sync: with no failed call exactly the projection of the app; whatever fails, only
    // the app's own ids, the control id and orphans change, and only selected routes
    // are added.
    method Sync(db: DB, appID: string) returns (ok: bool)
      modifies this`server, this`edge, this`faults
      ensures faults >= old(faults)
      ensures faults == old(faults) && hasBaseConfig ==> server.Some?
      ensures GetApp(db.apps, appID).Some? ==>
        var app := GetApp(db.apps, appID).value;
        && Frame(old(Routes()), Routes(), SyncTouched(cfg, db, app, old(Routes())), SyncAdded(cfg, db, app))
        && (faults == old(faults) && server.Some? && ValidDB(db) && DistinctIDs(old(Routes())) ==>
              ok && Routes() == R.Sync(cfg, db, app, old(Routes())))
        && (faults == old(faults) ==> edge == AttachApp(cfg, db, app, old(edge)))
    {
      var created := Succeeds();
      EnsureBaseConfig();
      ghost var t0 := Routes();
      var applied := ApplyAndControl(db, appID);
      ghost var t2 := Routes();
      var pruned := PruneOrphans(db);
      var certs := Succeeds();
      ok := applied && pruned && certs;
      ghost var found := GetApp(db.apps, appID);
      if found.Some? {
        PrunedFrame(cfg, db, found.value, t0, t2, Routes());
        SyncChain(cfg, db, found.value, t0);
      }
    }

    // Sync's calls up to the prune.
    method ApplyAndControl(db: DB, appID: string) returns (ok: bool)
      modifies this`server, this`edge, this`faults
      ensures faults >= old(faults) && server.Some? == old(server).Some?
      ensures GetApp(db.apps, appID).Some? ==>
        var app := GetApp(db.apps, appID).value;
        && Frame(old(Routes()), Routes(), SpecIDs(SpecsOf(cfg, db, app)) + {CONTROL_ROUTE_ID}, SyncAdded(cfg, db, app))
        && (faults == old(faults) && server.Some? ==> ok && Routes() == R.ApplyControl(cfg, R.ApplyApp(cfg, db, app, old(Routes()))))
        && (faults == old(faults) ==> edge == AttachApp(cfg, db, app, old(edge)))
    {
      ghost var t0 := Routes();
      var applied := ApplyApp(db, appID);
      ghost var t1 := Routes();
      var control := ApplyControlRoute();
      ok := applied && control;
      ghost var found := GetApp(db.apps, appID);
      if found.Some? {
        AppliedFrame(cfg, db, found.value, t0, t1, Routes());
      }
    }

    // applyApp for an app that is on record, one turn of Reconcile's loop.
    method ApplyListed(db: DB, app: App, ghost start: Table) returns (ok: bool)
      requires GetApp(db.apps, app.id) == Some(app)
      requires Frame(start, Routes(), AllSpecIDs(cfg, db, db.apps), AllSelected(cfg, db, db.apps))
      modifies this`server, this`edge, this`faults
      ensures faults >= old(faults) && server.Some? == old(server).Some?
      ensures Frame(start, Routes(), AllSpecIDs(cfg, db, db.apps), AllSelected(cfg, db, db.apps))
      ensures faults == old(faults) && server.Some? ==> ok && Routes() == R.ApplyApp(cfg, db, app, old(Routes()))
      ensures faults == old(faults) ==> edge == AttachApp(cfg, db, app, old(edge))
    {
      ghost var before := Routes();
      ok := ApplyApp(db, app.id);
      AppFrame(cfg, db, app, start, before, Routes());
    }

    // Reconcile's loop over every app.
    method ApplyAll(db: DB) returns (ok: bool)
      requires ValidDB(db)
      modifies this`server, this`edge, this`faults
      ensures faults >= old(faults) && server.Some? == old(server).Some?
      ensures Frame(old(Routes()), Routes(), AllSpecIDs(cfg, db, db.apps), AllSelected(cfg, db, db.apps))
      ensures faults == old(faults) && server.Some? ==> ok && Routes() == R.ApplyApps(cfg, db, db.apps, old(Routes()))
      ensures faults == old(faults) ==> edge == AttachApps(cfg, db, db.apps, old(edge))
    {
      ghost var start := Routes();
      ok := true;
      for i := 0 to |db.apps|
        invariant faults >= old(faults) && server.Some? == old(server).Some?
        invariant Frame(start, Routes(), AllSpecIDs(cfg, db, db.apps), AllSelected(cfg, db, db.apps))
        invariant faults == old(faults) && server.Some? ==> ok && Routes() == R.ApplyApps(cfg, db, db.apps[..i], start)
        invariant faults == old(faults) ==> edge == AttachApps(cfg, db, db.apps[..i], old(edge))
      {
        ghost var before := Routes();
        GetAppUnique(db, db.apps[i]);
        var applied := ApplyListed(db, db.apps[i], start);
        ok := ok && applied;
        ApplyAppsStep(cfg, db, i, start, before, Routes());
        AttachAppsStep(cfg, db, i, old(edge));
      }
      assert db.apps[..|db.apps|] == db.apps;
    }

    // Reconcile: with no failed call the whole projection; whatever fails, only desired
    // ids, the control id and orphans change, and only selected routes are added.
    method Reconcile(db: DB) returns (ok: bool)
      requires ValidDB(db)
      modifies this`server, this`edge, this`faults
      ensures faults >= old(faults)
      ensures faults == old(faults) && hasBaseConfig ==> server.Some?
      ensures Frame(old(Routes()), Routes(), ReconcileTouched(cfg, db, old(Routes())), ReconcileAdded(cfg, db))
      ensures faults == old(faults) && server.Some? && DistinctIDs(old(Routes())) ==>
        ok && Routes() == R.Reconcile(cfg, db, old(Routes()))
      ensures faults == old(faults) ==> edge == AttachApps(cfg, db, db.apps, old(edge))
    {
      var created := Succeeds();
      EnsureBaseConfig();
      ghost var t0 := Routes();
      var read := Succeeds();
      if !read {
        return false;
      }
      var applied := ApplyAll(db);
      ghost var t1 := Routes();
      var control := ApplyControlRoute();
      ghost var t2 := Routes();
      ControlFrame(cfg, db, t0, t1, t2);
      if DistinctIDs(t0) {
        AllAppliedDistinct(cfg, db, t0);
      }
      var pruned := PruneOrphans(db);
      SweptFrame(cfg, db, t0, t2, Routes());
      var certs := Succeeds();
      ok := applied && control && pruned && certs;
    }

    // The loop that takes an app's containers off the network.
    method DetachServices(services: seq<Service>) returns (ok: bool)
      modifies this`edge, this`faults
      ensures faults >= old(faults)
      ensures faults == old(faults) ==> ok && edge == Detach(services, old(edge))
    {
      ok := true;
      for i := 0 to |services|
        invariant faults >= old(faults)
        invariant faults == old(faults) ==> ok && edge == Detach(services[..i], old(edge))
      {
        assert services[..i + 1][..i] == services[..i];
        if services[i].Deployed() {
          var off := DisconnectNetwork(services[i].containerID.value);
          ok := ok && off;
        }
      }
      assert services[..|services|] == services;
    }

    // Teardown's loop over the app's routes.
    method RemoveSpecs(specs: seq<RouteSpec>)
      modifies this`server, this`faults
      ensures faults >= old(faults) && server.Some? == old(server).Some?
      ensures Frame(old(Routes()), Routes(), SpecIDs(specs), {})
      ensures faults == old(faults) ==> Routes() == R.RemoveSpecs(specs, old(Routes()))
    {
      for i := 0 to |specs|
        invariant faults >= old(faults) && server.Some? == old(server).Some?
        invariant Frame(old(Routes()), Routes(), SpecIDs(specs), {})
        invariant faults == old(faults) ==> Routes() == R.RemoveSpecs(specs[..i], old(Routes()))
      {
        assert specs[..i + 1][..i] == specs[..i];
        assert specs[i] in specs;
        var gone := Drop(specs[i].id, old(Routes()), SpecIDs(specs), {});
      }
      assert specs[..|specs|] == specs;
    }

    // Teardown.
    method Teardown(db: DB, appID: string) returns (ok: bool)
      modifies this`server, this`edge, this`faults
      ensures faults >= old(faults) && server.Some? == old(server).Some?
      ensures GetApp(db.apps, appID).None? ==> !ok && server == old(server) && edge == old(edge)
      ensures GetApp(db.apps, appID).Some? ==>
        var app := GetApp(db.apps, appID).value;
        && Frame(old(Routes()), Routes(), SpecIDs(SpecsOf(cfg, db, app)), {})
        && (faults == old(faults) ==> ok && Routes() == R.Teardown(cfg, db, app, old(Routes())))
        && (faults == old(faults) ==> edge == Detach(ServicesOf(db, app.id), old(edge)))
    {
      var read := Succeeds();
      var found := GetApp(db.apps, appID);
      if !read || found.None? {
        return false;
      }
      RemoveSpecs(SpecsOf(cfg, db, found.value));
      ok := DetachServices(ServicesOf(db, found.value.id));
    }

    // InstallWakeRoutes' loop over the app's routes.
    method SwapSpecs(specs: seq<RouteSpec>) returns (ok: bool)
      modifies this`server, this`faults
      ensures faults >= old(faults) && server.Some? == old(server).Some?
      ensures Frame(old(Routes()), Routes(), SpecIDs(specs), WakeRoutes(cfg, specs))
      ensures faults == old(faults) && server.Some? ==> ok && Routes() == R.WakeSpecs(cfg, specs, old(Routes()))
    {
      ok := true;
      for i := 0 to |specs|
        invariant faults >= old(faults) && server.Some? == old(server).Some?
        invariant Frame(old(Routes()), Routes(), SpecIDs(specs), WakeRoutes(cfg, specs))
        invariant faults == old(faults) && server.Some? ==> ok && Routes() == R.WakeSpecs(cfg, specs[..i], old(Routes()))
      {
        assert specs[..i + 1][..i] == specs[..i];
        assert specs[i] in specs;
        if specs[i].redirectTo == "" {
          var pushed := Push(WakeRoute(cfg, specs[i].id, specs[i].hostname), old(Routes()), SpecIDs(specs), WakeRoutes(cfg, specs));
          ok := ok && pushed;
        }
      }
      assert specs[..|specs|] == specs;
    }

    // InstallWakeRoutes.
    method InstallWakeRoutes(db: DB, appID: string) returns (ok: bool)
      modifies this`server, this`edge, this`faults
      ensures faults >= old(faults)
      ensures GetApp(db.apps, appID).None? ==> !ok && Routes() == old(Routes()) && edge == old(edge)
      ensures GetApp(db.apps, appID).Some? ==>
        var app := GetApp(db.apps, appID).value;
        && Frame(old(Routes()), Routes(), SpecIDs(SpecsOf(cfg, db, app)), WakeRoutes(cfg, SpecsOf(cfg, db, app)))
        && (faults == old(faults) && server.Some? ==> ok && Routes() == R.InstallWakeRoutes(cfg, db, app, old(Routes())))
        && (faults == old(faults) ==> edge == Detach(ServicesOf(db, app.id), old(edge)))
    {
      EnsureBaseConfig();
      var read := Succeeds();
      var found := GetApp(db.apps, appID);
      if !read || found.None? {
        return false;
      }
      ok := SwapSpecs(SpecsOf(cfg, db, found.value));
      var off := DetachServices(ServicesOf(db, found.value.id));
      ok := ok && off;
    }
  }

  lemma SyncChain(cfg: Config, db: DB, app: App, t: Table)
    ensures ValidDB(db) && DistinctIDs(t) ==> DistinctIDs(R.ApplyControl(cfg, R.ApplyApp(cfg, db, app, t)))
    ensures R.Sync(cfg, db, app, t) == R.PruneOrphans(cfg, db, R.ApplyControl(cfg, R.ApplyApp(cfg, db, app, t)))
  {
    if ValidDB(db) && DistinctIDs(t) {
      AppliedDistinct(cfg, db, app, t);
    }
  }

  lemma SelectedListed(cfg: Config, app: App, services: seq<Service>, specs: seq<RouteSpec>, i: nat)
    requires i < |specs|
    ensures specs[i].id in SpecIDs(specs)
    ensures var r := Select(cfg, app, services, specs[i]); r.Some? ==> r.value in SelectedRoutes(cfg, app, services, specs)
  {
    assert specs[i] in specs;
  }

  lemma AppliedDistinct(cfg: Config, db: DB, app: App, t: Table)
    requires ValidDB(db) && DistinctIDs(t)
    ensures DistinctIDs(R.ApplyControl(cfg, R.ApplyApp(cfg, db, app, t)))
  {
    SpecsDistinct(cfg, db, app);
    R.ApplySpecsLookup(cfg, app, ServicesOf(db, app.id), SpecsOf(cfg, db, app), t, "");
    R.ApplyControlLookup(cfg, R.ApplyApp(cfg, db, app, t), "");
  }

  lemma AllAppliedDistinct(cfg: Config, db: DB, t: Table)
    requires ValidDB(db) && DistinctIDs(t)
    ensures DistinctIDs(R.ApplyControl(cfg, R.ApplyApps(cfg, db, db.apps, t)))
  {
    R.ApplyAppsLookup(cfg, db, db.apps, t, "");
    R.ApplyControlLookup(cfg, R.ApplyApps(cfg, db, db.apps, t), "");
  }

  lemma ApplyAppsStep(cfg: Config, db: DB, i: nat, start: Table, before: Table, after: Table)
    requires i < |db.apps|
    ensures before == R.ApplyApps(cfg, db, db.apps[..i], start) && after == R.ApplyApp(cfg, db, db.apps[i], before)
      ==> after == R.ApplyApps(cfg, db, db.apps[..i + 1], start)
  {
    assert db.apps[..i + 1][..i] == db.apps[..i];
  }

  lemma AttachAppsStep(cfg: Config, db: DB, i: nat, edge: map<string, string>)
    requires i < |db.apps|
    ensures AttachApps(cfg, db, db.apps[..i + 1], edge) == AttachApp(cfg, db, db.apps[i], AttachApps(cfg, db, db.apps[..i], edge))
  {
    assert db.apps[..i + 1][..i] == db.apps[..i];
  }

  lemma GetAppUnique(db: DB, app: App)
    requires ValidDB(db) && app in db.apps
    ensures GetApp(db.apps, app.id) == Some(app)
  {
    R.AppByID(db, GetApp(db.apps, app.id).value, app);
  }

  lemma SweepStep(listing: Table, backed: set<string>, i: nat)
    requires i < |listing|
    ensures var sofar := R.Sweep(listing, backed, listing[..i]);
      && (R.Orphan(listing[i].id, backed) ==> listing[i].id in OrphanIDs(listing, backed))
      && (R.Orphan(listing[i].id, backed) && DistinctIDs(listing) ==> HasID(sofar, listing[i].id))
      && R.Sweep(listing, backed, listing[..i + 1]) == (if R.Orphan(listing[i].id, backed) then Delete(sofar, listing[i].id) else sofar)
  {
    assert listing[..i + 1][..i] == listing[..i];
    assert listing[i] in listing;
    if DistinctIDs(listing) {
      StillListed(listing, backed, i);
    }
  }

  // With distinct ids the sweep meets each orphan while it is still there.
  lemma StillListed(listing: Table, backed: set<string>, i: nat)
    requires DistinctIDs(listing) && i < |listing|
    ensures HasID(R.Sweep(listing, backed, listing[..i]), listing[i].id)
  {
    R.SweepLookup(listing, backed, listing[..i], listing[i].id);
    MemberLookup(listing, listing[i]);
  }
}
