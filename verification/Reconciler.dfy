// What each route operation does to the table when no external call fails, and the
// laws of the projection: convergence, idempotence, framing, order independence and
// the scale-to-zero swap (proxy/manager.go).
module Reconciler {
  import opened Text
  import opened Names
  import opened ProxyModel
  import opened RouteTable

  // ---- applyApp ----

  function ApplySpec(cfg: Config, app: App, services: seq<Service>, spec: RouteSpec, t: Table): Table {
    var r := Select(cfg, app, services, spec);
    if r.Some? then Put(t, r.value) else Delete(t, spec.id)
  }

  function ApplySpecs(cfg: Config, app: App, services: seq<Service>, specs: seq<RouteSpec>, t: Table): Table {
    if specs == [] then t
    else ApplySpec(cfg, app, services, specs[|specs| - 1], ApplySpecs(cfg, app, services, specs[..|specs| - 1], t))
  }

  function ApplyApp(cfg: Config, db: DB, app: App, t: Table): Table {
    ApplySpecs(cfg, app, ServicesOf(db, app.id), SpecsOf(cfg, db, app), t)
  }

  function FindSpec(specs: seq<RouteSpec>, id: string): (r: Option<RouteSpec>)
    ensures r.Some? ==> r.value in specs && r.value.id == id
    ensures r.None? ==> forall s :: s in specs ==> s.id != id
  {
    if specs == [] then None
    else if specs[|specs| - 1].id == id then Some(specs[|specs| - 1])
    else FindSpec(specs[..|specs| - 1], id)
  }

  lemma FindSpecUnique(specs: seq<RouteSpec>, spec: RouteSpec)
    requires DistinctSpecIDs(specs) && spec in specs
    ensures FindSpec(specs, spec.id) == Some(spec)
  {
    var found := FindSpec(specs, spec.id);
    var i :| 0 <= i < |specs| && specs[i] == spec;
    var j :| 0 <= j < |specs| && specs[j] == found.value;
    assert i == j;
  }

  // The id of a spec holds exactly the route selected for it; every other id keeps
  // what it had.
  lemma {:induction false} ApplySpecsLookup(cfg: Config, app: App, services: seq<Service>, specs: seq<RouteSpec>, t: Table, k: string)
    requires DistinctIDs(t) && DistinctSpecIDs(specs)
    ensures DistinctIDs(ApplySpecs(cfg, app, services, specs, t))
    ensures Lookup(ApplySpecs(cfg, app, services, specs, t), k) ==
      if FindSpec(specs, k).Some? then Select(cfg, app, services, FindSpec(specs, k).value) else Lookup(t, k)
  {
    if specs != [] {
      var last, init := specs[|specs| - 1], specs[..|specs| - 1];
      ApplySpecsLookup(cfg, app, services, init, t, k);
      var u := ApplySpecs(cfg, app, services, init, t);
      var r := Select(cfg, app, services, last);
      if r.Some? {
        PutLookup(u, r.value, k);
      } else {
        DeleteLookup(u, last.id, k);
      }
    }
  }

  // ---- applyControlRoute ----

  function ApplyControl(cfg: Config, t: Table): Table {
    if cfg.controlDomain == "" then Delete(t, CONTROL_ROUTE_ID) else Put(t, ControlRoute(cfg))
  }

  function DesiredControl(cfg: Config): Option<Route> {
    if cfg.controlDomain == "" then None else Some(ControlRoute(cfg))
  }

  lemma ApplyControlLookup(cfg: Config, t: Table, k: string)
    requires DistinctIDs(t)
    ensures DistinctIDs(ApplyControl(cfg, t))
    ensures Lookup(ApplyControl(cfg, t), k) == if k == CONTROL_ROUTE_ID then DesiredControl(cfg) else Lookup(t, k)
  {
    if cfg.controlDomain == "" {
      DeleteLookup(t, CONTROL_ROUTE_ID, k);
    } else {
      PutLookup(t, ControlRoute(cfg), k);
    }
  }

  // ---- pruneOrphans ----

  function DomainIDs(domains: seq<Domain>): set<string> { set d | d in domains :: RouteID(d.id) }

  function AppAutoIDs(cfg: Config, db: DB, app: App): set<string> {
    set h | h in AutoHosts(cfg, app, ServicesOf(db, app.id)) :: AutoRouteID(app.id, h.service.name)
  }

  function AutoIDs(cfg: Config, db: DB, apps: seq<App>): set<string> {
    if apps == [] then {}
    else AutoIDs(cfg, db, apps[..|apps| - 1]) + AppAutoIDs(cfg, db, apps[|apps| - 1])
  }

  // Every id a database row or a derived host stands behind. All domain rows count,
  // assigned or not.
  function BackedIDs(cfg: Config, db: DB): set<string> {
    DomainIDs(db.domains) + AutoIDs(cfg, db, db.apps)
  }

  predicate Orphan(id: string, backed: set<string>) { IsManagedRouteID(id) && id !in backed }

  // The sweep over a listing of the table.
  function Sweep(t: Table, backed: set<string>, listing: Table): Table {
    if listing == [] then t
    else
      var swept := Sweep(t, backed, listing[..|listing| - 1]);
      var id := listing[|listing| - 1].id;
      if Orphan(id, backed) then Delete(swept, id) else swept
  }

  function PruneOrphans(cfg: Config, db: DB, t: Table): Table { Sweep(t, BackedIDs(cfg, db), t) }

  lemma LastID(listing: Table, k: string)
    requires listing != []
    ensures HasID(listing, k) <==> HasID(listing[..|listing| - 1], k) || listing[|listing| - 1].id == k
  {
    var init := listing[..|listing| - 1];
    assert listing == init + [listing[|listing| - 1]];
    if HasID(init, k) {
      var r :| r in init && r.id == k;
      assert r in listing;
    }
  }

  lemma {:induction false} SweepLookup(t: Table, backed: set<string>, listing: Table, k: string)
    requires DistinctIDs(t)
    ensures DistinctIDs(Sweep(t, backed, listing))
    ensures Lookup(Sweep(t, backed, listing), k) ==
      if Orphan(k, backed) && HasID(listing, k) then None else Lookup(t, k)
  {
    if listing != [] {
      var init, id := listing[..|listing| - 1], listing[|listing| - 1].id;
      SweepLookup(t, backed, init, k);
      LastID(listing, k);
      if Orphan(id, backed) {
        DeleteLookup(Sweep(t, backed, init), id, k);
      }
    }
  }

  lemma PruneLookup(cfg: Config, db: DB, t: Table, k: string)
    requires DistinctIDs(t)
    ensures DistinctIDs(PruneOrphans(cfg, db, t))
    ensures Lookup(PruneOrphans(cfg, db, t), k) ==
      if Orphan(k, BackedIDs(cfg, db)) then None else Lookup(t, k)
  {
    SweepLookup(t, BackedIDs(cfg, db), t, k);
  }

  // ---- Sync, Reconcile, Teardown, InstallWakeRoutes ----

  function Sync(cfg: Config, db: DB, app: App, t: Table): Table {
    PruneOrphans(cfg, db, ApplyControl(cfg, ApplyApp(cfg, db, app, t)))
  }

  function ApplyApps(cfg: Config, db: DB, apps: seq<App>, t: Table): Table {
    if apps == [] then t
    else ApplyApp(cfg, db, apps[|apps| - 1], ApplyApps(cfg, db, apps[..|apps| - 1], t))
  }

  function Reconcile(cfg: Config, db: DB, t: Table): Table {
    PruneOrphans(cfg, db, ApplyControl(cfg, ApplyApps(cfg, db, db.apps, t)))
  }

  function RemoveSpecs(specs: seq<RouteSpec>, t: Table): Table {
    if specs == [] then t else Delete(RemoveSpecs(specs[..|specs| - 1], t), specs[|specs| - 1].id)
  }

  function Teardown(cfg: Config, db: DB, app: App, t: Table): Table { RemoveSpecs(SpecsOf(cfg, db, app), t) }

  function WakeSpec(cfg: Config, spec: RouteSpec, t: Table): Table {
    if spec.redirectTo != "" then t else Put(t, WakeRoute(cfg, spec.id, spec.hostname))
  }

  function WakeSpecs(cfg: Config, specs: seq<RouteSpec>, t: Table): Table {
    if specs == [] then t else WakeSpec(cfg, specs[|specs| - 1], WakeSpecs(cfg, specs[..|specs| - 1], t))
  }

  function InstallWakeRoutes(cfg: Config, db: DB, app: App, t: Table): Table {
    WakeSpecs(cfg, SpecsOf(cfg, db, app), t)
  }

  lemma {:induction false} RemoveSpecsLookup(specs: seq<RouteSpec>, t: Table, k: string)
    requires DistinctIDs(t)
    ensures DistinctIDs(RemoveSpecs(specs, t))
    ensures Lookup(RemoveSpecs(specs, t), k) == if FindSpec(specs, k).Some? then None else Lookup(t, k)
  {
    if specs != [] {
      var last, init := specs[|specs| - 1], specs[..|specs| - 1];
      RemoveSpecsLookup(init, t, k);
      DeleteLookup(RemoveSpecs(init, t), last.id, k);
    }
  }

  lemma {:induction false} WakeSpecsLookup(cfg: Config, specs: seq<RouteSpec>, t: Table, k: string)
    requires DistinctIDs(t) && DistinctSpecIDs(specs)
    ensures DistinctIDs(WakeSpecs(cfg, specs, t))
    ensures Lookup(WakeSpecs(cfg, specs, t), k) ==
      if FindSpec(specs, k).Some? && FindSpec(specs, k).value.redirectTo == ""
      then Some(WakeRoute(cfg, k, FindSpec(specs, k).value.hostname)) else Lookup(t, k)
  {
    if specs != [] {
      var last, init := specs[|specs| - 1], specs[..|specs| - 1];
      WakeSpecsLookup(cfg, init, t, k);
      if last.redirectTo == "" {
        PutLookup(WakeSpecs(cfg, init, t), WakeRoute(cfg, last.id, last.hostname), k);
      }
    }
  }

  // ---- The projection of the database ----

  datatype Owned = Owned(app: App, spec: RouteSpec)

  // The app and spec a route id belongs to.
  function Owner(cfg: Config, db: DB, apps: seq<App>, id: string): (r: Option<Owned>)
    ensures r.Some? ==> r.value.app in apps && r.value.spec in SpecsOf(cfg, db, r.value.app) && r.value.spec.id == id
  {
    if apps == [] then None
    else
      var last := apps[|apps| - 1];
      var spec := FindSpec(SpecsOf(cfg, db, last), id);
      if spec.Some? then Some(Owned(last, spec.value)) else Owner(cfg, db, apps[..|apps| - 1], id)
  }

  function SelectFor(cfg: Config, db: DB, o: Owned): Option<Route> {
    Select(cfg, o.app, ServicesOf(db, o.app.id), o.spec)
  }

  // What the table should hold for each id, given what it held before: the selected
  // route of the owning spec, the control route, nothing for an orphan, and otherwise
  // whatever was there (foreign routes and rows that own no spec).
  function Expected(cfg: Config, db: DB, t: Table, k: string): Option<Route> {
    var o := Owner(cfg, db, db.apps, k);
    if o.Some? then SelectFor(cfg, db, o.value)
    else if k == CONTROL_ROUTE_ID then DesiredControl(cfg)
    else if Orphan(k, BackedIDs(cfg, db)) then None
    else Lookup(t, k)
  }

  // The table is where the database says it should be.
  ghost predicate Converged(cfg: Config, db: DB, t: Table) {
    DistinctIDs(t) && forall k :: Lookup(t, k) == Expected(cfg, db, t, k)
  }

  lemma OwnerIs(cfg: Config, db: DB, apps: seq<App>, app: App, spec: RouteSpec)
    requires ValidDB(db) && app in apps && (forall a :: a in apps ==> a in db.apps)
    requires spec in SpecsOf(cfg, db, app)
    ensures Owner(cfg, db, apps, spec.id) == Some(Owned(app, spec))
  {
    OwnerFound(cfg, db, apps, app, spec);
    var o := Owner(cfg, db, apps, spec.id).value;
    SameIDSameApp(cfg, db, o.app, app, o.spec, spec);
    SpecsDistinct(cfg, db, app);
    FindSpecUnique(SpecsOf(cfg, db, app), spec);
    FindSpecUnique(SpecsOf(cfg, db, app), o.spec);
  }

  lemma {:induction false} OwnerFound(cfg: Config, db: DB, apps: seq<App>, app: App, spec: RouteSpec)
    requires app in apps && spec in SpecsOf(cfg, db, app)
    ensures Owner(cfg, db, apps, spec.id).Some?
  {
    var init, last := apps[..|apps| - 1], apps[|apps| - 1];
    if last != app {
      OwnerFound(cfg, db, init, app, spec);
    }
  }

  lemma {:induction false} AutoIDsMember(cfg: Config, db: DB, apps: seq<App>, app: App)
    requires app in apps
    ensures AppAutoIDs(cfg, db, app) <= AutoIDs(cfg, db, apps)
  {
    if apps[|apps| - 1] != app {
      assert app in apps[..|apps| - 1];
      AutoIDsMember(cfg, db, apps[..|apps| - 1], app);
    }
  }

  // Every desired route is backed, so the sweep never removes one.
  lemma SpecsBacked(cfg: Config, db: DB, app: App, spec: RouteSpec)
    requires app in db.apps && spec in SpecsOf(cfg, db, app)
    ensures spec.id in BackedIDs(cfg, db)
  {
    var doms := DomainSpecs(DomainsOf(db.domains, app.id));
    if spec in doms {
      var d :| d in DomainsOf(db.domains, app.id) && d.Assigned() && spec == DomainSpec(d);
      assert RouteID(d.id) in DomainIDs(db.domains);
    } else {
      var hosts := AutoHosts(cfg, app, ServicesOf(db, app.id));
      var autos := AutoSpecs(app.id, hosts);
      var i :| 0 <= i < |autos| && autos[i] == spec;
      assert hosts[i] in hosts;
      assert spec.id in AppAutoIDs(cfg, db, app);
      AutoIDsMember(cfg, db, db.apps, app);
    }
  }

  // ---- Convergence ----

  lemma {:induction false} ApplyAppsLookup(cfg: Config, db: DB, apps: seq<App>, t: Table, k: string)
    requires ValidDB(db) && DistinctIDs(t) && forall a :: a in apps ==> a in db.apps
    ensures DistinctIDs(ApplyApps(cfg, db, apps, t))
    ensures Lookup(ApplyApps(cfg, db, apps, t), k) ==
      (var o := Owner(cfg, db, apps, k); if o.Some? then SelectFor(cfg, db, o.value) else Lookup(t, k))
  {
    if apps != [] {
      var last, init := apps[|apps| - 1], apps[..|apps| - 1];
      ApplyAppsLookup(cfg, db, init, t, k);
      SpecsDistinct(cfg, db, last);
      ApplySpecsLookup(cfg, last, ServicesOf(db, last.id), SpecsOf(cfg, db, last), ApplyApps(cfg, db, init, t), k);
    }
  }

  lemma FinishLookup(cfg: Config, db: DB, t: Table, k: string)
    requires DistinctIDs(t)
    ensures DistinctIDs(PruneOrphans(cfg, db, ApplyControl(cfg, t)))
    ensures Lookup(PruneOrphans(cfg, db, ApplyControl(cfg, t)), k) ==
      if k == CONTROL_ROUTE_ID then DesiredControl(cfg)
      else if Orphan(k, BackedIDs(cfg, db)) then None else Lookup(t, k)
  {
    ApplyControlLookup(cfg, t, k);
    PruneLookup(cfg, db, ApplyControl(cfg, t), k);
    RouteIDKindsDisjoint("", "", "");
  }

  // After Reconcile every id holds exactly what the database prescribes, from any
  // starting table with distinct ids.
  lemma ReconcileConverges(cfg: Config, db: DB, t: Table, k: string)
    requires ValidDB(db) && DistinctIDs(t)
    ensures DistinctIDs(Reconcile(cfg, db, t))
    ensures Lookup(Reconcile(cfg, db, t), k) == Expected(cfg, db, t, k)
  {
    ApplyAppsLookup(cfg, db, db.apps, t, k);
    FinishLookup(cfg, db, ApplyApps(cfg, db, db.apps, t), k);
    var o := Owner(cfg, db, db.apps, k);
    if o.Some? {
      SpecsBacked(cfg, db, o.value.app, o.value.spec);
      SpecIDManaged(cfg, db, o.value.app, o.value.spec);
    }
  }

  // What is expected depends on the old table only through ids that Reconcile leaves
  // alone, so expecting again changes nothing.
  lemma ExpectedStable(cfg: Config, db: DB, t: Table, u: Table, k: string)
    requires Lookup(u, k) == Expected(cfg, db, t, k)
    ensures Expected(cfg, db, u, k) == Lookup(u, k)
  {
  }

  // The first clause spelt out: each spec of each app holds its selected route, other
  // managed ids are backed, and unmanaged ids keep their route.
  lemma ReconcileProjects(cfg: Config, db: DB, t: Table)
    requires ValidDB(db) && DistinctIDs(t)
    ensures Converged(cfg, db, Reconcile(cfg, db, t))
    ensures forall app, spec :: app in db.apps && spec in SpecsOf(cfg, db, app) ==>
      Lookup(Reconcile(cfg, db, t), spec.id) == Select(cfg, app, ServicesOf(db, app.id), spec)
    ensures forall r :: r in Reconcile(cfg, db, t) && IsManagedRouteID(r.id) ==> r.id in BackedIDs(cfg, db)
    ensures forall k :: !IsManagedRouteID(k) && k != CONTROL_ROUTE_ID ==>
      Lookup(Reconcile(cfg, db, t), k) == Lookup(t, k)
    ensures Lookup(Reconcile(cfg, db, t), CONTROL_ROUTE_ID) == DesiredControl(cfg)
  {
    var u := Reconcile(cfg, db, t);
    ReconcileConverges(cfg, db, t, CONTROL_ROUTE_ID);
    RouteIDKindsDisjoint("", "", "");
    forall k
      ensures Lookup(u, k) == Expected(cfg, db, t, k) == Expected(cfg, db, u, k)
      ensures !IsManagedRouteID(k) && k != CONTROL_ROUTE_ID ==> Lookup(u, k) == Lookup(t, k)
    {
      ReconcileConverges(cfg, db, t, k);
      ExpectedStable(cfg, db, t, u, k);
      UnmanagedHasNoOwner(cfg, db, k);
    }
    UnmanagedHasNoOwner(cfg, db, CONTROL_ROUTE_ID);
    forall app, spec | app in db.apps && spec in SpecsOf(cfg, db, app)
      ensures Lookup(u, spec.id) == Select(cfg, app, ServicesOf(db, app.id), spec)
    {
      OwnerIs(cfg, db, db.apps, app, spec);
    }
    forall r | r in u && IsManagedRouteID(r.id)
      ensures r.id in BackedIDs(cfg, db)
    {
      MemberLookup(u, r);
      var o := Owner(cfg, db, db.apps, r.id);
      if o.Some? {
        SpecsBacked(cfg, db, o.value.app, o.value.spec);
      }
    }
  }

  // Where a route of the reconciled table comes from: its owning spec, the control
  // setting, or the table from before.
  lemma ReconciledRoute(cfg: Config, db: DB, t: Table, r: Route)
    requires ValidDB(db) && DistinctIDs(t) && r in Reconcile(cfg, db, t)
    ensures var o := Owner(cfg, db, db.apps, r.id);
      if o.Some? then SelectFor(cfg, db, o.value) == Some(r)
      else if r.id == CONTROL_ROUTE_ID then DesiredControl(cfg) == Some(r)
      else r in t
  {
    ReconcileConverges(cfg, db, t, r.id);
    MemberLookup(Reconcile(cfg, db, t), r);
  }

  lemma UnmanagedHasNoOwner(cfg: Config, db: DB, k: string)
    ensures !IsManagedRouteID(k) ==> Owner(cfg, db, db.apps, k).None?
    ensures k == CONTROL_ROUTE_ID ==> Owner(cfg, db, db.apps, k).None?
  {
    var o := Owner(cfg, db, db.apps, k);
    if o.Some? {
      SpecIDManaged(cfg, db, o.value.app, o.value.spec);
    }
  }

  // A second Reconcile leaves the id-to-route map as it is.
  lemma ReconcileIdempotent(cfg: Config, db: DB, t: Table)
    requires ValidDB(db) && DistinctIDs(t)
    ensures forall k :: Lookup(Reconcile(cfg, db, Reconcile(cfg, db, t)), k) == Lookup(Reconcile(cfg, db, t), k)
  {
    var u := Reconcile(cfg, db, t);
    forall k
      ensures Lookup(Reconcile(cfg, db, u), k) == Lookup(u, k)
    {
      ReconcileConverges(cfg, db, t, k);
      ReconcileConverges(cfg, db, u, k);
      ExpectedStable(cfg, db, t, u, k);
    }
  }

  lemma AppByID(db: DB, a1: App, a2: App)
    requires ValidDB(db) && a1 in db.apps && a2 in db.apps && a1.id == a2.id
    ensures a1 == a2
  {
    var i :| 0 <= i < |db.apps| && db.apps[i] == a1;
    var j :| 0 <= j < |db.apps| && db.apps[j] == a2;
    assert i == j;
  }

  lemma DomainByID(db: DB, d1: Domain, d2: Domain)
    requires ValidDB(db) && d1 in db.domains && d2 in db.domains && d1.id == d2.id
    ensures d1 == d2
  {
    var i :| 0 <= i < |db.domains| && db.domains[i] == d1;
    var j :| 0 <= j < |db.domains| && db.domains[j] == d2;
    assert i == j;
  }

  // The sweep spares every domain row, so the route of a row that owns no spec (an
  // unassigned domain) stays exactly if it was there before.
  lemma UnassignedRouteLingers(cfg: Config, db: DB, t: Table, d: Domain)
    requires ValidDB(db) && DistinctIDs(t) && d in db.domains && !d.Assigned()
    ensures Lookup(Reconcile(cfg, db, t), RouteID(d.id)) == Lookup(t, RouteID(d.id))
  {
    ReconcileConverges(cfg, db, t, RouteID(d.id));
    RouteIDKindsDisjoint(d.id, "", "");
    assert RouteID(d.id) in DomainIDs(db.domains);
    UnassignedHasNoOwner(cfg, db, d);
  }

  lemma UnassignedHasNoOwner(cfg: Config, db: DB, d: Domain)
    requires ValidDB(db) && d in db.domains && !d.Assigned()
    ensures Owner(cfg, db, db.apps, RouteID(d.id)).None?
  {
    var o := Owner(cfg, db, db.apps, RouteID(d.id));
    if o.Some? {
      var dom, svc := SpecOrigin(cfg, db, o.value.app, o.value.spec);
      if dom.Some? {
        RouteIDInjective(dom.value.id, d.id);
        DomainByID(db, dom.value, d);
      } else {
        RouteIDKindsDisjoint(d.id, o.value.app.id, svc.value.name);
      }
    }
  }

  // ---- Framing of Sync ----

  lemma SyncLookup(cfg: Config, db: DB, app: App, t: Table, k: string)
    requires ValidDB(db) && DistinctIDs(t) && app in db.apps
    ensures DistinctIDs(Sync(cfg, db, app, t))
    ensures Lookup(Sync(cfg, db, app, t), k) ==
      (var spec := FindSpec(SpecsOf(cfg, db, app), k);
       if spec.Some? then Select(cfg, app, ServicesOf(db, app.id), spec.value)
       else if k == CONTROL_ROUTE_ID then DesiredControl(cfg)
       else if Orphan(k, BackedIDs(cfg, db)) then None else Lookup(t, k))
  {
    SpecsDistinct(cfg, db, app);
    ApplySpecsLookup(cfg, app, ServicesOf(db, app.id), SpecsOf(cfg, db, app), t, k);
    FinishLookup(cfg, db, ApplyApp(cfg, db, app, t), k);
    var spec := FindSpec(SpecsOf(cfg, db, app), k);
    if spec.Some? {
      SpecsBacked(cfg, db, app, spec.value);
      SpecIDManaged(cfg, db, app, spec.value);
    }
  }

  // Syncing one app never alters a route of another app, nor a foreign route.
  lemma SyncFrames(cfg: Config, db: DB, app: App, t: Table, k: string)
    requires ValidDB(db) && DistinctIDs(t) && app in db.apps
    requires (exists other :: other in db.apps && other != app && OwnsID(cfg, db, other, k))
      || (!IsManagedRouteID(k) && k != CONTROL_ROUTE_ID)
    ensures Lookup(Sync(cfg, db, app, t), k) == Lookup(t, k)
  {
    SyncLookup(cfg, db, app, t, k);
    var mine := FindSpec(SpecsOf(cfg, db, app), k);
    if other :| other in db.apps && other != app && OwnsID(cfg, db, other, k) {
      var spec :| spec in SpecsOf(cfg, db, other) && spec.id == k;
      SpecsBacked(cfg, db, other, spec);
      SpecIDManaged(cfg, db, other, spec);
      if mine.Some? {
        OwnersUnique(cfg, db, app, other, k);
      }
    } else {
      if mine.Some? {
        SpecIDManaged(cfg, db, app, mine.value);
      }
    }
  }

  // ---- Any order of Syncs is a Reconcile ----

  function SyncAll(cfg: Config, db: DB, apps: seq<App>, t: Table): Table {
    if apps == [] then t else Sync(cfg, db, apps[|apps| - 1], SyncAll(cfg, db, apps[..|apps| - 1], t))
  }

  lemma {:induction false} SyncAllLookup(cfg: Config, db: DB, apps: seq<App>, t: Table, k: string)
    requires ValidDB(db) && DistinctIDs(t) && apps != [] && forall a :: a in apps ==> a in db.apps
    ensures DistinctIDs(SyncAll(cfg, db, apps, t))
    ensures Lookup(SyncAll(cfg, db, apps, t), k) ==
      (var o := Owner(cfg, db, apps, k);
       if o.Some? then SelectFor(cfg, db, o.value)
       else if k == CONTROL_ROUTE_ID then DesiredControl(cfg)
       else if Orphan(k, BackedIDs(cfg, db)) then None else Lookup(t, k))
  {
    var last, init := apps[|apps| - 1], apps[..|apps| - 1];
    if init == [] {
      SyncLookup(cfg, db, last, t, k);
      assert SyncAll(cfg, db, init, t) == t;
    } else {
      SyncAllLookup(cfg, db, init, t, k);
      SyncLookup(cfg, db, last, SyncAll(cfg, db, init, t), k);
    }
    var o := Owner(cfg, db, init, k);
    if o.Some? {
      SpecsBacked(cfg, db, o.value.app, o.value.spec);
      SpecIDManaged(cfg, db, o.value.app, o.value.spec);
    }
  }

  // Syncing every app at least once, in any order and with any repetitions, gives the
  // same map as one Reconcile.
  lemma SyncsMakeAReconcile(cfg: Config, db: DB, apps: seq<App>, t: Table, k: string)
    requires ValidDB(db) && DistinctIDs(t) && apps != []
    requires forall a :: a in apps <==> a in db.apps
    ensures Lookup(SyncAll(cfg, db, apps, t), k) == Lookup(Reconcile(cfg, db, t), k)
  {
    SyncAllLookup(cfg, db, apps, t, k);
    ReconcileConverges(cfg, db, t, k);
    SameOwner(cfg, db, apps, k);
  }

  lemma SameOwner(cfg: Config, db: DB, apps: seq<App>, k: string)
    requires ValidDB(db) && forall a :: a in apps <==> a in db.apps
    ensures Owner(cfg, db, apps, k) == Owner(cfg, db, db.apps, k)
  {
    var o := Owner(cfg, db, db.apps, k);
    if o.Some? {
      OwnerIs(cfg, db, apps, o.value.app, o.value.spec);
    }
    var p := Owner(cfg, db, apps, k);
    if p.Some? {
      OwnerIs(cfg, db, db.apps, p.value.app, p.value.spec);
    }
  }

  // ---- Scale-to-zero: the swap and the way back ----

  function MarkSuspended(apps: seq<App>, id: string, suspended: bool): (r: seq<App>)
    ensures |r| == |apps|
    ensures forall i :: 0 <= i < |apps| ==> r[i] == if apps[i].id == id then apps[i].(suspended := suspended) else apps[i]
  {
    seq(|apps|, i requires 0 <= i < |apps| => if apps[i].id == id then apps[i].(suspended := suspended) else apps[i])
  }

  // SetAppSuspended.
  function SetSuspended(db: DB, id: string, suspended: bool): DB {
    db.(apps := MarkSuspended(db.apps, id, suspended))
  }

  // Suspending an app does not change which routes anyone desires.
  lemma SpecsIgnoreSuspension(cfg: Config, db: DB, id: string, b: bool, app: App)
    ensures SpecsOf(cfg, SetSuspended(db, id, b), app) == SpecsOf(cfg, db, app)
    ensures SpecsOf(cfg, SetSuspended(db, id, b), app.(suspended := b)) == SpecsOf(cfg, db, app)
    ensures ServicesOf(SetSuspended(db, id, b), app.id) == ServicesOf(db, app.id)
  {
  }

  lemma SetSuspendedValid(db: DB, id: string, b: bool)
    requires ValidDB(db)
    ensures ValidDB(SetSuspended(db, id, b))
  {
  }

  lemma {:induction false} BackedIgnoresSuspension(cfg: Config, db: DB, apps: seq<App>, id: string, b: bool)
    ensures AutoIDs(cfg, SetSuspended(db, id, b), MarkSuspended(apps, id, b)) == AutoIDs(cfg, db, apps)
  {
    if apps != [] {
      var init := apps[..|apps| - 1];
      BackedIgnoresSuspension(cfg, db, init, id, b);
      assert MarkSuspended(apps, id, b)[..|apps| - 1] == MarkSuspended(init, id, b);
    }
  }

  function Flagged(o: Option<Owned>, id: string, b: bool): Option<Owned> {
    if o.Some? && o.value.app.id == id then Some(Owned(o.value.app.(suspended := b), o.value.spec)) else o
  }

  lemma {:induction false} OwnerIgnoresSuspension(cfg: Config, db: DB, apps: seq<App>, id: string, b: bool, k: string)
    ensures Owner(cfg, SetSuspended(db, id, b), MarkSuspended(apps, id, b), k) == Flagged(Owner(cfg, db, apps, k), id, b)
  {
    if apps != [] {
      var last, init := apps[|apps| - 1], apps[..|apps| - 1];
      OwnerIgnoresSuspension(cfg, db, init, id, b, k);
      LastMarked(cfg, db, apps, id, b);
    }
  }

  lemma LastMarked(cfg: Config, db: DB, apps: seq<App>, id: string, b: bool)
    requires apps != []
    ensures var marked, last := MarkSuspended(apps, id, b), apps[|apps| - 1];
      && marked[..|apps| - 1] == MarkSuspended(apps[..|apps| - 1], id, b)
      && marked[|apps| - 1] == (if last.id == id then last.(suspended := b) else last)
      && SpecsOf(cfg, SetSuspended(db, id, b), marked[|apps| - 1]) == SpecsOf(cfg, db, last)
  {
    SpecsIgnoreSuspension(cfg, db, id, b, apps[|apps| - 1]);
  }

  predicate OnlyRedirects(specs: seq<RouteSpec>) { forall s :: s in specs ==> s.redirectTo != "" }

  // From a converged table the focused swap of InstallWakeRoutes gives what a full
  // Reconcile with the suspended flag would give, exactly when the app is not in
  // maintenance (or has nothing but redirects, which the swap leaves alone).
  lemma WakeSwapIsReconcile(cfg: Config, db: DB, app: App, t: Table)
    requires ValidDB(db) && app in db.apps && Converged(cfg, db, t)
    ensures var sdb := SetSuspended(db, app.id, true);
      (forall k :: Lookup(InstallWakeRoutes(cfg, sdb, app.(suspended := true), t), k) == Lookup(Reconcile(cfg, sdb, t), k))
      <==> !app.maintenanceActive || OnlyRedirects(SpecsOf(cfg, db, app))
  {
    var sdb, sapp := SetSuspended(db, app.id, true), app.(suspended := true);
    var specs := SpecsOf(cfg, db, app);
    SpecsIgnoreSuspension(cfg, db, app.id, true, app);
    assert SpecsOf(cfg, sdb, sapp) == specs;
    SpecsDistinct(cfg, db, app);
    if !app.maintenanceActive || OnlyRedirects(specs) {
      forall k
        ensures Lookup(InstallWakeRoutes(cfg, sdb, sapp, t), k) == Lookup(Reconcile(cfg, sdb, t), k)
      {
        WakeSwapAt(cfg, db, app, t, k);
      }
    } else {
      var spec :| spec in specs && spec.redirectTo == "";
      WakeSwapAt(cfg, db, app, t, spec.id);
      FindSpecUnique(specs, spec);
      assert WakeRoute(cfg, spec.id, spec.hostname).handle[0].RequestHeaders?;
      assert MaintenanceRoute(spec.id, spec.hostname, app.maintenancePage).handle[0].StaticResponse?;
    }
  }

  // Both sides of the swap at one id.
  lemma WakeSwapAt(cfg: Config, db: DB, app: App, t: Table, k: string)
    requires ValidDB(db) && app in db.apps && Converged(cfg, db, t)
    ensures var sdb := SetSuspended(db, app.id, true);
      var spec := FindSpec(SpecsOf(cfg, db, app), k);
      && Lookup(Reconcile(cfg, sdb, t), k) ==
           (if spec.Some? then Select(cfg, app.(suspended := true), ServicesOf(db, app.id), spec.value) else Lookup(t, k))
      && Lookup(InstallWakeRoutes(cfg, sdb, app.(suspended := true), t), k) ==
           (if spec.Some? && spec.value.redirectTo == "" then Some(WakeRoute(cfg, k, spec.value.hostname)) else Lookup(t, k))
      && (spec.Some? ==> Lookup(t, k) == Select(cfg, app, ServicesOf(db, app.id), spec.value))
      && DistinctIDs(InstallWakeRoutes(cfg, sdb, app.(suspended := true), t))
  {
    SwappedAt(cfg, db, app, t, k);
    SleepingAt(cfg, db, app, t, k);
  }

  lemma SwappedAt(cfg: Config, db: DB, app: App, t: Table, k: string)
    requires ValidDB(db) && app in db.apps && Converged(cfg, db, t)
    ensures var sdb := SetSuspended(db, app.id, true);
      var spec := FindSpec(SpecsOf(cfg, db, app), k);
      && Lookup(InstallWakeRoutes(cfg, sdb, app.(suspended := true), t), k) ==
           (if spec.Some? && spec.value.redirectTo == "" then Some(WakeRoute(cfg, k, spec.value.hostname)) else Lookup(t, k))
      && DistinctIDs(InstallWakeRoutes(cfg, sdb, app.(suspended := true), t))
  {
    SpecsIgnoreSuspension(cfg, db, app.id, true, app);
    SpecsDistinct(cfg, db, app);
    WakeSpecsLookup(cfg, SpecsOf(cfg, db, app), t, k);
  }

  lemma SleepingAt(cfg: Config, db: DB, app: App, t: Table, k: string)
    requires ValidDB(db) && app in db.apps && Converged(cfg, db, t)
    ensures var spec := FindSpec(SpecsOf(cfg, db, app), k);
      && Lookup(Reconcile(cfg, SetSuspended(db, app.id, true), t), k) ==
           (if spec.Some? then Select(cfg, app.(suspended := true), ServicesOf(db, app.id), spec.value) else Lookup(t, k))
      && (spec.Some? ==> Lookup(t, k) == Select(cfg, app, ServicesOf(db, app.id), spec.value))
  {
    SetSuspendedValid(db, app.id, true);
    ReconcileConverges(cfg, SetSuspended(db, app.id, true), t, k);
    OwnerOfApp(cfg, db, app, k);
    ExpectedAsleep(cfg, db, app, t, k);
    assert Lookup(t, k) == Expected(cfg, db, t, k);
  }

  // The app owns exactly the ids of its specs.
  lemma OwnerOfApp(cfg: Config, db: DB, app: App, k: string)
    requires ValidDB(db) && app in db.apps
    ensures var spec, o := FindSpec(SpecsOf(cfg, db, app), k), Owner(cfg, db, db.apps, k);
      if spec.Some? then o == Some(Owned(app, spec.value)) else o.Some? ==> o.value.app.id != app.id
  {
    var spec, o := FindSpec(SpecsOf(cfg, db, app), k), Owner(cfg, db, db.apps, k);
    if spec.Some? {
      OwnerIs(cfg, db, db.apps, app, spec.value);
    } else if o.Some? && o.value.app.id == app.id {
      AppByID(db, o.value.app, app);
    }
  }

  lemma ExpectedAsleep(cfg: Config, db: DB, app: App, t: Table, k: string)
    ensures var o := Flagged(Owner(cfg, db, db.apps, k), app.id, true);
      Expected(cfg, SetSuspended(db, app.id, true), t, k) ==
      if o.Some? then SelectFor(cfg, db, o.value) else Expected(cfg, db, t, k)
  {
    OwnerIgnoresSuspension(cfg, db, db.apps, app.id, true, k);
    BackedIgnoresSuspension(cfg, db, db.apps, app.id, true);
  }

  // A converged table holds the control route it should and no orphan.
  lemma ConvergedElsewhere(cfg: Config, db: DB, t: Table, k: string)
    requires Converged(cfg, db, t)
    ensures k == CONTROL_ROUTE_ID ==> Lookup(t, k) == DesiredControl(cfg)
    ensures Orphan(k, BackedIDs(cfg, db)) ==> Lookup(t, k) == None
  {
    UnmanagedHasNoOwner(cfg, db, k);
    RouteIDKindsDisjoint("", "", "");
    var o := Owner(cfg, db, db.apps, k);
    if o.Some? {
      SpecsBacked(cfg, db, o.value.app, o.value.spec);
    }
  }

  // Clearing the flag and syncing brings back the map from before the suspension, and
  // redirects never changed in between.
  lemma WakeRestores(cfg: Config, db: DB, app: App, t: Table, k: string)
    requires ValidDB(db) && app in db.apps && Converged(cfg, db, t)
    ensures var asleep := InstallWakeRoutes(cfg, SetSuspended(db, app.id, true), app.(suspended := true), t);
      && DistinctIDs(asleep)
      && Lookup(Sync(cfg, db, app, asleep), k) == Lookup(t, k)
      && (var spec := FindSpec(SpecsOf(cfg, db, app), k);
          spec.None? || spec.value.redirectTo != "" ==> Lookup(asleep, k) == Lookup(t, k))
  {
    var asleep := InstallWakeRoutes(cfg, SetSuspended(db, app.id, true), app.(suspended := true), t);
    WakeSwapAt(cfg, db, app, t, k);
    SyncLookup(cfg, db, app, asleep, k);
    ConvergedElsewhere(cfg, db, t, k);
  }

  // Clearing the flag gives back the very rows from before.
  lemma SuspensionUndone(db: DB, app: App)
    requires ValidDB(db) && app in db.apps && !app.suspended
    ensures SetSuspended(SetSuspended(db, app.id, true), app.id, false) == db
  {
    forall i | 0 <= i < |db.apps|
      ensures MarkSuspended(MarkSuspended(db.apps, app.id, true), app.id, false)[i] == db.apps[i]
    {
      if db.apps[i].id == app.id {
        AppByID(db, db.apps[i], app);
      }
    }
    assert MarkSuspended(MarkSuspended(db.apps, app.id, true), app.id, false) == db.apps;
  }
}
