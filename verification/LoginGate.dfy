// What a request meets on its way through the installed routes, and the promises of
// the login gate: fail closed, known to the portal, and wake routes that find their
// app (proxy/manager.go).
module LoginGate {
  import opened Text
  import opened Names
  import opened ProxyModel
  import opened RouteTable
  import opened Reconciler

  // ---- Serving ----

  // loggedIn: the verify endpoint answers 2xx; withinLimit: the rate limiter lets the
  // request through.
  datatype Request = Request(host: string, loggedIn: bool, withinLimit: bool)

  datatype Answer =
    | FromUpstream(dial: string)
    | Static(status: int, headers: map<string, string>, body: string)
    | LoginBounce
    | TooManyRequests
    | Unhandled

  // Caddy's middleware chain.
  function Serve(handle: seq<Handler>, req: Request): Answer {
    if handle == [] then Unhandled
    else
      match handle[0]
      case RateLimit(_, _) => if req.withinLimit then Serve(handle[1..], req) else TooManyRequests
      case RequestHeaders(_) => Serve(handle[1..], req)
      case Rewrite(_) => Serve(handle[1..], req)
      case ReverseProxy(dial, _, auth) =>
        if auth.None? then FromUpstream(dial)
        else if req.loggedIn then Serve(handle[1..], req) else LoginBounce
      case StaticResponse(status, headers, body) => Static(status, headers, body)
  }

  // The first route of the table that matches the host and answers.
  function ServeTable(t: Table, req: Request): Answer {
    if t == [] then Unhandled
    else if t[0].host == req.host && Serve(t[0].handle, req) != Unhandled then Serve(t[0].handle, req)
    else ServeTable(t[1..], req)
  }

  lemma {:induction false} ServedBySomeRoute(t: Table, req: Request) returns (r: Route)
    requires ServeTable(t, req) != Unhandled
    ensures r in t && r.host == req.host && Serve(r.handle, req) == ServeTable(t, req)
  {
    if t[0].host == req.host && Serve(t[0].handle, req) != Unhandled {
      r := t[0];
    } else {
      r := ServedBySomeRoute(t[1..], req);
    }
  }

  lemma GateServes(cfg: Config, upstream: Handler, req: Request)
    requires upstream.ReverseProxy? && upstream.auth.None?
    ensures Serve([upstream], req) == FromUpstream(upstream.dial)
    ensures Serve(GuardHandlers(cfg) + [upstream], req) == if req.loggedIn then FromUpstream(upstream.dial) else LoginBounce
  {
    var chain := GuardHandlers(cfg) + [upstream];
    assert chain[1..][1..] == [upstream];
    assert chain[1..][0] == GuardHandlers(cfg)[1];
    assert Serve(chain, req) == Serve(chain[1..], req);
    assert Serve(chain[1..], req) == if req.loggedIn then Serve(chain[1..][1..], req) else LoginBounce;
  }

  // A proxied route first limits, then asks for a login, then reaches the service.
  lemma ServiceRouteServes(cfg: Config, id: string, host: string, svc: Service, slug: string, rpm: Option<int>, req: Request)
    ensures Serve(ServiceRoute(cfg, id, host, svc, slug, rpm).handle, req) ==
      if rpm.Some? && rpm.value > 0 && !req.withinLimit then TooManyRequests
      else if svc.requiresAuth && cfg.guardEnabled && !req.loggedIn then LoginBounce
      else FromUpstream(ServiceDial(slug, svc))
  {
    var h := ServiceRoute(cfg, id, host, svc, slug, rpm).handle;
    var upstream := h[|h| - 1];
    var tail := if svc.requiresAuth && cfg.guardEnabled then GuardHandlers(cfg) + [upstream] else [upstream];
    GateServes(cfg, upstream, req);
    if rpm.Some? && rpm.value > 0 {
      assert h == [RateLimit(id, rpm.value)] + tail;
      assert h[1..] == tail;
    } else {
      assert h == tail;
    }
  }

  // A wake route hands every request to vac-api's wake interceptor.
  lemma WakeRouteServes(cfg: Config, id: string, host: string, req: Request)
    ensures Serve(WakeRoute(cfg, id, host).handle, req) == FromUpstream(ControlDial(cfg))
    ensures WakeRoute(cfg, id, host).handle[1] == Rewrite(WAKE_PATH)
  {
    var h := WakeRoute(cfg, id, host).handle;
    assert h[1..][1..] == [h[2]];
    assert Serve(h, req) == Serve(h[1..], req) == Serve(h[1..][1..], req);
  }

  // vac-api's own address is no service's address.
  lemma ControlDialApart(cfg: Config, slug: string, svc: Service)
    ensures ControlDial(cfg) != ServiceDial(slug, svc)
  {
    var port := if cfg.controlPort <= 0 then 9393 else cfg.controlPort;
    var target := if svc.internalPort.Some? then svc.internalPort.value else 0;
    if ControlDial(cfg) == ServiceDial(slug, svc) {
      assert ControlDial(cfg) == "vac-api" + [':'] + Itoa(port);
      LastSeparator("vac-api", Itoa(port), Alias(slug, svc.name), Itoa(target), ':');
      AliasIsNotControl(slug, svc.name);
    }
  }

  lemma AliasIsNotControl(slug: string, service: string)
    ensures Alias(slug, service) != "vac-api"
  {
    var a, c := Alias(slug, service), "vac-api";
    assert a[|slug|] == '-' && a[|slug| + 1] == '-';
    assert forall k :: 0 <= k < |c| - 1 && c[k] == '-' ==> c[k + 1] == 'a';
  }

  // Every kind of selected route, as a request sees it.
  lemma SelectedServes(cfg: Config, app: App, services: seq<Service>, spec: RouteSpec, req: Request)
    requires Select(cfg, app, services, spec).Some?
    ensures var answer := Serve(Select(cfg, app, services, spec).value.handle, req);
      if app.maintenanceActive then answer.Static? && answer.status == 503 && answer.body == app.maintenancePage
      else if spec.redirectTo != "" then answer.Static? && answer.status == 308
      else if app.suspended then answer == FromUpstream(ControlDial(cfg))
      else
        var svc := FindService(services, spec.service);
        && svc.Some?
        && answer == (if app.rateLimitRPM.Some? && app.rateLimitRPM.value > 0 && !req.withinLimit then TooManyRequests
                      else if svc.value.requiresAuth && !req.loggedIn then LoginBounce
                      else FromUpstream(ServiceDial(app.slug, svc.value)))
        && (svc.value.requiresAuth ==> cfg.guardEnabled)
  {
    if !app.maintenanceActive && spec.redirectTo == "" {
      if app.suspended {
        WakeRouteServes(cfg, spec.id, spec.hostname, req);
      } else {
        var svc := FindService(services, spec.service).value;
        ServiceRouteServes(cfg, spec.id, spec.hostname, svc, app.slug, app.rateLimitRPM, req);
      }
    }
  }

  // ---- Fail closed ----

  // The address of one service is reached through routes of that service only.
  lemma AddressNamesService(cfg: Config, db: DB, app1: App, svc1: Service, app2: App, svc2: Service)
    requires ValidDB(db) && app1 in db.apps && app2 in db.apps
    requires svc1 in ServicesOf(db, app1.id) && svc2 in ServicesOf(db, app2.id)
    requires ServiceDial(app1.slug, svc1) == ServiceDial(app2.slug, svc2)
    ensures app1 == app2 && svc1 == svc2
  {
    DialInjective(app1.slug, svc1.name, if svc1.internalPort.Some? then svc1.internalPort.value else 0,
                  app2.slug, svc2.name, if svc2.internalPort.Some? then svc2.internalPort.value else 0);
    var i :| 0 <= i < |db.apps| && db.apps[i] == app1;
    var j :| 0 <= j < |db.apps| && db.apps[j] == app2;
    assert i == j;
    FindServiceUnique(ServicesOf(db, app1.id), svc1);
    FindServiceUnique(ServicesOf(db, app2.id), svc2);
  }

  // No route selected for any app lets a request through to a requires_auth service
  // without a login, and with the guard disabled none reaches it at all.
  lemma SelectFailsClosed(cfg: Config, db: DB, app: App, spec: RouteSpec, owner: App, svc: Service, req: Request)
    requires ValidDB(db) && app in db.apps && spec in SpecsOf(cfg, db, app)
    requires owner in db.apps && svc in ServicesOf(db, owner.id) && svc.requiresAuth
    requires Select(cfg, app, ServicesOf(db, app.id), spec).Some?
    requires Serve(Select(cfg, app, ServicesOf(db, app.id), spec).value.handle, req) == FromUpstream(ServiceDial(owner.slug, svc))
    ensures req.loggedIn && cfg.guardEnabled && app == owner
  {
    var services := ServicesOf(db, app.id);
    SelectedServes(cfg, app, services, spec, req);
    ControlDialApart(cfg, owner.slug, svc);
    if !app.maintenanceActive && spec.redirectTo == "" && !app.suspended {
      AddressNamesService(cfg, db, app, FindService(services, spec.service).value, owner, svc);
    }
  }

  // After a Sync of an app, none of its specs serves a requires_auth service of any
  // app to a request that is not logged in.
  lemma SyncFailsClosed(cfg: Config, db: DB, t: Table, app: App, spec: RouteSpec, owner: App, svc: Service, req: Request)
    requires ValidDB(db) && DistinctIDs(t) && app in db.apps && spec in SpecsOf(cfg, db, app)
    requires owner in db.apps && svc in ServicesOf(db, owner.id) && svc.requiresAuth
    requires var r := Lookup(Sync(cfg, db, app, t), spec.id);
      r.Some? && Serve(r.value.handle, req) == FromUpstream(ServiceDial(owner.slug, svc))
    ensures req.loggedIn && cfg.guardEnabled
  {
    SyncLookup(cfg, db, app, t, spec.id);
    SpecsDistinct(cfg, db, app);
    FindSpecUnique(SpecsOf(cfg, db, app), spec);
    SelectFailsClosed(cfg, db, app, spec, owner, svc, req);
  }

  lemma ControlServesItself(cfg: Config, slug: string, svc: Service, req: Request)
    ensures Serve(ControlRoute(cfg).handle, req) != FromUpstream(ServiceDial(slug, svc))
  {
    ControlDialApart(cfg, slug, svc);
  }

  lemma OwnedRouteFailsClosed(cfg: Config, db: DB, r: Route, app: App, spec: RouteSpec, owner: App, svc: Service, req: Request)
    requires ValidDB(db) && app in db.apps && spec in SpecsOf(cfg, db, app)
    requires owner in db.apps && svc in ServicesOf(db, owner.id) && svc.requiresAuth
    requires Select(cfg, app, ServicesOf(db, app.id), spec) == Some(r)
    ensures Serve(r.handle, req) == FromUpstream(ServiceDial(owner.slug, svc)) ==> req.loggedIn && cfg.guardEnabled
  {
    if Serve(r.handle, req) == FromUpstream(ServiceDial(owner.slug, svc)) {
      SelectFailsClosed(cfg, db, app, spec, owner, svc, req);
    }
  }

  lemma ReconciledRouteFailsClosed(cfg: Config, db: DB, t: Table, r: Route, owner: App, svc: Service, req: Request)
    requires ValidDB(db) && DistinctIDs(t) && r in Reconcile(cfg, db, t)
    requires owner in db.apps && svc in ServicesOf(db, owner.id) && svc.requiresAuth
    requires !req.loggedIn || !cfg.guardEnabled
    requires Serve(r.handle, req) == FromUpstream(ServiceDial(owner.slug, svc))
    ensures r in t && Owner(cfg, db, db.apps, r.id).None?
  {
    ReconciledRoute(cfg, db, t, r);
    var o := Owner(cfg, db, db.apps, r.id);
    if o.Some? {
      OwnedRouteFailsClosed(cfg, db, r, o.value.app, o.value.spec, owner, svc, req);
    } else if r.id == CONTROL_ROUTE_ID {
      ControlServesItself(cfg, owner.slug, svc, req);
    }
  }

  // In the whole table after a Reconcile, a request without a login reaches a
  // requires_auth service only through a route that Reconcile carried over because no
  // spec owns its id: a foreign route or the leftover of an unassigned domain.
  lemma ReconcileFailsClosed(cfg: Config, db: DB, t: Table, owner: App, svc: Service, req: Request) returns (r: Route)
    requires ValidDB(db) && DistinctIDs(t)
    requires owner in db.apps && svc in ServicesOf(db, owner.id) && svc.requiresAuth
    requires !req.loggedIn || !cfg.guardEnabled
    requires ServeTable(Reconcile(cfg, db, t), req) == FromUpstream(ServiceDial(owner.slug, svc))
    ensures r in t && r.host == req.host && Owner(cfg, db, db.apps, r.id).None?
    ensures Serve(r.handle, req) == FromUpstream(ServiceDial(owner.slug, svc))
  {
    r := ServedBySomeRoute(Reconcile(cfg, db, t), req);
    ReconciledRouteFailsClosed(cfg, db, t, r, owner, svc, req);
  }

  // The handler-level form: in a selected route the forward-auth check stands before
  // the reverse_proxy to a requires_auth service.
  predicate AuthPrecedes(handle: seq<Handler>, i: nat) {
    exists j :: 0 <= j < i < |handle| && handle[j].ReverseProxy? && handle[j].auth.Some?
  }

  lemma ForwardAuthPrecedes(cfg: Config, id: string, host: string, svc: Service, slug: string, rpm: Option<int>, i: nat)
    requires svc.requiresAuth && Routable(cfg, Some(svc))
    requires i < |ServiceRoute(cfg, id, host, svc, slug, rpm).handle|
    requires ServiceRoute(cfg, id, host, svc, slug, rpm).handle[i].ReverseProxy?
    requires ServiceRoute(cfg, id, host, svc, slug, rpm).handle[i].auth.None?
    ensures AuthPrecedes(ServiceRoute(cfg, id, host, svc, slug, rpm).handle, i)
  {
    var h := ServiceRoute(cfg, id, host, svc, slug, rpm).handle;
    assert h[|h| - 2] == GuardHandlers(cfg)[1];
    assert i == |h| - 1;
  }

  // ---- The portal's list of guarded hosts ----

  datatype GuardTarget = GuardTarget(appID: string, service: string)
  datatype GuardEntry = GuardEntry(host: string, target: GuardTarget)

  function AutoEntry(app: App, h: AutoHost): GuardEntry {
    GuardEntry(ToLower(h.hostname), GuardTarget(app.id, h.service.name))
  }

  function AutoEntries(app: App, hosts: seq<AutoHost>): seq<GuardEntry> {
    if hosts == [] then []
    else
      var last := hosts[|hosts| - 1];
      var earlier := AutoEntries(app, hosts[..|hosts| - 1]);
      if last.service.requiresAuth then earlier + [AutoEntry(app, last)] else earlier
  }

  lemma {:induction false} AutoEntriesHold(app: App, hosts: seq<AutoHost>, h: AutoHost)
    requires h in hosts && h.service.requiresAuth
    ensures AutoEntry(app, h) in AutoEntries(app, hosts)
  {
    if hosts[|hosts| - 1] != h {
      AutoEntriesHold(app, hosts[..|hosts| - 1], h);
    }
  }

  predicate GuardsDomain(services: seq<Service>, d: Domain) {
    d.Assigned() && FindService(services, d.serviceName).Some? && FindService(services, d.serviceName).value.requiresAuth
  }

  function DomainEntry(app: App, d: Domain): GuardEntry { GuardEntry(ToLower(d.hostname), GuardTarget(app.id, d.serviceName)) }

  function DomainEntries(app: App, services: seq<Service>, domains: seq<Domain>): seq<GuardEntry> {
    if domains == [] then []
    else
      var last := domains[|domains| - 1];
      var earlier := DomainEntries(app, services, domains[..|domains| - 1]);
      if GuardsDomain(services, last) then earlier + [DomainEntry(app, last)] else earlier
  }

  lemma {:induction false} DomainEntriesHold(app: App, services: seq<Service>, domains: seq<Domain>, d: Domain)
    requires d in domains && GuardsDomain(services, d)
    ensures DomainEntry(app, d) in DomainEntries(app, services, domains)
  {
    if domains[|domains| - 1] != d {
      DomainEntriesHold(app, services, domains[..|domains| - 1], d);
    }
  }

  // The guarded hosts of one app, auto hosts first.
  function AppEntries(cfg: Config, db: DB, app: App): seq<GuardEntry> {
    AutoEntries(app, AutoHosts(cfg, app, ServicesOf(db, app.id)))
    + DomainEntries(app, ServicesOf(db, app.id), DomainsOf(db.domains, app.id))
  }

  function AllEntries(cfg: Config, db: DB, apps: seq<App>): seq<GuardEntry> {
    if apps == [] then [] else AllEntries(cfg, db, apps[..|apps| - 1]) + AppEntries(cfg, db, apps[|apps| - 1])
  }

  lemma {:induction false} AllEntriesHold(cfg: Config, db: DB, apps: seq<App>, app: App, e: GuardEntry)
    requires app in apps && e in AppEntries(cfg, db, app)
    ensures e in AllEntries(cfg, db, apps)
  {
    if apps[|apps| - 1] != app {
      AllEntriesHold(cfg, db, apps[..|apps| - 1], app, e);
    }
  }

  // An auto host or an assigned domain of the app whose service requires a login.
  ghost predicate Guarded(cfg: Config, db: DB, app: App, e: GuardEntry) {
    || (exists h :: h in AutoHosts(cfg, app, ServicesOf(db, app.id)) && h.service.requiresAuth && e == AutoEntry(app, h))
    || (exists d :: d in DomainsOf(db.domains, app.id) && GuardsDomain(ServicesOf(db, app.id), d) && e == DomainEntry(app, d))
  }

  // Every entry on the list stands for such a host.
  lemma {:induction false} AllEntriesOnly(cfg: Config, db: DB, apps: seq<App>, e: GuardEntry) returns (app: App)
    requires e in AllEntries(cfg, db, apps)
    ensures app in apps && e in AppEntries(cfg, db, app) && e.target.appID == app.id && Guarded(cfg, db, app, e)
  {
    var last := apps[|apps| - 1];
    if e in AppEntries(cfg, db, last) {
      app := last;
      AppEntriesOnly(cfg, db, app, e);
    } else {
      app := AllEntriesOnly(cfg, db, apps[..|apps| - 1], e);
    }
  }

  lemma AppEntriesOnly(cfg: Config, db: DB, app: App, e: GuardEntry)
    requires e in AppEntries(cfg, db, app)
    ensures e.target.appID == app.id && Guarded(cfg, db, app, e)
  {
    if e in AutoEntries(app, AutoHosts(cfg, app, ServicesOf(db, app.id))) {
      var h := AutoEntriesOnly(app, AutoHosts(cfg, app, ServicesOf(db, app.id)), e);
    } else {
      var d := DomainEntriesOnly(app, ServicesOf(db, app.id), DomainsOf(db.domains, app.id), e);
    }
  }

  lemma {:induction false} AutoEntriesOnly(app: App, hosts: seq<AutoHost>, e: GuardEntry) returns (h: AutoHost)
    requires e in AutoEntries(app, hosts)
    ensures h in hosts && h.service.requiresAuth && e == AutoEntry(app, h)
  {
    var last := hosts[|hosts| - 1];
    if last.service.requiresAuth && e == AutoEntry(app, last) {
      h := last;
    } else {
      h := AutoEntriesOnly(app, hosts[..|hosts| - 1], e);
    }
  }

  lemma {:induction false} DomainEntriesOnly(app: App, services: seq<Service>, domains: seq<Domain>, e: GuardEntry) returns (d: Domain)
    requires e in DomainEntries(app, services, domains)
    ensures d in domains && GuardsDomain(services, d) && e == DomainEntry(app, d)
  {
    var last := domains[|domains| - 1];
    if GuardsDomain(services, last) && e == DomainEntry(app, last) {
      d := last;
    } else {
      d := DomainEntriesOnly(app, services, domains[..|domains| - 1], e);
    }
  }

  // Later entries win, as map assignment does.
  function InsertAll(m: map<string, GuardTarget>, entries: seq<GuardEntry>): map<string, GuardTarget> {
    if entries == [] then m
    else
      var last := entries[|entries| - 1];
      InsertAll(m, entries[..|entries| - 1])[last.host := last.target]
  }

  lemma InsertSnoc(m: map<string, GuardTarget>, entries: seq<GuardEntry>, e: GuardEntry)
    ensures InsertAll(m, entries + [e]) == InsertAll(m, entries)[e.host := e.target]
  {
    assert (entries + [e])[..|entries + [e]| - 1] == entries;
  }

  lemma {:induction false} InsertAllConcat(m: map<string, GuardTarget>, a: seq<GuardEntry>, b: seq<GuardEntry>)
    ensures InsertAll(InsertAll(m, a), b) == InsertAll(m, a + b)
  {
    if b == [] {
      assert a + b == a;
    } else {
      var last, init := b[|b| - 1], b[..|b| - 1];
      InsertAllConcat(m, a, init);
      assert a + b == (a + init) + [last];
      InsertSnoc(m, a + init, last);
    }
  }

  lemma {:induction false} InsertAllMembers(entries: seq<GuardEntry>, h: string)
    ensures h in InsertAll(map[], entries) <==> exists e :: e in entries && e.host == h
    ensures h in InsertAll(map[], entries) ==> GuardEntry(h, InsertAll(map[], entries)[h]) in entries
  {
    if entries != [] {
      var last, init := entries[|entries| - 1], entries[..|entries| - 1];
      InsertAllMembers(init, h);
      assert entries == init + [last];
    }
  }

  // A host maps to what its last entry says.
  lemma {:induction false} InsertAllLast(entries: seq<GuardEntry>, h: string)
    ensures h in InsertAll(map[], entries) <==> exists i :: 0 <= i < |entries| && entries[i].host == h
    ensures h in InsertAll(map[], entries) ==>
      exists i :: 0 <= i < |entries| && entries[i] == GuardEntry(h, InsertAll(map[], entries)[h])
        && forall j :: i < j < |entries| ==> entries[j].host != h
  {
    if entries != [] {
      var n := |entries| - 1;
      InsertAllLast(entries[..n], h);
      assert forall i :: 0 <= i < n ==> entries[..n][i] == entries[i];
      assert entries[n].host == h ==> entries[n] == GuardEntry(h, InsertAll(map[], entries)[h]);
    }
  }

  // guardedHosts: the folded hosts of auto hosts and assigned domains whose service
  // requires a login, each mapped to such an app and service.
  method GuardedHosts(cfg: Config, db: DB) returns (hosts: map<string, GuardTarget>)
    ensures hosts == InsertAll(map[], AllEntries(cfg, db, db.apps))
  {
    hosts := map[];
    for i := 0 to |db.apps|
      invariant hosts == InsertAll(map[], AllEntries(cfg, db, db.apps[..i]))
    {
      hosts := AddApp(cfg, db, db.apps[i], hosts);
      AllEntriesStep(cfg, db, i);
    }
    assert db.apps[..|db.apps|] == db.apps;
  }

  lemma AllEntriesStep(cfg: Config, db: DB, i: nat)
    requires i < |db.apps|
    ensures InsertAll(map[], AllEntries(cfg, db, db.apps[..i + 1])) ==
      InsertAll(InsertAll(map[], AllEntries(cfg, db, db.apps[..i])), AppEntries(cfg, db, db.apps[i]))
  {
    assert db.apps[..i + 1][..i] == db.apps[..i];
    InsertAllConcat(map[], AllEntries(cfg, db, db.apps[..i]), AppEntries(cfg, db, db.apps[i]));
  }

  // One round of the loop over apps.
  method AddApp(cfg: Config, db: DB, app: App, before: map<string, GuardTarget>) returns (hosts: map<string, GuardTarget>)
    ensures hosts == InsertAll(before, AppEntries(cfg, db, app))
  {
    var services := ServicesOf(db, app.id);
    var autos := AutoHosts(cfg, app, services);
    hosts := AddAutos(app, autos, before);
    hosts := AddDomains(app, services, DomainsOf(db.domains, app.id), hosts);
    InsertAllConcat(before, AutoEntries(app, autos), DomainEntries(app, services, DomainsOf(db.domains, app.id)));
  }

  method AddAutos(app: App, autos: seq<AutoHost>, before: map<string, GuardTarget>) returns (hosts: map<string, GuardTarget>)
    ensures hosts == InsertAll(before, AutoEntries(app, autos))
  {
    hosts := before;
    for j := 0 to |autos|
      invariant hosts == InsertAll(before, AutoEntries(app, autos[..j]))
    {
      assert autos[..j + 1][..j] == autos[..j];
      InsertSnoc(before, AutoEntries(app, autos[..j]), AutoEntry(app, autos[j]));
      if autos[j].service.requiresAuth {
        hosts := hosts[ToLower(autos[j].hostname) := GuardTarget(app.id, autos[j].service.name)];
      }
    }
    assert autos[..|autos|] == autos;
  }

  method AddDomains(app: App, services: seq<Service>, domains: seq<Domain>, before: map<string, GuardTarget>)
    returns (hosts: map<string, GuardTarget>)
    ensures hosts == InsertAll(before, DomainEntries(app, services, domains))
  {
    hosts := before;
    for j := 0 to |domains|
      invariant hosts == InsertAll(before, DomainEntries(app, services, domains[..j]))
    {
      assert domains[..j + 1][..j] == domains[..j];
      var d := domains[j];
      InsertSnoc(before, DomainEntries(app, services, domains[..j]), DomainEntry(app, d));
      if d.Assigned() {
        var svc := FindService(services, d.serviceName);
        if svc.Some? && svc.value.requiresAuth {
          hosts := hosts[ToLower(d.hostname) := GuardTarget(app.id, d.serviceName)];
        }
      }
    }
    assert domains[..|domains|] == domains;
  }

  // Every host that carries the forward-auth check is on the list, for its own app and
  // service.
  lemma ForwardAuthIsGuarded(cfg: Config, db: DB, app: App, spec: RouteSpec, i: nat)
    requires ValidDB(db) && app in db.apps && spec in SpecsOf(cfg, db, app)
    requires HasAuthAt(Select(cfg, app, ServicesOf(db, app.id), spec), i)
    ensures GuardEntry(ToLower(spec.hostname), GuardTarget(app.id, spec.service)) in AllEntries(cfg, db, db.apps)
  {
    var services := ServicesOf(db, app.id);
    var svc := AuthMeansRequired(cfg, app, services, spec, i);
    var entry := GuardEntry(ToLower(spec.hostname), GuardTarget(app.id, spec.service));
    if spec in DomainSpecs(DomainsOf(db.domains, app.id)) {
      var d :| d in DomainsOf(db.domains, app.id) && d.Assigned() && spec == DomainSpec(d);
      assert GuardsDomain(services, d);
      assert entry == DomainEntry(app, d);
      DomainEntriesHold(app, services, DomainsOf(db.domains, app.id), d);
    } else {
      var k := SpecAuto(cfg, db, app, spec);
      var h := AutoHosts(cfg, app, services)[k];
      FindServiceUnique(services, h.service);
      assert h in AutoHosts(cfg, app, services);
      assert entry == AutoEntry(app, h);
      AutoEntriesHold(app, AutoHosts(cfg, app, services), h);
    }
    AllEntriesHold(cfg, db, db.apps, app, entry);
  }

  predicate HasAuthAt(r: Option<Route>, i: nat) {
    r.Some? && i < |r.value.handle| && r.value.handle[i].ReverseProxy? && r.value.handle[i].auth.Some?
  }

  // Only routes to a service that requires a login carry the check.
  lemma AuthMeansRequired(cfg: Config, app: App, services: seq<Service>, spec: RouteSpec, i: nat) returns (svc: Service)
    requires HasAuthAt(Select(cfg, app, services, spec), i)
    ensures spec.redirectTo == "" && FindService(services, spec.service) == Some(svc) && svc.requiresAuth
  {
    svc := FindService(services, spec.service).value;
  }

  lemma SpecAuto(cfg: Config, db: DB, app: App, spec: RouteSpec) returns (k: nat)
    requires spec in SpecsOf(cfg, db, app) && spec !in DomainSpecs(DomainsOf(db.domains, app.id))
    ensures k < |AutoHosts(cfg, app, ServicesOf(db, app.id))|
    ensures var h := AutoHosts(cfg, app, ServicesOf(db, app.id))[k];
      h.hostname == spec.hostname && h.service.name == spec.service && h.service in ServicesOf(db, app.id)
  {
    var hosts := AutoHosts(cfg, app, ServicesOf(db, app.id));
    var autos := AutoSpecs(app.id, hosts);
    k :| 0 <= k < |autos| && autos[k] == spec;
    assert HTTPServices(ServicesOf(db, app.id))[k] in HTTPServices(ServicesOf(db, app.id));
  }

  // The list is wider than the installed gates: the domain half does not look at
  // is_private, so a custom domain of a private service that requires a login is
  // listed although no route exists for it.
  lemma PrivateDomainListedWithoutRoute(cfg: Config, db: DB, t: Table, app: App, d: Domain, svc: Service)
    requires ValidDB(db) && DistinctIDs(t) && app in db.apps && !app.maintenanceActive && !app.suspended
    requires d in db.domains && d.appID == app.id && d.Assigned() && d.redirectTo == "" && d.serviceName == svc.name
    requires svc in ServicesOf(db, app.id) && svc.requiresAuth && svc.isPrivate
    ensures GuardEntry(ToLower(d.hostname), GuardTarget(app.id, svc.name)) in AllEntries(cfg, db, db.apps)
    ensures Lookup(Reconcile(cfg, db, t), RouteID(d.id)).None?
  {
    var services := ServicesOf(db, app.id);
    FindServiceUnique(services, svc);
    DomainEntriesHold(app, services, DomainsOf(db.domains, app.id), d);
    AllEntriesHold(cfg, db, db.apps, app, DomainEntry(app, d));
    var spec := DomainSpec(d);
    assert spec in DomainSpecs(DomainsOf(db.domains, app.id));
    ReconcileConverges(cfg, db, t, spec.id);
    OwnerIs(cfg, db, db.apps, app, spec);
  }

  // A private service is on the list exactly through the assigned domain rows that name
  // it, redirecting ones included, and only if it requires a login.
  lemma PrivateListedIff(cfg: Config, db: DB, app: App, svc: Service, host: string)
    requires ValidDB(db) && app in db.apps && svc in ServicesOf(db, app.id) && svc.isPrivate
    ensures GuardEntry(host, GuardTarget(app.id, svc.name)) in AllEntries(cfg, db, db.apps) <==>
      svc.requiresAuth && exists d :: d in db.domains && NamesHost(d, app.id, svc.name, host)
  {
    var entry := GuardEntry(host, GuardTarget(app.id, svc.name));
    FindServiceUnique(ServicesOf(db, app.id), svc);
    if entry in AllEntries(cfg, db, db.apps) {
      var owner := AllEntriesOnly(cfg, db, db.apps, entry);
      AppByID(db, owner, app);
      PrivateEntryFromDomain(cfg, db, app, svc, entry);
    } else if d :| svc.requiresAuth && d in db.domains && NamesHost(d, app.id, svc.name, host) {
      DomainEntriesHold(app, ServicesOf(db, app.id), DomainsOf(db.domains, app.id), d);
      AllEntriesHold(cfg, db, db.apps, app, entry);
    }
  }

  predicate NamesHost(d: Domain, appID: string, service: string, host: string) {
    d.Assigned() && d.appID == appID && d.serviceName == service && ToLower(d.hostname) == host
  }

  lemma PrivateEntryFromDomain(cfg: Config, db: DB, app: App, svc: Service, e: GuardEntry)
    requires ValidDB(db) && svc in ServicesOf(db, app.id) && svc.isPrivate && Guarded(cfg, db, app, e)
    requires e.target == GuardTarget(app.id, svc.name)
    ensures svc.requiresAuth && exists d :: d in db.domains && NamesHost(d, app.id, svc.name, e.host)
  {
    var services := ServicesOf(db, app.id);
    FindServiceUnique(services, svc);
    if h :| h in AutoHosts(cfg, app, services) && h.service.requiresAuth && e == AutoEntry(app, h) {
      AutoHostPublic(cfg, app, services, h);
      FindServiceUnique(services, h.service);
    } else {
      var d :| d in DomainsOf(db.domains, app.id) && GuardsDomain(services, d) && e == DomainEntry(app, d);
      assert NamesHost(d, app.id, svc.name, e.host);
    }
  }

  lemma AutoHostPublic(cfg: Config, app: App, services: seq<Service>, h: AutoHost)
    requires h in AutoHosts(cfg, app, services)
    ensures h.service in services && !h.service.isPrivate
  {
    assert h.service in HTTPServices(services);
  }

  // A redirecting domain is listed like any other, although the route it gets answers
  // before any check.
  lemma RedirectListedWithoutGate(cfg: Config, db: DB, t: Table, app: App, d: Domain, svc: Service)
    requires ValidDB(db) && DistinctIDs(t) && app in db.apps && !app.maintenanceActive
    requires d in db.domains && d.appID == app.id && d.Assigned() && d.redirectTo != "" && d.serviceName == svc.name
    requires svc in ServicesOf(db, app.id) && svc.requiresAuth
    ensures GuardEntry(ToLower(d.hostname), GuardTarget(app.id, svc.name)) in AllEntries(cfg, db, db.apps)
    ensures Lookup(Reconcile(cfg, db, t), RouteID(d.id)) == Some(RedirectRoute(RouteID(d.id), d.hostname, d.redirectTo))
  {
    FindServiceUnique(ServicesOf(db, app.id), svc);
    DomainEntriesHold(app, ServicesOf(db, app.id), DomainsOf(db.domains, app.id), d);
    AllEntriesHold(cfg, db, db.apps, app, DomainEntry(app, d));
    var spec := DomainSpec(d);
    assert spec in DomainSpecs(DomainsOf(db.domains, app.id));
    ReconcileConverges(cfg, db, t, spec.id);
    OwnerIs(cfg, db, db.apps, app, spec);
  }

  // ---- From a host back to its app ----

  predicate DomainMatches(d: Domain, host: string) { d.Assigned() && EqualFold(d.hostname, host) }

  predicate AnyHost(hosts: seq<AutoHost>, host: string) {
    exists i :: 0 <= i < |hosts| && EqualFold(hosts[i].hostname, host)
  }

  predicate AutoMatches(cfg: Config, db: DB, app: App, host: string) {
    AnyHost(AutoHosts(cfg, app, ServicesOf(db, app.id)), host)
  }

  function DomainOwner(domains: seq<Domain>, host: string): Option<string> {
    if domains == [] then None
    else if DomainMatches(domains[0], host) then Some(domains[0].appID) else DomainOwner(domains[1..], host)
  }

  function AutoOwner(cfg: Config, db: DB, apps: seq<App>, host: string): Option<string> {
    if apps == [] then None
    else if AutoMatches(cfg, db, apps[0], host) then Some(apps[0].id) else AutoOwner(cfg, db, apps[1..], host)
  }

  // The scan stops at the first row that matches.
  lemma {:induction false} DomainOwnerFirst(domains: seq<Domain>, host: string) returns (m: nat)
    ensures m <= |domains| && forall i :: 0 <= i < m ==> !DomainMatches(domains[i], host)
    ensures if m == |domains| then DomainOwner(domains, host) == None
            else DomainMatches(domains[m], host) && DomainOwner(domains, host) == Some(domains[m].appID)
  {
    if domains == [] || DomainMatches(domains[0], host) {
      m := 0;
    } else {
      var n := DomainOwnerFirst(domains[1..], host);
      m := n + 1;
      assert forall i :: 1 <= i < m ==> domains[i] == domains[1..][i - 1];
    }
  }

  lemma {:induction false} AutoOwnerFound(cfg: Config, db: DB, apps: seq<App>, host: string, a: App) returns (b: App)
    requires a in apps && AutoMatches(cfg, db, a, host)
    ensures b in apps && AutoMatches(cfg, db, b, host) && AutoOwner(cfg, db, apps, host) == Some(b.id)
  {
    if AutoMatches(cfg, db, apps[0], host) {
      b := apps[0];
    } else {
      b := AutoOwnerFound(cfg, db, apps[1..], host, a);
    }
  }

  // Assigned domains win over auto hosts; a blank host resolves to nothing.
  function HostOwner(cfg: Config, db: DB, raw: string): Option<string> {
    var host := ToLower(TrimSpace(raw));
    if host == "" then None
    else
      var byDomain := DomainOwner(db.domains, host);
      if byDomain.Some? then byDomain else AutoOwner(cfg, db, db.apps, host)
  }

  // AppIDForHost, as the scans it makes.
  method AppIDForHost(cfg: Config, db: DB, raw: string) returns (r: Option<string>)
    ensures r == HostOwner(cfg, db, raw)
  {
    var host := ToLower(TrimSpace(raw));
    if host == "" {
      return None;
    }
    for i := 0 to |db.domains|
      invariant DomainOwner(db.domains, host) == DomainOwner(db.domains[i..], host)
    {
      if DomainMatches(db.domains[i], host) {
        return Some(db.domains[i].appID);
      }
    }
    r := ScanAutoHosts(cfg, db, host);
  }

  method ScanAutoHosts(cfg: Config, db: DB, host: string) returns (r: Option<string>)
    ensures r == AutoOwner(cfg, db, db.apps, host)
  {
    for i := 0 to |db.apps|
      invariant AutoOwner(cfg, db, db.apps, host) == AutoOwner(cfg, db, db.apps[i..], host)
    {
      var found := ScanHosts(AutoHosts(cfg, db.apps[i], ServicesOf(db, db.apps[i].id)), host);
      if found {
        return Some(db.apps[i].id);
      }
    }
    return None;
  }

  method ScanHosts(hosts: seq<AutoHost>, host: string) returns (found: bool)
    ensures found == AnyHost(hosts, host)
  {
    for j := 0 to |hosts|
      invariant forall k :: 0 <= k < j ==> !EqualFold(hosts[k].hostname, host)
    {
      if EqualFold(hosts[j].hostname, host) {
        return true;
      }
    }
    return false;
  }

  // ---- Does a host find its app? ----

  // Derived hosts tell apps apart, even up to case.
  lemma AutoHostsApart(cfg: Config, db: DB, a1: App, a2: App, host: string)
    requires ValidDB(db) && a1 in db.apps && a2 in db.apps
    requires AutoMatches(cfg, db, a1, host) && AutoMatches(cfg, db, a2, host)
    ensures a1 == a2
  {
    var s1, multi1 := MatchingService(cfg, db, a1, host);
    var s2, multi2 := MatchingService(cfg, db, a2, host);
    FoldedSubdomainInjective(a1.slug, s1, multi1, a2.slug, s2, multi2, cfg.baseDomain);
    var i :| 0 <= i < |db.apps| && db.apps[i] == a1;
    var j :| 0 <= j < |db.apps| && db.apps[j] == a2;
    assert i == j;
  }

  lemma MatchingService(cfg: Config, db: DB, app: App, host: string) returns (service: string, multi: bool)
    requires AutoMatches(cfg, db, app, host)
    ensures cfg.baseDomain != "" && EqualFold(AutoSubdomain(app.slug, service, cfg.baseDomain, multi), host)
  {
    var hosts := AutoHosts(cfg, app, ServicesOf(db, app.id));
    var http := HTTPServices(ServicesOf(db, app.id));
    var i :| 0 <= i < |hosts| && EqualFold(hosts[i].hostname, host);
    service, multi := http[i].name, |http| > 1;
  }

  // A visit to `raw` reaches the routes of a hostname.
  predicate Visits(raw: string, hostname: string) {
    ToLower(TrimSpace(raw)) != "" && EqualFold(hostname, ToLower(TrimSpace(raw)))
  }

  // An assigned domain row of another app matches the host, and none of this app's
  // stands before it.
  predicate Captured(domains: seq<Domain>, host: string, appID: string) {
    exists j :: 0 <= j < |domains| && DomainMatches(domains[j], host) && domains[j].appID != appID
      && forall i :: 0 <= i < j ==> !(DomainMatches(domains[i], host) && domains[i].appID == appID)
  }

  lemma DomainOwnerIff(domains: seq<Domain>, host: string, appID: string)
    ensures DomainOwner(domains, host) in {None, Some(appID)} <==> !Captured(domains, host, appID)
  {
    var m := DomainOwnerFirst(domains, host);
    if m < |domains| {
      assert domains[m].appID != appID ==> Captured(domains, host, appID);
      forall j | 0 <= j < |domains| && DomainMatches(domains[j], host) && domains[j].appID != domains[m].appID
        ensures m < j
      {
      }
    }
  }

  // Whatever host a route of the app answers to, a visit to it is resolved back to that
  // app if and only if no domain row captures the host.
  lemma WakeFindsItsAppIff(cfg: Config, db: DB, app: App, spec: RouteSpec, raw: string)
    requires ValidDB(db) && app in db.apps && spec in SpecsOf(cfg, db, app) && Visits(raw, spec.hostname)
    ensures HostOwner(cfg, db, raw) == Some(app.id) <==> !Captured(db.domains, ToLower(TrimSpace(raw)), app.id)
  {
    var host := ToLower(TrimSpace(raw));
    DomainOwnerIff(db.domains, host, app.id);
    if DomainOwner(db.domains, host).None? {
      NoDomainMeansAuto(cfg, db, app, spec, host);
      var b := AutoOwnerFound(cfg, db, db.apps, host, app);
      AutoHostsApart(cfg, db, app, b, host);
    }
  }

  lemma NoDomainMeansAuto(cfg: Config, db: DB, app: App, spec: RouteSpec, host: string)
    requires spec in SpecsOf(cfg, db, app) && EqualFold(spec.hostname, host) && DomainOwner(db.domains, host).None?
    ensures AutoMatches(cfg, db, app, host)
  {
    var m := DomainOwnerFirst(db.domains, host);
    assert spec !in DomainSpecs(DomainsOf(db.domains, app.id));
    var k := SpecAuto(cfg, db, app, spec);
  }

  // Hostnames as the domain handlers store them: folded.
  predicate FoldedHostnames(domains: seq<Domain>) { forall d :: d in domains ==> Fold(d.hostname) == d.hostname }

  // With such rows a custom domain always finds its app.
  lemma CustomDomainFindsItsApp(cfg: Config, db: DB, app: App, d: Domain, raw: string)
    requires ValidDB(db) && FoldedHostnames(db.domains) && app in db.apps
    requires d in db.domains && d.Assigned() && d.appID == app.id && Visits(raw, d.hostname)
    ensures HostOwner(cfg, db, raw) == Some(app.id)
  {
    var host := ToLower(TrimSpace(raw));
    var m := DomainOwnerFirst(db.domains, host);
    var k :| 0 <= k < |db.domains| && db.domains[k] == d;
    assert DomainMatches(d, host);
    assert db.domains[m].hostname == d.hostname;
    assert m == k;
  }

  // An auto host finds its app if and only if no other app has it as an assigned custom
  // domain.
  lemma AutoHostFindsItsAppIff(cfg: Config, db: DB, app: App, h: AutoHost, raw: string)
    requires ValidDB(db) && FoldedHostnames(db.domains) && app in db.apps
    requires h in AutoHosts(cfg, app, ServicesOf(db, app.id)) && Visits(raw, h.hostname)
    ensures HostOwner(cfg, db, raw) == Some(app.id) <==>
      forall d :: d in db.domains && d.Assigned() && d.hostname == Fold(h.hostname) ==> d.appID == app.id
  {
    var host := ToLower(TrimSpace(raw));
    AutoHostSpec(cfg, db, app, h);
    var spec := RouteSpec(AutoRouteID(app.id, h.service.name), h.hostname, h.service.name, "");
    WakeFindsItsAppIff(cfg, db, app, spec, raw);
    CapturedIff(db.domains, host, h.hostname, app.id);
  }

  lemma CapturedIff(domains: seq<Domain>, host: string, hostname: string, appID: string)
    requires FoldedHostnames(domains) && EqualFold(hostname, host)
    requires forall i, j :: 0 <= i < j < |domains| ==> domains[i].hostname != domains[j].hostname
    ensures !Captured(domains, host, appID) <==>
      forall d :: d in domains && d.Assigned() && d.hostname == Fold(hostname) ==> d.appID == appID
  {
    if d :| d in domains && d.Assigned() && d.hostname == Fold(hostname) && d.appID != appID {
      var j :| 0 <= j < |domains| && domains[j] == d;
      assert DomainMatches(domains[j], host);
      assert forall i :: 0 <= i < j ==> !DomainMatches(domains[i], host);
    }
  }

  lemma AutoHostSpec(cfg: Config, db: DB, app: App, h: AutoHost)
    requires h in AutoHosts(cfg, app, ServicesOf(db, app.id))
    ensures RouteSpec(AutoRouteID(app.id, h.service.name), h.hostname, h.service.name, "") in SpecsOf(cfg, db, app)
  {
    var hosts := AutoHosts(cfg, app, ServicesOf(db, app.id));
    var i :| 0 <= i < |hosts| && hosts[i] == h;
    assert AutoSpecs(app.id, hosts)[i] in AutoSpecs(app.id, hosts);
  }

  // AddCustomDomain asks only that no row holds the hostname already.
  function AddDomain(db: DB, at: nat, d: Domain): DB
    requires at <= |db.domains|
  {
    db.(domains := db.domains[..at] + [d] + db.domains[at..])
  }

  // So an app can take another's auto host: the row is accepted, the other app still
  // wants its route, and a visit to that host is now resolved to the newcomer.
  lemma AutoHostCaptured(cfg: Config, db: DB, owner: App, h: AutoHost, other: App, d: Domain, at: nat, raw: string)
    requires ValidDB(db) && FoldedHostnames(db.domains) && owner in db.apps && other in db.apps && other.id != owner.id
    requires h in AutoHosts(cfg, owner, ServicesOf(db, owner.id)) && Visits(raw, h.hostname)
    requires at <= |db.domains| && d.appID == other.id && d.Assigned() && d.hostname == Fold(h.hostname)
    requires forall e :: e in db.domains ==> e.id != d.id && e.hostname != d.hostname
    ensures var db' := AddDomain(db, at, d);
      && ValidDB(db') && h in AutoHosts(cfg, owner, ServicesOf(db', owner.id))
      && HostOwner(cfg, db, raw) == Some(owner.id)
      && HostOwner(cfg, db', raw) == Some(other.id)
  {
    AutoHostFindsItsAppIff(cfg, db, owner, h, raw);
    AddDomainValid(db, at, d);
    NewcomerFound(cfg, db, other, d, at, h.hostname, raw);
  }

  lemma NewcomerFound(cfg: Config, db: DB, app: App, d: Domain, at: nat, hostname: string, raw: string)
    requires at <= |db.domains| && ValidDB(AddDomain(db, at, d)) && FoldedHostnames(db.domains) && app in db.apps
    requires d.Assigned() && d.appID == app.id && d.hostname == Fold(hostname) && Visits(raw, hostname)
    ensures HostOwner(cfg, AddDomain(db, at, d), raw) == Some(app.id)
  {
    FoldTwice(hostname);
    assert d in db.domains[..at] + [d];
    CustomDomainFindsItsApp(cfg, AddDomain(db, at, d), app, d, raw);
  }

  lemma AddDomainValid(db: DB, at: nat, d: Domain)
    requires ValidDB(db) && at <= |db.domains|
    requires forall e :: e in db.domains ==> e.id != d.id && e.hostname != d.hostname
    ensures ValidDB(AddDomain(db, at, d))
  {
    var after := AddDomain(db, at, d).domains;
    forall i, j | 0 <= i < j < |after|
      ensures after[i].id != after[j].id && after[i].hostname != after[j].hostname
    {
      assert after[i] == if i < at then db.domains[i] else if i == at then d else db.domains[i - 1];
      assert after[j] == if j < at then db.domains[j] else if j == at then d else db.domains[j - 1];
    }
  }

  lemma FoldTwice(s: string)
    ensures Fold(Fold(s)) == Fold(s)
  {
    assert forall i :: 0 <= i < |s| ==> Fold(Fold(s))[i] == Fold(s)[i];
  }
}
