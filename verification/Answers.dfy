// What a request for a host gets after the routes were reconciled, told from the database
// rows alone: addresses, redirects, pages, headers and ids spelt out
// (proxy/manager.go, proxy/network.go).
module Answers {
  import opened Text
  import opened Names
  import opened ProxyModel
  import opened RouteTable
  import opened Reconciler
  import opened LoginGate
  import M = RouteManager
  import H = HealthGate

  // ---- Following a request ----

  // Where a request arrives, with the path it was rewritten to and the headers it was
  // given, and the health check of that upstream.
  datatype Arrival = Arrival(dial: string, uri: Option<string>, headers: map<string, string>, health: Option<HealthCheck>)

  function Follow(handle: seq<Handler>, req: Request, uri: Option<string>, headers: map<string, string>): Option<Arrival> {
    if handle == [] then None
    else
      match handle[0]
      case RateLimit(_, _) => if req.withinLimit then Follow(handle[1..], req, uri, headers) else None
      case RequestHeaders(more) => Follow(handle[1..], req, uri, headers + more)
      case Rewrite(to) => Follow(handle[1..], req, Some(to), headers)
      case ReverseProxy(dial, health, auth) =>
        if auth.None? then Some(Arrival(dial, uri, headers, health))
        else if req.loggedIn then Follow(handle[1..], req, uri, headers + auth.value.copied)
        else None
      case StaticResponse(_, _, _) => None
  }

  // An address in two parts: a name, and a port number after the last colon.
  predicate AddressOf(dial: string, name: string, port: int) {
    exists n :: 0 <= n < |dial| && dial[n] == ':' && ':' !in dial[n + 1..] && dial[..n] == name && ParseInt(dial[n + 1..]) == Some(port)
  }

  lemma PortAddress(dial: string, name: string, port: int)
    requires dial == name + ":" + Itoa(port)
    ensures AddressOf(dial, name, port)
  {
    ParseItoa(port);
    var n := |name|;
    assert dial[..n] == name && dial[n + 1..] == Itoa(port) && dial[n] == ':';
  }

  // vac-api itself, on its own port or 9393.
  predicate ControlAddress(cfg: Config, dial: string) {
    AddressOf(dial, "vac-api", if cfg.controlPort > 0 then cfg.controlPort else 9393)
  }

  lemma ControlDialed(cfg: Config)
    ensures ControlAddress(cfg, ControlDial(cfg))
  {
    var port := if cfg.controlPort <= 0 then 9393 else cfg.controlPort;
    assert "vac-api:" == "vac-api" + ":";
    PortAddress(ControlDial(cfg), "vac-api", port);
  }

  // ---- Which routes the rows ask for ----

  predicate Public(svc: Service) { svc.internalPort.Some? && !svc.isPrivate }

  // A custom domain of the app that points at the service.
  ghost predicate DomainFor(db: DB, app: App, service: string, target: string, id: string, host: string) {
    exists d :: d in db.domains && d.appID == app.id != "" && d.serviceName != "" && d.redirectTo == target
      && (target == "" ==> d.serviceName == service) && id == "vac-route-" + d.id && host == d.hostname
  }

  // The automatic host of a public service: under its own name when the app has several.
  ghost predicate AutoFor(cfg: Config, db: DB, app: App, svc: Service, id: string, host: string) {
    && cfg.baseDomain != "" && Public(svc) && svc in ServicesOf(db, app.id)
    && id == "vac-auto-" + app.id + "-" + svc.name
    && host == (if exists s :: s in ServicesOf(db, app.id) && Public(s) && s.name != svc.name
                then svc.name + "." + app.slug + "." + cfg.baseDomain else app.slug + "." + cfg.baseDomain)
  }

  lemma DomainSpecFor(cfg: Config, db: DB, app: App, service: string, target: string, id: string, host: string)
    returns (spec: RouteSpec)
    requires DomainFor(db, app, service, target, id, host)
    ensures spec in SpecsOf(cfg, db, app) && spec.id == id && spec.hostname == host && spec.redirectTo == target
    ensures target == "" ==> spec.service == service
  {
    var d :| d in db.domains && d.appID == app.id != "" && d.serviceName != "" && d.redirectTo == target
      && (target == "" ==> d.serviceName == service) && id == "vac-route-" + d.id && host == d.hostname;
    spec := DomainSpec(d);
    assert d in DomainsOf(db.domains, app.id);
    assert spec in DomainSpecs(DomainsOf(db.domains, app.id));
  }

  lemma SeveralPublic(services: seq<Service>, svc: Service)
    requires ValidServices(services) && svc in services && Public(svc)
    ensures svc in HTTPServices(services)
    ensures |HTTPServices(services)| > 1 <==> exists s :: s in services && Public(s) && s.name != svc.name
  {
    var http := HTTPServices(services);
    HTTPServicesDistinct(services);
    var i :| 0 <= i < |http| && http[i] == svc;
    if |http| > 1 {
      var j := if i == 0 then 1 else 0;
      assert http[j] in http && http[j].name != svc.name;
    } else if s :| s in services && Public(s) && s.name != svc.name {
      assert s in http;
    }
  }

  lemma AutoSpecFor(cfg: Config, db: DB, app: App, svc: Service, id: string, host: string) returns (spec: RouteSpec)
    requires ValidDB(db) && AutoFor(cfg, db, app, svc, id, host)
    ensures spec in SpecsOf(cfg, db, app) && spec.id == id && spec.hostname == host && spec.redirectTo == "" && spec.service == svc.name
  {
    var services := ServicesOf(db, app.id);
    SeveralPublic(services, svc);
    var http, hosts := HTTPServices(services), AutoHosts(cfg, app, services);
    var i :| 0 <= i < |http| && http[i] == svc;
    spec := AutoSpecs(app.id, hosts)[i];
    assert spec in AutoSpecs(app.id, hosts);
    assert id == AutoRouteID(app.id, svc.name);
  }

  // The spec behind a route the rows ask for.
  lemma SpecFor(cfg: Config, db: DB, app: App, svc: Service, id: string, host: string) returns (spec: RouteSpec)
    requires ValidDB(db) && (DomainFor(db, app, svc.name, "", id, host) || AutoFor(cfg, db, app, svc, id, host))
    ensures spec in SpecsOf(cfg, db, app) && spec.id == id && spec.hostname == host && spec.redirectTo == "" && spec.service == svc.name
  {
    if DomainFor(db, app, svc.name, "", id, host) {
      spec := DomainSpecFor(cfg, db, app, svc.name, "", id, host);
    } else {
      spec := AutoSpecFor(cfg, db, app, svc, id, host);
    }
  }

  lemma TableHolds(cfg: Config, db: DB, t: Table, app: App, spec: RouteSpec)
    requires ValidDB(db) && DistinctIDs(t) && app in db.apps && spec in SpecsOf(cfg, db, app)
    ensures Lookup(Reconcile(cfg, db, t), spec.id) == Select(cfg, app, ServicesOf(db, app.id), spec)
  {
    ReconcileConverges(cfg, db, t, spec.id);
    OwnerIs(cfg, db, db.apps, app, spec);
  }

  // ---- A running service ----

  // The service can be routed to.
  predicate Up(cfg: Config, svc: Service) {
    && svc.containerID.Some? && svc.containerID.value != "" && svc.internalPort.Some? && !svc.isPrivate
    && (svc.requiresAuth ==> cfg.guardEnabled)
  }

  // What a request gets from a route of the service: too many, a login page, or the
  // container under its name and port, its path untouched.
  predicate ReachesService(cfg: Config, app: App, svc: Service, r: Route, req: Request)
    requires svc.internalPort.Some?
  {
    var seen := Follow(r.handle, req, None, map[]);
    if app.rateLimitRPM.Some? && app.rateLimitRPM.value > 0 && !req.withinLimit then Serve(r.handle, req) == TooManyRequests && seen.None?
    else if svc.requiresAuth && !req.loggedIn then Serve(r.handle, req) == LoginBounce && seen.None?
    else
      && seen.Some? && Serve(r.handle, req) == FromUpstream(seen.value.dial) && seen.value.uri == None
      && AddressOf(seen.value.dial, app.slug + "--" + svc.name, svc.internalPort.value)
      && seen.value.health == Some(HealthCheck(if svc.healthPath in {None, Some("")} then "/" else svc.healthPath.value,
                                               cfg.healthInterval, cfg.healthTimeout))
  }

  lemma FollowTail(first: Handler, rest: seq<Handler>, req: Request, uri: Option<string>, headers: map<string, string>)
    ensures first.RateLimit? ==> Follow([first] + rest, req, uri, headers) == if req.withinLimit then Follow(rest, req, uri, headers) else None
    ensures first.RequestHeaders? ==> Follow([first] + rest, req, uri, headers) == Follow(rest, req, uri, headers + first.headers)
    ensures first.Rewrite? ==> Follow([first] + rest, req, uri, headers) == Follow(rest, req, Some(first.uri), headers)
    ensures first.ReverseProxy? && first.auth.Some? ==>
      Follow([first] + rest, req, uri, headers) == if req.loggedIn then Follow(rest, req, uri, headers + first.auth.value.copied) else None
    ensures first.ReverseProxy? && first.auth.None? ==> Follow([first] + rest, req, uri, headers) == Some(Arrival(first.dial, uri, headers, first.health))
  {
    assert ([first] + rest)[1..] == rest;
  }

  lemma GuardFollowed(cfg: Config, upstream: Handler, req: Request)
    requires upstream.ReverseProxy? && upstream.auth.None?
    ensures var seen := Follow(GuardHandlers(cfg) + [upstream], req, None, map[]);
      if !req.loggedIn then seen.None?
      else seen.Some? && seen.value.dial == upstream.dial && seen.value.uri == None && seen.value.health == upstream.health
  {
    var g := GuardHandlers(cfg);
    assert g + [upstream] == [g[0]] + ([g[1]] + [upstream]);
    FollowTail(g[0], [g[1]] + [upstream], req, None, map[]);
    FollowTail(g[1], [upstream], req, None, map[] + g[0].headers);
    assert [upstream] == [upstream] + [];
    FollowTail(upstream, [], req, None, map[] + g[0].headers + g[1].auth.value.copied);
  }

  lemma ChainFollowed(cfg: Config, svc: Service, upstream: Handler, req: Request)
    requires upstream.ReverseProxy? && upstream.auth.None?
    ensures var tail := if svc.requiresAuth then GuardHandlers(cfg) + [upstream] else [upstream];
      var seen := Follow(tail, req, None, map[]);
      if svc.requiresAuth && !req.loggedIn then seen.None?
      else seen.Some? && seen.value.dial == upstream.dial && seen.value.uri == None && seen.value.health == upstream.health
  {
    GuardFollowed(cfg, upstream, req);
    assert [upstream] == [upstream] + [];
    FollowTail(upstream, [], req, None, map[]);
  }

  lemma UpstreamOf(cfg: Config, svc: Service, id: string, host: string, slug: string, rpm: Option<int>) returns (upstream: Handler)
    requires Up(cfg, svc)
    ensures upstream == ReverseProxy(ServiceDial(slug, svc),
                                     Some(HealthCheck(if svc.healthPath in {None, Some("")} then "/" else svc.healthPath.value,
                                                      cfg.healthInterval, cfg.healthTimeout)), None)
    ensures ServiceRoute(cfg, id, host, svc, slug, rpm).handle ==
      (if rpm.Some? && rpm.value > 0 then [RateLimit(id, rpm.value)] else [])
      + (if svc.requiresAuth then GuardHandlers(cfg) + [upstream] else [upstream])
  {
    var h := ServiceRoute(cfg, id, host, svc, slug, rpm).handle;
    upstream := h[|h| - 1];
  }

  lemma ServiceSeen(cfg: Config, app: App, svc: Service, upstream: Handler, handle: seq<Handler>, id: string, req: Request)
    requires upstream.ReverseProxy? && upstream.auth.None?
    requires handle == (if app.rateLimitRPM.Some? && app.rateLimitRPM.value > 0 then [RateLimit(id, app.rateLimitRPM.value)] else [])
      + (if svc.requiresAuth then GuardHandlers(cfg) + [upstream] else [upstream])
    ensures var seen := Follow(handle, req, None, map[]);
      if app.rateLimitRPM.Some? && app.rateLimitRPM.value > 0 && !req.withinLimit then seen.None?
      else if svc.requiresAuth && !req.loggedIn then seen.None?
      else seen.Some? && seen.value.dial == upstream.dial && seen.value.uri == None && seen.value.health == upstream.health
  {
    var tail := if svc.requiresAuth then GuardHandlers(cfg) + [upstream] else [upstream];
    ChainFollowed(cfg, svc, upstream, req);
    if app.rateLimitRPM.Some? && app.rateLimitRPM.value > 0 {
      FollowTail(RateLimit(id, app.rateLimitRPM.value), tail, req, None, map[]);
    } else {
      assert handle == tail;
    }
  }

  lemma DialedUnderName(slug: string, svc: Service)
    requires svc.internalPort.Some?
    ensures AddressOf(ServiceDial(slug, svc), slug + "--" + svc.name, svc.internalPort.value)
  {
    PortAddress(ServiceDial(slug, svc), slug + "--" + svc.name, svc.internalPort.value);
  }

  lemma ServiceFollowed(cfg: Config, app: App, svc: Service, id: string, host: string, req: Request)
    requires Up(cfg, svc)
    ensures ReachesService(cfg, app, svc, ServiceRoute(cfg, id, host, svc, app.slug, app.rateLimitRPM), req)
  {
    var upstream := UpstreamOf(cfg, svc, id, host, app.slug, app.rateLimitRPM);
    ServiceRouteServes(cfg, id, host, svc, app.slug, app.rateLimitRPM, req);
    ServiceSeen(cfg, app, svc, upstream, ServiceRoute(cfg, id, host, svc, app.slug, app.rateLimitRPM).handle, id, req);
    DialedUnderName(app.slug, svc);
  }

  // After a Reconcile each custom domain and automatic host of a service of a live app
  // has its route under its own id if the service can be routed to, and else none; and
  // the route takes a request for that host to the container of the service, by the name
  // the container has on the network and the port it listens on.
  lemma ServiceAnswers(cfg: Config, db: DB, t: Table, app: App, svc: Service, id: string, host: string, req: Request)
    requires ValidDB(db) && DistinctIDs(t) && app in db.apps && svc in ServicesOf(db, app.id)
    requires !app.maintenanceActive && !app.suspended
    requires DomainFor(db, app, svc.name, "", id, host) || AutoFor(cfg, db, app, svc, id, host)
    ensures var r := Lookup(Reconcile(cfg, db, t), id);
      if Up(cfg, svc) then r.Some? && r.value.id == id && r.value.host == host && ReachesService(cfg, app, svc, r.value, req) else r.None?
  {
    var spec := SpecFor(cfg, db, app, svc, id, host);
    TableHolds(cfg, db, t, app, spec);
    FindServiceUnique(ServicesOf(db, app.id), svc);
    if Up(cfg, svc) {
      ServiceFollowed(cfg, app, svc, id, host, req);
    }
  }

  // ---- The name on the network ----

  lemma {:induction false} AttachSpecsName(cfg: Config, slug: string, services: seq<Service>, specs: seq<RouteSpec>,
                                           edge: map<string, string>, c: string, name: string)
    requires c in edge ==> edge[c] == name
    requires forall s :: s in services && s.containerID == Some(c) ==> slug + "--" + s.name == name
    ensures var after := M.AttachSpecs(cfg, slug, services, specs, edge); c in after ==> after[c] == name
  {
    if specs != [] {
      AttachSpecsName(cfg, slug, services, specs[..|specs| - 1], edge, c, name);
    }
  }

  lemma {:induction false} AttachAppsName(cfg: Config, db: DB, apps: seq<App>, edge: map<string, string>, c: string, name: string)
    requires c in edge ==> edge[c] == name
    requires forall a, s :: a in apps && s in ServicesOf(db, a.id) && s.containerID == Some(c) ==> a.slug + "--" + s.name == name
    ensures var after := M.AttachApps(cfg, db, apps, edge); c in after ==> after[c] == name
  {
    if apps != [] {
      var front, last := apps[..|apps| - 1], apps[|apps| - 1];
      AttachAppsName(cfg, db, front, edge, c, name);
      AttachSpecsName(cfg, last.slug, ServicesOf(db, last.id), SpecsOf(cfg, db, last), M.AttachApps(cfg, db, front, edge), c, name);
    }
  }

  lemma {:induction false} AttachKept(cfg: Config, db: DB, apps: seq<App>, edge: map<string, string>, c: string)
    ensures c in edge ==> c in M.AttachApps(cfg, db, apps, edge)
  {
    if apps != [] {
      var front, last := apps[..|apps| - 1], apps[|apps| - 1];
      AttachKept(cfg, db, front, edge, c);
      M.AttachKeys(cfg, last.slug, ServicesOf(db, last.id), SpecsOf(cfg, db, last), M.AttachApps(cfg, db, front, edge), c);
    }
  }

  lemma {:induction false} AttachedByApps(cfg: Config, db: DB, apps: seq<App>, edge: map<string, string>, app: App, spec: RouteSpec, svc: Service)
    requires app in apps && !app.maintenanceActive && !app.suspended && spec in SpecsOf(cfg, db, app) && spec.redirectTo == ""
    requires FindService(ServicesOf(db, app.id), spec.service) == Some(svc) && Up(cfg, svc)
    ensures svc.containerID.value in M.AttachApps(cfg, db, apps, edge)
  {
    var front, last := apps[..|apps| - 1], apps[|apps| - 1];
    var c := svc.containerID.value;
    M.AttachKeys(cfg, last.slug, ServicesOf(db, last.id), SpecsOf(cfg, db, last), M.AttachApps(cfg, db, front, edge), c);
    if last == app {
      assert M.Attaches(cfg, ServicesOf(db, app.id), spec);
    } else {
      assert app in front;
      AttachedByApps(cfg, db, front, edge, app, spec, svc);
    }
  }

  // A container belongs to one service.
  ghost predicate OwnContainer(db: DB, app: App, svc: Service) {
    forall a, s :: a in db.apps && s in ServicesOf(db, a.id) && s.containerID == svc.containerID ==> a == app && s == svc
  }

  // And that name is the one it got: the address a request arrives at, up to its last
  // colon, is what the Reconcile attached the container under, and what follows is the
  // service's port.
  lemma ReachedUnderItsName(cfg: Config, db: DB, t: Table, edge: map<string, string>, app: App, svc: Service, id: string, host: string)
    requires ValidDB(db) && DistinctIDs(t) && app in db.apps && svc in ServicesOf(db, app.id) && OwnContainer(db, app, svc)
    requires !app.maintenanceActive && !app.suspended && Up(cfg, svc) && svc.containerID.value !in edge
    requires DomainFor(db, app, svc.name, "", id, host) || AutoFor(cfg, db, app, svc, id, host)
    ensures var r := Lookup(Reconcile(cfg, db, t), id);
      var after, c := M.AttachApps(cfg, db, db.apps, edge), svc.containerID.value;
      && r.Some? && r.value.host == host && c in after
      && (var seen := Follow(r.value.handle, Request(host, true, true), None, map[]);
          seen.Some? && AddressOf(seen.value.dial, after[c], svc.internalPort.value))
  {
    var spec := SpecFor(cfg, db, app, svc, id, host);
    var c := svc.containerID.value;
    ServiceAnswers(cfg, db, t, app, svc, id, host, Request(host, true, true));
    FindServiceUnique(ServicesOf(db, app.id), svc);
    AttachedByApps(cfg, db, db.apps, edge, app, spec, svc);
    forall a, s | a in db.apps && s in ServicesOf(db, a.id) && s.containerID == Some(c)
      ensures a.slug + "--" + s.name == app.slug + "--" + svc.name
    {
    }
    AttachAppsName(cfg, db, db.apps, edge, c, app.slug + "--" + svc.name);
  }

  lemma {:induction false} NobodyAnswers(u: Table, req: Request)
    requires forall x :: x in u ==> x.host != req.host
    ensures ServeTable(u, req) == Unhandled
  {
    if u != [] {
      NobodyAnswers(u[1..], req);
    }
  }

  // A host that one route of the table answers to is answered by that route.
  lemma {:induction false} HostAnswered(u: Table, r: Route, req: Request)
    requires DistinctIDs(u) && r in u && r.host == req.host && (forall x :: x in u && x.host == req.host ==> x.id == r.id)
    ensures ServeTable(u, req) == Serve(r.handle, req)
  {
    if u[0] == r {
      forall x | x in u[1..] ensures x.host != req.host {
        var j :| 0 <= j < |u| - 1 && u[1..][j] == x;
        assert u[0].id != u[j + 1].id;
      }
      NobodyAnswers(u[1..], req);
    } else {
      var j :| 0 <= j < |u| && u[j] == r;
      assert u[0].id != u[j].id;
      assert u[1..][j - 1] == r;
      HostAnswered(u[1..], r, req);
    }
  }

  // ---- What a deploy waits for ----

  // Some host of the app is meant to lead to the service.
  ghost predicate Pointed(cfg: Config, db: DB, app: App, svc: Service) {
    || (exists d :: d in db.domains && d.appID == app.id != "" && d.serviceName == svc.name && d.redirectTo == "")
    || (cfg.baseDomain != "" && Public(svc))
  }

  lemma SpecPoints(cfg: Config, db: DB, app: App, spec: RouteSpec, svc: Service)
    requires ValidDB(db) && spec in SpecsOf(cfg, db, app) && svc in ServicesOf(db, app.id) && spec.service == svc.name
    ensures Pointed(cfg, db, app, svc)
  {
    var d, s := SpecOrigin(cfg, db, app, spec);
    if d.Some? {
      assert svc.name != "" && spec.redirectTo == "";
    } else {
      FindServiceUnique(ServicesOf(db, app.id), svc);
      FindServiceUnique(ServicesOf(db, app.id), s.value);
    }
  }

  lemma PointedSpec(cfg: Config, db: DB, app: App, svc: Service) returns (spec: RouteSpec)
    requires ValidDB(db) && svc in ServicesOf(db, app.id) && Pointed(cfg, db, app, svc)
    ensures spec in SpecsOf(cfg, db, app) && spec.service == svc.name
  {
    if d :| d in db.domains && d.appID == app.id != "" && d.serviceName == svc.name && d.redirectTo == "" {
      assert svc.name != "";
      spec := DomainSpecFor(cfg, db, app, svc.name, "", "vac-route-" + d.id, d.hostname);
    } else {
      var several := exists s :: s in ServicesOf(db, app.id) && Public(s) && s.name != svc.name;
      var host := if several then svc.name + "." + app.slug + "." + cfg.baseDomain else app.slug + "." + cfg.baseDomain;
      spec := AutoSpecFor(cfg, db, app, svc, "vac-auto-" + app.id + "-" + svc.name, host);
    }
  }

  // The health gate waits for exactly the addresses of the app's services that have a
  // container and a port and that some host points at.
  lemma WaitsForServices(cfg: Config, db: DB, app: App, addr: string)
    requires ValidDB(db)
    ensures addr in H.WantedDials(app.slug, ServicesOf(db, app.id), SpecsOf(cfg, db, app)) <==>
      exists svc :: svc in ServicesOf(db, app.id) && WaitedAt(cfg, db, app, svc, addr)
  {
    var services, specs := ServicesOf(db, app.id), SpecsOf(cfg, db, app);
    if addr in H.WantedDials(app.slug, services, specs) {
      var spec := H.WantedOrigin(app.slug, services, specs, addr);
      var svc := FindService(services, spec.service).value;
      SpecPoints(cfg, db, app, spec, svc);
      assert WaitedAt(cfg, db, app, svc, addr);
    } else if svc :| svc in services && WaitedAt(cfg, db, app, svc, addr) {
      var spec := PointedSpec(cfg, db, app, svc);
      FindServiceUnique(services, svc);
      H.WantedMember(app.slug, services, specs, spec);
    }
  }

  ghost predicate WaitedAt(cfg: Config, db: DB, app: App, svc: Service, addr: string) {
    && svc.containerID.Some? && svc.containerID.value != "" && svc.internalPort.Some? && Pointed(cfg, db, app, svc)
    && addr == app.slug + "--" + svc.name + ":" + Itoa(svc.internalPort.value)
  }

  // ---- The login check ----

  // A route to a service that requires a login asks vac-api's verify path, with the
  // secret in the query when there is one, and hands the service the user's name.
  lemma GuardAsks(cfg: Config, db: DB, t: Table, app: App, svc: Service, id: string, host: string) returns (i: nat)
    requires ValidDB(db) && DistinctIDs(t) && app in db.apps && svc in ServicesOf(db, app.id)
    requires !app.maintenanceActive && !app.suspended && Up(cfg, svc) && svc.requiresAuth
    requires DomainFor(db, app, svc.name, "", id, host) || AutoFor(cfg, db, app, svc, id, host)
    ensures var r := Lookup(Reconcile(cfg, db, t), id);
      r.Some? && i > 0 && i + 2 == |r.value.handle| && AsksVerify(cfg, r.value.handle[i - 1], r.value.handle[i])
  {
    ServiceRouted(cfg, db, t, app, svc, id, host);
    i := GuardAt(cfg, ServiceRoute(cfg, id, host, svc, app.slug, app.rateLimitRPM), app, svc, id, host);
  }

  // The route of a service that is up.
  lemma ServiceRouted(cfg: Config, db: DB, t: Table, app: App, svc: Service, id: string, host: string)
    requires ValidDB(db) && DistinctIDs(t) && app in db.apps && svc in ServicesOf(db, app.id)
    requires !app.maintenanceActive && !app.suspended && Up(cfg, svc)
    requires DomainFor(db, app, svc.name, "", id, host) || AutoFor(cfg, db, app, svc, id, host)
    ensures Lookup(Reconcile(cfg, db, t), id) == Some(ServiceRoute(cfg, id, host, svc, app.slug, app.rateLimitRPM))
  {
    var spec := SpecFor(cfg, db, app, svc, id, host);
    TableHolds(cfg, db, t, app, spec);
    FindServiceUnique(ServicesOf(db, app.id), svc);
  }

  predicate AsksVerify(cfg: Config, before: Handler, check: Handler) {
    && before == RequestHeaders(map["X-Vac-Guard-Host" := "{http.request.host}", "X-Vac-Guard-Uri" := "{http.request.orig_uri}"])
    && check.ReverseProxy? && ControlAddress(cfg, check.dial)
    && check.auth == Some(AuthCheck(if cfg.wakeToken == "" then "/__vac_guard" else "/__vac_guard?t=" + cfg.guardToken,
                                    map["X-Vac-User" := "{http.reverse_proxy.header.X-Vac-User}"]))
  }

  lemma GuardAsksVerify(cfg: Config)
    ensures |GuardHandlers(cfg)| == 2 && AsksVerify(cfg, GuardHandlers(cfg)[0], GuardHandlers(cfg)[1])
  {
    ControlDialed(cfg);
    assert "/__vac_guard" + "" == "/__vac_guard";
    assert "/__vac_guard" + ("?t=" + cfg.guardToken) == "/__vac_guard?t=" + cfg.guardToken;
  }

  lemma GuardAt(cfg: Config, r: Route, app: App, svc: Service, id: string, host: string) returns (i: nat)
    requires r == ServiceRoute(cfg, id, host, svc, app.slug, app.rateLimitRPM) && Up(cfg, svc) && svc.requiresAuth
    ensures i > 0 && i + 2 == |r.handle| && AsksVerify(cfg, r.handle[i - 1], r.handle[i])
  {
    var upstream := UpstreamOf(cfg, svc, id, host, app.slug, app.rateLimitRPM);
    GuardAsksVerify(cfg);
    i := |r.handle| - 2;
    assert r.handle[i - 1] == GuardHandlers(cfg)[0] && r.handle[i] == GuardHandlers(cfg)[1];
  }

  predicate Limited(app: App) { app.rateLimitRPM.Some? && app.rateLimitRPM.value > 0 }

  // An app with a rate limit limits each of its routes by itself, before anything else.
  predicate LimitsFirst(app: App, id: string, handle: seq<Handler>) {
    && (Limited(app) ==> handle != [] && handle[0] == RateLimit(id, app.rateLimitRPM.value))
    && forall i :: 0 <= i < |handle| && handle[i].RateLimit? ==> i == 0 && Limited(app)
  }

  lemma LimitsItself(cfg: Config, db: DB, t: Table, app: App, svc: Service, id: string, host: string)
    requires ValidDB(db) && DistinctIDs(t) && app in db.apps && svc in ServicesOf(db, app.id)
    requires !app.maintenanceActive && !app.suspended && Up(cfg, svc)
    requires DomainFor(db, app, svc.name, "", id, host) || AutoFor(cfg, db, app, svc, id, host)
    ensures var r := Lookup(Reconcile(cfg, db, t), id); r.Some? && LimitsFirst(app, id, r.value.handle)
  {
    ServiceRouted(cfg, db, t, app, svc, id, host);
    RouteLimits(cfg, app, svc, id, host);
  }

  lemma RouteLimits(cfg: Config, app: App, svc: Service, id: string, host: string)
    requires Up(cfg, svc)
    ensures LimitsFirst(app, id, ServiceRoute(cfg, id, host, svc, app.slug, app.rateLimitRPM).handle)
  {
    var upstream := UpstreamOf(cfg, svc, id, host, app.slug, app.rateLimitRPM);
    var tail := if svc.requiresAuth then GuardHandlers(cfg) + [upstream] else [upstream];
    assert forall i :: 0 <= i < |tail| ==> !tail[i].RateLimit?;
  }

  // A host of the app leads to the service, under this name in lower case.
  ghost predicate LeadsTo(cfg: Config, db: DB, app: App, svc: Service, host: string) {
    || (exists d :: d in db.domains && d.appID == app.id != "" && d.serviceName == svc.name && host == ToLower(d.hostname))
    || (exists h :: AutoFor(cfg, db, app, svc, "vac-auto-" + app.id + "-" + svc.name, h) && host == ToLower(h))
  }

  // The portal's list has a host for a service exactly when the service requires a login
  // and a domain row or an automatic host of that name leads to it.
  lemma ListedIff(cfg: Config, db: DB, app: App, svc: Service, host: string)
    requires ValidDB(db) && app in db.apps && svc in ServicesOf(db, app.id)
    ensures GuardEntry(host, GuardTarget(app.id, svc.name)) in AllEntries(cfg, db, db.apps) <==>
      svc.requiresAuth && LeadsTo(cfg, db, app, svc, host)
  {
    var e := GuardEntry(host, GuardTarget(app.id, svc.name));
    FindServiceUnique(ServicesOf(db, app.id), svc);
    if e in AllEntries(cfg, db, db.apps) {
      var owner := AllEntriesOnly(cfg, db, db.apps, e);
      AppByID(db, owner, app);
      GuardedLeads(cfg, db, app, svc, e);
    } else if svc.requiresAuth && LeadsTo(cfg, db, app, svc, host) {
      LeadsGuarded(cfg, db, app, svc, host);
    }
  }

  lemma GuardedLeads(cfg: Config, db: DB, app: App, svc: Service, e: GuardEntry)
    requires ValidDB(db) && svc in ServicesOf(db, app.id) && e.target == GuardTarget(app.id, svc.name) && Guarded(cfg, db, app, e)
    ensures svc.requiresAuth && LeadsTo(cfg, db, app, svc, e.host)
  {
    var services := ServicesOf(db, app.id);
    FindServiceUnique(services, svc);
    if h :| h in AutoHosts(cfg, app, services) && h.service.requiresAuth && e == AutoEntry(app, h) {
      var i :| 0 <= i < |AutoHosts(cfg, app, services)| && AutoHosts(cfg, app, services)[i] == h;
      AutoHostIs(cfg, db, app, i);
      FindServiceUnique(services, h.service);
    } else {
      var d :| d in DomainsOf(db.domains, app.id) && GuardsDomain(services, d) && e == DomainEntry(app, d);
    }
  }

  lemma AutoHostIs(cfg: Config, db: DB, app: App, i: nat)
    requires ValidDB(db) && i < |AutoHosts(cfg, app, ServicesOf(db, app.id))|
    ensures var h := AutoHosts(cfg, app, ServicesOf(db, app.id))[i];
      h.service in ServicesOf(db, app.id)
      && AutoFor(cfg, db, app, h.service, "vac-auto-" + app.id + "-" + h.service.name, h.hostname)
  {
    var services := ServicesOf(db, app.id);
    var svc := AutoHosts(cfg, app, services)[i].service;
    assert svc == HTTPServices(services)[i] && svc in HTTPServices(services);
    SeveralPublic(services, svc);
  }

  lemma LeadsGuarded(cfg: Config, db: DB, app: App, svc: Service, host: string)
    requires ValidDB(db) && app in db.apps && svc in ServicesOf(db, app.id) && svc.requiresAuth && LeadsTo(cfg, db, app, svc, host)
    ensures GuardEntry(host, GuardTarget(app.id, svc.name)) in AllEntries(cfg, db, db.apps)
  {
    var services := ServicesOf(db, app.id);
    FindServiceUnique(services, svc);
    var e := GuardEntry(host, GuardTarget(app.id, svc.name));
    if d :| d in db.domains && d.appID == app.id != "" && d.serviceName == svc.name && host == ToLower(d.hostname) {
      assert svc.name != "";
      DomainEntriesHold(app, services, DomainsOf(db.domains, app.id), d);
    } else {
      var h :| AutoFor(cfg, db, app, svc, "vac-auto-" + app.id + "-" + svc.name, h) && host == ToLower(h);
      SeveralPublic(services, svc);
      var http := HTTPServices(services);
      var i :| 0 <= i < |http| && http[i] == svc;
      var auto := AutoHosts(cfg, app, services)[i];
      assert auto in AutoHosts(cfg, app, services) && auto.hostname == h;
      AutoEntriesHold(app, AutoHosts(cfg, app, services), auto);
    }
    AllEntriesHold(cfg, db, db.apps, app, e);
  }

  // ---- Redirects, maintenance, sleep ----

  // A redirecting domain sends the visitor on, path and all, unless the app is in
  // maintenance.
  lemma RedirectAnswers(cfg: Config, db: DB, t: Table, app: App, target: string, id: string, host: string, req: Request)
    requires ValidDB(db) && DistinctIDs(t) && app in db.apps && !app.maintenanceActive && target != ""
    requires DomainFor(db, app, "", target, id, host)
    ensures var r := Lookup(Reconcile(cfg, db, t), id);
      && r.Some? && r.value.id == id && r.value.host == host
      && Serve(r.value.handle, req) == Static(308, map["Location" := "https://" + target + "{http.request.uri}"], "")
  {
    var spec := DomainSpecFor(cfg, db, app, "", target, id, host);
    TableHolds(cfg, db, t, app, spec);
    RedirectServed(id, host, target, req);
  }

  lemma RedirectServed(id: string, host: string, target: string, req: Request)
    ensures Serve(RedirectRoute(id, host, target).handle, req) ==
      Static(308, map["Location" := "https://" + target + "{http.request.uri}"], "")
  {
  }

  lemma PageServed(id: string, host: string, page: string, req: Request)
    ensures Serve(MaintenanceRoute(id, host, page).handle, req) ==
      Static(503, map["Content-Type" := "text/html; charset=utf-8", "Retry-After" := "120"], page)
  {
  }

  // In maintenance every host of the app shows its page.
  lemma MaintenanceAnswers(cfg: Config, db: DB, t: Table, app: App, svc: Service, target: string, id: string, host: string, req: Request)
    requires ValidDB(db) && DistinctIDs(t) && app in db.apps && app.maintenanceActive
    requires DomainFor(db, app, svc.name, target, id, host) || AutoFor(cfg, db, app, svc, id, host)
    ensures var r := Lookup(Reconcile(cfg, db, t), id);
      && r.Some? && r.value.id == id && r.value.host == host
      && Serve(r.value.handle, req) ==
           Static(503, map["Content-Type" := "text/html; charset=utf-8", "Retry-After" := "120"], app.maintenancePage)
  {
    var spec;
    if DomainFor(db, app, svc.name, target, id, host) {
      spec := DomainSpecFor(cfg, db, app, svc.name, target, id, host);
    } else {
      spec := AutoSpecFor(cfg, db, app, svc, id, host);
    }
    TableHolds(cfg, db, t, app, spec);
    PageServed(id, host, app.maintenancePage, req);
  }

  // While the app sleeps every host of it that does not redirect is answered by the wake
  // handler, which is told the host and the path the visitor asked for.
  lemma SleepAnswers(cfg: Config, db: DB, t: Table, app: App, svc: Service, id: string, host: string, req: Request)
    requires ValidDB(db) && DistinctIDs(t) && app in db.apps && app.suspended && !app.maintenanceActive
    requires DomainFor(db, app, svc.name, "", id, host) || AutoFor(cfg, db, app, svc, id, host)
    ensures var r := Lookup(Reconcile(cfg, db, t), id);
      r.Some? && r.value.id == id && r.value.host == host && WakesUp(cfg, r.value.handle, req)
  {
    var spec := SpecFor(cfg, db, app, svc, id, host);
    TableHolds(cfg, db, t, app, spec);
    WakeFollowed(cfg, id, host, req);
  }

  // The same by the focused swap that a suspension makes, on any table.
  lemma SwapAnswers(cfg: Config, db: DB, t: Table, app: App, svc: Service, id: string, host: string, req: Request)
    requires ValidDB(db) && DistinctIDs(t) && app in db.apps
    requires DomainFor(db, app, svc.name, "", id, host) || AutoFor(cfg, db, app, svc, id, host)
    ensures var r := Lookup(InstallWakeRoutes(cfg, db, app, t), id);
      r.Some? && r.value.id == id && r.value.host == host && WakesUp(cfg, r.value.handle, req)
  {
    var spec := SpecFor(cfg, db, app, svc, id, host);
    SpecsDistinct(cfg, db, app);
    WakeSpecsLookup(cfg, SpecsOf(cfg, db, app), t, id);
    FindSpecUnique(SpecsOf(cfg, db, app), spec);
    WakeFollowed(cfg, id, host, req);
  }

  predicate WakesUp(cfg: Config, handle: seq<Handler>, req: Request) {
    var seen := Follow(handle, req, None, map[]);
    && seen.Some? && ControlAddress(cfg, seen.value.dial) && seen.value.uri == Some("/__vac_wake")
    && seen.value.headers.Keys ==
         {"X-Vac-Wake-Host", "X-Vac-Wake-Uri"} + (if cfg.wakeToken == "" then {} else {"X-Caddy-Ask-Token"})
    && seen.value.headers["X-Vac-Wake-Host"] == "{http.request.host}"
    && seen.value.headers["X-Vac-Wake-Uri"] == "{http.request.orig_uri}"
    && (cfg.wakeToken != "" ==> seen.value.headers["X-Caddy-Ask-Token"] == cfg.wakeToken)
  }

  lemma WakeFollowed(cfg: Config, id: string, host: string, req: Request)
    ensures WakesUp(cfg, WakeRoute(cfg, id, host).handle, req)
  {
    var h := WakeRoute(cfg, id, host).handle;
    ControlDialed(cfg);
    assert h == [h[0]] + ([h[1]] + ([h[2]] + []));
    FollowTail(h[0], [h[1]] + ([h[2]] + []), req, None, map[]);
    FollowTail(h[1], [h[2]] + [], req, None, map[] + h[0].headers);
    FollowTail(h[2], [], req, Some(h[1].uri), map[] + h[0].headers);
    assert map[] + h[0].headers == h[0].headers;
    HeaderNamesDiffer();
  }

  lemma HeaderNamesDiffer()
    ensures "X-Vac-Wake-Host" != "X-Vac-Wake-Uri" && "X-Caddy-Ask-Token" != "X-Vac-Wake-Host" && "X-Caddy-Ask-Token" != "X-Vac-Wake-Uri"
  {
    assert "X-Vac-Wake-Host"[11] == 'H' && "X-Vac-Wake-Uri"[11] == 'U';
    assert "X-Caddy-Ask-Token"[2] == 'C' && "X-Vac-Wake-Host"[2] == 'V' && "X-Vac-Wake-Uri"[2] == 'V';
  }

  // ---- The dashboard, leftovers and foreign routes ----

  // The control domain leads to vac-api; without one there is no such route.
  lemma ControlAnswers(cfg: Config, db: DB, t: Table, req: Request)
    requires ValidDB(db) && DistinctIDs(t)
    ensures var r := Lookup(Reconcile(cfg, db, t), "vac-control-route");
      if cfg.controlDomain == "" then r.None?
      else
        && r.Some? && r.value.host == cfg.controlDomain
        && (var seen := Follow(r.value.handle, req, None, map[]);
            && seen.Some? && ControlAddress(cfg, seen.value.dial) && seen.value.uri == None
            && seen.value.health == Some(HealthCheck("/health", cfg.healthInterval, cfg.healthTimeout)))
  {
    ReconcileProjects(cfg, db, t);
    if cfg.controlDomain != "" {
      ControlFollowed(cfg, req);
    }
  }

  lemma ControlFollowed(cfg: Config, req: Request)
    ensures var seen := Follow(ControlRoute(cfg).handle, req, None, map[]);
      && seen.Some? && ControlAddress(cfg, seen.value.dial) && seen.value.uri == None
      && seen.value.health == Some(HealthCheck("/health", cfg.healthInterval, cfg.healthTimeout))
  {
    ControlDialed(cfg);
    var h := ControlRoute(cfg).handle;
    assert h == [h[0]] + [];
    FollowTail(h[0], [], req, None, map[]);
  }

  // Only domain rows and public services keep a managed id alive, and ids of any other
  // form are none of the manager's business.
  lemma OnlyRowsRemain(cfg: Config, db: DB, t: Table, k: string)
    requires ValidDB(db) && DistinctIDs(t) && k != "vac-control-route"
    ensures !("vac-route-" <= k) && !("vac-auto-" <= k) ==> Lookup(Reconcile(cfg, db, t), k) == Lookup(t, k)
    ensures ("vac-route-" <= k || "vac-auto-" <= k) && Lookup(Reconcile(cfg, db, t), k).Some? ==>
      || (exists d :: d in db.domains && k == "vac-route-" + d.id)
      || (exists a, s :: a in db.apps && s in ServicesOf(db, a.id) && Public(s) && cfg.baseDomain != "" && k == "vac-auto-" + a.id + "-" + s.name)
  {
    ReconcileProjects(cfg, db, t);
    var r := Lookup(Reconcile(cfg, db, t), k);
    if ("vac-route-" <= k || "vac-auto-" <= k) && r.Some? {
      assert k in BackedIDs(cfg, db);
      if k in DomainIDs(db.domains) {
        var d :| d in db.domains && k == RouteID(d.id);
      } else {
        var a, s := BackedBy(cfg, db, db.apps, k);
      }
    }
  }

  lemma {:induction false} BackedBy(cfg: Config, db: DB, apps: seq<App>, k: string) returns (a: App, s: Service)
    requires k in AutoIDs(cfg, db, apps)
    ensures a in apps && s in ServicesOf(db, a.id) && Public(s) && cfg.baseDomain != "" && k == "vac-auto-" + a.id + "-" + s.name
  {
    var last := apps[|apps| - 1];
    if k in AppAutoIDs(cfg, db, last) {
      var hosts := AutoHosts(cfg, last, ServicesOf(db, last.id));
      var h :| h in hosts && k == AutoRouteID(last.id, h.service.name);
      a, s := last, h.service;
      assert h.service in HTTPServices(ServicesOf(db, last.id));
    } else {
      a, s := BackedBy(cfg, db, apps[..|apps| - 1], k);
    }
  }
}
