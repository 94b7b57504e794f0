// The rows the route manager reads, the Caddy configuration values it writes, and
// the functions that turn the first into the second (proxy/manager.go).
module ProxyModel {
  import opened Text
  import opened Names

  // ---- Store rows ----

  // maintenanceMode is the operator's manual switch, maintenanceActive the flag in
  // effect; maintenancePage is the rendered page of the app.
  datatype App = App(id: string, slug: string, suspended: bool, maintenanceMode: bool, maintenanceActive: bool,
                     maintenancePage: string, rateLimitRPM: Option<int>)

  datatype Service = Service(name: string, containerID: Option<string>, internalPort: Option<int>,
                             healthPath: Option<string>, isPrivate: bool, requiresAuth: bool)
  {
    // The service has a container on record.
    predicate Deployed() { containerID.Some? && containerID.value != "" }
  }

  datatype Domain = Domain(id: string, appID: string, serviceName: string, hostname: string, redirectTo: string)
  {
    predicate Assigned() { appID != "" && serviceName != "" }
  }

  // guardToken is the query-escaped secret of the verify endpoint.
  datatype Config = Config(baseDomain: string, controlDomain: string, controlPort: int,
                           healthInterval: string, healthTimeout: string, healthRetries: int,
                           wakeToken: string, guardToken: string, guardEnabled: bool)

  datatype DB = DB(apps: seq<App>, services: map<string, seq<Service>>, domains: seq<Domain>)

  const UUID_LENGTH := 36

  predicate Distinct<T(==)>(s: seq<T>) { forall i, j :: 0 <= i < j < |s| ==> s[i] != s[j] }

  function GetApp(apps: seq<App>, id: string): (r: Option<App>)
    ensures r.Some? ==> r.value in apps && r.value.id == id
    ensures r.None? ==> forall a :: a in apps ==> a.id != id
  {
    if apps == [] then None else if apps[0].id == id then Some(apps[0]) else GetApp(apps[1..], id)
  }

  function ServicesOf(db: DB, appID: string): seq<Service> {
    if appID in db.services then db.services[appID] else []
  }

  function DomainsOf(domains: seq<Domain>, appID: string): (r: seq<Domain>)
    ensures forall d :: d in r <==> d in domains && d.appID == appID
  {
    if domains == [] then []
    else if domains[0].appID == appID then [domains[0]] + DomainsOf(domains[1..], appID)
    else DomainsOf(domains[1..], appID)
  }

  // What the schema guarantees: primary keys, the unique slug, hostname and
  // (app, service) constraints, UUID app ids and the slug grammar.
  ghost predicate ValidDB(db: DB) {
    && (forall i, j :: 0 <= i < j < |db.apps| ==> db.apps[i].id != db.apps[j].id && db.apps[i].slug != db.apps[j].slug)
    && (forall a :: a in db.apps ==> |a.id| == UUID_LENGTH && IsSlug(a.slug))
    && (forall i, j :: 0 <= i < j < |db.domains| ==>
          db.domains[i].id != db.domains[j].id && db.domains[i].hostname != db.domains[j].hostname)
    && (forall id :: id in db.services ==> ValidServices(db.services[id]))
  }

  ghost predicate ValidServices(services: seq<Service>) {
    && (forall s :: s in services ==> s.name != "")
    && (forall i, j :: 0 <= i < j < |services| ==> services[i].name != services[j].name)
  }

  // ---- Caddy values ----

  datatype HealthCheck = HealthCheck(path: string, interval: string, timeout: string)

  // A reverse_proxy with a rewrite and a 2xx handle_response clause: forward_auth.
  datatype AuthCheck = AuthCheck(verifyURI: string, copied: map<string, string>)

  datatype Handler =
    | RateLimit(zone: string, maxEvents: int)
    | RequestHeaders(headers: map<string, string>)
    | Rewrite(uri: string)
    | ReverseProxy(dial: string, health: Option<HealthCheck>, auth: Option<AuthCheck>)
    | StaticResponse(status: int, responseHeaders: map<string, string>, body: string)

  datatype Route = Route(id: string, host: string, handle: seq<Handler>)

  // ---- Route builders ----

  const WAKE_PATH := "/__vac_wake"
  const GUARD_PATH := "/__vac_guard"

  function ControlDial(cfg: Config): string {
    "vac-api:" + Itoa(if cfg.controlPort <= 0 then 9393 else cfg.controlPort)
  }

  function ServiceDial(slug: string, svc: Service): string {
    Dial(slug, svc.name, if svc.internalPort.Some? then svc.internalPort.value else 0)
  }

  function RedirectRoute(id: string, hostname: string, target: string): Route {
    Route(id, hostname, [StaticResponse(308, map["Location" := "https://" + target + "{http.request.uri}"], "")])
  }

  function MaintenanceRoute(id: string, hostname: string, html: string): Route {
    Route(id, hostname, [StaticResponse(503, map["Content-Type" := "text/html; charset=utf-8", "Retry-After" := "120"], html)])
  }

  function WakeRoute(cfg: Config, id: string, hostname: string): Route {
    var carry := map["X-Vac-Wake-Host" := "{http.request.host}", "X-Vac-Wake-Uri" := "{http.request.orig_uri}"];
    var headers := if cfg.wakeToken != "" then carry["X-Caddy-Ask-Token" := cfg.wakeToken] else carry;
    Route(id, hostname, [RequestHeaders(headers), Rewrite(WAKE_PATH), ReverseProxy(ControlDial(cfg), None, None)])
  }

  function GuardHandlers(cfg: Config): seq<Handler> {
    [ RequestHeaders(map["X-Vac-Guard-Host" := "{http.request.host}", "X-Vac-Guard-Uri" := "{http.request.orig_uri}"]),
      ReverseProxy(ControlDial(cfg), None,
                   Some(AuthCheck(GUARD_PATH + (if cfg.wakeToken != "" then "?t=" + cfg.guardToken else ""),
                                  map["X-Vac-User" := "{http.reverse_proxy.header.X-Vac-User}"])))
    ]
  }

  function ServiceRoute(cfg: Config, id: string, hostname: string, svc: Service, slug: string, rpm: Option<int>): Route {
    var path := if svc.healthPath.Some? && svc.healthPath.value != "" then svc.healthPath.value else "/";
    var limit := if rpm.Some? && rpm.value > 0 then [RateLimit(id, rpm.value)] else [];
    var guardChain := if svc.requiresAuth && cfg.guardEnabled then GuardHandlers(cfg) else [];
    var upstream := ReverseProxy(ServiceDial(slug, svc), Some(HealthCheck(path, cfg.healthInterval, cfg.healthTimeout)), None);
    Route(id, hostname, limit + guardChain + [upstream])
  }

  function ControlRoute(cfg: Config): Route {
    Route(CONTROL_ROUTE_ID, cfg.controlDomain,
          [ReverseProxy(ControlDial(cfg), Some(HealthCheck("/health", cfg.healthInterval, cfg.healthTimeout)), None)])
  }

  // ---- Derived hosts and desired routes ----

  datatype AutoHost = AutoHost(hostname: string, service: Service)

  // The services that get an automatic subdomain.
  function HTTPServices(services: seq<Service>): (r: seq<Service>)
    ensures forall s :: s in r <==> s in services && s.internalPort.Some? && !s.isPrivate
  {
    if services == [] then []
    else if services[0].internalPort.Some? && !services[0].isPrivate then [services[0]] + HTTPServices(services[1..])
    else HTTPServices(services[1..])
  }

  function AutoHostsFor(slug: string, http: seq<Service>, base: string, multi: bool): (r: seq<AutoHost>)
    ensures |r| == |http|
    ensures forall i :: 0 <= i < |http| ==> r[i] == AutoHost(AutoSubdomain(slug, http[i].name, base, multi), http[i])
  {
    seq(|http|, i requires 0 <= i < |http| => AutoHost(AutoSubdomain(slug, http[i].name, base, multi), http[i]))
  }

  function AutoHosts(cfg: Config, app: App, services: seq<Service>): seq<AutoHost> {
    var http := HTTPServices(services);
    if cfg.baseDomain == "" then [] else AutoHostsFor(app.slug, http, cfg.baseDomain, |http| > 1)
  }

  // One desired route; redirectTo is "" for a proxy route.
  datatype RouteSpec = RouteSpec(id: string, hostname: string, service: string, redirectTo: string)

  function DomainSpec(d: Domain): RouteSpec {
    if d.redirectTo != "" then RouteSpec(RouteID(d.id), d.hostname, "", d.redirectTo)
    else RouteSpec(RouteID(d.id), d.hostname, d.serviceName, "")
  }

  function DomainSpecs(domains: seq<Domain>): (r: seq<RouteSpec>)
    ensures forall s :: s in r <==> exists d :: d in domains && d.Assigned() && s == DomainSpec(d)
  {
    if domains == [] then []
    else if domains[0].Assigned() then [DomainSpec(domains[0])] + DomainSpecs(domains[1..])
    else DomainSpecs(domains[1..])
  }

  function AutoSpecs(appID: string, hosts: seq<AutoHost>): (r: seq<RouteSpec>)
    ensures |r| == |hosts|
    ensures forall i :: 0 <= i < |hosts| ==>
      r[i] == RouteSpec(AutoRouteID(appID, hosts[i].service.name), hosts[i].hostname, hosts[i].service.name, "")
  {
    seq(|hosts|, i requires 0 <= i < |hosts| =>
      RouteSpec(AutoRouteID(appID, hosts[i].service.name), hosts[i].hostname, hosts[i].service.name, ""))
  }

  function DesiredRoutes(cfg: Config, app: App, domains: seq<Domain>, services: seq<Service>): seq<RouteSpec> {
    DomainSpecs(domains) + AutoSpecs(app.id, AutoHosts(cfg, app, services))
  }

  // The specs of one app under a database snapshot.
  function SpecsOf(cfg: Config, db: DB, app: App): seq<RouteSpec> {
    DesiredRoutes(cfg, app, DomainsOf(db.domains, app.id), ServicesOf(db, app.id))
  }

  // byName: with unique names, the service of that name.
  function FindService(services: seq<Service>, name: string): (r: Option<Service>)
    ensures r.Some? ==> r.value in services && r.value.name == name
    ensures r.None? ==> forall s :: s in services ==> s.name != name
  {
    if services == [] then None
    else
      var later := FindService(services[1..], name);
      if later.Some? then later else if services[0].name == name then Some(services[0]) else None
  }

  // applyApp's routability test: a container, a port, not private, and a working
  // guard when one is required.
  predicate Routable(cfg: Config, svc: Option<Service>) {
    && svc.Some? && svc.value.Deployed() && svc.value.internalPort.Some? && !svc.value.isPrivate
    && (svc.value.requiresAuth ==> cfg.guardEnabled)
  }

  // The route applyApp installs for a spec; None means the id is removed.
  function Select(cfg: Config, app: App, services: seq<Service>, spec: RouteSpec): Option<Route> {
    if app.maintenanceActive then Some(MaintenanceRoute(spec.id, spec.hostname, app.maintenancePage))
    else if spec.redirectTo != "" then Some(RedirectRoute(spec.id, spec.hostname, spec.redirectTo))
    else if app.suspended then Some(WakeRoute(cfg, spec.id, spec.hostname))
    else
      var svc := FindService(services, spec.service);
      if Routable(cfg, svc) then Some(ServiceRoute(cfg, spec.id, spec.hostname, svc.value, app.slug, app.rateLimitRPM))
      else None
  }

  // ---- Which ids belong to whom ----

  ghost predicate OwnsID(cfg: Config, db: DB, app: App, id: string) {
    exists spec :: spec in SpecsOf(cfg, db, app) && spec.id == id
  }

  lemma FindServiceUnique(services: seq<Service>, svc: Service)
    requires ValidServices(services) && svc in services
    ensures FindService(services, svc.name) == Some(svc)
  {
    var found := FindService(services, svc.name);
    var i :| 0 <= i < |services| && services[i] == svc;
    var j :| 0 <= j < |services| && services[j] == found.value;
    assert i == j;
  }

  // A spec comes from an assigned domain row of the app or from one of its public
  // HTTP services.
  lemma SpecOrigin(cfg: Config, db: DB, app: App, spec: RouteSpec) returns (d: Option<Domain>, svc: Option<Service>)
    requires spec in SpecsOf(cfg, db, app)
    ensures d.Some? || svc.Some?
    ensures d.Some? ==> d.value in db.domains && d.value.appID == app.id && d.value.Assigned() && spec == DomainSpec(d.value)
    ensures svc.Some? ==>
      && svc.value in ServicesOf(db, app.id) && svc.value.internalPort.Some? && !svc.value.isPrivate
      && spec.id == AutoRouteID(app.id, svc.value.name) && spec.service == svc.value.name && spec.redirectTo == ""
      && cfg.baseDomain != ""
  {
    var doms := DomainSpecs(DomainsOf(db.domains, app.id));
    if spec in doms {
      var dom :| dom in DomainsOf(db.domains, app.id) && dom.Assigned() && spec == DomainSpec(dom);
      return Some(dom), None;
    }
    var hosts := AutoHosts(cfg, app, ServicesOf(db, app.id));
    var autos := AutoSpecs(app.id, hosts);
    var i :| 0 <= i < |autos| && autos[i] == spec;
    assert hosts[i].service == HTTPServices(ServicesOf(db, app.id))[i];
    assert hosts[i].service in HTTPServices(ServicesOf(db, app.id));
    return None, Some(hosts[i].service);
  }

  // Every spec id is in the managed name space and apart from the control route.
  lemma SpecIDManaged(cfg: Config, db: DB, app: App, spec: RouteSpec)
    requires spec in SpecsOf(cfg, db, app)
    ensures IsManagedRouteID(spec.id) && spec.id != CONTROL_ROUTE_ID
  {
    var d, svc := SpecOrigin(cfg, db, app, spec);
    RouteIDKindsDisjoint(if d.Some? then d.value.id else "", app.id, if svc.Some? then svc.value.name else "");
  }

  // A route id names one app.
  lemma OwnersUnique(cfg: Config, db: DB, app1: App, app2: App, id: string)
    requires ValidDB(db) && app1 in db.apps && app2 in db.apps
    requires OwnsID(cfg, db, app1, id) && OwnsID(cfg, db, app2, id)
    ensures app1 == app2
  {
    var s1 :| s1 in SpecsOf(cfg, db, app1) && s1.id == id;
    var s2 :| s2 in SpecsOf(cfg, db, app2) && s2.id == id;
    SameIDSameApp(cfg, db, app1, app2, s1, s2);
  }

  lemma SameIDSameApp(cfg: Config, db: DB, app1: App, app2: App, s1: RouteSpec, s2: RouteSpec)
    requires ValidDB(db) && app1 in db.apps && app2 in db.apps
    requires s1 in SpecsOf(cfg, db, app1) && s2 in SpecsOf(cfg, db, app2) && s1.id == s2.id
    ensures app1 == app2
  {
    var d1, svc1 := SpecOrigin(cfg, db, app1, s1);
    var d2, svc2 := SpecOrigin(cfg, db, app2, s2);
    if d1.Some? && d2.Some? {
      RouteIDInjective(d1.value.id, d2.value.id);
      assert d1.value == d2.value;
    } else if d1.None? && d2.None? {
      AutoRouteIDInjective(app1.id, svc1.value.name, app2.id, svc2.value.name);
    } else if d1.Some? {
      RouteIDKindsDisjoint(d1.value.id, app2.id, svc2.value.name);
    } else {
      RouteIDKindsDisjoint(d2.value.id, app1.id, svc1.value.name);
    }
  }

  // ---- The specs of one app have pairwise different ids ----

  predicate DistinctSpecIDs(specs: seq<RouteSpec>) {
    forall i, j :: 0 <= i < j < |specs| ==> specs[i].id != specs[j].id
  }

  lemma {:induction false} DomainsOfDistinct(domains: seq<Domain>, appID: string)
    requires forall i, j :: 0 <= i < j < |domains| ==> domains[i].id != domains[j].id
    ensures forall i, j :: 0 <= i < j < |DomainsOf(domains, appID)| ==>
      DomainsOf(domains, appID)[i].id != DomainsOf(domains, appID)[j].id
  {
    if domains != [] {
      DomainsOfDistinct(domains[1..], appID);
      var rest := DomainsOf(domains[1..], appID);
      forall j | 0 <= j < |rest|
        ensures rest[j].id != domains[0].id
      {
        assert rest[j] in domains[1..];
      }
    }
  }

  lemma {:induction false} DomainSpecsDistinct(domains: seq<Domain>)
    requires forall i, j :: 0 <= i < j < |domains| ==> domains[i].id != domains[j].id
    ensures DistinctSpecIDs(DomainSpecs(domains))
  {
    if domains != [] {
      DomainSpecsDistinct(domains[1..]);
      var rest := DomainSpecs(domains[1..]);
      forall j | 0 <= j < |rest|
        ensures rest[j].id != RouteID(domains[0].id)
      {
        assert rest[j] in rest;
        var d :| d in domains[1..] && d.Assigned() && rest[j] == DomainSpec(d);
        if RouteID(d.id) == RouteID(domains[0].id) {
          RouteIDInjective(d.id, domains[0].id);
          assert false;
        }
      }
    }
  }

  lemma {:induction false} HTTPServicesDistinct(services: seq<Service>)
    requires ValidServices(services)
    ensures ValidServices(HTTPServices(services))
  {
    if services != [] {
      assert forall s :: s in services[1..] ==> s in services;
      HTTPServicesDistinct(services[1..]);
      var rest := HTTPServices(services[1..]);
      forall j | 0 <= j < |rest|
        ensures rest[j].name != services[0].name
      {
        assert rest[j] in services[1..];
      }
    }
  }

  lemma AutoSpecsDistinct(cfg: Config, app: App, services: seq<Service>)
    requires ValidServices(services)
    ensures DistinctSpecIDs(AutoSpecs(app.id, AutoHosts(cfg, app, services)))
  {
    HTTPServicesDistinct(services);
    var http := HTTPServices(services);
    var specs := AutoSpecs(app.id, AutoHosts(cfg, app, services));
    forall i, j | 0 <= i < j < |specs|
      ensures specs[i].id != specs[j].id
    {
      if specs[i].id == specs[j].id {
        AutoRouteIDInjective(app.id, http[i].name, app.id, http[j].name);
        assert false;
      }
    }
  }

  lemma SpecsDistinct(cfg: Config, db: DB, app: App)
    requires ValidDB(db)
    ensures DistinctSpecIDs(SpecsOf(cfg, db, app))
  {
    var services := ServicesOf(db, app.id);
    var domains := DomainsOf(db.domains, app.id);
    DomainsOfDistinct(db.domains, app.id);
    DomainSpecsDistinct(domains);
    AutoSpecsDistinct(cfg, app, services);
    var ds, autos := DomainSpecs(domains), AutoSpecs(app.id, AutoHosts(cfg, app, services));
    forall i, j | 0 <= i < |ds| && 0 <= j < |autos|
      ensures ds[i].id != autos[j].id
    {
      assert ds[i] in ds;
      var d :| d in domains && d.Assigned() && ds[i] == DomainSpec(d);
      RouteIDKindsDisjoint(d.id, app.id, AutoHosts(cfg, app, services)[j].service.name);
    }
  }
}
