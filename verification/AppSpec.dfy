// The portable app format (appspec/appspec.go, appspec/convert.go): export to a spec,
// validation, and import back to store rows. JSON and YAML are left out: a build config
// is the record it encodes, None where the stored JSON does not parse.
module AppSpec {
  import opened Text
  import opened Names
  import opened Ordering

  // ---- Store rows ----

  datatype BuildConfig = BuildConfig(
    composePath: string, dockerfilePath: string,
    framework: string, buildCommand: string, startCommand: string, port: int,
    staticDir: string, spaFallback: bool, image: string, allowUnsafe: bool)

  const ZERO_CONFIG := BuildConfig("", "", "", "", "", 0, "", false, "", false)

  datatype AppRow = AppRow(
    name: string, slug: string, source: string, gitURL: string, gitBranch: string, templateID: Option<string>,
    composeFile: string, buildKind: string, buildConfig: Option<BuildConfig>, memLimit: Option<int>)

  datatype ServiceRow = ServiceRow(name: string, port: Option<int>, healthPath: Option<string>, isPrivate: bool, requiresAuth: bool)
  datatype DomainRow = DomainRow(hostname: string, service: string, typ: string, redirectTo: string)
  datatype Trigger = Trigger(event: string, filter: string)
  datatype EnvVar = EnvVar(key: string, value: string, sensitive: bool)

  // One app's rows: what FromApp takes, and what ToApp's result is stored as.
  datatype Rows = Rows(app: AppRow, services: seq<ServiceRow>, domains: seq<DomainRow>, triggers: seq<Trigger>, env: seq<EnvVar>)

  // ---- The spec ----

  datatype Source = Source(typ: string, url: string, branch: string, templateID: string)
  datatype Framework = Framework(framework: string, buildCommand: string, startCommand: string, port: int)
  datatype Static = Static(dir: string, spaFallback: bool)
  datatype Build = Build(kind: string, composePath: string, allowUnsafe: bool,
                         dockerfile: Option<string>, framework: Option<Framework>, static_: Option<Static>)
  datatype Service = Service(name: string, port: Option<int>, healthPath: string, isPrivate: bool, requiresAuth: bool)
  datatype Domain = Domain(hostname: string, service: string, typ: string, redirectTo: string)
  datatype Spec = Spec(apiVersion: string, kind: string, name: string, slug: string, source: Source, build: Build,
                       memLimit: Option<int>, services: seq<Service>, domains: seq<Domain>, triggers: seq<Trigger>, env: seq<EnvVar>)

  const API_VERSION := "vac/v1"
  const KIND := "App"
  const GIT := "git"
  const TEMPLATE := "template"
  const CUSTOM := "custom"
  const DEFAULT_BRANCH := "main"
  const DEFAULT_COMPOSE_FILE := "compose.yaml"

  // ---- Export ----

  function OrElse(s: string, fallback: string): string { if s == "" then fallback else s }

  function Deref(s: Option<string>): string { if s.Some? then s.value else "" }

  function NilIfEmpty(s: string): Option<string> { if s == "" then None else Some(s) }

  // buildFromApp.
  function ExportBuild(a: AppRow): Build {
    var cfg := if a.buildConfig.Some? then a.buildConfig.value else ZERO_CONFIG;
    Build(a.buildKind, OrElse(cfg.composePath, a.composeFile), cfg.allowUnsafe,
          if a.buildKind == "dockerfile" then NilIfEmpty(cfg.dockerfilePath) else None,
          if a.buildKind == "framework" then Some(Framework(cfg.framework, cfg.buildCommand, cfg.startCommand, cfg.port)) else None,
          if a.buildKind == "static" && (cfg.staticDir != "" || cfg.spaFallback) then Some(Static(cfg.staticDir, cfg.spaFallback))
          else None)
  }

  function ExportSource(a: AppRow): Source {
    if a.source == TEMPLATE then Source(TEMPLATE, "", "", Deref(a.templateID))
    else Source(OrElse(a.source, GIT), a.gitURL, a.gitBranch, "")
  }

  function ExportService(s: ServiceRow): Service { Service(s.name, s.port, Deref(s.healthPath), s.isPrivate, s.requiresAuth) }

  function ExportDomain(d: DomainRow): Domain { Domain(d.hostname, d.service, OrElse(d.typ, CUSTOM), d.redirectTo) }

  function ExportServices(services: seq<ServiceRow>): (r: seq<Service>)
    ensures |r| == |services| && forall i {:trigger r[i]} :: 0 <= i < |r| ==> r[i] == ExportService(services[i])
  {
    seq(|services|, i requires 0 <= i < |services| => ExportService(services[i]))
  }

  function ExportDomains(domains: seq<DomainRow>): (r: seq<Domain>)
    ensures |r| == |domains| && forall i {:trigger r[i]} :: 0 <= i < |r| ==> r[i] == ExportDomain(domains[i])
  {
    seq(|domains|, i requires 0 <= i < |domains| => ExportDomain(domains[i]))
  }

  predicate ServiceLe(a: Service, b: Service) { Le(a.name, b.name) }
  predicate DomainLe(a: Domain, b: Domain) { Le(a.hostname, b.hostname) }
  predicate EnvLe(a: EnvVar, b: EnvVar) { Le(a.key, b.key) }

  function Export(rows: Rows): Spec {
    Spec(API_VERSION, KIND, rows.app.name, rows.app.slug, ExportSource(rows.app), ExportBuild(rows.app), rows.app.memLimit,
         Sort(ExportServices(rows.services), ServiceLe), Sort(ExportDomains(rows.domains), DomainLe), rows.triggers,
         Sort(rows.env, EnvLe))
  }

  // FromApp.
  method FromApp(rows: Rows) returns (spec: Spec)
    ensures spec == Export(rows)
  {
    var services := ServicesOut(rows.services);
    var domains := DomainsOut(rows.domains);
    var triggers := CopyTriggers(rows.triggers);
    spec := Spec(API_VERSION, KIND, rows.app.name, rows.app.slug, ExportSource(rows.app), ExportBuild(rows.app), rows.app.memLimit,
                 Sort(services, ServiceLe), Sort(domains, DomainLe), triggers, Sort(rows.env, EnvLe));
  }

  // The loops of FromApp.
  method ServicesOut(rows: seq<ServiceRow>) returns (services: seq<Service>)
    ensures services == ExportServices(rows)
  {
    services := [];
    for i := 0 to |rows|
      invariant services == ExportServices(rows)[..i]
    {
      services := services + [Service(rows[i].name, rows[i].port, Deref(rows[i].healthPath), rows[i].isPrivate, rows[i].requiresAuth)];
    }
  }

  method DomainsOut(rows: seq<DomainRow>) returns (domains: seq<Domain>)
    ensures domains == ExportDomains(rows)
  {
    domains := [];
    for i := 0 to |rows|
      invariant domains == ExportDomains(rows)[..i]
    {
      var typ := rows[i].typ;
      if typ == "" {
        typ := CUSTOM;
      }
      domains := domains + [Domain(rows[i].hostname, rows[i].service, typ, rows[i].redirectTo)];
    }
  }

  method CopyTriggers(from: seq<Trigger>) returns (triggers: seq<Trigger>)
    ensures triggers == from
  {
    triggers := [];
    for i := 0 to |from|
      invariant triggers == from[..i]
    {
      triggers := triggers + [Trigger(from[i].event, from[i].filter)];
    }
  }

  // ---- Validation ----

  function TrimDot(h: string): string { if h != [] && h[|h| - 1] == '.' then h[..|h| - 1] else h }

  predicate Forbidden(c: char) {
    c == ' ' || c == '\t' || c == '\n' || c == '\r' || c == '*' || c == '/' || c == ':' || c == '?' || c == '#' || c == '@'
  }

  predicate HostText(h: string) { h != "" && '.' in h && ByteLen(h) <= 253 && forall c :: c in h ==> !Forbidden(c) }

  function Folded(raw: string): string { TrimDot(ToLower(TrimSpace(raw))) }

  // normalizeHostname; None where it reports an error.
  function NormalizeHostname(raw: string): Option<string> { if HostText(Folded(raw)) then Some(Folded(raw)) else None }

  // RE2's \S, on ASCII white space.
  predicate Blank(c: char) { c == '\t' || c == '\n' || c == 12 as char || c == '\r' || c == ' ' }

  predicate NoBlank(s: string) { forall i :: 0 <= i < |s| ==> !Blank(s[i]) }

  predicate GitURL(u: string) {
    NoBlank(u) &&
    ((HasPrefix(u, "http://") && |u| > 7) || (HasPrefix(u, "https://") && |u| > 8)
     || (HasPrefix(u, "git@") && exists i :: 4 < i < |u| - 1 && u[i] == ':' && ':' !in u[4..i])
     || (HasPrefix(u, "ssh://git@") && exists i :: 10 < i < |u| - 1 && u[i] == '/'))
  }

  predicate RefChar(c: char) { 'A' <= c <= 'Z' || 'a' <= c <= 'z' || '0' <= c <= '9' || c == '.' || c == '_' || c == '/' }

  predicate GitRef(s: string) { s != "" && RefChar(s[0]) && forall i :: 0 <= i < |s| ==> RefChar(s[i]) || s[i] == '-' }

  predicate EnvChar(c: char) { 'A' <= c <= 'Z' || 'a' <= c <= 'z' || c == '_' }

  predicate EnvKey(k: string) { k != "" && EnvChar(k[0]) && forall i :: 0 <= i < |k| ==> EnvChar(k[i]) || IsDigit(k[i]) }

  predicate ValidSource(s: Source) {
    if s.typ == GIT then GitURL(TrimSpace(s.url)) && (TrimSpace(s.branch) == "" || GitRef(TrimSpace(s.branch)))
    else s.typ == TEMPLATE && TrimSpace(s.templateID) != ""
  }

  predicate KnownKind(kind: string) {
    kind == "auto" || kind == "compose" || kind == "dockerfile" || kind == "framework" || kind == "static"
  }

  // toBuildConfig: the compose path stays out of it.
  function ImportBuild(b: Build): BuildConfig {
    BuildConfig("", Deref(b.dockerfile),
                if b.framework.Some? then b.framework.value.framework else "",
                if b.framework.Some? then b.framework.value.buildCommand else "",
                if b.framework.Some? then b.framework.value.startCommand else "",
                if b.framework.Some? then b.framework.value.port else 0,
                if b.static_.Some? then b.static_.value.dir else "", b.static_.Some? && b.static_.value.spaFallback, "", b.allowUnsafe)
  }

  // validBuildKind and adapter.Validate.
  predicate ValidBuild(b: Build) {
    KnownKind(b.kind)
    && (b.kind == "framework" ==> TrimSpace(ImportBuild(b).framework) != "" && 0 <= ImportBuild(b).port <= 65535)
  }

  predicate ValidHead(s: Spec) {
    && s.apiVersion == API_VERSION && s.kind == KIND && TrimSpace(s.name) != ""
    && (TrimSpace(s.slug) == "" || (|TrimSpace(s.slug)| <= MAX_SLUG_LEN && IsSlug(TrimSpace(s.slug))))
    && ValidSource(s.source) && ValidBuild(s.build)
  }

  function ServiceName(s: Service): string { s.name }
  function EnvName(e: EnvVar): string { e.key }

  // The name a domain is known by once normalised.
  function HostOf(d: Domain): string { Deref(NormalizeHostname(d.hostname)) }

  predicate Declared(services: seq<Service>, name: string) { exists i :: 0 <= i < |services| && services[i].name == name }

  predicate ValidService(s: Service) { TrimSpace(s.name) != "" }

  predicate ValidDomain(services: seq<Service>, d: Domain) {
    && NormalizeHostname(d.hostname).Some?
    && (d.service == "" || Declared(services, d.service))
    && (d.redirectTo != "" ==>
          NormalizeHostname(d.redirectTo).Some? && NormalizeHostname(d.redirectTo) != NormalizeHostname(d.hostname))
  }

  predicate ValidTrigger(t: Trigger) { t.event == "push" || t.event == "tag" || t.event == "manual" }

  predicate ValidEnv(e: EnvVar) { EnvKey(e.key) && '\n' !in e.value && '\r' !in e.value && '\0' !in e.value }

  predicate ValidServices(services: seq<Service>) {
    && DistinctBy(services, ServiceName)
    && forall i {:trigger ValidService(services[i])} :: 0 <= i < |services| ==> ValidService(services[i])
  }

  predicate ValidDomains(services: seq<Service>, domains: seq<Domain>) {
    DomainsFit(services, domains) && DistinctBy(domains, HostOf)
  }

  predicate DomainsFit(services: seq<Service>, domains: seq<Domain>) {
    forall i {:trigger ValidDomain(services, domains[i])} :: 0 <= i < |domains| ==> ValidDomain(services, domains[i])
  }

  predicate ValidTriggers(triggers: seq<Trigger>) { forall i :: 0 <= i < |triggers| ==> ValidTrigger(triggers[i]) }

  predicate ValidEnvs(env: seq<EnvVar>) { DistinctBy(env, EnvName) && forall i :: 0 <= i < |env| ==> ValidEnv(env[i]) }

  // What a spec must satisfy to be importable.
  predicate Valid(s: Spec) {
    ValidHead(s) && ValidServices(s.services) && ValidDomains(s.services, s.domains) && ValidTriggers(s.triggers) && ValidEnvs(s.env)
  }

  // ---- Import ----

  function ImportService(s: Service): ServiceRow { ServiceRow(s.name, s.port, NilIfEmpty(s.healthPath), s.isPrivate, s.requiresAuth) }

  function ImportDomain(d: Domain): DomainRow {
    DomainRow(HostOf(d), d.service, OrElse(d.typ, CUSTOM), if d.redirectTo == "" then "" else Deref(NormalizeHostname(d.redirectTo)))
  }

  function ImportServices(services: seq<Service>): (r: seq<ServiceRow>)
    ensures |r| == |services| && forall i {:trigger r[i]} :: 0 <= i < |r| ==> r[i] == ImportService(services[i])
  {
    seq(|services|, i requires 0 <= i < |services| => ImportService(services[i]))
  }

  function ImportDomains(domains: seq<Domain>): (r: seq<DomainRow>)
    ensures |r| == |domains| && forall i {:trigger r[i]} :: 0 <= i < |r| ==> r[i] == ImportDomain(domains[i])
  {
    seq(|domains|, i requires 0 <= i < |domains| => ImportDomain(domains[i]))
  }

  function ImportSlug(s: Spec): string {
    if TrimSpace(s.slug) == "" then SlugOf(s.name) else TrimSpace(s.slug)
  }

  function ImportApp(s: Spec): AppRow {
    AppRow(s.name, ImportSlug(s), s.source.typ,
           if s.source.typ == TEMPLATE then "" else s.source.url,
           if s.source.typ == TEMPLATE then "" else OrElse(TrimSpace(s.source.branch), DEFAULT_BRANCH),
           if s.source.typ == TEMPLATE then Some(s.source.templateID) else None,
           OrElse(TrimSpace(s.build.composePath), DEFAULT_COMPOSE_FILE), s.build.kind, Some(ImportBuild(s.build)), s.memLimit)
  }

  function Import(s: Spec): Rows {
    Rows(ImportApp(s), ImportServices(s.services), ImportDomains(s.domains), s.triggers, s.env)
  }

  // Spec.Validate, collection by collection.
  method Validate(s: Spec) returns (ok: bool)
    ensures ok <==> Valid(s)
  {
    ok := ValidHead(s);
    if ok {
      ok := CheckServices(s.services);
    }
    if ok {
      ok := CheckDomains(s.services, s.domains);
    }
    if ok {
      ok := CheckTriggers(s.triggers);
    }
    if ok {
      ok := CheckEnv(s.env);
    }
  }

  method CheckServices(services: seq<Service>) returns (ok: bool)
    ensures ok <==> ValidServices(services)
  {
    for i := 0 to |services|
      invariant forall j {:trigger ValidService(services[j])} :: 0 <= j < i ==> ValidService(services[j])
    {
      if TrimSpace(services[i].name) == "" {
        assert !ValidService(services[i]);
        return false;
      }
    }
    ok := AllDistinct(services, ServiceName);
  }

  method CheckDomains(services: seq<Service>, domains: seq<Domain>) returns (ok: bool)
    ensures ok <==> ValidDomains(services, domains)
  {
    ok := CheckEachDomain(services, domains);
    if ok {
      ok := AllDistinct(domains, HostOf);
    }
  }

  method CheckEachDomain(services: seq<Service>, domains: seq<Domain>) returns (ok: bool)
    ensures ok <==> DomainsFit(services, domains)
  {
    for i := 0 to |domains|
      invariant DomainsFit(services, domains[..i])
    {
      var fits := CheckDomain(services, domains[i]);
      FitsOneMore(services, domains, i);
      if !fits {
        return false;
      }
    }
    assert domains[..|domains|] == domains;
    ok := true;
  }

  lemma FitsLast(services: seq<Service>, front: seq<Domain>, d: Domain)
    ensures DomainsFit(services, front + [d]) <==> DomainsFit(services, front) && ValidDomain(services, d)
  {
    var all := front + [d];
    assert all[|front|] == d;
    if DomainsFit(services, all) {
      forall k | 0 <= k < |front| ensures ValidDomain(services, front[k]) {
        assert all[k] == front[k];
      }
    }
  }

  lemma FitsOneMore(services: seq<Service>, domains: seq<Domain>, i: nat)
    requires i < |domains| && DomainsFit(services, domains[..i])
    ensures DomainsFit(services, domains[..i + 1]) <==> ValidDomain(services, domains[i])
    ensures DomainsFit(services, domains) ==> ValidDomain(services, domains[i])
  {
    assert domains[..i + 1] == domains[..i] + [domains[i]];
    FitsLast(services, domains[..i], domains[i]);
  }

  method CheckDomain(services: seq<Service>, d: Domain) returns (ok: bool)
    ensures ok <==> ValidDomain(services, d)
  {
    var host := NormalizeHostname(d.hostname);
    if host.None? || !(d.service == "" || Declared(services, d.service)) {
      return false;
    }
    if d.redirectTo != "" {
      var target := NormalizeHostname(d.redirectTo);
      if target.None? || target == host {
        return false;
      }
    }
    ok := true;
  }

  method CheckTriggers(triggers: seq<Trigger>) returns (ok: bool)
    ensures ok <==> ValidTriggers(triggers)
  {
    for i := 0 to |triggers|
      invariant forall j :: 0 <= j < i ==> ValidTrigger(triggers[j])
    {
      if !ValidTrigger(triggers[i]) {
        return false;
      }
    }
    ok := true;
  }

  method CheckEnv(env: seq<EnvVar>) returns (ok: bool)
    ensures ok <==> ValidEnvs(env)
  {
    for i := 0 to |env|
      invariant forall j :: 0 <= j < i ==> ValidEnv(env[j])
    {
      if !ValidEnv(env[i]) {
        return false;
      }
    }
    ok := AllDistinct(env, EnvName);
  }

  // ToApp; None where it reports an error.
  method ToApp(s: Spec) returns (rows: Option<Rows>)
    ensures rows == if Valid(s) then Some(Import(s)) else None
  {
    var ok := Validate(s);
    if !ok {
      return None;
    }
    var services := ServicesIn(s.services);
    var domains := DomainsIn(s.domains);
    var triggers := CopyTriggers(s.triggers);
    rows := Some(Rows(ImportApp(s), services, domains, triggers, s.env));
  }

  // The loops of ToApp.
  method ServicesIn(services: seq<Service>) returns (rows: seq<ServiceRow>)
    ensures rows == ImportServices(services)
  {
    rows := [];
    for i := 0 to |services|
      invariant rows == ImportServices(services)[..i]
    {
      var s := services[i];
      rows := rows + [ServiceRow(s.name, s.port, NilIfEmpty(s.healthPath), s.isPrivate, s.requiresAuth)];
    }
  }

  method DomainsIn(domains: seq<Domain>) returns (rows: seq<DomainRow>)
    ensures rows == ImportDomains(domains)
  {
    rows := [];
    for i := 0 to |domains|
      invariant rows == ImportDomains(domains)[..i]
    {
      rows := rows + [ImportDomain(domains[i])];
    }
  }

  // ---- Order ----

  lemma ServiceLeOrders()
    ensures Total(ServiceLe) && Transitive(ServiceLe)
  {
    forall x: Service, y: Service ensures ServiceLe(x, y) || ServiceLe(y, x) {
      LeTotal(x.name, y.name);
    }
    forall x: Service, y: Service, z: Service | ServiceLe(x, y) && ServiceLe(y, z) ensures ServiceLe(x, z) {
      LeTransitive(x.name, y.name, z.name);
    }
  }

  lemma DomainLeOrders()
    ensures Total(DomainLe) && Transitive(DomainLe)
  {
    forall x: Domain, y: Domain ensures DomainLe(x, y) || DomainLe(y, x) {
      LeTotal(x.hostname, y.hostname);
    }
    forall x: Domain, y: Domain, z: Domain | DomainLe(x, y) && DomainLe(y, z) ensures DomainLe(x, z) {
      LeTransitive(x.hostname, y.hostname, z.hostname);
    }
  }

  lemma EnvLeOrders()
    ensures Total(EnvLe) && Transitive(EnvLe)
  {
    forall x: EnvVar, y: EnvVar ensures EnvLe(x, y) || EnvLe(y, x) {
      LeTotal(x.key, y.key);
    }
    forall x: EnvVar, y: EnvVar, z: EnvVar | EnvLe(x, y) && EnvLe(y, z) ensures EnvLe(x, z) {
      LeTransitive(x.key, y.key, z.key);
    }
  }

  function Hostname(d: Domain): string { d.hostname }

  lemma ServicesSeparate(s: seq<Service>)
    requires DistinctBy(s, ServiceName)
    ensures Separates(s, ServiceLe)
  {
    forall i, j | 0 <= i < |s| && 0 <= j < |s| && ServiceLe(s[i], s[j]) && ServiceLe(s[j], s[i]) ensures s[i] == s[j] {
      LeAntisymmetric(s[i].name, s[j].name);
      DistinctMember(s, ServiceName, s[i], s[j]);
    }
  }

  lemma DomainsSeparate(s: seq<Domain>)
    requires DistinctBy(s, Hostname)
    ensures Separates(s, DomainLe)
  {
    forall i, j | 0 <= i < |s| && 0 <= j < |s| && DomainLe(s[i], s[j]) && DomainLe(s[j], s[i]) ensures s[i] == s[j] {
      LeAntisymmetric(s[i].hostname, s[j].hostname);
      DistinctMember(s, Hostname, s[i], s[j]);
    }
  }

  lemma EnvSeparate(s: seq<EnvVar>)
    requires DistinctBy(s, EnvName)
    ensures Separates(s, EnvLe)
  {
    forall i, j | 0 <= i < |s| && 0 <= j < |s| && EnvLe(s[i], s[j]) && EnvLe(s[j], s[i]) ensures s[i] == s[j] {
      LeAntisymmetric(s[i].key, s[j].key);
      DistinctMember(s, EnvName, s[i], s[j]);
    }
  }

  lemma SortServices(a: seq<Service>, b: seq<Service>)
    requires multiset(a) == multiset(b) && DistinctBy(a, ServiceName)
    ensures Sort(a, ServiceLe) == Sort(b, ServiceLe)
  {
    ServiceLeOrders();
    SortMultiset(a, ServiceLe);
    PermutedDistinct(a, Sort(a, ServiceLe), ServiceName);
    ServicesSeparate(Sort(a, ServiceLe));
    SortForgets(a, b, ServiceLe);
  }

  lemma SortDomains(a: seq<Domain>, b: seq<Domain>)
    requires multiset(a) == multiset(b) && DistinctBy(a, Hostname)
    ensures Sort(a, DomainLe) == Sort(b, DomainLe)
  {
    DomainLeOrders();
    SortMultiset(a, DomainLe);
    PermutedDistinct(a, Sort(a, DomainLe), Hostname);
    DomainsSeparate(Sort(a, DomainLe));
    SortForgets(a, b, DomainLe);
  }

  lemma SortEnv(a: seq<EnvVar>, b: seq<EnvVar>)
    requires multiset(a) == multiset(b) && DistinctBy(a, EnvName)
    ensures Sort(a, EnvLe) == Sort(b, EnvLe)
  {
    EnvLeOrders();
    SortMultiset(a, EnvLe);
    PermutedDistinct(a, Sort(a, EnvLe), EnvName);
    EnvSeparate(Sort(a, EnvLe));
    SortForgets(a, b, EnvLe);
  }

  // ---- Host names ----

  // A normalised name that normalising again leaves alone.
  predicate Settled(h: string) { h != "" ==> h[|h| - 1] != '.' && !IsSpace(h[|h| - 1]) }

  lemma FoldedShape(raw: string)
    requires NormalizeHostname(raw).Some?
    ensures var h := NormalizeHostname(raw).value;
      h != "" && HostText(h) && ToLower(h) == h && !IsSpace(h[0])
  {
    var t := TrimSpace(raw);
    var h := NormalizeHostname(raw).value;
    TrimSpaceTrims(raw);
    assert h[0] == LowerChar(t[0]);
    assert ToLower(h) == h by {
      assert forall i :: 0 <= i < |h| ==> h[i] == ToLower(t)[i];
    }
  }

  // normalizeHostname strips one trailing dot only, so it is idempotent on a name
  // exactly when its result ends in neither a dot nor white space.
  lemma NormalizeTwiceIff(raw: string)
    requires NormalizeHostname(raw).Some?
    ensures var h := NormalizeHostname(raw).value; NormalizeHostname(h) == Some(h) <==> Settled(h)
  {
    var h := NormalizeHostname(raw).value;
    FoldedShape(raw);
    if Trimmed(h) {
      TrimSpaceKeeps(h);
    } else {
      TrimSpaceShortens(h);
    }
  }

  lemma NormalizeShortens(raw: string)
    requires NormalizeHostname(raw).Some?
    ensures |NormalizeHostname(raw).value| <= |raw|
  {
    TrimSpaceTrims(raw);
  }

  lemma TwoDotsUnsettled()
    ensures NormalizeHostname("a.b..") == Some("a.b.") && NormalizeHostname("a.b.") == Some("a.b")
  {
    TrimSpaceKeeps("a.b..");
    TrimSpaceKeeps("a.b.");
    assert ToLower("a.b..") == "a.b.." && ToLower("a.b.") == "a.b.";
    assert "a.b.."[..4] == "a.b." && "a.b."[..3] == "a.b";
    assert "a.b."[1] == '.' && "a.b"[1] == '.';
    ByteLenBounds("a.b.");
    ByteLenBounds("a.b");
  }

  // ---- Order independence ----

  lemma ServicesAreMap(services: seq<ServiceRow>)
    ensures ExportServices(services) == Map(ExportService, services)
  {
  }

  lemma DomainsAreMap(domains: seq<DomainRow>)
    ensures ExportDomains(domains) == Map(ExportDomain, domains)
  {
  }

  function RowName(s: ServiceRow): string { s.name }
  function RowHost(d: DomainRow): string { d.hostname }

  // Unique keys within the app, as the store's constraints have it.
  predicate UniqueKeys(rows: Rows) {
    DistinctBy(rows.services, RowName) && DistinctBy(rows.domains, RowHost) && DistinctBy(rows.env, EnvName)
  }

  // The same rows, read in some other order; triggers keep theirs.
  predicate Rearranged(a: Rows, b: Rows) {
    && a.app == b.app && a.triggers == b.triggers && multiset(a.services) == multiset(b.services)
    && multiset(a.domains) == multiset(b.domains) && multiset(a.env) == multiset(b.env)
  }

  // Exporting an app twice gives the same spec, in whatever order the store lists rows.
  lemma ExportForgetsOrder(a: Rows, b: Rows)
    requires UniqueKeys(a) && Rearranged(a, b)
    ensures Export(a) == Export(b)
  {
    ServicesAreMap(a.services);
    ServicesAreMap(b.services);
    MapMultiset(ExportService, a.services, b.services);
    assert DistinctBy(ExportServices(a.services), ServiceName) by {
      assert forall i :: 0 <= i < |a.services| ==> ServiceName(ExportServices(a.services)[i]) == RowName(a.services[i]);
    }
    SortServices(ExportServices(a.services), ExportServices(b.services));
    DomainsAreMap(a.domains);
    DomainsAreMap(b.domains);
    MapMultiset(ExportDomain, a.domains, b.domains);
    assert DistinctBy(ExportDomains(a.domains), Hostname) by {
      assert forall i :: 0 <= i < |a.domains| ==> Hostname(ExportDomains(a.domains)[i]) == RowHost(a.domains[i]);
    }
    SortDomains(ExportDomains(a.domains), ExportDomains(b.domains));
    SortEnv(a.env, b.env);
  }

  // ---- Export then import ----

  // The stored build config with the compose override folded into the column.
  function FoldedApp(a: AppRow): AppRow
    requires a.buildConfig.Some?
  {
    a.(source := OrElse(a.source, GIT),
       composeFile := OrElse(a.buildConfig.value.composePath, a.composeFile),
       buildConfig := Some(a.buildConfig.value.(composePath := "")))
  }

  // Only the fields that are exported for the build kind are used.
  predicate ExportableConfig(kind: string, c: BuildConfig) {
    && c.image == ""
    && (kind != "dockerfile" ==> c.dockerfilePath == "")
    && (kind != "framework" ==> c.framework == "" && c.buildCommand == "" && c.startCommand == "" && c.port == 0)
    && (kind != "static" ==> c.staticDir == "" && !c.spaFallback)
  }

  predicate PortableSource(a: AppRow) {
    if a.source == TEMPLATE then
      a.templateID.Some? && TrimSpace(a.templateID.value) != "" && a.gitURL == "" && a.gitBranch == ""
    else
      && (a.source == GIT || a.source == "") && a.templateID == None
      && GitURL(TrimSpace(a.gitURL)) && Trimmed(a.gitBranch) && GitRef(a.gitBranch)
  }

  predicate PortableBuild(a: AppRow) {
    && KnownKind(a.buildKind) && a.buildConfig.Some? && ExportableConfig(a.buildKind, a.buildConfig.value)
    && OrElse(a.buildConfig.value.composePath, a.composeFile) != ""
    && Trimmed(OrElse(a.buildConfig.value.composePath, a.composeFile))
    && (a.buildKind == "framework" ==> TrimSpace(a.buildConfig.value.framework) != "" && 0 <= a.buildConfig.value.port <= 65535)
  }

  predicate PortableApp(a: AppRow) {
    && TrimSpace(a.name) != "" && Trimmed(a.slug) && IsSlug(a.slug) && |a.slug| <= MAX_SLUG_LEN
    && PortableSource(a) && PortableBuild(a)
  }

  predicate PortableService(s: ServiceRow) { TrimSpace(s.name) != "" && s.healthPath != Some("") }

  predicate DeclaredRow(services: seq<ServiceRow>, name: string) { exists i :: 0 <= i < |services| && services[i].name == name }

  predicate PortableDomain(services: seq<ServiceRow>, d: DomainRow) {
    && NormalizeHostname(d.hostname) == Some(d.hostname) && d.typ != ""
    && (d.service == "" || DeclaredRow(services, d.service))
    && (d.redirectTo == "" || (NormalizeHostname(d.redirectTo) == Some(d.redirectTo) && d.redirectTo != d.hostname))
  }

  // Rows as the create and domain handlers leave them.
  predicate Portable(rows: Rows) {
    && PortableApp(rows.app) && UniqueKeys(rows)
    && (forall i {:trigger rows.services[i]} :: 0 <= i < |rows.services| ==> PortableService(rows.services[i]))
    && (forall i {:trigger rows.domains[i]} :: 0 <= i < |rows.domains| ==> PortableDomain(rows.services, rows.domains[i]))
    && ValidTriggers(rows.triggers) && ValidEnvs(rows.env)
  }

  lemma AppRoundTrip(a: AppRow, s: Spec)
    requires PortableApp(a)
    requires s.apiVersion == API_VERSION && s.kind == KIND && s.name == a.name && s.slug == a.slug
    requires s.source == ExportSource(a) && s.build == ExportBuild(a) && s.memLimit == a.memLimit
    ensures ValidHead(s) && ImportApp(s) == FoldedApp(a)
  {
    TrimSpaceKeeps(a.slug);
    SourceRoundTrip(a);
    BuildRoundTrip(a);
  }

  lemma SourceRoundTrip(a: AppRow)
    requires PortableSource(a)
    ensures ValidSource(ExportSource(a))
    ensures a.source != TEMPLATE ==> OrElse(TrimSpace(ExportSource(a).branch), DEFAULT_BRANCH) == a.gitBranch
  {
    if a.source != TEMPLATE {
      TrimSpaceKeeps(a.gitBranch);
    }
  }

  lemma BuildRoundTrip(a: AppRow)
    requires PortableBuild(a)
    ensures ValidBuild(ExportBuild(a))
    ensures ImportBuild(ExportBuild(a)) == a.buildConfig.value.(composePath := "")
    ensures OrElse(TrimSpace(ExportBuild(a).composePath), DEFAULT_COMPOSE_FILE) == OrElse(a.buildConfig.value.composePath, a.composeFile)
  {
    TrimSpaceKeeps(OrElse(a.buildConfig.value.composePath, a.composeFile));
  }

  lemma ImportServicesAreMap(services: seq<Service>)
    ensures ImportServices(services) == Map(ImportService, services)
  {
  }

  lemma ImportDomainsAreMap(domains: seq<Domain>)
    ensures ImportDomains(domains) == Map(ImportDomain, domains)
  {
  }

  lemma ServicesRoundTrip(services: seq<ServiceRow>)
    requires DistinctBy(services, RowName)
    requires forall i {:trigger services[i]} :: 0 <= i < |services| ==> PortableService(services[i])
    ensures var out := Sort(ExportServices(services), ServiceLe);
      && ValidServices(out) && multiset(ImportServices(out)) == multiset(services)
      && forall n: string :: Declared(out, n) <==> DeclaredRow(services, n)
  {
    var exported := ExportServices(services);
    var out := Sort(exported, ServiceLe);
    SortMultiset(exported, ServiceLe);
    SameMembers(exported, out);
    ExportedServicesValid(services);
    PermutedDistinct(exported, out, ServiceName);
    forall i | 0 <= i < |out| ensures ValidService(out[i]) {
      assert out[i] in exported;
    }
    ImportServicesAreMap(out);
    ImportServicesAreMap(exported);
    MapMultiset(ImportService, out, exported);
    forall n: string ensures Declared(out, n) <==> DeclaredRow(services, n) {
      DeclaredAlike(services, exported, out, n);
    }
  }

  lemma ExportedServicesValid(services: seq<ServiceRow>)
    requires DistinctBy(services, RowName)
    requires forall i {:trigger services[i]} :: 0 <= i < |services| ==> PortableService(services[i])
    ensures ValidServices(ExportServices(services)) && ImportServices(ExportServices(services)) == services
  {
    var exported := ExportServices(services);
    assert forall i :: 0 <= i < |services| ==> ServiceName(exported[i]) == RowName(services[i]);
  }

  lemma DeclaredAlike(services: seq<ServiceRow>, exported: seq<Service>, out: seq<Service>, n: string)
    requires exported == ExportServices(services) && forall x: Service :: x in exported <==> x in out
    ensures Declared(out, n) <==> DeclaredRow(services, n)
  {
    if Declared(out, n) {
      var i :| 0 <= i < |out| && out[i].name == n;
      assert out[i] in exported;
      var j :| 0 <= j < |exported| && exported[j] == out[i];
      assert services[j].name == n;
    }
    if DeclaredRow(services, n) {
      var j :| 0 <= j < |services| && services[j].name == n;
      assert exported[j] in out;
    }
  }

  lemma DomainRoundTrip(rows: seq<ServiceRow>, services: seq<Service>, d: DomainRow)
    requires PortableDomain(rows, d) && forall n: string :: Declared(services, n) <==> DeclaredRow(rows, n)
    ensures ValidDomain(services, ExportDomain(d)) && ImportDomain(ExportDomain(d)) == d && HostOf(ExportDomain(d)) == d.hostname
  {
    assert d.service != "" ==> Declared(services, d.service) || !DeclaredRow(rows, d.service);
  }

  lemma DomainsRoundTrip(rows: seq<ServiceRow>, services: seq<Service>, domains: seq<DomainRow>)
    requires DistinctBy(domains, RowHost) && forall n: string :: Declared(services, n) <==> DeclaredRow(rows, n)
    requires forall i {:trigger domains[i]} :: 0 <= i < |domains| ==> PortableDomain(rows, domains[i])
    ensures var out := Sort(ExportDomains(domains), DomainLe);
      ValidDomains(services, out) && multiset(ImportDomains(out)) == multiset(domains)
  {
    var exported := ExportDomains(domains);
    var out := Sort(exported, DomainLe);
    SortMultiset(exported, DomainLe);
    SameMembers(exported, out);
    forall i | 0 <= i < |domains|
      ensures HostOf(exported[i]) == RowHost(domains[i]) && ImportDomain(exported[i]) == domains[i]
      ensures ValidDomain(services, exported[i])
    {
      DomainRoundTrip(rows, services, domains[i]);
    }
    PermutedDistinct(exported, out, HostOf);
    forall i | 0 <= i < |out| ensures ValidDomain(services, out[i]) {
      assert out[i] in exported;
    }
    ImportDomainsAreMap(out);
    ImportDomainsAreMap(exported);
    MapMultiset(ImportDomain, out, exported);
    assert ImportDomains(exported) == domains;
  }

  lemma EnvRoundTrip(env: seq<EnvVar>)
    requires ValidEnvs(env)
    ensures ValidEnvs(Sort(env, EnvLe)) && multiset(Sort(env, EnvLe)) == multiset(env)
  {
    var out := Sort(env, EnvLe);
    SortMultiset(env, EnvLe);
    SameMembers(env, out);
    PermutedDistinct(env, out, EnvName);
    forall i | 0 <= i < |out| ensures ValidEnv(out[i]) {
      assert out[i] in env;
    }
  }

  // Importing an app's export gives back its configuration: the same columns, with the
  // compose override folded into the compose file, and the same collections.
  lemma ExportImports(rows: Rows)
    requires Portable(rows)
    ensures var back := Import(Export(rows));
      && Valid(Export(rows)) && back.app == FoldedApp(rows.app) && back.triggers == rows.triggers
      && multiset(back.services) == multiset(rows.services)
      && multiset(back.domains) == multiset(rows.domains)
      && multiset(back.env) == multiset(rows.env)
  {
    AppRoundTrip(rows.app, Export(rows));
    ServicesRoundTrip(rows.services);
    DomainsRoundTrip(rows.services, Export(rows).services, rows.domains);
    EnvRoundTrip(rows.env);
  }

  // ---- Import then export ----

  function ReExport(s: Spec): Spec { Export(Import(s)) }

  // Every host name of the spec, once normalised, stays put.
  predicate SettledDomain(d: Domain) {
    Settled(HostOf(d)) && (d.redirectTo != "" ==> Settled(Deref(NormalizeHostname(d.redirectTo))))
  }

  predicate SettledSpec(s: Spec) {
    && |ImportSlug(s)| <= MAX_SLUG_LEN
    && forall i {:trigger SettledDomain(s.domains[i])} :: 0 <= i < |s.domains| ==> SettledDomain(s.domains[i])
  }

  lemma SlugSettles(s: Spec)
    requires ValidHead(s)
    ensures TrimSpace(ImportSlug(s)) == ImportSlug(s)
    ensures ImportSlug(s) == "" || IsSlug(ImportSlug(s))
    ensures ImportSlug(s) == "" ==> SlugOf(s.name) == ""
  {
    TrimSpaceIdempotent(s.slug);
    SlugOfIsSlug(s.name);
    if IsSlug(SlugOf(s.name)) {
      SlugIffShape(SlugOf(s.name));
      TrimSpaceKeeps(SlugOf(s.name));
    }
  }

  lemma SourceSettles(s: Spec)
    requires ValidSource(s.source)
    ensures var src := ExportSource(ImportApp(s));
      && ValidSource(src) && src.typ == s.source.typ
      && (src.typ != TEMPLATE ==> src.url == s.source.url && OrElse(TrimSpace(src.branch), DEFAULT_BRANCH) == src.branch)
  {
    TrimSpaceIdempotent(s.source.branch);
    TrimSpaceKeeps(DEFAULT_BRANCH);
  }

  lemma BuildSettles(s: Spec)
    requires ValidBuild(s.build)
    ensures var b := ExportBuild(ImportApp(s));
      && ValidBuild(b) && ExportBuild(ImportApp(s).(buildConfig := Some(ImportBuild(b)))) == b
      && b.composePath == ImportApp(s).composeFile && OrElse(TrimSpace(b.composePath), DEFAULT_COMPOSE_FILE) == b.composePath
  {
    TrimSpaceIdempotent(s.build.composePath);
    TrimSpaceKeeps(DEFAULT_COMPOSE_FILE);
  }

  // The head of a re-exported spec: importing it again changes nothing, and it is
  // valid exactly when the slug fits.
  lemma HeadSettles(s: Spec)
    requires ValidHead(s)
    ensures ValidHead(ReExport(s)) <==> |ImportSlug(s)| <= MAX_SLUG_LEN
    ensures var a := ImportApp(ReExport(s));
      && a.slug == ImportSlug(s) && ExportSource(a) == ExportSource(ImportApp(s)) && ExportBuild(a) == ExportBuild(ImportApp(s))
  {
    SlugSettles(s);
    SourceSettles(s);
    BuildSettles(s);
  }

  // What a domain becomes on its way through the rows and back.
  function Passed(d: Domain): Domain { ExportDomain(ImportDomain(d)) }

  lemma PassedIs(d: Domain)
    requires NormalizeHostname(d.hostname).Some? && (d.redirectTo != "" ==> NormalizeHostname(d.redirectTo).Some?)
    ensures var p := Passed(d);
      && p.hostname == HostOf(d) && p.service == d.service && p.typ != ""
      && p.redirectTo == (if d.redirectTo == "" then "" else NormalizeHostname(d.redirectTo).value)
      && (p.redirectTo == "" <==> d.redirectTo == "")
  {
    if d.redirectTo != "" {
      FoldedShape(d.redirectTo);
    }
  }

  // A domain that settles is the same after a second pass, and valid.
  lemma SettledPasses(services: seq<Service>, d: Domain)
    requires ValidDomain(services, d) && SettledDomain(d)
    ensures ValidDomain(services, Passed(d)) && Passed(Passed(d)) == Passed(d) && HostOf(Passed(d)) == HostOf(d)
  {
    PassedIs(d);
    NormalizeTwiceIff(d.hostname);
    if d.redirectTo != "" {
      NormalizeTwiceIff(d.redirectTo);
    }
    PassedIs(Passed(d));
  }

  lemma ServicesPass(services: seq<Service>)
    ensures ExportServices(ImportServices(services)) == services
  {
    assert forall i :: 0 <= i < |services| ==> ExportServices(ImportServices(services))[i] == services[i];
  }

  lemma DomainsPass(domains: seq<Domain>)
    ensures ExportDomains(ImportDomains(domains)) == Map(Passed, domains)
  {
    assert forall i :: 0 <= i < |domains| ==> ExportDomains(ImportDomains(domains))[i] == Passed(domains[i]);
  }

  lemma ServicesSettle(services: seq<Service>)
    requires ValidServices(services)
    ensures var out := Sort(services, ServiceLe);
      && ValidServices(out) && Sort(out, ServiceLe) == out && forall n: string :: Declared(out, n) <==> Declared(services, n)
  {
    var out := Sort(services, ServiceLe);
    SortMultiset(services, ServiceLe);
    SameMembers(services, out);
    PermutedDistinct(services, out, ServiceName);
    forall i | 0 <= i < |out| ensures ValidService(out[i]) {
      assert out[i] in services;
    }
    SortServices(services, out);
    forall n: string ensures Declared(out, n) <==> Declared(services, n) {
      DeclaredSame(services, out, n);
    }
  }

  lemma DeclaredSame(a: seq<Service>, b: seq<Service>, n: string)
    requires forall x: Service :: x in a <==> x in b
    ensures Declared(a, n) <==> Declared(b, n)
  {
    if Declared(a, n) {
      var i :| 0 <= i < |a| && a[i].name == n;
      assert a[i] in b;
    }
    if Declared(b, n) {
      var i :| 0 <= i < |b| && b[i].name == n;
      assert b[i] in a;
    }
  }

  lemma EnvSettles(env: seq<EnvVar>)
    requires ValidEnvs(env)
    ensures ValidEnvs(Sort(env, EnvLe)) && Sort(Sort(env, EnvLe), EnvLe) == Sort(env, EnvLe)
  {
    EnvRoundTrip(env);
    SortEnv(env, Sort(env, EnvLe));
  }

  lemma SameDeclared(a: seq<Service>, b: seq<Service>, d: Domain)
    requires ValidDomain(a, d) && forall n: string :: Declared(b, n) <==> Declared(a, n)
    ensures ValidDomain(b, d)
  {
    assert Declared(b, d.service) <==> Declared(a, d.service);
  }

  lemma SettledDomainsPass(services: seq<Service>, domains: seq<Domain>)
    requires ValidDomains(services, domains)
    requires forall i {:trigger SettledDomain(domains[i])} :: 0 <= i < |domains| ==> SettledDomain(domains[i])
    ensures var passed := Map(Passed, domains);
      && ValidDomains(services, passed) && DistinctBy(passed, Hostname)
      && forall i {:trigger passed[i]} :: 0 <= i < |passed| ==> Passed(passed[i]) == passed[i]
  {
    var passed := Map(Passed, domains);
    forall i | 0 <= i < |domains|
      ensures ValidDomain(services, passed[i]) && Passed(passed[i]) == passed[i]
      ensures HostOf(passed[i]) == HostOf(domains[i]) && Hostname(passed[i]) == HostOf(domains[i])
    {
      assert SettledDomain(domains[i]) && ValidDomain(services, domains[i]);
      SettledPasses(services, domains[i]);
      PassedIs(domains[i]);
    }
  }

  lemma DomainsSettle(services: seq<Service>, domains: seq<Domain>)
    requires ValidDomains(services, domains)
    requires forall i {:trigger SettledDomain(domains[i])} :: 0 <= i < |domains| ==> SettledDomain(domains[i])
    ensures var out := Sort(Map(Passed, domains), DomainLe);
      ValidDomains(services, out) && Sort(Map(Passed, out), DomainLe) == out
  {
    var passed := Map(Passed, domains);
    var out := Sort(passed, DomainLe);
    SettledDomainsPass(services, domains);
    SortMultiset(passed, DomainLe);
    SameMembers(passed, out);
    PermutedDistinct(passed, out, HostOf);
    forall i | 0 <= i < |out| ensures ValidDomain(services, out[i]) && Passed(out[i]) == out[i] {
      assert out[i] in passed;
    }
    assert Map(Passed, out) == out;
    SortDomains(passed, out);
  }

  lemma ReExportIs(s: Spec)
    ensures ReExport(s).services == Sort(s.services, ServiceLe)
    ensures ReExport(s).domains == Sort(Map(Passed, s.domains), DomainLe)
    ensures ReExport(s).env == Sort(s.env, EnvLe) && ReExport(s).triggers == s.triggers
  {
    ServicesPass(s.services);
    DomainsPass(s.domains);
  }

  lemma SettledReExports(s: Spec)
    requires Valid(s) && SettledSpec(s)
    ensures Valid(ReExport(s)) && ReExport(ReExport(s)) == ReExport(s)
  {
    HeadSettles(s);
    ReExportIs(s);
    ServicesSettle(s.services);
    DomainsSettle(s.services, s.domains);
    EnvSettles(s.env);
    var out := ReExport(s);
    forall i | 0 <= i < |out.domains| ensures ValidDomain(out.services, out.domains[i]) {
      assert ValidDomain(s.services, out.domains[i]);
      SameDeclared(s.services, out.services, out.domains[i]);
    }
    ReExportIs(out);
  }

  // ---- And only then ----

  function Weight(d: Domain): nat { |d.hostname| + |d.redirectTo| }

  function TotalWeight(ds: seq<Domain>): nat { if ds == [] then 0 else TotalWeight(ds[..|ds| - 1]) + Weight(ds[|ds| - 1]) }

  lemma {:induction false} WeightConcat(a: seq<Domain>, b: seq<Domain>)
    ensures TotalWeight(a + b) == TotalWeight(a) + TotalWeight(b)
  {
    if b == [] {
      assert a + b == a;
    } else {
      WeightConcat(a, b[..|b| - 1]);
      assert (a + b)[..|a + b| - 1] == a + b[..|b| - 1];
    }
  }

  lemma WeightOne(d: Domain)
    ensures TotalWeight([d]) == Weight(d)
  {
    assert [d][..0] == [];
  }

  lemma {:induction false} WeightInsert(d: Domain, ds: seq<Domain>)
    ensures TotalWeight(Insert(d, ds, DomainLe)) == TotalWeight(ds) + Weight(d)
  {
    WeightOne(d);
    if ds == [] || !DomainLe(ds[0], d) {
      WeightConcat([d], ds);
    } else {
      WeightInsert(d, ds[1..]);
      WeightOne(ds[0]);
      WeightConcat([ds[0]], ds[1..]);
      WeightConcat([ds[0]], Insert(d, ds[1..], DomainLe));
      assert ds == [ds[0]] + ds[1..];
    }
  }

  lemma {:induction false} WeightSort(ds: seq<Domain>)
    ensures TotalWeight(Sort(ds, DomainLe)) == TotalWeight(ds)
  {
    if ds != [] {
      WeightSort(ds[..|ds| - 1]);
      WeightInsert(ds[|ds| - 1], Sort(ds[..|ds| - 1], DomainLe));
    }
  }

  // Normalising a name again shortens it unless it is settled.
  lemma UnsettledShortens(raw: string)
    requires NormalizeHostname(raw).Some? && !Settled(NormalizeHostname(raw).value)
    requires NormalizeHostname(NormalizeHostname(raw).value).Some?
    ensures |NormalizeHostname(NormalizeHostname(raw).value).value| < |NormalizeHostname(raw).value|
  {
    var h := NormalizeHostname(raw).value;
    FoldedShape(raw);
    if Trimmed(h) {
      TrimSpaceKeeps(h);
    } else {
      TrimSpaceShortens(h);
    }
  }

  lemma PassedLighter(services: seq<Service>, d: Domain)
    requires ValidDomain(services, d)
    ensures Weight(Passed(d)) <= Weight(d)
  {
    PassedIs(d);
    NormalizeShortens(d.hostname);
    if d.redirectTo != "" {
      NormalizeShortens(d.redirectTo);
    }
  }

  lemma UnsettledLighter(services: seq<Service>, d: Domain)
    requires ValidDomain(services, d) && !SettledDomain(d) && ValidDomain(services, Passed(d))
    ensures Weight(Passed(Passed(d))) < Weight(Passed(d))
  {
    PassedIs(d);
    PassedIs(Passed(d));
    NormalizeShortens(Passed(d).hostname);
    if d.redirectTo != "" {
      NormalizeShortens(Passed(d).redirectTo);
    }
    if !Settled(HostOf(d)) {
      UnsettledShortens(d.hostname);
    } else {
      UnsettledShortens(d.redirectTo);
    }
  }

  lemma {:induction false} LighterTotal(ps: seq<Domain>, ds: seq<Domain>)
    requires |ps| == |ds| && forall j :: 0 <= j < |ds| ==> Weight(ps[j]) <= Weight(ds[j])
    ensures TotalWeight(ps) <= TotalWeight(ds)
    ensures (exists j :: 0 <= j < |ds| && Weight(ps[j]) < Weight(ds[j])) ==> TotalWeight(ps) < TotalWeight(ds)
  {
    if ds != [] {
      var n := |ds| - 1;
      LighterTotal(ps[..n], ds[..n]);
      if j :| 0 <= j < |ds| && Weight(ps[j]) < Weight(ds[j]) && j < n {
        assert Weight(ps[..n][j]) < Weight(ds[..n][j]);
      }
    }
  }

  lemma LighterMoves(s: Spec, j: nat)
    requires Valid(s) && j < |s.domains| && Weight(Passed(s.domains[j])) < Weight(s.domains[j])
    ensures ReExport(s) != s
  {
    ReExportIs(s);
    var ps := Map(Passed, s.domains);
    forall k | 0 <= k < |s.domains| ensures Weight(ps[k]) <= Weight(s.domains[k]) {
      assert ValidDomain(s.services, s.domains[k]);
      PassedLighter(s.services, s.domains[k]);
    }
    assert Weight(ps[j]) < Weight(s.domains[j]);
    LighterTotal(ps, s.domains);
    WeightSort(ps);
  }

  // Where a domain of the spec is found in its re-export.
  lemma PassedAt(s: Spec, i: nat) returns (j: nat)
    requires i < |s.domains|
    ensures j < |ReExport(s).domains| && ReExport(s).domains[j] == Passed(s.domains[i])
  {
    ReExportIs(s);
    var passed := Map(Passed, s.domains);
    SortMultiset(passed, DomainLe);
    SameMembers(passed, Sort(passed, DomainLe));
    assert passed[i] in Sort(passed, DomainLe);
    j :| 0 <= j < |ReExport(s).domains| && ReExport(s).domains[j] == passed[i];
  }

  lemma UnsettledMoves(s: Spec, i: nat)
    requires Valid(s) && i < |s.domains| && !SettledDomain(s.domains[i]) && Valid(ReExport(s))
    ensures ReExport(ReExport(s)) != ReExport(s)
  {
    var out, d := ReExport(s), s.domains[i];
    var j := PassedAt(s, i);
    ReExportIs(s);
    ServicesSettle(s.services);
    assert ValidDomain(s.services, d) && ValidDomain(out.services, out.domains[j]);
    SameDeclared(s.services, out.services, d);
    UnsettledLighter(out.services, d);
    LighterMoves(out, j);
  }

  // Import then export is idempotent on a valid spec exactly when its slug fits and
  // normalising each of its host names settles it.
  lemma ReExportIdempotentIff(s: Spec)
    requires Valid(s)
    ensures Valid(ReExport(s)) && ReExport(ReExport(s)) == ReExport(s) <==> SettledSpec(s)
  {
    HeadSettles(s);
    if SettledSpec(s) {
      SettledReExports(s);
    } else if Valid(ReExport(s)) {
      var i :| 0 <= i < |s.domains| && !SettledDomain(s.domains[i]);
      UnsettledMoves(s, i);
    }
  }

  // Nor does the order of a valid spec's collections show in its re-export, triggers
  // apart.
  lemma ReExportForgetsOrder(a: Spec, b: Spec)
    requires Valid(a) && multiset(a.services) == multiset(b.services) && multiset(a.domains) == multiset(b.domains)
    requires multiset(a.env) == multiset(b.env) && b == a.(services := b.services, domains := b.domains, env := b.env)
    ensures ReExport(a) == ReExport(b)
  {
    ReExportIs(a);
    ReExportIs(b);
    SortServices(a.services, b.services);
    SortEnv(a.env, b.env);
    MapMultiset(Passed, a.domains, b.domains);
    forall i | 0 <= i < |a.domains| ensures Hostname(Map(Passed, a.domains)[i]) == HostOf(a.domains[i]) {
      assert ValidDomain(a.services, a.domains[i]);
      PassedIs(a.domains[i]);
    }
    SortDomains(Map(Passed, a.domains), Map(Passed, b.domains));
  }
}
