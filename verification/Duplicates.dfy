// Tables that hold an id more than once, as a lost delete leaves them: what the route
// operations make of the copies (caddy/client.go, proxy/manager.go).
module Duplicates {
  import opened Text
  import opened Names
  import opened ProxyModel
  import opened RouteTable
  import R = Reconciler

  // The routes of one id, in table order. Requests are served by the first.
  function CopiesOf(t: Table, id: string): (r: Table)
    ensures forall c :: c in r ==> c in t && c.id == id
  {
    if t == [] then []
    else if t[0].id == id then [t[0]] + CopiesOf(t[1..], id)
    else CopiesOf(t[1..], id)
  }

  function Tail(copies: Table): Table { if copies == [] then [] else copies[1..] }

  // A put drops the first copy and appends the new one; a removal only drops it.
  function Replaced(copies: Table, r: Option<Route>): Table {
    Tail(copies) + (if r.Some? then [r.value] else [])
  }

  lemma {:induction false} CopiesDelete(t: Table, id: string, k: string)
    ensures CopiesOf(Delete(t, id), k) == if k == id then Tail(CopiesOf(t, k)) else CopiesOf(t, k)
  {
    if t != [] && t[0].id != id {
      CopiesDelete(t[1..], id, k);
      assert Delete(t, id)[1..] == Delete(t[1..], id);
    }
  }

  lemma {:induction false} CopiesAppend(t: Table, r: Route, k: string)
    ensures CopiesOf(t + [r], k) == if r.id == k then CopiesOf(t, k) + [r] else CopiesOf(t, k)
  {
    if t == [] {
      assert t + [r] == [r];
    } else {
      CopiesAppend(t[1..], r, k);
      assert (t + [r])[1..] == t[1..] + [r];
    }
  }

  lemma CopiesPut(t: Table, r: Route, k: string)
    ensures CopiesOf(Put(t, r), k) == if k == r.id then Replaced(CopiesOf(t, k), Some(r)) else CopiesOf(t, k)
  {
    CopiesDelete(t, r.id, k);
    CopiesAppend(Delete(t, r.id), r, k);
  }

  lemma {:induction false} CopiesLookup(t: Table, k: string)
    ensures Lookup(t, k) == if CopiesOf(t, k) == [] then None else Some(CopiesOf(t, k)[0])
  {
    if t != [] && t[0].id != k {
      CopiesLookup(t[1..], k);
    }
  }

  lemma {:induction false} CopiesOfDistinct(t: Table, k: string)
    requires DistinctIDs(t)
    ensures |CopiesOf(t, k)| <= 1
  {
    if t != [] {
      CopiesOfDistinct(t[1..], k);
      CopiesLookup(t[1..], k);
      assert t[0].id == k ==> !HasID(t[1..], k);
    }
  }

  lemma {:induction false} TwoCopies(t: Table, i: nat, j: nat)
    requires i < j < |t| && t[i].id == t[j].id
    ensures |CopiesOf(t, t[i].id)| >= 2
  {
    if i > 0 {
      TwoCopies(t[1..], i - 1, j - 1);
    } else {
      CopiesLookup(t[1..], t[j].id);
      assert t[1..][j - 1].id == t[j].id;
    }
  }

  predicate AtMostOnce(t: Table, k: string) { |CopiesOf(t, k)| <= 1 }

  lemma DistinctByCopies(t: Table)
    ensures DistinctIDs(t) <==> forall k :: AtMostOnce(t, k)
  {
    if DistinctIDs(t) {
      forall k ensures AtMostOnce(t, k) {
        CopiesOfDistinct(t, k);
      }
    } else {
      var i, j :| 0 <= i < j < |t| && t[i].id == t[j].id;
      TwoCopies(t, i, j);
      assert !AtMostOnce(t, t[i].id);
    }
  }

  // A put over several copies keeps their number, and the route it installs is not the
  // one served: an older copy is.
  lemma PutServesStale(t: Table, r: Route)
    requires |CopiesOf(t, r.id)| > 1
    ensures |CopiesOf(Put(t, r), r.id)| == |CopiesOf(t, r.id)|
    ensures Lookup(Put(t, r), r.id) == Some(CopiesOf(t, r.id)[1])
  {
    CopiesPut(t, r, r.id);
    CopiesLookup(Put(t, r), r.id);
  }

  // ---- The parts of a Reconcile ----

  lemma {:induction false} CopiesApplySpecs(cfg: Config, app: App, services: seq<Service>, specs: seq<RouteSpec>, t: Table, k: string)
    requires DistinctSpecIDs(specs)
    ensures CopiesOf(R.ApplySpecs(cfg, app, services, specs, t), k) ==
      (var spec := R.FindSpec(specs, k);
       if spec.Some? then Replaced(CopiesOf(t, k), Select(cfg, app, services, spec.value)) else CopiesOf(t, k))
  {
    if specs != [] {
      var last, init := specs[|specs| - 1], specs[..|specs| - 1];
      CopiesApplySpecs(cfg, app, services, init, t, k);
      var u := R.ApplySpecs(cfg, app, services, init, t);
      var r := Select(cfg, app, services, last);
      if r.Some? {
        CopiesPut(u, r.value, k);
      } else {
        CopiesDelete(u, last.id, k);
      }
    }
  }

  lemma CopiesControl(cfg: Config, t: Table, k: string)
    ensures CopiesOf(R.ApplyControl(cfg, t), k) ==
      if k == CONTROL_ROUTE_ID then Replaced(CopiesOf(t, k), R.DesiredControl(cfg)) else CopiesOf(t, k)
  {
    if cfg.controlDomain == "" {
      CopiesDelete(t, CONTROL_ROUTE_ID, k);
    } else {
      CopiesPut(t, ControlRoute(cfg), k);
    }
  }

  lemma {:induction false} CopiesOfLast(listing: Table, k: string)
    requires listing != []
    ensures var last := listing[|listing| - 1];
      |CopiesOf(listing, k)| == |CopiesOf(listing[..|listing| - 1], k)| + if last.id == k then 1 else 0
  {
    CopiesAppend(listing[..|listing| - 1], listing[|listing| - 1], k);
    assert listing == listing[..|listing| - 1] + [listing[|listing| - 1]];
  }

  function Skip(copies: Table, n: nat): Table { if n >= |copies| then [] else copies[n..] }

  // The sweep deletes once per listed route, so as many copies go as were listed.
  lemma {:induction false} CopiesSweep(t: Table, backed: set<string>, listing: Table, k: string)
    ensures CopiesOf(R.Sweep(t, backed, listing), k) ==
      if R.Orphan(k, backed) then Skip(CopiesOf(t, k), |CopiesOf(listing, k)|) else CopiesOf(t, k)
  {
    if listing != [] {
      var init, id := listing[..|listing| - 1], listing[|listing| - 1].id;
      CopiesSweep(t, backed, init, k);
      CopiesOfLast(listing, k);
      if R.Orphan(id, backed) {
        CopiesDelete(R.Sweep(t, backed, init), id, k);
      }
    }
  }

  lemma CopiesPrune(cfg: Config, db: DB, t: Table, k: string)
    ensures CopiesOf(R.PruneOrphans(cfg, db, t), k) ==
      if R.Orphan(k, R.BackedIDs(cfg, db)) then [] else CopiesOf(t, k)
  {
    CopiesSweep(t, R.BackedIDs(cfg, db), t, k);
  }

  lemma {:induction false} CopiesApplyApps(cfg: Config, db: DB, apps: seq<App>, t: Table, k: string)
    requires ValidDB(db) && forall a :: a in apps ==> a in db.apps
    requires DistinctApps(apps)
    ensures CopiesOf(R.ApplyApps(cfg, db, apps, t), k) ==
      (var o := R.Owner(cfg, db, apps, k);
       if o.Some? then Replaced(CopiesOf(t, k), R.SelectFor(cfg, db, o.value)) else CopiesOf(t, k))
  {
    if apps != [] {
      var last, init := apps[|apps| - 1], apps[..|apps| - 1];
      CopiesApplyApps(cfg, db, init, t, k);
      SpecsDistinct(cfg, db, last);
      CopiesApplySpecs(cfg, last, ServicesOf(db, last.id), SpecsOf(cfg, db, last), R.ApplyApps(cfg, db, init, t), k);
      OneOwner(cfg, db, init, last, k);
    }
  }

  predicate DistinctApps(apps: seq<App>) { forall i, j :: 0 <= i < j < |apps| ==> apps[i].id != apps[j].id }

  lemma OneOwner(cfg: Config, db: DB, apps: seq<App>, app: App, k: string)
    requires ValidDB(db) && app in db.apps && (forall a :: a in apps ==> a in db.apps && a.id != app.id)
    ensures R.FindSpec(SpecsOf(cfg, db, app), k).Some? ==> R.Owner(cfg, db, apps, k).None?
  {
    var spec, o := R.FindSpec(SpecsOf(cfg, db, app), k), R.Owner(cfg, db, apps, k);
    if spec.Some? && o.Some? {
      SameIDSameApp(cfg, db, app, o.value.app, spec.value, o.value.spec);
    }
  }

  // ---- Reconcile over any table ----

  // Ids a Reconcile writes or removes by name; None is a removal.
  function Written(cfg: Config, db: DB, k: string): Option<Option<Route>> {
    var o := R.Owner(cfg, db, db.apps, k);
    if o.Some? then Some(R.SelectFor(cfg, db, o.value))
    else if k == CONTROL_ROUTE_ID then Some(R.DesiredControl(cfg))
    else None
  }

  // What Reconcile makes of the copies of each id, from any table whatever: one is
  // replaced or dropped for an id it writes, all go for an orphan, and the rest stay.
  lemma ReconcileCopies(cfg: Config, db: DB, t: Table, k: string)
    requires ValidDB(db)
    ensures CopiesOf(R.Reconcile(cfg, db, t), k) ==
      if Written(cfg, db, k).Some? then Replaced(CopiesOf(t, k), Written(cfg, db, k).value)
      else if R.Orphan(k, R.BackedIDs(cfg, db)) then []
      else CopiesOf(t, k)
  {
    var applied := R.ApplyApps(cfg, db, db.apps, t);
    CopiesApplyApps(cfg, db, db.apps, t, k);
    CopiesControl(cfg, applied, k);
    CopiesPrune(cfg, db, R.ApplyControl(cfg, applied), k);
    R.UnmanagedHasNoOwner(cfg, db, k);
    RouteIDKindsDisjoint("", "", "");
    var o := R.Owner(cfg, db, db.apps, k);
    if o.Some? {
      R.SpecsBacked(cfg, db, o.value.app, o.value.spec);
    }
  }

  predicate Orphaned(cfg: Config, db: DB, k: string) {
    Written(cfg, db, k).None? && R.Orphan(k, R.BackedIDs(cfg, db))
  }

  // One Reconcile is enough for an id: it has no duplicate, or is an orphan, or is to be
  // removed and has just two copies.
  predicate Healing(cfg: Config, db: DB, t: Table, k: string) {
    |CopiesOf(t, k)| > 1 ==> Orphaned(cfg, db, k) || (Written(cfg, db, k) == Some(None) && |CopiesOf(t, k)| == 2)
  }

  lemma HealsAt(cfg: Config, db: DB, t: Table, k: string)
    requires ValidDB(db)
    ensures AtMostOnce(R.Reconcile(cfg, db, t), k) <==> Healing(cfg, db, t, k)
  {
    ReconcileCopies(cfg, db, t, k);
  }

  // Reconcile gets rid of every duplicate exactly under that condition.
  lemma ReconcileHealsIff(cfg: Config, db: DB, t: Table)
    requires ValidDB(db)
    ensures DistinctIDs(R.Reconcile(cfg, db, t)) <==> forall k :: Healing(cfg, db, t, k)
  {
    DistinctByCopies(R.Reconcile(cfg, db, t));
    forall k
      ensures AtMostOnce(R.Reconcile(cfg, db, t), k) <==> Healing(cfg, db, t, k)
    {
      HealsAt(cfg, db, t, k);
    }
  }

  // Tables that follow each other by one Reconcile.
  ghost predicate ReconcileRun(cfg: Config, db: DB, tables: seq<Table>) {
    tables != [] && forall i :: 0 < i < |tables| ==> tables[i] == R.Reconcile(cfg, db, tables[i - 1])
  }

  function Rotated(copies: Table, r: Route, n: nat): Table {
    if n == 0 then copies else Replaced(Rotated(copies, r, n - 1), Some(r))
  }

  lemma {:induction false} RotatedAt(copies: Table, r: Route, n: nat, j: nat)
    requires j < |copies|
    ensures |Rotated(copies, r, n)| == |copies|
    ensures Rotated(copies, r, n)[j] == if j + n < |copies| then copies[j + n] else r
  {
    if n > 0 {
      RotatedAt(copies, r, n - 1, if j + 1 < |copies| then j + 1 else j);
    }
  }

  lemma CopiesWritten(cfg: Config, db: DB, t: Table, k: string, r: Route)
    requires ValidDB(db) && Written(cfg, db, k) == Some(Some(r))
    ensures CopiesOf(R.Reconcile(cfg, db, t), k) == Replaced(CopiesOf(t, k), Some(r))
  {
    ReconcileCopies(cfg, db, t, k);
  }

  // The copies of a written id in each table of the run.
  ghost predicate CopiesRun(tables: seq<Table>, k: string, r: Route) {
    tables != [] && forall i :: 0 < i < |tables| ==> CopiesOf(tables[i], k) == Replaced(CopiesOf(tables[i - 1], k), Some(r))
  }

  lemma RunCopies(cfg: Config, db: DB, tables: seq<Table>, k: string, r: Route)
    requires ValidDB(db) && Written(cfg, db, k) == Some(Some(r)) && ReconcileRun(cfg, db, tables)
    ensures CopiesRun(tables, k, r)
  {
    forall i | 0 < i < |tables|
      ensures CopiesOf(tables[i], k) == Replaced(CopiesOf(tables[i - 1], k), Some(r))
    {
      CopiesWritten(cfg, db, tables[i - 1], k, r);
    }
  }

  lemma {:induction false} CopiesAfter(tables: seq<Table>, k: string, r: Route, n: nat)
    requires CopiesRun(tables, k, r) && n < |tables|
    ensures CopiesOf(tables[n], k) == Rotated(CopiesOf(tables[0], k), r, n)
  {
    if n > 0 {
      CopiesAfter(tables, k, r, n - 1);
    }
  }

  lemma RotatedServes(t: Table, u: Table, k: string, r: Route, n: nat)
    requires HasID(t, k) && CopiesOf(u, k) == Rotated(CopiesOf(t, k), r, n)
    ensures var copies := CopiesOf(t, k);
      |CopiesOf(u, k)| == |copies| && Lookup(u, k) == Some(if n < |copies| then copies[n] else r)
  {
    CopiesLookup(t, k);
    RotatedAt(CopiesOf(t, k), r, n, 0);
    CopiesLookup(u, k);
  }

  // A duplicate of a wanted id outlives any number of Reconciles. Each one replaces the
  // oldest copy, so the next older one is served, and the wanted route is served once
  // there were as many Reconciles as copies, and not before unless a copy equals it.
  lemma DuplicatesOutlast(cfg: Config, db: DB, tables: seq<Table>, k: string, r: Route, n: nat)
    requires ValidDB(db) && Written(cfg, db, k) == Some(Some(r)) && ReconcileRun(cfg, db, tables) && n < |tables|
    requires HasID(tables[0], k)
    ensures var copies := CopiesOf(tables[0], k);
      && |CopiesOf(tables[n], k)| == |copies|
      && Lookup(tables[n], k) == Some(if n < |copies| then copies[n] else r)
  {
    RunCopies(cfg, db, tables, k, r);
    CopiesAfter(tables, k, r, n);
    RotatedServes(tables[0], tables[n], k, r, n);
  }
}
