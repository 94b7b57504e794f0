// A Sync whose delete of a desired route is lost: what it leaves behind at its unlock
// (caddy/client.go, proxy/manager.go).
module LostDelete {
  import opened Text
  import opened Names
  import opened ProxyModel
  import opened RouteTable
  import opened RouteLock
  import opened RouteSerial
  import opened Duplicates
  import R = Reconciler

  // ---- Running the holder ----

  lemma {:induction false} RunFromConcat(cfg: Config, hasBase: bool, s: State, first: seq<Step>, second: seq<Step>)
    requires RunFrom(cfg, hasBase, s, first).Some?
    ensures RunFrom(cfg, hasBase, s, first + second) == RunFrom(cfg, hasBase, RunFrom(cfg, hasBase, s, first).value, second)
    decreases |first|
  {
    if first == [] {
      assert first + second == second;
    } else {
      RunFromConcat(cfg, hasBase, Next(cfg, hasBase, s, first[0]), first[1..], second);
      assert (first + second)[1..] == first[1..] + second;
    }
  }

  lemma LeadsOn(cfg: Config, hasBase: bool, s: State, t: State, u: State)
    requires Leads(cfg, hasBase, s, t) && Leads(cfg, hasBase, t, u)
    ensures Leads(cfg, hasBase, s, u)
  {
    var first :| RunFrom(cfg, hasBase, s, first) == Some(t);
    var second :| RunFrom(cfg, hasBase, t, second) == Some(u);
    RunFromConcat(cfg, hasBase, s, first, second);
  }

  // A state with one goroutine, which holds the lock.
  predicate Alone(s: State, todo: seq<Instr>) { s.holder == Some(0) && s.todo == [todo] && |s.entries| == 1 }

  lemma {:induction false} CallsRun(cfg: Config, hasBase: bool, s: State, calls: seq<Instr>, rest: seq<Instr>)
    requires Alone(s, calls + rest) && AllCalls(calls)
    ensures Leads(cfg, hasBase, s, s.(server := Settle(hasBase, s.server, calls), todo := [rest]))
    decreases |calls|
  {
    if calls == [] {
      assert calls + rest == rest;
      LeadsSelf(cfg, hasBase, s);
    } else {
      var s1 := s.(server := Exec(hasBase, s.server, calls[0]), todo := [calls[1..] + rest]);
      assert (calls + rest)[1..] == calls[1..] + rest;
      CallsRun(cfg, hasBase, s1, calls[1..], rest);
      StepLeads(cfg, hasBase, s, Run(0), s1, s1.(server := Settle(hasBase, s1.server, calls[1..]), todo := [rest]));
    }
  }

  // Reading a part leaves its calls to make.
  lemma PartReads(cfg: Config, hasBase: bool, s: State, part: Instr, rest: seq<Instr>, t: State)
    requires Alone(s, [part] + rest) && part.Compound()
    requires t == s.(todo := [Expand(cfg, s.db, s.server, part) + rest], log := s.log + [Ran(part, s.db)])
    ensures Leads(cfg, hasBase, s, t)
  {
    assert ([part] + rest)[1..] == rest;
    LeadsSelf(cfg, hasBase, t);
    StepLeads(cfg, hasBase, s, Run(0), t, t);
  }

  // A part whose calls all arrive.
  lemma PartRuns(cfg: Config, hasBase: bool, s: State, part: Instr, rest: seq<Instr>) returns (t: State)
    requires Alone(s, [part] + rest) && part.Compound() && !part.ApplyEvery?
    ensures Leads(cfg, hasBase, s, t) && Alone(t, rest) && t.db == s.db && t.entries == s.entries
    ensures t.server == BigStep(cfg, hasBase, s.db, s.server, part)
  {
    var calls := Expand(cfg, s.db, s.server, part);
    var s1 := s.(todo := [calls + rest], log := s.log + [Ran(part, s.db)]);
    PartReads(cfg, hasBase, s, part, rest, s1);
    ExpandSettles(cfg, hasBase, s.db, s.server, part);
    CallsRun(cfg, hasBase, s1, calls, rest);
    t := s1.(server := Settle(hasBase, s1.server, calls), todo := [rest]);
    LeadsOn(cfg, hasBase, s, s1, t);
  }

  // ---- Losing one delete of an Apply ----

  lemma {:induction false} ApplyCallsConcat(cfg: Config, app: App, services: seq<Service>, a: seq<RouteSpec>, b: seq<RouteSpec>)
    ensures ApplyCalls(cfg, app, services, a + b) == ApplyCalls(cfg, app, services, a) + ApplyCalls(cfg, app, services, b)
  {
    if b == [] {
      assert a + b == a;
    } else {
      ApplyCallsConcat(cfg, app, services, a, b[..|b| - 1]);
      assert (a + b)[..|a + b| - 1] == a + b[..|b| - 1];
    }
  }

  lemma OneSpecCalls(cfg: Config, app: App, services: seq<Service>, spec: RouteSpec, r: Route)
    requires Select(cfg, app, services, spec) == Some(r)
    ensures ApplyCalls(cfg, app, services, [spec]) == PutCalls(r)
  {
    assert [spec][..0] == [];
    assert [] + PutCalls(r) == PutCalls(r);
  }

  lemma SplitAt(specs: seq<RouteSpec>, k: nat)
    requires k < |specs|
    ensures specs == specs[..k] + ([specs[k]] + specs[k + 1..])
  {
  }

  lemma ApplySplits(cfg: Config, app: App, services: seq<Service>, specs: seq<RouteSpec>, k: nat, r: Route)
    requires k < |specs| && Select(cfg, app, services, specs[k]) == Some(r)
    ensures ApplyCalls(cfg, app, services, specs) ==
      ApplyCalls(cfg, app, services, specs[..k]) + (PutCalls(r) + ApplyCalls(cfg, app, services, specs[k + 1..]))
  {
    SplitAt(specs, k);
    ApplyCallsConcat(cfg, app, services, specs[..k], [specs[k]] + specs[k + 1..]);
    ApplyCallsConcat(cfg, app, services, [specs[k]], specs[k + 1..]);
    OneSpecCalls(cfg, app, services, specs[k], r);
  }

  // What the loop leaves when the delete of its spec k is lost.
  function AppliedWithLoss(cfg: Config, app: App, services: seq<Service>, specs: seq<RouteSpec>, k: nat, r: Route, t: Table): Table
    requires k < |specs|
  {
    R.ApplySpecs(cfg, app, services, specs[k + 1..], R.ApplySpecs(cfg, app, services, specs[..k], t) + [r])
  }

  lemma LossRuns(cfg: Config, hasBase: bool, s: State, app: App, k: nat, r: Route, t: Table, rest: seq<Instr>) returns (end: State)
    requires Alone(s, [Apply(app.id)] + rest) && s.server == Some(t) && GetApp(s.db.apps, app.id) == Some(app)
    requires k < |SpecsOf(cfg, s.db, app)|
    requires Select(cfg, app, ServicesOf(s.db, app.id), SpecsOf(cfg, s.db, app)[k]) == Some(r)
    ensures Leads(cfg, hasBase, s, end) && Alone(end, rest) && end.db == s.db && end.entries == s.entries
    ensures end.server == Some(AppliedWithLoss(cfg, app, ServicesOf(s.db, app.id), SpecsOf(cfg, s.db, app), k, r, t))
  {
    var services, specs := ServicesOf(s.db, app.id), SpecsOf(cfg, s.db, app);
    var before, after := ApplyCalls(cfg, app, services, specs[..k]), ApplyCalls(cfg, app, services, specs[k + 1..]);
    var tail := PutCalls(r) + after + rest;
    var s1 := s.(todo := [before + tail], log := s.log + [Ran(Apply(app.id), s.db)]);
    ApplySplits(cfg, app, services, specs, k, r);
    assert before + (PutCalls(r) + after) + rest == before + tail;
    PartReads(cfg, hasBase, s, Apply(app.id), rest, s1);
    var s2 := CallsApply(cfg, hasBase, s1, app, services, specs[..k], t, tail);
    end := ReplacementLost(cfg, hasBase, s2, app, services, specs[k + 1..], r, rest);
    LeadsOn(cfg, hasBase, s1, s2, end);
    LeadsOn(cfg, hasBase, s, s1, end);
  }

  lemma CallsApply(cfg: Config, hasBase: bool, s: State, app: App, services: seq<Service>, specs: seq<RouteSpec>, t: Table,
                   rest: seq<Instr>) returns (end: State)
    requires s.server == Some(t) && Alone(s, ApplyCalls(cfg, app, services, specs) + rest)
    ensures end == s.(server := Some(R.ApplySpecs(cfg, app, services, specs, t)), todo := [rest])
    ensures Leads(cfg, hasBase, s, end)
  {
    SettleApply(cfg, hasBase, app, services, specs, t);
    CallsRun(cfg, hasBase, s, ApplyCalls(cfg, app, services, specs), rest);
    end := s.(server := Some(R.ApplySpecs(cfg, app, services, specs, t)), todo := [rest]);
  }

  lemma DeleteLost(cfg: Config, hasBase: bool, s: State, r: Route, rest: seq<Instr>, end: State)
    requires s.server.Some? && Alone(s, PutCalls(r) + rest)
    requires end == s.(server := Some(s.server.value + [r]), todo := [rest])
    ensures Leads(cfg, hasBase, s, end)
  {
    var s1 := s.(todo := [[Add(r)] + rest]);
    LeadsSelf(cfg, hasBase, end);
    assert s1.todo[0][1..] == rest;
    StepLeads(cfg, hasBase, s1, Run(0), end, end);
    assert s.todo[0][1..] == [Add(r)] + rest;
    StepLeads(cfg, hasBase, s, CallFails(0), s1, end);
  }

  lemma ReplacementLost(cfg: Config, hasBase: bool, s: State, app: App, services: seq<Service>, specs: seq<RouteSpec>, r: Route,
                        rest: seq<Instr>) returns (end: State)
    requires s.server.Some? && Alone(s, PutCalls(r) + ApplyCalls(cfg, app, services, specs) + rest)
    ensures end == s.(server := Some(R.ApplySpecs(cfg, app, services, specs, s.server.value + [r])), todo := [rest])
    ensures Leads(cfg, hasBase, s, end)
  {
    var calls := ApplyCalls(cfg, app, services, specs);
    var s1 := s.(server := Some(s.server.value + [r]), todo := [calls + rest]);
    assert PutCalls(r) + calls + rest == PutCalls(r) + (calls + rest);
    DeleteLost(cfg, hasBase, s, r, calls + rest, s1);
    end := CallsApply(cfg, hasBase, s1, app, services, specs, s1.server.value, rest);
    LeadsOn(cfg, hasBase, s, s1, end);
  }

  // ---- The copies left at the unlock ----

  lemma OtherSpecs(specs: seq<RouteSpec>, k: nat)
    requires DistinctSpecIDs(specs) && k < |specs|
    ensures DistinctSpecIDs(specs[..k]) && DistinctSpecIDs(specs[k + 1..])
    ensures R.FindSpec(specs[..k], specs[k].id).None? && R.FindSpec(specs[k + 1..], specs[k].id).None?
  {
    assert forall spec :: spec in specs[..k] ==> spec.id != specs[k].id;
    assert forall spec :: spec in specs[k + 1..] ==> spec.id != specs[k].id;
  }

  lemma LossAddsCopy(cfg: Config, db: DB, app: App, k: nat, r: Route, t: Table)
    requires ValidDB(db) && app in db.apps && k < |SpecsOf(cfg, db, app)|
    requires Select(cfg, app, ServicesOf(db, app.id), SpecsOf(cfg, db, app)[k]) == Some(r)
    ensures var u := AppliedWithLoss(cfg, app, ServicesOf(db, app.id), SpecsOf(cfg, db, app), k, r, t);
      CopiesOf(R.PruneOrphans(cfg, db, R.ApplyControl(cfg, u)), r.id) == CopiesOf(t, r.id) + [r]
  {
    var services, specs := ServicesOf(db, app.id), SpecsOf(cfg, db, app);
    var t1 := R.ApplySpecs(cfg, app, services, specs[..k], t);
    var u := AppliedWithLoss(cfg, app, services, specs, k, r, t);
    SpecsDistinct(cfg, db, app);
    OtherSpecs(specs, k);
    assert r.id == specs[k].id;
    CopiesApplySpecs(cfg, app, services, specs[..k], t, r.id);
    CopiesAppend(t1, r, r.id);
    CopiesApplySpecs(cfg, app, services, specs[k + 1..], t1 + [r], r.id);
    R.SpecsBacked(cfg, db, app, specs[k]);
    SpecIDManaged(cfg, db, app, specs[k]);
    CopiesControl(cfg, u, r.id);
    CopiesPrune(cfg, db, R.ApplyControl(cfg, u), r.id);
  }

  // For every app, every route it should have and every table: a Sync of the app, alone
  // and with the lock held throughout, whose delete of that route is lost and whose other
  // calls all arrive, ends with every copy the table had of that route and one more. If
  // the route was there, its id is left twice, and the old route is still the one served.
  lemma LostDeleteLeavesOld(cfg: Config, hasBase: bool, db: DB, app: App, k: nat, r: Route, s: State) returns (end: State)
    requires ValidDB(db) && app in db.apps && k < |SpecsOf(cfg, db, app)|
    requires Select(cfg, app, ServicesOf(db, app.id), SpecsOf(cfg, db, app)[k]) == Some(r)
    requires s.server.Some? && s == State(s.server, db, None, [Locked(Sync(app.id))], [Sync(app.id)], [])
    ensures Leads(cfg, hasBase, s, end) && end.holder.None? && end.todo == [[]] && end.server.Some?
    ensures CopiesOf(end.server.value, r.id) == CopiesOf(s.server.value, r.id) + [r]
    ensures HasID(s.server.value, r.id) ==>
      !DistinctIDs(end.server.value) && Lookup(end.server.value, r.id) == Lookup(s.server.value, r.id)
  {
    var t := s.server.value;
    GetAppIs(db, app);
    var s2 := SyncStarts(cfg, hasBase, s, app.id);
    var s3 := LossRuns(cfg, hasBase, s2, app, k, r, t, [Control, Prune, Unlock]);
    LeadsOn(cfg, hasBase, s, s2, s3);
    end := SyncEnds(cfg, hasBase, s3);
    LeadsOn(cfg, hasBase, s, s3, end);
    LossAddsCopy(cfg, db, app, k, r, t);
    CopiesLookup(t, r.id);
    CopiesLookup(end.server.value, r.id);
    if HasID(t, r.id) {
      DistinctByCopies(end.server.value);
      assert !AtMostOnce(end.server.value, r.id);
    }
  }

  lemma SyncStarts(cfg: Config, hasBase: bool, s: State, appID: string) returns (end: State)
    requires s.server.Some? && s.holder == None && s.todo == [Locked(Sync(appID))] && s.entries == [Sync(appID)]
    ensures Leads(cfg, hasBase, s, end) && Alone(end, [Apply(appID)] + [Control, Prune, Unlock])
    ensures end.server == s.server && end.db == s.db
  {
    var body := [Apply(appID)] + [Control, Prune, Unlock];
    var s1 := s.(holder := Some(0), todo := [[EnsureBase] + body], log := s.log + [Began(Sync(appID))]);
    end := s1.(todo := [body], log := s1.log + [Ran(EnsureBase, s.db)]);
    LeadsSelf(cfg, hasBase, end);
    assert s1.todo[0][1..] == body;
    StepLeads(cfg, hasBase, s1, Run(0), end, end);
    assert Locked(Sync(appID))[1..] == [EnsureBase] + body;
    StepLeads(cfg, hasBase, s, Run(0), s1, end);
  }

  lemma SyncEnds(cfg: Config, hasBase: bool, s: State) returns (end: State)
    requires s.server.Some? && Alone(s, [Control, Prune, Unlock])
    ensures Leads(cfg, hasBase, s, end) && end.holder.None? && end.todo == [[]] && end.db == s.db
    ensures end.server == Some(R.PruneOrphans(cfg, s.db, R.ApplyControl(cfg, s.server.value)))
  {
    assert [Control, Prune, Unlock] == [Control] + [Prune, Unlock];
    var s1 := PartRuns(cfg, hasBase, s, Control, [Prune, Unlock]);
    assert [Prune, Unlock] == [Prune] + [Unlock];
    var s2 := PartRuns(cfg, hasBase, s1, Prune, [Unlock]);
    end := s2.(holder := None, todo := [[]]);
    assert s2.todo[0][1..] == [];
    LeadsSelf(cfg, hasBase, end);
    StepLeads(cfg, hasBase, s2, Run(0), end, end);
    LeadsOn(cfg, hasBase, s1, s2, end);
    LeadsOn(cfg, hasBase, s, s1, end);
  }
}
