// What MaintainOn and MaintainOff do from start to end, flag write included
// (proxy/manager.go, store/apps.go).
module Toggles {
  import opened Text
  import opened Names
  import opened ProxyModel
  import opened RouteTable
  import opened RouteLock
  import opened RouteSerial
  import opened LostDelete
  import R = Reconciler

  // A Sync alone, every call arriving.
  lemma SyncRuns(cfg: Config, hasBase: bool, s: State, e: Entry, app: App) returns (end: State)
    requires s.server.Some? && s.holder == None && s.todo == [Locked(e)] && s.entries == [e]
    requires SyncedApp(e) == Some(app.id) && GetApp(s.db.apps, app.id) == Some(app)
    ensures Leads(cfg, hasBase, s, end) && end.holder.None? && end.todo == [[]] && end.db == s.db
    ensures end.server == Some(R.Sync(cfg, s.db, app, s.server.value))
  {
    var s2 := SyncBegins(cfg, hasBase, s, e, app.id);
    var s3 := PartRuns(cfg, hasBase, s2, Apply(app.id), [Control, Prune, Unlock]);
    LeadsOn(cfg, hasBase, s, s2, s3);
    end := SyncEnds(cfg, hasBase, s3);
    LeadsOn(cfg, hasBase, s, s3, end);
  }

  lemma SyncBegins(cfg: Config, hasBase: bool, s: State, e: Entry, appID: string) returns (end: State)
    requires s.server.Some? && s.holder == None && s.todo == [Locked(e)] && s.entries == [e] && SyncedApp(e) == Some(appID)
    ensures Leads(cfg, hasBase, s, end) && Alone(end, [Apply(appID)] + [Control, Prune, Unlock])
    ensures end.server == s.server && end.db == s.db
  {
    var body := [Apply(appID)] + [Control, Prune, Unlock];
    var s1 := s.(holder := Some(0), todo := [[EnsureBase] + body], log := s.log + [Began(e)]);
    end := s1.(todo := [body], log := s1.log + [Ran(EnsureBase, s.db)]);
    LeadsSelf(cfg, hasBase, end);
    assert s1.todo[0][1..] == body;
    StepLeads(cfg, hasBase, s1, Run(0), end, end);
    assert Locked(e)[1..] == [EnsureBase] + body;
    StepLeads(cfg, hasBase, s, Run(0), s1, end);
  }

  // The rows with the flag of one app turned.
  predicate FlagTurned(before: DB, after: DB, id: string, on: bool) {
    && after.services == before.services && after.domains == before.domains && |after.apps| == |before.apps|
    && forall i :: 0 <= i < |before.apps| ==>
         after.apps[i] == if before.apps[i].id == id then before.apps[i].(maintenanceActive := on) else before.apps[i]
  }

  lemma GetFlagged(db: DB, app: App, on: bool)
    requires ValidDB(db) && app in db.apps
    ensures GetApp(SetMaintenance(db, app.id, on).apps, app.id) == Some(app.(maintenanceActive := on))
    ensures FlagTurned(db, SetMaintenance(db, app.id, on), app.id, on) && ValidDB(SetMaintenance(db, app.id, on))
  {
    var after := SetMaintenance(db, app.id, on);
    var i :| 0 <= i < |db.apps| && db.apps[i] == app;
    assert after.apps[i] == app.(maintenanceActive := on);
    GetAppIs(after, app.(maintenanceActive := on));
  }

  // The flag step, and then the Sync.
  lemma ToggleRuns(cfg: Config, hasBase: bool, s: State, e: Entry, flag: Instr, app: App, on: bool) returns (end: State)
    requires ValidDB(s.db) && app in s.db.apps && s.server.Some? && s.holder == None && s.entries == [e]
    requires s.todo == [[flag] + Locked(e)] && flag.Flag() && flag.appID == app.id && flag.SetFlag? == on
    requires FlagWrites(s.db, flag) && SyncedApp(e) == Some(app.id)
    ensures Leads(cfg, hasBase, s, end) && end.holder.None? && end.todo == [[]] && FlagTurned(s.db, end.db, app.id, on)
    ensures end.server == Some(R.Sync(cfg, SetMaintenance(s.db, app.id, on), app.(maintenanceActive := on), s.server.value))
  {
    GetFlagged(s.db, app, on);
    var s1 := FlagStep(cfg, hasBase, s, e, flag);
    end := SyncRuns(cfg, hasBase, s1, e, app.(maintenanceActive := on));
    LeadsOn(cfg, hasBase, s, s1, end);
  }

  lemma FlagStep(cfg: Config, hasBase: bool, s: State, e: Entry, flag: Instr) returns (end: State)
    requires s.entries == [e] && s.todo == [[flag] + Locked(e)] && flag.Flag() && FlagWrites(s.db, flag)
    ensures end == s.(db := SetMaintenance(s.db, flag.appID, flag.SetFlag?), todo := [Locked(e)])
    ensures Leads(cfg, hasBase, s, end)
  {
    end := s.(db := SetMaintenance(s.db, flag.appID, flag.SetFlag?), todo := [Locked(e)]);
    assert ([flag] + Locked(e))[1..] == Locked(e);
    LeadsSelf(cfg, hasBase, end);
    StepLeads(cfg, hasBase, s, Run(0), end, end);
  }

  // MaintainOn alone ends with the flag set and the app's page on every route of it.
  lemma MaintainOnShows(cfg: Config, hasBase: bool, s: State, app: App) returns (end: State)
    requires ValidDB(s.db) && app in s.db.apps && s.server.Some? && DistinctIDs(s.server.value)
    requires s.holder == None && s.entries == [MaintainOn(app.id)] && s.todo == [Code(MaintainOn(app.id))]
    ensures Leads(cfg, hasBase, s, end) && end.holder.None? && end.todo == [[]] && end.server.Some?
    ensures FlagTurned(s.db, end.db, app.id, true)
    ensures forall spec :: spec in SpecsOf(cfg, s.db, app) ==>
      Lookup(end.server.value, spec.id) == Some(MaintenanceRoute(spec.id, spec.hostname, app.maintenancePage))
  {
    GetAppIs(s.db, app);
    end := ToggleRuns(cfg, hasBase, s, MaintainOn(app.id), SetFlag(app.id), app, true);
    forall spec | spec in SpecsOf(cfg, s.db, app)
      ensures Lookup(end.server.value, spec.id) == Some(MaintenanceRoute(spec.id, spec.hostname, app.maintenancePage))
    {
      FlagDecides(cfg, s.db, app, true, s.server.value, spec);
    }
  }

  // MaintainOff alone clears a flag that is on and not held by the operator, and no route
  // shows the page any more.
  lemma MaintainOffShows(cfg: Config, hasBase: bool, s: State, app: App) returns (end: State)
    requires ValidDB(s.db) && app in s.db.apps && s.server.Some? && DistinctIDs(s.server.value)
    requires s.holder == None && s.entries == [MaintainOff(app.id)] && s.todo == [Code(MaintainOff(app.id))]
    requires app.maintenanceActive && !app.maintenanceMode
    ensures Leads(cfg, hasBase, s, end) && end.holder.None? && end.todo == [[]] && end.server.Some?
    ensures FlagTurned(s.db, end.db, app.id, false)
    ensures forall spec :: spec in SpecsOf(cfg, s.db, app) ==>
      Lookup(end.server.value, spec.id) != Some(MaintenanceRoute(spec.id, spec.hostname, app.maintenancePage))
  {
    GetAppIs(s.db, app);
    end := ToggleRuns(cfg, hasBase, s, MaintainOff(app.id), ClearFlag(app.id), app, false);
    forall spec | spec in SpecsOf(cfg, s.db, app)
      ensures Lookup(end.server.value, spec.id) != Some(MaintenanceRoute(spec.id, spec.hostname, app.maintenancePage))
    {
      FlagDecides(cfg, s.db, app, false, s.server.value, spec);
    }
  }

  // It does nothing at all when the flag is off or the operator holds the app in
  // maintenance.
  lemma MaintainOffKeeps(cfg: Config, hasBase: bool, s: State, app: App)
    requires ValidDB(s.db) && app in s.db.apps && s.entries == [MaintainOff(app.id)] && s.todo == [Code(MaintainOff(app.id))]
    requires !app.maintenanceActive || app.maintenanceMode
    ensures Enabled(s, Run(0)) && Next(cfg, hasBase, s, Run(0)) == s.(todo := [[]])
  {
    GetAppIs(s.db, app);
  }
}
