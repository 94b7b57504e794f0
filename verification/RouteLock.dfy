// Concurrent route operations under routeMu: every entry point of the manager as a
// goroutine that performs one admin call per step, any of which may be lost
// (proxy/manager.go, caddy/client.go).
module RouteLock {
  import opened Text
  import opened Names
  import opened ProxyModel
  import opened RouteTable
  import R = Reconciler

  datatype Entry =
    | Sync(appID: string)
    | Teardown(appID: string)
    | InstallWakeRoutes(appID: string)
    | Reconcile
    | SyncCerts
    | MaintainOn(appID: string)
    | MaintainOff(appID: string)

  datatype Instr =
    // routeMu
    | Lock
    | Unlock
    // store writes of MaintainOn/Off, made outside the lock
    | SetFlag(appID: string)
    | ClearFlag(appID: string)
    // single admin calls
    | EnsureBase
    | Del(id: string)
    | Add(route: Route)
    // parts whose calls are read off the database and the table when they are reached
    | Apply(appID: string)
    | ApplyEvery
    | Control
    | Prune
    | Clear(appID: string)
    | Swap(appID: string)
  {
    predicate Compound() { Apply? || ApplyEvery? || Control? || Prune? || Clear? || Swap? }
    predicate Call() { Del? || Add? }
    predicate Work() { Compound() || EnsureBase? || Call() }
    predicate Flag() { SetFlag? || ClearFlag? }
    // A single call can be lost, and a part that reads the store or the table can fail
    // before its first call.
    predicate CanFail() { Work() && !Control? }
  }

  function Body(e: Entry): seq<Instr> {
    match e
    case Sync(a) => [EnsureBase, Apply(a), Control, Prune]
    case Teardown(a) => [Clear(a)]
    case InstallWakeRoutes(a) => [EnsureBase, Swap(a)]
    case Reconcile => [EnsureBase, ApplyEvery, Control, Prune]
    case SyncCerts => [EnsureBase]
    case MaintainOn(a) => [EnsureBase, Apply(a), Control, Prune]
    case MaintainOff(a) => [EnsureBase, Apply(a), Control, Prune]
  }

  // MaintainOn/Off write the flag and then delegate to Sync.
  function Code(e: Entry): seq<Instr> {
    if e.MaintainOn? then [SetFlag(e.appID)] + Locked(e)
    else if e.MaintainOff? then [ClearFlag(e.appID)] + Locked(e)
    else Locked(e)
  }

  function Locked(e: Entry): seq<Instr> { [Lock] + Body(e) + [Unlock] }

  // ---- What the compound parts expand to ----

  function PutCalls(r: Route): seq<Instr> { [Del(r.id), Add(r)] }

  function ApplyCalls(cfg: Config, app: App, services: seq<Service>, specs: seq<RouteSpec>): seq<Instr> {
    if specs == [] then []
    else
      var last := specs[|specs| - 1];
      var r := Select(cfg, app, services, last);
      ApplyCalls(cfg, app, services, specs[..|specs| - 1]) + (if r.Some? then PutCalls(r.value) else [Del(last.id)])
  }

  function SwapCalls(cfg: Config, specs: seq<RouteSpec>): seq<Instr> {
    if specs == [] then []
    else
      var last := specs[|specs| - 1];
      var earlier := SwapCalls(cfg, specs[..|specs| - 1]);
      if last.redirectTo != "" then earlier else earlier + PutCalls(WakeRoute(cfg, last.id, last.hostname))
  }

  function ClearCalls(specs: seq<RouteSpec>): seq<Instr> {
    if specs == [] then [] else ClearCalls(specs[..|specs| - 1]) + [Del(specs[|specs| - 1].id)]
  }

  function PruneCalls(listing: Table, backed: set<string>): seq<Instr> {
    if listing == [] then []
    else
      var earlier := PruneCalls(listing[..|listing| - 1], backed);
      var id := listing[|listing| - 1].id;
      if R.Orphan(id, backed) then earlier + [Del(id)] else earlier
  }

  function EveryCalls(apps: seq<App>): seq<Instr> {
    seq(|apps|, i requires 0 <= i < |apps| => Apply(apps[i].id))
  }

  function Expand(cfg: Config, db: DB, server: Option<Table>, instr: Instr): seq<Instr>
    requires instr.Compound()
  {
    match instr
    case Apply(a) =>
      var app := GetApp(db.apps, a);
      if app.None? then [] else ApplyCalls(cfg, app.value, ServicesOf(db, a), SpecsOf(cfg, db, app.value))
    case ApplyEvery => EveryCalls(db.apps)
    case Control => if cfg.controlDomain == "" then [Del(CONTROL_ROUTE_ID)] else PutCalls(ControlRoute(cfg))
    case Prune => if server.None? then [] else PruneCalls(server.value, R.BackedIDs(cfg, db))
    case Clear(a) =>
      var app := GetApp(db.apps, a);
      if app.None? then [] else ClearCalls(SpecsOf(cfg, db, app.value))
    case Swap(a) =>
      var app := GetApp(db.apps, a);
      if app.None? then [] else SwapCalls(cfg, SpecsOf(cfg, db, app.value))
  }

  // The effect of one admin call.
  function Exec(hasBase: bool, server: Option<Table>, instr: Instr): Option<Table> {
    match instr
    case EnsureBase => if server.None? && hasBase then Some([]) else server
    case Del(id) => if server.Some? then Some(Delete(server.value, id)) else None
    case Add(r) => if server.Some? then Some(server.value + [r]) else None
    case _ => server
  }

  // ---- The maintenance flag ----

  function MarkMaintenance(apps: seq<App>, id: string, on: bool): (r: seq<App>)
    ensures |r| == |apps|
    ensures forall i {:trigger r[i]} :: 0 <= i < |apps| ==>
      r[i] == if apps[i].id == id then apps[i].(maintenanceActive := on) else apps[i]
  {
    seq(|apps|, i requires 0 <= i < |apps| => if apps[i].id == id then apps[i].(maintenanceActive := on) else apps[i])
  }

  function SetMaintenance(db: DB, id: string, on: bool): DB { db.(apps := MarkMaintenance(db.apps, id, on)) }

  // SetAppMaintenanceActive finds the row; ClearAppMaintenanceActiveIfManualOff finds it
  // in effect and not held by the operator. Otherwise nothing is written and the caller
  // returns without a Sync.
  predicate FlagWrites(db: DB, instr: Instr)
    requires instr.Flag()
  {
    var app := GetApp(db.apps, instr.appID);
    app.Some? && (instr.ClearFlag? ==> app.value.maintenanceActive && !app.value.maintenanceMode)
  }

  // ---- The machine ----

  // What the operations did, in order: which one took the lock, each part it reached
  // with the database that part read, and restarts of the proxy.
  datatype Event = Began(entry: Entry) | Ran(part: Instr, db: DB) | Restarted

  datatype State = State(server: Option<Table>, db: DB, holder: Option<nat>, todo: seq<seq<Instr>>,
                         entries: seq<Entry>, log: seq<Event>)

  datatype Step =
    | Run(i: nat)          // goroutine i performs its next instruction
    | CallFails(i: nat)    // its next call is lost, or the reads its next part starts with fail
    | AttachFails(i: nat)  // the network attach before its next replacement fails, which skips it
    | GiveUp(i: nat)       // its flag write fails
    | StoreWrite(db: DB)   // anyone changes the database
    | CaddyRestart         // the proxy comes back with its bootstrap configuration

  predicate AtReplacement(todo: seq<Instr>) { |todo| > 1 && todo[0].Del? && todo[1].Add? && todo[1].route.id == todo[0].id }

  predicate Enabled(s: State, step: Step) {
    match step
    case Run(i) => i < |s.todo| && s.todo[i] != [] && (s.todo[i][0].Lock? ==> s.holder.None?)
    case CallFails(i) => i < |s.todo| && s.todo[i] != [] && s.todo[i][0].CanFail()
    case AttachFails(i) => i < |s.todo| && AtReplacement(s.todo[i])
    case GiveUp(i) => i < |s.todo| && s.todo[i] != [] && s.todo[i][0].Flag()
    case StoreWrite(_) => true
    case CaddyRestart => true
  }

  // Reconcile returns when it cannot list the apps; every other failure is passed over.
  function AfterFailure(todo: seq<Instr>): seq<Instr>
    requires todo != []
  {
    if todo[0].ApplyEvery? then todo[|todo| - 1..] else todo[1..]
  }

  function Next(cfg: Config, hasBase: bool, s: State, step: Step): State
    requires Enabled(s, step) && |s.entries| == |s.todo|
  {
    match step
    case StoreWrite(db) => s.(db := db)
    case CaddyRestart => s.(server := None, log := s.log + [Restarted])
    case CallFails(i) => s.(todo := s.todo[i := AfterFailure(s.todo[i])])
    case AttachFails(i) => s.(todo := s.todo[i := s.todo[i][2..]])
    case GiveUp(i) => s.(todo := s.todo[i := []])
    case Run(i) =>
      var instr, rest := s.todo[i][0], s.todo[i][1..];
      var moved := s.(todo := s.todo[i := rest]);
      if instr.Lock? then moved.(holder := Some(i), log := s.log + [Began(s.entries[i])])
      else if instr.Unlock? then moved.(holder := None)
      else if instr.Flag() then
        if FlagWrites(s.db, instr) then moved.(db := SetMaintenance(s.db, instr.appID, instr.SetFlag?))
        else s.(todo := s.todo[i := []])
      else if instr.Compound() then
        s.(todo := s.todo[i := Expand(cfg, s.db, s.server, instr) + rest], log := s.log + [Ran(instr, s.db)])
      else if instr.EnsureBase? then
        moved.(server := Exec(hasBase, s.server, instr), log := s.log + [Ran(instr, s.db)])
      else moved.(server := Exec(hasBase, s.server, instr))
  }

  predicate Init(s: State) {
    && s.holder.None? && s.log == [] && |s.entries| == |s.todo|
    && (forall i :: 0 <= i < |s.todo| ==> s.todo[i] == Code(s.entries[i]))
    && (s.server.Some? ==> DistinctIDs(s.server.value))
  }

  // A run: states joined by enabled steps.
  ghost predicate IsRun(cfg: Config, hasBase: bool, states: seq<State>, steps: seq<Step>) {
    && |states| == |steps| + 1 && Init(states[0])
    && forall k :: 0 <= k < |steps| ==>
         |states[k].entries| == |states[k].todo| && Enabled(states[k], steps[k])
         && states[k + 1] == Next(cfg, hasBase, states[k], steps[k])
  }

  // ---- The lock ----

  // Inside the lock: work, then the unlock.
  predicate Inside(todo: seq<Instr>) {
    todo != [] && todo[|todo| - 1].Unlock? && forall k :: 0 <= k < |todo| - 1 ==> todo[k].Work()
  }

  // Outside: finished, or a lock with its section, possibly after a flag write.
  predicate Outside(todo: seq<Instr>) {
    || todo == []
    || (todo[0].Lock? && Inside(todo[1..]))
    || (todo[0].Flag() && |todo| > 1 && todo[1].Lock? && Inside(todo[2..]))
  }

  // Every append directly follows the delete of its id, except one at the front, whose
  // delete is behind.
  predicate Paired(todo: seq<Instr>) {
    forall k :: 0 < k < |todo| && todo[k].Add? ==> todo[k - 1] == Del(todo[k].route.id)
  }

  predicate NoAppendFirst(todo: seq<Instr>) { todo != [] ==> !todo[0].Add? }

  // An id is mid-replacement: its delete was sent, its append is still to come.
  predicate Replacing(todo: seq<Instr>, id: string) { todo != [] && todo[0].Add? && todo[0].route.id == id }

  predicate Exclusive(s: State) {
    && |s.entries| == |s.todo|
    && (s.holder.Some? ==> s.holder.value < |s.todo|)
    && (forall i :: 0 <= i < |s.todo| ==> Paired(s.todo[i]) && if s.holder == Some(i) then Inside(s.todo[i]) else Outside(s.todo[i]))
  }

  lemma PairedConcat(a: seq<Instr>, b: seq<Instr>)
    requires Paired(a) && Paired(b) && NoAppendFirst(b)
    ensures Paired(a + b) && (NoAppendFirst(a) ==> NoAppendFirst(a + b))
  {
  }

  predicate AdminCalls(todo: seq<Instr>) { forall k :: 0 <= k < |todo| ==> todo[k].Work() }

  lemma {:induction false} ApplyCallsPaired(cfg: Config, app: App, services: seq<Service>, specs: seq<RouteSpec>)
    ensures Paired(ApplyCalls(cfg, app, services, specs)) && NoAppendFirst(ApplyCalls(cfg, app, services, specs))
    ensures AdminCalls(ApplyCalls(cfg, app, services, specs))
  {
    if specs != [] {
      ApplyCallsPaired(cfg, app, services, specs[..|specs| - 1]);
      var last := specs[|specs| - 1];
      var r := Select(cfg, app, services, last);
      PairedConcat(ApplyCalls(cfg, app, services, specs[..|specs| - 1]), if r.Some? then PutCalls(r.value) else [Del(last.id)]);
    }
  }

  lemma {:induction false} SwapCallsPaired(cfg: Config, specs: seq<RouteSpec>)
    ensures Paired(SwapCalls(cfg, specs)) && NoAppendFirst(SwapCalls(cfg, specs))
    ensures AdminCalls(SwapCalls(cfg, specs))
  {
    if specs != [] {
      SwapCallsPaired(cfg, specs[..|specs| - 1]);
      var last := specs[|specs| - 1];
      PairedConcat(SwapCalls(cfg, specs[..|specs| - 1]), PutCalls(WakeRoute(cfg, last.id, last.hostname)));
    }
  }

  lemma {:induction false} ClearCallsPaired(specs: seq<RouteSpec>)
    ensures Paired(ClearCalls(specs)) && NoAppendFirst(ClearCalls(specs))
    ensures AdminCalls(ClearCalls(specs))
  {
    if specs != [] {
      ClearCallsPaired(specs[..|specs| - 1]);
    }
  }

  lemma {:induction false} PruneCallsPaired(listing: Table, backed: set<string>)
    ensures Paired(PruneCalls(listing, backed)) && NoAppendFirst(PruneCalls(listing, backed))
    ensures AdminCalls(PruneCalls(listing, backed))
  {
    if listing != [] {
      PruneCallsPaired(listing[..|listing| - 1], backed);
    }
  }

  lemma ExpandPaired(cfg: Config, db: DB, server: Option<Table>, instr: Instr)
    requires instr.Compound()
    ensures Paired(Expand(cfg, db, server, instr)) && NoAppendFirst(Expand(cfg, db, server, instr))
    ensures AdminCalls(Expand(cfg, db, server, instr))
  {
    match instr
    case Apply(a) =>
      var app := GetApp(db.apps, a);
      if app.Some? {
        ApplyCallsPaired(cfg, app.value, ServicesOf(db, a), SpecsOf(cfg, db, app.value));
      }
    case Clear(a) =>
      var app := GetApp(db.apps, a);
      if app.Some? {
        ClearCallsPaired(SpecsOf(cfg, db, app.value));
      }
    case Swap(a) =>
      var app := GetApp(db.apps, a);
      if app.Some? {
        SwapCallsPaired(cfg, SpecsOf(cfg, db, app.value));
      }
    case Prune =>
      if server.Some? {
        PruneCallsPaired(server.value, R.BackedIDs(cfg, db));
      }
    case ApplyEvery =>
    case Control =>
  }

  lemma LockedInside(e: Entry)
    ensures Locked(e)[0] == Lock && Inside(Locked(e)[1..]) && forall k :: 0 <= k < |Locked(e)| ==> !Locked(e)[k].Add?
  {
    assert Locked(e)[1..] == Body(e) + [Unlock];
  }

  lemma CodeOutside(e: Entry)
    ensures Outside(Code(e)) && Paired(Code(e))
  {
    LockedInside(e);
    if e.MaintainOn? || e.MaintainOff? {
      assert Code(e)[1..] == Locked(e) && Code(e)[2..] == Locked(e)[1..];
    }
  }

  lemma InitExclusive(s: State)
    requires Init(s)
    ensures Exclusive(s)
  {
    forall i | 0 <= i < |s.todo| ensures Outside(s.todo[i]) && Paired(s.todo[i]) {
      CodeOutside(s.entries[i]);
    }
  }

  lemma PairedTail(todo: seq<Instr>, n: nat)
    requires Paired(todo) && n <= |todo|
    ensures Paired(todo[n..])
  {
  }

  // One step of a goroutine keeps its own shape.
  lemma MoveKeepsShape(cfg: Config, hasBase: bool, s: State, step: Step)
    requires Exclusive(s) && Enabled(s, step) && !step.StoreWrite? && !step.CaddyRestart?
    ensures var s', i := Next(cfg, hasBase, s, step), step.i;
      && s'.entries == s.entries && |s'.todo| == |s.todo| && (s'.holder.Some? ==> s'.holder.value < |s'.todo|)
      && Paired(s'.todo[i])
      && (if s'.holder == Some(i) then Inside(s'.todo[i]) else Outside(s'.todo[i]))
      && (s'.holder == s.holder || (s.holder.None? && s'.holder == Some(i)) || (s.holder == Some(i) && s'.holder.None?))
  {
    var todo := s.todo[step.i];
    PairedTail(todo, 1);
    if step.Run? && todo[0].Compound() {
      CompoundKeepsShape(cfg, s, step.i);
    } else if step.CallFails? && todo[0].ApplyEvery? {
      PairedTail(todo, |todo| - 1);
    } else if step.AttachFails? {
      PairedTail(todo, 2);
    } else if |todo| > 1 {
      assert todo[1..][1..] == todo[2..];
    }
  }

  lemma CompoundKeepsShape(cfg: Config, s: State, i: nat)
    requires Exclusive(s) && i < |s.todo| && s.todo[i] != [] && s.todo[i][0].Compound()
    ensures s.holder == Some(i)
    ensures var calls := Expand(cfg, s.db, s.server, s.todo[i][0]) + s.todo[i][1..]; Inside(calls) && Paired(calls)
  {
    var instr, rest := s.todo[i][0], s.todo[i][1..];
    ExpandPaired(cfg, s.db, s.server, instr);
    PairedTail(s.todo[i], 1);
    assert NoAppendFirst(rest) by {
      assert rest[0] == s.todo[i][1];
    }
    PairedConcat(Expand(cfg, s.db, s.server, instr), rest);
  }

  lemma NextExclusive(cfg: Config, hasBase: bool, s: State, step: Step)
    requires Exclusive(s) && Enabled(s, step)
    ensures Exclusive(Next(cfg, hasBase, s, step))
  {
    if !step.StoreWrite? && !step.CaddyRestart? {
      var s' := Next(cfg, hasBase, s, step);
      MoveKeepsShape(cfg, hasBase, s, step);
      forall j | 0 <= j < |s'.todo| && j != step.i
        ensures Paired(s'.todo[j]) && if s'.holder == Some(j) then Inside(s'.todo[j]) else Outside(s'.todo[j])
      {
        assert s'.todo[j] == s.todo[j];
      }
    }
  }

  lemma {:induction false} RunExclusive(cfg: Config, hasBase: bool, states: seq<State>, steps: seq<Step>, k: nat)
    requires IsRun(cfg, hasBase, states, steps) && k < |states|
    ensures Exclusive(states[k])
  {
    if k == 0 {
      InitExclusive(states[0]);
    } else {
      RunExclusive(cfg, hasBase, states, steps, k - 1);
      assert Enabled(states[k - 1], steps[k - 1]);
      NextExclusive(cfg, hasBase, states[k - 1], steps[k - 1]);
    }
  }

  // In every state of every run, whatever fails, at most one id of one goroutine is
  // mid-replacement, and that goroutine holds the lock.
  lemma OneReplacementAtATime(cfg: Config, hasBase: bool, states: seq<State>, steps: seq<Step>, k: nat,
                              i: nat, j: nat, id1: string, id2: string)
    requires IsRun(cfg, hasBase, states, steps) && k < |states|
    requires i < |states[k].todo| && j < |states[k].todo|
    requires Replacing(states[k].todo[i], id1) && Replacing(states[k].todo[j], id2)
    ensures i == j && id1 == id2 && states[k].holder == Some(i)
  {
    RunExclusive(cfg, hasBase, states, steps, k);
  }

  // No goroutine ever asks for the lock while holding it, and as long as one has
  // something left to do, some goroutine can move: routeMu cannot deadlock.
  lemma NoDeadlock(cfg: Config, hasBase: bool, states: seq<State>, steps: seq<Step>, k: nat, i: nat)
    requires IsRun(cfg, hasBase, states, steps) && k < |states|
    requires i < |states[k].todo| && states[k].todo[i] != []
    ensures states[k].todo[i][0].Lock? ==> states[k].holder != Some(i)
    ensures exists j :: Enabled(states[k], Run(j))
  {
    RunExclusive(cfg, hasBase, states, steps, k);
    var s := states[k];
    var j := if s.holder.Some? then s.holder.value else i;
    assert Enabled(s, Run(j));
  }

  // ---- Distinct ids ----

  predicate DistinctTable(s: State) { s.server.Some? ==> DistinctIDs(s.server.value) }

  predicate Present(s: State, id: string) { s.server.Some? && HasID(s.server.value, id) }

  // Step k loses the delete of a replacement while the id is in the table.
  predicate LosesDelete(states: seq<State>, steps: seq<Step>, k: nat, i: nat, id: string) {
    && k < |steps| && |states| == |steps| + 1 && steps[k] == CallFails(i) && i < |states[k].todo|
    && AtReplacement(states[k].todo[i]) && states[k].todo[i][0] == Del(id) && Present(states[k], id)
  }

  // Between states k and m the goroutine has not moved on from what follows its step k.
  predicate Waits(states: seq<State>, i: nat, k: nat, m: nat) {
    && k < m < |states| && i < |states[k].todo| && states[k].todo[i] != []
    && forall j :: k < j <= m ==> i < |states[j].todo| && states[j].todo[i] == states[k].todo[i][1..]
  }

  ghost predicate LostSince(states: seq<State>, steps: seq<Step>, i: nat, id: string, m: nat) {
    exists k: nat :: LosesDelete(states, steps, k, i, id) && Waits(states, i, k, m)
  }

  // Step m is the append that follows such a lost delete, and the proxy has not been
  // restarted in between.
  ghost predicate AppendsAfterLostDelete(states: seq<State>, steps: seq<Step>, m: nat) {
    m < |steps| && m < |states| && steps[m].Run? && states[m].server.Some?
    && exists id :: LostSince(states, steps, steps[m].i, id, m)
  }

  // While one goroutine stands at an append nobody else touches the table, short of a
  // restart of the proxy.
  lemma WaitStep(cfg: Config, hasBase: bool, s: State, step: Step, i: nat)
    requires Exclusive(s) && Enabled(s, step) && i < |s.todo| && s.todo[i] != [] && s.todo[i][0].Add?
    requires Next(cfg, hasBase, s, step).todo[i] == s.todo[i]
    ensures var s' := Next(cfg, hasBase, s, step); s'.server == s.server || s'.server == None
  {
    assert s.holder == Some(i);
  }

  // One step of a run, taken out of it.
  lemma StepOf(cfg: Config, hasBase: bool, states: seq<State>, steps: seq<Step>, k: nat)
    requires IsRun(cfg, hasBase, states, steps) && k < |steps|
    ensures Exclusive(states[k]) && Enabled(states[k], steps[k]) && states[k + 1] == Next(cfg, hasBase, states[k], steps[k])
  {
    RunExclusive(cfg, hasBase, states, steps, k);
  }

  predicate TableKept(before: State, after: State) { after.server == before.server || after.server == None }

  lemma WaitedStep(cfg: Config, hasBase: bool, s: State, step: Step, s': State, i: nat, todo: seq<Instr>)
    requires Exclusive(s) && Enabled(s, step) && s' == Next(cfg, hasBase, s, step)
    requires i < |s.todo| && i < |s'.todo| && s.todo[i] == todo && s'.todo[i] == todo && todo != [] && todo[0].Add?
    ensures TableKept(s, s')
  {
    WaitStep(cfg, hasBase, s, step, i);
  }

  lemma LossKeepsTable(cfg: Config, hasBase: bool, s: State, step: Step, s': State)
    requires Enabled(s, step) && |s.entries| == |s.todo| && s' == Next(cfg, hasBase, s, step) && step.CallFails?
    ensures s'.server == s.server
  {
  }

  lemma LossStep(cfg: Config, hasBase: bool, states: seq<State>, steps: seq<Step>, i: nat, k: nat)
    requires IsRun(cfg, hasBase, states, steps) && k < |steps| && steps[k] == CallFails(i)
    ensures TableKept(states[k], states[k + 1])
  {
    StepOf(cfg, hasBase, states, steps, k);
    LossKeepsTable(cfg, hasBase, states[k], steps[k], states[k + 1]);
  }

  lemma WaitedOn(cfg: Config, hasBase: bool, states: seq<State>, steps: seq<Step>, i: nat, m: nat, todo: seq<Instr>)
    requires IsRun(cfg, hasBase, states, steps) && m < |steps| && i < |states[m].todo| && i < |states[m + 1].todo|
    requires states[m].todo[i] == todo && states[m + 1].todo[i] == todo && todo != [] && todo[0].Add?
    ensures TableKept(states[m], states[m + 1])
  {
    StepOf(cfg, hasBase, states, steps, m);
    WaitedStep(cfg, hasBase, states[m], steps[m], states[m + 1], i, todo);
  }

  lemma {:induction false} WaitKeepsTable(cfg: Config, hasBase: bool, states: seq<State>, steps: seq<Step>, i: nat, k: nat, m: nat)
    requires IsRun(cfg, hasBase, states, steps) && k < m < |states| && Waits(states, i, k, m)
    requires AtReplacement(states[k].todo[i]) && steps[k] == CallFails(i)
    ensures TableKept(states[k], states[m])
  {
    if m == k + 1 {
      LossStep(cfg, hasBase, states, steps, i, k);
    } else {
      WaitKeepsTable(cfg, hasBase, states, steps, i, k, m - 1);
      WaitedOn(cfg, hasBase, states, steps, i, m - 1, states[k].todo[i][1..]);
    }
  }

  // Every append that is still to come finds its id gone, unless its delete was lost.
  ghost predicate Explained(states: seq<State>, steps: seq<Step>, k: nat)
    requires k < |states|
  {
    forall i: nat, id: string ::
      i < |states[k].todo| && Replacing(states[k].todo[i], id) && Present(states[k], id) ==> LostSince(states, steps, i, id, k)
  }

  lemma LostExtends(states: seq<State>, steps: seq<Step>, i: nat, id: string, k: nat)
    requires k + 1 < |states| && LostSince(states, steps, i, id, k) && i < |states[k].todo| && i < |states[k + 1].todo|
    requires states[k + 1].todo[i] == states[k].todo[i]
    ensures LostSince(states, steps, i, id, k + 1)
  {
    var k0: nat :| LosesDelete(states, steps, k0, i, id) && Waits(states, i, k0, k);
    assert Waits(states, i, k0, k + 1);
  }

  // What brings a goroutine to an append: the delete before it, sent or lost.
  lemma ReachesAppend(cfg: Config, hasBase: bool, s: State, step: Step, id: string)
    requires Exclusive(s) && Enabled(s, step) && !step.StoreWrite? && !step.CaddyRestart?
    requires Replacing(Next(cfg, hasBase, s, step).todo[step.i], id)
    ensures (step.Run? || step.CallFails?) && AtReplacement(s.todo[step.i]) && s.todo[step.i][0] == Del(id)
  {
    var todo := s.todo[step.i];
    if step.Run? && todo[0].Compound() {
      var calls, rest := Expand(cfg, s.db, s.server, todo[0]), todo[1..];
      ExpandPaired(cfg, s.db, s.server, todo[0]);
      CompoundKeepsShape(cfg, s, step.i);
      assert rest[0] == todo[1];
      assert (calls + rest)[0] == if calls == [] then rest[0] else calls[0];
    }
  }

  lemma NextExplained(cfg: Config, hasBase: bool, states: seq<State>, steps: seq<Step>, k: nat)
    requires IsRun(cfg, hasBase, states, steps) && k < |steps|
    requires DistinctTable(states[k]) && Explained(states, steps, k)
    ensures Explained(states, steps, k + 1)
  {
    forall i: nat, id: string {:trigger Replacing(states[k + 1].todo[i], id)} | i < |states[k + 1].todo| && Replacing(states[k + 1].todo[i], id) && Present(states[k + 1], id)
      ensures LostSince(states, steps, i, id, k + 1)
    {
      ExplainedNext(cfg, hasBase, states, steps, k, i, id);
    }
  }

  lemma ExplainedNext(cfg: Config, hasBase: bool, states: seq<State>, steps: seq<Step>, k: nat, i: nat, id: string)
    requires IsRun(cfg, hasBase, states, steps) && k < |steps|
    requires DistinctTable(states[k]) && Explained(states, steps, k)
    requires i < |states[k + 1].todo| && Replacing(states[k + 1].todo[i], id) && Present(states[k + 1], id)
    ensures LostSince(states, steps, i, id, k + 1)
  {
    StepSize(cfg, hasBase, states, steps, k);
    if states[k + 1].todo[i] == states[k].todo[i] {
      WaitedOn(cfg, hasBase, states, steps, i, k, states[k].todo[i]);
      LostExtends(states, steps, i, id, k);
    } else {
      LostAt(cfg, hasBase, states, steps, k, i, id);
    }
  }

  lemma StepSize(cfg: Config, hasBase: bool, states: seq<State>, steps: seq<Step>, k: nat)
    requires IsRun(cfg, hasBase, states, steps) && k < |steps|
    ensures |states[k + 1].todo| == |states[k].todo|
  {
    StepOf(cfg, hasBase, states, steps, k);
  }

  lemma LostAt(cfg: Config, hasBase: bool, states: seq<State>, steps: seq<Step>, k: nat, i: nat, id: string)
    requires IsRun(cfg, hasBase, states, steps) && k < |steps| && DistinctTable(states[k])
    requires i < |states[k].todo| && i < |states[k + 1].todo| && states[k + 1].todo[i] != states[k].todo[i]
    requires Replacing(states[k + 1].todo[i], id) && Present(states[k + 1], id)
    ensures LostSince(states, steps, i, id, k + 1)
  {
    StepOf(cfg, hasBase, states, steps, k);
    LostJustNow(cfg, hasBase, states[k], steps[k], states[k + 1], i, id);
    LostStarts(states, steps, i, id, k);
  }

  lemma LostStarts(states: seq<State>, steps: seq<Step>, i: nat, id: string, k: nat)
    requires LosesDelete(states, steps, k, i, id) && i < |states[k + 1].todo| && states[k + 1].todo[i] == states[k].todo[i][1..]
    ensures LostSince(states, steps, i, id, k + 1)
  {
    assert Waits(states, i, k, k + 1);
  }

  // A goroutine that has just come to an append whose id is in the table lost its delete.
  lemma LostJustNow(cfg: Config, hasBase: bool, s: State, step: Step, s': State, i: nat, id: string)
    requires Exclusive(s) && DistinctTable(s) && Enabled(s, step) && s' == Next(cfg, hasBase, s, step)
    requires i < |s.todo| && i < |s'.todo| && s'.todo[i] != s.todo[i] && Replacing(s'.todo[i], id) && Present(s', id)
    ensures step == CallFails(i) && AtReplacement(s.todo[i]) && s.todo[i][0] == Del(id) && Present(s, id)
    ensures s'.todo[i] == s.todo[i][1..]
  {
    MovesItself(cfg, hasBase, s, step, i);
    ReachesAppend(cfg, hasBase, s, step, id);
    if step.Run? {
      DeleteLookup(s.server.value, id, id);
    }
  }

  lemma MovesItself(cfg: Config, hasBase: bool, s: State, step: Step, i: nat)
    requires |s.entries| == |s.todo| && Enabled(s, step) && i < |s.todo| && Next(cfg, hasBase, s, step).todo[i] != s.todo[i]
    ensures !step.StoreWrite? && !step.CaddyRestart? && step.i == i
  {
  }

  lemma StepDistinct(cfg: Config, hasBase: bool, s: State, step: Step)
    requires |s.entries| == |s.todo| && Enabled(s, step) && DistinctTable(s)
    requires step.Run? && s.todo[step.i][0].Add? ==> !Present(s, s.todo[step.i][0].route.id)
    ensures DistinctTable(Next(cfg, hasBase, s, step))
  {
    if step.Run? && s.server.Some? {
      var instr := s.todo[step.i][0];
      if instr.Del? {
        DeleteLookup(s.server.value, instr.id, instr.id);
      } else if instr.Add? {
        AppendDistinct(s.server.value, instr.route);
      }
    }
  }

  lemma AppendsFresh(states: seq<State>, steps: seq<Step>, k: nat)
    requires |states| == |steps| + 1 && k < |steps| && Explained(states, steps, k) && !AppendsAfterLostDelete(states, steps, k)
    requires steps[k].Run? && steps[k].i < |states[k].todo| && states[k].todo[steps[k].i] != [] && states[k].todo[steps[k].i][0].Add?
    ensures !Present(states[k], states[k].todo[steps[k].i][0].route.id)
  {
    assert Replacing(states[k].todo[steps[k].i], states[k].todo[steps[k].i][0].route.id);
  }

  lemma NextDistinct(cfg: Config, hasBase: bool, states: seq<State>, steps: seq<Step>, k: nat)
    requires IsRun(cfg, hasBase, states, steps) && k < |steps|
    requires DistinctTable(states[k]) && Explained(states, steps, k) && !AppendsAfterLostDelete(states, steps, k)
    ensures DistinctTable(states[k + 1])
  {
    StepOf(cfg, hasBase, states, steps, k);
    if steps[k].Run? && states[k].todo[steps[k].i][0].Add? {
      AppendsFresh(states, steps, k);
    }
    StepDistinct(cfg, hasBase, states[k], steps[k]);
  }

  lemma {:induction false} NoLossDistinct(cfg: Config, hasBase: bool, states: seq<State>, steps: seq<Step>, n: nat)
    requires IsRun(cfg, hasBase, states, steps) && n < |states|
    requires forall m: nat :: m < n ==> !AppendsAfterLostDelete(states, steps, m)
    ensures DistinctTable(states[n]) && Explained(states, steps, n)
  {
    if n == 0 {
      InitExclusive(states[0]);
    } else {
      NoLossDistinct(cfg, hasBase, states, steps, n - 1);
      NextDistinct(cfg, hasBase, states, steps, n - 1);
      NextExplained(cfg, hasBase, states, steps, n - 1);
    }
  }

  lemma LossDuplicates(cfg: Config, hasBase: bool, states: seq<State>, steps: seq<Step>, m: nat)
    requires IsRun(cfg, hasBase, states, steps) && AppendsAfterLostDelete(states, steps, m)
    ensures !DistinctTable(states[m]) || !DistinctTable(states[m + 1])
  {
    var i := steps[m].i;
    var id :| LostSince(states, steps, i, id, m);
    var k: nat :| LosesDelete(states, steps, k, i, id) && Waits(states, i, k, m);
    WaitKeepsTable(cfg, hasBase, states, steps, i, k, m);
    StepOf(cfg, hasBase, states, steps, m);
    assert states[m].todo[i] == states[k].todo[i][1..];
    AppendDuplicates(cfg, hasBase, states[m], i, id);
  }

  lemma AppendDuplicates(cfg: Config, hasBase: bool, s: State, i: nat, id: string)
    requires |s.entries| == |s.todo| && Enabled(s, Run(i)) && Replacing(s.todo[i], id) && Present(s, id)
    ensures !DistinctTable(s) || !DistinctTable(Next(cfg, hasBase, s, Run(i)))
  {
    if DistinctTable(s) {
      AppendDistinct(s.server.value, s.todo[i][0].route);
    }
  }

  // The lock's promise, for every run and whatever fails: ids are distinct in every
  // state up to n if and only if, up to n, no delete of an id then in the table was lost
  // and followed by its append.
  lemma DistinctIff(cfg: Config, hasBase: bool, states: seq<State>, steps: seq<Step>, n: nat)
    requires IsRun(cfg, hasBase, states, steps) && n < |states|
    ensures (forall k: nat :: k <= n ==> DistinctTable(states[k]))
      <==> (forall m: nat :: m < n ==> !AppendsAfterLostDelete(states, steps, m))
  {
    if forall m: nat :: m < n ==> !AppendsAfterLostDelete(states, steps, m) {
      forall k: nat | k <= n ensures DistinctTable(states[k]) {
        NoLossDistinct(cfg, hasBase, states, steps, k);
      }
    } else {
      var m: nat :| m < n && AppendsAfterLostDelete(states, steps, m);
      LossDuplicates(cfg, hasBase, states, steps, m);
    }
  }

  // Until the first such append, an id that is being replaced is absent from the table
  // if and only if its delete was not lost.
  lemma ReplacedIsGoneIff(cfg: Config, hasBase: bool, states: seq<State>, steps: seq<Step>, n: nat, i: nat, id: string)
    requires IsRun(cfg, hasBase, states, steps) && n < |states| && i < |states[n].todo|
    requires forall m: nat :: m < n ==> !AppendsAfterLostDelete(states, steps, m)
    requires Replacing(states[n].todo[i], id) && states[n].server.Some?
    ensures HasID(states[n].server.value, id) <==> LostSince(states, steps, i, id, n)
  {
    NoLossDistinct(cfg, hasBase, states, steps, n);
    if LostSince(states, steps, i, id, n) {
      var k: nat :| LosesDelete(states, steps, k, i, id) && Waits(states, i, k, n);
      WaitKeepsTable(cfg, hasBase, states, steps, i, k, n);
    }
  }

  // ---- Reachable duplicates ----

  function RunFrom(cfg: Config, hasBase: bool, s: State, steps: seq<Step>): Option<State>
    decreases |steps|
  {
    if steps == [] then Some(s)
    else if Enabled(s, steps[0]) && |s.entries| == |s.todo| then RunFrom(cfg, hasBase, Next(cfg, hasBase, s, steps[0]), steps[1..])
    else None
  }

  // Reachable by some steps.
  ghost predicate Leads(cfg: Config, hasBase: bool, s: State, t: State) {
    exists steps :: RunFrom(cfg, hasBase, s, steps) == Some(t)
  }

  lemma LeadsSelf(cfg: Config, hasBase: bool, s: State)
    ensures Leads(cfg, hasBase, s, s)
  {
    assert RunFrom(cfg, hasBase, s, []) == Some(s);
  }

  lemma StepLeads(cfg: Config, hasBase: bool, s: State, step: Step, t: State, end: State)
    requires |s.entries| == |s.todo| && Enabled(s, step) && Next(cfg, hasBase, s, step) == t && Leads(cfg, hasBase, t, end)
    ensures Leads(cfg, hasBase, s, end)
  {
    var steps :| RunFrom(cfg, hasBase, t, steps) == Some(end);
    assert ([step] + steps)[1..] == steps;
    assert RunFrom(cfg, hasBase, s, [step] + steps) == Some(end);
  }

  // Runs of the machine, without the condition on the first state.
  ghost predicate IsChain(cfg: Config, hasBase: bool, states: seq<State>, steps: seq<Step>) {
    && |states| == |steps| + 1
    && forall k :: 0 <= k < |steps| ==>
         |states[k].entries| == |states[k].todo| && Enabled(states[k], steps[k])
         && states[k + 1] == Next(cfg, hasBase, states[k], steps[k])
  }

  // What is reachable from a first state is reached by a run.
  lemma {:induction false} LeadsByRun(cfg: Config, hasBase: bool, s: State, steps: seq<Step>, t: State) returns (states: seq<State>)
    requires RunFrom(cfg, hasBase, s, steps) == Some(t)
    ensures IsChain(cfg, hasBase, states, steps) && states[0] == s && states[|steps|] == t
    ensures Init(s) ==> IsRun(cfg, hasBase, states, steps)
    decreases |steps|
  {
    if steps == [] {
      states := [s];
    } else {
      var rest := LeadsByRun(cfg, hasBase, Next(cfg, hasBase, s, steps[0]), steps[1..], t);
      states := [s] + rest;
      forall k | 0 <= k < |steps|
        ensures |states[k].entries| == |states[k].todo| && Enabled(states[k], steps[k])
          && states[k + 1] == Next(cfg, hasBase, states[k], steps[k])
      {
        if k > 0 {
          assert states[k] == rest[k - 1] && states[k + 1] == rest[k] && steps[k] == steps[1..][k - 1];
        }
      }
    }
  }

  // A Sync whose delete of the control route is lost, with the lock held throughout,
  // leaves two of them behind at its unlock.
  lemma LostDeleteDuplicates(cfg: Config, db: DB, appID: string, s: State, end: State)
    requires cfg.controlDomain != "" && GetApp(db.apps, appID).None?
    requires s == State(Some([ControlRoute(cfg)]), db, None, [Locked(Sync(appID))], [Sync(appID)], [])
    requires end == State(Some([ControlRoute(cfg), ControlRoute(cfg)]), db, None, [[]], [Sync(appID)], end.log)
    requires end.log == [Began(Sync(appID)), Ran(EnsureBase, db), Ran(Apply(appID), db), Ran(Control, db), Ran(Prune, db)]
    ensures Init(s) && Leads(cfg, true, s, end) && end.holder.None? && !DistinctIDs(end.server.value)
  {
    var c := ControlRoute(cfg);
    var log := [Began(Sync(appID)), Ran(EnsureBase, db), Ran(Apply(appID), db), Ran(Control, db)];
    var s4 := State(Some([c]), db, Some(0), [[Del(c.id), Add(c), Prune, Unlock]], [Sync(appID)], log);
    LostThenUnlocked(cfg, db, appID, s4, end);
    SyncReachesControl(cfg, db, appID, s, s4, end);
    assert end.server.value[0].id == end.server.value[1].id;
  }

  lemma SyncReachesControl(cfg: Config, db: DB, appID: string, s: State, t: State, end: State)
    requires cfg.controlDomain != "" && GetApp(db.apps, appID).None?
    requires s == State(Some([ControlRoute(cfg)]), db, None, [Locked(Sync(appID))], [Sync(appID)], [])
    requires t == s.(holder := Some(0), log := t.log,
                     todo := [[Del(CONTROL_ROUTE_ID), Add(ControlRoute(cfg)), Prune, Unlock]])
    requires t.log == [Began(Sync(appID)), Ran(EnsureBase, db), Ran(Apply(appID), db), Ran(Control, db)]
    requires Leads(cfg, true, t, end)
    ensures Leads(cfg, true, s, end)
  {
    var s1 := s.(holder := Some(0), todo := [[EnsureBase, Apply(appID), Control, Prune, Unlock]], log := [Began(Sync(appID))]);
    var s2 := s1.(todo := [[Apply(appID), Control, Prune, Unlock]], log := s1.log + [Ran(EnsureBase, db)]);
    var s3 := s2.(todo := [[Control, Prune, Unlock]], log := s2.log + [Ran(Apply(appID), db)]);
    assert PutCalls(ControlRoute(cfg)) + [Prune, Unlock] == t.todo[0];
    StepLeads(cfg, true, s3, Run(0), t, end);
    assert [] + s3.todo[0] == s3.todo[0];
    StepLeads(cfg, true, s2, Run(0), s3, end);
    StepLeads(cfg, true, s1, Run(0), s2, end);
    assert Locked(Sync(appID))[1..] == s1.todo[0];
    StepLeads(cfg, true, s, Run(0), s1, end);
  }

  lemma LostThenUnlocked(cfg: Config, db: DB, appID: string, s: State, end: State)
    requires s.server == Some([ControlRoute(cfg)]) && s.db == db && s.holder == Some(0) && s.entries == [Sync(appID)]
    requires s.todo == [[Del(CONTROL_ROUTE_ID), Add(ControlRoute(cfg)), Prune, Unlock]]
    requires end == s.(server := Some([ControlRoute(cfg), ControlRoute(cfg)]), holder := None, todo := [[]],
                       log := s.log + [Ran(Prune, db)])
    ensures Leads(cfg, true, s, end)
  {
    var c := ControlRoute(cfg);
    var s5 := s.(todo := [[Add(c), Prune, Unlock]]);
    var s6 := s5.(server := Some([c, c]), todo := [[Prune, Unlock]]);
    var s7 := s6.(todo := [[Unlock]], log := s.log + [Ran(Prune, db)]);
    LeadsSelf(cfg, true, end);
    assert s7.todo[0][1..] == [];
    StepLeads(cfg, true, s7, Run(0), end, end);
    RouteIDKindsDisjoint("", "", "");
    NothingToPrune([c, c], R.BackedIDs(cfg, db));
    assert [] + s7.todo[0] == s7.todo[0];
    StepLeads(cfg, true, s6, Run(0), s7, end);
    assert [c] + [c] == [c, c];
    StepLeads(cfg, true, s5, Run(0), s6, end);
    StepLeads(cfg, true, s, CallFails(0), s5, end);
  }

  lemma {:induction false} NothingToPrune(listing: Table, backed: set<string>)
    requires forall r :: r in listing ==> !R.Orphan(r.id, backed)
    ensures PruneCalls(listing, backed) == []
  {
    if listing != [] {
      NothingToPrune(listing[..|listing| - 1], backed);
    }
  }

  // Without the lock, with every call arriving, two Syncs at the same spot do the same:
  // both deletes, then both appends.
  lemma UnlockedSyncsDuplicate(cfg: Config, hasBase: bool, s: State, end: State, t: Table)
    requires s.server == Some(t) && |s.todo| == |s.entries| == 2
    requires s.todo[0] == s.todo[1] == [Del(CONTROL_ROUTE_ID), Add(ControlRoute(cfg)), Prune]
    requires end == s.(todo := [[Prune], [Prune]],
                       server := Some(Delete(Delete(t, CONTROL_ROUTE_ID), CONTROL_ROUTE_ID) + [ControlRoute(cfg)] + [ControlRoute(cfg)]))
    ensures Leads(cfg, hasBase, s, end) && !DistinctIDs(end.server.value)
  {
    var c := ControlRoute(cfg);
    var u := Delete(Delete(t, c.id), c.id);
    var whole, half := [Del(c.id), Add(c), Prune], [Add(c), Prune];
    assert s.todo == [whole, whole];
    var s1 := s.(server := Some(Delete(t, c.id)), todo := [half, whole]);
    var s2 := s1.(server := Some(u), todo := [half, half]);
    var s3 := s2.(server := Some(u + [c]), todo := [[Prune], half]);
    LeadsSelf(cfg, hasBase, end);
    StepLeads(cfg, hasBase, s3, Run(1), end, end);
    StepLeads(cfg, hasBase, s2, Run(0), s3, end);
    StepLeads(cfg, hasBase, s1, Run(1), s2, end);
    StepLeads(cfg, hasBase, s, Run(0), s1, end);
    assert (u + [c] + [c])[|u|].id == (u + [c] + [c])[|u| + 1].id;
  }
}
