// Serializability of the route operations (proxy/manager.go): whatever the interleaving
// of their calls and of writes to the database, the table is what the operations would
// have produced one after another, each part on the database it read.
module RouteSerial {
  import opened Text
  import opened Names
  import opened ProxyModel
  import opened RouteTable
  import opened RouteLock
  import R = Reconciler

  // ---- Replaying the log ----

  // A part run to its end in one go.
  function BigStep(cfg: Config, hasBase: bool, db: DB, server: Option<Table>, part: Instr): Option<Table> {
    if server.None? || !part.Compound() then Exec(hasBase, server, part)
    else
      var t := server.value;
      match part
      case Apply(a) =>
        var app := GetApp(db.apps, a);
        if app.None? then server else Some(R.ApplySpecs(cfg, app.value, ServicesOf(db, a), SpecsOf(cfg, db, app.value), t))
      case ApplyEvery => server // the list of apps; each is applied by a part of its own
      case Control => Some(R.ApplyControl(cfg, t))
      case Prune => Some(R.PruneOrphans(cfg, db, t))
      case Clear(a) =>
        var app := GetApp(db.apps, a);
        if app.None? then server else Some(R.Teardown(cfg, db, app.value, t))
      case Swap(a) =>
        var app := GetApp(db.apps, a);
        if app.None? then server else Some(R.InstallWakeRoutes(cfg, db, app.value, t))
  }

  function Effect(cfg: Config, hasBase: bool, server: Option<Table>, ev: Event): Option<Table> {
    match ev
    case Began(_) => server
    case Ran(part, db) => BigStep(cfg, hasBase, db, server, part)
    case Restarted => None
  }

  // The table after what the log says, one part after another.
  function Replay(cfg: Config, hasBase: bool, server: Option<Table>, log: seq<Event>): Option<Table> {
    if log == [] then server
    else Effect(cfg, hasBase, Replay(cfg, hasBase, server, log[..|log| - 1]), log[|log| - 1])
  }

  lemma ReplayLast(cfg: Config, hasBase: bool, server: Option<Table>, log: seq<Event>, ev: Event)
    ensures Replay(cfg, hasBase, server, log + [ev]) == Effect(cfg, hasBase, Replay(cfg, hasBase, server, log), ev)
  {
    assert (log + [ev])[..|log|] == log;
  }

  // ---- Single calls ----

  predicate AllCalls(calls: seq<Instr>) { forall k :: 0 <= k < |calls| ==> calls[k].Call() }

  function Settle(hasBase: bool, server: Option<Table>, calls: seq<Instr>): Option<Table>
    decreases |calls|
  {
    if calls == [] then server else Settle(hasBase, Exec(hasBase, server, calls[0]), calls[1..])
  }

  lemma {:induction false} SettleLast(hasBase: bool, server: Option<Table>, calls: seq<Instr>, call: Instr)
    ensures Settle(hasBase, server, calls + [call]) == Exec(hasBase, Settle(hasBase, server, calls), call)
    decreases |calls|
  {
    if calls == [] {
      assert [] + [call] == [call] && [call][1..] == [];
    } else {
      SettleLast(hasBase, Exec(hasBase, server, calls[0]), calls[1..], call);
      assert (calls + [call])[1..] == calls[1..] + [call];
    }
  }

  lemma {:induction false} SettleGone(hasBase: bool, calls: seq<Instr>)
    requires AllCalls(calls)
    ensures Settle(hasBase, None, calls) == None
    decreases |calls|
  {
    if calls != [] {
      SettleGone(hasBase, calls[1..]);
    }
  }

  lemma SettlePut(hasBase: bool, server: Option<Table>, calls: seq<Instr>, r: Route, t: Table)
    requires Settle(hasBase, server, calls) == Some(t)
    ensures Settle(hasBase, server, calls + PutCalls(r)) == Some(Put(t, r))
  {
    SettleLast(hasBase, server, calls, Del(r.id));
    SettleLast(hasBase, server, calls + [Del(r.id)], Add(r));
    assert calls + PutCalls(r) == calls + [Del(r.id)] + [Add(r)];
  }

  lemma {:induction false} SettleApply(cfg: Config, hasBase: bool, app: App, services: seq<Service>, specs: seq<RouteSpec>, t: Table)
    ensures AllCalls(ApplyCalls(cfg, app, services, specs))
    ensures Settle(hasBase, Some(t), ApplyCalls(cfg, app, services, specs)) == Some(R.ApplySpecs(cfg, app, services, specs, t))
  {
    if specs != [] {
      var init, last := specs[..|specs| - 1], specs[|specs| - 1];
      SettleApply(cfg, hasBase, app, services, init, t);
      var r := Select(cfg, app, services, last);
      if r.Some? {
        SettlePut(hasBase, Some(t), ApplyCalls(cfg, app, services, init), r.value, R.ApplySpecs(cfg, app, services, init, t));
      } else {
        SettleLast(hasBase, Some(t), ApplyCalls(cfg, app, services, init), Del(last.id));
      }
    }
  }

  lemma {:induction false} SettleSwap(cfg: Config, hasBase: bool, specs: seq<RouteSpec>, t: Table)
    ensures AllCalls(SwapCalls(cfg, specs))
    ensures Settle(hasBase, Some(t), SwapCalls(cfg, specs)) == Some(R.WakeSpecs(cfg, specs, t))
  {
    if specs != [] {
      var init, last := specs[..|specs| - 1], specs[|specs| - 1];
      SettleSwap(cfg, hasBase, init, t);
      if last.redirectTo == "" {
        SettlePut(hasBase, Some(t), SwapCalls(cfg, init), WakeRoute(cfg, last.id, last.hostname), R.WakeSpecs(cfg, init, t));
      }
    }
  }

  lemma {:induction false} SettleClear(hasBase: bool, specs: seq<RouteSpec>, t: Table)
    ensures AllCalls(ClearCalls(specs))
    ensures Settle(hasBase, Some(t), ClearCalls(specs)) == Some(R.RemoveSpecs(specs, t))
  {
    if specs != [] {
      SettleClear(hasBase, specs[..|specs| - 1], t);
      SettleLast(hasBase, Some(t), ClearCalls(specs[..|specs| - 1]), Del(specs[|specs| - 1].id));
    }
  }

  lemma {:induction false} SettlePrune(hasBase: bool, listing: Table, backed: set<string>, t: Table)
    ensures AllCalls(PruneCalls(listing, backed))
    ensures Settle(hasBase, Some(t), PruneCalls(listing, backed)) == Some(R.Sweep(t, backed, listing))
  {
    if listing != [] {
      SettlePrune(hasBase, listing[..|listing| - 1], backed, t);
      SettleLast(hasBase, Some(t), PruneCalls(listing[..|listing| - 1], backed), Del(listing[|listing| - 1].id));
    }
  }

  lemma SettleControl(cfg: Config, hasBase: bool, db: DB, t: Table)
    ensures var calls := Expand(cfg, db, Some(t), Control);
      AllCalls(calls) && Settle(hasBase, Some(t), calls) == Some(R.ApplyControl(cfg, t))
  {
    if cfg.controlDomain == "" {
      SettleLast(hasBase, Some(t), [], Del(CONTROL_ROUTE_ID));
      assert [] + [Del(CONTROL_ROUTE_ID)] == [Del(CONTROL_ROUTE_ID)];
    } else {
      SettlePut(hasBase, Some(t), [], ControlRoute(cfg), t);
      assert [] + PutCalls(ControlRoute(cfg)) == PutCalls(ControlRoute(cfg));
    }
  }

  // A part that is a list of calls has, call by call, the effect it has in one go.
  lemma ExpandSettles(cfg: Config, hasBase: bool, db: DB, server: Option<Table>, part: Instr)
    requires part.Compound() && !part.ApplyEvery?
    ensures AllCalls(Expand(cfg, db, server, part))
    ensures Settle(hasBase, server, Expand(cfg, db, server, part)) == BigStep(cfg, hasBase, db, server, part)
  {
    var t := if server.Some? then server.value else [];
    match part {
      case Apply(a) =>
        var app := GetApp(db.apps, a);
        if app.Some? {
          SettleApply(cfg, hasBase, app.value, ServicesOf(db, a), SpecsOf(cfg, db, app.value), t);
        }
      case Clear(a) =>
        var app := GetApp(db.apps, a);
        if app.Some? {
          SettleClear(hasBase, SpecsOf(cfg, db, app.value), t);
        }
      case Swap(a) =>
        var app := GetApp(db.apps, a);
        if app.Some? {
          SettleSwap(cfg, hasBase, SpecsOf(cfg, db, app.value), t);
        }
      case Prune => SettlePrune(hasBase, t, R.BackedIDs(cfg, db), t);
      case Control => SettleControl(cfg, hasBase, db, t);
    }
    if server.None? {
      SettleGone(hasBase, Expand(cfg, db, server, part));
    }
  }

  // ---- The holder's section ----

  // Calls come first: those of the part in progress.
  predicate Staged(todo: seq<Instr>) { forall k :: 0 < k < |todo| && todo[k].Call() ==> todo[k - 1].Call() }

  function Pending(todo: seq<Instr>): seq<Instr> {
    if todo != [] && todo[0].Call() then [todo[0]] + Pending(todo[1..]) else []
  }

  lemma {:induction false} PendingCalls(todo: seq<Instr>)
    ensures AllCalls(Pending(todo))
  {
    if todo != [] && todo[0].Call() {
      PendingCalls(todo[1..]);
    }
  }

  lemma {:induction false} PendingConcat(calls: seq<Instr>, rest: seq<Instr>)
    requires AllCalls(calls) && (rest != [] ==> !rest[0].Call())
    ensures Pending(calls + rest) == calls
    decreases |calls|
  {
    if calls == [] {
      assert calls + rest == rest;
    } else {
      PendingConcat(calls[1..], rest);
      assert (calls + rest)[1..] == calls[1..] + rest;
      assert calls == [calls[0]] + calls[1..];
    }
  }

  // No call is left once the front is not one.
  lemma {:induction false} StagedNoCalls(todo: seq<Instr>, k: nat)
    requires Staged(todo) && todo != [] && !todo[0].Call() && k < |todo|
    ensures !todo[k].Call()
  {
    if k > 0 {
      StagedNoCalls(todo, k - 1);
    }
  }

  lemma StagedTail(todo: seq<Instr>)
    requires Staged(todo) && todo != []
    ensures Staged(todo[1..]) && (!todo[0].Call() ==> Pending(todo) == [] && Pending(todo[1..]) == [])
  {
    if |todo| > 1 && !todo[0].Call() {
      assert todo[1..][0] == todo[1];
    }
  }

  lemma StagedExpand(calls: seq<Instr>, rest: seq<Instr>)
    requires AllCalls(calls) && forall k :: 0 <= k < |rest| ==> !rest[k].Call()
    ensures Staged(calls + rest)
  {
  }

  // The table as it will be when the part in progress is through.
  function Settled(hasBase: bool, s: State): Option<Table>
    requires s.holder.Some? ==> s.holder.value < |s.todo|
  {
    if s.holder.Some? then Settle(hasBase, s.server, Pending(s.todo[s.holder.value])) else s.server
  }

  predicate Waiting(todo: seq<Instr>, e: Entry) { todo == [] || todo == Code(e) || todo == Locked(e) }

  predicate EntriesMatch(s: State) {
    && |s.entries| == |s.todo|
    && (forall i :: 0 <= i < |s.todo| && s.holder != Some(i) ==> Waiting(s.todo[i], s.entries[i]))
    && (s.holder.Some? ==> s.holder.value < |s.todo| && Staged(s.todo[s.holder.value]))
  }

  // ---- Whole operations ----

  // What ran since the lock was last taken, and by whom.
  function Segment(log: seq<Event>): seq<Event> {
    if log == [] then []
    else
      var last := log[|log| - 1];
      if last.Began? then [] else Segment(log[..|log| - 1]) + (if last.Ran? then [last] else [])
  }

  function Current(log: seq<Event>): Option<Entry> {
    if log == [] then None
    else if log[|log| - 1].Began? then Some(log[|log| - 1].entry) else Current(log[..|log| - 1])
  }

  function Parts(events: seq<Event>): seq<Instr> {
    if events == [] then []
    else
      var last := events[|events| - 1];
      Parts(events[..|events| - 1]) + (if last.Ran? then [last.part] else [])
  }

  // The apps as they were listed.
  function Listed(events: seq<Event>): seq<Instr> {
    if events == [] then []
    else
      var last := events[|events| - 1];
      if last.Ran? && last.part.ApplyEvery? then EveryCalls(last.db.apps) else Listed(events[..|events| - 1])
  }

  function Script(e: Entry, apps: seq<Instr>): seq<Instr> {
    if e.Reconcile? then [EnsureBase, ApplyEvery] + apps + [Control, Prune] else Body(e)
  }

  // The parts still to be reached.
  function Left(todo: seq<Instr>): seq<Instr> {
    if todo == [] then []
    else if todo[0].Call() || todo[0].Unlock? then Left(todo[1..])
    else [todo[0]] + Left(todo[1..])
  }

  predicate OnTrack(e: Entry, events: seq<Event>, left: seq<Instr>) { Parts(events) + left == Script(e, Listed(events)) }

  // The operation that last took the lock ran its whole script.
  predicate Complete(log: seq<Event>) { Current(log).Some? ==> OnTrack(Current(log).value, Segment(log), []) }

  // So did every one before it: no two operations overlap in the log.
  predicate OneAfterAnother(log: seq<Event>) {
    log == [] || (OneAfterAnother(log[..|log| - 1]) && (log[|log| - 1].Began? ==> Complete(log[..|log| - 1])))
  }

  // ---- One step ----

  // Nothing is lost: calls arrive, reads succeed and networks attach. Flag writes may
  // fail, the database may change at any moment and the proxy may be restarted.
  predicate Undisturbed(steps: seq<Step>) {
    forall k :: 0 <= k < |steps| ==> !steps[k].CallFails? && !steps[k].AttachFails?
  }

  predicate Tracked(s: State)
    requires |s.entries| == |s.todo|
  {
    && OneAfterAnother(s.log)
    && if s.holder.None? then Complete(s.log)
       else
         var i := s.holder.value;
         i < |s.todo| && Current(s.log) == Some(s.entries[i]) && OnTrack(s.entries[i], Segment(s.log), Left(s.todo[i]))
  }

  // The table, once the part in progress is through, is the replay of the log, and the
  // log is one operation after another.
  predicate Serial(cfg: Config, hasBase: bool, server: Option<Table>, s: State) {
    && EntriesMatch(s) && Tracked(s)
    && Settled(hasBase, s) == Replay(cfg, hasBase, server, s.log)
  }

  lemma LogLast(log: seq<Event>, ev: Event)
    ensures Segment(log + [ev]) == if ev.Began? then [] else if ev.Ran? then Segment(log) + [ev] else Segment(log)
    ensures Current(log + [ev]) == if ev.Began? then Some(ev.entry) else Current(log)
    ensures OneAfterAnother(log + [ev]) <==> OneAfterAnother(log) && (ev.Began? ==> Complete(log))
  {
    assert (log + [ev])[..|log|] == log;
    assert Segment(log) + [] == Segment(log);
  }

  lemma PartsLast(events: seq<Event>, ev: Event)
    ensures Parts(events + [ev]) == Parts(events) + (if ev.Ran? then [ev.part] else [])
    ensures Listed(events + [ev]) == if ev.Ran? && ev.part.ApplyEvery? then EveryCalls(ev.db.apps) else Listed(events)
  {
    assert (events + [ev])[..|events|] == events;
  }

  lemma {:induction false} ListedOnce(events: seq<Event>)
    ensures ApplyEvery !in Parts(events) ==> Listed(events) == []
    ensures forall p :: p in Listed(events) ==> p.Apply?
  {
    if events != [] {
      ListedOnce(events[..|events| - 1]);
    }
  }

  // The list of apps is taken once, right after the base configuration.
  lemma ListingIsSecond(e: Entry, events: seq<Event>, left: seq<Instr>)
    requires OnTrack(e, events, [ApplyEvery] + left)
    ensures e.Reconcile? && Parts(events) == [EnsureBase] && left == [Control, Prune]
  {
    ListedOnce(events);
    var parts, apps := Parts(events), Listed(events);
    var script := Script(e, apps);
    assert script == parts + ([ApplyEvery] + left);
    assert script[|parts|] == ApplyEvery;
    assert e.Reconcile?;
    forall k | 2 <= k < |script| ensures !script[k].ApplyEvery? {
      if k < |apps| + 2 {
        assert script[k] == apps[k - 2] && apps[k - 2] in apps;
      } else {
        assert script[k] == [Control, Prune][k - 2 - |apps|];
      }
    }
    assert |parts| == 1;
    assert parts == script[..1] == [EnsureBase];
    assert ApplyEvery !in parts;
    assert script == [EnsureBase, ApplyEvery, Control, Prune];
    assert left == script[2..];
  }

  lemma {:induction false} LeftCalls(calls: seq<Instr>, rest: seq<Instr>)
    requires AllCalls(calls)
    ensures Left(calls + rest) == Left(rest)
    decreases |calls|
  {
    if calls == [] {
      assert calls + rest == rest;
    } else {
      LeftCalls(calls[1..], rest);
      assert (calls + rest)[1..] == calls[1..] + rest;
    }
  }

  lemma {:induction false} LeftParts(parts: seq<Instr>, rest: seq<Instr>)
    requires forall k :: 0 <= k < |parts| ==> !parts[k].Call() && !parts[k].Unlock?
    ensures Left(parts + rest) == parts + Left(rest)
    decreases |parts|
  {
    if parts == [] {
      assert parts + rest == rest;
    } else {
      LeftParts(parts[1..], rest);
      assert (parts + rest)[1..] == parts[1..] + rest;
      assert parts == [parts[0]] + parts[1..];
    }
  }

  // A step that logs the next part keeps the operation on its script.
  lemma TrackRan(e: Entry, events: seq<Event>, part: Instr, db: DB, left: seq<Instr>)
    requires OnTrack(e, events, [part] + left) && !part.ApplyEvery?
    ensures OnTrack(e, events + [Ran(part, db)], left)
  {
    PartsLast(events, Ran(part, db));
    assert Parts(events) + ([part] + left) == Parts(events) + [part] + left;
  }

  lemma TrackListed(e: Entry, events: seq<Event>, db: DB, left: seq<Instr>)
    requires OnTrack(e, events, [ApplyEvery] + left)
    ensures OnTrack(e, events + [Ran(ApplyEvery, db)], EveryCalls(db.apps) + left)
  {
    PartsLast(events, Ran(ApplyEvery, db));
    ListingIsSecond(e, events, left);
    var apps := EveryCalls(db.apps);
    assert [EnsureBase] + [ApplyEvery] + (apps + [Control, Prune]) == [EnsureBase, ApplyEvery] + apps + [Control, Prune];
  }

  lemma TrackBegan(log: seq<Event>, e: Entry)
    requires OneAfterAnother(log) && Complete(log)
    ensures var log' := log + [Began(e)];
      OneAfterAnother(log') && Current(log') == Some(e) && OnTrack(e, Segment(log'), Body(e))
  {
    LogLast(log, Began(e));
    assert Script(e, []) == Body(e);
    assert Parts([]) + Body(e) == Body(e);
  }

  // What the holder's step does to its section.
  lemma CallStep(cfg: Config, hasBase: bool, server: Option<Table>, todo: seq<Instr>)
    requires Staged(todo) && todo != [] && todo[0].Call()
    ensures Staged(todo[1..]) && Left(todo[1..]) == Left(todo)
    ensures Settle(hasBase, Exec(hasBase, server, todo[0]), Pending(todo[1..])) == Settle(hasBase, server, Pending(todo))
  {
    StagedTail(todo);
    assert Pending(todo)[1..] == Pending(todo[1..]);
  }

  lemma BaseStep(hasBase: bool, server: Option<Table>, todo: seq<Instr>)
    requires Staged(todo) && todo != [] && todo[0].EnsureBase?
    ensures Staged(todo[1..]) && Left(todo) == [EnsureBase] + Left(todo[1..])
    ensures Settle(hasBase, server, Pending(todo)) == server
    ensures Settle(hasBase, Exec(hasBase, server, EnsureBase), Pending(todo[1..])) == Exec(hasBase, server, EnsureBase)
  {
    StagedTail(todo);
  }

  lemma PartStep(cfg: Config, hasBase: bool, db: DB, server: Option<Table>, todo: seq<Instr>)
    requires Staged(todo) && todo != [] && todo[0].Compound() && !todo[0].ApplyEvery?
    ensures var calls := Expand(cfg, db, server, todo[0]) + todo[1..];
      && Staged(calls) && Left(todo) == [todo[0]] + Left(calls)
      && Settle(hasBase, server, Pending(todo)) == server
      && Settle(hasBase, server, Pending(calls)) == BigStep(cfg, hasBase, db, server, todo[0])
  {
    var calls, rest := Expand(cfg, db, server, todo[0]), todo[1..];
    ExpandSettles(cfg, hasBase, db, server, todo[0]);
    forall k | 0 <= k < |rest| ensures !rest[k].Call() {
      StagedNoCalls(todo, k + 1);
    }
    StagedExpand(calls, rest);
    PendingConcat(calls, rest);
    LeftCalls(calls, rest);
  }

  lemma NoCallsStaged(todo: seq<Instr>)
    requires forall k :: 0 <= k < |todo| ==> !todo[k].Call()
    ensures Staged(todo) && Pending(todo) == []
  {
  }

  lemma ListStep(cfg: Config, hasBase: bool, db: DB, server: Option<Table>, todo: seq<Instr>)
    requires Staged(todo) && todo != [] && todo[0].ApplyEvery?
    ensures var parts := EveryCalls(db.apps) + todo[1..];
      && Staged(parts) && Left(todo) == [ApplyEvery] + Left(todo[1..]) && Left(parts) == EveryCalls(db.apps) + Left(todo[1..])
      && Settle(hasBase, server, Pending(todo)) == server
      && Settle(hasBase, server, Pending(parts)) == server
      && BigStep(cfg, hasBase, db, server, ApplyEvery) == server
  {
    var parts: seq<Instr>, rest: seq<Instr> := EveryCalls(db.apps), todo[1..];
    forall k | 0 <= k < |rest| ensures !rest[k].Call() {
      StagedNoCalls(todo, k + 1);
    }
    NoCallsStaged(parts + rest);
    LeftParts(parts, rest);
  }

  lemma HeadStart(e: Entry)
    ensures Locked(e)[0] == Lock && Locked(e)[1..] == Body(e) + [Unlock]
    ensures Staged(Body(e) + [Unlock]) && Left(Body(e) + [Unlock]) == Body(e) && Pending(Body(e) + [Unlock]) == []
  {
    LeftParts(Body(e), [Unlock]);
    assert Left([Unlock]) == [];
    assert Body(e) + [] == Body(e);
  }

  // A goroutine at its lock has its whole section ahead.
  lemma AtLock(todo: seq<Instr>, e: Entry)
    requires Waiting(todo, e) && todo != [] && todo[0].Lock?
    ensures todo == Locked(e)
  {
  }

  lemma AtFlag(todo: seq<Instr>, e: Entry)
    requires Waiting(todo, e) && todo != [] && todo[0].Flag()
    ensures Waiting(todo[1..], e)
  {
    assert todo[1..] == Locked(e);
  }

  // The holder's move, once its section and the log are known to go together.
  lemma HolderMoves(cfg: Config, hasBase: bool, server: Option<Table>, s: State, s': State, i: nat, todo: seq<Instr>)
    requires EntriesMatch(s) && s.holder == Some(i) && i < |s.todo|
    requires s'.todo == s.todo[i := todo] && s'.holder == s.holder && s'.entries == s.entries
    requires Staged(todo) && Settle(hasBase, s'.server, Pending(todo)) == Replay(cfg, hasBase, server, s'.log)
    requires OneAfterAnother(s'.log) && Current(s'.log) == Some(s.entries[i]) && OnTrack(s.entries[i], Segment(s'.log), Left(todo))
    ensures Serial(cfg, hasBase, server, s')
  {
  }

  lemma CallMoves(cfg: Config, hasBase: bool, server: Option<Table>, s: State, s': State, i: nat)
    requires Serial(cfg, hasBase, server, s) && s.holder == Some(i) && i < |s.todo| && s.todo[i] != [] && s.todo[i][0].Call()
    requires s' == s.(todo := s.todo[i := s.todo[i][1..]], server := Exec(hasBase, s.server, s.todo[i][0]))
    ensures Serial(cfg, hasBase, server, s')
  {
    CallStep(cfg, hasBase, s.server, s.todo[i]);
    HolderMoves(cfg, hasBase, server, s, s', i, s.todo[i][1..]);
  }

  // A logged move: the part's effect on the table is the event's.
  lemma PartMoves(cfg: Config, hasBase: bool, server: Option<Table>, s: State, s': State, i: nat, part: Instr, todo: seq<Instr>)
    requires Serial(cfg, hasBase, server, s) && s.holder == Some(i) && i < |s.todo|
    requires s'.todo == s.todo[i := todo] && s'.holder == s.holder && s'.entries == s.entries && s'.log == s.log + [Ran(part, s.db)]
    requires Staged(todo) && Settle(hasBase, s.server, Pending(s.todo[i])) == s.server
    requires Settle(hasBase, s'.server, Pending(todo)) == BigStep(cfg, hasBase, s.db, s.server, part)
    requires OnTrack(s.entries[i], Segment(s.log) + [Ran(part, s.db)], Left(todo))
    ensures Serial(cfg, hasBase, server, s')
  {
    ReplayLast(cfg, hasBase, server, s.log, Ran(part, s.db));
    LogLast(s.log, Ran(part, s.db));
    HolderMoves(cfg, hasBase, server, s, s', i, todo);
  }

  lemma BaseMoves(cfg: Config, hasBase: bool, server: Option<Table>, s: State, s': State, i: nat)
    requires Serial(cfg, hasBase, server, s) && s.holder == Some(i) && i < |s.todo| && s.todo[i] != [] && s.todo[i][0].EnsureBase?
    requires s' == s.(todo := s.todo[i := s.todo[i][1..]], server := Exec(hasBase, s.server, EnsureBase),
                      log := s.log + [Ran(EnsureBase, s.db)])
    ensures Serial(cfg, hasBase, server, s')
  {
    BaseStep(hasBase, s.server, s.todo[i]);
    TrackRan(s.entries[i], Segment(s.log), EnsureBase, s.db, Left(s.todo[i][1..]));
    PartMoves(cfg, hasBase, server, s, s', i, EnsureBase, s.todo[i][1..]);
  }

  lemma ExpandMoves(cfg: Config, hasBase: bool, server: Option<Table>, s: State, s': State, i: nat)
    requires Serial(cfg, hasBase, server, s) && s.holder == Some(i) && i < |s.todo| && s.todo[i] != []
    requires s.todo[i][0].Compound() && !s.todo[i][0].ApplyEvery?
    requires s' == s.(todo := s.todo[i := Expand(cfg, s.db, s.server, s.todo[i][0]) + s.todo[i][1..]],
                      log := s.log + [Ran(s.todo[i][0], s.db)])
    ensures Serial(cfg, hasBase, server, s')
  {
    var calls := Expand(cfg, s.db, s.server, s.todo[i][0]) + s.todo[i][1..];
    PartStep(cfg, hasBase, s.db, s.server, s.todo[i]);
    TrackRan(s.entries[i], Segment(s.log), s.todo[i][0], s.db, Left(calls));
    PartMoves(cfg, hasBase, server, s, s', i, s.todo[i][0], calls);
  }

  lemma ListMoves(cfg: Config, hasBase: bool, server: Option<Table>, s: State, s': State, i: nat)
    requires Serial(cfg, hasBase, server, s) && s.holder == Some(i) && i < |s.todo| && s.todo[i] != [] && s.todo[i][0].ApplyEvery?
    requires s' == s.(todo := s.todo[i := EveryCalls(s.db.apps) + s.todo[i][1..]], log := s.log + [Ran(ApplyEvery, s.db)])
    ensures Serial(cfg, hasBase, server, s')
  {
    ListStep(cfg, hasBase, s.db, s.server, s.todo[i]);
    TrackListed(s.entries[i], Segment(s.log), s.db, Left(s.todo[i][1..]));
    PartMoves(cfg, hasBase, server, s, s', i, ApplyEvery, EveryCalls(s.db.apps) + s.todo[i][1..]);
  }

  lemma UnlockMoves(cfg: Config, hasBase: bool, server: Option<Table>, s: State, s': State, i: nat)
    requires Serial(cfg, hasBase, server, s) && s.holder == Some(i) && i < |s.todo| && s.todo[i] == [Unlock]
    requires s' == s.(todo := s.todo[i := []], holder := None)
    ensures Serial(cfg, hasBase, server, s')
  {
    assert Left([Unlock]) == Left([]) == [];
    assert Pending([Unlock]) == [];
  }

  lemma LockMoves(cfg: Config, hasBase: bool, server: Option<Table>, s: State, s': State, i: nat)
    requires Serial(cfg, hasBase, server, s) && s.holder == None && i < |s.todo| && s.todo[i] != [] && s.todo[i][0].Lock?
    requires s' == s.(todo := s.todo[i := s.todo[i][1..]], holder := Some(i), log := s.log + [Began(s.entries[i])])
    ensures Serial(cfg, hasBase, server, s')
  {
    var e := s.entries[i];
    AtLock(s.todo[i], e);
    HeadStart(e);
    TrackBegan(s.log, e);
    ReplayLast(cfg, hasBase, server, s.log, Began(e));
    var before := s.(holder := Some(i), todo := s.todo[i := Body(e) + [Unlock]]);
    assert EntriesMatch(before);
    HolderMoves(cfg, hasBase, server, before, s', i, Body(e) + [Unlock]);
  }

  // A goroutine outside the lock, the database and restarts leave the holder alone.
  lemma OutsideMoves(cfg: Config, hasBase: bool, server: Option<Table>, s: State, s': State, i: nat, todo: seq<Instr>)
    requires Serial(cfg, hasBase, server, s) && i < |s.todo| && s.holder != Some(i) && Waiting(todo, s.entries[i])
    requires s' == s.(todo := s.todo[i := todo], db := s'.db)
    ensures Serial(cfg, hasBase, server, s')
  {
  }

  lemma RestartMoves(cfg: Config, hasBase: bool, server: Option<Table>, s: State, s': State)
    requires Serial(cfg, hasBase, server, s) && s' == s.(server := None, log := s.log + [Restarted])
    ensures Serial(cfg, hasBase, server, s')
  {
    ReplayLast(cfg, hasBase, server, s.log, Restarted);
    LogLast(s.log, Restarted);
    if s.holder.Some? {
      PendingCalls(s.todo[s.holder.value]);
      SettleGone(hasBase, Pending(s.todo[s.holder.value]));
    }
  }

  // ---- Whole runs ----

  lemma RunMoves(cfg: Config, hasBase: bool, server: Option<Table>, s: State, s': State, i: nat)
    requires Exclusive(s) && Serial(cfg, hasBase, server, s) && Enabled(s, Run(i)) && s' == Next(cfg, hasBase, s, Run(i))
    requires s.todo[i][0].Work()
    ensures Serial(cfg, hasBase, server, s')
  {
    assert s.holder == Some(i);
    if s.todo[i][0].Call() {
      CallMoves(cfg, hasBase, server, s, s', i);
    } else if s.todo[i][0].EnsureBase? {
      BaseMoves(cfg, hasBase, server, s, s', i);
    } else if s.todo[i][0].ApplyEvery? {
      ListMoves(cfg, hasBase, server, s, s', i);
    } else {
      ExpandMoves(cfg, hasBase, server, s, s', i);
    }
  }

  lemma GivesUp(cfg: Config, hasBase: bool, server: Option<Table>, s: State, s': State, i: nat)
    requires Exclusive(s) && Serial(cfg, hasBase, server, s) && i < |s.todo| && s.todo[i] != [] && s.todo[i][0].Flag()
    requires s' == s.(todo := s.todo[i := []])
    ensures Serial(cfg, hasBase, server, s')
  {
    OutsideMoves(cfg, hasBase, server, s, s', i, []);
  }

  lemma FlagMoves(cfg: Config, hasBase: bool, server: Option<Table>, s: State, s': State, i: nat)
    requires Exclusive(s) && Serial(cfg, hasBase, server, s) && i < |s.todo| && s.todo[i] != [] && s.todo[i][0].Flag()
    requires s' == s.(todo := s.todo[i := s.todo[i][1..]], db := s'.db)
    ensures Serial(cfg, hasBase, server, s')
  {
    AtFlag(s.todo[i], s.entries[i]);
    OutsideMoves(cfg, hasBase, server, s, s', i, s.todo[i][1..]);
  }

  lemma InsideUnlock(todo: seq<Instr>)
    ensures Inside(todo) && todo[0].Unlock? ==> todo == [Unlock]
  {
  }

  lemma AtUnlock(s: State, i: nat)
    requires Exclusive(s) && i < |s.todo| && s.todo[i] != [] && s.todo[i][0].Unlock?
    ensures s.holder == Some(i) && s.todo[i] == [Unlock]
  {
    InsideUnlock(s.todo[i]);
  }

  lemma OwnMoves(cfg: Config, hasBase: bool, server: Option<Table>, s: State, s': State, i: nat)
    requires Exclusive(s) && Serial(cfg, hasBase, server, s) && Enabled(s, Run(i)) && s' == Next(cfg, hasBase, s, Run(i))
    ensures Serial(cfg, hasBase, server, s')
  {
    var instr := s.todo[i][0];
    if instr.Lock? {
      LockMoves(cfg, hasBase, server, s, s', i);
    } else if instr.Unlock? {
      AtUnlock(s, i);
      assert s.todo[i][1..] == [];
      UnlockMoves(cfg, hasBase, server, s, s', i);
    } else if instr.Flag() {
      if FlagWrites(s.db, instr) {
        FlagMoves(cfg, hasBase, server, s, s', i);
      } else {
        GivesUp(cfg, hasBase, server, s, s', i);
      }
    } else {
      RunMoves(cfg, hasBase, server, s, s', i);
    }
  }

  lemma NextSerial(cfg: Config, hasBase: bool, server: Option<Table>, s: State, step: Step, s': State)
    requires Exclusive(s) && Serial(cfg, hasBase, server, s) && Enabled(s, step) && s' == Next(cfg, hasBase, s, step)
    requires !step.CallFails? && !step.AttachFails?
    ensures Serial(cfg, hasBase, server, s')
  {
    if step.CaddyRestart? {
      RestartMoves(cfg, hasBase, server, s, s');
    } else if step.GiveUp? {
      GivesUp(cfg, hasBase, server, s, s', step.i);
    } else if step.Run? {
      OwnMoves(cfg, hasBase, server, s, s', step.i);
    }
  }

  lemma {:induction false} RunSerial(cfg: Config, hasBase: bool, states: seq<State>, steps: seq<Step>, n: nat)
    requires IsRun(cfg, hasBase, states, steps) && Undisturbed(steps) && n < |states|
    ensures Serial(cfg, hasBase, states[0].server, states[n])
  {
    if n > 0 {
      RunSerial(cfg, hasBase, states, steps, n - 1);
      StepOf(cfg, hasBase, states, steps, n - 1);
      NextSerial(cfg, hasBase, states[0].server, states[n - 1], steps[n - 1], states[n]);
    }
  }

  // Whatever the interleaving, the database writes, the maintenance flags and restarts,
  // at each moment the lock is free the table is the replay of a log in which each
  // operation runs all its parts before the next one begins, each part in one go and on
  // the database it read.
  lemma LockedRunsAreSerial(cfg: Config, hasBase: bool, states: seq<State>, steps: seq<Step>, n: nat)
    requires IsRun(cfg, hasBase, states, steps) && Undisturbed(steps) && n < |states| && states[n].holder.None?
    ensures states[n].server == Replay(cfg, hasBase, states[0].server, states[n].log)
    ensures OneAfterAnother(states[n].log) && Complete(states[n].log)
  {
    RunSerial(cfg, hasBase, states, steps, n);
  }

  // ---- What one operation in the log amounts to ----

  lemma {:induction false} ReplayConcat(cfg: Config, hasBase: bool, server: Option<Table>, a: seq<Event>, b: seq<Event>)
    ensures Replay(cfg, hasBase, server, a + b) == Replay(cfg, hasBase, Replay(cfg, hasBase, server, a), b)
    decreases |b|
  {
    if b == [] {
      assert a + b == a;
    } else {
      var init, last := b[..|b| - 1], b[|b| - 1];
      ReplayConcat(cfg, hasBase, server, a, init);
      ReplayLast(cfg, hasBase, server, a + init, last);
      assert a + b == a + init + [last];
    }
  }

  lemma ReplayPair(cfg: Config, hasBase: bool, server: Option<Table>, first: Event, second: Event)
    ensures Replay(cfg, hasBase, server, [first, second]) == Effect(cfg, hasBase, Effect(cfg, hasBase, server, first), second)
  {
    ReplayLast(cfg, hasBase, server, [], first);
    ReplayLast(cfg, hasBase, server, [first], second);
    assert [] + [first] == [first];
    assert [first] + [second] == [first, second];
  }

  // The base configuration a section finds or loads.
  function Base(hasBase: bool, server: Option<Table>): Option<Table> {
    if server.None? && hasBase then Some([]) else server
  }

  lemma ReplayTwo(cfg: Config, hasBase: bool, server: Option<Table>, e: Entry, db: DB)
    ensures Replay(cfg, hasBase, server, [Began(e), Ran(EnsureBase, db)]) == Base(hasBase, server)
  {
    ReplayPair(cfg, hasBase, server, Began(e), Ran(EnsureBase, db));
  }

  // The last two parts of a Sync or Reconcile.
  lemma ReplayFinish(cfg: Config, hasBase: bool, t: Table, db2: DB, db3: DB)
    ensures Replay(cfg, hasBase, Some(t), [Ran(Control, db2), Ran(Prune, db3)]) == Some(R.PruneOrphans(cfg, db3, R.ApplyControl(cfg, t)))
  {
    ReplayPair(cfg, hasBase, Some(t), Ran(Control, db2), Ran(Prune, db3));
  }

  function SyncSection(e: Entry, appID: string, dbs: seq<DB>): seq<Event>
    requires |dbs| == 4
  {
    [Began(e), Ran(EnsureBase, dbs[0])] + [Ran(Apply(appID), dbs[1])] + [Ran(Control, dbs[2]), Ran(Prune, dbs[3])]
  }

  // The table a Sync of an app leaves, from the one it found.
  function Synced(cfg: Config, db: DB, appID: string, t: Table): Table {
    var app := GetApp(db.apps, appID);
    if app.Some? then R.Sync(cfg, db, app.value, t) else R.PruneOrphans(cfg, db, R.ApplyControl(cfg, t))
  }

  // The first three parts: the table with the app's routes applied.
  lemma ReplayHead(cfg: Config, hasBase: bool, server: Option<Table>, e: Entry, appID: string, db0: DB, db1: DB)
    requires Base(hasBase, server).Some?
    ensures var app, t := GetApp(db1.apps, appID), Base(hasBase, server).value;
      Replay(cfg, hasBase, server, [Began(e), Ran(EnsureBase, db0)] + [Ran(Apply(appID), db1)]) ==
        Some(if app.Some? then R.ApplyApp(cfg, db1, app.value, t) else t)
  {
    ReplayTwo(cfg, hasBase, server, e, db0);
    ReplayLast(cfg, hasBase, server, [Began(e), Ran(EnsureBase, db0)], Ran(Apply(appID), db1));
  }

  // A Sync, also one of a maintenance toggle, is the reconciler's Sync on the database
  // its app was read from, as long as no backed id came or went before its sweep.
  lemma SerialSync(cfg: Config, hasBase: bool, server: Option<Table>, e: Entry, appID: string, dbs: seq<DB>)
    requires |dbs| == 4 && Base(hasBase, server).Some? && R.BackedIDs(cfg, dbs[3]) == R.BackedIDs(cfg, dbs[1])
    ensures Replay(cfg, hasBase, server, SyncSection(e, appID, dbs)) == Some(Synced(cfg, dbs[1], appID, Base(hasBase, server).value))
  {
    var app, t := GetApp(dbs[1].apps, appID), Base(hasBase, server).value;
    var head, tail := [Began(e), Ran(EnsureBase, dbs[0])] + [Ran(Apply(appID), dbs[1])], [Ran(Control, dbs[2]), Ran(Prune, dbs[3])];
    ReplayHead(cfg, hasBase, server, e, appID, dbs[0], dbs[1]);
    ReplayConcat(cfg, hasBase, server, head, tail);
    ReplayFinish(cfg, hasBase, if app.Some? then R.ApplyApp(cfg, dbs[1], app.value, t) else t, dbs[2], dbs[3]);
  }

  function ApplyEvents(db: DB, apps: seq<App>): seq<Event> {
    if apps == [] then [] else ApplyEvents(db, apps[..|apps| - 1]) + [Ran(Apply(apps[|apps| - 1].id), db)]
  }

  lemma GetAppIs(db: DB, app: App)
    requires ValidDB(db) && app in db.apps
    ensures GetApp(db.apps, app.id) == Some(app)
  {
    R.AppByID(db, GetApp(db.apps, app.id).value, app);
  }

  // One app applied in one go.
  lemma ReplayApply(cfg: Config, hasBase: bool, db: DB, app: App, t: Table)
    requires ValidDB(db) && app in db.apps
    ensures BigStep(cfg, hasBase, db, Some(t), Apply(app.id)) == Some(R.ApplyApp(cfg, db, app, t))
  {
    GetAppIs(db, app);
  }

  lemma {:induction false} ReplayApplies(cfg: Config, hasBase: bool, db: DB, apps: seq<App>, t: Table)
    requires ValidDB(db) && forall a :: a in apps ==> a in db.apps
    ensures Replay(cfg, hasBase, Some(t), ApplyEvents(db, apps)) == Some(R.ApplyApps(cfg, db, apps, t))
  {
    if apps != [] {
      var init, last := apps[..|apps| - 1], apps[|apps| - 1];
      ReplayApplies(cfg, hasBase, db, init, t);
      ReplayApply(cfg, hasBase, db, last, R.ApplyApps(cfg, db, init, t));
      ReplayLast(cfg, hasBase, Some(t), ApplyEvents(db, init), Ran(Apply(last.id), db));
    }
  }

  function ReconcileSection(db: DB): seq<Event> {
    [Began(Reconcile), Ran(EnsureBase, db)] + [Ran(ApplyEvery, db)] + ApplyEvents(db, db.apps) + [Ran(Control, db), Ran(Prune, db)]
  }

  // A Reconcile whose parts all read one database is the reconciler's.
  lemma SerialReconcile(cfg: Config, hasBase: bool, server: Option<Table>, db: DB)
    requires ValidDB(db) && Base(hasBase, server).Some?
    ensures Replay(cfg, hasBase, server, ReconcileSection(db)) == Some(R.Reconcile(cfg, db, Base(hasBase, server).value))
  {
    var t := Base(hasBase, server).value;
    var head, every, tail := [Began(Reconcile), Ran(EnsureBase, db)], Ran(ApplyEvery, db), [Ran(Control, db), Ran(Prune, db)];
    ReplayTwo(cfg, hasBase, server, Reconcile, db);
    ReplayLast(cfg, hasBase, server, head, every);
    ReplayConcat(cfg, hasBase, server, head + [every], ApplyEvents(db, db.apps));
    ReplayApplies(cfg, hasBase, db, db.apps, t);
    ReplayConcat(cfg, hasBase, server, head + [every] + ApplyEvents(db, db.apps), tail);
    ReplayFinish(cfg, hasBase, R.ApplyApps(cfg, db, db.apps, t), db, db);
  }

  // ---- Reading an operation off the log ----

  // The log up to where the lock was last taken.
  function Before(log: seq<Event>): seq<Event>
    requires Current(log).Some?
  {
    if log[|log| - 1].Began? then log[..|log| - 1] else Before(log[..|log| - 1])
  }

  // The proxy was not restarted since.
  predicate Steady(log: seq<Event>)
    requires Current(log).Some?
  {
    log[|log| - 1].Began? || (log[|log| - 1].Ran? && Steady(log[..|log| - 1]))
  }

  lemma {:induction false} LogSplits(log: seq<Event>)
    requires Current(log).Some? && Steady(log) && OneAfterAnother(log)
    ensures log == Before(log) + [Began(Current(log).value)] + Segment(log)
    ensures OneAfterAnother(Before(log)) && Complete(Before(log))
    ensures forall k :: 0 <= k < |Segment(log)| ==> Segment(log)[k].Ran?
  {
    var init, last := log[..|log| - 1], log[|log| - 1];
    assert log == init + [last];
    if last.Began? {
      assert init + [last] == init + [last] + [];
    } else {
      LogSplits(init);
      assert Before(log) + [Began(Current(log).value)] + Segment(log) == init + [last];
    }
  }

  lemma {:induction false} PartsAt(events: seq<Event>, k: nat)
    requires forall j :: 0 <= j < |events| ==> events[j].Ran?
    ensures |Parts(events)| == |events| && (k < |events| ==> Parts(events)[k] == events[k].part)
  {
    if events != [] {
      PartsAt(events[..|events| - 1], k);
    }
  }

  function SyncedApp(e: Entry): Option<string> {
    if e.Sync? || e.MaintainOn? || e.MaintainOff? then Some(e.appID) else None
  }

  lemma SegmentIsSync(events: seq<Event>, e: Entry) returns (dbs: seq<DB>)
    requires SyncedApp(e).Some? && Parts(events) == Body(e) && forall j :: 0 <= j < |events| ==> events[j].Ran?
    ensures |dbs| == 4 && [Began(e)] + events == SyncSection(e, e.appID, dbs)
  {
    PartsAt(events, 0);
    PartsAt(events, 1);
    PartsAt(events, 2);
    PartsAt(events, 3);
    dbs := [events[0].db, events[1].db, events[2].db, events[3].db];
    assert events == [events[0], events[1], events[2], events[3]];
  }

  lemma LogEndsInSync(log: seq<Event>) returns (earlier: seq<Event>, dbs: seq<DB>)
    requires Current(log).Some? && Steady(log) && OneAfterAnother(log) && Complete(log)
    requires SyncedApp(Current(log).value).Some?
    ensures var e := Current(log).value; |dbs| == 4 && log == earlier + SyncSection(e, e.appID, dbs)
    ensures OneAfterAnother(earlier) && Complete(earlier)
  {
    var e := Current(log).value;
    LogSplits(log);
    earlier := Before(log);
    assert Parts(Segment(log)) + [] == Parts(Segment(log));
    dbs := SegmentIsSync(Segment(log), e);
    assert log == earlier + ([Began(e)] + Segment(log));
  }

  // In every such run, when the lock is free after a Sync or a maintenance toggle that no
  // restart cut through, the table is the reconciler's Sync of the table the operation
  // before it left, on the database the app was read from, unless the ids backed by the
  // database changed before the sweep.
  lemma LastSyncShows(cfg: Config, hasBase: bool, states: seq<State>, steps: seq<Step>, n: nat)
    returns (earlier: seq<Event>, dbs: seq<DB>)
    requires IsRun(cfg, hasBase, states, steps) && Undisturbed(steps) && n < |states| && states[n].holder.None?
    requires Current(states[n].log).Some? && Steady(states[n].log) && SyncedApp(Current(states[n].log).value).Some?
    ensures |dbs| == 4 && OneAfterAnother(earlier) && Complete(earlier)
    ensures var e := Current(states[n].log).value;
      && states[n].log == earlier + SyncSection(e, e.appID, dbs)
      && (var before := Base(hasBase, Replay(cfg, hasBase, states[0].server, earlier));
          before.Some? && R.BackedIDs(cfg, dbs[3]) == R.BackedIDs(cfg, dbs[1]) ==>
            states[n].server == Some(Synced(cfg, dbs[1], e.appID, before.value)))
  {
    LockedRunsAreSerial(cfg, hasBase, states, steps, n);
    earlier, dbs := LogEndsInSync(states[n].log);
    var e, server := Current(states[n].log).value, states[0].server;
    if Base(hasBase, Replay(cfg, hasBase, server, earlier)).Some? && R.BackedIDs(cfg, dbs[3]) == R.BackedIDs(cfg, dbs[1]) {
      ReplayEndsInSync(cfg, hasBase, server, earlier, e, dbs);
    }
  }

  lemma ReplayEndsInSync(cfg: Config, hasBase: bool, server: Option<Table>, earlier: seq<Event>, e: Entry, dbs: seq<DB>)
    requires |dbs| == 4 && SyncedApp(e).Some? && R.BackedIDs(cfg, dbs[3]) == R.BackedIDs(cfg, dbs[1])
    requires Base(hasBase, Replay(cfg, hasBase, server, earlier)).Some?
    ensures Replay(cfg, hasBase, server, earlier + SyncSection(e, e.appID, dbs)) ==
      Some(Synced(cfg, dbs[1], e.appID, Base(hasBase, Replay(cfg, hasBase, server, earlier)).value))
  {
    ReplayConcat(cfg, hasBase, server, earlier, SyncSection(e, e.appID, dbs));
    SerialSync(cfg, hasBase, Replay(cfg, hasBase, server, earlier), e, e.appID, dbs);
  }

  // The last operation of a complete log, as the parts it ran.
  lemma LogEndsWhole(log: seq<Event>)
    requires Current(log).Some? && !Current(log).value.Reconcile? && Steady(log) && OneAfterAnother(log) && Complete(log)
    ensures log == Before(log) + ([Began(Current(log).value)] + Segment(log))
    ensures OneAfterAnother(Before(log)) && Complete(Before(log))
    ensures Parts(Segment(log)) == Body(Current(log).value)
    ensures forall k :: 0 <= k < |Segment(log)| ==> Segment(log)[k].Ran?
  {
    LogSplits(log);
    WholeBody(Current(log).value, Segment(log));
  }

  lemma WholeBody(e: Entry, events: seq<Event>)
    requires !e.Reconcile? && OnTrack(e, events, [])
    ensures Parts(events) == Body(e)
  {
    assert Parts(events) + [] == Parts(events);
  }

  lemma SegmentIsTeardown(events: seq<Event>, appID: string) returns (db: DB)
    requires Parts(events) == [Clear(appID)] && forall k :: 0 <= k < |events| ==> events[k].Ran?
    ensures events == [Ran(Clear(appID), db)]
  {
    PartsAt(events, 0);
    db := events[0].db;
  }

  lemma SegmentIsSleep(events: seq<Event>, appID: string) returns (db0: DB, db1: DB)
    requires Parts(events) == [EnsureBase, Swap(appID)] && forall k :: 0 <= k < |events| ==> events[k].Ran?
    ensures events == [Ran(EnsureBase, db0), Ran(Swap(appID), db1)]
  {
    PartsAt(events, 0);
    PartsAt(events, 1);
    db0, db1 := events[0].db, events[1].db;
  }

  // The table after an app's routes were taken out, or were swapped for wake routes.
  function TornDown(cfg: Config, db: DB, appID: string, t: Table): Table {
    var app := GetApp(db.apps, appID);
    if app.None? then t else R.Teardown(cfg, db, app.value, t)
  }

  function PutToSleep(cfg: Config, db: DB, appID: string, t: Table): Table {
    var app := GetApp(db.apps, appID);
    if app.None? then t else R.InstallWakeRoutes(cfg, db, app.value, t)
  }

  lemma TeardownReplay(cfg: Config, hasBase: bool, server: Option<Table>, e: Entry, appID: string, db: DB)
    requires server.Some?
    ensures Replay(cfg, hasBase, server, [Began(e), Ran(Clear(appID), db)]) == Some(TornDown(cfg, db, appID, server.value))
  {
    ReplayPair(cfg, hasBase, server, Began(e), Ran(Clear(appID), db));
  }

  lemma SleepReplay(cfg: Config, hasBase: bool, server: Option<Table>, e: Entry, appID: string, db0: DB, db1: DB)
    requires Base(hasBase, server).Some?
    ensures Replay(cfg, hasBase, server, [Began(e), Ran(EnsureBase, db0)] + [Ran(Swap(appID), db1)]) ==
      Some(PutToSleep(cfg, db1, appID, Base(hasBase, server).value))
  {
    ReplayTwo(cfg, hasBase, server, e, db0);
    ReplayLast(cfg, hasBase, server, [Began(e), Ran(EnsureBase, db0)], Ran(Swap(appID), db1));
  }

  // In every such run, when the lock is free after a Teardown that no restart cut through,
  // the table is what the earlier operations left without the app's routes, as the
  // database had them when it read the app.
  lemma LastTeardownShows(cfg: Config, hasBase: bool, states: seq<State>, steps: seq<Step>, n: nat, appID: string)
    returns (earlier: seq<Event>, db: DB)
    requires IsRun(cfg, hasBase, states, steps) && Undisturbed(steps) && n < |states| && states[n].holder.None?
    requires Current(states[n].log) == Some(Teardown(appID)) && Steady(states[n].log)
    ensures states[n].log == earlier + [Began(Teardown(appID)), Ran(Clear(appID), db)] && OneAfterAnother(earlier) && Complete(earlier)
    ensures var before := Replay(cfg, hasBase, states[0].server, earlier);
      before.Some? ==> states[n].server == Some(TornDown(cfg, db, appID, before.value))
  {
    LockedRunsAreSerial(cfg, hasBase, states, steps, n);
    earlier, db := LogEndsInTeardown(states[n].log, appID);
    TeardownOver(cfg, hasBase, states[0].server, earlier, appID, db);
  }

  lemma LogEndsInTeardown(log: seq<Event>, appID: string) returns (earlier: seq<Event>, db: DB)
    requires Current(log) == Some(Teardown(appID)) && Steady(log) && OneAfterAnother(log) && Complete(log)
    ensures log == earlier + [Began(Teardown(appID)), Ran(Clear(appID), db)] && OneAfterAnother(earlier) && Complete(earlier)
  {
    LogEndsWhole(log);
    earlier := Before(log);
    db := SegmentIsTeardown(Segment(log), appID);
    assert [Began(Teardown(appID))] + Segment(log) == [Began(Teardown(appID)), Ran(Clear(appID), db)];
  }

  lemma TeardownOver(cfg: Config, hasBase: bool, server: Option<Table>, earlier: seq<Event>, appID: string, db: DB)
    ensures var before := Replay(cfg, hasBase, server, earlier);
      before.Some? ==>
        Replay(cfg, hasBase, server, earlier + [Began(Teardown(appID)), Ran(Clear(appID), db)]) == Some(TornDown(cfg, db, appID, before.value))
  {
    ReplayConcat(cfg, hasBase, server, earlier, [Began(Teardown(appID)), Ran(Clear(appID), db)]);
    var before := Replay(cfg, hasBase, server, earlier);
    if before.Some? {
      TeardownReplay(cfg, hasBase, before, Teardown(appID), appID, db);
    }
  }

  // And after a suspension installed its wake routes, the table with just those swapped.
  lemma LastSleepShows(cfg: Config, hasBase: bool, states: seq<State>, steps: seq<Step>, n: nat, appID: string)
    returns (earlier: seq<Event>, db0: DB, db1: DB)
    requires IsRun(cfg, hasBase, states, steps) && Undisturbed(steps) && n < |states| && states[n].holder.None?
    requires Current(states[n].log) == Some(InstallWakeRoutes(appID)) && Steady(states[n].log)
    ensures states[n].log == earlier + SleepSection(appID, db0, db1)
    ensures OneAfterAnother(earlier) && Complete(earlier)
    ensures var before := Base(hasBase, Replay(cfg, hasBase, states[0].server, earlier));
      before.Some? ==> states[n].server == Some(PutToSleep(cfg, db1, appID, before.value))
  {
    LockedRunsAreSerial(cfg, hasBase, states, steps, n);
    earlier, db0, db1 := LogEndsInSleep(states[n].log, appID);
    SleepOver(cfg, hasBase, states[0].server, earlier, appID, db0, db1);
  }

  function SleepSection(appID: string, db0: DB, db1: DB): seq<Event> {
    [Began(InstallWakeRoutes(appID)), Ran(EnsureBase, db0)] + [Ran(Swap(appID), db1)]
  }

  lemma LogEndsInSleep(log: seq<Event>, appID: string) returns (earlier: seq<Event>, db0: DB, db1: DB)
    requires Current(log) == Some(InstallWakeRoutes(appID)) && Steady(log) && OneAfterAnother(log) && Complete(log)
    ensures log == earlier + SleepSection(appID, db0, db1) && OneAfterAnother(earlier) && Complete(earlier)
  {
    LogEndsWhole(log);
    earlier := Before(log);
    db0, db1 := SegmentIsSleep(Segment(log), appID);
    assert [Began(InstallWakeRoutes(appID))] + Segment(log) == SleepSection(appID, db0, db1);
  }

  lemma SleepOver(cfg: Config, hasBase: bool, server: Option<Table>, earlier: seq<Event>, appID: string, db0: DB, db1: DB)
    ensures var before := Base(hasBase, Replay(cfg, hasBase, server, earlier));
      before.Some? ==>
        Replay(cfg, hasBase, server, earlier + SleepSection(appID, db0, db1)) == Some(PutToSleep(cfg, db1, appID, before.value))
  {
    ReplayConcat(cfg, hasBase, server, earlier, SleepSection(appID, db0, db1));
    var before := Replay(cfg, hasBase, server, earlier);
    if Base(hasBase, before).Some? {
      SleepReplay(cfg, hasBase, before, InstallWakeRoutes(appID), appID, db0, db1);
    }
  }

  // ---- The maintenance flag ----

  lemma AppAutoIDsIgnoreFlag(cfg: Config, db: DB, app: App, id: string, on: bool)
    ensures R.AppAutoIDs(cfg, SetMaintenance(db, id, on), app) == R.AppAutoIDs(cfg, db, app)
    ensures R.AppAutoIDs(cfg, SetMaintenance(db, id, on), app.(maintenanceActive := on)) == R.AppAutoIDs(cfg, db, app)
  {
  }

  lemma {:induction false} AutoIDsIgnoreFlag(cfg: Config, db: DB, apps: seq<App>, id: string, on: bool)
    ensures R.AutoIDs(cfg, SetMaintenance(db, id, on), MarkMaintenance(apps, id, on)) == R.AutoIDs(cfg, db, apps)
  {
    if apps != [] {
      var init := apps[..|apps| - 1];
      AutoIDsIgnoreFlag(cfg, db, init, id, on);
      assert MarkMaintenance(apps, id, on)[..|apps| - 1] == MarkMaintenance(init, id, on);
      AppAutoIDsIgnoreFlag(cfg, db, apps[|apps| - 1], id, on);
    }
  }

  // A flag write never changes which ids are backed, so flags written while another
  // operation is under way do not disturb it.
  lemma FlagKeepsBacked(cfg: Config, db: DB, id: string, on: bool)
    ensures R.BackedIDs(cfg, SetMaintenance(db, id, on)) == R.BackedIDs(cfg, db)
    ensures ValidDB(db) ==> ValidDB(SetMaintenance(db, id, on))
  {
    AutoIDsIgnoreFlag(cfg, db, db.apps, id, on);
  }

  // After a Sync on a database that carries the flag, every route of the app is its
  // maintenance page, redirects included; without the flag none of its routes is.
  lemma FlagDecides(cfg: Config, db: DB, app: App, on: bool, t: Table, spec: RouteSpec)
    requires ValidDB(db) && DistinctIDs(t) && app in db.apps && spec in SpecsOf(cfg, db, app)
    ensures var marked := app.(maintenanceActive := on);
      var shown := Lookup(R.Sync(cfg, SetMaintenance(db, app.id, on), marked, t), spec.id);
      var page := MaintenanceRoute(spec.id, spec.hostname, app.maintenancePage);
      if on then shown == Some(page) else shown != Some(page)
  {
    var mdb, marked := SetMaintenance(db, app.id, on), app.(maintenanceActive := on);
    FlagKeepsBacked(cfg, db, app.id, on);
    var i :| 0 <= i < |db.apps| && db.apps[i] == app;
    assert mdb.apps[i] == marked;
    assert SpecsOf(cfg, mdb, marked) == SpecsOf(cfg, db, app);
    R.SyncLookup(cfg, mdb, marked, t, spec.id);
    SpecsDistinct(cfg, db, app);
    R.FindSpecUnique(SpecsOf(cfg, db, app), spec);
    if !on {
      NotAPage(cfg, marked, ServicesOf(db, app.id), spec);
    }
  }

  lemma NotAPage(cfg: Config, app: App, services: seq<Service>, spec: RouteSpec)
    requires !app.maintenanceActive
    ensures Select(cfg, app, services, spec) != Some(MaintenanceRoute(spec.id, spec.hostname, app.maintenancePage))
  {
    var r, page := Select(cfg, app, services, spec), MaintenanceRoute(spec.id, spec.hostname, app.maintenancePage);
    assert page.handle[0].StaticResponse? && page.handle[0].status == 503;
    assert r.Some? ==> r.value.handle[0].StaticResponse? ==> r.value.handle[0].status == 308;
  }
}
