// Idle-suspend and wake-on-request for one app (scaletozero/waker.go, sweeper.go):
// any number of Wake and Suspend goroutines, one external call per step, any of
// which may fail.
module ScaleToZero {
  import opened Text

  // Where a goroutine is; the argument of a Suspend is the tick that judged the app
  // idle.
  datatype Pc =
    | SuspendAcquire(decidedAt: int)
    | SuspendCheck(decidedAt: int)
    | SuspendStop(decidedAt: int)
    | SuspendMark
    | SuspendServices
    | SuspendRoutes
    | WakeAcquire
    | WakeCheck
    | WakeStart
    | WakeClear
    | WakeServices
    | WakeSync
    | WakeHealth
    | WakeStamp
    | Releasing
    | Done
  {
    // Between a successful acquire and the deferred release.
    predicate Holds() { !SuspendAcquire? && !WakeAcquire? && !Done? }
  }

  // What goroutines log: external calls as they are made or once they succeeded.
  datatype Event =
    | RowRead             // the app's row was read under the guard
    | StartCalled
    | StackStarted
    | FlagCleared
    | StopCalled(decidedAt: int)
    | StackStopped
    | FlagSet
    | ServicesMarked(running: bool) // the services' statuses were written, best effort
    | RoutesSynced
    | HealthPassed
    | WakeRoutesInstalled
    | WakeFailed          // docker start or clearing the flag failed
    | Stamped(at: int)    // a wake stamped LastTrafficAt

  datatype State = State(suspended: bool, lastTraffic: Option<int>, inFlight: bool, stackUp: bool, clock: int,
                         threads: seq<Pc>, log: seq<Event>)

  datatype Step =
    | SpawnWake
    | SpawnSuspend(decidedAt: int)
    | Clock(now: int)
    | SweeperWrite(ts: int) // SetLastTrafficAt by the sweeper, outside the guard
    | DeployClears          // a deploy clears the flag and starts the stack
    | Move(i: nat, ok: bool)

  predicate Enabled(s: State, step: Step) {
    match step
    case SpawnWake => true
    case SpawnSuspend(d) => d <= s.clock
    case Clock(now) => s.clock <= now
    case SweeperWrite(ts) => ts <= s.clock
    case DeployClears => true
    case Move(i, _) => i < |s.threads| && !s.threads[i].Done?
  }

  function Goto(s: State, i: nat, pc: Pc): State
    requires i < |s.threads|
  {
    s.(threads := s.threads[i := pc])
  }

  function Log(s: State, e: Event): State { s.(log := s.log + [e]) }

  // Suspend's re-validation under the guard.
  predicate StillIdle(s: State, decidedAt: int) {
    !s.suspended && (s.lastTraffic.Some? ==> s.lastTraffic.value <= decidedAt)
  }

  function MoveThread(s: State, i: nat, ok: bool): State
    requires i < |s.threads| && !s.threads[i].Done?
  {
    match s.threads[i]
    case SuspendAcquire(d) => if s.inFlight then Goto(s, i, Done) else Goto(s.(inFlight := true), i, SuspendCheck(d))
    case SuspendCheck(d) =>
      if ok then Goto(Log(s, RowRead), i, if StillIdle(s, d) then SuspendStop(d) else Releasing) else Goto(s, i, Releasing)
    case SuspendStop(d) =>
      var called := Log(s, StopCalled(d));
      if ok then Goto(Log(called.(stackUp := false), StackStopped), i, SuspendMark) else Goto(called, i, Releasing)
    case SuspendMark => if ok then Goto(Log(s.(suspended := true), FlagSet), i, SuspendServices) else Goto(s, i, Releasing)
    case SuspendServices => Goto(Log(s, ServicesMarked(false)), i, SuspendRoutes)
    case SuspendRoutes => Goto(if ok then Log(s, WakeRoutesInstalled) else s, i, Releasing)
    case WakeAcquire => if s.inFlight then Goto(s, i, Done) else Goto(s.(inFlight := true), i, WakeCheck)
    case WakeCheck =>
      if ok then Goto(Log(s, RowRead), i, if s.suspended then WakeStart else Releasing) else Goto(s, i, Releasing)
    case WakeStart =>
      var called := Log(s, StartCalled);
      if ok then Goto(Log(called.(stackUp := true), StackStarted), i, WakeClear) else Goto(Log(called, WakeFailed), i, Releasing)
    case WakeClear =>
      if ok then Goto(Log(s.(suspended := false), FlagCleared), i, WakeServices) else Goto(Log(s, WakeFailed), i, Releasing)
    case WakeServices => Goto(Log(s, ServicesMarked(true)), i, WakeSync)
    case WakeSync => if ok then Goto(Log(s, RoutesSynced), i, WakeHealth) else Goto(s, i, Releasing)
    case WakeHealth => if ok then Goto(Log(s, HealthPassed), i, WakeStamp) else Goto(s, i, Releasing)
    case WakeStamp =>
      if ok then Goto(Log(s.(lastTraffic := Some(s.clock)), Stamped(s.clock)), i, Releasing) else Goto(s, i, Releasing)
    case Releasing => Goto(s.(inFlight := false), i, Done)
  }

  function Next(s: State, step: Step): State
    requires Enabled(s, step)
  {
    match step
    case SpawnWake => s.(threads := s.threads + [WakeAcquire])
    case SpawnSuspend(d) => s.(threads := s.threads + [SuspendAcquire(d)])
    case Clock(now) => s.(clock := now)
    case SweeperWrite(ts) => s.(lastTraffic := Some(ts))
    case DeployClears => s.(suspended := false, stackUp := true)
    case Move(i, ok) => MoveThread(s, i, ok)
  }

  // The process starts with no goroutine and an empty guard, whatever the row says.
  predicate Init(s: State) {
    !s.inFlight && s.threads == [] && s.log == [] && (s.lastTraffic.Some? ==> s.lastTraffic.value <= s.clock)
  }

  ghost predicate IsRun(states: seq<State>, steps: seq<Step>) {
    && |states| == |steps| + 1 && Init(states[0])
    && forall k {:trigger steps[k]} :: 0 <= k < |steps| ==> Enabled(states[k], steps[k]) && states[k + 1] == Next(states[k], steps[k])
  }

  // ---- Mutual exclusion ----

  ghost predicate Exclusive(s: State) {
    && (forall i, j :: 0 <= i < |s.threads| && 0 <= j < |s.threads| && s.threads[i].Holds() && s.threads[j].Holds() ==> i == j)
    && (s.inFlight <==> exists i :: 0 <= i < |s.threads| && s.threads[i].Holds())
  }

  // What a move does to the guard: the holder lets go when it stops holding, and a
  // newcomer gets in exactly when nobody is.
  lemma MoveGuard(s: State, i: nat, ok: bool)
    requires i < |s.threads| && !s.threads[i].Done? && (s.threads[i].Holds() ==> s.inFlight)
    ensures var s' := MoveThread(s, i, ok);
      && s'.threads == s.threads[i := s'.threads[i]]
      && (s.threads[i].Holds() ==> s'.inFlight == s'.threads[i].Holds() && (!s'.inFlight ==> s'.threads[i] == Done))
      && (!s.threads[i].Holds() ==> s'.inFlight && s'.threads[i].Holds() == !s.inFlight)
  {
  }

  lemma MoveExclusive(s: State, i: nat, ok: bool)
    requires Exclusive(s) && i < |s.threads| && !s.threads[i].Done?
    ensures Exclusive(MoveThread(s, i, ok))
  {
    MoveGuard(s, i, ok);
    ExclusiveAfter(s, MoveThread(s, i, ok), i);
  }

  lemma ExclusiveAfter(s: State, s': State, i: nat)
    requires Exclusive(s) && i < |s.threads| && |s'.threads| == |s.threads| && s'.threads == s.threads[i := s'.threads[i]]
    requires s.threads[i].Holds() ==> s'.inFlight == s'.threads[i].Holds()
    requires !s.threads[i].Holds() ==> s'.inFlight && s'.threads[i].Holds() == !s.inFlight
    ensures Exclusive(s')
  {
    if !s'.threads[i].Holds() && !s.threads[i].Holds() {
      var h :| 0 <= h < |s.threads| && s.threads[h].Holds();
      assert s'.threads[h].Holds();
    }
  }

  lemma NextExclusive(s: State, step: Step)
    requires Exclusive(s) && Enabled(s, step)
    ensures Exclusive(Next(s, step))
  {
    var s' := Next(s, step);
    match step
    case Move(i, ok) => MoveExclusive(s, i, ok);
    case _ =>
      if s.inFlight {
        var h :| 0 <= h < |s.threads| && s.threads[h].Holds();
        assert s'.threads[h].Holds();
      }
  }

  // ---- Starts against stops ----

  function Starts(log: seq<Event>): nat {
    if log == [] then 0 else Starts(log[..|log| - 1]) + (if log[|log| - 1].StartCalled? then 1 else 0)
  }

  function Stops(log: seq<Event>): nat {
    if log == [] then 0 else Stops(log[..|log| - 1]) + (if log[|log| - 1].StopCalled? then 1 else 0)
  }

  function FailedWakes(log: seq<Event>): nat {
    if log == [] then 0 else FailedWakes(log[..|log| - 1]) + (if log[|log| - 1].WakeFailed? then 1 else 0)
  }

  lemma LogCounts(log: seq<Event>, e: Event)
    ensures Starts(log + [e]) == Starts(log) + (if e.StartCalled? then 1 else 0)
    ensures Stops(log + [e]) == Stops(log) + (if e.StopCalled? then 1 else 0)
    ensures FailedWakes(log + [e]) == FailedWakes(log) + (if e.WakeFailed? then 1 else 0)
  {
    assert (log + [e])[..|log + [e]| - 1] == log;
  }

  // A start the current state still entitles someone to: a wake about to start, a
  // stop about to be recorded, or a suspended row nobody is waking.
  function Owed(s: State, holder: Pc): nat {
    if holder.WakeStart? || holder.SuspendMark? then 1
    else if holder.WakeClear? then 0
    else if s.suspended then 1 else 0
  }

  function Holder(threads: seq<Pc>): Pc {
    if threads == [] then Done
    else if threads[|threads| - 1].Holds() then threads[|threads| - 1]
    else Holder(threads[..|threads| - 1])
  }

  lemma {:induction false} HolderIs(threads: seq<Pc>, i: nat)
    requires i < |threads| && threads[i].Holds()
    requires forall j :: 0 <= j < |threads| && threads[j].Holds() ==> j == i
    ensures Holder(threads) == threads[i]
  {
    if i < |threads| - 1 {
      HolderIs(threads[..|threads| - 1], i);
    }
  }

  lemma {:induction false} NoHolder(threads: seq<Pc>)
    requires forall j :: 0 <= j < |threads| ==> !threads[j].Holds()
    ensures Holder(threads) == Done
  {
    if threads != [] {
      NoHolder(threads[..|threads| - 1]);
    }
  }

  ghost predicate Balanced(s: State, initially: nat) {
    var holder := Holder(s.threads);
    && Starts(s.log) + Owed(s, holder) <= Stops(s.log) + FailedWakes(s.log) + initially
    && (holder.SuspendStop? || holder.SuspendMark? ==> !s.suspended)
  }

  // Who holds the guard before and after thread i moves.
  ghost predicate HolderMoved(s: State, s': State, i: nat)
    requires i < |s.threads| && |s'.threads| == |s.threads|
  {
    && (s.threads[i].Holds() ==> Holder(s.threads) == s.threads[i])
    && (s.threads[i].Holds() ==> Holder(s'.threads) == s'.threads[i])
    && (!s.threads[i].Holds() && s.inFlight ==> Holder(s'.threads) == Holder(s.threads))
    && (!s.threads[i].Holds() && !s.inFlight ==> Holder(s.threads) == Done && Holder(s'.threads) == s'.threads[i])
  }

  lemma MoveHolder(s: State, i: nat, ok: bool)
    requires Exclusive(s) && i < |s.threads| && !s.threads[i].Done?
    ensures |MoveThread(s, i, ok).threads| == |s.threads| && HolderMoved(s, MoveThread(s, i, ok), i)
  {
    MoveExclusive(s, i, ok);
    MoveGuard(s, i, ok);
    HolderAfter(s, MoveThread(s, i, ok), i);
  }

  lemma HolderAfter(s: State, s': State, i: nat)
    requires Exclusive(s) && Exclusive(s') && i < |s.threads| && |s'.threads| == |s.threads|
    requires s'.threads == s.threads[i := s'.threads[i]]
    requires s.threads[i].Holds() && !s'.threads[i].Holds() ==> s'.threads[i] == Done
    requires !s.threads[i].Holds() ==> s'.threads[i].Holds() == !s.inFlight
    ensures HolderMoved(s, s', i)
  {
    if s.threads[i].Holds() {
      HolderIs(s.threads, i);
      if s'.threads[i].Holds() {
        HolderIs(s'.threads, i);
      } else {
        NoHolder(s'.threads);
      }
    } else if s.inFlight {
      var h :| 0 <= h < |s.threads| && s.threads[h].Holds();
      HolderIs(s.threads, h);
      assert s'.threads[h] == s.threads[h];
      HolderIs(s'.threads, h);
    } else {
      NoHolder(s.threads);
      HolderIs(s'.threads, i);
    }
  }

  // What a move writes to the log.
  function Logged(pc: Pc, ok: bool, clock: int): seq<Event> {
    match pc
    case SuspendCheck(_) => if ok then [RowRead] else []
    case SuspendStop(d) => if ok then [StopCalled(d), StackStopped] else [StopCalled(d)]
    case SuspendMark => if ok then [FlagSet] else []
    case SuspendServices => [ServicesMarked(false)]
    case SuspendRoutes => if ok then [WakeRoutesInstalled] else []
    case WakeCheck => if ok then [RowRead] else []
    case WakeStart => if ok then [StartCalled, StackStarted] else [StartCalled, WakeFailed]
    case WakeClear => if ok then [FlagCleared] else [WakeFailed]
    case WakeServices => [ServicesMarked(true)]
    case WakeSync => if ok then [RoutesSynced] else []
    case WakeHealth => if ok then [HealthPassed] else []
    case WakeStamp => if ok then [Stamped(clock)] else []
    case _ => []
  }

  lemma LogTwice(s: State, e: Event, f: Event)
    ensures Log(Log(s, e), f).log == s.log + [e, f]
  {
  }

  lemma MoveLogs(s: State, i: nat, ok: bool)
    requires i < |s.threads| && !s.threads[i].Done?
    ensures MoveThread(s, i, ok).log == s.log + Logged(s.threads[i], ok, s.clock)
  {
    assert s.log + [] == s.log;
    match s.threads[i]
    case SuspendStop(d) => LogTwice(s, StopCalled(d), StackStopped);
    case WakeStart => LogTwice(s, StartCalled, if ok then StackStarted else WakeFailed);
    case _ =>
  }

  lemma LoggedCounts(log: seq<Event>, pc: Pc, ok: bool, clock: int)
    ensures var after := log + Logged(pc, ok, clock);
      && Starts(after) == Starts(log) + (if pc.WakeStart? then 1 else 0)
      && Stops(after) == Stops(log) + (if pc.SuspendStop? then 1 else 0)
      && FailedWakes(after) == FailedWakes(log) + (if (pc.WakeStart? || pc.WakeClear?) && !ok then 1 else 0)
  {
    var after, more := log + Logged(pc, ok, clock), Logged(pc, ok, clock);
    if |more| == 2 {
      LogCounts(log, more[0]);
      LogCounts(log + [more[0]], more[1]);
      assert after == log + [more[0]] + [more[1]];
    } else if more == [] {
      assert after == log;
    } else {
      LogCounts(log, more[0]);
      assert after == log + [more[0]];
    }
  }

  // How one move changes what is owed, given who holds the guard before and after.
  lemma MoveOwed(s: State, i: nat, ok: bool, before: Pc, after: Pc)
    requires i < |s.threads| && !s.threads[i].Done?
    requires s.threads[i].Holds() ==> before == s.threads[i] && after == MoveThread(s, i, ok).threads[i]
    requires !s.threads[i].Holds() && s.inFlight ==> after == before
    requires !s.threads[i].Holds() && !s.inFlight ==> before == Done && after == MoveThread(s, i, ok).threads[i]
    requires before.SuspendStop? || before.SuspendMark? ==> !s.suspended
    ensures var s', pc := MoveThread(s, i, ok), s.threads[i];
      && Owed(s', after) + (if pc.WakeStart? then 1 else 0) <=
           Owed(s, before) + (if pc.SuspendStop? then 1 else 0) + (if (pc.WakeStart? || pc.WakeClear?) && !ok then 1 else 0)
      && (after.SuspendStop? || after.SuspendMark? ==> !s'.suspended)
  {
  }

  lemma MoveBalanced(s: State, i: nat, ok: bool, initially: nat)
    requires Exclusive(s) && Balanced(s, initially) && i < |s.threads| && !s.threads[i].Done?
    ensures Balanced(MoveThread(s, i, ok), initially)
  {
    MoveHolder(s, i, ok);
    MoveLogs(s, i, ok);
    LoggedCounts(s.log, s.threads[i], ok, s.clock);
    MoveOwed(s, i, ok, Holder(s.threads), Holder(MoveThread(s, i, ok).threads));
  }

  lemma NextBalanced(s: State, step: Step, initially: nat)
    requires Exclusive(s) && Balanced(s, initially) && Enabled(s, step)
    ensures Balanced(Next(s, step), initially)
  {
    match step
    case Move(i, ok) => MoveBalanced(s, i, ok, initially);
    case SpawnWake => SpawnBalanced(s, WakeAcquire, initially);
    case SpawnSuspend(d) => SpawnBalanced(s, SuspendAcquire(d), initially);
    case _ =>
  }

  lemma SpawnBalanced(s: State, pc: Pc, initially: nat)
    requires Exclusive(s) && Balanced(s, initially) && (pc.WakeAcquire? || pc.SuspendAcquire?)
    ensures Balanced(s.(threads := s.threads + [pc]), initially)
  {
    assert (s.threads + [pc])[..|s.threads|] == s.threads;
  }

  // ---- A completed wake's stamp against later stops ----

  // Nobody stopped the stack on a decision made at d since entry `from` of the log, and
  // nobody is about to: the traffic on record is newer than that decision.
  predicate Protected(s: State, from: nat, d: int) {
    && from <= |s.log| && s.lastTraffic.Some? && d < s.lastTraffic.value && d < s.clock
    && (forall j :: 0 <= j < |s.threads| ==> s.threads[j] != SuspendStop(d))
    && (forall j :: from <= j < |s.log| ==> s.log[j] != StopCalled(d))
  }

  // The sweeper records traffic that is no newer than the decision.
  predicate Reopens(step: Step, d: int) { step.SweeperWrite? && step.ts <= d }

  lemma LogProtected(log: seq<Event>, pc: Pc, ok: bool, clock: int, from: nat, d: int)
    requires pc != SuspendStop(d) && forall j :: from <= j < |log| ==> log[j] != StopCalled(d)
    ensures var after := log + Logged(pc, ok, clock); forall j :: from <= j < |after| ==> after[j] != StopCalled(d)
  {
  }

  lemma MoveProtected(s: State, i: nat, ok: bool, from: nat, d: int)
    requires Protected(s, from, d) && i < |s.threads| && !s.threads[i].Done?
    ensures Protected(MoveThread(s, i, ok), from, d)
  {
    MoveLogs(s, i, ok);
    LogProtected(s.log, s.threads[i], ok, s.clock, from, d);
    MoveRecords(s, i, ok, d);
  }

  lemma MoveRecords(s: State, i: nat, ok: bool, d: int)
    requires i < |s.threads| && !s.threads[i].Done? && s.lastTraffic.Some? && d < s.lastTraffic.value && d < s.clock
    requires forall j :: 0 <= j < |s.threads| ==> s.threads[j] != SuspendStop(d)
    ensures var s' := MoveThread(s, i, ok);
      && s'.lastTraffic.Some? && d < s'.lastTraffic.value && d < s'.clock
      && forall j :: 0 <= j < |s'.threads| ==> s'.threads[j] != SuspendStop(d)
  {
  }

  // Only such a write ends the protection.
  lemma NextProtected(s: State, step: Step, from: nat, d: int)
    requires Protected(s, from, d) && Enabled(s, step) && !Reopens(step, d)
    ensures Protected(Next(s, step), from, d)
  {
    match step
    case Move(i, ok) => MoveProtected(s, i, ok, from, d);
    case _ =>
  }

  lemma NextLogGrows(s: State, step: Step)
    requires Enabled(s, step)
    ensures s.log <= Next(s, step).log
  {
    match step
    case Move(i, ok) => MoveLogs(s, i, ok);
    case _ =>
  }

  // A stamp is made by the one holder of the guard, so no Suspend is past its re-check.
  lemma StampProtects(s: State, step: Step, i: nat, d: int)
    requires Exclusive(s) && Enabled(s, step) && |s.log| <= i < |Next(s, step).log|
    requires Next(s, step).log[i].Stamped? && d < Next(s, step).log[i].at
    ensures Protected(Next(s, step), i + 1, d)
  {
    var m, ok := step.i, step.ok;
    MoveLogs(s, m, ok);
    assert Next(s, step).log[i] == Logged(s.threads[m], ok, s.clock)[i - |s.log|];
    assert s.threads[m].WakeStamp? && ok;
    forall j | 0 <= j < |s.threads| && j != m ensures !s.threads[j].SuspendStop? {
      OneHolder(s, m, j);
    }
  }

  lemma OneHolder(s: State, i: nat, j: nat)
    requires Exclusive(s) && i < |s.threads| && j < |s.threads| && i != j
    ensures s.threads[i].Holds() ==> !s.threads[j].Holds()
  {
  }

  // ---- The theorems over every run ----

  lemma {:induction false} RunInvariant(states: seq<State>, steps: seq<Step>, k: nat)
    requires IsRun(states, steps) && k < |states|
    ensures Exclusive(states[k]) && Balanced(states[k], if states[0].suspended then 1 else 0)
  {
    if k > 0 {
      RunInvariant(states, steps, k - 1);
      NextExclusive(states[k - 1], steps[k - 1]);
      NextBalanced(states[k - 1], steps[k - 1], if states[0].suspended then 1 else 0);
    }
  }

  // One step of a run, taken out of it.
  lemma StepOf(states: seq<State>, steps: seq<Step>, k: nat)
    requires IsRun(states, steps) && k < |steps|
    ensures Exclusive(states[k]) && Enabled(states[k], steps[k]) && states[k + 1] == Next(states[k], steps[k])
    ensures states[k].log <= states[k + 1].log
  {
    RunInvariant(states, steps, k);
    NextLogGrows(states[k], steps[k]);
  }

  lemma {:induction false} RunLogGrows(states: seq<State>, steps: seq<Step>, m: nat, k: nat)
    requires IsRun(states, steps) && m <= k < |states|
    ensures states[m].log <= states[k].log
  {
    if m < k {
      RunLogGrows(states, steps, m, k - 1);
      StepOf(states, steps, k - 1);
    }
  }

  // Times on record are never ahead of the clock.
  predicate Timely(s: State) { s.lastTraffic.Some? ==> s.lastTraffic.value <= s.clock }

  lemma NextTimely(s: State, step: Step)
    requires Timely(s) && Enabled(s, step)
    ensures Timely(Next(s, step))
  {
  }

  lemma {:induction false} RunTimely(states: seq<State>, steps: seq<Step>, k: nat)
    requires IsRun(states, steps) && k < |states|
    ensures Timely(states[k])
  {
    if k > 0 {
      RunTimely(states, steps, k - 1);
      NextTimely(states[k - 1], steps[k - 1]);
    }
  }

  // At most one goroutine of the app is past acquire.
  lemma OneTransitionAtATime(states: seq<State>, steps: seq<Step>, k: nat, i: nat, j: nat)
    requires IsRun(states, steps) && k < |states|
    requires i < |states[k].threads| && j < |states[k].threads|
    requires states[k].threads[i].Holds() && states[k].threads[j].Holds()
    ensures i == j && states[k].inFlight
  {
    RunInvariant(states, steps, k);
  }

  // Starts never exceed stops plus the initial suspension plus the wakes whose start
  // or flag write failed, in every interleaving with deploys and the sweeper.
  lemma StartsAreEarned(states: seq<State>, steps: seq<Step>, k: nat)
    requires IsRun(states, steps) && k < |states|
    ensures Starts(states[k].log) <= Stops(states[k].log) + FailedWakes(states[k].log) + (if states[0].suspended then 1 else 0)
  {
    RunInvariant(states, steps, k);
  }

  // So a herd of wakes without failures and without a suspend starts the stack once.
  lemma HerdStartsOnce(states: seq<State>, steps: seq<Step>, k: nat)
    requires IsRun(states, steps) && k < |states|
    requires FailedWakes(states[k].log) == 0 && Stops(states[k].log) == 0
    ensures Starts(states[k].log) <= 1
  {
    StartsAreEarned(states, steps, k);
  }

  lemma StampedStep(states: seq<State>, steps: seq<Step>, k: nat, i: nat, d: int)
    requires IsRun(states, steps) && k < |steps| && |states[k].log| <= i < |states[k + 1].log|
    requires states[k + 1].log[i].Stamped? && d < states[k + 1].log[i].at
    ensures Protected(states[k + 1], i + 1, d)
  {
    StepOf(states, steps, k);
    StampProtects(states[k], steps[k], i, d);
  }

  lemma ProtectedStep(states: seq<State>, steps: seq<Step>, k: nat, from: nat, d: int)
    requires IsRun(states, steps) && k < |steps| && Protected(states[k], from, d) && !Reopens(steps[k], d)
    ensures Protected(states[k + 1], from, d)
  {
    StepOf(states, steps, k);
    NextProtected(states[k], steps[k], from, d);
  }

  lemma LoggedBefore(states: seq<State>, steps: seq<Step>, k: nat, i: nat)
    requires IsRun(states, steps) && k < |steps| && i < |states[k].log|
    ensures i < |states[k + 1].log| && states[k + 1].log[i] == states[k].log[i]
  {
    StepOf(states, steps, k);
  }

  // A stamp protects until the end of the run, or up to a write that reopens.
  lemma {:induction false} ProtectedUntil(states: seq<State>, steps: seq<Step>, k: nat, i: nat, d: int) returns (m: nat)
    requires IsRun(states, steps) && k < |states| && i < |states[k].log|
    requires states[k].log[i].Stamped? && d < states[k].log[i].at
    ensures m <= k && Protected(states[m], i + 1, d)
    ensures m == k || Reopens(steps[m], d)
  {
    assert k > 0;
    if |states[k - 1].log| <= i {
      StampedStep(states, steps, k - 1, i, d);
      m := k;
    } else {
      LoggedBefore(states, steps, k - 1, i);
      m := ProtectedUntil(states, steps, k - 1, i, d);
      if m == k - 1 && !Reopens(steps[m], d) {
        ProtectedStep(states, steps, m, i + 1, d);
        m := k;
      }
    }
  }

  lemma NotStoppedYet(s: State, t: State, from: nat, j: nat, d: int)
    requires Protected(s, from, d) && s.log <= t.log && from <= j < |t.log| && t.log[j] == StopCalled(d)
    ensures |s.log| <= j
  {
  }

  // When a Suspend decided before a completed wake's stamp stops the stack after it, the
  // sweeper has written in between: back over newer traffic, to a time no later than that
  // decision. No other write matters, and nothing else lets such a Suspend through.
  lemma StaleSuspendBacksOff(states: seq<State>, steps: seq<Step>, k: nat, i: nat, j: nat) returns (m: nat)
    requires IsRun(states, steps) && k < |states| && i < j < |states[k].log|
    requires states[k].log[i].Stamped? && states[k].log[j].StopCalled?
    requires states[k].log[j].decidedAt < states[k].log[i].at
    ensures m < k && Reopens(steps[m], states[k].log[j].decidedAt)
    ensures i < |states[m].log| <= j
    ensures states[m].lastTraffic.Some? && states[k].log[j].decidedAt < states[m].lastTraffic.value
  {
    m := ProtectedUntil(states, steps, k, i, states[k].log[j].decidedAt);
    RunLogGrows(states, steps, m, k);
    NotStoppedYet(states[m], states[k], i + 1, j, states[k].log[j].decidedAt);
  }

  // ---- What happens without those conditions ----

  function RunFrom(s: State, steps: seq<Step>): Option<State>
    decreases |steps|
  {
    if steps == [] then Some(s)
    else if Enabled(s, steps[0]) then RunFrom(Next(s, steps[0]), steps[1..]) else None
  }

  // Reachable by some steps.
  ghost predicate Leads(s: State, t: State) { exists steps :: RunFrom(s, steps) == Some(t) }

  lemma LeadsSelf(s: State)
    ensures Leads(s, s)
  {
    assert RunFrom(s, []) == Some(s);
  }

  lemma StepLeads(s: State, step: Step, t: State, end: State)
    requires Enabled(s, step) && Next(s, step) == t && Leads(t, end)
    ensures Leads(s, end)
  {
    var steps :| RunFrom(t, steps) == Some(end);
    assert ([step] + steps)[1..] == steps;
    assert RunFrom(s, [step] + steps) == Some(end);
  }

  // The same with no sweeper write below `floor` on the way.
  predicate WritesFrom(steps: seq<Step>, floor: int) {
    forall k :: 0 <= k < |steps| && steps[k].SweeperWrite? ==> floor <= steps[k].ts
  }

  ghost predicate LeadsAbove(s: State, t: State, floor: int) {
    exists steps :: RunFrom(s, steps) == Some(t) && WritesFrom(steps, floor)
  }

  lemma AboveSelf(s: State, floor: int)
    ensures LeadsAbove(s, s, floor)
  {
    assert RunFrom(s, []) == Some(s);
  }

  lemma StepAbove(s: State, step: Step, t: State, end: State, floor: int)
    requires Enabled(s, step) && Next(s, step) == t && LeadsAbove(t, end, floor)
    requires step.SweeperWrite? ==> floor <= step.ts
    ensures LeadsAbove(s, end, floor)
  {
    var steps :| RunFrom(t, steps) == Some(end) && WritesFrom(steps, floor);
    assert ([step] + steps)[1..] == steps;
    assert RunFrom(s, [step] + steps) == Some(end);
  }

  lemma {:induction false} RunFromConcat(s: State, first: seq<Step>, second: seq<Step>)
    requires RunFrom(s, first).Some?
    ensures RunFrom(s, first + second) == RunFrom(RunFrom(s, first).value, second)
    decreases |first|
  {
    if first == [] {
      assert first + second == second;
    } else {
      RunFromConcat(Next(s, first[0]), first[1..], second);
      assert (first + second)[1..] == first[1..] + second;
    }
  }

  lemma AboveTransitive(s: State, t: State, u: State, floor: int)
    requires LeadsAbove(s, t, floor) && LeadsAbove(t, u, floor)
    ensures LeadsAbove(s, u, floor)
  {
    var first :| RunFrom(s, first) == Some(t) && WritesFrom(first, floor);
    var second :| RunFrom(t, second) == Some(u) && WritesFrom(second, floor);
    RunFromConcat(s, first, second);
    assert RunFrom(s, first + second) == Some(u);
  }

  // ---- Letting the holder finish ----

  function Rank(pc: Pc): nat {
    match pc
    case Done => 0
    case Releasing => 1
    case SuspendRoutes => 2
    case WakeSync => 2
    case _ => 3
  }

  // The state after the holder's next call failed and it let go of the guard.
  function Drained(s: State, h: nat): State
    requires h < |s.threads|
  {
    s.(inFlight := false, threads := s.threads[h := Done], log := s.log + Logged(s.threads[h], false, s.clock))
  }

  lemma {:induction false} HolderDrains(s: State, h: nat, floor: int)
    requires h < |s.threads| && s.threads[h].Holds()
    ensures LeadsAbove(s, Drained(s, h), floor)
    decreases Rank(s.threads[h])
  {
    var s1 := MoveThread(s, h, false);
    MoveLogs(s, h, false);
    if s.threads[h].Releasing? {
      assert s1 == Drained(s, h);
      AboveSelf(s1, floor);
    } else {
      FailedMove(s, h);
      HolderDrains(s1, h, floor);
      assert s1.log + [] == s1.log;
      assert s1.threads[h := Done] == s.threads[h := Done];
      assert Drained(s1, h) == Drained(s, h);
    }
    StepAbove(s, Move(h, false), s1, Drained(s, h), floor);
  }

  lemma FailedMove(s: State, h: nat)
    requires h < |s.threads| && s.threads[h].Holds() && !s.threads[h].Releasing?
    ensures var s1 := MoveThread(s, h, false);
      && s1.threads[h] in {Releasing, SuspendRoutes, WakeSync} && Rank(s1.threads[h]) < Rank(s.threads[h])
      && Logged(s1.threads[h], false, s1.clock) == []
      && s1 == s.(threads := s.threads[h := s1.threads[h]], log := s1.log)
  {
  }

  // From every state one gets to a free guard; nothing but the holder and the log moves.
  lemma GuardFrees(s: State, floor: int) returns (t: State)
    requires Exclusive(s)
    ensures LeadsAbove(s, t, floor) && !t.inFlight && s.log <= t.log && |t.threads| == |s.threads|
    ensures t == s.(inFlight := false, threads := t.threads, log := t.log)
    ensures forall j :: 0 <= j < |s.threads| && !s.threads[j].Holds() ==> t.threads[j] == s.threads[j]
    ensures forall j :: 0 <= j < |s.threads| && s.threads[j].Holds() ==>
      t.log == s.log + Logged(s.threads[j], false, s.clock)
    ensures !s.inFlight ==> t.log == s.log
  {
    if s.inFlight {
      var h :| 0 <= h < |s.threads| && s.threads[h].Holds();
      HolderDrains(s, h, floor);
      t := Drained(s, h);
    } else {
      AboveSelf(s, floor);
      t := s;
    }
  }

  // ---- When can a stale Suspend stop the stack? ----

  predicate StopsAfter(log: seq<Event>, from: nat, d: int) { exists j :: from <= j < |log| && log[j] == StopCalled(d) }

  // Some continuation without sweeper writes below `floor` stops the stack on a decision
  // made at d.
  ghost predicate MayStop(s: State, d: int, floor: int) {
    exists t :: LeadsAbove(s, t, floor) && StopsAfter(t.log, |s.log|, d)
  }

  lemma {:induction false} StaysProtected(s: State, steps: seq<Step>, from: nat, d: int)
    requires Protected(s, from, d) && RunFrom(s, steps).Some? && WritesFrom(steps, d + 1)
    ensures Protected(RunFrom(s, steps).value, from, d)
    decreases |steps|
  {
    if steps != [] {
      NextProtected(s, steps[0], from, d);
      assert forall k :: 0 <= k < |steps[1..]| ==> steps[1..][k] == steps[k + 1];
      StaysProtected(Next(s, steps[0]), steps[1..], from, d);
    }
  }

  // A Suspend that has not passed its re-check.
  predicate Unchecked(pc: Pc, d: int) { pc == SuspendAcquire(d) || pc == SuspendCheck(d) }

  // Whoever holds the guard and whatever the flag says: a Suspend that has not passed its
  // re-check and was decided before the traffic on record can still stop the stack if and
  // only if the sweeper may write a time no later than its decision (or another Suspend
  // of the same tick is already past its re-check).
  lemma StaleSuspendStopsIff(s: State, i: nat, d: int, floor: int)
    requires Exclusive(s) && Timely(s) && i < |s.threads| && Unchecked(s.threads[i], d)
    requires s.lastTraffic.Some? && d < s.lastTraffic.value
    ensures MayStop(s, d, floor) <==> floor <= d || At(s.threads, SuspendStop(d))
  {
    if At(s.threads, SuspendStop(d)) {
      var j :| 0 <= j < |s.threads| && s.threads[j] == SuspendStop(d);
      var end := Next(s, Move(j, true));
      AboveSelf(end, floor);
      StepAbove(s, Move(j, true), end, end, floor);
      assert end.log[|s.log|] == StopCalled(d);
    } else if floor <= d {
      StaleSuspendStops(s, i, d, floor);
    } else if MayStop(s, d, floor) {
      var t :| LeadsAbove(s, t, floor) && StopsAfter(t.log, |s.log|, d);
      var steps :| RunFrom(s, steps) == Some(t) && WritesFrom(steps, floor);
      assert WritesFrom(steps, d + 1);
      StaysProtected(s, steps, |s.log|, d);
    }
  }

  lemma StaleSuspendStops(s: State, i: nat, d: int, floor: int)
    requires Exclusive(s) && i < |s.threads| && Unchecked(s.threads[i], d) && floor <= d <= s.clock
    ensures MayStop(s, d, floor)
  {
    if s.threads[i].SuspendCheck? {
      var end := CheckedStops(s, i, d, floor);
    } else {
      var t := GuardFrees(s, floor);
      var u := t.(inFlight := true, threads := t.threads[i := SuspendCheck(d)]);
      var end := CheckedStops(u, i, d, floor);
      StepAbove(t, Move(i, true), u, end, floor);
      AboveTransitive(s, t, end, floor);
    }
  }

  lemma CheckedStops(s: State, i: nat, d: int, floor: int) returns (end: State)
    requires i < |s.threads| && s.threads[i] == SuspendCheck(d) && floor <= d <= s.clock
    ensures LeadsAbove(s, end, floor) && end.log == s.log + [RowRead, StopCalled(d), StackStopped]
    ensures StopsAfter(end.log, |s.log|, d)
  {
    var s1 := Next(s, SweeperWrite(d));
    var s2 := Next(s1, DeployClears);
    var s3 := Next(s2, Move(i, true));
    end := Next(s3, Move(i, true));
    AboveSelf(end, floor);
    StepAbove(s3, Move(i, true), end, end, floor);
    StepAbove(s2, Move(i, true), s3, end, floor);
    StepAbove(s1, DeployClears, s2, end, floor);
    StepAbove(s, SweeperWrite(d), s1, end, floor);
    MoveLogs(s2, i, true);
    MoveLogs(s3, i, true);
    assert end.log == s.log + [RowRead] + [StopCalled(d), StackStopped];
    assert end.log[|s.log| + 1] == StopCalled(d);
  }

  // ---- When can the stack be started without a stop before it? ----

  // What a start may follow: a stop, and with `failures` also a failed wake.
  predicate Excuse(e: Event, failures: bool) { e.StopCalled? || (failures && e.WakeFailed?) }

  predicate ExcuseIn(log: seq<Event>, from: nat, to: nat, failures: bool) {
    exists r :: from <= r < to && r < |log| && Excuse(log[r], failures)
  }

  // Since `from` some start came without an excuse before it.
  predicate StartsFirst(log: seq<Event>, from: nat, failures: bool) {
    exists q :: from <= q < |log| && log[q].StartCalled? && !ExcuseIn(log, from, q, failures)
  }

  ghost predicate MayStart(s: State) {
    exists t :: Leads(s, t) && StartsFirst(t.log, |s.log|, false)
  }

  predicate At(threads: seq<Pc>, pc: Pc) { exists j :: 0 <= j < |threads| && threads[j] == pc }

  predicate Stopping(threads: seq<Pc>) { exists j :: 0 <= j < |threads| && threads[j].SuspendStop? }

  // The flag is set and nobody is about to stop, or somebody is about to start, or to
  // record a stop that was made.
  predicate Startable(s: State) { (s.suspended && !Stopping(s.threads)) || At(s.threads, WakeStart) || At(s.threads, SuspendMark) }

  // No start came without an excuse, and none is due: an excuse came, or nothing can be
  // started, or the one start made is about to clear the flag.
  predicate Quiet(s: State, from: nat, failures: bool) {
    && from <= |s.log| && !StartsFirst(s.log, from, failures)
    && (ExcuseIn(s.log, from, |s.log|, failures) || !Startable(s) || (failures && At(s.threads, WakeClear)))
  }

  lemma MoreLogged(log: seq<Event>, more: seq<Event>, from: nat, failures: bool)
    requires from <= |log| && !StartsFirst(log, from, failures)
    requires ExcuseIn(log, from, |log|, failures) || forall k :: 0 <= k < |more| ==> !more[k].StartCalled?
    ensures !StartsFirst(log + more, from, failures)
    ensures ExcuseIn(log, from, |log|, failures) ==> ExcuseIn(log + more, from, |log + more|, failures)
  {
    var all := log + more;
    if ExcuseIn(log, from, |log|, failures) {
      var r :| from <= r < |log| && Excuse(log[r], failures);
      assert all[r] == log[r];
    }
    forall q | from <= q < |all| && all[q].StartCalled? ensures ExcuseIn(all, from, q, failures) {
      if q < |log| {
        assert ExcuseIn(log, from, q, failures);
        var r :| from <= r < q && r < |log| && Excuse(log[r], failures);
        assert all[r] == log[r];
      } else {
        assert all[q] == more[q - |log|];
        var r :| from <= r < |log| && Excuse(log[r], failures);
        assert all[r] == log[r];
      }
    }
  }

  lemma ExcuseLogged(log: seq<Event>, more: seq<Event>, from: nat, failures: bool)
    requires from <= |log| && more != [] && Excuse(more[0], failures)
    ensures ExcuseIn(log + more, from, |log + more|, failures)
  {
    assert (log + more)[|log|] == more[0];
  }

  // A move that leaves no excuse leaves nothing to start.
  lemma MoveUnstartable(s: State, i: nat, ok: bool)
    requires Exclusive(s) && !Startable(s) && i < |s.threads| && !s.threads[i].Done?
    ensures !s.threads[i].WakeStart?
    ensures s.threads[i].SuspendStop? || !Startable(MoveThread(s, i, ok))
  {
    var s' := MoveThread(s, i, ok);
    MoveGuard(s, i, ok);
    assert At(s.threads, s.threads[i]);
    if !s.threads[i].SuspendStop? {
      NowhereNew(s.threads, s'.threads, i, WakeStart);
      NowhereNew(s.threads, s'.threads, i, SuspendMark);
      if Stopping(s.threads) {
        var j :| 0 <= j < |s.threads| && s.threads[j].SuspendStop?;
        OneHolder(s, i, j);
        assert s'.threads[j] == s.threads[j];
      }
    }
  }

  lemma NowhereNew(before: seq<Pc>, after: seq<Pc>, i: nat, pc: Pc)
    requires i < |before| == |after| && after == before[i := after[i]]
    ensures At(after, pc) ==> At(before, pc) || after[i] == pc
  {
    if At(after, pc) && after[i] != pc {
      var j :| 0 <= j < |after| && after[j] == pc;
      assert before[j] == pc;
    }
  }

  // The start just made clears the flag, or fails.
  lemma MoveClearing(s: State, i: nat, ok: bool)
    requires Exclusive(s) && At(s.threads, WakeClear) && i < |s.threads| && !s.threads[i].Done?
    ensures !s.threads[i].WakeStart?
    ensures var s' := MoveThread(s, i, ok);
      (s.threads[i].WakeClear? && !ok) || At(s'.threads, WakeClear) || !Startable(s')
  {
    var s' := MoveThread(s, i, ok);
    var h :| 0 <= h < |s.threads| && s.threads[h] == WakeClear;
    MoveGuard(s, i, ok);
    if i == h {
      forall j | 0 <= j < |s.threads| && j != h ensures !s'.threads[j].Holds() {
        OneHolder(s, h, j);
      }
    } else {
      OneHolder(s, h, i);
      assert s'.threads[h] == WakeClear;
    }
  }

  lemma MoveQuiet(s: State, i: nat, ok: bool, from: nat, failures: bool)
    requires Exclusive(s) && Quiet(s, from, failures) && i < |s.threads| && !s.threads[i].Done?
    ensures Quiet(MoveThread(s, i, ok), from, failures)
  {
    var more := Logged(s.threads[i], ok, s.clock);
    MoveLogs(s, i, ok);
    if !ExcuseIn(s.log, from, |s.log|, failures) {
      if !Startable(s) {
        MoveUnstartable(s, i, ok);
      } else {
        MoveClearing(s, i, ok);
      }
      if s.threads[i].SuspendStop? || (failures && s.threads[i].WakeClear? && !ok) {
        ExcuseLogged(s.log, more, from, failures);
      }
    }
    MoreLogged(s.log, more, from, failures);
  }

  lemma SpawnQuiet(s: State, pc: Pc, from: nat, failures: bool)
    requires Quiet(s, from, failures) && (pc.WakeAcquire? || pc.SuspendAcquire?)
    ensures Quiet(s.(threads := s.threads + [pc]), from, failures)
  {
    var after := s.threads + [pc];
    assert forall j :: 0 <= j < |s.threads| ==> after[j] == s.threads[j];
    assert At(after, WakeStart) ==> At(s.threads, WakeStart);
    assert At(after, SuspendMark) ==> At(s.threads, SuspendMark);
    assert At(s.threads, WakeClear) ==> At(after, WakeClear);
    assert Stopping(s.threads) ==> Stopping(after);
  }

  lemma NextQuiet(s: State, step: Step, from: nat, failures: bool)
    requires Exclusive(s) && Quiet(s, from, failures) && Enabled(s, step)
    ensures Quiet(Next(s, step), from, failures)
  {
    match step
    case Move(i, ok) => MoveQuiet(s, i, ok, from, failures);
    case SpawnWake => SpawnQuiet(s, WakeAcquire, from, failures);
    case SpawnSuspend(d) => SpawnQuiet(s, SuspendAcquire(d), from, failures);
    case _ =>
  }

  lemma {:induction false} StaysQuiet(s: State, steps: seq<Step>, from: nat)
    requires Exclusive(s) && Quiet(s, from, false) && RunFrom(s, steps).Some?
    ensures Quiet(RunFrom(s, steps).value, from, false)
    decreases |steps|
  {
    if steps != [] {
      NextQuiet(s, steps[0], from, false);
      NextExclusive(s, steps[0]);
      StaysQuiet(Next(s, steps[0]), steps[1..], from);
    }
  }

  lemma AboveLeads(s: State, t: State, floor: int)
    requires LeadsAbove(s, t, floor)
    ensures Leads(s, t)
  {
  }

  // A wake of a sleeping app with a free guard starts the stack.
  lemma WakeStarts(s: State) returns (end: State)
    requires !s.inFlight && s.suspended
    ensures LeadsAbove(s, end, 0) && end.log == s.log + [RowRead, StartCalled, StackStarted]
  {
    var n := |s.threads|;
    var s1 := Next(s, SpawnWake);
    var s2 := Next(s1, Move(n, true));
    var s3 := Next(s2, Move(n, true));
    end := Next(s3, Move(n, true));
    AboveSelf(end, 0);
    StepAbove(s3, Move(n, true), end, end, 0);
    StepAbove(s2, Move(n, true), s3, end, 0);
    StepAbove(s1, Move(n, true), s2, end, 0);
    StepAbove(s, SpawnWake, s1, end, 0);
    MoveLogs(s2, n, true);
    MoveLogs(s3, n, true);
    assert end.log == s.log + [RowRead] + [StartCalled, StackStarted];
  }

  // The same once the holder, who makes no stop, has let go.
  lemma SleepingStarts(s: State) returns (end: State)
    requires Exclusive(s) && s.suspended && !Stopping(s.threads) && !At(s.threads, WakeStart)
    ensures LeadsAbove(s, end, 0) && s.log <= end.log && StartsFirst(end.log, |s.log|, false)
  {
    var t := GuardFrees(s, 0);
    var more := t.log[|s.log|..];
    forall k | 0 <= k < |more| ensures !more[k].StopCalled? {
      var h :| 0 <= h < |s.threads| && s.threads[h].Holds();
      assert more == Logged(s.threads[h], false, s.clock);
    }
    end := WakeStarts(t);
    AboveTransitive(s, t, end, 0);
    var at := |t.log| + 1;
    assert end.log[at] == StartCalled && end.log[at - 1] == RowRead;
    assert forall r :: |s.log| <= r < |t.log| ==> end.log[r] == more[r - |s.log|];
  }

  lemma PendingStarts(s: State, j: nat) returns (end: State)
    requires j < |s.threads| && s.threads[j] == WakeStart
    ensures LeadsAbove(s, end, 0) && StartsFirst(end.log, |s.log|, false)
  {
    end := Next(s, Move(j, true));
    AboveSelf(end, 0);
    StepAbove(s, Move(j, true), end, end, 0);
    assert end.log[|s.log|] == StartCalled;
  }

  lemma MarkedStarts(s: State, j: nat) returns (end: State)
    requires Exclusive(s) && j < |s.threads| && s.threads[j] == SuspendMark
    ensures LeadsAbove(s, end, 0) && StartsFirst(end.log, |s.log|, false)
  {
    var s1 := Next(s, Move(j, true));
    NextExclusive(s, Move(j, true));
    assert s1.threads[j] == SuspendServices && s1.log == s.log + [FlagSet];
    forall k | 0 <= k < |s1.threads| && k != j ensures !s1.threads[k].Holds() {
      OneHolder(s1, j, k);
    }
    end := SleepingStarts(s1);
    StepAbove(s, Move(j, true), s1, end, 0);
    var q :| |s1.log| <= q < |end.log| && end.log[q].StartCalled? && !ExcuseIn(end.log, |s1.log|, q, false);
    assert end.log[|s.log|] == FlagSet;
    assert !ExcuseIn(end.log, |s.log|, q, false);
  }

  // The exact condition for "one start per stop" to be broken from a state on: some
  // continuation starts the stack without a stop before it if and only if the app is
  // asleep with nobody about to stop it, or a start or the record of a stop is under way.
  lemma MayStartIff(s: State)
    requires Exclusive(s)
    ensures MayStart(s) <==> Startable(s)
  {
    if At(s.threads, WakeStart) {
      var j :| 0 <= j < |s.threads| && s.threads[j] == WakeStart;
      var end := PendingStarts(s, j);
      AboveLeads(s, end, 0);
    } else if At(s.threads, SuspendMark) {
      var j :| 0 <= j < |s.threads| && s.threads[j] == SuspendMark;
      var end := MarkedStarts(s, j);
      AboveLeads(s, end, 0);
    } else if s.suspended && !Stopping(s.threads) {
      var end := SleepingStarts(s);
      AboveLeads(s, end, 0);
    } else if MayStart(s) {
      var t :| Leads(s, t) && StartsFirst(t.log, |s.log|, false);
      var steps :| RunFrom(s, steps) == Some(t);
      StaysQuiet(s, steps, |s.log|);
    }
  }

  // With a free guard that is the flag alone.
  lemma IdleMayStartIff(s: State)
    requires Exclusive(s) && !s.inFlight
    ensures MayStart(s) <==> s.suspended
  {
    MayStartIff(s);
  }

  // A wake whose start or flag write fails leaves a start without a stop possible if and
  // only if the flag is still set.
  lemma FailedWakeRestartsIff(s: State, i: nat)
    requires Exclusive(s) && i < |s.threads| && s.threads[i] in {WakeStart, WakeClear}
    ensures var s' := Next(s, Move(i, false));
      && s'.log == s.log + Logged(s.threads[i], false, s.clock) && s'.log[|s'.log| - 1].WakeFailed?
      && (MayStart(s') <==> s.suspended)
  {
    var s' := Next(s, Move(i, false));
    MoveLogs(s, i, false);
    NextExclusive(s, Move(i, false));
    MayStartIff(s');
    assert s'.threads[i] == Releasing;
    forall j | 0 <= j < |s'.threads| && j != i ensures !s'.threads[j].Holds() {
      OneHolder(s', i, j);
    }
  }

  // Then all that comes next in the log can be a second start.
  lemma FailedClearStartsTwice(s: State, i: nat) returns (end: State)
    requires Exclusive(s) && i < |s.threads| && s.threads[i] in {WakeStart, WakeClear} && s.suspended
    ensures var s' := Next(s, Move(i, false)); Leads(s', end) && end.log == s'.log + [RowRead, StartCalled, StackStarted]
    ensures Starts(end.log) == Starts(Next(s, Move(i, false)).log) + 1 && Stops(end.log) == Stops(Next(s, Move(i, false)).log)
  {
    var s' := Next(s, Move(i, false));
    NextExclusive(s, Move(i, false));
    assert s'.threads[i] == Releasing;
    var t := GuardFrees(s', 0);
    assert s'.log + [] == s'.log;
    end := WakeStarts(t);
    AboveTransitive(s', t, end, 0);
    AboveLeads(s', end, 0);
    WakeCounts(s'.log);
  }

  lemma WakeCounts(log: seq<Event>)
    ensures var after := log + [RowRead, StartCalled, StackStarted]; Starts(after) == Starts(log) + 1 && Stops(after) == Stops(log)
  {
    LogCounts(log, RowRead);
    LogCounts(log + [RowRead], StartCalled);
    LogCounts(log + [RowRead] + [StartCalled], StackStarted);
    assert log + [RowRead, StartCalled, StackStarted] == log + [RowRead] + [StartCalled] + [StackStarted];
  }

  // In every run, between two starts there is a stop or a failed wake.
  lemma StartsApart(states: seq<State>, steps: seq<Step>, k: nat, p: nat, q: nat) returns (r: nat)
    requires IsRun(states, steps) && k < |states| && p < q < |states[k].log|
    requires states[k].log[p].StartCalled? && states[k].log[q].StartCalled?
    ensures p < r < q && (states[k].log[r].StopCalled? || states[k].log[r].WakeFailed?)
  {
    QuietSince(states, steps, k, p);
    assert ExcuseIn(states[k].log, p + 1, q, true);
    r :| p + 1 <= r < q && r < |states[k].log| && Excuse(states[k].log[r], true);
  }

  lemma {:induction false} QuietSince(states: seq<State>, steps: seq<Step>, k: nat, p: nat)
    requires IsRun(states, steps) && k < |states| && p < |states[k].log| && states[k].log[p].StartCalled?
    ensures Quiet(states[k], p + 1, true)
  {
    assert k > 0;
    StepOf(states, steps, k - 1);
    if p < |states[k - 1].log| {
      LoggedBefore(states, steps, k - 1, p);
      QuietSince(states, steps, k - 1, p);
      NextQuiet(states[k - 1], steps[k - 1], p + 1, true);
    } else {
      StartIsQuiet(states[k - 1], steps[k - 1], p);
    }
  }

  lemma StartIsQuiet(s: State, step: Step, p: nat)
    requires Enabled(s, step) && |s.log| <= p < |Next(s, step).log| && Next(s, step).log[p].StartCalled?
    ensures Quiet(Next(s, step), p + 1, true)
  {
    var i, ok := step.i, step.ok;
    var s' := Next(s, step);
    MoveLogs(s, i, ok);
    assert s'.log[p] == Logged(s.threads[i], ok, s.clock)[p - |s.log|];
    assert s.threads[i].WakeStart? && p == |s.log|;
    if ok {
      assert s'.threads[i] == WakeClear;
    } else {
      assert s'.log[p + 1] == WakeFailed;
    }
  }

  const ASLEEP := State(true, None, false, false, 5, [], [])

  // Such a state is reachable: a failed flag write leaves the app asleep with its stack
  // started.
  lemma FailedClear(end: State)
    requires end == State(true, None, false, true, 5, [Done], [RowRead, StartCalled, StackStarted, WakeFailed])
    ensures Init(ASLEEP) && Leads(ASLEEP, end)
  {
    var s1 := ASLEEP.(threads := [WakeAcquire]);
    var s2 := s1.(threads := [WakeCheck], inFlight := true);
    var s3 := s2.(threads := [WakeStart], log := [RowRead]);
    FailedClearEnd(s3, end);
    StepLeads(s2, Move(0, true), s3, end);
    StepLeads(s1, Move(0, true), s2, end);
    StepLeads(ASLEEP, SpawnWake, s1, end);
  }

  lemma FailedClearEnd(s: State, end: State)
    requires s == State(true, None, true, false, 5, [WakeStart], [RowRead])
    requires end == State(true, None, false, true, 5, [Done], [RowRead, StartCalled, StackStarted, WakeFailed])
    ensures Leads(s, end)
  {
    var s4 := s.(threads := [WakeClear], stackUp := true, log := [RowRead, StartCalled, StackStarted]);
    var s5 := s4.(threads := [Releasing], log := [RowRead, StartCalled, StackStarted, WakeFailed]);
    LeadsSelf(end);
    StepLeads(s5, Move(0, true), end, end);
    StepLeads(s4, Move(0, false), s5, end);
    StepLeads(s, Move(0, true), s4, end);
  }

  // What a completed wake logs, in order, and what a completed suspension does.
  function WholeWake(at: int): seq<Event> {
    [RowRead, StartCalled, StackStarted, FlagCleared, ServicesMarked(true), RoutesSynced, HealthPassed, Stamped(at)]
  }

  function WholeSuspend(d: int): seq<Event> {
    [RowRead, StopCalled(d), StackStopped, FlagSet, ServicesMarked(false), WakeRoutesInstalled]
  }

  // A stale Suspend is reachable with the wake's stamp in place: the goroutine decided at
  // 5, the wake stamped 10.
  lemma StaleSuspendStateReachable(end: State)
    requires end == State(false, Some(10), false, true, 10, [SuspendAcquire(5), Done], WholeWake(10))
    ensures Init(ASLEEP) && Leads(ASLEEP, end)
  {
    var s1 := Next(ASLEEP, SpawnSuspend(5));
    var s2 := Next(s1, Clock(10));
    var s3 := Next(s2, SpawnWake);
    var s4 := Next(s3, Move(1, true));
    var s5 := Next(s4, Move(1, true));
    assert s5 == State(true, None, true, false, 10, [SuspendAcquire(5), WakeStart], [RowRead]);
    WakeFinishes(s5, end);
    StepLeads(s4, Move(1, true), s5, end);
    StepLeads(s3, Move(1, true), s4, end);
    StepLeads(s2, SpawnWake, s3, end);
    StepLeads(s1, Clock(10), s2, end);
    StepLeads(ASLEEP, SpawnSuspend(5), s1, end);
  }

  lemma WakeFinishes(s: State, end: State)
    requires s == State(true, None, true, false, 10, [SuspendAcquire(5), WakeStart], [RowRead])
    requires end == State(false, Some(10), false, true, 10, [SuspendAcquire(5), Done], WholeWake(10))
    ensures Leads(s, end)
  {
    var s1 := Next(s, Move(1, true));
    var s2 := Next(s1, Move(1, true));
    var s3 := Next(s2, Move(1, true));
    assert s3 == State(false, None, true, true, 10, [SuspendAcquire(5), WakeSync], WholeWake(10)[..5]);
    WakeStampsAndReleases(s3, end);
    StepLeads(s2, Move(1, true), s3, end);
    StepLeads(s1, Move(1, true), s2, end);
    StepLeads(s, Move(1, true), s1, end);
  }

  lemma WakeStampsAndReleases(s: State, end: State)
    requires s == State(false, None, true, true, 10, [SuspendAcquire(5), WakeSync], WholeWake(10)[..5])
    requires end == State(false, Some(10), false, true, 10, [SuspendAcquire(5), Done], WholeWake(10))
    ensures Leads(s, end)
  {
    var s1 := Next(s, Move(1, true));
    var s2 := Next(s1, Move(1, true));
    var s3 := Next(s2, Move(1, true));
    assert s3.log == WholeWake(10);
    assert Next(s3, Move(1, true)) == end;
    LeadsSelf(end);
    StepLeads(s3, Move(1, true), end, end);
    StepLeads(s2, Move(1, true), s3, end);
    StepLeads(s1, Move(1, true), s2, end);
    StepLeads(s, Move(1, true), s1, end);
  }

  // ---- What one goroutine did ----

  // What goroutine i logged in the first n steps, in order.
  ghost function DoneBy(states: seq<State>, steps: seq<Step>, i: nat, n: nat): seq<Event>
    requires IsRun(states, steps) && n < |states|
  {
    if n == 0 then []
    else
      var before := DoneBy(states, steps, i, n - 1);
      if steps[n - 1].Move? && steps[n - 1].i == i && states[n - 1].log <= states[n].log
      then before + states[n].log[|states[n - 1].log|..] else before
  }

  predicate Front(done: seq<Event>, whole: seq<Event>, n: nat) { |done| == n && done <= whole }

  predicate FrontOfSuspend(done: seq<Event>, n: nat)
    requires n > 1
  {
    |done| == n && done[1].StopCalled? && Front(done, WholeSuspend(done[1].decidedAt), n)
  }

  // Where a goroutine stands, told by what it logged.
  predicate Told(pc: Pc, done: seq<Event>) {
    match pc
    case SuspendStop(_) => done == [RowRead]
    case SuspendMark => FrontOfSuspend(done, 3)
    case SuspendServices => FrontOfSuspend(done, 4)
    case SuspendRoutes => FrontOfSuspend(done, 5)
    case WakeStart => Front(done, WholeWake(0), 1)
    case WakeClear => Front(done, WholeWake(0), 3)
    case WakeServices => Front(done, WholeWake(0), 4)
    case WakeSync => Front(done, WholeWake(0), 5)
    case WakeHealth => Front(done, WholeWake(0), 6)
    case WakeStamp => Front(done, WholeWake(0), 7)
    case Releasing => Finished(done)
    case Done => Finished(done)
    case _ => done == []
  }

  // A goroutine that stamped did all of a wake, one that installed wake routes all of a
  // suspension, and nothing else.
  predicate Finished(done: seq<Event>) {
    forall k :: 0 <= k < |done| ==>
      && (done[k].Stamped? ==> done == WholeWake(done[k].at))
      && (done[k].WakeRoutesInstalled? ==> |done| > 1 && done[1].StopCalled? && done == WholeSuspend(done[1].decidedAt))
  }

  lemma FrontMore(done: seq<Event>, whole: seq<Event>, n: nat, e: Event)
    requires Front(done, whole, n) && n < |whole| && whole[n] == e
    ensures Front(done + [e], whole, n + 1)
  {
  }

  // What a goroutine that gives up has done is no whole.
  lemma FrontFinished(done: seq<Event>, whole: seq<Event>, n: nat, more: seq<Event>)
    requires Front(done, whole, n) && (forall k :: 0 <= k < n ==> !whole[k].Stamped? && !whole[k].WakeRoutesInstalled?)
    requires forall k :: 0 <= k < |more| ==> !more[k].Stamped? && !more[k].WakeRoutesInstalled?
    ensures Finished(done + more)
  {
  }

  lemma WakeTold(s: State, i: nat, ok: bool, done: seq<Event>)
    requires i < |s.threads| && Told(s.threads[i], done)
    requires s.threads[i] in {WakeStart, WakeClear, WakeServices, WakeSync, WakeHealth, WakeStamp}
    ensures Told(MoveThread(s, i, ok).threads[i], done + Logged(s.threads[i], ok, s.clock))
  {
    var whole, n, more := WholeWake(0), |done|, Logged(s.threads[i], ok, s.clock);
    if MoveThread(s, i, ok).threads[i] == Releasing {
      if s.threads[i].WakeStamp? && ok {
        assert done + more == WholeWake(s.clock);
      } else {
        FrontFinished(done, whole, n, more);
      }
    } else {
      FrontMore(done, whole, n, more[0]);
      if s.threads[i].WakeStart? {
        FrontMore(done + [more[0]], whole, n + 1, more[1]);
        assert done + [more[0]] + [more[1]] == done + more;
      }
    }
  }

  lemma SuspendTold(s: State, i: nat, ok: bool, done: seq<Event>)
    requires i < |s.threads| && Told(s.threads[i], done) && s.threads[i] in {SuspendMark, SuspendServices, SuspendRoutes}
    ensures Told(MoveThread(s, i, ok).threads[i], done + Logged(s.threads[i], ok, s.clock))
  {
    var whole, n, more := WholeSuspend(done[1].decidedAt), |done|, Logged(s.threads[i], ok, s.clock);
    if MoveThread(s, i, ok).threads[i] == Releasing {
      if s.threads[i].SuspendRoutes? && ok {
        assert done + more == whole;
      } else {
        FrontFinished(done, whole, n, more);
      }
    } else {
      FrontMore(done, whole, n, more[0]);
      assert (done + more)[1] == done[1];
    }
  }

  lemma StartTold(s: State, i: nat, ok: bool, done: seq<Event>)
    requires i < |s.threads| && !s.threads[i].Done? && Told(s.threads[i], done)
    requires s.threads[i].SuspendAcquire? || s.threads[i].SuspendCheck? || s.threads[i].WakeAcquire? || s.threads[i].WakeCheck?
      || s.threads[i].SuspendStop? || s.threads[i].Releasing?
    ensures Told(MoveThread(s, i, ok).threads[i], done + Logged(s.threads[i], ok, s.clock))
  {
    var more := Logged(s.threads[i], ok, s.clock);
    assert done + [] == done;
    if s.threads[i].SuspendStop? && ok {
      assert done + more == WholeSuspend(s.threads[i].decidedAt)[..3];
    }
  }

  lemma MoveTold(s: State, i: nat, ok: bool, done: seq<Event>)
    requires i < |s.threads| && !s.threads[i].Done? && Told(s.threads[i], done)
    ensures Told(MoveThread(s, i, ok).threads[i], done + Logged(s.threads[i], ok, s.clock))
  {
    if s.threads[i] in {WakeStart, WakeClear, WakeServices, WakeSync, WakeHealth, WakeStamp} {
      WakeTold(s, i, ok, done);
    } else if s.threads[i] in {SuspendMark, SuspendServices, SuspendRoutes} {
      SuspendTold(s, i, ok, done);
    } else {
      StartTold(s, i, ok, done);
    }
  }

  lemma StepTold(s: State, step: Step, s': State, i: nat, done: seq<Event>)
    requires Enabled(s, step) && s' == Next(s, step) && i < |s.threads| && Told(s.threads[i], done) && s.log <= s'.log
    ensures i < |s'.threads|
    ensures Told(s'.threads[i], if step.Move? && step.i == i then done + s'.log[|s.log|..] else done)
  {
    if step.Move? {
      if step.i == i {
        MoveLogs(s, i, step.ok);
        assert s'.log[|s.log|..] == Logged(s.threads[i], step.ok, s.clock);
        MoveTold(s, i, step.ok, done);
      } else {
        OthersStay(s, step.i, step.ok, i);
      }
    }
  }

  lemma NotYetThere(s: State, step: Step, s': State, i: nat)
    requires Enabled(s, step) && s' == Next(s, step) && i >= |s.threads|
    ensures !(step.Move? && step.i == i)
    ensures i < |s'.threads| ==> Told(s'.threads[i], [])
  {
    if step.Move? {
      OthersStay(s, step.i, step.ok, i);
    }
  }

  lemma {:induction false} RunTold(states: seq<State>, steps: seq<Step>, n: nat, i: nat)
    requires IsRun(states, steps) && n < |states|
    ensures if i < |states[n].threads| then Told(states[n].threads[i], DoneBy(states, steps, i, n)) else DoneBy(states, steps, i, n) == []
  {
    if n > 0 {
      RunTold(states, steps, n - 1, i);
      StepOf(states, steps, n - 1);
      if i < |states[n - 1].threads| {
        StepTold(states[n - 1], steps[n - 1], states[n], i, DoneBy(states, steps, i, n - 1));
      } else {
        NotYetThere(states[n - 1], steps[n - 1], states[n], i);
      }
    }
  }

  lemma OthersStay(s: State, i: nat, ok: bool, j: nat)
    requires i < |s.threads| && !s.threads[i].Done? && i != j
    ensures |MoveThread(s, i, ok).threads| == |s.threads|
    ensures j < |s.threads| ==> MoveThread(s, i, ok).threads[j] == s.threads[j]
  {
  }

  // In every run, the goroutine that makes a stamp has by then read the row, started the
  // stack, cleared the flag, marked the services, synced the routes and passed the health
  // gate, each with success and in this order, and has done nothing else.
  lemma StampsAreEarned(states: seq<State>, steps: seq<Step>, k: nat, i: nat, at: int)
    requires IsRun(states, steps) && k < |steps| && steps[k].Move? && steps[k].i == i
    requires states[k + 1].log == states[k].log + [Stamped(at)]
    ensures DoneBy(states, steps, i, k + 1) ==
      [RowRead, StartCalled, StackStarted, FlagCleared, ServicesMarked(true), RoutesSynced, HealthPassed, Stamped(at)]
    ensures states[k + 1].lastTraffic == Some(at) && at == states[k].clock
  {
    var s, done := states[k], DoneBy(states, steps, i, k);
    StepOf(states, steps, k);
    RunTold(states, steps, k, i);
    MoveLogs(s, i, steps[k].ok);
    assert states[k + 1].log[|s.log|..] == [Stamped(at)];
    OnlyOne(s.log, Logged(s.threads[i], steps[k].ok, s.clock), Stamped(at));
    assert s.threads[i].WakeStamp? && at == s.clock;
    assert done + [Stamped(at)] == WholeWake(at);
  }

  lemma OnlyOne(log: seq<Event>, more: seq<Event>, e: Event)
    requires log + more == log + [e]
    ensures more == [e]
  {
    assert (log + more)[|log|..] == more && (log + [e])[|log|..] == [e];
  }

  // And the goroutine that installs wake routes has read the row, stopped the stack, set
  // the flag and marked the services.
  lemma WakeRoutesAreEarned(states: seq<State>, steps: seq<Step>, k: nat, i: nat) returns (d: int)
    requires IsRun(states, steps) && k < |steps| && steps[k].Move? && steps[k].i == i
    requires states[k + 1].log == states[k].log + [WakeRoutesInstalled]
    ensures DoneBy(states, steps, i, k + 1) ==
      [RowRead, StopCalled(d), StackStopped, FlagSet, ServicesMarked(false), WakeRoutesInstalled]
  {
    var s, done := states[k], DoneBy(states, steps, i, k);
    StepOf(states, steps, k);
    RunTold(states, steps, k, i);
    MoveLogs(s, i, steps[k].ok);
    assert states[k + 1].log[|s.log|..] == [WakeRoutesInstalled];
    OnlyOne(s.log, Logged(s.threads[i], steps[k].ok, s.clock), WakeRoutesInstalled);
    assert s.threads[i].SuspendRoutes?;
    d := done[1].decidedAt;
    assert done + [WakeRoutesInstalled] == WholeSuspend(d);
  }

  // What the events mean for the row and the stack; a call that failed only leaves that it
  // was made.
  lemma EventsTakeEffect(s: State, i: nat, ok: bool, more: seq<Event>)
    requires i < |s.threads| && !s.threads[i].Done? && MoveThread(s, i, ok).log == s.log + more
    ensures var s' := MoveThread(s, i, ok);
      && s'.stackUp == (if StackStarted in more then true else if StackStopped in more then false else s.stackUp)
      && s'.suspended == (if FlagSet in more then true else if FlagCleared in more then false else s.suspended)
      && s'.lastTraffic == (if Stamped(s.clock) in more then Some(s.clock) else s.lastTraffic)
      && (!ok ==> forall e :: e in more ==> e.StartCalled? || e.StopCalled? || e.ServicesMarked? || e.WakeFailed?)
  {
    MoveLogs(s, i, ok);
    SameMore(s.log, more, Logged(s.threads[i], ok, s.clock));
  }

  lemma SameMore(log: seq<Event>, a: seq<Event>, b: seq<Event>)
    requires log + a == log + b
    ensures a == b
  {
    assert (log + a)[|log|..] == a && (log + b)[|log|..] == b;
  }

  // ---- The guard map and the sweeper's decision ----

  // The in-flight guard over all apps; each critical section of the mutex is a method.
  class Guard {
    var inFlight: set<string>

    constructor ()
      ensures inFlight == {}
    {
      inFlight := {};
    }

    // acquire: true exactly for the caller that put the app in flight.
    method Acquire(id: string) returns (won: bool)
      modifies this
      ensures won <==> id !in old(inFlight)
      ensures inFlight == old(inFlight) + {id}
    {
      if id in inFlight {
        return false;
      }
      inFlight := inFlight + {id};
      return true;
    }

    // release frees one app and no other.
    method Release(id: string)
      modifies this
      ensures inFlight == old(inFlight) - {id}
    {
      inFlight := inFlight - {id};
    }
  }

  // idle is the newest request bucket, None without rows.
  datatype Candidate = Candidate(id: string, idleTimeoutMinutes: Option<int>, updatedAt: int, idle: Option<int>)

  datatype Verdict = Verdict(id: string, decidedAt: int, write: Option<int>)

  const MINUTE := 60_000_000_000

  // The idle window of an app: its own override when positive, else the default.
  function Window(c: Candidate, timeout: int): int {
    if c.idleTimeoutMinutes.Some? && c.idleTimeoutMinutes.value > 0 then c.idleTimeoutMinutes.value * MINUTE else timeout
  }

  predicate IdlePastWindow(c: Candidate, now: int, timeout: int, grace: int) {
    now - (if c.idle.Some? then c.idle.value else c.updatedAt) >= Window(c, timeout) + grace
  }

  function Judge(cs: seq<Candidate>, now: int, timeout: int, grace: int): seq<Verdict> {
    if cs == [] then []
    else
      var earlier := Judge(cs[..|cs| - 1], now, timeout, grace);
      var last := cs[|cs| - 1];
      if IdlePastWindow(last, now, timeout, grace) then earlier + [Verdict(last.id, now, last.idle)] else earlier
  }

  // tick: one Suspend, decided at this tick, for every app idle past its window and
  // the grace, and the traffic timestamp written for it when there is one.
  method Tick(cs: seq<Candidate>, now: int, timeout: int, grace: int) returns (spawned: seq<Verdict>)
    ensures spawned == Judge(cs, now, timeout, grace)
  {
    spawned := [];
    for i := 0 to |cs|
      invariant spawned == Judge(cs[..i], now, timeout, grace)
    {
      assert cs[..i + 1][..i] == cs[..i];
      var c := cs[i];
      var since := if c.idle.Some? then c.idle.value else c.updatedAt;
      if now - since < Window(c, timeout) + grace {
        continue;
      }
      spawned := spawned + [Verdict(c.id, now, c.idle)];
    }
    assert cs[..|cs|] == cs;
  }

  // Nothing with traffic inside its window is ever handed to Suspend, and what the
  // sweeper writes is older than the tick by at least the window.
  lemma {:induction false} JudgedWereIdle(cs: seq<Candidate>, now: int, timeout: int, grace: int, v: Verdict) returns (c: Candidate)
    requires v in Judge(cs, now, timeout, grace)
    ensures c in cs && v == Verdict(c.id, now, c.idle) && IdlePastWindow(c, now, timeout, grace)
    ensures timeout > 0 && grace >= 0 && v.write.Some? ==> v.write.value < v.decidedAt
  {
    var last := cs[|cs| - 1];
    if IdlePastWindow(last, now, timeout, grace) && v == Verdict(last.id, now, last.idle) {
      c := last;
    } else {
      c := JudgedWereIdle(cs[..|cs| - 1], now, timeout, grace, v);
    }
  }

  predicate DistinctCandidates(cs: seq<Candidate>) { forall i, j :: 0 <= i < j < |cs| ==> cs[i].id != cs[j].id }

  // How often an app is handed to Suspend.
  function Handed(vs: seq<Verdict>, id: string): nat {
    if vs == [] then 0 else Handed(vs[..|vs| - 1], id) + if vs[|vs| - 1].id == id then 1 else 0
  }

  lemma HandedLast(vs: seq<Verdict>, v: Verdict, id: string)
    ensures Handed(vs + [v], id) == Handed(vs, id) + if v.id == id then 1 else 0
  {
    assert (vs + [v])[..|vs|] == vs;
  }

  lemma {:induction false} StrangerNotHanded(cs: seq<Candidate>, now: int, timeout: int, grace: int, id: string)
    requires forall c :: c in cs ==> c.id != id
    ensures Handed(Judge(cs, now, timeout, grace), id) == 0
  {
    if cs != [] {
      var init, last := cs[..|cs| - 1], cs[|cs| - 1];
      StrangerNotHanded(init, now, timeout, grace, id);
      HandedLast(Judge(init, now, timeout, grace), Verdict(last.id, now, last.idle), id);
    }
  }

  // A candidate is either the last or among the earlier ones.
  lemma OnlyOneCandidate(cs: seq<Candidate>, c: Candidate)
    requires DistinctCandidates(cs) && c in cs
    ensures var init, last := cs[..|cs| - 1], cs[|cs| - 1];
      && DistinctCandidates(init)
      && (c == last ==> forall d :: d in init ==> d.id != c.id)
      && (c != last ==> c in init && c.id != last.id)
  {
    var i :| 0 <= i < |cs| && cs[i] == c;
    assert i < |cs| - 1 ==> cs[..|cs| - 1][i] == c;
  }

  lemma {:induction false} HandedIffIdle(cs: seq<Candidate>, now: int, timeout: int, grace: int, c: Candidate)
    requires DistinctCandidates(cs) && c in cs
    ensures Handed(Judge(cs, now, timeout, grace), c.id) == if IdlePastWindow(c, now, timeout, grace) then 1 else 0
    ensures IdlePastWindow(c, now, timeout, grace) ==> Verdict(c.id, now, c.idle) in Judge(cs, now, timeout, grace)
  {
    var init, last := cs[..|cs| - 1], cs[|cs| - 1];
    OnlyOneCandidate(cs, c);
    HandedLast(Judge(init, now, timeout, grace), Verdict(last.id, now, last.idle), c.id);
    if c == last {
      StrangerNotHanded(init, now, timeout, grace, c.id);
    } else {
      HandedIffIdle(init, now, timeout, grace, c);
    }
  }

  // Every app whose last request, or without requests last update, is older than its own
  // idle minutes, or without positive ones the default, and the grace, is handed over
  // exactly once, with the traffic the sweeper saw; every other app not at all.
  lemma IdleHandedOnce(cs: seq<Candidate>, now: int, timeout: int, grace: int, c: Candidate)
    requires DistinctCandidates(cs) && c in cs
    ensures var since := if c.idle.None? then c.updatedAt else c.idle.value;
      var allowed := if c.idleTimeoutMinutes.None? || c.idleTimeoutMinutes.value <= 0 then timeout
                     else c.idleTimeoutMinutes.value * 60_000_000_000;
      && Handed(Judge(cs, now, timeout, grace), c.id) == (if since + allowed + grace <= now then 1 else 0)
      && (since + allowed + grace <= now ==> Verdict(c.id, now, c.idle) in Judge(cs, now, timeout, grace))
  {
    HandedIffIdle(cs, now, timeout, grace, c);
  }
}
