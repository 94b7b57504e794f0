// The deploy worker pool (deploy/worker.go): a bounded queue, a fixed number of loop
// goroutines, per-deploy contexts in an in-flight map, panic recovery and targeted
// cancels.
module WorkerPool {
  import opened Text

  const MAX_CONCURRENCY := 8

  function Distance(a: int, b: int): nat { if a < b then b - a else a - b }

  // clampConcurrency: the pool size in range that is closest to the setting.
  function ClampConcurrency(n: int): (r: int)
    ensures 1 <= r <= 8 && (1 <= n <= 8 ==> r == n)
    ensures forall m :: 1 <= m <= 8 ==> Distance(n, r) <= Distance(n, m)
  {
    if n < 1 then 1 else if n > MAX_CONCURRENCY then MAX_CONCURRENCY else n
  }

  // One loop goroutine. ctx is the index of the context process made for the deploy.
  datatype Loop =
    | Idle
    | Dequeued(id: string)
    | Running(id: string, ctx: nat)
    | Recovering(id: string, ctx: nat) // the pipeline panicked; handlePanic is settling the row
  {
    predicate Registered() { Running? || Recovering? }
  }

  // contexts[c] is the deploy that context c was made for; accepted, started and
  // finished record the ids in order.
  datatype State = State(
    capacity: nat,
    queue: seq<string>,
    loops: seq<Loop>,
    contexts: seq<string>,
    inflight: map<string, nat>,
    lookups: seq<(string, nat)>, // Cancel calls that found a cancel func and have not called it yet
    cancelled: set<nat>,
    cancelCalls: seq<string>,
    accepted: seq<string>,
    started: seq<string>,
    finished: seq<string>)

  datatype Step =
    | Enqueue(id: string)
    | Dequeue(i: nat)
    | Register(i: nat)
    | Panic(i: nat)
    | Finish(i: nat)   // run returned (with or without an error), or the panic is settled
    | CancelLookup(id: string)
    | CancelFire(k: nat)

  predicate Enabled(s: State, step: Step) {
    match step
    case Enqueue(id) => id !in s.accepted
    case Dequeue(i) => i < |s.loops| && s.loops[i].Idle? && s.queue != []
    case Register(i) => i < |s.loops| && s.loops[i].Dequeued?
    case Panic(i) => i < |s.loops| && s.loops[i].Running?
    case Finish(i) => i < |s.loops| && s.loops[i].Registered()
    case CancelLookup(_) => true
    case CancelFire(k) => k < |s.lookups|
  }

  function Next(s: State, step: Step): State
    requires Enabled(s, step)
  {
    match step
    case Enqueue(id) =>
      if |s.queue| < s.capacity then s.(queue := s.queue + [id], accepted := s.accepted + [id]) else s
    case Dequeue(i) =>
      s.(queue := s.queue[1..], loops := s.loops[i := Dequeued(s.queue[0])], started := s.started + [s.queue[0]])
    case Register(i) =>
      var id := s.loops[i].id;
      s.(loops := s.loops[i := Running(id, |s.contexts|)], contexts := s.contexts + [id], inflight := s.inflight[id := |s.contexts|])
    case Panic(i) => s.(loops := s.loops[i := Recovering(s.loops[i].id, s.loops[i].ctx)])
    case Finish(i) =>
      var id := s.loops[i].id;
      s.(loops := s.loops[i := Idle], inflight := s.inflight - {id}, finished := s.finished + [id])
    case CancelLookup(id) =>
      if id in s.inflight then s.(lookups := s.lookups + [(id, s.inflight[id])], cancelCalls := s.cancelCalls + [id])
      else s.(cancelCalls := s.cancelCalls + [id])
    case CancelFire(k) =>
      s.(cancelled := s.cancelled + {s.lookups[k].1}, lookups := s.lookups[..k] + s.lookups[k + 1..])
  }

  function AllIdle(n: nat): seq<Loop> { seq(n, _ => Idle) }

  predicate Init(s: State, concurrency: int) {
    s == State(s.capacity, [], AllIdle(ClampConcurrency(concurrency)), [], map[], [], {}, [], [], [], [])
  }

  ghost predicate IsRun(concurrency: int, states: seq<State>, steps: seq<Step>) {
    && |states| == |steps| + 1 && Init(states[0], concurrency)
    && forall k :: 0 <= k < |steps| ==> Enabled(states[k], steps[k]) && states[k + 1] == Next(states[k], steps[k])
  }

  // ---- Conservation ----

  function Holds(l: Loop, id: string): nat { if !l.Idle? && l.id == id then 1 else 0 }

  // How many loops have the deploy in process.
  function InProcess(loops: seq<Loop>, id: string): nat {
    if loops == [] then 0 else InProcess(loops[..|loops| - 1], id) + Holds(loops[|loops| - 1], id)
  }

  lemma InProcessLast(front: seq<Loop>, l: Loop, id: string)
    ensures InProcess(front + [l], id) == InProcess(front, id) + Holds(l, id)
  {
    assert (front + [l])[..|front|] == front;
  }

  lemma {:induction false} InProcessUpdate(loops: seq<Loop>, i: nat, l: Loop, id: string)
    requires i < |loops|
    ensures InProcess(loops[i := l], id) + Holds(loops[i], id) == InProcess(loops, id) + Holds(l, id)
  {
    var front, last := loops[..|loops| - 1], loops[|loops| - 1];
    InProcessLast(front, last, id);
    assert loops == front + [last];
    if i == |front| {
      InProcessLast(front, l, id);
      assert loops[i := l] == front + [l];
    } else {
      InProcessUpdate(front, i, l, id);
      InProcessLast(front[i := l], last, id);
      assert loops[i := l] == front[i := l] + [last];
    }
  }

  lemma {:induction false} InProcessIdle(n: nat, id: string)
    ensures InProcess(AllIdle(n), id) == 0
  {
    if n > 0 {
      InProcessIdle(n - 1, id);
      assert AllIdle(n)[..n - 1] == AllIdle(n - 1);
    }
  }

  lemma {:induction false} HeldIn(loops: seq<Loop>, i: nat)
    requires i < |loops| && !loops[i].Idle?
    ensures InProcess(loops, loops[i].id) >= 1
  {
    if i < |loops| - 1 {
      HeldIn(loops[..|loops| - 1], i);
    }
  }

  lemma {:induction false} HeldTwice(loops: seq<Loop>, i: nat, j: nat)
    requires i < j < |loops| && !loops[i].Idle? && !loops[j].Idle? && loops[i].id == loops[j].id
    ensures InProcess(loops, loops[i].id) >= 2
  {
    var front := loops[..|loops| - 1];
    if j < |front| {
      HeldTwice(front, i, j);
    } else {
      HeldIn(front, i);
    }
  }

  predicate NoRepeats(ids: seq<string>) { forall i, j :: 0 <= i < j < |ids| ==> ids[i] != ids[j] }

  // Accepted ids are, in order, those handed out and those still queued; those handed
  // out are the ones in process and the finished ones.
  ghost predicate Conserved(s: State) {
    NoRepeats(s.accepted) && s.accepted == s.started + s.queue && |s.queue| <= s.capacity && Balanced(s)
  }

  ghost predicate BalancedAt(s: State, id: string) {
    multiset(s.started)[id] == InProcess(s.loops, id) + multiset(s.finished)[id]
  }

  ghost predicate Balanced(s: State) { forall id :: BalancedAt(s, id) }

  lemma DequeueBalanced(s: State, i: nat, id: string)
    requires Enabled(s, Dequeue(i)) && BalancedAt(s, id)
    ensures BalancedAt(Next(s, Dequeue(i)), id)
  {
    InProcessUpdate(s.loops, i, Dequeued(s.queue[0]), id);
  }

  lemma FinishBalanced(s: State, i: nat, id: string)
    requires Enabled(s, Finish(i)) && BalancedAt(s, id)
    ensures BalancedAt(Next(s, Finish(i)), id)
  {
    InProcessUpdate(s.loops, i, Idle, id);
  }

  // A loop that moves on with the same deploy.
  lemma KeepsBalanced(s: State, step: Step, id: string)
    requires (step.Register? || step.Panic?) && Enabled(s, step) && BalancedAt(s, id)
    ensures BalancedAt(Next(s, step), id)
  {
    InProcessUpdate(s.loops, step.i, Next(s, step).loops[step.i], id);
  }

  lemma NextBalanced(s: State, step: Step)
    requires Balanced(s) && Enabled(s, step)
    ensures Balanced(Next(s, step))
  {
    forall id ensures BalancedAt(Next(s, step), id) {
      assert BalancedAt(s, id);
      match step {
        case Dequeue(i) => DequeueBalanced(s, i, id);
        case Finish(i) => FinishBalanced(s, i, id);
        case Register(_) => KeepsBalanced(s, step, id);
        case Panic(_) => KeepsBalanced(s, step, id);
        case _ =>
      }
    }
  }

  lemma NextConserved(s: State, step: Step)
    requires Conserved(s) && Enabled(s, step)
    ensures Conserved(Next(s, step))
  {
    NextBalanced(s, step);
    var s' := Next(s, step);
    if step.Enqueue? {
      assert s'.queue != s.queue ==> s'.accepted == s'.started + s'.queue;
    } else if step.Dequeue? {
      assert s.queue == [s.queue[0]] + s.queue[1..];
      assert s'.started + s'.queue == s.started + s.queue;
    }
  }

  // ---- The in-flight map ----

  // A key stands for exactly the loop between registration and deregistration, with
  // that loop's own context.
  ghost predicate InflightExact(s: State) { RegisteredHaveKeys(s) && KeysHaveLoops(s) }

  ghost predicate RegisteredHaveKeys(s: State) {
    forall i :: 0 <= i < |s.loops| && s.loops[i].Registered() ==>
      s.loops[i].id in s.inflight && s.inflight[s.loops[i].id] == s.loops[i].ctx
  }

  ghost predicate RegisteredSomewhere(loops: seq<Loop>, id: string) {
    exists i :: 0 <= i < |loops| && loops[i].Registered() && loops[i].id == id
  }

  ghost predicate KeysHaveLoops(s: State) {
    forall id :: id in s.inflight ==> RegisteredSomewhere(s.loops, id)
  }

  ghost predicate OneLoopPerID(loops: seq<Loop>) {
    forall i, j :: 0 <= i < j < |loops| && !loops[i].Idle? && !loops[j].Idle? ==> loops[i].id != loops[j].id
  }

  lemma {:induction false} CountBound(ids: seq<string>, id: string)
    requires NoRepeats(ids)
    ensures multiset(ids)[id] <= 1
  {
    if ids != [] {
      var n := |ids| - 1;
      CountBound(ids[..n], id);
      assert ids == ids[..n] + [ids[n]];
      if ids[n] == id {
        assert id !in ids[..n];
      }
    }
  }

  lemma ConservedOneLoop(s: State)
    requires Conserved(s)
    ensures OneLoopPerID(s.loops)
  {
    forall i, j | 0 <= i < j < |s.loops| && !s.loops[i].Idle? && !s.loops[j].Idle?
      ensures s.loops[i].id != s.loops[j].id
    {
      if s.loops[i].id == s.loops[j].id {
        HeldTwice(s.loops, i, j);
        StartedNoRepeats(s);
        assert BalancedAt(s, s.loops[i].id);
        CountBound(s.started, s.loops[i].id);
      }
    }
  }

  lemma StartedNoRepeats(s: State)
    requires Conserved(s)
    ensures NoRepeats(s.started)
  {
    assert forall k :: 0 <= k < |s.started| ==> s.started[k] == s.accepted[k];
  }

  lemma NextInflight(s: State, step: Step)
    requires OneLoopPerID(s.loops) && InflightExact(s) && Enabled(s, step)
    ensures InflightExact(Next(s, step))
  {
    NextRegistered(s, step);
    NextKeys(s, step);
  }

  lemma NextRegistered(s: State, step: Step)
    requires OneLoopPerID(s.loops) && RegisteredHaveKeys(s) && Enabled(s, step)
    ensures RegisteredHaveKeys(Next(s, step))
  {
  }

  lemma NextKeys(s: State, step: Step)
    requires KeysHaveLoops(s) && Enabled(s, step)
    ensures KeysHaveLoops(Next(s, step))
  {
    var s' := Next(s, step);
    forall id | id in s'.inflight ensures RegisteredSomewhere(s'.loops, id) {
      if step.Register? && id == s.loops[step.i].id {
        assert s'.loops[step.i].Registered();
      } else {
        assert RegisteredSomewhere(s.loops, id);
        var i :| 0 <= i < |s.loops| && s.loops[i].Registered() && s.loops[i].id == id;
        assert s'.loops[i].Registered() && s'.loops[i].id == id;
      }
    }
  }

  // ---- Contexts ----

  // Every stored or pending cancel func is for the deploy it is filed under, and a
  // cancelled context belongs to a deploy somebody asked to cancel.
  ghost predicate CancelsOwn(s: State) {
    && (forall id :: id in s.inflight ==> s.inflight[id] < |s.contexts| && s.contexts[s.inflight[id]] == id)
    && (forall k :: 0 <= k < |s.lookups| ==>
          s.lookups[k].1 < |s.contexts| && s.contexts[s.lookups[k].1] == s.lookups[k].0 && s.lookups[k].0 in s.cancelCalls)
    && (forall c :: c in s.cancelled ==> c < |s.contexts| && s.contexts[c] in s.cancelCalls)
  }

  lemma NextCancels(s: State, step: Step)
    requires CancelsOwn(s) && Enabled(s, step)
    ensures CancelsOwn(Next(s, step))
  {
  }

  // ---- Over every run ----

  ghost predicate Invariant(s: State) { Conserved(s) && InflightExact(s) && CancelsOwn(s) }

  lemma InitInvariant(s: State, concurrency: int)
    requires Init(s, concurrency)
    ensures Invariant(s)
  {
    forall id ensures BalancedAt(s, id) {
      InProcessIdle(ClampConcurrency(concurrency), id);
    }
  }

  lemma NextInvariant(s: State, step: Step)
    requires Invariant(s) && Enabled(s, step)
    ensures Invariant(Next(s, step)) && |Next(s, step).loops| == |s.loops|
  {
    NextConserved(s, step);
    ConservedOneLoop(s);
    NextInflight(s, step);
    NextCancels(s, step);
  }

  lemma {:induction false} RunInvariant(concurrency: int, states: seq<State>, steps: seq<Step>, k: nat)
    requires IsRun(concurrency, states, steps) && k < |states|
    ensures Invariant(states[k]) && |states[k].loops| == ClampConcurrency(concurrency)
  {
    if k == 0 {
      InitInvariant(states[0], concurrency);
    } else {
      RunInvariant(concurrency, states, steps, k - 1);
      assert Enabled(states[k - 1], steps[k - 1]);
      NextInvariant(states[k - 1], steps[k - 1]);
    }
  }

  // Accepted = queued + in process + finished, first in first out, nothing handed out
  // twice; the pool never exceeds its clamped size, and no panic shrinks it.
  lemma PoolConserves(concurrency: int, states: seq<State>, steps: seq<Step>, k: nat, id: string)
    requires IsRun(concurrency, states, steps) && k < |states|
    ensures var s := states[k];
      && multiset(s.accepted)[id] == multiset(s.queue)[id] + InProcess(s.loops, id) + multiset(s.finished)[id] <= 1
      && s.accepted == s.started + s.queue && NoRepeats(s.started)
      && |s.queue| <= s.capacity
      && |s.loops| == ClampConcurrency(concurrency) <= MAX_CONCURRENCY
  {
    var s := states[k];
    RunInvariant(concurrency, states, steps, k);
    StartedNoRepeats(s);
    CountBound(s.accepted, id);
    assert BalancedAt(s, id);
    assert multiset(s.accepted) == multiset(s.started) + multiset(s.queue);
  }

  // The in-flight keys are exactly the deploys between registration and
  // deregistration, each under its own context.
  lemma InflightIsRunning(concurrency: int, states: seq<State>, steps: seq<Step>, k: nat, id: string)
    requires IsRun(concurrency, states, steps) && k < |states|
    ensures id in states[k].inflight <==>
      exists i :: 0 <= i < |states[k].loops| && states[k].loops[i].Registered() && states[k].loops[i].id == id
  {
    RunInvariant(concurrency, states, steps, k);
  }

  // A Cancel never reaches another deploy's context, however late it fires.
  lemma CancelHitsItsOwn(concurrency: int, states: seq<State>, steps: seq<Step>, k: nat, c: nat)
    requires IsRun(concurrency, states, steps) && k < |states| && c in states[k].cancelled
    ensures c < |states[k].contexts| && states[k].contexts[c] in states[k].cancelCalls
  {
    RunInvariant(concurrency, states, steps, k);
  }

  // And it does reach its own: a Cancel of a registered deploy that fires at once leaves
  // the context that deploy runs under cancelled, and no other that was not.
  lemma CancelReaches(concurrency: int, states: seq<State>, steps: seq<Step>, k: nat, i: nat)
    requires IsRun(concurrency, states, steps) && k < |states|
    requires i < |states[k].loops| && states[k].loops[i].Registered()
    ensures var s, id := states[k], states[k].loops[i].id;
      var asked := Next(s, CancelLookup(id));
      && Enabled(asked, CancelFire(|s.lookups|))
      && Next(asked, CancelFire(|s.lookups|)).cancelled == s.cancelled + {s.loops[i].ctx}
  {
    RunInvariant(concurrency, states, steps, k);
  }

  // A deploy that is not registered is not cancelled by anyone who asks.
  lemma CancelMisses(concurrency: int, states: seq<State>, steps: seq<Step>, k: nat, id: string)
    requires IsRun(concurrency, states, steps) && k < |states|
    requires forall i :: 0 <= i < |states[k].loops| && states[k].loops[i].Registered() ==> states[k].loops[i].id != id
    ensures Next(states[k], CancelLookup(id)).lookups == states[k].lookups
  {
    InflightIsRunning(concurrency, states, steps, k, id);
  }

  // A loop that panicked takes the next queued deploy.
  lemma PanickedLoopContinues(s: State, i: nat)
    requires i < |s.loops| && s.loops[i].Running? && s.queue != []
    ensures var recovered := Next(Next(s, Panic(i)), Finish(i));
      Enabled(recovered, Dequeue(i)) && Next(recovered, Dequeue(i)).loops[i] == Dequeued(s.queue[0])
  {
  }

  // Distinct ids matter: if one id ran in two loops, the first to finish would take
  // the other's cancel func out of the map.
  lemma RepeatedIDLosesCancel(s: State, i: nat, j: nat)
    requires i < |s.loops| && j < |s.loops| && i != j && s.loops[i].Running? && s.loops[j].Running? && s.loops[i].id == s.loops[j].id
    ensures var after := Next(s, Finish(i));
      after.loops[j].Running? && after.loops[j].id !in after.inflight
  {
  }

  // ---- The worker's critical sections ----

  class Worker {
    const capacity: nat
    const concurrency: int
    var queue: seq<string>
    var contexts: seq<string>
    var inflight: map<string, nat>
    var cancelled: set<nat>

    // NewWorker.
    constructor (capacity: int, concurrency: int)
      ensures this.capacity == (if capacity <= 0 then 32 else capacity)
      ensures this.concurrency == ClampConcurrency(concurrency)
      ensures queue == [] && contexts == [] && inflight == map[] && cancelled == {}
    {
      this.capacity := if capacity <= 0 then 32 else capacity;
      this.concurrency := ClampConcurrency(concurrency);
      queue, contexts, inflight, cancelled := [], [], map[], {};
    }

    // The pool's shared state, next to a record of what the goroutines are doing.
    ghost predicate Shows(s: State)
      reads this
    {
      s.capacity == capacity && s.queue == queue && s.contexts == contexts && s.inflight == inflight && s.cancelled == cancelled
    }

    // Enqueue: never blocks; refuses exactly when the queue is full.
    method Enqueue(id: string, ghost s: State) returns (queued: bool)
      requires Shows(s) && id !in s.accepted
      modifies this`queue
      ensures queued <==> |old(queue)| < capacity
      ensures Shows(Next(s, Step.Enqueue(id)))
    {
      if |queue| < capacity {
        queue := queue + [id];
        return true;
      }
      return false;
    }

    // A loop's receive.
    method Dequeue(ghost s: State, ghost i: nat) returns (id: string)
      requires Shows(s) && Enabled(s, Step.Dequeue(i))
      modifies this`queue
      ensures id == old(queue)[0]
      ensures Shows(Next(s, Step.Dequeue(i)))
    {
      id := queue[0];
      queue := queue[1..];
    }

    // process, up to the point where the deploy is registered.
    method Register(id: string, ghost s: State, ghost i: nat) returns (ctx: nat)
      requires Shows(s) && Enabled(s, Step.Register(i)) && s.loops[i].id == id
      modifies this`contexts, this`inflight
      ensures Shows(Next(s, Step.Register(i)))
      ensures Next(s, Step.Register(i)).loops[i] == Running(id, ctx)
    {
      ctx := |contexts|;
      contexts := contexts + [id];
      inflight := inflight[id := ctx];
    }

    // process's deferred cleanup.
    method Deregister(id: string, ghost s: State, ghost i: nat)
      requires Shows(s) && Enabled(s, Step.Finish(i)) && s.loops[i].id == id
      modifies this`inflight
      ensures Shows(Next(s, Step.Finish(i)))
    {
      inflight := inflight - {id};
    }

    // Cancel: reports whether the deploy was registered, and then cancels the context
    // it found. Other goroutines may run between lookup and cancel.
    method CancelLookup(id: string, ghost s: State) returns (running: bool, ctx: nat)
      requires Shows(s)
      ensures running <==> id in inflight
      ensures running ==> Next(s, Step.CancelLookup(id)).lookups == s.lookups + [(id, ctx)]
      ensures Shows(Next(s, Step.CancelLookup(id)))
    {
      if id in inflight {
        return true, inflight[id];
      }
      return false, 0;
    }

    method CancelFire(ctx: nat, ghost s: State, ghost k: nat)
      requires Shows(s) && Enabled(s, Step.CancelFire(k)) && s.lookups[k].1 == ctx
      modifies this`cancelled
      ensures Shows(Next(s, Step.CancelFire(k)))
    {
      cancelled := cancelled + {ctx};
    }
  }
}
