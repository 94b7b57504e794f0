// Serializability with failures (proxy/manager.go): the calls of all operations as they
// went, lost ones included, are those of the operations run one after another.
module RouteTrace {
  import opened Text
  import opened ProxyModel
  import opened RouteTable
  import opened RouteLock
  import opened RouteSerial

  // What was seen of the route operations, call by call.
  datatype Record =
    | Takes(entry: Entry)          // an operation takes the lock
    | Reads(part: Instr, db: DB)   // it comes to a part and reads what that needs
    | Sends(call: Instr)           // a call arrives
    | Loses(instr: Instr)          // a call is lost, or the reads of a part fail
    | Skips(id: string)            // a replacement is skipped for want of the network
    | Leaves                       // it gives the lock back
    | Restarts                     // the proxy comes back without the server

  function Recorded(s: State, step: Step): seq<Record>
    requires Enabled(s, step) && |s.entries| == |s.todo|
  {
    match step
    case StoreWrite(_) => []
    case GiveUp(_) => []
    case CaddyRestart => [Restarts]
    case CallFails(i) => [Loses(s.todo[i][0])]
    case AttachFails(i) => [Skips(s.todo[i][0].id)]
    case Run(i) =>
      var instr := s.todo[i][0];
      if instr.Lock? then [Takes(s.entries[i])]
      else if instr.Unlock? then [Leaves]
      else if instr.Flag() then []
      else if instr.Compound() then [Reads(instr, s.db)]
      else [Sends(instr)]
  }

  ghost function Trace(cfg: Config, hasBase: bool, states: seq<State>, steps: seq<Step>, n: nat): seq<Record>
    requires IsRun(cfg, hasBase, states, steps) && n < |states|
  {
    if n == 0 then [] else Trace(cfg, hasBase, states, steps, n - 1) + Recorded(states[n - 1], steps[n - 1])
  }

  // ---- One operation at a time ----

  // The table, and what is left of the operation under way; [] between operations.
  datatype Solo = Solo(server: Option<Table>, todo: seq<Instr>)

  // The next record of a single operation that nobody disturbs; None if it is not one
  // that operation could make here.
  function Play(cfg: Config, hasBase: bool, at: Solo, r: Record): Option<Solo> {
    match r
    case Takes(e) => if at.todo == [] then Some(at.(todo := Body(e) + [Unlock])) else None
    case Reads(part, db) =>
      if at.todo != [] && at.todo[0] == part && part.Compound()
      then Some(at.(todo := Expand(cfg, db, at.server, part) + at.todo[1..])) else None
    case Sends(call) =>
      if at.todo != [] && at.todo[0] == call && call.Work() && !call.Compound()
      then Some(Solo(Exec(hasBase, at.server, call), at.todo[1..])) else None
    case Loses(instr) =>
      if at.todo != [] && at.todo[0] == instr && instr.CanFail() then Some(at.(todo := AfterFailure(at.todo))) else None
    case Skips(id) =>
      if AtReplacement(at.todo) && at.todo[0].id == id then Some(at.(todo := at.todo[2..])) else None
    case Leaves => if at.todo == [Unlock] then Some(at.(todo := [])) else None
    case Restarts => Some(at.(server := None))
  }

  function PlayAll(cfg: Config, hasBase: bool, server: Option<Table>, trace: seq<Record>): Option<Solo> {
    if trace == [] then Some(Solo(server, []))
    else
      var before := PlayAll(cfg, hasBase, server, trace[..|trace| - 1]);
      if before.None? then None else Play(cfg, hasBase, before.value, trace[|trace| - 1])
  }

  lemma PlayOneMore(cfg: Config, hasBase: bool, server: Option<Table>, trace: seq<Record>, r: Record, at: Solo)
    requires PlayAll(cfg, hasBase, server, trace) == Some(at)
    ensures PlayAll(cfg, hasBase, server, trace + [r]) == Play(cfg, hasBase, at, r)
  {
    assert (trace + [r])[..|trace|] == trace;
  }

  // ---- The machine against it ----

  // The table and the holder's section.
  function Holding(s: State): Solo
    requires s.holder.Some? ==> s.holder.value < |s.todo|
  {
    Solo(s.server, if s.holder.Some? then s.todo[s.holder.value] else [])
  }

  predicate Queued(s: State) {
    && |s.entries| == |s.todo|
    && forall i :: 0 <= i < |s.todo| && s.holder != Some(i) ==> Waiting(s.todo[i], s.entries[i])
  }

  predicate Plays(cfg: Config, hasBase: bool, s: State, s': State, records: seq<Record>)
    requires s.holder.Some? ==> s.holder.value < |s.todo|
    requires s'.holder.Some? ==> s'.holder.value < |s'.todo|
  {
    if records == [] then Holding(s') == Holding(s)
    else |records| == 1 && Play(cfg, hasBase, Holding(s), records[0]) == Some(Holding(s'))
  }

  // A step inside the lock is the holder's, and the next of its operation.
  lemma InsidePlays(cfg: Config, hasBase: bool, s: State, step: Step, s': State)
    requires Exclusive(s) && Queued(s) && Enabled(s, step) && s' == Next(cfg, hasBase, s, step)
    requires (step.Run? && s.todo[step.i][0].Work()) || step.CallFails? || step.AttachFails?
    ensures s.holder == Some(step.i) && Queued(s') && s'.holder == s.holder && |s'.todo| == |s.todo|
    ensures Plays(cfg, hasBase, s, s', Recorded(s, step))
  {
    assert s.holder == Some(step.i);
  }

  lemma UnlockPlays(cfg: Config, hasBase: bool, s: State, step: Step, s': State)
    requires Exclusive(s) && Queued(s) && Enabled(s, step) && s' == Next(cfg, hasBase, s, step)
    requires step.Run? && s.todo[step.i][0].Unlock?
    ensures Queued(s') && s'.holder.None? && Plays(cfg, hasBase, s, s', Recorded(s, step))
  {
    AtUnlock(s, step.i);
  }

  lemma LockPlays(cfg: Config, hasBase: bool, s: State, step: Step, s': State)
    requires Exclusive(s) && Queued(s) && Enabled(s, step) && s' == Next(cfg, hasBase, s, step)
    requires step.Run? && s.todo[step.i][0].Lock?
    ensures Queued(s') && s'.holder == Some(step.i) && step.i < |s'.todo| && Plays(cfg, hasBase, s, s', Recorded(s, step))
  {
    AtLock(s.todo[step.i], s.entries[step.i]);
    HeadStart(s.entries[step.i]);
  }

  lemma OutsidePlays(cfg: Config, hasBase: bool, s: State, step: Step, s': State)
    requires Exclusive(s) && Queued(s) && Enabled(s, step) && s' == Next(cfg, hasBase, s, step)
    requires step.StoreWrite? || step.CaddyRestart? || step.GiveUp? || (step.Run? && s.todo[step.i][0].Flag())
    ensures Queued(s') && s'.holder == s.holder && |s'.todo| == |s.todo| && Plays(cfg, hasBase, s, s', Recorded(s, step))
  {
    if step.GiveUp? || step.Run? {
      assert s.holder != Some(step.i);
      AtFlag(s.todo[step.i], s.entries[step.i]);
    }
  }

  lemma NextPlays(cfg: Config, hasBase: bool, s: State, step: Step, s': State)
    requires Exclusive(s) && Queued(s) && Enabled(s, step) && s' == Next(cfg, hasBase, s, step)
    ensures Queued(s') && (s'.holder.Some? ==> s'.holder.value < |s'.todo|)
    ensures Plays(cfg, hasBase, s, s', Recorded(s, step))
  {
    if step.StoreWrite? || step.CaddyRestart? || step.GiveUp? || (step.Run? && s.todo[step.i][0].Flag()) {
      OutsidePlays(cfg, hasBase, s, step, s');
    } else if step.Run? && s.todo[step.i][0].Lock? {
      LockPlays(cfg, hasBase, s, step, s');
    } else if step.Run? && s.todo[step.i][0].Unlock? {
      UnlockPlays(cfg, hasBase, s, step, s');
    } else {
      InsidePlays(cfg, hasBase, s, step, s');
    }
  }

  lemma {:induction false} RunPlays(cfg: Config, hasBase: bool, states: seq<State>, steps: seq<Step>, n: nat)
    requires IsRun(cfg, hasBase, states, steps) && n < |states|
    ensures Queued(states[n]) && (states[n].holder.Some? ==> states[n].holder.value < |states[n].todo|)
    ensures PlayAll(cfg, hasBase, states[0].server, Trace(cfg, hasBase, states, steps, n)) == Some(Holding(states[n]))
  {
    if n > 0 {
      RunPlays(cfg, hasBase, states, steps, n - 1);
      StepOf(cfg, hasBase, states, steps, n - 1);
      NextPlays(cfg, hasBase, states[n - 1], steps[n - 1], states[n]);
      var before, records := Trace(cfg, hasBase, states, steps, n - 1), Recorded(states[n - 1], steps[n - 1]);
      if records == [] {
        assert before + records == before;
      } else {
        assert records == [records[0]];
        PlayOneMore(cfg, hasBase, states[0].server, before, records[0], Holding(states[n - 1]));
      }
    }
  }

  // In every run, with any calls lost, reads failed, networks missing, flags and rows
  // written and restarts: the calls as they went are those of the operations performed
  // one after another, each from its lock to its unlock, with the same failures, and
  // whenever the lock is free the table is what that leaves.
  lemma FailuresStaySerial(cfg: Config, hasBase: bool, states: seq<State>, steps: seq<Step>, n: nat)
    requires IsRun(cfg, hasBase, states, steps) && n < |states|
    ensures PlayAll(cfg, hasBase, states[0].server, Trace(cfg, hasBase, states, steps, n)).Some?
    ensures states[n].holder.None? ==>
      PlayAll(cfg, hasBase, states[0].server, Trace(cfg, hasBase, states, steps, n)) == Some(Solo(states[n].server, []))
  {
    RunPlays(cfg, hasBase, states, steps, n);
  }
}
