// Scheduled jobs (jobs/scheduler.go): next-slot arithmetic, and the loop that plans,
// sleeps and dispatches while runs finish on their own. Times are nanoseconds since
// the epoch in the host's zone, taken as a fixed offset.
module Scheduler {
  import opened Text

  const SECOND := 1_000_000_000
  const MINUTE := 60_000_000_000
  const HOUR := 3_600_000_000_000
  const DAY := 86_400_000_000_000
  const IDLE := 300_000_000_000

  datatype Job = Job(id: string, frequency: string, intervalMinutes: Option<int>, hourOfDay: int, dayOfWeek: Option<int>,
                     lastRun: Option<int>)

  // ---- Calendar ----

  // 1970-01-01 was a Thursday.
  function Weekday(t: int): (w: int)
    ensures 0 <= w < 7
  {
    (t / DAY + 4) % 7
  }

  // Go's remainder takes the sign of the dividend.
  function GoMod(a: int, m: int): int
    requires m > 0
  {
    if a >= 0 then a % m else 0 - (-a) % m
  }

  function Hour(job: Job): (h: int)
    ensures 0 <= h <= 23
  {
    if 0 <= job.hourOfDay <= 23 then job.hourOfDay else 3
  }

  function Step(job: Job): (s: int)
    ensures s > 0
  {
    var s := if job.intervalMinutes.Some? then job.intervalMinutes.value * MINUTE else 0;
    if s <= 0 then HOUR else s
  }

  function Target(job: Job): (w: int)
    requires job.dayOfWeek.Some?
    ensures 0 <= w < 7
  {
    (GoMod(job.dayOfWeek.value, 7) + 7) % 7
  }

  lemma TargetIsDay(job: Job)
    requires job.dayOfWeek.Some?
    ensures Target(job) == job.dayOfWeek.value % 7
  {
  }

  // nextOccurrence.
  function NextInterval(now: int, anchor: int, step: int): int
    requires step > 0
  {
    var cand := anchor + step;
    if cand > now then cand else cand + ((now - cand) / step + 1) * step
  }

  function NextDaily(now: int, hour: int): int {
    var base := now / DAY * DAY + hour * HOUR;
    if base > now then base else base + DAY
  }

  function NextWeekly(now: int, hour: int, target: int): int {
    var base := now / DAY * DAY + hour * HOUR;
    var cand := base + (target - Weekday(now) + 7) % 7 * DAY;
    if cand > now then cand else cand + 7 * DAY
  }

  function NextOccurrence(now: int, job: Job): int {
    if job.frequency == "interval" then
      NextInterval(now, if job.lastRun.Some? then job.lastRun.value else now, Step(job))
    else if job.frequency == "weekly" && job.dayOfWeek.Some? then NextWeekly(now, Hour(job), Target(job))
    else NextDaily(now, Hour(job))
  }

  // ---- Slots ----

  ghost predicate IntervalSlot(anchor: int, step: int, t: int) { exists k :: k >= 1 && t == anchor + Times(k, step) }

  function Times(k: int, step: int): int { k * step }

  predicate DailySlot(hour: int, t: int) { t % DAY == hour * HOUR }

  // The times a job is meant to run at.
  ghost predicate IsSlot(now: int, job: Job, t: int) {
    if job.frequency == "interval" then
      IntervalSlot(if job.lastRun.Some? then job.lastRun.value else now, Step(job), t)
    else
      DailySlot(Hour(job), t) && (job.frequency == "weekly" && job.dayOfWeek.Some? ==> Weekday(t) == job.dayOfWeek.value % 7)
  }

  lemma TimesMonotone(j: int, k: int, step: int)
    requires step > 0 && j < k
    ensures Times(j, step) + step <= Times(k, step)
  {
    var more := k - j - 1;
    assert more * step >= 0;
    assert Times(k, step) == (j + 1 + more) * step == j * step + step + more * step;
  }

  lemma QuotientBounds(a: int, step: int)
    requires step > 0
    ensures Times(a / step, step) <= a < Times(a / step, step) + step
  {
    assert a == a / step * step + a % step;
  }

  lemma NextIntervalLeast(now: int, anchor: int, step: int, t: int)
    requires step > 0
    ensures var at := NextInterval(now, anchor, step);
      IntervalSlot(anchor, step, at) && at > now && (IntervalSlot(anchor, step, t) && t > now ==> at <= t)
  {
    var cand := anchor + step;
    var q := if cand > now then 0 else (now - cand) / step + 1;
    var at := NextInterval(now, anchor, step);
    NextIntervalIs(now, anchor, step);
    assert IntervalSlot(anchor, step, at);
    if IntervalSlot(anchor, step, t) && t > now {
      var k :| k >= 1 && t == anchor + Times(k, step);
      if k < q + 1 {
        TimesMonotone(k, q + 1, step);
      } else if k > q + 1 {
        TimesMonotone(q + 1, k, step);
      }
    }
  }

  lemma NextIntervalIs(now: int, anchor: int, step: int)
    requires step > 0
    ensures var cand, at := anchor + step, NextInterval(now, anchor, step);
      var q := if cand > now then 0 else (now - cand) / step + 1;
      q >= 0 && at == anchor + Times(q + 1, step) && now < at && (q > 0 ==> at - step <= now)
  {
    var cand := anchor + step;
    if cand > now {
      assert Times(1, step) == step;
    } else {
      var d := (now - cand) / step;
      QuotientBounds(now - cand, step);
      assert Times(d + 2, step) == Times(d, step) + 2 * step;
      assert (d + 1) * step == Times(d, step) + step;
    }
  }

  // A daily slot is fixed by its day.
  lemma DailySlotOfDay(hour: int, t: int)
    requires 0 <= hour <= 23
    ensures DailySlot(hour, t) <==> t == t / DAY * DAY + hour * HOUR
    ensures DailySlot(hour, t / DAY * DAY + hour * HOUR) && (t / DAY * DAY + hour * HOUR) / DAY == t / DAY
  {
    DayOf(t / DAY, hour * HOUR);
  }

  lemma DayOf(d: int, offset: int)
    requires 0 <= offset < DAY
    ensures (d * DAY + offset) / DAY == d && (d * DAY + offset) % DAY == offset
  {
  }

  lemma NextDailyLeast(now: int, hour: int, t: int)
    requires 0 <= hour <= 23
    ensures var at := NextDaily(now, hour);
      DailySlot(hour, at) && at > now && (DailySlot(hour, t) && t > now ==> at <= t)
  {
    DayOf(now / DAY, hour * HOUR);
    DayOf(now / DAY + 1, hour * HOUR);
    DailySlotOfDay(hour, t);
  }

  lemma NextWeeklyLeast(now: int, hour: int, target: int, t: int)
    requires 0 <= hour <= 23 && 0 <= target < 7
    ensures var at := NextWeekly(now, hour, target);
      && DailySlot(hour, at) && Weekday(at) == target && at > now
      && (DailySlot(hour, t) && Weekday(t) == target && t > now ==> at <= t)
  {
    var ahead := (target - Weekday(now) + 7) % 7;
    var day := now / DAY + ahead;
    DayOf(day, hour * HOUR);
    DayOf(day + 7, hour * HOUR);
    WeekdayAhead(now / DAY, target);
    var at := NextWeekly(now, hour, target);
    assert at == day * DAY + hour * HOUR || at == (day + 7) * DAY + hour * HOUR;
    if DailySlot(hour, t) && Weekday(t) == target && t > now {
      DailySlotOfDay(hour, t);
      SameWeekday(now / DAY, target, t / DAY);
    }
  }

  lemma WeekdayAhead(day: int, target: int)
    requires 0 <= target < 7
    ensures var ahead := (target - (day + 4) % 7 + 7) % 7;
      0 <= ahead < 7 && (day + ahead + 4) % 7 == target && (day + ahead + 7 + 4) % 7 == target
  {
  }

  // The days of one weekday are a week apart.
  lemma SameWeekday(day: int, target: int, other: int)
    requires 0 <= target < 7 && (other + 4) % 7 == target && other >= day
    ensures var first := day + (target - (day + 4) % 7 + 7) % 7;
      other == first || other >= first + 7
  {
  }

  // The computed time is a slot, lies strictly after now, and no earlier slot does.
  lemma NextOccurrenceLeast(now: int, job: Job, t: int)
    ensures var at := NextOccurrence(now, job);
      IsSlot(now, job, at) && at > now && (IsSlot(now, job, t) && t > now ==> at <= t)
  {
    if job.frequency == "interval" {
      NextIntervalLeast(now, if job.lastRun.Some? then job.lastRun.value else now, Step(job), t);
    } else if job.frequency == "weekly" && job.dayOfWeek.Some? {
      TargetIsDay(job);
      NextWeeklyLeast(now, Hour(job), Target(job), t);
    } else {
      NextDailyLeast(now, Hour(job), t);
    }
  }

  // When a job runs, in plain terms. Interval jobs: whole steps after the last run, or
  // after now for a job that never ran; the step is an hour when none is set. The others:
  // at the hour of the day, three o'clock when that is none; weekly ones with a weekday on
  // that day of the week only, counted from Sunday (4 January 1970 was one).
  ghost predicate RunsAt(now: int, job: Job, t: int) {
    if job.frequency == "interval" then
      var step := if job.intervalMinutes.Some? && job.intervalMinutes.value > 0 then job.intervalMinutes.value * 60_000_000_000
                  else 3_600_000_000_000;
      IntervalSlot(if job.lastRun.Some? then job.lastRun.value else now, step, t)
    else
      && t % 86_400_000_000_000 == (if job.hourOfDay < 0 || job.hourOfDay > 23 then 3 else job.hourOfDay) * 3_600_000_000_000
      && (job.frequency == "weekly" && job.dayOfWeek.Some? ==>
            exists week :: t / 86_400_000_000_000 == Sunday(week) + job.dayOfWeek.value % 7)
  }

  // The days since the epoch of the Sundays.
  function Sunday(week: int): int { 3 + 7 * week }

  lemma WeekdayCounted(day: int, w: int)
    requires 0 <= w < 7
    ensures (day + 4) % 7 == w <==> exists week :: day == Sunday(week) + w
  {
    if (day + 4) % 7 == w {
      var week := (day - 3 - w) / 7;
      assert day == Sunday(week) + w;
    }
    if week :| day == Sunday(week) + w {
      assert day + 4 == 7 * (week + 1) + w;
    }
  }

  lemma IntervalSlotsAre(now: int, job: Job, t: int)
    requires job.frequency == "interval"
    ensures IsSlot(now, job, t) <==> RunsAt(now, job, t)
  {
    var step := if job.intervalMinutes.Some? && job.intervalMinutes.value > 0 then job.intervalMinutes.value * 60_000_000_000
                else 3_600_000_000_000;
    assert Step(job) == step;
  }

  lemma DaySlotsAre(now: int, job: Job, t: int)
    requires job.frequency != "interval"
    ensures IsSlot(now, job, t) <==> RunsAt(now, job, t)
  {
    assert Hour(job) == if job.hourOfDay < 0 || job.hourOfDay > 23 then 3 else job.hourOfDay;
    assert DailySlot(Hour(job), t) <==> t % 86_400_000_000_000 == Hour(job) * 3_600_000_000_000;
    if job.frequency == "weekly" && job.dayOfWeek.Some? {
      var w := job.dayOfWeek.value % 7;
      WeekdayCounted(t / 86_400_000_000_000, w);
      assert Weekday(t) == (t / 86_400_000_000_000 + 4) % 7;
    }
  }

  lemma SlotsAreThose(now: int, job: Job, t: int)
    ensures IsSlot(now, job, t) <==> RunsAt(now, job, t)
  {
    if job.frequency == "interval" {
      IntervalSlotsAre(now, job, t);
    } else {
      DaySlotsAre(now, job, t);
    }
  }

  // So the time computed is the first after now at which the job is meant to run.
  lemma NextIsFirst(now: int, job: Job, t: int)
    ensures var at := NextOccurrence(now, job);
      RunsAt(now, job, at) && at > now && (RunsAt(now, job, t) && t > now ==> at <= t)
  {
    NextOccurrenceLeast(now, job, t);
    SlotsAreThose(now, job, t);
    SlotsAreThose(now, job, NextOccurrence(now, job));
  }

  // ---- The loop ----

  datatype Item = Item(id: string, at: int)

  datatype Phase =
    | Planning(now: int, todo: seq<Job>, items: seq<Item>)
    | Sleeping(now: int, items: seq<Item>)
    | Dispatching(after: int, items: seq<Item>)

  // runs are the goroutines that run a job; dispatched lists every start with its slot.
  datatype State = State(phase: Phase, inFlight: set<string>, runs: seq<string>, dispatched: seq<Item>)

  // A wake (timer or completion signal) may come at any time; the clock never goes back.
  datatype Move =
    | Load(now: int, jobs: seq<Job>)
    | Consider
    | Sleep
    | Wake(after: int)
    | Due
    | Finish(i: nat) // a run ends: by return, error or recovered panic

  predicate DistinctJobs(jobs: seq<Job>) { forall i, j :: 0 <= i < j < |jobs| ==> jobs[i].id != jobs[j].id }

  predicate Enabled(s: State, m: Move) {
    match m
    case Load(now, jobs) => s.phase.Dispatching? && s.phase.items == [] && s.phase.after <= now && DistinctJobs(jobs)
    case Consider => s.phase.Planning? && s.phase.todo != []
    case Sleep => s.phase.Planning? && s.phase.todo == []
    case Wake(after) => s.phase.Sleeping? && s.phase.now <= after
    case Due => s.phase.Dispatching? && s.phase.items != []
    case Finish(i) => i < |s.runs|
  }

  function Next(s: State, m: Move): State
    requires Enabled(s, m)
  {
    match m
    case Load(now, jobs) => s.(phase := Planning(now, jobs, []))
    case Consider =>
      var j, rest := s.phase.todo[0], s.phase.todo[1..];
      if j.id in s.inFlight then s.(phase := Planning(s.phase.now, rest, s.phase.items))
      else s.(phase := Planning(s.phase.now, rest, s.phase.items + [Item(j.id, NextOccurrence(s.phase.now, j))]))
    case Sleep => s.(phase := Sleeping(s.phase.now, s.phase.items))
    case Wake(after) => s.(phase := Dispatching(after, s.phase.items))
    case Due =>
      var it := s.phase.items[0];
      var s' := s.(phase := Dispatching(s.phase.after, s.phase.items[1..]));
      if it.at > s.phase.after || it.id in s.inFlight then s'
      else s'.(inFlight := s.inFlight + {it.id}, runs := s.runs + [it.id], dispatched := s.dispatched + [it])
    case Finish(i) => s.(inFlight := s.inFlight - {s.runs[i]}, runs := s.runs[..i] + s.runs[i + 1..])
  }

  ghost predicate IsRun(start: int, states: seq<State>, moves: seq<Move>) {
    && |states| == |moves| + 1 && states[0] == State(Dispatching(start, []), {}, [], [])
    && forall k :: 0 <= k < |moves| ==> Enabled(states[k], moves[k]) && states[k + 1] == Next(states[k], moves[k])
  }

  // ---- One run per job ----

  // The in-flight set holds exactly the ids that are running, each once.
  ghost predicate RunsExact(s: State) {
    && (forall i, j :: 0 <= i < j < |s.runs| ==> s.runs[i] != s.runs[j])
    && (forall i :: 0 <= i < |s.runs| ==> s.runs[i] in s.inFlight)
    && (forall id :: id in s.inFlight ==> id in s.runs)
  }

  lemma NextRuns(s: State, m: Move)
    requires RunsExact(s) && Enabled(s, m)
    ensures RunsExact(Next(s, m))
  {
    if m.Finish? {
      FinishRuns(s, m.i);
    }
  }

  lemma FinishRuns(s: State, i: nat)
    requires RunsExact(s) && i < |s.runs|
    ensures RunsExact(Next(s, Finish(i)))
  {
    var runs, left := s.runs, s.runs[..i] + s.runs[i + 1..];
    assert forall j :: 0 <= j < |left| ==> left[j] == runs[if j < i then j else j + 1];
    FinishDistinct(runs, i, left);
    forall id | id in s.inFlight && id != runs[i] ensures id in left {
      FinishKeeps(runs, i, left, id);
    }
  }

  lemma FinishDistinct(runs: seq<string>, i: nat, left: seq<string>)
    requires i < |runs| == |left| + 1
    requires forall a, b :: 0 <= a < b < |runs| ==> runs[a] != runs[b]
    requires forall j :: 0 <= j < |left| ==> left[j] == runs[if j < i then j else j + 1]
    ensures forall a, b :: 0 <= a < b < |left| ==> left[a] != left[b]
    ensures runs[i] !in left
  {
  }

  lemma FinishKeeps(runs: seq<string>, i: nat, left: seq<string>, id: string)
    requires i < |runs| == |left| + 1 && id in runs && id != runs[i]
    requires forall j :: 0 <= j < |left| ==> left[j] == runs[if j < i then j else j + 1]
    ensures id in left
  {
    var j :| 0 <= j < |runs| && runs[j] == id;
    assert id == if j < i then left[j] else left[j - 1];
  }

  // ---- Slots move forward ----

  predicate DistinctItems(items: seq<Item>) { forall i, j :: 0 <= i < j < |items| ==> items[i].id != items[j].id }

  function Clock(p: Phase): int { if p.Dispatching? then p.after else p.now }

  predicate Planned(p: Phase) {
    p.Planning? ==>
      && DistinctJobs(p.todo)
      && forall i, j :: 0 <= i < |p.items| && 0 <= j < |p.todo| ==> p.items[i].id != p.todo[j].id
  }

  // What is planned comes after everything dispatched for the same job, and is not running.
  predicate Ahead(s: State) {
    forall i, d :: 0 <= i < |s.phase.items| && 0 <= d < |s.dispatched| && s.dispatched[d].id == s.phase.items[i].id ==>
      s.dispatched[d].at < s.phase.items[i].at
  }

  predicate NotRunning(s: State) { forall i :: 0 <= i < |s.phase.items| ==> s.phase.items[i].id !in s.inFlight }

  predicate Past(s: State) { forall d :: 0 <= d < |s.dispatched| ==> s.dispatched[d].at <= Clock(s.phase) }

  predicate Increasing(dispatched: seq<Item>) {
    forall c, d :: 0 <= c < d < |dispatched| && dispatched[c].id == dispatched[d].id ==> dispatched[c].at < dispatched[d].at
  }

  predicate Forward(s: State) {
    && DistinctItems(s.phase.items) && Planned(s.phase) && Ahead(s) && NotRunning(s) && Past(s) && Increasing(s.dispatched)
  }

  lemma ConsiderForward(s: State)
    requires Forward(s) && Enabled(s, Consider)
    ensures Forward(Next(s, Consider))
  {
    var j := s.phase.todo[0];
    NextOccurrenceLeast(s.phase.now, j, 0);
    assert forall k :: 0 <= k < |s.phase.todo| - 1 ==> s.phase.todo[1..][k] == s.phase.todo[k + 1];
  }

  lemma DueForward(s: State)
    requires Forward(s) && Enabled(s, Due)
    ensures Forward(Next(s, Due))
  {
    var items, it := s.phase.items, s.phase.items[0];
    assert forall k :: 0 <= k < |items| - 1 ==> items[1..][k] == items[k + 1];
  }

  lemma NextForward(s: State, m: Move)
    requires Forward(s) && Enabled(s, m)
    ensures Forward(Next(s, m))
  {
    match m
    case Consider => ConsiderForward(s);
    case Due => DueForward(s);
    case _ =>
  }

  lemma {:induction false} RunInvariant(start: int, states: seq<State>, moves: seq<Move>, k: nat)
    requires IsRun(start, states, moves) && k < |states|
    ensures RunsExact(states[k]) && Forward(states[k])
  {
    if k > 0 {
      RunInvariant(start, states, moves, k - 1);
      assert Enabled(states[k - 1], moves[k - 1]);
      NextRuns(states[k - 1], moves[k - 1]);
      NextForward(states[k - 1], moves[k - 1]);
    }
  }

  // No job has two runs in flight, and the slots dispatched for a job strictly increase:
  // no slot runs twice, whatever wakes the loop and however the jobs are edited.
  lemma SlotsNeverRepeat(start: int, states: seq<State>, moves: seq<Move>, k: nat)
    requires IsRun(start, states, moves) && k < |states|
    ensures forall i, j :: 0 <= i < j < |states[k].runs| ==> states[k].runs[i] != states[k].runs[j]
    ensures Increasing(states[k].dispatched)
    ensures forall id :: id in states[k].inFlight <==> id in states[k].runs
  {
    RunInvariant(start, states, moves, k);
  }

  // Nothing runs before its time, and a job that is running is not planned again.
  lemma NotBeforeItsTime(start: int, states: seq<State>, moves: seq<Move>, k: nat)
    requires IsRun(start, states, moves) && k < |moves|
    ensures moves[k] == Due && states[k].phase.items[0].at > states[k].phase.after ==>
      states[k + 1].runs == states[k].runs && states[k + 1].dispatched == states[k].dispatched
    ensures moves[k] == Consider && states[k].phase.todo[0].id in states[k].runs ==> states[k + 1].phase.items == states[k].phase.items
    ensures moves[k] == Consider && states[k].phase.todo[0].id !in states[k].runs ==>
      |states[k + 1].phase.items| == |states[k].phase.items| + 1
      && (var it := states[k + 1].phase.items[|states[k].phase.items|];
          it.id == states[k].phase.todo[0].id && it.at > states[k].phase.now
          && RunsAt(states[k].phase.now, states[k].phase.todo[0], it.at))
  {
    RunInvariant(start, states, moves, k);
    if moves[k] == Consider {
      NextIsFirst(states[k].phase.now, states[k].phase.todo[0], 0);
    }
  }

  // A run that ended frees its job and no other.
  lemma FinishFrees(start: int, states: seq<State>, moves: seq<Move>, k: nat)
    requires IsRun(start, states, moves) && k < |moves| && moves[k].Finish?
    ensures forall id :: id in states[k + 1].runs <==> id in states[k].runs && id != states[k].runs[moves[k].i]
  {
    RunInvariant(start, states, moves, k);
    RunInvariant(start, states, moves, k + 1);
  }

  // A due job always starts: only this loop marks jobs running, so the overlap guard
  // at dispatch never has to skip one that was free when it was planned.
  lemma DueJobStarts(start: int, states: seq<State>, moves: seq<Move>, k: nat)
    requires IsRun(start, states, moves) && k < |moves| && moves[k] == Due
    requires states[k].phase.items[0].at <= states[k].phase.after
    ensures states[k + 1].dispatched == states[k].dispatched + [states[k].phase.items[0]]
  {
    RunInvariant(start, states, moves, k);
  }

  // ---- The scheduler's own code ----

  class Scheduler {
    var inFlight: set<string>

    constructor ()
      ensures inFlight == {}
    {
      inFlight := {};
    }

    // markRunning: false when the job is already running.
    method MarkRunning(id: string) returns (marked: bool)
      modifies this
      ensures marked <==> id !in old(inFlight)
      ensures inFlight == old(inFlight) + {id}
    {
      if id in inFlight {
        return false;
      }
      inFlight := inFlight + {id};
      return true;
    }

    // One turn of Run's dispatch loop, next to the state it acts on.
    method DispatchFirst(items: seq<Item>, after: int, ghost s: State) returns (started: bool)
      requires items != [] && s.phase == Dispatching(after, items) && s.inFlight == inFlight
      modifies this
      ensures inFlight == Next(s, Due).inFlight
      ensures Next(s, Due).dispatched == if started then s.dispatched + [items[0]] else s.dispatched
    {
      if items[0].at > after {
        return false;
      }
      started := MarkRunning(items[0].id);
    }

    method ClearRunning(id: string)
      modifies this
      ensures inFlight == old(inFlight) - {id}
    {
      inFlight := inFlight - {id};
    }
  }

  // Run's planning loop: busy[i] is what running said of jobs[i]. The wait ends at the
  // soonest planned slot, and is never zero.
  method Plan(now: int, jobs: seq<Job>, busy: seq<bool>) returns (items: seq<Item>, wait: int)
    requires |busy| == |jobs|
    ensures items == Picked(jobs, Slots(now, jobs), busy)
    ensures IdlePlanned(jobs, busy, items)
    ensures wait > 0
    ensures items == [] ==> wait == 300_000_000_000
    ensures items != [] ==> exists i :: 0 <= i < |items| && now + wait == items[i].at
    ensures forall i :: 0 <= i < |items| ==> now + wait <= items[i].at
  {
    items := [];
    ghost var slots := Slots(now, jobs);
    var soonest := None;
    for n := 0 to |jobs|
      invariant items == Picked(jobs[..n], slots[..n], busy[..n])
      invariant soonest.None? <==> items == []
      invariant soonest.Some? ==> soonest.value > now && exists i :: 0 <= i < |items| && soonest.value == items[i].at
      invariant soonest.Some? ==> forall i :: 0 <= i < |items| ==> soonest.value <= items[i].at
    {
      assert jobs[..n + 1][..n] == jobs[..n] && busy[..n + 1][..n] == busy[..n] && slots[..n + 1][..n] == slots[..n];
      if !busy[n] {
        var at := NextOccurrence(now, jobs[n]);
        NextOccurrenceLeast(now, jobs[n], at);
        ghost var before := items;
        items := items + [Item(jobs[n].id, at)];
        assert items[|before|].at == at;
        assert forall i :: 0 <= i < |before| ==> items[i] == before[i];
        if soonest.None? || at < soonest.value {
          soonest := Some(at);
        }
      }
    }
    assert jobs[..|jobs|] == jobs && busy[..|busy|] == busy && slots[..|jobs|] == slots;
    PickedAre(jobs, slots, busy);
    wait := IDLE;
    if soonest.Some? {
      wait := if soonest.value - now > 0 then soonest.value - now else 0;
    }
  }

  // Exactly the jobs that are not running have an item.
  predicate IdlePlanned(jobs: seq<Job>, busy: seq<bool>, items: seq<Item>)
    requires |busy| == |jobs|
  {
    && (forall n :: 0 <= n < |jobs| && !busy[n] ==> HasItem(items, jobs[n].id))
    && (forall i :: 0 <= i < |items| ==> IdleJob(jobs, busy, items[i].id))
  }

  predicate HasItem(items: seq<Item>, id: string) { exists i :: 0 <= i < |items| && items[i].id == id }

  predicate IdleJob(jobs: seq<Job>, busy: seq<bool>, id: string)
    requires |busy| == |jobs|
  {
    exists n :: 0 <= n < |jobs| && !busy[n] && jobs[n].id == id
  }

  lemma IdleOneMore(jobs: seq<Job>, busy: seq<bool>, items: seq<Item>, after: seq<Item>, n: nat, at: int)
    requires |busy| == |jobs| == n + 1 && IdlePlanned(jobs[..n], busy[..n], items)
    requires after == if busy[n] then items else items + [Item(jobs[n].id, at)]
    ensures IdlePlanned(jobs, busy, after)
  {
    forall m | 0 <= m < |jobs| && !busy[m] ensures HasItem(after, jobs[m].id) {
      if m < n {
        assert !busy[..n][m] && jobs[..n][m] == jobs[m];
        assert HasItem(items, jobs[m].id);
        var i :| 0 <= i < |items| && items[i].id == jobs[m].id;
        assert after[i].id == jobs[m].id;
      } else {
        assert after[|items|].id == jobs[n].id;
      }
    }
    forall i | 0 <= i < |after| ensures IdleJob(jobs, busy, after[i].id) {
      if i < |items| {
        assert IdleJob(jobs[..n], busy[..n], items[i].id);
        var m :| 0 <= m < n && !busy[..n][m] && jobs[..n][m].id == items[i].id;
        assert jobs[m].id == items[i].id && !busy[m];
      } else {
        assert jobs[n].id == after[i].id && !busy[n];
      }
    }
  }

  // The slot of each job.
  function Slots(now: int, jobs: seq<Job>): (r: seq<int>)
    ensures |r| == |jobs|
    ensures forall n {:trigger r[n]} :: 0 <= n < |jobs| ==> r[n] == NextOccurrence(now, jobs[n])
  {
    seq(|jobs|, n requires 0 <= n < |jobs| => NextOccurrence(now, jobs[n]))
  }

  // An item for each job that is not running, in order.
  function Picked(jobs: seq<Job>, slots: seq<int>, busy: seq<bool>): seq<Item>
    requires |busy| == |jobs| == |slots|
  {
    if jobs == [] then []
    else
      var n := |jobs| - 1;
      var before := Picked(jobs[..n], slots[..n], busy[..n]);
      if busy[n] then before else before + [Item(jobs[n].id, slots[n])]
  }

  lemma {:induction false} PickedAre(jobs: seq<Job>, slots: seq<int>, busy: seq<bool>)
    requires |busy| == |jobs| == |slots|
    ensures IdlePlanned(jobs, busy, Picked(jobs, slots, busy))
  {
    if jobs != [] {
      var n := |jobs| - 1;
      PickedAre(jobs[..n], slots[..n], busy[..n]);
      IdleOneMore(jobs, busy, Picked(jobs[..n], slots[..n], busy[..n]), Picked(jobs, slots, busy), n, slots[n]);
    }
  }
}
