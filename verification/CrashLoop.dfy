// The crash-loop monitor (crashloop/monitor.go): a trimmed window of death times per
// service, refined against the full history of container events and resets.
module CrashLoop {
  import opened Text
  import Names

  const PROJECT_PREFIX := "vac-"
  const OOM_EXIT_CODE := 137

  datatype Config = Config(threshold: int, window: int)

  const SECOND := 1_000_000_000

  // New: unset settings fall back to five deaths in two minutes.
  function WithDefaults(cfg: Config): (r: Config)
    ensures r.threshold > 0 && r.window > 0
    ensures cfg.threshold > 0 ==> r.threshold == cfg.threshold
    ensures cfg.threshold <= 0 ==> r.threshold == 5
    ensures cfg.window > 0 ==> r.window == cfg.window
    ensures cfg.window <= 0 ==> r.window == 120_000_000_000
  {
    Config(if cfg.threshold <= 0 then 5 else cfg.threshold, if cfg.window <= 0 then 120 * SECOND else cfg.window)
  }

  // oom says that an inspector is wired, got a container id and confirmed the kill.
  datatype Event =
    | Container(project: string, service: string, action: string, exitCode: string, time: int, oom: bool)
    | Reset(project: string, service: string)
    | ResetProject(project: string)

  // ---- Keys ----

  function Key(project: string, service: string): string { project + "/" + service }

  predicate OfProject(key: string, project: string) { HasPrefix(key, project + "/") }

  lemma LongerNameDiffers(a: string, x: string, b: string, y: string)
    requires |a| < |b| && '/' !in b
    ensures a + "/" + x != b + "/" + y
  {
    assert (a + "/" + x)[|a|] == '/';
    assert (b + "/" + y)[|a|] == b[|a|];
  }

  lemma KeyInjective(p: string, s: string, q: string, t: string)
    requires '/' !in p && '/' !in q && Key(p, s) == Key(q, t)
    ensures p == q && s == t
  {
    if |p| < |q| {
      LongerNameDiffers(p, s, q, t);
    } else if |q| < |p| {
      LongerNameDiffers(q, t, p, s);
    } else {
      ConcatInjective(p + "/", s, q + "/", t);
      ConcatInjective(p, "/", q, "/");
    }
  }

  // For names without a slash, a project's prefix selects exactly its own services.
  lemma ProjectPrefix(p: string, q: string, service: string)
    requires '/' !in p && '/' !in q
    ensures OfProject(Key(q, service), p) <==> p == q
  {
    var key := Key(q, service);
    if OfProject(key, p) {
      var rest := key[|p| + 1..];
      assert key == Key(p, rest);
      KeyInjective(p, rest, q, service);
    }
    assert Key(q, service)[..|q| + 1] == q + "/";
  }

  // Compose projects are vac- plus a slug, so they hold no slash.
  lemma SlugProjectNoSlash(slug: string)
    requires Names.IsSlug(slug)
    ensures '/' !in PROJECT_PREFIX + slug
  {
    Names.SlugFromShape(slug, 0, false);
  }

  // ---- Events ----

  // strconv.Atoi, which also takes a plus sign.
  function Atoi(s: string): Option<int> {
    if s != [] && s[0] == '+' then (if |s| > 1 && AllDigits(s[1..]) then ParseInt(s[1..]) else None) else ParseInt(s)
  }

  predicate Watched(e: Event) { e.Container? && HasPrefix(e.project, PROJECT_PREFIX) && e.service != "" }

  // The end of an episode for a service.
  predicate Clears(e: Event, key: string) {
    match e
    case Container(project, service, action, _, _, _) => Watched(e) && action == "destroy" && Key(project, service) == key
    case Reset(project, service) => Key(project, service) == key
    case ResetProject(project) => OfProject(key, project)
  }

  // An abnormal death; a clean exit is not one, a missing exit code is.
  predicate Crash(e: Event) { Watched(e) && e.action == "die" && Atoi(e.exitCode) != Some(0) }

  predicate Crashes(e: Event, key: string) { Crash(e) && Key(e.project, e.service) == key }

  predicate RunsOutOfMemory(e: Event) { Watched(e) && e.action == "die" && Atoi(e.exitCode) == Some(OOM_EXIT_CODE) && e.oom }

  // ---- The history ----

  // Times of the abnormal deaths since the service's last episode ended.
  function Deaths(h: seq<Event>, key: string): seq<int> {
    if h == [] then []
    else
      var e, before := h[|h| - 1], Deaths(h[..|h| - 1], key);
      if Clears(e, key) then [] else if Crashes(e, key) then before + [e.time] else before
  }

  // Those in the half-open interval (t - window, t].
  function InWindow(times: seq<int>, t: int, window: int): seq<int> {
    if times == [] then []
    else
      var before := InWindow(times[..|times| - 1], t, window);
      if t - window < times[|times| - 1] <= t then before + [times[|times| - 1]] else before
  }

  // The event is one at which the service should be stopped.
  predicate ShouldTrip(cfg: Config, h: seq<Event>, e: Event, key: string) {
    !Looping(cfg, h, key) && TooManyDeaths(cfg, h, e, key)
  }

  predicate TooManyDeaths(cfg: Config, h: seq<Event>, e: Event, key: string) {
    Crashes(e, key) && |InWindow(Deaths(h, key) + [e.time], e.time, cfg.window)| >= cfg.threshold
  }

  // It has been stopped in this episode.
  predicate Looping(cfg: Config, h: seq<Event>, key: string)
    decreases |h|
  {
    h != [] &&
    var front, e := h[..|h| - 1], h[|h| - 1];
    !Clears(e, key) && (Looping(cfg, front, key) || TooManyDeaths(cfg, front, e, key))
  }

  // The same with the deaths that trimming as they arrive has kept.
  predicate KeptTooMany(cfg: Config, h: seq<Event>, e: Event, key: string) {
    Crashes(e, key) && |Kept(Deaths(h, key) + [e.time], cfg.window)| >= cfg.threshold
  }

  predicate Stopped(cfg: Config, h: seq<Event>, key: string)
    decreases |h|
  {
    h != [] &&
    var front, e := h[..|h| - 1], h[|h| - 1];
    !Clears(e, key) && (Stopped(cfg, front, key) || KeptTooMany(cfg, front, e, key))
  }

  // At each of the service's deaths, the deaths of the window are the last that came in.
  predicate InStep(cfg: Config, h: seq<Event>, key: string) {
    forall n :: 0 <= n < |h| && Crashes(h[n], key) ==>
      Contiguous(Deaths(h[..n], key) + [h[n].time], h[n].time, cfg.window)
  }

  predicate Sorted(times: seq<int>) { forall i, j :: 0 <= i < j < |times| ==> times[i] <= times[j] }

  // Docker reports each service's deaths in time order.
  predicate Ordered(h: seq<Event>, key: string) { forall n :: 0 <= n <= |h| ==> Sorted(Deaths(h[..n], key)) }

  // ---- The window ----

  // What trim leaves: everything from the first time after the cutoff.
  function Trimmed(times: seq<int>, cutoff: int): (r: seq<int>)
    ensures |r| <= |times|
  {
    if times == [] || times[0] > cutoff then times else Trimmed(times[1..], cutoff)
  }

  method Trim(times: seq<int>, cutoff: int) returns (kept: seq<int>)
    ensures kept == Trimmed(times, cutoff)
  {
    var i := 0;
    while i < |times| && times[i] <= cutoff
      invariant i <= |times| && Trimmed(times[i..], cutoff) == Trimmed(times, cutoff)
    {
      i := i + 1;
    }
    kept := times[i..];
  }

  lemma {:induction false} AllInWindow(times: seq<int>, t: int, window: int)
    requires forall i :: 0 <= i < |times| ==> t - window < times[i] <= t
    ensures InWindow(times, t, window) == times
  {
    if times != [] {
      AllInWindow(times[..|times| - 1], t, window);
    }
  }

  lemma {:induction false} InWindowDropsFirst(times: seq<int>, t: int, window: int)
    requires times != [] && times[0] <= t - window
    ensures InWindow(times, t, window) == InWindow(times[1..], t, window)
  {
    if |times| > 1 {
      InWindowDropsFirst(times[..|times| - 1], t, window);
      assert times[..|times| - 1][1..] == times[1..][..|times| - 2];
    } else {
      assert times[..0] == [] && times[1..] == [];
    }
  }

  lemma {:induction false} InWindowShorter(times: seq<int>, t: int, window: int)
    ensures |InWindow(times, t, window)| <= |times|
    ensures forall k :: 0 <= k < |times| && !(t - window < times[k] <= t) ==> |InWindow(times, t, window)| < |times|
    ensures forall x :: x in InWindow(times, t, window) ==> t - window < x <= t
  {
    if times != [] {
      InWindowShorter(times[..|times| - 1], t, window);
      assert forall k :: 0 <= k < |times| - 1 ==> times[..|times| - 1][k] == times[k];
    }
  }

  // From the first time after the cutoff on, every time lies in the window.
  predicate Contiguous(times: seq<int>, t: int, window: int) {
    forall i, j :: 0 <= i <= j < |times| && t - window < times[i] ==> t - window < times[j] <= t
  }

  // Trim keeps exactly the window under that condition and under no other.
  lemma {:induction false} TrimmedIsWindowIff(times: seq<int>, t: int, window: int)
    ensures Trimmed(times, t - window) == InWindow(times, t, window) <==> Contiguous(times, t, window)
  {
    if times != [] {
      if times[0] > t - window {
        InWindowShorter(times, t, window);
        if forall k :: 0 <= k < |times| ==> t - window < times[k] <= t {
          AllInWindow(times, t, window);
        }
      } else {
        InWindowDropsFirst(times, t, window);
        TrimmedIsWindowIff(times[1..], t, window);
        ContiguousTail(times, t, window);
      }
    }
  }

  lemma ContiguousTail(times: seq<int>, t: int, window: int)
    requires times != [] && times[0] <= t - window
    ensures Contiguous(times, t, window) <==> Contiguous(times[1..], t, window)
  {
    assert forall k :: 0 < k < |times| ==> times[k] == times[1..][k - 1];
    if Contiguous(times[1..], t, window) {
      forall i, j | 0 <= i <= j < |times| && t - window < times[i] ensures t - window < times[j] <= t {
        assert times[1..][i - 1] == times[i] && times[1..][j - 1] == times[j];
      }
    }
  }

  // In particular on sorted times.
  lemma TrimmedIsWindow(times: seq<int>, t: int, window: int)
    requires Sorted(times) && forall i :: 0 <= i < |times| ==> times[i] <= t
    ensures Trimmed(times, t - window) == InWindow(times, t, window)
  {
    assert forall i, j :: 0 <= i <= j < |times| ==> times[i] <= times[j];
    TrimmedIsWindowIff(times, t, window);
  }

  // Order matters: behind a newer death, trim keeps one that is out of the window.
  lemma OutOfOrderCounts()
    ensures Trimmed([100, 10, 120], 120 - 60) == [100, 10, 120] && InWindow([100, 10, 120], 120, 60) == [100, 120]
  {
    assert InWindow([100], 120, 60) == [100] by { assert [100][..0] == []; }
    assert [100, 10][..1] == [100];
    assert [100, 10, 120][..2] == [100, 10];
  }

  // ---- What trimming keeps of a history in any order ----

  // No later death is a window or more after the first.
  predicate Leads(times: seq<int>, window: int)
    requires times != []
  {
    forall j :: 0 <= j < |times| ==> times[j] - window < times[0]
  }

  // The longest end of the history that begins with such a death.
  function Kept(times: seq<int>, window: int): seq<int> {
    if times == [] || Leads(times, window) then times else Kept(times[1..], window)
  }

  lemma {:induction false} TrimmedIsKept(times: seq<int>, t: int, window: int)
    requires window > 0 && forall i :: 0 <= i < |times| ==> times[i] <= t
    ensures Trimmed(times + [t], t - window) == Kept(times + [t], window)
  {
    var all := times + [t];
    assert all[|times|] == t;
    if times != [] {
      if times[0] > t - window {
        assert Leads(all, window);
      } else {
        TrimmedIsKept(times[1..], t, window);
        assert all[1..] == times[1..] + [t];
      }
    }
  }

  // Trimming as deaths arrive keeps just that, in whatever order they arrive.
  lemma {:induction false} KeptOneMore(times: seq<int>, t: int, window: int)
    requires window > 0
    ensures Trimmed(Kept(times, window) + [t], t - window) == Kept(times + [t], window)
  {
    var all := times + [t];
    assert all[|times|] == t && forall j :: 0 <= j < |times| ==> all[j] == times[j];
    if times == [] {
      assert all == [t];
    } else {
      assert all[1..] == times[1..] + [t];
      if !Leads(times, window) {
        KeptOneMore(times[1..], t, window);
      } else if times[0] <= t - window {
        TrimmedIsKept(times[1..], t, window);
      }
    }
  }

  lemma {:induction false} Newest(times: seq<int>) returns (k: nat)
    requires times != []
    ensures k < |times| && forall j :: 0 <= j < |times| ==> times[j] <= times[k]
  {
    if |times| == 1 {
      k := 0;
    } else {
      k := Newest(times[..|times| - 1]);
      if times[k] < times[|times| - 1] {
        k := |times| - 1;
      }
    }
  }

  lemma {:induction false} NewestKept(times: seq<int>, window: int, k: nat)
    requires window > 0 && k < |times| && forall j :: 0 <= j < |times| ==> times[j] <= times[k]
    ensures times[k] in Kept(times, window)
  {
    if !Leads(times, window) {
      NewestKept(times[1..], window, k - 1);
    }
  }

  // What is kept at a death is its window exactly when the deaths of the window are the
  // last ones that came in.
  lemma KeptIsWindowIff(times: seq<int>, t: int, window: int)
    requires window > 0
    ensures Kept(times + [t], window) == InWindow(times + [t], t, window) <==> Contiguous(times + [t], t, window)
  {
    var all := times + [t];
    var k := Newest(all);
    assert all[|times|] == t;
    if all[k] > t {
      NewestKept(all, window, k);
      InWindowShorter(all, t, window);
      assert !Contiguous(all, t, window);
    } else {
      assert forall i :: 0 <= i < |times| ==> times[i] == all[i];
      TrimmedIsKept(times, t, window);
      TrimmedIsWindowIff(all, t, window);
    }
  }

  // ---- The monitor ----

  datatype State = State(windows: map<string, seq<int>>, tripped: set<string>, oomNotified: set<string>)

  const START := State(map[], {}, {})

  function Times(s: State, key: string): seq<int> { if key in s.windows then s.windows[key] else [] }

  function Forget(s: State, key: string): State {
    State(s.windows - {key}, s.tripped - {key}, s.oomNotified - {key})
  }

  function ForgetProject(s: State, project: string): State {
    State(map k | k in s.windows && !OfProject(k, project) :: s.windows[k],
          set k | k in s.tripped && !OfProject(k, project),
          set k | k in s.oomNotified && !OfProject(k, project))
  }

  function Record(cfg: Config, s: State, key: string, t: int): State {
    var kept := Trimmed(Times(s, key) + [t], t - cfg.window);
    s.(windows := s.windows[key := kept], tripped := if |kept| >= cfg.threshold then s.tripped + {key} else s.tripped)
  }

  function Next(cfg: Config, s: State, e: Event): State {
    match e
    case Reset(project, service) => Forget(s, Key(project, service))
    case ResetProject(project) => ForgetProject(s, project)
    case Container(project, service, action, _, t, _) =>
      var key := Key(project, service);
      if !Watched(e) then s
      else if action == "destroy" then Forget(s, key)
      else
        var seen := if RunsOutOfMemory(e) then s.(oomNotified := s.oomNotified + {key}) else s;
        if Crash(e) && key !in s.tripped then Record(cfg, seen, key, t) else seen
  }

  function Run(cfg: Config, h: seq<Event>): State {
    if h == [] then START else Next(cfg, Run(cfg, h[..|h| - 1]), h[|h| - 1])
  }

  class Monitor {
    const cfg: Config
    var windows: map<string, seq<int>>
    var tripped: set<string>
    var oomNotified: set<string>

    constructor (cfg: Config)
      ensures this.cfg == WithDefaults(cfg) && View() == START
    {
      this.cfg := WithDefaults(cfg);
      windows, tripped, oomNotified := map[], {}, {};
    }

    ghost function View(): State
      reads this
    {
      State(windows, tripped, oomNotified)
    }

    // handle: `trips` and `notifies` say that the service is stopped, and that its
    // running out of memory is announced.
    method Handle(e: Event) returns (trips: bool, notifies: bool)
      requires e.Container?
      modifies this
      ensures View() == Next(cfg, old(View()), e)
      ensures trips <==> Watched(e) && Key(e.project, e.service) in tripped - old(tripped)
      ensures notifies <==> RunsOutOfMemory(e) && Key(e.project, e.service) !in old(oomNotified)
    {
      trips, notifies := false, false;
      if !HasPrefix(e.project, PROJECT_PREFIX) || e.service == "" {
        return;
      }
      var key := Key(e.project, e.service);
      if e.action == "destroy" {
        windows, tripped, oomNotified := windows - {key}, tripped - {key}, oomNotified - {key};
        return;
      }
      if e.action != "die" {
        return;
      }
      notifies := MaybeHandleOOM(e, key);
      if Atoi(e.exitCode) == Some(0) || key in tripped {
        return;
      }
      trips := RecordDeath(key, e.time);
    }

    // The locked part of handle that counts a death.
    method RecordDeath(key: string, t: int) returns (trips: bool)
      requires key !in tripped
      modifies this`windows, this`tripped
      ensures View() == Record(cfg, old(View()), key, t)
      ensures trips <==> key in tripped
    {
      var times := if key in windows then windows[key] else [];
      times := Trim(times + [t], t - cfg.window);
      windows := windows[key := times];
      trips := |times| >= cfg.threshold;
      if trips {
        tripped := tripped + {key};
      }
    }

    // maybeHandleOOM, up to the decision to notify.
    method MaybeHandleOOM(e: Event, key: string) returns (notifies: bool)
      requires Watched(e) && e.action == "die" && key == Key(e.project, e.service)
      modifies this`oomNotified
      ensures oomNotified == old(oomNotified) + (if RunsOutOfMemory(e) then {key} else {})
      ensures notifies <==> RunsOutOfMemory(e) && key !in old(oomNotified)
    {
      if Atoi(e.exitCode) != Some(OOM_EXIT_CODE) || !e.oom {
        return false;
      }
      notifies := key !in oomNotified;
      oomNotified := oomNotified + {key};
    }

    method Reset(project: string, service: string)
      modifies this
      ensures View() == Next(cfg, old(View()), Event.Reset(project, service))
    {
      var key := Key(project, service);
      tripped := tripped - {key};
      windows := windows - {key};
      oomNotified := oomNotified - {key};
    }

    method ResetProject(project: string)
      modifies this
      ensures View() == Next(cfg, old(View()), Event.ResetProject(project))
    {
      tripped := OfOtherProjects(tripped, project);
      var kept := OfOtherProjects(windows.Keys, project);
      windows := map k | k in kept && k in windows :: windows[k];
      oomNotified := OfOtherProjects(oomNotified, project);
    }
  }

  // The loop of ResetProject over one map's keys, in any order.
  method OfOtherProjects(keys: set<string>, project: string) returns (kept: set<string>)
    ensures kept == set k | k in keys && !OfProject(k, project)
  {
    kept := keys;
    var left := keys;
    while left != {}
      invariant left <= keys
      invariant kept == set k | k in keys && (k in left || !OfProject(k, project))
    {
      var k :| k in left;
      if OfProject(k, project) {
        kept := kept - {k};
      }
      left := left - {k};
    }
  }

  // ---- The monitor against the history ----

  // The stored window is the trimmed list of deaths until the service trips.
  predicate AgreesWith(cfg: Config, s: State, deaths: seq<int>, stopped: bool, key: string) {
    && (key in s.tripped <==> stopped)
    && (key !in s.tripped ==> Times(s, key) == Kept(deaths, cfg.window))
  }

  predicate Agrees(cfg: Config, h: seq<Event>, key: string) {
    AgreesWith(cfg, Run(cfg, h), Deaths(h, key), Stopped(cfg, h, key), key)
  }

  // The stored window against the full history, for deaths in any order.
  lemma {:induction false} MonitorAgrees(cfg: Config, h: seq<Event>, key: string)
    requires cfg.threshold > 0 && cfg.window > 0
    ensures Agrees(cfg, h, key)
  {
    if h != [] {
      MonitorAgrees(cfg, h[..|h| - 1], key);
      if Crashes(h[|h| - 1], key) && !Clears(h[|h| - 1], key) {
        CrashAgrees(cfg, h, key);
      } else {
        OtherAgrees(cfg, h, key);
      }
    }
  }

  lemma OtherAgrees(cfg: Config, h: seq<Event>, key: string)
    requires h != [] && Agrees(cfg, h[..|h| - 1], key)
    requires Clears(h[|h| - 1], key) || !Crashes(h[|h| - 1], key)
    ensures Agrees(cfg, h, key)
  {
  }

  lemma CrashAgrees(cfg: Config, h: seq<Event>, key: string)
    requires cfg.threshold > 0 && cfg.window > 0
    requires h != [] && Agrees(cfg, h[..|h| - 1], key)
    requires !Clears(h[|h| - 1], key) && Crashes(h[|h| - 1], key)
    ensures Agrees(cfg, h, key)
  {
    var front, e := h[..|h| - 1], h[|h| - 1];
    CrashKeepsAgreement(cfg, Run(cfg, front), e, Deaths(front, key), Stopped(cfg, front, key), key);
  }

  lemma CrashKeepsAgreement(cfg: Config, s: State, e: Event, deaths: seq<int>, stopped: bool, key: string)
    requires cfg.window > 0 && Crashes(e, key) && !Clears(e, key) && AgreesWith(cfg, s, deaths, stopped, key)
    ensures AgreesWith(cfg, Next(cfg, s, e), deaths + [e.time],
                       stopped || |Kept(deaths + [e.time], cfg.window)| >= cfg.threshold, key)
  {
    CrashStep(cfg, s, e, key);
    KeptOneMore(deaths, e.time, cfg.window);
  }

  lemma CrashStep(cfg: Config, s: State, e: Event, key: string)
    requires Crashes(e, key) && !Clears(e, key)
    ensures var s', kept := Next(cfg, s, e), Trimmed(Times(s, key) + [e.time], e.time - cfg.window);
      && (key in s.tripped ==> key in s'.tripped)
      && (key !in s.tripped ==> Times(s', key) == kept && (key in s'.tripped <==> |kept| >= cfg.threshold))
  {
  }

  // Whatever the order of times, the monitor trips a service at an event exactly when it
  // is not stopped and the longest end of its deaths that begins less than a window before
  // every later one has at least Threshold deaths.
  lemma TripsOnKept(cfg: Config, h: seq<Event>, e: Event, key: string)
    requires cfg.threshold > 0 && cfg.window > 0
    ensures key in Run(cfg, h + [e]).tripped - Run(cfg, h).tripped <==> !Stopped(cfg, h, key) && KeptTooMany(cfg, h, e, key)
  {
    assert (h + [e])[..|h|] == h;
    MonitorAgrees(cfg, h, key);
    MonitorAgrees(cfg, h + [e], key);
    DeathIsNoClear(e, key);
  }

  lemma DeathIsNoClear(e: Event, key: string)
    ensures !(Crashes(e, key) && Clears(e, key))
  {
  }

  lemma {:induction false} InStepStopped(cfg: Config, h: seq<Event>, key: string)
    requires cfg.window > 0 && InStep(cfg, h, key)
    ensures Stopped(cfg, h, key) == Looping(cfg, h, key)
  {
    if h != [] {
      var front, e := h[..|h| - 1], h[|h| - 1];
      assert forall n :: 0 <= n < |front| ==> front[n] == h[n] && front[..n] == h[..n];
      InStepStopped(cfg, front, key);
      SameCount(cfg, front, e, key);
    }
  }

  lemma SameCount(cfg: Config, h: seq<Event>, e: Event, key: string)
    requires cfg.window > 0
    requires Crashes(e, key) ==> Contiguous(Deaths(h, key) + [e.time], e.time, cfg.window)
    ensures KeptTooMany(cfg, h, e, key) == TooManyDeaths(cfg, h, e, key)
  {
    if Crashes(e, key) {
      KeptIsWindowIff(Deaths(h, key), e.time, cfg.window);
    }
  }

  // As long as the service's deaths come in step, the monitor trips it at an event exactly
  // when the service is not looping and has at least Threshold abnormal deaths in
  // (t - Window, t] since its episode began.
  lemma TripsExactly(cfg: Config, h: seq<Event>, e: Event, key: string)
    requires cfg.threshold > 0 && cfg.window > 0 && InStep(cfg, h + [e], key)
    ensures key in Run(cfg, h + [e]).tripped - Run(cfg, h).tripped <==> ShouldTrip(cfg, h, e, key)
  {
    var all := h + [e];
    assert all[..|h|] == h && all[|h|] == e;
    assert forall n :: 0 <= n < |h| ==> h[n] == all[n] && h[..n] == all[..n];
    TripsOnKept(cfg, h, e, key);
    InStepStopped(cfg, h, key);
    SameCount(cfg, h, e, key);
  }

  // Deaths whose times do not go back are in step.
  lemma OrderedInStep(cfg: Config, h: seq<Event>, key: string)
    requires cfg.window > 0 && Ordered(h, key)
    ensures InStep(cfg, h, key)
  {
    forall n | 0 <= n < |h| && Crashes(h[n], key)
      ensures Contiguous(Deaths(h[..n], key) + [h[n].time], h[n].time, cfg.window)
    {
      assert h[..n + 1][..n] == h[..n];
      DeathIsNoClear(h[n], key);
      var times := Deaths(h[..n], key) + [h[n].time];
      assert Deaths(h[..n + 1], key) == times;
      assert times[|times| - 1] == h[n].time;
      assert forall i, j :: 0 <= i <= j < |times| ==> times[i] <= times[j];
    }
  }

  // Event i is the one that reports the key as looping.
  predicate TripsAt(cfg: Config, h: seq<Event>, i: nat, key: string)
    requires i < |h|
  {
    key in Run(cfg, h[..i + 1]).tripped && key !in Run(cfg, h[..i]).tripped
  }

  lemma {:induction false} StaysTripped(cfg: Config, h: seq<Event>, key: string, i: nat, j: nat)
    requires i < j <= |h|
    requires forall m :: i < m < j ==> !Clears(h[m], key)
    requires key in Run(cfg, h[..i + 1]).tripped
    ensures key in Run(cfg, h[..j]).tripped
    decreases j
  {
    if j > i + 1 {
      StaysTripped(cfg, h, key, i, j - 1);
      assert h[..j][..j - 1] == h[..j - 1];
    }
  }

  // A service trips once per episode: once it is tripped, no later event trips it unless
  // some event in between clears it.
  lemma OncePerEpisode(cfg: Config, h: seq<Event>, key: string, i: nat, j: nat) returns (m: nat)
    requires i < j < |h| && key in Run(cfg, h[..i + 1]).tripped && TripsAt(cfg, h, j, key)
    ensures i < m < j && Clears(h[m], key)
  {
    if forall n :: i < n < j ==> !Clears(h[n], key) {
      StaysTripped(cfg, h, key, i, j);
      assert false;
    }
    m :| i < m < j && Clears(h[m], key);
  }

  ghost predicate Bounded(cfg: Config, s: State) {
    forall key :: key in s.windows ==>
      |s.windows[key]| <= cfg.threshold && (key !in s.tripped ==> |s.windows[key]| < cfg.threshold)
  }

  // In any order of events, no stored window outgrows the threshold.
  lemma {:induction false} WindowBounded(cfg: Config, h: seq<Event>)
    requires cfg.threshold > 0
    ensures Bounded(cfg, Run(cfg, h))
  {
    if h != [] {
      WindowBounded(cfg, h[..|h| - 1]);
      StepBounded(cfg, Run(cfg, h[..|h| - 1]), h[|h| - 1]);
    }
  }

  lemma StepBounded(cfg: Config, s: State, e: Event)
    requires cfg.threshold > 0 && Bounded(cfg, s)
    ensures Bounded(cfg, Next(cfg, s, e))
  {
  }

  predicate Forgotten(s: State, key: string) { key !in s.windows && key !in s.tripped && key !in s.oomNotified }

  predicate SameFor(s: State, t: State, key: string) {
    && (key in s.windows <==> key in t.windows) && Times(s, key) == Times(t, key)
    && (key in s.tripped <==> key in t.tripped) && (key in s.oomNotified <==> key in t.oomNotified)
  }

  // ResetProject clears exactly what Reset on each of the project's services clears.
  lemma ResetProjectIsResets(cfg: Config, s: State, project: string, other: string, service: string)
    requires '/' !in project && '/' !in other
    ensures var s', key := Next(cfg, s, ResetProject(project)), Key(other, service);
      if other == project then Forgotten(s', key) else SameFor(s', s, key)
  {
    ProjectPrefix(project, other, service);
  }

  // ---- The same, told by the events alone ----

  // An exit code that reads as zero.
  predicate CleanCode(s: string) {
    (s != "" && Zeros(s)) || (|s| > 1 && s[0] in {'+', '-'} && Zeros(s[1..]))
  }

  // An exit code that reads as 137.
  predicate KilledCode(s: string) { Is137(s) || (s != "" && s[0] == '+' && Is137(s[1..])) }

  predicate Is137(s: string) { |s| >= 3 && s[|s| - 3..] == "137" && Zeros(s[..|s| - 3]) }

  lemma ZerosAreDigits(s: string)
    requires Zeros(s)
    ensures AllDigits(s) && DigitsValue(s) == 0
  {
    ZeroDigits(s);
  }

  lemma ZeroText(s: string)
    ensures s != "" && Zeros(s) <==> s != "" && AllDigits(s) && DigitsValue(s) == 0
  {
    if AllDigits(s) {
      ZeroDigits(s);
    }
  }

  lemma CleanCodeIs(s: string)
    ensures CleanCode(s) <==> Atoi(s) == Some(0)
  {
    ZeroText(s);
    if |s| > 1 {
      ZeroText(s[1..]);
    }
    assert s != "" && AllDigits(s) ==> IsDigit(s[0]);
    assert s != "" && Zeros(s) ==> s[0] == '0';
  }

  // A number of three digits or more, split off at the end.
  lemma LastThree(s: string)
    requires |s| >= 3 && AllDigits(s)
    ensures AllDigits(s[..|s| - 3])
    ensures DigitsValue(s) == 137 <==>
      DigitsValue(s[..|s| - 3]) == 0 && s[|s| - 3] == '1' && s[|s| - 2] == '3' && s[|s| - 1] == '7'
  {
    var a := s[..|s| - 1];
    LastDigit(s, 137);
    LastDigit(a, 13);
    LastDigit(a[..|a| - 1], 1);
    assert a[..|a| - 1] == s[..|s| - 2] && s[..|s| - 2][..|s| - 3] == s[..|s| - 3];
  }

  lemma FewDigits(s: string)
    requires s != "" && |s| < 3 && AllDigits(s)
    ensures DigitsValue(s) < 100
  {
    assert DigitsValue(s[..|s| - 1]) < 10 by {
      if |s| == 2 {
        assert s[..1][..0] == "";
      } else {
        assert s[..0] == "";
      }
    }
  }

  lemma Digits137(s: string)
    requires s != "" && AllDigits(s)
    ensures DigitsValue(s) == 137 <==> Is137(s)
  {
    if |s| < 3 {
      FewDigits(s);
    } else {
      LastThree(s);
      ZeroDigits(s[..|s| - 3]);
      assert s[|s| - 3..] == [s[|s| - 3], s[|s| - 2], s[|s| - 1]];
    }
  }

  lemma Digits137Only(s: string)
    ensures Is137(s) ==> s != "" && AllDigits(s)
  {
    if Is137(s) {
      assert s == s[..|s| - 3] + s[|s| - 3..];
    }
  }

  lemma KilledCodeIs(s: string)
    ensures KilledCode(s) <==> Atoi(s) == Some(137)
  {
    Digits137Only(s);
    if s != "" {
      Digits137Only(s[1..]);
      if AllDigits(s) {
        Digits137(s);
      }
      if |s| > 1 && AllDigits(s[1..]) {
        Digits137(s[1..]);
      }
    }
  }

  // A container of the service died, and not by a clean exit.
  predicate DiesAt(e: Event, project: string, service: string) {
    && e.Container? && e.project == project && e.service == service && e.action == "die"
    && "vac-" <= project && service != "" && !CleanCode(e.exitCode)
  }

  // Its container was removed, or an operator reset it or its project.
  predicate EndsAt(e: Event, project: string, service: string) {
    || (e.Container? && e.project == project && e.service == service && e.action == "destroy" && "vac-" <= project && service != "")
    || (e.Reset? && e.project == project && e.service == service)
    || (e.ResetProject? && e.project == project)
  }

  // It was killed for want of memory, as the inspector confirmed.
  predicate KilledAt(e: Event, project: string, service: string) {
    && e.Container? && e.project == project && e.service == service && e.action == "die"
    && "vac-" <= project && service != "" && KilledCode(e.exitCode) && e.oom
  }

  predicate SlashFree(h: seq<Event>) { forall i :: 0 <= i < |h| ==> '/' !in h[i].project }

  lemma EventsTold(e: Event, project: string, service: string)
    requires '/' !in e.project && '/' !in project
    ensures Crashes(e, Key(project, service)) <==> DiesAt(e, project, service)
    ensures Clears(e, Key(project, service)) <==> EndsAt(e, project, service)
    ensures RunsOutOfMemory(e) && Key(e.project, e.service) == Key(project, service) <==> KilledAt(e, project, service)
  {
    if e.Container? {
      CleanCodeIs(e.exitCode);
      KilledCodeIs(e.exitCode);
    }
    if !e.ResetProject? && Key(e.project, e.service) == Key(project, service) {
      KeyInjective(e.project, e.service, project, service);
    }
    if e.ResetProject? {
      ProjectPrefix(e.project, project, service);
    }
  }

  // Deaths of the service in (t - window, t] since its last episode ended.
  function DeathsSince(h: seq<Event>, project: string, service: string, t: int, window: int): nat {
    if h == [] then 0
    else
      var front, e := h[..|h| - 1], h[|h| - 1];
      if EndsAt(e, project, service) then 0
      else if DiesAt(e, project, service) && t - window < e.time <= t then DeathsSince(front, project, service, t, window) + 1
      else DeathsSince(front, project, service, t, window)
  }

  lemma InWindowLast(times: seq<int>, last: int, t: int, window: int)
    ensures |InWindow(times + [last], t, window)| == |InWindow(times, t, window)| + if t - window < last <= t then 1 else 0
  {
    assert (times + [last])[..|times|] == times;
  }

  lemma {:induction false} DeathsCounted(h: seq<Event>, project: string, service: string, t: int, window: int)
    requires SlashFree(h) && '/' !in project
    ensures |InWindow(Deaths(h, Key(project, service)), t, window)| == DeathsSince(h, project, service, t, window)
  {
    if h != [] {
      var front, e := h[..|h| - 1], h[|h| - 1];
      DeathsCounted(front, project, service, t, window);
      EventsTold(e, project, service);
      if Crashes(e, Key(project, service)) {
        InWindowLast(Deaths(front, Key(project, service)), e.time, t, window);
      }
    }
  }

  // The monitor trips a service at an event exactly when it has not tripped in this
  // episode, a container of it died otherwise than by exit code zero, and with this death
  // it has at least Threshold of them in (t - Window, t] since the episode began.
  lemma TripsOnDeaths(cfg: Config, h: seq<Event>, e: Event, project: string, service: string)
    requires cfg.threshold > 0 && cfg.window > 0 && '/' !in project && SlashFree(h + [e])
    requires InStep(cfg, h + [e], Key(project, service))
    ensures var key := project + "/" + service;
      key in Run(cfg, h + [e]).tripped && key !in Run(cfg, h).tripped <==>
        key !in Run(cfg, h).tripped && DiesAt(e, project, service)
        && DeathsSince(h + [e], project, service, e.time, cfg.window) >= cfg.threshold
  {
    var key, all := Key(project, service), h + [e];
    assert all[..|h|] == h && all[|h|] == e;
    assert forall i :: 0 <= i < |h| ==> h[i] == all[i];
    EventsTold(e, project, service);
    TripsOnKept(cfg, h, e, key);
    MonitorAgrees(cfg, h, key);
    if DiesAt(e, project, service) {
      DeathsCounted(h, project, service, e.time, cfg.window);
      InWindowLast(Deaths(h, key), e.time, e.time, cfg.window);
      KeptIsWindowIff(Deaths(h, key), e.time, cfg.window);
    }
  }

  // The service was killed for want of memory since its last episode ended.
  predicate KilledSince(h: seq<Event>, project: string, service: string) {
    h != []
    && (var front, e := h[..|h| - 1], h[|h| - 1];
        !EndsAt(e, project, service) && (KilledSince(front, project, service) || KilledAt(e, project, service)))
  }

  // Such a kill is announced once per episode: it is on record exactly until the episode
  // ends, and an event is announced exactly when it is not.
  lemma {:induction false} KillsOnRecord(cfg: Config, h: seq<Event>, project: string, service: string)
    requires SlashFree(h) && '/' !in project
    ensures project + "/" + service in Run(cfg, h).oomNotified <==> KilledSince(h, project, service)
  {
    if h != [] {
      var front, e := h[..|h| - 1], h[|h| - 1];
      KillsOnRecord(cfg, front, project, service);
      EventsTold(e, project, service);
    }
  }
}
