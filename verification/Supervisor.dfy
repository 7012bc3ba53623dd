/** The process table of the supervisor (pkg/supervisor/process.go): starting and stopping cores
    while processes end by themselves and the goroutines that wait for them clean up.

    Each locked section of the code is one step, so steps interleave freely.  The operating
    system's answers (file lookups, whether a process starts, which processes a `killall` hits)
    are parameters of the steps. */
module Supervisor {
  import opened Common
  import opened Text

  // ---------------------------------------------------------------------------------------
  // Core names
  // ---------------------------------------------------------------------------------------

  function Normalize(name: string): string {
    var n := ToLower(TrimSpace(name));
    if n == "singbox" || n == "sing-box" then "sing-box"
    else if n == "hysteria" || n == "hysteria2" then "hysteria2"
    else if n == "xray" || n == "xray-core" then "xray"
    else n
  }

  predicate Recognized(core: string) { core == "sing-box" || core == "xray" || core == "hysteria2" }

  /** A name and its normal form denote the same slot of the table. */
  lemma NormalizeIsIdempotent(name: string)
    ensures Normalize(Normalize(name)) == Normalize(name)
  {
    TrimIsTight(name);
    var lower := ToLower(TrimSpace(name));
    LowerIsTight(TrimSpace(name));
    TightIsTrimmed(lower);
    assert ToLower(lower) == lower;
    KnownNamesAreTrimmed();
  }

  lemma LowerIsTight(s: string)
    requires Tight(s)
    ensures Tight(ToLower(s))
  {}

  lemma KnownNamesAreTrimmed()
    ensures forall n | n in ["sing-box", "hysteria2", "xray"] :: Normalize(n) == n
  {
    TightIsTrimmed("sing-box");
    TightIsTrimmed("hysteria2");
    TightIsTrimmed("xray");
    assert ToLower("sing-box") == "sing-box" && ToLower("hysteria2") == "hysteria2" && ToLower("xray") == "xray";
  }

  // The spellings of the three known cores.
  const SINGBOX := ["singbox", "sing-box"]
  const HYSTERIA := ["hysteria", "hysteria2"]
  const XRAY := ["xray", "xray-core"]

  function Plain(name: string): string { ToLower(TrimSpace(name)) }

  // Two names for one core: the same up to case and white space, or spellings of one known core.
  predicate OneCore(a: string, b: string) {
    || Plain(a) == Plain(b)
    || (Plain(a) in SINGBOX && Plain(b) in SINGBOX)
    || (Plain(a) in HYSTERIA && Plain(b) in HYSTERIA)
    || (Plain(a) in XRAY && Plain(b) in XRAY)
  }

  predicate IsKnownCore(name: string) { Plain(name) in SINGBOX + HYSTERIA + XRAY }

  lemma SlotsOfKnownCores(name: string)
    ensures Normalize(name) == "sing-box" <==> Plain(name) in SINGBOX
    ensures Normalize(name) == "hysteria2" <==> Plain(name) in HYSTERIA
    ensures Normalize(name) == "xray" <==> Plain(name) in XRAY
  {
    assert |"singbox"| == 7 && |"sing-box"| == 8 && |"hysteria"| == 8 && |"hysteria2"| == 9;
    assert |"xray"| == 4 && |"xray-core"| == 9;
  }

  lemma SlotsOfOthers(name: string)
    requires Plain(name) !in SINGBOX && Plain(name) !in HYSTERIA && Plain(name) !in XRAY
    ensures Normalize(name) == Plain(name)
  {}

  /** Names share a slot of the table iff they name one core. */
  lemma NamesShareSlotIffOneCore(a: string, b: string)
    ensures Normalize(a) == Normalize(b) <==> OneCore(a, b)
    ensures Recognized(Normalize(a)) <==> IsKnownCore(a)
  {
    SlotsOfKnownCores(a);
    SlotsOfKnownCores(b);
    if Plain(a) !in SINGBOX && Plain(a) !in HYSTERIA && Plain(a) !in XRAY { SlotsOfOthers(a); }
    if Plain(b) !in SINGBOX && Plain(b) !in HYSTERIA && Plain(b) !in XRAY { SlotsOfOthers(b); }
  }

  // ---------------------------------------------------------------------------------------
  // Steps
  // ---------------------------------------------------------------------------------------

  // Doomed: killed but not yet gone.  Gone: ended, its waiter has not cleaned up yet.
  datatype Stage = Running | Doomed | Gone | Reaped

  datatype Process = Process(core: string, stage: Stage)

  // Processes are numbered in the order they were started.
  datatype System = System(started: seq<Process>, table: map<string, nat>, binPaths: map<string, string>,
                           configPaths: map<string, string>)

  const INITIAL := System([], map[], map[], map[])

  // What the operating system answers during one start.
  datatype Host = Host(resolve: string -> Option<string>, present: string -> bool, authorized: string -> bool,
                       starts: bool)

  datatype Outcome = Started | BinaryNotFound | ConfigNotFound | Unauthorized | StartFailed

  datatype Step =
    | Start(name: string, bin: string, config: string, host: Host)
    | Stop(name: string, swept: set<nat>)
    | Exit(id: nat)
    | Wake(id: nat)

  function Doom(p: Process): Process { if p.stage.Running? then p.(stage := Doomed) else p }

  // Kills the tracked process of a core and forgets it.
  function Evict(s: System, core: string): System {
    if core !in s.table then s
    else
      var id := s.table[core];
      s.(started := if id < |s.started| then s.started[id := Doom(s.started[id])] else s.started,
         table := s.table - {core})
  }

  function StartOutcome(bin: string, config: string, host: Host): Outcome {
    if host.resolve(bin).None? then BinaryNotFound
    else if config != "" && !host.present(config) then ConfigNotFound
    else if !host.authorized(host.resolve(bin).value) then Unauthorized
    else if !host.starts then StartFailed
    else Started
  }

  function Record(s: System, core: string, bin: string, config: string): System {
    s.(binPaths := s.binPaths[core := bin], configPaths := s.configPaths[core := config])
  }

  function Launch(s: System, core: string): System {
    s.(started := s.started + [Process(core, Running)], table := s.table[core := |s.started|])
  }

  function StartStep(s: System, name: string, bin: string, config: string, host: Host): System {
    var core := Normalize(name);
    match StartOutcome(bin, config, host)
    case BinaryNotFound => s
    case ConfigNotFound => Record(s, core, host.resolve(bin).value, config)
    case Started => Launch(Evict(Record(s, core, host.resolve(bin).value, config), core), core)
    case _ => Evict(Record(s, core, host.resolve(bin).value, config), core)
  }

  function Sweep(s: System, swept: set<nat>): System {
    s.(started := seq(|s.started|, i requires 0 <= i < |s.started| =>
                          if i in swept then Doom(s.started[i]) else s.started[i]))
  }

  function StopStep(s: System, name: string, swept: set<nat>): System {
    var core := Normalize(name);
    var evicted := Evict(s, core);
    if Recognized(core) then Sweep(evicted, swept) else evicted
  }

  function ExitStep(s: System, id: nat): System {
    if id < |s.started| && (s.started[id].stage.Running? || s.started[id].stage.Doomed?) then
      s.(started := s.started[id := s.started[id].(stage := Gone)])
    else s
  }

  // The waiter removes the entry only if it still holds its own process.
  function WakeStep(s: System, id: nat): System {
    if id < |s.started| && s.started[id].stage.Gone? then
      var core := s.started[id].core;
      var reaped := s.(started := s.started[id := s.started[id].(stage := Reaped)]);
      if core in s.table && s.table[core] == id then reaped.(table := s.table - {core}) else reaped
    else s
  }

  function Next(s: System, step: Step): System {
    match step
    case Start(name, bin, config, host) => StartStep(s, name, bin, config, host)
    case Stop(name, swept) => StopStep(s, name, swept)
    case Exit(id) => ExitStep(s, id)
    case Wake(id) => WakeStep(s, id)
  }

  function Run(s: System, steps: seq<Step>): System {
    if steps == [] then s else Next(Run(s, steps[..|steps| - 1]), steps[|steps| - 1])
  }

  // ---------------------------------------------------------------------------------------
  // No orphans
  // ---------------------------------------------------------------------------------------

  predicate Tracked(s: System, id: nat) {
    id < |s.started| && s.started[id].core in s.table && s.table[s.started[id].core] == id
  }

  ghost predicate EntriesAreUnreaped(s: System) {
    forall core | core in s.table ::
      s.table[core] < |s.started| && s.started[s.table[core]].core == core && !s.started[s.table[core]].stage.Reaped?
  }

  // Every process that was neither killed nor ended is the tracked one of its core.
  ghost predicate NoOrphans(s: System) {
    forall id | 0 <= id < |s.started| && s.started[id].stage.Running? :: Tracked(s, id)
  }

  ghost predicate Inv(s: System) { EntriesAreUnreaped(s) && NoOrphans(s) }

  lemma EvictKeepsInv(s: System, core: string)
    requires Inv(s)
    ensures Inv(Evict(s, core)) && core !in Evict(s, core).table
  {
    var e := Evict(s, core);
    forall id | 0 <= id < |e.started| && e.started[id].stage.Running? ensures Tracked(e, id) {
      assert Tracked(s, id);
    }
  }

  lemma RecordKeepsInv(s: System, core: string, bin: string, config: string)
    requires Inv(s)
    ensures Inv(Record(s, core, bin, config))
  {
    forall id | 0 <= id < |s.started| && s.started[id].stage.Running?
      ensures Tracked(Record(s, core, bin, config), id)
    {
      assert Tracked(s, id);
    }
  }

  lemma StartKeepsInv(s: System, name: string, bin: string, config: string, host: Host)
    requires Inv(s)
    ensures Inv(StartStep(s, name, bin, config, host))
  {
    var core := Normalize(name);
    if host.resolve(bin).Some? {
      var recorded := Record(s, core, host.resolve(bin).value, config);
      RecordKeepsInv(s, core, host.resolve(bin).value, config);
      EvictKeepsInv(recorded, core);
      var evicted := Evict(recorded, core);
      var launched := Launch(evicted, core);
      forall id | 0 <= id < |launched.started| && launched.started[id].stage.Running? ensures Tracked(launched, id) {
        if id < |evicted.started| {
          assert Tracked(evicted, id);
        }
      }
    }
  }

  lemma StopKeepsInv(s: System, name: string, swept: set<nat>)
    requires Inv(s)
    ensures Inv(StopStep(s, name, swept))
  {
    EvictKeepsInv(s, Normalize(name));
    var evicted := Evict(s, Normalize(name));
    var after := Sweep(evicted, swept);
    forall id | 0 <= id < |after.started| && after.started[id].stage.Running? ensures Tracked(after, id) {
      assert Tracked(evicted, id);
    }
  }

  lemma ExitKeepsInv(s: System, id: nat)
    requires Inv(s)
    ensures Inv(ExitStep(s, id))
  {
    var after := ExitStep(s, id);
    forall k | 0 <= k < |after.started| && after.started[k].stage.Running? ensures Tracked(after, k) {
      assert Tracked(s, k);
    }
  }

  lemma WakeKeepsInv(s: System, id: nat)
    requires Inv(s)
    ensures Inv(WakeStep(s, id))
  {
    var after := WakeStep(s, id);
    forall k | 0 <= k < |after.started| && after.started[k].stage.Running? ensures Tracked(after, k) {
      assert Tracked(s, k);
    }
  }

  lemma StepKeepsInv(s: System, step: Step)
    requires Inv(s)
    ensures Inv(Next(s, step))
  {
    match step
    case Start(name, bin, config, host) => StartKeepsInv(s, name, bin, config, host);
    case Stop(name, swept) => StopKeepsInv(s, name, swept);
    case Exit(id) => ExitKeepsInv(s, id);
    case Wake(id) => WakeKeepsInv(s, id);
  }

  lemma {:induction false} RunKeepsInv(s: System, steps: seq<Step>)
    requires Inv(s)
    ensures Inv(Run(s, steps))
  {
    if steps != [] {
      RunKeepsInv(s, steps[..|steps| - 1]);
      StepKeepsInv(Run(s, steps[..|steps| - 1]), steps[|steps| - 1]);
    }
  }

  function Live(s: System, core: string): set<nat> {
    set id | 0 <= id < |s.started| && s.started[id].core == core && s.started[id].stage.Running?
  }

  /** Under every interleaving of starts, stops, exits and waiters, a process that was neither
      killed nor ended is the one its core's entry names, so each core has at most one; and no
      entry names a process whose waiter has finished. */
  lemma NoOrphansInAnyRun(steps: seq<Step>)
    ensures var s := Run(INITIAL, steps);
            && (forall core, id | id in Live(s, core) ::
                  Live(s, core) == {id} && core in s.table && s.table[core] == id)
            && (forall core | core in s.table ::
                  s.table[core] < |s.started| && !s.started[s.table[core]].stage.Reaped?)
  {
    var s := Run(INITIAL, steps);
    RunKeepsInv(INITIAL, steps);
    forall core, id | id in Live(s, core)
      ensures Live(s, core) == {id} && core in s.table && s.table[core] == id
    {
      forall k | k in Live(s, core) ensures k == id && Tracked(s, k) {
        assert Tracked(s, k) && Tracked(s, id);
      }
    }
  }

  // No process is on its way out and every waiter has run.
  ghost predicate Settled(s: System) {
    forall id | 0 <= id < |s.started| :: s.started[id].stage.Running? || s.started[id].stage.Reaped?
  }

  /** Once every waiter has run, the table holds exactly the live processes. */
  lemma SettledTableIsExact(steps: seq<Step>, core: string)
    requires Settled(Run(INITIAL, steps))
    ensures var s := Run(INITIAL, steps);
            Live(s, core) == if core in s.table then {s.table[core]} else {}
  {
    var s := Run(INITIAL, steps);
    NoOrphansInAnyRun(steps);
    RunKeepsInv(INITIAL, steps);
    if core in s.table {
      assert s.table[core] in Live(s, core);
    } else if id :| id in Live(s, core) {
      assert false;
    }
  }

  // ---------------------------------------------------------------------------------------
  // One way only
  // ---------------------------------------------------------------------------------------

  function Rank(stage: Stage): nat {
    match stage case Running => 0 case Doomed => 1 case Gone => 2 case Reaped => 3
  }

  // From `s` to `t` processes only move towards their end, and only new ones become tracked.
  ghost predicate Advances(s: System, t: System) {
    && |s.started| <= |t.started|
    && (forall id | 0 <= id < |s.started| ::
          t.started[id].core == s.started[id].core && Rank(s.started[id].stage) <= Rank(t.started[id].stage))
    && (forall id | 0 <= id < |s.started| && Tracked(t, id) :: Tracked(s, id))
  }

  lemma EvictAdvances(s: System, core: string)
    requires Inv(s)
    ensures Advances(s, Evict(s, core))
  {
    var t := Evict(s, core);
    forall id | 0 <= id < |s.started| && Tracked(t, id) ensures Tracked(s, id) {}
  }

  lemma LaunchAdvances(s: System, t: System, core: string)
    requires Advances(s, t) && EntriesAreUnreaped(t)
    ensures Advances(s, Launch(t, core))
  {
    var l := Launch(t, core);
    forall id | 0 <= id < |s.started| && Tracked(l, id) ensures Tracked(s, id) {
      assert Tracked(t, id);
    }
  }

  lemma StartAdvances(s: System, name: string, bin: string, config: string, host: Host)
    requires Inv(s)
    ensures Advances(s, StartStep(s, name, bin, config, host))
  {
    var core := Normalize(name);
    if host.resolve(bin).Some? {
      var recorded := Record(s, core, host.resolve(bin).value, config);
      RecordKeepsInv(s, core, host.resolve(bin).value, config);
      EvictAdvances(recorded, core);
      EvictKeepsInv(recorded, core);
      var evicted := Evict(recorded, core);
      forall id | 0 <= id < |s.started| && Tracked(evicted, id) ensures Tracked(s, id) {
        assert Tracked(recorded, id);
      }
      assert Advances(s, evicted);
      LaunchAdvances(s, evicted, core);
    }
  }

  lemma StopAdvances(s: System, name: string, swept: set<nat>)
    requires Inv(s)
    ensures Advances(s, StopStep(s, name, swept))
  {
    EvictAdvances(s, Normalize(name));
    var evicted := Evict(s, Normalize(name));
    forall id | 0 <= id < |s.started| && Tracked(StopStep(s, name, swept), id) ensures Tracked(s, id) {
      assert Tracked(evicted, id);
    }
  }

  lemma StepAdvances(s: System, step: Step)
    requires Inv(s)
    ensures Advances(s, Next(s, step))
  {
    match step
    case Start(name, bin, config, host) => StartAdvances(s, name, bin, config, host);
    case Stop(name, swept) => StopAdvances(s, name, swept);
    case Exit(id) =>
    case Wake(id) =>
  }

  /** Whatever happens between two moments of a run, a process that lost its entry never gets it
      back and one that left a stage never returns to it.  So a process alive at the end was
      alive and tracked since its start: no waiter and no stop removed its entry in between. */
  lemma {:induction false} RunAdvances(s: System, steps: seq<Step>)
    requires Inv(s)
    ensures Advances(s, Run(s, steps))
    ensures forall id | 0 <= id < |s.started| && Run(s, steps).started[id].stage.Running? ::
              s.started[id].stage.Running? && Tracked(s, id)
  {
    if steps != [] {
      var front := steps[..|steps| - 1];
      RunAdvances(s, front);
      RunKeepsInv(s, front);
      StepAdvances(Run(s, front), steps[|steps| - 1]);
    }
    forall id | 0 <= id < |s.started| && Run(s, steps).started[id].stage.Running?
      ensures s.started[id].stage.Running? && Tracked(s, id)
    {
      assert Rank(s.started[id].stage) <= Rank(Run(s, steps).started[id].stage);
    }
  }

  // ---------------------------------------------------------------------------------------
  // What starting, stopping and reloading leave behind
  // ---------------------------------------------------------------------------------------

  lemma EvictEmpties(s: System, core: string, other: string)
    requires Inv(s)
    ensures Live(Evict(s, core), other) == if other == core then {} else Live(s, other)
  {
    var t := Evict(s, core);
    forall id | 0 <= id < |s.started| && s.started[id].stage.Running?
      ensures t.started[id].stage.Running? <==> s.started[id].core != core
    {
      assert Tracked(s, id);
    }
    forall id ensures id in Live(t, other) <==> other != core && id in Live(s, other) {}
  }

  // The binary is found, and the configuration if there is one.
  predicate ReachesCore(bin: string, config: string, host: Host) {
    host.resolve(bin) != None && (config == "" || host.present(config))
  }

  // The binary may be run as well, and the process comes up.
  predicate Succeeds(bin: string, config: string, host: Host) {
    ReachesCore(bin, config, host) && host.authorized(host.resolve(bin).value) && host.starts
  }

  /** A start leaves the live processes alone when the binary or the configuration is missing; an
      unauthorized or failing binary costs the core the process it had; success leaves exactly
      the new one.  Other cores are never touched. */
  lemma StartDecides(s: System, name: string, bin: string, config: string, host: Host, other: string)
    requires Inv(s)
    ensures Live(StartStep(s, name, bin, config, host), other) ==
            if other != Normalize(name) || !ReachesCore(bin, config, host) then Live(s, other)
            else if Succeeds(bin, config, host) then {|s.started|}
            else {}
  {
    var core := Normalize(name);
    if host.resolve(bin).Some? {
      var recorded := Record(s, core, host.resolve(bin).value, config);
      RecordKeepsInv(s, core, host.resolve(bin).value, config);
      assert Live(recorded, other) == Live(s, other);
      EvictEmpties(recorded, core, other);
      LaunchAdds(Evict(recorded, core), core, other);
    }
  }

  lemma LaunchAdds(s: System, core: string, other: string)
    ensures Live(Launch(s, core), other) == Live(s, other) + if other == core then {|s.started|} else {}
  {
    var t := Launch(s, core);
    forall id | 0 <= id < |s.started| ensures t.started[id] == s.started[id] {}
  }

  /** A stop leaves the core without a live process, whatever the sweep hits. */
  lemma StopEmpties(s: System, name: string, swept: set<nat>)
    requires Inv(s)
    ensures Live(StopStep(s, name, swept), Normalize(name)) == {}
    ensures Normalize(name) !in StopStep(s, name, swept).table
  {
    EvictEmpties(s, Normalize(name), Normalize(name));
    var evicted := Evict(s, Normalize(name));
    var t := StopStep(s, name, swept);
    forall id | id in Live(t, Normalize(name)) ensures id in Live(evicted, Normalize(name)) {}
  }

  // ---------------------------------------------------------------------------------------
  // Who is alive, told from the steps
  // ---------------------------------------------------------------------------------------

  // The names under which processes were started, in order.
  function Starters(steps: seq<Step>): seq<string> {
    if steps == [] then []
    else
      var step := steps[|steps| - 1];
      if step.Start? && Succeeds(step.bin, step.config, step.host) then Starters(steps[..|steps| - 1]) + [step.name]
      else Starters(steps[..|steps| - 1])
  }

  // The step ends the process with this number, which was started under this name.
  predicate Ends(step: Step, name: string, id: nat) {
    match step
    case Start(other, bin, config, host) => OneCore(other, name) && ReachesCore(bin, config, host)
    case Stop(other, swept) => OneCore(other, name) || (IsKnownCore(other) && id in swept)
    case Exit(ended) => ended == id
    case Wake(_) => false
  }

  // No step since its start ended it.
  predicate Survives(steps: seq<Step>, id: nat) {
    steps != [] &&
    var before := steps[..|steps| - 1];
    if id < |Starters(before)| then Survives(before, id) && !Ends(steps[|steps| - 1], Starters(before)[id], id)
    else id < |Starters(steps)|
  }

  lemma StartIsRecorded(s: System, name: string, bin: string, config: string, host: Host)
    requires Inv(s)
    ensures var t := StartStep(s, name, bin, config, host);
            && |t.started| == |s.started| + (if Succeeds(bin, config, host) then 1 else 0)
            && (forall id | 0 <= id < |s.started| :: t.started[id].core == s.started[id].core)
            && (Succeeds(bin, config, host) ==> t.started[|s.started|] == Process(Normalize(name), Running))
  {}

  lemma StepIsRecorded(s: System, step: Step)
    requires Inv(s)
    ensures var t := Next(s, step);
            && (forall id | 0 <= id < |s.started| :: id < |t.started| && t.started[id].core == s.started[id].core)
            && if step.Start? && Succeeds(step.bin, step.config, step.host) then
                 |t.started| == |s.started| + 1 && t.started[|s.started|] == Process(Normalize(step.name), Running)
               else |t.started| == |s.started|
  {
    if step.Start? { StartIsRecorded(s, step.name, step.bin, step.config, step.host); }
  }

  // Every process has the slot of the name it was started under.
  ghost predicate StartedAs(s: System, names: seq<string>) {
    |s.started| == |names| && forall id | 0 <= id < |names| :: s.started[id].core == Normalize(names[id])
  }

  lemma {:induction false} StartersAreStarted(steps: seq<Step>)
    ensures StartedAs(Run(INITIAL, steps), Starters(steps)) && Inv(Run(INITIAL, steps))
  {
    RunKeepsInv(INITIAL, steps);
    if steps != [] {
      var before := steps[..|steps| - 1];
      StartersAreStarted(before);
      StepIsRecorded(Run(INITIAL, before), steps[|steps| - 1]);
    }
  }

  predicate Alive(s: System, id: nat) { id < |s.started| && s.started[id].stage.Running? }

  lemma StepEnds(s: System, step: Step, id: nat, name: string)
    requires Inv(s) && id < |s.started| && s.started[id].core == Normalize(name)
    ensures Alive(Next(s, step), id) <==> Alive(s, id) && !Ends(step, name, id)
  {
    match step
    case Start(other, bin, config, host) =>
      NamesShareSlotIffOneCore(other, name);
      StartDecides(s, other, bin, config, host, Normalize(name));
      StepIsRecorded(s, step);
      assert Alive(Next(s, step), id) <==> id in Live(Next(s, step), Normalize(name));
      assert Alive(s, id) <==> id in Live(s, Normalize(name));
    case Stop(other, swept) =>
      NamesShareSlotIffOneCore(other, name);
      StopSpares(s, other, swept, id);
    case Exit(_) =>
    case Wake(_) =>
  }

  lemma StopSpares(s: System, name: string, swept: set<nat>, id: nat)
    requires Inv(s) && id < |s.started|
    ensures Alive(StopStep(s, name, swept), id) <==>
            Alive(s, id) && s.started[id].core != Normalize(name) && !(Recognized(Normalize(name)) && id in swept)
  {
    var core, other := Normalize(name), s.started[id].core;
    EvictEmpties(s, core, other);
    assert Alive(s, id) <==> id in Live(s, other);
    assert Alive(Evict(s, core), id) <==> id in Live(Evict(s, core), other);
  }

  /** A process is alive after a run iff no step since its start ended it: no stop and no start of its core
      that found binary and configuration, under any spelling, no sweep that hit it and no exit of its own. */
  lemma {:induction false} AliveIffNothingEndedIt(steps: seq<Step>, id: nat)
    ensures Alive(Run(INITIAL, steps), id) <==> Survives(steps, id)
  {
    if steps != [] {
      var before, step := steps[..|steps| - 1], steps[|steps| - 1];
      StartersAreStarted(before);
      StepIsRecorded(Run(INITIAL, before), step);
      if id < |Starters(before)| {
        AliveIffNothingEndedIt(before, id);
        StepEnds(Run(INITIAL, before), step, id, Starters(before)[id]);
      }
    }
  }

  /** Of all processes started under spellings of one core at most one is alive. */
  lemma OneLiveProcessPerCore(steps: seq<Step>, i: nat, j: nat)
    requires i < |Starters(steps)| && j < |Starters(steps)| && OneCore(Starters(steps)[i], Starters(steps)[j])
    requires Alive(Run(INITIAL, steps), i) && Alive(Run(INITIAL, steps), j)
    ensures i == j
  {
    var s := Run(INITIAL, steps);
    StartersAreStarted(steps);
    NamesShareSlotIffOneCore(Starters(steps)[i], Starters(steps)[j]);
    assert Tracked(s, i) && Tracked(s, j);
  }

  // The process has exited.
  predicate Exited(steps: seq<Step>, id: nat) {
    steps != [] &&
    var before := steps[..|steps| - 1];
    Exited(before, id) || (steps[|steps| - 1] == Exit(id) && id < |Starters(before)|)
  }

  // The process that the table names for a core: the last one started, until a stop, a start that does not
  // succeed, or the waiter that comes after its exit.
  function Holder(steps: seq<Step>, name: string): Option<nat> {
    if steps == [] then None
    else
      var before := steps[..|steps| - 1];
      var held := Holder(before, name);
      match steps[|steps| - 1]
      case Start(other, bin, config, host) =>
        if !OneCore(other, name) || !ReachesCore(bin, config, host) then held
        else if Succeeds(bin, config, host) then Some(|Starters(before)|)
        else None
      case Stop(other, _) => if OneCore(other, name) then None else held
      case Exit(_) => held
      case Wake(id) => if held == Some(id) && Exited(before, id) then None else held
  }

  lemma {:induction false} ExitedIsOver(steps: seq<Step>, id: nat)
    requires id < |Starters(steps)|
    ensures var s := Run(INITIAL, steps);
            && |s.started| == |Starters(steps)|
            && (Exited(steps, id) <==> s.started[id].stage.Gone? || s.started[id].stage.Reaped?)
  {
    var before := steps[..|steps| - 1];
    StartersAreStarted(before);
    StartersAreStarted(steps);
    StepIsRecorded(Run(INITIAL, before), steps[|steps| - 1]);
    if id < |Starters(before)| {
      ExitedIsOver(before, id);
      StepStage(Run(INITIAL, before), steps[|steps| - 1], id);
    } else {
      NotYetExited(before, id);
    }
  }

  lemma {:induction false} NotYetExited(steps: seq<Step>, id: nat)
    requires id >= |Starters(steps)|
    ensures !Exited(steps, id)
  {
    if steps != [] { NotYetExited(steps[..|steps| - 1], id); }
  }

  predicate IsOver(stage: Stage) { stage.Gone? || stage.Reaped? }

  // Only its exit ends a process for good.
  lemma StepStage(s: System, step: Step, id: nat)
    requires Inv(s) && id < |s.started| && id < |Next(s, step).started|
    ensures IsOver(Next(s, step).started[id].stage) <==> IsOver(s.started[id].stage) || step == Exit(id)
  {
    if step.Start? { StartLeavesTheRest(s, step, id); }
  }

  lemma StartLeavesTheRest(s: System, step: Step, id: nat)
    requires Inv(s) && step.Start? && id < |s.started|
    ensures id < |Next(s, step).started|
    ensures Next(s, step).started[id] == s.started[id] || Next(s, step).started[id] == Doom(s.started[id])
  {}

  lemma StepEntry(s: System, step: Step, name: string)
    requires Inv(s)
    ensures var core, t := Normalize(name), Next(s, step).table;
            Lookup(t, core) ==
            match step
            case Start(other, bin, config, host) =>
              if !OneCore(other, name) || !ReachesCore(bin, config, host) then Lookup(s.table, core)
              else if Succeeds(bin, config, host) then Some(|s.started|)
              else None
            case Stop(other, _) => if OneCore(other, name) then None else Lookup(s.table, core)
            case Exit(_) => Lookup(s.table, core)
            case Wake(id) =>
              if Lookup(s.table, core) == Some(id) && id < |s.started| && s.started[id].stage.Gone? then None
              else Lookup(s.table, core)
  {
    if step.Start? || step.Stop? { NamesShareSlotIffOneCore(step.name, name); }
    if step.Wake? && Lookup(s.table, Normalize(name)) == Some(step.id) {
      assert s.started[step.id].core == Normalize(name);
    }
  }

  /** What the table names for a core is told by the steps; so an entry goes when its process has ended, and
      no other waiter removes it. */
  lemma {:induction false} TableFollowsSteps(steps: seq<Step>, name: string)
    ensures Lookup(Run(INITIAL, steps).table, Normalize(name)) == Holder(steps, name)
  {
    if steps != [] {
      var before, step := steps[..|steps| - 1], steps[|steps| - 1];
      var s := Run(INITIAL, before);
      StartersAreStarted(before);
      TableFollowsSteps(before, name);
      StepEntry(s, step, name);
      if step.Wake? && Holder(before, name) == Some(step.id) { ExitedIsOver(before, step.id); }
    }
  }

  // The paths of the last start of a core, under any spelling, that found its binary.
  function LastAttempt(steps: seq<Step>, name: string): Option<(string, string)> {
    if steps == [] then None
    else
      var step := steps[|steps| - 1];
      if step.Start? && OneCore(step.name, name) && step.host.resolve(step.bin).Some? then
        Some((step.host.resolve(step.bin).value, step.config))
      else LastAttempt(steps[..|steps| - 1], name)
  }

  /** The paths a reload uses are those of the last start that found its binary, even if that
      start failed; stops and exits do not forget them. */
  lemma {:induction false} PathsAreTheLastAttempt(steps: seq<Step>, name: string)
    ensures var s, core := Run(INITIAL, steps), Normalize(name);
            match LastAttempt(steps, name)
            case None => core !in s.binPaths && core !in s.configPaths
            case Some(p) => Lookup(s.binPaths, core) == Some(p.0) && Lookup(s.configPaths, core) == Some(p.1)
  {
    if steps != [] {
      var step := steps[|steps| - 1];
      PathsAreTheLastAttempt(steps[..|steps| - 1], name);
      StepPaths(Run(INITIAL, steps[..|steps| - 1]), step, Normalize(name));
      if step.Start? { NamesShareSlotIffOneCore(step.name, name); }
    }
  }

  lemma StepPaths(s: System, step: Step, core: string)
    ensures var t := Next(s, step);
            if step.Start? && Normalize(step.name) == core && step.host.resolve(step.bin).Some? then
              Lookup(t.binPaths, core) == Some(step.host.resolve(step.bin).value) &&
              Lookup(t.configPaths, core) == Some(step.config)
            else Lookup(t.binPaths, core) == Lookup(s.binPaths, core) &&
                 Lookup(t.configPaths, core) == Lookup(s.configPaths, core)
  {
    if step.Start? {
      var resolved := step.host.resolve(step.bin);
      if resolved.Some? {
        StartPaths(s, step.name, step.bin, step.config, step.host);
      }
    }
  }

  lemma StartPaths(s: System, name: string, bin: string, config: string, host: Host)
    requires host.resolve(bin).Some?
    ensures var t := StartStep(s, name, bin, config, host);
            && t.binPaths == s.binPaths[Normalize(name) := host.resolve(bin).value]
            && t.configPaths == s.configPaths[Normalize(name) := config]
  {}

  /** A reload reads the paths, stops and starts in three locked sections.  Whatever other steps
      come between them, a successful one leaves its new process as the core's only live one,
      and a failing one leaves none unless a step in between started one. */
  lemma ReloadReplaces(steps: seq<Step>, name: string, swept: set<nat>, between: seq<Step>, bin: string,
                       config: string, host: Host)
    ensures var stopped := StopStep(Run(INITIAL, steps), name, swept);
            var before := Run(stopped, between);
            var after := StartStep(before, name, bin, config, host);
            && (Succeeds(bin, config, host) ==>
                  Live(after, Normalize(name)) == {|before.started|} &&
                  after.table[Normalize(name)] == |before.started|)
            && (!Succeeds(bin, config, host) ==>
                  forall id | id in Live(after, Normalize(name)) :: id >= |stopped.started|)
  {
    var core := Normalize(name);
    var s := Run(INITIAL, steps);
    RunKeepsInv(INITIAL, steps);
    StopEmpties(s, name, swept);
    StopKeepsInv(s, name, swept);
    var stopped := StopStep(s, name, swept);
    RunKeepsInv(stopped, between);
    RunAdvances(stopped, between);
    var before := Run(stopped, between);
    StartDecides(before, name, bin, config, host, core);
    forall id ensures id in Live(before, core) ==> id >= |stopped.started| || id in Live(stopped, core) {}
  }

  // ---------------------------------------------------------------------------------------
  // The manager
  // ---------------------------------------------------------------------------------------

  class ProcessManager {
    var started: seq<Process>
    var processes: map<string, nat>
    var binPaths: map<string, string>
    var configPaths: map<string, string>

    ghost function View(): System
      reads this
    {
      System(started, processes, binPaths, configPaths)
    }

    ghost predicate Valid()
      reads this
    {
      Inv(View())
    }

    constructor ()
      ensures Valid() && View() == INITIAL
    {
      started, processes, binPaths, configPaths := [], map[], map[], map[];
    }

    method Kill(id: nat)
      requires id < |started|
      modifies this`started
      ensures started == old(started)[id := Doom(old(started)[id])]
    {
      if started[id].stage == Running {
        started := started[id := started[id].(stage := Doomed)];
      }
    }

    method StartCore(name: string, bin: string, config: string, host: Host) returns (outcome: Outcome)
      requires Valid()
      modifies this
      ensures Valid() && View() == StartStep(old(View()), name, bin, config, host)
      ensures outcome == StartOutcome(bin, config, host)
    {
      ghost var before := View();
      StartKeepsInv(before, name, bin, config, host);
      var core := Normalize(name);
      var resolved := host.resolve(bin);
      if resolved.None? {
        return BinaryNotFound;
      }
      binPaths := binPaths[core := resolved.value];
      configPaths := configPaths[core := config];
      if config != "" {
        if !host.present(config) {
          return ConfigNotFound;
        }
      }
      if core in processes {
        Kill(processes[core]);
        processes := processes - {core};
      }
      assert View() == Evict(Record(before, core, resolved.value, config), core);
      if !host.authorized(resolved.value) {
        return Unauthorized;
      }
      if !host.starts {
        return StartFailed;
      }
      processes := processes[core := |started|];
      started := started + [Process(core, Running)];
      return Started;
    }

    method StopCore(name: string, swept: set<nat>)
      requires Valid()
      modifies this
      ensures Valid() && View() == StopStep(old(View()), name, swept)
    {
      StopKeepsInv(View(), name, swept);
      var core := Normalize(name);
      if core in processes {
        Kill(processes[core]);
        processes := processes - {core};
      }
      if Recognized(core) {
        KillAll(swept);
      }
    }

    method KillAll(swept: set<nat>)
      modifies this`started
      ensures View() == Sweep(old(View()), swept)
    {
      var i := 0;
      while i < |started|
        invariant 0 <= i <= |started| == |old(started)|
        invariant forall k | 0 <= k < |started| ::
                    started[k] == if k < i && k in swept then Doom(old(started)[k]) else old(started)[k]
      {
        if i in swept {
          Kill(i);
        }
        i := i + 1;
      }
    }

    // The end of the goroutine that waits for one process.
    method ProcessEnded(id: nat)
      requires Valid() && id < |started| && started[id].stage.Gone?
      modifies this
      ensures Valid() && View() == WakeStep(old(View()), id)
    {
      WakeKeepsInv(View(), id);
      var core := started[id].core;
      started := started[id := started[id].(stage := Reaped)];
      if core in processes && processes[core] == id {
        processes := processes - {core};
      }
    }

    method RestartCore(name: string, bin: string, config: string, swept: set<nat>, host: Host)
      returns (outcome: Outcome)
      requires Valid()
      modifies this
      ensures Valid() && View() == StartStep(StopStep(old(View()), name, swept), name, bin, config, host)
      ensures outcome == StartOutcome(bin, config, host)
    {
      StopCore(name, swept);
      outcome := StartCore(name, bin, config, host);
    }

    // None when no paths are known; the core then keeps running.
    method ReloadCore(name: string, swept: set<nat>, host: Host) returns (outcome: Option<Outcome>)
      requires Valid()
      modifies this
      ensures Valid()
      ensures var core := Normalize(name);
              var bin, config := Lookup(old(binPaths), core), Lookup(old(configPaths), core);
              if bin.Some? && config.Some? && bin.value != "" && config.value != "" then
                && outcome == Some(StartOutcome(bin.value, config.value, host))
                && View() == StartStep(StopStep(old(View()), name, swept), name, bin.value, config.value, host)
              else outcome == None && View() == old(View())
    {
      var core := Normalize(name);
      var bin := if core in binPaths then binPaths[core] else "";
      var config := if core in configPaths then configPaths[core] else "";
      if bin == "" || config == "" {
        return None;
      }
      var o := RestartCore(name, bin, config, swept, host);
      return Some(o);
    }
  }
}
