/** `ensure_python_path` and `main`: check the SDK path, select, run each scenario in order,
    report completion. */
module Driver {
  import opened Wrappers
  import opened Strings
  import opened Paths
  import opened Errors
  import opened Scenarios
  import opened Runner

  /** The parsed command line: `--python-sdk` (or its environment fallback), `--output`,
      `--codex-path` and the repeated `--scenario` names. */
  datatype Config = Config(
    pythonSdk: Option<Path>,
    output: Path,
    codexPath: Option<Path>,
    scenarios: seq<string>)

  /** The specification of `ensure_python_path`. */
  function SdkCheck(pythonSdk: Option<Path>, world: World): Run
  {
    match pythonSdk
    case None => Run([], Fail(MissingSdkPath))
    case Some(sdk) =>
      if sdk !in world.existing then Run([], Fail(SdkPathNotFound(sdk)))
      else Run([SysPathPrepended(world.resolve(sdk))], Pass)
  }

  /** Checks that an SDK path was given and exists, then puts its resolved form first on
      the module search path. */
  method EnsurePythonPath(pythonSdk: Option<Path>, world: World)
    returns (events: seq<Event>, outcome: Outcome<Error>)
    ensures Run(events, outcome) == SdkCheck(pythonSdk, world)
    ensures pythonSdk.None? ==> events == [] && outcome == Fail(MissingSdkPath)
    ensures pythonSdk.Some? && pythonSdk.value !in world.existing ==>
      events == [] && outcome == Fail(SdkPathNotFound(pythonSdk.value))
    ensures pythonSdk.Some? && pythonSdk.value in world.existing ==>
      events == [SysPathPrepended(world.resolve(pythonSdk.value))] && outcome == Pass
  {
    if pythonSdk.None? {
      return [], Fail(MissingSdkPath);
    }
    var sdk := pythonSdk.value;
    if sdk !in world.existing {
      return [], Fail(SdkPathNotFound(sdk));
    }
    events := [SysPathPrepended(world.resolve(sdk))];
    outcome := Pass;
  }

  /** The `for scenario in scenarios` loop of `main` followed by the completion report:
      each scenario runs in turn, the first failure ends the run. */
  function RunAll(scenarios: seq<Scenario>, dir: Path, codexPath: Option<Path>, world: World): Run
    decreases |scenarios|
  {
    if scenarios == [] then Run([Completed], Pass)
    else
      var first := ScenarioRun(scenarios[0], dir, codexPath, world);
      if first.outcome.Fail? then first
      else
        var rest := RunAll(scenarios[1..], dir, codexPath, world);
        Run(first.events + rest.events, rest.outcome)
  }

  /** The specification of `main` after argument parsing. */
  function Harvested(config: Config, world: World): Run
  {
    var check := SdkCheck(config.pythonSdk, world);
    if check.outcome.Fail? then check
    else
      match Select(config.scenarios, Registry)
      case Failure(e) => Run(check.events, Fail(e))
      case Success(selected) =>
        var rest := RunAll(selected, world.resolve(config.output), config.codexPath, world);
        Run(check.events + rest.events, rest.outcome)
  }

  /** `main`: validate the SDK path, select, then run the selection in order. */
  method Harvest(config: Config, world: World) returns (trace: seq<Event>, outcome: Outcome<Error>)
    ensures Run(trace, outcome) == Harvested(config, world)
  {
    trace, outcome := EnsurePythonPath(config.pythonSdk, world);
    if outcome.Fail? {
      return;
    }
    var outputDir := world.resolve(config.output);
    var selection := Select(config.scenarios, Registry);
    if selection.Failure? {
      outcome := Fail(selection.error);
      return;
    }
    var scenarios := selection.value;
    ghost var whole := RunAll(scenarios, outputDir, config.codexPath, world);
    ghost var prefix := trace;
    var i := 0;
    while i < |scenarios|
      invariant 0 <= i <= |scenarios|
      invariant trace + RunAll(scenarios[i..], outputDir, config.codexPath, world).events
                == prefix + whole.events
      invariant RunAll(scenarios[i..], outputDir, config.codexPath, world).outcome == whole.outcome
    {
      var events, result := RunScenario(scenarios[i], outputDir, config.codexPath, world);
      assert scenarios[i..][0] == scenarios[i] && scenarios[i..][1..] == scenarios[i + 1..];
      trace := trace + events;
      if result.Fail? {
        outcome := result;
        return;
      }
      i := i + 1;
    }
    trace := trace + [Completed];
    outcome := Pass;
  }

  /** The handler calls of a trace, in call order. */
  function InvokedCalls(events: seq<Event>): seq<Call>
    decreases |events|
  {
    if events == [] then []
    else (if events[0].Invoked? then [events[0].call] else []) + InvokedCalls(events[1..])
  }

  /** The fixture files of the handler calls in a trace, in call order. */
  function InvokedPaths(events: seq<Event>): (ps: seq<Path>)
    ensures |ps| == |InvokedCalls(events)|
    ensures forall i :: 0 <= i < |ps| ==> ps[i] == InvokedCalls(events)[i].outputPath
  {
    var calls := InvokedCalls(events);
    seq(|calls|, i requires 0 <= i < |calls| => calls[i].outputPath)
  }

  /** The calls `run_scenario` makes for a fully resolvable selection, in selection order. */
  function SelectionCalls(scenarios: seq<Scenario>, dir: Path, codexPath: Option<Path>, world: World): (cs: seq<Call>)
    requires forall s :: s in scenarios ==> Resolvable(s, world)
    ensures |cs| == |scenarios|
    ensures forall i :: 0 <= i < |scenarios| ==> cs[i] == ScenarioCall(scenarios[i], dir, codexPath, world)
    decreases |scenarios|
  {
    if scenarios == [] then []
    else
      assert scenarios[0] in scenarios;
      assert forall s :: s in scenarios[1..] ==> s in scenarios;
      [ScenarioCall(scenarios[0], dir, codexPath, world)] + SelectionCalls(scenarios[1..], dir, codexPath, world)
  }

  /** The fixture files of a selection, in selection order. */
  function OutputPaths(dir: Path, scenarios: seq<Scenario>): (ps: seq<Path>)
    ensures |ps| == |scenarios|
    ensures forall i :: 0 <= i < |scenarios| ==> ps[i] == OutputPath(dir, scenarios[i].name)
    decreases |scenarios|
  {
    if scenarios == [] then [] else [OutputPath(dir, scenarios[0].name)] + OutputPaths(dir, scenarios[1..])
  }

  lemma {:induction false} InvokedCallsAppend(a: seq<Event>, b: seq<Event>)
    ensures InvokedCalls(a + b) == InvokedCalls(a) + InvokedCalls(b)
    decreases |a|
  {
    if a == [] {
      assert a + b == b;
    } else {
      assert (a + b)[0] == a[0] && (a + b)[1..] == a[1..] + b;
      InvokedCallsAppend(a[1..], b);
    }
  }

  lemma InvokedPathsAppend(a: seq<Event>, b: seq<Event>)
    ensures InvokedPaths(a + b) == InvokedPaths(a) + InvokedPaths(b)
  {
    InvokedCallsAppend(a, b);
    var x, y := InvokedPaths(a + b), InvokedPaths(a) + InvokedPaths(b);
    assert forall i :: 0 <= i < |x| ==> x[i] == y[i];
  }

  /** The calls of one scenario run: none when its handler is not found, else exactly the one
      call `run_scenario` builds for it; a passing run found its handler. */
  lemma ScenarioRunInvokedCalls(s: Scenario, dir: Path, codexPath: Option<Path>, world: World)
    ensures InvokedCalls(ScenarioRun(s, dir, codexPath, world).events) ==
      if Resolvable(s, world) then [ScenarioCall(s, dir, codexPath, world)] else []
    ensures ScenarioRun(s, dir, codexPath, world).outcome.Pass? ==> Resolvable(s, world)
  {
    if Resolvable(s, world) {
      var es := ScenarioRun(s, dir, codexPath, world).events;
      assert es[1..][1..] == [es[2]] && [es[2]][1..] == [];
      calc {
        InvokedCalls(es);
        InvokedCalls(es[1..]);
        InvokedCalls([es[2]]);
        [ScenarioCall(s, dir, codexPath, world)] + InvokedCalls([]);
      }
    }
  }

  /** The fixture files one scenario run calls on: its own when its handler is found, else none. */
  lemma ScenarioRunInvokedPaths(s: Scenario, dir: Path, codexPath: Option<Path>, world: World)
    ensures InvokedPaths(ScenarioRun(s, dir, codexPath, world).events) ==
      if Resolvable(s, world) then [OutputPath(dir, s.name)] else []
  {
    ScenarioRunInvokedCalls(s, dir, codexPath, world);
  }

  /** A passing loop resolved every selected scenario and called, in selection order, each
      one's own handler on its own fixture file with the forwarded keyword arguments. */
  lemma {:induction false} RunAllCalls(scenarios: seq<Scenario>, dir: Path, codexPath: Option<Path>, world: World)
    requires RunAll(scenarios, dir, codexPath, world).outcome.Pass?
    ensures forall s :: s in scenarios ==> Resolvable(s, world)
    ensures InvokedCalls(RunAll(scenarios, dir, codexPath, world).events) ==
      SelectionCalls(scenarios, dir, codexPath, world)
    decreases |scenarios|
  {
    if scenarios == [] {
      assert InvokedCalls([Completed]) == InvokedCalls([Completed][1..]);
    } else {
      var first := ScenarioRun(scenarios[0], dir, codexPath, world);
      ScenarioRunInvokedCalls(scenarios[0], dir, codexPath, world);
      var rest := RunAll(scenarios[1..], dir, codexPath, world);
      RunAllCalls(scenarios[1..], dir, codexPath, world);
      InvokedCallsAppend(first.events, rest.events);
      assert forall s :: s in scenarios ==> s == scenarios[0] || s in scenarios[1..];
    }
  }

  /** The loop stops at the first failing scenario and reports its error; the run passes
      exactly when every selected scenario passes. */
  lemma {:induction false} RunAllOutcome(scenarios: seq<Scenario>, dir: Path, codexPath: Option<Path>, world: World)
    ensures var r := RunAll(scenarios, dir, codexPath, world);
      && (r.outcome.Pass? <==>
            forall i :: 0 <= i < |scenarios| ==> ScenarioRun(scenarios[i], dir, codexPath, world).outcome.Pass?)
      && (r.outcome.Fail? ==>
            exists k :: 0 <= k < |scenarios|
              && (forall j :: 0 <= j < k ==> ScenarioRun(scenarios[j], dir, codexPath, world).outcome.Pass?)
              && r.outcome == ScenarioRun(scenarios[k], dir, codexPath, world).outcome)
    decreases |scenarios|
  {
    if scenarios != [] {
      var first := ScenarioRun(scenarios[0], dir, codexPath, world);
      if first.outcome.Pass? {
        var rest := scenarios[1..];
        RunAllOutcome(rest, dir, codexPath, world);
        assert forall i :: 1 <= i < |scenarios| ==> scenarios[i] == rest[i - 1];
        if RunAll(rest, dir, codexPath, world).outcome.Fail? {
          var k :| 0 <= k < |rest|
            && (forall j :: 0 <= j < k ==> ScenarioRun(rest[j], dir, codexPath, world).outcome.Pass?)
            && RunAll(rest, dir, codexPath, world).outcome == ScenarioRun(rest[k], dir, codexPath, world).outcome;
          assert scenarios[k + 1] == rest[k];
        }
      }
    }
  }

  /** "completed" is reported only after a fully successful run, and then as the last event. */
  lemma {:induction false} RunAllCompleted(scenarios: seq<Scenario>, dir: Path, codexPath: Option<Path>, world: World)
    ensures var r := RunAll(scenarios, dir, codexPath, world);
      && (Completed in r.events <==> r.outcome.Pass?)
      && (r.outcome.Pass? ==> r.events != [] && r.events[|r.events| - 1] == Completed)
    decreases |scenarios|
  {
    if scenarios != [] {
      var first := ScenarioRun(scenarios[0], dir, codexPath, world);
      assert Completed !in first.events;
      if first.outcome.Pass? {
        RunAllCompleted(scenarios[1..], dir, codexPath, world);
      }
    }
  }

  /** Handlers are called strictly in selection order: the called fixture files are a prefix
      of the selection's fixture files, and all of them when the run passes. */
  lemma {:induction false} RunAllInvocationOrder(scenarios: seq<Scenario>, dir: Path, codexPath: Option<Path>, world: World)
    ensures var r := RunAll(scenarios, dir, codexPath, world);
      && InvokedPaths(r.events) <= OutputPaths(dir, scenarios)
      && (r.outcome.Pass? ==> InvokedPaths(r.events) == OutputPaths(dir, scenarios))
    decreases |scenarios|
  {
    if scenarios == [] {
      assert InvokedCalls([Completed]) == InvokedCalls([Completed][1..]);
    } else {
      var s := scenarios[0];
      var first := ScenarioRun(s, dir, codexPath, world);
      ScenarioRunInvokedPaths(s, dir, codexPath, world);
      var rest := RunAll(scenarios[1..], dir, codexPath, world);
      RunAllInvocationOrder(scenarios[1..], dir, codexPath, world);
      if first.outcome.Pass? {
        InvokedPathsAppend(first.events, rest.events);
      }
    }
  }

  /** A failure at position k ends the loop: its error is the loop's, no scenario after k is
      called, and "completed" is not reported. */
  lemma {:induction false} RunAllStopsAtFirstFailure(scenarios: seq<Scenario>, dir: Path, codexPath: Option<Path>,
                                                     world: World, k: int)
    requires 0 <= k < |scenarios|
    requires forall j :: 0 <= j < k ==> ScenarioRun(scenarios[j], dir, codexPath, world).outcome.Pass?
    requires ScenarioRun(scenarios[k], dir, codexPath, world).outcome.Fail?
    ensures var r := RunAll(scenarios, dir, codexPath, world);
      && r.outcome == ScenarioRun(scenarios[k], dir, codexPath, world).outcome
      && InvokedPaths(r.events) <= OutputPaths(dir, scenarios[..k + 1])
      && Completed !in r.events
    decreases k
  {
    if k == 0 {
      var first := ScenarioRun(scenarios[0], dir, codexPath, world);
      ScenarioRunInvokedPaths(scenarios[0], dir, codexPath, world);
      OutputPathsCons(dir, scenarios, 0);
      assert RunAll(scenarios, dir, codexPath, world) == first;
    } else {
      var tail := scenarios[1..];
      forall j | 0 <= j < k - 1
        ensures ScenarioRun(tail[j], dir, codexPath, world).outcome.Pass?
      {
        assert tail[j] == scenarios[j + 1];
      }
      assert tail[k - 1] == scenarios[k];
      RunAllStopsAtFirstFailure(tail, dir, codexPath, world, k - 1);
      RunAllStopStep(scenarios, dir, codexPath, world, k);
    }
  }

  /** The step of the induction above: a passing first scenario followed by a loop over the
      rest that stopped at position k - 1. */
  lemma RunAllStopStep(scenarios: seq<Scenario>, dir: Path, codexPath: Option<Path>, world: World, k: int)
    requires 0 < k < |scenarios|
    requires ScenarioRun(scenarios[0], dir, codexPath, world).outcome.Pass?
    requires var rest := RunAll(scenarios[1..], dir, codexPath, world);
      && rest.outcome == ScenarioRun(scenarios[k], dir, codexPath, world).outcome
      && InvokedPaths(rest.events) <= OutputPaths(dir, scenarios[1..][..k])
      && Completed !in rest.events
    ensures var r := RunAll(scenarios, dir, codexPath, world);
      && r.outcome == ScenarioRun(scenarios[k], dir, codexPath, world).outcome
      && InvokedPaths(r.events) <= OutputPaths(dir, scenarios[..k + 1])
      && Completed !in r.events
  {
    var first := ScenarioRun(scenarios[0], dir, codexPath, world);
    var rest := RunAll(scenarios[1..], dir, codexPath, world);
    ScenarioRunInvokedCalls(scenarios[0], dir, codexPath, world);
    ScenarioRunInvokedPaths(scenarios[0], dir, codexPath, world);
    OutputPathsCons(dir, scenarios, k);
    assert RunAll(scenarios, dir, codexPath, world) == Run(first.events + rest.events, rest.outcome);
    assert Completed !in first.events;
    InvokedPathsStep(OutputPath(dir, scenarios[0].name), first.events, rest.events,
                     OutputPaths(dir, scenarios[1..][..k]));
  }

  /** The fixture files of a selection's first k + 1 scenarios: the first one's, then the next k. */
  lemma OutputPathsCons(dir: Path, scenarios: seq<Scenario>, k: int)
    requires 0 <= k < |scenarios|
    ensures OutputPaths(dir, scenarios[..k + 1]) ==
      [OutputPath(dir, scenarios[0].name)] + OutputPaths(dir, scenarios[1..][..k])
  {
    assert scenarios[..k + 1][0] == scenarios[0] && scenarios[..k + 1][1..] == scenarios[1..][..k];
  }

  /** A run that calls on `p` and then on a prefix of `files` calls on a prefix of `[p] + files`. */
  lemma InvokedPathsStep(p: Path, a: seq<Event>, b: seq<Event>, files: seq<Path>)
    requires InvokedPaths(a) == [p] && InvokedPaths(b) <= files
    ensures InvokedPaths(a + b) <= [p] + files
  {
    InvokedPathsAppend(a, b);
    assert ([p] + files)[..|InvokedPaths(b)| + 1] == [p] + files[..|InvokedPaths(b)|];
  }

  /** Every handler call of the loop forwards the override exactly when one was supplied. */
  lemma {:induction false} RunAllForwardsOverride(scenarios: seq<Scenario>, dir: Path, codexPath: Option<Path>, world: World)
    ensures forall e :: e in RunAll(scenarios, dir, codexPath, world).events && e.Invoked? ==>
      ForwardsOverride(e.call.kwargs, codexPath)
    decreases |scenarios|
  {
    if scenarios != [] {
      var first := ScenarioRun(scenarios[0], dir, codexPath, world);
      if first.outcome.Pass? {
        RunAllForwardsOverride(scenarios[1..], dir, codexPath, world);
      }
    }
  }

  /** Every listed scenario resolves, and none of the calls made for them raises. */
  ghost predicate Healthy(scenarios: seq<Scenario>, dir: Path, codexPath: Option<Path>, world: World)
  {
    forall s :: s in scenarios ==>
      Resolvable(s, world) && ScenarioCall(s, dir, codexPath, world) !in world.raising
  }

  /** When every selected scenario resolves and none of their calls raises, the loop passes
      and calls each scenario's own handler once, on its own fixture file, in selection order. */
  lemma {:induction false} RunAllHealthy(scenarios: seq<Scenario>, dir: Path, codexPath: Option<Path>, world: World)
    requires Healthy(scenarios, dir, codexPath, world)
    ensures RunAll(scenarios, dir, codexPath, world).outcome == Pass
    ensures InvokedPaths(RunAll(scenarios, dir, codexPath, world).events) == OutputPaths(dir, scenarios)
    ensures InvokedCalls(RunAll(scenarios, dir, codexPath, world).events) ==
      SelectionCalls(scenarios, dir, codexPath, world)
    decreases |scenarios|
  {
    if scenarios != [] {
      assert scenarios[0] in scenarios;
      assert forall s :: s in scenarios[1..] ==> s in scenarios;
      RunAllHealthy(scenarios[1..], dir, codexPath, world);
    }
    RunAllInvocationOrder(scenarios, dir, codexPath, world);
    RunAllCalls(scenarios, dir, codexPath, world);
  }

  /** A missing or non-existent SDK path, or an unknown scenario name, ends the run before
      any scenario module is touched: no handler is called and nothing completes. */
  lemma HarvestFailsFast(config: Config, world: World)
    requires || config.pythonSdk.None?
             || config.pythonSdk.value !in world.existing
             || Select(config.scenarios, Registry).Failure?
    ensures var r := Harvested(config, world);
      && r.outcome.Fail?
      && InvokedPaths(r.events) == []
      && Completed !in r.events
      && (config.pythonSdk.None? ==> r == Run([], Fail(MissingSdkPath)))
  {
    var check := SdkCheck(config.pythonSdk, world);
    assert InvokedCalls(check.events) == [] by {
      if check.events != [] {
        assert InvokedCalls(check.events) == InvokedCalls(check.events[1..]);
      }
    }
  }

  /** "completed" is reported exactly when the whole run passes; the run then has called,
      in selection order, the handler of every selected scenario on its fixture file. */
  lemma HarvestCompleted(config: Config, world: World)
    ensures var r := Harvested(config, world);
      && (Completed in r.events <==> r.outcome.Pass?)
      && (r.outcome.Pass? ==>
            && Select(config.scenarios, Registry).Success?
            && InvokedPaths(r.events) ==
                 OutputPaths(world.resolve(config.output), Select(config.scenarios, Registry).value)
            && (forall s :: s in Select(config.scenarios, Registry).value ==> Resolvable(s, world))
            && InvokedCalls(r.events) ==
                 SelectionCalls(Select(config.scenarios, Registry).value, world.resolve(config.output),
                                config.codexPath, world)
            && r.events[|r.events| - 1] == Completed)
  {
    var r := Harvested(config, world);
    var check := SdkCheck(config.pythonSdk, world);
    if check.outcome.Pass? && Select(config.scenarios, Registry).Success? {
      var selected := Select(config.scenarios, Registry).value;
      var dir := world.resolve(config.output);
      var rest := RunAll(selected, dir, config.codexPath, world);
      RunAllCompleted(selected, dir, config.codexPath, world);
      RunAllInvocationOrder(selected, dir, config.codexPath, world);
      assert InvokedCalls(check.events) == InvokedCalls(check.events[1..]);
      InvokedPathsAppend(check.events, rest.events);
      if rest.outcome.Pass? {
        RunAllCalls(selected, dir, config.codexPath, world);
        InvokedCallsAppend(check.events, rest.events);
      }
    } else if check.outcome.Pass? {
      assert Completed !in check.events;
    }
  }

  /** Every handler call of a run forwards `--codex-path` exactly when it was given. */
  lemma HarvestForwardsOverride(config: Config, world: World)
    ensures forall e :: e in Harvested(config, world).events && e.Invoked? ==>
      ForwardsOverride(e.call.kwargs, config.codexPath)
  {
    var check := SdkCheck(config.pythonSdk, world);
    if check.outcome.Pass? && Select(config.scenarios, Registry).Success? {
      var selected := Select(config.scenarios, Registry).value;
      RunAllForwardsOverride(selected, world.resolve(config.output), config.codexPath, world);
    }
  }

  /** The registry's fixture files are pairwise distinct. */
  lemma RegistryOutputPathsDistinct(dir: Path, i: int, j: int)
    requires 0 <= i < j < |Registry|
    ensures OutputPath(dir, Registry[i].name) != OutputPath(dir, Registry[j].name)
  {
  }

  /** Requesting only `thread_basic` calls exactly one handler, on `<output>/thread_basic.jsonl`,
      whether or not it raises; the run passes exactly when that call does not raise. */
  lemma ExampleSingleScenario(config: Config, world: World)
    requires config.pythonSdk.Some? && config.pythonSdk.value in world.existing
    requires config.scenarios == ["thread_basic"]
    requires Resolvable(Registry[0], world)
    ensures InvokedPaths(Harvested(config, world).events) ==
      [OutputPath(world.resolve(config.output), "thread_basic")]
    ensures Harvested(config, world).outcome.Pass? <==>
      ScenarioCall(Registry[0], world.resolve(config.output), config.codexPath, world) !in world.raising
  {
    var sel := Select(config.scenarios, Registry);
    assert Registry[0].name == "thread_basic";
    assert "thread_basic" in Names(Registry);
    RegistryNamesUnique();
    SelectPicksRegisteredEntry(config.scenarios, Registry, 0, 0);
    assert sel.value == [Registry[0]];
    var dir := world.resolve(config.output);
    var s := Registry[0];
    var first := ScenarioRun(s, dir, config.codexPath, world);
    ScenarioRunInvokedPaths(s, dir, config.codexPath, world);
    var r := RunAll([s], dir, config.codexPath, world);
    assert InvokedPaths(first.events) == [OutputPath(dir, "thread_basic")];
    if first.outcome.Pass? {
      assert [s][1..] == [];
      assert RunAll([s][1..], dir, config.codexPath, world) == Run([Completed], Pass);
      assert r.events == first.events + [Completed];
      assert InvokedCalls([Completed]) == InvokedCalls([Completed][1..]);
      assert InvokedPaths([Completed]) == [];
      InvokedPathsAppend(first.events, [Completed]);
    } else {
      assert r == first;
    }
    assert InvokedPaths(r.events) == [OutputPath(dir, "thread_basic")];
    var check := SdkCheck(config.pythonSdk, world);
    assert InvokedCalls(check.events) == InvokedCalls(check.events[1..]);
    assert InvokedPaths(check.events) == [];
    assert Harvested(config, world) == Run(check.events + r.events, r.outcome);
    InvokedPathsAppend(check.events, r.events);
  }

  /** Requesting `nope` fails before any handler is called, with a message naming it. */
  lemma ExampleUnknownScenario(config: Config, world: World)
    requires config.pythonSdk.Some? && config.pythonSdk.value in world.existing
    requires config.scenarios == ["nope"]
    ensures Harvested(config, world).outcome == Fail(UnknownScenarios(["nope"]))
    ensures InvokedPaths(Harvested(config, world).events) == []
    ensures IsInfix("nope", Message(UnknownScenarios(["nope"])))
  {
    assert "nope" !in Names(Registry);
    UnknownSingleton("nope", Lookup(Registry));
    HarvestFailsFast(config, world);
    UnknownMessageNamesAll(["nope"]);
  }

  /** With neither the flag nor the environment variable, the run fails with no event at all. */
  lemma ExampleMissingSdk(config: Config, world: World)
    requires config.pythonSdk.None?
    ensures Harvested(config, world) == Run([], Fail(MissingSdkPath))
  {
  }

  /** An empty request runs all four registry scenarios in registration order, each on a
      fixture file of its own. */
  lemma ExampleRunAll(config: Config, world: World)
    requires config.pythonSdk.Some? && config.pythonSdk.value in world.existing
    requires config.scenarios == []
    requires Healthy(Registry, world.resolve(config.output), config.codexPath, world)
    ensures Harvested(config, world).outcome == Pass
    ensures var paths := InvokedPaths(Harvested(config, world).events);
      && paths == OutputPaths(world.resolve(config.output), Registry)
      && |paths| == 4
      && forall i, j :: 0 <= i < j < |paths| ==> paths[i] != paths[j]
  {
    var dir := world.resolve(config.output);
    RunAllHealthy(Registry, dir, config.codexPath, world);
    HarvestCompleted(config, world);
    forall i, j | 0 <= i < j < |Registry|
      ensures OutputPaths(dir, Registry)[i] != OutputPaths(dir, Registry)[j]
    {
      RegistryOutputPathsDistinct(dir, i, j);
    }
  }
}
