/** `run_scenario`: resolve one scenario's handler and invoke it on its output path. */
module Runner {
  import opened Wrappers
  import opened Paths
  import opened Errors
  import opened Scenarios

  /** An opaque callable found in a scenario module. */
  datatype Handler = Handler(id: nat)

  /** One invocation `handler(output_path=outputPath, **kwargs)`. */
  datatype Call = Call(handler: Handler, outputPath: Path, kwargs: map<string, Path>)

  /** The observable steps of a harvest run, in the order they happen. */
  datatype Event =
    /** `sys.path.insert(0, entry)` */
    | SysPathPrepended(entry: Path)
    /** `dir.mkdir(parents=True, exist_ok=True)` */
    | DirCreated(dir: Path)
    /** A scenario handler was called. */
    | Invoked(call: Call)
    /** The final completion report. */
    | Completed

  /** What the tool cannot see and takes as given: which paths exist, what `Path.resolve`
      returns, which modules can be imported with which attributes, and which handler
      calls raise. An attribute that is bound to None is absent from its module's map. */
  datatype World = World(
    existing: set<Path>,
    resolve: Path -> Path,
    modules: map<string, map<string, Handler>>,
    raising: set<Call>)

  /** The events and the final outcome of (part of) a run. */
  datatype Run = Run(events: seq<Event>, outcome: Outcome<Error>)

  /** The fixture file of scenario `name`: `dir / f"{name}.jsonl"`. */
  function OutputPath(dir: Path, name: string): (p: Path)
    ensures Parent(p) == dir
  {
    ParentOfChild(dir, name + ".jsonl");
    Child(dir, name + ".jsonl")
  }

  /** Distinct scenario names give distinct fixture files in the same directory. */
  lemma OutputPathInjective(dir: Path, a: string, b: string)
    requires OutputPath(dir, a) == OutputPath(dir, b)
    ensures a == b
  {
    ChildInjective(dir, a + ".jsonl", b + ".jsonl");
    assert (a + ".jsonl")[..|a|] == a;
    assert (b + ".jsonl")[..|b|] == b;
  }

  /** The handler arguments for an optional override: `codex_path` is a key exactly when an
      override was supplied, it then holds that override, and there is no other key. */
  ghost predicate ForwardsOverride(kwargs: map<string, Path>, codexPath: Option<Path>)
  {
    && ("codex_path" in kwargs <==> codexPath.Some?)
    && (forall k :: k in kwargs ==> k == "codex_path")
    && (codexPath.Some? ==> kwargs["codex_path"] == codexPath.value)
  }

  /** The scenario's module can be imported and defines the scenario's function. */
  ghost predicate Resolvable(s: Scenario, world: World)
  {
    s.moduleName in world.modules && s.functionName in world.modules[s.moduleName]
  }

  /** The call `run_scenario` makes once the handler is found. */
  function ScenarioCall(s: Scenario, dir: Path, codexPath: Option<Path>, world: World): Call
    requires Resolvable(s, world)
  {
    var kwargs := if codexPath.Some? then map["codex_path" := codexPath.value] else map[];
    Call(world.modules[s.moduleName][s.functionName], OutputPath(dir, s.name), kwargs)
  }

  /** The specification of `run_scenario(s, dir, codexPath)`. */
  function ScenarioRun(s: Scenario, dir: Path, codexPath: Option<Path>, world: World): Run
  {
    if s.moduleName !in world.modules then
      Run([], Fail(ImportFailed(s.moduleName)))
    else if s.functionName !in world.modules[s.moduleName] then
      Run([], Fail(MissingFunction(s.name, s.functionName, s.moduleName)))
    else
      var call := ScenarioCall(s, dir, codexPath, world);
      Run([DirCreated(dir), DirCreated(dir), Invoked(call)],
          if call in world.raising then Fail(ScenarioRaised(s.name)) else Pass)
  }

  /** Runs one scenario: import its module, look up its function, create the output
      directory, build the keyword arguments and call the handler once. */
  method RunScenario(s: Scenario, outputDir: Path, codexPath: Option<Path>, world: World)
    returns (events: seq<Event>, outcome: Outcome<Error>)
    ensures Run(events, outcome) == ScenarioRun(s, outputDir, codexPath, world)
    ensures s.moduleName !in world.modules ==>
      events == [] && outcome == Fail(ImportFailed(s.moduleName))
    ensures s.moduleName in world.modules && s.functionName !in world.modules[s.moduleName] ==>
      events == [] && outcome == Fail(MissingFunction(s.name, s.functionName, s.moduleName))
    ensures Resolvable(s, world) ==>
      && |events| == 3 && events[2].Invoked?
      && events[2].call.handler == world.modules[s.moduleName][s.functionName]
      && events[2].call.outputPath == OutputPath(outputDir, s.name)
      && ForwardsOverride(events[2].call.kwargs, codexPath)
      && (outcome.Pass? <==> events[2].call !in world.raising)
  {
    if s.moduleName !in world.modules {
      return [], Fail(ImportFailed(s.moduleName));
    }
    var attributes := world.modules[s.moduleName];
    if s.functionName !in attributes {
      return [], Fail(MissingFunction(s.name, s.functionName, s.moduleName));
    }
    var handler := attributes[s.functionName];

    events := [DirCreated(outputDir)];
    var outputPath := OutputPath(outputDir, s.name);
    events := events + [DirCreated(Parent(outputPath))];

    var kwargs: map<string, Path> := map[];
    if codexPath.Some? {
      kwargs := kwargs["codex_path" := codexPath.value];
    }

    var call := Call(handler, outputPath, kwargs);
    events := events + [Invoked(call)];
    outcome := if call in world.raising then Fail(ScenarioRaised(s.name)) else Pass;
  }
}
