/** The fatal conditions of the harvest tool and the messages it exits with. */
module Errors {
  import opened Strings
  import opened Paths

  datatype Error =
    /** No SDK path was given on the command line or in the environment. */
    | MissingSdkPath
    /** The SDK path was given but does not exist on disk. */
    | SdkPathNotFound(path: Path)
    /** Requested scenario names that the registry does not know, in request order. */
    | UnknownScenarios(names: seq<string>)
    /** `importlib.import_module` could not load the scenario's module. */
    | ImportFailed(moduleName: string)
    /** The loaded module has no callable under the scenario's function name. */
    | MissingFunction(scenario: string, functionName: string, moduleName: string)
    /** The scenario's own handler raised while writing its fixture. */
    | ScenarioRaised(scenario: string)
  {
    /** Errors the tool itself raises as `SystemExit` with a message of its own. */
    predicate IsExit()
    {
      MissingSdkPath? || SdkPathNotFound? || UnknownScenarios? || MissingFunction?
    }
  }

  /** The text of the `SystemExit` raised for an exit error. */
  function Message(e: Error): string
    requires e.IsExit()
  {
    match e
    case MissingSdkPath =>
      "Path to the Python SDK is required. Pass --python-sdk or set CODEX_PYTHON_SDK_PATH."
    case SdkPathNotFound(p) => "Python SDK path does not exist: " + PathString(p)
    case UnknownScenarios(names) => "Unknown scenario(s): " + Join(names, ", ")
    case MissingFunction(s, f, m) => "Scenario " + s + " expected function " + f + " in module " + m
  }

  /** The unknown-scenario message names every unknown name, not only the first. */
  lemma UnknownMessageNamesAll(names: seq<string>)
    ensures forall i :: 0 <= i < |names| ==> IsInfix(names[i], Message(UnknownScenarios(names)))
  {
    forall i | 0 <= i < |names|
      ensures IsInfix(names[i], Message(UnknownScenarios(names)))
    {
      JoinContains(names, ", ", i);
      InfixOfConcat(names[i], "Unknown scenario(s): ", Join(names, ", "));
    }
  }

  /** The missing-function message names the scenario, the function and the module. */
  lemma MissingFunctionMessageNamesAll(scenario: string, functionName: string, moduleName: string)
    ensures var msg := Message(MissingFunction(scenario, functionName, moduleName));
      IsInfix(scenario, msg) && IsInfix(functionName, msg) && IsInfix(moduleName, msg)
  {
    var msg := Message(MissingFunction(scenario, functionName, moduleName));
    var a := "Scenario ";
    var b := " expected function ";
    var c := " in module ";
    assert msg == a + (scenario + (b + functionName + c + moduleName));
    InfixOfPrefix(scenario, b + functionName + c + moduleName);
    InfixOfConcat(scenario, a, scenario + (b + functionName + c + moduleName));
    assert msg == (a + scenario + b) + (functionName + (c + moduleName));
    InfixOfPrefix(functionName, c + moduleName);
    InfixOfConcat(functionName, a + scenario + b, functionName + (c + moduleName));
    assert msg == (a + scenario + b + functionName + c) + (moduleName + "");
    InfixOfPrefix(moduleName, "");
    InfixOfConcat(moduleName, a + scenario + b + functionName + c, moduleName + "");
  }
}
