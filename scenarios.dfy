/** The scenario registry and the rule that selects scenarios from it by name. */
module Scenarios {
  import opened Wrappers
  import opened Errors

  /** The entry point a scenario module is expected to define unless stated otherwise. */
  const DefaultFunction: string := "record"

  /** An immutable registry record: the scenario's name, its module, the callable to invoke
      in that module and a free-text description. */
  datatype Scenario = Scenario(name: string, moduleName: string, functionName: string, description: string)

  /** The registry, in registration order; every entry uses the default entry point. */
  const Registry: seq<Scenario> := [
    Scenario("thread_basic", "harvest_scenarios.thread_basic", DefaultFunction,
             "Simple thread start + single turn execution."),
    Scenario("thread_with_tool_retry", "harvest_scenarios.thread_with_tool_retry", DefaultFunction,
             "Thread that exercises tool invocation and auto-run retry loop."),
    Scenario("structured_output_success", "harvest_scenarios.structured_output_success", DefaultFunction,
             "Structured output with valid JSON payload."),
    Scenario("sandbox_approval_denied", "harvest_scenarios.sandbox_approval_denied", DefaultFunction,
             "Approval workflow where a command is denied.")
  ]

  /** The names of a registry, in registration order. */
  function Names(registry: seq<Scenario>): (ns: seq<string>)
    ensures |ns| == |registry|
    ensures forall i :: 0 <= i < |registry| ==> ns[i] == registry[i].name
  {
    seq(|registry|, i requires 0 <= i < |registry| => registry[i].name)
  }

  /** No two registry entries share a name. */
  ghost predicate UniqueNames(registry: seq<Scenario>)
  {
    forall i, j :: 0 <= i < j < |registry| ==> registry[i].name != registry[j].name
  }

  /** The dict `{s.name: s for s in registry}`: inserted in registration order, so a later
      entry with a repeated name replaces an earlier one. */
  function Lookup(registry: seq<Scenario>): (m: map<string, Scenario>)
    ensures forall n :: n in m <==> n in Names(registry)
    ensures forall n :: n in m ==> m[n] in registry && m[n].name == n
    decreases |registry|
  {
    if registry == [] then map[]
    else
      var init := registry[..|registry| - 1];
      var last := registry[|registry| - 1];
      assert registry == init + [last];
      assert Names(registry) == Names(init) + [last.name];
      Lookup(init)[last.name := last]
  }

  /** `[name for name in requested if name not in lookup]`. */
  function Unknown<V>(requested: seq<string>, lookup: map<string, V>): (u: seq<string>)
    ensures |u| <= |requested|
    ensures forall n :: n in u <==> n in requested && n !in lookup
    decreases |requested|
  {
    if requested == [] then []
    else (if requested[0] in lookup then [] else [requested[0]]) + Unknown(requested[1..], lookup)
  }

  /** `select_scenarios(requested)` against `registry`: everything when nothing is requested,
      otherwise one failure listing all unknown names, otherwise the named entries. */
  function Select(requested: seq<string>, registry: seq<Scenario>): (r: Result<seq<Scenario>, Error>)
    ensures requested == [] ==> r == Success(registry)
    ensures r.Failure? <==> exists i :: 0 <= i < |requested| && requested[i] !in Names(registry)
    ensures r.Failure? ==> r.error == UnknownScenarios(Unknown(requested, Lookup(registry)))
    ensures r.Success? && requested != [] ==>
      && |r.value| == |requested|
      && forall i :: 0 <= i < |requested| ==> r.value[i].name == requested[i] && r.value[i] in registry
  {
    if requested == [] then Success(registry)
    else
      var lookup := Lookup(registry);
      var unknown := Unknown(requested, lookup);
      if unknown != [] then
        assert unknown[0] in requested && unknown[0] !in Names(registry);
        var k :| 0 <= k < |requested| && requested[k] == unknown[0];
        Failure(UnknownScenarios(unknown))
      else
        Success(seq(|requested|, i requires 0 <= i < |requested| => lookup[requested[i]]))
  }

  /** Filtering distributes over concatenation: the unknown names of a request are those of
      its parts, in order and with repetitions. */
  lemma {:induction false} UnknownAppend<V>(a: seq<string>, b: seq<string>, lookup: map<string, V>)
    ensures Unknown(a + b, lookup) == Unknown(a, lookup) + Unknown(b, lookup)
    decreases |a|
  {
    if a == [] {
      assert a + b == b;
    } else {
      assert (a + b)[0] == a[0];
      assert (a + b)[1..] == a[1..] + b;
      UnknownAppend(a[1..], b, lookup);
    }
  }

  /** One requested name contributes itself exactly when it is unknown. */
  lemma UnknownSingleton<V>(n: string, lookup: map<string, V>)
    ensures Unknown([n], lookup) == if n in lookup then [] else [n]
  {
  }

  /** When the names are unique, each name is sent to the one entry that carries it. */
  lemma LookupFindsEntry(registry: seq<Scenario>, i: int)
    requires UniqueNames(registry) && 0 <= i < |registry|
    ensures registry[i].name in Lookup(registry) && Lookup(registry)[registry[i].name] == registry[i]
  {
  }

  /** With unique registry names, a request of registered names is selected, and position i
      of the selection is the one registry entry carrying the requested name. */
  lemma SelectPicksRegisteredEntry(requested: seq<string>, registry: seq<Scenario>, i: int, j: int)
    requires UniqueNames(registry)
    requires forall k :: 0 <= k < |requested| ==> requested[k] in Names(registry)
    requires 0 <= i < |requested| && 0 <= j < |registry| && registry[j].name == requested[i]
    ensures Select(requested, registry).Success?
    ensures Select(requested, registry).value[i] == registry[j]
  {
  }

  lemma RegistryNamesUnique()
    ensures UniqueNames(Registry)
  {
  }

  /** The registry has four entries, each using the default entry point. */
  lemma RegistryEntries()
    ensures |Registry| == 4
    ensures forall s :: s in Registry ==> s.functionName == DefaultFunction
  {
  }
}
