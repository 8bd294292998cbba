# Fixture harvester: scenario selection and run sequencing

This project models the core of `scripts/harvest_python_fixtures.py`, a developer tool
that records golden JSONL fixtures by running named scenario callbacks from an external
Python SDK checkout. The model covers:

- the **registry**: an ordered, fixed list of immutable `Scenario` records (name, module,
  entry-point function defaulting to `record`, description), with unique names;
- the **selector** `select_scenarios`: an empty request means the whole registry in
  registration order; otherwise every unknown name is collected, in request order, into
  one failure whose message joins them with `", "`; otherwise the requested entries are
  returned in request order, duplicates kept;
- the **runner** `run_scenario`: import the scenario's module, look up its function
  (a missing one fails, naming scenario, function and module, before anything is created
  or called), create the output directory, compute `<output>/<name>.jsonl`, build the
  keyword arguments (`codex_path` only when an override was supplied) and call the
  handler once;
- the **driver** `ensure_python_path` + `main`: fail on an absent SDK path, then on a
  non-existent one, then prepend the resolved SDK path to the module search path,
  select, run the selection strictly in order stopping at the first failure, and report
  "completed" only after every scenario passed.

Modules: `Wrappers` (Option/Result/Outcome), `Strings` (join, substring), `Paths`
(a value model of `PurePosixPath`), `Errors` (the fatal conditions and their messages),
`Scenarios` (registry and selector, pure functions), `Runner` (`run_scenario` as a method
proved against the function `ScenarioRun`), `Driver` (`ensure_python_path` and `main` as
methods; `main`'s loop is proved against the functions `RunAll` and `Harvested`, about
which the ordering, fail-fast and completion lemmas are stated).

Everything outside the process is a `World` value given as input: the set of existing
paths, what `Path.resolve` returns, which modules import and which attributes they have
(module name to a map from attribute name to handler), and which handler calls raise.
Each run yields a trace of `Event`s (search-path insertion, directory creation, handler
call, completion) and an `Outcome` that is either `Pass` or `Fail` with an `Error`.

Python truthiness: `python_sdk` and `codex_path` are falsy only when they are `None`,
since `PurePath` defines neither `__bool__` nor `__len__`, so both are modelled with
`Option`; `requested` is falsy exactly when it is the empty list.

Three behaviours of the code worth noting: when names are requested, the selected
scenarios run in request order, not registration order; the missing-function message
names the module as well as the scenario and the function; and
`{s.name: s for s in SCENARIOS}` keeps the last entry for a repeated name (irrelevant for
the actual registry, whose names are unique).

## Model

| member | source | states |
|---|---|---|
| `Scenarios.RegistryNamesUnique` | scripts/harvest_python_fixtures.py:34-55 | no two registry entries share a name |
| `Scenarios.RegistryEntries` | scripts/harvest_python_fixtures.py:26-55 | the registry has four entries, and each uses the default entry point `record` |
| `Scenarios.Lookup` | scripts/harvest_python_fixtures.py:93 | the name dict has exactly the registry's names as keys, and sends each key to a registry entry with that name |
| `Scenarios.LookupFindsEntry` | scripts/harvest_python_fixtures.py:93 | with unique names, the dict sends each entry's name to that very entry |
| `Scenarios.Unknown` | scripts/harvest_python_fixtures.py:94 | a name is among the unknown ones iff it was requested and is not a key of the dict; there are at most as many as requested |
| `Scenarios.UnknownAppend` | scripts/harvest_python_fixtures.py:94 | the unknown names of a concatenated request are those of its parts, concatenated: order and duplicates of the request are kept |
| `Scenarios.UnknownSingleton` | scripts/harvest_python_fixtures.py:94 | a single requested name contributes itself exactly when it is not in the dict |
| `Scenarios.Select` | scripts/harvest_python_fixtures.py:88-98 | empty request gives the registry unchanged; selection fails iff some requested name is not registered, and the failure carries all unknown names; otherwise the result has the request's length, `result[i].name == requested[i]`, and each entry is in the registry |
| `Scenarios.SelectPicksRegisteredEntry` | scripts/harvest_python_fixtures.py:93-98 | with unique names, position i of a successful selection is the one registry entry named `requested[i]` |
| `Errors.UnknownMessageNamesAll` | scripts/harvest_python_fixtures.py:95-96 | the unknown-scenario message contains every unknown name, not only the first |
| `Errors.MissingFunctionMessageNamesAll` | scripts/harvest_python_fixtures.py:118-122 | the missing-function message contains the scenario name, the function name and the module name |
| `Strings.JoinContains` | scripts/harvest_python_fixtures.py:96 | every part of a `", ".join` appears in the joined string |
| `Runner.OutputPath` | scripts/harvest_python_fixtures.py:124-126 | the fixture file's parent is the output directory, so the second `mkdir` creates the same directory |
| `Runner.OutputPathInjective` | scripts/harvest_python_fixtures.py:125 | distinct scenario names give distinct fixture files in one directory |
| `Runner.RunScenario` | scripts/harvest_python_fixtures.py:113-133 | an unimportable module or a missing function fails with the matching error and no event (nothing created, no call); otherwise exactly three events, the last the one handler call, on `dir/<name>.jsonl`, whose kwargs hold `codex_path` iff an override was supplied (with that value, and no other key); the outcome passes iff the call does not raise; equal to `ScenarioRun` |
| `Driver.ScenarioRunInvokedPaths` | scripts/harvest_python_fixtures.py:116-133 | one scenario run calls a handler at most once: on its own fixture file when the handler resolves, never otherwise |
| `Driver.EnsurePythonPath` | scripts/harvest_python_fixtures.py:101-110 | an absent SDK path fails with the missing-path error, a non-existent one with the not-found error, both with no event; otherwise the resolved path is prepended to the search path |
| `Driver.Harvest` | scripts/harvest_python_fixtures.py:136-146 | the loop's trace and outcome are those of `Harvested`: SDK check, then selection, then each selected scenario in order until the first failure, then completion |
| `Driver.RunAllOutcome` | scripts/harvest_python_fixtures.py:143-146 | the loop passes iff every selected scenario passes; a failure is the error of the first failing scenario, all before it having passed |
| `Driver.RunAllStopsAtFirstFailure` | scripts/harvest_python_fixtures.py:143-146 | when scenario k is the first to fail, the loop's error is its error, only fixture files of scenarios up to k are called on, in order, and "completed" is not reported |
| `Driver.RunAllCompleted` | scripts/harvest_python_fixtures.py:143-146 | "completed" is in the trace iff the loop passed, and is then its last event |
| `Driver.RunAllInvocationOrder` | scripts/harvest_python_fixtures.py:143-144 | the fixture files of the handler calls are a prefix of the selection's fixture files in selection order, all of them when the loop passed |
| `Driver.RunAllForwardsOverride` | scripts/harvest_python_fixtures.py:128-133 | every handler call of the loop has `codex_path` iff an override was supplied, and no other keyword |
| `Driver.ScenarioRunInvokedCalls` | scripts/harvest_python_fixtures.py:116-133 | one scenario run makes no call when its module or function is missing, and otherwise exactly one: its handler, on its fixture file, with the forwarded kwargs; a passing run found its handler |
| `Driver.SelectionCalls` | scripts/harvest_python_fixtures.py:143-144 | for a resolvable selection, the i-th call is `run_scenario`'s call for the i-th selected scenario |
| `Driver.RunAllCalls` | scripts/harvest_python_fixtures.py:143-144 | a passing loop resolved every selected scenario, and its i-th call is `run_scenario`'s call for the i-th selected scenario: that scenario's handler, its fixture file, the forwarded kwargs |
| `Driver.RunAllHealthy` | scripts/harvest_python_fixtures.py:143-146 | when every selected scenario resolves and none of their calls raises, the loop passes and its calls are, in selection order, each selected scenario's own handler on its own fixture file |
| `Driver.HarvestFailsFast` | scripts/harvest_python_fixtures.py:101-141 | an absent or non-existent SDK path, or an unknown name, fails with no handler call and no completion; an absent path fails with no event at all |
| `Driver.HarvestCompleted` | scripts/harvest_python_fixtures.py:136-146 | "completed" is reported iff the run passed; a passing run resolved every selected scenario and its calls are, in selection order, each selected scenario's own handler on its own fixture file with the forwarded kwargs; it ends with "completed" |
| `Driver.HarvestForwardsOverride` | scripts/harvest_python_fixtures.py:128-144 | over a whole run, every handler call has `codex_path` iff `--codex-path` was given |
| `Driver.RegistryOutputPathsDistinct` | scripts/harvest_python_fixtures.py:34-55 | the four registry scenarios write four distinct fixture files |
| `Driver.ExampleSingleScenario` | scripts/harvest_python_fixtures.py:88-133 | requesting only `thread_basic`, whose handler resolves, calls exactly one handler, on `<output>/thread_basic.jsonl`, whether or not it raises; the run passes exactly when that call does not raise |
| `Driver.ExampleUnknownScenario` | scripts/harvest_python_fixtures.py:94-96 | requesting `nope` fails with the unknown-scenario error for `["nope"]`, calls no handler, and its message mentions `nope` |
| `Driver.ExampleMissingSdk` | scripts/harvest_python_fixtures.py:101-105 | without an SDK path the run fails with the missing-path error before any event |
| `Driver.ExampleRunAll` | scripts/harvest_python_fixtures.py:88-90 | an empty request whose four scenarios resolve and do not raise runs them in registration order, on four distinct fixture files, and passes |

## Left out

- `parse_args` and the `CODEX_PYTHON_SDK_PATH` lookup: command-line and environment plumbing; the model starts from the parsed `Config` (an absent flag and unset variable is `None`).
- `importlib.import_module` and `getattr`: dynamic code loading; a module is a map from attribute name to an opaque handler, an unimportable module is one missing from the world's module map, and an attribute bound to `None` is the same as a missing one.
- `sys.path.insert`: recorded as an event; its effect on which modules can be imported is part of the given world, not derived from the search path.
- `Path.exists`, `Path.resolve`, `mkdir(parents=True, exist_ok=True)`: filesystem I/O; existence is a set of paths in the world, resolution an abstract function, and directory creation an event that always succeeds.
- The `[harvest] running …` progress line: printing; the `[harvest] completed` line is the `Completed` event.
- The scenario handlers themselves and the JSONL they write; a raising handler is a call in the world's `raising` set, and its exception is reduced to the scenario's name.
- Handler state across calls: whether a call raises depends only on its handler, output path and keyword arguments, so a scenario requested twice makes the identical call twice with the same outcome; the model cannot show a handler that passes the first time and raises on the repeat (for example because its fixture file now exists).
- `SystemExit` and the process exit status: every fatal condition is an `Error` value; messages are modelled only for the tool's own `SystemExit` texts, not for Python's import or handler exceptions.
- Scenario names with a '/' in them: a name is taken to be a single path segment (no '/'); every registry name is one, and selection only returns registry entries.
