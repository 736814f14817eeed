# job-chain in Dafny

A model of the engine of the PHP package `datashaman/job-chain`, with proofs about it.
A *chain* declares jobs in order. Each job has a class name, constructor parameters and
`data` entries. A parameter may be a plain value or a tagged value: `param <name>` asks
for a run input and `job <key>` asks for another job's stored response. A `job`-tagged
`data` entry makes a job wait for the named job.

The model covers these parts:

- The chain is built from its configuration (`Chains.NewChain`).
- `run` scans every job's parameters in declared order, throws on a missing input and
  dispatches every job without `job` tags (`Engine.Run`).
- `done` handles each completion. A truthy error fires an error event. The first
  completion of the terminal job sets the completion latch and fires the done event.
  Any other completion stores the response, fires a response event and dispatches every
  job that has become ready (`Engine.Done`).
- All state lives in a cache whose keys come from `getCacheKey` (`Chains.CacheKey`).
  The cache is a `map<string, Value>`, and PHP truthiness is modelled exactly (`""` and
  `"0"` are false).
- `dispatchJob` resolves the parameters first and then writes the job's dispatched flag
  (`Engine.DispatchJob`). Dispatching a job means appending a `Dispatch` record.
- An exception ends a call early. Whatever it wrote, fired or dispatched before the
  exception stays; an `Outcome` records all of that together with the error.
- The broadcast channels of a run (`Channels.BroadcastOn`).
- The loader finds a chain file in a list of directories and runs it (`Loader.Load`,
  `Loader.LoaderRun`).

On top of the operations sit reference definitions of what `run` and `done` should
dispatch: `RunFacts.RootKeys`, `RunFacts.FirstBlock` and `DoneFacts.ReadyKeys`. Lemmas
tie the engine to them. `History.Replay` applies any sequence of completions after a
run. Every completion is delivered after the call that dispatched its job has
returned; a queue that runs jobs inline breaks this (see "Re-entrant completions"
below). `Scenario` follows the flow of the package's own end-to-end test under that
assumption: two independent jobs and a terminal job that needs both.

Modules, in dependency order:

- `Results`, `Values`
- `PhpStrings` (`explode`, `implode`, `array_filter`, `str_replace`, `trim`)
- `PhpArrays` (ordered string-keyed arrays, `merge`, `Arr::has`)
- `Chains`, `Readiness`, `Resolve`, `Engine`, `RunFacts`, `DoneFacts`, `History`,
  `Loader`, `Channels`, `Scenario`

### Where the model follows the code rather than the design description

- **What a job waits for.** Readiness looks only at `job`-tagged entries of `data`
  (src/JobChain.php:269-277). Parameters that carry a `job` tag play no part.
  `DoneFacts.UnguardedJobReady` shows the consequence: such a job is dispatched as soon
  as it is unflagged, whatever its parameters reference.
- **The `param` tag.** It is never resolved. `run` only checks that the input exists
  (src/JobChain.php:93-95). `getParam` throws "Unhandled tag" for it (src/JobChain.php:317-320).
  So a `param`-tagged parameter reaches a job only when a run input of the same name
  overrides it in the merge (`Resolve.RootParamsResolve`). No default value is ever used.
- **A missing input.** It throws out of `run` at the first job that lacks it. Later jobs
  are not dispatched (`RunFacts.RunJobsDispatches`).
- **Completions after the latch is set.** They are not ignored: responses are still
  stored and the cascade still runs (`DoneFacts.DoneCascade`). A repeated completion of
  the terminal job is handled the same way.
- **Field paths in `job` references.** No field path is ever projected. The source reads
  an undefined `$paramKey` (src/JobChain.php:314). Plain PHP reads it as null with a
  warning and returns the whole response, which is what the model does. Under Laravel's
  error handler that warning becomes an exception, and then every `job` reference that
  reaches resolution throws.
- **Re-entrant completions.** `run` never reads a dispatched flag (src/JobChain.php:81-112).
  The flag is written at :237, before the job is handed to the queue at :250. On a queue
  that runs each job as it is dispatched, `done` is called while `run` is still in its
  loop. Then a job that `done` dispatched is dispatched again when the loop reaches it.
  `Scenario.InlineRunDispatchesTwice` proves this for the scenario chain: the first
  job's completion dispatches and flags `jobTwo`, and the rest of the loop dispatches
  `jobTwo` again (`Scenario.RunRestIgnoresFlag`). The at-most-once results in `History`
  and `Scenario` assume that completions arrive only after `run` has returned.
- **Key collisions.** Cache keys are joined with dots without escaping:
  - the flag of job `a` is the response key of a job named `a.dispatched`
    (`Chains.FlagCollidesWithDottedResponse`);
  - a job named `done` shares its response key with the completion latch
    (`DoneFacts.DoneNamedJobClearsLatch`).

  The guarantees about flags and the latch are therefore stated for dot-free job keys,
  and for keys other than `done`.

## Model

| member | source | states |
|---|---|---|
| Chains.NewChain | src/JobChain.php:34-52 | The configured name overrides the given one. Jobs and routes are kept as declared. The terminal job is the configured one, or else the last declared key. The namespace is trimmed at both ends of backslash and whitespace. Construction fails exactly when there are neither jobs nor a configured terminal job. |
| PhpStrings.Trim | src/JobChain.php:51 | The result is a contiguous slice of the input. Everything cut off lies in the trimmed set. Neither end of a non-empty result lies in it. |
| Chains.CacheKey | src/JobChain.php:143-156 | A key is refused exactly when a truthy suffix comes without a truthy key, with the "suffix without key" error. |
| Chains.CacheKeyDecodes | src/JobChain.php:149-155 | When no part contains a dot, splitting a cache key on dots gives back exactly its truthy parts, in order. |
| Chains.ResponseKeysDistinct | src/JobChain.php:149-155 | Distinct truthy job keys have distinct response keys. |
| Chains.DispatchedKeysDistinct | src/JobChain.php:149-155 | Distinct truthy job keys have distinct dispatched-flag keys. |
| Chains.FlagIsNotResponse | src/JobChain.php:149-155 | No dispatched-flag key equals the response key of a job key without a dot. |
| Chains.FlagIsNotLatch | src/JobChain.php:124-137 | No dispatched-flag key equals the completion latch key. |
| Chains.FlagCollidesWithDottedResponse | src/JobChain.php:149-155 | As written, the flag key of job `k` equals the response key of a job named `k.dispatched`. |
| Readiness.WasDispatched | src/JobChain.php:259-262 | Throws exactly for a falsy job key; otherwise reports whether the job's flag is set. |
| Readiness.DependenciesMetIff | src/JobChain.php:269-277 | The search finds nothing exactly when every job named by a `job`-tagged `data` entry has a non-null stored response. |
| Readiness.ShouldDispatch | src/JobChain.php:253-257 | Throws exactly for a falsy key. Otherwise true exactly when the job is unflagged and every job its `data` names has a response. |
| Engine.DispatchJob | src/JobChain.php:228-251 | Succeeds exactly when the parameters resolve and the key is truthy. A resolution error is passed on. On success the only write is the job's flag, and the dispatch carries the key, the namespaced class and the resolved parameters. |
| Engine.QualifiedType | src/JobChain.php:239-243 | The class is the job's type exactly when the namespace is falsy. Otherwise it is the namespace, a backslash, then the type. |
| Engine.Scan | src/JobChain.php:85-104 | Root exactly when no parameter is a `job` reference or a missing required input. Missing names the first such input, with nothing blocking before it. Dependent has a `job` reference with nothing blocking before it. |
| Engine.ReadyJobs | src/JobChain.php:133-136 | Throws exactly when some declared key is falsy. Otherwise keeps exactly the declared jobs that are ready on the cache as it stood after the response was stored. |
| Engine.DispatchEach | src/JobChain.php:137 | Dispatches a prefix of the ready jobs, in order, and completes without exception exactly when all of them were dispatched. |
| Engine.Cascade | src/JobChain.php:133-137 | The filter, then the dispatch of the ready jobs in order. Its contract is the lemma `DoneFacts.CascadeFacts`. |
| Engine.Done | src/JobChain.php:116-138 | Every completion fires exactly one event, about the completed job. It is an error event exactly when the error is truthy, and a done event exactly for the first successful completion of the terminal job. The `DoneFacts` lemmas below state the rest of each branch. |
| Engine.RunJobs | src/JobChain.php:81-113 | The job loop of `run`. Its contract is the lemmas `RunFacts.RunJobsDispatches`, `RunFacts.RunJobsStore` and `RunFacts.RunJobsInputs`. |
| Engine.Run | src/JobChain.php:76-114 | `run` on a chain, a run id, a user, inputs and a cache. Its contract is the lemma `RunFacts.RunDispatchesRoots`. |
| Engine.DispatchEachStore | src/JobChain.php:228-251 | Every dispatched job ends up flagged and no flag is lost. Nothing but the dispatched jobs' flags is written. |
| DoneFacts.ReadyJobsKeys | src/JobChain.php:133-136 | The filter keeps exactly the ready keys, in declared order. |
| DoneFacts.ReadyKeysSound | src/JobChain.php:253-257 | Every ready key is a declared, unflagged job. Ready keys never repeat when the declared keys do not. |
| DoneFacts.CascadeFacts | src/JobChain.php:133-137 | A falsy declared key throws before anything is dispatched. Otherwise the ready jobs are dispatched in declared order up to the first exception. Each dispatched job was unflagged and ends up flagged, none is dispatched twice, no flag is lost, and only flags are written. |
| DoneFacts.DoneOnError | src/JobChain.php:118-122 | A truthy error fires one error event and changes nothing else. |
| DoneFacts.DoneOnTerminal | src/JobChain.php:124-128 | The first completion of the terminal job fires one done event and sets the latch. It stores no response, dispatches nothing and writes nothing else. |
| DoneFacts.DoneCascade | src/JobChain.php:129-137 | Any other successful completion fires one response event and dispatches the jobs that became ready once the response was stored. For a dot-free key the stored response survives the cascade. |
| DoneFacts.PutResponseFlags | src/JobChain.php:289-293 | Storing a response under a dot-free key changes no dispatched flag. |
| DoneFacts.DoneKeepsFlags | src/JobChain.php:116-138 | A completion with a dot-free key never clears a dispatched flag. |
| DoneFacts.DoneNeverRedispatches | src/JobChain.php:116-138 | A completion with a dot-free key dispatches only jobs that were unflagged before it, each once, and leaves each flagged. |
| DoneFacts.DoneLatchPersists | src/JobChain.php:124-131 | Once the latch is set, a completion of a job not named `done` keeps it set and fires no done event. |
| DoneFacts.DoneNamedJobClearsLatch | src/JobChain.php:124-131 | As written, a null-response completion of a job named `done` clears a set latch. |
| DoneFacts.UnguardedJobReady | src/JobChain.php:269-277 | An unflagged declared job with no `job`-tagged `data` entry is among the ready keys on any cache. |
| Resolve.GetParam | src/JobChain.php:303-324 | A plain value passes through. A `job` reference succeeds exactly when it names a job, and yields that job's stored response, or null when there is none. Every other tag, `param` included, throws the unhandled-tag error. |
| Resolve.ResolveAll | src/JobChain.php:297-300 | Succeeds exactly when every entry resolves. The result keeps the keys and order, with each value resolved. On failure it carries the error of the first failing entry. |
| PhpArrays.MergeGet | src/JobChain.php:298 | Looking a key up in the merged array finds the second array's value when the key is there, and the first array's otherwise. |
| Resolve.GetJobParams | src/JobChain.php:295-301 | The declared parameters merged with the extra ones, then resolved. Its contract is `Resolve.ResolveAll` on the merge, with the lemmas `Resolve.ResolvedGet`, `Resolve.UntaggedPassThrough` and `Resolve.InputsOverride`. |
| Resolve.ResolvedGet | src/JobChain.php:295-301 | A lookup in the resolved parameters is the resolution of the same lookup in the merged template. |
| Resolve.InputsOverride | src/JobChain.php:106-111 | Every run input reaches the job dispatched by `run` under its own name with its own value, over any declared parameter of that name. |
| Resolve.UntaggedPassThrough | src/JobChain.php:295-301 | A declared plain parameter that nothing overrides reaches the job unchanged. |
| Resolve.UnhandledTagThrows | src/JobChain.php:311-320 | A tag that does not lead with `job`, once it reaches resolution, makes the whole resolution throw a tag error. |
| Resolve.RootParamsResolve | src/JobChain.php:106-111 | For a job without `job` references, the run's resolution succeeds exactly when every tagged parameter is overridden by a run input of the same name. |
| RunFacts.RootDispatch | src/JobChain.php:106-112 | A job the scan calls Root is dispatched by `run` exactly when it does not block: its key is truthy and the inputs cover its tagged parameters. |
| RunFacts.RunJobsDispatches | src/JobChain.php:81-113 | The job loop completes exactly when no job blocks. It dispatches exactly the root jobs before the first blocking job, in declared order. A missing input throws with that input's name. |
| RunFacts.RunJobsStore | src/JobChain.php:81-113 | The job loop flags every job it dispatched, keeps every flag and writes nothing else. |
| RunFacts.RunJobsInputs | src/JobChain.php:106-111 | Every job the loop dispatches receives every run input under its own name. |
| RunFacts.RunDispatchesRoots | src/JobChain.php:76-114 | `run` installs the new run id and user and fires nothing. It dispatches the root jobs before the first blocking job, in declared order, flagged and given every input. It writes nothing else, and throws exactly when some job blocks. |
| History.ReplayDispatchesOnce | src/JobChain.php:116-138 | Across any sequence of dot-free completions, no job is dispatched twice. Each dispatched job was unflagged at the start and is flagged at the end, and no flag is lost. |
| History.ReplayDoneOnce | src/JobChain.php:124-128 | Across any sequence of completions none of which is for a job named `done`, the done event fires at most once, and never when the latch was already set. |
| History.RootKeysSound | src/JobChain.php:81-112 | The jobs `run` dispatches are declared jobs and, with distinct declared keys, never repeat. |
| History.RunThenReplayOnce | src/JobChain.php:76-138 | A run followed by any sequence of dot-free completions dispatches no job twice. |
| Loader.Load | src/JobChainLoader.php:17-30 | Fails with "not found" exactly when no candidate file exists. Otherwise picks the candidate of the first directory that holds one. |
| Loader.LoadAppend | src/JobChainLoader.php:21-27 | Directories after the one that holds the file are never consulted. When the earlier ones hold nothing, the later ones decide. |
| Loader.CandidateDotsAreSlashes | src/JobChainLoader.php:19-22 | Dots in a chain name become directory separators, so a dotted name and its slashed form find the same file. |
| Loader.LoaderRun | src/JobChainLoader.php:32-35 | The loader's `run` fails with "not found" when no file exists. On success it is the chain's `run` on the chain built from the file found. |
| Channels.BroadcastOn | src/JobChain.php:158-173 | The run's private channel comes first, then one channel per route in order. A route is private unless its visibility is given and is not exactly `private`. |
| Channels.ChannelRoute | src/JobChain.php:215-226 | `getChannelRoute`. Its contract is the lemmas `Channels.ChannelRouteStep`, `Channels.ChannelRouteFillsAll` and `Channels.ChannelRouteVerbatim`. |
| Channels.ChannelRouteStep | src/JobChain.php:215-226 | A `{user}` after a brace-free part is replaced by the user's key, or by nothing when there is no user, and the rest of the route is filled in turn. |
| Channels.ChannelRouteFillsAll | src/JobChain.php:215-226 | Brace-free parts separated by any number of `{user}` placeholders become the same parts separated by the user's key. |
| Channels.ChannelRouteVerbatim | src/JobChain.php:215-226 | A route without `{user}` is used as it is. |
| Channels.RunChannelsDistinct | src/JobChain.php:160 | Two runs of the same chain broadcast on different private channels. |
| Channels.RunChannelIsKeyPrefix | src/JobChain.php:160 | With a truthy name and run id, the run's channel name is the prefix of all its cache keys. |
| Scenario.Chain1Shape | src/JobChain.php:46-49 | The scenario chain as constructed has the scenario's jobs and terminal job `jobThree`. |
| Scenario.ScenarioReady | src/JobChain.php:269-277 | The first two jobs are ready while unflagged. The third is ready once it is unflagged and both others have responses. |
| Scenario.ScenarioRun | tests/JobChainTest.php:16 | On an empty cache the run dispatches `jobOne` and `jobTwo` in order, fires nothing, completes, and writes only their flags. |
| Scenario.ScenarioCompletions | tests/JobChainTest.php:18-31 | After the run, the three completions fire the two response events and then the done event. They dispatch `jobThree` with the first job's response as its message, and set the latch. |
| Scenario.ScenarioEndToEnd | tests/JobChainTest.php:16-31 | When the completions arrive after the run has returned, each of the three jobs is dispatched exactly once, the events are those the test expects, and the run ends done. |
| Scenario.InlineFirstDone | src/JobChain.php:129-137 | With only the first job flagged, its completion dispatches and flags `jobTwo`. |
| Scenario.RunRestIgnoresFlag | src/JobChain.php:81-112 | The rest of the job loop dispatches `jobTwo` whatever the cache holds, its flag included. |
| Scenario.InlineRunDispatchesTwice | src/JobChain.php:81-112 | If the first job completes inside `run`, right after `run` dispatched it, `jobTwo` is dispatched twice: once by that completion and once more by the loop. |

## Left out

- YAML parsing and dumping are left out: `loadFromYaml`, `writeToYaml` and `toArray`. The chain file's contents arrive as a `Config`, and `LoaderRun` takes the file-to-chain step as a parameter. As written, `loadFromYaml` calls the constructor with the wrong arguments (src/JobChainLoader.php:41), so it could never build a chain.
- The tag splitter `preg_split('/\s*/', …)` followed by `array_shift` is a parameter of the chain (`split`), and every engine lemma holds for every splitter. Under PCRE semantics that pattern matches the empty string at offset 0, so its leading element is empty and no tag would be recognised. The scenario assumes only that the splitter cuts `job jobOne` into its two words (`Scenario.SplitsTag`).
- The scenario's chain file is not part of this model. Its jobs are rebuilt from the fixture classes' constructor parameters, and the test's response strings become arbitrary non-null values.
- Logging, `App::make` and queue dispatch are left out. A dispatch is recorded as the job's key, its namespaced class and its resolved parameters.
- `Str::uuid` and `auth()->user()` are left out. The run id and the user's key are parameters of `run`.
- Cache lifetimes and expiry are left out: the store has no time.
- Concurrency is left out. The code has no atomic compare-and-set, so nothing is claimed about concurrent completions.
- History.ReplayDispatchesOnce: completions are assumed to arrive after the call that dispatched their job has returned. On a queue that runs jobs inline, `run` re-dispatches jobs that a completion already dispatched (`Scenario.InlineRunDispatchesTwice`).
- History.RunThenReplayOnce: the same assumption. Completions are applied only after `run` returns, so the inline re-dispatch is outside its statement.
- Scenario.ScenarioEndToEnd: the same assumption. The package's test fakes only events, so its jobs may run inline; in that execution `jobTwo` is dispatched twice.
- Resolve.GetParam: treats the undefined-variable warning at src/JobChain.php:314 as non-fatal, as plain PHP does. Under Laravel's error handler it becomes an exception, and every `job` reference would throw.
- The event and broadcast classes, the service provider, the facade, the config file, `HasJobChain` and the getters are left out. They are transport or framework glue. `Job::done` passes its value as the error argument (src/Job.php:27); it is a forwarder and is not modelled.
- `getParams` is left out: it lists `param`-tagged keys for callers and is not used by the engine.
- PHP arrays are modelled as lists of string-keyed pairs with distinct keys. Integer keys and `array_merge`'s renumbering of them, floats and objects are left out.
- A route's `visibility` is taken to be a string.
- `Engine.Done`'s guarantees about flags and the latch are stated only for dot-free job keys and keys other than `done`. The lemmas above show that they fail otherwise.
