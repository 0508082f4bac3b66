# Llama Pack: verified models of the stateful cores

Llama Pack is a controller for language-model servers on several nodes. This project models, in
Dafny, the parts of it whose correctness is about whole runs rather than single calls, and proves
what they keep:

- **Plugin background tasks** (`TaskTrace.dfy`, `PluginHost.dfy`): startup, the activate and
  deactivate routes, shutdown, and router mounting, over mutable task and registry records. Every
  callback may return, raise an `Exception`, or raise a wider `BaseException`; a ghost log records
  every start and stop attempt.
- **Exclusive model load and restore** (`ModelWait.dfy`, `ModelLifecycle.dfy`, `ManagedRuns.dfy`):
  the snapshot / stop / start / wait / restore protocol against a node whose requests may fail
  before or after taking effect, the polling loop under a real-valued clock, and the benchmark and
  workflow runners built on the protocol.
- **Stream translation and recording** (`SseText.dfy`, `StreamRelay.dfy`): extraction of text from
  server-sent events (the line format is a simplified form of section 9.2 of the WHATWG HTML
  Standard), the recording generator, and the re-encoding as newline-delimited JSON.
- **The per-thread turn lock** (`TurnLock.dfy`), **shared requests and an invalidated cache**
  (`SingleFlight.dfy`) and **agent progress streams** (`AgentProgress.dfy`): interleavings of steps,
  with theorems over every run.
- **Smaller cores**: prompt passes (`PromptPasses.dfy`), the client model catalogue
  (`Catalogue.dfy`), benchmark slugs (`Slug.dfy`), key analytics (`CallAnalytics.dfy`) and the legacy
  table copy (`LegacyMigration.dfy`).

`Sequences.dfy` and `Wrappers.dfy` hold shared vocabulary. `dafny verify dfyconfig.toml` checks
everything.

## What the proofs found

Where the code does not do what its surroundings suggest, the model follows the code, and the exact
condition is proved:

- A stream request whose handler fails in a way it has no clause for (`ProjectRoutingError`, the 503
  of document collections, and others), or whose response body is never started, keeps the
  thread's lock for good. `TurnLock.FreeableIffNothingLost` says that the thread can be freed again
  exactly when this has not happened; `TurnLock.UnavailableStrandsTheThread` is a run.
- A benchmark run whose node snapshot fails, or is answered with something other than a list, still
  restores, with an empty list, which stops the target. After a restore that gets through, the node is
  as it was exactly when the snapshot was answered with a list or the target was not running
  (`ManagedRuns.JobRestores`); `ManagedRuns.LostSnapshotStopsTarget` is an input.
- A workflow step has the same gap with an answer that is not a list. `ManagedRuns.WorkflowLeaves` says
  exactly which models are then missing afterwards, and `ManagedRuns.LeftIsRun` when none is;
  `ManagedRuns.WorkflowLosesTarget` is an input.
- In `nodes.ts` the `finally` of a request that an invalidation cut off clears the newer shared
  request (`SingleFlight.FinallyClearsNewer`). Two requests of one epoch can come to be outstanding,
  without a further invalidation, exactly when an unfinished request is not the shared one
  (`SingleFlight.DoubledIffOrphan`). The payload of a cut-off request may fill the cache exactly when
  such a request is still pending (`SingleFlight.StaleIffOldPending`).
- `_SLUG_RE.match` with `$` accepts a supplied slug with one final newline, and that is the only kind
  of non-slug that gets through (`Slug.StoredSlugs`).
- The upstream's bytes are passed on in whatever chunks they arrive (`llama_pack/core/chat/proxy.py:414`),
  so a cut may fall inside a line. A content event that is cut is then neither delivered as text nor
  recorded (`SseText.CutEventIsLost`). A cut changes nothing exactly when the line it falls in carries what
  its two parts carry, or a line before or behind it raises anyway (`SseText.CutAnywhere`); what is stored
  is independent of all possible cuts exactly for a text no stretch of which has content
  (`StreamRelay.RecordedAnyCutIff`). For line-aligned cuts it always is.
- A marker that is cut in two sends no `done: true` line (`StreamRelay.CutMarkerIsLost`). Over all possible
  cuts of a text the number of such lines is the same exactly when the text has no marker
  (`StreamRelay.DoneCountAnyCutIff`). Over its line-aligned cuts it can differ too
  (`StreamRelay.DoneCountDependsOnCuts`), exactly when some line boundary has the marker on both sides
  (`StreamRelay.DoneCountIndependentIff`); only whether there is any is the same for all line-aligned cuts.
- The second number `_copy_table` reports, which it calls copied, is the size of the target table, or 0
  when the source has nothing to copy. It is the number of rows inserted exactly when the source has nothing
  to copy or the target was empty (`LegacyMigration.CountsMean`); `LegacyMigration.CountsOverstate` is an
  input.
- When both startup and shutdown of the plugin tasks fail, the shutdown error is the one that is
  raised (`PluginHost.Host.Lifespan`); when a stop in an activation's rollback raises, the record is
  not marked failed but stays enabled, with its routers, exactly then (`PluginHost.Host.Reloaded`, which
  `PluginHost.Host.Activate` promises).

## Model

| member | source | states |
|---|---|---|
| TaskTrace.UpMeansOneMoreStart | llama_pack/main.py:86-109 | on every history in which starts and stops of a task alternate, a task is up exactly when its completed starts exceed its stop attempts by one, and otherwise they are equal |
| TaskTrace.LiveIsOrderedByStart | llama_pack/main.py:112-126 | the live tasks, in the order shutdown reverses, are ordered by the time of their last completed start |
| TaskTrace.FirstStopErrorConcat | llama_pack/main.py:97-126 | first-error collection is compositional, so nested loops raise the first error of the flattened order |
| TaskTrace.FirstStopErrorIsFirst | llama_pack/main.py:97-126 | the collected error is absent iff no stop raised, and else belongs to a stop before which none raised |
| PluginHost.SurfacedRouters | llama_pack/core/plugins/registry.py:116-122 | registration leaves a record with distinct task ids and with routers only under its own free prefix, each once |
| PluginHost.Host.RunningIsOneMoreStart | llama_pack/api/routes/plugins.py:26-60 | in every reachable state a task's flag is set exactly when its completed starts exceed its stop attempts by one |
| PluginHost.Host.RunningIsRegistered | llama_pack/api/routes/plugins.py:26-44 | in every reachable state a running task belongs to a registered record, so none of a replaced record runs |
| PluginHost.Host.StartTasks | llama_pack/main.py:86-94 | one start for each task of an enabled record that is down, in order, up to the first start that raises, which is the last one made; exactly those that completed are up |
| PluginHost.Host.StopTasks | llama_pack/main.py:97-109 | each running task of a record gets one stop attempt, last first, whatever the attempts do; none is left running; the first error is raised |
| PluginHost.Host.StartEnabled | llama_pack/main.py:112-114 | startup makes one start for each task of the enabled records in registry order, up to the first that raises, which is the last one made |
| PluginHost.Host.StopAll | llama_pack/main.py:117-126 | shutdown attempts exactly the live tasks in reverse of the order of their completed starts, each once, leaves nothing running, and raises the first stop error of that order |
| PluginHost.SurfacedMeans | llama_pack/core/plugins/context.py:34-60 | a registration succeeds iff no step raises, no task id is added twice, and at most one router is added, in the plugin's own free namespace; by position, its k-th task is that of the k-th task step; a refusal at a step leaves what the steps before it register |
| PluginHost.Host.Register | llama_pack/core/plugins/context.py:34-60 | the record gets exactly the tasks and router that the steps add, or, when they are not acceptable, those of the steps before the one refused |
| PluginHost.Host.IdsAt | llama_pack/core/plugins/context.py:57-60 | the k-th id is that of the k-th task |
| PluginHost.Host.LoadOne | llama_pack/core/plugins/loader.py:42-89 | whatever goes wrong, a record is appended with the status of the first failing check, enabled iff manifest, compatibility, configuration and registration are all good; its tasks, those that `register` adds, are down, and it has routers only if enabled |
| PluginHost.Host.RemoveRecord | llama_pack/core/plugins/registry.py:124-136 | exactly the record of that id is dropped, the others keep their order, its route prefixes are freed and the running tasks are untouched |
| PluginHost.Host.MarkFailed | llama_pack/core/plugins/registry.py:96-104 | the record is failed, its routers are cleared and their prefixes freed, with every task invariant kept |
| PluginHost.Host.IncludeRouters | llama_pack/api/routes/plugins.py:100-110 | every router pair of the record is mounted afterwards, and no (plugin, prefix) pair is ever mounted twice |
| PluginHost.Host.RegisterRouters | llama_pack/main.py:189-195 | application creation mounts exactly the enabled records' routers, no pair twice, although it makes no check |
| PluginHost.Host.Replace | llama_pack/api/routes/plugins.py:31-37 | the old record is dropped, the new one is what loading the plugin gives, and its starts are made in order up to the first that raises |
| PluginHost.Host.Rollback | llama_pack/api/routes/plugins.py:38-42 | the completed starts are stopped again, last first; if no stop raised the record is marked failed and its routers cleared, otherwise its status and routers are as before |
| PluginHost.Host.Reload | llama_pack/api/routes/plugins.py:31-44 | which of the replies is given, which callbacks are called and what becomes of the record, for every outcome of every callback: after a failed start it is marked failed and loses its routers iff no rollback stop raised, and otherwise is as loaded |
| PluginHost.Host.Activate | llama_pack/api/routes/plugins.py:26-44 | the whole callback history of an activation; no task of the replaced record runs; an `Exception` in a start leaves no task of the new record running; a wider failure is passed on without rollback |
| PluginHost.Host.Deactivate | llama_pack/api/routes/plugins.py:47-60 | the record's running tasks are stopped last first and are all down; reply and status follow from the first stop error |
| PluginHost.Host.Serve | llama_pack/api/routes/plugins.py:26-60 | any number of route calls in any order, with any callback failures, keep the invariant, and no router pair is mounted twice |
| PluginHost.Host.Lifespan | llama_pack/main.py:329-360 | startup up to the first start that raises, requests if none did, shutdown in any case: stops are exactly the reverse of the live tasks, of the completed starts when nothing was served in between; nothing is left running; the error is the first stop error, or else the start error |
| ModelWait.ClockAfter | llama_pack/core/model_lifecycle.py:69-84 | sleeps of at least a second put the n-th reading n - 1 seconds after the deadline was set |
| ModelWait.PollBound | llama_pack/core/model_lifecycle.py:69-84 | only ceil(T) polls can end before the deadline |
| ModelWait.ModelRunning | llama_pack/core/model_lifecycle.py:95-102 | looking through a list ends at the first entry that fits or whose name cannot be looked up, with the result of that entry |
| ModelWait.WaitForModelRunning | llama_pack/core/model_lifecycle.py:69-117 | at least one and at most ceil(T) + 1 polls; running iff the last poll saw an expected model up and ready; on timeout none did; the error is that of the last poll, also one met while looking through its answer, and the models are those of the last poll that answered |
| ModelWait.SeenMeans | llama_pack/core/model_lifecycle.py:95-117 | a poll sees the model iff its answer has one of the names running, not reported as unready, and no name before it that cannot be looked up |
| ModelWait.ErrorMeans | llama_pack/core/model_lifecycle.py:74-81 | a poll leaves an error iff its request raises, or it sees nothing and has a name that cannot be looked up |
| ModelWait.LastPayloadMeans | llama_pack/core/model_lifecycle.py:71-83 | the models returned are those of the last poll that answered, or empty |
| ModelLifecycle.LoadStaysInside | llama_pack/core/model_lifecycle.py:29-42 | from every intermediate state of a load, whatever failed: only the target was added, only snapshot models were removed, other nodes are untouched |
| ModelLifecycle.RestoreMeansUndone | llama_pack/core/model_lifecycle.py:44-55 | a restore whose requests take effect removes the target and adds the snapshot, from any state |
| ModelLifecycle.RestoreUndoesLoad | llama_pack/core/model_lifecycle.py:24-55 | load, wherever it stopped, followed by a fault-free restore with the full snapshot returns every node to the snapshot, also when the target was already running |
| ModelLifecycle.RestoreKeepsWhatStarted | llama_pack/core/model_lifecycle.py:51-55 | with faults, every prior model whose start took effect is running afterwards, also when the answer was lost |
| ModelLifecycle.LoadStep | llama_pack/core/model_lifecycle.py:29-31 | after k stops the node runs the snapshot minus the first k models |
| ModelLifecycle.LoadDone | llama_pack/core/model_lifecycle.py:29-37 | a load whose requests take effect leaves exactly the target |
| ModelLifecycle.RestoreStep | llama_pack/core/model_lifecycle.py:44-55 | after k requests of a restore that follows a completed load, exactly the first k - 1 prior models run |
| ModelLifecycle.PeakResidency | llama_pack/core/model_lifecycle.py:29-55 | at every step of load followed by restore the node runs at most max(1, snapshot size) models |
| ModelLifecycle.Fleet.SnapshotRunningModels | llama_pack/core/model_lifecycle.py:24-27 | fails iff the node is unnamed, unknown or silent; a list answer is the full running set; any other answer reads as empty |
| ModelLifecycle.Fleet.LoadExclusive | llama_pack/core/model_lifecycle.py:29-42 | the requests made are a prefix of the stops then the start, cut at the first that raises; success iff the wait that followed succeeded |
| ModelLifecycle.ExpectedNamesMean | llama_pack/core/model_lifecycle.py:105-111 | the names waited for are the requested one and that of the start response, if not empty |
| ModelLifecycle.Fleet.RestoreExclusive | llama_pack/core/model_lifecycle.py:44-55 | the stop and then every start are attempted in order whatever fails; if all take effect the node is as `Undone` says |
| ManagedRuns.EmptySnapshotStopsTarget | llama_pack/core/benchmarks/runner.py:58-64 | with an empty list, load and restore together amount to stopping the target |
| ManagedRuns.JobRestores | llama_pack/core/benchmarks/runner.py:56-130 | after a restore that gets through, every node is as before the run iff the snapshot was answered with a list or the target was not running |
| ManagedRuns.LostSnapshotStopsTarget | llama_pack/core/benchmarks/runner.py:126-130 | the failing input: the snapshot request raises, nothing is loaded, and the run's fault-free restore stops the model that was running |
| ManagedRuns.ExecuteRun | llama_pack/core/benchmarks/runner.py:56-130 | the logged requests are the load, if the snapshot did not raise, then the restore in any case, with the empty list if it did; the residency is their effect, with the exact condition of `JobRestores` |
| ManagedRuns.EnsureModelLoaded | llama_pack/core/threads/workflows.py:198-215 | the logged requests and the outcome, case by case: not needed, deferred, no snapshot, loaded, or failed and restored on the spot |
| ManagedRuns.StepUndone | llama_pack/core/threads/workflows.py:198-215 | a failed load leaves, and a load that stands is undone to, the residency before it, short of the target iff the snapshot was not a list |
| ManagedRuns.RunWorkflow | llama_pack/core/threads/workflows.py:81-196 | the logged requests are those of the steps tried, then one restore for each load that stands, last first; a step that is not routed, does not load or does not chat ends the run; the run is good iff every step was routed, loaded if needed, and chatted; with the exact residency of `WorkflowLeaves` |
| ManagedRuns.HistoryLeadsBack | llama_pack/core/threads/workflows.py:81-196 | from wherever a workflow has got to, and from anything below what then runs, undoing the stack leads back to the start, short of what is lost |
| ManagedRuns.WorkflowLeaves | llama_pack/core/threads/workflows.py:81-221 | whichever step failed and however, with restores that get through: each node runs what it ran at the start minus exactly the targets loaded there without a list before any load there with one |
| ManagedRuns.LostMeans | llama_pack/core/threads/workflows.py:198-221 | a model is lost on a node iff it is the target of a step there whose snapshot was not a list, with no load there with a list before it |
| ManagedRuns.LeftIsRun | llama_pack/core/threads/workflows.py:81-221 | all nodes run what they ran at the start iff no such target was running; in particular if every answered snapshot was a list |
| ManagedRuns.WorkflowLosesTarget | llama_pack/core/threads/workflows.py:198-215 | the failing input: a snapshot answered with something else than a list, and a start that raises |
| ManagedRuns.RestoreManagedLoads | llama_pack/core/threads/workflows.py:217-221 | one whole restore is logged for each entry of the stack, last entry first, whatever fails |
| ManagedRuns.FinishUndoes | llama_pack/core/threads/workflows.py:217-221 | restores that get through undo the stack, last load first |
| SseText.SplitLinesConcat | llama_pack/api/routes/compat_chat.py:257-257 | line splitting commutes with concatenation at a line boundary, up to one empty line when CR LF is cut in two |
| SseText.ExtractConcat | llama_pack/api/routes/compat_chat.py:255-292 | extraction is a homomorphism over cuts at line boundaries, also between CR and LF |
| SseText.ChunkingIsIrrelevant | llama_pack/api/routes/compat_chat.py:220-239 | what is extracted chunk by chunk from a line-aligned stream is what is extracted from its whole text |
| SseText.SameTextSameContent | llama_pack/api/routes/compat_chat.py:220-239 | two line-aligned ways of cutting one text give the same extraction |
| SseText.CutInLine | llama_pack/api/routes/compat_chat.py:255-292 | a cut inside a line changes nothing iff the line carries what its two parts carry, or a line before or behind it raises anyway |
| SseText.CutAnywhere | llama_pack/api/routes/compat_chat.py:228-231 | the same exact condition for every text and every place to cut it |
| SseText.CutEventIsLost | llama_pack/api/routes/compat_chat.py:257-266 | the failing input: a content event cut inside its JSON, neither half of which carries the content |
| SseText.EventSays | llama_pack/api/routes/compat_chat.py:257-292 | an event whose one choice says s is extracted as s, character for character, for every s and whatever other fields there are |
| SseText.ChoicesMean | llama_pack/api/routes/compat_chat.py:287-291 | by position, the k-th part is what the k-th choice with a string content says, and no other choice gives a part |
| SseText.PayloadMeans | llama_pack/api/routes/compat_chat.py:287-287 | without choices there is no content; choices that cannot be iterated over raise |
| SseText.LineCarries | llama_pack/api/routes/compat_chat.py:257-269 | a `data:` line carries the object that its text, without white space around it, decodes to, and nothing if that is missing, the end marker or no object |
| SseText.StripMeans | llama_pack/api/routes/compat_chat.py:260-260 | stripping takes the white space off both ends and nothing else |
| SseText.ExtractSseJson | llama_pack/api/routes/compat_chat.py:255-269 | the loop returns the payloads of the lines, in order |
| SseText.ExtractSseContent | llama_pack/api/routes/compat_chat.py:284-292 | the loops return the contents of all choices of all payloads, in order, or raise when a `choices` cannot be iterated |
| StreamRelay.RecordingStream | llama_pack/api/routes/compat_chat.py:220-242 | every consumer gets a prefix of preamble and chunks; one that stops early leaves nothing in the store; one that drains leaves exactly one entry: the extracted text if the upstream ended by itself, every chunk could be read and storing works, else an error |
| StreamRelay.OllamaLinesMean | llama_pack/api/routes/ollama_compat.py:174-184 | the text of the `done: false` lines is the extracted text, and there is one `done: true` line for each chunk with the marker |
| StreamRelay.OneMarkerOneDone | llama_pack/api/routes/ollama_compat.py:174-184 | if the marker occurs in exactly one chunk there is exactly one `done: true` line, right after that chunk's content |
| StreamRelay.MarkerConcat | llama_pack/api/routes/ollama_compat.py:180-180 | cutting at a line boundary neither makes nor breaks a marker |
| StreamRelay.DoneIffMarkerInText | llama_pack/api/routes/ollama_compat.py:174-184 | however the text is cut at line boundaries, a `done: true` line is sent iff the text contains the marker |
| StreamRelay.DoneCountDependsOnCuts | llama_pack/api/routes/ollama_compat.py:180-182 | two line-aligned cuts of one text with different numbers of `done: true` lines |
| StreamRelay.DoneCountIndependentIff | llama_pack/api/routes/ollama_compat.py:174-184 | for every text, all line-aligned cuts give the same number of `done: true` lines iff no line boundary has the marker on both sides |
| StreamRelay.DoneCountAnyCutIff | llama_pack/api/routes/ollama_compat.py:174-184 | for every text, all cuts whatever give the same number of `done: true` lines iff the text has no marker, and then none is sent |
| StreamRelay.CutMarkerIsLost | llama_pack/api/routes/ollama_compat.py:180-182 | the failing input: the marker cut in two, at any place, sends no `done: true` line |
| StreamRelay.OllamaStream | llama_pack/api/routes/ollama_compat.py:174-184 | the generator sends the lines of the chunks before the first one whose extraction raises, and raises iff there is one |
| StreamRelay.ReencodeChunk | llama_pack/api/routes/ollama_compat.py:176-184 | one content line for each part, in order, then a done line iff the marker occurs, and the chunk itself iff there is neither content nor marker |
| StreamRelay.StreamLinesAre | llama_pack/api/routes/ollama_compat.py:174-184 | the lines of a stream are those of its chunks, one after the other |
| StreamRelay.RawsAre | llama_pack/api/routes/ollama_compat.py:183-184 | over a whole stream exactly the chunks without content and marker are passed on as they are, each once and in order |
| StreamRelay.DeliveredIsRecorded | llama_pack/api/routes/ollama_compat.py:174-184 | behind a preamble without content, the text a client assembles is the text the recording stream stores |
| StreamRelay.EventIsSilent | llama_pack/api/routes/compat_chat.py:222-227 | a `data:` event whose JSON has no choices, such as the thread and context events, has no content |
| StreamRelay.SilentChunkPassesRaw | llama_pack/api/routes/ollama_compat.py:183-184 | a chunk without content and marker, such as a context_management event, passes through as it is, in its place |
| StreamRelay.RecordedTextIgnoresChunking | llama_pack/api/routes/compat_chat.py:228-239 | whether a message is stored, and which, does not depend on line-aligned cuts |
| StreamRelay.RecordedAnyCutIff | llama_pack/api/routes/compat_chat.py:228-239 | for every text, all cuts whatever store the same iff no stretch of the text, read by itself, has content or raises |
| TurnLock.StepKeepsInv | llama_pack/api/routes/threads.py:54-163 | every step of every request keeps: acquisitions and releases match the phase, the queue is the waiting requests, the lock is held iff exactly one request holds it |
| TurnLock.MutualExclusion | llama_pack/api/routes/threads.py:54-163 | on every run from the start at most one request is between acquire and release, the lock is held iff there is one, and a finished request has released once what it acquired |
| TurnLock.NoOvertaking | llama_pack/core/threads/service.py:73-80 | over every run no request acquires the lock while one that arrived earlier is still waiting |
| TurnLock.LostIffLosingEvent | llama_pack/api/routes/threads.py:144-163 | a run has lost a lock iff a stream handler failed outside its clauses or a returned body was never started |
| TurnLock.FailureReleases | llama_pack/api/routes/threads.py:71-79 | a failing handler releases the lock, except that of a stream for a failure other than the three it has clauses for |
| TurnLock.LostForever | llama_pack/api/routes/threads.py:127-163 | after a loss no continuation frees the lock or grants it to anyone |
| TurnLock.UnavailableStrandsTheThread | llama_pack/api/routes/openai_chat_completion.py:304-311 | the 503 inside the stream handler: the next request on the thread never gets the lock, in any continuation |
| TurnLock.Drain | llama_pack/core/threads/service.py:73-80 | from any state without a loss, the requests under way can all be brought to an end, leaving the lock free |
| TurnLock.FreeableIffNothingLost | llama_pack/api/routes/threads.py:120-163 | a thread can be freed again if and only if no lock was lost on it |
| SingleFlight.RunKeepsInv | frontend/src/api/nodes.ts:77-100 | every interleaving of calls and callbacks keeps the invariant on requests, cache and invalidations |
| SingleFlight.CacheIsLatestSuccess | frontend/src/api/nodes.ts:77-100 | over every run the cache is the payload of the latest success since the last invalidation |
| SingleFlight.FreshUnlessCarried | frontend/src/api/nodes.ts:77-144 | a cached payload was requested after the last invalidation unless its request was in flight then; with nothing in flight then at most one request is outstanding; in general one more for each invalidation that cut one off |
| SingleFlight.StaleIffOldPending | frontend/src/api/nodes.ts:82-100 | a fresh cache can become stale without a further invalidation iff a request of an earlier epoch is pending |
| SingleFlight.FinallyClearsNewer | frontend/src/api/nodes.ts:87-100 | a run in which an old `finally` clears the newer request, so that two requests of one epoch are outstanding |
| SingleFlight.DoubledIffOrphan | frontend/src/api/nodes.ts:77-100 | from any reachable state, two requests of one epoch can come to be outstanding without a further invalidation iff an unfinished request is not the shared one |
| SingleFlight.NodesModule.GetNodeModels | frontend/src/api/nodes.ts:77-91 | returns the shared request if there is one and issues a new one otherwise |
| SingleFlight.NodesModule.InvalidateNodeModelsCache | frontend/src/api/nodes.ts:97-100 | forgets cache and request and starts a new epoch |
| SingleFlight.NodesModule.OnMutation | frontend/src/api/nodes.ts:106-144 | a mutating call invalidates iff its request succeeded |
| SingleFlight.HealthModule.GetHealth | frontend/src/api/health.ts:65-75 | at every moment at most one health request is outstanding, and callers share it |
| AgentProgress.StepKeepsInv | llama_pack/core/agent_tools/tracing.py:59-87 | every interleaving of emits, the end of the run and consumer steps keeps queue, sent events and seen ids in agreement |
| AgentProgress.SentIsTracesThenTail | llama_pack/api/routes/openai_chat_completion.py:375-398 | over every interleaving a finished stream has sent all trace events in order, each once, then one error and DONE, or the verification if there is one, the final and DONE, or nothing when the failure is passed on; before that a prefix of the events |
| AgentProgress.OneDone | llama_pack/api/routes/openai_chat_completion.py:384-398 | over every interleaving a finished stream has sent exactly one DONE, last, right after the one error or the one final; none exactly when the failure is passed on |
| AgentProgress.ConsumerProgress | llama_pack/api/routes/openai_chat_completion.py:379-390 | once the runner has ended the consumer is never blocked, and each step brings the end nearer |
| AgentProgress.ConsumerFinishes | llama_pack/api/routes/openai_chat_completion.py:375-398 | so the stream ends by consumer steps alone, within a bound |
| PromptPasses.MergeFirstMeans | llama_pack/api/routes/compat_chat.py:358-370 | merging changes exactly the first system message, and only its content |
| PromptPasses.MemoryBlockMeans | llama_pack/api/routes/compat_chat.py:350-356 | the block is the heading and one line for each fact found, in order, and there is none when switched off, without a query or without facts |
| PromptPasses.SystemTextKept | llama_pack/api/routes/compat_chat.py:358-366 | the client's own system text is kept whole behind the block and an empty line, when neither has white space at its outer end |
| PromptPasses.StripMeans | llama_pack/api/routes/compat_chat.py:363-363 | stripping returns the stretch between the first and the last character that is not white space |
| PromptPasses.QueriesMean | llama_pack/api/routes/openai_chat_completion.py:328-351 | both searches are for the last of the user's messages, as it is written or its text parts on a line each |
| PromptPasses.TextPartsMean | llama_pack/api/routes/openai_chat_completion.py:340-351 | by position, the texts of the text parts and no others |
| PromptPasses.PreviousAnswerMeans | llama_pack/core/agent_tools/prompt_builder.py:42-49 | by position, the last non-blank text of the assistant's before the final message |
| PromptPasses.SameReads | llama_pack/core/agent_tools/prompt_builder.py:42-64 | query, previous answer and back reference depend only on the non-system messages and the kind of ending |
| PromptPasses.PassKeeps | llama_pack/api/routes/openai_chat_completion.py:297-325 | each pass keeps the non-system messages and adds at most one message per block of text |
| PromptPasses.PassesKeep | llama_pack/core/agent_tools/prompt_builder.py:7-39 | any passes in any order: failure iff documents are asked for without a service; else the conversation is kept, and the list grows by at most one message for each block that some pass has for the client's own request |
| PromptPasses.PassFindsTheSame | llama_pack/api/routes/openai_chat_completion.py:312-325 | whatever passes came before, each pass has the same blocks of text for the messages that reach it as for the client's own request |
| PromptPasses.PassAdds | llama_pack/api/routes/openai_chat_completion.py:316-325 | a pass that does not merge into a system message adds exactly one system message for each of its blocks, with that text, and changes nothing else |
| PromptPasses.PassesAdd | llama_pack/core/agent_tools/prompt_builder.py:7-39 | document and agent passes in any order add exactly one system message for each block that they have for the client's own request |
| PromptPasses.ConversationKept | llama_pack/api/routes/openai_chat_completion.py:328-337 | a final user message stays final; both search queries, the previous answer and the back reference are unchanged |
| PromptPasses.InjectMemories | llama_pack/api/routes/compat_chat.py:331-370 | the block is put in a system message of its own in front, or before the content of the first system message, which is kept behind an empty line, white space around both taken off; nothing else changes |
| PromptPasses.LastUserText | llama_pack/api/routes/openai_chat_completion.py:328-337 | the backward search finds the latest user message's text |
| PromptPasses.ApplyDocumentContext | llama_pack/api/routes/openai_chat_completion.py:297-325 | a system message with the rendered finds is put in front iff ids are given and something is found; 503 exactly when ids are given without a service |
| PromptPasses.BuildAgentMessages | llama_pack/core/agent_tools/prompt_builder.py:7-39 | the graph note is put in front, and the previous answer right before the final message iff that is the user's and refers back |
| PromptPasses.PreviousAssistantAnswer | llama_pack/core/agent_tools/prompt_builder.py:42-49 | the backward search finds the latest non-blank text answer before the final message |
| Catalogue.ConfiguredModels | llama_pack/api/routes/openai_compat.py:501-509 | the dictionary lists exactly the configured names with exactly the request types routed to them |
| Catalogue.MergeLive | llama_pack/api/routes/openai_compat.py:530-550 | stale, failing, unnamed and malformed nodes and statuses add nothing; names and request types stay; capabilities become those last reported |
| Catalogue.ReportsMean | llama_pack/api/routes/openai_compat.py:530-545 | node by node in order, a node that is stale, unnamed, fails or answers with no list reports nothing |
| Catalogue.ReportsInMean | llama_pack/api/routes/openai_compat.py:544-550 | by position, the reports of a node are those of its well-formed, named statuses |
| Catalogue.LastReportMeans | llama_pack/api/routes/openai_compat.py:550-569 | by position, the capabilities are those of the last report, or the plain ones |
| Catalogue.LessMeans | llama_pack/api/routes/openai_compat.py:519-527 | listings are sorted by the first differing character |
| Catalogue.ClientSafeModels | llama_pack/api/routes/openai_compat.py:501-527 | for every configuration and every pattern of nodes: ids strictly sorted and exactly the configured plus reported ones, request types exactly those routed, sorted, capabilities of the last report |
| Catalogue.SortedUnique | llama_pack/api/routes/openai_compat.py:519-527 | a set of names has one strictly sorted listing |
| Catalogue.RequestTypesIgnoreLive | llama_pack/api/routes/openai_compat.py:501-527 | the request types listed for a model depend neither on the live merge nor on the order of nodes |
| Catalogue.CatalogueIgnoresOrder | llama_pack/api/routes/openai_compat.py:501-550 | if the same models are reported live, the listed ids do not depend on the order of nodes or of reports |
| Catalogue.SameCatalogueIffSameLastReports | llama_pack/api/routes/openai_compat.py:546-550 | two catalogues of the same names are equal iff every model has the same last report |
| Catalogue.SplitIdentityMeans | llama_pack/api/routes/openai_compat.py:585-589 | the identity splits at its first colon and nothing is lost |
| Slug.SlugMeans | llama_pack/api/routes/benchmarks.py:15-15 | the pattern accepts exactly: non-empty, lower-case letters, digits and single inner dashes |
| Slug.DerivedIsSlug | llama_pack/api/routes/benchmarks.py:49-53 | for every name and every lower-casing the derived slug is in the grammar |
| Slug.DeriveFixesSlugs | llama_pack/api/routes/benchmarks.py:49-53 | derivation leaves a lower-case text alone iff it is a slug |
| Slug.DeriveIdempotent | llama_pack/api/routes/benchmarks.py:49-53 | deriving twice is deriving once |
| Slug.DerivedKeepsLetters | llama_pack/api/routes/benchmarks.py:49-53 | the slug has the letters and digits of the lower-cased name in order; the fallback is used iff there are none |
| Slug.DerivedKeepsGaps | llama_pack/api/routes/benchmarks.py:49-53 | letters of a derived slug are neighbours exactly where they are in the lower-cased name, so any others have one dash between them |
| Slug.RefusedIffSupplied | llama_pack/api/routes/benchmarks.py:69-71 | the 422 fires iff a slug was supplied, non-empty, and not accepted |
| Slug.StoredSlugs | llama_pack/api/routes/benchmarks.py:69-71 | what gets through is the supplied slug, or the derived one if none was; it is a slug except exactly for a supplied slug followed by one newline |
| Slug.NewlineGetsThrough | llama_pack/api/routes/benchmarks.py:69-71 | an input on which a non-slug gets through |
| CallAnalytics.Counts | llama_pack/api/routes/external_keys.py:69-76 | the dictionary holds exactly the occurrence counts, and they add up to the calls that have the field |
| CallAnalytics.OccurrencesMean | llama_pack/api/routes/external_keys.py:69-76 | a count is the number of calls with that value |
| CallAnalytics.CountIsUnique | llama_pack/api/routes/external_keys.py:69-103 | whatever algorithm finds the occurrence counts, they are the same dictionary and add up to the calls that have the field |
| CallAnalytics.RouteCounts | llama_pack/api/routes/external_keys.py:99-103 | the nested counting gives exactly the occurrence counts of the routes, which add up to the calls that have one |
| CallAnalytics.RouteCountsAgree | llama_pack/api/routes/external_keys.py:69-103 | on every list of routes both algorithms give the same dictionary |
| LegacyMigration.CopiedMeans | scripts/migrate_legacy_data.py:62-100 | existing rows never change, the keys are the union, every new row is a source row |
| LegacyMigration.CopiedSize | scripts/migrate_legacy_data.py:79-100 | after a copy of distinct rows the table has at least as many rows, exactly as many iff it had no others, and all of them inserted iff it was empty |
| LegacyMigration.CountsMean | scripts/migrate_legacy_data.py:68-100 | the second reported number is never less than the first, and is the number of rows inserted iff the source had nothing to copy or the target was empty |
| LegacyMigration.CountsOverstate | scripts/migrate_legacy_data.py:95-100 | an input for which one row is reported as copied and none was |
| LegacyMigration.CopyTable | scripts/migrate_legacy_data.py:62-100 | state and reported numbers after a copy, nothing changed when it raises |
| LegacyMigration.Migrate | scripts/migrate_legacy_data.py:136-147 | the copies are made in order up to the first that raises, also when both targets are one database |
| LegacyMigration.MigratedMeans | scripts/migrate_legacy_data.py:136-147 | the migration gets through iff every table the source has rows for is in its target; it has then copied model downloads into one database and the three benchmark tables into the other, and changed no other table |
| LegacyMigration.CopiesAgain | scripts/migrate_legacy_data.py:136-147 | running any list of copies into one database again changes nothing and ends the same way |
| LegacyMigration.MigrateTwice | scripts/migrate_legacy_data.py:136-147 | running the migration again changes nothing and ends the same way, also after a missing table stopped it |

## Left out

- PluginHost: callbacks do not change the registry themselves, and two route calls are not interleaved; overlapping activations are not serialised by the program and are not modelled.
- PluginHost: the initial loading loop with its disabled records, events, hooks, health records, warnings, navigation and migrations of plugins; a `register` that raises something wider than `Exception`.
- PluginHost.Host.Lifespan: the heartbeat client, the agent worker, the sweeper and the node registry around the plugin tasks; if awaiting the sweeper raises, the later stops are skipped.
- PluginHost.Host.IncludeRouters: a plugin that is activated again offers a new router object under a pair already mounted, so it is the first object that stays mounted; the model knows pairs, not objects.
- ModelLifecycle: nothing but the protocol acts on a node, stop and start are idempotent and resolve aliases alike, and a list answer to a snapshot is truthful; cancellation of a run in progress is not modelled.
- ManagedRuns: a workflow runner configured without a model lifecycle; sampling, aggregation, stored run status and the events the workflow publishes; a failing publication counts as the failure of its step.
- SseText: chunks are decoded text, so the byte decoding that drops malformed bytes, and a marker that only appears through it, are not modelled; JSON decoding is a parameter.
- StreamRelay: the JSON encoding of the lines, and line formats other than chat.
- TurnLock: the workflow route does not take the lock and is excluded; the per-thread dictionary of locks and its guard are left out, one thread is modelled.
- SingleFlight: parsing and HTTP; a response is parsed or rejected in one step. The copies handed out by `getCachedNodeModels` are values.
- AgentProgress: a client that disconnects in mid-stream, and response payloads that override `type`.
- PromptPasses: the wording of the added messages, the words that count as a back reference, white space and `str` are parameters; entries that are not dictionaries.
- Catalogue: the worker-mode branch, which copies one status per model; client diagnostics.
- Slug: lower-casing is a parameter; idempotence asks that it leave slugs alone.
- CallAnalytics: `str` of the counted values, the audit query, the list of recent calls, and the sorting of the count dictionaries.
- LegacyMigration: SQLite conflicts other than on the primary key.
- The authentication and plugin-activation middleware, the orchestrator, the scheduler, the process manager and the user interface are not part of this model.
