# Nexus control plane: a verified model

Nexus is an MLOps control plane. This project models, in Dafny, the parts of it that decide
something hard, and proves what they guarantee:

- **Pipelines, end to end.** A definition is validated (field checks and a three-colour
  depth-first search), submitted as a run, executed in waves of concurrent function calls with
  retries, and reported step by step to the run store. `Graph`, `Pipelines`, `Trimming`, `Validator`,
  `Executor`, `ExecutorInvariant`, `ExecutorTheorems`, `ExecutorProgram`, `Runs`, `RunTheorems`, `RunEffects`,
  `RunStore`, `EndToEnd`, `StatusTheorem` and `StoredRuns` follow that path; `PipelineSdk` is the
  Python builder on the client side.
- **Events.** `Outbox` and `OutboxTheorems` are the transactional outbox with any number of
  writers and publishing workers, failures and crashes; `OutboxFlush` is one worker's flush as a
  program; `Dispatcher` turns delivered commands into cluster objects.
- **Names, URLs and usage.** `Names` is `slug` and `dnsName`; `QueryCodec`, `QueryString`,
  `SigV4` and `Presign` are the SigV4 query printer and the presigner; `Traces` is trace and session
  accounting.
- **Models and workspaces.** `Models` is the model registry with its gates, promotions and
  rollbacks; `Workspaces` is the operator's reconciler of user workspaces.

Check everything with `dafny verify dfyconfig.toml`.

## How it is modelled

- The executor is a state machine with one action per access to shared state (`Executor.Action`):
  the scheduler plans a wave, launches its jobs one at a time and waits at the barrier, and the
  goroutine of each launched job advances in between. An interleaving is a sequence of enabled
  actions, and the theorems quantify over all of them. A function call is an oracle whose reply may
  depend on job, payload and attempt; no job makes the same attempt twice, so all oracles together
  cover all sequences of replies. `Eval` is the reference semantics: one job at a time, no waves.
- Stored runs are records that point at a buffer of steps, as Go structs hold a slice; reports
  update the buffer in place. Each store method is proved to have exactly the effect of a
  value-level operation in `Runs`, and the history theorems are about those operations. The lock
  makes each store call one step.
- The outbox is a state machine over transactions (begin, insert, commit, abort) and workers
  (fetch, publish, mark, crash). Sequence numbers are drawn at insert time, so a lower number may
  commit later; a fetch may find any rows locked.
- Fresh ids, the case mapping of `ToLower`, SHA-256, HMAC and URL path handling are parameters;
  what is assumed of them is stated in the contracts (`Allowed`, `Lowers`, `Digests`).
- Every value-level operation is stated a second time without the function that computes it: what a
  request is once trimmed (`Trimming`), what each store operation answers and changes (`RunEffects`),
  which rows a write owns (`CommitsTell`), what a name spells (`DnsNameIs`), and what the signing
  standard asks for (`SigV4`, `EncodedByStandard`, `EncodedInOrder`).
- Calls to the cluster are answered by a parameter: a call may fail, or take effect although its
  reply is lost. A reconcile may stop at any of its writes.

## What turned out not to hold

- A run does not always end with the status its jobs earned. The steps are fixed when the run is
  submitted, but the definition is read once more when it is dispatched
  (`go/internal/httpapi/server.go:544-553`, `go/internal/httpapi/pipeline_dispatch.go:20`), and a retry
  copies the earlier run's steps but executes the current definition
  (`go/internal/store/store.go:237`). So jobs may have left or joined the definition in between. If a
  step is not a job, the run can never succeed (`StrayStepNeverSucceeds`, `RetryWithStrayStep`). If a
  job is not a step and no step is at a greater depth, the run can be declared succeeded before that
  job has started, and its failure is then only logged (`LateFailureLost`). `LostJobSpoils` and
  `AddedJobSpoils` are store histories of either kind, for a submission and for a retry;
  `SubmissionEarnedIffCovered` and `RetryEarnedIffCovered` give the exact condition, and
  `SubmittedRunEndsRight` shows that a submission whose definition keeps its jobs until the dispatch
  always meets it.
- A row can be starved: 100 rows below it that always fail to publish keep it from ever being
  fetched. `EventuallyPublishedIff` gives the exact condition.
- A presigned URL does not match what was signed if the endpoint's own query already carries
  `X-Amz-Signature`; `SignedEndpointDiffers` shows the case and `RebuiltIsSignedIff` that
  it is the only one.
- Parameter names are escaped with `+` for a space while values use `%20`; the two agree exactly for
  names without spaces (`KeyEncodingStandardIff`).
- A server cannot read the region back from the credential if it holds a slash, nor the date;
  `CredentialReadIff` shows that these are the only cases.
- Redelivering commands out of order can undo later ones (`StaleRedelivery`);
  `RedeliveryHarmlessIff` says exactly when it does not, and a suffix in order never does.

## Model

| member | source | states |
|---|---|---|
| Graph.TopologicalIsAcyclic | go/internal/store/workloads.go:187-208 | an order in which dependencies come first rules out every cycle |
| Graph.Depth | go/internal/httpapi/pipeline_dispatch.go:63-76 | the longest dependency chain of a job in an acyclic graph: there is a chain of that length and none longer |
| Graph.DepthIsLongest | go/internal/httpapi/pipeline_dispatch.go:63-76 | chains of length k exist exactly for k up to the depth |
| Validator.CycleSearch.Visit | go/internal/store/workloads.go:187-203 | a failing visit exhibits a real cycle; a succeeding one restores the open set, colours the job and keeps the finishing order topological |
| Validator.FindsNoCycle | go/internal/store/workloads.go:182-208 | whatever order the jobs are walked in, the search succeeds if and only if the dependency relation has no cycle |
| Validator.CheckJob | go/internal/store/workloads.go:153-173 | a job passes if and only if its fields are in order, and the reported error names a real fault |
| Validator.CheckJobs | go/internal/store/workloads.go:145-174 | trims names and kinds in place and nothing else, and accepts exactly lists with unique non-empty names and valid jobs |
| Validator.CheckDependencies | go/internal/store/workloads.go:175-181 | accepts exactly when every dependency is another listed job |
| Validator.ValidatePipelineDefinition | go/internal/store/workloads.go:134-210 | accepts exactly the requests that are acceptable once cleaned, returns them cleaned, never two job names alike up to white space around them; every rejection names a condition that is violated |
| Trimming.TrimmedIff | go/internal/store/workloads.go:135 | trimming keeps the one part of a text that has white space only around it and neither starts nor ends with any |
| Trimming.CleanedIff | go/internal/store/workloads.go:135-148 | normalising trims name, version, job names and kinds, fills in an empty mode and leaves all other fields alone |
| Trimming.AlikeNamesRejected | go/internal/store/workloads.go:148-151 | two job names that differ at most in surrounding white space are never accepted together |
| Trimming.FaultlessIff | go/internal/store/workloads.go:153-173 | a job is in order if and only if no job-level error applies |
| Trimming.AcceptedMeans | go/internal/store/workloads.go:136-208 | acceptance spelled out field by field |
| Trimming.QuantityIff | go/internal/store/workloads.go:15 | a quantity is a positive count followed by nothing, m, Mi or Gi |
| Executor.AcceptedIsValid | go/internal/store/workloads.go:134-210 | every accepted definition is a plan the executor theorems apply to: closed, acyclic, no negative retries |
| Executor.EvalSolves | go/internal/httpapi/pipeline_dispatch.go:88-124 | the reference outcome of a job follows from the outcomes of its dependencies by the retry rule |
| Executor.LevelsRanked | go/internal/httpapi/pipeline_dispatch.go:63-76 | depth decreases along dependencies and skips no level |
| ExecutorInvariant.ReadyIsLevel | go/internal/httpapi/pipeline_dispatch.go:64-76 | when a wave is planned, the ready jobs are exactly those at the wave's depth |
| ExecutorInvariant.SomeReady | go/internal/httpapi/pipeline_dispatch.go:77-80 | while jobs remain and none has failed, some job is ready |
| ExecutorInvariant.DependenciesFinished | go/internal/httpapi/pipeline_dispatch.go:91-96 | whatever a launched job depends on has finished, with the reference output recorded |
| ExecutorInvariant.StepPreserves | go/internal/httpapi/pipeline_dispatch.go:63-130 | every step of scheduler or goroutine keeps the wave layout, the shared maps and each goroutine's call history consistent |
| ExecutorInvariant.RunPreserves | go/internal/httpapi/pipeline_dispatch.go:63-130 | the invariant holds after every interleaving of every valid plan |
| ExecutorTheorems.Terminates | go/internal/httpapi/pipeline_dispatch.go:63-130 | every interleaving is finite, with an explicit bound on its length |
| ExecutorTheorems.NeverStuck | go/internal/httpapi/pipeline_dispatch.go:77-80 | no interleaving reaches the cannot-make-progress branch, and until it returns the executor can always go on |
| ExecutorTheorems.WaveIsLongestChain | go/internal/httpapi/pipeline_dispatch.go:63-76 | the wave a job runs in is the length of its longest dependency chain |
| ExecutorTheorems.WaveCount | go/internal/httpapi/pipeline_dispatch.go:63-130 | a fully successful run takes one wave more than its longest chain has dependencies |
| ExecutorTheorems.LaunchedOnce | go/internal/httpapi/pipeline_dispatch.go:84-88 | no job is launched twice in any interleaving |
| ExecutorTheorems.InvokedAfterDependencies | go/internal/httpapi/pipeline_dispatch.go:90-102 | at every invocation all dependencies have finished and the payload holds exactly their names with their recorded outputs |
| ExecutorTheorems.NoLaterWaveAfterFailure | go/internal/httpapi/pipeline_dispatch.go:108-129 | after a job has used up its attempts only jobs of the same depth are launched or invoked |
| ExecutorTheorems.CallCounts | go/internal/httpapi/pipeline_dispatch.go:100-124 | a launched job makes 1 to retries+1 calls, all but the last failing, and is recorded completed exactly when the last succeeded |
| ExecutorTheorems.ResultIsDetermined | go/internal/httpapi/pipeline_dispatch.go:84-130 | launched jobs, outputs and failure of a finished run are those of the reference semantics, whatever the interleaving |
| ExecutorProgram.CollectReady | go/internal/httpapi/pipeline_dispatch.go:64-76 | the scan finds exactly the remaining jobs whose dependencies have completed |
| ExecutorProgram.InvokeWithRetries | go/internal/httpapi/pipeline_dispatch.go:98-107 | the retry loop yields the reference attempts, with the number of calls, and its outcome is where the steps of the goroutine alone lead; a negative retry count makes no call and keeps an empty reply |
| ExecutorProgram.RunWave | go/internal/httpapi/pipeline_dispatch.go:81-129 | launching and interleaving a wave up to its barrier is a run of the state machine that uses up work |
| ExecutorProgram.ExecuteFunctionPipeline | go/internal/httpapi/pipeline_dispatch.go:52-131 | the program terminates on every plan, ends in a state some interleaving reaches, and on valid plans returns with the determined result |
| Runs.Find | go/internal/store/store.go:272-291 | the position of the first run with an id, or the number of runs |
| RunTheorems.TallyIsSize | go/internal/store/store.go:331-341 | a counter is the number of positions with such a status |
| RunTheorems.TransitionOk | go/internal/store/store.go:309-353 | after a report to a live run, progress is the share of succeeded or skipped steps in per cent rounded down, 100 iff succeeded iff all steps finished; failed iff some step failed; queued only with all steps pending |
| RunTheorems.EffectOk | go/internal/store/store.go:176-292 | every submit, report, cancel, link, retry or definition upsert keeps all runs consistent and ids unique |
| RunTheorems.EveryRunConsistent | go/internal/store/store.go:176-353 | every run in every reachable store is consistent, its progress p satisfying p·steps <= 100·finished < (p+1)·steps |
| RunTheorems.EffectFreezes | go/internal/store/store.go:214-292 | one operation leaves ended runs frozen and runs it is not about untouched |
| RunTheorems.EndedRunsFrozen | go/internal/store/store.go:283-286 | over every history an ended run keeps status, progress and steps, and its log only grows |
| RunTheorems.RetryStartsPending | go/internal/store/workloads.go:250-257 | a retry is queued with the parent's step names all pending, beside the unchanged parent |
| RunEffects.ReportEffect | go/internal/store/store.go:276-353 | a report is logged with its level and message; a live run sets the first step of that name or appends one, touches no other step and takes the status its steps call for; an ended run keeps everything else |
| RunEffects.ReportTakenIff | go/internal/store/store.go:261-275 | a report is taken if and only if the step is named, the status is one of five words and the run exists |
| RunEffects.CancelEffect | go/internal/store/store.go:214-229 | a cancellation is taken if and only if the run exists and has neither succeeded nor failed; it is then cancelled with its steps and progress as they were |
| RunEffects.CancelledForGood | go/internal/store/store.go:283-286 | over every later history a cancelled run stays cancelled with the steps and progress it had |
| RunEffects.LinkEffect | go/internal/store/store.go:247-259 | a link sets the engine of the run and nothing else |
| RunEffects.RetryEffect | go/internal/store/store.go:231-245 | a retry keeps project, name, definition, mode and the steps with images and dependencies, all pending, and links to its parent |
| RunEffects.SubmitEffect | go/internal/store/store.go:181-199 | a submission for a definition of its project carries its mode, a pending step per job and the given or inherited name, trimmed |
| RunEffects.DefaultSubmitEffect | go/internal/store/store.go:181-199 | without a definition a run gets the four training steps in a chain |
| RunEffects.DefineEffect | go/internal/store/workloads.go:212-236 | an upsert rewrites the first definition with the id, or with the same project, name and version if none is given, and leaves every other one alone |
| RunStore.UpsertStep | go/internal/store/store.go:313-330 | overwrites the first step of that name in place or appends one, as the value-level upsert does |
| RunStore.CountSteps | go/internal/store/store.go:331-341 | the three counters are the tallies of the step statuses |
| RunStore.ApplyStepTransition | go/internal/store/store.go:312-353 | the record after a transition shows the value-level transition |
| RunStore.TakeReport | go/internal/store/store.go:276-289 | a report is logged always and applied only to a live run |
| RunStore.CopyReset | go/internal/store/workloads.go:250-257 | a new buffer with every step pending |
| RunStore.Store.UpdateRunStep | go/internal/store/store.go:261-292 | the store changes exactly as the report operation says, including the refusals, and no two runs ever share a buffer |
| RunStore.Store.CancelRun | go/internal/store/store.go:214-229 | the store changes exactly as the cancel operation says |
| RunStore.Store.SetRunEngine | go/internal/store/store.go:247-259 | the store changes exactly as the link operation says |
| RunStore.Store.RetryRun | go/internal/store/store.go:231-245 | adds the retry with a buffer of its own, leaving every other run as it was |
| RunStore.Store.SubmitPipeline | go/internal/store/store.go:176-201 | adds the run the submission calls for, or refuses |
| RunStore.Store.UpsertPipelineDefinition | go/internal/store/workloads.go:212-236 | only requests the validator accepts are stored |
| EndToEnd.DeliveredByStore | go/internal/store/store.go:263-292 | a report of the executor is one accepted store operation on its run |
| EndToEnd.RunTracks | go/internal/store/store.go:309-353 | along every interleaving a live run's steps mirror what the executor has told about each job |
| EndToEnd.FinalStatus | go/internal/httpapi/pipeline_dispatch.go:84-129 | a run that covers its plan ends succeeded at 100 exactly when every job succeeds, and failed otherwise, in every interleaving |
| EndToEnd.StrayStepNeverSucceeds | go/internal/store/store.go:345-352 | a run with a step that is no job never becomes succeeded |
| EndToEnd.Complete | go/internal/httpapi/pipeline_dispatch.go:63-130 | every interleaving can be carried on until the executor returns |
| EndToEnd.LateFailureLost | go/internal/store/store.go:345-352 | with a job that is not a step and no step at a greater depth, some interleaving declares success while that job fails |
| StatusTheorem.UncoveredGoesWrong | go/internal/store/store.go:231-245 | a run that does not cover its plan has replies and an interleaving that leave it with a status it did not earn |
| StatusTheorem.EarnedIffCovered | go/internal/httpapi/pipeline_dispatch.go:18-31 | the final status is always earned if and only if every step is a job and for every job that is not a step there is a step at a greater depth |
| StatusTheorem.SubmissionCovers | go/internal/store/workloads.go:238-248 | a submitted run has exactly the definition's jobs as steps, so it covers the plan of that definition |
| StatusTheorem.RetryWithStrayStep | go/internal/store/store.go:231-245 | a retry that copies a step which is no job of the current definition never succeeds |
| StatusTheorem.RetryEarnedIffCovered | go/internal/store/store.go:231-245 | a retry's status can be trusted exactly when the earlier run's steps cover the current definition |
| StoredRuns.StoredRun | go/internal/store/store.go:263-292 | over every history the store holds a run as its own accepted reports left it, whatever happens to other runs and definitions |
| StoredRuns.StoredRunEndsRight | go/internal/httpapi/pipeline_dispatch.go:84-129 | in the store, a run that covers its plan and receives the reports of any interleaving among arbitrary other operations ends with the status its jobs earned |
| StoredRuns.DispatchedValid | go/internal/httpapi/pipeline_dispatch.go:20-24 | whatever happens between submission and dispatch, the definition is still there and what is read is a valid plan |
| StoredRuns.SubmissionEarnedIffCovered | go/internal/httpapi/server.go:544-553 | the status of a submission is always earned if and only if its steps cover the definition as it is read at dispatch |
| StoredRuns.SubmittedRunEndsRight | go/internal/store/store.go:176-201 | accepted, submitted, dispatched with its jobs unchanged and executed in any interleaving beside other operations, a pipeline never gets stuck and the store ends up with the status its jobs earned |
| StoredRuns.EditedEarnedIff | go/internal/store/workloads.go:212-236 | for every redefinition of independent jobs between submission and dispatch, or run and retry: the status is always earned if and only if the job names stayed the same |
| StoredRuns.AddedJobSpoils | go/internal/httpapi/server.go:544-553 | a history from a fresh store in which an added job makes both submission and retry untrustworthy |
| StoredRuns.LostJobSpoils | go/internal/store/store.go:231-245 | a history from a fresh store in which a removed job does the same |
| PipelineSdk.Pipeline.Add | python/mlaiops_sdk/pipelines.py:40-48 | a step is appended exactly when its name is new and its dependencies known; otherwise nothing changes and the error says what is wrong |
| PipelineSdk.Pipeline.Definition | python/mlaiops_sdk/pipelines.py:60-93 | compiles all steps in order and infers functions mode exactly for all-function pipelines |
| PipelineSdk.BuiltTopological | python/mlaiops_sdk/pipelines.py:40-48 | the order of addition is a topological order of the compiled jobs |
| PipelineSdk.BuiltAcceptedIffFieldsOk | go/internal/store/workloads.go:145-208 | a built pipeline with clean names is accepted by the control plane if and only if its header and single jobs are in order |
| PipelineSdk.AcceptedIsBuildable | go/internal/store/workloads.go:145-208 | for every accepted job list there are builder steps that are added one by one and compile to a permutation of it, less the image or function field that a job's kind does not use |
| Outbox.AscendingSorts | go/internal/store/postgres.go:670-671 | the listing of pending rows holds each once, lowest number first |
| OutboxTheorems.CommitAdds | go/internal/store/postgres.go:626-668 | a commit adds exactly the rows of its write under numbers that were free |
| OutboxTheorems.CommitsTell | go/internal/store/postgres.go:640-666 | in every run each committed write owns one audit row telling of it, one command row on the topic of its action if and only if that starts with one of six prefixes, and no others; an empty actor is told as anonymous |
| OutboxTheorems.ResourceIsLatest | go/internal/store/postgres.go:637-640 | in every run a resource has the value of the last committed write to it, and exists only if there is one |
| OutboxTheorems.MarkEffect | go/internal/store/postgres.go:687-695 | a mark counts an attempt on one row and publishes it and clears its error, or notes the error |
| OutboxTheorems.StepPreserves | go/internal/store/outbox.go:42-62 | every step of writers and workers, failing or not, keeps the protocol invariant |
| OutboxTheorems.WritesAreComplete | go/internal/store/postgres.go:626-668 | in every run each committed write has its audit row and all its outbox rows, every row belongs to exactly one place of exactly one write, and resources are what the writes made them |
| OutboxTheorems.PublishedWasSent | go/internal/store/outbox.go:53-59 | a row is marked published only if that row was successfully published |
| OutboxTheorems.MarksStay | go/internal/store/postgres.go:687-695 | rows never vanish or change content, and marks never revert |
| OutboxTheorems.PendingUntilMarked | go/internal/store/postgres.go:687-690 | only its own successful mark takes a row out of the pending set |
| OutboxTheorems.FetchedIffAmongLowest | go/internal/store/postgres.go:670-685 | a fetch returns a pending unlocked row if and only if fewer than 100 such rows have lower numbers, so late commits are not skipped |
| OutboxFlush.Repository.Flush | go/internal/store/outbox.go:42-62 | one flush treats the batch row by row: published and marked, failed and skipped over, or aborted on a failed mark |
| OutboxFlush.FlushIsRun | go/internal/store/outbox.go:42-62 | an undisturbed worker of the protocol does exactly what the flush program does |
| OutboxFlush.FlushesPublishLowest | go/internal/store/outbox.go:42-62 | k undisturbed flushes publish the lowest 100k pending rows in ascending order, each once, and leave the rest pending |
| OutboxFlush.DrainedIff | go/internal/store/outbox.go:27-40 | a backlog of n rows is drained after k undisturbed flushes if and only if 100k is at least n |
| OutboxFlush.EventuallyPublishedIff | go/internal/store/outbox.go:53-56 | with a fixed set of rows that always fail, a pending row is published after some number of flushes if and only if it is not one of them and fewer than 100 of them are pending below it |
| Dispatcher.Dispatcher.Dispatch | go/internal/integrations/dispatcher.go:35-112 | one object is put or removed as the record asks, or nothing happens; success means it took effect, an error without a lost reply that it did not, and well-formed records succeed when all calls do |
| Dispatcher.Dispatcher.DispatchAll | go/cmd/integration-worker/main.go:47-51 | a stream of records leaves the cluster as the commands that took effect, in order |
| Dispatcher.InterpretIs | go/internal/integrations/dispatcher.go:44-101 | which commands are refused, ignored (models not promoted), removals (deleted access) and writes, and the key, kind, tenant and id they are written under |
| Dispatcher.SpecIs | go/internal/integrations/dispatcher.go:52-72 | which resource field each field of a run, model, agent, tool or connection object comes from |
| Dispatcher.AgentSpecIs | go/internal/integrations/dispatcher.go:57-64 | replicas, model backend and traffic weight of an agent object |
| Dispatcher.AgentToolsAre | go/internal/integrations/dispatcher.go:114-121 | an agent's tools are listed in order, each in its latest version |
| Dispatcher.WorkspaceSpecIs | go/internal/integrations/dispatcher.go:73-83 | subject, services and switch of a workspace are copied, its numbers cut toward zero, missing ones zero |
| Dispatcher.LastEditDecides | go/internal/integrations/dispatcher.go:94-112 | the object under a key is fixed by the last command for that key, absent if that was a delete |
| Dispatcher.RedeliveryHarmlessIff | go/internal/integrations/dispatcher.go:94-112 | redelivered commands leave the cluster unchanged if and only if, per key, the last of them is what the cluster already shows |
| Dispatcher.RecordsRedelivered | go/internal/integrations/dispatcher.go:35-112 | redelivering any already delivered suffix in order leaves the cluster unchanged |
| Dispatcher.StaleRedelivery | go/internal/integrations/dispatcher.go:94-112 | an old version of an object redelivered after a newer one replaces it |
| Dispatcher.KeysAreLabels | go/internal/integrations/dispatcher.go:87-91 | every object is written under a valid DNS label |
| Names.DnsNameIsLabel | go/internal/integrations/dispatcher.go:136-150 | every string gets a label of 1 to 63 letters, digits and inner dashes |
| Names.DnsNameIdempotent | go/internal/integrations/dispatcher.go:136-150 | naming a name again changes nothing, whatever the fallback |
| Names.NormalSpells | go/internal/integrations/dispatcher.go:141 | collapsing and trimming keeps the letters and digits in order, with one dash where others stand between two of them |
| Names.DnsNameIs | go/internal/integrations/dispatcher.go:136-150 | a label is what the name or else the id spells, or a default; from 64 characters on a beginning of it and the digest of the whole lower-case name |
| Names.LongNamesApart | go/internal/integrations/dispatcher.go:148-149 | long names with different digests get different labels |
| Names.SlugLoop | go/internal/store/store.go:690-703 | the one-pass loop with its dash flag computes collapse-and-trim |
| Names.Slug | go/internal/store/store.go:690-703 | a slug is the pre-truncation form of the DNS name, so names of up to 63 characters come out the same both ways |
| QueryCodec.KeyRoundTrip | go/internal/storage/presign.go:97 | decoding an encoded name gives the name back |
| QueryCodec.ValueRoundTrip | go/internal/storage/presign.go:97 | decoding an encoded value gives the value back |
| QueryCodec.EncodedByStandard | go/internal/storage/presign.go:97 | each octet of a value is encoded as section 2.1 of RFC 3986 says, with upper-case digits; in a name a space becomes a plus sign |
| QueryCodec.KeyEncodingStandardIff | go/internal/storage/presign.go:97 | names are encoded as values are if and only if they hold no space |
| QueryCodec.LeqIff | go/internal/storage/presign.go:91-95 | texts are ordered by the first octet in which they differ, a prefix first |
| QueryCodec.SortCanonical | go/internal/storage/presign.go:91-95 | sorting forgets the order the elements came in |
| QueryString.EncodeQuery | go/internal/storage/presign.go:86-101 | whatever order the map is walked in, the printer yields the canonical query and leaves the value lists sorted |
| QueryString.EncodedInOrder | go/internal/storage/presign.go:86-101 | the canonical query is name=value pieces joined by ampersands in ascending order of names, then of values |
| QueryString.QueryRoundTrip | go/internal/storage/presign.go:86-101 | parsing the canonical query yields the parameters, each name's values sorted |
| Presign.CheckRequest | go/internal/storage/presign.go:32-51 | passes exactly the acceptable requests; an error names a real fault, and no fault of an earlier kind is present |
| Presign.Presign | go/internal/storage/presign.go:31-79 | exactly the acceptable requests yield a URL, whose query is the signed parameters plus the signature over the canonical request |
| Presign.RebuiltIsSignedIff | go/internal/storage/presign.go:61-79 | parsing the URL, dropping the signature and printing again gives the signed query byte for byte if and only if the endpoint carries no signature parameter |
| Presign.SignedEndpointDiffers | go/internal/storage/presign.go:61-79 | an endpoint that already carries a signature makes the rebuilt query differ from the signed one |
| Presign.ParametersAre | go/internal/storage/presign.go:59-66 | the endpoint's parameters are kept but for the five that signing sets, and what those are |
| Presign.DecimalReads | go/internal/storage/presign.go:65 | the lifetime is printed in decimal without leading zeros |
| Presign.UpperIff | go/internal/storage/presign.go:38-41 | an operation counts as GET or PUT if and only if it spells it in letters of either case |
| Presign.SignedReadable | go/internal/storage/presign.go:61-79 | every signed parameter can be read from the URL as it was signed, its values sorted |
| Presign.CredentialReadIff | go/internal/storage/presign.go:55-63 | access key, date and region can be read from a credential if and only if neither date nor region holds a slash |
| Presign.SignsByStandard | go/internal/storage/presign.go:68-77 | the canonical request, the string to sign and the key are those of Signature Version 4, defined as lines and a fold of HMAC |
| Presign.SignedDetermines | go/internal/storage/presign.go:68 | for parts without line breaks the canonical request determines method, path, query and host |
| Presign.ServerAgrees | go/internal/storage/presign.go:68-79 | a server that follows the standard and is given the URL, the method and the secrets alone arrives at the signature in the URL |
| Traces.StepBalances | go/internal/store/store.go:506-532 | recording a request keeps sessions unique, showing status and node of their latest request, and for every agent and overall the sums of turns, input and output tokens those of the requests |
| Traces.SessionsAccountForTraces | go/internal/store/store.go:506-532 | for every agent and overall, session turns add up to the number of traces and session tokens to the trace tokens |
| Traces.TraceStore.RecordTrace | go/internal/store/store.go:506-532 | the trace is prepended and counted in exactly one session, existing or new; incomplete requests change nothing |
| Traces.TraceStore.AgentUsage | go/internal/httpapi/server.go:1225-1240 | sessions and active sessions are those of the recorded requests, input and output tokens their sums, which together are the agent's trace tokens |
| Models.Registry.RegisterModel | go/internal/store/store.go:355-377 | adds a candidate whose gate follows from its accuracy, or refuses a known version or an incomplete request |
| Models.Registry.PromoteModel | go/internal/store/store.go:379-398 | rewrites the first model with the id as the promotion says, or refuses |
| Models.Registry.DeployModel | go/internal/store/store.go:400-418 | rewrites the first model with the id as the deployment says, or refuses |
| Models.Registry.SetModelEndpoint | go/internal/store/store.go:420-433 | rewrites endpoint and deployment status of the first model with the id |
| Models.Registry.RollbackModel | go/internal/store/store.go:435-450 | exchanges stage and previous stage of the first model with the id, or refuses |
| Models.HistoryOk | go/internal/store/store.go:355-450 | over every history versions are unique, stages are reachable ones and canary weights between 0 and 100 |
| Models.RegisterEffect | go/internal/store/store.go:358-374 | when a registration is taken and what it adds; the gate fails if and only if an accuracy below 0.8 is given |
| Models.PromoteEffect | go/internal/store/store.go:380-394 | promotion is to one of three stages, to production only past the gate, and remembers the stage it left |
| Models.DeployEffect | go/internal/store/store.go:401-414 | deployment needs a weight between 0 and 100 and a passed gate, and sets status, weight and endpoint |
| Models.RollbackEffect | go/internal/store/store.go:440-446 | rollback needs an earlier stage, exchanges the two and takes the weight away |
| Models.SetEndpointEffect | go/internal/store/store.go:425-430 | endpoint and status are set, stages and weight kept |
| Models.FailedGateNeverInProduction | go/internal/store/store.go:369-392 | over every history each model goes back to a registration, and if that gave an accuracy below 0.8, production is neither its stage nor its rollback target |
| Models.ReachableIff | go/internal/store/store.go:379-450 | a stage and a rollback target occur together in some history if and only if neither is unknown, they are not both candidate, and production needs a passed gate |
| Workspaces.Workspace.Containers | go/internal/operator/workspace_controller.go:144-191 | a container per assigned service, with its share, port and graphics processors |
| Workspaces.Workspace.Reconcile | go/internal/operator/workspace_controller.go:41-142 | the children after an attempt of which only the first writes go through, and the status, which only a complete or a refused attempt changes |
| Workspaces.SplitAddsUp | go/internal/operator/workspace_controller.go:154-155 | when there is a container, processors and memory add up exactly to the grant |
| Workspaces.ContainersAre | go/internal/operator/workspace_controller.go:144-171 | workbench and editor get a container each if the grant names them, with their port and an equal share; graphics processors go to the workbench alone |
| Workspaces.DeploymentIs | go/internal/operator/workspace_controller.go:92-97 | no replica for a disabled grant or one without a service, otherwise one |
| Workspaces.PortsAre | go/internal/operator/workspace_controller.go:193-202 | the service opens the port of each container and is gone when there is none |
| Workspaces.VolumeIsMaximum | go/internal/operator/workspace_controller.go:60-63 | over every history of attempts the volume is the largest size asked for by an attempt that got to it |
| Workspaces.TokenIsFirst | go/internal/operator/workspace_controller.go:76-82 | over every history the token is the first one drawn and never changes |
| Workspaces.LatestGrantRuns | go/internal/operator/workspace_controller.go:89-122 | over every history deployment and service are those of the last grant whose attempt got to them |
| Workspaces.SuspendedRunsNothing | go/internal/operator/workspace_controller.go:92-97 | over every history, once a disabled grant has got to the deployment no replica runs |
| Workspaces.RepeatIsNoOp | go/internal/operator/workspace_controller.go:41-142 | repeating an attempt that went through changes no child, however far the repetition gets |

## Left out

- Executor.NextReports: the byte count in the success message is not modelled, because messages carry no decision.
- Outbox: neither exactly-once delivery nor per-key order is claimed, because workers may race and failed rows are skipped over.
- Presign.Primitives: URL parsing other than the query, path joining and escaping, SHA-256 and HMAC are parameters, and the order AWS itself gives to unusual extra parameters is not compared.
- Names.LowerAll: the Unicode case tables are a parameter that must leave label characters alone.
- Dispatcher.Dispatcher.Dispatch: resource versions are not modelled; a version conflict is one more call that fails.
- The read-then-write report of the Postgres store, which is not atomic; the run theorems are about the file store.
- Workspaces.Workspace.Reconcile: labels, images, environment variables, storage class, the resource name of graphics processors and owner references are copied from configuration and not modelled.
- Dispatching a functions run when no function gateway is configured, which reports the first job failed at once.
- Traces.TraceStore.AgentUsage: the cost in dollars is a floating-point sum and not modelled.
- Job commands, environments, repository fields, run parameters, timestamps and file persistence, which are carried along without affecting a decision.
- The Prefect path of pipeline dispatch, and call time-outs, which an oracle that replies with an error covers.
- HTTP handlers, authentication, quotas, blog posts, connections, feature views, tools and the web console: plumbing, foreign systems or simple lists.
