# kube-booster: a verified model

kube-booster keeps a pod out of service, through a readiness gate, until it has been warmed up
with HTTP or gRPC requests. This project models the parts of it where a mistake would be hard to
see by reading one function, and proves what they promise for every input, every outcome of the
environment and every interleaving.

| file | models | main results |
|---|---|---|
| `Reconcile.dfy`, `Outcomes.dfy`, `Pods.dfy` | `pkg/controller/pod_controller.go`: many reconciles over one semaphore, one gauge and a versioned pod store that others also write | `AcceptedWriteIsSafe`, `OneWritePerClear`, `GaugeWithinSlots`, `ExitsRestore`, `ExitsDecided`, `ResultsProduced`, `NoDeadlock`, `SlotComesFree` |
| `FileSet.dfy` | `buildFileSet` in `pkg/warmup/grpc_sender.go`: recursive registration with a memo and two registries | `SucceedsIff`, `DivergesIff`, `DescentNamesCulprit`, `SkipBranchNeverTaken`, `BuildFileSet` |
| `GrpcSender.dfy`, `GrpcMethod.dfy` | `GRPCSender.Send` and `parseGRPCMethod`: the caching sender against one that resolves every time | `AgreesEverywhereIff`, `AtMostOneLookup`, `ParsesExactlyJoins` |
| `Session.dfy` | `pkg/warmup/session.go`: iterated replacement against one simultaneous substitution | `IterateIsSubst`, `HarmlessSessionIff`, `Interpolate` |
| `Scenario.dfy`, `Timeline.dfy`, `Sends.dfy`, `ScenarioExecutor.dfy` | `pkg/warmup/scenario_executor.go`: what a run records, and the loops that compute it | `TimelineOfRun`, `EverySend`, `Conservation`, `SessionMeans`, `ExecuteScenario` |
| `StepSender.dfy` | scenario executor and caching gRPC sender together: one sender per step | `AgreesEverywhereIff` |
| `JsonPath.dfy` | `jsonPathLookup` | `LookupIsNested`, `LookupComposes` |
| `Executor.dfy`, `Percentiles.dfy` | `pkg/warmup/warmup_executor.go`: the request loop and the nearest-rank percentiles | `AttemptsAre`, `Accounting`, `Execute`, `CalculatePercentiles` |
| `Config.dfy` | `ParseConfig` in `pkg/warmup/config.go` | `ParseConfig`, `FieldsComeFromAnnotations`, `ErrorsNameAnnotations` |
| `DeepCopy.dfy` | the hand-written deep copies in `pkg/api/v1alpha1/deepcopy.go` | `CopyConfig`, `DeepCopyInto` |

`Common.dfy` holds `Option`, `Result` and three small functions; `Environment.dfy` the clock,
contexts, limiter and senders as an oracle indexed by the number of questions asked so far.
`dafny verify dfyconfig.toml` checks everything.

## What is assumed

- The API server rejects a status update whose resourceVersion is not the stored one ("Concurrency
  Control and Consistency" in the Kubernetes API Conventions). Nothing else is assumed of it: reads
  come from the manager's cache (`cmd/controller/main.go:151`) and may return any past revision, an
  accepted write may be reported as failed, any request may fail, and other actors may create,
  change and delete pods at will.
- The clock, context cancellation, limiter outcomes, sender outcomes, reflection lookups, protobuf
  and JSON decoding, `time.ParseDuration`, `strconv.Atoi` and `%v` are arbitrary functions. Only the
  clause of `Executor.Execute` that ties a short total to a reported context error supposes that
  the clock does not run backwards.

## Where the code and its comments disagree

The model follows the code in each case.

- `pkg/warmup/session.go:42-43` says that sorting the keys keeps a substituted value from being
  substituted again. It does not: with a = `{{b}}` and b = `x`, `{{a}}` becomes `x`
  (`InjectionExample`). `HarmlessSessionIff` gives the exact condition for a session of any size
  together with its parts, as they stand while variables are still being extracted: no value may
  *touch* the token of a key sorted after its own, that is, no end of it may begin the token or
  already contain it (unless that key's value is its own token). For a session by itself the
  condition suffices but is not necessary, because a later pass can undo an earlier one
  (`PartsAreNeeded`).
- `pkg/warmup/grpc_sender.go:259-260` says when a file can already be in the local set after its
  imports were registered. On a run that gets that far this never happens (`SkipBranchNeverTaken`).
  What does happen, for lack of an in-progress mark, is unbounded recursion. It happens exactly when
  the chain that starts at the first root that is not clean, and always goes on to the first import
  that is not clean, never stops; where it does stop is the file the error names (`DivergesIff`,
  `DescentNamesCulprit`). A name is clean when everything it reaches resolves and is on no cycle.
- `pkg/warmup/scenario_executor.go:153` creates one gRPC sender per step because steps may name
  different methods. Requests within a step may too, and the sender's cache is not keyed by method.
  It agrees with a resolving sender exactly when all methods parse alike
  (`GrpcSender.AgreesEverywhereIff`), and a scenario has the counts and the session of one that
  resolves every request exactly when this holds in each of its steps
  (`StepSender.AgreesEverywhereIff`).
- `pkg/warmup/warmup_executor.go:191-193` clamps an index that is always in range
  (`ClampNeverFires`).

## Model

| member | source | states |
|---|---|---|
| `Reconcile.AcceptedWriteIsSafe` | pkg/controller/pod_controller.go:45-290 | in every run, when a controller write is accepted the stored pod itself has the gate, is Running with all containers ready and ContainersReady true, and its warmup condition is not true; the write makes it true with the result's message and reason WarmupComplete iff it succeeded, and changes nothing else of this pod or any other |
| `Reconcile.OneWritePerClear` | pkg/controller/pod_controller.go:73-290 | in every reachable state a pod has had at most one accepted controller write more than other actors have taken its condition away |
| `Reconcile.FreshIsSnapshot` | pkg/controller/pod_controller.go:243-287 | a write that carries the stored version carries the stored pod: the snapshot taken before the semaphore wait and the warmup is what is stored |
| `Reconcile.GaugeWithinSlots` | pkg/controller/pod_controller.go:99-118 | in every reachable state each gauge label counts exactly the reconciles between increment and deferred decrement, and the gauge's total is at most the slots held, at most the capacity |
| `Reconcile.CountedHolds` | pkg/controller/pod_controller.go:99-118 | whoever is counted by the gauge holds a slot |
| `Reconcile.ExitsRestore` | pkg/controller/pod_controller.go:99-219 | whatever the exit, a returned reconcile holds no slot and is not counted; once all have returned semaphore and gauge are at zero |
| `Reconcile.DeferredNeverUnderflows` | pkg/controller/pod_controller.go:109-118 | no deferred release or decrement goes below zero |
| `Reconcile.ExitsExplained` | pkg/controller/pod_controller.go:45-219 | what each exit says of the fetched pod, and the exact event trace: Queued iff concurrency is limited, Started, Completed or Failed, two Failed exactly after a failed lookup, ConditionUpdated last and fail-open iff the warmup failed |
| `Outcomes.ExitsDecided` | pkg/controller/pod_controller.go:45-219 | in every run a reconcile returns by an exit iff a step of its own decided it: Finished iff its update was acknowledged; Errored iff the Get failed or the update was not acknowledged; Ignored iff the pod is gone, has no gate or is marked; Requeued iff the pod is not Running, not all its containers are ready, ContainersReady is not true, or no slot was granted |
| `Outcomes.ConditionUpdatedMeans` | pkg/controller/pod_controller.go:131-140 | ConditionUpdated is emitted exactly by the reconciles that finish |
| `Outcomes.ResultsProduced` | pkg/controller/pod_controller.go:121-187 | the result a reconcile reports, writes and counts is the one its steps produced: a configuration error, a failed lookup, an executor's result, or the skip without an executor |
| `Outcomes.LookupsRecorded` | pkg/controller/pod_controller.go:156-176 | the lookup counts as failed iff a step of the reconcile failed it |
| `Outcomes.ExecutorChosen` | pkg/controller/pod_controller.go:142-187 | with a WarmupConfig annotation and a scenario executor the scenario runs or its lookup fails, else the single-endpoint executor runs if there is one, else none; the configuration carries the pod's address |
| `Outcomes.TracesWritten` | pkg/controller/pod_controller.go:45-219 | the event trace of every exit, written out |
| `Outcomes.WorkingIsCounted` | pkg/controller/pod_controller.go:99-118 | from Started until it returns a reconcile is counted and holds a slot if there are any; before and after it does neither |
| `Outcomes.GaugeMeans` | pkg/controller/pod_controller.go:99-118 | the gauge of a namespace and a node counts the reconciles of their pods, and the semaphore those that hold a slot |
| `Reconcile.RequestCounter` | pkg/controller/pod_controller.go:189-193 | the request counter is the sum of completed and failed over all reconciles' results, each counted once |
| `Outcomes.RequestsMean` | pkg/controller/pod_controller.go:189-193 | the request counter grows by completed plus failed when an executor returns, and at no other step |
| `Reconcile.StepsRunOut` | pkg/controller/pod_controller.go:45-219 | in every run, whatever the environment answers, a reconcile takes at most eleven steps after it was spawned |
| `Reconcile.NoDeadlock` | pkg/controller/pod_controller.go:99-111 | while a reconcile waits for one of a positive number of slots, in any reachable state, a slot is free or slots are held, and every holder has a step that waits for nobody; whatever step it takes brings it closer to its return |
| `Reconcile.SlotComesFree` | pkg/controller/pod_controller.go:99-219 | from any reachable state with a waiting reconcile, at most eight steps of a single holder, none of them an Acquire, lead to a state in which the waiting one gets a slot |
| `Reconcile.RunInv` | pkg/controller/pod_controller.go:45-290 | the store, snapshot, defer-stack, event, slot, gauge, counter and write invariants hold in every state of every run |
| `Reconcile.StepKeepsApi` | pkg/controller/pod_controller.go:284-287 | every step keeps the store's history consistent and never rewrites a revision |
| `Reconcile.StepAdvances` | pkg/controller/pod_controller.go:45-219 | every step of a reconcile keeps its invariant, lowers its rank, and moves semaphore, gauge and counter by what its deferred calls and its result change |
| `Reconcile.StepKeepsTallies` | pkg/controller/pod_controller.go:99-193 | every step moves the semaphore, each gauge label, their total and the request counter exactly as it moves the reconciles they count, within the capacity |
| `Reconcile.StepKeepsOnce` | pkg/controller/pod_controller.go:73-77 | every step keeps writes within clears plus one, and within clears for a stored pod without the condition |
| `Pods.IsConditionTrue` | pkg/controller/pod_controller.go:223-230 | true iff the first condition of the kind has status True |
| `Pods.AreContainersReady` | pkg/controller/pod_controller.go:233-240 | true iff there is a container status and all are ready |
| `Pods.PodCopy.SetReady` | pkg/controller/pod_controller.go:259-282 | the in-place loop computes the specified conditions |
| `Pods.WithReadyChangesOnlyIt` | pkg/controller/pod_controller.go:259-282 | one position changes, it becomes the first warmup condition, and if it existed it was the first one before |
| `Pods.WithReadyKeepsOthers` | pkg/controller/pod_controller.go:259-282 | every other condition reads as before |
| `Pods.WithReadyAt` | pkg/controller/pod_controller.go:259-282 | the change is an update at the first warmup condition, or an append |
| `FileSet.SucceedsIff` | pkg/warmup/grpc_sender.go:232-284 | some recursion depth makes the build succeed iff every transitive import resolves and none is on a cycle |
| `FileSet.DivergesIff` | pkg/warmup/grpc_sender.go:240-281 | for every response: the recursion exceeds every depth iff some root is not clean and the descent from the first such root, always to the first import that is not clean, never stops |
| `FileSet.VisitTerminatesIff` | pkg/warmup/grpc_sender.go:241-275 | a call for a name that is not clean, from any registry the code can be in, terminates iff its descent stops |
| `FileSet.DescentNamesCulprit` | pkg/warmup/grpc_sender.go:240-281 | when the descent stops, the build fails and its error names the file where it stops |
| `FileSet.ResolvedDivergesIff` | pkg/warmup/grpc_sender.go:240-281 | when all imports resolve, the recursion exceeds every depth iff a reachable file is on a cycle |
| `FileSet.CleanIsRegistered` | pkg/warmup/grpc_sender.go:241-275 | a clean name never fails, and is registered at a depth of the number of received files |
| `FileSet.RegisteredIsClean` | pkg/warmup/grpc_sender.go:241-275 | whatever is registered is clean |
| `FileSet.AcyclicTerminates` | pkg/warmup/grpc_sender.go:240-275 | on an acyclic graph a depth of the number of received files suffices, from any registry |
| `FileSet.SelfImportDiverges` | pkg/warmup/grpc_sender.go:254-258 | a file that imports itself is never registered; its registration exceeds every depth iff its descent never stops, so in particular when all it reaches resolves or when the imports listed before itself are clean |
| `FileSet.TooDeepFindsCycle` | pkg/warmup/grpc_sender.go:240-275 | a run deeper than the number of files exhibits a reachable cycle |
| `FileSet.DeeperIsSame` | pkg/warmup/grpc_sender.go:240-275 | once a depth suffices, the result no longer depends on it |
| `FileSet.SuccessIsSound` | pkg/warmup/grpc_sender.go:232-284 | success at any depth implies that everything reachable resolves and lies on no cycle |
| `FileSet.VisitKeeps` | pkg/warmup/grpc_sender.go:241-275 | a call keeps the boundary invariant (marked local names are exactly the registered files, each once and after its imports), adds only reachable names, and fails only on a reachable name that does not resolve |
| `FileSet.VisitAllKeeps` | pkg/warmup/grpc_sender.go:254-258 | the same for the loop over imports or roots |
| `FileSet.RegisteredNotOnCycle` | pkg/warmup/grpc_sender.go:241-275 | a registered name is on no import cycle |
| `FileSet.SkipBranchNeverTaken` | pkg/warmup/grpc_sender.go:259-264 | after a file's imports are registered the file is not yet in the local set |
| `FileSet.Builder.Register` | pkg/warmup/grpc_sender.go:241-275 | the closure over its mutable state computes the specified visit and keeps the invariant, after an error too |
| `FileSet.RegisterRoots` | pkg/warmup/grpc_sender.go:277-281 | the loop over the roots computes the specified visit |
| `FileSet.TotalBytes` | pkg/warmup/grpc_sender.go:215-218 | the total size of the response |
| `FileSet.SizesAdd` | pkg/warmup/grpc_sender.go:215-218 | the size of a response is the sum of the sizes of its descriptors |
| `FileSet.Decode` | pkg/warmup/grpc_sender.go:223-235 | succeeds iff every descriptor decodes, with the index and the names in order |
| `FileSet.IndexDomain` | pkg/warmup/grpc_sender.go:232-235 | the index holds exactly the received names |
| `FileSet.IndexKeepsLast` | pkg/warmup/grpc_sender.go:232-235 | of several files with one name the last is indexed |
| `FileSet.BuildFileSet` | pkg/warmup/grpc_sender.go:214-284 | when each error is returned and which file a rejection names; success iff within 4 MiB, all decoded and every transitive import resolves; the registry then holds every received name once, after its imports |
| `GrpcMethod.LastSlash` | pkg/warmup/grpc_sender.go:131 | the last slash, or -1 if there is none |
| `GrpcMethod.ParsesExactlyJoins` | pkg/warmup/grpc_sender.go:130-136 | parsing yields (service, method) iff the text is their join, both non-empty and the method slash-free |
| `GrpcMethod.RejectsIff` | pkg/warmup/grpc_sender.go:132-134 | rejection iff no last slash has text on both sides |
| `GrpcSender.GRPCSender.Send` | pkg/warmup/grpc_sender.go:53-119 | response and new state are those of the cached sender; the cached path belongs to the cached descriptor |
| `GrpcSender.SendMeans` | pkg/warmup/grpc_sender.go:53-119 | the cached sender case by case: what each state answers and becomes; an Invoke of "/service/method" answers 200 with its body, 500 with none when refused, a transport error when cut off or when the payload does not fit |
| `GrpcSender.FreshMeans` | pkg/warmup/grpc_sender.go:53-119 | the same for a sender that resolves every time |
| `GrpcSender.FindsIffResolves` | pkg/warmup/grpc_sender.go:73-78 | a method resolves to d iff it is service/method and the lookup of these two finds d |
| `GrpcSender.LookedUpOnce` | pkg/warmup/grpc_sender.go:66-87 | once the method was looked up, what a later lookup would find makes no difference to any sequence of Sends |
| `GrpcSender.SameMethodAgrees` | pkg/warmup/grpc_sender.go:53-119 | with one method, every response of every sequence equals that of a sender that resolves each time |
| `GrpcSender.AgreesEverywhereIff` | pkg/warmup/scenario_executor.go:153-205 | agreement in every environment iff all named methods parse alike |
| `GrpcSender.MixedMethodsDisagree` | pkg/warmup/scenario_executor.go:198-205 | an environment and calls that disagree, for any sequence naming a differing method |
| `GrpcSender.CachedDescriptorStays` | pkg/warmup/grpc_sender.go:69-87 | once cached, the descriptor answers every later call, whatever method it names |
| `GrpcSender.AtMostOneLookup` | pkg/warmup/grpc_sender.go:66-87 | at most one lookup over any sequence, none once cached or failed |
| `GrpcSender.FailureIsSticky` | pkg/warmup/grpc_sender.go:70-81 | after a failed lookup every Send fails without looking up or invoking |
| `GrpcSender.PathIsSlashMethod` | pkg/warmup/grpc_sender.go:84 | a faithful descriptor's path is "/" and the method (Path rule, "Requests" section of gRPC over HTTP2) |
| `GrpcSender.AcceptedMethodIsLookedUp` | pkg/warmup/grpc_sender.go:66-82 | over any sequence of Sends of an accepted gRPC configuration the sender gives up only because the lookup found nothing, never on the method name; the first Send that can dial looks up |
| `Session.IterateIsSubst` | pkg/warmup/session.go:56-58 | in every key order in which no value is harmed by a later pass, the iterated replacement is one simultaneous substitution, unknown tokens intact |
| `Session.BracelessValuesAnyOrder` | pkg/warmup/session.go:56-58 | with values free of opening braces this holds in every key order |
| `Session.PassFillsHoles` | pkg/warmup/session.go:57 | one ReplaceAll fills exactly one key's holes in a partly filled template |
| `Session.InterpolatedIsSubst` | pkg/warmup/session.go:45-60 | Interpolate is the simultaneous substitution on every harmless session |
| `Session.HoleBecomesValue` | pkg/warmup/session.go:40-60 | under a harmless session {{name}} becomes the value of name, and stays if there is none |
| `Session.LessMeans` | pkg/warmup/session.go:55 | keys are sorted in dictionary order |
| `Session.HarmlessSessionIff` | pkg/warmup/session.go:40-60 | for a session of any size: all well-formed templates are substituted simultaneously, under it and every part of it, iff it is harmless |
| `Session.PartsAreNeeded` | pkg/warmup/session.go:56-58 | sessions that are not harmless although every well-formed template is substituted simultaneously under the whole of them |
| `Session.CancellingPasses` | pkg/warmup/session.go:56-58 | for any three names, a value taken apart by one pass and put together by the next |
| `Session.AlwaysSimultaneousIff` | pkg/warmup/session.go:56-58 | for two keys in a given order: all well-formed templates iff the first value is harmless to the second key |
| `Session.TouchingMisfires` | pkg/warmup/session.go:42-43 | a well-formed template that any touching value breaks |
| `Session.InjectionExample` | pkg/warmup/session.go:42-43 | the sorted order lets a value be substituted again |
| `Session.NestedHoleMisfires` | pkg/warmup/session.go:57 | a hole nested in braces misfires for all names |
| `Session.BraceBeforeHoleMisfires` | pkg/warmup/session.go:57 | a brace before a hole and an empty value misfire for all names |
| `Session.BraceInKeyMisfires` | pkg/warmup/session.go:57 | a key with braces swallows two holes, for all names |
| `Session.PlainUnchanged` | pkg/warmup/session.go:46-48 | the fast path returns what the passes would |
| `Session.ReplaceSkips` | pkg/warmup/session.go:57 | a stretch in which no occurrence begins is copied |
| `Session.ReplaceChanges` | pkg/warmup/session.go:57 | replacing an occurring token by another text changes the text |
| `Session.InsertSorts` | pkg/warmup/session.go:51-55 | inserting keeps the keys sorted and complete |
| `Session.SortedUnique` | pkg/warmup/session.go:51-55 | the sorted listing does not depend on map iteration order |
| `Session.SessionContext.Interpolate` | pkg/warmup/session.go:45-60 | the replacing loop over the sorted keys computes the specified text |
| `Session.CollectKeys` | pkg/warmup/session.go:51-55 | collecting and sorting gives the sorted keys, for every iteration order of the map |
| `Session.Contains` | pkg/warmup/session.go:46 | true iff "{{" occurs |
| `JsonPath.JsonPathLookup` | pkg/warmup/scenario_executor.go:291-308 | the cursor loop computes the specified lookup, which fails on every path that does not begin with "$." |
| `JsonPath.LookupIsNested` | pkg/warmup/scenario_executor.go:291-308 | "$." and dot-joined keys find v iff a chain of member accesses leads from the document to v (a subset of the child segments of section 2.5.1 of RFC 9535) |
| `JsonPath.LookupComposes` | pkg/warmup/scenario_executor.go:291-308 | looking up p.q is looking up q in the object found at p, failing iff either stage fails |
| `JsonPath.SplitUndoesJoin` | pkg/warmup/scenario_executor.go:295 | splitting undoes joining of dot-free keys |
| `JsonPath.SplitAtDot` | pkg/warmup/scenario_executor.go:295 | splitting distributes over a dot |
| `Timeline.TimelineOfRun` | pkg/warmup/scenario_executor.go:97-257 | the timeline of every run: steps are entered one right after the other, requests begin one right after the other, each makes the Sends its count asks for unless its step's context is found done or the limiter fails at the reading that comes next, which charges what is left; steps and the run end with their last item or at a reading that finds their context done |
| `Timeline.SendsPerRequest` | pkg/warmup/scenario_executor.go:179-249 | a request makes at most max(1, Count) Sends, and exactly that many unless its context was found done or the limiter refused while it ran |
| `Timeline.RequestIs` | pkg/warmup/scenario_executor.go:179-254 | what one request adds to the run: its Sends, the ticks they were made at, and what was charged |
| `Timeline.HealthyRun` | pkg/warmup/scenario_executor.go:97-256 | when no context ends and the limiter never fails, exactly the sum of max(1, Count) Sends is made |
| `Sends.EverySend` | pkg/warmup/scenario_executor.go:161-248 | every Send written out: protocol, address, verb, headers and payload from configuration, spec and session; its response is the one given at a reading at which its context was alive and the limiter consented; it counts as completed iff its status is the expected one |
| `Sends.CompletedMeans` | pkg/warmup/scenario_executor.go:233-248 | completed counts the Sends that complete |
| `Sends.DeadlineMeans` | pkg/warmup/scenario_executor.go:78-116 | the deadline of a Send is the earliest of the caller's, the scenario's start plus its timeout or two minutes, its start plus five minutes, and the step's entry plus its timeout or thirty seconds |
| `Sends.LastReplyMeans` | pkg/warmup/scenario_executor.go:184-239 | the body kept for extraction is that of the last of the request's Sends without a transport error |
| `Sends.SessionMeans` | pkg/warmup/scenario_executor.go:251-286 | the session holds a value under a name iff it is what the last request that yielded the name found under the path it gives |
| `Scenario.Conservation` | pkg/warmup/scenario_executor.go:97-256 | completed plus failed is the Sends made plus the repetitions charged by limiter failures, completed are the successful Sends, and the total is at most the sum of max(1, Count) |
| `Scenario.Chaining` | pkg/warmup/scenario_executor.go:184-255 | the session behind each Send is the fold of the extractions of the requests before, in spec order and each from its last response without transport error; all repetitions send one target |
| `Scenario.UnnamedNeverChanges` | pkg/warmup/scenario_executor.go:252-286 | a variable changes only in requests that name it in Extract |
| `Scenario.Deadlines` | pkg/warmup/scenario_executor.go:78-122 | each Send's deadline is the least of the caller's, the clamped scenario timeout and the step's; the steps entered are a prefix of the spec, a proper one only if the scenario context ran out |
| `Scenario.ReconcileBoundsSends` | pkg/controller/pod_controller.go:148-154 | for an accepted configuration no Send's deadline is beyond 305 seconds |
| `Scenario.LongTimeoutIdle` | pkg/warmup/scenario_executor.go:78-89 | a spec timeout beyond the caller's deadline has no effect on the run |
| `Environment.WithTimeoutMeans` | pkg/warmup/scenario_executor.go:88-116 | a derived context is done with its parent or when its time is up, whichever comes first |
| `Scenario.RunKeeps` | pkg/warmup/scenario_executor.go:97-122 | the run invariant holds at the end, and only the scenario context cuts steps off: a step's own expiry never stops later steps |
| `Scenario.ChargesAtMostWeight` | pkg/warmup/scenario_executor.go:97-256 | the total never exceeds the repetitions asked for |
| `Scenario.StepKeeps` | pkg/warmup/scenario_executor.go:99-122 | running a step keeps the run invariant |
| `Scenario.RepeatKeeps` | pkg/warmup/scenario_executor.go:186-249 | the repetitions of a request keep the run invariant and leave session and finished requests alone |
| `Scenario.FinishKeeps` | pkg/warmup/scenario_executor.go:251-254 | the extraction after a request keeps the run invariant |
| `ScenarioExecutor.ExecuteScenario` | pkg/warmup/scenario_executor.go:65-143 | the counts are those of the recorded run, success iff some request completed, the context's error iff it is done at the end; no pod IP and no steps as in the source |
| `ScenarioExecutor.CountsAreTheRuns` | pkg/warmup/scenario_executor.go:97-256 | the counts and session the loops compute are those of the run that records every Send |
| `ScenarioExecutor.ExecuteSteps` | pkg/warmup/scenario_executor.go:97-122 | the loop over the steps, on a session object it updates, computes the specified counts |
| `ScenarioExecutor.EnterStep` | pkg/warmup/scenario_executor.go:109-118 | one step under its own timeout |
| `ScenarioExecutor.ExecuteStep` | pkg/warmup/scenario_executor.go:146-257 | the loop over a step's requests |
| `ScenarioExecutor.ExecuteRequest` | pkg/warmup/scenario_executor.go:161-255 | one request: its repetitions, then the extraction |
| `ScenarioExecutor.RunRepetitions` | pkg/warmup/scenario_executor.go:179-249 | the repetition loop with its three ways out; the target is rebuilt each time and is always the same |
| `ScenarioExecutor.ExtractVariables` | pkg/warmup/scenario_executor.go:272-287 | the session gains exactly the variables whose path is found, in whatever order the map is iterated |
| `ScenarioExecutor.SendOnce` | pkg/warmup/scenario_executor.go:195-231 | the response is that of a Send to the request's target under the current session |
| `ScenarioExecutor.Judge` | pkg/warmup/scenario_executor.go:233-248 | a response counts as completed iff it is no transport error and its status is accepted |
| `ScenarioExecutor.BuildTarget` | pkg/warmup/scenario_executor.go:196-231 | the target is that of the request under the current session |
| `ScenarioExecutor.BuildHttpTarget` | pkg/warmup/scenario_executor.go:207-230 | the HTTP target with default endpoint and verb |
| `ScenarioExecutor.BuildHeaders` | pkg/warmup/scenario_executor.go:213-218 | the default headers overridden by the filled templates, in any iteration order |
| `StepSender.AgreesEverywhereIff` | pkg/warmup/scenario_executor.go:146-257 | with one caching sender per step, a scenario has the counts and the session of one that resolves the method of every request, in every environment, iff in each step all gRPC requests name methods that parse alike |
| `StepSender.OneMethodAgrees` | pkg/warmup/scenario_executor.go:146-257 | if they do, counts and session agree in any given environment |
| `StepSender.MixedStepDiffers` | pkg/warmup/scenario_executor.go:198-205 | if some step names two methods, an environment in which the completed counts differ |
| `StepSender.WholeMatches` | pkg/warmup/scenario_executor.go:97-257 | a scenario whose senders answer like the environment has the counts and the session of the recorded run |
| `StepSender.FirstMethodStays` | pkg/warmup/grpc_sender.go:69-87 | after the first gRPC request of a step its sender holds on to that request's method |
| `StepSender.FreshMeans` | pkg/warmup/grpc_sender.go:53-119 | what a gRPC Send in a scenario hears, written out; a sender not yet used answers alike |
| `StepSender.HeatedScenario` | pkg/warmup/scenario_executor.go:97-257 | in an environment that stops nothing and answers a single request, the scenario completes exactly what that request completes |
| `Executor.AttemptsAre` | pkg/warmup/warmup_executor.go:109-140 | a run exactly: consecutive Sends, each made with the context alive and the limiter's consent, until all are made, the limiter first refuses, or the context is first found done before a request or after one that failed in transport |
| `Executor.HealthyRun` | pkg/warmup/warmup_executor.go:109-140 | with a context that stays alive and a limiter that never refuses all requests are made |
| `Executor.OksCounted` | pkg/warmup/warmup_executor.go:135-139 | completed counts the replies with a status from 200 below 400 |
| `Executor.LatenciesCounted` | pkg/warmup/warmup_executor.go:131-133 | the latencies are the durations of the Sends without a transport error, each once |
| `Executor.TargetMeans` | pkg/warmup/warmup_executor.go:67-84 | the target of either protocol, written out |
| `Executor.ItoaRoundTrip` | pkg/warmup/config.go:203-215 | the decimal port reads back as the port |
| `Executor.Accounting` | pkg/warmup/warmup_executor.go:104-156 | completed plus failed never exceeds the count, equals it on exhaustion and limiter failure, and falls short only when the context was seen done |
| `Executor.ContinueBounded` | pkg/warmup/warmup_executor.go:109-140 | a run extends what was received by at most the remaining requests, by all of them on exhaustion |
| `Executor.Loop` | pkg/warmup/warmup_executor.go:104-140 | after every iteration success plus failure is the iterations charged; the latencies are those of the Sends without transport error |
| `Executor.Execute` | pkg/warmup/warmup_executor.go:53-170 | the tally of the run, percentiles of rank, success iff some request completed, the context's error iff it is done at the end and so on every short total; the two early errors, of which an accepted configuration never meets the unsupported protocol |
| `Percentiles.CalculatePercentiles` | pkg/warmup/warmup_executor.go:173-196 | P50 and P99 have ranks ceil(n·50/100) and ceil(n·99/100) in the list as passed, P50 ≤ P99, the list is permuted |
| `Percentiles.SortedRank` | pkg/warmup/warmup_executor.go:180-194 | in a sorted list the element of rank r is at index r - 1: at least r are no greater, fewer than r are smaller |
| `Percentiles.RankMonotone` | pkg/warmup/warmup_executor.go:180-194 | a higher rank has no smaller element |
| `Percentiles.RankPermuted` | pkg/warmup/warmup_executor.go:178 | ranks do not depend on order |
| `Percentiles.PercentilesIgnoreOrder` | pkg/warmup/warmup_executor.go:173-196 | the element of a rank is determined by the multiset |
| `Percentiles.CountPermuted` | pkg/warmup/warmup_executor.go:178 | counting is invariant under permutation |
| `Percentiles.ClampNeverFires` | pkg/warmup/warmup_executor.go:191-193 | the index is in range for every length |
| `Percentiles.Sort` | pkg/warmup/warmup_executor.go:178 | sorted, and a permutation, in place |
| `Percentiles.Rank` | pkg/warmup/warmup_executor.go:181-187 | the integer expression is the ceiling of n·p/100 |
| `Config.ParseConfig` | pkg/warmup/config.go:79-200 | succeeds iff the pod is acceptable, with the configuration its annotations and containers describe; otherwise reports the first thing wrong in the order of the checks |
| `Config.FieldsComeFromAnnotations` | pkg/warmup/config.go:79-187 | each field of an accepted configuration comes from its own annotation key or its default, within its bounds |
| `Config.ErrorsNameAnnotations` | pkg/warmup/config.go:100-199 | for each error, the annotation at fault and what is wrong with it |
| `Config.ParseRaw` | pkg/warmup/config.go:94-200 | the same on the annotation values |
| `Config.ParseLimits` | pkg/warmup/config.go:100-128 | request count and timeout, or which of them is out of bounds first |
| `Config.ParseProtocol` | pkg/warmup/config.go:130-160 | protocol, gRPC method and payload, or what is wrong with them first |
| `Config.ParsePort` | pkg/warmup/config.go:167-199 | the annotated port, or the only port of the only container, or which of the two failed |
| `Config.AcceptedIsSound` | pkg/warmup/config.go:79-200 | an accepted configuration has bounded count and timeout, a supported protocol and, for gRPC, a method that parses |
| `DeepCopy.CopyMap` | pkg/api/v1alpha1/deepcopy.go:84-97 | equal entries in a fresh map, nil kept apart from empty |
| `DeepCopy.CopyRequest` | pkg/api/v1alpha1/deepcopy.go:82-98 | equal in value, both maps fresh |
| `DeepCopy.CopyRequests` | pkg/api/v1alpha1/deepcopy.go:73-77 | equal element by element, everything mutable in it fresh |
| `DeepCopy.CopyStep` | pkg/api/v1alpha1/deepcopy.go:70-79 | equal in value, nil kept apart from empty, everything mutable fresh |
| `DeepCopy.CopySteps` | pkg/api/v1alpha1/deepcopy.go:61-65 | equal element by element, everything mutable fresh |
| `DeepCopy.CopyConfig` | pkg/api/v1alpha1/deepcopy.go:16-67 | equal in value at every depth and shares no slice or map with anything that existed before |
| `DeepCopy.CopyConfigs` | pkg/api/v1alpha1/deepcopy.go:49-53 | equal element by element, everything mutable fresh |
| `DeepCopy.WarmupConfigList.DeepCopyInto` | pkg/api/v1alpha1/deepcopy.go:44-55 | writes only the target, which becomes an equal list sharing nothing mutable with the source |

## Left out

- Reconcile is a system of atomic steps rather than one sequential method, since its properties are
  about interleavings; `setConditionTrue`, `isConditionTrue` and `areContainersReady` are methods.
- Condition types, phases, reasons and the fail-open prefix are constructors instead of strings.
- Event texts, log lines, `BuildMessage`, and metrics other than the active-pods gauge and the
  request counter: strings and thin wrappers.
- Workqueue fairness and wall-clock liveness, which rest on controller-runtime; `NoDeadlock`,
  `SlotComesFree` and `StepsRunOut` say what the code itself contributes.
- HTTP and gRPC transport and `fetchFileDescriptorBytes`: oracles. The part of
  `resolveMethodDescriptor` that follows `buildFileSet` is in the lookup oracle.
- Symbol-level conflicts that `protodesc.NewFile` or `RegisterFile` may report: a file is buildable
  or not, regardless of which other files are registered.
- FileSet.ResolvedDivergesIff: the special case in which all imports resolve; `DivergesIff` has no
  condition.
- FileSet.Builder.Register: describes the calls that terminate; the ghost parameter `depth` bounds
  the recursion of such a call, and `SucceedsIff` and `DivergesIff` say for which inputs one exists.
- In `Scenario.dfy` and `ScenarioExecutor.dfy` a Send is an oracle of tick, protocol and target;
  `StepSender.dfy` puts the caching gRPC sender of each step in its place.
- The session's mutex and concurrent access: the session is used by one scenario at a time. `Get`,
  a map lookup that only the tests of the repository call, has no property of its own.
- Session.AlwaysSimultaneousIff: two keys only; `HarmlessSessionIff` is the statement for any number.
- Config.ParseConfig: an error is a constructor, not its text, and the three port-detection errors
  are one; an auto-detected container port is not claimed to lie in 1..65535 because the source does
  not check it.
- `x/time/rate`, `x/sync/semaphore`, protobuf, JSON, duration and integer parsing: library code.
- Deep copy of Kubernetes object metadata (library code, carried as a value), nil receivers, and
  `DeepCopyObject`; slices are appended to instead of allocated at full length.
- Percentiles.Sort: a selection sort stands in for the library's `slices.Sort`.
- Step and request names, which only reach the log.
- The mutating webhook, predicates, flags and manager wiring: single scans and configuration.
