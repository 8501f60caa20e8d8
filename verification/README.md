# luncur in Dafny

A model of the parts of luncur (a self-hosted PaaS) whose correctness depends on
more than one function: the pipeline compiler, the Argo engine, canary
rollouts, the assistant's tool loop, node drains, and four string machines.
`dafny verify dfyconfig.toml` checks everything.

| file | what it models |
|---|---|
| `Strings.dfy`, `Wrappers.dfy`, `Graph.dfy` | Go's string operations and sorting, results, needs graphs with explicit paths |
| `Pipeline.dfy`, `Kahn.dfy` | the three graph searches and the topological sort of the compiler |
| `Regexp.dfy`, `Compiler.dfy`, `Artifacts.dfy` | the regular expressions of names and keys, every check of `Compile`, and the environment that links producers to consumers |
| `Argo.dfy`, `ArgoTick.dfy`, `ArgoRuns.dfy` | translation of a pipeline into a Workflow DAG; the tick that folds the workflow back into step rows; runs of any number of ticks |
| `Cluster.dfy`, `CanaryPlan.dfy`, `CanaryRouting.dfy`, `CanaryTurns.dfy`, `Canary.dfy` | the cluster as a map of objects, sizes and manifests, the routing invariant, the turns of the step loop as a relation with its clock, and the rollout machine one API call at a time |
| `ToolLoop.dfy` | the loop between model and tools, and the conversation kept between turns |
| `Drain.dfy` | eviction passes, retries and the clock |
| `Cron.dfy`, `Redact.dfy`, `ToolPath.dfy`, `Mail.dfy` | cron expressions, secret redaction, path filling, MIME messages |

Code that updates state in place is a class or a method with loops, proved
against a specification; the specifications are then the subject of the lemmas.
The outside world is a parameter: each API call, eviction, probe, model reply,
tool result, clock reading and concurrent request is an arbitrary answer, and
the results hold for all of them.

## Where the code differs from what it says or is for

Each of these is proved, with the condition under which it happens.

- **Cron.** A comment says `N/S` means `N-max/S`. For `N` beyond the maximum the
  long form is an error but the short one is accepted and selects nothing
  (`99/5`): `Cron.StepFromValue`, `Cron.EmptyExactlyBeyondMaximum`. With such
  a minute, hour or month, or on February 30th, a schedule is accepted and never
  due: `Cron.NeverDueFromText`.
- **Canary hold.** A step's start is stored in whole seconds, so a step can be
  left up to one second before its hold is over: `CanaryTurns.EarlyExactly`.
- **Canary start.** A start that is refused part-way fails the deploy without a
  cleanup (internal/server/canary.go:127-129, internal/server/apps.go:506-512).
  It leaves canary objects behind exactly when the canary Deployment had been
  applied by then: `CanaryRouting.StartLeaves`, `Canary.Server.Deploy`.
- **Canary requests.** A promote or abort request accepted after the loop has
  read the record survives that turn exactly when no newer deploy owns the app,
  the record read is stepping and the verdict on it is to wait
  (`CanaryTurns.LateRequestSurvives`). One accepted while the canary track is
  still coming up makes the gate mark the deploy live with the stable track
  untouched and the canary objects left in place (`Canary.Server.Deploy`).
- **Canary cleanup.** Failing deletes are only logged. A route can be left
  dangling: `CanaryRouting.CleanupDanglesIff`.
- **Canary abort.** A comment says that on abort the stable track was never
  changed. After a promotion that fails part-way it may have been:
  `CanaryRouting.PromotionIsNotUndone`.
- **Argo runs.** An action that is still running when its tick ends, such as a
  gated deploy, is never harvested, and an action whose need failed is never
  skipped; either keeps the run active forever: `ArgoRuns.StuckForever`. Once the
  compute steps are final and the workflow can be read often enough nothing else
  does: `ArgoRuns.EndsUnlessStuck`, and from the inputs `ArgoRuns.EndsExactly`
  and `ArgoRuns.WholeRunEndsExactly`.
- **Tool results.** A truncated result is 18 bytes longer than the cap:
  `ToolLoop.CapLength`.
- **Redaction.** A secret that is part of the word REDACTED reappears in every
  mark: `Redact.CompleteExactly`.

## Model

| member | source | states |
|---|---|---|
| `Pipeline.FindCycle` | internal/pipeline/compile.go:304-339 | returns "" exactly when no step reaches itself through needs; any step it names lies on a real cycle |
| `Pipeline.CycleSearch.Visit` | internal/pipeline/compile.go:311-332 | the three-colour search: grey nodes form a needs path of distinct nodes, black nodes are listed after all their needs, a hit is a node that reaches itself, and each call blackens its node; terminates because every entry leaves fewer white nodes |
| `Pipeline.GrayCloses` | internal/pipeline/compile.go:316-320 | a grey node needed by the innermost grey node reaches itself |
| `Pipeline.TransitiveNeeds` | internal/pipeline/compile.go:344-357 | the memoised walk returns exactly the steps reached by one or more needs edges, on cyclic graphs and undeclared names too |
| `Pipeline.NeedsWalk.Walk` | internal/pipeline/compile.go:346-354 | everything newly marked is reached from the node and has all its own needs marked |
| `Pipeline.DependsSearch.DependsOn` | internal/pipeline/compile.go:445-459 | with one seen set shared by all branches: true only if the target is reached; false leaves behind only fully expanded nodes none of which needs the target |
| `Pipeline.NotFoundMeansUnreached` | internal/pipeline/compile.go:445-459 | a failed search from a fresh seen set proves that the target is not reachable |
| `Pipeline.Downstream` | internal/pipeline/compile.go:427-443 | ascending list of exactly the other steps that transitively need the given one; strictly ascending when names are distinct |
| `Kahn.TopoSort` | internal/pipeline/compile.go:362-404 | returns the lexicographically least order in which every step follows all its needs, or fails exactly when no such order exists |
| `Strings.LessExactly` | internal/pipeline/compile.go:381-383 | the order of names: one is less when it is a proper prefix of the other or has the smaller character where they first differ |
| `Kahn.GreedyIsLeast` | internal/pipeline/compile.go:362-404 | a complete list whose every element is the smallest available name is the least valid order |
| `Kahn.LeastOrderUnique` | internal/pipeline/compile.go:359-362 | the least order is unique, so the result depends on the graph alone |
| `Kahn.StuckMeansNoOrder` | internal/pipeline/compile.go:398-402 | if nothing is ready and something is left, no valid order exists |
| `Kahn.InvertNeeds` | internal/pipeline/compile.go:363-371 | the dependents map lists each step once per occurrence of the need, repeats included |
| `Kahn.Prepare` | internal/pipeline/compile.go:363-379 | initial counters and ready list satisfy the loop invariant: counters count unfinished need entries, ready is exactly what is available |
| `Kahn.Release` | internal/pipeline/compile.go:386-395 | each dependent entry lowers its counter by one, and a step becomes ready exactly when its counter reaches zero, once |
| `Kahn.ReleaseKeepsInvariant` | internal/pipeline/compile.go:386-395 | after releasing the dependents of the popped step the counters are exact again and ready is exactly what is available |
| `Kahn.Round` | internal/pipeline/compile.go:381-396 | one round takes the smallest available step and keeps the invariant |
| `Kahn.OrderExistsIffAcyclic` | internal/pipeline/compile.go:304-339 | for needs that are all declared, a valid order exists exactly when there is no cycle: the two graph checks agree |
| `Compiler.Compile` | internal/pipeline/compile.go:92-200 | accepts exactly the well-formed inputs of at most 65536 bytes; the result is the least order of the graph of the raw needs, each returned step has every field of the raw step of its name and the only kind that is set there; every error is a violation that is really there, stated over the raw steps |
| `Compiler.Validate` | internal/pipeline/compile.go:111-193 | the checks between sorting and ordering: success means that the raw steps are well-formed, and an error names a violation in them |
| `Compiler.WellFormedAgrees` | internal/pipeline/compile.go:111-193 | well-formedness of the raw steps (declared acyclic needs, inputs written as step/output of a step needed directly or not, no two inputs on one variable) is what the checks on the compiled steps decide |
| `Compiler.StepsAreCompiled` | internal/pipeline/compile.go:130-142 | every step that leaves an accepted pipeline has exactly its raw step's fields and only kind |
| `Compiler.ValidNameIsRegexp` | internal/pipeline/compile.go:26-29 | a step name is valid exactly when it matches the regular expression of line 29 and has at most 20 characters |
| `Compiler.ValidKeyIsRegexp` | internal/pipeline/compile.go:30-32 | an environment key or output name is valid exactly when it matches the regular expression of line 32 |
| `Compiler.UpperExactly` | internal/pipeline/compile.go:185 | upper-casing maps a to z onto A to Z in order and leaves every other character as it is |
| `Compiler.ViolationMeansIllFormed` | internal/pipeline/compile.go:92-200 | any violation in the raw steps rules out acceptance |
| `Compiler.WellFormedHasOrder` | internal/pipeline/compile.go:160-162 | once the cycle check has passed a valid order exists, so the error exit of the sort (lines 398-402) is unreachable |
| `Compiler.ParseInputExact` | internal/pipeline/compile.go:170-174 | an input parses as (a, b) exactly when it is a nonempty slash-free a, a slash and a nonempty b |
| `Compiler.DeriveKind` | internal/pipeline/compile.go:204-233 | a kind is found exactly when one and only one of the five is set, and it is that one |
| `Compiler.IllegalFieldOf` | internal/pipeline/compile.go:238-262 | no field is named exactly when every field is legal for the kind; a field that is named offends |
| `Compiler.CheckStepValues` | internal/pipeline/compile.go:266-300 | passes exactly when the values are legal, the notify text counted in bytes; an error names a real violation |
| `Compiler.CheckOutputs` | internal/pipeline/compile.go:287-298 | passes exactly when every output name is legal and no two agree in upper case; an error names a real offender |
| `Compiler.CheckEnvKeys` | internal/pipeline/compile.go:281-285 | passes exactly when every environment key matches the key rule, in any iteration order |
| `Compiler.CheckStep` | internal/pipeline/compile.go:115-128 | passes exactly when name, kind, fields and values of one step are legal; an error is justified, an illegal field by the field it names |
| `Compiler.CheckNeeds` | internal/pipeline/compile.go:149-158 | passes exactly when every need is declared and no step needs itself |
| `Compiler.CheckInputs` | internal/pipeline/compile.go:166-192 | passes exactly when every input names a declared output of a transitive upstream step and no two different inputs share a variable |
| `Artifacts.ArtifactEnv` | internal/pipeline/compile.go:466-485 | the environment is the conventions, overlaid by outputs, overlaid by inputs |
| `Artifacts.EnvExactly` | internal/pipeline/compile.go:466-485 | the variables are exactly the three conventions, LUNCUR_OUTPUT_ for each output and LUNCUR_INPUT_ for each input that has a slash; the conventions hold their own values |
| `Artifacts.ModelVariable` | internal/pipeline/compile.go:474-476 | the output model is announced as LUNCUR_OUTPUT_MODEL |
| `Artifacts.InputMeetsOutput` | internal/pipeline/compile.go:164-193 | in every accepted pipeline and valid order an input is written as a/b for an earlier step a with output b, and LUNCUR_INPUT_B of the consumer equals LUNCUR_OUTPUT_B of the producer |
| `Artifacts.InputVariable` | internal/pipeline/compile.go:474-483 | a wired input's variable holds the path of the output it names |
| `Artifacts.OutputVariable` | internal/pipeline/compile.go:474-483 | a declared output's variable holds that output's path |
| `Artifacts.DeclarationsDistinct` | internal/pipeline/compile.go:185-191 | no two different declarations of an accepted step share an environment variable, across inputs and outputs |
| `Artifacts.BaseKeysDistinct` | internal/pipeline/compile.go:466-472 | no declaration collides with a convention variable |
| `Artifacts.PathsDistinct` | internal/pipeline/compile.go:474-476 | for valid step names two (step, output) pairs have the same path only if they are the same pair |
| `Argo.ValidateTerminalActions` | internal/server/argo.go:365-383 | accepts exactly when no compute step transitively needs an action step; an offence starts at a compute step of the spec and names an action it reaches |
| `Argo.FilterComputeNeeds` | internal/server/argo.go:63-71 | keeps exactly the needs that are compute steps, in order; keeps all when all are |
| `Argo.EnvSlice` | internal/server/argo.go:45-56 | name/value pairs in strict name order, exactly the entries of the map |
| `Argo.BuildWorkflow` | internal/server/argo.go:101-180 | the header carries name, namespace, labels and entrypoint; one DAG node and one template per compute step, in step order, with exactly its needs, image, command, environment, secret, GPU request (limit, runtime class, node selector) and retry limit |
| `Argo.BuildStep` | internal/server/argo.go:109-152 | the node and the template of one step: needs filtered to compute steps, sorted environment, GPU request and retry limit only when asked for |
| `Argo.SelectCompute` | internal/server/pipelines.go:1161-1180 | the loop selects exactly the app and image steps, in order, each with the image, command and environment resolved for it, an app step with the GPU count of its app |
| `Argo.SelectedExactly` | internal/server/pipelines.go:1161-1180 | the selected steps are the compute steps of the spec, each once, with their needs unchanged |
| `Argo.TranslationPreservesOrder` | internal/server/argo.go:58-71 | when actions are terminal the filter drops nothing, and compute steps reach each other through dependencies exactly when they do through needs |
| `Argo.PathStaysCompute` | internal/server/argo.go:360-383 | a needs path that starts at a compute step only visits compute steps |
| `Argo.Translate` | internal/server/pipelines.go:1161-1181 | succeeds exactly when actions are terminal; then there is one node and one template for exactly each app or image step, in step order: named after it and after its needs, running its resolved image, command and environment, the app's secret, its GPU request and retries; order between steps is preserved |
| `ArgoTick.PhaseToState` | internal/server/argo.go:188-201 | done exactly for Succeeded, failed exactly for Failed and Error, skipped exactly for Omitted and Skipped, running for every other phase; never pending |
| `ArgoTick.NodeStates` | internal/server/argo.go:224-267 | for each step a Retry node decides, without one a Pod node, without either a Skipped node; no state is pending, which is all a tick assumes of what it sees |
| `ArgoTick.StripRetrySuffixExactly` | internal/server/argo.go:208-211 | a trailing parenthesised number is dropped, and any other name is left as it is |
| `ArgoTick.RetryDecides` | internal/server/argo.go:224-267 | a step whose Retry nodes agree gets their state whatever its attempts report and in whatever order the nodes are visited |
| `ArgoTick.RetryPossibilities` | internal/server/argo.go:224-267 | of a step with Retry nodes exactly the states of those nodes can be reported, each for some iteration order of the node map |
| `ArgoTick.RunStore.FinishStep` | internal/store/pipelines.go:386-414 | the guarded update: done only from running, failed and skipped only from running or pending; otherwise nothing changes |
| `ArgoTick.RunStore.MarkStepRunning` | internal/store/pipelines.go:352-377 | the guarded update: only from pending or running |
| `ArgoTick.RunStore.FinishRun` | internal/store/pipelines.go:297-314 | only an active run changes status |
| `ArgoTick.AllRowNeedsDone` | internal/server/argo.go:411-419 | true exactly when every need has a row and it is done |
| `ArgoTick.HarvestRows` | internal/server/argo.go:454-484 | running compute rows take the state the workflow dictates, missing and terminal workflows included; nothing else changes |
| `ArgoTick.LaunchActions` | internal/server/argo.go:486-509 | launches exactly the pending actions whose needs are done and decides from the rows as they were before launching |
| `ArgoTick.Tick` | internal/server/argo.go:432-525 | every stored row and the run's status change as stated over the rows: a running image or app step takes the final state of its node, and without one stays running until the workflow ends, then is skipped after Succeeded, failed after Failed or Error or when the workflow is missing; a pending action all of whose needs are done is started and takes its outcome; nothing else changes; the run ends, done or failed, once no row is unfinished |
| `ArgoTick.TickRunIsTicked` | internal/server/argo.go:432-525 | the tick as a function, which the results on runs are about, does exactly this to every row and to the run |
| `ArgoRuns.FinalRowsStay` | internal/server/argo.go:454-509 | over any run of ticks a final row never changes |
| `ArgoRuns.ActionsRunAfterNeeds` | internal/server/argo.go:493-500 | over any run of ticks an action row has left pending only if every need is done |
| `ArgoRuns.FinishesSoundly` | internal/server/argo.go:511-518 | over any run of ticks the run ends only with no pending or running row, as done exactly when all rows are done |
| `ArgoRuns.EndedWorkflowLeavesNoneRunning` | internal/server/argo.go:464-474 | after a tick that sees a missing or terminal workflow no compute row is running |
| `ArgoRuns.EndedWorkflowMakesFinal` | internal/server/argo.go:464-474 | when every compute row has been launched, a tick that sees a missing or terminal workflow makes all of them final |
| `ArgoRuns.StuckForever` | internal/server/argo.go:488-509 | a running action, or a pending one with a need that ended otherwise than done, keeps the run active under every later sequence of ticks |
| `ArgoRuns.UnstuckProgresses` | internal/server/argo.go:488-518 | with compute rows final and no stuck action, one tick finishes the run or moves a pending action |
| `ArgoRuns.EndsUnlessStuck` | internal/server/argo.go:486-518 | once compute rows are final and the readable ticks outnumber the rows, however many unreadable ones lie between, the run has ended exactly when no row is stuck |
| `ArgoRuns.UnreadableTicksSkip` | internal/server/argo.go:432-453 | leaving out the ticks that could not read the workflow leaves the run as it is |
| `ArgoRuns.EndsExactly` | internal/server/argo.go:486-518 | the same from the inputs: the run ends exactly when every need of an action is a done compute row or a succeeding action and no action stays running, and as done exactly when every compute row is done and every action succeeds |
| `ArgoRuns.WholeRunEndsExactly` | internal/server/argo.go:432-525 | the same for a whole run from pending actions whose compute rows are final after some number of ticks and which then sees more readable ticks than rows |
| `CanaryPlan.CeilDivIsLeast` | internal/server/canary.go:172 | the ceiling of a quotient is the least integer whose product with the divisor reaches the dividend |
| `CanaryPlan.SizingIsLeast` | internal/server/canary.go:155-177 | for weights 1..99 the canary count is the least positive n with 100 n >= w (stable + n) |
| `CanaryPlan.CanaryIsSized` | internal/server/canary.go:153-177 | in ratio mode the canary has the stable size (what the cluster reports, else what is configured, at least one) for blue-green and from 100 percent on, one pod for no weight, and otherwise the least count that carries the weight |
| `CanaryPlan.FirstSize` | internal/server/canary.go:153-177 | before any weight the canary has one pod, for blue-green the stable size |
| `CanaryPlan.SizingOvershoot` | internal/server/canary.go:172-176 | one pod fewer would fall short of the weight, so the share overshoots by less than one pod |
| `CanaryPlan.SizingMonotone` | internal/server/canary.go:155-177 | a larger weight never gets a smaller canary |
| `CanaryPlan.FlooredRateIsExact` | internal/server/canary.go:402-406 | the floored percentage is below the minimum exactly when 100 ok < min total |
| `CanaryPlan.TrackSelection` | internal/server/canary.go:187-194 | canary selectors own exactly the canary pods in both modes; the app's Service sees canary pods exactly in ratio mode |
| `CanaryPlan.TrafficObjectsAre` | internal/server/canary.go:235-294 | the objects of a weight, in order and with their names: the split over the app's and the canary's Service, the web route, and the secure route when the app has TLS or a resolver; none without a host |
| `CanaryPlan.RenderedAre` | internal/render/render.go:320-580 | the app's own manifests in order: its env Secret and claims, Deployment, Service and Ingress, then what scales and budgets it, all under the app's name |
| `CanaryPlan.CanaryKeysAre` | internal/server/canary.go:525-532 | a cleanup deletes the two routes, the split, the Deployment and the Service of the canary, in this order |
| `Cluster.SameKey` | internal/kube/kube.go:225-250 | objects are patched under one key exactly when they have the same kind and name |
| `CanaryRouting.RoutedNoDangling` | internal/server/canary.go:117-135 | the routing invariant implies that every route's TraefikService and every Service that one names exist |
| `CanaryRouting.RoutedIntact` | internal/server/canary.go:117-135 | it also implies that a traffic split exists only together with the canary Deployment |
| `CanaryRouting.CanaryObjectsAre` | internal/server/canary.go:182-234 | the canary track is exactly the env Secret, if any, the Deployment and the Service, in that order, whatever else the app renders |
| `CanaryRouting.CanaryApplyKeeps` | internal/server/canary.go:182-234 | the invariant holds after every single object of the canary track, and nothing outside the track changes |
| `CanaryRouting.CanaryApplied` | internal/server/canary.go:182-234 | once applied, the canary Service and the Deployment of the asked size, image and labels exist |
| `CanaryRouting.StartLeaves` | internal/server/canary.go:118-129 | with no canary object present before, the first n objects of the track leave none of the five behind exactly when n is at most 1 for an app with an env Secret, at most 0 without |
| `CanaryRouting.TrafficApplyKeeps` | internal/server/canary.go:238-306 | the invariant holds after every single traffic object; the split exists before its routes and carries exactly the weight |
| `CanaryRouting.TrafficArrives` | internal/server/canary.go:238-306 | once applied, every host of the app is routed on every entry point it serves to a split that gives the canary the weight and the stable track the rest |
| `CanaryRouting.WeightArrives` | internal/server/canary.go:309-322 | once what setCanaryWeight applies is applied, the cluster carries the weight: by the split of every host, or by the size of the canary for the stable size the cluster reported |
| `CanaryRouting.StableApplyKeeps` | internal/server/canary.go:483-497 | the invariant holds after every single stable manifest of a promotion |
| `CanaryRouting.StableApplied` | internal/server/canary.go:483-497 | after a full promotion the stable Deployment runs the new image |
| `CanaryRouting.CleanupKeeps` | internal/server/canary.go:525-537 | when deletes of existing objects work, the invariant holds after every single delete |
| `CanaryRouting.CleanupRestores` | internal/server/canary.go:525-537 | after such a cleanup all canary objects are gone and everything else is as it was before the rollout |
| `CanaryRouting.CleanupDanglesIff` | internal/server/canary.go:525-537 | with arbitrary failing deletes a route is left dangling exactly when one of the routes survives while the split or the canary Service goes |
| `CanaryRouting.PromotionIsNotUndone` | internal/server/canary.go:507-521 | after a promotion that failed part-way and was aborted the stable Deployment is unchanged exactly when its manifest had not been reached or equals the old one |
| `Canary.Server.Apply` | internal/kube/kube.go:225-250 | objects are applied in order up to the first failure |
| `Canary.Server.ApplyCanary` | internal/server/canary.go:118-135 | whatever the API answers, nothing outside the canary track changes and no route dangles after any call; success means the sized track is up |
| `Canary.Server.SetCanaryWeight` | internal/server/canary.go:309-322 | succeeds exactly when rendering and every patch are accepted and, in weighted mode, the app has a host; then exactly its objects have been applied and the cluster carries the weight for the answers given at this call; whatever happens the safety state is kept |
| `Canary.Server.CleanupCanary` | internal/server/canary.go:525-537 | the state is the five deletes in order with the API's answers; a failed delete of something that was there is recorded, and nothing else is |
| `Canary.Server.PromoteCanary` | internal/server/canary.go:483-497 | records the phase first; succeeds when nothing is refused, and then every stable manifest has been applied and the stable Deployment runs the new image; no route dangles at any call |
| `Canary.Server.FinishCanary` | internal/server/canary.go:500-505 | ends as finished; without a failed delete the canary objects are gone and nothing else changed |
| `Canary.Server.AbortCanary` | internal/server/canary.go:510-521 | ends as aborted; if nothing was promoted, no delete failed and no newer deploy owns the objects, the cluster is the one before the rollout except the env Secret; if a newer deploy owns them, nothing changes |
| `Canary.Server.StartCanary` | internal/server/canary.go:109-144 | start keeps the stable objects untouched at every call; it fails exactly when something of the track is refused; on success the canary track is up at one pod, or for blue-green at the stable size the cluster reported at this call; a refused start leaves nothing behind exactly when the refusal came before the canary Deployment |
| `Canary.Server.EnterStep` | internal/server/canary.go:378-387 | succeeds exactly when the weight of the step can be sent; then the cluster is the one before with that weight's objects applied, carries it, and the record holds the step, its weight, the time and fresh tallies |
| `Canary.Server.AdvanceStep` | internal/server/canary.go:415-429 | leaves the step on the facts of this turn and enters the next one, or promotes after the last, aborting exactly when something is refused; only ever called once the gate is passed |
| `Canary.Server.SteppingTurn` | internal/server/canary.go:392-432 | one stepping turn follows its verdict: fail aborts, wait records the probe and a late request and sleeps a tick, advance enters the next step or promotes after the last |
| `Canary.Server.Turned` | internal/server/canary.go:358-432 | one pass of the loop is exactly the turn relation on the record it read: a newer deploy or an abort request aborts, a promote request promotes, a starting record enters the first step, a stepping one follows its verdict, and cluster, clock, record and tallies change as that says; safety is kept |
| `Canary.Server.RunCanary` | internal/server/canary.go:352-433 | over any number of turns the run is a chain of snapshots joined by exactly those turns, and at each of them the cluster carries the weight entered last; the weights are the policy's steps in order, or 100 for blue-green, each held at least as long as the policy says in whole seconds of its start and left only through its gate; an unrequested promotion has entered all of them |
| `Canary.Server.FirstStep` | internal/server/canary.go:378-387 | the turn that reads phase starting enters the first step, or aborts with everything but the canary track unchanged |
| `Canary.Server.PromoteOrAbort` | internal/server/canary.go:373-377 | ends promoting, or aborted if a manifest was refused |
| `CanaryTurns.CourseGoesOn` | internal/server/canary.go:392-430 | when nothing is refused, a turn without trouble of a healthy rollout waits out the hold, enters the next step or promotes after the last; it never aborts, and it lowers the bound on the turns that are left |
| `CanaryTurns.HealthyWalk` | internal/server/canary.go:352-433 | whatever the spacing of its turns, a healthy rollout that nothing is refused to never aborts; it has promoted through every step once the turns number (ticks in a hold, rounded up, plus one) per step plus one |
| `CanaryTurns.LateRequestSurvives` | internal/server/canary.go:358-432 | a request accepted after the record was read survives the turn exactly when no newer deploy owns the app, that record is stepping and the verdict on it is to wait |
| `CanaryTurns.CourseRecords` | internal/server/canary.go:392-432 | over a run every time a step was entered is the write time of one of its turns, and every fact a step was left on is what one of its turns probed and checked |
| `CanaryTurns.HealthyVerdict` | internal/server/canary.go:402-430 | with all probes good and no restart the verdict is to advance exactly when the hold is over, else to wait |
| `Canary.Server.Shift` | internal/server/canary.go:346-433 | the step loop and the second gate: live exactly when the loop ended promoting and the stable track got ready; a failed unpromoted rollout restores, a live one runs the new image with the track gone; the weights are the policy's; a healthy rollout enters all of them and is live in the turns its steps, its hold and the tick allow |
| `CanaryTurns.JudgeIsGate` | internal/server/canary.go:402-430 | the decision is to advance exactly when the policy's hold has elapsed, no pod restarted and the exact success rate meets the minimum; it is to abort exactly on a restart or a rate below the minimum after five probes or at the end of the hold |
| `CanaryTurns.WaitMeans` | internal/server/canary.go:392-433 | a turn that goes on without entering a step is one of a stepping record: it leaves the cluster alone, counts its probe, keeps a late request and sleeps ten seconds |
| `CanaryTurns.EnterMeans` | internal/server/canary.go:378-430 | a turn that enters a step records it as the next one, with the second of the clock and no probes |
| `CanaryTurns.RequestLands` | internal/store/rollouts.go:80-88 | a request takes effect only while starting or stepping and changes nothing but the phase |
| `CanaryTurns.ProbesCounted` | internal/server/canary.go:392-430 | the probes a step is judged on are exactly those of the turns since it was entered, the good ones counted as good |
| `CanaryTurns.GateHoldsNearly` | internal/server/canary.go:410 | an accepted hold is shorter than the policy's by less than one second |
| `CanaryTurns.HoldCanEndEarly` | internal/server/canary.go:410 | it can be shorter: a concrete policy, step start and check time |
| `CanaryTurns.EarlyExactly` | internal/server/canary.go:410 | the hold ends early exactly when the check falls within the sub-second part that the record drops |
| `Canary.Server.GateDone` | internal/server/rolloutgate.go:89-100 | a ready track starts the loop, a finished promotion cleans up, any other phase just goes live with nothing changed |
| `Canary.Server.GateFailed` | internal/server/rolloutgate.go:71-85 | before promotion a gate failure restores; during promotion it cleans up, without a failed delete to the last canary object, and gives up |
| `Canary.Server.Deploy` | internal/server/canary.go:109-144 | a whole deploy: safety throughout; it fails to start exactly when something of the track is refused, and then leaves nothing behind exactly when that came before the canary Deployment; one that fails later and before promotion restores; the step loop is a chain of turns whose weights were all in the cluster and are the policy's, each held as long as it says; a finished one runs the new image with the track gone; with nothing refused, no request and no trouble it never fails, and it has entered every step and is finished in the turns that number of steps, the hold in seconds and the ten-second tick allow; a request accepted during the first gate is swallowed and the deploy goes live unpromoted |
| `CanaryTurns.PaceMeans` | internal/server/canary.go:326-343 | the weights entered are the policy's steps from the first on, or 100 for blue-green; each step that was left was held for the interval, for blue-green also for the time the old version is kept |
| `CanaryTurns.StartingNeeds` | internal/server/canary.go:326-343 | the bound on the turns is, for a canary, (interval in ticks of ten seconds, rounded up, plus one) per policy step plus one, for blue-green that of one step held for the longer of the two times |
| `ToolLoop.CapLength` | internal/ai/loop.go:98-101 | a result within the cap is unchanged; a longer one keeps its last bytes and exceeds the cap by exactly 18 |
| `ToolLoop.RunCalls` | internal/ai/loop.go:90-108 | one user turn with one result per call, in call order: the executor's answer and error flag, cut to its last bytes beyond the limit (24 KiB by default), or the message for invalid input without executing; stop if any executed call asks |
| `ToolLoop.Run` | internal/ai/loop.go:49-116 | every exit is one of the listed ones with its exact transcript and cause, and no earlier round had a cause to end; the budget before a call is asked with the sums of the tokens of the calls before it, and the usage returned is the sums over all calls made; replies are the provider's to all that precedes them, results are the executor's answers and follow at once; at most twenty calls by default |
| `ToolLoop.ExitIsWellFormed` | internal/ai/loop.go:64-115 | on every exit roles alternate and every assistant turn with calls is followed at once by a user turn that answers exactly those calls in order |
| `ToolLoop.ExitEnds` | internal/ai/loop.go:64-115 | an exit keeps the input transcript, and one without error ends on the assistant unless stopped |
| `ToolLoop.StoredIsResumable` | internal/server/ai_workflows.go:284-292 | whatever the loop's exit, what is stored alternates, answers every call, ends on a settled assistant turn and extends what was there; it drops the message only if an executor stopped the loop |
| `ToolLoop.Conversation.Chat` | internal/server/ai_workflows.go:242-302 | one turn keeps the conversation resumable; what it stores is the loop's transcript if that ends on the assistant, else the message and an apology with the text of the error, else what was there; it records message, reply and error text |
| `ToolLoop.ChatAll` | internal/server/ai_workflows.go:266-292 | after any sequence of turns the stored conversation is resumable and still starts with what it was |
| `Drain.PassConserves` | internal/kube/drain.go:103-117 | the pods gone and the pods to retry of a pass are together the pods tried, as multisets |
| `Drain.PassLines` | internal/kube/drain.go:111-113 | the blocked lines are, in order, namespace/name and the message for exactly the pods to retry |
| `Drain.PassVanishes` | internal/kube/drain.go:108-110 | the pods that vanish are exactly those whose eviction succeeded or who were already gone |
| `Drain.Pass` | internal/kube/drain.go:101-120 | the log after a pass is exactly what the answers of the eviction API make of it: the calls up to a refusal, evicted and blocked pods, and one honest report unless a refusal broke it off |
| `Drain.Batch` | internal/kube/drain.go:100-133 | the log is that of a chain of passes, the first over the batch and each later one over exactly what the one before left blocked, with a sleep between; the end is the one they lead to: empty, refused, timed out with exactly the blocked pods named, or cancelled |
| `Drain.RoundsReport` | internal/kube/drain.go:117-119 | every completed pass has made one report, of exactly the pods it left blocked, and a pass broken off by a refusal none |
| `Drain.SplitPods` | internal/kube/drain.go:86-96 | the two batches are exactly the drainable pods split by IsLast, in list order |
| `Drain.SelectSplits` | internal/kube/drain.go:50-67 | the two batches are the listed pods, each as often as listed, without those that are finished, going, static or run by a DaemonSet |
| `Drain.DrainBatches` | internal/kube/drain.go:97-135 | the two batches worked through pass by pass with the answers of the eviction API, the last only after the first is empty; no last pod is tried before all others are gone; success means everything evicted; pods are conserved |
| `Drain.DrainNode` | internal/kube/drain.go:69-136 | the whole drain: pass by pass what the eviction API answered, conservation, last pods last, the exact cause of each kind of error; no call is for a pod that is finished, going, static or run by a DaemonSet, every other listed pod is gone or left; by default at most five minutes over five seconds, plus three, passes |
| `Drain.PassBound` | internal/kube/drain.go:125-131 | sleeps of at least the retry interval, none begun after the deadline, number at most Timeout/Retry + 1 |
| `Cron.ParseTerm` | internal/cronexpr/cronexpr.go:87-143 | fails exactly with the term's error, else adds exactly the members of its progression |
| `Cron.NextMember` | internal/cronexpr/cronexpr.go:139-141 | each iteration of the fill loop adds exactly one further member |
| `Cron.RangeTermExactly` | internal/cronexpr/cronexpr.go:106-122 | "A-B/S" is accepted exactly when the parts are numbers, S > 0 and min <= A <= B <= max |
| `Cron.RangeRoundTrip` | internal/cronexpr/cronexpr.go:84-143 | every progression inside the range can be written down and is read back as it was |
| `Cron.StarIsFullRange` | internal/cronexpr/cronexpr.go:104-105 | "*" means "min-max" |
| `Cron.StepFromValue` | internal/cronexpr/cronexpr.go:129-132 | "N/S" equals "N-max/S" exactly when the step is bad or N <= max; beyond it the short form is accepted and empty where the long one is an error |
| `Cron.OutOfRangeStartAccepted` | internal/cronexpr/cronexpr.go:129-137 | "99/5" is an accepted minute term that selects nothing |
| `Cron.EmptyExactlyBeyondMaximum` | internal/cronexpr/cronexpr.go:135-141 | an accepted term selects nothing exactly when it starts beyond the field's maximum |
| `Cron.EmptyFieldExactly` | internal/cronexpr/cronexpr.go:71-82 | an accepted field selects nothing exactly when every term of it starts beyond the maximum |
| `Cron.ListSelectsItsNumbers` | internal/cronexpr/cronexpr.go:71-82 | every nonempty set of values in range is selected by its comma-separated list |
| `Cron.ParseField` | internal/cronexpr/cronexpr.go:71-82 | accepts exactly fields whose terms are all valid and returns exactly the union of their progressions, inside the range; the error is that of the first invalid term |
| `Cron.Parse` | internal/cronexpr/cronexpr.go:38-67 | accepts exactly five valid fields; the sets are their denotations, inside their ranges, with day-of-week 7 read as 0 |
| `Cron.FieldsReadBack` | internal/cronexpr/cronexpr.go:39-42 | a text is read as exactly the words written in it between white space, in order |
| `Cron.FiveFields` | internal/cronexpr/cronexpr.go:39-42 | five words with a space between any two are these five fields, in order |
| `Cron.NumberExactly` | internal/cronexpr/cronexpr.go:27-33 | a number alone is accepted exactly as a minute 0-59, hour 0-23, day 1-31, month 1-12 or weekday 0-7 |
| `Cron.AtoiExactly` | internal/cronexpr/cronexpr.go:90-127 | a number is decimal digits with an optional sign, within 64 bits |
| `Cron.SmallerIffProper` | internal/cronexpr/cronexpr.go:155-156 | a set of values in range is smaller than the range exactly when it is not the full range |
| `Cron.MatchesRule` | internal/cronexpr/cronexpr.go:148-166 | day of month or day of week when both leave something out, otherwise both |
| `Cron.NeverDueExactly` | internal/cronexpr/cronexpr.go:148-166 | a schedule is never due exactly when it selects no minute, no hour, no month, or no day that exists in a selected month under the day rule |
| `Cron.NeverDueFromText` | internal/cronexpr/cronexpr.go:38-67 | in terms of the expression: never due exactly when all terms of its minute, hour or month start beyond the maximum, or no day is selected |
| `Redact.Redactor.constructor` | internal/ai/text.go:20-34 | the secrets are exactly the values without the white space around them that have at least six bytes, each once, longest first |
| `Redact.TrimSpaceExactly` | internal/ai/text.go:24 | trimming gives v exactly when the value is v between white space and v neither starts nor ends with any |
| `Redact.Scrub` | internal/server/ai_workflows.go:115-116 | from values to text: if no value that counts as a secret can touch a mark, none of them is in the result, and the result is the text with disjoint occurrences of such values turned into marks |
| `Strings.SpaceExactly` | internal/ai/text.go:24 | white space is exactly the 25 characters with the Unicode property White_Space |
| `Strings.CharLenIsLeast` | internal/ai/text.go:25 | a character takes one, two, three or four bytes when its code has at most 7, 11, 16 or more bits |
| `Redact.Redactor.Redact` | internal/ai/text.go:37-45 | replaces every secret in list order; a nil redactor changes nothing |
| `Redact.Complete` | internal/ai/text.go:37-45 | if no secret can share a character with a mark, no text leaks any secret, in any replacement order |
| `Redact.CompleteExactly` | internal/ai/text.go:20-45 | for bracket-free secrets some text leaks exactly when some secret is part of the word REDACTED |
| `Redact.BracketFreeOverlaps` | internal/ai/text.go:41-43 | a bracket-free secret can touch a mark exactly when it is part of the word REDACTED |
| `Redact.RedactedIsNotRedacted` | internal/ai/text.go:41-43 | the secret REDACTED comes back out |
| `Redact.Idempotent` | internal/ai/text.go:37-45 | redacting twice is redacting once |
| `Redact.OnlySecretsAreHidden` | internal/ai/text.go:36-45 | the result is the text with disjoint occurrences of secrets turned into marks and every other character kept in order |
| `Redact.WholeSecret` | internal/ai/text.go:31-32 | with secrets longest first each secret is replaced whole, even if it contains another |
| `Redact.ShortestFirstLeaksTheRest` | internal/ai/text.go:31-32 | shortest first would leave the rest of a longer secret behind |
| `ToolPath.EscapeRoundTrip` | internal/aitools/aitools.go:450 | percent-decoding a filled segment gives the argument back, for every byte string |
| `ToolPath.EscapeIsPlain` | internal/aitools/aitools.go:450 | an escaped argument contains no slash and no brace |
| `ToolPath.EscapeExactly` | internal/aitools/aitools.go:450 | letters, digits and ten punctuation characters stay as they are, every other byte becomes three characters |
| `ToolPath.ReplaceIsSubst` | internal/aitools/aitools.go:450 | replacing {name} in the text is replacing exactly that placeholder wherever it stands in the template, inside a segment too |
| `ToolPath.InsertIsReplaceFirst` | internal/aitools/aitools.go:426-431 | inserting envs/{env}/ in the text is inserting two segments after the first project segment, for any template |
| `ToolPath.BuildPath` | internal/aitools/aitools.go:424-474 | for templates of literal text and placeholders mixed freely: filling one at a time equals filling all at once; succeeds exactly when nothing required is missing, no path argument is empty and every placeholder is filled; an error is the first in parameter order |
| `ToolPath.ServerReadsTheArguments` | internal/aitools/aitools.go:424-474 | an accepted path has as many segments as its template, every placeholder has a nonempty argument that is not null, literal segments are unchanged, and decoding any segment whose literal text has no percent sign gives its text with the arguments in place: a text as it is, a number or composite value as printed, a flag spelled out |
| `Mail.NormalizeTwice` | internal/mail/mail.go:143-146 | normalising is idempotent |
| `Mail.NormalExactly` | internal/mail/mail.go:141-146 | a text is unchanged exactly when every line feed follows a carriage return, and every result is such a text |
| `Mail.NormalizeIsRepair` | internal/mail/mail.go:141-146 | every line feed that does not follow a carriage return, and nothing else, gains one |
| `Mail.Base64RoundTrip` | internal/mail/mail.go:131 | decoding the encoding gives the bytes back |
| `Mail.ChunksAreShort` | internal/mail/mail.go:133-137 | lines of at most 76 characters, all but the last exactly 76, that together are the encoding |
| `Mail.WrapBase64` | internal/mail/mail.go:130-139 | the wrapping loop writes exactly those lines, each ended by CRLF |
| `Mail.WrappedRoundTrip` | internal/mail/mail.go:130-139 | a decoder that ignores characters outside the alphabet recovers the bytes from the wrapped text |
| `Mail.MultipartWriter.WriteBase64Part` | internal/mail/mail.go:117-126 | appends delimiter, the two fields in name order, an empty line and the wrapped content |
| `Mail.CutAtDelimiter` | internal/mail/mail.go:74-78 | text without a line that starts with a dash ends at the next delimiter |
| `Mail.MultipartReadsBack` | internal/mail/mail.go:102-107 | for every text and html an independent reader finds exactly two parts between the delimiters and decodes them to the texts |
| `Mail.Message` | internal/mail/mail.go:86-113 | the message is the five header fields, an empty line and the plain or multipart body |
| `Mail.MessageReadsBack` | internal/mail/mail.go:86-113 | header fields are read back exactly when no header value contains CRLF, and then the two normalised texts are too |

## Left out

- The HTTP handlers, the CLI, the UI, DNS and GPU providers, Git, SSH and ACME: input and output without a hard invariant.
- YAML and JSON parsing, the regular expression engine and typed Kubernetes objects: `Compile` starts from the unmarshalled map, names and keys are character-class predicates proved to agree with their regular expressions, and cluster objects carry only the fields a rollout reads or writes.
- Server-side apply merges fields; here an applied object replaces the old one, which is what matters for the fields kept.
- Machine integers: replica counts, cron values and durations are unbounded (the 64-bit limit of `strconv.Atoi` is modelled); the float in the sizing formula is an exact quotient.
- Store errors: reads and writes of the store succeed; their SQL guards are modelled.
- Overlapping rollouts of one app: one rollout at a time, with a newer deploy only as the ownership answer an abort reads.
- Readiness checks behind the rollout gate, automatic rollback and notifications: the gate's answer is arbitrary.
- Canary.Server.Deploy: follows one deploy from its start; a rollout resumed after a server restart is covered by `RunCanary`, which may be entered in any active phase, but not composed with the gates.
- The clock of a rollout moves by any amount in a turn, backwards too; only the bound on the number of turns assumes that it is not set back between reading the record and the hold check.
- The deploy, scale and notify actions themselves: a launched action ends in an arbitrary outcome.
- Cron.NeverDueExactly: month lengths are modelled, the calendar is not; a date is taken to fall on every weekday in some year, which it does.
- Query strings, request bodies and `CLIEcho` of the tool registry: path resolution only; dot segments are not normalised.
- `Send` hands the addresses to `net/smtp`, which refuses line breaks, before it calls `Message`, so the CRLF case of `Mail.MessageReadsBack` concerns direct callers of `Message` only.
- Strings are code points, or bytes where sizes or encodings matter; invalid UTF-8 and case mapping outside ASCII are not modelled.
- The mutex of a conversation, eviction of old conversations, and events and usage recording of the tool loop.
- Redact.CompleteExactly: exact for secrets without brackets only; for the others `Redact.Complete` gives one direction, and which of those that can touch a mark really leak is not settled.
