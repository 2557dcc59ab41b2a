# trimtab, verified

trimtab changes the scheduler settings of a live inference engine. This project models the state machines and the
two algorithms under its HTTP, subprocess and GPU plumbing, and proves what they keep over every run.

* **vLLM live cap** (`VllmModel`, `VllmEngine`, `VllmSafety`, `VllmDrain`). The patched engine core asserts
  `len(running) <= cap` on every step. The machine has set_knobs, schedule, arrivals, departures and the warm reinit.
* **SGLang warm reinit and hot knobs** (`MemoryTags`, `SglangModel`, `SglangEngine`, `SglangSafety`, `SglangPools`,
  `SglangSizes`, `Rewiring`). Generation-tagged memory regions, caps under the allocation, restore after a failed rebuild, which pools
  are kept over a run, and the rewiring of components that still point at old pools.
* **Store and canaries** (`StoreModel`, `CanaryHistory`, `StoreHistory`, `Gates`, `ControlPlane`). Every store method is one commit;
  runs are sequences of commits, so orchestrators interleave at any point between two of them.
* **Supervisor** (`SupervisorModel`, `SupervisorEngine`, `SupervisorSafety`, `StaleHealthy`). One engine process
  converged by hot updates, warm reinits and relaunches, with crashes before each liveness check and any outcome of
  each call.
* **What an ok means** (`EngineHonesty`, `WarmHonesty`, `Convergence`). The oks of hot updates and warm reinits for each
  engine an adapter can speak to, and the supervisor's convergence over those engines.
* **Reconciler, mock engine, manifest** (`ReconcilerModel`, `MockEngine`, `Manifest`, `EngineAgreement`).
* **Fleet** (`Fleet`, `Targets`). Commits to the store and reconciler ticks of many replicas, in any order.
* **What the manifest says** (`ManifestMeaning`). The verdict on a field by its class and value, and what the
  reconciler and the supervisor make of it.
* **Metrics** (`Histogram`, `Metrics`, `SampleMeaning`). The quantile loop against the distribution it inverts; windows of scrapes.
* **Manifest parser** (`PyText`, `ManifestParser`).

Objects the program updates in place are classes whose methods are proved equal to a step function on a datatype; the
whole-run lemmas are about those step functions. `PyValues` has the JSON values and Python's `int()`, `==`, dict and
string operations. Field names are constructors of one datatype, with `Named` for every other string.

## What turned out false, and when it holds

* The live cap is safe when no reinit sizes the scheduler below zero sequences, and a reinit keeps it safe exactly then
  (`VllmSafety.ReinitSafeIff`, `VllmSafety.NegativeSizingBreaksTheAssertion`). A failed reinit restores the sizes unless
  the release before the restore raises too; then what the failed try stored stays beside the old scheduler
  (`VllmSafety.RestoreIsExact`, `VllmSafety.SizedIff`).
* A failed SGLang reinit reports "restored", yet forgets a changed KV dtype and sizes the pools by the live cap
  (`SglangSafety.RestoreIff`, `SglangSafety.RestoreAlwaysIff`, `SglangSafety.RestoreKeepsCeilingIff`). A memory fraction
  that is not a number drops the pools before anything is paused (`SglangPools.PoolsIff`, `SglangPools.PoolsGoneIff`),
  and the next reinit then pauses that generation with nothing kept referenced; old pools are kept for every generation
  exactly when no reinit finds them gone (`SglangPools.AllKeptIff`, `SglangPools.PausedWithNothingKept`).
* An ok to a warm reinit does not mean that the engine has the settings: a mock acknowledges fields it does not keep and
  vLLM truncates sizes. With their manifests it does for both real engines, and for a mock exactly when it is sent whole
  sizes alone (`WarmHonesty.WarmOkIff`, `Convergence.WarmTickIff`).
* A version of an SGLang group that names one of the hot knobs of the stock allowlist is never acknowledged, since the
  read-back does not carry them: it stays failed for ever (`EngineHonesty.NeverAcknowledged`, `Convergence.StaysFailed`).
* The manifest parser does not join folded lines. In engine/vllm/manifests/vllm-c0adee9.yaml:55-59 the note reads as
  ">" and its four lines become keys of that knob; the other keys come through because none of the lines has theirs
  (`ManifestParser.FoldedKeepsIff`, `ManifestParser.FoldedBecomesKeys`).
* The reconciler reads a refusal that mentions "cold" or "warm" as a cold field pending, by its text, and a refused
  choice lists the choices. For a text knob with such a choice a wrong value is reported pending and the version
  remembered, where the supervisor ends failed (`ManifestMeaning.MisreadHidesAMistake`). No shipped knob is one
  (`ManifestMeaning.ShippedChoicesArePlain`); without one both loops split and refuse alike
  (`ManifestMeaning.LoopsAgree`).
* An override row can outlive its canary when an abort runs between the two commits of `start`
  (`CanaryHistory.AbortInsideStart`; `CanaryHistory.LeftBehind` says exactly when a canary leaves rows).
* "Healthy" on the no-op branch does not mean the engine agrees. After an update that ends failed, going back to the old
  version changes nothing, and the engine agrees with it exactly when the failed version gives each of its cold fields
  the same value and the hot knobs left behind hold its hot part (`SupervisorSafety.BackAfterFailure`;
  `StaleHealthy.HealthyButWrong` with `StaleHealthy.StaleInput` reaches a disagreement). Likewise after a relaunch
  without a target (`SupervisorSafety.RelaunchWithoutTarget`) and in the reconciler
  (`ReconcilerModel.StaleAfterRejection`). trimtab/reconciler.py:4-7 says that retries converge; the code is followed.
* Rolling back to a version need not reproduce the state it first gave: versions are overlays. It does exactly when
  whatever the versions in between wrote to knobs that it does not set is what these knobs held already
  (`ReconcilerModel.RollbackIff`; `ReconcilerModel.OverlaysLeaveTraces` is an input that shows it fail).
* A process is also replaced when only None-valued cold fields were added, which is neither a removal nor a change
  (`SupervisorSafety.RelaunchIff`).

## Model

| member | source | states |
|---|---|---|
| VllmEngine.EngineCore.SetKnobs | engine/vllm/apply_patch.py:31-80 | the loop over the dict, in any key order, is one simultaneous update; ok exactly when nothing is rejected |
| VllmEngine.EngineCore.SetKnob | engine/vllm/apply_patch.py:44-79 | one key is judged by the recorded ceilings alone and writes only its own setting |
| VllmEngine.RejectedKeysAreInert | engine/vllm/apply_patch.py:43-80 | applied and rejected partition the keys; dropping the rejected keys from the call changes neither state nor answer |
| VllmEngine.SetKnobsSplits | engine/vllm/apply_patch.py:37-80 | a call with two disjoint dicts is the two calls, in either order |
| VllmEngine.EngineCore.GetKnobs | engine/vllm/apply_patch.py:82-87 | reports the pending target when there is one, and the enforced cap |
| VllmEngine.Scheduler.Schedule | engine/vllm/apply_patch.py:135-141 | tightening then admission below the cap; the engine's assertion holds after every step it held before |
| VllmSafety.ScheduleIsGreedy | engine/vllm/apply_patch.py:135-141 | a step admits, in order, until nobody waits, the budget is used up or the cap is reached |
| VllmEngine.EngineCore.Rebuild | engine/vllm/reinit_core_body.py:27-47 | a rebuild that fails leaves exactly the settings stored before the failure and the old scheduler |
| VllmEngine.EngineCore.Reinit | engine/vllm/reinit_core_body.py:1-70 | refusals change nothing; success and restore replace the scheduler by a fresh generation; a raise, of either release or of the restore, keeps the old one |
| VllmSafety.RestoreIsExact | engine/vllm/reinit_core_body.py:49-59 | wherever the rebuild failed, a restore brings back all three sizing settings, with cap and ceilings from them and no pending target; when the second release raises, exactly what the failed try stored stays |
| VllmSafety.SizedIff | engine/vllm/reinit_core_body.py:49-59 | the scheduler is the one its configuration describes after every reinit, but for a second release that raises after other sizes were stored |
| VllmSafety.RunSized | engine/vllm/reinit_core_body.py:27-59 | over every run without such a raise, the size of this generation is the configured one |
| VllmSafety.ReinitSafeIff | engine/vllm/reinit_core_body.py:23-59 | a reinit keeps the cap invariant, however its releases and rebuilds go, if and only if it is refused or does not size the scheduler below zero sequences |
| VllmSafety.RefusalSays | engine/vllm/reinit_core_body.py:11-19 | an unknown field, then no sleep mode, then any request running or waiting: which refusal a reinit gets |
| VllmSafety.NoSleepModeNoResize | engine/vllm/reinit_core_body.py:15-16 | a server without sleep mode keeps its sizes and ceilings over every run |
| VllmSafety.RunSafe | engine/vllm/apply_patch.py:66-76 | over every run, running <= enforced cap <= the size of this generation, and a pending target is between 1 and the cap |
| VllmSafety.NegativeSizingBreaksTheAssertion | engine/vllm/reinit_core_body.py:30-31 | a concrete resize after which the engine's assertion fails on the next step |
| VllmSafety.ReportIsLastAsked | engine/vllm/apply_patch.py:82-87 | over every run, get_knobs reports the last accepted target or the size of the generation |
| VllmSafety.RunConserves | engine/vllm/apply_patch.py:70-76 | zero dropped requests: over hot swaps and reinits, queued plus departed equals initial plus arrived, as multisets |
| VllmDrain.DrainRun | engine/vllm/apply_patch.py:70-76 | after a lowering to p, over every quiet run, the cap never rises and pending occupancy is the start less the departures |
| VllmDrain.DrainCompletes | engine/vllm/apply_patch.py:136-140 | the next schedule enforces p if and only if enough requests have left, admits nobody before that, and p stays enforced through every quiet continuation |
| VllmDrain.Settled | engine/vllm/apply_patch.py:136-140 | an enforced target is never exceeded nor changed by a quiet run |
| VllmDrain.SetTakesEffect | engine/vllm/apply_patch.py:70-76 | a target at or above occupancy is enforced at once; below it, no step admits anybody |
| Histogram.ComputeQuantile | trimtab/metrics.py:61-77 | the loop computes the search over sorted bounds, for any q and any counts |
| Histogram.QuantileInverts | trimtab/metrics.py:61-77 | for 0 < q <= 1 the result is the least x whose interpolated count reaches q times the total, or the last finite bound when none does; the other two returns are never taken |
| Histogram.SearchInverts | trimtab/metrics.py:68-76 | the same from any point of the loop, by induction over the buckets |
| Histogram.QuantileMonotone | trimtab/metrics.py:61-77 | a larger q never gives a smaller result, all within 0 and the last finite bound |
| Histogram.QuantileAnswers | trimtab/metrics.py:63-66 | for any counts, whether there is an answer does not depend on q, and for q in 0..1 it is finite |
| Histogram.OtherReturns | trimtab/metrics.py:73-77 | outside 0 < q <= 1 the flat return and the fall-through are reachable |
| Metrics.Parse | trimtab/metrics.py:36-58 | the line loop is the fold of its lines, stopping at the first line that raises |
| Metrics.ParsedBuckets | trimtab/metrics.py:46-50 | every bucket of a parse is the sum of its lines over all label sets |
| Metrics.ParsedBounds | trimtab/metrics.py:46-50 | the bounds of a parsed histogram are exactly those its lines name (NamedByALine ties the recursion to "some line") |
| Metrics.TotalIsSumOverSeries | trimtab/metrics.py:49-50 | that sum is the sum of the label sets' own totals, however their lines interleave |
| Metrics.WindowIsCumulative | trimtab/metrics.py:102 | when no counter of any label set fell, the summed deltas are a cumulative histogram, new label sets and bounds included |
| Metrics.PercentilesOrdered | trimtab/metrics.py:99-106 | such a window gives none of p50, p95, p99 or all three, ordered, between 0 and the last finite bound |
| Metrics.PrometheusMetrics.TakeSample | trimtab/metrics.py:85-111 | what one scrape adds, and that a scrape that raises is not remembered |
| SampleMeaning.ParsedValue | trimtab/metrics.py:55-57 | a gauge or counter is there exactly when some line has its name, and is then their sum over all label sets |
| SampleMeaning.ParsedCount | trimtab/metrics.py:51-52 | the count of a histogram is the sum of its count lines |
| SampleMeaning.ParsedSum | trimtab/metrics.py:53-54 | the sum of a histogram is that of its sum lines |
| SampleMeaning.GaugesAreSums | trimtab/metrics.py:88-91 | each gauge of a sample is the sum of its own source's lines, with an earlier scrape and without |
| SampleMeaning.ThroughputIsGrowth | trimtab/metrics.py:94-98 | throughput times the time between the scrapes is what the token counter has grown by, and 0 exactly when it has not moved |
| SampleMeaning.RatesAddUp | trimtab/metrics.py:98 | the rates of two adjoining windows, weighed by their lengths, are the rate over both |
| SampleMeaning.RateForgetsThePast | trimtab/metrics.py:98 | what was counted before the window does not change the rate |
| SampleMeaning.LatenciesAre | trimtab/metrics.py:99-109 | the percentiles under each label are those of its own source's deltas, in milliseconds, and its requests the growth of its count lines |
| SampleMeaning.PercentileInverts | trimtab/metrics.py:103-106 | over counters that never fell each is the inverse of the distribution observed in the window |
| Metrics.WindowSample | trimtab/metrics.py:99-109 | one latency histogram of a window, with the KeyError of a missing earlier one |
| StoreModel.RunLater | trimtab/store.py:5-7 | over every run version rows never change, ids only grow, no group loses its desired version, canary rows change only status |
| StoreModel.LineageStays | trimtab/store.py:96-106 | walking parents ends at a root, strictly back in time, inside one group, and gives the same walk in every later state |
| CanaryHistory.OverridesAreHistory | trimtab/store.py:133-141 | for every history a replica has an override exactly when some commit owns it, and it is that commit's, between any two commits of overlapping canaries |
| CanaryHistory.DesiredIsHistory | trimtab/store.py:108-126 | a group's desired version is that of its last promotion that went through |
| CanaryHistory.TargetIsHistory | trimtab/store.py:128-131 | desired_for is the owner's candidate, otherwise the last promotion, otherwise what it was |
| CanaryHistory.RowsBelong | trimtab/canary.py:65-72 | every override row names an existing canary, carries its candidate and lies in its scope; it is still observing when nobody clears a canary before its overrides are set |
| CanaryHistory.StatusIsHistory | trimtab/store.py:159-161 | over every history a canary's status is that of the last commit that closed it while it existed, and observing when none has |
| CanaryHistory.ObservingIff | trimtab/canary.py:74-79 | when closes carry a verdict, a canary is observing if and only if no commit has closed it |
| CanaryHistory.LeftBehind | trimtab/canary.py:89-100 | a canary holds rows at the end exactly when no clear follows its set commit and some replica was not taken over |
| CanaryHistory.AbortInsideStart | trimtab/canary.py:70-71 | an abort between the two commits of start leaves a replica on a reverted canary's candidate |
| ControlPlane.Store.DoPropose | trimtab/store.py:96-106 | the new version has an id never used before, the proposed fields, the group's desired version as parent, and desired state is untouched |
| StoreHistory.ProposalIsVersion | trimtab/store.py:96-106 | over every history a proposal's row is there ever after with the proposed fields, its parent the last promotion of the group before it |
| StoreHistory.FieldsWereProposed | trimtab/store.py:96-106 | every version has the group and the fields that some proposal named |
| StoreHistory.IdsInOrder | trimtab/store.py:96-106 | ids are handed out in order, one to a proposal |
| StoreHistory.OpeningIsCanary | trimtab/store.py:143-150 | over every history a canary's row keeps the candidate, scope and gates it was opened with, its baseline the last promotion of the group before it |
| ControlPlane.Store.DoPromote | trimtab/store.py:108-117 | accepts exactly an existing version of the same group; otherwise raises and changes nothing |
| ControlPlane.Store.Rollback | trimtab/store.py:119-122 | is a promotion of the older version |
| ControlPlane.Store.SetOverrides | trimtab/store.py:133-137 | the replica-by-replica upserts are one update of all of them |
| ControlPlane.Store.ClearOverrides | trimtab/store.py:139-141 | removes exactly the rows of that canary |
| ControlPlane.Store.GetDesiredFor | trimtab/store.py:128-131 | the override wins; raises only for an override whose candidate does not exist |
| ControlPlane.Store.OpenCanary | trimtab/store.py:143-150 | a fresh observing canary with the group's desired version as baseline, whatever the candidate |
| ControlPlane.Store.CloseCanary | trimtab/store.py:159-161 | changes the status of that canary and nothing else |
| ControlPlane.Canary.Start | trimtab/canary.py:65-72 | refuses a scope outside the replicas or equal to them; otherwise makes exactly the two commits |
| ControlPlane.Canary.Decide | trimtab/canary.py:89-96 | makes the commits of the decision the gates give; a promotion that raises leaves the canary cleared and open |
| ControlPlane.Canary.Observe | trimtab/canary.py:74-96 | refuses a missing or decided canary without a trace; otherwise makes the decision on the means of what was sampled, and says what is left when its promotion raises |
| ControlPlane.Canary.Abort | trimtab/canary.py:98-100 | clears, then closes as reverted, whatever the status was |
| ControlPlane.DecisionEffect | trimtab/canary.py:1-8 | the group moves exactly on a pass, no other group moves, the canary's replicas are back with their group, other canaries' overrides stay |
| ControlPlane.StartEffect | trimtab/canary.py:3-5 | the scope is on the candidate and everyone else where they were |
| ControlPlane.PassingCanaryBlinks | trimtab/canary.py:92-94 | between the first two commits of a decision the replicas are on the group's previous version, pass or fail |
| Gates.Evaluate | trimtab/canary.py:28-50 | one finding per gate, in order, and a pass exactly when every gate holds |
| Gates.Judge | trimtab/canary.py:33-49 | a finding is fine exactly when the metric was sampled, within its absolute bounds, and within its ratio bounds over a usable baseline |
| Gates.FindingSays | trimtab/canary.py:33-49 | which of the findings a gate gets: no sample, its own bounds, the baseline, the ratio, upper bounds first |
| Gates.RatiosScale | trimtab/canary.py:42-48 | a gate on the ratio alone does not change when both sides are scaled |
| Gates.BoundsAreInclusive | trimtab/canary.py:37-48 | a value at a bound passes, one beyond it does not |
| Gates.PassesConcat | trimtab/canary.py:31-50 | a concatenation of gates passes exactly when both parts do |
| Gates.ComputeMean | trimtab/canary.py:53-58 | the running sums and counts give each metric's mean over the samples that carry it |
| Gates.MeanBetween | trimtab/canary.py:53-58 | a metric has a mean exactly when it was sampled, between its smallest and largest sample |
| Gates.MeansWeigh | trimtab/canary.py:53-58 | the means of two batches weigh by how many samples carry the metric, so that any split of a window gives its mean |
| Gates.MeanOfOne | trimtab/canary.py:53-58 | the mean of one sample is the sample |
| Fleet.ReplicaRuns | trimtab/reconciler.py:29-56 | in any interleaving of commits and ticks of any replicas, each replica is where a reconciler alone gets on what its own ticks read |
| Fleet.FleetAgrees | trimtab/reconciler.py:29-56 | a replica none of whose ticks failed is on the version the store named for it at its last tick, and its engine agrees with it, whatever was committed since |
| Fleet.FleetHoldsProposals | trimtab/store.py:96-106 | what such a replica's engine agrees with are the fields of a proposal made before it read them |
| Fleet.DecisionLands | trimtab/canary.py:5-8 | after a decision one tick is enough: a replica the canary held, or no canary holds, is on the candidate or back on the group's version, and its engine agrees |
| MemoryTags.TagsAgree | engine/sglang/reinit_body.py:84-102 | the tag paused is the tag the patched region allocated under, in every generation |
| MemoryTags.TagsDistinct | engine/sglang/reinit_body.py:82-85 | tags of different generations or kinds are different strings |
| MemoryTags.TagSpelling | engine/sglang/reinit_body.py:84-85 | the plain tag at first, then the generation behind ".g" |
| MemoryTags.PauseAdvances | engine/sglang/reinit_body.py:80-91 | pausing the current generation touches nothing already paused and nothing foreign, and makes the next one current |
| SglangSafety.RunSafe | engine/sglang/reinit_body.py:76-117 | over every mix of refused, successful, restored and failed reinits and hot updates: counters agree, regions are mapped exactly when current or foreign, one entry of old pools per generation, cap at most the allocation, ceiling equal to it |
| SglangSafety.EachGenerationPausedOnce | engine/sglang/reinit_body.py:80-91 | exactly the earlier generations have been paused, each tag once, in order |
| SglangSafety.WeightsStayMapped | engine/sglang/reinit_body.py:2-3 | a mapped region under the weights' tag is still mapped after any run |
| SglangSafety.CapWithinAllocation | engine/sglang/apply_patch.py:54-76 | the live cap never exceeds the current pools' allocation and a recorded ceiling is that allocation |
| SglangSafety.BootIsSafe | engine/sglang/reinit_body.py:95-105 | the invariant holds at boot, whatever was allocated |
| SglangSafety.RestoreIff | engine/sglang/reinit_body.py:128-142 | a restored reinit leaves the configuration as it was exactly when it had not stored another KV dtype before failing and the live sizes it names, and the memory fraction, are the configured ones |
| SglangSafety.RestoreAlwaysIff | engine/sglang/reinit_body.py:128-142 | it does so wherever the rebuild fails, even at its override, exactly when no other KV dtype is asked for and those sizes agree |
| SglangPools.PoolsIff | engine/sglang/reinit_body.py:44-58 | a reinit let through leaves pools exactly when its memory fraction converts and one of its two rebuilds ends; when the fraction does not convert, nothing is paused, counted or kept |
| SglangPools.PoolsAlwaysIff | engine/sglang/reinit_body.py:44-142 | what a caller can count on: pools are certain exactly when the call is refused and they were there, and possible exactly when the fraction converts |
| SglangPools.RunMoves | engine/sglang/reinit_body.py:76-142 | over every run the pools, generation and kept pools of the scheduler are those of a machine of five fields that the hot knobs do not touch |
| SglangPools.PoolsGoneIff | engine/sglang/reinit_body.py:44-142 | at every point of every run the pools are gone exactly when some call failed, on its fraction or in both rebuilds, and no later one was let through |
| SglangPools.AllKeptIff | engine/sglang/reinit_body.py:113-118 | one entry is kept for each earlier generation, and all of them hold pools exactly when no call that tore a generation down found its pools gone |
| SglangPools.KeptAreDistinct | engine/sglang/reinit_body.py:113-118 | over every run the pools kept and those in use are all different |
| SglangPools.PausedWithNothingKept | engine/sglang/reinit_body.py:52-55 | two calls after which a generation has been paused with nothing kept |
| SglangSafety.RestoreKeepsCeilingIff | engine/sglang/reinit_body.py:139-142 | the ceiling after a restore is the live cap, so it is kept exactly when the cap had not been lowered |
| SglangSafety.WatermarksOrdered | engine/sglang/apply_patch.py:121-125 | 0 < min <= init <= 1, and the decay steps lead exactly from init to min |
| SglangSizes.WatermarksScale | engine/sglang/apply_patch.py:121-124 | the upper watermark is proportional to the conservativeness until it saturates at 1, and the lower keeps its ratio to it |
| SglangModel.TurnsAreSimultaneous | engine/sglang/apply_patch.py:65-139 | the knobs written one after the other are all of them at once |
| SglangEngine.Scheduler.Reinit | engine/sglang/reinit_body.py:1-206 | teardown, pause, rebuild and restore in the source's order, each rebuild failing before or after its override is stored, are the step the invariants are about |
| SglangSizes.SettingsAfterReinit | engine/sglang/reinit_body.py:144-151 | a rebuild that ends leaves each size the workers report under its own name, the caps and the ceiling at them, the ratio tracker at its start and every other setting as it was; any other reinit leaves all of them |
| SglangSizes.ReadBackAfterReinit | engine/sglang/apply_patch.py:144-155 | what is read back after it is what the workers report |
| SglangSizes.CapsAfterReinit | engine/sglang/apply_patch.py:65-104 | a prefill budget is then accepted exactly up to the reported token total, a running cap exactly up to the reported allocation |
| SglangSizes.CapsInTheSameCall | engine/sglang/apply_patch.py:57-76 | also in the call that carries the reinit: its hot knobs are judged after it |
| SglangSizes.RestoreStoresLiveSizes | engine/sglang/reinit_body.py:34-38 | a restore stores the live token count and request cap of the fields that were named, and puts the memory fraction back |
| SglangSizes.SizesAreReported | engine/sglang/reinit_body.py:144-151 | at every point of every run the token total and the allocation are those of the last rebuild that came to its end |
| SglangSizes.RunSizes | engine/sglang/reinit_body.py:144-151 | over every run the sizes and caps are those the calls themselves name, rebuild by rebuild and cap by cap |
| SglangSizes.PolicyAndRatio | engine/sglang/apply_patch.py:105-127 | a policy taken runs as the engine's check says, and the tracker starts at its new upper watermark |
| SglangSizes.AnswerSays | engine/sglang/apply_patch.py:38-64 | an answer is ok exactly when its reinit, if any, was built and every one of the seven knobs it carries is taken; the keys left over are all others |
| SglangEngine.Scheduler.TearDown | engine/sglang/reinit_body.py:78-117 | both tags paused, both counters moved on together, old pools kept |
| SglangEngine.Scheduler.ApplyHotKnobs | engine/sglang/apply_patch.py:38-140 | reinit keys first, then the hot knobs under the ceilings it left; ok exactly when all was done; unknown keys fall through |
| SglangEngine.Scheduler.ApplyKnobs | engine/sglang/apply_patch.py:65-139 | every known knob is judged and written on its own; ok exactly when none was refused |
| Rewiring.Rewire | engine/sglang/reinit_body.py:177-192 | every scanned component ends rewired once, however often it is met or shared |
| Rewiring.RewiredTwice | engine/sglang/reinit_body.py:179-192 | rewiring is idempotent |
| Rewiring.RewiredIff | engine/sglang/reinit_body.py:183-192 | a field ends with the rebuilt object exactly when it had it or an object of the same class or a retired one; otherwise it keeps its own |
| Rewiring.SharedAfterScan | engine/sglang/reinit_body.py:174-192 | after a scan the components that had an object of that class share the rebuilt one |
| Rewiring.NoRetiredLeft | engine/sglang/reinit_body.py:187-192 | a field holds a retired object exactly when it did before and nothing was rebuilt for it; a field matching neither test keeps its value |
| Rewiring.NeverRetiredAgain | engine/sglang/reinit_body.py:174-192 | over any number of rounds a field rebuilt in each of them holds no object retired in any |
| Manifest.Validate | trimtab/manifest.py:33-60 | accepted and rejected partition the keys, and accepted values are unchanged |
| ManifestMeaning.VerdictByClass | trimtab/manifest.py:33-60 | a field goes to the engine exactly when it is known, neither cold, warm nor deferred, and its value is one of the choices in any case, or a number of the right kind within both bounds |
| ManifestMeaning.ReasonByClass | trimtab/manifest.py:36-59 | which refusal a field gets, by its class, its type and its bounds |
| ManifestMeaning.ShippedChoicesArePlain | engine/sglang/manifests/sglang-3315356.yaml:45-67 | no shipped choice is spelled with "cold" or "warm" |
| EngineAgreement.VllmAgrees | trimtab/manifest.py:33-60 | for every hot vLLM knob, a value the manifest accepts is accepted by the engine exactly when within its ceiling, unchanged |
| EngineAgreement.VllmVersionAgrees | engine/vllm/apply_patch.py:63-69 | a whole accepted version is rejected in nothing but its two capped knobs |
| EngineAgreement.SglangAgrees | engine/sglang/apply_patch.py:65-139 | likewise for every SGLang knob but the policy |
| EngineAgreement.MockAgrees | trimtab/mock_engine.py:70-94 | likewise for the mock engine of either kind |
| EngineAgreement.VllmTakesNoMore | engine/vllm/apply_patch.py:44-79 | vLLM takes nothing the shipped manifest refuses but bools and floats |
| EngineAgreement.SglangTakesNoMore | engine/sglang/apply_patch.py:65-139 | SGLang neither, but for a conservativeness below the manifest's least |
| EngineAgreement.MockTakesNoMore | trimtab/mock_engine.py:70-94 | nor does the mock |
| EngineAgreement.BoolsStopAtTheManifest | trimtab/manifest.py:53 | a bool equals 1 or 0 as a value, and the manifest lets none through |
| EngineAgreement.BoolsAtVllm | engine/vllm/apply_patch.py:44-69 | vLLM alone would take a bool, as 1 or 0 (BoolsAtSglang for SGLang) |
| EngineAgreement.SglangBootShape | trimtab/mock_engine.py:19-33 | a booted SGLang mock has the hot knobs of its engine's manifest and no others, with its two caps at their ceilings |
| EngineAgreement.VllmBootShape | trimtab/mock_engine.py:19-33 | and so has a booted vLLM mock |
| EngineAgreement.MockRangeIsTrue | trimtab/mock_engine.py:88-91 | the range a refusal names is the range that is taken (VllmRangeIsTrue for vLLM) |
| MockEngine.Engine.DoApply | trimtab/mock_engine.py:60-96 | the reinit keys first, raising, refused or done, then the loop over the other keys is one simultaneous update under the ceilings the reinit left |
| MockEngine.Engine.DoReinit | trimtab/mock_engine.py:35-58 | sizes, knobs and ceilings move together, in order, up to the first value that does not convert; a field that is not warm changes nothing |
| MockEngine.SglangReinitSets | trimtab/mock_engine.py:44-52 | a reinit that is done sets the token total with the prefill budget and its ceiling, and the request cap with its ceiling, and nothing else |
| MockEngine.VllmReinitSets | trimtab/mock_engine.py:50-56 | likewise the two vLLM caps, and the tokens of a memory fraction |
| MockEngine.ReinitSays | trimtab/mock_engine.py:38-42 | a reinit is refused without a trace exactly for a field its engine cannot reinit, and raises exactly when one of its sizes is no number |
| MockEngine.CallSays | trimtab/mock_engine.py:60-96 | every key is in exactly one of applied and rejected, and what is applied is what the engine then holds |
| MockEngine.CallKeepsCapped | trimtab/mock_engine.py:26-96 | whatever a call carries and however it ends, every capped knob is a whole number at or below its ceiling |
| MockEngine.ReadBackIff | trimtab/adapters.py:58-66 | SGLang's ok for a level the engine takes holds exactly when it was sent in upper case |
| ReconcilerModel.Reconciler.DoTick | trimtab/reconciler.py:31-56 | validate, sort the rejections, push, remember; failed, healthy and needs_reinit as the source returns them |
| ManifestMeaning.TickByClass | trimtab/reconciler.py:37-54 | past the no-op a tick is refused with nothing changed exactly when some field is unknown, deferred or has a bad value; when it does not fail, it reports cold fields pending exactly when the version names one |
| ManifestMeaning.HotFieldsHeld | trimtab/reconciler.py:45-54 | and then every other field is held by the engine, pending cold fields or not |
| ManifestMeaning.MisreadHidesAMistake | trimtab/reconciler.py:38-39 | a wrong choice whose refusal mentions "cold" or "warm" is reported pending and the version remembered |
| ReconcilerModel.AppliedAgrees | trimtab/reconciler.py:37-56 | a tick that applied a version leaves the engine holding it on every field the manifest lets through |
| ReconcilerModel.NoSecondCall | trimtab/reconciler.py:31-35 | a second tick on the applied target changes nothing and calls nobody |
| ReconcilerModel.CallsAreCounted | trimtab/reconciler.py:31-56 | over every run the engine is called exactly once for each tick whose target differs from the applied one, with nothing bad and something let through |
| ReconcilerModel.CallsAreChanges | trimtab/reconciler.py:4-7 | when none fails, the engine is called as often as the target changes, however many ticks there are |
| ReconcilerModel.HealthyRuns | trimtab/reconciler.py:4-7 | over every run of promotions, rollbacks and ticks none of which fails, the engine agrees with the last target, and its knobs are the boot knobs with the targeted versions laid over them in order |
| ReconcilerModel.RollbackIff | trimtab/store.py:119-122 | going back to a version, after any targets in between, brings back the knobs it had exactly when what those wrote to knobs it does not set is what these held already |
| ReconcilerModel.RollbackWithin | trimtab/store.py:119-122 | so it does whenever the versions in between set no knob that it does not set |
| ReconcilerModel.TargetAlone | trimtab/reconciler.py:4-7 | when all targeted versions set the same knobs, the knobs depend on the last target alone |
| ReconcilerModel.OverlaysLeaveTraces | trimtab/store.py:119-122 | two versions for which a rollback, healthy all the way, does not bring the state back |
| ReconcilerModel.StaleAfterRejection | trimtab/reconciler.py:45-49 | after a partly rejected push, going back is a healthy no-op, and it agrees exactly when the keys that went through are not among the old version's or store the same |
| SupervisorEngine.Supervisor.Tick | trimtab/supervisor.py:118-162 | tick as the source makes it, over every crash point and outcome |
| SupervisorEngine.Supervisor.ConvergeCold | trimtab/supervisor.py:130-149 | the warm attempt and the relaunch, each only when its guard holds |
| SupervisorEngine.Supervisor.Split | trimtab/supervisor.py:76-80 | every field goes to exactly one side, with its value |
| ManifestMeaning.SplitByClass | trimtab/supervisor.py:76-80 | the cold side has exactly the version's fields of class cold or warm, the hot side all others |
| ManifestMeaning.HotPartNeverPends | trimtab/supervisor.py:150-154 | the hot part is never refused for want of a relaunch or a reinit, only for a bad name or value |
| ManifestMeaning.ColdVersionsDoNotFail | trimtab/supervisor.py:129-162 | a version all of whose fields are cold or warm never ends failed, whatever crashes and however the calls go |
| ManifestMeaning.LoopsSplitAlike | trimtab/reconciler.py:37-39 | what the reconciler leaves pending is the supervisor's cold part of the same version and the misread fields; both push the same |
| ManifestMeaning.LoopsAgree | trimtab/supervisor.py:76-80 | with no choice spelled with "cold" or "warm", the pending fields are the cold part and both loops refuse the same versions |
| SupervisorEngine.Supervisor.Launch | trimtab/supervisor.py:89-102 | a cold field without a flag or a failed boot leaves no process and the old belief |
| SupervisorEngine.AskUntilIdle | trimtab/adapters.py:137-141 | the retry loop reports the first answer that is not busy, or busy when all twenty were |
| SupervisorEngine.AllUpdated | trimtab/adapters.py:40-46 | true exactly when some rank answered and every rank took the update |
| SupervisorSafety.ChangedIsEnough | trimtab/supervisor.py:131-138 | sending only the changed fields under the engine's names turns the old settings into exactly the new ones |
| SupervisorSafety.NamesAreTheEngines | trimtab/supervisor.py:134 | the engine is sent the token count under its own name and every other setting under the same |
| SupervisorSafety.HealthyTickAgrees | trimtab/supervisor.py:129-162 | a healthy tick past the no-op, whose oks mean what they should, leaves a live engine agreeing with the target on all its fields |
| SupervisorSafety.TickKeeps | trimtab/supervisor.py:118-162 | every tick that returns keeps belief true and a clean engine in agreement with the version named, and one that raises keeps it once the engine is stopped |
| SupervisorSafety.RunKeeps | trimtab/supervisor.py:164-170 | the same over every interleaving of target changes, crashes, refusals, failed launches, rejections and ticks |
| SupervisorSafety.FreshIsSafe | trimtab/supervisor.py:72-74 | the invariant holds of a new supervisor |
| SupervisorSafety.RelaunchIff | trimtab/supervisor.py:129-149 | at most one launch a tick, and exactly when a live process is replaced |
| SupervisorSafety.BeliefMoves | trimtab/supervisor.py:89-102 | the remembered cold settings become the target's only when a launch with them booted or a reinit was acknowledged |
| SupervisorSafety.OldSettingsComeBack | trimtab/supervisor.py:120-124 | when the target goes away after an update that could not be launched, the engine comes back with the settings that last worked |
| SupervisorSafety.TickOutcome | trimtab/supervisor.py:129-162 | how a tick past the no-op ends when nothing dies: it raises exactly when its cold part does not come through or its push raises, and otherwise the manifest and the engine's answer decide |
| SupervisorSafety.Progress | trimtab/supervisor.py:129-162 | from any state a run can reach, one tick under which nothing goes wrong converges, if and only if the manifest takes the hot part and a launch, when one is needed, has a flag for every cold field |
| SupervisorSafety.RelaunchWithoutTarget | trimtab/supervisor.py:120-127 | after a relaunch without a target the next no-op agrees exactly when the settings last launched with and the boot knobs do |
| SupervisorSafety.FailedTick | trimtab/supervisor.py:129-158 | a tick that ends failed leaves a live process with the new version's cold settings under the old version's name |
| SupervisorSafety.BackAfterFailure | trimtab/supervisor.py:125-158 | after any failed tick, going back is a healthy no-op that agrees exactly when the failed version gives each cold field of the old one the same value and the hot knobs it left hold the old hot part |
| EngineHonesty.OkHolds | trimtab/adapters.py:58-66 | for the patched vLLM core, the patched SGLang scheduler and both mocks: an ok for a hot part the manifest let through means the engine reports every value of it |
| EngineHonesty.VllmHolds | engine/vllm/apply_patch.py:31-97 | of a version the manifest lets through, every value vLLM does not reject is the one its get_knobs reports |
| EngineHonesty.AppliedIsReported | engine/vllm/apply_patch.py:44-97 | the values in vLLM's `applied` are the ones its get_knobs then reports |
| EngineHonesty.TakesHalf | engine/vllm/apply_patch.py:44-80 | vLLM takes one of two knobs and rejects the other, as the reachable case needs |
| StaleHealthy.HealthyButWrong | trimtab/supervisor.py:125-158 | three ticks from a fresh supervisor, healthy, failed, healthy, after which the engine holds another value than the version it names |
| StaleHealthy.StaleInput | engine/vllm/manifests/vllm-c0adee9.yaml:8-26 | two versions that do so with the shipped vLLM manifest |
| WarmHonesty.WarmOkIff | trimtab/adapters.py:70-83 | when an ok to a warm reinit means that the settings asked for are held: always for the patched SGLang, for whole sizes on vLLM, for whole sizes alone on a mock; no other setting moves |
| Convergence.WarmTickIff | trimtab/supervisor.py:134-149 | a healthy tick through a warm reinit agrees with its target exactly when the request is such a one, which with their manifests it always is for the two real engines |
| Convergence.HealthyTickOverEngines | trimtab/supervisor.py:129-162 | a healthy tick past the no-op agrees with the target hot and cold, with nothing assumed of its two oks but that one of the engines gave each, and of a mock that it was sent what it keeps |
| Convergence.FreshRunsOverEngines | trimtab/supervisor.py:164-170 | the same over every run of a fresh supervisor |
| Convergence.StaysFailed | trimtab/adapters.py:58-66 | a version naming a hot knob outside the patched seven is never applied, over every run against any SGLang server |
| EngineHonesty.NeverAcknowledged | engine/sglang/apply_patch.py:144-155 | whatever the engine answers, the read-back does not carry such a knob, so the push is reported as rejected |
| EngineHonesty.MockVersionAgrees | trimtab/adapters.py:58-66 | of the versions the manifest lets through, the SGLang mock acknowledges exactly those that name no other knob than the patched seven and are within its two caps with the level in upper case |
| EngineHonesty.SglangVersionAgrees | engine/sglang/apply_patch.py:65-139 | so does the patched scheduler, when the policy is one the engine can run |
| ManifestParser.Parse | trimtab/manifest.py:66-98 | the line loop with its mutable knob and flag reads exactly what the line-by-line definition says |
| ManifestParser.ParseInvertsRender | trimtab/manifest.py:66-98 | any manifest in the layout of the shipped ones, folded lines included, with any trailing comments, blank and comment lines, reads back as exactly its settings, validators and, for each folded line, a key of its own |
| ManifestParser.FoldedKeepsIff | trimtab/manifest.py:92-97 | a key of a knob comes through lines folded under another exactly when none has that key or the last that has it writes the same text; a validator exactly when none has its key |
| ManifestParser.FoldedBecomesKeys | engine/vllm/manifests/vllm-c0adee9.yaml:55-59 | each folded line without a colon is a key with no value, and every other key comes through |
| ManifestParser.DecorationIsIgnored | trimtab/manifest.py:71-74 | comments, trailing white space and blank lines do not change what is read |

## Left out

- HTTP servers, RemoteStore, adapters' requests, token checks and the CLI: thin forwarding.
- SQL, timestamps, actors, reasons, heartbeats and status rows: each table is a map, each store method one commit.
- Subprocesses, signals, health polling and latency fields: a process is dead or running with its settings.
- GPU memory, CUDA graphs, tensors and the worker-side teardown; `_hollow`, which cannot run after the saver check.
- The engines' own schedulers beyond admission below the cap and departures. A vLLM scheduler takes its token budget from max_num_batched_tokens.
- The effective schedule policy is the engine's own check, a parameter of the SGLang model.
- A memory saver pause that raises is logged and skipped by the source; it is taken to succeed.
- SupervisorSafety.HealthyTickAgrees: with TickKeeps and RunKeeps, stated for any engine whose oks mean what they should; Convergence shows it of the engines modelled, each answering from any state it may be in.
- The policy an SGLang scheduler reports before its first policy update is a boot flag, which is not part of this model.
- SupervisorSafety.RunKeeps: a tick that raises ends `run`, which stops the engine; ticking on by hand after a raise is not covered.
- Floating-point rounding: reals throughout; floats are finite. Numeric strings do not convert to numbers.
- Tokenising of metric lines by regular expression; a line is given as name, labels, bound and value.
- Text is ASCII without control characters; a line splitter is not part of this model.
- Folded lines that start as a list item or read "validator:" are not part of the manifest layout; the parser reads them as such.
- WarmHonesty.WarmOkIff: the settings an SGLang holds are its configuration; what its pools got of them is reported by its workers and may differ.
- Fleets of supervisors: the supervisor's replicas; only the reconciler's are run against the store, and statuses are not written back.
- `load`'s conversion of parsed text to knobs, and the order in which the replicas of a canary are sampled.
- The launch command line: only whether every cold field has a flag.
- The Kubernetes operator, launchers, benches, deployment files and file patching.
