# A verified model of the quota scaler

The quota scaler resizes the ResourceQuota of a namespace when its usage leaves the band its
QuotaAutoscaler describes, or when pods cannot be created. This project models its three parts in Dafny
and proves properties of all their runs.

- **Resizing** (`internal/resize_api.go`). One event loop owns three maps; goroutines run resize calls and
  report back; results go to a bounded channel that drops what does not fit. `ResizeProtocol` holds the
  decisions of the loop twice, over its maps and as a protocol for a single namespace, and proves that
  they are the same. `SlotSafety` proves what each step of the single-namespace protocol keeps.
  `ResizeSystem` adds any number of goroutines and the result channel as a transition system and states
  the guarantees of every run; `ResizeProgress` proves that it drains, and that its runs are the
  interleavings of single-namespace runs. `ResizeHandler` is the loop as an object with mutable maps.
- **Deciding** (`internal/scaling.go`, `UpdateQuotaIfRequired`, `pkg/resources`). `Resources` and `Scaling`
  model the mutable structs and the policies, `ScalingLaws` the arithmetic of percentages and steps,
  `Decision` one evaluation with its write-back through a shared map, `ClosedLoop` what happens when
  requests become the next size of the quota: `Settling` proves that repeated evaluations bring it to rest
  and where, `Crossing` and `FixedStep` for which scalers they do so exactly, `Swinging` when a raise is undone
  and when that goes on for ever, `Horizon` how soon it is known for any scaler. `Scenarios`
  works whole evaluations out in numbers. `EndToEnd` feeds the event loop with such requests, for a quota that
  follows the resize calls.
- **Collecting** (`internal/watchers.go`, `internal/pod_event.go`). `Watcher` stores quotas, scalers and
  events by namespace and hands batches over at ticks; `PodEvents` turns a batch into demand.

How to read the model:

- Every action sequence is a run: an action that is not enabled leaves the system as it is. The clock
  never goes back, and a completion reads it twice, once for the cache and once for the scale-down check,
  as the program does.
- Requests carry an arrival number, and the loop keeps a log of what it received, started, completed,
  superseded and refused. Neither exists in the program, and no branch reads them.
- A resize call is any call that returns, successful or not; the cache is updated either way.
- Integers are unbounded and quotients are exact before truncation: rounding of floating point and
  overflow of 64-bit integers are not modelled. What a platform makes of a division by a zero threshold
  is a parameter, `inf`, of every function concerned; the step laws, the bounds and
  the results on settling and resting hold for every value of it.
- A quantity counts nano-units and `ScaledValue` rounds up. Scaler fields are integers, absent when empty
  or unparsable.
- The method of a policy is compared after lower-casing its ASCII letters; no other letter lower-cases to one
  of `cpu` or `memory`.
- Objects that can be fetched are a finite map; an absent one is a failed fetch.

Where the code and its comments differ, the model follows the code:

- The scale-down window is a minute (`internal/resize_api.go:103`), not an hour (`internal/resize_api.go:104`)
  or "a couple of minutes" (`readme.md:133`).
- The maximal CPU step is read from `minCpuStep` (`internal/scaling.go:61`), so the documented `maxCpuStep`
  has no effect: `ScalingLaws.CpuStepRespectsExactly` says when a percentage policy nevertheless meets it.
- The stub resize call writes the memory limit with the unit `m` (`internal/resize_api.go:220-222`) where its
  comment announces the memory size: `Decision.RequestReadsBack`.
- The test calls `InvokeResizeApiAsync` with three arguments (`internal/resize_api_test.go:41-50`) where the
  function takes four; it is taken as intent, a burst costs two calls and the last request wins.

Four properties one could expect do not hold as such. Each comes with an input that fails and with its exact
condition, the first one by kinds of scalers:

- Evaluations at a fixed usage need not come to rest (`Swinging.FullOverSeventyNeverRests`, thresholds 100 and
  70; `Swinging.SwingsForEver`, thresholds 50 and 50). The condition can be read off the scaler and the usage,
  in both directions, when each dimension has a band as wide as `Banded` asks for, has all policies at 100, or
  has crossed thresholds (`Crossing.SettlesExactly`), and when a dimension has one fixed step, such as any CPU
  with a given minimal step, while the other is still (`FixedStep.FixedStepSettlesExactly`). For a narrow band
  with two different steps `Swinging.SwingsBackExactly` gives the condition for an endless swing between two
  sizes. For all other scalers the loop settles exactly when it does within as many evaluations as there are
  sizes (`Horizon.SettlesSoonOrNever`, which holds for every scaler). `Swinging.RaiseAnsweredExactly` says when
  a single raise is undone, for thresholds in any order.
- The demand of a batch is not always the total over its objects (`PodEvents.UnknownKindCanHideAnObject`);
  `PodEvents.DemandIsPerObjectExactly` says for which batches it is.
- The documented maximal CPU step can be exceeded, upwards and downwards (`Swinging.DocumentedStepIsExceeded`).
  `ScalingLaws.CpuStepRespectsExactly` says when the step of one percentage policy respects it; a policy at 100
  and the demand of events take no step limit at all.
- A request that raises the quota can be refused as a scale-down (`EndToEnd.FailedCallBlocksRaise`): the cache
  keeps the size a failed call asked for. `EndToEnd.OnlyRecentScaleDownsAreRefused` says exactly when an idle
  namespace refuses.

A batch handed over while its namespace has no scaler or no quota is dropped; `Watcher.WatchRunInv` says
which batches are evaluated.

## Model

| member | source | states |
|---|---|---|
| ResizeSystem.SingleFlightAlways | internal/resize_api.go:97-138 | at every point of every run a namespace marked in progress has exactly one goroutine out, any other none, and a request waits only for a namespace in progress |
| ResizeSystem.CooldownAlways | internal/resize_api.go:101-137 | of any two resizes started for a namespace, adjacent or not, the later asks for less CPU or less memory only if it started at least 60 seconds after the earlier one completed |
| ResizeSystem.NothingLostOrRepeated | internal/resize_api.go:113-138 | each received request is exactly one of started, superseded, refused or waiting; requests start in arrival order, each once; started is completed plus in flight |
| ResizeSystem.LatestWinsWhenIdle | internal/resize_api.go:113-138 | when no goroutine is out for a namespace its newest request was the last started, or was refused as smaller than one completed less than a minute before |
| ResizeSystem.GrowingNamespaceGetsLatest | internal/resize_api_test.go:40-66 | when requested sizes never shrink nothing is refused and the last resize started is the last request received, for any burst and interleaving |
| ResizeSystem.RunInv | internal/resize_api.go:72-139 | every run keeps the agreement of goroutines, maps and histories on which the guarantees rest |
| ResizeProtocol.LoopIsProductOfSlots | internal/resize_api.go:97-139 | for any messages in any order, what one namespace sees of the loop is the one-slot protocol run on its own messages |
| ResizeProtocol.IdleRefusesExactly | internal/resize_api.go:101-122 | a request for an idle namespace is refused if and only if its CPU or its memory is lower than in the cache entry and that is less than 60 seconds old; else it starts, and caches and queue stay |
| ResizeProtocol.WaitingRefusesExactly | internal/resize_api.go:126-137 | the same for a waiting request, compared with the resize that completes, which enters the cache |
| ResizeProtocol.BurstCostsTwoCalls | internal/resize_api_test.go:40-66 | a burst that arrives before the first completion costs two resize calls, of its first and last request, the second refused only as a scale-down within the minute |
| SlotSafety.SlotInvStep | internal/resize_api.go:101-138 | every legal message keeps pairing of starts and completions, cooldown, reasons of refusals, conservation, order and newest-wins in one namespace |
| SlotSafety.CooldownBetween | internal/resize_api.go:101-111 | the cooldown between non-adjacent resizes follows from that between adjacent ones |
| SlotSafety.GrowingRequestsAllServed | internal/resize_api.go:101-138 | in one namespace growing requests are never refused and the newest is served |
| SlotSafety.StartedInOrder | internal/resize_api.go:113-138 | the started requests of a namespace are a subsequence of those received |
| SlotSafety.OneFateEach | internal/resize_api.go:113-138 | each request received by a namespace has exactly one fate |
| ResizeProgress.EveryScheduleDrains | internal/resize_api.go:79-92 | without new requests every schedule takes at most as many worker steps as are owed, and each step leaves fewer |
| ResizeProgress.DrainIsPossible | internal/resize_api.go:126-137 | from every state some schedule, without reading any result, reaches the state with nothing in flight, waiting or in progress within the steps owed |
| ResizeProgress.NothingOwedMeansIdle | internal/resize_api.go:126-137 | nothing is owed exactly when all namespaces are idle, and that is so exactly when no goroutine is out |
| ResizeProgress.ChannelAlwaysSound | internal/resize_api.go:37-77 | the result channel never exceeds 1024, its reader gets the delivered results in order, and a result is dropped exactly when 1024 delivered ones are unread |
| ResizeProgress.EachCallIsPublished | internal/resize_api.go:79-92 | the results offered in a run are those of the calls that returned, failed or not, once each and in order |
| ResizeProgress.RunsProjectToSlotRuns | internal/resize_api.go:97-139 | the messages of every run of goroutines and loop, seen by one namespace, are a legal run of the one-slot protocol |
| ResizeProgress.SlotRunsInterleave | internal/resize_api.go:97-139 | conversely any well-timed interleaving of legal one-slot runs is the message sequence of a run of the system |
| ResizeHandler.EventHandler.Resize | internal/resize_api.go:101-111 | the resize closure on the maps: refuse a recent scale-down, else launch, as `ResizeProtocol.IdleRefusesExactly` spells out |
| ResizeHandler.EventHandler.TakeRequest | internal/resize_api.go:115-124 | the new maps after a request: queued for a busy namespace, else started or refused |
| ResizeHandler.EventHandler.TakeDone | internal/resize_api.go:126-137 | the new maps after a completion: cache updated, the waiting request started or refused, else idle |
| ResizeHandler.EventHandler.RunEventHandler | internal/resize_api.go:96-140 | after any messages the maps are those of the specification, and each namespace was served as by its own one-slot loop |
| ResizeHandler.ResultChannel.PublishResizeResult | internal/resize_api.go:72-77 | a send that never blocks: delivered exactly when there is room |
| ResizeHandler.ResizeAsync | internal/resize_api.go:79-92 | a worker publishes once, failed or not, and hands back its own event |
| Resources.Resources.Add | pkg/resources/resources.go:25-30 | the receiver becomes the sum, also when added to itself, and is returned |
| Resources.Resources.Replace | pkg/resources/resources.go:33-50 | non-zero fields replace those of the receiver; nil changes nothing |
| Resources.Resources.Limit | pkg/resources/resources.go:53-61 | CPU and memory of the receiver become at most the limit |
| Resources.Resources.Max | pkg/resources/resources.go:64-72 | CPU and memory of the receiver become at least the other's |
| Resources.Resources.IsEmpty | pkg/resources/resources.go:75-77 | true exactly when CPU and memory are zero |
| Resources.Resources.DiffersFrom | pkg/resources/resources.go:79-87 | true exactly when CPU or memory differs from the quota |
| Resources.Resources.ForceNoScaleDownWhenScaleUp | pkg/resources/resources.go:93-106 | the receiver becomes its one-direction version with respect to the quota |
| Resources.OneDirection | pkg/resources/resources.go:93-106 | the result is pointwise at least or at most the quota, at least the desired size, and the desired size itself when that has one direction |
| Scaling.ValidatedQuotaScaler.constructor | internal/scaling.go:55-67 | fields with their defaults, the maximal CPU step read from the minimal one |
| Scaling.LimitsByField | internal/scaling.go:55-95 | each limit is what the scaler gives in the field of its name, else its default in numbers, but for the maximal CPU step; capping cuts the maxima to 35000 and 150000 |
| Scaling.ValidatedQuotaScaler.ForceLimitToDefaultMax | internal/scaling.go:85-95 | maxima become at most the default maxima |
| Scaling.ValidatedQuotaScaler.ActivatePolicy | internal/scaling.go:138-155 | the active policy and its target, 0 when it asks for nothing; `Scaling.MethodsByName` and `ScalingLaws.StepsByField` say for which dimension and where to |
| Scaling.MethodsByName | internal/scaling.go:103-115 | a policy is for CPU, or for memory, exactly when its method is that word in any case |
| ScalingLaws.StepsByField | internal/scaling.go:98-194 | an active percentage policy for cpu or memory leads at most to the limit and one maximal step, and at least one minimal step unless these forbid it, in the fields of its dimension |
| Scaling.ValidatedQuotaScaler.ActivateScalerPolicy | internal/scaling.go:157-170 | a new object with the target in the policy's own dimension |
| Scaling.CalculateScaleUp | internal/scaling.go:173-182 | of the sizes at most the limit, at most one maximal step up, and at least one minimal step up unless the limit or the maximal step forbids it, the result is the one nearest to the raw target |
| Scaling.StepUpIsNearest | internal/scaling.go:173-182 | there is exactly one such nearest size, for any raw target, limit and steps |
| Scaling.CalculateScaleDown | internal/scaling.go:185-194 | of the sizes at least the limit, at most one maximal step down, and at least one minimal step down unless the limit or the maximal step forbids it, the result is the one nearest to the raw target |
| Scaling.StepDownIsNearest | internal/scaling.go:185-194 | there is exactly one such nearest size, for any raw target, limit and steps |
| Scaling.CaseDoesNotMatter | internal/scaling.go:103-115 | policies whose methods differ in case only ask for the same |
| Scaling.UnknownPolicyAsksNothing | internal/scaling.go:98-155 | a policy for neither CPU nor memory never asks for anything |
| Scaling.ZeroSizeIsUnused | internal/scaling.go:129-150 | at size zero no scale-up policy of the dimension asks for anything |
| Scaling.ZeroThresholdAimsAtInf | internal/scaling.go:146-182 | a scale-up at threshold zero goes to the admissible size nearest to what the division gives |
| ScalingLaws.TruncatesTowardZero | internal/scaling.go:129-131 | conversion of quotients drops the fraction, for operands of any sign |
| ScalingLaws.RawBounds | internal/scaling.go:173-176 | the computed target is the size at which the truncated percentage of the present one would be the threshold, without the fraction |
| ScalingLaws.PercentageBelow | internal/scaling.go:129-131 | the truncated usage percentage is below a threshold exactly when the exact one is |
| ScalingLaws.NoDownAfterUpExactly | internal/scaling.go:146-182 | after an active scale-up a scale-down at or below its threshold stays inactive if and only if the usage is at least that percentage of the size of the minimal step (or the limit or maximal step) |
| ScalingLaws.NoDownAfterUp | internal/scaling.go:146-194 | with (up + 1 - down) * size at least down * minimal step, no usage makes a scale-up be answered by a scale-down |
| ScalingLaws.DownIsTight | internal/scaling.go:185-194 | a scale-down ends at its limit, one maximal step down, or with usage at least at the threshold; it undercuts the usage by less than size/threshold + 1 unless the minimal step goes below the computed target |
| ScalingLaws.FullDownCoversUsage | internal/scaling.go:140-145 | at threshold 100 the target is the usage or the minimum, never below either |
| ScalingLaws.NoUpAfterDown | internal/scaling.go:146-194 | given enough distance between the thresholds, a scale-down not forced by the minimal step is not answered by a scale-up |
| ScalingLaws.UnclampedUpSettles | internal/scaling.go:173-182 | an unclamped scale-up settles in one step when (percentage - threshold) * size is at least threshold squared less one |
| ScalingLaws.ScaleUpSettles | internal/scaling.go:147-182 | repeated scale-ups at fixed usage take growing sizes, each above the threshold and short of the limit and left by one step up, until one is within the threshold or at the limit |
| ScalingLaws.CpuStepRespectsExactly | internal/scaling.go:60-61 | for any scaler a CPU percentage policy respects the documented maximal step, up or down, if and only if its target and the minimal step do, or the limit is no further, or the maximal step in use is no longer; a given minimal step is the CPU step, up to the limit |
| PodEvents.NormalizingIsIdempotent | internal/pod_event.go:140-148 | normalising CPU usage twice, against the same limit or itself, changes nothing |
| PodEvents.CalculatePodResources | internal/pod_event.go:46-72 | the loop over containers computes the demand of the missing replicas; `PodEvents.DemandCoversPods` says what that is in the entries of the containers |
| PodEvents.DemandCoversPods | internal/pod_event.go:46-72 | in the entries of the containers: the demand covers the CPU requests of the missing replicas and a tenth of their CPU limits up to 9 millicores a limited container (19 for fractional requests), and no more than the higher of the two; of memory it is the limits where there are limits, else the requests, and less than a megabyte a replica more |
| PodEvents.MemoryIsLimitsElseRequests | internal/pod_event.go:48-63 | the memory counted is the memory limits of containers with requests and limits plus the requests of those with requests only |
| PodEvents.NormalizedInMillicores | internal/pod_event.go:140-149 | the normalised CPU is the larger of the request and a tenth of the limit in millicores, and the request itself when the limit does not weigh more |
| PodEvents.ContributionByKind | internal/pod_event.go:78-134 | a job asks for one pod, a challenge for a fixed one, the three replicated kinds for as many as are short; nothing when all are present, the object or its template is gone, or the kind is another |
| PodEvents.DemandOfOneEvent | internal/pod_event.go:16-42 | an event by itself adds what its object asks for, nothing for a daemon set |
| PodEvents.AddContribution | internal/pod_event.go:30-37 | the sum grows by what one object asks for, by nothing if it cannot be fetched |
| PodEvents.HandleEvent | internal/pod_event.go:21-38 | one event: daemon sets and objects already marked are passed over, others are marked and counted |
| PodEvents.DemandOfPrefix | internal/pod_event.go:20-38 | how one more event changes the demand and the handled keys of a batch |
| PodEvents.GetResourcesFromPodEvents | internal/pod_event.go:16-42 | the loop over a batch computes its demand |
| PodEvents.DemandIsPerObjectExactly | internal/pod_event.go:25-37 | the demand is the total over the distinct objects, whatever the cluster holds, if and only if no supported object shares its key with another one marked before it |
| PodEvents.DemandIgnoresOrderAndRepetition | internal/pod_event.go:16-42 | batches of one namespace and known kinds with the same objects have the same demand |
| PodEvents.KeyDetermines | internal/pod_event.go:25-85 | kind and name of supported kinds can be read off the key |
| PodEvents.RegularIsUnshadowed | internal/pod_event.go:16-42 | batches of one namespace and known kinds meet the condition for a per-object demand |
| PodEvents.UnknownKindCanHideAnObject | internal/pod_event.go:25-28 | an event of kind Jo named bx makes job x count for nothing |
| Decision.ActivatePolicies | internal/watchers.go:265-271 | the loop over policies replaces what earlier ones asked for |
| Decision.AddDemand | internal/watchers.go:274-282 | demand goes on top of the usage, in a new object that replaces the desired one |
| Decision.Desire | internal/watchers.go:265-282 | policies, then events: a new object with the size asked for, field by field as in `Decision.DemandIsAimedAt` |
| Decision.DemandIsAimedAt | internal/watchers.go:265-291 | the size aimed at in CPU and in memory is the usage plus the demand, or what the policies alone ask for where that is more, cut to the bounds; without demand it is what the policies ask for |
| Decision.DemandIsMet | internal/watchers.go:274-303 | for any scaler and any demand the new size leaves room for usage and demand in both dimensions up to the capped maximum, and a request is sent when the quota has not that room |
| Decision.KeepWithin | internal/watchers.go:288-299 | the bounds, then the fix-up, in place |
| Decision.UpdateQuotaIfRequired | internal/watchers.go:251-306 | one evaluation: the request sent, the write-back through the shared map, and no effect when the status is nil |
| Decision.UsageCoversLimits | internal/watchers.go:235-263 | the usage policies see is the larger of the CPU requests and a tenth of the CPU limits, and the memory limits when known |
| Decision.RequestReadsBack | internal/resize_api.go:213-227 | a request carried out by the stub reads back as the new size at the old usage, with the CPU limit at ratio ten and the memory limit, written with the unit m, a billionth of the memory; other entries stay |
| Decision.WriteBackIsHarmless | internal/watchers.go:262-263 | after any number of evaluations of a stored quota the next one finds the same request |
| Decision.EvaluateTwice | internal/watchers.go:151-168 | two evaluations of copies that share their usage map send the same request |
| Decision.LastActivePolicyWins | internal/watchers.go:265-271 | in each dimension a list of policies yields the target of its last active policy, else what it started from |
| Decision.BoundedKeepsBounds | internal/watchers.go:287-299 | bounds of the result for any desired size, in spite of the fix-up after clamping |
| Decision.EveryRequestIsSound | internal/watchers.go:265-303 | every request names the namespace and the scaler's quota, differs from the size, has one direction, and stays within the minimum and the capped maximum |
| ClosedLoop.FullPoliciesReachGoal | internal/watchers.go:251-305 | with all policies at 100 at most two requests bring a quota to its usage within bounds and nothing follows; one is enough unless one dimension rises and the other falls; nothing is sent exactly at the goal |
| ClosedLoop.RaiseIsNotUndone | internal/watchers.go:251-305 | for any lists of policies with banded thresholds the next evaluation does not lower a dimension that a request raised |
| ClosedLoop.AtRestExactlyInBand | readme.md:96-104 | strictly within its bounds, for policies of any value, a quota is left alone if and only if its usage is in the band that all policies describe, in both dimensions |
| ClosedLoop.PoliciesYield | internal/watchers.go:265-271 | in one dimension a list of policies yields what an active policy asks for if there is one, else the start |
| ClosedLoop.TargetPart | internal/scaling.go:98-170 | a policy asks for something in its own dimension only, from that dimension's size, usage, steps and limit |
| Settling.LoopSettles | internal/watchers.go:251-305 | with a wide enough band, policies at 100, or a bound that holds the usage in each dimension, from any size at fixed usage, repeated evaluations send finitely many requests; the quota ends within its bounds, in each dimension in the band or at the bound in the direction asked for |
| Settling.EachComesCloser | internal/watchers.go:265-299 | no evaluation takes a dimension further from rest, and one that changes it takes it closer: into the bounds, then to the bound that holds the usage, or down until no scale-down applies and then up |
| Settling.AskingIsMonotone | internal/scaling.go:138-155 | policies that ask for more at a size ask for more at smaller ones, and for less at larger ones |
| Settling.AimFollowsPolicies | internal/watchers.go:265-289 | within its bounds a dimension is aimed higher when a policy asks for more, lower when one asks for less and none for more, else left alone, up to the bounds, for any lists of policies |
| Settling.NewSizeFollowsAim | pkg/resources/resources.go:93-106 | a dimension gets the size aimed at unless that is lower and the other dimension rises |
| Settling.AtRestExactly | internal/watchers.go:265-303 | at any size within or at its bounds a quota is left alone if and only if each dimension is at the bound in the direction its policies ask for, or they ask for nothing (scale-down values at most 100) |
| Settling.RisesExactly | internal/watchers.go:265-299 | at any size a dimension is raised exactly when it is below the minimum, or a policy asks for more and it is below the capped maximum |
| Settling.MovesAlone | internal/watchers.go:288-303 | while one dimension is left alone the other gets the size aimed at |
| Settling.TwoPercentAreEnough | internal/scaling.go:55-67 | with the default minima and steps, or larger minima and smaller steps, two percent between the thresholds make a wide enough band |
| Settling.UpwardLoopSettles | internal/watchers.go:251-305 | the upward half: from a size no scale-down applies to, repeated evaluations only raise the quota and stop after finitely many requests, in the band or at the maximum in each dimension |
| Settling.PoisedStaysPoised | internal/watchers.go:265-299 | each evaluation keeps the state in which only raises happen |
| Crossing.CrossedNeverRests | internal/watchers.go:251-305 | when some scale-down value of a dimension exceeds some scale-up value and neither bound holds its usage, every evaluation sends a request, from any size and whatever the other policies and the other dimension are |
| Crossing.CrossedRestsAtBound | internal/watchers.go:265-303 | a dimension with crossed thresholds is left alone only at the bound its policies draw it to |
| Crossing.SettlesExactly | internal/watchers.go:251-305 | for scalers whose dimensions have a wide enough band, are at 100 or are crossed, the loop settles, from any size, if and only if a bound holds the usage of each crossed dimension |
| FixedStep.FixedAim | internal/scaling.go:173-194 | with one step and percentages the size aimed at is one step up, one step down or the same, within the bounds, whatever the targets computed from the percentages |
| FixedStep.FixedStepSettlesExactly | internal/watchers.go:251-305 | with one step for a dimension, any percentages and the other dimension left alone, the loop settles if and only if the policies leave alone some size a whole number of steps away, cut to the bounds |
| FixedStep.GivenCpuStepIsFixed | internal/scaling.go:60-61 | a scaler that gives its minimal CPU step has that one step for the CPU |
| Horizon.SettlesSoonOrNever | internal/watchers.go:251-305 | for any scaler, size and usage the loop settles if and only if one of as many evaluations as there are sizes sends nothing; otherwise requests go on for ever |
| Horizon.StaysReachable | internal/watchers.go:287-299 | however often it is evaluated, a quota stays between the lower of its size and its bounds and the higher of its size and its maximum, with usage and storage unchanged |
| Swinging.RaiseAnsweredExactly | internal/watchers.go:251-305 | with one scale-down value up to 100 and one scale-up value for a dimension, the evaluation after a raise lowers it if and only if the other dimension does not rise then and: with the values in order, the least step up leads above the minimum to a size whose lower percentage exceeds the usage; with crossed ones, the size reached is above the minimum and within the scale-up value |
| Swinging.SwingsBackExactly | internal/watchers.go:251-305 | with one band in order and the other dimension left alone, two evaluations lead back to the start if and only if the usage is below the band at the least raise and the step down from there ends at the start, a condition on the bounds, steps and percentages |
| Swinging.AlternatesForEver | internal/watchers.go:251-305 | then every evaluation sends a request and the size is the start and the least raise in turn, for ever |
| Swinging.SwingsForEver | internal/watchers.go:251-305 | thresholds 50 and 50, step 10, usage 51: every evaluation sends a request, and the CPU is 100 and 110 in turn for ever |
| Swinging.FullOverSeventyNeverRests | internal/watchers.go:251-305 | thresholds 100 and 70, default bounds, usage 1000: every evaluation sends a request from any size |
| Swinging.DocumentedStepIsExceeded | internal/scaling.go:60-61 | with a documented maximal step of 100 and thresholds 50 and 70 one request raises the CPU by 285, another lowers it by 9600 |
| Scenarios.MemoryIsKeptInBand | internal/watchers.go:251-305 | a memory band of 50 to 70 percent: 2000 with usage 1799 goes to 2542, 10000 with usage 1000 to 2000, 2000 with usage 1200 stays |
| Scenarios.FailedPodRaisesQuota | internal/watchers.go:251-305 | in resource lists and containers: a ReplicaSet short of one pod raises 1000 millicores and 2000 megabytes, of which 900 and 1800 are used, to 1400 and 2800 |
| Scenarios.EmptyQuotaGetsMinimum | internal/watchers.go:251-305 | absent entries read as zero, and such a quota is given the default minimum |
| EndToEnd.OnlyRecentScaleDownsAreRefused | internal/resize_api.go:101-137 | over runs in which the quota follows the successful calls, an idle namespace refuses a request exactly when its CPU or memory is lower than the last call asked for, within 60 seconds of its completion; if that call succeeded these are the requests that raise nothing, and one that raises anything starts |
| EndToEnd.IdleCacheIsLastCall | internal/resize_api.go:79-137 | in every run, when no goroutine is out for a namespace, its cache holds the last call that returned, and the quota has that size if the call succeeded |
| EndToEnd.FailedCallBlocksRaise | internal/resize_api.go:126-127 | after a failed resize from 100 to 500 the raise to 110 is refused as a scale-down for a minute |
| Watcher.QuotaWatcher.constructor | internal/watchers.go:51-71 | stores the listed scalers, and of the listed quotas those their scalers name, and no events |
| Watcher.StartsListed | internal/watchers.go:60-62 | at the start a namespace has the last of its listed scalers, if there is one |
| Watcher.StartsCoupled | internal/watchers.go:63-71 | and the last listed quota that its scaler names, if there is one |
| Watcher.QuotaWatcher.UpdateNs | internal/watchers.go:151-168 | an evaluation is launched exactly when a scaler and a quota are known |
| Watcher.QuotaWatcher.RegisterScalerEvent | internal/watchers.go:171-184 | the scaler is stored or deleted, a missing quota fetched |
| Watcher.QuotaWatcher.RegisterQuotaEvent | internal/watchers.go:187-204 | only the quota named by the scaler is stored or deleted, the newest replacing the one before, as `Watcher.StoresTheLatest` states over runs |
| Watcher.QuotaWatcher.RegisterNamespacedEvent | internal/watchers.go:222-233 | the event is appended under the namespace of its object |
| Watcher.QuotaWatcher.HandOverNs | internal/watchers.go:127-131 | one namespace of a tick: its batch is handed over and deleted |
| Watcher.QuotaWatcher.TickAll | internal/watchers.go:126-131 | a tick hands over every namespace once, in some order, and leaves no events |
| Watcher.QuotaWatcher.Take | internal/watchers.go:77-131 | one round of the select |
| Watcher.StoresTheLatest | internal/watchers.go:171-204 | after any messages the scaler stored is that of the last scaler message of the namespace, the quota that of the last message about the quota then named, or fetched when there was none; both read off the messages |
| Watcher.EvaluationsGetTheLatest | internal/watchers.go:77-168 | over runs a scaler message evaluates its namespace at once without events, a tick each waiting namespace with its events, no other message any; an evaluation gets the latest scaler and quota, and there is none while one is missing; a namespace waits from a stored quota or an event until the next tick |
| Watcher.EventsAreHandedOverOnce | internal/watchers.go:77-131 | for every namespace the batches handed over, then the stored events, are the events that arrived for its objects, in order |
| Watcher.WatchRunInv | internal/watchers.go:151-233 | every batch is of one namespace, and the batches evaluations read are those handed over with a scaler and a quota known, each once |
| Watcher.BatchDemandIsPerObject | internal/watchers.go:222-233 | the demand of every batch of a run depends only on its objects, when their kinds are known ones |

## Left out

- The resize call itself, HTTP, JSON and tokens: input and output; a call is any call that returns, and of the stub only the sizes it writes are modelled.
- Kubernetes clients, watches, listing and re-starting of streams: messages arrive in any order instead.
- `publishNamespaceEvent`, logging, metrics, configuration and deployment files: no effect on decisions.
- Parsing and formatting of quantities: scaler fields start as integers, with the defaults for absent ones.
- Rounding of floating point and overflow of 64-bit integers: quotients are exact before truncation.
- A match between the name of the stored quota and the scaler: the code does not keep it when a scaler is edited.
- Concurrent writes to a shared usage map by two evaluations at the same time: evaluations are sequential here.
- Fairness of the scheduler: progress is stated as steps owed and steps enabled, not as eventual delivery.
- The API calls that list scalers and quotas at the start: the watcher starts from their answers.
- ClosedLoop.AtRestExactlyInBand: leaves out a size at its minimum or maximum, which `Settling.AtRestExactly` covers for scale-down values up to 100; above that the last active policy decides there.
- FixedStep.FixedStepSettlesExactly: leaves out scale-down values of 100, which jump to the usage, and a second dimension that moves at the same time.
