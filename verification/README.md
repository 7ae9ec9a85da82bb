# A verified model of the cell router

A Dafny model of a Go ingress router that sends each request to a *cell* (a placement) chosen by
its routing key, survives failing cells by circuit breaking and failover, protects them with
concurrency limits, and receives its routing table from a file or from a control plane. The model
covers the three stateful parts of the router and the pure layer below them, and proves what they
keep over every run.

`dafny verify dfyconfig.toml` verifies the project.

## How it is laid out

| file | what it models |
|---|---|
| `ConfigModel`, `Routing` | the config, its validator, the routing decision with its three separate reads |
| `Loader` | the hot-reloading loader as a class, and runs of its polling loop |
| `Streaks`, `Circuit` | one circuit breaker: transition function, class, whole-run theorems |
| `Registry`, `GetOrCreate` | the lazily filled table of breakers: the class, and `GetBreaker` split at its two locks |
| `Limits` | counting semaphores and body-size limits |
| `Pipeline` | `ServeHTTP` as a machine in which any request may take the next step |
| `PipelineSafety`, `PipelineSlots`, `PipelineBreakers`, `PipelineDrain`, `PipelineExits` | what every interleaving of that machine keeps |
| `PipelineRuns`, `PipelineLoad`, `PipelineProbes`, `PipelineStale` | runs built up request by request, and with them exact conditions: on the load of a placement, on single probes, and on being sent to current endpoints |
| `Solo`, `Proxy` | runs of the machine in which one request moves; the handler class, whose `ServeHTTP` is shown to be such a run |
| `Distribution` | control plane, watcher, FIFO connections and data planes as a step system |
| `DistributionSafety`, `DistributionAgreement`, `DistributionVersions`, `DistributionOrder` | provenance and validity of what the data planes run; when the fleet agrees; which file histories allow it; when a data plane can be sent back to an older config |
| `ControlPlane`, `DataPlaneClient` | the server class, shown to follow the step system; the client's backoff, apply and shutdown |

Code that updates fields is a class (`Breaker`, the two `Manager`s, `Semaphore`, `Loader`, `Handler`,
`Server`, `Connection`), each method proved against a function of the old state; theorems about runs are
lemmas about those functions. Concurrency is a machine: a state, a type of moves, a `Step` function
in which an impossible move changes nothing, and `Exec` over a sequence of moves. A theorem about
`Exec` over an arbitrary sequence is a theorem about every interleaving.

## What is assumed

- JSON decoding, URL and duration parsing and the checksum are function parameters. The checksum is
  injective where a lemma says so (`Injective`), and nothing is assumed of the others.
- Clock readings, health answers, upstream results and websocket failures are arbitrary inputs of
  the moves. The clock of the request machine never runs backwards; a single breaker is also proved
  about for arbitrary clocks, except where a lemma asks for `Chronological`.
- Placement entries in a config are non-null. A nil map and an empty map behave alike.
- `SetConfig` is called only while the handler is being built, as in the repository.
- A breaker lookup is one step of the request machine. That is justified by `GetOrCreate`, where it
  is split at its locks.
- The watcher reads its first version before any data plane connects. The control plane starts it in a
  goroutine of its own before it listens (`cmd/control-plane/main.go:42`), which makes that likely and
  does not guarantee it.
- Times are unbounded integers in nanoseconds, except in the backoff loop, which is 64-bit.

## Where the code departs from its own documents

The model follows the code in each case.

- `ApplyConfig` (`internal/config/loader.go:68`) validates nothing, although
  `internal/dataplane/client.go:153` and `docs/milestones/milestone-3.md:62` say that the data plane
  validates. `FleetValidIff` says exactly when data planes run valid configs all the same.
- `Loader.GetCellEndpoints` (`internal/config/loader.go:101`) ignores `placements`, unlike the method
  of `Config`: a valid config with placements only routes no key through the loader (`LoaderRouteIff`),
  and arrives at data planes invalid, since the snapshot message has no placements.
- `Route` reads the config three times (`internal/routing/router.go:58-60`), so the promise of
  `docs/milestones/milestone-2.md:13` that a request sees the old or the new config can fail already
  for the router's decision: with an error although both configs route the key (`TornRouteCanFail`),
  and with a placement at an endpoint that neither config would have sent the key to
  (`TornRouteCanMix`). For that decision `NeverPartialIff` has the exact condition,
  `OldOrNewAfterFirstRead` and `OldOrNewAfterSecondRead` what it comes to for a single swap;
  `TornRouteIff` has the exact condition for no key to fail. What failover does to the decision
  afterwards is a matter of the handler's config, three items down.
- Half-open is documented to allow a single test request (`docs/milestones/milestone-4.md:40`). The
  breaker lets every ask through until an outcome is recorded (`HalfOpenAdmitsEveryAsk`), and the
  outcome that ends half-open need not be the probe's: a request let through before the breaker
  opened can still be out. Behind the handler both hold of a placement, in all runs, exactly when its
  concurrency limit is one, because the slot is released after the outcome is recorded
  (`SingleProbeIff`).
- The limit of a placement is taken before failover and never again, although the flow in
  `docs/milestones/milestone-4.md:110` passes the semaphore after the fallback. The own limit of a
  placement that is routed to bounds the requests proxied to it exactly when no other routable
  placement, limited or not, can fail over to it (`OwnLimitSufficesIff`); `MaximalLoad` has the bound
  that holds, which is attained, and without a limit on every source there is none (`UnlimitedSource`).
- The handler keeps the config it was built with (`cmd/router/main.go:60`) while the router's config
  is reloaded, so failover can send a request to an endpoint that no current config has. While the
  router's config stays the same, every request is proxied to an endpoint of it exactly when the two
  configs agree on every placement that failover can redirect a request to (`CurrentIff`).
- The loader reads the file twice per load, for the content and for the checksum
  (`internal/config/loader.go:44` and `:53`). If the file changes in between, the loader can stay on
  the older config for as long as the file is left alone (`TornLoadIff`, `PollStuck`).
- The initial send reads the config and writes it in two steps
  (`internal/controlplane/server.go:102-118`), so an older snapshot can follow a newer broadcast on the
  wire, and the data plane then stays on the older config (`StaleJoinBreaksAgreement`). `AgreementIff`
  says exactly which initial sends are harmless, and `DrainedIff` that, once all is settled, exactly
  the data planes are outdated whose harmful initial send no broadcast has followed.
- Each broadcast sends the snapshot read at its beginning (`internal/controlplane/server.go:48`), so a
  data plane that joined meanwhile with a newer config is sent back to it, until the next tick
  (`TwoChangesGoBack`). With initial sends in one step that takes a file history with two changes
  (`ForwardIff`); `OrderIff` says exactly which writes go back.
- The watcher compares versions only (`internal/controlplane/server.go:154-155`), so a version that comes
  back after a config with another snapshot can go unsent (`ReusedVersionBreaksAgreement`). The fleet
  is kept in agreement over a file history exactly when every config loaded from one use of a version
  to another has the same snapshot (`VersionsIff`), which the operator can check on the files.
- `Stop` can wait forever for a connection dialed after it had closed the one it knew of
  (`StopCanHang`). That can happen exactly when, at that moment, the loop has a connection, is dialing
  or is committed to dialing (`StopCanHangIff`); otherwise `Stop` is sure to return
  (`StopReturnsWithoutLateDial`).

## Model

| member | source | states |
|---|---|---|
| ConfigModel.GetCellEndpoints | internal/config/config.go:100-112 | A non-empty legacy map wins; else the result has exactly the placements as keys and each one's own URL as value, in any iteration order |
| ConfigModel.Validate | internal/config/config.go:144-198 | The loops accept exactly the configs that satisfy the quantified `WellFormed`; an error names a real defect, and every earlier stage is clean |
| ConfigModel.WellFormedMeans | internal/config/config.go:145-195 | Well-formedness spelled out over the fields: known default, known table entries and fallbacks, parsable URLs, intervals and timeouts, for each of the two formats |
| ConfigModel.ProjectionValidIff | internal/controlplane/server.go:50-56 | A valid config stays valid through the snapshot message exactly when it has legacy endpoints |
| Routing.RouteTotal | internal/routing/router.go:56-94 | A validated config routes every key, in either format, to the mapped or else the default placement, with that placement's legacy endpoint or own URL, and the reason that tells which case it was |
| Routing.LoaderRouteIff | internal/config/loader.go:95-107 | Read through the loader, a valid config routes a key if and only if it has legacy endpoints, and then as the config itself would |
| Routing.SnapshotRoutes | internal/controlplane/server.go:50-56 | The config that a data plane builds from a snapshot has the sender's version and routes every key as the sender's config does, failures included |
| Routing.TornRouteIff | internal/routing/router.go:57-75 | With the three reads from three configs, no key fails to route if and only if the first one's table and the third one's default resolve in the second one's endpoints |
| Routing.TornRouteUnderGrowth | internal/routing/router.go:57-75 | If endpoint keys only grow and the default stays, a torn route never fails and returns the URL of the config active at the second read |
| Routing.TornRouteCanFail | docs/milestones/milestone-2.md:13 | One swap between valid configs can make a key fail that both route |
| Routing.TornRouteMatchesIff | internal/routing/router.go:56-82 | With the three reads from any three configs, the answer is that of a given config alone if and only if that config chooses the same placement, has its endpoint as at the second read, and found the key in its table just when the first read did |
| Routing.NeverPartialIff | internal/routing/router.go:57-81 | For any valid configs at the three reads, the router's decision, before any failover, is one config's own if and only if the chosen table entry, or the third one's default, has the same endpoint in the config that it came from as in the second one, or the second one chooses alike, or the remaining one does and has that endpoint too |
| Routing.OldOrNewAfterFirstRead | internal/routing/router.go:58-59 | For one swap after the first read, the decision is the old or the new config's if and only if the old entry keeps its endpoint or its placement, or, if the old table lacks the key, the new one does too or the default placement and its endpoint are unchanged |
| Routing.OldOrNewAfterSecondRead | internal/routing/router.go:59-60 | For one swap after the second read, the same if and only if the old table has the key, or the default is unchanged, or the new table lacks the key and the new default's endpoint is unchanged |
| Routing.TornRouteCanMix | docs/milestones/milestone-2.md:51 | One swap between valid configs, with endpoint keys and default unchanged, can send a key where neither config would |
| Loader.Loader.LoadAndValidate | internal/config/config.go:129-141 | Loading succeeds exactly on readable content that decodes to a well-formed config, and returns that config |
| Loader.Loader.LoadInitial | internal/config/loader.go:43-65 | Succeeds exactly when the content read is acceptable and the checksum read works; stores all four cells, or none |
| Loader.Loader.TryReload | internal/config/loader.go:144-177 | The cells change exactly when the checksum moved and the content is acceptable, and then to that content's config and the checksum read before it |
| Loader.Loader.ApplyConfig | internal/config/loader.go:68-73 | Stores any config, valid or not; the checksum is untouched |
| Loader.GateRefinesNaive | internal/config/loader.go:144-177 | With one file content per tick and an injective checksum, after every tick of every file history the checksum-gated loader has the config of one that decodes and validates each tick |
| Loader.NaiveIsLastGood | docs/milestones/milestone-2.md:7 | That reference loader holds the most recent acceptable content, else what it started with |
| Loader.ReloadTracksLastGood | internal/config/loader.go:43-65 | From startup on, the active config is always the most recent acceptable content seen, and the stored checksum belongs to the content it was decoded from |
| Loader.TornLoadIff | internal/config/loader.go:146-159 | When content and checksum were read from different file contents, the loader still equals the reference on all later histories if and only if the checksummed content is unacceptable or decodes to the same config |
| Loader.PollStuck | internal/config/loader.go:152-156 | While the file keeps the content whose checksum is recorded, no tick changes anything |
| Circuit.Breaker.constructor | internal/circuit/breaker.go:39-47 | A new breaker is closed with no failures and an empty history |
| Circuit.Breaker.Allow | internal/circuit/breaker.go:51-75 | The answer and the whole new state are the transition function's; an open breaker answers yes only after its retry time |
| Circuit.Breaker.RecordSuccess | internal/circuit/breaker.go:78-92 | From closed or half-open the breaker is closed with a zero counter, from open nothing changes; the retry time stays |
| Circuit.Breaker.RecordFailure | internal/circuit/breaker.go:95-114 | The counter goes up by one, wrapping at 32 bits; from half-open, or at the threshold, the breaker is open until now plus the timeout; an open one keeps its retry time |
| Circuit.Breaker.TransitionTo | internal/circuit/breaker.go:131-138 | The time of the last change moves only on a real change |
| Circuit.ClosedCountsTrailingFailures | internal/circuit/breaker.go:78-114 | On every run, while closed the counter is the length of the longest all-failure suffix of the outcomes since creation or the last close, and below the threshold |
| Circuit.OpensExactlyAtThreshold | internal/circuit/breaker.go:101-107 | A closed breaker opens on exactly the outcome that makes that suffix reach the threshold |
| Circuit.WrapHarmless | internal/circuit/breaker.go:87-114 | On every run the 32-bit counter and an unbounded one give the same states and answers; counts agree modulo 2^32, and exactly while closed |
| Circuit.OpenWindow | internal/circuit/breaker.go:51-75 | After opening at t, whatever is recorded meanwhile, asks are refused up to t + timeout, the retry time stays, and the next ask is let through into half-open |
| Circuit.HalfOpenAdmitsEveryAsk | internal/circuit/breaker.go:69-70 | Half-open lets any number of asks through until an outcome is recorded |
| Circuit.HalfOpenEnds | internal/circuit/breaker.go:87-112 | In half-open a success closes the breaker with nothing counted against it, and a failure refuses every ask for another timeout |
| Circuit.RecoveryDecides | docs/milestones/milestone-4.md:34-37 | Over a run: after a breaker has opened and its timeout has passed, the first outcome after the asks that follow decides between the two, whatever was recorded in the meantime |
| Circuit.NoFailureStaysClosed | internal/circuit/breaker.go:95-107 | Without recorded failures a breaker stays closed with a zero counter |
| Circuit.ProbeSpacing | internal/circuit/breaker.go:61-66 | With a clock that does not run backwards, any two entries into half-open, k apart in order, are more than k timeouts apart |
| Registry.Manager.GetBreaker | internal/circuit/breaker.go:169-190 | Returns the key's breaker, creating it closed if there is none; no other entry changes |
| GetOrCreate.GetOrCreateLinearizable | internal/circuit/breaker.go:169-190 | With lookup and recheck as separate steps of any number of threads, each key has one breaker, whose state and answers are a sequential breaker's given that key's calls in lock order |
| GetOrCreate.SameKeySameBreaker | internal/circuit/breaker.go:182-189 | Any two calls for one key, in any run and however far apart, return the same breaker |
| GetOrCreate.TableOnlyGrows | internal/circuit/breaker.go:187-189 | An entry once made is never replaced |
| Limits.ReleaseUndoesAcquire | internal/limits/manager.go:99-128 | A release after a successful acquire does not block and restores the table |
| Limits.Semaphore.TryAcquire | internal/limits/manager.go:42-49 | Takes a slot exactly when one is free |
| Limits.Semaphore.Release | internal/limits/manager.go:52-54 | Frees a slot, and blocks exactly on an empty semaphore |
| Limits.Manager.SetConfig | internal/limits/manager.go:74-87 | A positive limit installs an empty semaphore of that size, any other removes it; the config is stored |
| Limits.Manager.TryAcquire | internal/limits/manager.go:99-117 | Succeeds exactly when the placement has no limit or a free slot; only that placement's fill changes |
| Limits.Manager.Release | internal/limits/manager.go:120-128 | Frees one slot of the placement, if it is limited, and of no other |
| Limits.Manager.ValidateRequestBodySize | internal/limits/manager.go:131-142 | Accepts a size exactly when the placement has no size limit or the size is within it |
| PipelineSafety.FailoverBounded | internal/proxy/handler.go:201-269 | In every reachable state a request past routing is headed for one of at most three placements, two hops at most from the routed one, even when fallbacks form cycles; the captured slot and breaker keys are still the routed placement |
| PipelineSafety.FailoverClosed | internal/proxy/handler.go:201-269 | With a validated handler config, the placement and endpoint are always a binding of the handler's config or of a config the router has had, and the origin is what published configs route the key to |
| PipelineSafety.RedirectBound | internal/config/config.go:172-179 | Fallback and default targets of a validated config always have an endpoint there |
| Pipeline.FailoverMeans | internal/proxy/handler.go:203-268 | Failover in terms of the placement's own fallback and the default: where the gate and the health check send a request, with which endpoint and which failover reason, and when they leave it alone; the reason for the routing decision is kept |
| Pipeline.InstalledLimits | internal/proxy/handler.go:94-122 | A placement with an endpoint and a positive concurrency limit, and no other, gets a semaphore of that size, empty; a positive body limit lets through exactly the lengths up to it, a missing or zero one all, a negative one only lengths up to it if a concurrency limit gets it installed |
| PipelineExits.ExitsExplained | internal/proxy/handler.go:149-231 | In every reachable state a request ended with 400 exactly if it has no routing key, with 413 only if its body is over its placement's limit, which no such request gets past, and with an open-circuit 503 only if its placement has no fallback |
| PipelineExits.RefusedIff | internal/proxy/handler.go:174-183 | A routed request ends with 429 exactly when its placement has a concurrency limit and that many admitted requests are in flight |
| PipelineSlots.SlotConservation | internal/proxy/handler.go:174-184 | Over all interleavings a limited placement's taken slots are exactly the requests admitted under it and in flight, at most its configured concurrency limit, and no release blocks |
| PipelineSlots.ExitReleasesOrigin | internal/proxy/handler.go:184-184 | Every exit after admission gives back exactly one slot to the placement the request was admitted under, wherever failover sent it, and touches no other |
| PipelineSlots.ReleaseNeverBlocks | internal/limits/manager.go:119-128 | A request on its way out holds the slot that it is about to give back |
| PipelineSlots.FinishedIsFinal | internal/proxy/handler.go:174-183 | A finished request, a refused one included, changes nothing any more |
| PipelineSlots.LoadBoundThroughFailover | internal/proxy/handler.go:174-272 | The requests proxied to q at once are at most the sum of the limits of the routable placements that can end up at q, if each of them has one, over every run and every sequence of router configs |
| PipelineDrain.Finish | internal/proxy/handler.go:138-297 | Whatever state the other requests are in, a request can finish by its own moves alone |
| PipelineDrain.IdleMeansFree | internal/proxy/handler.go:174-184 | No slot is lost: whenever all requests have finished, however they ended and wherever failover sent them, every semaphore is as at the start |
| PipelineDrain.EveryRunCanDrain | internal/proxy/handler.go:184-297 | No deadlock: every run can be continued until all requests have finished and all slots are free |
| PipelineLoad.MaximalLoad | internal/proxy/handler.go:174-272 | For one router config, n bounds the requests proxied to q in all runs if and only if every routable placement that can end up at q has a limit and these limits add up to at most n |
| PipelineLoad.UnlimitedSource | internal/limits/manager.go:104-107 | If a routable placement without a limit can fail over to q, no n bounds the requests proxied to q |
| PipelineLoad.OwnLimitSufficesIff | docs/milestones/milestone-4.md:60 | The limit of a placement that is routed to bounds the requests proxied to it in all runs if and only if no other routable placement, limited or not, can fail over to it |
| PipelineProbes.SingleProbeIff | docs/milestones/milestone-4.md:40 | In all runs half-open lets a single request through, if and only if the placement's concurrency limit is one; and the outcome that ends half-open is in all runs that request's own, if and only if the same |
| PipelineProbes.OneSlotOneProbe | internal/proxy/handler.go:174-203 | With a limit of one both hold in every run, whatever the router's config does meanwhile |
| PipelineProbes.ProbeStaysOut | internal/circuit/breaker.go:61-113 | In every reachable state a half-open breaker's probe has been let through and its outcome is not recorded yet |
| PipelineStale.CurrentIff | internal/proxy/handler.go:205-260 | Over one router config, all requests in all runs are proxied to endpoints that it binds, if and only if it gives every placement that failover can redirect a routable request to the endpoint that the handler's startup config gives it |
| PipelineLoad.Park | internal/proxy/handler.go:201-269 | Health and breaker answers can steer a routed request to any of its targets |
| PipelineRuns.Trip | internal/circuit/breaker.go:101-107 | Requests through the whole pipeline can open a closed breaker, with every slot returned, all of them finished, and no other breaker changed |
| PipelineBreakers.BreakersFollowTheirLogs | internal/proxy/handler.go:201-279 | Over all interleavings each placement's breaker is a sequential breaker given that placement's calls in time order, and every answer was the one it gave |
| PipelineBreakers.EveryBreakerBehaves | internal/circuit/breaker.go:51-114 | So under load every placement's probes are spaced by more than the timeout and every closed counter is its trailing run of failures |
| PipelineBreakers.OutcomeAttribution | internal/proxy/handler.go:201-279 | Every request has asked only its routed placement's breaker, and charged it once if and only if it was proxied, with a failure exactly when there was no response, the copy failed or the status is 500 or more; requests ending in 400, 500, 429, 413 or an open-circuit 503 record nothing |
| PipelineBreakers.OneOutcomePerProxiedRequest | internal/proxy/handler.go:274-279 | The outcomes recorded in p's breaker number exactly the proxied requests routed to p |
| PipelineBreakers.GoodAnswersStayClosed | internal/proxy/handler.go:275-279 | Over all interleavings, a placement that answers completely and below 500 keeps its breaker closed with a zero counter |
| PipelineBreakers.OthersKeepBreakers | internal/proxy/handler.go:377-378 | No step but the gate and the recording changes what any breaker will answer; the lookup for the response header creates at most a fresh one |
| Proxy.ServeIsARun | internal/proxy/handler.go:138-297 | From any state and for any published configs at the three reads, serving one request alone is a run of the machine, so all of the above holds of it, and leaves the semaphores as they were |
| Proxy.Handler.constructor | internal/proxy/handler.go:44-88 | A new handler has no breakers, a threshold of 5 and a timeout of 30 seconds, a semaphore of the configured size for exactly the placements with an endpoint and a concurrency limit, and the configured body limits |
| Proxy.Handler.ConfigureLimits | internal/proxy/handler.go:91-128 | The loop over the endpoints installs exactly the limits of the placements that have both an endpoint and a limit |
| Proxy.Handler.PassGate | internal/proxy/handler.go:201-232 | The routed placement's breaker is asked; refused before its retry time, the request goes to the placement's own fallback, or fails fast exactly if there is none |
| Proxy.Handler.FailOverIfUnhealthy | internal/proxy/handler.go:234-269 | An unhealthy placement's request goes to its own fallback, without one to the default if that is another placement, with the handler's endpoint for it; any other request is left alone |
| Proxy.Handler.CallUpstream | internal/proxy/handler.go:271-279 | The breaker object fetched at the gate is charged with one outcome, a failure exactly when there was no response, the copy failed or the status is 500 or more; the header lookup goes to the placement called |
| Proxy.Handler.ServeAndRelease | internal/proxy/handler.go:184-297 | Whatever the body does, the slot goes back to the placement named when the release was deferred |
| Proxy.Handler.ServeHTTP | internal/proxy/handler.go:138-297 | Exit, decision, failover reason and all breakers are those of the machine's run, and every semaphore is as full as before |
| DistributionSafety.PlanesRunPublishedConfigs | internal/dataplane/client.go:154-161 | Across all reloads, disconnects and reconnects each data plane runs its bootstrap config or the projection of one config once active at the control plane, never a mixture |
| DistributionSafety.FleetValidIff | internal/config/loader.go:67-73 | With only valid configs loaded, data planes always run valid configs if and only if every loadable config has legacy endpoints |
| DistributionSafety.PlacementsOnlyBreaksPlane | internal/controlplane/server.go:50-56 | A placements-only config leaves the first data plane that connects with an invalid config |
| DistributionAgreement.AgreementInvariant | internal/controlplane/server.go:47-74 | While versions tell (see `VersionsIff`) and initial sends are harmless, in every reachable state the watcher has yet to see the current version, or is at work on a broadcast, or the last snapshot sent to every live connection is the current one |
| DistributionAgreement.AgreementIff | internal/controlplane/server.go:101-123 | While versions tell, every connection already served has the current snapshot last, all along the run, if and only if no initial send writes an outdated snapshot to a served connection |
| DistributionAgreement.AtomicJoinsAreHarmless | internal/controlplane/server.go:102-118 | Initial sends that read and write in one step never do that |
| DistributionAgreement.EventualAgreement | internal/controlplane/server.go:148-160 | While versions tell, after the file settles, one full watcher tick and a drained connection, in any interleaving, the data plane has the active config's version and routes every key as it does, if and only if its connection is not behind, and so always if initial sends are harmless |
| DistributionAgreement.BehindIff | internal/controlplane/server.go:101-123 | While versions tell, a served live connection has the current snapshot last if and only if its initial send was harmless or a broadcast has been written to it since |
| DistributionAgreement.DrainedIff | internal/controlplane/server.go:101-123 | Once settled, a data plane that has read its connection dry has the active config's version and routes every key as it does, if and only if the same |
| DistributionAgreement.PlanesFollowConnections | internal/dataplane/client.go:112-139 | A data plane runs the last snapshot that it read from its connection |
| DistributionAgreement.TickCatchesUp | internal/controlplane/server.go:153-160 | One tick after the last reload the watcher records the current version, whatever is interleaved with its round |
| DistributionAgreement.SettledIsStable | internal/controlplane/server.go:153-160 | Once settled, a data plane's config does not change until a reload or a lost connection, however often the watcher ticks |
| DistributionAgreement.StaleJoinBreaksAgreement | internal/controlplane/server.go:102-118 | A run in which the initial send's older snapshot follows the broadcast of a newer one, and the data plane settles on the older config |
| DistributionVersions.ReusedVersionBreaksAgreement | internal/controlplane/server.go:154-158 | Whenever a version comes back after a config with another snapshot, there is a run with one-step initial sends that loads the files, settles, and leaves a data plane on the config in between |
| DistributionVersions.VersionsIff | internal/controlplane/server.go:148-160 | In all runs over a file history with harmless initial sends every served connection has the current snapshot last, if and only if every config loaded from one use of a version to another has the same snapshot |
| DistributionOrder.OrderIff | internal/controlplane/server.go:47-74 | While versions tell, every connection's snapshots stay in history order all along a run, if and only if no broadcast and no initial send writes a snapshot that was replaced before the one last sent there was loaded |
| DistributionOrder.ForwardIff | internal/controlplane/server.go:148-160 | Over a file history whose versions tell, with initial sends in one step, that holds of all runs if and only if the history changes at most once |
| DistributionOrder.TwoChangesGoBack | internal/controlplane/server.go:48-68 | With two changes there is a run in which a data plane runs the last config and is then sent back to the one in the middle |
| ControlPlane.RoundIsARun | internal/controlplane/server.go:148-160 | An uninterrupted round of the watcher is a run of the step system, in whatever order the client map is iterated |
| ControlPlane.AcceptIsARun | internal/controlplane/server.go:77-82 | Registering a connection and its initial send, broken or not, is a run of the step system |
| ControlPlane.UnregisterIsARun | internal/controlplane/server.go:38-44 | So is unregistering and closing it |
| ControlPlane.Connection.WriteMessage | internal/controlplane/server.go:68-72 | A write appends to an open connection and fails on a broken one, changing nothing |
| ControlPlane.Server.RegisterClient | internal/controlplane/server.go:30-35 | The connection joins the client set and no other leaves it |
| ControlPlane.Server.UnregisterClient | internal/controlplane/server.go:38-44 | The connection leaves the client set and is closed, and the server goes on to represent the step system's state after that |
| ControlPlane.Server.BroadcastConfig | internal/controlplane/server.go:47-74 | Every open client gets one message with the active config's version, routing table, legacy endpoints and default placement, and broken ones nothing |
| ControlPlane.Server.Accept | internal/controlplane/server.go:77-82 | A new connection is registered and, unless it is broken already, gets that message, and the server goes on to represent the step system's state after that |
| ControlPlane.Server.WatchTick | internal/controlplane/server.go:148-160 | A tick takes the server from representing one state of the step system to representing the state after the round |
| DataPlaneClient.ConnectionLoop | internal/dataplane/client.go:55-95 | For every series of dial outcomes the k+1-th failure in a row is followed by min(2^k, 60) seconds, in 64 bits without overflow |
| DataPlaneClient.TotalWait | internal/dataplane/client.go:58-83 | n failures in a row, since the start or any later success, add 2^n - 1 seconds to the time waited up to n = 6 and 63 + 60(n - 6) beyond |
| DataPlaneClient.HandleConfigSnapshot | internal/dataplane/client.go:143-169 | A message that decodes is applied unvalidated, with the time, and acknowledged; one that does not changes nothing |
| DataPlaneClient.AtMostOneLateDial | internal/dataplane/client.go:42-52 | In every interleaving at most one dial begins after `Stop` has cleared the flag, and when `Stop` returns the loop is gone |
| DataPlaneClient.StopReturnsIff | internal/dataplane/client.go:42-94 | Once the flag is cleared, `Stop` can still return without the server's help if and only if no connection is open |
| DataPlaneClient.StopCanHangIff | internal/dataplane/client.go:42-94 | Once the flag is cleared, what follows can leave `Stop` waiting for the server if and only if at that moment the loop has a connection, is dialing or is committed to dialing |
| DataPlaneClient.StopReturnsWithoutLateDial | internal/dataplane/client.go:42-52 | Otherwise `Stop` is sure to return: at most six more steps are possible in any interleaving, and only once it has returned are there none |
| DataPlaneClient.StopCanHang | internal/dataplane/client.go:68-91 | The interleaving in which the late dial succeeds and `Stop` is left waiting |

## Left out

- HTTP proxying: header and body copying, streaming, request IDs, timeouts and the transport. The upstream call is an arbitrary status, copy error or missing response.
- Health probing: a health answer is an arbitrary boolean at each use. Building the handler can replace the whole checker for each placement with its own health check; the model says nothing about which placements are probed.
- Per-placement circuit breaker configuration: it is validated but never reaches the manager, which has one threshold and one timeout for all.
- `Semaphore.Acquire`, `RemoveConfig`, `RemoveBreaker` and the getters of state, failure count and reload time: the request path does not use the first three, and the others only read.
- Changing limits while requests hold slots: nothing calls `SetConfig` after construction.
- Content of acks and nacks: the version is always empty and the server only logs it.
- The order of the four stores of a reload as seen by a concurrent reader: the source and time cells can briefly belong to the other config. Routing reads only the active config, whose swap is one step.
- Concurrent writers on one websocket: a broadcast and an initial send can overlap on a connection, which the library forbids; the model gives each write its place in the connection's order.
- A reload between line 154 and line 48 is part of the step system, not of `WatchTick`, which is one uninterrupted round.
- Wrap-around of wall-clock times and of `time.Duration` sums outside the backoff loop.
- Logging, the debug handler, the demo cell, the main programs, containers and configuration samples.
