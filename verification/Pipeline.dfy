/** The request pipeline under concurrency: `ServeHTTP` (internal/proxy/handler.go) as a machine in
    which any request may take the next step. Requests share the semaphores and the breakers; the
    handler keeps the config it was built with while the router's config is swapped underneath. */
module Pipeline {
  import opened ConfigModel
  import opened Routing
  import opened Circuit
  import opened Registry
  import opened Limits

  // ---- what the handler sets up --------------------------------------------------------------

  /** The handler's own config snapshot and the one breaker setting it gives to every placement. */
  datatype Setup = Setup(config: Config, breaker: Settings)

  predicate HasLimits(c: Config, p: string) {
    && p in Endpoints(c) && p in c.placements
    && (c.placements[p].concurrencyLimit > 0 || c.placements[p].maxRequestBodyBytes > 0)
  }

  function LimitsOf(c: Config): map<string, LimitConfig> {
    map p | p in c.placements && HasLimits(c, p) ::
      LimitConfig(c.placements[p].concurrencyLimit, c.placements[p].maxRequestBodyBytes)
  }

  function SlotsOf(c: Config): map<string, Slots> {
    map p | p in c.placements && HasLimits(c, p) && c.placements[p].concurrencyLimit > 0 ::
      Slots(c.placements[p].concurrencyLimit, 0)
  }

  /** `p` has an endpoint and a concurrency limit. */
  predicate IsLimited(c: Config, p: string) {
    p in Endpoints(c) && p in c.placements && c.placements[p].concurrencyLimit > 0
  }

  /** What gets installed, in terms of the placement's own fields: a semaphore of the size of its
      concurrency limit, if that is positive, and its body limit, if either limit is positive. */
  lemma {:induction false} InstalledLimits(c: Config, p: string)
    ensures p in SlotsOf(c) <==> p in Endpoints(c) && p in c.placements && c.placements[p].concurrencyLimit > 0
    ensures p in SlotsOf(c) ==> SlotsOf(c)[p] == Slots(c.placements[p].concurrencyLimit, 0)
    ensures p in Endpoints(c) && p in c.placements && c.placements[p].maxRequestBodyBytes > 0 ==>
              forall n :: SizeAllowed(LimitsOf(c), p, n) <==> n <= c.placements[p].maxRequestBodyBytes
    ensures p !in Endpoints(c) || p !in c.placements || c.placements[p].maxRequestBodyBytes == 0 ==>
              forall n :: SizeAllowed(LimitsOf(c), p, n)
    ensures p in Endpoints(c) && p in c.placements && c.placements[p].maxRequestBodyBytes < 0 ==>
              forall n :: SizeAllowed(LimitsOf(c), p, n) <==>
                            c.placements[p].concurrencyLimit <= 0 || n <= c.placements[p].maxRequestBodyBytes
  {
  }

  // ---- requests ------------------------------------------------------------------------------

  /** What the upstream call came to. `copyFailed` is an error while streaming the body. */
  datatype Upstream = NoResponse | Response(status: int, copyFailed: bool)

  predicate CountsAsFailure(u: Upstream) {
    u.NoResponse? || u.copyFailed || u.status >= 500
  }

  /** How a request ends: with 400, 500, 429, 413, 503, or whatever the upstream call came to. */
  datatype Exit = MissingKey | NoRoute | Limited | TooLarge | CircuitOpen | Proxied(upstream: Upstream)

  /** How far a request has come. `Leaving` is between the end of the body of `ServeHTTP` and its
      deferred release. */
  datatype Phase =
    | Arrived
    | Routed
    | Admitted
    | SizeChecked
    | Gated
    | Forwarding
    | Answered(upstream: Upstream)
    | Leaving(exit: Exit)
    | Finished(exit: Exit)

  datatype Failover = NoFailover | CircuitOpenFailover | UpstreamUnhealthy

  /** `origin` is the placement routing decided on; `slotKey` is the argument the deferred release
      was given and `breakerKey` the key whose breaker was fetched, each captured at that moment
      from `decision`, which failover later overwrites. */
  datatype Request = Request(
    key: string,
    length: int,
    origin: string,
    slotKey: string,
    breakerKey: string,
    decision: RoutingDecision,
    failover: Failover,
    phase: Phase)

  const NO_DECISION: RoutingDecision := RoutingDecision("", Default, "")

  function NewRequest(key: string, length: int): Request {
    Request(key, length, "", "", "", NO_DECISION, NoFailover, if key == "" then Finished(MissingKey) else Arrived)
  }

  /** `published` lists every config the router's loader has had active, oldest first. */
  datatype System = System(
    published: seq<Config>,
    clock: int,
    requests: map<nat, Request>,
    slots: map<string, Slots>,
    breakers: map<string, Core>,
    log: seq<Call>)

  function Start(setup: Setup, initial: Config): System {
    System([initial], 0, map[], SlotsOf(setup.config), map[], [])
  }

  // ---- one request ---------------------------------------------------------------------------

  /** Point the decision at another placement of the handler's config. Looking up a missing key in a
      Go map gives the empty string. */
  function Redirect(c: Config, d: RoutingDecision, target: string): RoutingDecision {
    d.(placementKey := target, endpointURL := if target in Endpoints(c) then Endpoints(c)[target] else "")
  }

  /** Where the gate sends a request: on, to the routed placement's fallback, or out with a 503. */
  function AfterGate(c: Config, r: Request, allowed: bool): Request {
    var fallback := FallbackOf(c, r.decision.placementKey);
    var r' := r.(breakerKey := r.decision.placementKey);
    if allowed then r'.(phase := Gated)
    else if fallback != "" then
      r'.(decision := Redirect(c, r.decision, fallback), failover := CircuitOpenFailover, phase := Gated)
    else r'.(phase := Leaving(CircuitOpen))
  }

  /** Where an unhealthy placement's requests go: its fallback, or the default placement. */
  function Alternative(c: Config, p: string): string {
    if FallbackOf(c, p) != "" then FallbackOf(c, p) else c.defaultPlacement
  }

  function AfterHealth(c: Config, r: Request, healthy: bool): Request {
    var p := r.decision.placementKey;
    if healthy || (FallbackOf(c, p) == "" && c.defaultPlacement == p) then r.(phase := Forwarding)
    else r.(decision := Redirect(c, r.decision, Alternative(c, p)), failover := UpstreamUnhealthy, phase := Forwarding)
  }

  /** Where failover sends a request, in terms of the placement's fallback `f` and the default: the gate
      only ever to `f`; the health check to `f` or, without one, to the default if that is another
      placement. The target's endpoint is the handler's own, and the reason of the routing decision is
      kept. */
  lemma {:induction false} FailoverMeans(c: Config, r: Request, pass: bool)
    ensures var p, d := r.decision.placementKey, r.decision;
            var f := if p in c.placements then c.placements[p].fallback else "";
            var gated, checked := AfterGate(c, r, pass), AfterHealth(c, r, pass);
            && gated.breakerKey == p
            && (pass ==> gated.phase.Gated? && gated.decision == d && gated.failover == r.failover)
            && (!pass && f == "" ==> gated.phase == Leaving(CircuitOpen) && gated.decision == d)
            && (!pass && f != "" ==> gated.phase.Gated? && gated.failover.CircuitOpenFailover?
                                     && SentTo(c, d, gated.decision, f))
            && checked.phase.Forwarding? && checked.breakerKey == r.breakerKey
            && (pass || (f == "" && c.defaultPlacement == p) ==>
                  checked.decision == d && checked.failover == r.failover)
            && (!pass && f != "" ==> checked.failover.UpstreamUnhealthy? && SentTo(c, d, checked.decision, f))
            && (!pass && f == "" && c.defaultPlacement != p ==>
                  checked.failover.UpstreamUnhealthy? && SentTo(c, d, checked.decision, c.defaultPlacement))
  {
  }

  /** The decision `to` is `from` moved to `target` with the endpoint that `c` gives it, if any. */
  predicate SentTo(c: Config, from: RoutingDecision, to: RoutingDecision, target: string) {
    && to.placementKey == target && to.reason == from.reason
    && (target in Endpoints(c) ==> to.endpointURL == Endpoints(c)[target])
    && (target !in Endpoints(c) ==> to.endpointURL == "")
  }

  function OutcomeEvent(u: Upstream, now: int): Event {
    if CountsAsFailure(u) then Failed(now) else Succeeded(now)
  }

  /** One request and the shared state. */
  datatype Progress = Progress(request: Request, breakers: map<string, Core>, slots: map<string, Slots>, clock: int)

  function InPhaseOf(p: Progress, phase: Phase): Progress {
    p.(request := p.request.(phase := phase))
  }

  function Decided(p: Progress, r: Reads): Progress {
    match Route(r, p.request.key)
    case Failure(_) => InPhaseOf(p, Finished(NoRoute))
    case Success(d) =>
      p.(request := p.request.(origin := d.placementKey, decision := d, failover := NoFailover, phase := Routed))
  }

  function Acquired(p: Progress): Progress {
    var key := p.request.decision.placementKey;
    if CanAcquire(p.slots, key)
    then p.(request := p.request.(slotKey := key, phase := Admitted), slots := AfterAcquire(p.slots, key))
    else InPhaseOf(p, Finished(Limited))
  }

  /** A body of unknown length is not measured. */
  predicate TooLong(c: Config, r: Request) {
    r.length > 0 && !SizeAllowed(LimitsOf(c), r.decision.placementKey, r.length)
  }

  function Sized(c: Config, p: Progress): Progress {
    InPhaseOf(p, if TooLong(c, p.request) then Leaving(TooLarge) else SizeChecked)
  }

  function Asked(setup: Setup, p: Progress, now: int): Progress {
    var key := p.request.decision.placementKey;
    var breaker := At(p.breakers, key);
    p.(request := AfterGate(setup.config, p.request, Allows(breaker, now)),
       breakers := p.breakers[key := Next(setup.breaker, breaker, Ask(now))],
       clock := now)
  }

  function Checked(c: Config, p: Progress, healthy: bool): Progress {
    p.(request := AfterHealth(c, p.request, healthy))
  }

  /** A response makes the handler look up the breaker of the placement it went to. */
  function Returned(p: Progress, u: Upstream): Progress {
    InPhaseOf(p, Answered(u)).(
      breakers := if u.Response? then Ensure(p.breakers, p.request.decision.placementKey) else p.breakers)
  }

  /** The breaker fetched at the gate is charged, whatever the decision is by now. */
  function Recorded(setup: Setup, p: Progress, u: Upstream, now: int): Progress {
    var key := p.request.breakerKey;
    InPhaseOf(p, Leaving(Proxied(u))).(
      breakers := p.breakers[key := Next(setup.breaker, At(p.breakers, key), OutcomeEvent(u, now))],
      clock := now)
  }

  function Released(p: Progress): Progress
    requires p.request.phase.Leaving?
  {
    InPhaseOf(p, Finished(p.request.phase.exit)).(slots := AfterRelease(p.slots, p.request.slotKey))
  }

  // ---- steps ---------------------------------------------------------------------------------

  datatype Move =
    | Publish(config: Config)
    | Arrive(id: nat, key: string, length: int)
    | Decide(id: nat, i: nat, j: nat, k: nat)
    | Acquire(id: nat)
    | CheckSize(id: nat)
    | Gate(id: nat, now: int)
    | CheckHealth(id: nat, healthy: bool)
    | Return(id: nat, upstream: Upstream)
    | Record(id: nat, now: int)
    | Release(id: nat)

  function Put(s: System, id: nat, r: Request): System {
    s.(requests := s.requests[id := r])
  }

  predicate InPhase(s: System, id: nat, p: Phase) {
    id in s.requests && s.requests[id].phase == p
  }

  /** What request `id` and the state it shares are now. */
  function Here(s: System, id: nat): Progress
    requires id in s.requests
  {
    Progress(s.requests[id], s.breakers, s.slots, s.clock)
  }

  function Moved(s: System, id: nat, p: Progress): System {
    s.(requests := s.requests[id := p.request], breakers := p.breakers, slots := p.slots, clock := p.clock)
  }

  /** The router's three reads may each see a different published config. */
  function DecideRoute(s: System, id: nat, i: nat, j: nat, k: nat): System {
    if !InPhase(s, id, Arrived) || i >= |s.published| || j >= |s.published| || k >= |s.published| then s
    else Moved(s, id, Decided(Here(s, id), LoaderReads(s.published[i], s.published[j], s.published[k])))
  }

  function AcquireSlot(s: System, id: nat): System {
    if InPhase(s, id, Routed) then Moved(s, id, Acquired(Here(s, id))) else s
  }

  function CheckBodySize(setup: Setup, s: System, id: nat): System {
    if InPhase(s, id, Admitted) then Moved(s, id, Sized(setup.config, Here(s, id))) else s
  }

  function AskBreaker(setup: Setup, s: System, id: nat, now: int): System {
    if !InPhase(s, id, SizeChecked) || now < s.clock then s
    else
      var key := s.requests[id].decision.placementKey;
      Moved(s, id, Asked(setup, Here(s, id), now)).(
        log := s.log + [Call(id, key, Ask(now), Allows(At(s.breakers, key), now))])
  }

  function ConsultHealth(setup: Setup, s: System, id: nat, healthy: bool): System {
    if InPhase(s, id, Gated) then Moved(s, id, Checked(setup.config, Here(s, id), healthy)) else s
  }

  function ReturnFromUpstream(s: System, id: nat, u: Upstream): System {
    if InPhase(s, id, Forwarding) then Moved(s, id, Returned(Here(s, id), u)) else s
  }

  function RecordOutcome(setup: Setup, s: System, id: nat, now: int): System {
    if id !in s.requests || !s.requests[id].phase.Answered? || now < s.clock then s
    else
      var r := s.requests[id];
      Moved(s, id, Recorded(setup, Here(s, id), r.phase.upstream, now)).(
        log := s.log + [Call(id, r.breakerKey, OutcomeEvent(r.phase.upstream, now), true)])
  }

  /** The deferred release. A blocked release leaves the request where it is. */
  function ReleaseSlot(s: System, id: nat): System {
    if id !in s.requests || !s.requests[id].phase.Leaving? || Blocks(s.slots, s.requests[id].slotKey) then s
    else Moved(s, id, Released(Here(s, id)))
  }

  /** One step of the whole system; a move that is not possible leaves everything as it is. */
  function Step(setup: Setup, s: System, m: Move): System {
    match m
    case Publish(c) => s.(published := s.published + [c])
    case Arrive(id, key, length) => if id in s.requests then s else Put(s, id, NewRequest(key, length))
    case Decide(id, i, j, k) => DecideRoute(s, id, i, j, k)
    case Acquire(id) => AcquireSlot(s, id)
    case CheckSize(id) => CheckBodySize(setup, s, id)
    case Gate(id, now) => AskBreaker(setup, s, id, now)
    case CheckHealth(id, healthy) => ConsultHealth(setup, s, id, healthy)
    case Return(id, u) => ReturnFromUpstream(s, id, u)
    case Record(id, now) => RecordOutcome(setup, s, id, now)
    case Release(id) => ReleaseSlot(s, id)
  }

  function Exec(setup: Setup, s: System, moves: seq<Move>): System {
    if moves == [] then s else Step(setup, Exec(setup, s, moves[..|moves| - 1]), moves[|moves| - 1])
  }

  lemma {:induction false} ExecConcat(setup: Setup, s: System, a: seq<Move>, b: seq<Move>)
    ensures Exec(setup, s, a + b) == Exec(setup, Exec(setup, s, a), b)
  {
    if b == [] {
      assert a + b == a;
    } else {
      assert (a + b)[..|a + b| - 1] == a + b[..|b| - 1];
      ExecConcat(setup, s, a, b[..|b| - 1]);
    }
  }
}
