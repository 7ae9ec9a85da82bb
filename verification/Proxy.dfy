/** The proxy handler as the source writes it (internal/proxy/handler.go): `ServeHTTP` in place over
    the semaphores and the breakers, shown to be the request machine run for one request alone. */
module Proxy {
  import opened ConfigModel
  import opened Routing
  import opened Circuit
  import Registry
  import opened Pipeline
  import opened Limits
  import opened Solo

  const FAILURE_THRESHOLD: uint32 := 5
  const CIRCUIT_TIMEOUT: int := 30_000_000_000

  const BREAKER_SETTINGS: Settings := Settings(FAILURE_THRESHOLD, CIRCUIT_TIMEOUT)

  /** One request and everything outside the handler that its outcome depends on: what the router's
      three reads saw, the clock, the health checker and the upstream. */
  datatype Input = Input(
    key: string,
    length: int,
    first: Config,
    second: Config,
    third: Config,
    gateTime: int,
    recordTime: int,
    healthy: string -> bool,
    upstream: RoutingDecision -> Upstream)

  // ---- one request, served alone -------------------------------------------------------------

  function SetupOf(c: Config): Setup {
    Setup(c, BREAKER_SETTINGS)
  }

  /** From the health check to the end of the body. */
  function ServeGated(c: Config, p: Progress, x: Input): Progress {
    var h := Checked(c, p, x.healthy(p.request.decision.placementKey));
    var u := x.upstream(h.request.decision);
    Recorded(SetupOf(c), Returned(h, u), u, x.recordTime)
  }

  /** From the circuit check to the end of the body. */
  function ServeSized(c: Config, p: Progress, x: Input): Progress {
    var asked := Asked(SetupOf(c), p, x.gateTime);
    if asked.request.phase.Leaving? then asked else ServeGated(c, asked, x)
  }

  /** From admission to the end of the body. */
  function ServeAdmitted(c: Config, p: Progress, x: Input): (q: Progress)
    ensures q.request.phase.Leaving? && q.request.slotKey == p.request.slotKey && q.slots == p.slots
    ensures q.clock in {p.clock, x.gateTime, x.recordTime}
  {
    var sized := Sized(c, p);
    if sized.request.phase.Leaving? then sized else ServeSized(c, sized, x)
  }

  /** From the routing decision to the end. */
  function ServeRouted(c: Config, p: Progress, x: Input): Progress {
    var admitted := Acquired(p);
    if !admitted.request.phase.Admitted? then admitted else Released(ServeAdmitted(c, admitted, x))
  }

  /** What becomes of a request served alone over the given semaphores and breakers. */
  function Serve(c: Config, breakers: map<string, Core>, slots: map<string, Slots>, clock: int, x: Input): Progress {
    var arrived := Progress(NewRequest(x.key, x.length), breakers, slots, clock);
    if x.key == "" then arrived
    else
      var decided := Decided(arrived, LoaderReads(x.first, x.second, x.third));
      if decided.request.phase.Routed? then ServeRouted(c, decided, x) else decided
  }

  lemma RunGated(setup: Setup, from: System, id: nat, before: seq<Move>, p: Progress, x: Input)
    returns (moves: seq<Move>)
    requires setup == SetupOf(setup.config) && p.clock <= x.recordTime
    requires Reached(setup, from, id, before, p) && p.request.phase.Gated?
    ensures Reached(setup, from, id, moves, ServeGated(setup.config, p, x))
  {
    var h := Checked(setup.config, p, x.healthy(p.request.decision.placementKey));
    var u := x.upstream(h.request.decision);
    moves := ThenHealth(setup, from, id, before, p, x.healthy(p.request.decision.placementKey));
    moves := ThenReturn(setup, from, id, moves, h, u);
    moves := ThenRecord(setup, from, id, moves, Returned(h, u), x.recordTime);
  }

  lemma RunAdmitted(setup: Setup, from: System, id: nat, before: seq<Move>, p: Progress, x: Input)
    returns (moves: seq<Move>)
    requires setup == SetupOf(setup.config) && p.clock <= x.gateTime <= x.recordTime
    requires Reached(setup, from, id, before, p) && p.request.phase.Admitted?
    ensures Reached(setup, from, id, moves, ServeAdmitted(setup.config, p, x))
  {
    moves := ThenSize(setup, from, id, before, p);
    var sized := Sized(setup.config, p);
    if sized.request.phase.SizeChecked? {
      moves := ThenGate(setup, from, id, moves, sized, x.gateTime);
      var asked := Asked(setup, sized, x.gateTime);
      if !asked.request.phase.Leaving? {
        moves := RunGated(setup, from, id, moves, asked, x);
      }
    }
  }

  lemma RunRouted(setup: Setup, from: System, id: nat, before: seq<Move>, p: Progress, x: Input)
    returns (moves: seq<Move>)
    requires setup == SetupOf(setup.config) && p.clock <= x.gateTime <= x.recordTime
    requires Reached(setup, from, id, before, p) && p.request.phase.Routed?
    ensures Reached(setup, from, id, moves, ServeRouted(setup.config, p, x))
    ensures ServeRouted(setup.config, p, x).slots == p.slots
  {
    moves := ThenAcquire(setup, from, id, before, p);
    var admitted := Acquired(p);
    if admitted.request.phase.Admitted? {
      moves := RunAdmitted(setup, from, id, moves, admitted, x);
      ReleaseUndoesAcquire(p.slots, p.request.decision.placementKey);
      moves := ThenRelease(setup, from, id, moves, ServeAdmitted(setup.config, admitted, x));
    }
  }

  /** Serving one request alone, with the three reads answered by published configs, is a run of the
      machine in which only that request moves, so everything proved of all runs holds of it; and it
      leaves the semaphores as they were. */
  lemma ServeIsARun(setup: Setup, from: System, id: nat, x: Input, i: nat, j: nat, k: nat) returns (moves: seq<Move>)
    requires setup == SetupOf(setup.config) && id !in from.requests
    requires i < |from.published| && j < |from.published| && k < |from.published|
    requires x.first == from.published[i] && x.second == from.published[j] && x.third == from.published[k]
    requires from.clock <= x.gateTime <= x.recordTime
    ensures Reached(setup, from, id, moves, Serve(setup.config, from.breakers, from.slots, from.clock, x))
    ensures Serve(setup.config, from.breakers, from.slots, from.clock, x).slots == from.slots
  {
    var arrived := Progress(NewRequest(x.key, x.length), from.breakers, from.slots, from.clock);
    moves := ThenArrive(setup, from, id, x.key, x.length);
    if x.key != "" {
      moves := ThenDecide(setup, from, id, moves, arrived, i, j, k);
      var decided := Decided(arrived, LoaderReads(x.first, x.second, x.third));
      if decided.request.phase.Routed? {
        moves := RunRouted(setup, from, id, moves, decided, x);
      }
    }
  }

  // ---- the handler ---------------------------------------------------------------------------

  /** The limits and semaphores of the placements that are not in `todo`. */
  ghost predicate Configured(c: Config, todo: set<string>, limits: map<string, LimitConfig>, view: map<string, Slots>) {
    && (forall p :: p in limits <==> p in LimitsOf(c) && p !in todo)
    && (forall p :: p in limits ==> limits[p] == LimitsOf(c)[p])
    && (forall p :: p in view <==> p in SlotsOf(c) && p !in todo)
    && (forall p :: p in view ==> view[p] == SlotsOf(c)[p])
  }

  lemma ConfiguredOneMore(c: Config, todo: set<string>, p: string,
                          limits: map<string, LimitConfig>, view: map<string, Slots>,
                          limits': map<string, LimitConfig>, view': map<string, Slots>)
    requires p in todo && Configured(c, todo, limits, view)
    requires limits' == if p in LimitsOf(c) then limits[p := LimitsOf(c)[p]] else limits
    requires view' == if p in SlotsOf(c) then view[p := SlotsOf(c)[p]] else view
    ensures Configured(c, todo - {p}, limits', view')
  {
  }

  lemma ConfiguredAll(c: Config, limits: map<string, LimitConfig>, view: map<string, Slots>)
    requires Configured(c, {}, limits, view)
    ensures limits == LimitsOf(c) && view == SlotsOf(c)
  {
  }

  class Handler {
    const config: Config
    const circuitManager: Registry.Manager
    const limitsManager: Limits.Manager

    ghost predicate Valid()
      reads circuitManager, circuitManager.Repr, limitsManager, limitsManager.Repr
    {
      && circuitManager.Valid() && circuitManager.settings == BREAKER_SETTINGS
      && limitsManager.Valid() && limitsManager.config == LimitsOf(config)
    }

    /** `NewHandler` and the limits half of `configureResilienceMechanisms`. */
    constructor (config: Config)
      ensures Valid() && this.config == config
      ensures circuitManager.View() == map[]
      ensures circuitManager.settings.failureThreshold == 5 && circuitManager.settings.timeout == 30_000_000_000
      ensures limitsManager.View() == SlotsOf(config)
      ensures forall p :: p in limitsManager.semaphores <==>
                            && p in Endpoints(config) && p in config.placements
                            && config.placements[p].concurrencyLimit > 0
      ensures forall p :: p in limitsManager.semaphores ==>
                            limitsManager.semaphores[p].capacity == config.placements[p].concurrencyLimit
      ensures forall p :: p in limitsManager.config <==>
                            && p in Endpoints(config) && p in config.placements
                            && (config.placements[p].concurrencyLimit > 0
                                || config.placements[p].maxRequestBodyBytes > 0)
      ensures forall p :: p in limitsManager.config ==>
                            limitsManager.config[p].maxRequestBodyBytes == config.placements[p].maxRequestBodyBytes
    {
      this.config := config;
      circuitManager := new Registry.Manager(BREAKER_SETTINGS);
      limitsManager := new Limits.Manager();
      new;
      ConfigureLimits();
      assert limitsManager.View().Keys == limitsManager.semaphores.Keys;
      assert forall p :: p in limitsManager.semaphores ==>
                           limitsManager.View()[p].capacity == limitsManager.semaphores[p].capacity;
    }

    /** The limits a placement's configuration asks for, if it has any. */
    method ConfigurePlacement(p: string)
      requires limitsManager.Valid() && p in Endpoints(config)
      modifies limitsManager
      ensures limitsManager.Valid() && fresh(limitsManager.Repr - old(limitsManager.Repr))
      ensures limitsManager.config ==
              if p in LimitsOf(config) then old(limitsManager.config)[p := LimitsOf(config)[p]]
              else old(limitsManager.config)
      ensures p in SlotsOf(config) ==> limitsManager.View() == old(limitsManager.View())[p := SlotsOf(config)[p]]
      ensures p !in SlotsOf(config) && p !in old(limitsManager.View()) ==>
                limitsManager.View() == old(limitsManager.View())
    {
      var placement := GetPlacementConfig(config, p);
      if placement.Some? && (placement.value.concurrencyLimit > 0 || placement.value.maxRequestBodyBytes > 0) {
        limitsManager.SetConfig(p, Limits.LimitConfig(placement.value.concurrencyLimit,
                                                      placement.value.maxRequestBodyBytes));
      }
    }

    method ConfigureLimits()
      requires limitsManager.Valid() && limitsManager.semaphores == map[] && limitsManager.config == map[]
      requires limitsManager.Repr == {}
      modifies limitsManager
      ensures limitsManager.Valid()
      ensures limitsManager.config == LimitsOf(config)
      ensures limitsManager.View() == SlotsOf(config)
      ensures fresh(limitsManager.Repr)
    {
      var endpoints := GetCellEndpoints(config);
      var todo := endpoints.Keys;
      ghost var view: map<string, Slots> := map[];
      while todo != {}
        invariant todo <= endpoints.Keys
        invariant limitsManager.Valid() && view == limitsManager.View()
        invariant Configured(config, todo, limitsManager.config, view)
        invariant fresh(limitsManager.Repr)
        decreases todo
      {
        var p :| p in todo;
        ghost var limits := limitsManager.config;
        ConfigurePlacement(p);
        ConfiguredOneMore(config, todo, p, limits, view, limitsManager.config, limitsManager.View());
        view := limitsManager.View();
        todo := todo - {p};
      }
      ConfiguredAll(config, limitsManager.config, view);
    }

    /** Ask `breaker`, the object the manager has for `key`. */
    method AskFetched(breaker: Breaker, ghost key: string, now: int) returns (allowed: bool)
      requires circuitManager.Valid() && circuitManager.settings == BREAKER_SETTINGS
      requires key in circuitManager.breakers && circuitManager.breakers[key] == breaker
      modifies circuitManager.Repr
      ensures circuitManager.Valid()
      ensures allowed == Allows(old(circuitManager.View())[key], now)
      ensures circuitManager.View() ==
              old(circuitManager.View())[key := Next(BREAKER_SETTINGS, old(circuitManager.View())[key], Ask(now))]
    {
      allowed := breaker.Allow(now);
    }

    /** Fetch the breaker of `key` and ask it. */
    method AskBreakerOf(key: string, now: int) returns (breaker: Breaker, allowed: bool)
      requires circuitManager.Valid() && circuitManager.settings == BREAKER_SETTINGS
      modifies circuitManager, circuitManager.Repr
      ensures circuitManager.Valid() && fresh(circuitManager.Repr - old(circuitManager.Repr))
      ensures key in circuitManager.breakers && circuitManager.breakers[key] == breaker
      ensures allowed == Allows(Registry.At(old(circuitManager.View()), key), now)
      ensures circuitManager.View() ==
              old(circuitManager.View())[key := Next(BREAKER_SETTINGS, Registry.At(old(circuitManager.View()), key),
                                                     Ask(now))]
    {
      breaker := circuitManager.GetBreaker(key, now);
      allowed := AskFetched(breaker, key, now);
    }

    /** Charge the upstream's outcome to `breaker`, the object fetched for `key`. */
    method Charge(breaker: Breaker, ghost key: string, upstream: Upstream, now: int)
      requires circuitManager.Valid() && circuitManager.settings == BREAKER_SETTINGS
      requires key in circuitManager.breakers && circuitManager.breakers[key] == breaker
      modifies circuitManager.Repr
      ensures circuitManager.Valid()
      ensures circuitManager.View() ==
              old(circuitManager.View())[key := Next(BREAKER_SETTINGS, old(circuitManager.View())[key],
                                                     OutcomeEvent(upstream, now))]
      ensures upstream.NoResponse? || upstream.copyFailed || upstream.status >= 500 ==>
                breaker.log == old(breaker.log) + [Circuit.Failed(now)]
      ensures upstream.Response? && !upstream.copyFailed && upstream.status < 500 ==>
                breaker.log == old(breaker.log) + [Circuit.Succeeded(now)]
    {
      if upstream.NoResponse? || upstream.copyFailed || upstream.status >= 500 {
        breaker.RecordFailure(now);
      } else {
        breaker.RecordSuccess(now);
      }
    }

    /** Failover as the source does it: overwrite the decision with the target's endpoint. */
    method PointAt(decision: RoutingDecision, target: string) returns (d: RoutingDecision)
      ensures d == Redirect(config, decision, target) && SentTo(config, decision, d, target)
    {
      var endpoints := GetCellEndpoints(config);
      d := decision.(placementKey := target, endpointURL := if target in endpoints then endpoints[target] else "");
    }

    /** The circuit check and the failover it can cause; `open` when the request fails fast. */
    method PassGate(x: Input, routed: RoutingDecision, ghost p: Progress)
      returns (breaker: Breaker, open: bool, decision: RoutingDecision, failover: Failover)
      requires circuitManager.Valid() && circuitManager.settings == BREAKER_SETTINGS
      requires p.request.decision == routed && p.request.failover == NoFailover && p.breakers == circuitManager.View()
      modifies circuitManager, circuitManager.Repr
      ensures circuitManager.Valid() && fresh(circuitManager.Repr - old(circuitManager.Repr))
      ensures routed.placementKey in circuitManager.breakers
      ensures circuitManager.breakers[routed.placementKey] == breaker
      ensures circuitManager.View() == Asked(SetupOf(config), p, x.gateTime).breakers
      ensures Asked(SetupOf(config), p, x.gateTime).request ==
              p.request.(breakerKey := routed.placementKey, decision := decision, failover := failover,
                         phase := if open then Leaving(CircuitOpen) else Gated)
      ensures var key := routed.placementKey;
              var f := if key in config.placements then config.placements[key].fallback else "";
              var refused := Registry.At(p.breakers, key).state.Open?
                             && x.gateTime <= Registry.At(p.breakers, key).nextRetryTime;
              && (open <==> refused && f == "")
              && (!refused || f == "" ==> decision == routed && failover.NoFailover?)
              && (refused && f != "" ==> failover.CircuitOpenFailover? && SentTo(config, routed, decision, f))
    {
      decision, failover, open := routed, NoFailover, false;
      var allowed;
      breaker, allowed := AskBreakerOf(routed.placementKey, x.gateTime);
      if !allowed {
        var placement := GetPlacementConfig(config, routed.placementKey);
        if placement.Some? && placement.value.fallback != "" {
          decision := PointAt(routed, placement.value.fallback);
          failover := CircuitOpenFailover;
        } else {
          open := true;
        }
      }
    }

    /** The health check and the failover it can cause. */
    method FailOverIfUnhealthy(x: Input, gated: RoutingDecision, gatedFailover: Failover, ghost r: Request)
      returns (decision: RoutingDecision, failover: Failover)
      requires r.decision == gated && r.failover == gatedFailover
      ensures AfterHealth(config, r, x.healthy(gated.placementKey)) ==
              r.(decision := decision, failover := failover, phase := Forwarding)
      ensures var p := gated.placementKey;
              var f := if p in config.placements then config.placements[p].fallback else "";
              && (x.healthy(p) || (f == "" && config.defaultPlacement == p) ==>
                    decision == gated && failover == gatedFailover)
              && (!x.healthy(p) && f != "" ==>
                    failover.UpstreamUnhealthy? && SentTo(config, gated, decision, f))
              && (!x.healthy(p) && f == "" && config.defaultPlacement != p ==>
                    failover.UpstreamUnhealthy? && SentTo(config, gated, decision, config.defaultPlacement))
    {
      decision, failover := gated, gatedFailover;
      if !x.healthy(gated.placementKey) {
        var placement := GetPlacementConfig(config, gated.placementKey);
        if placement.Some? && placement.value.fallback != "" {
          decision := PointAt(gated, placement.value.fallback);
          failover := UpstreamUnhealthy;
        } else if config.defaultPlacement != gated.placementKey {
          decision := PointAt(gated, config.defaultPlacement);
          failover := UpstreamUnhealthy;
        }
      }
    }

    /** The upstream call, the header lookup, and the outcome charged to `breaker`, the object fetched
        at the gate. */
    method CallUpstream(x: Input, breaker: Breaker, decision: RoutingDecision, ghost p: Progress)
      returns (upstream: Upstream)
      requires circuitManager.Valid() && circuitManager.settings == BREAKER_SETTINGS
      requires p.request.decision == decision && p.breakers == circuitManager.View()
      requires p.request.breakerKey in circuitManager.breakers
      requires circuitManager.breakers[p.request.breakerKey] == breaker
      modifies circuitManager, circuitManager.Repr
      ensures circuitManager.Valid() && fresh(circuitManager.Repr - old(circuitManager.Repr))
      ensures upstream == x.upstream(decision)
      ensures breaker.log == old(breaker.log) +
                [if upstream.NoResponse? || upstream.copyFailed || upstream.status >= 500
                 then Circuit.Failed(x.recordTime) else Circuit.Succeeded(x.recordTime)]
      ensures circuitManager.View() == Recorded(SetupOf(config), Returned(p, upstream), upstream, x.recordTime).breakers
    {
      upstream := x.upstream(decision);
      if upstream.Response? {
        var _ := circuitManager.GetBreaker(decision.placementKey, x.recordTime);
      }
      Charge(breaker, p.request.breakerKey, upstream, x.recordTime);
    }

    /** From the health check to the end of the body. */
    method ServeFromHealth(x: Input, breaker: Breaker, gated: RoutingDecision, gatedFailover: Failover,
                           ghost p: Progress)
      returns (exit: Exit, decision: RoutingDecision, failover: Failover)
      requires circuitManager.Valid() && circuitManager.settings == BREAKER_SETTINGS
      requires p.request.decision == gated && p.request.failover == gatedFailover
      requires p.breakers == circuitManager.View()
      requires p.request.breakerKey in circuitManager.breakers
      requires circuitManager.breakers[p.request.breakerKey] == breaker
      modifies circuitManager, circuitManager.Repr
      ensures circuitManager.Valid() && fresh(circuitManager.Repr - old(circuitManager.Repr))
      ensures circuitManager.View() == ServeGated(config, p, x).breakers
      ensures ServeGated(config, p, x).request ==
              p.request.(decision := decision, failover := failover, phase := Leaving(exit))
    {
      decision, failover := FailOverIfUnhealthy(x, gated, gatedFailover, p.request);
      ghost var checked := Checked(config, p, x.healthy(gated.placementKey));
      var upstream := CallUpstream(x, breaker, decision, checked);
      exit := Proxied(upstream);
    }

    /** From the circuit check to the end of the body. */
    method ServeFromGate(x: Input, routed: RoutingDecision, ghost p: Progress)
      returns (exit: Exit, decision: RoutingDecision, failover: Failover)
      requires circuitManager.Valid() && circuitManager.settings == BREAKER_SETTINGS
      requires p.request.decision == routed && p.request.failover == NoFailover && p.breakers == circuitManager.View()
      modifies circuitManager, circuitManager.Repr
      ensures circuitManager.Valid() && fresh(circuitManager.Repr - old(circuitManager.Repr))
      ensures circuitManager.View() == ServeSized(config, p, x).breakers
      ensures ServeSized(config, p, x).request ==
              p.request.(breakerKey := routed.placementKey, decision := decision, failover := failover,
                         phase := Leaving(exit))
    {
      var breaker, open;
      ghost var asked := Asked(SetupOf(config), p, x.gateTime);
      breaker, open, decision, failover := PassGate(x, routed, p);
      if open {
        return CircuitOpen, decision, failover;
      }
      exit, decision, failover := ServeFromHealth(x, breaker, decision, failover, asked);
    }

    /** The body of `ServeHTTP` between the deferral of the release and the release itself. */
    method ServeBody(x: Input, routed: RoutingDecision, ghost p: Progress)
      returns (exit: Exit, decision: RoutingDecision, failover: Failover)
      requires circuitManager.Valid() && circuitManager.settings == BREAKER_SETTINGS
      requires limitsManager.config == LimitsOf(config)
      requires p.request.decision == routed && p.request.length == x.length && p.request.failover == NoFailover
      requires p.breakers == circuitManager.View()
      modifies circuitManager, circuitManager.Repr
      ensures circuitManager.Valid() && fresh(circuitManager.Repr - old(circuitManager.Repr))
      ensures circuitManager.View() == ServeAdmitted(config, p, x).breakers
      ensures var r := ServeAdmitted(config, p, x).request;
              r.phase == Leaving(exit) && r.decision == decision && r.failover == failover
    {
      decision, failover := routed, NoFailover;
      if x.length > 0 {
        var ok := limitsManager.ValidateRequestBodySize(decision.placementKey, x.length);
        if !ok {
          return TooLarge, decision, failover;
        }
      }
      exit, decision, failover := ServeFromGate(x, routed, Sized(config, p));
    }

    /** Serve an admitted request, then give its slot back: the release gets the argument it was given
        when it was deferred. */
    method ServeAndRelease(x: Input, routed: RoutingDecision, slotKey: string, ghost p: Progress)
      returns (exit: Exit, decision: RoutingDecision, failover: Failover)
      requires Valid()
      requires p.request.decision == routed && p.request.length == x.length && p.request.failover == NoFailover
      requires p.breakers == circuitManager.View() && p.slots == limitsManager.View() && p.request.slotKey == slotKey
      modifies circuitManager, circuitManager.Repr, limitsManager.Repr
      ensures Valid() && limitsManager.View() == AfterRelease(p.slots, slotKey)
      ensures circuitManager.View() == ServeAdmitted(config, p, x).breakers
      ensures var r := ServeAdmitted(config, p, x).request;
              r.phase == Leaving(exit) && r.decision == decision && r.failover == failover
    {
      exit, decision, failover := ServeBody(x, routed, p);
      assert limitsManager.Valid() && limitsManager.View() == p.slots;
      GiveBack(slotKey);
    }

    /** The deferred release: no breaker is touched. */
    method GiveBack(slotKey: string)
      requires Valid()
      modifies limitsManager.Repr
      ensures Valid() && limitsManager.View() == AfterRelease(old(limitsManager.View()), slotKey)
      ensures circuitManager.View() == old(circuitManager.View())
    {
      var _ := limitsManager.Release(slotKey);
    }

    /** Take a slot of the routed placement, serve, and give the slot back to the same placement. */
    method ServeWithSlot(x: Input, routed: RoutingDecision, ghost p: Progress)
      returns (exit: Exit, decision: RoutingDecision, failover: Failover)
      requires Valid()
      requires p.request.decision == routed && p.request.length == x.length && p.request.failover == NoFailover
      requires p.breakers == circuitManager.View() && p.slots == limitsManager.View()
      modifies circuitManager, circuitManager.Repr, limitsManager.Repr
      ensures Valid() && limitsManager.View() == p.slots
      ensures circuitManager.View() == ServeRouted(config, p, x).breakers
      ensures var r := ServeRouted(config, p, x).request;
              r.phase == Finished(exit) && r.decision == decision && r.failover == failover
    {
      var acquired := limitsManager.TryAcquire(routed.placementKey);
      if !acquired {
        return Limited, routed, NoFailover;
      }
      ReleaseUndoesAcquire(p.slots, routed.placementKey);
      exit, decision, failover := ServeAndRelease(x, routed, routed.placementKey, Acquired(p));
    }

    /** Serve one request to the end: the exit, the decision and failover it went with, and the
        breakers are those of the machine's lone run, and every semaphore is as full as before. */
    method ServeHTTP(x: Input, ghost clock: int) returns (exit: Exit, decision: RoutingDecision, failover: Failover)
      requires Valid()
      modifies circuitManager, circuitManager.Repr, limitsManager.Repr
      ensures Valid() && limitsManager.View() == old(limitsManager.View())
      ensures var q := Serve(config, old(circuitManager.View()), old(limitsManager.View()), clock, x);
              && circuitManager.View() == q.breakers
              && q.request.phase == Finished(exit) && q.request.decision == decision && q.request.failover == failover
    {
      decision, failover := NO_DECISION, NoFailover;
      if x.key == "" {
        return MissingKey, decision, failover;
      }
      ghost var arrived := Progress(NewRequest(x.key, x.length), circuitManager.View(), limitsManager.View(), clock);
      var route := Route(LoaderReads(x.first, x.second, x.third), x.key);
      if route.Failure? {
        return NoRoute, decision, failover;
      }
      exit, decision, failover :=
        ServeWithSlot(x, route.value, Decided(arrived, LoaderReads(x.first, x.second, x.third)));
    }
  }
}
