/** What every interleaving of the request pipeline keeps about each request: how far failover can
    have sent it, where its placement and endpoint come from, and which keys it has captured. */
module PipelineSafety {
  import opened ConfigModel
  import opened Routing
  import opened Circuit
  import opened Registry
  import opened Pipeline

  // ---- each request --------------------------------------------------------------------------

  /** The request has been admitted and has not given its slot back. */
  predicate Holds(r: Request, p: string) {
    r.origin == p &&
    match r.phase
    case Arrived | Routed | Finished(_) => false
    case _ => true
  }

  /** The placements a request routed to `p` can end up at: `p`, one hop, or two. */
  function Targets(c: Config, p: string): set<string> {
    var f := FallbackOf(c, p);
    if f == "" then {p, c.defaultPlacement}
    else if FallbackOf(c, f) == "" then {p, f, c.defaultPlacement}
    else {p, f, FallbackOf(c, f)}
  }

  predicate Early(p: Phase) {
    p.Arrived? || (p.Finished? && (p.exit.MissingKey? || p.exit.NoRoute?))
  }

  /** Where the decision can be by now: on the routed placement until a fallback changes it, then at
      most one hop on after the gate and two after the health check. */
  predicate OnCourse(c: Config, r: Request) {
    match r.phase
    case Routed | Admitted | SizeChecked => r.decision.placementKey == r.origin && r.failover.NoFailover?
    case Gated =>
      || (r.decision.placementKey == r.origin && r.failover.NoFailover?)
      || (FallbackOf(c, r.origin) != "" && r.decision.placementKey == FallbackOf(c, r.origin)
          && r.failover.CircuitOpenFailover?)
    case _ =>
      && r.decision.placementKey in Targets(c, r.origin)
      && (r.failover.NoFailover? ==> r.decision.placementKey == r.origin)
  }

  /** The captured keys are the routed placement, whatever failover did to the decision since. */
  predicate KeysCaptured(r: Request) {
    match r.phase
    case Routed | Finished(Limited) => true
    case Admitted | SizeChecked | Leaving(TooLarge) | Finished(TooLarge) => r.slotKey == r.origin
    case _ => r.slotKey == r.origin && r.breakerKey == r.origin
  }

  predicate RequestOk(c: Config, r: Request) {
    !Early(r.phase) ==> OnCourse(c, r) && KeysCaptured(r)
  }

  ghost predicate RequestsOk(setup: Setup, s: System) {
    forall id :: id in s.requests ==> RequestOk(setup.config, s.requests[id])
  }

  /** A step touches at most the request it names. */
  lemma StepFrame(setup: Setup, s: System, m: Move)
    requires !m.Publish? && m.id in s.requests
    ensures Step(setup, s, m).requests.Keys == s.requests.Keys
    ensures forall id :: id in s.requests && id != m.id ==> Step(setup, s, m).requests[id] == s.requests[id]
  {
  }

  lemma EarlyStepKeepsRequest(setup: Setup, s: System, m: Move)
    requires m.Arrive? || m.Decide? || m.Acquire? || m.CheckSize?
    requires m.id in s.requests && RequestOk(setup.config, s.requests[m.id])
    ensures RequestOk(setup.config, Step(setup, s, m).requests[m.id])
  {
  }

  lemma LateStepKeepsRequest(setup: Setup, s: System, m: Move)
    requires m.Gate? || m.CheckHealth? || m.Return? || m.Record? || m.Release?
    requires m.id in s.requests && RequestOk(setup.config, s.requests[m.id])
    ensures RequestOk(setup.config, Step(setup, s, m).requests[m.id])
  {
  }

  lemma {:induction false} StepKeepsRequests(setup: Setup, s: System, m: Move)
    requires RequestsOk(setup, s)
    ensures RequestsOk(setup, Step(setup, s, m))
  {
    if !m.Publish? && m.id in s.requests {
      StepFrame(setup, s, m);
      if m.Arrive? || m.Decide? || m.Acquire? || m.CheckSize? {
        EarlyStepKeepsRequest(setup, s, m);
      } else {
        LateStepKeepsRequest(setup, s, m);
      }
    }
  }

  /** Failover is bounded: in every reachable state every request past routing is headed for a
      placement at most two hops from the routed one, for arbitrary health and breaker states and
      even when fallbacks form cycles; and the slot and breaker keys captured on the way are still
      the routed placement. */
  lemma {:induction false} FailoverBounded(setup: Setup, initial: Config, moves: seq<Move>)
    ensures RequestsOk(setup, Exec(setup, Start(setup, initial), moves))
    ensures forall p :: |Targets(setup.config, p)| <= 3
  {
    if moves == [] {
    } else {
      var before := moves[..|moves| - 1];
      FailoverBounded(setup, initial, before);
      StepKeepsRequests(setup, Exec(setup, Start(setup, initial), before), moves[|moves| - 1]);
    }
  }

  // ---- where origins and endpoints come from ---------------------------------------------------

  predicate InRange(published: seq<Config>, i: nat, j: nat, k: nat) {
    i < |published| && j < |published| && k < |published|
  }

  predicate RoutesVia(published: seq<Config>, key: string, p: string, i: nat, j: nat, k: nat) {
    && InRange(published, i, j, k)
    && var r := Route(LoaderReads(published[i], published[j], published[k]), key);
       r.Success? && r.value.placementKey == p
  }

  /** Some reads of published configs route `key` to `p`. */
  ghost predicate RoutesTo(published: seq<Config>, key: string, p: string) {
    exists i, j, k :: RoutesVia(published, key, p, i, j, k)
  }

  ghost predicate Routable(published: seq<Config>, p: string) {
    exists key :: key != "" && RoutesTo(published, key, p)
  }

  predicate Binds(endpoints: map<string, string>, d: RoutingDecision) {
    d.placementKey in endpoints && endpoints[d.placementKey] == d.endpointURL
  }

  /** The decision's endpoint is the one some config binds to its placement: the handler's config or
      a config the router has had. */
  ghost predicate Bound(c: Config, published: seq<Config>, d: RoutingDecision) {
    || Binds(Endpoints(c), d)
    || exists n :: 0 <= n < |published| && Binds(published[n].cellEndpoints, d)
  }

  ghost predicate RequestSourced(c: Config, published: seq<Config>, r: Request) {
    && (r.phase.Arrived? ==> r.key != "")
    && (!Early(r.phase) ==> r.key != "" && RoutesTo(published, r.key, r.origin) && Bound(c, published, r.decision))
  }

  ghost predicate RequestsSourced(setup: Setup, s: System) {
    forall id :: id in s.requests ==> RequestSourced(setup.config, s.published, s.requests[id])
  }

  lemma PublishKeepsSourced(c: Config, published: seq<Config>, more: Config, r: Request)
    requires RequestSourced(c, published, r)
    ensures RequestSourced(c, published + [more], r)
  {
    var all := published + [more];
    if !Early(r.phase) {
      var i, j, k :| RoutesVia(published, r.key, r.origin, i, j, k);
      assert RoutesVia(all, r.key, r.origin, i, j, k);
      if !Binds(Endpoints(c), r.decision) {
        var n :| 0 <= n < |published| && Binds(published[n].cellEndpoints, r.decision);
        assert Binds(all[n].cellEndpoints, r.decision);
      }
    }
  }

  lemma PublishKeepsAllSourced(setup: Setup, s: System, c: Config)
    requires RequestsSourced(setup, s)
    ensures RequestsSourced(setup, s.(published := s.published + [c]))
  {
    forall id | id in s.requests
      ensures RequestSourced(setup.config, s.published + [c], s.requests[id])
    {
      PublishKeepsSourced(setup.config, s.published, c, s.requests[id]);
    }
  }

  lemma DecideSourced(c: Config, s: System, id: nat, i: nat, j: nat, k: nat)
    requires InPhase(s, id, Arrived) && InRange(s.published, i, j, k) && s.requests[id].key != ""
    ensures RequestSourced(c, s.published, DecideRoute(s, id, i, j, k).requests[id])
  {
    var r := DecideRoute(s, id, i, j, k).requests[id];
    if r.phase.Routed? {
      assert RoutesVia(s.published, r.key, r.origin, i, j, k);
      assert Binds(s.published[j].cellEndpoints, r.decision);
    }
  }

  /** Redirecting stays within the handler's own bindings, because the validator resolved every
      fallback and the default. */
  lemma RedirectBound(ps: Parsers, c: Config, d: RoutingDecision, p: string)
    requires WellFormed(ps, c)
    ensures FallbackOf(c, p) != "" ==> Binds(Endpoints(c), Redirect(c, d, FallbackOf(c, p)))
    ensures FallbackOf(c, p) == "" ==> Binds(Endpoints(c), Redirect(c, d, c.defaultPlacement))
    ensures Binds(Endpoints(c), Redirect(c, d, Alternative(c, p)))
    ensures var t := if FallbackOf(c, p) != "" then FallbackOf(c, p) else c.defaultPlacement;
            && (c.cellEndpoints != map[] ==>
                  t in c.cellEndpoints && Redirect(c, d, t) == RoutingDecision(t, d.reason, c.cellEndpoints[t]))
            && (c.cellEndpoints == map[] ==>
                  t in c.placements && Redirect(c, d, t) == RoutingDecision(t, d.reason, c.placements[t].url))
  {
    assert p in c.placements ==> PlacementOk(ps, c, c.placements[p]);
  }

  lemma GateSourced(ps: Parsers, c: Config, published: seq<Config>, r: Request, allowed: bool)
    requires WellFormed(ps, c) && RequestSourced(c, published, r) && r.phase.SizeChecked?
    ensures RequestSourced(c, published, AfterGate(c, r, allowed))
  {
    RedirectBound(ps, c, r.decision, r.decision.placementKey);
  }

  lemma HealthSourced(ps: Parsers, c: Config, published: seq<Config>, r: Request, healthy: bool)
    requires WellFormed(ps, c) && RequestSourced(c, published, r) && r.phase.Gated?
    ensures RequestSourced(c, published, AfterHealth(c, r, healthy))
  {
    RedirectBound(ps, c, r.decision, r.decision.placementKey);
  }

  /** The other steps leave the key, the origin and the decision alone. */
  lemma OthersKeepDecision(setup: Setup, s: System, m: Move)
    requires m.Arrive? || m.Acquire? || m.CheckSize? || m.Return? || m.Record? || m.Release?
    requires m.id in s.requests
    ensures var r, r' := s.requests[m.id], Step(setup, s, m).requests[m.id];
            && r'.key == r.key && r'.origin == r.origin && r'.decision == r.decision
            && (r' == r || (!Early(r.phase) && !r'.phase.Arrived?))
  {
  }

  lemma StepKeepsSourced(ps: Parsers, setup: Setup, s: System, m: Move)
    requires WellFormed(ps, setup.config) && RequestsSourced(setup, s)
    ensures RequestsSourced(setup, Step(setup, s, m))
  {
    if m.Publish? {
      PublishKeepsAllSourced(setup, s, m.config);
    } else {
      OnlyPublishPublishes(setup, s, m);
      if m.id in s.requests {
        StepFrame(setup, s, m);
        MoverSourced(ps, setup, s, m);
      } else {
        NewcomerFrame(setup, s, m);
      }
    }
  }

  lemma OnlyPublishPublishes(setup: Setup, s: System, m: Move)
    requires !m.Publish?
    ensures Step(setup, s, m).published == s.published
  {
  }

  /** A step that names an unknown request does nothing, unless that request is arriving. */
  lemma NewcomerFrame(setup: Setup, s: System, m: Move)
    requires !m.Publish? && m.id !in s.requests
    ensures Step(setup, s, m) == if m.Arrive? then Put(s, m.id, NewRequest(m.key, m.length)) else s
  {
  }

  lemma {:induction false} MoverSourced(ps: Parsers, setup: Setup, s: System, m: Move)
    requires WellFormed(ps, setup.config) && !m.Publish? && m.id in s.requests
    requires RequestSourced(setup.config, s.published, s.requests[m.id])
    ensures RequestSourced(setup.config, s.published, Step(setup, s, m).requests[m.id])
  {
    var r := s.requests[m.id];
    match m {
      case Decide(id, i, j, k) =>
        if DecideRoute(s, id, i, j, k) != s {
          DecideSourced(setup.config, s, id, i, j, k);
        }
      case Gate(id, now) =>
        if AskBreaker(setup, s, id, now) != s {
          GateSourced(ps, setup.config, s.published, r, Allows(At(s.breakers, r.decision.placementKey), now));
        }
      case CheckHealth(id, healthy) =>
        if ConsultHealth(setup, s, id, healthy) != s {
          HealthSourced(ps, setup.config, s.published, r, healthy);
        }
      case _ => OthersKeepDecision(setup, s, m);
    }
  }

  /** Failover is closed: with a validated handler config, in every reachable state every request past
      routing came from a non-empty key that published configs route to its origin, and its current
      placement and endpoint are a binding of the handler's config or of a published one, even when
      the two differ. */
  lemma {:induction false} FailoverClosed(ps: Parsers, setup: Setup, initial: Config, moves: seq<Move>)
    requires WellFormed(ps, setup.config)
    ensures RequestsSourced(setup, Exec(setup, Start(setup, initial), moves))
  {
    if moves == [] {
    } else {
      var before := moves[..|moves| - 1];
      FailoverClosed(ps, setup, initial, before);
      StepKeepsSourced(ps, setup, Exec(setup, Start(setup, initial), before), moves[|moves| - 1]);
    }
  }
}
