/** The handler's startup config beside the router's current one: when a request can be sent to an
    endpoint that the router's config does not have. */
module PipelineStale {
  import opened ConfigModel
  import opened Routing
  import opened Wrappers
  import opened Circuit
  import opened Registry
  import opened Limits
  import opened Pipeline
  import opened PipelineSafety
  import opened PipelineRuns
  import opened Solo

  /** An unhealthy `p` makes the handler redirect. */
  predicate Redirects(c: Config, p: string) {
    FallbackOf(c, p) != "" || c.defaultPlacement != p
  }

  /** The placements that a request routed to `p` can be redirected to. */
  function RedirectTargets(c: Config, p: string): set<string> {
    var f := FallbackOf(c, p);
    if f == "" then (if c.defaultPlacement != p then {c.defaultPlacement} else {})
    else if FallbackOf(c, f) != "" then {f, FallbackOf(c, f)}
    else if c.defaultPlacement != f then {f, c.defaultPlacement}
    else {f}
  }

  /** The router's config gives `t` the endpoint that a redirect by the handler's config gives it. */
  predicate SameTarget(c: Config, r: Config, t: string) {
    t in r.cellEndpoints && r.cellEndpoints[t] == if t in Endpoints(c) then Endpoints(c)[t] else ""
  }

  /** The two configs agree on every placement that failover can redirect a routable request to. */
  ghost predicate TargetsAgree(c: Config, r: Config) {
    forall p, t :: (exists key :: Sends(r, key, p)) && t in RedirectTargets(c, p) ==> SameTarget(c, r, t)
  }

  /** In every run over router config `r`, every request is proxied to an endpoint that `r` binds to the
      placement it is proxied to. */
  ghost predicate AlwaysCurrent(setup: Setup, r: Config) {
    forall moves, id :: NoPublish(moves) && id in Exec(setup, Start(setup, r), moves).requests
                        && Exec(setup, Start(setup, r), moves).requests[id].phase.Forwarding? ==>
                          Binds(r.cellEndpoints, Exec(setup, Start(setup, r), moves).requests[id].decision)
  }

  // ---- agreement is enough -------------------------------------------------------------------

  ghost predicate RequestCurrent(r: Config, q: Request) {
    && (q.phase.Arrived? ==> q.key != "")
    && (!Early(q.phase) ==> Sends(r, q.key, q.origin) && Binds(r.cellEndpoints, q.decision))
  }

  ghost predicate RequestsCurrent(s: System, r: Config) {
    forall id :: id in s.requests ==> RequestCurrent(r, s.requests[id])
  }

  lemma {:induction false} RedirectCurrent(c: Config, r: Config, d: RoutingDecision, t: string)
    requires SameTarget(c, r, t)
    ensures Binds(r.cellEndpoints, Redirect(c, d, t))
  {
  }

  lemma {:induction false} DecideCurrent(s: System, r: Config, id: nat, i: nat, j: nat, k: nat)
    requires s.published == [r] && InPhase(s, id, Arrived) && InRange(s.published, i, j, k)
    requires RequestCurrent(r, s.requests[id])
    ensures RequestCurrent(r, DecideRoute(s, id, i, j, k).requests[id])
  {
  }

  lemma {:induction false} GateCurrent(c: Config, r: Config, q: Request, allowed: bool)
    requires TargetsAgree(c, r) && RequestCurrent(r, q) && RequestOk(c, q) && q.phase.SizeChecked?
    ensures RequestCurrent(r, AfterGate(c, q, allowed))
  {
    var t := FallbackOf(c, q.origin);
    if t != "" {
      assert t in RedirectTargets(c, q.origin);
      RedirectCurrent(c, r, q.decision, t);
    }
  }

  lemma {:induction false} HealthCurrent(c: Config, r: Config, q: Request, healthy: bool)
    requires TargetsAgree(c, r) && RequestCurrent(r, q) && RequestOk(c, q) && q.phase.Gated?
    ensures RequestCurrent(r, AfterHealth(c, q, healthy))
  {
    var p := q.decision.placementKey;
    if Redirects(c, p) {
      assert Alternative(c, p) in RedirectTargets(c, q.origin);
      RedirectCurrent(c, r, q.decision, Alternative(c, p));
    }
  }

  lemma {:induction false} MoverCurrent(setup: Setup, s: System, r: Config, m: Move)
    requires TargetsAgree(setup.config, r) && s.published == [r] && !m.Publish? && m.id in s.requests
    requires RequestCurrent(r, s.requests[m.id]) && RequestOk(setup.config, s.requests[m.id])
    ensures RequestCurrent(r, Step(setup, s, m).requests[m.id])
  {
    var q := s.requests[m.id];
    match m {
      case Decide(id, i, j, k) =>
        if DecideRoute(s, id, i, j, k) != s {
          DecideCurrent(s, r, id, i, j, k);
        }
      case Gate(id, now) =>
        if AskBreaker(setup, s, id, now) != s {
          GateCurrent(setup.config, r, q, Allows(At(s.breakers, q.decision.placementKey), now));
        }
      case CheckHealth(id, healthy) =>
        if ConsultHealth(setup, s, id, healthy) != s {
          HealthCurrent(setup.config, r, q, healthy);
        }
      case _ => OthersKeepDecision(setup, s, m);
    }
  }

  lemma {:induction false} StepKeepsCurrent(setup: Setup, s: System, r: Config, m: Move)
    requires TargetsAgree(setup.config, r) && s.published == [r] && !m.Publish?
    requires RequestsOk(setup, s) && RequestsCurrent(s, r)
    ensures RequestsCurrent(Step(setup, s, m), r)
  {
    if m.id in s.requests {
      StepFrame(setup, s, m);
      MoverCurrent(setup, s, r, m);
    } else {
      NewcomerFrame(setup, s, m);
    }
  }

  lemma {:induction false} AgreeingIsEnough(setup: Setup, r: Config, moves: seq<Move>)
    requires TargetsAgree(setup.config, r) && NoPublish(moves)
    ensures RequestsCurrent(Exec(setup, Start(setup, r), moves), r)
  {
    if moves == [] {
    } else {
      var before := moves[..|moves| - 1];
      AgreeingIsEnough(setup, r, before);
      PublishedFixed(setup, r, before);
      FailoverBounded(setup, r, before);
      StepKeepsCurrent(setup, Exec(setup, Start(setup, r), before), r, moves[|moves| - 1]);
    }
  }

  // ---- and needed ----------------------------------------------------------------------------

  /** A request that finds its placement unhealthy: redirected once from a closed breaker, twice from
      an open one. */
  lemma {:induction false} SendRedirected(setup: Setup, from: System, id: nat, r: Config, key: string,
                                          d: RoutingDecision)
    returns (moves: seq<Move>)
    requires id !in from.requests && from.published == [r]
    requires key != "" && Route(LoaderReads(r, r, r), key) == Success(d)
    requires CanAcquire(from.slots, d.placementKey)
    requires Allows(At(from.breakers, d.placementKey), from.clock) || FallbackOf(setup.config, d.placementKey) != ""
    ensures NoPublish(moves)
    ensures var t := Exec(setup, from, moves);
            var asked := AfterGate(setup.config, AtGate(from, key, d).request,
                                   Allows(At(from.breakers, d.placementKey), from.clock));
            id in t.requests && t.requests[id] == AfterHealth(setup.config, asked, false)
  {
    var gate := AtGate(from, key, d);
    moves := RunToGate(setup, from, id, r, key, d);
    moves := ThenGate(setup, from, id, moves, gate, from.clock);
    moves := ThenHealth(setup, from, id, moves, Asked(setup, gate, from.clock), false);
  }

  lemma {:induction false} SendToFirst(setup: Setup, r: Config, key: string, d: RoutingDecision)
    returns (moves: seq<Move>)
    requires key != "" && Route(LoaderReads(r, r, r), key) == Success(d)
    requires Redirects(setup.config, d.placementKey)
    ensures NoPublish(moves)
    ensures var s, t := Exec(setup, Start(setup, r), moves), Alternative(setup.config, d.placementKey);
            && 0 in s.requests && s.requests[0].phase.Forwarding?
            && s.requests[0].decision == Redirect(setup.config, d, t)
  {
    moves := SendRedirected(setup, Start(setup, r), 0, r, key, d);
  }

  lemma {:induction false} SendToSecond(setup: Setup, r: Config, key: string, d: RoutingDecision)
    returns (moves: seq<Move>, id: nat)
    requires setup.breaker.timeout >= 0 && key != "" && Route(LoaderReads(r, r, r), key) == Success(d)
    requires FallbackOf(setup.config, d.placementKey) != ""
    requires Redirects(setup.config, FallbackOf(setup.config, d.placementKey))
    ensures NoPublish(moves)
    ensures var s := Exec(setup, Start(setup, r), moves);
            var t := Alternative(setup.config, FallbackOf(setup.config, d.placementKey));
            && id in s.requests && s.requests[id].phase.Forwarding?
            && s.requests[id].decision == Redirect(setup.config, d, t)
  {
    var opening;
    opening, id := Trip(setup, Start(setup, r), 0, r, key, d);
    var open := Exec(setup, Start(setup, r), opening);
    var rest := SendRedirected(setup, open, id, r, key, d);
    ExecConcat(setup, Start(setup, r), opening, rest);
    moves := opening + rest;
  }

  lemma {:induction false} AgreementIsNeeded(setup: Setup, r: Config, key: string, p: string, t: string)
    requires setup.breaker.timeout >= 0
    requires Sends(r, key, p) && t in RedirectTargets(setup.config, p) && !SameTarget(setup.config, r, t)
    ensures !AlwaysCurrent(setup, r)
  {
    var c, d := setup.config, Route(LoaderReads(r, r, r), key).value;
    var moves, id;
    if Redirects(c, p) && t == Alternative(c, p) {
      moves := SendToFirst(setup, r, key, d);
      id := 0;
    } else {
      moves, id := SendToSecond(setup, r, key, d);
    }
    var s := Exec(setup, Start(setup, r), moves);
    assert s.requests[id].decision == Redirect(c, d, t);
    assert !Binds(r.cellEndpoints, s.requests[id].decision);
  }

  /** While the router's config stays `r`, every request is proxied to an endpoint of `r` in all runs
      exactly when the handler's startup config and `r` agree on every placement that failover can
      redirect a request to. */
  lemma {:induction false} CurrentIff(setup: Setup, r: Config)
    requires setup.breaker.timeout >= 0
    ensures AlwaysCurrent(setup, r) <==> TargetsAgree(setup.config, r)
  {
    if TargetsAgree(setup.config, r) {
      forall moves, id | NoPublish(moves) && id in Exec(setup, Start(setup, r), moves).requests
                         && Exec(setup, Start(setup, r), moves).requests[id].phase.Forwarding?
        ensures Binds(r.cellEndpoints, Exec(setup, Start(setup, r), moves).requests[id].decision)
      {
        AgreeingIsEnough(setup, r, moves);
      }
    } else {
      var p, t :| (exists key :: Sends(r, key, p)) && t in RedirectTargets(setup.config, p)
                  && !SameTarget(setup.config, r, t);
      var key :| Sends(r, key, p);
      AgreementIsNeeded(setup, r, key, p, t);
    }
  }
}
