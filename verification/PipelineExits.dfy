/** Why each request ended as it did, in terms of the request and of the placement it was routed to. */
module PipelineExits {
  import opened ConfigModel
  import opened Limits
  import opened Pipeline
  import opened PipelineSafety
  import opened PipelineSlots

  /** The announced body is over the body limit of the placement the request was routed to. */
  predicate TooBig(c: Config, r: Request) {
    && r.length > 0 && r.origin in Endpoints(c) && r.origin in c.placements
    && var p := c.placements[r.origin];
       && (p.concurrencyLimit > 0 || p.maxRequestBodyBytes > 0)
       && p.maxRequestBodyBytes != 0 && r.length > p.maxRequestBodyBytes
  }

  predicate HasFallback(c: Config, p: string) {
    p in c.placements && c.placements[p].fallback != ""
  }

  predicate Explained(c: Config, r: Request) {
    && (r.key == "" <==> r.phase == Finished(MissingKey))
    && match r.phase
       case Arrived | Routed | Admitted => true
       case SizeChecked | Gated | Forwarding | Answered(_) => !TooBig(c, r)
       case Leaving(e) => (e.TooLarge? || e.CircuitOpen? || e.Proxied?) && ExitExplained(c, r, e)
       case Finished(e) => ExitExplained(c, r, e)
  }

  predicate ExitExplained(c: Config, r: Request, e: Exit) {
    match e
    case TooLarge => TooBig(c, r)
    case CircuitOpen => !TooBig(c, r) && !HasFallback(c, r.origin)
    case Proxied(_) => !TooBig(c, r)
    case _ => true
  }

  /** The reason given for failover says how the request got where it is going. */
  predicate FailoverExplained(c: Config, r: Request) {
    r.failover.CircuitOpenFailover? ==>
      HasFallback(c, r.origin) && r.decision.placementKey == c.placements[r.origin].fallback
  }

  ghost predicate AllExplained(setup: Setup, s: System) {
    forall id :: id in s.requests ==>
      Explained(setup.config, s.requests[id]) && FailoverExplained(setup.config, s.requests[id])
  }

  lemma {:induction false} SizeExplained(c: Config, r: Request)
    requires r.decision.placementKey == r.origin
    ensures TooLong(c, r) <==> TooBig(c, r)
  {
    InstalledLimits(c, r.origin);
  }

  lemma {:induction false} FrontExplained(setup: Setup, s: System, m: Move)
    requires m.Arrive? || m.Decide? || m.Acquire? || m.CheckSize?
    requires m.id in s.requests && RequestOk(setup.config, s.requests[m.id])
    requires Explained(setup.config, s.requests[m.id]) && FailoverExplained(setup.config, s.requests[m.id])
    ensures var r := Step(setup, s, m).requests[m.id];
            Explained(setup.config, r) && FailoverExplained(setup.config, r)
  {
    if m.CheckSize? && InPhase(s, m.id, Admitted) {
      SizeExplained(setup.config, s.requests[m.id]);
    }
  }

  lemma {:induction false} MiddleExplained(setup: Setup, s: System, m: Move)
    requires m.Gate? || m.CheckHealth?
    requires m.id in s.requests && RequestOk(setup.config, s.requests[m.id])
    requires Explained(setup.config, s.requests[m.id]) && FailoverExplained(setup.config, s.requests[m.id])
    ensures var r := Step(setup, s, m).requests[m.id];
            Explained(setup.config, r) && FailoverExplained(setup.config, r)
  {
  }

  lemma {:induction false} BackExplained(setup: Setup, s: System, m: Move)
    requires m.Return? || m.Record? || m.Release?
    requires m.id in s.requests
    requires Explained(setup.config, s.requests[m.id]) && FailoverExplained(setup.config, s.requests[m.id])
    ensures var r := Step(setup, s, m).requests[m.id];
            Explained(setup.config, r) && FailoverExplained(setup.config, r)
  {
  }

  lemma {:induction false} StepKeepsExplained(setup: Setup, s: System, m: Move)
    requires RequestsOk(setup, s) && AllExplained(setup, s)
    ensures AllExplained(setup, Step(setup, s, m))
  {
    if m.Publish? {
      assert Step(setup, s, m).requests == s.requests;
    } else if m.id in s.requests {
      StepFrame(setup, s, m);
      if m.Arrive? || m.Decide? || m.Acquire? || m.CheckSize? {
        FrontExplained(setup, s, m);
      } else if m.Gate? || m.CheckHealth? {
        MiddleExplained(setup, s, m);
      } else {
        BackExplained(setup, s, m);
      }
    } else {
      NewcomerFrame(setup, s, m);
    }
  }

  /** In every reachable state: a request ended with 400 exactly if it has no routing key; with 413 only
      if its announced body is over the limit of the placement it was routed to, and no request over
      that limit gets past the size check; with an open-circuit 503 only if that placement has no
      fallback; and failover for an open circuit is to that placement's fallback. */
  lemma {:induction false} ExitsExplained(setup: Setup, initial: Config, moves: seq<Move>)
    ensures AllExplained(setup, Exec(setup, Start(setup, initial), moves))
  {
    if moves == [] {
    } else {
      var before := moves[..|moves| - 1];
      ExitsExplained(setup, initial, before);
      FailoverBounded(setup, initial, before);
      StepKeepsExplained(setup, Exec(setup, Start(setup, initial), before), moves[|moves| - 1]);
    }
  }

  /** A routed request is refused with 429 exactly when its placement has a concurrency limit and that
      many admitted requests are in flight; otherwise it becomes one of them. */
  lemma {:induction false} RefusedIff(setup: Setup, initial: Config, moves: seq<Move>, id: nat)
    requires InPhase(Exec(setup, Start(setup, initial), moves), id, Routed)
    ensures var s := Exec(setup, Start(setup, initial), moves);
            var c, p, t := setup.config, s.requests[id].origin, AcquireSlot(s, id);
            var full := p in Endpoints(c) && p in c.placements && c.placements[p].concurrencyLimit > 0
                        && |Holders(s, p)| == c.placements[p].concurrencyLimit;
            && InPhase(t, id, if full then Finished(Limited) else Admitted)
            && Holders(t, p) == if full then Holders(s, p) else Holders(s, p) + {id}
  {
    var s := Exec(setup, Start(setup, initial), moves);
    FailoverBounded(setup, initial, moves);
    SlotConservation(setup, initial, moves);
    var p := s.requests[id].origin;
    assert RequestOk(setup.config, s.requests[id]);
    assert p in s.slots ==> SlotConserved(setup, s, p);
    HoldersAfterPut(s, id, AcquireSlot(s, id).requests[id], p);
    assert Holders(AcquireSlot(s, id), p) == Holders(Put(s, id, AcquireSlot(s, id).requests[id]), p);
  }
}
