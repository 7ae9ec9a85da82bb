/** Concurrency slots over all interleavings of the request pipeline: they are conserved, their
    release never blocks, and they bound the load on each upstream through failover. */
module PipelineSlots {
  import opened ConfigModel
  import opened Limits
  import opened Pipeline
  import opened PipelineSafety

  // ---- conservation --------------------------------------------------------------------------

  /** The requests that were admitted under `p` and have not left. */
  function Holders(s: System, p: string): set<nat> {
    set id | id in s.requests && Holds(s.requests[id], p)
  }

  /** The taken slots of a limited placement are exactly its holders, and never too many. */
  ghost predicate SlotConserved(setup: Setup, s: System, p: string)
    requires p in s.slots && IsLimited(setup.config, p)
  {
    && s.slots[p].capacity == setup.config.placements[p].concurrencyLimit
    && s.slots[p].taken == |Holders(s, p)| <= setup.config.placements[p].concurrencyLimit
  }

  ghost predicate SlotsConserved(setup: Setup, s: System) {
    && (forall p :: p in s.slots <==> IsLimited(setup.config, p))
    && (forall p :: p in s.slots ==> SlotConserved(setup, s, p))
  }

  lemma HoldersAfterPut(s: System, id: nat, r: Request, p: string)
    ensures Holders(Put(s, id, r), p) == if Holds(r, p) then Holders(s, p) + {id} else Holders(s, p) - {id}
  {
  }

  lemma HoldersSame(s: System, s': System, id: nat, p: string)
    requires s'.requests == s.requests
             || (id in s'.requests && s'.requests == s.requests[id := s'.requests[id]]
                 && (Holds(s'.requests[id], p) <==> id in s.requests && Holds(s.requests[id], p)))
    ensures Holders(s', p) == Holders(s, p)
  {
  }

  lemma QuietFront(setup: Setup, s: System, m: Move, p: string)
    requires m.Publish? || m.Arrive? || m.Decide? || m.CheckSize?
    ensures Step(setup, s, m).slots == s.slots
    ensures Holders(Step(setup, s, m), p) == Holders(s, p)
  {
    HoldersSame(s, Step(setup, s, m), if m.Publish? then 0 else m.id, p);
  }

  lemma QuietBack(setup: Setup, s: System, m: Move, p: string)
    requires m.Gate? || m.CheckHealth? || m.Return? || m.Record?
    ensures Step(setup, s, m).slots == s.slots
    ensures Holders(Step(setup, s, m), p) == Holders(s, p)
  {
    HoldersSame(s, Step(setup, s, m), m.id, p);
  }

  lemma AcquireConservesAt(setup: Setup, s: System, id: nat, p: string)
    requires InPhase(s, id, Routed) && s.requests[id].decision.placementKey == s.requests[id].origin
    requires p in s.slots && IsLimited(setup.config, p) && SlotConserved(setup, s, p)
    ensures p in AcquireSlot(s, id).slots && SlotConserved(setup, AcquireSlot(s, id), p)
  {
    var s' := AcquireSlot(s, id);
    HoldersAfterPut(s, id, s'.requests[id], p);
    assert Holders(s', p) == Holders(Put(s, id, s'.requests[id]), p);
    assert id !in Holders(s, p);
  }

  lemma ReleaseConservesAt(setup: Setup, s: System, id: nat, p: string)
    requires id in s.requests && s.requests[id].phase.Leaving? && s.requests[id].slotKey == s.requests[id].origin
    requires p in s.slots && IsLimited(setup.config, p) && SlotConserved(setup, s, p)
    requires !Blocks(s.slots, s.requests[id].slotKey)
    ensures p in ReleaseSlot(s, id).slots && SlotConserved(setup, ReleaseSlot(s, id), p)
  {
    var s' := ReleaseSlot(s, id);
    HoldersAfterPut(s, id, s'.requests[id], p);
    assert Holders(s', p) == Holders(Put(s, id, s'.requests[id]), p);
    assert id in Holders(s, p) <==> p == s.requests[id].origin;
  }

  lemma AcquireConserves(setup: Setup, s: System, id: nat)
    requires InPhase(s, id, Routed) ==> s.requests[id].decision.placementKey == s.requests[id].origin
    requires SlotsConserved(setup, s)
    ensures SlotsConserved(setup, AcquireSlot(s, id))
  {
    if InPhase(s, id, Routed) {
      assert AcquireSlot(s, id).slots.Keys == s.slots.Keys;
      forall p | p in s.slots
        ensures SlotConserved(setup, AcquireSlot(s, id), p)
      {
        AcquireConservesAt(setup, s, id, p);
      }
    }
  }

  /** A request on its way out holds the slot it is about to give back. */
  lemma ReleaseNeverBlocks(setup: Setup, s: System, id: nat)
    requires id in s.requests && s.requests[id].phase.Leaving? && s.requests[id].slotKey == s.requests[id].origin
    requires SlotsConserved(setup, s)
    ensures !Blocks(s.slots, s.requests[id].slotKey)
  {
    var p := s.requests[id].origin;
    assert id in Holders(s, p);
    assert p in s.slots ==> SlotConserved(setup, s, p);
  }

  lemma ReleaseConserves(setup: Setup, s: System, id: nat)
    requires id in s.requests && s.requests[id].phase.Leaving? ==> s.requests[id].slotKey == s.requests[id].origin
    requires SlotsConserved(setup, s)
    ensures SlotsConserved(setup, ReleaseSlot(s, id))
  {
    if id in s.requests && s.requests[id].phase.Leaving? {
      ReleaseNeverBlocks(setup, s, id);
      assert ReleaseSlot(s, id).slots.Keys == s.slots.Keys;
      forall p | p in s.slots
        ensures SlotConserved(setup, ReleaseSlot(s, id), p)
      {
        ReleaseConservesAt(setup, s, id, p);
      }
    }
  }

  lemma SlotsCarryOver(setup: Setup, s: System, s': System)
    requires SlotsConserved(setup, s) && s'.slots == s.slots
    requires forall p :: Holders(s', p) == Holders(s, p)
    ensures SlotsConserved(setup, s')
  {
    forall p | p in s'.slots
      ensures SlotConserved(setup, s', p)
    {
      assert SlotConserved(setup, s, p);
    }
  }

  lemma StepConserves(setup: Setup, s: System, m: Move)
    requires RequestsOk(setup, s) && SlotsConserved(setup, s)
    ensures SlotsConserved(setup, Step(setup, s, m))
  {
    match m {
      case Acquire(id) =>
        assert id in s.requests ==> RequestOk(setup.config, s.requests[id]);
        AcquireConserves(setup, s, id);
      case Release(id) =>
        assert id in s.requests ==> RequestOk(setup.config, s.requests[id]);
        ReleaseConserves(setup, s, id);
      case _ =>
        forall p
          ensures Holders(Step(setup, s, m), p) == Holders(s, p) && Step(setup, s, m).slots == s.slots
        {
          if m.Gate? || m.CheckHealth? || m.Return? || m.Record? {
            QuietBack(setup, s, m, p);
          } else {
            QuietFront(setup, s, m, p);
          }
        }
        SlotsCarryOver(setup, s, Step(setup, s, m));
    }
  }

  /** In every reachable state each limited placement has as many slots taken as it has admitted
      requests still in flight, at most its limit; and no deferred release ever blocks. */
  lemma {:induction false} SlotConservation(setup: Setup, initial: Config, moves: seq<Move>)
    ensures var s := Exec(setup, Start(setup, initial), moves);
            && SlotsConserved(setup, s)
            && forall id :: id in s.requests && s.requests[id].phase.Leaving? ==>
                              !Blocks(s.slots, s.requests[id].slotKey)
  {
    var s := Exec(setup, Start(setup, initial), moves);
    FailoverBounded(setup, initial, moves);
    if moves == [] {
      assert forall p :: Holders(s, p) == {};
    } else {
      var before := moves[..|moves| - 1];
      FailoverBounded(setup, initial, before);
      SlotConservation(setup, initial, before);
      StepConserves(setup, Exec(setup, Start(setup, initial), before), moves[|moves| - 1]);
    }
    forall id | id in s.requests && s.requests[id].phase.Leaving?
      ensures !Blocks(s.slots, s.requests[id].slotKey)
    {
      assert RequestOk(setup.config, s.requests[id]);
      ReleaseNeverBlocks(setup, s, id);
    }
  }

  lemma ReleaseGivesBackOne(s: System, id: nat)
    requires id in s.requests && s.requests[id].phase.Leaving? && !Blocks(s.slots, s.requests[id].slotKey)
    ensures var s', p := ReleaseSlot(s, id), s.requests[id].slotKey;
            && s'.requests == s.requests[id := s.requests[id].(phase := Finished(s.requests[id].phase.exit))]
            && s'.slots.Keys == s.slots.Keys
            && (p in s.slots ==> s'.slots[p].taken == s.slots[p].taken - 1)
            && (forall q :: q in s.slots && q != p ==> s'.slots[q] == s.slots[q])
  {
  }

  /** Every way out after admission (413, 503, and the end of proxying) gives back exactly one slot,
      to the placement the request was admitted under, even when failover has moved it elsewhere. */
  lemma {:induction false} ExitReleasesOrigin(setup: Setup, initial: Config, moves: seq<Move>, id: nat)
    requires id in Exec(setup, Start(setup, initial), moves).requests
    requires Exec(setup, Start(setup, initial), moves).requests[id].phase.Leaving?
    ensures var s := Exec(setup, Start(setup, initial), moves);
            var s', r := ReleaseSlot(s, id), s.requests[id];
            && s'.requests == s.requests[id := r.(phase := Finished(r.phase.exit))]
            && s'.slots.Keys == s.slots.Keys
            && (r.origin in s.slots ==> s'.slots[r.origin].taken == s.slots[r.origin].taken - 1)
            && (forall q :: q in s.slots && q != r.origin ==> s'.slots[q] == s.slots[q])
  {
    var s := Exec(setup, Start(setup, initial), moves);
    FailoverBounded(setup, initial, moves);
    SlotConservation(setup, initial, moves);
    assert RequestOk(setup.config, s.requests[id]);
    ReleaseGivesBackOne(s, id);
  }

  /** A request that finished holds nothing: no later move by or about it touches the slots. */
  lemma FinishedIsFinal(setup: Setup, s: System, m: Move)
    requires !m.Publish? && m.id in s.requests && s.requests[m.id].phase.Finished?
    ensures Step(setup, s, m) == s
  {
  }

  // ---- load through failover -----------------------------------------------------------------

  /** The requests being proxied to `q` right now. */
  function Load(s: System, q: string): set<nat> {
    set id | id in s.requests && s.requests[id].phase.Forwarding? && s.requests[id].decision.placementKey == q
  }

  function TotalLimit(c: Config, placements: seq<string>): nat
    requires forall p :: p in placements ==> IsLimited(c, p)
  {
    if placements == [] then 0
    else
      assert placements[0] in placements && IsLimited(c, placements[0]);
      c.placements[placements[0]].concurrencyLimit + TotalLimit(c, placements[1..])
  }

  lemma {:induction false} HoldersBounded(setup: Setup, s: System, ids: set<nat>, placements: seq<string>)
    requires SlotsConserved(setup, s)
    requires forall p :: p in placements ==> IsLimited(setup.config, p)
    requires forall id :: id in ids ==> exists p :: p in placements && id in Holders(s, p)
    ensures |ids| <= TotalLimit(setup.config, placements)
  {
    if placements != [] {
      var p := placements[0];
      assert p in placements && SlotConserved(setup, s, p);
      var here := ids * Holders(s, p);
      CardinalityOfSubset(here, Holders(s, p));
      assert ids == here + (ids - here);
      forall id | id in ids - here
        ensures exists q :: q in placements[1..] && id in Holders(s, q)
      {
        var q :| q in placements && id in Holders(s, q);
        assert q in placements[1..];
      }
      HoldersBounded(setup, s, ids - here, placements[1..]);
    } else {
      assert ids == {};
    }
  }

  lemma {:induction false} CardinalityOfSubset(a: set<nat>, b: set<nat>)
    requires a <= b
    ensures |a| <= |b|
  {
    assert b == a + (b - a);
  }

  /** In every reachable state the requests being proxied to `q` number at most the sum of the limits
      of the placements that can end up at `q`: it is enough that the listed placements have limits
      and include every routable placement with `q` among its targets. */
  lemma LoadBoundThroughFailover(ps: Parsers, setup: Setup, initial: Config, moves: seq<Move>,
                                 q: string, sources: seq<string>)
    requires WellFormed(ps, setup.config)
    requires forall p :: p in sources ==> IsLimited(setup.config, p)
    requires forall p :: q in Targets(setup.config, p) ==>
               Routable(Exec(setup, Start(setup, initial), moves).published, p) ==> p in sources
    ensures |Load(Exec(setup, Start(setup, initial), moves), q)| <= TotalLimit(setup.config, sources)
  {
    var s := Exec(setup, Start(setup, initial), moves);
    FailoverBounded(setup, initial, moves);
    FailoverClosed(ps, setup, initial, moves);
    SlotConservation(setup, initial, moves);
    forall id | id in Load(s, q)
      ensures exists p :: p in sources && id in Holders(s, p)
    {
      assert RequestOk(setup.config, s.requests[id]);
      assert id in Holders(s, s.requests[id].origin);
      assert RequestSourced(setup.config, s.published, s.requests[id]);
      assert Routable(s.published, s.requests[id].origin);
    }
    HoldersBounded(setup, s, Load(s, q), sources);
  }
}
