/** No request is ever stuck and no slot is ever lost. */
module PipelineDrain {
  import opened ConfigModel
  import opened Limits
  import opened Pipeline
  import opened PipelineSafety
  import opened PipelineSlots

  /** What the invariants of all runs say of one state. */
  ghost predicate Sound(setup: Setup, s: System) {
    s.published != [] && RequestsOk(setup, s) && SlotsConserved(setup, s)
  }

  lemma {:induction false} RunsAreSound(setup: Setup, initial: Config, moves: seq<Move>)
    ensures Sound(setup, Exec(setup, Start(setup, initial), moves))
  {
    FailoverBounded(setup, initial, moves);
    SlotConservation(setup, initial, moves);
    PublishedOnlyGrows(setup, Start(setup, initial), moves);
  }

  lemma {:induction false} PublishedOnlyGrows(setup: Setup, s: System, moves: seq<Move>)
    ensures |Exec(setup, s, moves).published| >= |s.published|
  {
    if moves == [] {
    } else {
      PublishedOnlyGrows(setup, s, moves[..|moves| - 1]);
    }
  }

  /** How many more moves a request can make. */
  function Remaining(p: Phase): nat {
    match p
    case Arrived => 8
    case Routed => 7
    case Admitted => 6
    case SizeChecked => 5
    case Gated => 4
    case Forwarding => 3
    case Answered(_) => 2
    case Leaving(_) => 1
    case Finished(_) => 0
  }

  /** A move that takes a request on, whatever the other requests are doing. */
  function NextMove(s: System, id: nat): Move
    requires id in s.requests
  {
    match s.requests[id].phase
    case Arrived => Decide(id, 0, 0, 0)
    case Routed => Acquire(id)
    case Admitted => CheckSize(id)
    case SizeChecked => Gate(id, s.clock)
    case Gated => CheckHealth(id, true)
    case Forwarding => Return(id, NoResponse)
    case Answered(_) => Record(id, s.clock)
    case _ => Release(id)
  }

  /** The other requests stay where they are. */
  ghost predicate OnlyMoves(s: System, t: System, id: nat) {
    id in t.requests && t.requests == s.requests[id := t.requests[id]]
  }

  lemma NextMoveAdvances(setup: Setup, s: System, id: nat)
    requires s.published != [] && id in s.requests && !s.requests[id].phase.Finished?
    requires s.requests[id].phase.Leaving? ==> !Blocks(s.slots, s.requests[id].slotKey)
    ensures var t := Step(setup, s, NextMove(s, id));
            && OnlyMoves(s, t, id)
            && Remaining(t.requests[id].phase) < Remaining(s.requests[id].phase)
            && t.published == s.published
  {
  }

  /** Whatever state the others are in, a request can finish by its own moves alone. */
  lemma {:induction false} Finish(setup: Setup, s: System, id: nat) returns (moves: seq<Move>)
    requires Sound(setup, s) && id in s.requests
    ensures forall m: Move :: m in moves ==> !m.Publish? && m.id == id
    ensures var t := Exec(setup, s, moves);
            Sound(setup, t) && OnlyMoves(s, t, id) && t.requests[id].phase.Finished?
    decreases Remaining(s.requests[id].phase)
  {
    moves := [];
    if !s.requests[id].phase.Finished? {
      var m := NextMove(s, id);
      var t := Step(setup, s, m);
      assert RequestOk(setup.config, s.requests[id]);
      if s.requests[id].phase.Leaving? {
        ReleaseNeverBlocks(setup, s, id);
      }
      NextMoveAdvances(setup, s, id);
      StepKeepsRequests(setup, s, m);
      StepConserves(setup, s, m);
      var rest := Finish(setup, t, id);
      One(setup, s, m);
      ExecConcat(setup, s, [m], rest);
      moves := [m] + rest;
    }
  }

  lemma One(setup: Setup, s: System, m: Move)
    ensures Exec(setup, s, [m]) == Step(setup, s, m)
  {
    assert [m][..0] == [] && Exec(setup, s, []) == s;
  }

  function InFlight(s: System): set<nat> {
    set id | id in s.requests && !s.requests[id].phase.Finished?
  }

  lemma {:induction false} FinishAll(setup: Setup, s: System) returns (moves: seq<Move>)
    requires Sound(setup, s)
    ensures Sound(setup, Exec(setup, s, moves)) && InFlight(Exec(setup, s, moves)) == {}
    decreases |InFlight(s)|
  {
    moves := [];
    if InFlight(s) == {} {
    } else {
      var id :| id in InFlight(s);
      var one := Finish(setup, s, id);
      var t := Exec(setup, s, one);
      assert InFlight(t) == InFlight(s) - {id};
      var rest := FinishAll(setup, t);
      ExecConcat(setup, s, one, rest);
      moves := one + rest;
    }
  }

  /** No slot is ever lost: in every reachable state in which all requests have finished, however they
      ended and wherever failover sent them, every semaphore is as empty as it was at the start. */
  lemma {:induction false} IdleMeansFree(setup: Setup, initial: Config, moves: seq<Move>)
    requires InFlight(Exec(setup, Start(setup, initial), moves)) == {}
    ensures Exec(setup, Start(setup, initial), moves).slots == SlotsOf(setup.config)
  {
    var s := Exec(setup, Start(setup, initial), moves);
    SlotConservation(setup, initial, moves);
    forall p | p in s.slots
      ensures s.slots[p] == SlotsOf(setup.config)[p]
    {
      assert forall id :: id in s.requests ==> id !in InFlight(s);
      assert Holders(s, p) == {};
      assert SlotConserved(setup, s, p);
    }
  }

  /** No deadlock: every run can be continued until all requests have finished and all slots are free. */
  lemma {:induction false} EveryRunCanDrain(setup: Setup, initial: Config, moves: seq<Move>)
    returns (more: seq<Move>)
    ensures var t := Exec(setup, Start(setup, initial), moves + more);
            InFlight(t) == {} && t.slots == SlotsOf(setup.config)
  {
    RunsAreSound(setup, initial, moves);
    more := FinishAll(setup, Exec(setup, Start(setup, initial), moves));
    ExecConcat(setup, Start(setup, initial), moves, more);
    IdleMeansFree(setup, initial, moves + more);
  }
}
