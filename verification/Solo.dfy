/** The request machine when a single request moves: composing the steps of that request is a run of
    the machine. */
module Solo {
  import opened Routing
  import opened Limits
  import opened Pipeline

  // ---- composing its steps is a run -----------------------------------------------------------

  /** `moves`, all by request `id`, take the machine from `from` to where that request and the shared
      state are `p` and nothing else has changed. */
  ghost predicate Reached(setup: Setup, from: System, id: nat, moves: seq<Move>, p: Progress) {
    var s := Exec(setup, from, moves);
    && (forall m: Move :: m in moves ==> !m.Publish? && m.id == id)
    && s.requests == from.requests[id := p.request]
    && s.breakers == p.breakers
    && s.slots == p.slots
    && s.clock == p.clock
    && s.published == from.published
  }

  lemma Then(setup: Setup, from: System, before: seq<Move>, m: Move) returns (moves: seq<Move>)
    ensures moves == before + [m]
    ensures Exec(setup, from, moves) == Step(setup, Exec(setup, from, before), m)
  {
    moves := before + [m];
    assert moves[..|before|] == before;
  }

  lemma ThenArrive(setup: Setup, from: System, id: nat, key: string, length: int) returns (moves: seq<Move>)
    requires id !in from.requests
    ensures Reached(setup, from, id, moves, Progress(NewRequest(key, length), from.breakers, from.slots, from.clock))
  {
    assert Exec(setup, from, []) == from;
    moves := Then(setup, from, [], Arrive(id, key, length));
  }

  lemma ThenDecide(setup: Setup, from: System, id: nat, before: seq<Move>, p: Progress, i: nat, j: nat, k: nat)
    returns (moves: seq<Move>)
    requires Reached(setup, from, id, before, p) && p.request.phase.Arrived?
    requires i < |from.published| && j < |from.published| && k < |from.published|
    ensures Reached(setup, from, id, moves,
                    Decided(p, LoaderReads(from.published[i], from.published[j], from.published[k])))
  {
    moves := Then(setup, from, before, Decide(id, i, j, k));
  }

  lemma ThenAcquire(setup: Setup, from: System, id: nat, before: seq<Move>, p: Progress) returns (moves: seq<Move>)
    requires Reached(setup, from, id, before, p) && p.request.phase.Routed?
    ensures Reached(setup, from, id, moves, Acquired(p))
  {
    moves := Then(setup, from, before, Acquire(id));
  }

  lemma ThenSize(setup: Setup, from: System, id: nat, before: seq<Move>, p: Progress) returns (moves: seq<Move>)
    requires Reached(setup, from, id, before, p) && p.request.phase.Admitted?
    ensures Reached(setup, from, id, moves, Sized(setup.config, p))
  {
    moves := Then(setup, from, before, CheckSize(id));
  }

  lemma ThenGate(setup: Setup, from: System, id: nat, before: seq<Move>, p: Progress, now: int)
    returns (moves: seq<Move>)
    requires Reached(setup, from, id, before, p) && p.request.phase.SizeChecked? && p.clock <= now
    ensures Reached(setup, from, id, moves, Asked(setup, p, now))
  {
    moves := Then(setup, from, before, Gate(id, now));
  }

  lemma ThenHealth(setup: Setup, from: System, id: nat, before: seq<Move>, p: Progress, healthy: bool)
    returns (moves: seq<Move>)
    requires Reached(setup, from, id, before, p) && p.request.phase.Gated?
    ensures Reached(setup, from, id, moves, Checked(setup.config, p, healthy))
  {
    moves := Then(setup, from, before, CheckHealth(id, healthy));
  }

  lemma ThenReturn(setup: Setup, from: System, id: nat, before: seq<Move>, p: Progress, u: Upstream)
    returns (moves: seq<Move>)
    requires Reached(setup, from, id, before, p) && p.request.phase.Forwarding?
    ensures Reached(setup, from, id, moves, Returned(p, u))
  {
    moves := Then(setup, from, before, Return(id, u));
  }

  lemma ThenRecord(setup: Setup, from: System, id: nat, before: seq<Move>, p: Progress, now: int)
    returns (moves: seq<Move>)
    requires Reached(setup, from, id, before, p) && p.request.phase.Answered? && p.clock <= now
    ensures Reached(setup, from, id, moves, Recorded(setup, p, p.request.phase.upstream, now))
  {
    moves := Then(setup, from, before, Record(id, now));
  }

  lemma ThenRelease(setup: Setup, from: System, id: nat, before: seq<Move>, p: Progress) returns (moves: seq<Move>)
    requires Reached(setup, from, id, before, p) && p.request.phase.Leaving? && !Blocks(p.slots, p.request.slotKey)
    ensures Reached(setup, from, id, moves, Released(p))
  {
    moves := Then(setup, from, before, Release(id));
  }
}
