/** Runs of the request pipeline with one router config, built up request by request. */
module PipelineRuns {
  import opened ConfigModel
  import opened Routing
  import opened Wrappers
  import opened Circuit
  import opened Registry
  import opened Limits
  import opened Pipeline
  import opened PipelineSafety
  import opened Solo

  /** With router config `r`, `key` is routed to `p`. */
  predicate Sends(r: Config, key: string, p: string) {
    && key != ""
    && var d := Route(LoaderReads(r, r, r), key);
       d.Success? && d.value.placementKey == p
  }

  ghost predicate NoPublish(moves: seq<Move>) {
    forall m :: m in moves ==> !m.Publish?
  }

  /** All requests so far have numbers below `next`. */
  ghost predicate Below(s: System, next: nat) {
    forall id :: id in s.requests ==> id < next
  }

  ghost predicate SameBreakers(a: map<string, Core>, b: map<string, Core>) {
    forall k :: At(a, k) == At(b, k)
  }

  lemma {:induction false} PublishedFixed(setup: Setup, r: Config, moves: seq<Move>)
    requires NoPublish(moves)
    ensures Exec(setup, Start(setup, r), moves).published == [r]
  {
    if moves == [] {
    } else {
      PublishedFixed(setup, r, moves[..|moves| - 1]);
      OnlyPublishPublishes(setup, Exec(setup, Start(setup, r), moves[..|moves| - 1]), moves[|moves| - 1]);
    }
  }

  // ---- one request to the gate ---------------------------------------------------------------

  /** A bodyless request up to the gate. */
  function AtGate(from: System, key: string, d: RoutingDecision): Progress {
    var p := d.placementKey;
    Progress(Request(key, 0, p, p, "", d, NoFailover, SizeChecked), from.breakers,
             AfterAcquire(from.slots, p), from.clock)
  }

  lemma RunToGate(setup: Setup, from: System, id: nat, r: Config, key: string, d: RoutingDecision)
    returns (moves: seq<Move>)
    requires id !in from.requests && from.published == [r]
    requires key != "" && Route(LoaderReads(r, r, r), key) == Success(d)
    requires CanAcquire(from.slots, d.placementKey)
    ensures Reached(setup, from, id, moves, AtGate(from, key, d))
  {
    var arrived := Progress(NewRequest(key, 0), from.breakers, from.slots, from.clock);
    moves := ThenArrive(setup, from, id, key, 0);
    moves := ThenDecide(setup, from, id, moves, arrived, 0, 0, 0);
    var decided := Decided(arrived, LoaderReads(r, r, r));
    moves := ThenAcquire(setup, from, id, moves, decided);
    moves := ThenSize(setup, from, id, moves, Acquired(decided));
  }

  // ---- opening a breaker ---------------------------------------------------------------------

  /** One request to `p` that is proxied and gets no response. */
  lemma Fail(setup: Setup, from: System, id: nat, r: Config, key: string, d: RoutingDecision)
    returns (moves: seq<Move>, end: Progress)
    requires id !in from.requests && from.published == [r]
    requires key != "" && Route(LoaderReads(r, r, r), key) == Success(d)
    requires CanAcquire(from.slots, d.placementKey) && At(from.breakers, d.placementKey).state.Closed?
    ensures Reached(setup, from, id, moves, end) && end.request.phase.Finished?
    ensures end.slots == from.slots && end.clock == from.clock
    ensures At(end.breakers, d.placementKey) ==
            Next(setup.breaker, At(from.breakers, d.placementKey), Failed(from.clock))
    ensures forall k :: k != d.placementKey ==> At(end.breakers, k) == At(from.breakers, k)
  {
    var gate := AtGate(from, key, d);
    moves := RunToGate(setup, from, id, r, key, d);
    moves := ThenGate(setup, from, id, moves, gate, from.clock);
    var asked := Asked(setup, gate, from.clock);
    moves := ThenHealth(setup, from, id, moves, asked, true);
    var checked := Checked(setup.config, asked, true);
    moves := ThenReturn(setup, from, id, moves, checked, NoResponse);
    moves := ThenRecord(setup, from, id, moves, Returned(checked, NoResponse), from.clock);
    var recorded := Recorded(setup, Returned(checked, NoResponse), NoResponse, from.clock);
    ReleaseUndoesAcquire(from.slots, d.placementKey);
    moves := ThenRelease(setup, from, id, moves, recorded);
    end := Released(recorded);
  }

  /** The requests are as before, but for new ones that have finished. */
  ghost predicate OnlyFinishedNew(from: System, to: System) {
    && (forall id :: id in from.requests ==> id in to.requests && to.requests[id] == from.requests[id])
    && (forall id :: id in to.requests && id !in from.requests ==> to.requests[id].phase.Finished?)
  }

  /** What opening `p`'s breaker changes. */
  ghost predicate Tripped(from: System, to: System, p: string, next: nat) {
    && to.published == from.published && to.clock == from.clock && to.slots == from.slots
    && Below(to, next)
    && OnlyFinishedNew(from, to)
    && At(to.breakers, p).state.Open? && to.clock <= At(to.breakers, p).nextRetryTime
    && (forall k :: k != p ==> At(to.breakers, k) == At(from.breakers, k))
  }

  /** Enough failures open a closed breaker. */
  lemma {:induction false} Trip(setup: Setup, from: System, next: nat, r: Config, key: string, d: RoutingDecision)
    returns (moves: seq<Move>, next': nat)
    requires Below(from, next) && from.published == [r] && setup.breaker.timeout >= 0
    requires key != "" && Route(LoaderReads(r, r, r), key) == Success(d)
    requires CanAcquire(from.slots, d.placementKey)
    requires At(from.breakers, d.placementKey).state.Closed?
    requires var f := At(from.breakers, d.placementKey).failures; f == 0 || f < setup.breaker.failureThreshold
    ensures NoPublish(moves) && Tripped(from, Exec(setup, from, moves), d.placementKey, next')
    decreases setup.breaker.failureThreshold - At(from.breakers, d.placementKey).failures
  {
    var p := d.placementKey;
    var one, end := Fail(setup, from, next, r, key, d);
    var mid := Exec(setup, from, one);
    moves, next' := one, next + 1;
    if At(mid.breakers, p).state.Closed? {
      var rest;
      rest, next' := Trip(setup, mid, next + 1, r, key, d);
      ExecConcat(setup, from, one, rest);
      moves := one + rest;
    }
  }
}
