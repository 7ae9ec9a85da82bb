/** Half-open under load: how many requests it lets through, and whose outcome ends it. */
module PipelineProbes {
  import opened ConfigModel
  import opened Routing
  import opened Wrappers
  import opened Circuit
  import opened Registry
  import opened Limits
  import opened Pipeline
  import opened PipelineSafety
  import opened PipelineSlots
  import opened PipelineBreakers
  import opened PipelineRuns
  import opened Solo

  // ---- the probe is out while the breaker is half-open ---------------------------------------

  /** The request whose question last took the breaker of `p` from open to half-open. */
  function ProbeOf(settings: Settings, log: seq<Call>, p: string): nat {
    if log == [] then 0
    else
      var before, last := log[..|log| - 1], log[|log| - 1];
      if last.key == p && Run(settings, EventsOf(before, p)).state.Open?
         && Run(settings, EventsOf(log, p)).state.HalfOpen?
      then last.who
      else ProbeOf(settings, before, p)
  }

  /** The request was let through by `p`'s breaker and has not recorded its outcome. */
  predicate AwaitsOutcome(s: System, p: string, id: nat) {
    id in s.requests && s.requests[id].origin == p &&
    (s.requests[id].phase.Gated? || s.requests[id].phase.Forwarding? || s.requests[id].phase.Answered?)
  }

  ghost predicate ProbesOut(setup: Setup, s: System) {
    forall p :: At(s.breakers, p).state.HalfOpen? ==> AwaitsOutcome(s, p, ProbeOf(setup.breaker, s.log, p))
  }

  lemma {:induction false} ProbeSnoc(settings: Settings, log: seq<Call>, c: Call, p: string)
    ensures ProbeOf(settings, log + [c], p) ==
            if c.key == p && Run(settings, EventsOf(log, p)).state.Open?
               && Run(settings, EventsOf(log + [c], p)).state.HalfOpen?
            then c.who else ProbeOf(settings, log, p)
  {
    assert (log + [c])[..|log|] == log;
  }

  lemma {:induction false} GateKeepsProbes(setup: Setup, s: System, id: nat, now: int, p: string)
    requires InPhase(s, id, SizeChecked) && now >= s.clock && RequestOk(setup.config, s.requests[id])
    requires BreakersMatchLog(setup, s) && BreakersMatchLog(setup, AskBreaker(setup, s, id, now))
    requires At(s.breakers, p).state.HalfOpen? ==> AwaitsOutcome(s, p, ProbeOf(setup.breaker, s.log, p))
    requires At(AskBreaker(setup, s, id, now).breakers, p).state.HalfOpen?
    ensures var t := AskBreaker(setup, s, id, now); AwaitsOutcome(t, p, ProbeOf(setup.breaker, t.log, p))
  {
    var key := s.requests[id].decision.placementKey;
    ProbeSnoc(setup.breaker, s.log, Call(id, key, Ask(now), Allows(At(s.breakers, key), now)), p);
  }

  lemma {:induction false} RecordKeepsProbes(setup: Setup, s: System, id: nat, now: int, p: string)
    requires id in s.requests && s.requests[id].phase.Answered? && now >= s.clock
    requires RequestOk(setup.config, s.requests[id])
    requires At(s.breakers, p).state.HalfOpen? ==> AwaitsOutcome(s, p, ProbeOf(setup.breaker, s.log, p))
    requires At(RecordOutcome(setup, s, id, now).breakers, p).state.HalfOpen?
    ensures var t := RecordOutcome(setup, s, id, now); AwaitsOutcome(t, p, ProbeOf(setup.breaker, t.log, p))
  {
    var r := s.requests[id];
    assert p != r.breakerKey && r.breakerKey == r.origin;
    ProbeSnoc(setup.breaker, s.log, Call(id, r.breakerKey, OutcomeEvent(r.phase.upstream, now), true), p);
  }

  lemma {:induction false} OthersKeepAwaiting(setup: Setup, s: System, m: Move, p: string, id: nat)
    requires !m.Gate? && !m.Record? && AwaitsOutcome(s, p, id)
    ensures AwaitsOutcome(Step(setup, s, m), p, id)
  {
  }

  lemma {:induction false} StepKeepsProbes(setup: Setup, s: System, m: Move)
    requires RequestsOk(setup, s) && BreakersMatchLog(setup, s) && ProbesOut(setup, s)
    ensures ProbesOut(setup, Step(setup, s, m))
  {
    forall p | At(Step(setup, s, m).breakers, p).state.HalfOpen?
      ensures AwaitsOutcome(Step(setup, s, m), p, ProbeOf(setup.breaker, Step(setup, s, m).log, p))
    {
      match m {
        case Gate(id, now) =>
          GateKeepsBreakers(setup, s, id, now);
          if InPhase(s, id, SizeChecked) && now >= s.clock {
            GateKeepsProbes(setup, s, id, now, p);
          }
        case Record(id, now) =>
          if id in s.requests && s.requests[id].phase.Answered? && now >= s.clock {
            RecordKeepsProbes(setup, s, id, now, p);
          }
        case _ =>
          OthersKeepBreakers(setup, s, m);
          OthersKeepAwaiting(setup, s, m, p, ProbeOf(setup.breaker, s.log, p));
      }
    }
  }

  /** In every reachable state a half-open breaker's probe has been let through and its outcome is not
      recorded: half-open lasts exactly as long as no outcome is. */
  lemma {:induction false} ProbeStaysOut(setup: Setup, initial: Config, moves: seq<Move>)
    ensures ProbesOut(setup, Exec(setup, Start(setup, initial), moves))
  {
    if moves == [] {
    } else {
      var before := moves[..|moves| - 1];
      ProbeStaysOut(setup, initial, before);
      FailoverBounded(setup, initial, before);
      BreakersFollowTheirLogs(setup, initial, before);
      StepKeepsProbes(setup, Exec(setup, Start(setup, initial), before), moves[|moves| - 1]);
    }
  }

  // ---- a second probe, a stranger's outcome --------------------------------------------------

  /** The move lets another request past `p`'s breaker while a probe is out. */
  ghost predicate LetsSecondThrough(s: System, m: Move, p: string) {
    && m.Gate? && InPhase(s, m.id, SizeChecked) && m.now >= s.clock
    && s.requests[m.id].decision.placementKey == p && At(s.breakers, p).state.HalfOpen?
  }

  /** The move ends `p`'s half-open period with the outcome of a request that is not its probe. */
  ghost predicate StrangerDecides(settings: Settings, s: System, m: Move, p: string) {
    && m.Record? && m.id in s.requests && s.requests[m.id].phase.Answered? && m.now >= s.clock
    && s.requests[m.id].breakerKey == p && At(s.breakers, p).state.HalfOpen?
    && m.id != ProbeOf(settings, s.log, p)
  }

  /** `p` has a concurrency limit of one. */
  predicate OneSlot(c: Config, p: string) {
    p in Endpoints(c) && p in c.placements && c.placements[p].concurrencyLimit == 1
  }

  lemma TwoHolders(s: System, p: string, i: nat, j: nat)
    requires i != j && i in Holders(s, p) && j in Holders(s, p)
    ensures |Holders(s, p)| >= 2
  {
    CardinalityOfSubset({i, j}, Holders(s, p));
  }

  lemma {:induction false} HolderIsProbe(setup: Setup, s: System, p: string, id: nat)
    requires ProbesOut(setup, s) && At(s.breakers, p).state.HalfOpen?
    requires OneSlot(setup.config, p) && p in s.slots && SlotConserved(setup, s, p) && id in Holders(s, p)
    ensures id == ProbeOf(setup.breaker, s.log, p) && AwaitsOutcome(s, p, id)
  {
    var probe := ProbeOf(setup.breaker, s.log, p);
    assert AwaitsOutcome(s, p, probe) && probe in Holders(s, p);
    if id != probe {
      TwoHolders(s, p, id, probe);
    }
  }

  /** With one slot there is one probe at a time and its outcome decides, whatever the router's config
      does meanwhile: the slot is released only after the outcome is recorded. */
  lemma {:induction false} OneSlotOneProbe(setup: Setup, initial: Config, moves: seq<Move>, m: Move, p: string)
    requires OneSlot(setup.config, p)
    ensures !LetsSecondThrough(Exec(setup, Start(setup, initial), moves), m, p)
    ensures !StrangerDecides(setup.breaker, Exec(setup, Start(setup, initial), moves), m, p)
  {
    var s := Exec(setup, Start(setup, initial), moves);
    ProbeStaysOut(setup, initial, moves);
    FailoverBounded(setup, initial, moves);
    SlotConservation(setup, initial, moves);
    assert p in s.slots && SlotConserved(setup, s, p);
    if LetsSecondThrough(s, m, p) || StrangerDecides(setup.breaker, s, m, p) {
      assert RequestOk(setup.config, s.requests[m.id]);
      HolderIsProbe(setup, s, p, m.id);
    }
  }

  /** In no run over router config `r` is a second request let through while a probe is out. */
  ghost predicate SingleProbe(setup: Setup, r: Config, p: string) {
    forall moves, m :: NoPublish(moves) ==> !LetsSecondThrough(Exec(setup, Start(setup, r), moves), m, p)
  }

  /** In every run over router config `r` it is the probe's own outcome that ends half-open. */
  ghost predicate ProbeDecides(setup: Setup, r: Config, p: string) {
    forall moves, m :: NoPublish(moves) ==> !StrangerDecides(setup.breaker, Exec(setup, Start(setup, r), moves), m, p)
  }

  // ---- runs that go wrong with more slots ----------------------------------------------------

  /** The request numbered `id` asks `p`'s open breaker after its retry time. */
  lemma {:induction false} AskLate(setup: Setup, from: System, id: nat, p: string) returns (m: Move)
    requires InPhase(from, id, SizeChecked) && from.requests[id].decision.placementKey == p
    requires At(from.breakers, p).state.Open? && from.clock <= At(from.breakers, p).nextRetryTime
    ensures !m.Publish?
    ensures var t := Step(setup, from, m);
            && At(t.breakers, p).state.HalfOpen? && id in t.requests
            && t.requests == from.requests[id := t.requests[id]]
            && t.log == from.log + [Call(id, p, Ask(t.clock), true)]
  {
    m := Gate(id, At(from.breakers, p).nextRetryTime + 1);
  }

  lemma {:induction false} TwoAtTheGate(setup: Setup, from: System, next: nat, r: Config, key: string,
                                        d: RoutingDecision)
    returns (moves: seq<Move>)
    requires Below(from, next) && from.published == [r]
    requires key != "" && Route(LoaderReads(r, r, r), key) == Success(d)
    requires d.placementKey in from.slots ==>
               from.slots[d.placementKey].taken + 2 <= from.slots[d.placementKey].capacity
    ensures NoPublish(moves)
    ensures var t := Exec(setup, from, moves);
            && t.breakers == from.breakers && t.clock == from.clock
            && (forall id :: id in {next, next + 1} ==>
                  InPhase(t, id, SizeChecked) && t.requests[id].decision.placementKey == d.placementKey)
  {
    moves := RunToGate(setup, from, next, r, key, d);
    var more := RunToGate(setup, Exec(setup, from, moves), next + 1, r, key, d);
    ExecConcat(setup, from, moves, more);
    moves := moves + more;
  }

  lemma {:induction false} SecondProbe(setup: Setup, r: Config, p: string, key: string)
    requires setup.breaker.timeout >= 0 && Sends(r, key, p) && !OneSlot(setup.config, p)
    ensures !SingleProbe(setup, r, p)
  {
    var start, d := Start(setup, r), Route(LoaderReads(r, r, r), key).value;
    var opening, next := Trip(setup, start, 0, r, key, d);
    var open := Exec(setup, start, opening);
    var pair := TwoAtTheGate(setup, open, next, r, key, d);
    var waiting := Exec(setup, open, pair);
    ExecConcat(setup, start, opening, pair);
    var ask := AskLate(setup, waiting, next, p);
    var moves := Then(setup, start, opening + pair, ask);
    var s := Exec(setup, start, moves);
    assert NoPublish(moves) && LetsSecondThrough(s, Gate(next + 1, s.clock), p);
  }

  /** A request let through while the breaker was closed, and not answered yet. */
  lemma {:induction false} LetThrough(setup: Setup, from: System, id: nat, r: Config, key: string, d: RoutingDecision)
    returns (moves: seq<Move>, end: Progress)
    requires id !in from.requests && from.published == [r]
    requires key != "" && Route(LoaderReads(r, r, r), key) == Success(d)
    requires CanAcquire(from.slots, d.placementKey) && At(from.breakers, d.placementKey).state.Closed?
    ensures Reached(setup, from, id, moves, end)
    ensures end.request.phase == Answered(NoResponse) && end.request.breakerKey == d.placementKey
    ensures end.slots == AfterAcquire(from.slots, d.placementKey) && end.clock == from.clock
    ensures SameBreakers(end.breakers, from.breakers)
  {
    var gate := AtGate(from, key, d);
    moves := RunToGate(setup, from, id, r, key, d);
    moves := ThenGate(setup, from, id, moves, gate, from.clock);
    var asked := Asked(setup, gate, from.clock);
    moves := ThenHealth(setup, from, id, moves, asked, true);
    moves := ThenReturn(setup, from, id, moves, Checked(setup.config, asked, true), NoResponse);
    end := Returned(Checked(setup.config, asked, true), NoResponse);
  }

  lemma {:induction false} LateOutcomeWaits(setup: Setup, r: Config, key: string, d: RoutingDecision)
    returns (moves: seq<Move>, next: nat)
    requires setup.breaker.timeout >= 0 && key != "" && Route(LoaderReads(r, r, r), key) == Success(d)
    requires !OneSlot(setup.config, d.placementKey)
    ensures NoPublish(moves)
    ensures var p, s := d.placementKey, Exec(setup, Start(setup, r), moves);
            && Below(s, next) && s.published == [r] && CanAcquire(s.slots, p)
            && At(s.breakers, p).state.Open? && s.clock <= At(s.breakers, p).nextRetryTime
            && 0 in s.requests && s.requests[0].phase.Answered? && s.requests[0].breakerKey == p
  {
    var start := Start(setup, r);
    var late, end := LetThrough(setup, start, 0, r, key, d);
    var rest;
    rest, next := Trip(setup, Exec(setup, start, late), 1, r, key, d);
    ExecConcat(setup, start, late, rest);
    moves := late + rest;
  }

  lemma {:induction false} StrangersOutcome(setup: Setup, r: Config, p: string, key: string)
    requires setup.breaker.timeout >= 0 && Sends(r, key, p) && !OneSlot(setup.config, p)
    ensures !ProbeDecides(setup, r, p)
  {
    var start, d := Start(setup, r), Route(LoaderReads(r, r, r), key).value;
    var opening, next := LateOutcomeWaits(setup, r, key, d);
    var open := Exec(setup, start, opening);
    var arriving := RunToGate(setup, open, next, r, key, d);
    ExecConcat(setup, start, opening, arriving);
    var waiting := Exec(setup, start, opening + arriving);
    var ask := AskLate(setup, waiting, next, p);
    var moves := Then(setup, start, opening + arriving, ask);
    var s := Exec(setup, start, moves);
    BreakersFollowTheirLogs(setup, r, opening + arriving);
    BreakersFollowTheirLogs(setup, r, moves);
    ProbeSnoc(setup.breaker, waiting.log, Call(next, p, Ask(s.clock), true), p);
    assert NoPublish(moves) && StrangerDecides(setup.breaker, s, Record(0, s.clock), p);
  }

  // ---- the exact condition -------------------------------------------------------------------

  /** Half-open lets a single request through, and that request's outcome decides, in all runs, exactly
      when the placement has a concurrency limit of one. */
  lemma {:induction false} SingleProbeIff(setup: Setup, r: Config, p: string)
    requires setup.breaker.timeout >= 0 && exists key :: Sends(r, key, p)
    ensures SingleProbe(setup, r, p) <==> OneSlot(setup.config, p)
    ensures ProbeDecides(setup, r, p) <==> OneSlot(setup.config, p)
  {
    if OneSlot(setup.config, p) {
      forall moves, m | NoPublish(moves)
        ensures !LetsSecondThrough(Exec(setup, Start(setup, r), moves), m, p)
        ensures !StrangerDecides(setup.breaker, Exec(setup, Start(setup, r), moves), m, p)
      {
        OneSlotOneProbe(setup, r, moves, m, p);
      }
    } else {
      var key :| Sends(r, key, p);
      SecondProbe(setup, r, p, key);
      StrangersOutcome(setup, r, p, key);
    }
  }
}
