/** Breakers over all interleavings of the request pipeline: each placement's breaker has seen
    exactly the calls made on behalf of requests routed to that placement. */
module PipelineBreakers {
  import opened ConfigModel
  import opened Circuit
  import opened Streaks
  import opened Registry
  import opened Pipeline
  import opened PipelineSafety

  // ---- breakers are what the log makes them --------------------------------------------------

  ghost predicate Timed(s: System) {
    && (forall i, j :: 0 <= i <= j < |s.log| ==> s.log[i].event.now <= s.log[j].event.now)
    && (forall i :: 0 <= i < |s.log| ==> s.log[i].event.now <= s.clock)
  }

  ghost predicate BreakersMatchLog(setup: Setup, s: System) {
    && (forall p :: At(s.breakers, p) == Run(setup.breaker, EventsOf(s.log, p)))
    && Sequential(setup.breaker, s.log)
    && Timed(s)
  }

  /** A call on the breaker of `key`, appended to the log, keeps every breaker in step with it. */
  lemma CallKeepsBreakers(setup: Setup, s: System, s': System, c: Call)
    requires BreakersMatchLog(setup, s)
    requires c.event.now >= s.clock && s'.clock == c.event.now
    requires c.answer == (c.event.Ask? ==> Allows(At(s.breakers, c.key), c.event.now))
    requires s'.log == s.log + [c]
    requires s'.breakers == s.breakers[c.key := Next(setup.breaker, At(s.breakers, c.key), c.event)]
    ensures BreakersMatchLog(setup, s')
  {
    SequentialSnoc(setup.breaker, s.log, c);
    forall p
      ensures At(s'.breakers, p) == Run(setup.breaker, EventsOf(s'.log, p))
    {
      EventsOfSnoc(s.log, c, p);
      if p == c.key {
        RunSnoc(setup.breaker, FRESH, EventsOf(s.log, p), c.event);
      } else {
        assert At(s'.breakers, p) == At(s.breakers, p);
        assert EventsOf(s'.log, p) == EventsOf(s.log, p);
      }
    }
  }

  /** The call a step makes on a breaker, if it makes one. */
  function CallOf(s: System, m: Move): seq<Call> {
    match m
    case Gate(id, now) =>
      if InPhase(s, id, SizeChecked) && now >= s.clock
      then
        var key := s.requests[id].decision.placementKey;
        [Call(id, key, Ask(now), Allows(At(s.breakers, key), now))]
      else []
    case Record(id, now) =>
      if id in s.requests && s.requests[id].phase.Answered? && now >= s.clock
      then [Call(id, s.requests[id].breakerKey, OutcomeEvent(s.requests[id].phase.upstream, now), true)]
      else []
    case _ => []
  }

  lemma {:induction false} GateKeepsBreakers(setup: Setup, s: System, id: nat, now: int)
    requires BreakersMatchLog(setup, s)
    ensures BreakersMatchLog(setup, AskBreaker(setup, s, id, now))
    ensures AskBreaker(setup, s, id, now).log == s.log + CallOf(s, Gate(id, now))
  {
    var calls := CallOf(s, Gate(id, now));
    if calls != [] {
      CallKeepsBreakers(setup, s, AskBreaker(setup, s, id, now), calls[0]);
    } else {
      assert s.log + [] == s.log;
    }
  }

  lemma {:induction false} RecordKeepsBreakers(setup: Setup, s: System, id: nat, now: int)
    requires BreakersMatchLog(setup, s)
    ensures BreakersMatchLog(setup, RecordOutcome(setup, s, id, now))
    ensures RecordOutcome(setup, s, id, now).log == s.log + CallOf(s, Record(id, now))
  {
    var calls := CallOf(s, Record(id, now));
    if calls != [] {
      CallKeepsBreakers(setup, s, RecordOutcome(setup, s, id, now), calls[0]);
    } else {
      assert s.log + [] == s.log;
    }
  }

  /** Nothing but those calls changes a breaker: a lookup for the response header creates at most a
      breaker in the initial state, which every later call would have found anyway. */
  lemma OthersKeepBreakers(setup: Setup, s: System, m: Move)
    requires !m.Gate? && !m.Record?
    ensures forall p :: At(Step(setup, s, m).breakers, p) == At(s.breakers, p)
    ensures Step(setup, s, m).log == s.log && Step(setup, s, m).clock == s.clock
  {
  }

  lemma {:induction false} StepKeepsBreakers(setup: Setup, s: System, m: Move)
    requires BreakersMatchLog(setup, s)
    ensures BreakersMatchLog(setup, Step(setup, s, m))
  {
    match m {
      case Gate(id, now) => GateKeepsBreakers(setup, s, id, now);
      case Record(id, now) => RecordKeepsBreakers(setup, s, id, now);
      case _ => OthersKeepBreakers(setup, s, m);
    }
  }

  /** In every reachable state each placement's breaker is a sequential breaker that has been given
      that placement's calls, in time order, and every answer so far is the one it gave. */
  lemma {:induction false} BreakersFollowTheirLogs(setup: Setup, initial: Config, moves: seq<Move>)
    ensures BreakersMatchLog(setup, Exec(setup, Start(setup, initial), moves))
  {
    if moves == [] {
    } else {
      var before := moves[..|moves| - 1];
      BreakersFollowTheirLogs(setup, initial, before);
      StepKeepsBreakers(setup, Exec(setup, Start(setup, initial), before), moves[|moves| - 1]);
    }
  }

  lemma {:induction false} EventsChronological(log: seq<Call>, p: string)
    requires forall i, j :: 0 <= i <= j < |log| ==> log[i].event.now <= log[j].event.now
    ensures Chronological(EventsOf(log, p))
    ensures forall e :: e in EventsOf(log, p) ==> log != [] && e.now <= log[|log| - 1].event.now
  {
    if log == [] {
    } else {
      EventsChronological(log[..|log| - 1], p);
    }
  }

  /** So what holds of one breaker over one run holds of every placement's breaker under load: its
      probes are more than a timeout apart, and while it is closed its counter is the trailing run
      of failures among the outcomes charged to that placement. */
  lemma {:induction false} EveryBreakerBehaves(setup: Setup, initial: Config, moves: seq<Move>, p: string)
    ensures var s := Exec(setup, Start(setup, initial), moves);
            var es := EventsOf(s.log, p);
            var probes := ProbeTimes(setup.breaker, es);
            && (forall i, j :: 0 <= i < j < |probes| ==> probes[j] - probes[i] > (j - i) * setup.breaker.timeout)
            && (At(s.breakers, p).state.Closed? ==>
                  LongestFailureTail(SinceClose(setup.breaker, es), At(s.breakers, p).failures))
  {
    var s := Exec(setup, Start(setup, initial), moves);
    var es := EventsOf(s.log, p);
    var probes := ProbeTimes(setup.breaker, es);
    BreakersFollowTheirLogs(setup, initial, moves);
    EventsChronological(s.log, p);
    forall i, j | 0 <= i < j < |probes|
      ensures probes[j] - probes[i] > (j - i) * setup.breaker.timeout
    {
      ProbeSpacing(setup.breaker, es, i, j);
    }
    if At(s.breakers, p).state.Closed? {
      ClosedCountsTrailingFailures(setup.breaker, es);
    }
  }

  // ---- who is charged for what ---------------------------------------------------------------

  /** The calls made on behalf of one request. */
  function CallsBy(log: seq<Call>, id: nat): seq<Call> {
    if log == [] then []
    else
      CallsBy(log[..|log| - 1], id) + if log[|log| - 1].who == id then [log[|log| - 1]] else []
  }

  lemma CallsBySnoc(log: seq<Call>, c: Call, id: nat)
    ensures CallsBy(log + [c], id) == CallsBy(log, id) + if c.who == id then [c] else []
  {
    assert (log + [c])[..|log|] == log;
  }

  predicate AskedOrigin(r: Request, calls: seq<Call>) {
    |calls| >= 1 && calls[0].event.Ask? && calls[0].key == r.origin
  }

  /** The outcome charged is the upstream's: a failure exactly when the call failed or returned 5xx. */
  predicate ChargedOrigin(r: Request, u: Upstream, calls: seq<Call>) {
    && |calls| == 2 && !calls[1].event.Ask? && calls[1].key == r.origin
    && (calls[1].event.Failed? <==> u.NoResponse? || u.copyFailed || u.status >= 500)
  }

  /** What a request has done to breakers so far, given how far it has come. */
  predicate Accounted(r: Request, calls: seq<Call>) {
    match r.phase
    case Arrived | Routed | Admitted | SizeChecked => calls == []
    case Gated | Forwarding | Answered(_) => AskedOrigin(r, calls) && |calls| == 1
    case Leaving(e) => Settled(r, e, calls)
    case Finished(e) => Settled(r, e, calls)
  }

  predicate Settled(r: Request, e: Exit, calls: seq<Call>) {
    match e
    case CircuitOpen => AskedOrigin(r, calls) && |calls| == 1 && !calls[0].answer
    case Proxied(u) => AskedOrigin(r, calls) && ChargedOrigin(r, u, calls)
    case _ => calls == []
  }

  ghost predicate AllAccounted(s: System) {
    && (forall id :: id in s.requests ==> Accounted(s.requests[id], CallsBy(s.log, id)))
    && (forall id :: id !in s.requests ==> CallsBy(s.log, id) == [])
  }

  lemma FrontAccounted(setup: Setup, s: System, m: Move)
    requires m.Arrive? || m.Decide? || m.Acquire? || m.CheckSize?
    requires m.id in s.requests && Accounted(s.requests[m.id], CallsBy(s.log, m.id))
    ensures Accounted(Step(setup, s, m).requests[m.id], CallsBy(s.log, m.id))
  {
  }

  lemma BackAccounted(setup: Setup, s: System, m: Move)
    requires m.CheckHealth? || m.Return? || m.Release?
    requires m.id in s.requests && Accounted(s.requests[m.id], CallsBy(s.log, m.id))
    ensures Accounted(Step(setup, s, m).requests[m.id], CallsBy(s.log, m.id))
  {
  }

  /** The keys a step can charge are the mover's origin. */
  lemma CallerAccounted(setup: Setup, s: System, m: Move)
    requires m.Gate? || m.Record?
    requires m.id in s.requests && RequestOk(setup.config, s.requests[m.id])
    requires Accounted(s.requests[m.id], CallsBy(s.log, m.id))
    ensures Accounted(Step(setup, s, m).requests[m.id], CallsBy(s.log, m.id) + CallOf(s, m))
  {
    assert CallsBy(s.log, m.id) + [] == CallsBy(s.log, m.id);
  }

  lemma LoggedCallsBy(log: seq<Call>, calls: seq<Call>, id: nat, i: nat)
    requires |calls| <= 1 && forall c :: c in calls ==> c.who == id
    ensures CallsBy(log + calls, i) == if i == id then CallsBy(log, i) + calls else CallsBy(log, i)
  {
    if calls != [] {
      assert calls == [calls[0]];
      CallsBySnoc(log, calls[0], i);
      assert i != id ==> CallsBy(log, i) + [] == CallsBy(log, i);
    } else {
      assert log + calls == log && CallsBy(log, i) + calls == CallsBy(log, i);
    }
  }

  lemma {:induction false} AccountsCarryOver(s: System, s': System, id: nat, calls: seq<Call>)
    requires AllAccounted(s)
    requires |calls| <= 1 && forall c :: c in calls ==> c.who == id
    requires s'.log == s.log + calls
    requires id in s'.requests && s'.requests == s.requests[id := s'.requests[id]]
    requires Accounted(s'.requests[id], CallsBy(s.log, id) + calls)
    ensures AllAccounted(s')
  {
    forall i: nat
      ensures CallsBy(s'.log, i) == if i == id then CallsBy(s.log, i) + calls else CallsBy(s.log, i)
    {
      LoggedCallsBy(s.log, calls, id, i);
    }
  }

  /** What a step changes: the request it names, and the log by the call it makes. */
  lemma StepChanges(setup: Setup, s: System, m: Move)
    ensures Step(setup, s, m).log == s.log + CallOf(s, m)
    ensures m.Publish? ==> Step(setup, s, m).requests == s.requests
    ensures !m.Publish? && m.id !in s.requests && !m.Arrive? ==> Step(setup, s, m) == s
    ensures !m.Publish? && (m.id in s.requests || m.Arrive?) ==>
              && m.id in Step(setup, s, m).requests
              && Step(setup, s, m).requests == s.requests[m.id := Step(setup, s, m).requests[m.id]]
    ensures forall c :: c in CallOf(s, m) ==> !m.Publish? && c.who == m.id
    ensures m.Arrive? && m.id !in s.requests ==>
              Step(setup, s, m).requests[m.id] == NewRequest(m.key, m.length) && CallOf(s, m) == []
  {
    assert s.log + [] == s.log;
  }

  lemma {:induction false} StepAccounts(setup: Setup, s: System, m: Move)
    requires RequestsOk(setup, s) && AllAccounted(s)
    ensures AllAccounted(Step(setup, s, m))
  {
    StepChanges(setup, s, m);
    if !m.Publish? && m.id in s.requests {
      if m.Gate? || m.Record? {
        CallerAccounted(setup, s, m);
      } else {
        if m.CheckHealth? || m.Return? || m.Release? {
          BackAccounted(setup, s, m);
        } else {
          FrontAccounted(setup, s, m);
        }
        assert CallsBy(s.log, m.id) + [] == CallsBy(s.log, m.id);
      }
      AccountsCarryOver(s, Step(setup, s, m), m.id, CallOf(s, m));
    } else if m.Arrive? {
      AccountsCarryOver(s, Step(setup, s, m), m.id, []);
    }
  }

  /** In every reachable state every request has been accounted for: it has asked only the breaker of
      the placement it was routed to, once, and charged it with its own outcome, once, if and only
      if it was proxied, wherever failover sent it; requests ending in 400, 500, 429, 413 or an
      open-circuit 503 have recorded nothing. */
  lemma {:induction false} OutcomeAttribution(setup: Setup, initial: Config, moves: seq<Move>)
    ensures AllAccounted(Exec(setup, Start(setup, initial), moves))
  {
    if moves == [] {
    } else {
      var before := moves[..|moves| - 1];
      OutcomeAttribution(setup, initial, before);
      FailoverBounded(setup, initial, before);
      StepAccounts(setup, Exec(setup, Start(setup, initial), before), moves[|moves| - 1]);
    }
  }

  // ---- totals --------------------------------------------------------------------------------

  predicate ChargedTo(r: Request, p: string) {
    r.origin == p && (r.phase.Leaving? || r.phase.Finished?) && r.phase.exit.Proxied?
  }

  /** The requests routed to `p` whose upstream call is over and recorded. */
  function Charged(s: System, p: string): set<nat> {
    set id | id in s.requests && ChargedTo(s.requests[id], p)
  }

  lemma RecordCharges(setup: Setup, s: System, id: nat, now: int, p: string)
    requires id in s.requests && s.requests[id].phase.Answered? && now >= s.clock
    ensures var s' := RecordOutcome(setup, s, id, now);
            |Charged(s', p)| == |Charged(s, p)| + if s.requests[id].origin == p then 1 else 0
  {
    var s' := RecordOutcome(setup, s, id, now);
    assert id !in Charged(s, p);
    assert Charged(s', p) == if s.requests[id].origin == p then Charged(s, p) + {id} else Charged(s, p);
  }

  lemma ChargedSame(s: System, s': System, id: nat, p: string)
    requires s'.requests == s.requests
             || (id in s'.requests && s'.requests == s.requests[id := s'.requests[id]]
                 && (ChargedTo(s'.requests[id], p) <==> id in s.requests && ChargedTo(s.requests[id], p)))
    ensures Charged(s', p) == Charged(s, p)
  {
  }

  lemma FrontChargesNothing(setup: Setup, s: System, m: Move, p: string)
    requires m.Publish? || m.Arrive? || m.Decide? || m.Acquire? || m.CheckSize?
    ensures Charged(Step(setup, s, m), p) == Charged(s, p)
  {
    ChargedSame(s, Step(setup, s, m), if m.Publish? then 0 else m.id, p);
  }

  lemma BackChargesNothing(setup: Setup, s: System, m: Move, p: string)
    requires m.Gate? || m.CheckHealth? || m.Return? || m.Release? || (m.Record? && CallOf(s, m) == [])
    ensures Charged(Step(setup, s, m), p) == Charged(s, p)
  {
    ChargedSame(s, Step(setup, s, m), m.id, p);
  }

  lemma LoggedOutcomes(log: seq<Call>, calls: seq<Call>, p: string)
    requires |calls| <= 1
    ensures |Outcomes(EventsOf(log + calls, p))| == |Outcomes(EventsOf(log, p))| +
                if calls != [] && calls[0].key == p && !calls[0].event.Ask? then 1 else 0
  {
    if calls != [] {
      assert calls == [calls[0]];
      EventsOfSnoc(log, calls[0], p);
      if calls[0].key == p {
        OutcomesSnoc(EventsOf(log, p), calls[0].event);
      } else {
        assert EventsOf(log + calls, p) == EventsOf(log, p);
      }
    } else {
      assert log + calls == log;
    }
  }

  lemma StepKeepsTotals(setup: Setup, s: System, m: Move, p: string)
    requires RequestsOk(setup, s)
    requires |Outcomes(EventsOf(s.log, p))| == |Charged(s, p)|
    ensures |Outcomes(EventsOf(Step(setup, s, m).log, p))| == |Charged(Step(setup, s, m), p)|
  {
    StepChanges(setup, s, m);
    LoggedOutcomes(s.log, CallOf(s, m), p);
    if m.Record? && CallOf(s, m) != [] {
      assert RequestOk(setup.config, s.requests[m.id]);
      RecordCharges(setup, s, m.id, m.now, p);
    } else if m.Gate? || m.CheckHealth? || m.Return? || m.Release? || m.Record? {
      BackChargesNothing(setup, s, m, p);
    } else {
      FrontChargesNothing(setup, s, m, p);
    }
  }

  /** Each breaker's recorded outcomes are as many as the proxied requests routed to its placement. */
  lemma {:induction false} OneOutcomePerProxiedRequest(setup: Setup, initial: Config, moves: seq<Move>,
                                                       p: string)
    ensures var s := Exec(setup, Start(setup, initial), moves);
            |Outcomes(EventsOf(s.log, p))| == |Charged(s, p)|
  {
    if moves == [] {
      assert Charged(Start(setup, initial), p) == {};
    } else {
      var before := moves[..|moves| - 1];
      OneOutcomePerProxiedRequest(setup, initial, before, p);
      FailoverBounded(setup, initial, before);
      StepKeepsTotals(setup, Exec(setup, Start(setup, initial), before), moves[|moves| - 1], p);
    }
  }

  // ---- only failures open a breaker ----------------------------------------------------------

  /** Every recorded answer to a request routed to `p` came back complete and below 500. */
  ghost predicate AnswersWell(s: System, p: string) {
    forall id :: id in s.requests && ChargedTo(s.requests[id], p) ==>
      var u := s.requests[id].phase.exit.upstream;
      u.Response? && !u.copyFailed && u.status < 500
  }

  lemma {:induction false} CallIsItsCallers(log: seq<Call>, i: nat)
    requires i < |log|
    ensures log[i] in CallsBy(log, log[i].who)
  {
    if i == |log| - 1 {
    } else {
      CallIsItsCallers(log[..|log| - 1], i);
    }
  }

  lemma {:induction false} EventHasCall(log: seq<Call>, p: string, e: Event) returns (i: nat)
    requires e in EventsOf(log, p)
    ensures i < |log| && log[i].key == p && log[i].event == e
  {
    if log[|log| - 1].key == p && log[|log| - 1].event == e {
      i := |log| - 1;
    } else {
      i := EventHasCall(log[..|log| - 1], p, e);
    }
  }

  lemma {:induction false} GoodAnswersRecordNoFailure(s: System, p: string, c: Call)
    requires AllAccounted(s) && AnswersWell(s, p)
    requires c in CallsBy(s.log, c.who) && c.key == p
    ensures !c.event.Failed?
  {
    assert Accounted(s.requests[c.who], CallsBy(s.log, c.who));
  }

  /** A placement that answers completely and below 500 keeps its breaker closed, with nothing counted
      against it, over every run, however many 4xx are among the answers, wherever failover sent the
      requests, and whatever other placements do. */
  lemma {:induction false} GoodAnswersStayClosed(setup: Setup, initial: Config, moves: seq<Move>, p: string)
    requires AnswersWell(Exec(setup, Start(setup, initial), moves), p)
    ensures var b := At(Exec(setup, Start(setup, initial), moves).breakers, p); b.state.Closed? && b.failures == 0
  {
    var s := Exec(setup, Start(setup, initial), moves);
    OutcomeAttribution(setup, initial, moves);
    BreakersFollowTheirLogs(setup, initial, moves);
    forall e | e in EventsOf(s.log, p)
      ensures !e.Failed?
    {
      var i := EventHasCall(s.log, p, e);
      CallIsItsCallers(s.log, i);
      GoodAnswersRecordNoFailure(s, p, s.log[i]);
    }
    NoFailureStaysClosed(setup.breaker, EventsOf(s.log, p));
  }
}
