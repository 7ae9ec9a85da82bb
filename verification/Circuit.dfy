/** The circuit breaker (internal/circuit/breaker.go): its transition function, the class that
    implements it in place, and what holds over whole runs. Times are nanoseconds. */
module Circuit {
  import opened Streaks

  const U32: nat := 0x1_0000_0000

  type uint32 = n: nat | n < U32

  datatype State = Closed | Open | HalfOpen

  datatype Settings = Settings(failureThreshold: uint32, timeout: int)

  /** What the breaker's answers depend on. */
  datatype Core = Core(state: State, failures: nat, nextRetryTime: int)

  /** One locked call, with the clock reading it would take. */
  datatype Event = Ask(now: int) | Succeeded(now: int) | Failed(now: int)

  const FRESH: Core := Core(Closed, 0, 0)

  // ---- one call ------------------------------------------------------------------------------

  /** The answer `Allow` gives at `now`. */
  predicate Allows(c: Core, now: int) {
    c.state.Open? ==> now > c.nextRetryTime
  }

  /** The effect of one call, given what `failures++` would leave in the counter. */
  function Advance(s: Settings, c: Core, e: Event, incremented: nat): Core {
    match e
    case Ask(now) =>
      if c.state.Open? && now > c.nextRetryTime then c.(state := HalfOpen) else c
    case Succeeded(_) =>
      if c.state.Open? then c else c.(state := Closed, failures := 0)
    case Failed(now) =>
      if c.state.HalfOpen? || (c.state.Closed? && incremented >= s.failureThreshold)
      then Core(Open, incremented, now + s.timeout)
      else c.(failures := incremented)
  }

  /** The real breaker: a 32-bit counter that wraps. */
  function Next(s: Settings, c: Core, e: Event): (r: Core)
    ensures c.failures < U32 ==> r.failures < U32
  {
    Advance(s, c, e, (c.failures + 1) % U32)
  }

  /** The same breaker with an unbounded counter. */
  function NextExact(s: Settings, c: Core, e: Event): Core {
    Advance(s, c, e, c.failures + 1)
  }

  function RunFrom(s: Settings, c: Core, es: seq<Event>): Core {
    if es == [] then c else Next(s, RunFrom(s, c, es[..|es| - 1]), es[|es| - 1])
  }

  /** A breaker's state after the calls `es`, oldest first. */
  function Run(s: Settings, es: seq<Event>): Core {
    RunFrom(s, FRESH, es)
  }

  function RunExact(s: Settings, es: seq<Event>): Core {
    if es == [] then FRESH else NextExact(s, RunExact(s, es[..|es| - 1]), es[|es| - 1])
  }

  lemma {:induction false} RunSnoc(s: Settings, c: Core, es: seq<Event>, e: Event)
    ensures RunFrom(s, c, es + [e]) == Next(s, RunFrom(s, c, es), e)
  {
    assert (es + [e])[..|es|] == es;
  }

  lemma Wraps(n: uint32)
    ensures (n + 1) % U32 == if n == U32 - 1 then 0 else n + 1
  {
  }

  // ---- the class -----------------------------------------------------------------------------

  class Breaker {
    const settings: Settings
    var state: State
    var failures: uint32
    var nextRetryTime: int
    var lastStateChange: int
    ghost var log: seq<Event>

    ghost function View(): Core
      reads this
    {
      Core(state, failures, nextRetryTime)
    }

    /** The fields are what the calls made so far produce. */
    ghost predicate Valid()
      reads this
    {
      View() == Run(settings, log)
    }

    constructor (settings: Settings, now: int)
      ensures Valid() && this.settings == settings && log == [] && View() == FRESH
      ensures state == Closed && failures == 0
    {
      this.settings := settings;
      state, failures, nextRetryTime, lastStateChange, log := Closed, 0, 0, now, [];
    }

    method Allow(now: int) returns (ok: bool)
      modifies this
      ensures old(Valid()) ==> Valid()
      ensures log == old(log) + [Ask(now)]
      ensures ok == Allows(old(View()), now)
      ensures View() == Next(settings, old(View()), Ask(now))
      ensures ok <==> !(old(state).Open? && now <= old(nextRetryTime))
      ensures state == if old(state).Open? && ok then HalfOpen else old(state)
      ensures failures == old(failures) && nextRetryTime == old(nextRetryTime)
    {
      RunSnoc(settings, FRESH, log, Ask(now));
      log := log + [Ask(now)];
      match state {
        case Closed =>
          ok := true;
        case Open =>
          if now > nextRetryTime {
            TransitionTo(HalfOpen, now);
            ok := true;
          } else {
            ok := false;
          }
        case HalfOpen =>
          ok := true;
      }
    }

    method RecordSuccess(now: int)
      modifies this
      ensures old(Valid()) ==> Valid()
      ensures log == old(log) + [Succeeded(now)]
      ensures View() == Next(settings, old(View()), Succeeded(now))
      ensures old(state).Open? ==> state.Open? && failures == old(failures)
      ensures !old(state).Open? ==> state.Closed? && failures == 0
      ensures nextRetryTime == old(nextRetryTime)
    {
      RunSnoc(settings, FRESH, log, Succeeded(now));
      log := log + [Succeeded(now)];
      match state {
        case Closed =>
          failures := 0;
        case HalfOpen =>
          failures := 0;
          TransitionTo(Closed, now);
        case Open =>
      }
    }

    method RecordFailure(now: int)
      modifies this
      ensures old(Valid()) ==> Valid()
      ensures log == old(log) + [Failed(now)]
      ensures View() == Next(settings, old(View()), Failed(now))
      ensures failures == if old(failures) == U32 - 1 then 0 else old(failures) + 1
      ensures state == if old(state).HalfOpen? || failures >= settings.failureThreshold then Open else old(state)
      ensures nextRetryTime == if !old(state).Open? && state.Open? then now + settings.timeout else old(nextRetryTime)
    {
      RunSnoc(settings, FRESH, log, Failed(now));
      log := log + [Failed(now)];
      Wraps(failures);
      failures := if failures == U32 - 1 then 0 else failures + 1;
      match state {
        case Closed =>
          if failures >= settings.failureThreshold {
            nextRetryTime := now + settings.timeout;
            TransitionTo(Open, now);
          }
        case HalfOpen =>
          nextRetryTime := now + settings.timeout;
          TransitionTo(Open, now);
        case Open =>
      }
    }

    method TransitionTo(newState: State, now: int)
      modifies this`state, this`lastStateChange
      ensures state == newState
      ensures lastStateChange == if old(state) == newState then old(lastStateChange) else now
    {
      if state == newState {
        return;
      }
      state := newState;
      lastStateChange := now;
    }
  }

  // ---- the counter is the trailing run of failures -------------------------------------------

  /** The outcomes among the calls: true for a success. */
  function Outcomes(es: seq<Event>): seq<bool> {
    if es == [] then []
    else
      var before := Outcomes(es[..|es| - 1]);
      match es[|es| - 1]
      case Ask(_) => before
      case Succeeded(_) => before + [true]
      case Failed(_) => before + [false]
  }

  /** How many calls had been made when the breaker last went from half-open to closed. */
  function LastClose(s: Settings, es: seq<Event>): (n: nat)
    ensures n <= |es|
  {
    if es == [] then 0
    else
      var before := es[..|es| - 1];
      if Run(s, before).state.HalfOpen? && Run(s, es).state.Closed? then |es| else LastClose(s, before)
  }

  /** Outcomes recorded since creation or, if later, since the breaker last closed. */
  function SinceClose(s: Settings, es: seq<Event>): seq<bool> {
    Outcomes(es[LastClose(s, es)..])
  }

  lemma OutcomesSnoc(es: seq<Event>, e: Event)
    ensures Outcomes(es + [e]) == Outcomes(es) + (if e.Ask? then [] else [e.Succeeded?])
  {
    assert (es + [e])[..|es|] == es;
  }

  lemma SinceCloseSnoc(s: Settings, es: seq<Event>, e: Event)
    ensures SinceClose(s, es + [e]) ==
            if Run(s, es).state.HalfOpen? && Run(s, es + [e]).state.Closed? then []
            else SinceClose(s, es) + (if e.Ask? then [] else [e.Succeeded?])
  {
    var all := es + [e];
    assert all[..|es|] == es;
    if !(Run(s, es).state.HalfOpen? && Run(s, all).state.Closed?) {
      var n := LastClose(s, es);
      assert all[n..] == es[n..] + [e];
      OutcomesSnoc(es[n..], e);
    }
  }

  /** While the breaker is closed its counter is the longest all-failure suffix of the outcomes
      recorded since it was created or last closed, and below the threshold. */
  lemma {:induction false} ClosedCountsTrailingFailures(s: Settings, es: seq<Event>)
    requires Run(s, es).state.Closed?
    ensures LongestFailureTail(SinceClose(s, es), Run(s, es).failures)
    ensures Run(s, es).failures == 0 || Run(s, es).failures < s.failureThreshold
  {
    if es == [] {
    } else {
      var before, e := es[..|es| - 1], es[|es| - 1];
      assert es == before + [e];
      SinceCloseSnoc(s, before, e);
      RunSnoc(s, FRESH, before, e);
      if Run(s, before).state.Closed? {
        ClosedCountsTrailingFailures(s, before);
        ClosedStep(s, Run(s, before), e);
      } else {
        assert SinceClose(s, es) == [];
      }
    }
  }

  lemma ClosedStep(s: Settings, c: Core, e: Event)
    requires c.state.Closed? && (c.failures == 0 || c.failures < s.failureThreshold)
    requires Next(s, c, e).state.Closed?
    ensures var r := Next(s, c, e).failures;
            && r == (if e.Ask? then c.failures else if e.Failed? then c.failures + 1 else 0)
            && (r == 0 || r < s.failureThreshold)
  {
  }

  /** The breaker opens on exactly the outcome that makes the failure suffix reach the threshold, and
      only a failure can take it out of the closed state. */
  lemma OpensExactlyAtThreshold(s: Settings, es: seq<Event>, e: Event, n: nat)
    requires s.failureThreshold >= 1
    requires Run(s, es).state.Closed?
    requires LongestFailureTail(SinceClose(s, es + [e]), n)
    ensures Run(s, es + [e]).state == if e.Failed? && n == s.failureThreshold then Open else Closed
    ensures e.Failed? ==> n <= s.failureThreshold
    ensures e.Failed? && n == s.failureThreshold ==> Run(s, es + [e]).nextRetryTime == e.now + s.timeout
  {
    if e.Failed? {
      var k := Run(s, es).failures;
      TailAfterFailure(s, es, e);
      TailUnique(SinceClose(s, es + [e]), n, k + 1);
      FailureWhileClosed(s, es, e);
    } else {
      RunSnoc(s, FRESH, es, e);
    }
  }

  lemma FailureWhileClosed(s: Settings, es: seq<Event>, e: Event)
    requires Run(s, es).state.Closed? && Run(s, es).failures < s.failureThreshold && e.Failed?
    ensures Run(s, es + [e]) == if Run(s, es).failures + 1 >= s.failureThreshold
                                then Core(Open, Run(s, es).failures + 1, e.now + s.timeout)
                                else Run(s, es).(failures := Run(s, es).failures + 1)
  {
    RunSnoc(s, FRESH, es, e);
  }

  lemma TailAfterFailure(s: Settings, es: seq<Event>, e: Event)
    requires s.failureThreshold >= 1
    requires Run(s, es).state.Closed? && e.Failed?
    ensures LongestFailureTail(SinceClose(s, es + [e]), Run(s, es).failures + 1)
    ensures Run(s, es).failures + 1 <= s.failureThreshold
  {
    SinceCloseSnoc(s, es, e);
    ClosedCountsTrailingFailures(s, es);
  }

  // ---- the wrap is harmless ------------------------------------------------------------------

  /** Over every run the 32-bit breaker and the unbounded one are in the same state with the same
      retry time, so they answer alike; their counters agree modulo 2^32, and exactly while closed. */
  lemma {:induction false} WrapHarmless(s: Settings, es: seq<Event>)
    ensures Run(s, es).state == RunExact(s, es).state
    ensures Run(s, es).nextRetryTime == RunExact(s, es).nextRetryTime
    ensures forall now :: Allows(Run(s, es), now) == Allows(RunExact(s, es), now)
    ensures Run(s, es).failures == RunExact(s, es).failures % U32
    ensures Run(s, es).state.Closed? ==> Run(s, es).failures == RunExact(s, es).failures
  {
    if es == [] {
    } else {
      var before, e := es[..|es| - 1], es[|es| - 1];
      assert es == before + [e];
      WrapHarmless(s, before);
      if Run(s, before).state.Closed? {
        ClosedCountsTrailingFailures(s, before);
      }
      RunSnoc(s, FRESH, before, e);
      StepsAgree(s, Run(s, before), RunExact(s, before), e);
    }
  }

  /** The 32-bit breaker's state as an abstraction of the unbounded one's. */
  predicate Agrees(c: Core, exact: Core) {
    && c.state == exact.state && c.nextRetryTime == exact.nextRetryTime
    && c.failures == exact.failures % U32
    && (c.state.Closed? ==> c.failures == exact.failures)
  }

  lemma StepsAgree(s: Settings, c: Core, exact: Core, e: Event)
    requires Agrees(c, exact) && (c.state.Closed? ==> c.failures == 0 || c.failures < s.failureThreshold)
    ensures Agrees(Next(s, c, e), NextExact(s, exact, e))
  {
    IncrementModulo(exact.failures);
    assert c.state.Closed? ==> exact.failures + 1 < U32;
  }

  lemma IncrementModulo(n: nat)
    ensures (n % U32 + 1) % U32 == (n + 1) % U32
  {
    assert n == U32 * (n / U32) + n % U32;
    if n % U32 == U32 - 1 {
      assert n + 1 == U32 * (n / U32 + 1);
    } else {
      assert n + 1 == U32 * (n / U32) + (n % U32 + 1);
    }
  }

  // ---- the open window -----------------------------------------------------------------------

  ghost predicate AsksBy(es: seq<Event>, deadline: int) {
    forall i :: 0 <= i < |es| && es[i].Ask? ==> es[i].now <= deadline
  }

  /** Once a failure at `t` has opened the breaker, then whatever is recorded meanwhile: every ask up
      to `t + timeout` is refused, the retry time does not move, and the first ask after it is let
      through. */
  lemma {:induction false} OpenWindow(s: Settings, before: Core, t: int, es: seq<Event>)
    requires !before.state.Open? && Next(s, before, Failed(t)).state.Open?
    requires AsksBy(es, t + s.timeout)
    ensures var c := RunFrom(s, Next(s, before, Failed(t)), es);
            && c.state.Open?
            && c.nextRetryTime == t + s.timeout
            && (forall now :: Allows(c, now) <==> now > t + s.timeout)
            && (forall now :: now > t + s.timeout ==> Next(s, c, Ask(now)).state.HalfOpen?)
  {
    if es == [] {
    } else {
      OpenWindow(s, before, t, es[..|es| - 1]);
      assert es[|es| - 1].Ask? ==> es[|es| - 1].now <= t + s.timeout;
    }
  }

  /** Half-open is not a single probe: until an outcome is recorded it lets every ask through. */
  lemma {:induction false} HalfOpenAdmitsEveryAsk(s: Settings, c: Core, asks: seq<Event>)
    requires c.state.HalfOpen? && forall i :: 0 <= i < |asks| ==> asks[i].Ask?
    ensures RunFrom(s, c, asks) == c && forall now :: Allows(RunFrom(s, c, asks), now)
  {
    if asks == [] {
    } else {
      HalfOpenAdmitsEveryAsk(s, c, asks[..|asks| - 1]);
    }
  }

  /** Without failures a breaker never leaves the closed state. */
  lemma {:induction false} NoFailureStaysClosed(s: Settings, es: seq<Event>)
    requires forall e :: e in es ==> !e.Failed?
    ensures Run(s, es).state.Closed? && Run(s, es).failures == 0
  {
    if es == [] {
    } else {
      NoFailureStaysClosed(s, es[..|es| - 1]);
      assert es[|es| - 1] in es;
    }
  }

  // ---- how half-open ends ----------------------------------------------------------------------

  /** A success in half-open closes the breaker, with no failures held against it; a failure opens it
      again for a whole timeout. */
  lemma {:induction false} HalfOpenEnds(s: Settings, c: Core, now: int)
    requires c.state.HalfOpen?
    ensures var recovered := Next(s, c, Succeeded(now));
            recovered.state.Closed? && recovered.failures == 0 && forall t :: Allows(recovered, t)
    ensures var failed := Next(s, c, Failed(now));
            && failed.state.Open? && failed.nextRetryTime == now + s.timeout
            && forall t :: Allows(failed, t) <==> t > now + s.timeout
  {
  }

  lemma {:induction false} RunConcat(s: Settings, c: Core, a: seq<Event>, b: seq<Event>)
    ensures RunFrom(s, c, a + b) == RunFrom(s, RunFrom(s, c, a), b)
  {
    if b == [] {
      assert a + b == a;
    } else {
      assert (a + b)[..|a + b| - 1] == a + b[..|b| - 1];
      RunConcat(s, c, a, b[..|b| - 1]);
    }
  }

  /** Over a run: a failure at `t` opens the breaker, whatever is recorded and refused up to `t +
      timeout` follows, then one or more asks after it, and then an outcome. A success closes the
      breaker with a zero counter, and a failure refuses every ask for another timeout. */
  lemma {:induction false} RecoveryDecides(s: Settings, before: Core, t: int, es: seq<Event>, asks: seq<Event>,
                                           outcome: Event)
    requires !before.state.Open? && Next(s, before, Failed(t)).state.Open?
    requires AsksBy(es, t + s.timeout)
    requires asks != [] && asks[0].now > t + s.timeout && forall i :: 0 <= i < |asks| ==> asks[i].Ask?
    requires !outcome.Ask?
    ensures var c := RunFrom(s, Next(s, before, Failed(t)), es + asks + [outcome]);
            && (outcome.Succeeded? ==> c.state.Closed? && c.failures == 0 && forall now :: Allows(c, now))
            && (outcome.Failed? ==> c.state.Open? && c.nextRetryTime == outcome.now + s.timeout
                                    && forall now :: Allows(c, now) <==> now > outcome.now + s.timeout)
  {
    var from := Next(s, before, Failed(t));
    var waited := RunFrom(s, from, es);
    OpenWindow(s, before, t, es);
    RunConcat(s, from, es, asks);
    RunConcat(s, waited, [asks[0]], asks[1..]);
    assert [asks[0]] + asks[1..] == asks && [asks[0]][..0] == [];
    HalfOpenAdmitsEveryAsk(s, Next(s, waited, asks[0]), asks[1..]);
    RunSnoc(s, from, es + asks, outcome);
    HalfOpenEnds(s, RunFrom(s, from, es + asks), outcome.now);
  }

  // ---- probe spacing -------------------------------------------------------------------------

  ghost predicate Chronological(es: seq<Event>) {
    forall i, j :: 0 <= i <= j < |es| ==> es[i].now <= es[j].now
  }

  /** The times at which the breaker entered half-open. */
  function ProbeTimes(s: Settings, es: seq<Event>): seq<int> {
    if es == [] then []
    else
      var before, e := es[..|es| - 1], es[|es| - 1];
      ProbeTimes(s, before) +
      if Run(s, before).state.Open? && Run(s, es).state.HalfOpen? then [e.now] else []
  }

  /** Any two entries into half-open, `k` apart in order, are more than `k` timeouts apart in time. */
  lemma ProbeSpacing(s: Settings, es: seq<Event>, i: nat, j: nat)
    requires Chronological(es)
    requires i < j < |ProbeTimes(s, es)|
    ensures ProbeTimes(s, es)[j] - ProbeTimes(s, es)[i] > (j - i) * s.timeout
  {
    ProbeGaps(s, es);
    GapsAddUp(ProbeTimes(s, es), s.timeout, i, j);
  }

  lemma {:induction false} GapsAddUp(p: seq<int>, gap: int, i: nat, j: nat)
    requires i < j < |p|
    requires forall k {:trigger p[k]} :: 0 < k < |p| ==> p[k] - p[k - 1] > gap
    ensures p[j] - p[i] > (j - i) * gap
    decreases j
  {
    assert p[j] - p[j - 1] > gap;
    if i < j - 1 {
      GapsAddUp(p, gap, i, j - 1);
      assert (j - i) * gap == (j - 1 - i) * gap + gap;
    }
  }

  lemma {:induction false} ProbeGaps(s: Settings, es: seq<Event>)
    requires Chronological(es)
    ensures var p := ProbeTimes(s, es);
            && (forall k {:trigger p[k]} :: 0 < k < |p| ==> p[k] - p[k - 1] > s.timeout)
            && (p != [] ==> es != [] && p[|p| - 1] <= es[|es| - 1].now)
            && (p != [] && Run(s, es).state.Open? ==> Run(s, es).nextRetryTime >= p[|p| - 1] + s.timeout)
  {
    if es == [] {
    } else {
      var before := es[..|es| - 1];
      assert Chronological(before);
      ProbeGaps(s, before);
    }
  }
}
