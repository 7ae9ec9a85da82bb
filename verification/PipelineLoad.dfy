/** The load bound through failover is exact: runs that reach it, and so exactly when a placement's
    own limit bounds the requests proxied to it. */
module PipelineLoad {
  import opened Wrappers
  import opened ConfigModel
  import opened Routing
  import opened Circuit
  import opened Registry
  import opened Limits
  import opened Pipeline
  import opened PipelineSafety
  import opened PipelineSlots
  import opened PipelineRuns
  import opened Solo

  /** `p`'s breaker is in the state in which a request routed to `p` can be made to end up at `q`:
      closed when one hop at most is needed, open when two are. */
  ghost predicate Ready(setup: Setup, s: System, p: string, q: string) {
    var b := At(s.breakers, p);
    if q == p || q == Alternative(setup.config, p) then b.state.Closed? else b.state.Open? && s.clock <= b.nextRetryTime
  }

  // ---- parking one request at q --------------------------------------------------------------

  /** The health answer that takes a gated request the rest of the way to `q`. */
  lemma SteerTo(c: Config, r: Request, allowed: bool, q: string)
    requires r.phase.SizeChecked? && r.decision.placementKey == r.origin
    requires q in Targets(c, r.origin)
    requires allowed <==> (q == r.origin || q == Alternative(c, r.origin))
    ensures AfterGate(c, r, allowed).phase.Gated?
    ensures AfterHealth(c, AfterGate(c, r, allowed), q == r.origin).phase.Forwarding?
    ensures AfterHealth(c, AfterGate(c, r, allowed), q == r.origin).decision.placementKey == q
  {
  }

  lemma Park(setup: Setup, from: System, id: nat, r: Config, key: string, d: RoutingDecision, q: string)
    returns (moves: seq<Move>, end: Progress)
    requires id !in from.requests && from.published == [r]
    requires key != "" && Route(LoaderReads(r, r, r), key) == Success(d)
    requires CanAcquire(from.slots, d.placementKey)
    requires q in Targets(setup.config, d.placementKey) && Ready(setup, from, d.placementKey, q)
    ensures Reached(setup, from, id, moves, end)
    ensures end.request.phase.Forwarding? && end.request.decision.placementKey == q
    ensures end.slots == AfterAcquire(from.slots, d.placementKey) && end.clock == from.clock
    ensures SameBreakers(end.breakers, from.breakers)
  {
    var p := d.placementKey;
    var gate := AtGate(from, key, d);
    var allowed := Allows(At(from.breakers, p), from.clock);
    SteerTo(setup.config, gate.request, allowed, q);
    moves := RunToGate(setup, from, id, r, key, d);
    moves := ThenGate(setup, from, id, moves, gate, from.clock);
    var asked := Asked(setup, gate, from.clock);
    moves := ThenHealth(setup, from, id, moves, asked, q == p);
    end := Checked(setup.config, asked, q == p);
  }

  lemma FinishedDontLoad(s: System, t: System, q: string)
    requires OnlyFinishedNew(s, t)
    ensures Load(t, q) == Load(s, q)
  {
  }

  lemma LoadAfter(s: System, t: System, id: nat, q: string)
    requires id !in s.requests && id in t.requests && t.requests == s.requests[id := t.requests[id]]
    ensures |Load(t, q)| == |Load(s, q)| +
              if t.requests[id].phase.Forwarding? && t.requests[id].decision.placementKey == q then 1 else 0
  {
    assert id !in Load(s, q);
    if id in Load(t, q) {
      assert Load(t, q) == Load(s, q) + {id};
    } else {
      assert Load(t, q) == Load(s, q);
    }
  }

  /** What a batch of requests with numbers from `first` to `next`, parked under `p`, changes. */
  ghost predicate Parked(from: System, to: System, p: string, q: string, n: nat, next: nat) {
    && to.published == from.published && to.clock == from.clock
    && Below(to, next)
    && |Load(to, q)| == |Load(from, q)| + n
    && SameBreakers(to.breakers, from.breakers)
    && to.slots == if p in from.slots
                   then from.slots[p := Slots(from.slots[p].capacity, from.slots[p].taken + n)]
                   else from.slots
  }

  lemma ParkOne(setup: Setup, from: System, next: nat, r: Config, key: string, d: RoutingDecision, q: string)
    returns (moves: seq<Move>)
    requires Below(from, next) && from.published == [r]
    requires key != "" && Route(LoaderReads(r, r, r), key) == Success(d)
    requires CanAcquire(from.slots, d.placementKey)
    requires q in Targets(setup.config, d.placementKey) && Ready(setup, from, d.placementKey, q)
    ensures NoPublish(moves) && Parked(from, Exec(setup, from, moves), d.placementKey, q, 1, next + 1)
  {
    var end;
    moves, end := Park(setup, from, next, r, key, d, q);
    LoadAfter(from, Exec(setup, from, moves), next, q);
  }

  lemma {:induction false} ParkMany(setup: Setup, from: System, next: nat, r: Config, key: string, d: RoutingDecision,
                                    q: string, n: nat)
    returns (moves: seq<Move>)
    requires Below(from, next) && from.published == [r]
    requires key != "" && Route(LoaderReads(r, r, r), key) == Success(d)
    requires d.placementKey in from.slots ==>
               from.slots[d.placementKey].taken + n <= from.slots[d.placementKey].capacity
    requires q in Targets(setup.config, d.placementKey) && Ready(setup, from, d.placementKey, q)
    ensures NoPublish(moves) && Parked(from, Exec(setup, from, moves), d.placementKey, q, n, next + n)
  {
    var p := d.placementKey;
    moves := [];
    if n == 0 {
      assert p in from.slots ==> from.slots == from.slots[p := from.slots[p]];
    } else {
      moves := ParkMany(setup, from, next, r, key, d, q, n - 1);
      var mid := Exec(setup, from, moves);
      var one := ParkOne(setup, mid, next + n - 1, r, key, d, q);
      ExecConcat(setup, from, moves, one);
      moves := moves + one;
    }
  }

  // ---- filling every source ------------------------------------------------------------------

  /** What admitting `n` requests under `p` and parking them at `q` changes. */
  ghost predicate Filled(from: System, to: System, p: string, q: string, n: nat, next: nat) {
    && to.published == from.published && to.clock == from.clock
    && Below(to, next)
    && |Load(to, q)| == |Load(from, q)| + n
    && (forall k :: k != p ==> At(to.breakers, k) == At(from.breakers, k))
    && to.slots.Keys == from.slots.Keys && (forall k :: k in from.slots && k != p ==> to.slots[k] == from.slots[k])
  }

  /** As many requests as `p` has slots, or any number if it has no limit. */
  lemma Fill(setup: Setup, from: System, next: nat, r: Config, p: string, q: string, n: nat)
    returns (moves: seq<Move>, next': nat)
    requires Below(from, next) && from.published == [r] && setup.breaker.timeout >= 0
    requires exists key :: Sends(r, key, p)
    requires n > 0 && (p in from.slots ==> from.slots[p].taken == 0 && n <= from.slots[p].capacity)
    requires At(from.breakers, p) == FRESH && q in Targets(setup.config, p)
    ensures NoPublish(moves) && Filled(from, Exec(setup, from, moves), p, q, n, next')
  {
    var key :| Sends(r, key, p);
    var d := Route(LoaderReads(r, r, r), key).value;
    moves, next' := [], next;
    assert Exec(setup, from, []) == from;
    if q != p && q != Alternative(setup.config, p) {
      moves, next' := Trip(setup, from, next, r, key, d);
      FinishedDontLoad(from, Exec(setup, from, moves), q);
    }
    var mid := Exec(setup, from, moves);
    var rest := ParkMany(setup, mid, next', r, key, d, q, n);
    ExecConcat(setup, from, moves, rest);
    moves, next' := moves + rest, next' + n;
  }

  ghost predicate Untouched(setup: Setup, s: System, p: string) {
    && p in s.slots && IsLimited(setup.config, p)
    && s.slots[p] == Slots(setup.config.placements[p].concurrencyLimit, 0) && At(s.breakers, p) == FRESH
  }

  lemma {:induction false} FillAll(setup: Setup, from: System, next: nat, r: Config, sources: seq<string>, q: string)
    returns (moves: seq<Move>)
    requires Below(from, next) && from.published == [r] && setup.breaker.timeout >= 0
    requires forall i, j :: 0 <= i < j < |sources| ==> sources[i] != sources[j]
    requires forall p :: p in sources ==> IsLimited(setup.config, p)
    requires forall p :: p in sources ==>
               Untouched(setup, from, p) && q in Targets(setup.config, p) && exists key :: Sends(r, key, p)
    ensures NoPublish(moves)
    ensures |Load(Exec(setup, from, moves), q)| == |Load(from, q)| + TotalLimit(setup.config, sources)
    decreases |sources|
  {
    moves := [];
    if sources == [] {
    } else {
      var p := sources[0];
      assert p in sources && Untouched(setup, from, p);
      var one, next' := Fill(setup, from, next, r, p, q, from.slots[p].capacity);
      var mid := Exec(setup, from, one);
      forall k | k in sources[1..]
        ensures Untouched(setup, mid, k) && k in sources
      {
        assert k in sources && Untouched(setup, from, k);
      }
      var rest := FillAll(setup, mid, next', r, sources[1..], q);
      ExecConcat(setup, from, one, rest);
      moves := one + rest;
    }
  }

  // ---- the exact condition -------------------------------------------------------------------

  /** The placements that some key is routed to and that can end up at `q`, each once. */
  ghost predicate SourcesOf(setup: Setup, r: Config, q: string, sources: seq<string>) {
    && (forall i, j :: 0 <= i < j < |sources| ==> sources[i] != sources[j])
    && (forall p :: p in sources <==> q in Targets(setup.config, p) && exists key :: Sends(r, key, p))
  }

  /** In no run over router config `r` are more than `n` requests proxied to `q` at once. */
  ghost predicate LoadAtMost(setup: Setup, r: Config, q: string, n: nat) {
    forall moves :: NoPublish(moves) ==> |Load(Exec(setup, Start(setup, r), moves), q)| <= n
  }

  /** All of `sources` have a concurrency limit. */
  predicate AllLimited(c: Config, sources: seq<string>) {
    forall p :: p in sources ==> IsLimited(c, p)
  }

  /** `n` requests can be proxied to `q` at once at most exactly when every placement that can end up
      there has a limit and these limits add up to at most `n`. */
  lemma MaximalLoad(ps: Parsers, setup: Setup, r: Config, q: string, sources: seq<string>, n: nat)
    requires WellFormed(ps, setup.config) && setup.breaker.timeout >= 0
    requires SourcesOf(setup, r, q, sources)
    ensures LoadAtMost(setup, r, q, n) <==>
              AllLimited(setup.config, sources) && TotalLimit(setup.config, sources) <= n
  {
    if !AllLimited(setup.config, sources) {
      var p :| p in sources && !IsLimited(setup.config, p);
      UnlimitedSource(setup, r, p, q, n);
    } else if TotalLimit(setup.config, sources) <= n {
      forall moves | NoPublish(moves)
        ensures |Load(Exec(setup, Start(setup, r), moves), q)| <= n
      {
        BoundHolds(ps, setup, r, q, sources, moves);
      }
    } else {
      var start := Start(setup, r);
      assert forall p :: p in sources ==> Untouched(setup, start, p);
      var moves := FillAll(setup, start, 0, r, sources, q);
      assert Load(start, q) == {};
    }
  }

  /** One placement without a limit is enough for the load to have no bound. */
  lemma {:induction false} UnlimitedSource(setup: Setup, r: Config, p: string, q: string, n: nat)
    requires setup.breaker.timeout >= 0
    requires !IsLimited(setup.config, p) && q in Targets(setup.config, p) && exists key :: Sends(r, key, p)
    ensures !LoadAtMost(setup, r, q, n)
  {
    var start := Start(setup, r);
    var moves, _ := Fill(setup, start, 0, r, p, q, n + 1);
    assert Load(start, q) == {};
    assert |Load(Exec(setup, start, moves), q)| == n + 1;
  }

  lemma {:induction false} BoundHolds(ps: Parsers, setup: Setup, r: Config, q: string, sources: seq<string>,
                                      moves: seq<Move>)
    requires WellFormed(ps, setup.config) && NoPublish(moves)
    requires SourcesOf(setup, r, q, sources) && AllLimited(setup.config, sources)
    ensures |Load(Exec(setup, Start(setup, r), moves), q)| <= TotalLimit(setup.config, sources)
  {
    PublishedFixed(setup, r, moves);
    forall p | q in Targets(setup.config, p) && Routable([r], p)
      ensures p in sources
    {
      var key :| key != "" && RoutesTo([r], key, p);
      var i, j, k :| RoutesVia([r], key, p, i, j, k);
      assert Sends(r, key, p);
    }
    LoadBoundThroughFailover(ps, setup, r, moves, q, sources);
  }

  /** The concurrency limit of a placement that requests are routed to bounds the requests proxied to
      it, in every run, exactly when no other routable placement, limited or not, can fail over to it. */
  lemma OwnLimitSufficesIff(ps: Parsers, setup: Setup, r: Config, q: string, sources: seq<string>)
    requires WellFormed(ps, setup.config) && setup.breaker.timeout >= 0
    requires SourcesOf(setup, r, q, sources)
    requires q in sources && IsLimited(setup.config, q)
    ensures LoadAtMost(setup, r, q, setup.config.placements[q].concurrencyLimit) <==>
              forall p :: p in sources ==> p == q
  {
    MaximalLoad(ps, setup, r, q, sources, setup.config.placements[q].concurrencyLimit);
    if AllLimited(setup.config, sources) {
      SoleSource(setup.config, sources, q);
    }
  }

  lemma {:induction false} SoleSource(c: Config, sources: seq<string>, q: string)
    requires forall i, j :: 0 <= i < j < |sources| ==> sources[i] != sources[j]
    requires q in sources && forall p :: p in sources ==> IsLimited(c, p)
    ensures TotalLimit(c, sources) <= c.placements[q].concurrencyLimit <==> forall p :: p in sources ==> p == q
  {
    if sources[0] == q {
      if |sources| > 1 {
        assert sources[1] in sources && sources[1] != q;
        assert sources[1..][0] == sources[1];
      } else {
        assert sources == [q] && sources[1..] == [];
      }
    } else {
      assert q in sources[1..];
      TotalAtLeast(c, sources[1..], q);
      assert sources[0] in sources && c.placements[sources[0]].concurrencyLimit > 0;
    }
  }

  lemma {:induction false} TotalAtLeast(c: Config, sources: seq<string>, q: string)
    requires q in sources && forall p :: p in sources ==> IsLimited(c, p)
    ensures TotalLimit(c, sources) >= c.placements[q].concurrencyLimit
  {
    assert sources[0] in sources;
    if sources[0] != q {
      TotalAtLeast(c, sources[1..], q);
    }
  }
}
