/** `GetBreaker` under arbitrary interleavings (internal/circuit/breaker.go): any number of threads,
    with the read-locked lookup and the write-locked recheck as separate steps. */
module GetOrCreate {
  import opened Circuit
  import opened Registry

  /** A thread inside `GetBreaker`: before the read-locked lookup, between a miss and the write
      lock, or holding the breaker object it got. */
  datatype Thread = Idle | Looking(key: string) | Missed(key: string) | Holding(key: string, breaker: nat)

  /** `heap` holds the breaker objects in order of allocation, `table` the manager's map. */
  datatype Shared = Shared(heap: seq<Core>, table: map<string, nat>, threads: map<nat, Thread>, log: seq<Call>)

  datatype Move =
    | Begin(t: nat, key: string)
    | Lookup(t: nat)
    | Create(t: nat)
    | Use(t: nat, event: Event)

  function ThreadAt(s: Shared, t: nat): Thread {
    if t in s.threads then s.threads[t] else Idle
  }

  function AnswerOf(c: Core, e: Event): bool {
    e.Ask? ==> Allows(c, e.now)
  }

  /** One atomic step of one thread; a move that is not possible leaves everything as it is. */
  function Step(cfg: Settings, s: Shared, m: Move): Shared {
    match m
    case Begin(t, key) =>
      s.(threads := s.threads[t := Looking(key)])
    case Lookup(t) =>
      var th := ThreadAt(s, t);
      if !th.Looking? then s
      else if th.key in s.table then s.(threads := s.threads[t := Holding(th.key, s.table[th.key])])
      else s.(threads := s.threads[t := Missed(th.key)])
    case Create(t) =>
      var th := ThreadAt(s, t);
      if !th.Missed? then s
      else if th.key in s.table then s.(threads := s.threads[t := Holding(th.key, s.table[th.key])])
      else s.(heap := s.heap + [FRESH],
              table := s.table[th.key := |s.heap|],
              threads := s.threads[t := Holding(th.key, |s.heap|)])
    case Use(t, e) =>
      var th := ThreadAt(s, t);
      if !th.Holding? || th.breaker >= |s.heap| then s
      else
        var c := s.heap[th.breaker];
        s.(heap := s.heap[th.breaker := Next(cfg, c, e)],
           log := s.log + [Call(t, th.key, e, AnswerOf(c, e))])
  }

  const START: Shared := Shared([], map[], map[], [])

  function Exec(cfg: Settings, from: Shared, moves: seq<Move>): Shared {
    if moves == [] then from else Step(cfg, Exec(cfg, from, moves[..|moves| - 1]), moves[|moves| - 1])
  }

  /** One breaker a key, and every thread holds its key's own. */
  ghost predicate OneBreakerPerKey(s: Shared) {
    && (forall k :: k in s.table ==> s.table[k] < |s.heap|)
    && (forall k, l :: k in s.table && l in s.table && k != l ==> s.table[k] != s.table[l])
    && (forall t :: t in s.threads && s.threads[t].Holding? ==>
          s.threads[t].key in s.table && s.table[s.threads[t].key] == s.threads[t].breaker)
  }

  /** A key's breaker has been through the calls made on that key, and no others. */
  ghost predicate HistoriesMatch(cfg: Settings, s: Shared) {
    && (forall k :: k in s.table && s.table[k] < |s.heap| ==> s.heap[s.table[k]] == Run(cfg, EventsOf(s.log, k)))
    && (forall k :: k !in s.table ==> EventsOf(s.log, k) == [])
    && Sequential(cfg, s.log)
  }

  ghost predicate Consistent(cfg: Settings, s: Shared) {
    OneBreakerPerKey(s) && HistoriesMatch(cfg, s)
  }

  lemma {:induction false} UseKeepsConsistent(cfg: Settings, s: Shared, t: nat, e: Event)
    requires Consistent(cfg, s)
    ensures Consistent(cfg, Step(cfg, s, Use(t, e)))
  {
    var th, s' := ThreadAt(s, t), Step(cfg, s, Use(t, e));
    if th.Holding? && th.breaker < |s.heap| {
      var c := Call(t, th.key, e, AnswerOf(s.heap[th.breaker], e));
      SequentialSnoc(cfg, s.log, c);
      RunSnoc(cfg, FRESH, EventsOf(s.log, th.key), e);
      forall k
        ensures EventsOf(s'.log, k) == EventsOf(s.log, k) + if k == th.key then [e] else []
      {
        EventsOfSnoc(s.log, c, k);
      }
      forall k | k in s'.table
        ensures s'.heap[s'.table[k]] == Run(cfg, EventsOf(s'.log, k))
      {
        assert k != th.key ==> EventsOf(s'.log, k) == EventsOf(s.log, k);
      }
    }
  }

  lemma GetKeepsBindings(cfg: Settings, s: Shared, m: Move)
    requires !m.Use? && OneBreakerPerKey(s)
    ensures OneBreakerPerKey(Step(cfg, s, m))
  {
    var s' := Step(cfg, s, m);
    assert forall k :: k in s.table ==> k in s'.table && s'.table[k] == s.table[k];
    assert forall t :: t in s'.threads && t != m.t ==> t in s.threads && s'.threads[t] == s.threads[t];
  }

  lemma GetKeepsHistories(cfg: Settings, s: Shared, m: Move)
    requires !m.Use? && Consistent(cfg, s)
    ensures HistoriesMatch(cfg, Step(cfg, s, m))
  {
    var s' := Step(cfg, s, m);
    assert s'.log == s.log;
    forall k | k in s'.table && s'.table[k] < |s'.heap|
      ensures s'.heap[s'.table[k]] == Run(cfg, EventsOf(s'.log, k))
    {
      if k !in s.table {
        assert s'.heap[s'.table[k]] == FRESH;
      }
    }
  }

  lemma {:induction false} StepKeepsConsistent(cfg: Settings, s: Shared, m: Move)
    requires Consistent(cfg, s)
    ensures Consistent(cfg, Step(cfg, s, m))
  {
    if m.Begin? || m.Lookup? || m.Create? {
      GetKeepsBindings(cfg, s, m);
      GetKeepsHistories(cfg, s, m);
    } else {
      UseKeepsConsistent(cfg, s, m.t, m.event);
    }
  }

  /** Get-or-create is linearizable: over every interleaving each key has one breaker, whose state
      and answers are those of a sequential breaker given that key's calls alone, in lock order. */
  lemma {:induction false} GetOrCreateLinearizable(cfg: Settings, moves: seq<Move>)
    ensures Consistent(cfg, Exec(cfg, START, moves))
  {
    if moves == [] {
    } else {
      GetOrCreateLinearizable(cfg, moves[..|moves| - 1]);
      StepKeepsConsistent(cfg, Exec(cfg, START, moves[..|moves| - 1]), moves[|moves| - 1]);
    }
  }

  lemma {:induction false} TableOnlyGrows(cfg: Settings, s: Shared, moves: seq<Move>)
    ensures forall k :: k in s.table ==>
              k in Exec(cfg, s, moves).table && Exec(cfg, s, moves).table[k] == s.table[k]
  {
    if moves == [] {
    } else {
      TableOnlyGrows(cfg, s, moves[..|moves| - 1]);
    }
  }

  lemma {:induction false} ExecConcat(cfg: Settings, s: Shared, a: seq<Move>, b: seq<Move>)
    ensures Exec(cfg, s, a + b) == Exec(cfg, Exec(cfg, s, a), b)
  {
    if b == [] {
      assert a + b == a;
    } else {
      assert (a + b)[..|a + b| - 1] == a + b[..|b| - 1];
      ExecConcat(cfg, s, a, b[..|b| - 1]);
    }
  }

  /** Any two calls for one key, by any threads and however far apart, return the same breaker. */
  lemma SameKeySameBreaker(cfg: Settings, moves: seq<Move>, more: seq<Move>, t: nat, u: nat)
    requires ThreadAt(Exec(cfg, START, moves), t).Holding?
    requires ThreadAt(Exec(cfg, START, moves + more), u).Holding?
    requires ThreadAt(Exec(cfg, START, moves), t).key == ThreadAt(Exec(cfg, START, moves + more), u).key
    ensures ThreadAt(Exec(cfg, START, moves), t).breaker == ThreadAt(Exec(cfg, START, moves + more), u).breaker
  {
    GetOrCreateLinearizable(cfg, moves);
    GetOrCreateLinearizable(cfg, moves + more);
    ExecConcat(cfg, START, moves, more);
    TableOnlyGrows(cfg, Exec(cfg, START, moves), more);
  }
}
