/** Whether a data plane can be sent back to an older config: which file histories rule that out. */
module DistributionOrder {
  import opened ConfigModel
  import opened Distribution
  import opened DistributionSafety
  import opened DistributionAgreement
  import opened DistributionVersions

  /** The snapshots sent come from the history in its order. */
  ghost predicate InOrder(history: seq<Config>, sent: seq<Snapshot>) {
    forall x, y :: 0 <= x < y < |sent| ==> InThisOrder(history, sent[x], sent[y])
  }

  ghost predicate InThisOrder(history: seq<Config>, m: Snapshot, n: Snapshot) {
    exists i, j :: 0 <= i <= j < |history| && SnapshotOf(history[i]) == m && SnapshotOf(history[j]) == n
  }

  ghost predicate LinksInOrder(s: System) {
    forall c :: c in s.links ==> InOrder(s.history, s.links[c].sent)
  }

  /** In every run over the file history `h`, however far it gets, with initial sends in one step, every
      connection is sent its snapshots in history order. */
  ghost predicate AlwaysForward(h: seq<Config>, bootstrap: map<nat, Config>)
    requires h != []
  {
    forall moves :: JoinsAtomic(moves) && Exec(Start(h[0], bootstrap), moves).history <= h ==>
      LinksInOrder(Exec(Start(h[0], bootstrap), moves))
  }

  /** Every config of the history has the first one's snapshot or the last one's. */
  ghost predicate OneChange(h: seq<Config>)
    requires h != []
  {
    forall k :: 0 <= k < |h| ==>
      SnapshotOf(h[k]) == SnapshotOf(h[0]) || SnapshotOf(h[k]) == SnapshotOf(h[|h| - 1])
  }

  // ---- which writes keep the order -----------------------------------------------------------

  /** A broadcast or the second half of an initial send writes nothing that the history had before what
      was last sent on the connection. */
  ghost predicate WriteForward(s: System, m: Move)
    requires s.history != []
  {
    match m
    case SendOne(c) =>
      s.watcher.Sending? && c in s.watcher.pending && c in s.links ==> MayFollow(s, c, s.watcher.snapshot)
    case JoinWrite(c) =>
      Joining(s, c) && s.links[c].join.Read? ==> MayFollow(s, c, s.links[c].join.snapshot)
    case _ => true
  }

  ghost predicate MayFollow(s: System, c: nat, m: Snapshot)
    requires c in s.links
  {
    var l := s.links[c];
    l.broken || l.sent == [] || InThisOrder(s.history, l.sent[|l.sent| - 1], m)
  }

  lemma {:induction false} OrderIsTransitive(h: seq<Config>, a: Snapshot, b: Snapshot, c: Snapshot)
    requires VersionsTell(h) && InThisOrder(h, a, b) && InThisOrder(h, b, c)
    ensures InThisOrder(h, a, c)
  {
    var i, j :| 0 <= i <= j < |h| && SnapshotOf(h[i]) == a && SnapshotOf(h[j]) == b;
    var k, l :| 0 <= k <= l < |h| && SnapshotOf(h[k]) == b && SnapshotOf(h[l]) == c;
    if l < i {
      BetweenUses(h, k, i, j);
      BetweenUses(h, k, l, j);
      assert SnapshotOf(h[k]) == a && SnapshotOf(h[l]) == c;
    }
  }

  lemma {:induction false} BetweenUses(h: seq<Config>, i: nat, k: nat, j: nat)
    requires VersionsTell(h) && i <= k <= j < |h| && SnapshotOf(h[i]) == SnapshotOf(h[j])
    ensures SnapshotOf(h[k]) == SnapshotOf(h[j])
  {
    assert h[i].version == h[j].version;
  }

  lemma {:induction false} AppendInOrder(h: seq<Config>, sent: seq<Snapshot>, m: Snapshot)
    requires VersionsTell(h) && InOrder(h, sent) && (sent != [] ==> InThisOrder(h, sent[|sent| - 1], m))
    ensures InOrder(h, sent + [m])
  {
    forall x | 0 <= x < |sent|
      ensures InThisOrder(h, sent[x], m)
    {
      if x < |sent| - 1 {
        OrderIsTransitive(h, sent[x], sent[|sent| - 1], m);
      }
    }
  }

  lemma {:induction false} OrderGrows(h: seq<Config>, longer: seq<Config>, sent: seq<Snapshot>)
    requires h <= longer && InOrder(h, sent)
    ensures InOrder(longer, sent)
  {
    forall x, y | 0 <= x < y < |sent|
      ensures InThisOrder(longer, sent[x], sent[y])
    {
      assert InThisOrder(h, sent[x], sent[y]);
      var i, j :| 0 <= i <= j < |h| && SnapshotOf(h[i]) == sent[x] && SnapshotOf(h[j]) == sent[y];
      assert longer[i] == h[i] && longer[j] == h[j];
    }
  }

  /** What a step appends to a connection. */
  ghost function Appended(s: System, m: Move, c: nat): seq<Snapshot>
    requires s.history != []
  {
    if c !in s.links || s.links[c].broken then []
    else if m == SendOne(c) && s.watcher.Sending? && c in s.watcher.pending then [s.watcher.snapshot]
    else if m == JoinSend(c) && s.links[c].join.Registered? then [SnapshotOf(Active(s))]
    else if m == JoinWrite(c) && s.links[c].join.Read? then [s.links[c].join.snapshot]
    else []
  }

  lemma {:induction false} StepAppends(s: System, m: Move, c: nat)
    requires s.history != [] && c in Step(s, m).links
    ensures Step(s, m).links[c].sent == (if c in s.links then s.links[c].sent else []) + Appended(s, m, c)
  {
    if m.SendOne? || m.JoinSend? || m.JoinWrite? {
      WriteAppends(s, m, c);
    } else {
      OthersAppendNothing(s, m, c);
    }
  }

  lemma {:induction false} WriteAppends(s: System, m: Move, c: nat)
    requires m.SendOne? || m.JoinSend? || m.JoinWrite?
    requires s.history != [] && c in Step(s, m).links
    ensures c in s.links && Step(s, m).links[c].sent == s.links[c].sent + Appended(s, m, c)
  {
    assert c in s.links && s.links[c].sent + [] == s.links[c].sent;
  }

  lemma {:induction false} OthersAppendNothing(s: System, m: Move, c: nat)
    requires !m.SendOne? && !m.JoinSend? && !m.JoinWrite?
    requires s.history != [] && c in Step(s, m).links
    ensures Step(s, m).links[c].sent == if c in s.links then s.links[c].sent else []
  {
  }

  lemma {:induction false} ActiveFollows(s: System, bootstrap: map<nat, Config>, c: nat)
    requires s.history != [] && Sourced(s, bootstrap) && c in s.links
    ensures MayFollow(s, c, SnapshotOf(Active(s)))
  {
    var l := s.links[c];
    if l.sent != [] {
      assert LinkPublished(s, l) && l.sent[|l.sent| - 1] in l.sent;
      assert Published(s, l.sent[|l.sent| - 1]);
      var i :| 0 <= i < |s.history| && l.sent[|l.sent| - 1] == SnapshotOf(s.history[i]);
      assert i <= |s.history| - 1;
    }
  }

  lemma {:induction false} StepKeepsOrder(s: System, bootstrap: map<nat, Config>, m: Move)
    requires s.history != [] && Sourced(s, bootstrap) && VersionsTell(s.history)
    requires LinksInOrder(s) && WriteForward(s, m)
    ensures LinksInOrder(Step(s, m))
  {
    HistoryOnlyGrows(s, m);
    forall c | c in Step(s, m).links
      ensures InOrder(Step(s, m).history, Step(s, m).links[c].sent)
    {
      StepAppends(s, m, c);
      if c in s.links {
        ActiveFollows(s, bootstrap, c);
        SentStaysInOrder(s, m, c);
        OrderGrows(s.history, Step(s, m).history, s.links[c].sent + Appended(s, m, c));
      }
    }
  }

  lemma {:induction false} SentStaysInOrder(s: System, m: Move, c: nat)
    requires s.history != [] && VersionsTell(s.history) && LinksInOrder(s) && c in s.links
    requires WriteForward(s, m) && MayFollow(s, c, SnapshotOf(Active(s)))
    ensures InOrder(s.history, s.links[c].sent + Appended(s, m, c))
  {
    var added := Appended(s, m, c);
    if added == [] {
      assert s.links[c].sent + added == s.links[c].sent;
    } else {
      assert added == [added[0]] && MayFollow(s, c, added[0]);
      AppendInOrder(s.history, s.links[c].sent, added[0]);
    }
  }

  ghost predicate WritesForward(initial: Config, bootstrap: map<nat, Config>, moves: seq<Move>) {
    forall n :: 0 <= n < |moves| ==> WriteForward(Exec(Start(initial, bootstrap), moves[..n]), moves[n])
  }

  lemma {:induction false} TellsAt(initial: Config, bootstrap: map<nat, Config>, moves: seq<Move>, n: nat)
    requires VersionsTell(Exec(Start(initial, bootstrap), moves).history) && n <= |moves|
    ensures VersionsTell(Exec(Start(initial, bootstrap), moves[..n]).history)
  {
    HistoryPrefix(Start(initial, bootstrap), moves, n);
    TellsBefore(Exec(Start(initial, bootstrap), moves[..n]).history, Exec(Start(initial, bootstrap), moves).history);
  }

  lemma {:induction false} PrefixStep(s: System, moves: seq<Move>, n: nat)
    requires s.history != [] && n < |moves|
    ensures Exec(s, moves[..n + 1]) == Step(Exec(s, moves[..n]), moves[n])
  {
    assert moves[..n + 1] == moves[..n] + [moves[n]];
    ExecSnoc(s, moves[..n], moves[n]);
  }

  lemma {:induction false} ForwardWritesKeepOrder(initial: Config, bootstrap: map<nat, Config>, moves: seq<Move>,
                                                  n: nat)
    requires VersionsTell(Exec(Start(initial, bootstrap), moves).history)
    requires WritesForward(initial, bootstrap, moves) && n <= |moves|
    ensures LinksInOrder(Exec(Start(initial, bootstrap), moves[..n]))
  {
    if n == 0 {
    } else {
      ForwardWritesKeepOrder(initial, bootstrap, moves, n - 1);
      TellsAt(initial, bootstrap, moves, n - 1);
      PlanesRunPublishedConfigs(initial, bootstrap, moves[..n - 1]);
      StepKeepsOrder(Exec(Start(initial, bootstrap), moves[..n - 1]), bootstrap, moves[n - 1]);
      PrefixStep(Start(initial, bootstrap), moves, n - 1);
    }
  }

  lemma {:induction false} BackwardWrite(s: System, m: Move)
    requires s.history != [] && !WriteForward(s, m)
    ensures !LinksInOrder(Step(s, m))
  {
    var sent, added := s.links[m.c].sent, Appended(s, m, m.c);
    StepAppends(s, m, m.c);
    assert (sent + added)[|sent| - 1] == sent[|sent| - 1] && (sent + added)[|sent|] == added[0];
    assert !InOrder(s.history, sent + added);
  }

  /** While versions tell, every connection's snapshots stay in history order, all along the run, exactly
      when no broadcast and no initial send writes a snapshot that was replaced before the one last
      sent on the connection was loaded. */
  lemma {:induction false} OrderIff(initial: Config, bootstrap: map<nat, Config>, moves: seq<Move>)
    requires VersionsTell(Exec(Start(initial, bootstrap), moves).history)
    ensures (forall n :: 0 <= n <= |moves| ==> LinksInOrder(Exec(Start(initial, bootstrap), moves[..n])))
            <==> WritesForward(initial, bootstrap, moves)
  {
    if WritesForward(initial, bootstrap, moves) {
      forall n | 0 <= n <= |moves|
        ensures LinksInOrder(Exec(Start(initial, bootstrap), moves[..n]))
      {
        ForwardWritesKeepOrder(initial, bootstrap, moves, n);
      }
    } else {
      BackwardWriteSomewhere(initial, bootstrap, moves);
    }
  }

  lemma {:induction false} BackwardWriteSomewhere(initial: Config, bootstrap: map<nat, Config>, moves: seq<Move>)
    requires !WritesForward(initial, bootstrap, moves)
    ensures exists n :: 0 <= n <= |moves| && !LinksInOrder(Exec(Start(initial, bootstrap), moves[..n]))
  {
    var start := Start(initial, bootstrap);
    var n :| 0 <= n < |moves| && !WriteForward(Exec(start, moves[..n]), moves[n]);
    BackwardWrite(Exec(start, moves[..n]), moves[n]);
    PrefixStep(start, moves, n);
    assert !LinksInOrder(Exec(start, moves[..n + 1]));
  }

  // ---- one change is harmless ----------------------------------------------------------------

  ghost predicate SentOnward(sent: seq<Snapshot>, a: Snapshot, b: Snapshot) {
    && (forall x :: 0 <= x < |sent| ==> sent[x] == a || sent[x] == b)
    && (forall x, y :: 0 <= x < y < |sent| && sent[x] == b ==> sent[y] == b)
  }

  /** The history changes once, from snapshot `a` to `b`, and whatever is about to be sent is up to date
      with that. */
  ghost predicate Onward(s: System, a: Snapshot, b: Snapshot)
    requires s.history != []
  {
    var active := SnapshotOf(Active(s));
    && SnapshotOf(s.history[0]) == a && (active == a || active == b)
    && (s.lastVersion == a.version || (s.lastVersion == b.version && active == b))
    && (!s.watcher.Idle? ==> active == b && s.watcher.current == b.version)
    && (s.watcher.Loaded? || s.watcher.Sending? ==> s.watcher.snapshot == b)
    && (forall c :: c in s.links ==> !s.links[c].join.Read? && SentOnward(s.links[c].sent, a, b))
    && (forall c :: c in s.links && b in s.links[c].sent ==> active == b)
  }

  lemma {:induction false} ReloadKeepsOnward(s: System, a: Snapshot, b: Snapshot, c: Config)
    requires s.history != [] && Onward(s, a, b)
    requires SnapshotOf(c) == b || (SnapshotOf(c) == a && SnapshotOf(Active(s)) == a)
    ensures Onward(Step(s, Reload(c)), a, b)
  {
  }

  lemma {:induction false} AppendOnward(sent: seq<Snapshot>, a: Snapshot, b: Snapshot, m: Snapshot)
    requires SentOnward(sent, a, b) && (m == b || (m == a && (b in sent ==> a == b)))
    ensures SentOnward(sent + [m], a, b)
  {
  }

  lemma {:induction false} WatcherKeepsOnward(s: System, a: Snapshot, b: Snapshot, m: Move)
    requires m.Tick? || m.ReadSnapshot? || m.LockClients? || m.FinishBroadcast? || m.Unregister?
    requires s.history != [] && Onward(s, a, b)
    ensures Onward(Step(s, m), a, b)
  {
  }

  lemma {:induction false} SendKeepsOnward(s: System, a: Snapshot, b: Snapshot, c: nat)
    requires s.history != [] && Onward(s, a, b)
    ensures Onward(SendTo(s, c), a, b)
  {
    if c in s.links {
      AppendOnward(s.links[c].sent, a, b, b);
    }
  }

  lemma {:induction false} JoinKeepsOnward(s: System, a: Snapshot, b: Snapshot, c: nat)
    requires s.history != [] && Onward(s, a, b)
    ensures Onward(Step(s, JoinSend(c)), a, b)
  {
    if c in s.links {
      AppendOnward(s.links[c].sent, a, b, SnapshotOf(Active(s)));
    }
  }

  lemma {:induction false} LinkKeepsOnward(s: System, a: Snapshot, b: Snapshot, m: Move)
    requires m.Connect? || m.JoinWrite? || m.Break? || m.Deliver?
    requires s.history != [] && Onward(s, a, b)
    ensures Onward(Step(s, m), a, b)
  {
    assert Step(s, m).history == s.history && Step(s, m).watcher == s.watcher;
  }

  lemma {:induction false} OneChangeOnward(h: seq<Config>, bootstrap: map<nat, Config>, moves: seq<Move>)
    requires h != [] && OneChange(h) && VersionsTell(h)
    requires JoinsAtomic(moves) && Exec(Start(h[0], bootstrap), moves).history <= h
    ensures Onward(Exec(Start(h[0], bootstrap), moves), SnapshotOf(h[0]), SnapshotOf(h[|h| - 1]))
  {
    if moves == [] {
    } else {
      var n := |moves| - 1;
      var a, b := SnapshotOf(h[0]), SnapshotOf(h[|h| - 1]);
      var s, m := Exec(Start(h[0], bootstrap), moves[..n]), moves[n];
      HistoryOnlyGrows(s, m);
      OneChangeOnward(h, bootstrap, moves[..n]);
      if m.Reload? {
        NextSnapshot(h, s.history, m.config);
        ReloadKeepsOnward(s, a, b, m.config);
      } else if m.SendOne? {
        SendKeepsOnward(s, a, b, m.c);
      } else if m.JoinSend? {
        JoinKeepsOnward(s, a, b, m.c);
      } else if m.Connect? || m.JoinWrite? || m.Break? || m.Deliver? {
        LinkKeepsOnward(s, a, b, m);
      } else {
        WatcherKeepsOnward(s, a, b, m);
      }
    }
  }

  lemma {:induction false} NextSnapshot(h: seq<Config>, before: seq<Config>, c: Config)
    requires h != [] && OneChange(h) && VersionsTell(h) && before != [] && before + [c] <= h
    ensures SnapshotOf(c) == SnapshotOf(h[|h| - 1]) ||
            (SnapshotOf(c) == SnapshotOf(h[0]) && SnapshotOf(before[|before| - 1]) == SnapshotOf(h[0]))
  {
    var k := |before|;
    assert h[k] == c && h[k - 1] == before[k - 1];
    assert SnapshotOf(c) == SnapshotOf(h[0]) ==> h[0].version == h[k].version;
  }

  lemma {:induction false} OnwardInOrder(s: System, a: Snapshot, b: Snapshot)
    requires s.history != [] && Onward(s, a, b)
    ensures LinksInOrder(s)
  {
    forall c, x, y | c in s.links && 0 <= x < y < |s.links[c].sent|
      ensures InThisOrder(s.history, s.links[c].sent[x], s.links[c].sent[y])
    {
      var sent, n := s.links[c].sent, |s.history| - 1;
      assert SnapshotOf(s.history[0]) == a && (b in sent ==> SnapshotOf(s.history[n]) == b);
      assert sent[x] in sent && sent[y] in sent;
    }
  }

  // ---- two changes are not -------------------------------------------------------------------

  /** Load the history up to `k`, let the watcher take the snapshot, load the rest, let plane `p` join,
      and let the watcher send what it took. */
  function Overtaken(h: seq<Config>, k: nat, p: nat): seq<Move>
    requires k < |h|
  {
    Loads(h[1..k + 1]) + ([Tick] + ([ReadSnapshot] + (Loads(h[k + 1..]) + (FirstJoin(p) + SendLate()))))
  }

  function SendLate(): seq<Move> {
    [LockClients] + ([SendOne(0)] + ([Deliver(0)] + []))
  }

  /** A watcher that holds the snapshot of `h[k]`, and nobody connected. */
  function Holding(h: seq<Config>, k: nat, n: nat, planes: map<nat, Config>): System
    requires k < |h| && n <= |h|
  {
    Unconnected(h[..n], h[0].version, planes).(watcher := Loaded(h[k].version, SnapshotOf(h[k])))
  }

  lemma {:induction false} TakesSnapshot(h: seq<Config>, k: nat, planes: map<nat, Config>, rest: seq<Move>)
    requires k < |h| && h[k].version != h[0].version
    ensures Exec(Unconnected(h[..k + 1], h[0].version, planes), [Tick] + ([ReadSnapshot] + rest)) ==
            Exec(Holding(h, k, k + 1, planes), rest)
  {
    var s := Unconnected(h[..k + 1], h[0].version, planes);
    Take(s, Tick, [ReadSnapshot] + rest, s.(watcher := Decided(h[k].version)));
    Take(s.(watcher := Decided(h[k].version)), ReadSnapshot, rest, Holding(h, k, k + 1, planes));
  }

  lemma {:induction false} LoadsRest(h: seq<Config>, k: nat, planes: map<nat, Config>, rest: seq<Move>)
    requires k < |h|
    ensures Exec(Holding(h, k, k + 1, planes), Loads(h[k + 1..]) + rest) == Exec(Holding(h, k, |h|, planes), rest)
  {
    AfterLoads(Holding(h, k, k + 1, planes), h[k + 1..]);
    assert h[..k + 1] + h[k + 1..] == h[..|h|];
    ExecConcat(Holding(h, k, k + 1, planes), Loads(h[k + 1..]), rest);
  }

  lemma {:induction false} JoinsAhead(h: seq<Config>, k: nat, planes: map<nat, Config>, p: nat)
    requires k < |h| && p in planes
    ensures Exec(Holding(h, k, |h|, planes), FirstJoin(p) + SendLate()) ==
            Exec(WithPlane(Holding(h, k, |h|, planes), p, SnapshotOf(h[|h| - 1])), SendLate())
  {
    AfterFirstJoinThen(Holding(h, k, |h|, planes), p, SendLate());
  }

  lemma {:induction false} LocksLate(s: System, rest: seq<Move>)
    requires s.history != [] && s.watcher.Loaded? && s.clients == {0}
    ensures Exec(s, [LockClients] + rest) ==
            Exec(s.(watcher := Sending(s.watcher.current, s.watcher.snapshot, {0})), rest)
  {
    Take(s, LockClients, rest, s.(watcher := Sending(s.watcher.current, s.watcher.snapshot, {0})));
  }

  lemma {:induction false} WritesLate(s: System, p: nat, newer: Snapshot, rest: seq<Move>)
    requires s.history != [] && s.watcher.Sending? && s.watcher.pending == {0}
    requires s.links == map[0 := Link(p, Joined, false, [newer], 1)]
    ensures Exec(s, [SendOne(0)] + rest) ==
            Exec(s.(watcher := s.watcher.(pending := {}),
                    links := map[0 := Link(p, Joined, false, [newer, s.watcher.snapshot], 1)]), rest)
  {
    var t := s.(watcher := s.watcher.(pending := {}),
                links := map[0 := Link(p, Joined, false, [newer, s.watcher.snapshot], 1)]);
    assert [newer] + [s.watcher.snapshot] == [newer, s.watcher.snapshot] && {0} - {0} == {};
    assert SendTo(s, 0).links == t.links;
    Take(s, SendOne(0), rest, t);
  }

  lemma {:induction false} AppliesLate(s: System, p: nat, newer: Snapshot, older: Snapshot)
    requires s.history != [] && s.current == map[p := 0]
    requires s.links == map[0 := Link(p, Joined, false, [newer, older], 1)]
    ensures Exec(s, [Deliver(0)] + []) ==
            s.(links := map[0 := Link(p, Joined, false, [newer, older], 2)], planes := s.planes[p := ConfigOf(older)])
  {
    assert Apply(s, 0).links == map[0 := Link(p, Joined, false, [newer, older], 2)];
    Take(s, Deliver(0), [], Apply(s, 0));
  }

  lemma {:induction false} SendsLate(s: System, p: nat, newer: Snapshot, older: Snapshot)
    requires s.history != [] && s.watcher.Loaded? && s.watcher.snapshot == older
    requires s.clients == {0} && s.links == map[0 := Link(p, Joined, false, [newer], 1)] && s.current == map[p := 0]
    ensures var t := Exec(s, SendLate());
            && t.history == s.history && t.links == map[0 := Link(p, Joined, false, [newer, older], 2)]
            && t.planes == s.planes[p := ConfigOf(older)]
  {
    var s1 := s.(watcher := Sending(s.watcher.current, older, {0}));
    LocksLate(s, [SendOne(0)] + ([Deliver(0)] + []));
    WritesLate(s1, p, newer, [Deliver(0)] + []);
    AppliesLate(s1.(watcher := s1.watcher.(pending := {}),
                    links := map[0 := Link(p, Joined, false, [newer, older], 1)]), p, newer, older);
  }

  /** With two changes a plane that has run the last config is sent back to the one in the middle. */
  lemma {:induction false} TwoChangesGoBack(h: seq<Config>, bootstrap: map<nat, Config>, k: nat, p: nat)
    requires k < |h| && VersionsTell(h) && p in bootstrap
    requires SnapshotOf(h[k]) != SnapshotOf(h[0]) && SnapshotOf(h[k]) != SnapshotOf(h[|h| - 1])
    ensures var s := Exec(Start(h[0], bootstrap), Overtaken(h, k, p));
            && s.history == h && 0 in s.links
            && s.links[0].sent == [SnapshotOf(h[|h| - 1]), SnapshotOf(h[k])]
            && p in s.planes && s.planes[p] == ConfigOf(SnapshotOf(h[k]))
  {
    var last := FirstJoin(p) + SendLate();
    assert h[..1] == [h[0]] && h[..|h|] == h;
    assert h[k].version != h[0].version;
    LoadsThen(h, h[0].version, bootstrap, 1, k + 1, [Tick] + ([ReadSnapshot] + (Loads(h[k + 1..]) + last)));
    TakesSnapshot(h, k, bootstrap, Loads(h[k + 1..]) + last);
    LoadsRest(h, k, bootstrap, last);
    JoinsAhead(h, k, bootstrap, p);
    SendsLate(WithPlane(Holding(h, k, |h|, bootstrap), p, SnapshotOf(h[|h| - 1])), p, SnapshotOf(h[|h| - 1]),
              SnapshotOf(h[k]));
  }

  lemma {:induction false} NotBackInOrder(h: seq<Config>, k: nat)
    requires k < |h| && VersionsTell(h) && SnapshotOf(h[k]) != SnapshotOf(h[|h| - 1])
    ensures !InThisOrder(h, SnapshotOf(h[|h| - 1]), SnapshotOf(h[k]))
  {
    forall i, j | 0 <= i <= j < |h| && SnapshotOf(h[i]) == SnapshotOf(h[|h| - 1])
      ensures SnapshotOf(h[j]) != SnapshotOf(h[k])
    {
      assert h[i].version == h[|h| - 1].version;
    }
  }

  lemma {:induction false} SentBack(s: System, m: Snapshot, n: Snapshot)
    requires 0 in s.links && s.links[0].sent == [m, n] && !InThisOrder(s.history, m, n)
    ensures !LinksInOrder(s)
  {
    assert !InThisOrder(s.history, s.links[0].sent[0], s.links[0].sent[1]);
  }

  lemma {:induction false} OvertakenIsAtomic(h: seq<Config>, k: nat, p: nat)
    requires k < |h|
    ensures JoinsAtomic(Overtaken(h, k, p))
  {
  }

  lemma {:induction false} TwoChangesBreakOrder(h: seq<Config>, bootstrap: map<nat, Config>)
    requires h != [] && bootstrap != map[] && VersionsTell(h) && !OneChange(h)
    ensures !AlwaysForward(h, bootstrap)
  {
    var k :| 0 <= k < |h| && SnapshotOf(h[k]) != SnapshotOf(h[0]) && SnapshotOf(h[k]) != SnapshotOf(h[|h| - 1]);
    var p :| p in bootstrap;
    var s := Exec(Start(h[0], bootstrap), Overtaken(h, k, p));
    TwoChangesGoBack(h, bootstrap, k, p);
    NotBackInOrder(h, k);
    SentBack(s, SnapshotOf(h[|h| - 1]), SnapshotOf(h[k]));
    OvertakenIsAtomic(h, k, p);
  }

  /** Over a file history whose versions tell, and with initial sends in one step, no run sends a
      connection an older snapshot after a newer one exactly when the history changes at most once. */
  lemma {:induction false} ForwardIff(h: seq<Config>, bootstrap: map<nat, Config>)
    requires h != [] && bootstrap != map[] && VersionsTell(h)
    ensures AlwaysForward(h, bootstrap) <==> OneChange(h)
  {
    if OneChange(h) {
      forall moves | JoinsAtomic(moves) && Exec(Start(h[0], bootstrap), moves).history <= h
        ensures LinksInOrder(Exec(Start(h[0], bootstrap), moves))
      {
        OneChangeOnward(h, bootstrap, moves);
        OnwardInOrder(Exec(Start(h[0], bootstrap), moves), SnapshotOf(h[0]), SnapshotOf(h[|h| - 1]));
      }
    } else {
      TwoChangesBreakOrder(h, bootstrap);
    }
  }
}
