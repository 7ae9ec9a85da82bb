/** Eventual agreement: after the file settles, one full watcher tick and drained connections, every
    connected data plane runs the control plane's config; exactly which initial sends break that; and
    the runs in which it fails. */
module DistributionAgreement {
  import opened ConfigModel
  import opened Routing
  import opened Distribution
  import opened DistributionSafety

  // ---- hypotheses on a run -------------------------------------------------------------------

  ghost predicate VersionKnown(s: System, v: string) {
    exists i :: 0 <= i < |s.history| && s.history[i].version == v
  }

  /** Whenever a version is used twice, every config loaded from the one use to the other has the same
      snapshot: the version tells the watcher whether there is anything to send. */
  ghost predicate VersionsTell(history: seq<Config>) {
    forall i, k, j :: 0 <= i <= k <= j < |history| && history[i].version == history[j].version ==>
      SnapshotOf(history[k]) == SnapshotOf(history[j])
  }

  /** Every initial send reads and writes in one step. */
  ghost predicate JoinsAtomic(moves: seq<Move>) {
    forall m :: m in moves ==> !m.JoinRead?
  }

  /** Writing the snapshot that connection `c` read on joining does no harm: the connection is broken,
      or the watcher will still serve it with the current version, or that is the one it read. */
  ghost predicate WriteHarmless(s: System, c: nat)
    requires s.history != []
  {
    Joining(s, c) && s.links[c].join.Read? ==>
      s.links[c].broken || !Served(s, c) || s.links[c].join.snapshot == SnapshotOf(Active(s))
  }

  ghost predicate JoinsHarmless(initial: Config, bootstrap: map<nat, Config>, moves: seq<Move>) {
    forall n :: 0 <= n < |moves| ==>
      (moves[n].JoinWrite? ==> WriteHarmless(Exec(Start(initial, bootstrap), moves[..n]), moves[n].c))
  }

  ghost predicate NoReload(moves: seq<Move>) {
    forall m :: m in moves ==> !m.Reload?
  }

  // ---- the invariant -------------------------------------------------------------------------

  /** The connection has had its initial snapshot and still works. */
  predicate Live(l: Link) {
    l.join.Joined? && !l.broken
  }

  predicate UpToDate(s: System, l: Link)
    requires s.history != []
  {
    l.sent != [] && l.sent[|l.sent| - 1] == SnapshotOf(Active(s))
  }

  /** A snapshot taken for the current version is the current one. */
  ghost predicate WatcherCurrent(s: System)
    requires s.history != []
  {
    match s.watcher
    case Idle => true
    case Decided(v) => VersionKnown(s, v)
    case Loaded(v, m) => VersionKnown(s, v) && (v == Active(s).version ==> m == SnapshotOf(Active(s)))
    case Sending(v, m, _) => VersionKnown(s, v) && (v == Active(s).version ==> m == SnapshotOf(Active(s)))
  }

  /** The watcher considers connection `c` served with the current version. */
  ghost predicate Served(s: System, c: nat)
    requires s.history != []
  {
    match s.watcher
    case Idle => s.lastVersion == Active(s).version
    case Sending(v, _, pending) => v == Active(s).version && c !in pending
    case _ => false
  }

  ghost predicate LinkAgrees(s: System, behind: set<nat>, c: nat)
    requires s.history != [] && c in s.links
  {
    && (!s.links[c].broken ==> c in s.clients)
    && (Live(s.links[c]) && Served(s, c) && c !in behind ==> UpToDate(s, s.links[c]))
  }

  /** The connections whose initial send was harmful and to which no broadcast has been written since,
      after one more move. */
  ghost function BehindAfter(s: System, behind: set<nat>, m: Move): set<nat>
    requires s.history != []
  {
    match m
    case JoinWrite(c) => if WriteHarmless(s, c) then behind else behind + {c}
    case SendOne(c) => if s.watcher.Sending? && c in s.watcher.pending then behind - {c} else behind
    case _ => behind
  }

  ghost function Behind(initial: Config, bootstrap: map<nat, Config>, moves: seq<Move>): set<nat> {
    if moves == [] then {}
    else
      var before := moves[..|moves| - 1];
      BehindAfter(Exec(Start(initial, bootstrap), before), Behind(initial, bootstrap, before), moves[|moves| - 1])
  }

  ghost predicate Agreeing(s: System, behind: set<nat>)
    requires s.history != []
  {
    && VersionKnown(s, s.lastVersion)
    && WatcherCurrent(s)
    && forall c :: c in s.links ==> LinkAgrees(s, behind, c)
  }

  lemma {:induction false} NewVersionKeepsAgreeing(s: System, behind: set<nat>, c: Config)
    requires s.history != [] && Agreeing(s, behind) && !VersionKnown(s, c.version)
    ensures Agreeing(Step(s, Reload(c)), behind)
  {
    var s' := Step(s, Reload(c));
    forall v | VersionKnown(s, v)
      ensures VersionKnown(s', v) && v != Active(s').version
    {
      var i :| 0 <= i < |s.history| && s.history[i].version == v;
      assert s'.history[i] == s.history[i];
    }
    forall d | d in s'.links
      ensures LinkAgrees(s', behind, d)
    {
      assert LinkAgrees(s, behind, d);
    }
  }

  /** A reload that would be sent as the same snapshot, such as a reformatted file. */
  lemma {:induction false} SameSnapshotKeepsAgreeing(s: System, behind: set<nat>, c: Config)
    requires s.history != [] && Agreeing(s, behind) && SnapshotOf(c) == SnapshotOf(Active(s))
    ensures Agreeing(Step(s, Reload(c)), behind)
  {
    var s' := Step(s, Reload(c));
    forall v | VersionKnown(s, v)
      ensures VersionKnown(s', v)
    {
      var i :| 0 <= i < |s.history| && s.history[i].version == v;
      assert s'.history[i] == s.history[i];
    }
    assert SnapshotOf(Active(s')) == SnapshotOf(Active(s)) && Active(s').version == Active(s).version;
    forall d | d in s'.links
      ensures LinkAgrees(s', behind, d)
    {
      assert LinkAgrees(s, behind, d);
      assert Served(s', d) <==> Served(s, d);
    }
  }

  lemma {:induction false} ReloadKeepsAgreeing(s: System, behind: set<nat>, c: Config)
    requires s.history != [] && Agreeing(s, behind) && VersionsTell(s.history + [c])
    ensures Agreeing(Step(s, Reload(c)), behind)
  {
    if VersionKnown(s, c.version) {
      var h := s.history + [c];
      var i :| 0 <= i < |s.history| && s.history[i].version == c.version;
      assert h[i].version == h[|s.history|].version;
      assert SnapshotOf(h[|s.history| - 1]) == SnapshotOf(h[|s.history|]);
      SameSnapshotKeepsAgreeing(s, behind, c);
    } else {
      NewVersionKeepsAgreeing(s, behind, c);
    }
  }

  lemma TellsBefore(history: seq<Config>, longer: seq<Config>)
    requires history <= longer && VersionsTell(longer)
    ensures VersionsTell(history)
  {
    forall i, k, j | 0 <= i <= k <= j < |history| && history[i].version == history[j].version
      ensures SnapshotOf(history[k]) == SnapshotOf(history[j])
    {
      assert longer[i] == history[i] && longer[k] == history[k] && longer[j] == history[j];
    }
  }

  lemma {:induction false} TickKeepsAgreeing(s: System, behind: set<nat>, m: Move)
    requires m.Tick? || m.ReadSnapshot?
    requires s.history != [] && Agreeing(s, behind)
    ensures Agreeing(Step(s, m), behind)
  {
    var s' := Step(s, m);
    assert s'.history == s.history && s'.links == s.links;
    assert VersionKnown(s, Active(s).version);
    assert forall v :: VersionKnown(s, v) ==> VersionKnown(s', v);
    forall c | c in s'.links
      ensures LinkAgrees(s', behind, c)
    {
      assert LinkAgrees(s, behind, c);
    }
  }

  lemma {:induction false} BroadcastKeepsAgreeing(s: System, behind: set<nat>, m: Move)
    requires m.LockClients? || m.FinishBroadcast? || m.Unregister?
    requires s.history != [] && Agreeing(s, behind)
    ensures Agreeing(Step(s, m), behind)
  {
    var s' := Step(s, m);
    assert s'.history == s.history && s'.links == s.links;
    assert VersionKnown(s, Active(s).version);
    assert forall v :: VersionKnown(s, v) ==> VersionKnown(s', v);
    forall c | c in s'.links
      ensures LinkAgrees(s', behind, c)
    {
      assert LinkAgrees(s, behind, c);
    }
  }

  lemma {:induction false} WireKeepsAgreeing(s: System, behind: set<nat>, m: Move)
    requires m.Break? || m.Deliver?
    requires s.history != [] && Agreeing(s, behind)
    ensures Agreeing(Step(s, m), behind)
  {
    var s' := Step(s, m);
    assert s'.history == s.history && s'.lastVersion == s.lastVersion;
    assert forall v :: VersionKnown(s, v) ==> VersionKnown(s', v);
    forall c | c in s'.links
      ensures LinkAgrees(s', behind, c)
    {
      if c in s.links {
        assert LinkAgrees(s, behind, c);
      }
    }
  }

  lemma {:induction false} JoinKeepsAgreeing(s: System, behind: set<nat>, m: Move)
    requires m.Connect? || m.JoinSend? || m.JoinRead?
    requires s.history != [] && Agreeing(s, behind)
    ensures Agreeing(Step(s, m), behind)
  {
    var s' := Step(s, m);
    assert s'.history == s.history && s'.lastVersion == s.lastVersion;
    assert forall v :: VersionKnown(s, v) ==> VersionKnown(s', v);
    forall c | c in s'.links
      ensures LinkAgrees(s', behind, c)
    {
      if c in s.links {
        assert LinkAgrees(s, behind, c);
      }
    }
  }

  lemma {:induction false} WriteKeepsAgreeing(s: System, behind: set<nat>, m: Move)
    requires m.JoinWrite? || m.SendOne?
    requires s.history != [] && Agreeing(s, behind)
    ensures Agreeing(Step(s, m), BehindAfter(s, behind, m))
  {
    var s' := Step(s, m);
    assert s'.history == s.history && s'.lastVersion == s.lastVersion;
    assert forall v :: VersionKnown(s, v) ==> VersionKnown(s', v);
    forall d | d in s'.links
      ensures LinkAgrees(s', BehindAfter(s, behind, m), d)
    {
      assert LinkAgrees(s, behind, d);
    }
  }

  lemma HistoryOnlyGrows(s: System, m: Move)
    requires s.history != []
    ensures s.history <= Step(s, m).history
  {
  }

  lemma {:induction false} StepKeepsAgreeing(s: System, behind: set<nat>, m: Move)
    requires s.history != [] && Agreeing(s, behind) && VersionsTell(Step(s, m).history)
    ensures Agreeing(Step(s, m), BehindAfter(s, behind, m))
  {
    if m.Reload? {
      ReloadKeepsAgreeing(s, behind, m.config);
    } else if m.Tick? || m.ReadSnapshot? {
      TickKeepsAgreeing(s, behind, m);
    } else if m.LockClients? || m.FinishBroadcast? || m.Unregister? {
      BroadcastKeepsAgreeing(s, behind, m);
    } else if m.Break? || m.Deliver? {
      WireKeepsAgreeing(s, behind, m);
    } else if m.JoinWrite? || m.SendOne? {
      WriteKeepsAgreeing(s, behind, m);
    } else {
      JoinKeepsAgreeing(s, behind, m);
    }
  }

  /** While versions tell, every live connection that the watcher considers served has the current
      snapshot last, unless it is behind. */
  lemma {:induction false} RunKeepsAgreeing(initial: Config, bootstrap: map<nat, Config>, moves: seq<Move>)
    requires VersionsTell(Exec(Start(initial, bootstrap), moves).history)
    ensures Agreeing(Exec(Start(initial, bootstrap), moves), Behind(initial, bootstrap, moves))
  {
    var s := Exec(Start(initial, bootstrap), moves);
    if moves == [] {
      assert s.history[0].version == s.lastVersion;
    } else {
      var n := |moves| - 1;
      var before := Exec(Start(initial, bootstrap), moves[..n]);
      HistoryOnlyGrows(before, moves[n]);
      TellsBefore(before.history, s.history);
      RunKeepsAgreeing(initial, bootstrap, moves[..n]);
      StepKeepsAgreeing(before, Behind(initial, bootstrap, moves[..n]), moves[n]);
    }
  }

  lemma {:induction false} HarmlessBefore(initial: Config, bootstrap: map<nat, Config>, moves: seq<Move>, n: nat)
    requires JoinsHarmless(initial, bootstrap, moves) && n <= |moves|
    ensures JoinsHarmless(initial, bootstrap, moves[..n])
  {
    forall k | 0 <= k < n && moves[..n][k].JoinWrite?
      ensures WriteHarmless(Exec(Start(initial, bootstrap), moves[..n][..k]), moves[..n][k].c)
    {
      assert moves[..n][..k] == moves[..k];
    }
  }

  lemma {:induction false} HarmlessNoneBehind(initial: Config, bootstrap: map<nat, Config>, moves: seq<Move>)
    requires JoinsHarmless(initial, bootstrap, moves)
    ensures Behind(initial, bootstrap, moves) == {}
  {
    if moves == [] {
    } else {
      HarmlessBefore(initial, bootstrap, moves, |moves| - 1);
      HarmlessNoneBehind(initial, bootstrap, moves[..|moves| - 1]);
    }
  }

  /** In every reachable state the watcher has yet to see the current version, or a broadcast is in
      progress, or the last snapshot sent on every live connection is the current one. */
  lemma {:induction false} AgreementInvariant(initial: Config, bootstrap: map<nat, Config>, moves: seq<Move>)
    requires JoinsHarmless(initial, bootstrap, moves)
    requires VersionsTell(Exec(Start(initial, bootstrap), moves).history)
    ensures var s := Exec(Start(initial, bootstrap), moves);
            || s.lastVersion != Active(s).version
            || !s.watcher.Idle?
            || (forall c :: c in s.links && Live(s.links[c]) ==> UpToDate(s, s.links[c]))
  {
    RunKeepsAgreeing(initial, bootstrap, moves);
    HarmlessNoneBehind(initial, bootstrap, moves);
    var s := Exec(Start(initial, bootstrap), moves);
    forall c | c in s.links && Live(s.links[c]) && Served(s, c)
      ensures UpToDate(s, s.links[c])
    {
      assert LinkAgrees(s, {}, c);
    }
  }

  /** Every live connection that the watcher considers served has the current snapshot sent last. */
  ghost predicate InAgreement(s: System)
    requires s.history != []
  {
    forall c :: c in s.links && Live(s.links[c]) && Served(s, c) ==> UpToDate(s, s.links[c])
  }

  /** With versions that tell, a run is in agreement all along exactly when none of its initial
      sends writes an outdated snapshot to a connection that has already been served. */
  lemma {:induction false} AgreementIff(initial: Config, bootstrap: map<nat, Config>, moves: seq<Move>)
    requires VersionsTell(Exec(Start(initial, bootstrap), moves).history)
    ensures (forall n :: 0 <= n <= |moves| ==> InAgreement(Exec(Start(initial, bootstrap), moves[..n])))
            <==> JoinsHarmless(initial, bootstrap, moves)
  {
    if JoinsHarmless(initial, bootstrap, moves) {
      forall n | 0 <= n <= |moves|
        ensures InAgreement(Exec(Start(initial, bootstrap), moves[..n]))
      {
        HarmlessAgrees(initial, bootstrap, moves, n);
      }
    } else {
      HarmfulDisagrees(initial, bootstrap, moves);
    }
  }

  lemma {:induction false} HarmlessAgrees(initial: Config, bootstrap: map<nat, Config>, moves: seq<Move>, n: nat)
    requires JoinsHarmless(initial, bootstrap, moves) && n <= |moves|
    requires VersionsTell(Exec(Start(initial, bootstrap), moves).history)
    ensures InAgreement(Exec(Start(initial, bootstrap), moves[..n]))
  {
    var s := Exec(Start(initial, bootstrap), moves[..n]);
    HarmlessBefore(initial, bootstrap, moves, n);
    HistoryPrefix(Start(initial, bootstrap), moves, n);
    TellsBefore(s.history, Exec(Start(initial, bootstrap), moves).history);
    RunKeepsAgreeing(initial, bootstrap, moves[..n]);
    HarmlessNoneBehind(initial, bootstrap, moves[..n]);
    assert forall c :: c in s.links ==> LinkAgrees(s, {}, c);
  }

  lemma HarmfulDisagrees(initial: Config, bootstrap: map<nat, Config>, moves: seq<Move>)
    requires !JoinsHarmless(initial, bootstrap, moves)
    ensures exists n :: 0 <= n <= |moves| && !InAgreement(Exec(Start(initial, bootstrap), moves[..n]))
  {
    var start := Start(initial, bootstrap);
    var n :| 0 <= n < |moves| && moves[n].JoinWrite? && !WriteHarmless(Exec(start, moves[..n]), moves[n].c);
    HarmfulWrite(Exec(start, moves[..n]), moves[n].c);
    assert moves[..n + 1] == moves[..n] + [moves[n]];
    ExecSnoc(start, moves[..n], moves[n]);
    assert !InAgreement(Exec(start, moves[..n + 1]));
  }

  lemma HarmfulWrite(s: System, c: nat)
    requires s.history != [] && !WriteHarmless(s, c)
    ensures !InAgreement(Step(s, JoinWrite(c)))
  {
    var t := Step(s, JoinWrite(c));
    assert Served(t, c) && Live(t.links[c]) && !UpToDate(t, t.links[c]);
  }

  lemma {:induction false} HistoryPrefix(s: System, moves: seq<Move>, n: nat)
    requires s.history != [] && n <= |moves|
    ensures Exec(s, moves[..n]).history <= Exec(s, moves).history
  {
    if n < |moves| {
      var k := |moves| - 1;
      HistoryPrefix(s, moves[..k], n);
      assert moves[..k][..n] == moves[..n];
      HistoryOnlyGrows(Exec(s, moves[..k]), moves[k]);
    } else {
      assert moves[..n] == moves;
    }
  }

  /** Initial sends that read and write in one step are harmless. */
  lemma {:induction false} AtomicJoinsAreHarmless(initial: Config, bootstrap: map<nat, Config>, moves: seq<Move>)
    requires JoinsAtomic(moves)
    ensures JoinsHarmless(initial, bootstrap, moves)
    ensures forall c :: c in Exec(Start(initial, bootstrap), moves).links ==>
                          !Exec(Start(initial, bootstrap), moves).links[c].join.Read?
  {
    if moves == [] {
    } else {
      var n := |moves| - 1;
      AtomicJoinsAreHarmless(initial, bootstrap, moves[..n]);
      forall k | 0 <= k < |moves| && moves[k].JoinWrite?
        ensures WriteHarmless(Exec(Start(initial, bootstrap), moves[..k]), moves[k].c)
      {
        if k < n {
          assert moves[..n][..k] == moves[..k] && moves[..n][k] == moves[k];
        }
      }
      NoneReading(Exec(Start(initial, bootstrap), moves[..n]), moves[n]);
    }
  }

  lemma NoneReading(s: System, m: Move)
    requires s.history != [] && !m.JoinRead?
    requires forall c :: c in s.links ==> !s.links[c].join.Read?
    ensures forall c :: c in Step(s, m).links ==> !Step(s, m).links[c].join.Read?
  {
  }

  // ---- which connections are behind, exactly -------------------------------------------------

  /** What was last sent on the connection has been replaced since it was loaded. */
  ghost predicate Outdated(s: System, c: nat) {
    && c in s.links && s.links[c].join.Joined? && s.links[c].sent != []
    && exists i, k :: 0 <= i < k < |s.history| && SnapshotOf(s.history[i]) == s.links[c].sent[|s.links[c].sent| - 1]
                      && SnapshotOf(s.history[k]) != SnapshotOf(s.history[i])
  }

  ghost predicate AllOutdated(s: System, behind: set<nat>) {
    forall c :: c in behind ==> Outdated(s, c)
  }

  lemma {:induction false} StaysOutdated(s: System, t: System, c: nat)
    requires Outdated(s, c) && s.history <= t.history
    requires c in t.links && t.links[c].join.Joined? && t.links[c].sent == s.links[c].sent
    ensures Outdated(t, c)
  {
    var i, k :| 0 <= i < k < |s.history| && SnapshotOf(s.history[i]) == s.links[c].sent[|s.links[c].sent| - 1]
                && SnapshotOf(s.history[k]) != SnapshotOf(s.history[i]);
    assert t.history[i] == s.history[i] && t.history[k] == s.history[k];
  }

  lemma {:induction false} OnlyWritesChangeSent(s: System, m: Move, c: nat)
    requires s.history != [] && c in s.links && s.links[c].join.Joined?
    requires m.SendOne? ==> m.c != c || !s.watcher.Sending? || c !in s.watcher.pending
    ensures c in Step(s, m).links && Step(s, m).links[c].join.Joined? && Step(s, m).links[c].sent == s.links[c].sent
  {
  }

  lemma {:induction false} HarmfulWriteIsOutdated(s: System, c: nat)
    requires s.history != [] && !WriteHarmless(s, c) && LinkPublished(s, s.links[c])
    ensures Outdated(Step(s, JoinWrite(c)), c)
  {
    var i :| 0 <= i < |s.history| && s.links[c].join.snapshot == SnapshotOf(s.history[i]);
    assert SnapshotOf(s.history[|s.history| - 1]) != SnapshotOf(s.history[i]);
  }

  lemma {:induction false} StepKeepsOutdated(s: System, bootstrap: map<nat, Config>, behind: set<nat>, m: Move)
    requires s.history != [] && AllOutdated(s, behind) && Sourced(s, bootstrap)
    ensures AllOutdated(Step(s, m), BehindAfter(s, behind, m))
  {
    HistoryOnlyGrows(s, m);
    forall c | c in BehindAfter(s, behind, m)
      ensures Outdated(Step(s, m), c)
    {
      if m == JoinWrite(c) && !WriteHarmless(s, c) {
        HarmfulWriteIsOutdated(s, c);
      } else {
        OnlyWritesChangeSent(s, m, c);
        StaysOutdated(s, Step(s, m), c);
      }
    }
  }

  lemma {:induction false} BehindIsOutdated(initial: Config, bootstrap: map<nat, Config>, moves: seq<Move>)
    ensures AllOutdated(Exec(Start(initial, bootstrap), moves), Behind(initial, bootstrap, moves))
  {
    if moves == [] {
    } else {
      var n := |moves| - 1;
      BehindIsOutdated(initial, bootstrap, moves[..n]);
      PlanesRunPublishedConfigs(initial, bootstrap, moves[..n]);
      StepKeepsOutdated(Exec(Start(initial, bootstrap), moves[..n]), bootstrap,
                        Behind(initial, bootstrap, moves[..n]), moves[n]);
    }
  }

  /** While versions tell, a served live connection has the current snapshot last exactly when it is not
      behind: when its initial send was not harmful, or a broadcast has been written to it since. */
  lemma {:induction false} BehindIff(initial: Config, bootstrap: map<nat, Config>, moves: seq<Move>, c: nat)
    requires VersionsTell(Exec(Start(initial, bootstrap), moves).history)
    requires c in Exec(Start(initial, bootstrap), moves).links
    requires Live(Exec(Start(initial, bootstrap), moves).links[c]) && Served(Exec(Start(initial, bootstrap), moves), c)
    ensures var s := Exec(Start(initial, bootstrap), moves);
            UpToDate(s, s.links[c]) <==> c !in Behind(initial, bootstrap, moves)
  {
    var s := Exec(Start(initial, bootstrap), moves);
    RunKeepsAgreeing(initial, bootstrap, moves);
    BehindIsOutdated(initial, bootstrap, moves);
    assert LinkAgrees(s, Behind(initial, bootstrap, moves), c);
    if c in Behind(initial, bootstrap, moves) {
      assert Outdated(s, c);
      OutdatedForGood(s, c);
    }
  }

  lemma {:induction false} OutdatedForGood(s: System, c: nat)
    requires s.history != [] && VersionsTell(s.history) && Outdated(s, c)
    ensures !UpToDate(s, s.links[c])
  {
    var i, k :| 0 <= i < k < |s.history| && SnapshotOf(s.history[i]) == s.links[c].sent[|s.links[c].sent| - 1]
                && SnapshotOf(s.history[k]) != SnapshotOf(s.history[i]);
    assert SnapshotOf(s.history[i]) != SnapshotOf(Active(s));
  }

  // ---- one full tick catches up --------------------------------------------------------------

  /** The watcher is on its way to recording the current version, or has. */
  predicate CatchingUp(s: System)
    requires s.history != []
  {
    match s.watcher
    case Idle => s.lastVersion == Active(s).version
    case Decided(v) => v == Active(s).version
    case Loaded(v, _) => v == Active(s).version
    case Sending(v, _, _) => v == Active(s).version
  }

  lemma StepKeepsCatchingUp(s: System, m: Move)
    requires s.history != [] && CatchingUp(s) && !m.Reload?
    ensures Step(s, m).history == s.history && CatchingUp(Step(s, m))
  {
  }

  lemma TickStartsCatchingUp(s: System)
    requires s.history != [] && s.watcher.Idle?
    ensures CatchingUp(WatcherTick(s)) && WatcherTick(s).history == s.history
  {
  }

  lemma {:induction false} TickCatchesUp(s: System, moves: seq<Move>)
    requires s.history != [] && s.watcher.Idle? && NoReload(moves)
    ensures CatchingUp(Exec(s, [Tick] + moves))
    ensures Exec(s, [Tick] + moves).history == s.history
  {
    if moves == [] {
      assert [Tick] + moves == [Tick] + [];
      Take(s, Tick, [], WatcherTick(s));
      TickStartsCatchingUp(s);
    } else {
      var n := |moves| - 1;
      TickCatchesUp(s, moves[..n]);
      assert [Tick] + moves == ([Tick] + moves[..n]) + [moves[n]];
      ExecSnoc(s, [Tick] + moves[..n], moves[n]);
      StepKeepsCatchingUp(Exec(s, [Tick] + moves[..n]), moves[n]);
    }
  }

  // ---- delivery ------------------------------------------------------------------------------

  /** A plane runs the last snapshot it has read from its connection. */
  ghost predicate PlaneDelivered(s: System, p: nat)
    requires p in s.current
  {
    && s.current[p] in s.links && p in s.planes
    && var l := s.links[s.current[p]];
       && l.plane == p && l.received <= |l.sent|
       && (l.received > 0 ==> s.planes[p] == ConfigOf(l.sent[l.received - 1]))
  }

  ghost predicate Delivered(s: System) {
    forall p :: p in s.current ==> PlaneDelivered(s, p)
  }

  lemma {:induction false} PlanesFollowConnections(initial: Config, bootstrap: map<nat, Config>, moves: seq<Move>)
    ensures Delivered(Exec(Start(initial, bootstrap), moves))
  {
    if moves == [] {
    } else {
      var before := Exec(Start(initial, bootstrap), moves[..|moves| - 1]);
      PlanesFollowConnections(initial, bootstrap, moves[..|moves| - 1]);
      StepKeepsDelivered(before, moves[|moves| - 1]);
    }
  }

  /** A plane whose connection, and whose place in the fleet, a step leaves alone but for what is
      written to the connection. */
  ghost predicate PlaneUntouched(s: System, t: System, p: nat) {
    && (p in t.current ==> p in s.current && s.current[p] == t.current[p] && p in s.planes && s.current[p] in s.links)
    && (p in t.current ==>
          && p in t.planes && t.planes[p] == s.planes[p] && t.current[p] in t.links
          && var l, k := s.links[s.current[p]], t.links[t.current[p]];
             k.plane == l.plane && k.received == l.received && l.sent <= k.sent)
  }

  lemma UntouchedStaysDelivered(s: System, t: System, p: nat)
    requires Delivered(s) && PlaneUntouched(s, t, p) && p in t.current
    ensures PlaneDelivered(t, p)
  {
    assert PlaneDelivered(s, p);
  }

  lemma WriteLeavesPlanes(s: System, m: Move, p: nat)
    requires m.SendOne? || m.JoinSend? || m.JoinRead? || m.JoinWrite? || m.Break?
    requires s.history != [] && Delivered(s)
    ensures PlaneUntouched(s, Step(s, m), p)
  {
    assert p in s.current ==> PlaneDelivered(s, p);
  }

  lemma WatcherLeavesPlanes(s: System, m: Move, p: nat)
    requires m.Reload? || m.Tick? || m.ReadSnapshot? || m.LockClients? || m.FinishBroadcast? || m.Unregister?
    requires s.history != [] && Delivered(s)
    ensures PlaneUntouched(s, Step(s, m), p)
  {
    assert p in s.current ==> PlaneDelivered(s, p);
  }

  lemma DialKeepsDelivered(s: System, c: nat, plane: nat)
    requires Delivered(s)
    ensures Delivered(Dial(s, c, plane))
  {
    var t := Dial(s, c, plane);
    forall p | p in t.current
      ensures PlaneDelivered(t, p)
    {
      assert p in s.current ==> PlaneDelivered(s, p);
    }
  }

  lemma ApplyKeepsDelivered(s: System, c: nat)
    requires Delivered(s)
    ensures Delivered(Apply(s, c))
  {
    var t := Apply(s, c);
    forall p | p in t.current
      ensures PlaneDelivered(t, p)
    {
      assert PlaneDelivered(s, p);
      assert c in s.links && s.links[c].plane in s.current ==> PlaneDelivered(s, s.links[c].plane);
    }
  }

  lemma StepKeepsDelivered(s: System, m: Move)
    requires s.history != [] && Delivered(s)
    ensures Delivered(Step(s, m))
  {
    if m.Connect? {
      DialKeepsDelivered(s, m.c, m.plane);
    } else if m.Deliver? {
      ApplyKeepsDelivered(s, m.c);
    } else {
      forall p | p in Step(s, m).current
        ensures PlaneDelivered(Step(s, m), p)
      {
        if m.SendOne? || m.JoinSend? || m.JoinRead? || m.JoinWrite? || m.Break? {
          WriteLeavesPlanes(s, m, p);
        } else {
          WatcherLeavesPlanes(s, m, p);
        }
        UntouchedStaysDelivered(s, Step(s, m), p);
      }
    }
  }

  /** The plane's current connection works, has had its initial snapshot, and has been read dry. */
  predicate Drained(s: System, p: nat) {
    && p in s.current && p in s.planes && s.current[p] in s.links
    && var l := s.links[s.current[p]]; Live(l) && l.received == |l.sent|
  }

  /** The plane runs the control plane's active config: the same version, and for every key the same
      routing decision. */
  ghost predicate RunsCurrent(s: System, p: nat)
    requires s.history != [] && p in s.planes
  {
    && s.planes[p] == ConfigOf(SnapshotOf(Active(s)))
    && s.planes[p].version == Active(s).version
    && forall key :: RouteUnder(s.planes[p], key) == RouteUnder(Active(s), key)
  }

  lemma {:induction false} CurrentMeans(s: System, p: nat)
    requires s.history != [] && p in s.planes
    ensures RunsCurrent(s, p) <==> s.planes[p] == ConfigOf(SnapshotOf(Active(s)))
  {
    forall key
      ensures RouteUnder(ConfigOf(SnapshotOf(Active(s))), key) == RouteUnder(Active(s), key)
    {
      SnapshotRoutes(Active(s), key);
    }
  }

  /** Eventual agreement. Take any run, with versions that tell, up to a moment when the watcher is idle;
      let the file stay as it is from then on, let the watcher tick, and let anything at all happen in
      any order, in however many steps, until the watcher is idle again: a data plane whose connection
      has been read dry runs the control plane's current config exactly when its connection is not
      behind, and so without fail if all initial sends are harmless. */
  lemma {:induction false} EventualAgreement(initial: Config, bootstrap: map<nat, Config>, past: seq<Move>,
                                             rest: seq<Move>, p: nat)
    requires Exec(Start(initial, bootstrap), past).watcher.Idle?
    requires NoReload(rest) && VersionsTell(Exec(Start(initial, bootstrap), past).history)
    requires Exec(Start(initial, bootstrap), past + ([Tick] + rest)).watcher.Idle?
    requires Drained(Exec(Start(initial, bootstrap), past + ([Tick] + rest)), p)
    ensures var moves := past + ([Tick] + rest);
            var s := Exec(Start(initial, bootstrap), moves);
            && s.history == Exec(Start(initial, bootstrap), past).history
            && (RunsCurrent(s, p) <==> s.current[p] !in Behind(initial, bootstrap, moves))
            && (JoinsHarmless(initial, bootstrap, moves) ==> RunsCurrent(s, p))
  {
    var moves := past + ([Tick] + rest);
    var s := Exec(Start(initial, bootstrap), moves);
    ExecConcat(Start(initial, bootstrap), past, [Tick] + rest);
    TickCatchesUp(Exec(Start(initial, bootstrap), past), rest);
    DrainedIff(initial, bootstrap, moves, p);
    if JoinsHarmless(initial, bootstrap, moves) {
      HarmlessNoneBehind(initial, bootstrap, moves);
    }
  }

  lemma {:induction false} DrainedIff(initial: Config, bootstrap: map<nat, Config>, moves: seq<Move>, p: nat)
    requires VersionsTell(Exec(Start(initial, bootstrap), moves).history)
    requires Settled(Exec(Start(initial, bootstrap), moves), p)
    ensures var s := Exec(Start(initial, bootstrap), moves);
            && (RunsCurrent(s, p) <==> s.planes[p] == ConfigOf(SnapshotOf(Active(s))))
            && (RunsCurrent(s, p) <==> s.current[p] !in Behind(initial, bootstrap, moves))
  {
    var s := Exec(Start(initial, bootstrap), moves);
    CurrentMeans(s, p);
    PlanesFollowConnections(initial, bootstrap, moves);
    assert PlaneDelivered(s, p);
    BehindIff(initial, bootstrap, moves, s.current[p]);
    RunKeepsLiveWritten(initial, bootstrap, moves);
    var l := s.links[s.current[p]];
    assert s.planes[p] == ConfigOf(l.sent[|l.sent| - 1]);
  }

  /** A working connection past its initial send has been written to. */
  ghost predicate LiveWritten(s: System) {
    forall c :: c in s.links && Live(s.links[c]) ==> s.links[c].sent != []
  }

  lemma {:induction false} RunKeepsLiveWritten(initial: Config, bootstrap: map<nat, Config>, moves: seq<Move>)
    ensures LiveWritten(Exec(Start(initial, bootstrap), moves))
  {
    if moves == [] {
    } else {
      RunKeepsLiveWritten(initial, bootstrap, moves[..|moves| - 1]);
      StepKeepsLiveWritten(Exec(Start(initial, bootstrap), moves[..|moves| - 1]), moves[|moves| - 1]);
    }
  }

  lemma {:induction false} StepKeepsLiveWritten(s: System, m: Move)
    requires s.history != [] && LiveWritten(s)
    ensures LiveWritten(Step(s, m))
  {
  }

  /** Nothing is outstanding: the watcher is idle and has the current version, and plane `p` has read
      everything sent on its working connection. */
  predicate Settled(s: System, p: nat)
    requires s.history != []
  {
    s.watcher.Idle? && s.lastVersion == Active(s).version && Drained(s, p)
  }

  // ---- where it fails ------------------------------------------------------------------------

  lemma StepKeepsSettled(s: System, p: nat, m: Move)
    requires s.history != [] && Settled(s, p) && Delivered(s)
    requires !m.Reload? && (m.Break? ==> m.c != s.current[p])
    ensures var t := Step(s, m);
            && Settled(t, p) && t.current[p] == s.current[p]
            && t.planes[p] == s.planes[p] && t.links[t.current[p]] == s.links[s.current[p]]
  {
  }

  /** Once settled, a plane's config does not change until the file is reloaded or its connection is
      lost, however often the watcher ticks: a plane left behind stays behind. */
  lemma {:induction false} SettledIsStable(s: System, p: nat, moves: seq<Move>)
    requires s.history != [] && Settled(s, p) && Delivered(s)
    requires NoReload(moves) && forall m :: m in moves && m.Break? ==> m.c != s.current[p]
    ensures var t := Exec(s, moves);
            && Settled(t, p) && t.current[p] == s.current[p] && Delivered(t)
            && t.planes[p] == s.planes[p] && t.links[t.current[p]] == s.links[s.current[p]]
  {
    if moves == [] {
    } else {
      var n := |moves| - 1;
      SettledIsStable(s, p, moves[..n]);
      StepKeepsSettled(Exec(s, moves[..n]), p, moves[n]);
      StepKeepsDelivered(Exec(s, moves[..n]), moves[n]);
    }
  }

  /** The run in which plane 0 reads the old config for its initial send, a reload is broadcast to it,
      and only then is the old config written. */
  function StaleJoin(newer: Config): seq<Move> {
    [Connect(0, 0)] + ([JoinRead(0)] + ([Reload(newer)] + AfterReload()))
  }

  function AfterReload(): seq<Move> {
    [Tick] + ([ReadSnapshot] + ([LockClients] + ([SendOne(0)] + ([FinishBroadcast] + AfterBroadcast()))))
  }

  function AfterBroadcast(): seq<Move> {
    [JoinWrite(0)] + ([Deliver(0)] + ([Deliver(0)] + []))
  }

  /** Plane 0 on connection 0, the only one. */
  function OneLink(history: seq<Config>, last: string, w: Watcher, l: Link, active: Config): System {
    System(history, last, w, {0}, map[0 := l], map[0 := 0], map[0 := active])
  }

  lemma StaleJoinStarts(older: Config, newer: Config, boot: Config)
    ensures Exec(Start(older, map[0 := boot]), StaleJoin(newer)) ==
            Exec(OneLink([older, newer], older.version, Idle, Link(0, Read(SnapshotOf(older)), false, [], 0), boot),
                 AfterReload())
  {
    var s1 := OneLink([older], older.version, Idle, Link(0, Registered, false, [], 0), boot);
    var s2 := OneLink([older], older.version, Idle, Link(0, Read(SnapshotOf(older)), false, [], 0), boot);
    Take(Start(older, map[0 := boot]), Connect(0, 0), [JoinRead(0)] + ([Reload(newer)] + AfterReload()), s1);
    Take(s1, JoinRead(0), [Reload(newer)] + AfterReload(), s2);
    Take(s2, Reload(newer), AfterReload(), s2.(history := [older, newer]));
  }

  lemma StaleJoinLocks(older: Config, newer: Config, boot: Config, l: Link, rest: seq<Move>)
    requires older.version != newer.version
    ensures Exec(OneLink([older, newer], older.version, Idle, l, boot),
                 [Tick] + ([ReadSnapshot] + ([LockClients] + rest))) ==
            Exec(OneLink([older, newer], older.version, Sending(newer.version, SnapshotOf(newer), {0}), l, boot), rest)
  {
    var s3 := OneLink([older, newer], older.version, Idle, l, boot);
    var s4 := s3.(watcher := Decided(newer.version));
    var s5 := s3.(watcher := Loaded(newer.version, SnapshotOf(newer)));
    Take(s3, Tick, [ReadSnapshot] + ([LockClients] + rest), s4);
    Take(s4, ReadSnapshot, [LockClients] + rest, s5);
    Take(s5, LockClients, rest, s3.(watcher := Sending(newer.version, SnapshotOf(newer), {0})));
  }

  lemma StaleJoinSends(older: Config, newer: Config, boot: Config, rest: seq<Move>)
    ensures Exec(OneLink([older, newer], older.version, Sending(newer.version, SnapshotOf(newer), {0}),
                         Link(0, Read(SnapshotOf(older)), false, [], 0), boot),
                 [SendOne(0)] + ([FinishBroadcast] + rest)) ==
            Exec(OneLink([older, newer], newer.version, Idle,
                         Link(0, Read(SnapshotOf(older)), false, [SnapshotOf(newer)], 0), boot), rest)
  {
    var s6 := OneLink([older, newer], older.version, Sending(newer.version, SnapshotOf(newer), {0}),
                      Link(0, Read(SnapshotOf(older)), false, [], 0), boot);
    var l := Link(0, Read(SnapshotOf(older)), false, [SnapshotOf(newer)], 0);
    var s7 := OneLink([older, newer], older.version, Sending(newer.version, SnapshotOf(newer), {}), l, boot);
    assert {0} - {0} == {} && [] + [SnapshotOf(newer)] == [SnapshotOf(newer)];
    assert SendTo(s6, 0).links == s7.links;
    Take(s6, SendOne(0), [FinishBroadcast] + rest, s7);
    Take(s7, FinishBroadcast, rest, OneLink([older, newer], newer.version, Idle, l, boot));
  }

  lemma {:induction false} StaleJoinWrites(older: Config, newer: Config, boot: Config, rest: seq<Move>)
    ensures Exec(OneLink([older, newer], newer.version, Idle,
                         Link(0, Read(SnapshotOf(older)), false, [SnapshotOf(newer)], 0), boot),
                 [JoinWrite(0)] + rest) ==
            Exec(OneLink([older, newer], newer.version, Idle,
                         Link(0, Joined, false, [SnapshotOf(newer), SnapshotOf(older)], 0), boot), rest)
  {
    var s8 := OneLink([older, newer], newer.version, Idle,
                      Link(0, Read(SnapshotOf(older)), false, [SnapshotOf(newer)], 0), boot);
    var s9 := OneLink([older, newer], newer.version, Idle,
                      Link(0, Joined, false, [SnapshotOf(newer), SnapshotOf(older)], 0), boot);
    assert [SnapshotOf(newer)] + [SnapshotOf(older)] == [SnapshotOf(newer), SnapshotOf(older)];
    assert Step(s8, JoinWrite(0)).links == s9.links;
    Take(s8, JoinWrite(0), rest, s9);
  }

  lemma DeliverNext(history: seq<Config>, last: string, l: Link, active: Config, rest: seq<Move>)
    requires history != [] && l.plane == 0 && l.received < |l.sent|
    ensures Exec(OneLink(history, last, Idle, l, active), [Deliver(0)] + rest) ==
            Exec(OneLink(history, last, Idle, l.(received := l.received + 1), ConfigOf(l.sent[l.received])), rest)
  {
    var t := OneLink(history, last, Idle, l.(received := l.received + 1), ConfigOf(l.sent[l.received]));
    assert Apply(OneLink(history, last, Idle, l, active), 0) == t;
    Take(OneLink(history, last, Idle, l, active), Deliver(0), rest, t);
  }

  /** If the initial send is two steps, as in the source, the older snapshot can follow the newer one
      on the wire: versions are distinct, everything settles, and the plane runs the old config. */
  lemma StaleJoinBreaksAgreement(older: Config, newer: Config, boot: Config)
    requires older.version != newer.version
    ensures var s := Exec(Start(older, map[0 := boot]), StaleJoin(newer));
            && s.history == [older, newer] && VersionsTell(s.history)
            && Settled(s, 0)
            && s.planes[0] == ConfigOf(SnapshotOf(older)) && s.planes[0] != ConfigOf(SnapshotOf(newer))
  {
    StaleJoinStarts(older, newer, boot);
    StaleJoinLocks(older, newer, boot, Link(0, Read(SnapshotOf(older)), false, [], 0),
                   [SendOne(0)] + ([FinishBroadcast] + AfterBroadcast()));
    StaleJoinSends(older, newer, boot, AfterBroadcast());
    StaleJoinWrites(older, newer, boot, [Deliver(0)] + ([Deliver(0)] + []));
    var l := Link(0, Joined, false, [SnapshotOf(newer), SnapshotOf(older)], 0);
    DeliverNext([older, newer], newer.version, l, boot, [Deliver(0)] + []);
    DeliverNext([older, newer], newer.version, l.(received := 1), ConfigOf(SnapshotOf(newer)), []);
  }
}
