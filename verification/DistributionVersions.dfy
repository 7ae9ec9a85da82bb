/** Which file histories the version-driven broadcast can follow. */
module DistributionVersions {
  import opened ConfigModel
  import opened Distribution
  import opened DistributionAgreement

  // ---- pieces of a run -----------------------------------------------------------------------

  function Loads(configs: seq<Config>): seq<Move> {
    seq(|configs|, i requires 0 <= i < |configs| => Reload(configs[i]))
  }

  lemma {:induction false} AfterLoads(s: System, configs: seq<Config>)
    requires s.history != []
    ensures Exec(s, Loads(configs)) == s.(history := s.history + configs)
  {
    if configs == [] {
      assert s.history + configs == s.history;
    } else {
      var n := |configs| - 1;
      AfterLoads(s, configs[..n]);
      assert Loads(configs) == Loads(configs[..n]) + [Reload(configs[n])];
      ExecSnoc(s, Loads(configs[..n]), Reload(configs[n]));
      assert s.history + configs[..n] + [configs[n]] == s.history + configs;
    }
  }

  /** A round of the watcher with nobody to send to. */
  const ROUND: seq<Move> := [Tick] + ([ReadSnapshot] + ([LockClients] + ([FinishBroadcast] + [])))

  lemma {:induction false} AfterLoneRound(s: System)
    requires s.history != [] && s.watcher.Idle? && s.clients == {}
    ensures Exec(s, ROUND) == s.(lastVersion := Active(s).version)
  {
    var v, m := Active(s).version, SnapshotOf(Active(s));
    if v == s.lastVersion {
      Take(s, Tick, [ReadSnapshot] + ([LockClients] + ([FinishBroadcast] + [])), s);
      Take(s, ReadSnapshot, [LockClients] + ([FinishBroadcast] + []), s);
      Take(s, LockClients, [FinishBroadcast] + [], s);
      Take(s, FinishBroadcast, [], s);
    } else {
      var s1, s2 := s.(watcher := Decided(v)), s.(watcher := Loaded(v, m));
      var s3 := s.(watcher := Sending(v, m, {}));
      Take(s, Tick, [ReadSnapshot] + ([LockClients] + ([FinishBroadcast] + [])), s1);
      Take(s1, ReadSnapshot, [LockClients] + ([FinishBroadcast] + []), s2);
      Take(s2, LockClients, [FinishBroadcast] + [], s3);
      Take(s3, FinishBroadcast, [], s.(lastVersion := v));
    }
  }

  // ---- where a reused version misleads the watcher -------------------------------------------

  /** Load the file history up to `i`, let the watcher see it, load it up to `k`, let plane `p` join,
      and load it up to `j`. */
  function Misleading(h: seq<Config>, i: nat, k: nat, j: nat, p: nat): seq<Move>
    requires i <= k <= j < |h|
  {
    Loads(h[1..i + 1]) + (ROUND + (Loads(h[i + 1..k + 1]) + (FirstJoin(p) + Loads(h[k + 1..j + 1]))))
  }

  lemma {:induction false} LoadsThen(h: seq<Config>, last: string, planes: map<nat, Config>, a: nat, b: nat,
                                     rest: seq<Move>)
    requires 0 < a <= b <= |h|
    ensures Exec(Unconnected(h[..a], last, planes), Loads(h[a..b]) + rest) ==
            Exec(Unconnected(h[..b], last, planes), rest)
  {
    var s := Unconnected(h[..a], last, planes);
    AfterLoads(s, h[a..b]);
    assert h[..a] + h[a..b] == h[..b];
    ExecConcat(s, Loads(h[a..b]), rest);
  }

  lemma {:induction false} RoundThen(history: seq<Config>, last: string, planes: map<nat, Config>, rest: seq<Move>)
    requires history != []
    ensures Exec(Unconnected(history, last, planes), ROUND + rest) ==
            Exec(Unconnected(history, history[|history| - 1].version, planes), rest)
  {
    AfterLoneRound(Unconnected(history, last, planes));
    ExecConcat(Unconnected(history, last, planes), ROUND, rest);
  }

  lemma {:induction false} JoinThenLoads(h: seq<Config>, last: string, planes: map<nat, Config>, k: nat, j: nat, p: nat)
    requires k <= j < |h| && p in planes
    ensures Exec(Unconnected(h[..k + 1], last, planes), FirstJoin(p) + Loads(h[k + 1..j + 1])) ==
            WithPlane(Unconnected(h[..j + 1], last, planes), p, SnapshotOf(h[k]))
  {
    var s := Unconnected(h[..k + 1], last, planes);
    AfterFirstJoinThen(s, p, Loads(h[k + 1..j + 1]));
    AfterLoads(WithPlane(s, p, SnapshotOf(h[k])), h[k + 1..j + 1]);
    assert h[..k + 1] + h[k + 1..j + 1] == h[..j + 1];
  }

  /** The state that leads to. */
  function Misled(h: seq<Config>, bootstrap: map<nat, Config>, i: nat, k: nat, j: nat, p: nat): System
    requires i <= k <= j < |h|
  {
    WithPlane(Unconnected(h[..j + 1], h[i].version, bootstrap), p, SnapshotOf(h[k]))
  }

  lemma {:induction false} SeenUpTo(h: seq<Config>, bootstrap: map<nat, Config>, i: nat, rest: seq<Move>)
    requires i < |h|
    ensures Exec(Unconnected(h[..1], h[0].version, bootstrap), Loads(h[1..i + 1]) + (ROUND + rest)) ==
            Exec(Unconnected(h[..i + 1], h[i].version, bootstrap), rest)
  {
    LoadsThen(h, h[0].version, bootstrap, 1, i + 1, ROUND + rest);
    RoundThen(h[..i + 1], h[0].version, bootstrap, rest);
  }

  lemma {:induction false} MisleadingRun(h: seq<Config>, bootstrap: map<nat, Config>, i: nat, k: nat, j: nat, p: nat)
    requires i <= k <= j < |h| && p in bootstrap
    ensures Exec(Start(h[0], bootstrap), Misleading(h, i, k, j, p)) == Misled(h, bootstrap, i, k, j, p)
  {
    var joined := FirstJoin(p) + Loads(h[k + 1..j + 1]);
    assert h[..1] == [h[0]];
    SeenUpTo(h, bootstrap, i, Loads(h[i + 1..k + 1]) + joined);
    LoadsThen(h, h[i].version, bootstrap, i + 1, k + 1, joined);
    JoinThenLoads(h, h[i].version, bootstrap, k, j, p);
  }

  /** When a version comes back after a config with another snapshot, a plane that joined in between is
      never told: everything settles, and the plane runs the config in between. */
  lemma {:induction false} ReusedVersionBreaksAgreement(h: seq<Config>, bootstrap: map<nat, Config>, i: nat, k: nat,
                                                        j: nat, p: nat)
    requires i <= k <= j < |h| && p in bootstrap
    requires h[i].version == h[j].version && SnapshotOf(h[k]) != SnapshotOf(h[j])
    ensures JoinsAtomic(Misleading(h, i, k, j, p))
    ensures var s := Exec(Start(h[0], bootstrap), Misleading(h, i, k, j, p));
            && s.history == h[..j + 1] && Settled(s, p) && !InAgreement(s)
            && s.planes[p] == ConfigOf(SnapshotOf(h[k])) && s.planes[p] != ConfigOf(SnapshotOf(h[j]))
  {
    var s := Misled(h, bootstrap, i, k, j, p);
    MisleadingRun(h, bootstrap, i, k, j, p);
    assert Active(s) == h[j];
    assert 0 in s.links && Served(s, 0) && !UpToDate(s, s.links[0]);
  }

  /** In every run over the file history `h`, however far it gets, in which no initial send is harmful,
      every served connection has the current snapshot sent last. */
  ghost predicate AlwaysAgrees(h: seq<Config>, bootstrap: map<nat, Config>)
    requires h != []
  {
    forall moves :: JoinsHarmless(h[0], bootstrap, moves) && Exec(Start(h[0], bootstrap), moves).history <= h ==>
      InAgreement(Exec(Start(h[0], bootstrap), moves))
  }

  lemma {:induction false} TellingIsEnough(h: seq<Config>, bootstrap: map<nat, Config>, moves: seq<Move>)
    requires h != [] && VersionsTell(h)
    requires JoinsHarmless(h[0], bootstrap, moves) && Exec(Start(h[0], bootstrap), moves).history <= h
    ensures InAgreement(Exec(Start(h[0], bootstrap), moves))
  {
    TellsBefore(Exec(Start(h[0], bootstrap), moves).history, h);
    HarmlessAgrees(h[0], bootstrap, moves, |moves|);
    assert moves[..|moves|] == moves;
  }

  lemma {:induction false} TellingIsNeeded(h: seq<Config>, bootstrap: map<nat, Config>)
    requires h != [] && bootstrap != map[] && !VersionsTell(h)
    ensures !AlwaysAgrees(h, bootstrap)
  {
    var i, k, j :| 0 <= i <= k <= j < |h| && h[i].version == h[j].version && SnapshotOf(h[k]) != SnapshotOf(h[j]);
    var p :| p in bootstrap;
    ReusedVersionBreaksAgreement(h, bootstrap, i, k, j, p);
    AtomicJoinsAreHarmless(h[0], bootstrap, Misleading(h, i, k, j, p));
    assert h[..j + 1] <= h;
  }

  /** The fleet is kept in agreement over a file history, however the steps interleave, exactly when the
      versions in it tell. */
  lemma {:induction false} VersionsIff(h: seq<Config>, bootstrap: map<nat, Config>)
    requires h != [] && bootstrap != map[]
    ensures AlwaysAgrees(h, bootstrap) <==> VersionsTell(h)
  {
    if VersionsTell(h) {
      forall moves | JoinsHarmless(h[0], bootstrap, moves) && Exec(Start(h[0], bootstrap), moves).history <= h
        ensures InAgreement(Exec(Start(h[0], bootstrap), moves))
      {
        TellingIsEnough(h, bootstrap, moves);
      }
    } else {
      TellingIsNeeded(h, bootstrap);
    }
  }
}
