/** What config distribution keeps over every run: where each data plane's config comes from, and
    when that makes it valid. */
module DistributionSafety {
  import opened ConfigModel
  import opened Distribution

  // ---- provenance ----------------------------------------------------------------------------

  ghost predicate Published(s: System, m: Snapshot) {
    exists i :: 0 <= i < |s.history| && m == SnapshotOf(s.history[i])
  }

  ghost predicate LinkPublished(s: System, l: Link) {
    && (forall m :: m in l.sent ==> Published(s, m))
    && (l.join.Read? ==> Published(s, l.join.snapshot))
  }

  ghost predicate WatcherPublished(s: System) {
    (s.watcher.Loaded? || s.watcher.Sending?) ==> Published(s, s.watcher.snapshot)
  }

  /** The plane runs its bootstrap config, or the projection of one published config. */
  ghost predicate PlaneSourced(s: System, bootstrap: map<nat, Config>, p: nat)
    requires p in s.planes
  {
    || (p in bootstrap && s.planes[p] == bootstrap[p])
    || (exists i :: 0 <= i < |s.history| && s.planes[p] == ConfigOf(SnapshotOf(s.history[i])))
  }

  ghost predicate Sourced(s: System, bootstrap: map<nat, Config>) {
    && WatcherPublished(s)
    && (forall c :: c in s.links ==> LinkPublished(s, s.links[c]) && s.links[c].plane in s.planes)
    && (forall p :: p in s.planes ==> PlaneSourced(s, bootstrap, p))
    && s.planes.Keys == bootstrap.Keys
  }

  lemma PublishedGrows(s: System, s': System, m: Snapshot)
    requires s.history <= s'.history && Published(s, m)
    ensures Published(s', m)
  {
    var i :| 0 <= i < |s.history| && m == SnapshotOf(s.history[i]);
    assert s'.history[i] == s.history[i];
  }

  lemma ReloadKeepsSourced(s: System, bootstrap: map<nat, Config>, c: Config)
    requires s.history != [] && Sourced(s, bootstrap)
    ensures Sourced(Step(s, Reload(c)), bootstrap)
  {
    var s' := Step(s, Reload(c));
    forall m | Published(s, m)
      ensures Published(s', m)
    {
      PublishedGrows(s, s', m);
    }
    forall p | p in s'.planes
      ensures PlaneSourced(s', bootstrap, p)
    {
      assert PlaneSourced(s, bootstrap, p);
      if !(p in bootstrap && s.planes[p] == bootstrap[p]) {
        var i :| 0 <= i < |s.history| && s.planes[p] == ConfigOf(SnapshotOf(s.history[i]));
        assert s'.history[i] == s.history[i];
      }
    }
  }

  /** Steps that change one connection, and no more of what is sourced. */
  lemma LinkChangeKeepsSourced(s: System, s': System, bootstrap: map<nat, Config>, c: nat)
    requires Sourced(s, bootstrap)
    requires s'.history == s.history && s'.planes == s.planes && WatcherPublished(s')
    requires c in s'.links && s'.links == s.links[c := s'.links[c]]
    requires LinkPublished(s, s'.links[c]) && s'.links[c].plane in s.planes
    ensures Sourced(s', bootstrap)
  {
    forall m | Published(s, m)
      ensures Published(s', m)
    {
      PublishedGrows(s, s', m);
    }
    forall p | p in s'.planes
      ensures PlaneSourced(s', bootstrap, p)
    {
      assert PlaneSourced(s, bootstrap, p);
    }
  }

  lemma DeliverKeepsSourced(s: System, bootstrap: map<nat, Config>, c: nat)
    requires s.history != [] && Sourced(s, bootstrap)
    ensures Sourced(Step(s, Deliver(c)), bootstrap)
  {
    var s' := Step(s, Deliver(c));
    if s' != s {
      var l := s.links[c];
      assert LinkPublished(s, l) && l.sent[l.received] in l.sent;
      assert Published(s, l.sent[l.received]);
      LinkChangeKeepsSourced(s, s'.(planes := s.planes), bootstrap, c);
      forall p | p in s'.planes
        ensures PlaneSourced(s', bootstrap, p)
      {
        assert PlaneSourced(s, bootstrap, p);
      }
      assert forall d :: d in s'.links ==> LinkPublished(s'.(planes := s.planes), s'.links[d]);
    }
  }

  /** Moves of the watcher and of the client set: no connection and no plane changes. */
  lemma WatcherKeepsSourced(s: System, bootstrap: map<nat, Config>, m: Move)
    requires m.Tick? || m.ReadSnapshot? || m.LockClients? || m.FinishBroadcast? || m.Unregister?
    requires s.history != [] && Sourced(s, bootstrap)
    ensures Sourced(Step(s, m), bootstrap)
  {
    var s' := Step(s, m);
    assert s'.history == s.history && s'.links == s.links && s'.planes == s.planes;
    assert Published(s, SnapshotOf(Active(s)));
    assert WatcherPublished(s.(watcher := s'.watcher));
    HistoryDecidesSourced(s, s', bootstrap);
  }

  lemma HistoryDecidesSourced(s: System, s': System, bootstrap: map<nat, Config>)
    requires Sourced(s, bootstrap) && WatcherPublished(s.(watcher := s'.watcher))
    requires s'.history == s.history && s'.links == s.links && s'.planes == s.planes
    ensures Sourced(s', bootstrap)
  {
    forall x | Published(s, x)
      ensures Published(s', x)
    {
      PublishedGrows(s, s', x);
    }
    forall p | p in s'.planes
      ensures PlaneSourced(s', bootstrap, p)
    {
      assert PlaneSourced(s, bootstrap, p);
    }
  }

  lemma JoinKeepsSourced(s: System, bootstrap: map<nat, Config>, m: Move)
    requires m.JoinSend? || m.JoinRead? || m.JoinWrite?
    requires s.history != [] && Sourced(s, bootstrap)
    ensures Sourced(Step(s, m), bootstrap)
  {
    if Step(s, m) != s {
      assert LinkPublished(s, s.links[m.c]);
      assert Published(s, SnapshotOf(Active(s)));
      LinkChangeKeepsSourced(s, Step(s, m), bootstrap, m.c);
    }
  }

  lemma {:induction false} WireKeepsSourced(s: System, bootstrap: map<nat, Config>, m: Move)
    requires m.SendOne? || m.Connect? || m.Break?
    requires s.history != [] && Sourced(s, bootstrap)
    ensures Sourced(Step(s, m), bootstrap)
  {
    if Step(s, m) != s {
      assert m.c in s.links ==> LinkPublished(s, s.links[m.c]);
      LinkChangeKeepsSourced(s, Step(s, m), bootstrap, m.c);
    }
  }

  lemma StepKeepsSourced(s: System, bootstrap: map<nat, Config>, m: Move)
    requires s.history != [] && Sourced(s, bootstrap)
    ensures Sourced(Step(s, m), bootstrap)
  {
    if m.Reload? {
      ReloadKeepsSourced(s, bootstrap, m.config);
    } else if m.Deliver? {
      DeliverKeepsSourced(s, bootstrap, m.c);
    } else if m.JoinSend? || m.JoinRead? || m.JoinWrite? {
      JoinKeepsSourced(s, bootstrap, m);
    } else if m.SendOne? || m.Connect? || m.Break? {
      WireKeepsSourced(s, bootstrap, m);
    } else {
      WatcherKeepsSourced(s, bootstrap, m);
    }
  }

  /** Across all reloads, disconnects and reconnects, whatever the order of steps, each data plane
      runs its bootstrap config or the projection of one config that was once active at the control
      plane: never a mixture. */
  lemma {:induction false} PlanesRunPublishedConfigs(initial: Config, bootstrap: map<nat, Config>, moves: seq<Move>)
    ensures Sourced(Exec(Start(initial, bootstrap), moves), bootstrap)
  {
    if moves == [] {
    } else {
      PlanesRunPublishedConfigs(initial, bootstrap, moves[..|moves| - 1]);
      StepKeepsSourced(Exec(Start(initial, bootstrap), moves[..|moves| - 1]), bootstrap, moves[|moves| - 1]);
    }
  }

  // ---- validity without validation on the data plane ------------------------------------------

  /** Every config the control plane loads in this run is one of `pool`. */
  ghost predicate LoadsFrom(moves: seq<Move>, pool: set<Config>) {
    forall m :: m in moves && m.Reload? ==> m.config in pool
  }

  lemma {:induction false} HistoryFromPool(initial: Config, bootstrap: map<nat, Config>, moves: seq<Move>,
                                           pool: set<Config>)
    requires initial in pool && LoadsFrom(moves, pool)
    ensures forall c :: c in Exec(Start(initial, bootstrap), moves).history ==> c in pool
  {
    if moves == [] {
    } else {
      HistoryFromPool(initial, bootstrap, moves[..|moves| - 1], pool);
    }
  }

  ghost predicate PlanesValid(ps: Parsers, s: System) {
    forall p :: p in s.planes ==> WellFormed(ps, s.planes[p])
  }

  /** Every plane runs a valid config in every state reachable while the control plane loads only
      configs of `pool`. */
  ghost predicate FleetAlwaysValid(ps: Parsers, pool: set<Config>, bootstrap: map<nat, Config>) {
    forall initial, moves :: initial in pool && LoadsFrom(moves, pool) ==>
      PlanesValid(ps, Exec(Start(initial, bootstrap), moves))
  }

  /** With every loaded config and every bootstrap config valid, the data planes, which validate
      nothing, always run valid configs exactly when every loadable config is in the legacy format. */
  lemma FleetValidIff(ps: Parsers, pool: set<Config>, bootstrap: map<nat, Config>)
    requires forall c :: c in pool ==> WellFormed(ps, c)
    requires bootstrap != map[] && forall p :: p in bootstrap ==> WellFormed(ps, bootstrap[p])
    ensures FleetAlwaysValid(ps, pool, bootstrap) <==> (forall c :: c in pool ==> c.cellEndpoints != map[])
  {
    if forall c :: c in pool ==> c.cellEndpoints != map[] {
      forall initial, moves | initial in pool && LoadsFrom(moves, pool)
        ensures PlanesValid(ps, Exec(Start(initial, bootstrap), moves))
      {
        LegacyKeepsPlanesValid(ps, pool, bootstrap, initial, moves);
      }
    } else {
      var c :| c in pool && c.cellEndpoints == map[];
      PlacementsOnlyBreaksFleet(ps, pool, bootstrap, c);
    }
  }

  lemma PlacementsOnlyBreaksFleet(ps: Parsers, pool: set<Config>, bootstrap: map<nat, Config>, c: Config)
    requires c in pool && WellFormed(ps, c) && c.cellEndpoints == map[] && bootstrap != map[]
    ensures !FleetAlwaysValid(ps, pool, bootstrap)
  {
    var p :| p in bootstrap;
    PlacementsOnlyBreaksPlane(ps, c, bootstrap, p);
    assert LoadsFrom(FirstJoin(p), pool);
    assert !PlanesValid(ps, Exec(Start(c, bootstrap), FirstJoin(p)));
  }

  lemma LegacyKeepsPlanesValid(ps: Parsers, pool: set<Config>, bootstrap: map<nat, Config>, initial: Config,
                               moves: seq<Move>)
    requires forall c :: c in pool ==> WellFormed(ps, c) && c.cellEndpoints != map[]
    requires forall p :: p in bootstrap ==> WellFormed(ps, bootstrap[p])
    requires initial in pool && LoadsFrom(moves, pool)
    ensures PlanesValid(ps, Exec(Start(initial, bootstrap), moves))
  {
    var s := Exec(Start(initial, bootstrap), moves);
    PlanesRunPublishedConfigs(initial, bootstrap, moves);
    HistoryFromPool(initial, bootstrap, moves, pool);
    forall p | p in s.planes
      ensures WellFormed(ps, s.planes[p])
    {
      assert PlaneSourced(s, bootstrap, p);
      if !(p in bootstrap && s.planes[p] == bootstrap[p]) {
        var i :| 0 <= i < |s.history| && s.planes[p] == ConfigOf(SnapshotOf(s.history[i]));
        assert s.history[i] in s.history;
        ProjectionValidIff(ps, s.history[i]);
      }
    }
  }

  lemma PlacementsOnlyBreaksPlane(ps: Parsers, c: Config, bootstrap: map<nat, Config>, p: nat)
    requires WellFormed(ps, c) && c.cellEndpoints == map[] && p in bootstrap
    ensures var s := Exec(Start(c, bootstrap), FirstJoin(p));
            p in s.planes && s.planes[p] == ConfigOf(SnapshotOf(c)) && !WellFormed(ps, s.planes[p])
  {
    AfterFirstJoin(Start(c, bootstrap), p);
    ProjectionValidIff(ps, c);
  }
}
