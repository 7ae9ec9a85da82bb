/** The control plane's server as the source writes it (internal/controlplane/server.go): the client
    set changed in place and broadcasts written connection by connection; shown to do, from one tick
    to the next, what the step system does. */
module ControlPlane {
  import opened Wrappers
  import opened ConfigModel
  import opened Distribution
  import Loader

  /** The sending half of a websocket: what has been written to it, until it breaks. */
  class Connection {
    var outbox: seq<Snapshot>
    var open: bool

    constructor ()
      ensures outbox == [] && open
    {
      outbox, open := [], true;
    }

    method WriteMessage(m: Snapshot) returns (ok: bool)
      modifies this`outbox
      ensures ok == open
      ensures outbox == if open then old(outbox) + [m] else old(outbox)
    {
      if open {
        outbox := outbox + [m];
      }
      return open;
    }

    method Close()
      modifies this`open
      ensures !open
    {
      open := false;
    }
  }

  /** What one uninterrupted round of the watcher does to the step system: nothing if the version is
      the one it broadcast last, else one snapshot to every client. */
  function AfterRound(s: System): System
    requires s.history != []
  {
    if Active(s).version == s.lastVersion then s
    else s.(lastVersion := Active(s).version,
            links := map c | c in s.links ::
              if c in s.clients then Write(s.links[c], SnapshotOf(Active(s))) else s.links[c])
  }

  // ---- a round is a run of the step system, whatever the order of the clients ----------------

  function Sends(order: seq<nat>): seq<Move> {
    if order == [] then [] else Sends(order[..|order| - 1]) + [SendOne(order[|order| - 1])]
  }

  function Round(order: seq<nat>): seq<Move> {
    [Tick] + ([ReadSnapshot] + ([LockClients] + (Sends(order) + [FinishBroadcast])))
  }

  ghost predicate Enumerates(order: seq<nat>, clients: set<nat>) {
    && (forall i, j :: 0 <= i < j < |order| ==> order[i] != order[j])
    && (forall c :: c in order <==> c in clients)
  }

  /** The state in the middle of a broadcast, with the clients of `sent` already written to. */
  function Midway(s: System, sent: set<nat>): System
    requires s.history != []
  {
    var m := SnapshotOf(Active(s));
    s.(watcher := Sending(Active(s).version, m, s.clients - sent),
       links := map c | c in s.links :: if c in sent then Write(s.links[c], m) else s.links[c])
  }

  lemma OneMore(s: System, sent: set<nat>, c: nat)
    requires s.history != [] && c in s.clients - sent && c in s.links
    ensures SendTo(Midway(s, sent), c) == Midway(s, sent + {c})
  {
    var t, u := SendTo(Midway(s, sent), c), Midway(s, sent + {c});
    assert t.links == u.links;
    assert s.clients - sent - {c} == s.clients - (sent + {c});
  }

  function Elements(order: seq<nat>): set<nat> {
    set c | c in order
  }

  lemma ElementsSnoc(order: seq<nat>)
    requires order != []
    ensures Elements(order) == Elements(order[..|order| - 1]) + {order[|order| - 1]}
  {
    assert order == order[..|order| - 1] + [order[|order| - 1]];
  }

  lemma {:induction false} SendsReach(s: System, order: seq<nat>)
    requires s.history != [] && s.clients <= s.links.Keys
    requires forall i, j :: 0 <= i < j < |order| ==> order[i] != order[j]
    requires Elements(order) <= s.clients
    ensures Exec(Midway(s, {}), Sends(order)) == Midway(s, Elements(order))
  {
    if order == [] {
      assert Elements(order) == {};
    } else {
      var n := |order| - 1;
      ElementsSnoc(order);
      SendsReach(s, order[..n]);
      ExecSnoc(Midway(s, {}), Sends(order[..n]), SendOne(order[n]));
      assert order[n] !in Elements(order[..n]);
      SendIsSendTo(Midway(s, Elements(order[..n])), order[n]);
      OneMore(s, Elements(order[..n]), order[n]);
    }
  }

  lemma SendIsSendTo(s: System, c: nat)
    requires s.history != []
    ensures Step(s, SendOne(c)) == SendTo(s, c)
  {
  }

  /** From an idle watcher that finds a new version, the round's steps lead to `AfterRound`, in
      whatever order the client map is iterated. */
  lemma RoundIsARun(s: System, order: seq<nat>)
    requires s.history != [] && s.watcher.Idle? && s.clients <= s.links.Keys && Enumerates(order, s.clients)
    requires Active(s).version != s.lastVersion
    ensures Exec(s, Round(order)) == AfterRound(s)
  {
    TickLoads(s, [LockClients] + (Sends(order) + [FinishBroadcast]));
    LockStarts(s, Sends(order) + [FinishBroadcast]);
    SendsReach(s, order);
    ExecSnoc(Midway(s, {}), Sends(order), FinishBroadcast);
    assert Elements(order) == s.clients;
    FinishEnds(s, s.clients);
  }

  lemma {:induction false} TickDecides(s: System, rest: seq<Move>)
    requires s.history != [] && s.watcher.Idle? && Active(s).version != s.lastVersion
    ensures Exec(s, [Tick] + rest) == Exec(s.(watcher := Decided(Active(s).version)), rest)
  {
    Take(s, Tick, rest, s.(watcher := Decided(Active(s).version)));
  }

  lemma {:induction false} ReadLoads(s: System, v: string, rest: seq<Move>)
    requires s.history != [] && s.watcher == Decided(v)
    ensures Exec(s, [ReadSnapshot] + rest) == Exec(s.(watcher := Loaded(v, SnapshotOf(Active(s)))), rest)
  {
    Take(s, ReadSnapshot, rest, s.(watcher := Loaded(v, SnapshotOf(Active(s)))));
  }

  lemma {:induction false} TickLoads(s: System, rest: seq<Move>)
    requires s.history != [] && s.watcher.Idle? && Active(s).version != s.lastVersion
    ensures Exec(s, [Tick] + ([ReadSnapshot] + rest)) ==
            Exec(s.(watcher := Loaded(Active(s).version, SnapshotOf(Active(s)))), rest)
  {
    TickDecides(s, [ReadSnapshot] + rest);
    ReadLoads(s.(watcher := Decided(Active(s).version)), Active(s).version, rest);
  }

  lemma LockStarts(s: System, rest: seq<Move>)
    requires s.history != []
    ensures var loaded := s.(watcher := Loaded(Active(s).version, SnapshotOf(Active(s))));
            Exec(loaded, [LockClients] + rest) == Exec(Midway(s, {}), rest)
  {
    var loaded := s.(watcher := Loaded(Active(s).version, SnapshotOf(Active(s))));
    assert Midway(s, {}).links == s.links && s.clients - {} == s.clients;
    Take(loaded, LockClients, rest, Midway(s, {}));
  }

  lemma FinishEnds(s: System, sent: set<nat>)
    requires s.history != [] && s.watcher.Idle? && sent == s.clients && Active(s).version != s.lastVersion
    ensures Step(Midway(s, sent), FinishBroadcast) == AfterRound(s)
  {
    assert s.clients - sent == {};
  }

  // ---- a connection coming and going ---------------------------------------------------------

  /** What accepting connection `c` from `plane` does to the step system; the connection may be broken
      before the initial snapshot is written to it. */
  function AfterAccept(s: System, c: nat, plane: nat, open: bool): System
    requires s.history != []
  {
    var sent := if open then [SnapshotOf(Active(s))] else [];
    PutLink(s, c, Link(plane, Joined, !open, sent, 0)).(clients := s.clients + {c}, current := s.current[plane := c])
  }

  /** The step system lets `plane` dial connection `c`. */
  predicate CanDial(s: System, c: nat, plane: nat) {
    && c !in s.links && plane in s.planes && !s.watcher.Sending?
    && (plane in s.current && s.current[plane] in s.links ==> s.links[s.current[plane]].broken)
  }

  lemma {:induction false} AcceptIsARun(s: System, c: nat, plane: nat, open: bool)
    requires s.history != [] && CanDial(s, c, plane)
    ensures Exec(s, [Connect(c, plane)] + ((if open then [] else [Break(c)]) + ([JoinSend(c)] + []))) ==
            AfterAccept(s, c, plane, open)
  {
    var breaking := if open then [] else [Break(c)];
    var dialed := Dial(s, c, plane);
    Take(s, Connect(c, plane), breaking + ([JoinSend(c)] + []), dialed);
    if open {
      assert breaking + ([JoinSend(c)] + []) == [JoinSend(c)] + [];
      AcceptSends(s, dialed, c, plane, true);
    } else {
      var broken := PutLink(dialed, c, dialed.links[c].(broken := true));
      AcceptBreaks(dialed, c, broken);
      AcceptSends(s, broken, c, plane, false);
    }
  }

  lemma {:induction false} AcceptBreaks(s: System, c: nat, t: System)
    requires s.history != [] && c in s.links && t == PutLink(s, c, s.links[c].(broken := true))
    ensures Exec(s, [Break(c)] + ([JoinSend(c)] + [])) == Exec(t, [JoinSend(c)] + [])
  {
    Take(s, Break(c), [JoinSend(c)] + [], t);
  }

  lemma {:induction false} AcceptSends(s: System, t: System, c: nat, plane: nat, open: bool)
    requires s.history != []
    requires t == PutLink(s, c, Link(plane, Registered, !open, [], 0)).(
                    clients := s.clients + {c}, current := s.current[plane := c])
    ensures Exec(t, [JoinSend(c)] + []) == AfterAccept(s, c, plane, open)
  {
    assert [] + [SnapshotOf(Active(s))] == [SnapshotOf(Active(s))];
    assert Step(t, JoinSend(c)).links == AfterAccept(s, c, plane, open).links;
    Take(t, JoinSend(c), [], AfterAccept(s, c, plane, open));
  }

  /** What unregistering connection `c` does to the step system. */
  function AfterUnregister(s: System, c: nat): System
    requires c in s.links
  {
    PutLink(s, c, s.links[c].(broken := true)).(clients := s.clients - {c})
  }

  lemma {:induction false} UnregisterIsARun(s: System, c: nat)
    requires s.history != [] && c in s.links && s.links[c].join.Joined? && !s.watcher.Sending?
    ensures Exec(s, [Break(c)] + ([Unregister(c)] + [])) == AfterUnregister(s, c)
  {
    var broken := PutLink(s, c, s.links[c].(broken := true));
    Take(s, Break(c), [Unregister(c)] + [], broken);
    Take(broken, Unregister(c), [], AfterUnregister(s, c));
  }

  lemma {:induction false} OneMoreValue<T>(m: map<nat, T>, k: nat, v: T)
    requires k !in m
    ensures m[k := v].Values == m.Values + {v}
  {
    forall x | x in m.Values + {v}
      ensures x in m[k := v].Values
    {
      if x != v {
        var i :| i in m && m[i] == x;
        assert m[k := v][i] == x;
      } else {
        assert m[k := v][k] == v;
      }
    }
  }

  // ---- the server ----------------------------------------------------------------------------

  class Server {
    var clients: set<Connection>
    const configLoader: Loader.Loader

    constructor (configLoader: Loader.Loader)
      ensures clients == {} && this.configLoader == configLoader
    {
      clients := {};
      this.configLoader := configLoader;
    }

    /** The server and its connections, `conns[c]` being connection `c` of the step system. */
    ghost predicate Represents(s: System, conns: map<nat, Connection>)
      reads this, configLoader, conns.Values
    {
      && s.history != [] && configLoader.activeConfig == Some(Active(s))
      && s.links.Keys == conns.Keys && s.clients <= conns.Keys
      && (forall c, d :: c in conns && d in conns && c != d ==> conns[c] != conns[d])
      && (forall c :: c in conns ==> conns[c].outbox == s.links[c].sent && conns[c].open == !s.links[c].broken)
      && (forall c :: c in conns ==> (conns[c] in clients <==> c in s.clients))
      && (forall k :: k in clients ==> k in conns.Values)
    }

    method RegisterClient(conn: Connection)
      modifies this`clients
      ensures clients == old(clients) + {conn}
    {
      clients := clients + {conn};
    }

    /** If the connection is `c` of the step system, past its initial send, the server goes on to
        represent the state after that connection broke and was unregistered. */
    method UnregisterClient(conn: Connection, ghost s: System, ghost conns: map<nat, Connection>, ghost c: nat)
      modifies this`clients, conn`open
      ensures clients == old(clients) - {conn} && !conn.open
      ensures old(Represents(s, conns)) && c in conns && conns[c] == conn ==>
                Represents(AfterUnregister(s, c), conns)
    {
      clients := clients - {conn};
      conn.Close();
    }

    /** Every open client gets the active config's snapshot appended, once; nothing else changes. */
    method BroadcastConfig()
      requires configLoader.activeConfig.Some?
      modifies clients
      ensures var cfg := configLoader.activeConfig.value;
              var msg := Snapshot(cfg.version, cfg.routingTable, cfg.cellEndpoints, cfg.defaultPlacement);
              forall k :: k in clients ==>
                k.open == old(k.open) && k.outbox == if k.open then old(k.outbox) + [msg] else old(k.outbox)
    {
      var cfg := configLoader.activeConfig.value;
      var msg := Snapshot(cfg.version, cfg.routingTable, cfg.cellEndpoints, cfg.defaultPlacement);
      var todo := clients;
      while todo != {}
        invariant todo <= clients
        invariant forall k :: k in clients ==> k.open == old(k.open)
        invariant forall k :: k in todo ==> k.outbox == old(k.outbox)
        invariant forall k :: k in clients - todo ==>
                    k.outbox == if k.open then old(k.outbox) + [msg] else old(k.outbox)
        decreases todo
      {
        var conn :| conn in todo;
        var _ := conn.WriteMessage(msg);
        todo := todo - {conn};
      }
    }

    /** `HandleConnection` up to its read loop: register, then send the active config. A failed
        write is logged and the connection stays registered. A new connection becomes connection `c` of
        the step system. */
    method Accept(conn: Connection, ghost s: System, ghost conns: map<nat, Connection>, ghost c: nat, ghost plane: nat)
      requires configLoader.activeConfig.Some?
      modifies this`clients, conn`outbox
      ensures clients == old(clients) + {conn}
      ensures var cfg := configLoader.activeConfig.value;
              var msg := Snapshot(cfg.version, cfg.routingTable, cfg.cellEndpoints, cfg.defaultPlacement);
              conn.outbox == if conn.open then old(conn.outbox) + [msg] else old(conn.outbox)
      ensures old(Represents(s, conns)) && CanDial(s, c, plane) && conn !in conns.Values && old(conn.outbox) == [] ==>
                Represents(AfterAccept(s, c, plane, conn.open), conns[c := conn])
    {
      RegisterClient(conn);
      var cfg := configLoader.activeConfig.value;
      var _ := conn.WriteMessage(Snapshot(cfg.version, cfg.routingTable, cfg.cellEndpoints, cfg.defaultPlacement));
      if c !in conns {
        OneMoreValue(conns, c, conn);
      }
    }

    /** One tick of `WatchConfigChanges`, uninterrupted: the server goes from representing `s` to
        representing the step system's state after the round. */
    method WatchTick(lastVersion: string, ghost s: System, ghost conns: map<nat, Connection>)
      returns (newVersion: string)
      requires Represents(s, conns) && lastVersion == s.lastVersion
      modifies clients
      ensures Represents(AfterRound(s), conns)
      ensures newVersion == AfterRound(s).lastVersion
      ensures clients == old(clients)
    {
      var currentVersion := configLoader.activeConfig.value.version;
      newVersion := lastVersion;
      if currentVersion != lastVersion {
        BroadcastConfig();
        newVersion := currentVersion;
      }
    }
  }
}
