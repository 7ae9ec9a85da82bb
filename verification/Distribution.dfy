/** Config distribution as a step system: the control plane's loader, its version watcher and its
    connections (internal/controlplane/server.go), and the data planes at the other end
    (internal/dataplane/client.go). Each connection is a FIFO. */
module Distribution {
  import opened ConfigModel

  /** The watcher goroutine: between ticks; having read a version that differs from the last one;
      holding the snapshot it will broadcast; writing it to the clients, whose lock it holds. */
  datatype Watcher =
    | Idle
    | Decided(current: string)
    | Loaded(current: string, snapshot: Snapshot)
    | Sending(current: string, snapshot: Snapshot, pending: set<nat>)

  /** A connection's initial send: not begun, config read but not written, done. */
  datatype Join = Registered | Read(snapshot: Snapshot) | Joined

  /** One connection, seen from both ends: everything written to it, and how much has been read. */
  datatype Link = Link(plane: nat, join: Join, broken: bool, sent: seq<Snapshot>, received: nat)

  /** `history` lists the control plane's active configs, oldest first. `current` is the connection
      each data plane's client reads from, `planes` the active config of its loader. */
  datatype System = System(
    history: seq<Config>,
    lastVersion: string,
    watcher: Watcher,
    clients: set<nat>,
    links: map<nat, Link>,
    current: map<nat, nat>,
    planes: map<nat, Config>)

  function Active(s: System): Config
    requires s.history != []
  {
    s.history[|s.history| - 1]
  }

  /** The watcher is started before any client connects. */
  function Start(initial: Config, bootstrap: map<nat, Config>): System {
    System([initial], initial.version, Idle, {}, map[], map[], bootstrap)
  }

  datatype Move =
    | Reload(config: Config)
    | Tick
    | ReadSnapshot
    | LockClients
    | SendOne(c: nat)
    | FinishBroadcast
    | Connect(c: nat, plane: nat)
    | JoinSend(c: nat)
    | JoinRead(c: nat)
    | JoinWrite(c: nat)
    | Break(c: nat)
    | Unregister(c: nat)
    | Deliver(c: nat)

  predicate Joining(s: System, c: nat) {
    c in s.links && !s.links[c].join.Joined?
  }

  /** A write to a broken connection fails; it is logged and nothing else happens. */
  function Write(l: Link, m: Snapshot): Link {
    if l.broken then l else l.(sent := l.sent + [m])
  }

  function PutLink(s: System, c: nat, l: Link): System {
    s.(links := s.links[c := l])
  }

  /** Lines 154 and 155: read the version and compare it. */
  function WatcherTick(s: System): System
    requires s.history != []
  {
    if s.watcher.Idle? && Active(s).version != s.lastVersion
    then s.(watcher := Decided(Active(s).version))
    else s
  }

  /** Line 68, for one client of those registered when the lock was taken. */
  function SendTo(s: System, c: nat): System {
    if !s.watcher.Sending? || c !in s.watcher.pending || c !in s.links then s
    else PutLink(s, c, Write(s.links[c], s.watcher.snapshot)).(
           watcher := s.watcher.(pending := s.watcher.pending - {c}))
  }

  /** A data plane dials again once its previous connection is gone; registering needs the write
      lock, so it waits while a broadcast is writing. */
  function Dial(s: System, c: nat, plane: nat): System {
    if c in s.links || plane !in s.planes || s.watcher.Sending? then s
    else if plane in s.current && s.current[plane] in s.links && !s.links[s.current[plane]].broken then s
    else PutLink(s, c, Link(plane, Registered, false, [], 0)).(
           clients := s.clients + {c}, current := s.current[plane := c])
  }

  /** The data plane applies the next snapshot of its connection, without validating it. */
  function Apply(s: System, c: nat): System {
    if c !in s.links || s.links[c].received >= |s.links[c].sent| then s
    else
      var l := s.links[c];
      if l.plane !in s.current || s.current[l.plane] != c then s
      else PutLink(s, c, l.(received := l.received + 1)).(
             planes := s.planes[l.plane := ConfigOf(l.sent[l.received])])
  }

  /** One step; a move that is not possible leaves everything as it is. */
  function Step(s: System, m: Move): (r: System)
    requires s.history != []
    ensures r.history != []
  {
    match m
    case Reload(c) => s.(history := s.history + [c])
    case Tick => WatcherTick(s)
    case ReadSnapshot =>
      if s.watcher.Decided? then s.(watcher := Loaded(s.watcher.current, SnapshotOf(Active(s)))) else s
    case LockClients =>
      if s.watcher.Loaded? then s.(watcher := Sending(s.watcher.current, s.watcher.snapshot, s.clients)) else s
    case SendOne(c) => SendTo(s, c)
    case FinishBroadcast =>
      if s.watcher.Sending? && s.watcher.pending == {}
      then s.(watcher := Idle, lastVersion := s.watcher.current) else s
    case Connect(c, plane) => Dial(s, c, plane)
    case JoinSend(c) =>
      if Joining(s, c) && s.links[c].join.Registered?
      then PutLink(s, c, Write(s.links[c], SnapshotOf(Active(s))).(join := Joined)) else s
    case JoinRead(c) =>
      if Joining(s, c) && s.links[c].join.Registered?
      then PutLink(s, c, s.links[c].(join := Read(SnapshotOf(Active(s))))) else s
    case JoinWrite(c) =>
      if Joining(s, c) && s.links[c].join.Read?
      then PutLink(s, c, Write(s.links[c], s.links[c].join.snapshot).(join := Joined)) else s
    case Break(c) =>
      if c in s.links then PutLink(s, c, s.links[c].(broken := true)) else s
    case Unregister(c) =>
      if c in s.links && s.links[c].broken && s.links[c].join.Joined? && !s.watcher.Sending?
      then s.(clients := s.clients - {c}) else s
    case Deliver(c) => Apply(s, c)
  }

  function Exec(s: System, moves: seq<Move>): (r: System)
    requires s.history != []
    ensures r.history != []
  {
    if moves == [] then s else Step(Exec(s, moves[..|moves| - 1]), moves[|moves| - 1])
  }

  lemma ExecSnoc(s: System, before: seq<Move>, m: Move)
    requires s.history != []
    ensures Exec(s, before + [m]) == Step(Exec(s, before), m)
  {
    assert (before + [m])[..|before|] == before;
  }

  lemma {:induction false} ExecConcat(s: System, a: seq<Move>, b: seq<Move>)
    requires s.history != []
    ensures Exec(s, a + b) == Exec(Exec(s, a), b)
  {
    if b == [] {
      assert a + b == a;
    } else {
      assert (a + b)[..|a + b| - 1] == a + b[..|b| - 1];
      ExecConcat(s, a, b[..|b| - 1]);
    }
  }

  /** The first move of a run. */
  lemma Take(s: System, m: Move, rest: seq<Move>, t: System)
    requires s.history != [] && Step(s, m) == t
    ensures t.history != [] && Exec(s, [m] + rest) == Exec(t, rest)
  {
    ExecConcat(s, [m], rest);
    assert Exec(s, []) == s;
    ExecSnoc(s, [], m);
    assert [] + [m] == [m];
  }

  // ---- a first connection --------------------------------------------------------------------

  /** No plane has connected yet. */
  function Unconnected(history: seq<Config>, last: string, planes: map<nat, Config>): System {
    System(history, last, Idle, {}, map[], map[], planes)
  }

  predicate IsUnconnected(s: System) {
    s.clients == {} && s.links == map[] && s.current == map[] && !s.watcher.Sending?
  }

  /** Plane `p` connects, gets its initial snapshot in one step, and applies it. */
  function FirstJoin(p: nat): seq<Move> {
    [Connect(0, p)] + ([JoinSend(0)] + ([Deliver(0)] + []))
  }

  /** The state after that. */
  function WithPlane(s: System, p: nat, m: Snapshot): System {
    OnlyLink(s, Link(p, Joined, false, [m], 1)).(planes := s.planes[p := ConfigOf(m)])
  }

  function OnlyLink(s: System, l: Link): System {
    s.(clients := {0}, links := map[0 := l], current := map[l.plane := 0])
  }

  lemma {:induction false} FirstConnects(s: System, p: nat, rest: seq<Move>)
    requires s.history != [] && IsUnconnected(s) && p in s.planes
    ensures Exec(s, [Connect(0, p)] + rest) == Exec(OnlyLink(s, Link(p, Registered, false, [], 0)), rest)
  {
    assert Dial(s, 0, p).clients == {0};
    Take(s, Connect(0, p), rest, OnlyLink(s, Link(p, Registered, false, [], 0)));
  }

  lemma {:induction false} FirstSends(s: System, p: nat, rest: seq<Move>)
    requires s.history != [] && IsUnconnected(s)
    ensures Exec(OnlyLink(s, Link(p, Registered, false, [], 0)), [JoinSend(0)] + rest) ==
            Exec(OnlyLink(s, Link(p, Joined, false, [SnapshotOf(Active(s))], 0)), rest)
  {
    var t := OnlyLink(s, Link(p, Registered, false, [], 0));
    var u := OnlyLink(s, Link(p, Joined, false, [SnapshotOf(Active(s))], 0));
    assert [] + [SnapshotOf(Active(s))] == [SnapshotOf(Active(s))];
    assert Step(t, JoinSend(0)).links == u.links;
    Take(t, JoinSend(0), rest, u);
  }

  lemma {:induction false} FirstApplies(s: System, p: nat, m: Snapshot)
    requires s.history != []
    ensures Exec(OnlyLink(s, Link(p, Joined, false, [m], 0)), [Deliver(0)] + []) == WithPlane(s, p, m)
  {
    var t := OnlyLink(s, Link(p, Joined, false, [m], 0));
    assert Apply(t, 0).links == WithPlane(s, p, m).links;
    Take(t, Deliver(0), [], WithPlane(s, p, m));
  }

  lemma {:induction false} AfterFirstJoin(s: System, p: nat)
    requires s.history != [] && IsUnconnected(s) && p in s.planes
    ensures Exec(s, FirstJoin(p)) == WithPlane(s, p, SnapshotOf(Active(s)))
  {
    FirstConnects(s, p, [JoinSend(0)] + ([Deliver(0)] + []));
    FirstSends(s, p, [Deliver(0)] + []);
    FirstApplies(s, p, SnapshotOf(Active(s)));
  }

  lemma {:induction false} AfterFirstJoinThen(s: System, p: nat, rest: seq<Move>)
    requires s.history != [] && IsUnconnected(s) && p in s.planes
    ensures Exec(s, FirstJoin(p) + rest) == Exec(WithPlane(s, p, SnapshotOf(Active(s))), rest)
  {
    AfterFirstJoin(s, p);
    ExecConcat(s, FirstJoin(p), rest);
  }
}
