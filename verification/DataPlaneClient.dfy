/** The data plane's client (internal/dataplane/client.go): reconnection backoff, applying a
    snapshot, and the race between `Stop` and the connection loop. */
module DataPlaneClient {
  import opened Wrappers
  import opened ConfigModel
  import opened Streaks
  import Loader

  // ---- backoff -------------------------------------------------------------------------------

  newtype int64 = n: int | -0x8000_0000_0000_0000 <= n < 0x8000_0000_0000_0000

  const SECOND: int64 := 1_000_000_000
  const MAX_BACKOFF: int64 := 60 * SECOND

  function Pow2(k: nat): (r: nat)
    ensures r >= 1
  {
    if k == 0 then 1 else 2 * Pow2(k - 1)
  }

  function Min(a: nat, b: nat): nat {
    if a <= b then a else b
  }

  /** Seconds waited after a failed dial that `k` failed dials came just before. */
  function WaitAfter(k: nat): nat {
    Min(Pow2(k), 60)
  }

  /** The waits after the failed dials among `dials` (true: connected), in order. */
  function Waits(dials: seq<bool>): seq<nat> {
    if dials == [] then []
    else
      var before := dials[..|dials| - 1];
      Waits(before) + if dials[|dials| - 1] then [] else [WaitAfter(TrailingFailures(before))]
  }

  lemma WaitDoubles(k: nat)
    ensures WaitAfter(k + 1) == Min(2 * WaitAfter(k), 60)
  {
  }

  /** The connection loop over the outcomes its dials meet; it returns what it slept, in nanoseconds.
      Each failed dial is followed by a wait of min(2^k, 60) seconds, where k counts the failures
      since the start or the last success. The doubling is done in 64 bits and never overflows. */
  method ConnectionLoop(dials: seq<bool>) returns (sleeps: seq<int64>)
    ensures |sleeps| == |Waits(dials)|
    ensures forall i :: 0 <= i < |sleeps| ==> sleeps[i] as int == Waits(dials)[i] * 1_000_000_000
  {
    sleeps := [];
    var backoff: int64 := 1 * SECOND;
    for i := 0 to |dials|
      invariant backoff as int == WaitAfter(TrailingFailures(dials[..i])) * 1_000_000_000
      invariant SECOND <= backoff <= MAX_BACKOFF
      invariant |sleeps| == |Waits(dials[..i])|
      invariant forall j :: 0 <= j < |sleeps| ==> sleeps[j] as int == Waits(dials[..i])[j] * 1_000_000_000
    {
      assert dials[..i + 1][..i] == dials[..i];
      if !dials[i] {
        WaitDoubles(TrailingFailures(dials[..i]));
        sleeps := sleeps + [backoff];
        backoff := backoff * 2;
        if backoff > MAX_BACKOFF {
          backoff := MAX_BACKOFF;
        }
      } else {
        backoff := 1 * SECOND;
      }
    }
    assert dials[..|dials|] == dials;
  }

  function Sum(xs: seq<nat>): nat {
    if xs == [] then 0 else Sum(xs[..|xs| - 1]) + xs[|xs| - 1]
  }

  function Failures(n: nat): seq<bool> {
    seq(n, _ => false)
  }

  lemma {:induction false} Pow2Grows(k: nat)
    requires k >= 6
    ensures Pow2(k) >= 64
  {
    if k > 6 {
      Pow2Grows(k - 1);
    } else {
      assert Pow2(3) == 8;
    }
  }

  /** The dials so far end in a success, or there are none. */
  predicate Settled(dials: seq<bool>) {
    dials == [] || dials[|dials| - 1]
  }

  lemma {:induction false} FailuresTrail(before: seq<bool>, n: nat)
    requires Settled(before)
    ensures TrailingFailures(before + Failures(n)) == n
  {
    if n == 0 {
      assert before + Failures(0) == before;
    } else {
      FailuresTrail(before, n - 1);
      assert (before + Failures(n))[..|before| + n - 1] == before + Failures(n - 1);
    }
  }

  lemma OneMoreWait(before: seq<bool>, n: nat)
    requires Settled(before)
    ensures Sum(Waits(before + Failures(n + 1))) == Sum(Waits(before + Failures(n))) + WaitAfter(n)
  {
    assert (before + Failures(n + 1))[..|before| + n] == before + Failures(n);
    FailuresTrail(before, n);
    var w := Waits(before + Failures(n + 1));
    assert w[..|w| - 1] == Waits(before + Failures(n));
  }

  function ClosedForm(n: nat): nat {
    if n <= 6 then Pow2(n) - 1 else 63 + 60 * (n - 6)
  }

  lemma ClosedFormGrows(n: nat)
    ensures ClosedForm(n + 1) == ClosedForm(n) + WaitAfter(n)
  {
    if n >= 6 {
      Pow2Grows(n);
    }
    SmallPowers();
  }

  lemma {:induction false} WaitsInClosedForm(before: seq<bool>, n: nat, already: nat)
    requires Settled(before) && already == Sum(Waits(before))
    ensures Sum(Waits(before + Failures(n))) == already + ClosedForm(n)
  {
    if n == 0 {
      assert before + Failures(0) == before;
    } else {
      WaitsInClosedForm(before, n - 1, already);
      NextInClosedForm(before, n - 1, already);
    }
  }

  lemma {:induction false} NextInClosedForm(before: seq<bool>, n: nat, already: nat)
    requires Settled(before) && Sum(Waits(before + Failures(n))) == already + ClosedForm(n)
    ensures Sum(Waits(before + Failures(n + 1))) == already + ClosedForm(n + 1)
  {
    OneMoreWait(before, n);
    ClosedFormGrows(n);
  }

  /** What `n` failures in a row, since the start or the last success, add to the time waited: 2^n - 1
      seconds up to the sixth, and a minute for each one after that. */
  lemma {:induction false} TotalWait(before: seq<bool>, n: nat)
    requires Settled(before)
    ensures Sum(Waits(before + Failures(n))) ==
            Sum(Waits(before)) + if n <= 6 then Pow2(n) - 1 else 63 + 60 * (n - 6)
  {
    WaitsInClosedForm(before, n, Sum(Waits(before)));
  }

  lemma SmallPowers()
    ensures Pow2(0) == 1 && Pow2(1) == 2 && Pow2(2) == 4 && Pow2(3) == 8
    ensures Pow2(4) == 16 && Pow2(5) == 32 && Pow2(6) == 64
  {
    assert Pow2(3) == 8;
    assert Pow2(5) == 32;
  }

  // ---- applying a snapshot -------------------------------------------------------------------

  datatype Reply = Ack | Nack

  /** A message that decodes is applied as it is, valid or not, and acknowledged; one that does not
      decode is refused and changes nothing. */
  method HandleConfigSnapshot(loader: Loader.Loader, message: Option<Snapshot>, now: int) returns (reply: Reply)
    modifies loader
    ensures reply == Ack <==> message.Some?
    ensures message.Some? ==>
              var m := message.value;
              loader.View() == old(loader.View()).(
                active := Some(Config(m.version, m.routingTable, m.cellEndpoints, map[], m.defaultPlacement)),
                source := Some(Loader.SourceControlPlane))
    ensures message.Some? ==> loader.lastReload == Some(now)
    ensures message.None? ==> loader.View() == old(loader.View()) && loader.lastReload == old(loader.lastReload)
  {
    if message.None? {
      return Nack;
    }
    var m := message.value;
    loader.ApplyConfig(Config(m.version, m.routingTable, m.cellEndpoints, map[], m.defaultPlacement), now);
    return Ack;
  }

  // ---- Stop against the connection loop ------------------------------------------------------

  /** Where the loop is: at its top; past the `stopCh` check; holding the flag it read; inside
      `connect`, waiting for the lock; dialing with the lock held; reading messages; asleep; gone. */
  datatype Loop = AtTop | Checked | HasFlag(flag: bool) | AtConnect | Dialing | Handling | Asleep | Returned

  /** Where `Stop` is: not called; `reconnect` cleared and the connection closed; `stopCh` closed;
      returned. */
  datatype Stopper = NotCalled | Cleared | Closed | Stopped

  /** `lateDials` counts the dials begun after `Stop` cleared the flag. */
  datatype Client = Client(reconnect: bool, connected: bool, loop: Loop, stopper: Stopper, lateDials: nat)

  datatype Move = CheckStop | ReadFlag | Decide | BeginDial | EndDial(ok: bool) | Wake | ReadError | ServerCloses
                | Clear | CloseChannel | Finish

  const INITIAL: Client := Client(true, false, AtTop, NotCalled, 0)

  /** One step; the mutex is held exactly while dialing. A move that is not possible does nothing. */
  function Step(c: Client, m: Move): Client {
    match m
    case CheckStop =>
      if c.loop != AtTop then c
      else c.(loop := if c.stopper.Closed? || c.stopper.Stopped? then Returned else Checked)
    case ReadFlag => if c.loop == Checked then c.(loop := HasFlag(c.reconnect)) else c
    case Decide => if c.loop.HasFlag? then c.(loop := if c.loop.flag then AtConnect else Returned) else c
    case BeginDial =>
      if c.loop == AtConnect
      then c.(loop := Dialing, lateDials := c.lateDials + if c.stopper.NotCalled? then 0 else 1) else c
    case EndDial(ok) =>
      if c.loop != Dialing then c
      else if ok then c.(loop := Handling, connected := true) else c.(loop := Asleep)
    case Wake => if c.loop == Asleep then c.(loop := AtTop) else c
    case ReadError => if c.loop == Handling && !c.connected then c.(loop := AtTop) else c
    case ServerCloses => c.(connected := false)
    case Clear =>
      if c.stopper.NotCalled? && c.loop != Dialing
      then c.(stopper := Cleared, reconnect := false, connected := false) else c
    case CloseChannel => if c.stopper.Cleared? then c.(stopper := Closed) else c
    case Finish => if c.stopper.Closed? && c.loop == Returned then c.(stopper := Stopped) else c
  }

  function Exec(c: Client, moves: seq<Move>): Client {
    if moves == [] then c else Step(Exec(c, moves[..|moves| - 1]), moves[|moves| - 1])
  }

  /** The loop is committed to one more dial. */
  predicate Committed(c: Client) {
    c.loop == AtConnect || c.loop == HasFlag(true)
  }

  ghost predicate StopInv(c: Client) {
    && (c.reconnect <==> c.stopper.NotCalled?)
    && (c.stopper.NotCalled? ==> c.lateDials == 0)
    && c.lateDials + (if !c.stopper.NotCalled? && Committed(c) then 1 else 0) <= 1
    && (!c.stopper.NotCalled? && (c.loop == Dialing || c.connected) ==> c.lateDials == 1)
    && (c.connected ==> c.loop == Handling)
    && (c.stopper.Stopped? ==> c.loop == Returned)
  }

  lemma {:induction false} StopInvKept(c: Client, moves: seq<Move>)
    requires StopInv(c)
    ensures StopInv(Exec(c, moves))
  {
    if moves == [] {
    } else {
      StopInvKept(c, moves[..|moves| - 1]);
    }
  }

  /** In every interleaving at most one dial begins after `Stop` has cleared `reconnect`; a connection
      that is open after that is that one dial's; and when `Stop` returns the loop is gone. */
  lemma {:induction false} AtMostOneLateDial(moves: seq<Move>)
    ensures var c := Exec(INITIAL, moves);
            && c.lateDials <= 1
            && (!c.stopper.NotCalled? && c.connected ==> c.lateDials == 1)
            && (c.stopper.Stopped? ==> c.loop == Returned)
    ensures StopInv(Exec(INITIAL, moves))
  {
    StopInvKept(INITIAL, moves);
  }

  ghost predicate ServerKeepsOpen(moves: seq<Move>) {
    forall i :: 0 <= i < |moves| ==> !moves[i].ServerCloses?
  }

  /** `Stop` is under way, and the loop reads from a connection that `Stop` did not see. */
  predicate Hung(c: Client) {
    (c.stopper.Cleared? || c.stopper.Closed?) && c.loop == Handling && c.connected
  }

  lemma {:induction false} HungUntilServerCloses(c: Client, moves: seq<Move>)
    requires Hung(c) && ServerKeepsOpen(moves)
    ensures Hung(Exec(c, moves))
  {
    if moves == [] {
    } else {
      HungUntilServerCloses(c, moves[..|moves| - 1]);
    }
  }

  /** The rest of the way for both threads, from wherever the loop is, if a dial that it is committed
      to fails. */
  const WIND_DOWN: seq<Move> :=
    [CloseChannel, ReadFlag, Decide, BeginDial, EndDial(false), Wake, ReadError, CheckStop, Finish]

  lemma {:induction false} ExecFirst(c: Client, moves: seq<Move>)
    requires moves != []
    ensures Exec(c, moves) == Exec(Step(c, moves[0]), moves[1..])
  {
    if |moves| == 1 {
      assert moves[..0] == [] && moves[1..] == [];
    } else {
      var n := |moves| - 1;
      ExecFirst(c, moves[..n]);
      assert moves[..n][1..] == moves[1..][..n - 1];
    }
  }

  /** Nothing is open, nothing more will be dialed after the loop's next pass over its top. */
  predicate Closing(c: Client) {
    !c.reconnect && !c.connected && (c.stopper.Closed? || (c.stopper.Stopped? && c.loop == Returned))
  }

  lemma WindsDownFromTop(c: Client)
    requires Closing(c) && c.loop in {AtTop, Asleep, Handling, Returned}
    ensures Exec(c, WIND_DOWN[5..]).stopper.Stopped?
  {
    var c1 := Step(c, Wake);
    var c2 := Step(c1, ReadError);
    var c3 := Step(c2, CheckStop);
    ExecFirst(c, WIND_DOWN[5..]);
    ExecFirst(c1, WIND_DOWN[6..]);
    ExecFirst(c2, WIND_DOWN[7..]);
    ExecFirst(c3, WIND_DOWN[8..]);
  }

  lemma WindsDownFromDial(c: Client)
    requires Closing(c) && c.loop in {AtConnect, Dialing, AtTop, Asleep, Handling, Returned}
    ensures Exec(c, WIND_DOWN[3..]).stopper.Stopped?
  {
    var c1 := Step(c, BeginDial);
    ExecFirst(c, WIND_DOWN[3..]);
    ExecFirst(c1, WIND_DOWN[4..]);
    WindsDownFromTop(Step(c1, EndDial(false)));
  }

  lemma WindsDown(c: Client)
    requires StopInv(c) && !c.stopper.NotCalled? && !c.connected
    ensures Exec(c, WIND_DOWN).stopper.Stopped?
  {
    var c1 := Step(c, CloseChannel);
    var c2 := Step(c1, ReadFlag);
    ExecFirst(c, WIND_DOWN);
    ExecFirst(c1, WIND_DOWN[1..]);
    ExecFirst(c2, WIND_DOWN[2..]);
    WindsDownFromDial(Step(c2, Decide));
  }

  /** Once `Stop` has cleared the flag, it can still return without the server's help exactly as long
      as no connection is open: the one late dial, if it succeeds, leaves `Stop` waiting for a loop
      that reads from a connection nobody on this side will close. */
  lemma StopReturnsIff(moves: seq<Move>)
    requires !Exec(INITIAL, moves).stopper.NotCalled?
    ensures (exists more :: ServerKeepsOpen(more) && Exec(Exec(INITIAL, moves), more).stopper.Stopped?)
            <==> !Exec(INITIAL, moves).connected
  {
    var c := Exec(INITIAL, moves);
    AtMostOneLateDial(moves);
    if c.connected {
      forall more | ServerKeepsOpen(more)
        ensures !Exec(c, more).stopper.Stopped?
      {
        HungUntilServerCloses(c, more);
      }
    } else {
      WindsDown(c);
      assert ServerKeepsOpen(WIND_DOWN);
    }
  }

  /** The loop has a connection, or is past the point where it would notice that it should not dial. */
  predicate MayConnect(c: Client) {
    c.connected || c.loop == Dialing || Committed(c)
  }

  /** The flag is cleared and the loop will not connect again. */
  predicate PastDialing(c: Client) {
    !c.stopper.NotCalled? && !c.reconnect && !MayConnect(c)
  }

  lemma {:induction false} PastDialingStays(c: Client, moves: seq<Move>)
    requires PastDialing(c)
    ensures PastDialing(Exec(c, moves))
  {
    if moves == [] {
    } else {
      PastDialingStays(c, moves[..|moves| - 1]);
    }
  }

  lemma LateDialHangs(c: Client)
    requires StopInv(c) && (c.stopper.Cleared? || c.stopper.Closed?) && MayConnect(c)
    ensures Hung(Exec(c, [Decide, BeginDial, EndDial(true)]))
  {
    var moves := [Decide, BeginDial, EndDial(true)];
    ExecFirst(c, moves);
    ExecFirst(Step(c, Decide), moves[1..]);
    ExecFirst(Step(Step(c, Decide), BeginDial), moves[2..]);
  }

  /** What `Stop` and the loop do next can leave `Stop` waiting for the server exactly when, at the
      moment, the loop has a connection or is committed to dialing. */
  lemma StopCanHangIff(moves: seq<Move>)
    requires Exec(INITIAL, moves).stopper.Cleared? || Exec(INITIAL, moves).stopper.Closed?
    ensures (exists more :: ServerKeepsOpen(more) && Hung(Exec(Exec(INITIAL, moves), more)))
            <==> MayConnect(Exec(INITIAL, moves))
  {
    var c := Exec(INITIAL, moves);
    AtMostOneLateDial(moves);
    if MayConnect(c) {
      LateDialHangs(c);
      assert ServerKeepsOpen([Decide, BeginDial, EndDial(true)]);
    } else {
      forall more | ServerKeepsOpen(more)
        ensures !Hung(Exec(c, more))
      {
        PastDialingStays(c, more);
      }
    }
  }

  /** How many more moves it can take until `Stop` has returned. */
  function Remaining(c: Client): nat {
    (match c.loop
     case Asleep => 4
     case Handling => 4
     case AtTop => 3
     case Checked => 2
     case HasFlag(_) => 1
     case _ => 0) +
    (match c.stopper
     case NotCalled => 3
     case Cleared => 2
     case Closed => 1
     case Stopped => 0)
  }

  /** Every one of the moves does something. */
  ghost predicate Busy(c: Client, moves: seq<Move>) {
    forall n :: 0 <= n < |moves| ==> Step(Exec(c, moves[..n]), moves[n]) != Exec(c, moves[..n])
  }

  lemma BusyMoveCounts(c: Client, m: Move)
    requires PastDialing(c) && Step(c, m) != c
    ensures Remaining(Step(c, m)) < Remaining(c)
  {
  }

  lemma NothingLeftWhenStopped(c: Client)
    requires PastDialing(c) && StopInv(c)
    ensures c.stopper.Stopped? <==> forall m :: Step(c, m) == c
  {
    if !c.stopper.Stopped? {
      var m := match c.loop
        case Asleep => Wake
        case Handling => ReadError
        case AtTop => CheckStop
        case Checked => ReadFlag
        case HasFlag(_) => Decide
        case _ => if c.stopper.Cleared? then CloseChannel else Finish;
      assert Step(c, m) != c;
    }
  }

  lemma {:induction false} BusyMovesCount(c: Client, moves: seq<Move>)
    requires PastDialing(c) && Busy(c, moves)
    ensures |moves| + Remaining(Exec(c, moves)) <= Remaining(c)
  {
    if moves == [] {
    } else {
      var n := |moves| - 1;
      forall k | 0 <= k < n
        ensures Step(Exec(c, moves[..n][..k]), moves[..n][k]) != Exec(c, moves[..n][..k])
      {
        assert moves[..n][..k] == moves[..k];
      }
      BusyMovesCount(c, moves[..n]);
      PastDialingStays(c, moves[..n]);
      BusyMoveCounts(Exec(c, moves[..n]), moves[n]);
    }
  }

  /** And when the loop is past that, `Stop` is guaranteed to return: whatever the two threads and the
      server do, at most six more moves are possible, and only when `Stop` has returned are there none. */
  lemma StopReturnsWithoutLateDial(moves: seq<Move>, more: seq<Move>)
    requires !Exec(INITIAL, moves).stopper.NotCalled? && !MayConnect(Exec(INITIAL, moves))
    requires Busy(Exec(INITIAL, moves), more)
    ensures |more| <= 6
    ensures var c := Exec(Exec(INITIAL, moves), more);
            c.stopper.Stopped? <==> forall m :: Step(c, m) == c
  {
    StopInvKept(INITIAL, moves);
    StopInvKept(Exec(INITIAL, moves), more);
    BusyMovesCount(Exec(INITIAL, moves), more);
    PastDialingStays(Exec(INITIAL, moves), more);
    NothingLeftWhenStopped(Exec(Exec(INITIAL, moves), more));
  }

  lemma ExecSnoc(moves: seq<Move>, m: Move)
    ensures Exec(INITIAL, moves + [m]) == Step(Exec(INITIAL, moves), m)
  {
    assert (moves + [m])[..|moves|] == moves;
  }

  lemma ClearedWhileCommitted() returns (moves: seq<Move>)
    ensures Exec(INITIAL, moves) == Client(false, false, AtConnect, Cleared, 0)
  {
    assert Exec(INITIAL, []) == INITIAL;
    ExecSnoc([], CheckStop);
    ExecSnoc([] + [CheckStop], ReadFlag);
    ExecSnoc([] + [CheckStop] + [ReadFlag], Decide);
    ExecSnoc([] + [CheckStop] + [ReadFlag] + [Decide], Clear);
    moves := [] + [CheckStop] + [ReadFlag] + [Decide] + [Clear];
  }

  /** And that does happen: the loop has read the flag before `Stop` clears it, and its dial succeeds. */
  lemma StopCanHang() returns (moves: seq<Move>)
    ensures Hung(Exec(INITIAL, moves))
  {
    var a := ClearedWhileCommitted();
    ExecSnoc(a, BeginDial);
    ExecSnoc(a + [BeginDial], EndDial(true));
    moves := a + [BeginDial] + [EndDial(true)];
  }
}
