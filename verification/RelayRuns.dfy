/** The relay's byte limit over whole runs, and runs that show where the relay parts from its comments. */
module RelayRuns {
  import opened Common
  import opened Relay

  // ---------------------------------------------------------------------------
  // Runs in pieces.

  lemma {:induction false} RunJoin(w: World, a: seq<Event>, b: seq<Event>)
    ensures Run(w, a + b) == Run(Run(w, a), b)
    ensures CanRun(w, a + b) <==> CanRun(w, a) && CanRun(Run(w, a), b)
    decreases |a|
  {
    hide Step, Enabled;
    if a == [] {
      assert a + b == b;
    } else {
      assert (a + b)[1..] == a[1..] + b;
      RunJoin(Step(w, a[0]), a[1..], b);
    }
  }

  lemma RunOne(w: World, e: Event)
    ensures Run(w, [e]) == Step(w, e) && (CanRun(w, [e]) <==> Enabled(w, e))
  {
    hide Step, Enabled;
    assert [e][1..] == [];
    assert Run(Step(w, e), []) == Step(w, e);
  }

  // ---------------------------------------------------------------------------
  // The byte limit.

  /** What a frame adds to the meter, whoever sends it. */
  function Weight(e: Event): nat {
    if e.Frame? && |e.payload| <= MAX_FRAME_BYTES then |e.payload| else 0
  }

  function Total(run: seq<Event>): nat {
    if run == [] then 0 else Weight(run[0]) + Total(run[1..])
  }

  lemma StepWeighs(r: State, e: Event)
    ensures Handle(r, e).state.bytes == r.bytes + Weight(e)
  {
    hide CloseAll;
    match e
    case Join(_, _, _) => hide Forward, Leave, Shutdown, ClosePair, DropStandby;
    case Frame(s, _, sends) => hide Admit, Leave, DropStandby;
    case Gone(_) => hide Admit, Forward, DropStandby, Shutdown;
    case _ => hide Admit, Forward, Leave, ClosePair;
  }

  /**
   * The meter counts every binary frame within the frame limit, from either side, paired or not, and
   * no shutdown sets it back.
   */
  lemma {:induction false} MeterIsTotal(w: World, run: seq<Event>)
    ensures Run(w, run).relay.bytes == w.relay.bytes + Total(run)
    decreases |run|
  {
    if run != [] {
      StepWeighs(w.relay, run[0]);
      RelayIs(w, run[0]);
      MeterIsTotal(Step(w, run[0]), run[1..]);
      hide Handle, Step;
    }
  }

  function Live(r: State): set<Socket> {
    (if r.standby.Some? then {r.standby.value} else {}) + r.partners.Keys
  }

  /**
   * The frame that takes the total of the whole run over the limit, and no other event, ends everything with `Limit`.
   */
  lemma LimitExactly(run: seq<Event>, e: Event)
    ensures var r := Run(START, run).relay;
            var o := Handle(r, e);
            var over := e.Frame? && |e.payload| <= MAX_FRAME_BYTES && Total(run) + |e.payload| > MAX_SESSION_BYTES;
            && (over ==> o.closes == CloseAll(Live(r), Limit) && o.state.standby.None? && o.state.partners == map[])
            && (Limit in o.closes.Values <==> over && Live(r) != {})
  {
    MeterIsTotal(START, run);
    var r := Run(START, run).relay;
    hide Run;
    LimitStep(r, e);
  }

  lemma LimitStep(r: State, e: Event)
    ensures var o := Handle(r, e);
            var over := e.Frame? && |e.payload| <= MAX_FRAME_BYTES && r.bytes + |e.payload| > MAX_SESSION_BYTES;
            && (over ==> o.closes == CloseAll(Live(r), Limit) && o.state.standby.None? && o.state.partners == map[])
            && (Limit in o.closes.Values <==> over && Live(r) != {})
  {
    CodesOf(Live(r), Limit);
    CodesOf(Live(r), Protocol);
    CodesOf(Live(r), Expired);
    match e
    case Join(_, _, _) => hide Forward, Leave, Shutdown, ClosePair, DropStandby;
    case Frame(_, _, _) => hide Admit, Leave, DropStandby;
    case Gone(_) => hide Admit, Forward, DropStandby, Shutdown;
    case _ => hide Admit, Forward, Leave, ClosePair;
  }

  lemma CodesOf(sockets: set<Socket>, code: Code)
    ensures CloseAll(sockets, code).Values == if sockets == {} then {} else {code}
  {
    var m := CloseAll(sockets, code);
    assert forall s | s in sockets :: m[s] == code;
    assert (forall s :: s !in sockets) ==> sockets == {};
    assert forall c | c in m.Values :: exists s :: s in m && m[s] == c;
    if sockets != {} {
      var s :| s in sockets;
      assert m[s] in m.Values;
    }
  }

  // ---------------------------------------------------------------------------
  // A host and a guest.

  const HOST_JOINS := Join(Host, 1, 0)
  const GUEST_JOINS := Join(Guest, 2, 1)
  const OPENING := [HOST_JOINS, GUEST_JOINS]
  const PAIR := State(None, None, map[0 := 1, 1 := 0], map[0 := 1, 1 := 2], 0, true, false)

  lemma HostWaits()
    ensures var w := Step(START, HOST_JOINS);
            && Enabled(START, HOST_JOINS) && w.next == 1
            && w.relay == State(Some(0), Some(1), map[], map[0 := 1], 0, true, true)
            && w.role == map[0 := Host] && w.mates == map[] && w.heard == map[] && w.early == map[]
            && At(w.outbox, 0) == [Waiting] && At(w.outbox, 1) == []
  {
    Flows(START, HOST_JOINS, 0);
    Flows(START, HOST_JOINS, 1);
    hide Posted;
  }

  lemma Opened()
    ensures var w := Run(START, OPENING);
            && CanRun(START, OPENING) && w.relay == PAIR
            && w.role == map[0 := Host, 1 := Guest] && w.mates == map[0 := 1, 1 := 0] && w.heard == map[]
  {
    HostWaits();
    var w1 := Step(START, HOST_JOINS);
    hide Step;
    Joined(w1);
    RunOne(START, HOST_JOINS);
    RunOne(w1, GUEST_JOINS);
    RunJoin(START, [HOST_JOINS], [GUEST_JOINS]);
    assert [HOST_JOINS] + [GUEST_JOINS] == OPENING;
  }

  lemma Joined(w: World)
    requires w.relay == State(Some(0), Some(1), map[], map[0 := 1], w.relay.bytes, true, true)
    requires w.next == 1 && w.role == map[0 := Host] && w.mates == map[]
    ensures var v := Step(w, GUEST_JOINS);
            && Enabled(w, GUEST_JOINS) && v.relay == PAIR.(bytes := w.relay.bytes)
            && v.role == map[0 := Host, 1 := Guest] && v.mates == map[0 := 1, 1 := 0] && v.heard == w.heard
  {
    hide Posted;
  }

  // ---------------------------------------------------------------------------
  // One direction cut off by the other's traffic.

  function Burst(s: Socket, n: nat): seq<Event> {
    if n == 0 then [] else [Frame(s, Zeros(MAX_FRAME_BYTES), true)] + Burst(s, n - 1)
  }

  function Volume(w: World, s: Socket): nat { |Concat(At(w.heard, s))| }

  lemma FrameForwarded(w: World, s: Socket, payload: bytes)
    requires s in w.relay.partners && |payload| <= MAX_FRAME_BYTES && w.relay.bytes + |payload| <= MAX_SESSION_BYTES
    ensures var v := Step(w, Frame(s, payload, true));
            && v.relay == w.relay.(bytes := w.relay.bytes + |payload|) && v.role == w.role
            && forall t :: Volume(v, t) == Volume(w, t) + if t == s then |payload| else 0
  {
    var e := Frame(s, payload, true);
    var v := Step(w, e);
    forall t
      ensures Volume(v, t) == Volume(w, t) + if t == s then |payload| else 0
    {
      Speaks(w, e, t);
      ConcatAppend(At(w.heard, t), [payload]);
      assert Concat([payload]) == payload;
      hide Step, Handle, At, Concat;
    }
    hide Posted, Concat, At;
  }

  lemma {:induction false} Flooded(w: World, s: Socket, n: nat)
    requires s in w.relay.partners && s in w.role && w.relay.bytes + n * MAX_FRAME_BYTES <= MAX_SESSION_BYTES
    ensures var v := Run(w, Burst(s, n));
            && CanRun(w, Burst(s, n))
            && v.relay == w.relay.(bytes := w.relay.bytes + n * MAX_FRAME_BYTES) && v.role == w.role
            && forall t :: Volume(v, t) == Volume(w, t) + if t == s then n * MAX_FRAME_BYTES else 0
    decreases n
  {
    hide Step, Volume;
    if n > 0 {
      var e := Frame(s, Zeros(MAX_FRAME_BYTES), true);
      FrameForwarded(w, s, Zeros(MAX_FRAME_BYTES));
      Flooded(Step(w, e), s, n - 1);
      assert Burst(s, n)[1..] == Burst(s, n - 1);
    }
  }

  /**
   * Host and guest each send half the limit. The guest's next byte finds the meter full: both are closed with `Limit`,
   * although neither direction has carried more than half of what the comment allows each.
   */
  lemma OneDirectionCutOff()
    ensures var run := OPENING + Burst(0, 256) + Burst(1, 256);
            var w, o := Run(START, run), Handle(Run(START, run).relay, Frame(1, [7], true));
            && CanRun(START, run) && Enabled(w, Frame(1, [7], true))
            && Volume(w, 0) == Volume(w, 1) == MAX_SESSION_BYTES / 2
            && o.closes == map[0 := Limit, 1 := Limit] && o.state.partners == map[]
  {
    hide Burst, Step, Handle, Volume, Run, CanRun;
    HalfAndHalf(256);
    FullMeter();
  }

  /** Each side of the pair has sent `n` full frames. */
  predicate Halves(w: World, n: nat) {
    && 1 in w.role && w.relay == PAIR.(bytes := w.relay.bytes) && w.relay.bytes == 2 * n * MAX_FRAME_BYTES
    && Volume(w, 0) == Volume(w, 1) == n * MAX_FRAME_BYTES
  }

  lemma HalfAndHalf(n: nat)
    requires 2 * n * MAX_FRAME_BYTES <= MAX_SESSION_BYTES
    ensures CanRun(START, OPENING + Burst(0, n) + Burst(1, n)) &&
            Halves(Run(START, OPENING + Burst(0, n) + Burst(1, n)), n)
  {
    hide Step, Volume, Run, CanRun, Burst;
    var w2 := Run(START, OPENING);
    Opened();
    NothingHeard(w2);
    Flooded(w2, 0, n);
    Flooded(Run(w2, Burst(0, n)), 1, n);
    RunJoin(START, OPENING, Burst(0, n));
    RunJoin(START, OPENING + Burst(0, n), Burst(1, n));
  }

  lemma NothingHeard(w: World)
    requires w.heard == map[]
    ensures forall s :: Volume(w, s) == 0
  {
  }

  lemma FullMeter()
    ensures var o := Handle(PAIR.(bytes := MAX_SESSION_BYTES), Frame(1, [7], true));
            o.closes == map[0 := Limit, 1 := Limit] && o.state.partners == map[]
  {
    LimitStep(PAIR.(bytes := MAX_SESSION_BYTES), Frame(1, [7], true));
    hide Handle;
    assert Live(PAIR) == {0, 1};
  }

  // ---------------------------------------------------------------------------
  // A sender left open.

  /** The guest's socket takes no more: the guest is closed, and the host whose frame failed stays open and unpaired. */
  lemma SenderLeftOpen()
    ensures var w := Run(START, OPENING);
            var o := Handle(w.relay, Frame(0, [7], false));
            && CanRun(START, OPENING) && Enabled(w, Frame(0, [7], false))
            && o.closes == map[1 := PeerLeft] && o.state.partners == map[] && o.state.standby.None?
            && 0 in o.state.peerIds
  {
    Opened();
    hide Run, CanRun;
    assert PAIR.partners - {0} - {1} == map[];
  }

  // ---------------------------------------------------------------------------
  // A host that writes before it is joined.

  const EARLY := [HOST_JOINS, Frame(0, [1], true), GUEST_JOINS, Frame(0, [2], true)]

  /** The first frame reaches nobody: the guest is sent the second alone, no prefix of what the host sent. */
  lemma EarlyFrameLost()
    ensures var w := Run(START, EARLY);
            && CanRun(START, EARLY) && w.mates == map[0 := 1, 1 := 0] && 1 in w.relay.partners
            && At(w.heard, 0) == [[1], [2]] && Binaries(At(w.outbox, 1)) == [[2]]
            && !(Concat(Binaries(At(w.outbox, 1))) <= Concat(At(w.heard, 0)))
  {
    hide Step, Handle, At, Binaries, Concat, Run, CanRun, Enabled;
    HostWaits();
    var e2, e4: Event := Frame(0, [1], true), Frame(0, [2], true);
    var w1 := Step(START, HOST_JOINS);
    var w2 := Step(w1, e2);
    var w3 := Step(w2, GUEST_JOINS);
    EarlyIgnored(w1);
    Joined(w2);
    GuestStarts(w2);
    LateForwarded(w3);
    RunFour(START, HOST_JOINS, e2, GUEST_JOINS, e4);
    TwoBytes();
    assert [[1]] + [[2]] == [[1], [2]] && [] + [[2]] == [[2]];
  }

  lemma RunFour(w: World, a: Event, b: Event, c: Event, d: Event)
    ensures var w1 := Step(w, a); var w2 := Step(w1, b); var w3 := Step(w2, c);
            && Run(w, [a, b, c, d]) == Step(w3, d)
            && (CanRun(w, [a, b, c, d]) <==> Enabled(w, a) && Enabled(w1, b) && Enabled(w2, c) && Enabled(w3, d))
  {
    hide Step, Enabled;
    var w1 := Step(w, a);
    var w2 := Step(w1, b);
    var w3 := Step(w2, c);
    RunOne(w3, d);
    assert [c, d][1..] == [d] && [b, c, d][1..] == [c, d] && [a, b, c, d][1..] == [b, c, d];
    assert Run(w2, [c, d]) == Step(w3, d) && (CanRun(w2, [c, d]) <==> Enabled(w2, c) && Enabled(w3, d));
    assert Run(w1, [b, c, d]) == Step(w3, d) && (CanRun(w1, [b, c, d]) <==> Enabled(w1, b) && CanRun(w2, [c, d]));
  }

  lemma GuestStarts(w: World)
    requires At(w.outbox, 1) == []
    ensures var v := Step(w, GUEST_JOINS); Binaries(At(v.outbox, 1)) == [] && At(v.heard, 0) == At(w.heard, 0)
  {
    Flows(w, GUEST_JOINS, 1);
    NoBinaries(w.relay, GUEST_JOINS, 1);
    assert Binaries([]) == [];
    hide Handle, Posted, Binaries;
    assert Binaries(At(w.outbox, 1)) + [] == [];
  }

  lemma TwoBytes()
    ensures Concat([[1], [2]]) == [1, 2] && Concat([[2]]) == [2] && !([2] <= [1, 2])
  {
    var last: seq<bytes> := [[2]];
    assert last[1..] == [] && Concat(last) == last[0] + Concat([]) == [2];
    var both: seq<bytes> := [[1], [2]];
    assert both[1..] == last && Concat(both) == both[0] + Concat(last);
    var one: bytes, two: bytes := [2], [1, 2];
    assert two[..1][0] == 1 && one[0] == 2;
  }

  lemma EarlyIgnored(w: World)
    requires w.relay == State(Some(0), Some(1), map[], map[0 := 1], 0, true, true) && w.mates == map[]
    requires w.role == map[0 := Host] && w.next == 1 && w.heard == map[] && At(w.outbox, 1) == []
    ensures var v := Step(w, Frame(0, [1], true));
            && Enabled(w, Frame(0, [1], true)) && v.relay == w.relay.(bytes := 1) && v.mates == map[]
            && v.role == w.role && v.next == 1 && At(v.heard, 0) == [[1]] && At(v.outbox, 1) == []
  {
    Flows(w, Frame(0, [1], true), 1);
    hide Posted;
  }

  lemma LateForwarded(w: World)
    requires w.relay == PAIR.(bytes := 1) && w.role == map[0 := Host, 1 := Guest]
    ensures var v, e := Step(w, Frame(0, [2], true)), Frame(0, [2], true);
            && Enabled(w, e) && v.mates == w.mates && 1 in v.relay.partners
            && At(v.heard, 0) == At(w.heard, 0) + [[2]]
            && Binaries(At(v.outbox, 1)) == Binaries(At(w.outbox, 1)) + [[2]]
  {
    Flows(w, Frame(0, [2], true), 1);
    hide Posted;
  }
}
