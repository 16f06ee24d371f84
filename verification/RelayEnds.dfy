/**
 * How the relay lets go of sockets (workers/relay/src/index.js): which are closed by each event and with what code, and
 * over every run that no socket is left open and forgotten but the sender of a frame that could not be passed on.
 */
module RelayEnds {
  import opened Common
  import opened Relay

  /** Waiting for a peer, or in a conversation. */
  predicate Live(r: State, s: Socket) {
    r.standby == Some(s) || s in r.partners
  }

  /** The standby place after an event. */
  lemma StandbyAfter(r: State, e: Event)
    ensures Handle(r, e).state.standby ==
            if e.Join? && e.role.Host? then Some(e.socket)
            else if ChangeOf(r, e).Linked? || ChangeOf(r, e).Cleared? || e.UnpairedFires? then None
            else if e.Gone? && r.standby == Some(e.socket) then None
            else r.standby
  {
    match e
    case Join(_, _, _) => hide Forward, Leave, Shutdown, ClosePair, DropStandby;
    case Frame(s, _, sends) => hide Admit, Leave, DropStandby;
    case Gone(_) => hide Admit, Forward, DropStandby, Shutdown;
    case _ => hide Admit, Forward, Leave, ClosePair;
  }

  /** The sockets an event closes: those its change takes away, but not the socket the event came from. */
  function ClosedBy(r: State, e: Event): set<Socket> {
    var waiting := if r.standby.Some? then {r.standby.value} else {};
    match ChangeOf(r, e)
    case Cleared => waiting + r.partners.Keys
    case Cut(s) => if s in r.partners then {r.partners[s]} else {}
    case Linked(_, _) => {}
    case Same => if (e.Join? && e.role.Host?) || e.UnpairedFires? then waiting else {}
  }

  lemma ClosesAt(r: State, e: Event, s: Socket)
    ensures s in Handle(r, e).closes <==> s in ClosedBy(r, e)
  {
    match e
    case Join(_, _, _) => hide Forward, Leave, Shutdown, ClosePair, DropStandby;
    case Frame(s, _, sends) => hide Admit, Leave, DropStandby;
    case Gone(_) => hide Admit, Forward, DropStandby, Shutdown;
    case _ => hide Admit, Forward, Leave, ClosePair;
  }

  /** The code of every close: that of the event, and on a frame that of the limit it broke. */
  lemma CodesAt(r: State, e: Event, s: Socket)
    requires s in Handle(r, e).closes
    ensures Handle(r, e).closes[s] ==
            match e
            case Join(_, _, _) => Replaced
            case Frame(_, payload, _) =>
              if |payload| > MAX_FRAME_BYTES then Protocol
              else if r.bytes + |payload| > MAX_SESSION_BYTES then Limit
              else PeerLeft
            case Gone(_) => PeerLeft
            case _ => Expired
  {
    match e
    case Join(_, _, _) => hide Forward, Leave, Shutdown, ClosePair, DropStandby;
    case Frame(s, _, sends) => hide Admit, Leave, DropStandby;
    case Gone(_) => hide Admit, Forward, DropStandby, Shutdown;
    case _ => hide Admit, Forward, Leave, ClosePair;
  }

  /** The sender of a frame its partner's socket did not take. */
  predicate Strands(r: State, e: Event, s: Socket) {
    e.Frame? && e.socket == s && ChangeOf(r, e) == Cut(s)
  }

  /**
   * An event closes a socket if and only if the socket is live before it and not after it, unless it has itself gone
   * or is the sender of a frame that could not be passed on.
   */
  lemma ClosesExactly(w: World, e: Event, s: Socket)
    requires Inv(w) && Enabled(w, e)
    ensures var r, o := w.relay, Handle(w.relay, e);
            s in o.closes <==>
            Live(r, s) && !Live(o.state, s) && !(e.Gone? && e.socket == s) && !Strands(r, e, s)
  {
    hide Inv, Handle, Piped, Noticed, Told, Listed;
    ClosesAt(w.relay, e, s);
    StandbyAfter(w.relay, e);
    Changes(w.relay, e);
    PartnersAt(w, s);
    if ChangeOf(w.relay, e).Cut? {
      PartnersAt(w, ChangeOf(w.relay, e).s);
    }
    InvAt(w, s);
  }

  /** Timers are off once everyone is gone, and after every shutdown. */
  lemma TimersOff(r: State, e: Event)
    requires ChangeOf(r, e).Cleared? ||
             (e.Gone? && Handle(r, e).state.standby.None? && Handle(r, e).state.partners == map[])
    ensures !Handle(r, e).state.expiry && !Handle(r, e).state.unpaired
  {
    hide CloseAll, Admit;
  }

  // ---------------------------------------------------------------------------
  // Over runs.

  /** What has become of sockets: closed with a code, gone by themselves, or left by a failed forward. */
  datatype Fates = Fates(closed: map<Socket, Code>, gone: set<Socket>, stranded: set<Socket>)

  function Fated(w: World, f: Fates, e: Event): Fates {
    Fates(
      f.closed + Handle(w.relay, e).closes,
      if e.Gone? then f.gone + {e.socket} else f.gone,
      if e.Frame? && ChangeOf(w.relay, e) == Cut(e.socket) then f.stranded + {e.socket} else f.stranded)
  }

  function FatesOf(w: World, f: Fates, run: seq<Event>): Fates
    decreases |run|
  {
    if run == [] then f else FatesOf(Step(w, run[0]), Fated(w, f, run[0]), run[1..])
  }

  predicate Over(f: Fates, s: Socket) {
    s in f.closed || s in f.gone || s in f.stranded
  }

  /** An admitted socket is live, or its end is on record, and never both; a socket that has gone has no name left. */
  predicate Settled(w: World, f: Fates, s: Socket) {
    && (s in w.role ==> (Live(w.relay, s) <==> !Over(f, s)))
    && (s !in w.role ==> !Live(w.relay, s) && !Over(f, s))
    && (s in f.gone ==> s !in w.relay.peerIds)
  }

  ghost predicate AllSettled(w: World, f: Fates) {
    forall s :: Settled(w, f, s)
  }

  lemma NameGoes(r: State, e: Event)
    requires e.Gone?
    ensures e.socket !in Handle(r, e).state.peerIds
  {
    hide ClosePair;
  }

  /** Who is live after an event: those who were and did not leave with it, and whom it admits. */
  lemma LiveAfter(w: World, e: Event, s: Socket)
    requires Inv(w) && Enabled(w, e)
    ensures var r, t := w.relay, Handle(w.relay, e).state;
            && (Live(t, s) ==> Live(r, s) || (Admitted(r, e) && s == e.socket))
            && (Admitted(r, e) && s == e.socket ==> Live(t, s))
            && (e.Gone? && s == e.socket ==> !Live(t, s))
            && (Strands(r, e, s) ==> !Live(t, s) && Live(r, s))
  {
    hide Inv, Handle, Piped, Noticed, Told, Listed, Registered;
    StandbyAfter(w.relay, e);
    Changes(w.relay, e);
    PartnersAt(w, s);
    InvAt(w, s);
  }

  lemma StepSettles(w: World, f: Fates, e: Event, s: Socket)
    requires Inv(w) && Enabled(w, e) && Settled(w, f, s)
    ensures Settled(Step(w, e), Fated(w, f, e), s)
  {
    hide Inv, Handle, Step, Live, Piped, Noticed, Told, Listed, StandbyIdle, ChangeOf;
    ClosesExactly(w, e, s);
    LiveAfter(w, e, s);
    RelayIs(w, e);
    InvAt(w, s);
    RecordsAt(w, e, s);
    NamingAt(w.relay, e, s);
    if e.Gone? {
      NameGoes(w.relay, e);
    }
  }

  lemma {:induction false} RunSettles(w: World, f: Fates, run: seq<Event>)
    requires Inv(w) && CanRun(w, run) && AllSettled(w, f)
    ensures AllSettled(Run(w, run), FatesOf(w, f, run))
    decreases |run|
  {
    hide Inv, Step, Fated, Settled;
    if run != [] {
      StepKeeps(w, run[0]);
      forall s
        ensures Settled(Step(w, run[0]), Fated(w, f, run[0]), s)
      {
        StepSettles(w, f, run[0], s);
      }
      RunSettles(Step(w, run[0]), Fated(w, f, run[0]), run[1..]);
    }
  }

  /**
   * Over every run: an admitted socket that neither waits nor is paired was closed by the relay, has gone itself, or
   * is the sender of a frame that could not be passed on; and one that waits or is paired is none of these.
   */
  lemma NoSocketForgotten(run: seq<Event>, s: Socket)
    requires CanRun(START, run) && s in Run(START, run).role
    ensures var w, f := Run(START, run), FatesOf(START, Fates(map[], {}, {}), run);
            Live(w.relay, s) <==> s !in f.closed && s !in f.gone && s !in f.stranded
  {
    StartHolds();
    assert AllSettled(START, Fates(map[], {}, {}));
    RunSettles(START, Fates(map[], {}, {}), run);
    hide Inv, Run, CanRun, FatesOf;
    assert Settled(Run(START, run), FatesOf(START, Fates(map[], {}, {}), run), s);
  }

  /** Over every run: nothing is kept of a socket that has gone. */
  lemma GoneIsForgotten(run: seq<Event>, s: Socket)
    requires CanRun(START, run) && s in FatesOf(START, Fates(map[], {}, {}), run).gone
    ensures var r := Run(START, run).relay;
            r.standby != Some(s) && s !in r.partners && s !in r.peerIds
  {
    StartHolds();
    assert AllSettled(START, Fates(map[], {}, {}));
    RunSettles(START, Fates(map[], {}, {}), run);
    hide Inv, Run, CanRun, FatesOf;
    assert Settled(Run(START, run), FatesOf(START, Fates(map[], {}, {}), run), s);
  }
}
