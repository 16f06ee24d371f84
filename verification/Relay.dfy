/**
 * The relay's pairing machine (workers/relay/src/index.js): state, events and outputs as
 * values, and what holds over every interleaving of joins, frames, closes and timers.
 */
module Relay {
  import opened Common

  const MAX_PAIRS := 4
  const MAX_FRAME_BYTES := 64 * 1024
  const MAX_SESSION_BYTES := 32 * 1024 * 1024

  /** Sockets are named in the order the runtime makes them. */
  type Socket = int
  type Id = int

  datatype Role = Host | Guest

  datatype Code = Replaced | PeerLeft | Limit | Expired | Protocol

  /** Control texts of the relay; binary items are forwarded frames. */
  datatype Item = Waiting | Paired(peer: Option<Id>) | Pong | Binary(payload: bytes)

  datatype Reply = Switching | NoHost | Busy | Nothing

  datatype Event =
    | Join(role: Role, id: Id, socket: Socket)
    | Frame(socket: Socket, payload: bytes, sends: bool)   // `sends`: whether the runtime takes the forwarded frame
    | Text(socket: Socket, ping: bool)
    | Gone(socket: Socket)
    | ExpiryFires
    | UnpairedFires

  /** The fields of `RelaySession`; the timer fields say whether a timer is pending. */
  datatype State = State(
    standby: Option<Socket>,
    standbyId: Option<Id>,
    partners: map<Socket, Socket>,
    peerIds: map<Socket, Id>,
    bytes: nat,
    expiry: bool,
    unpaired: bool
  )

  /** One event's result: at most one item goes to each socket. */
  datatype Out = Out(state: State, reply: Reply, sends: map<Socket, Item>, closes: map<Socket, Code>)

  const INITIAL := State(None, None, map[], map[], 0, false, false)

  function ClosePair(r: State, s: Socket, code: Code): (State, map<Socket, Code>) {
    if s in r.partners then
      var other := r.partners[s];
      (r.(partners := r.partners - {s} - {other}, peerIds := r.peerIds - {other}), map[other := code])
    else (r, map[])
  }

  function CloseAll(sockets: set<Socket>, code: Code): map<Socket, Code> {
    map s | s in sockets :: code
  }

  lemma CloseOne(closed: map<Socket, Code>, todo: set<Socket>, s: Socket, code: Code)
    requires s in todo
    ensures closed + map[s := code] + CloseAll(todo - {s}, code) == closed + CloseAll(todo, code)
  {
  }

  function Shutdown(r: State, code: Code): (State, map<Socket, Code>) {
    var idle := if r.standby.Some? then {r.standby.value} else {};
    (State(None, None, map[], map[], r.bytes, false, false),
     CloseAll(idle + r.partners.Keys, code))
  }

  function Admit(r: State, role: Role, id: Id, s: Socket): Out {
    if role.Guest? && r.standby.None? then Out(r, NoHost, map[], map[])
    else if role.Guest? && |r.partners| >= 2 * MAX_PAIRS then Out(r, Busy, map[], map[])
    else if role.Host? then
      Out(r.(standby := Some(s), standbyId := Some(id), peerIds := r.peerIds[s := id], expiry := true,
          unpaired := true),
          Switching, map[s := Waiting],
          if r.standby.Some? then map[r.standby.value := Replaced] else map[])
    else
      var host := r.standby.value;
      Out(r.(standby := None, standbyId := None, peerIds := r.peerIds[s := id], expiry := true, unpaired := false,
             partners := r.partners[host := s][s := host]),
          Switching, map[host := Paired(Some(id)), s := Paired(r.standbyId)], map[])
  }

  function Forward(r: State, s: Socket, payload: bytes, sends: bool): Out {
    if |payload| > MAX_FRAME_BYTES then
      var (r', closes) := Shutdown(r, Protocol);
      Out(r', Nothing, map[], closes)
    else
      var r := r.(bytes := r.bytes + |payload|);
      if r.bytes > MAX_SESSION_BYTES then
        var (r', closes) := Shutdown(r, Limit);
        Out(r', Nothing, map[], closes)
      else if s !in r.partners then Out(r, Nothing, map[], map[])
      else if sends then Out(r, Nothing, map[r.partners[s] := Binary(payload)], map[])
      else
        var (r', closes) := ClosePair(r, s, PeerLeft);
        Out(r', Nothing, map[], closes)
  }

  function Leave(r: State, s: Socket): Out {
    var r1 := if r.standby == Some(s) then r.(standby := None, standbyId := None, unpaired := false) else r;
    var (r2, closes) := ClosePair(r1, s, PeerLeft);
    var r3 := r2.(peerIds := r2.peerIds - {s});
    Out(if r3.standby.None? && r3.partners == map[] then r3.(expiry := false, unpaired := false) else r3,
        Nothing, map[], closes)
  }

  function DropStandby(r: State): Out {
    if r.standby.Some? then
      Out(r.(standby := None, standbyId := None, unpaired := false), Nothing, map[], map[r.standby.value := Expired])
    else Out(r.(unpaired := false), Nothing, map[], map[])
  }

  function Handle(r: State, e: Event): Out {
    match e
    case Join(role, id, s) => Admit(r, role, id, s)
    case Frame(s, payload, sends) => Forward(r, s, payload, sends)
    case Text(s, ping) => Out(r, Nothing, if ping then map[s := Pong] else map[], map[])
    case Gone(s) => Leave(r, s)
    case ExpiryFires =>
      var (r', closes) := Shutdown(r, Expired);
      Out(r', Nothing, map[], closes)
    case UnpairedFires => DropStandby(r)
  }

  // ---------------------------------------------------------------------------
  // Runs, with the history a run leaves behind.

  /**
   * `role` and `id` are those of each admitted socket, `mates` who was ever joined to whom, `heard` every
   * binary frame a socket sent, `early` those it sent before it was joined, `inbox` those it sent since,
   * `outbox` what it was sent, `forwarded` a byte count.
   */
  datatype World = World(
    relay: State,
    next: Socket,
    role: map<Socket, Role>,
    id: map<Socket, Id>,
    mates: map<Socket, Socket>,
    heard: map<Socket, seq<bytes>>,
    early: map<Socket, seq<bytes>>,
    inbox: map<Socket, seq<bytes>>,
    outbox: map<Socket, seq<Item>>,
    forwarded: nat
  )

  const START := World(INITIAL, 0, map[], map[], map[], map[], map[], map[], map[], 0)

  /** A join brings a new socket, other events an admitted one; a timer fires only when pending. */
  predicate Enabled(w: World, e: Event) {
    match e
    case Join(_, _, s) => s == w.next
    case Frame(s, _, _) => s in w.role
    case Text(s, _) => s in w.role
    case Gone(s) => s in w.role
    case ExpiryFires => w.relay.expiry
    case UnpairedFires => w.relay.unpaired
  }

  function BytesIn(sends: map<Socket, Item>, e: Event): nat {
    if e.Frame? && sends != map[] then |e.payload| else 0
  }

  function At<T>(m: map<Socket, seq<T>>, s: Socket): seq<T> {
    if s in m then m[s] else []
  }

  function Posted(outbox: map<Socket, seq<Item>>, sends: map<Socket, Item>): map<Socket, seq<Item>> {
    map s | s in outbox.Keys + sends.Keys :: At(outbox, s) + if s in sends then [sends[s]] else []
  }

  function Step(w: World, e: Event): World {
    var o := Handle(w.relay, e);
    var joined := e.Join? && o.reply.Switching?;
    var linked := joined && e.role.Guest? && w.relay.standby.Some?;
    World(
      o.state,
      if e.Join? then w.next + 1 else w.next,
      if joined then w.role[e.socket := e.role] else w.role,
      if joined then w.id[e.socket := e.id] else w.id,
      if linked then w.mates[w.relay.standby.value := e.socket][e.socket := w.relay.standby.value] else w.mates,
      if e.Frame? then w.heard[e.socket := At(w.heard, e.socket) + [e.payload]] else w.heard,
      if linked then
        w.early[w.relay.standby.value := At(w.heard, w.relay.standby.value)][e.socket := At(w.heard, e.socket)]
      else w.early,
      if e.Frame? && e.socket in w.mates then w.inbox[e.socket := At(w.inbox, e.socket) + [e.payload]] else w.inbox,
      Posted(w.outbox, o.sends),
      w.forwarded + BytesIn(o.sends, e))
  }

  predicate CanRun(w: World, run: seq<Event>)
    decreases |run|
  {
    run == [] || (Enabled(w, run[0]) && CanRun(Step(w, run[0]), run[1..]))
  }

  function Run(w: World, run: seq<Event>): World
    decreases |run|
  {
    if run == [] then w else Run(Step(w, run[0]), run[1..])
  }

  function Binaries(items: seq<Item>): seq<bytes> {
    if items == [] then []
    else Binaries(items[..|items| - 1]) + if items[|items| - 1].Binary? then [items[|items| - 1].payload] else []
  }

  // ---------------------------------------------------------------------------
  // The invariant, in parts.

  /** `m` pairs hosts with guests: an involution without fixed points. */
  ghost predicate PairsRoles(m: map<Socket, Socket>, role: map<Socket, Role>) {
    forall s | s in m ::
      m[s] in m && m[m[s]] == s && m[s] != s &&
      s in role && m[s] in role && role[s] != role[m[s]]
  }

  ghost predicate Within(m: map<Socket, Socket>, whole: map<Socket, Socket>) {
    forall s | s in m :: s in whole && whole[s] == m[s]
  }

  /** At most `MAX_PAIRS` live pairs, all of them pairs ever made. */
  ghost predicate Table(m: map<Socket, Socket>, mates: map<Socket, Socket>, role: map<Socket, Role>) {
    && PairsRoles(m, role)
    && PairsRoles(mates, role)
    && Within(m, mates)
    && |m| % 2 == 0 && |m| <= 2 * MAX_PAIRS
  }

  /** The standby is a host that was never joined. */
  ghost predicate StandbyIdle(w: World) {
    w.relay.standby.Some? ==>
      && w.relay.standby.value in w.role && w.role[w.relay.standby.value].Host?
      && w.relay.standby.value !in w.mates
  }

  /** Sockets are known by the identity they joined with. */
  ghost predicate Registered(w: World) {
    && w.role.Keys == w.id.Keys
    && (forall s | s in w.role :: s < w.next)
    && (forall s | s in w.relay.peerIds :: s in w.id && w.relay.peerIds[s] == w.id[s])
  }

  /** Live sockets keep their entry in `peerIds`. */
  ghost predicate Listed(r: State) {
    && (forall s | s in r.partners :: s in r.peerIds)
    && (r.standby.Some? ==> r.standby.value in r.peerIds && r.standbyId == Some(r.peerIds[r.standby.value]))
  }

  ghost predicate Timed(r: State) {
    && (r.standby.Some? || r.partners != map[] ==> r.expiry)
    && (r.unpaired <==> r.standby.Some?)
  }

  ghost predicate Metered(w: World) {
    w.forwarded <= w.relay.bytes && w.forwarded <= MAX_SESSION_BYTES
  }

  /** What `s` was sent in binary is what its mate sent, up to where the pair was cut. */
  ghost predicate Piped(w: World, s: Socket) {
    var got := Binaries(At(w.outbox, s));
    if s !in w.mates then got == [] && At(w.inbox, s) == []
    else
      && got <= At(w.inbox, w.mates[s])
      && (s in w.relay.partners ==> got == At(w.inbox, w.mates[s]))
  }

  /** What a socket sent is what it sent before it was joined and what it sent since; a guest joins at once. */
  ghost predicate Told(w: World, s: Socket) {
    && (s in w.mates ==> At(w.heard, s) == At(w.early, s) + At(w.inbox, s))
    && (s !in w.mates ==> At(w.early, s) == [] && At(w.inbox, s) == [])
    && (s !in w.role ==> At(w.heard, s) == [])
    && (s in w.role && w.role[s].Guest? ==> s in w.mates && At(w.early, s) == [])
  }

  /** A pairing notice names the peer as it was authenticated. */
  ghost predicate Noticed(w: World, s: Socket) {
    forall i :: 0 <= i < |At(w.outbox, s)| && At(w.outbox, s)[i].Paired? ==>
      s in w.mates && w.mates[s] in w.id && At(w.outbox, s)[i].peer == Some(w.id[w.mates[s]])
  }

  ghost predicate Inv(w: World) {
    && Table(w.relay.partners, w.mates, w.role)
    && StandbyIdle(w)
    && Registered(w)
    && Listed(w.relay)
    && Timed(w.relay)
    && Metered(w)
    && (forall s :: Piped(w, s))
    && (forall s :: Noticed(w, s))
    && (forall s :: Told(w, s))
  }

  // ---------------------------------------------------------------------------
  // Every step keeps it.

  lemma CutBoth(m: map<Socket, Socket>, role: map<Socket, Role>, s: Socket)
    requires PairsRoles(m, role) && s in m
    ensures PairsRoles(m - {s} - {m[s]}, role)
    ensures |m - {s} - {m[s]}| == |m| - 2
  {
    var m1 := m - {s};
    assert m.Keys == m1.Keys + {s};
    var m2 := m1 - {m[s]};
    assert m1.Keys == m2.Keys + {m[s]};
  }

  lemma JoinBoth(m: map<Socket, Socket>, role: map<Socket, Role>, a: Socket, b: Socket)
    requires PairsRoles(m, role) && a !in m && b !in m && a != b
    requires a in role && b in role && role[a] != role[b]
    ensures PairsRoles(m[a := b][b := a], role)
    ensures |m[a := b][b := a]| == |m| + 2
  {
    var m1 := m[a := b];
    assert m1.Keys == m.Keys + {a} && m1[b := a].Keys == m1.Keys + {b};
  }

  /** What an event can do to the table of pairs. */
  datatype Change = Same | Cut(s: Socket) | Linked(host: Socket, guest: Socket) | Cleared

  function ChangeOf(r: State, e: Event): Change {
    match e
    case Join(role, _, s) =>
      if role.Guest? && r.standby.Some? && |r.partners| < 2 * MAX_PAIRS then Linked(r.standby.value, s) else Same
    case Frame(s, payload, sends) =>
      if |payload| > MAX_FRAME_BYTES || r.bytes + |payload| > MAX_SESSION_BYTES then Cleared
      else if s in r.partners && !sends then Cut(s) else Same
    case Gone(s) => if s in r.partners then Cut(s) else Same
    case ExpiryFires => Cleared
    case _ => Same
  }

  predicate Admitted(r: State, e: Event) {
    e.Join? && (e.role.Host? || ChangeOf(r, e).Linked?)
  }

  function Changed(m: map<Socket, Socket>, c: Change): map<Socket, Socket> {
    match c
    case Same => m
    case Cut(s) => if s in m then m - {s} - {m[s]} else m
    case Linked(a, b) => m[a := b][b := a]
    case Cleared => map[]
  }

  lemma Changes(r: State, e: Event)
    ensures Handle(r, e).state.partners == Changed(r.partners, ChangeOf(r, e))
  {
    match e
    case Join(_, _, _) => hide Forward, Leave, Shutdown, ClosePair, DropStandby;
    case Frame(s, _, sends) => hide Admit, Leave, DropStandby;
    case Gone(_) => hide Admit, Forward, DropStandby, Shutdown;
    case _ => hide Admit, Forward, Leave, ClosePair;
  }

  lemma WhoIsAnswered(r: State, e: Event)
    ensures e.Join? ==> (Handle(r, e).reply.Switching? <==> Admitted(r, e))
  {
    hide Forward, Leave, Shutdown, ClosePair, DropStandby;
  }

  /** Only an admitted join adds to the histories. */
  lemma Records(w: World, e: Event)
    ensures var v, c := Step(w, e), ChangeOf(w.relay, e);
            && v.relay == Handle(w.relay, e).state
            && v.next == w.next + (if e.Join? then 1 else 0)
            && v.mates == (if c.Linked? then Changed(w.mates, c) else w.mates)
            && (e.Join? || (v.role == w.role && v.id == w.id))
            && (c.Linked? ==> e.Join? && v.role == w.role[e.socket := Guest] && v.id == w.id[e.socket := e.id])
            && (e.Join? && e.role.Host? ==> v.role == w.role[e.socket := Host] && v.id == w.id[e.socket := e.id])
            && (e.Join? && e.role.Guest? && !c.Linked? ==> v.role == w.role && v.id == w.id)
  {
    WhoIsAnswered(w.relay, e);
    hide Handle, Posted;
  }

  lemma TableJoined(m: map<Socket, Socket>, mates: map<Socket, Socket>, role: map<Socket, Role>, a: Socket, b: Socket)
    requires Table(m, mates, role) && |m| < 2 * MAX_PAIRS
    requires a !in mates && b !in mates && a in role && b in role && role[a] != role[b]
    ensures Table(m[a := b][b := a], mates[a := b][b := a], role)
  {
    JoinBoth(m, role, a, b);
    JoinBoth(mates, role, a, b);
    WithinJoined(m, mates, a, b);
    hide PairsRoles, Within;
  }

  lemma WithinJoined(m: map<Socket, Socket>, whole: map<Socket, Socket>, a: Socket, b: Socket)
    requires Within(m, whole)
    ensures Within(m[a := b][b := a], whole[a := b][b := a])
  {
  }

  lemma TableCut(m: map<Socket, Socket>, mates: map<Socket, Socket>, role: map<Socket, Role>, s: Socket)
    requires Table(m, mates, role) && s in m
    ensures Table(m - {s} - {m[s]}, mates, role)
  {
    CutBoth(m, role, s);
  }

  lemma TableCleared(m: map<Socket, Socket>, mates: map<Socket, Socket>, role: map<Socket, Role>)
    requires Table(m, mates, role)
    ensures Table(map[], mates, role)
  {
  }

  lemma TableGrown(m: map<Socket, Socket>, mates: map<Socket, Socket>, role: map<Socket, Role>, s: Socket, r: Role)
    requires Table(m, mates, role) && s !in role
    ensures Table(m, mates, role[s := r]) && s !in mates
  {
  }

  lemma PairingKept(w: World, e: Event)
    requires Inv(w) && Enabled(w, e)
    ensures var v := Step(w, e); Table(v.relay.partners, v.mates, v.role)
  {
    var v, c := Step(w, e), ChangeOf(w.relay, e);
    var m := w.relay.partners;
    Changes(w.relay, e);
    Records(w, e);
    hide Step, Handle, Piped, Noticed, Timed, Metered, Table;
    if e.Join? {
      assert e.role == if e.role.Host? then Host else Guest;
      TableGrown(m, w.mates, w.role, e.socket, e.role);
    }
    if c.Linked? {
      assert c.host in v.role && v.role[c.host] == Host && v.role[c.guest] == Guest;
      TableJoined(m, w.mates, v.role, c.host, c.guest);
    } else if c.Cut? {
      TableCut(m, w.mates, v.role, c.s);
    } else if c.Cleared? {
      TableCleared(m, w.mates, w.role);
    }
  }

  /** A host's join takes the standby place; any other event leaves it as it was or vacates it. */
  lemma Standing(r: State, e: Event)
    ensures var t := Handle(r, e).state;
            if e.Join? && e.role.Host? then t.standby == Some(e.socket) && t.standbyId == Some(e.id)
            else
              || (t.standby == r.standby && t.standbyId == r.standbyId && !ChangeOf(r, e).Linked?)
              || (t.standby.None? && t.standbyId.None?)
    ensures e.Gone? && r.standby == Some(e.socket) ==> Handle(r, e).state.standby.None?
  {
    match e
    case Join(_, _, _) => hide Forward, Leave, Shutdown, ClosePair, DropStandby;
    case Frame(s, _, sends) => hide Admit, Leave, DropStandby;
    case Gone(_) => hide Admit, Forward, DropStandby, Shutdown;
    case _ => hide Admit, Forward, Leave, ClosePair;
  }

  lemma StandbyKept(w: World, e: Event)
    requires Inv(w) && Enabled(w, e)
    ensures StandbyIdle(Step(w, e))
  {
    Standing(w.relay, e);
    Records(w, e);
    hide Handle, Piped, Noticed;
    if e.Join? {
      assert e.socket !in w.mates;
    }
  }

  lemma TimersKept(r: State, e: Event)
    requires Timed(r)
    ensures Timed(Handle(r, e).state)
  {
    match e
    case Join(_, _, _) => hide Forward, Leave, Shutdown, ClosePair, DropStandby;
    case Frame(s, _, sends) => hide Admit, Leave, DropStandby;
    case Gone(_) => hide Admit, Forward, DropStandby, Shutdown;
    case _ => hide Admit, Forward, Leave, ClosePair;
  }

  lemma Metering(r: State, e: Event)
    ensures var o := Handle(r, e);
            && o.state.bytes >= r.bytes + BytesIn(o.sends, e)
            && (BytesIn(o.sends, e) > 0 ==> o.state.bytes <= MAX_SESSION_BYTES)
  {
    match e
    case Join(_, _, _) => hide Forward, Leave, Shutdown, ClosePair, DropStandby;
    case Frame(s, _, sends) => hide Admit, Leave, DropStandby;
    case Gone(_) => hide Admit, Forward, DropStandby, Shutdown;
    case _ => hide Admit, Forward, Leave, ClosePair;
  }

  /** Every item an event sends: a frame to the sender's partner, a notice to whom it concerns, a pong to who pinged. */
  lemma Sending(r: State, e: Event)
    ensures Handle(r, e).sends ==
            match ChangeOf(r, e)
            case Linked(host, guest) => map[host := Paired(if e.Join? then Some(e.id) else None),
                guest := Paired(r.standbyId)]
            case Same =>
              if e.Join? && e.role.Host? then map[e.socket := Waiting]
              else if e.Frame? && e.socket in r.partners then map[r.partners[e.socket] := Binary(e.payload)]
              else if e.Text? && e.ping then map[e.socket := Pong]
              else map[]
            case _ => map[]
  {
    match e
    case Join(_, _, _) => hide Forward, Leave, Shutdown, ClosePair, DropStandby;
    case Frame(s, _, sends) => hide Admit, Leave, DropStandby;
    case Gone(_) => hide Admit, Forward, DropStandby, Shutdown;
    case _ => hide Admit, Forward, Leave, ClosePair;
  }

  /** Names are added at a join and removed when a socket or its pair goes. */
  lemma NamingAt(r: State, e: Event, s: Socket)
    ensures var t := Handle(r, e).state;
            s in t.peerIds ==>
              || (s in r.peerIds && t.peerIds[s] == r.peerIds[s])
              || (Admitted(r, e) && s == e.socket && t.peerIds[s] == e.id)
    ensures Admitted(r, e) && s == e.socket ==> s in Handle(r, e).state.peerIds && Handle(r, e).state.peerIds[s] == e.id
  {
    if e.Join? {
      hide Forward, Leave, Shutdown, ClosePair, DropStandby;
    } else {
      FewerNames(r, e, s);
      hide Handle;
    }
  }

  lemma FewerNames(r: State, e: Event, s: Socket)
    requires !e.Join?
    ensures s in Handle(r, e).state.peerIds ==> s in r.peerIds && Handle(r, e).state.peerIds[s] == r.peerIds[s]
  {
    hide CloseAll;
    match e
    case Frame(s, _, sends) => hide Admit, Leave, DropStandby;
    case Gone(_) => hide Admit, Forward, DropStandby, Shutdown;
    case _ => hide Admit, Forward, Leave, ClosePair;
  }

  lemma NameStays(r: State, e: Event, s: Socket)
    requires s in r.peerIds && !ChangeOf(r, e).Cleared? && (e.Gone? ==> s != e.socket)
    requires ChangeOf(r, e).Cut? && ChangeOf(r, e).s in r.partners ==> s != r.partners[ChangeOf(r, e).s]
    ensures s in Handle(r, e).state.peerIds
  {
    match e
    case Join(_, _, _) => hide Forward, Leave, Shutdown, ClosePair, DropStandby;
    case Frame(s, _, sends) => hide Admit, Leave, DropStandby;
    case Gone(_) => hide Admit, Forward, DropStandby, Shutdown;
    case _ => hide Admit, Forward, Leave, ClosePair;
  }

  /** Only an admitted join adds an identity. */
  lemma RecordsAt(w: World, e: Event, s: Socket)
    requires Registered(w) && Enabled(w, e)
    ensures var v := Step(w, e);
            && (s in v.role <==> s in v.id)
            && (s in v.role ==> s < v.next && (s in w.role || (Admitted(w.relay, e) && s == e.socket)))
            && (s in w.id ==> s in v.id && v.id[s] == w.id[s] && v.role[s] == w.role[s])
            && (Admitted(w.relay, e) && s == e.socket ==> s in v.id && v.id[s] == e.id && v.role[s] == e.role)
  {
    hide Forward, Leave, Shutdown, ClosePair, DropStandby, Posted;
  }

  lemma RegistryKept(w: World, e: Event)
    requires Inv(w) && Enabled(w, e)
    ensures Registered(Step(w, e))
  {
    hide Inv, Handle, Step, ChangeOf, Piped, Noticed, Told, Listed, StandbyIdle;
    InvAt(w, 0);
    var v := Step(w, e);
    forall s
      ensures s in v.role <==> s in v.id
      ensures s in v.role ==> s < v.next
      ensures s in v.relay.peerIds ==> s in v.id && v.relay.peerIds[s] == v.id[s]
    {
      RecordsAt(w, e, s);
      NamingAt(w.relay, e, s);
      RelayIs(w, e);
    }
  }

  lemma RelayIs(w: World, e: Event)
    ensures Step(w, e).relay == Handle(w.relay, e).state
  {
  }

  lemma LivePartner(m: map<Socket, Socket>, c: Change, s: Socket)
    requires s in Changed(m, c)
    ensures (s in m && !c.Cleared? && (c.Cut? && c.s in m ==> s != c.s && s != m[c.s])) ||
            (c.Linked? && (s == c.host || s == c.guest))
  {
  }

  lemma ListingKept(w: World, e: Event)
    requires Inv(w) && Enabled(w, e)
    ensures Listed(Handle(w.relay, e).state)
  {
    assert Listed(w.relay) && StandbyIdle(w) && Registered(w);
    hide Inv, Handle, Changed;
    var r, t, c := w.relay, Handle(w.relay, e).state, ChangeOf(w.relay, e);
    Changes(r, e);
    Standing(r, e);
    if c.Cut? {
      PartnersAt(w, c.s);
    }
    if t.standby.Some? {
      NamingAt(r, e, t.standby.value);
      if t.standby == r.standby {
        NameStays(r, e, t.standby.value);
      }
    }
    forall s | s in t.partners
      ensures s in t.peerIds
    {
      LivePartner(r.partners, c, s);
      PartnersAt(w, s);
      if c.Linked? && s == c.guest {
        NamingAt(r, e, s);
      } else {
        NameStays(r, e, s);
      }
    }
  }

  lemma BinariesPush(items: seq<Item>, i: Item)
    ensures Binaries(items + [i]) == Binaries(items) + if i.Binary? then [i.payload] else []
  {
    assert (items + [i])[..|items|] == items;
  }

  /** What an event adds to the two histories. */
  lemma Flows(w: World, e: Event, s: Socket)
    ensures var v, sends := Step(w, e), Handle(w.relay, e).sends;
            && At(v.outbox, s) == At(w.outbox, s) + (if s in sends then [sends[s]] else [])
            && At(v.inbox, s) == At(w.inbox, s) +
               (if e.Frame? && e.socket in w.mates && s == e.socket then [e.payload] else [])
            && Binaries(At(v.outbox, s)) == Binaries(At(w.outbox, s)) +
               (if s in sends && sends[s].Binary? then [sends[s].payload] else [])
  {
    var sends := Handle(w.relay, e).sends;
    hide Handle;
    var box := At(w.outbox, s);
    if s in sends {
      BinariesPush(box, sends[s]);
    } else {
      assert box + [] == box;
    }
  }

  lemma InvAt(w: World, s: Socket)
    requires Inv(w)
    ensures Piped(w, s) && Noticed(w, s) && Told(w, s) && Registered(w) && Listed(w.relay) && StandbyIdle(w)
  {
    hide Piped, Noticed, Told, Registered, Listed, StandbyIdle, Table, Timed;
  }

  /** Neither side of a new pair was ever joined. */
  lemma Unjoined(w: World, e: Event)
    requires Inv(w) && Enabled(w, e) && ChangeOf(w.relay, e).Linked?
    ensures ChangeOf(w.relay, e).host !in w.mates && ChangeOf(w.relay, e).guest !in w.mates
    ensures ChangeOf(w.relay, e).guest !in w.role && ChangeOf(w.relay, e).host in w.role
  {
    hide Piped, Noticed, Told, Listed, Timed;
  }

  /** A frame goes to the sender's partner, unless its own event ends the pair. */
  lemma WhoGetsFrame(r: State, e: Event, s: Socket)
    requires e.Frame?
    ensures var sends, to := Handle(r, e).sends, ChangeOf(r, e).Same? && e.socket in r.partners &&
            s == r.partners[e.socket];
            (s in sends <==> to) && (s in sends ==> sends[s] == Binary(e.payload))
  {
    Sending(r, e);
    hide Handle;
  }

  lemma NoBinaries(r: State, e: Event, s: Socket)
    requires !e.Frame?
    ensures s in Handle(r, e).sends ==> !Handle(r, e).sends[s].Binary?
  {
    Sending(r, e);
    hide Handle;
  }

  lemma PipeLinked(w: World, e: Event, s: Socket)
    requires Inv(w) && Enabled(w, e) && ChangeOf(w.relay, e).Linked?
    ensures Piped(Step(w, e), s)
  {
    hide Inv, Handle, Step, Binaries, At, Noticed, Told, Registered, Listed, StandbyIdle;
    var v := Step(w, e);
    var other := if s in v.mates then v.mates[s] else s;
    InvAt(w, s);
    InvAt(w, other);
    Unjoined(w, e);
    NoBinaries(w.relay, e, s);
    NoBinaries(w.relay, e, other);
    Changes(w.relay, e);
    Records(w, e);
    Flows(w, e, s);
    Flows(w, e, other);
  }

  lemma PartnersAt(w: World, s: Socket)
    requires Inv(w)
    ensures s in w.relay.partners ==>
              && s in w.mates && w.relay.partners[s] == w.mates[s]
              && w.relay.partners[s] in w.relay.partners && w.relay.partners[w.relay.partners[s]] == s
              && w.relay.partners[s] != s
    ensures s in w.mates ==> w.mates[s] in w.mates && w.mates[w.mates[s]] == s
    ensures Piped(w, s)
  {
    hide Piped, Noticed, Timed, Registered, Listed;
  }

  /** A frame reaches the partner's stream, or the pair is cut. */
  lemma PipeFrame(w: World, e: Event, s: Socket)
    requires Inv(w) && Enabled(w, e) && e.Frame?
    ensures Piped(Step(w, e), s)
  {
    hide Handle, Step, Inv, Binaries, At;
    Changes(w.relay, e);
    Records(w, e);
    WhoGetsFrame(w.relay, e, s);
    if s in w.mates {
      WhoGetsFrame(w.relay, e, w.mates[s]);
    }
    Flows(w, e, s);
    PartnersAt(w, s);
    PartnersAt(w, e.socket);
    if s in w.mates {
      Flows(w, e, w.mates[s]);
    }
  }

  lemma PipeOther(w: World, e: Event, s: Socket)
    requires Inv(w) && Enabled(w, e) && !e.Frame? && !ChangeOf(w.relay, e).Linked?
    ensures Piped(Step(w, e), s)
  {
    hide Handle, Step, Inv, Binaries, At;
    Changes(w.relay, e);
    Records(w, e);
    NoBinaries(w.relay, e, s);
    Flows(w, e, s);
    PartnersAt(w, s);
    if s in w.mates {
      Flows(w, e, w.mates[s]);
    }
  }

  lemma MatesStay(w: World, e: Event, s: Socket)
    requires Inv(w) && Enabled(w, e) && s in w.mates
    ensures s in Step(w, e).mates && Step(w, e).mates[s] == w.mates[s] && w.mates[s] in w.id
  {
    Records(w, e);
    hide Handle, Step, Piped, Noticed, Timed;
  }

  lemma MatesMade(w: World, e: Event)
    requires Inv(w) && Enabled(w, e) && ChangeOf(w.relay, e).Linked?
    ensures e.Join? && w.relay.standby.Some? && Admitted(w.relay, e)
    ensures var v, a := Step(w, e), w.relay.standby.value;
            && a in w.id && w.relay.standbyId == Some(w.id[a])
            && a in v.mates && v.mates[a] == e.socket && e.socket in v.mates && v.mates[e.socket] == a
  {
    Records(w, e);
    hide Handle, Step, Piped, Noticed, Timed;
  }

  lemma WhoIsNoticed(r: State, e: Event, s: Socket)
    ensures var c, sends := ChangeOf(r, e), Handle(r, e).sends;
            if c.Linked? && (s == c.host || s == c.guest) then
              && e.Join? && r.standby == Some(c.host) && c.guest == e.socket
              && s in sends && sends[s] == Paired(if s == c.guest then r.standbyId else Some(e.id))
            else s in sends ==> !sends[s].Paired?
  {
    Sending(r, e);
    hide Handle;
  }

  lemma NoticeJoined(w: World, e: Event, s: Socket)
    requires Inv(w) && Enabled(w, e) && ChangeOf(w.relay, e).Linked? &&
             (s == ChangeOf(w.relay, e).host || s == ChangeOf(w.relay, e).guest)
    ensures Noticed(Step(w, e), s)
  {
    hide Inv, Handle, Step, At, Binaries, Piped, Told, Registered, Listed, StandbyIdle;
    InvAt(w, s);
    Unjoined(w, e);
    MatesMade(w, e);
    WhoIsNoticed(w.relay, e, s);
    Flows(w, e, s);
    RecordsAt(w, e, w.relay.standby.value);
    RecordsAt(w, e, e.socket);
  }

  lemma NoticeKept(w: World, e: Event, s: Socket)
    requires Inv(w) && Enabled(w, e)
    ensures Noticed(Step(w, e), s)
  {
    hide Inv, Handle, Step, At, Binaries, Piped, Told, Registered, Listed, StandbyIdle, ChangeOf;
    var c := ChangeOf(w.relay, e);
    if c.Linked? && (s == c.host || s == c.guest) {
      NoticeJoined(w, e, s);
    } else {
      InvAt(w, s);
      WhoIsNoticed(w.relay, e, s);
      Flows(w, e, s);
      if s in w.mates {
        MatesStay(w, e, s);
        RecordsAt(w, e, w.mates[s]);
      }
    }
  }

  /** What an event adds to what a socket has sent. */
  lemma Speaks(w: World, e: Event, s: Socket)
    ensures var v, c := Step(w, e), ChangeOf(w.relay, e);
            && At(v.heard, s) == At(w.heard, s) + (if e.Frame? && s == e.socket then [e.payload] else [])
            && At(v.early, s) == (if c.Linked? && (s == c.host || s == c.guest) then At(w.heard, s) else At(w.early, s))
  {
    hide Forward, Leave, Shutdown, ClosePair, DropStandby, Posted;
  }

  lemma MatesOnly(w: World, e: Event, s: Socket)
    ensures var c := ChangeOf(w.relay, e);
            s in Step(w, e).mates <==> s in w.mates || (c.Linked? && (s == c.host || s == c.guest))
  {
    Records(w, e);
    hide Step, Handle;
  }

  lemma ToldJoined(w: World, e: Event, s: Socket)
    requires Inv(w) && Enabled(w, e) && ChangeOf(w.relay, e).Linked? &&
             (s == ChangeOf(w.relay, e).host || s == ChangeOf(w.relay, e).guest)
    ensures Told(Step(w, e), s)
  {
    assert Told(w, s) && Registered(w) && StandbyIdle(w);
    assert s == e.socket ==> s !in w.role;
    hide Inv, Handle, Step, At;
    Speaks(w, e, s);
    Flows(w, e, s);
    RecordsAt(w, e, s);
    MatesOnly(w, e, s);
    PartnersAt(w, s);
  }

  lemma ToldKept(w: World, e: Event, s: Socket)
    requires Inv(w) && Enabled(w, e)
    ensures Told(Step(w, e), s)
  {
    var c := ChangeOf(w.relay, e);
    if c.Linked? && (s == c.host || s == c.guest) {
      ToldJoined(w, e, s);
    } else {
      assert Told(w, s);
      if e.Frame? && s == e.socket {
        ToldFrame(w, e, s);
      } else {
        ToldElse(w, e, s);
      }
    }
  }

  lemma ToldFrame(w: World, e: Event, s: Socket)
    requires Told(w, s) && Registered(w) && Enabled(w, e) && e.Frame? && s == e.socket
    ensures Told(Step(w, e), s)
  {
    hide Handle, Step, At, Binaries;
    Speaks(w, e, s);
    Flows(w, e, s);
    RecordsAt(w, e, s);
    MatesOnly(w, e, s);
    var f := [e.payload];
    assert At(w.early, s) + At(w.inbox, s) + f == At(w.early, s) + (At(w.inbox, s) + f);
  }

  lemma SameWords(w: World, e: Event, s: Socket)
    requires var c := ChangeOf(w.relay, e); !(c.Linked? && (s == c.host || s == c.guest))
    requires !(e.Frame? && s == e.socket)
    ensures var v := Step(w, e);
            At(v.heard, s) == At(w.heard, s) && At(v.inbox, s) == At(w.inbox, s) && At(v.early, s) == At(w.early, s)
  {
    hide Handle, Step, At, Binaries;
    Speaks(w, e, s);
    Flows(w, e, s);
  }

  lemma ToldElse(w: World, e: Event, s: Socket)
    requires Told(w, s) && Registered(w) && Enabled(w, e) && !(e.Frame? && s == e.socket)
    requires var c := ChangeOf(w.relay, e); !(c.Linked? && (s == c.host || s == c.guest))
    ensures Told(Step(w, e), s)
  {
    assert Admitted(w.relay, e) && s == e.socket ==> e.role.Host?;
    hide Handle, Step, At, Binaries, Admitted, ChangeOf;
    SameWords(w, e, s);
    RecordsAt(w, e, s);
    MatesOnly(w, e, s);
  }

  lemma MeterKept(w: World, e: Event)
    requires Metered(w)
    ensures Metered(Step(w, e))
  {
    Metering(w.relay, e);
    hide Handle, Posted;
  }

  lemma StepKeeps(w: World, e: Event)
    requires Inv(w) && Enabled(w, e)
    ensures Inv(Step(w, e))
  {
    RelayIs(w, e);
    MeterKept(w, e);
    hide Handle, Step, Table, StandbyIdle, Registered, Listed, Timed, Piped, Noticed, Told, Metered;
    PairingKept(w, e);
    StandbyKept(w, e);
    RegistryKept(w, e);
    ListingKept(w, e);
    TimersKept(w.relay, e);
    forall s
      ensures Piped(Step(w, e), s)
    {
      if e.Frame? {
        PipeFrame(w, e, s);
      } else if ChangeOf(w.relay, e).Linked? {
        PipeLinked(w, e, s);
      } else {
        PipeOther(w, e, s);
      }
    }
    forall s
      ensures Noticed(Step(w, e), s)
    {
      NoticeKept(w, e, s);
    }
    forall s
      ensures Told(Step(w, e), s)
    {
      ToldKept(w, e, s);
    }
  }

  lemma StartHolds()
    ensures Inv(START)
  {
    forall s
      ensures Piped(START, s) && Noticed(START, s) && Told(START, s)
    {
      assert At(START.outbox, s) == [] && At(START.inbox, s) == [];
    }
    hide Piped, Noticed, Told;
  }

  /** Over every interleaving of joins, frames, control texts, closes and timers. */
  lemma {:induction false} RunKeeps(run: seq<Event>)
    requires CanRun(START, run)
    ensures Inv(Run(START, run))
  {
    StartHolds();
    hide Inv;
    RunKeepsFrom(START, run);
  }

  lemma {:induction false} RunKeepsFrom(w: World, run: seq<Event>)
    requires Inv(w) && CanRun(w, run)
    ensures Inv(Run(w, run))
    decreases |run|
  {
    hide Inv, Step;
    if run != [] {
      StepKeeps(w, run[0]);
      RunKeepsFrom(Step(w, run[0]), run[1..]);
    }
  }

  // ---------------------------------------------------------------------------
  // What the invariant gives.

  /**
   * In any run a joined socket has received a prefix of its mate's frames and nobody else's, the whole while paired.
   */
  lemma RelaysPrefix(run: seq<Event>, s: Socket)
    requires CanRun(START, run) && s in Run(START, run).mates
    ensures var w := Run(START, run);
            && w.mates[s] in w.mates && w.mates[w.mates[s]] == s
            && Binaries(At(w.outbox, s)) <= At(w.inbox, w.mates[s])
            && Concat(Binaries(At(w.outbox, s))) <= Concat(At(w.inbox, w.mates[s]))
            && (s in w.relay.partners ==> Binaries(At(w.outbox, s)) == At(w.inbox, w.mates[s]))
  {
    RunKeeps(run);
    var w := Run(START, run);
    PartnersAt(w, s);
    ConcatPrefix(Binaries(At(w.outbox, s)), At(w.inbox, w.mates[s]));
    hide Inv;
  }

  /** What a joined socket sent, in two parts: before it was joined, and since. A guest has sent nothing before. */
  lemma SpokenInTwo(run: seq<Event>, s: Socket)
    requires CanRun(START, run) && s in Run(START, run).mates
    ensures var w := Run(START, run);
            && At(w.heard, s) == At(w.early, s) + At(w.inbox, s)
            && (s in w.role && w.role[s].Guest? ==> At(w.early, s) == [])
  {
    RunKeeps(run);
    InvAt(Run(START, run), s);
    hide Inv, Run, CanRun, At;
  }

  /** The object after a guest is admitted. */
  lemma GuestAdmitted(r: State, id: Id, s: Socket)
    requires r.standby.Some? && |r.partners| < 2 * MAX_PAIRS
    ensures var o, host := Handle(r, Join(Guest, id, s)), r.standby.value;
            && o.state == State(None, None, r.partners[host := s][s := host], r.peerIds[s := id], r.bytes, true, false)
            && o.reply == Switching && o.sends == map[host := Paired(Some(id)), s := Paired(r.standbyId)]
            && o.closes == map[]
  {
  }

  /** What `closePair` leaves alone, whichever event calls it. */
  lemma CutElsewhere(r: State, e: Event, t: Socket)
    requires ChangeOf(r, e).Cut? && ChangeOf(r, e).s in r.partners
    requires t != ChangeOf(r, e).s && t != r.partners[ChangeOf(r, e).s]
    ensures var o := Handle(r, e);
            && (t in o.state.peerIds <==> t in r.peerIds)
            && (r.standby == Some(t) <==> o.state.standby == Some(t))
            && t !in o.closes
  {
    hide Admit, Shutdown, CloseAll, DropStandby;
    match e
    case Frame(_, _, _) => hide Leave;
    case _ => hide Forward;
  }

  /** An event that ends one conversation touches no socket outside it: the disconnect and the failed send alike. */
  lemma CutTouchesOwnPair(w: World, e: Event, t: Socket)
    requires Inv(w) && Enabled(w, e) && ChangeOf(w.relay, e).Cut?
    requires var s := ChangeOf(w.relay, e).s; t != s && (s in w.relay.partners ==> t != w.relay.partners[s])
    ensures var v, o := Step(w, e), Handle(w.relay, e);
            && (t in v.relay.partners <==> t in w.relay.partners)
            && (t in v.relay.partners ==> v.relay.partners[t] == w.relay.partners[t])
            && (t in v.relay.peerIds <==> t in w.relay.peerIds)
            && (w.relay.standby == Some(t) <==> v.relay.standby == Some(t))
            && t !in o.closes && At(v.outbox, t) == At(w.outbox, t)
  {
    CutElsewhere(w.relay, e, t);
    Sending(w.relay, e);
    Changes(w.relay, e);
    RelayIs(w, e);
    Flows(w, e, t);
    hide Inv, Handle, Step, At, Binaries;
  }

  /**
   * A socket whose pair ends is closed, with one exception beside the socket that has itself gone:
   * the sender whose frame could not be passed on stays open, unpaired.
   */
  lemma WhoStaysOpen(w: World, e: Event, s: Socket)
    requires Inv(w) && Enabled(w, e) && s in w.relay.partners && s !in Handle(w.relay, e).state.partners
    ensures s !in Handle(w.relay, e).closes <==> ChangeOf(w.relay, e) == Cut(s)
  {
    Changes(w.relay, e);
    PartnersAt(w, s);
    hide Inv, Admit;
    if ChangeOf(w.relay, e).Cut? {
      PartnersAt(w, ChangeOf(w.relay, e).s);
    }
  }

  /** A guest is turned away exactly when no host waits, or when four conversations are live. */
  lemma WhoIsAdmitted(w: World, id: Id)
    requires Inv(w)
    ensures var o := Handle(w.relay, Join(Guest, id, w.next));
            && (o.reply.NoHost? <==> w.relay.standby.None?)
            && (o.reply.Busy? <==> w.relay.standby.Some? && |w.relay.partners| == 2 * MAX_PAIRS)
            && (o.reply.Switching? <==> o.state.partners != w.relay.partners)
  {
    hide Piped, Noticed, Registered, Listed, PairsRoles;
    if w.relay.standby.Some? {
      var a := w.relay.standby.value;
      assert a !in w.relay.partners;
      assert a in w.relay.partners[a := w.next][w.next := a];
    }
  }
}
