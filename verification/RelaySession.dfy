/** The Durable Object of workers/relay/src/index.js, updated in place, against `Relay.Handle`. */
module RelaySession {
  import opened Common
  import opened Relay

  class Session {
    var standby: Option<Socket>
    var standbyId: Option<Id>
    var partners: map<Socket, Socket>
    var peerIds: map<Socket, Id>
    var bytes: nat
    var expiryTimer: bool
    var unpairedTimer: bool
    // What has been handed to the runtime: items per socket, and the last close code of each closed one.
    var outbox: map<Socket, seq<Item>>
    var closed: map<Socket, Code>

    ghost function Now(): State
      reads this
    {
      State(standby, standbyId, partners, peerIds, bytes, expiryTimer, unpairedTimer)
    }

    constructor ()
      ensures Now() == INITIAL && outbox == map[] && closed == map[]
    {
      standby, standbyId, partners, peerIds, bytes := None, None, map[], map[], 0;
      expiryTimer, unpairedTimer, outbox, closed := false, false, map[], map[];
    }

    method Send(s: Socket, item: Item)
      modifies this`outbox
      ensures outbox == Posted(old(outbox), map[s := item])
    {
      outbox := outbox[s := At(outbox, s) + [item]];
      assert outbox.Keys == old(outbox).Keys + {s};
      assert forall t | t in outbox :: outbox[t] == At(old(outbox), t) + if t == s then [item] else [];
    }

    method SafeClose(s: Socket, code: Code)
      modifies this`closed
      ensures closed == old(closed) + map[s := code]
    {
      closed := closed[s := code];
    }

    /** Tears down one conversation. */
    method ClosePair(s: Socket, code: Code)
      modifies this`partners, this`peerIds, this`closed
      ensures Now() == Relay.ClosePair(old(Now()), s, code).0
      ensures closed == old(closed) + Relay.ClosePair(old(Now()), s, code).1
    {
      var other := if s in partners then Some(partners[s]) else None;
      partners := partners - {s};
      if other.None? {
        assert partners == old(partners);
        assert closed + map[] == closed;
        return;
      }
      partners := partners - {other.value};
      peerIds := peerIds - {other.value};
      SafeClose(other.value, code);
    }

    method CloseEach(sockets: set<Socket>, code: Code)
      modifies this`closed
      ensures closed == old(closed) + CloseAll(sockets, code)
    {
      var todo: set<Socket> := sockets;
      while todo != {}
        invariant closed + CloseAll(todo, code) == old(closed) + CloseAll(sockets, code)
        decreases |todo|
      {
        HasMember(todo);
        var s :| s in todo;
        CloseOne(closed, todo, s, code);
        SafeClose(s, code);
        todo := todo - {s};
      }
      CloseNone(closed, code);
    }

    method Shutdown(code: Code)
      modifies this
      ensures Now() == Relay.Shutdown(old(Now()), code).0
      ensures closed == old(closed) + Relay.Shutdown(old(Now()), code).1
      ensures outbox == old(outbox)
    {
      if standby.Some? {
        SafeClose(standby.value, code);
      }
      CloseEach(partners.Keys, code);
      StandbyFirst(old(closed), standby, partners.Keys, code);
      hide CloseAll;
      standby, standbyId := None, None;
      partners, peerIds := map[], map[];
      expiryTimer, unpairedTimer := false, false;
    }

    /** The object and its outputs are those of one event from an earlier state. */
    ghost predicate Did(e: Event, r: State, sent: map<Socket, seq<Item>>, shut: map<Socket, Code>)
      reads this
    {
      var o := Handle(r, e);
      Now() == o.state && outbox == Posted(sent, o.sends) && closed == shut + o.closes
    }

    /** A host's socket takes the standby place. */
    method Park(id: Id, server: Socket)
      modifies this
      ensures Did(Event.Join(Host, id, server), old(Now()), old(outbox), old(closed))
    {
      hide Posted;
      ClosedNone(closed);
      expiryTimer := true;
      if standby.Some? {
        SafeClose(standby.value, Replaced);
      }
      standby, standbyId := Some(server), Some(id);
      peerIds := peerIds[server := id];
      unpairedTimer := true;
      Send(server, Waiting);
      assert Now() == Admit(old(Now()), Host, id, server).state;
    }

    /** The tables of a new pair. */
    method Link(host: Socket, server: Socket, id: Id)
      modifies this`standby, this`standbyId, this`partners, this`peerIds, this`expiryTimer, this`unpairedTimer
      ensures Now() == State(None, None, old(partners)[host := server][server := host], old(peerIds)[server := id],
              bytes, true, false)
    {
      expiryTimer := true;
      standby, standbyId := None, None;
      unpairedTimer := false;
      peerIds := peerIds[server := id];
      partners := partners[host := server];
      partners := partners[server := host];
    }

    /** A guest's socket is joined to the standby. */
    method PairUp(id: Id, server: Socket)
      requires standby.Some? && standby.value != server && |partners| < 2 * MAX_PAIRS
      modifies this
      ensures Did(Event.Join(Guest, id, server), old(Now()), old(outbox), old(closed))
    {
      hide Posted, Handle;
      GuestAdmitted(Now(), id, server);
      ClosedNone(closed);
      var host, hostId := standby.value, standbyId;
      PostedTwo(outbox, host, Item.Paired(Some(id)), server, Item.Paired(hostId));
      Link(host, server, id);
      ghost var linked := Now();
      Send(host, Item.Paired(Some(id)));
      Send(server, Item.Paired(hostId));
      assert Now() == linked;
    }

    /** A join with the socket the runtime has just made. */
    method Join(role: Role, id: Id, server: Socket) returns (reply: Reply)
      requires standby != Some(server)
      modifies this
      ensures Did(Event.Join(role, id, server), old(Now()), old(outbox), old(closed))
      ensures reply == Handle(old(Now()), Event.Join(role, id, server)).reply
    {
      hide Posted;
      PostedNone(outbox);
      ClosedNone(closed);
      if role.Guest? && standby.None? {
        return NoHost;
      }
      if role.Guest? && |partners| >= 2 * MAX_PAIRS {
        return Busy;
      }
      match role {
        case Host => Park(id, server);
        case Guest => PairUp(id, server);
      }
      return Switching;
    }

    /** A message event: binary data is metered and forwarded, text is control. */
    method Message(s: Socket, payload: bytes, sends: bool)
      modifies this
      ensures Did(Frame(s, payload, sends), old(Now()), old(outbox), old(closed))
    {
      hide Posted, Relay.Shutdown, Relay.ClosePair;
      PostedNone(outbox);
      ClosedNone(closed);
      if |payload| > MAX_FRAME_BYTES {
        Shutdown(Protocol);
        return;
      }
      bytes := bytes + |payload|;
      if bytes > MAX_SESSION_BYTES {
        Shutdown(Limit);
        return;
      }
      if s !in partners {
        return;
      }
      if sends {
        Send(partners[s], Binary(payload));
      } else {
        ClosePair(s, PeerLeft);
      }
    }

    method HandleControl(s: Socket, ping: bool)
      modifies this
      ensures Did(Text(s, ping), old(Now()), old(outbox), old(closed))
    {
      PostedNone(outbox);
      ClosedNone(closed);
      if ping {
        Send(s, Pong);
      }
    }

    /** A close or error event. */
    method Teardown(s: Socket)
      modifies this
      ensures Did(Gone(s), old(Now()), old(outbox), old(closed))
    {
      hide Posted, Relay.ClosePair;
      PostedNone(outbox);
      if standby == Some(s) {
        standby, standbyId := None, None;
        unpairedTimer := false;
      }
      ghost var r1 := Now();
      assert r1 == var r := old(Now());
        if r.standby == Some(s) then r.(standby := None, standbyId := None, unpaired := false) else r;
      ClosePair(s, PeerLeft);
      ghost var r2 := Now();
      assert closed == old(closed) + Leave(old(Now()), s).closes;
      peerIds := peerIds - {s};
      assert Now() == r2.(peerIds := r2.peerIds - {s});
      if standby.None? && partners == map[] {
        expiryTimer, unpairedTimer := false, false;
      }
      assert Now() == Leave(old(Now()), s).state;
    }

    method Expire()
      modifies this
      ensures Did(ExpiryFires, old(Now()), old(outbox), old(closed))
    {
      hide Posted, Relay.Shutdown;
      PostedNone(outbox);
      Shutdown(Expired);
    }

    method UnpairedTimeout()
      modifies this
      ensures Did(UnpairedFires, old(Now()), old(outbox), old(closed))
    {
      hide Posted;
      PostedNone(outbox);
      ClosedNone(closed);
      if standby.Some? {
        SafeClose(standby.value, Expired);
        standby, standbyId := None, None;
      }
      unpairedTimer := false;
    }
  }

  lemma HasMember(sockets: set<Socket>)
    requires sockets != {}
    ensures exists s :: s in sockets
  {
    assert (forall s :: s !in sockets) ==> sockets == {};
  }

  lemma PostedNone(outbox: map<Socket, seq<Item>>)
    ensures Posted(outbox, map[]) == outbox
  {
    assert forall s | s in outbox :: At(outbox, s) + [] == outbox[s];
  }

  lemma ClosedNone(closed: map<Socket, Code>)
    ensures closed + map[] == closed
  {
  }

  lemma StandbyFirst(closed: map<Socket, Code>, standby: Option<Socket>, rest: set<Socket>, code: Code)
    ensures var first := if standby.Some? then closed + map[standby.value := code] else closed;
            first + CloseAll(rest, code) == closed +
                CloseAll((if standby.Some? then {standby.value} else {}) + rest, code)
  {
  }

  lemma CloseNone(closed: map<Socket, Code>, code: Code)
    ensures closed + CloseAll({}, code) == closed
  {
  }

  lemma PostedTwo(outbox: map<Socket, seq<Item>>, a: Socket, x: Item, b: Socket, y: Item)
    requires a != b
    ensures Posted(Posted(outbox, map[a := x]), map[b := y]) == Posted(outbox, map[a := x, b := y])
  {
    var one, other, both := map[a := x], map[b := y], map[a := x, b := y];
    forall s | s in Posted(Posted(outbox, one), other)
      ensures Posted(Posted(outbox, one), other)[s] == At(outbox, s) + if s in both then [both[s]] else []
    {
      assert At(Posted(outbox, one), s) == At(outbox, s) + if s == a then [x] else [];
    }
  }
}
