/**
 * What two honest ratchets agree on.
 *
 * The two sides take turns on one root chain. Epoch e is the span in which one side sends
 * under its e-th key: the initiator owns the odd epochs, the responder the even ones, and
 * epoch 0 is the responder's handshake ephemeral. `Inv` relates both states and every
 * record ever sent to that single sequence of epochs. It is generic in the suite; only
 * the laws `Agrees` and `Opens` are used.
 */
module Agreement {
  import opened Common
  import opened Ratchet
  import Padding

  datatype Side = A | B

  function Peer(x: Side): Side { if x == A then B else A }

  datatype Epoch<K> = Epoch(name: nat, root: K, base: K, count: u32)

  /** A record with the side and epoch it was sent in and the plaintext it carries. */
  datatype Posted<P, C> = Posted(sender: Side, epoch: nat, record: Record<P, C>, plaintext: bytes)

  datatype System<K, P, C> = System(a: Session<K, P>, b: Session<K, P>, log: seq<Posted<P, C>>) {
    function Get(x: Side): Session<K, P> { if x == A then a else b }
    function Put(x: Side, s: Session<K, P>): System<K, P, C> { if x == A then this.(a := s) else this.(b := s) }
    /** The initiator starts in epoch 1 and the responder in epoch 0; each step skips the peer's. */
    function Turn(x: Side): nat { 2 * Get(x).ratchet.steps + (if x == A then 1 else 0) }
  }

  /** Generated key pairs agree on a secret, the same from both ends. */
  ghost predicate Agrees<K(!new), P(!new), C(!new)>(S: Suite<K, P, C>) {
    Commutes(S.public, S.agree)
  }

  /** A box opens under what it was sealed with. */
  ghost predicate Opens<K(!new), P(!new), C(!new)>(S: Suite<K, P, C>) {
    forall k, t, h, p :: S.open(k, t, h, S.seal(k, t, h, p)) == Some(p)
  }

  // ---------------------------------------------------------------------------
  // The invariant.

  function ChainAt<K, P, C>(S: Suite<K, P, C>, base: K, n: nat): K {
    if n == 0 then base else S.chainNext(Some(ChainAt(S, base, n - 1)))
  }

  function MsgAt<K, P, C>(S: Suite<K, P, C>, base: K, n: nat): K {
    S.chainMsg(Some(ChainAt(S, base, n)))
  }

  function PrevCount<K>(ep: seq<Epoch<K>>, e: nat): u32
    requires e < |ep|
  {
    if e >= 2 then ep[e - 2].count else 0
  }

  predicate Linked<K(==), P, C>(S: Suite<K, P, C>, prev: Epoch<K>, cur: Epoch<K>) {
    match S.agree(cur.name, S.public(prev.name))
    case Some(dh) => cur.root == S.rootKey(prev.root, dh) && cur.base == S.rootChain(prev.root, dh)
    case None => false
  }

  predicate EpochsOk<K(==), P(==), C>(S: Suite<K, P, C>, ep: seq<Epoch<K>>) {
    && (forall e :: 1 <= e < |ep| ==> Linked(S, ep[e - 1], ep[e]))
    && (0 < |ep| ==> ep[0].count == 0)
    && (forall i, j :: 0 <= i < j < |ep| ==> S.public(ep[i].name) != S.public(ep[j].name))
  }

  /** A stored key is the message key of some position the peer has sent or will send at. */
  predicate EntryOk<K(==), P(==), C>(S: Suite<K, P, C>, ep: seq<Epoch<K>>, s: nat, x: Entry<K, P>)
    requires s < |ep|
  {
    exists e :: 1 <= e < s && e % 2 != s % 2 && x.id.pub == S.public(ep[e].name) &&
        x.key == MsgAt(S, ep[e].base, x.id.n)
  }

  predicate StoreOk<K(==), P(==), C>(S: Suite<K, P, C>, ep: seq<Epoch<K>>, s: nat, store: seq<Entry<K, P>>)
    requires s < |ep|
  {
    forall i :: 0 <= i < |store| ==> EntryOk(S, ep, s, store[i])
  }

  predicate SendOk<K(==), P, C>(S: Suite<K, P, C>, ep: seq<Epoch<K>>, s: nat, r: State<K, P>)
    requires s < |ep|
  {
    && r.rootKey == ep[s].root && r.sendKey == ep[s].name && r.sendCount == ep[s].count
    && r.previousSent == PrevCount(ep, s)
    && (if s == 0 then r.sendChain.None? else r.sendChain == Some(ChainAt(S, ep[s].base, r.sendCount)))
  }

  predicate ReceiveOk<K(==), P(==), C>(S: Suite<K, P, C>, ep: seq<Epoch<K>>, s: nat, r: State<K, P>)
    requires s < |ep|
  {
    && (if s == 0 then r.receiveKey.None? else r.receiveKey == Some(S.public(ep[s - 1].name)))
    && (if s < 2 then r.receiveChain.None? && r.receiveCount == 0
        else r.receiveChain == Some(ChainAt(S, ep[s - 1].base, r.receiveCount)) && r.receiveCount <= ep[s - 1].count)
    && StoreOk(S, ep, s, r.store)
  }

  predicate PostedOk<K(==), P(==), C(==)>(S: Suite<K, P, C>, tag: K, ep: seq<Epoch<K>>, p: Posted<P, C>) {
    var h := p.record.header;
    && 1 <= p.epoch < |ep|
    && p.epoch % 2 == (if p.sender == A then 1 else 0)
    && h.version == V2 && h.pub == S.public(ep[p.epoch].name) && h.pn == PrevCount(ep, p.epoch)
    && h.n < ep[p.epoch].count
    && p.record.box == S.seal(MsgAt(S, ep[p.epoch].base, h.n), tag, h, Padding.Pad(p.plaintext))
  }

  predicate SideOk<K(==), P(==), C>(S: Suite<K, P, C>, ep: seq<Epoch<K>>, s: nat, r: State<K, P>) {
    s < |ep| && SendOk(S, ep, s, r) && ReceiveOk(S, ep, s, r)
  }

  predicate LogOk<K(==), P(==), C(==)>(S: Suite<K, P, C>, tag: K, ep: seq<Epoch<K>>, log: seq<Posted<P, C>>) {
    forall i :: 0 <= i < |log| ==> PostedOk(S, tag, ep, log[i])
  }

  predicate Adjacent(s: nat, t: nat, n: nat) {
    (s == t + 1 && n == s + 1) || (t == s + 1 && n == t + 1)
  }

  predicate Inv<K(==), P(==), C(==)>(S: Suite<K, P, C>, sys: System<K, P, C>, ep: seq<Epoch<K>>) {
    && EpochsOk(S, ep)
    && Adjacent(sys.Turn(A), sys.Turn(B), |ep|)
    && SideOk(S, ep, sys.Turn(A), sys.a.ratchet) && SideOk(S, ep, sys.Turn(B), sys.b.ratchet)
    && sys.a.tag == sys.b.tag
    && LogOk(S, sys.a.tag, ep, sys.log)
  }

  // ---------------------------------------------------------------------------
  // Events.

  datatype Event<P, C> =
    | Post(x: Side, plaintext: bytes)
    | Deliver(x: Side, record: Record<P, C>, newKey: Option<nat>)
    | Hangup(x: Side)

  predicate Ready<K, P, C>(sys: System<K, P, C>) {
    WellFormed(sys.a.ratchet) && WellFormed(sys.b.ratchet)
  }

  function Apply<K, P(==), C>(S: Suite<K, P, C>, sys: System<K, P, C>, ev: Event<P, C>): (sys': System<K, P, C>)
    requires Ready(sys)
    ensures Ready(sys')
  {
    match ev
    case Post(x, plaintext) =>
      (match Encrypt(S, sys.Get(x), plaintext)
       case Err(_) => sys
       case Ok(sent) =>
         sys.Put(x, sent.next).(log := sys.log + [Posted(x, sys.Turn(x), sent.record, plaintext)]))
    case Deliver(x, record, newKey) =>
      (match Decrypt(S, sys.Get(x), record, newKey)
       case Err(_) => sys
       case Ok(got) => sys.Put(x, got.next))
    case Hangup(x) => sys.Put(x, Close(sys.Get(x)))
  }

  /** The pair `newSession` sets up: the initiator has stepped against the responder's
      handshake ephemeral. */
  function NewPair<K, P, C>(S: Suite<K, P, C>, root: K, tag: K, ephemeral: nat, name: nat): (sys: System<K, P, C>)
    requires S.agree(name, S.public(ephemeral)).Some?
    ensures Ready(sys)
  {
    System(Open(Initiator(S, root, S.public(ephemeral), name).value, tag), Open(Responder(root, ephemeral), tag), [])
  }

  lemma PairHolds<K, P, C>(S: Suite<K, P, C>, root: K, tag: K, ephemeral: nat, name: nat) returns (ep: seq<Epoch<K>>)
    requires S.agree(name, S.public(ephemeral)).Some? && S.public(ephemeral) != S.public(name)
    ensures Inv(S, NewPair(S, root, tag, ephemeral, name), ep)
    ensures |ep| == 2 && ep[0] == Epoch(ephemeral, root, root, 0) && ep[1].name == name
  {
    var zero := Epoch(ephemeral, root, root, 0);
    ep := [zero, NextEpoch(S, zero, name)];
    assert Linked(S, ep[0], ep[1]);
  }

  // ---------------------------------------------------------------------------
  // Growing the sequence of epochs.

  /** ep' continues ep: the same keys, with counts that only matter where they are read. */
  predicate Continues<K(==)>(ep: seq<Epoch<K>>, ep': seq<Epoch<K>>) {
    && |ep| <= |ep'|
    && (forall e :: 0 <= e < |ep| ==> ep'[e] == ep[e].(count := ep'[e].count))
  }

  lemma StoreContinues<K, P, C>(
    S: Suite<K, P, C>, ep: seq<Epoch<K>>, ep': seq<Epoch<K>>, s: nat, s': nat, store: seq<Entry<K, P>>)
    requires s < |ep| && s' < |ep'| && Continues(ep, ep')
    requires s <= s' && s % 2 == s' % 2
    requires StoreOk(S, ep, s, store)
    ensures StoreOk(S, ep', s', store)
  {
    forall i | 0 <= i < |store|
      ensures EntryOk(S, ep', s', store[i])
    {
      var x := store[i];
      var e :| 1 <= e < s && e % 2 != s % 2 && x.id.pub == S.public(ep[e].name) &&
          x.key == MsgAt(S, ep[e].base, x.id.n);
      assert x.id.pub == S.public(ep'[e].name);
    }
  }

  // ---------------------------------------------------------------------------
  // Sending.

  function CountOne<K>(ep: seq<Epoch<K>>, s: nat): seq<Epoch<K>>
    requires s < |ep| && ep[s].count < U32_MAX
  {
    ep[s := ep[s].(count := ep[s].count + 1)]
  }

  lemma CountOneKeeps<K, P, C>(S: Suite<K, P, C>, tag: K, ep: seq<Epoch<K>>, s: nat, log: seq<Posted<P, C>>)
    requires EpochsOk(S, ep) && LogOk(S, tag, ep, log)
    requires 1 <= s < |ep| <= s + 2 && ep[s].count < U32_MAX
    ensures EpochsOk(S, CountOne(ep, s)) && LogOk(S, tag, CountOne(ep, s), log) && Continues(ep, CountOne(ep, s))
  {
    var ep' := CountOne(ep, s);
    forall e | 1 <= e < |ep'|
      ensures Linked(S, ep'[e - 1], ep'[e])
    {
      assert Linked(S, ep[e - 1], ep[e]);
    }
    forall i | 0 <= i < |log|
      ensures PostedOk(S, tag, ep', log[i])
    {
      assert PostedOk(S, tag, ep, log[i]);
    }
  }

  /** Counting one more record of epoch s disturbs neither the peer nor the records sent. */
  lemma PeerKeeps<K, P, C>(S: Suite<K, P, C>, ep: seq<Epoch<K>>, s: nat, t: nat, r: State<K, P>)
    requires SideOk(S, ep, t, r) && s < |ep| && (t == s + 1 || s == t + 1) && ep[s].count < U32_MAX
    ensures SideOk(S, CountOne(ep, s), t, r)
  {
    StoreContinues(S, ep, CountOne(ep, s), t, t, r.store);
  }

  lemma SenderKeeps<K, P, C>(S: Suite<K, P, C>, ep: seq<Epoch<K>>, s: nat, r: State<K, P>)
    requires SideOk(S, ep, s, r) && Next(S, r).Ok?
    ensures var out := Next(S, r).value;
            && 1 <= s && SideOk(S, CountOne(ep, s), s, out.next)
            && out.key == MsgAt(S, ep[s].base, out.header.n)
            && out.header == Header(V2, S.public(ep[s].name), PrevCount(ep, s), ep[s].count)
  {
    StoreContinues(S, ep, CountOne(ep, s), s, s, r.store);
  }

  lemma PostCore<K, P, C>(
    S: Suite<K, P, C>, tag: K, ep: seq<Epoch<K>>, log: seq<Posted<P, C>>,
    x: Side, s: nat, r: State<K, P>, t: nat, peer: State<K, P>, plaintext: bytes) returns (ep': seq<Epoch<K>>)
    requires EpochsOk(S, ep) && Adjacent(s, t, |ep|) && LogOk(S, tag, ep, log)
    requires SideOk(S, ep, s, r) && SideOk(S, ep, t, peer)
    requires s % 2 == (if x == A then 1 else 0) && Next(S, r).Ok?
    ensures EpochsOk(S, ep') && |ep'| == |ep| && Continues(ep, ep')
    ensures forall e :: 0 <= e < |ep| && e != s ==> ep'[e] == ep[e]
    ensures SideOk(S, ep', s, Next(S, r).value.next) && SideOk(S, ep', t, peer)
    ensures var out := Next(S, r).value;
            var box := S.seal(out.key, tag, out.header, Padding.Pad(plaintext));
            LogOk(S, tag, ep', log + [Posted(x, s, Record(out.header, box), plaintext)])
  {
    SenderKeeps(S, ep, s, r);
    PeerKeeps(S, ep, s, t, peer);
    CountOneKeeps(S, tag, ep, s, log);
    ep' := CountOne(ep, s);
  }

  lemma Assemble<K, P, C>(S: Suite<K, P, C>, sys: System<K, P, C>, ep: seq<Epoch<K>>, x: Side)
    requires EpochsOk(S, ep)
    requires Adjacent(sys.Turn(x), sys.Turn(Peer(x)), |ep|)
    requires SideOk(S, ep, sys.Turn(x), sys.Get(x).ratchet)
    requires SideOk(S, ep, sys.Turn(Peer(x)), sys.Get(Peer(x)).ratchet)
    requires sys.a.tag == sys.b.tag && LogOk(S, sys.a.tag, ep, sys.log)
    ensures Inv(S, sys, ep)
  {
    hide SideOk, LogOk, EpochsOk;
  }

  lemma ApplyPost<K, P, C>(S: Suite<K, P, C>, sys: System<K, P, C>, x: Side, plaintext: bytes)
    requires Ready(sys)
    ensures var sys' := Apply(S, sys, Post(x, plaintext));
            var s := sys.Get(x);
            match Encrypt(S, s, plaintext)
            case Err(_) => sys' == sys
            case Ok(_) =>
              && Next(S, s.ratchet).Ok?
              && var out := Next(S, s.ratchet).value;
                 var box := S.seal(out.key, s.tag, out.header, Padding.Pad(plaintext));
                 && sys'.Get(x).ratchet == out.next && sys'.Get(x).tag == s.tag
                 && sys'.Turn(x) == sys.Turn(x)
                 && sys'.Get(Peer(x)) == sys.Get(Peer(x))
                 && sys'.log == sys.log + [Posted(x, sys.Turn(x), Record(out.header, box), plaintext)]
  {
  }

  lemma Disassemble<K, P, C>(S: Suite<K, P, C>, sys: System<K, P, C>, ep: seq<Epoch<K>>, x: Side)
    requires Inv(S, sys, ep)
    ensures EpochsOk(S, ep)
    ensures Adjacent(sys.Turn(x), sys.Turn(Peer(x)), |ep|)
    ensures SideOk(S, ep, sys.Turn(x), sys.Get(x).ratchet)
    ensures SideOk(S, ep, sys.Turn(Peer(x)), sys.Get(Peer(x)).ratchet)
    ensures sys.Get(x).tag == sys.Get(Peer(x)).tag == sys.a.tag && LogOk(S, sys.a.tag, ep, sys.log)
  {
    hide SideOk, LogOk, EpochsOk;
  }

  lemma PostKeeps<K, P, C>(S: Suite<K, P, C>, sys: System<K, P, C>, ep: seq<Epoch<K>>, x: Side, plaintext: bytes)
    returns (ep': seq<Epoch<K>>)
    requires Ready(sys) && Inv(S, sys, ep)
    ensures Inv(S, Apply(S, sys, Post(x, plaintext)), ep')
    ensures Continues(ep, ep') && |ep'| == |ep|
    ensures forall e :: 0 <= e < |ep| && e != sys.Turn(x) ==> ep'[e] == ep[e]
  {
    hide SideOk, LogOk, EpochsOk, Inv, Apply, Encrypt, Next;
    ep' := ep;
    ApplyPost(S, sys, x, plaintext);
    Disassemble(S, sys, ep, x);
    if Encrypt(S, sys.Get(x), plaintext).Ok? {
      var peer := Peer(x);
      ep' := PostCore(
        S, sys.a.tag, ep, sys.log, x, sys.Turn(x), sys.Get(x).ratchet, sys.Turn(peer), sys.Get(peer).ratchet,
            plaintext);
      Assemble(S, Apply(S, sys, Post(x, plaintext)), ep', x);
    }
  }

  // ---------------------------------------------------------------------------
  // Receiving.

  predicate Known<K, P(==), C>(S: Suite<K, P, C>, ep: seq<Epoch<K>>, pub: P) {
    exists e :: 0 <= e < |ep| && S.public(ep[e].name) == pub
  }

  lemma RememberOk<K, P, C>(S: Suite<K, P, C>, ep: seq<Epoch<K>>, s: nat, store: seq<Entry<K, P>>, n: u32)
    requires 2 <= s < |ep| && StoreOk(S, ep, s, store)
    ensures StoreOk(S, ep, s, Remember(store, SkippedKey(S.public(ep[s - 1].name), n), MsgAt(S, ep[s - 1].base, n)))
  {
    var x := Entry(SkippedKey(S.public(ep[s - 1].name), n), MsgAt(S, ep[s - 1].base, n));
    assert EntryOk(S, ep, s, x);
  }

  lemma SkipOneOk<K, P, C>(S: Suite<K, P, C>, ep: seq<Epoch<K>>, s: nat, r: State<K, P>)
    requires 2 <= s < |ep| && ReceiveOk(S, ep, s, r) && r.receiveCount < ep[s - 1].count
    ensures WellFormed(r) && r.receiveChain.Some? && ReceiveOk(S, ep, s, SkipOne(S, r))
  {
    RememberOk(S, ep, s, r.store, r.receiveCount);
  }

  /** Skipping ahead reaches its target on the peer's chain, and what it stores is right. */
  lemma {:induction false} SkipLoopOk<K, P, C>(
    S: Suite<K, P, C>, ep: seq<Epoch<K>>, s: nat, r: State<K, P>, target: u32)
    requires 2 <= s < |ep| && ReceiveOk(S, ep, s, r)
    requires r.receiveCount <= target <= ep[s - 1].count
    ensures var r' := SkipLoop(S, r, target);
            && ReceiveOk(S, ep, s, r') && r'.receiveCount == target
            && r' == r.(receiveChain := r'.receiveChain, receiveCount := target, store := r'.store)
    decreases target - r.receiveCount
  {
    if r.receiveCount < target {
      SkipOneOk(S, ep, s, r);
      SkipLoopOk(S, ep, s, SkipOne(S, r), target);
    }
  }

  /** The key for position n of the current receiving epoch. */
  lemma AdvanceOk<K, P, C>(S: Suite<K, P, C>, ep: seq<Epoch<K>>, s: nat, r: State<K, P>, n: u32)
    requires 2 <= s < |ep| && SideOk(S, ep, s, r)
    requires r.receiveCount <= n < ep[s - 1].count && n - r.receiveCount <= MAX_SKIP
    ensures var res := Advance(S, r, n);
            && res.Ok?
            && var m := res.value;
               && m.from.None? && m.key == MsgAt(S, ep[s - 1].base, n)
               && SideOk(S, ep, s, m.next) && m.next.steps == r.steps
  {
    SkipLoopOk(S, ep, s, r, n);
    hide StoreOk, SkipLoop;
    var r1 := SkipLoop(S, r, n);
    assert SkipTo(S, r, n) == Ok(r1);
    assert ChainAt(S, ep[s - 1].base, n + 1) == S.chainNext(r1.receiveChain);
  }

  /** The epoch opened by a side whose peer is in the last one. */
  function NextEpoch<K, P, C>(S: Suite<K, P, C>, last: Epoch<K>, name: nat): Epoch<K>
    requires S.agree(name, S.public(last.name)).Some?
  {
    var dh := S.agree(name, S.public(last.name)).value;
    Epoch(name, S.rootKey(last.root, dh), S.rootChain(last.root, dh), 0)
  }

  lemma StepOk<K(!new), P(!new), C(!new)>(S: Suite<K, P, C>, ep: seq<Epoch<K>>, s: nat, r: State<K, P>, name: nat)
    requires Agrees(S) && EpochsOk(S, ep) && |ep| == s + 2 && SideOk(S, ep, s, r)
    requires !Known(S, ep, S.public(name))
    ensures var res := Step(S, r, S.public(ep[s + 1].name), Some(name));
            var ep' := ep + [NextEpoch(S, ep[s + 1], name)];
            && res.Ok? && EpochsOk(S, ep') && Continues(ep, ep')
            && SideOk(S, ep', s + 2, res.value)
            && res.value.steps == r.steps + 1 && res.value.receiveCount == 0
  {
    var peer := S.public(ep[s + 1].name);
    assert Linked(S, ep[s], ep[s + 1]);
    CommutesAt(S.public, S.agree, r.sendKey, ep[s + 1].name);
    CommutesAt(S.public, S.agree, name, ep[s + 1].name);
    var ep' := ep + [NextEpoch(S, ep[s + 1], name)];
    assert Linked(S, ep'[s + 1], ep'[s + 2]);
    forall e | 1 <= e < |ep'|
      ensures Linked(S, ep'[e - 1], ep'[e])
    {
      assert e < |ep| ==> Linked(S, ep[e - 1], ep[e]);
    }
    StoreContinues(S, ep, ep', s, s + 2, r.store);
  }

  /** Finishing the chain being left and turning to the peer's new key. */
  lemma TurnOk<K(!new), P(!new), C(!new)>(
    S: Suite<K, P, C>, ep: seq<Epoch<K>>, s: nat, r: State<K, P>, h: Header<P>, name: nat)
    requires Agrees(S) && EpochsOk(S, ep) && |ep| == s + 2 && SideOk(S, ep, s, r)
    requires !Known(S, ep, S.public(name))
    requires h.pub == S.public(ep[s + 1].name) && h.pn == PrevCount(ep, s + 1)
    requires s < 2 || h.pn - r.receiveCount <= MAX_SKIP
    ensures var res := TurnTo(S, r, h, Some(name));
            var ep' := ep + [NextEpoch(S, ep[s + 1], name)];
            && res.Ok? && EpochsOk(S, ep') && Continues(ep, ep')
            && SideOk(S, ep', s + 2, res.value)
            && res.value.steps == r.steps + 1 && res.value.receiveCount == 0
  {
    if s >= 2 {
      SkipLoopOk(S, ep, s, r, h.pn);
    }
    assert r.receiveKey != Some(h.pub);
    var r1 := SkipTo(S, r, h.pn).value;
    assert SideOk(S, ep, s, r1);
    StepOk(S, ep, s, r1, name);
  }

  /** When a record the peer sent in epoch e at position n has a key the receiver can reach:
      it is stored, or it is ahead in the current chain, or it opens the next one. */
  predicate Reachable<K(==), P(==), C>(S: Suite<K, P, C>, ep: seq<Epoch<K>>, s: nat, r: State<K, P>, p: Posted<P, C>) {
    var h := p.record.header;
    || Stored(r.store, SkippedKey(h.pub, h.n))
    || (p.epoch + 1 == s && r.receiveCount <= h.n && h.n - r.receiveCount <= MAX_SKIP)
    || (p.epoch == s + 1 && h.pn - r.receiveCount <= MAX_SKIP && h.n <= MAX_SKIP)
  }

  /** The stored key for a record is the key it was sealed under. */
  lemma StoredIsRight<K, P, C>(S: Suite<K, P, C>, ep: seq<Epoch<K>>, s: nat, r: State<K, P>, e: nat, n: u32)
    requires EpochsOk(S, ep) && SideOk(S, ep, s, r) && e < |ep|
    requires Stored(r.store, SkippedKey(S.public(ep[e].name), n))
    ensures 1 <= e < s && e % 2 != s % 2
    ensures r.store[IndexOf(r.store, SkippedKey(S.public(ep[e].name), n))].key == MsgAt(S, ep[e].base, n)
  {
    var i := IndexOf(r.store, SkippedKey(S.public(ep[e].name), n));
    assert EntryOk(S, ep, s, r.store[i]);
  }

  lemma ForgetOk<K, P, C>(S: Suite<K, P, C>, ep: seq<Epoch<K>>, s: nat, r: State<K, P>, id: SkippedKey<P>)
    requires SideOk(S, ep, s, r)
    ensures SideOk(S, ep, s, r.(store := Forget(r.store, id)))
  {
  }

  lemma SideFacts<K, P, C>(S: Suite<K, P, C>, ep: seq<Epoch<K>>, s: nat, r: State<K, P>)
    requires SideOk(S, ep, s, r)
    ensures s < |ep| && WellFormed(r)
    ensures 1 <= s ==> r.receiveKey == Some(S.public(ep[s - 1].name))
    ensures s < 2 ==> r.receiveCount == 0
  {
  }

  /** A reachable record yields its own key, and both the state reached and the epochs
      stay in step. */
  lemma ReceiveOkay<K(!new), P(!new), C(!new)>(
    S: Suite<K, P, C>, tag: K, ep: seq<Epoch<K>>, s: nat, r: State<K, P>, p: Posted<P, C>, name: nat)
    returns (ep': seq<Epoch<K>>)
    requires Agrees(S) && EpochsOk(S, ep) && SideOk(S, ep, s, r) && |ep| <= s + 2
    requires PostedOk(S, tag, ep, p) && Reachable(S, ep, s, r, p) && WellFormed(r)
    requires !Known(S, ep, S.public(name))
    ensures Receive(S, r, p.record.header, Some(name)).Ok?
    ensures var m := Receive(S, r, p.record.header, Some(name)).value;
            var s' := s + 2 * (Settle(m).steps - r.steps);
            && m.key == MsgAt(S, ep[p.epoch].base, p.record.header.n)
            && s' >= 0 && SideOk(S, ep', s', Settle(m)) && EpochsOk(S, ep') && Continues(ep, ep')
            && ((s' == s && ep' == ep) || (s' == s + 2 && |ep| == s + 2 && ep' == ep + [ep'[s + 2]] &&
               ep'[s + 2].name == name))
  {
    var h := p.record.header;
    var e := p.epoch;
    ep' := ep;
    hide EpochsOk, SideOk, SkipTo, Step;
    SideFacts(S, ep, s, r);
    if Stored(r.store, SkippedKey(h.pub, h.n)) {
      StoredIsRight(S, ep, s, r, e, h.n);
      ForgetOk(S, ep, s, r, SkippedKey(h.pub, h.n));
    } else if e + 1 == s {
      AdvanceOk(S, ep, s, r, h.n);
    } else {
      TurnOk(S, ep, s, r, h, name);
      ep' := ep + [NextEpoch(S, ep[s + 1], name)];
      AdvanceOk(S, ep', s + 2, TurnTo(S, r, h, Some(name)).value, h.n);
    }
  }

  // ---------------------------------------------------------------------------
  // Delivery of an honest record.

  lemma GrowKeeps<K, P, C>(
    S: Suite<K, P, C>, tag: K, ep: seq<Epoch<K>>, y: Epoch<K>, log: seq<Posted<P, C>>, t: nat, peer: State<K, P>)
    requires SideOk(S, ep, t, peer) && LogOk(S, tag, ep, log)
    ensures SideOk(S, ep + [y], t, peer) && LogOk(S, tag, ep + [y], log)
  {
    StoreContinues(S, ep, ep + [y], t, t, peer.store);
    forall i | 0 <= i < |log|
      ensures PostedOk(S, tag, ep + [y], log[i])
    {
      assert PostedOk(S, tag, ep, log[i]);
    }
  }

  lemma ApplyDeliver<K, P, C>(
    S: Suite<K, P, C>, sys: System<K, P, C>, x: Side, record: Record<P, C>, newKey: Option<nat>)
    requires Ready(sys) && Decrypt(S, sys.Get(x), record, newKey).Ok?
    ensures Receive(S, sys.Get(x).ratchet, record.header, newKey).Ok?
    ensures var sys' := Apply(S, sys, Deliver(x, record, newKey));
            var r := sys.Get(x).ratchet;
            var r' := Settle(Receive(S, r, record.header, newKey).value);
            && sys'.Get(x).ratchet == r' && sys'.Get(x).tag == sys.Get(x).tag
            && sys'.Get(Peer(x)) == sys.Get(Peer(x)) && sys'.log == sys.log
            && sys'.Turn(x) == sys.Turn(x) + 2 * (r'.steps - r.steps)
  {
  }

  /** A reachable record of the peer decrypts to its plaintext, and the invariant goes on. */
  lemma DeliverKeeps<K(!new), P(!new), C(!new)>(
    S: Suite<K, P, C>, sys: System<K, P, C>, ep: seq<Epoch<K>>, x: Side, p: Posted<P, C>, name: nat)
    returns (ep': seq<Epoch<K>>)
    requires Agrees(S) && Opens(S) && Ready(sys) && Inv(S, sys, ep)
    requires p in sys.log && !sys.Get(x).closed && !Known(S, ep, S.public(name))
    requires Reachable(S, ep, sys.Turn(x), sys.Get(x).ratchet, p)
    ensures var res := Decrypt(S, sys.Get(x), p.record, Some(name));
            res.Ok? && res.value.plaintext == p.plaintext
    ensures Inv(S, Apply(S, sys, Deliver(x, p.record, Some(name))), ep')
    ensures ep <= ep' && (|ep'| == |ep| || (|ep'| == |ep| + 1 && ep'[|ep|].name == name))
  {
    hide SideOk, EpochsOk, Reachable, Inv, Apply, Receive, Settle;
    var y := Peer(x);
    var s, t := sys.Turn(x), sys.Turn(y);
    Disassemble(S, sys, ep, x);
    ep' := ReceiveOkay(S, sys.a.tag, ep, s, sys.Get(x).ratchet, p, name);
    Padding.PadRoundTrip(p.plaintext);
    ApplyDeliver(S, sys, x, p.record, Some(name));
    if |ep'| > |ep| {
      GrowKeeps(S, sys.a.tag, ep, ep'[|ep|], sys.log, t, sys.Get(y).ratchet);
    }
    Assemble(S, Apply(S, sys, Deliver(x, p.record, Some(name))), ep', x);
  }

  /** Where a record of the peer stands before `Decrypt` is called: its key is stored, or it lies ahead in the current
      chain, or it carries the ratchet key the peer now sends under; both gaps within MAX_SKIP. */
  predicate WithinReach<K, P(==), C>(S: Suite<K, P, C>, sys: System<K, P, C>, x: Side, h: Header<P>) {
    var r := sys.Get(x).ratchet;
    || Stored(r.store, SkippedKey(h.pub, h.n))
    || (r.receiveKey == Some(h.pub) && r.receiveCount <= h.n && h.n - r.receiveCount <= MAX_SKIP)
    || (r.receiveKey != Some(h.pub) && h.pub == S.public(sys.Get(Peer(x)).ratchet.sendKey)
        && h.pn - r.receiveCount <= MAX_SKIP && h.n <= MAX_SKIP)
  }

  lemma ReachAgrees<K, P, C>(
    S: Suite<K, P, C>, ep: seq<Epoch<K>>, sys: System<K, P, C>, x: Side, p: Posted<P, C>)
    requires Inv(S, sys, ep) && p in sys.log
    ensures Reachable(S, ep, sys.Turn(x), sys.Get(x).ratchet, p) <==> WithinReach(S, sys, x, p.record.header)
  {
    Disassemble(S, sys, ep, x);
    hide Inv, StoreOk, LogOk;
    assert PostedOk(S, sys.a.tag, ep, p) by { PostedOfLog(S, sys.a.tag, ep, sys.log, p); }
  }

  lemma PostedOfLog<K, P, C>(S: Suite<K, P, C>, tag: K, ep: seq<Epoch<K>>, log: seq<Posted<P, C>>, p: Posted<P, C>)
    requires LogOk(S, tag, ep, log) && p in log
    ensures PostedOk(S, tag, ep, p)
  {
  }

  lemma InvIsReady<K, P, C>(S: Suite<K, P, C>, sys: System<K, P, C>, ep: seq<Epoch<K>>)
    requires Inv(S, sys, ep)
    ensures Ready(sys)
  {
    Disassemble(S, sys, ep, A);
    SideFacts(S, ep, sys.Turn(A), sys.a.ratchet);
    SideFacts(S, ep, sys.Turn(B), sys.b.ratchet);
    hide Inv, SideOk, LogOk, EpochsOk;
  }
}
