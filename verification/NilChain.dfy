/**
 * What the session tag is for. An initiator that has heard nothing has a receiving key and no receiving chain, and
 * a header that repeats that key reaches the chain KDF on a nil chain (internal/e2ee/ratchet.go:343 and 364): its
 * message key is a public constant. Here boxes are taken to be unforgeable only under keys that hang off the
 * handshake's root key.
 */
module NilChain {
  import opened Common
  import opened Ratchet
  import opened Symbolic
  import opened Agreement
  import opened TwoParty
  import Padding

  /** Derived, by any steps of the key schedule, from the root key the handshake ended with. */
  predicate OffSeed(k: Key, seed: nat) {
    match k
    case Seed(id) => id == seed
    case Root(prev, _) => OffSeed(prev, seed)
    case Chain(root, _) => OffSeed(root, seed)
    case Follow(chain) => OffSeed(chain, seed)
    case Msg(chain) => OffSeed(chain, seed)
    case _ => false
  }

  /** A box under this session's tag and a key that hangs off the seed was made by one of the two sides. */
  predicate UnforgedOffSeed(sys: System<Key, Pub, Box>, seed: nat, record: Record<Pub, Box>) {
    record.box.Sealed? && record.box.tag == sys.a.tag && OffSeed(record.box.key, seed) ==>
      exists i :: 0 <= i < |sys.log| && sys.log[i].record.box == record.box
  }

  /** The header that reaches the nil chain; a receiver can tell it before anything is derived. */
  predicate HitsNil(r: State<Key, Pub>, h: Header<Pub>) {
    r.receiveChain.None? && r.receiveKey == Some(h.pub) && !Stored(r.store, SkippedKey(h.pub, h.n))
  }

  /** The key pair an arrival draws, where the random source works. */
  function Drawn(w: World, random: bool): Option<nat> {
    if random then Some(w.next) else None
  }

  /** Nothing that opens arrives on the nil chain; what is refused there is of no consequence. */
  predicate MayArrive(w: World, seed: nat, act: Act)
    requires Ready(w.sys)
  {
    act.Arrives? ==>
      && UnforgedOffSeed(w.sys, seed, act.record)
      && (HitsNil(w.sys.Get(act.x).ratchet, act.record.header) ==>
            Decrypt(SYM, w.sys.Get(act.x), act.record, Drawn(w, act.random)).Err?)
  }

  predicate GuardedRun(w: World, seed: nat, acts: seq<Act>)
    requires Ready(w.sys)
  {
    acts == [] ||
    (GuardedRun(w, seed, acts[..|acts| - 1]) && MayArrive(Execute(w, acts[..|acts| - 1]), seed, acts[|acts| - 1]))
  }

  // ---------------------------------------------------------------------------
  // Every key a side holds hangs off the seed.

  predicate Rooted(r: State<Key, Pub>, seed: nat) {
    && OffSeed(r.rootKey, seed)
    && (r.receiveChain.Some? ==> OffSeed(r.receiveChain.value, seed))
    && (forall i :: 0 <= i < |r.store| ==> OffSeed(r.store[i].key, seed))
  }

  lemma RememberFrom(store: seq<Entry<Key, Pub>>, id: SkippedKey<Pub>, key: Key, i: nat)
    requires i < |Remember(store, id, key)|
    ensures Remember(store, id, key)[i].key == key || Remember(store, id, key)[i] in store
  {
    var grown := Insert(store, id, key);
    assert forall j :: 0 <= j < |grown| ==> grown[j].key == key || grown[j] in store;
    hide Insert, IndexOf;
  }

  lemma SkipOneRooted(r: State<Key, Pub>, seed: nat)
    requires WellFormed(r) && r.receiveChain.Some? && Rooted(r, seed)
    ensures Rooted(SkipOne(SYM, r), seed)
  {
    var id, key := SkippedKey(r.receiveKey.value, r.receiveCount), Msg(r.receiveChain.value);
    hide Remember;
    forall i | 0 <= i < |Remember(r.store, id, key)|
      ensures OffSeed(Remember(r.store, id, key)[i].key, seed)
    {
      RememberFrom(r.store, id, key, i);
    }
  }

  lemma {:induction false} SkipLoopRooted(r: State<Key, Pub>, target: u32, seed: nat)
    requires WellFormed(r) && r.receiveChain.Some? && Rooted(r, seed)
    ensures Rooted(SkipLoop(SYM, r, target), seed)
    decreases target - r.receiveCount
  {
    if r.receiveCount < target {
      SkipOneRooted(r, seed);
      SkipLoopRooted(SkipOne(SYM, r), target, seed);
    }
  }

  lemma SkipToRooted(r: State<Key, Pub>, target: u32, seed: nat)
    requires WellFormed(r) && Rooted(r, seed) && SkipTo(SYM, r, target).Ok?
    ensures Rooted(SkipTo(SYM, r, target).value, seed)
    ensures SkipTo(SYM, r, target).value.receiveChain.Some? <==> r.receiveChain.Some?
  {
    if r.receiveChain.Some? {
      SkipLoopRooted(r, target, seed);
    }
  }

  lemma AdvanceRooted(r: State<Key, Pub>, n: u32, seed: nat)
    requires WellFormed(r) && r.receiveKey.Some? && r.receiveChain.Some? && Rooted(r, seed) && Advance(SYM, r, n).Ok?
    ensures var m := Advance(SYM, r, n).value;
            OffSeed(m.key, seed) && Rooted(m.next, seed) && m.from.None?
  {
    SkipToRooted(r, n, seed);
    hide SkipTo;
  }

  lemma TurnRooted(r: State<Key, Pub>, h: Header<Pub>, newKey: Option<nat>, seed: nat)
    requires WellFormed(r) && Rooted(r, seed) && TurnTo(SYM, r, h, newKey).Ok?
    requires r.receiveKey == Some(h.pub) ==> r.receiveChain.Some?
    ensures var t := TurnTo(SYM, r, h, newKey).value;
            Rooted(t, seed) && t.receiveKey == Some(h.pub) && t.receiveChain.Some?
  {
    if r.receiveKey != Some(h.pub) {
      SkipToRooted(r, h.pn, seed);
      StepRooted(SkipTo(SYM, r, h.pn).value, h.pub, newKey, seed);
      hide SkipTo, Step;
    }
  }

  lemma StepRooted(r: State<Key, Pub>, peer: Pub, newKey: Option<nat>, seed: nat)
    requires Rooted(r, seed) && Step(SYM, r, peer, newKey).Ok?
    ensures var t := Step(SYM, r, peer, newKey).value;
            Rooted(t, seed) && t.receiveKey == Some(peer) && t.receiveChain.Some?
  {
    var dh := Agree(r.sendKey, peer).value;
    assert OffSeed(Root(r.rootKey, dh), seed);
    assert OffSeed(Root(Root(r.rootKey, dh), Agree(newKey.value, peer).value), seed);
  }

  /** Off the nil chain, the key a header yields hangs off the seed, and so does all the side then holds. */
  lemma ReceiveRooted(r: State<Key, Pub>, h: Header<Pub>, newKey: Option<nat>, seed: nat)
    requires WellFormed(r) && Rooted(r, seed) && Receive(SYM, r, h, newKey).Ok? && !HitsNil(r, h)
    ensures var m := Receive(SYM, r, h, newKey).value;
            OffSeed(m.key, seed) && Rooted(Settle(m), seed)
  {
    var id := SkippedKey(h.pub, h.n);
    if Stored(r.store, id) {
      var kept := Forget(r.store, id);
      assert forall i :: 0 <= i < |kept| ==> kept[i] in r.store;
    } else {
      TurnRooted(r, h, newKey, seed);
      AdvanceRooted(TurnTo(SYM, r, h, newKey).value, h.n, seed);
      hide TurnTo, Advance;
    }
  }

  // ---------------------------------------------------------------------------
  // Runs.

  predicate BothRooted(w: World, seed: nat) {
    Rooted(w.sys.a.ratchet, seed) && Rooted(w.sys.b.ratchet, seed)
  }

  /** What opens off the nil chain is unforged in the stronger sense too. */
  lemma OpensUnforged(w: World, seed: nat, x: Side, record: Record<Pub, Box>, newKey: Option<nat>)
    requires Ready(w.sys) && BothRooted(w, seed) && w.sys.a.tag == w.sys.b.tag && UnforgedOffSeed(w.sys, seed, record)
    requires !HitsNil(w.sys.Get(x).ratchet, record.header) && Decrypt(SYM, w.sys.Get(x), record, newKey).Ok?
    ensures Unforged(w.sys, record)
  {
    OpenedBox(w.sys.Get(x), record, newKey);
    ReceiveRooted(w.sys.Get(x).ratchet, record.header, newKey, seed);
    hide Decrypt, Receive, Rooted;
  }

  lemma ArrivesRooted(w: World, seed: nat, x: Side, record: Record<Pub, Box>, random: bool)
    requires Ready(w.sys) && BothRooted(w, seed) && MayArrive(w, seed, Arrives(x, record, random))
    ensures BothRooted(Do(w, Arrives(x, record, random)), seed)
  {
    var newKey := Drawn(w, random);
    hide Rooted, Receive, HitsNil;
    if Decrypt(SYM, w.sys.Get(x), record, newKey).Ok? {
      ApplyDeliver(SYM, w.sys, x, record, newKey);
      ReceiveRooted(w.sys.Get(x).ratchet, record.header, newKey, seed);
      hide Decrypt, Apply;
    }
  }

  lemma SaysRooted(w: World, seed: nat, x: Side, plaintext: bytes)
    requires Ready(w.sys) && BothRooted(w, seed)
    ensures BothRooted(Do(w, Says(x, plaintext)), seed)
  {
  }

  /** A refused record changes nothing but the key pair it drew. */
  lemma RefusedKeeps(w: World, ep: seq<Epoch<Key>>, x: Side, record: Record<Pub, Box>, random: bool)
    requires Ready(w.sys) && WorldInv(w, ep) && Decrypt(SYM, w.sys.Get(x), record, Drawn(w, random)).Err?
    ensures WorldInv(Do(w, Arrives(x, record, random)), ep)
  {
    hide Inv, Decrypt;
  }

  lemma SameTag(w: World, ep: seq<Epoch<Key>>)
    requires WorldInv(w, ep)
    ensures w.sys.a.tag == w.sys.b.tag
  {
  }

  lemma {:induction false} GuardedRunKeeps(seed: nat, tag: nat, acts: seq<Act>) returns (ep: seq<Epoch<Key>>)
    requires GuardedRun(Init(seed, tag), seed, acts)
    ensures WorldInv(Execute(Init(seed, tag), acts), ep) && BothRooted(Execute(Init(seed, tag), acts), seed)
  {
    hide WorldInv, BothRooted, Do, Init, UnforgedOffSeed, HitsNil, Decrypt;
    if acts == [] {
      ep := StartHolds(seed, tag);
      StartRooted(seed, tag);
    } else {
      var before := GuardedRunKeeps(seed, tag, acts[..|acts| - 1]);
      var w := Execute(Init(seed, tag), acts[..|acts| - 1]);
      match acts[|acts| - 1] {
        case Says(x, plaintext) =>
          ep := SaysKeeps(w, before, x, plaintext);
          SaysRooted(w, seed, x, plaintext);
        case Arrives(x, record, random) =>
          ArrivesRooted(w, seed, x, record, random);
          ep := ArrivesGuarded(w, before, seed, x, record, random);
        case Closes(x) =>
          ep := before;
          ClosesKeeps(w, before, x);
          ClosesRooted(w, seed, x);
      }
    }
  }

  lemma StartRooted(seed: nat, tag: nat)
    ensures BothRooted(Init(seed, tag), seed)
  {
    assert OffSeed(Root(Seed(seed), Pair(0, 1)), seed);
  }

  lemma ClosesRooted(w: World, seed: nat, x: Side)
    requires Ready(w.sys) && BothRooted(w, seed)
    ensures BothRooted(Do(w, Closes(x)), seed)
  {
  }

  lemma ArrivesGuarded(
    w: World, ep: seq<Epoch<Key>>, seed: nat, x: Side, record: Record<Pub, Box>, random: bool)
    returns (ep': seq<Epoch<Key>>)
    requires Ready(w.sys) && WorldInv(w, ep) && BothRooted(w, seed)
    requires MayArrive(w, seed, Arrives(x, record, random))
    ensures WorldInv(Do(w, Arrives(x, record, random)), ep')
  {
    SameTag(w, ep);
    hide WorldInv, Do, UnforgedOffSeed, HitsNil, Decrypt, BothRooted;
    var newKey := Drawn(w, random);
    if Decrypt(SYM, w.sys.Get(x), record, newKey).Ok? {
      OpensUnforged(w, seed, x, record, newKey);
      ep' := ArrivesKeeps(w, ep, x, record, random);
    } else {
      ep' := ep;
      RefusedKeeps(w, ep, x, record, random);
    }
  }

  // ---------------------------------------------------------------------------
  // Agreement, exactly off the nil chain.

  /** The peer of `x` sent this record, with this plaintext. */
  ghost predicate PeerSent(w: World, x: Side, record: Record<Pub, Box>, plaintext: bytes) {
    exists i :: 0 <= i < |w.sys.log| && w.sys.log[i].sender == Peer(x) &&
                w.sys.log[i].record == record && w.sys.log[i].plaintext == plaintext
  }

  /** Side `x` accepts, under this header, only records its peer sent, with their plaintexts. */
  ghost predicate OnlyPeers(w: World, seed: nat, x: Side, h: Header<Pub>, newKey: Option<nat>)
    requires Ready(w.sys)
  {
    forall box: Box | UnforgedOffSeed(w.sys, seed, Record(h, box)) ::
      match Decrypt(SYM, w.sys.Get(x), Record(h, box), newKey)
      case Err(_) => true
      case Ok(got) => PeerSent(w, x, Record(h, box), got.plaintext)
  }

  /**
   * After any guarded run, with boxes unforgeable under the key schedule only: an open session accepts under a header
   * nothing but what its peer sent if and only if the header does not reach the nil chain.
   */
  lemma AgreementOffNilChain(seed: nat, tag: nat, acts: seq<Act>, x: Side, h: Header<Pub>, newKey: Option<nat>)
    requires GuardedRun(Init(seed, tag), seed, acts) && h.version == V2
    requires !Execute(Init(seed, tag), acts).sys.Get(x).closed
    ensures var w := Execute(Init(seed, tag), acts);
            OnlyPeers(w, seed, x, h, newKey) <==> !HitsNil(w.sys.Get(x).ratchet, h)
  {
    var ep := GuardedRunKeeps(seed, tag, acts);
    var w := Execute(Init(seed, tag), acts);
    hide Execute, GuardedRun, Init, WorldInv, BothRooted;
    if HitsNil(w.sys.Get(x).ratchet, h) {
      ForgedOnNil(w, ep, seed, x, h, newKey);
    } else {
      PeersOffNil(w, ep, seed, x, h, newKey);
    }
  }

  lemma PeersOffNil(w: World, ep: seq<Epoch<Key>>, seed: nat, x: Side, h: Header<Pub>, newKey: Option<nat>)
    requires Ready(w.sys) && WorldInv(w, ep) && BothRooted(w, seed) && !HitsNil(w.sys.Get(x).ratchet, h)
    ensures OnlyPeers(w, seed, x, h, newKey)
  {
    SameTag(w, ep);
    hide WorldInv, BothRooted, HitsNil, UnforgedOffSeed, Decrypt;
    forall box: Box |
        UnforgedOffSeed(w.sys, seed, Record(h, box)) && Decrypt(SYM, w.sys.Get(x), Record(h, box), newKey).Ok?
      ensures PeerSent(w, x, Record(h, box), Decrypt(SYM, w.sys.Get(x), Record(h, box), newKey).value.plaintext)
    {
      OpensUnforged(w, seed, x, Record(h, box), newKey);
      var i := OpensOnlyHonest(w, ep, x, Record(h, box), newKey);
    }
  }

  /** The box anyone can seal who knows the tag. */
  function Forged(tag: Key, h: Header<Pub>): Box {
    Sealed(Msg(Nil), tag, h, Padding.Pad([]))
  }

  lemma NilReceives(r: State<Key, Pub>, h: Header<Pub>, newKey: Option<nat>)
    requires WellFormed(r) && HitsNil(r, h) && r.receiveCount == 0
    ensures Receive(SYM, r, h, newKey).Ok? && Receive(SYM, r, h, newKey).value.key == Msg(Nil)
  {
  }

  lemma ForgedOpens(s: Session<Key, Pub>, h: Header<Pub>, newKey: Option<nat>)
    requires WellFormed(s.ratchet) && HitsNil(s.ratchet, h) && s.ratchet.receiveCount == 0 && !s.closed &&
             h.version == V2
    ensures Decrypt(SYM, s, Record(h, Forged(s.tag, h)), newKey).Ok?
  {
    NilReceives(s.ratchet, h, newKey);
    hide Receive, HitsNil, Padding.Pad, Padding.Unpad;
    Padding.PadRoundTrip([]);
  }

  /** No box of the log is sealed under the nil chain's key. */
  lemma NeverSent(w: World, ep: seq<Epoch<Key>>, i: nat)
    requires WorldInv(w, ep) && i < |w.sys.log|
    ensures w.sys.log[i].record.box.Sealed? && w.sys.log[i].record.box.key != Msg(Nil)
  {
    var p := w.sys.log[i];
    assert PostedOk(SYM, w.sys.a.tag, ep, p);
    DepthOfEpoch(ep, p.epoch);
    ChainKeepsBase(ep[p.epoch].base, p.record.header.n);
    hide Inv;
  }

  lemma CountIsZero(w: World, ep: seq<Epoch<Key>>, x: Side)
    requires WorldInv(w, ep) && w.sys.Get(x).ratchet.receiveChain.None?
    ensures w.sys.Get(x).ratchet.receiveCount == 0
  {
    Disassemble(SYM, w.sys, ep, x);
    hide Inv, EpochsOk, StoreOk, LogOk;
  }

  lemma ForgedOnNil(w: World, ep: seq<Epoch<Key>>, seed: nat, x: Side, h: Header<Pub>, newKey: Option<nat>)
    requires Ready(w.sys) && WorldInv(w, ep) && HitsNil(w.sys.Get(x).ratchet, h) && !w.sys.Get(x).closed &&
             h.version == V2
    ensures !OnlyPeers(w, seed, x, h, newKey)
  {
    hide WorldInv, Decrypt, Padding.Pad;
    var s := w.sys.Get(x);
    var box := Forged(s.tag, h);
    CountIsZero(w, ep, x);
    ForgedOpens(s, h, newKey);
    assert !OffSeed(Nil, seed) && !OffSeed(Msg(Nil), seed);
    assert UnforgedOffSeed(w.sys, seed, Record(h, box));
    forall i | 0 <= i < |w.sys.log|
      ensures w.sys.log[i].record != Record(h, box)
    {
      NeverSent(w, ep, i);
    }
  }

  /** So it is from the start: the initiator, before it has heard anything, would accept what nobody sent. */
  lemma ForgedAtStart(seed: nat, tag: nat, n: u32)
    ensures var w := Init(seed, tag);
            var h := Header(V2, Gen(0), 0, n);
            && HitsNil(w.sys.a.ratchet, h) && w.sys.log == []
            && Decrypt(SYM, w.sys.a, Record(h, Forged(Tag(tag), h)), None).Ok?
  {
    var w := Init(seed, tag);
    var h := Header(V2, Gen(0), 0, n);
    assert HitsNil(w.sys.a.ratchet, h);
    ForgedOpens(w.sys.a, h, None);
    hide Decrypt, Receive;
  }
}
