/**
 * Two honest sides over a network that drops, reorders, duplicates, reflects and injects.
 *
 * An injected record may carry any header and any box, except that nobody but the two
 * sides can seal under the session tag. Over every run, what `Decrypt` returns is what
 * the peer encrypted, and a record of the peer decrypts exactly when its key can be reached.
 */
module TwoParty {
  import opened Common
  import opened Ratchet
  import opened Symbolic
  import opened Agreement
  import Padding

  datatype World = World(sys: System<Key, Pub, Box>, next: nat)

  datatype Act =
    | Says(x: Side, plaintext: bytes)
    | Arrives(x: Side, record: Record<Pub, Box>, random: bool)
    | Closes(x: Side)

  function Init(seed: nat, tag: nat): (w: World)
    ensures Ready(w.sys)
  {
    World(NewPair(SYM, Seed(seed), Tag(tag), 0, 1), 2)
  }

  /** Every arrival draws a key pair never seen before; `random` is whether the source works. */
  function ToEvent(w: World, act: Act): Event<Pub, Box> {
    match act
    case Says(x, plaintext) => Post(x, plaintext)
    case Arrives(x, record, random) => Deliver(x, record, if random then Some(w.next) else None)
    case Closes(x) => Hangup(x)
  }

  function Do(w: World, act: Act): (w': World)
    requires Ready(w.sys)
    ensures Ready(w'.sys)
  {
    World(Apply(SYM, w.sys, ToEvent(w, act)), w.next + 1)
  }

  /** A box under this session's tag was made by one of the two sides. */
  predicate Unforged(sys: System<Key, Pub, Box>, record: Record<Pub, Box>) {
    record.box.Sealed? && record.box.tag == sys.a.tag ==>
      exists i :: 0 <= i < |sys.log| && sys.log[i].record.box == record.box
  }

  predicate Possible(w: World, act: Act) {
    act.Arrives? ==> Unforged(w.sys, act.record)
  }

  function Execute(w: World, acts: seq<Act>): (w': World)
    requires Ready(w.sys)
    ensures Ready(w'.sys)
  {
    if acts == [] then w else Do(Execute(w, acts[..|acts| - 1]), acts[|acts| - 1])
  }

  predicate PossibleRun(w: World, acts: seq<Act>)
    requires Ready(w.sys)
  {
    acts == [] ||
    (PossibleRun(w, acts[..|acts| - 1]) && Possible(Execute(w, acts[..|acts| - 1]), acts[|acts| - 1]))
  }

  // ---------------------------------------------------------------------------
  // Depth tells epochs apart.

  lemma {:induction false} ChainKeepsBase(base: Key, n: nat)
    ensures BaseDepth(ChainAt(SYM, base, n)) == BaseDepth(base)
  {
    if n > 0 {
      ChainKeepsBase(base, n - 1);
    }
  }

  lemma {:induction false} DepthOfEpoch(ep: seq<Epoch<Key>>, e: nat)
    requires EpochsOk(SYM, ep) && e < |ep| && Depth(ep[0].root) == 0
    ensures Depth(ep[e].root) == e
    ensures e >= 1 ==> BaseDepth(ep[e].base) == e - 1
  {
    if e > 0 {
      DepthOfEpoch(ep, e - 1);
      assert Linked(SYM, ep[e - 1], ep[e]);
    }
  }

  lemma {:induction false} SkipLoopBase(r: State<Key, Pub>, target: u32)
    requires WellFormed(r) && r.receiveChain.Some?
    ensures var r' := SkipLoop(SYM, r, target);
            BaseDepth(r'.receiveChain.value) == BaseDepth(r.receiveChain.value) && r'.rootKey == r.rootKey
    decreases target - r.receiveCount
  {
    if r.receiveCount < target {
      SkipLoopBase(SkipOne(SYM, r), target);
    }
  }

  /** The key of a trial step hangs off the receiver's current root. */
  lemma TrialKeyDepth(r: State<Key, Pub>, h: Header<Pub>, newKey: Option<nat>)
    requires WellFormed(r) && r.receiveKey != Some(h.pub)
    requires TurnTo(SYM, r, h, newKey).Ok? && Advance(SYM, TurnTo(SYM, r, h, newKey).value, h.n).Ok?
    ensures BaseDepth(Advance(SYM, TurnTo(SYM, r, h, newKey).value, h.n).value.key) == Depth(r.rootKey)
  {
    if r.receiveChain.Some? && h.pn >= r.receiveCount {
      SkipLoopBase(r, h.pn);
    }
    var r1 := TurnTo(SYM, r, h, newKey).value;
    if h.n >= r1.receiveCount {
      SkipLoopBase(r1, h.n);
    }
  }

  lemma InCurrentChain(ep: seq<Epoch<Key>>, s: nat, r: State<Key, Pub>, e: nat)
    requires EpochsOk(SYM, ep) && SideOk(SYM, ep, s, r) && 1 <= e < |ep|
    requires r.receiveKey == Some(SYM.public(ep[e].name))
    ensures e + 1 == s && r.receiveChain.Some?
  {
  }

  lemma InNextChain(ep: seq<Epoch<Key>>, s: nat, r: State<Key, Pub>, h: Header<Pub>, newKey: Option<nat>)
    requires EpochsOk(SYM, ep) && SideOk(SYM, ep, s, r) && WellFormed(r) && s + 1 < |ep|
    requires h.pn == PrevCount(ep, s + 1) && r.receiveKey != Some(h.pub)
    requires TurnTo(SYM, r, h, newKey).Ok? && Advance(SYM, TurnTo(SYM, r, h, newKey).value, h.n).Ok?
    ensures h.pn - r.receiveCount <= MAX_SKIP && h.n <= MAX_SKIP
  {
    hide SkipLoop, StoreOk;
  }

  /** If the key derived for a header is the one its record was sealed under, the record is
      the peer's and was reachable. */
  lemma RightKeyOnlyIfReachable(
    ep: seq<Epoch<Key>>, s: nat, r: State<Key, Pub>, p: Posted<Pub, Box>, newKey: Option<nat>, tag: Key)
    requires EpochsOk(SYM, ep) && SideOk(SYM, ep, s, r) && WellFormed(r) && Depth(ep[0].root) == 0
    requires PostedOk(SYM, tag, ep, p)
    requires Receive(SYM, r, p.record.header, newKey).Ok?
    requires Receive(SYM, r, p.record.header, newKey).value.key == MsgAt(SYM, ep[p.epoch].base, p.record.header.n)
    ensures Reachable(SYM, ep, s, r, p) && p.epoch % 2 != s % 2
  {
    hide SkipLoop, Step, EpochsOk, ReceiveOk;
    var h := p.record.header;
    if Stored(r.store, SkippedKey(h.pub, h.n)) {
      StoredIsRight(SYM, ep, s, r, p.epoch, h.n);
    } else if r.receiveKey == Some(h.pub) {
      InCurrentChain(ep, s, r, p.epoch);
    } else {
      TrialKeyDepth(r, h, newKey);
      ChainKeepsBase(ep[p.epoch].base, h.n);
      DepthOfEpoch(ep, p.epoch);
      DepthOfEpoch(ep, s);
      InNextChain(ep, s, r, h, newKey);
    }
  }

  // ---------------------------------------------------------------------------
  // The invariant over runs.

  predicate WorldInv(w: World, ep: seq<Epoch<Key>>) {
    && Inv(SYM, w.sys, ep) && 0 < |ep| && Depth(ep[0].root) == 0
    && (forall e :: 0 <= e < |ep| ==> ep[e].name < w.next)
  }

  lemma SymbolicLaws()
    ensures Agrees(SYM) && Opens(SYM)
  {
  }

  lemma FreshIsUnknown(w: World, ep: seq<Epoch<Key>>)
    requires WorldInv(w, ep)
    ensures !Known(SYM, ep, SYM.public(w.next))
  {
    hide Inv;
  }

  lemma OpenedBox(s: Session<Key, Pub>, record: Record<Pub, Box>, newKey: Option<nat>)
    requires WellFormed(s.ratchet) && Decrypt(SYM, s, record, newKey).Ok?
    ensures Receive(SYM, s.ratchet, record.header, newKey).Ok? && record.box.Sealed?
    ensures var key := Receive(SYM, s.ratchet, record.header, newKey).value.key;
            && record.box == Sealed(key, s.tag, record.header, record.box.padded)
            && Padding.Unpad(record.box.padded) == Some(Decrypt(SYM, s, record, newKey).value.plaintext)
  {
    hide Receive;
  }

  /** Whatever opens was sent by the peer, under that header, with that plaintext. */
  lemma OpensOnlyHonest(
    w: World, ep: seq<Epoch<Key>>, x: Side, record: Record<Pub, Box>, newKey: Option<nat>) returns (i: nat)
    requires Ready(w.sys) && WorldInv(w, ep) && Unforged(w.sys, record)
    requires Decrypt(SYM, w.sys.Get(x), record, newKey).Ok?
    ensures i < |w.sys.log| && w.sys.log[i].record == record && w.sys.log[i].sender == Peer(x)
    ensures Decrypt(SYM, w.sys.Get(x), record, newKey).value.plaintext == w.sys.log[i].plaintext
    ensures Reachable(SYM, ep, w.sys.Turn(x), w.sys.Get(x).ratchet, w.sys.log[i])
  {
    hide SideOk, EpochsOk, Receive, Inv, Reachable, Decrypt, Padding.Pad, Padding.Unpad;
    var sys := w.sys;
    Disassemble(SYM, sys, ep, x);
    OpenedBox(sys.Get(x), record, newKey);
    var k :| 0 <= k < |sys.log| && sys.log[k].record.box == record.box;
    i := k;
    var p := sys.log[i];
    assert PostedOk(SYM, sys.a.tag, ep, p);
    RightKeyOnlyIfReachable(ep, sys.Turn(x), sys.Get(x).ratchet, p, newKey, sys.a.tag);
    Padding.PadRoundTrip(p.plaintext);
  }

  /** A failed random source matters only where a step is needed. */
  lemma RandomUnused(r: State<Key, Pub>, h: Header<Pub>, name: nat)
    requires WellFormed(r) && Receive(SYM, r, h, None).Ok?
    ensures Receive(SYM, r, h, Some(name)) == Receive(SYM, r, h, None)
  {
    hide SkipLoop;
  }

  lemma ArrivesKeeps(
    w: World, ep: seq<Epoch<Key>>, x: Side, record: Record<Pub, Box>, random: bool) returns (ep': seq<Epoch<Key>>)
    requires Ready(w.sys) && WorldInv(w, ep) && Unforged(w.sys, record)
    ensures WorldInv(Do(w, Arrives(x, record, random)), ep')
    ensures ep <= ep'
  {
    hide Inv, Decrypt, Unforged, Reachable;
    var newKey := if random then Some(w.next) else None;
    ep' := ep;
    if Decrypt(SYM, w.sys.Get(x), record, newKey).Ok? {
      var i := OpensOnlyHonest(w, ep, x, record, newKey);
      SymbolicLaws();
      FreshIsUnknown(w, ep);
      NotClosed(w.sys.Get(x), record, newKey, w.next);
      ep' := DeliverKeeps(SYM, w.sys, ep, x, w.sys.log[i], w.next);
    }
  }

  lemma NotClosed(s: Session<Key, Pub>, record: Record<Pub, Box>, newKey: Option<nat>, name: nat)
    requires WellFormed(s.ratchet) && (newKey.Some? ==> newKey.value == name)
    requires Decrypt(SYM, s, record, newKey).Ok?
    ensures !s.closed
    ensures Decrypt(SYM, s, record, newKey) == Decrypt(SYM, s, record, Some(name))
  {
    hide Receive;
    if newKey.None? {
      RandomUnused(s.ratchet, record.header, name);
    }
  }

  lemma StartHolds(seed: nat, tag: nat) returns (ep: seq<Epoch<Key>>)
    ensures WorldInv(Init(seed, tag), ep)
  {
    ep := PairHolds(SYM, Seed(seed), Tag(tag), 0, 1);
  }

  lemma ClosesKeeps(w: World, ep: seq<Epoch<Key>>, x: Side)
    requires Ready(w.sys) && WorldInv(w, ep)
    ensures WorldInv(Do(w, Closes(x)), ep)
  {
    hide Inv, SideOk, LogOk, EpochsOk;
    Disassemble(SYM, w.sys, ep, x);
    Assemble(SYM, Apply(SYM, w.sys, Hangup(x)), ep, x);
  }

  lemma SaysKeeps(w: World, ep: seq<Epoch<Key>>, x: Side, plaintext: bytes) returns (ep': seq<Epoch<Key>>)
    requires Ready(w.sys) && WorldInv(w, ep)
    ensures WorldInv(Do(w, Says(x, plaintext)), ep')
    ensures Continues(ep, ep') && |ep'| == |ep|
    ensures forall e :: 0 <= e < |ep| && e != w.sys.Turn(x) ==> ep'[e] == ep[e]
  {
    hide Inv, Apply;
    ep' := PostKeeps(SYM, w.sys, ep, x, plaintext);
  }

  lemma {:induction false} RunKeeps(seed: nat, tag: nat, acts: seq<Act>) returns (ep: seq<Epoch<Key>>)
    requires PossibleRun(Init(seed, tag), acts)
    ensures WorldInv(Execute(Init(seed, tag), acts), ep)
  {
    hide WorldInv, Do, Unforged, Init;
    if acts == [] {
      ep := StartHolds(seed, tag);
    } else {
      var before := RunKeeps(seed, tag, acts[..|acts| - 1]);
      var w := Execute(Init(seed, tag), acts[..|acts| - 1]);
      match acts[|acts| - 1] {
        case Says(x, plaintext) => ep := SaysKeeps(w, before, x, plaintext);
        case Arrives(x, record, random) => ep := ArrivesKeeps(w, before, x, record, random);
        case Closes(x) => ep := before; ClosesKeeps(w, before, x);
      }
    }
  }

  // ---------------------------------------------------------------------------
  // The two theorems.

  /** Agreement: after any run, whatever record arrives, a plaintext `Decrypt` returns is one
      the peer encrypted in exactly that record. */
  lemma OnlyPeerPlaintexts(seed: nat, tag: nat, acts: seq<Act>, x: Side, record: Record<Pub, Box>, newKey: Option<nat>)
    requires PossibleRun(Init(seed, tag), acts)
    requires Unforged(Execute(Init(seed, tag), acts).sys, record)
    ensures var sys := Execute(Init(seed, tag), acts).sys;
            match Decrypt(SYM, sys.Get(x), record, newKey)
            case Err(_) => true
            case Ok(got) =>
              exists i :: 0 <= i < |sys.log| && sys.log[i].sender == Peer(x) && sys.log[i].record == record
                          && sys.log[i].plaintext == got.plaintext
  {
    var ep := RunKeeps(seed, tag, acts);
    var w := Execute(Init(seed, tag), acts);
    if Decrypt(SYM, w.sys.Get(x), record, newKey).Ok? {
      var i := OpensOnlyHonest(w, ep, x, record, newKey);
    }
  }

  /** Delivery: after any run, a record the peer sent decrypts, to its own plaintext, exactly
      when the session is open and the record is within reach. */
  lemma DecryptsExactlyWithinReach(seed: nat, tag: nat, acts: seq<Act>, x: Side, i: nat)
    requires PossibleRun(Init(seed, tag), acts)
    requires var log := Execute(Init(seed, tag), acts).sys.log;
             i < |log| && log[i].sender == Peer(x)
    ensures var w := Execute(Init(seed, tag), acts);
            var p := w.sys.log[i];
            var res := Decrypt(SYM, w.sys.Get(x), p.record, Some(w.next));
            && (res.Ok? <==> !w.sys.Get(x).closed && WithinReach(SYM, w.sys, x, p.record.header))
            && (res.Ok? ==> res.value.plaintext == p.plaintext)
  {
    var ep := RunKeeps(seed, tag, acts);
    var w := Execute(Init(seed, tag), acts);
    ReachBothWays(w, ep, x, i);
  }

  lemma ReachBothWays(w: World, ep: seq<Epoch<Key>>, x: Side, i: nat)
    requires Ready(w.sys) && WorldInv(w, ep) && i < |w.sys.log| && w.sys.log[i].sender == Peer(x)
    ensures var p := w.sys.log[i];
            var res := Decrypt(SYM, w.sys.Get(x), p.record, Some(w.next));
            && (res.Ok? <==> !w.sys.Get(x).closed && WithinReach(SYM, w.sys, x, p.record.header))
            && (res.Ok? ==> res.value.plaintext == p.plaintext)
  {
    hide Inv, Reachable, WithinReach, Decrypt;
    var p := w.sys.log[i];
    SymbolicLaws();
    FreshIsUnknown(w, ep);
    ReachAgrees(SYM, ep, w.sys, x, p);
    if !w.sys.Get(x).closed && WithinReach(SYM, w.sys, x, p.record.header) {
      var _ := DeliverKeeps(SYM, w.sys, ep, x, p, w.next);
    }
    if Decrypt(SYM, w.sys.Get(x), p.record, Some(w.next)).Ok? {
      NotClosed(w.sys.Get(x), p.record, Some(w.next), w.next);
      SentIsReachable(w, ep, x, i);
    }
  }

  /** A record of the log that opens is reachable as itself. */
  lemma SentIsReachable(w: World, ep: seq<Epoch<Key>>, x: Side, i: nat)
    requires Ready(w.sys) && WorldInv(w, ep) && i < |w.sys.log|
    requires Decrypt(SYM, w.sys.Get(x), w.sys.log[i].record, Some(w.next)).Ok?
    ensures Reachable(SYM, ep, w.sys.Turn(x), w.sys.Get(x).ratchet, w.sys.log[i])
  {
    hide SideOk, EpochsOk, Receive, Inv, Reachable;
    Disassemble(SYM, w.sys, ep, x);
    var p := w.sys.log[i];
    assert PostedOk(SYM, w.sys.a.tag, ep, p);
    RightKeyOnlyIfReachable(ep, w.sys.Turn(x), w.sys.Get(x).ratchet, p, Some(w.next), w.sys.a.tag);
  }
}
