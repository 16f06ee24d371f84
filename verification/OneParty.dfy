/**
 * One side of a session against an arbitrary peer: every record handed to `Decrypt` is
 * chosen freely, including its sealing key, and so is every generated key pair.
 *
 * Over every run no record is accepted twice, no two records are sent under one message
 * key, and no receiving chain ever yields a key this side sends under. The argument is
 * the depth of the root chain and its parity per role.
 */
module OneParty {
  import opened Common
  import opened Ratchet
  import opened Symbolic

  datatype Setup =
    | AsInitiator(seed: nat, tag: nat, name: nat, peer: Pub)
    | AsResponder(seed: nat, tag: nat, name: nat)

  datatype Op =
    | Send(plaintext: bytes)
    | Deliver(record: Record<Pub, Box>, newKey: Option<nat>)
    | Hangup

  /** A session with its history: message keys sent under, records accepted, and
      the message keys those records used up. */
  datatype Run = Run(session: Session<Key, Pub>, sentKeys: seq<Key>, accepted: seq<Record<Pub, Box>>,
      usedKeys: seq<Key>)

  /** The session `newSession` yields; none when the peer's ephemeral is a low-order point. */
  function Start(setup: Setup): Option<Run> {
    match setup
    case AsInitiator(seed, tag, name, peer) =>
      (match Initiator(SYM, Seed(seed), peer, name)
       case None => None
       case Some(r) => Some(Run(Open(r, Tag(tag)), [], [], [])))
    case AsResponder(seed, tag, name) => Some(Run(Open(Responder(Seed(seed), name), Tag(tag)), [], [], []))
  }

  function Do(run: Run, op: Op): (run': Run)
    requires WellFormed(run.session.ratchet)
    ensures WellFormed(run'.session.ratchet)
  {
    match op
    case Send(plaintext) =>
      (match Encrypt(SYM, run.session, plaintext)
       case Ok(sent) => run.(session := sent.next, sentKeys := run.sentKeys + [sent.key])
       case Err(_) => run)
    case Deliver(record, newKey) =>
      (match Decrypt(SYM, run.session, record, newKey)
       case Ok(got) => run.(session := got.next, accepted := run.accepted + [record],
           usedKeys := run.usedKeys + [got.key])
       case Err(_) => run)
    case Hangup => run.(session := Close(run.session))
  }

  function Execute(run: Run, ops: seq<Op>): (run': Run)
    requires WellFormed(run.session.ratchet)
    ensures WellFormed(run'.session.ratchet)
  {
    if ops == [] then run else Do(Execute(run, ops[..|ops| - 1]), ops[|ops| - 1])
  }

  // ---------------------------------------------------------------------------
  // The invariant.

  function ReceiveIndex(r: State<Key, Pub>): nat {
    if r.receiveChain.Some? then Index(r.receiveChain.value) else 0
  }

  /** k was taken from a receiving chain strictly before the current position. */
  predicate Past(r: State<Key, Pub>, k: Key) {
    var d := Depth(r.rootKey) - 2;
    && k.Msg?
    && OddBase(k) == OddRoot(r.rootKey)
    && (BaseDepth(k) < d || (BaseDepth(k) == d && Index(k) < ReceiveIndex(r)))
  }

  /** k was sent under strictly before the current position of the sending chain. */
  predicate Spent(r: State<Key, Pub>, k: Key) {
    var d := Depth(r.rootKey) - 1;
    && k.Msg?
    && OddBase(k) != OddRoot(r.rootKey)
    && (BaseDepth(k) < d || (BaseDepth(k) == d && Index(k) < r.sendCount))
  }

  predicate Distinct(ks: seq<Key>) {
    forall i, j :: 0 <= i < j < |ks| ==> ks[i] != ks[j]
  }

  /** No key occurs twice among the stored and the used ones. */
  predicate NoRepeat(store: seq<Entry<Key, Pub>>, used: seq<Key>) {
    && (forall i, j :: 0 <= i < j < |store| ==> store[i].key != store[j].key)
    && (forall i, j :: 0 <= i < |store| && 0 <= j < |used| ==> store[i].key != used[j])
    && Distinct(used)
  }

  predicate AllPast(r: State<Key, Pub>, used: seq<Key>) {
    && (forall i :: 0 <= i < |r.store| ==> Past(r, r.store[i].key))
    && (forall i :: 0 <= i < |used| ==> Past(r, used[i]))
  }

  predicate ReceiveChainInv(r: State<Key, Pub>) {
    && WellFormed(r)
    && (r.receiveChain.Some? ==>
          BaseDepth(r.receiveChain.value) == Depth(r.rootKey) - 2 &&
              OddBase(r.receiveChain.value) == OddRoot(r.rootKey))
    && (r.receiveChain.None? && r.receiveKey.Some? ==> Depth(r.rootKey) == 1 && OddRoot(r.rootKey))
  }

  predicate ReceiveInv(r: State<Key, Pub>, used: seq<Key>) {
    ReceiveChainInv(r) && AllPast(r, used) && NoRepeat(r.store, used)
  }

  predicate SendInv(r: State<Key, Pub>, sent: seq<Key>) {
    var d := Depth(r.rootKey) - 1;
    && (r.sendChain.Some? ==>
          && BaseDepth(r.sendChain.value) == d && OddBase(r.sendChain.value) != OddRoot(r.rootKey)
          && Index(r.sendChain.value) == r.sendCount)
    && (r.sendChain.None? ==> sent == [])
    && (forall i :: 0 <= i < |sent| ==> Spent(r, sent[i]))
    && Distinct(sent)
  }

  predicate Inv(setup: Setup, run: Run) {
    var r := run.session.ratchet;
    && OddRoot(r.rootKey) == setup.AsInitiator?
    && SendInv(r, run.sentKeys)
    && ReceiveInv(r, run.usedKeys)
    && |run.usedKeys| == |run.accepted|
    && (forall i :: 0 <= i < |run.accepted| ==>
       run.accepted[i].box.Sealed? && run.accepted[i].box.key == run.usedKeys[i])
    && run.session.sentSinceStep == r.sendCount
    && run.session.steps == r.steps
  }

  // ---------------------------------------------------------------------------
  // Preservation.

  /** A new key enters the store without repeating one. */
  lemma RememberKeeps(store: seq<Entry<Key, Pub>>, id: SkippedKey<Pub>, key: Key, used: seq<Key>)
    requires NoRepeat(store, used) && key !in used
    requires forall i :: 0 <= i < |store| ==> store[i].key != key
    ensures var store' := Remember(store, id, key);
            && NoRepeat(store', used)
            && (forall i :: 0 <= i < |store'| ==> store'[i] == Entry(id, key) || store'[i] in store)
  {
    var grown := Insert(store, id, key);
    assert NoRepeat(grown, used);
    assert forall i :: 0 <= i < |grown| ==> grown[i] == Entry(id, key) || grown[i] in store;
  }

  /** The chain moves one place on and its old position becomes past. */
  lemma ChainMoves(r: State<Key, Pub>, r': State<Key, Pub>, used: seq<Key>)
    requires ReceiveInv(r, used) && r.receiveChain.Some? && NoRepeat(r'.store, used)
    requires r'.rootKey == r.rootKey && r'.receiveKey == r.receiveKey &&
             r'.receiveChain == Some(Follow(r.receiveChain.value))
    requires forall i :: 0 <= i < |r'.store| ==> r'.store[i].key == Msg(r.receiveChain.value) || r'.store[i] in r.store
    ensures ReceiveInv(r', used)
  {
  }

  lemma SkipOneKeeps(r: State<Key, Pub>, used: seq<Key>)
    requires ReceiveInv(r, used) && r.receiveChain.Some?
    ensures ReceiveInv(SkipOne(SYM, r), used)
  {
    var key := Msg(r.receiveChain.value);
    assert !Past(r, key);
    RememberKeeps(r.store, SkippedKey(r.receiveKey.value, r.receiveCount), key, used);
    ChainMoves(r, SkipOne(SYM, r), used);
  }

  lemma {:induction false} SkipLoopKeeps(r: State<Key, Pub>, target: u32, used: seq<Key>)
    requires ReceiveInv(r, used) && r.receiveChain.Some?
    ensures ReceiveInv(SkipLoop(SYM, r, target), used)
    ensures var r' := SkipLoop(SYM, r, target);
            r' == r.(store := r'.store, receiveChain := r'.receiveChain, receiveCount := r'.receiveCount)
    decreases target - r.receiveCount
  {
    if r.receiveCount < target {
      SkipOneKeeps(r, used);
      SkipLoopKeeps(SkipOne(SYM, r), target, used);
    }
  }

  lemma SkipToKeeps(r: State<Key, Pub>, target: u32, used: seq<Key>)
    requires ReceiveInv(r, used)
    requires SkipTo(SYM, r, target).Ok?
    ensures var r' := SkipTo(SYM, r, target).value;
            && ReceiveInv(r', used)
            && r' == r.(store := r'.store, receiveChain := r'.receiveChain, receiveCount := r'.receiveCount)
  {
    if r.receiveChain.Some? && target >= r.receiveCount {
      SkipLoopKeeps(r, target, used);
    }
  }

  lemma AdvanceKeeps(r: State<Key, Pub>, n: u32, used: seq<Key>)
    requires ReceiveInv(r, used) && r.receiveKey.Some?
    requires Advance(SYM, r, n).Ok?
    ensures var m := Advance(SYM, r, n).value;
            && ReceiveInv(m.next, used + [m.key]) && m.from.None?
            && m.next == r.(store := m.next.store, receiveChain := m.next.receiveChain,
               receiveCount := m.next.receiveCount)
  {
    SkipToKeeps(r, n, used);
    var r1 := SkipTo(SYM, r, n).value;
    var m := Advance(SYM, r, n).value;
    assert !Past(r1, m.key);
  }

  /** A DH step moves both chains to deeper roots, which leaves every earlier key behind. */
  lemma TurnKeeps(r: State<Key, Pub>, h: Header<Pub>, newKey: Option<nat>, sent: seq<Key>, used: seq<Key>)
    requires ReceiveInv(r, used) && SendInv(r, sent)
    requires TurnTo(SYM, r, h, newKey).Ok?
    ensures var r' := TurnTo(SYM, r, h, newKey).value;
            && ReceiveInv(r', used) && SendInv(r', sent) && r'.receiveKey == Some(h.pub)
            && (r' == r || (r'.steps == r.steps + 1 && r'.sendCount == 0 && OddRoot(r'.rootKey) == OddRoot(r.rootKey)))
  {
    if r.receiveKey != Some(h.pub) {
      SkipToKeeps(r, h.pn, used);
    }
  }

  lemma SendInvFrame(r: State<Key, Pub>, r': State<Key, Pub>, sent: seq<Key>)
    requires SendInv(r, sent)
    requires r'.rootKey == r.rootKey && r'.sendChain == r.sendChain && r'.sendCount == r.sendCount
    ensures SendInv(r', sent)
  {
  }

  /** A key moved from the store to the used ones repeats none. */
  lemma MovedOut(store: seq<Entry<Key, Pub>>, used: seq<Key>, i: nat)
    requires NoRepeat(store, used) && i < |store|
    ensures NoRepeat(store[..i] + store[i + 1..], used + [store[i].key])
  {
    var rest, used' := store[..i] + store[i + 1..], used + [store[i].key];
    forall a | 0 <= a < |rest|
      ensures rest[a] == store[if a < i then a else a + 1]
    {
    }
    forall j, k | 0 <= j < k < |used'|
      ensures used'[j] != used'[k]
    {
      assert j < |used| && used'[j] == used[j];
    }
    forall a, j | 0 <= a < |rest| && 0 <= j < |used'|
      ensures rest[a].key != used'[j]
    {
      assert j < |used| ==> used'[j] == used[j];
    }
  }

  lemma PastStays(r: State<Key, Pub>, r': State<Key, Pub>, used: seq<Key>, i: nat)
    requires AllPast(r, used) && i < |r.store| && r' == r.(store := r.store[..i] + r.store[i + 1..])
    ensures AllPast(r', used + [r.store[i].key])
  {
    hide Depth, BaseDepth, OddBase, OddRoot, Index;
    forall a | 0 <= a < |r'.store|
      ensures Past(r', r'.store[a].key)
    {
      assert r'.store[a] == r.store[if a < i then a else a + 1];
    }
  }

  lemma FoundKeeps(r: State<Key, Pub>, id: SkippedKey<Pub>, used: seq<Key>)
    requires ReceiveInv(r, used) && Stored(r.store, id)
    ensures ReceiveInv(r.(store := Forget(r.store, id)), used + [r.store[IndexOf(r.store, id)].key])
  {
    hide NoRepeat, AllPast, Depth, BaseDepth, OddBase, OddRoot;
    var i := IndexOf(r.store, id);
    MovedOut(r.store, used, i);
    PastStays(r, r.(store := Forget(r.store, id)), used, i);
  }

  lemma ReceiveKeeps(r: State<Key, Pub>, h: Header<Pub>, newKey: Option<nat>, sent: seq<Key>, used: seq<Key>)
    requires ReceiveInv(r, used) && SendInv(r, sent)
    requires Receive(SYM, r, h, newKey).Ok?
    ensures var m := Receive(SYM, r, h, newKey).value;
            var r' := Settle(m);
            && ReceiveInv(r', used + [m.key]) && SendInv(r', sent)
            && OddRoot(r'.rootKey) == OddRoot(r.rootKey)
            && r'.sendCount == (if r'.steps == r.steps then r.sendCount else 0)
  {
    var id := SkippedKey(h.pub, h.n);
    if Stored(r.store, id) {
      FoundKeeps(r, id, used);
    } else {
      TurnKeeps(r, h, newKey, sent, used);
      var r1 := TurnTo(SYM, r, h, newKey).value;
      AdvanceKeeps(r1, h.n, used);
      SendInvFrame(r1, Advance(SYM, r1, h.n).value.next, sent);
    }
  }

  lemma DecryptKeeps(setup: Setup, run: Run, record: Record<Pub, Box>, newKey: Option<nat>)
    requires Inv(setup, run)
    ensures Inv(setup, Do(run, Deliver(record, newKey)))
  {
    if Decrypt(SYM, run.session, record, newKey).Ok? {
      ReceiveKeeps(run.session.ratchet, record.header, newKey, run.sentKeys, run.usedKeys);
    }
  }

  lemma EncryptKeeps(setup: Setup, run: Run, plaintext: bytes)
    requires Inv(setup, run)
    ensures Inv(setup, Do(run, Send(plaintext)))
  {
  }

  lemma {:induction false} RunKeeps(setup: Setup, ops: seq<Op>)
    requires Start(setup).Some?
    ensures Inv(setup, Execute(Start(setup).value, ops))
  {
    if ops != [] {
      var init := ops[..|ops| - 1];
      RunKeeps(setup, init);
      var run := Execute(Start(setup).value, init);
      match ops[|ops| - 1] {
        case Send(plaintext) => EncryptKeeps(setup, run, plaintext);
        case Deliver(record, newKey) => DecryptKeeps(setup, run, record, newKey);
        case Hangup =>
      }
    }
  }

  // ---------------------------------------------------------------------------
  // Consequences over every run.

  /** No record is accepted twice, whatever records are delivered. */
  lemma AtMostOnce(setup: Setup, ops: seq<Op>)
    requires Start(setup).Some?
    ensures var accepted := Execute(Start(setup).value, ops).accepted;
            forall i, j :: 0 <= i < j < |accepted| ==> accepted[i] != accepted[j]
  {
    RunKeeps(setup, ops);
  }

  /** A record already accepted is refused from then on, in every later state. */
  lemma ReplayRefused(setup: Setup, ops: seq<Op>, record: Record<Pub, Box>, newKey: Option<nat>)
    requires Start(setup).Some?
    requires record in Execute(Start(setup).value, ops).accepted
    ensures Decrypt(SYM, Execute(Start(setup).value, ops).session, record, newKey).Err?
  {
    RunKeeps(setup, ops);
    UsedIsRefused(setup, Execute(Start(setup).value, ops), record, newKey);
  }

  lemma UsedIsRefused(setup: Setup, run: Run, record: Record<Pub, Box>, newKey: Option<nat>)
    requires Inv(setup, run) && WellFormed(run.session.ratchet) && record in run.accepted
    ensures Decrypt(SYM, run.session, record, newKey).Err?
  {
    hide Receive, SendInv, Settle;
    var r := run.session.ratchet;
    assert record.box.Sealed? && record.box.key in run.usedKeys;
    if Receive(SYM, r, record.header, newKey).Ok? {
      ReceiveKeeps(r, record.header, newKey, run.sentKeys, run.usedKeys);
      LastIsNew(run.usedKeys, Receive(SYM, r, record.header, newKey).value.key);
    }
  }

  lemma LastIsNew(ks: seq<Key>, k: Key)
    requires Distinct(ks + [k])
    ensures k !in ks
  {
    assert forall i :: 0 <= i < |ks| ==> (ks + [k])[i] == ks[i] && (ks + [k])[i] != (ks + [k])[|ks|];
  }

  /** No two records are sent under one message key. */
  lemma SendKeysUnique(setup: Setup, ops: seq<Op>)
    requires Start(setup).Some?
    ensures var sent := Execute(Start(setup).value, ops).sentKeys;
            forall i, j :: 0 <= i < j < |sent| ==> sent[i] != sent[j]
  {
    RunKeeps(setup, ops);
  }

  /** The two roles of one session never send under the same message key, even when
      neither side's incoming records are honest. */
  lemma RolesSendApart(initiator: Setup, ops: seq<Op>, responder: Setup, ops': seq<Op>)
    requires initiator.AsInitiator? && Start(initiator).Some?
    requires responder.AsResponder?
    ensures var sent := Execute(Start(initiator).value, ops).sentKeys;
            var sent' := Execute(Start(responder).value, ops').sentKeys;
            forall k :: k in sent ==> k !in sent'
  {
    RunKeeps(initiator, ops);
    RunKeeps(responder, ops');
  }

  /** No key this side can take from a receiving chain, now or after any header, is one it
      has ever sent under. */
  lemma ReceivesNoSendKey(setup: Setup, ops: seq<Op>, h: Header<Pub>, newKey: Option<nat>)
    requires Start(setup).Some?
    ensures var run := Execute(Start(setup).value, ops);
            && (forall i :: 0 <= i < |run.session.ratchet.store| ==> run.session.ratchet.store[i].key !in run.sentKeys)
            && (Receive(SYM, run.session.ratchet, h, newKey).Ok? ==>
                  Receive(SYM, run.session.ratchet, h, newKey).value.key !in run.sentKeys)
  {
    RunKeeps(setup, ops);
    var run := Execute(Start(setup).value, ops);
    var r := run.session.ratchet;
    if Receive(SYM, r, h, newKey).Ok? {
      ReceiveKeeps(r, h, newKey, run.sentKeys, run.usedKeys);
      var m := Receive(SYM, r, h, newKey).value;
      assert Past(Settle(m), (run.usedKeys + [m.key])[|run.usedKeys|]);
    }
  }

  lemma {:induction false} ClosedByHangup(setup: Setup, ops: seq<Op>)
    requires Start(setup).Some?
    ensures Execute(Start(setup).value, ops).session.closed <==> Hangup in ops
  {
    if ops != [] {
      var init := ops[..|ops| - 1];
      ClosedByHangup(setup, init);
      assert ops == init + [ops[|ops| - 1]];
      hide Next, Receive, Settle;
    }
  }

  /** Once hung up, a session is closed for good: it neither sends nor accepts, and asks for no new key. */
  lemma ClosedForGood(setup: Setup, ops: seq<Op>, plaintext: bytes, record: Record<Pub, Box>, newKey: Option<nat>)
    requires Start(setup).Some? && Hangup in ops
    ensures var s := Execute(Start(setup).value, ops).session;
            && Encrypt(SYM, s, plaintext) == Err(SessionClosed)
            && Decrypt(SYM, s, record, newKey) == Err(SessionClosed)
            && forall elapsed :: !NeedsRekey(s, elapsed)
  {
    ClosedByHangup(setup, ops);
  }

  /**
   * Over every run: a session asks for a new key if and only if it was not hung up and the interval has elapsed or
   * its current sending chain has carried 64 records.
   */
  lemma RekeyCountsCurrentChain(setup: Setup, ops: seq<Op>, elapsed: bool)
    requires Start(setup).Some?
    ensures var s := Execute(Start(setup).value, ops).session;
            NeedsRekey(s, elapsed) <==> Hangup !in ops && (elapsed || s.ratchet.sendCount >= 64)
  {
    RunKeeps(setup, ops);
    ClosedByHangup(setup, ops);
  }
}
