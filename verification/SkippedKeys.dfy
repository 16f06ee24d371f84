/**
 * What the skipped-key store holds: after a record is received, exactly the newest of the keys passed over so far
 * (internal/e2ee/ratchet.go:267-321).
 */
module SkippedKeys {
  import opened Common
  import opened Ratchet
  import A = Agreement

  /** The entries of `count` positions of a chain, `chain` being the chain key at the first of them. */
  function Passing<K, P, C>(S: Suite<K, P, C>, pub: P, from: nat, chain: K, count: nat): (es: seq<Entry<K, P>>)
    requires from + count <= U32_MAX
    ensures |es| == count && forall i :: 0 <= i < count ==> es[i].id == SkippedKey(pub, from + i)
    decreases count
  {
    if count == 0 then []
    else
      [Entry(SkippedKey(pub, from), S.chainMsg(Some(chain)))] +
      Passing(S, pub, from + 1, S.chainNext(Some(chain)), count - 1)
  }

  /** `t` is the newest part of `s`, as much of it as the store holds. */
  predicate NewestOf<T(==)>(t: seq<T>, s: seq<T>) {
    |t| == (if |s| <= MAX_SKIP_STORE then |s| else MAX_SKIP_STORE) && t == s[|s| - |t|..]
  }

  /** None of the positions is stored yet. */
  predicate NoneStored<K, P(==)>(store: seq<Entry<K, P>>, pub: P, from: nat, to: nat) {
    forall i :: 0 <= i < |store| ==> !(store[i].id.pub == pub && from <= store[i].id.n < to)
  }

  lemma RememberNew<K, P>(store: seq<Entry<K, P>>, id: SkippedKey<P>, key: K)
    requires forall i :: 0 <= i < |store| ==> store[i].id != id
    ensures NewestOf(Remember(store, id, key), store + [Entry(id, key)])
  {
  }

  lemma NewestTwice<T>(t: seq<T>, s: seq<T>, more: seq<T>, u: seq<T>)
    requires NewestOf(t, s) && NewestOf(u, t + more)
    ensures NewestOf(u, s + more)
  {
    assert t + more == (s + more)[|s| - |t|..];
  }

  lemma NewestOfAll<T>(s: seq<T>)
    requires |s| <= MAX_SKIP_STORE
    ensures NewestOf(s, s)
  {
  }

  lemma NewestFits<T>(t: seq<T>, s: seq<T>)
    requires NewestOf(t, s)
    ensures |t| <= MAX_SKIP_STORE
  {
  }

  lemma SkipOneStores<K, P, C>(S: Suite<K, P, C>, r: State<K, P>, target: u32)
    requires WellFormed(r) && r.receiveChain.Some? && r.receiveCount < target
    requires NoneStored(r.store, r.receiveKey.value, r.receiveCount, target)
    ensures var next := SkipOne(S, r);
            var e := Entry(SkippedKey(r.receiveKey.value, r.receiveCount), S.chainMsg(r.receiveChain));
            && NewestOf(next.store, r.store + [e])
            && NoneStored(next.store, r.receiveKey.value, r.receiveCount + 1, target)
            && next == r.(receiveChain := Some(S.chainNext(r.receiveChain)), receiveCount := r.receiveCount + 1,
                          store := next.store)
  {
    RememberNew(r.store, SkippedKey(r.receiveKey.value, r.receiveCount), S.chainMsg(r.receiveChain));
    hide Remember;
  }

  /** Skipping ahead stores the key of every position it passes, newest last, and drops only the oldest. */
  lemma {:induction false} SkipLoopStores<K, P, C>(S: Suite<K, P, C>, r: State<K, P>, target: u32)
    requires WellFormed(r) && r.receiveChain.Some? && r.receiveCount <= target && |r.store| <= MAX_SKIP_STORE
    requires NoneStored(r.store, r.receiveKey.value, r.receiveCount, target)
    ensures var passed := Passing(S, r.receiveKey.value, r.receiveCount, r.receiveChain.value, target - r.receiveCount);
            && NewestOf(SkipLoop(S, r, target).store, r.store + passed)
            && var r' := SkipLoop(S, r, target);
               r' == r.(receiveChain := r'.receiveChain, receiveCount := target, store := r'.store)
    decreases target - r.receiveCount
  {
    hide SkipOne, NewestOf, NoneStored;
    if r.receiveCount < target {
      var pub, n, chain := r.receiveKey.value, r.receiveCount, r.receiveChain.value;
      var e := Entry(SkippedKey(pub, n), S.chainMsg(Some(chain)));
      SkipOneStores(S, r, target);
      var next := SkipOne(S, r);
      NewestFits(next.store, r.store + [e]);
      SkipLoopStores(S, next, target);
      var rest := Passing(S, pub, n + 1, S.chainNext(Some(chain)), target - n - 1);
      NewestTwice(next.store, r.store + [e], rest, SkipLoop(S, next, target).store);
      assert r.store + [e] + rest == r.store + ([e] + rest);
    } else {
      assert r.store + [] == r.store;
      NewestOfAll(r.store);
    }
  }

  // ---------------------------------------------------------------------------
  // One record.

  /** The keys passed over on the chain being received, on the way to position `to`. */
  function Skipping<K, P, C>(S: Suite<K, P, C>, r: State<K, P>, to: u32): (es: seq<Entry<K, P>>)
    requires WellFormed(r)
  {
    if r.receiveChain.None? || to < r.receiveCount then []
    else Passing(S, r.receiveKey.value, r.receiveCount, r.receiveChain.value, to - r.receiveCount)
  }

  predicate SkipsNew<K, P(==)>(r: State<K, P>, to: u32) {
    r.receiveKey.Some? ==> NoneStored(r.store, r.receiveKey.value, r.receiveCount, to)
  }

  /**
   * A skip that is not refused keeps every key stored before and adds the key of each position it passes, in order;
   * past the store's bound only the oldest go.
   */
  lemma SkipToStores<K, P, C>(S: Suite<K, P, C>, r: State<K, P>, target: u32)
    requires WellFormed(r) && |r.store| <= MAX_SKIP_STORE && SkipsNew(r, target)
    requires SkipTo(S, r, target).Ok?
    ensures var r' := SkipTo(S, r, target).value;
            && NewestOf(r'.store, r.store + Skipping(S, r, target))
            && r' == r.(receiveChain := r'.receiveChain, receiveCount := r'.receiveCount, store := r'.store)
            && (r.receiveChain.Some? && r.receiveCount <= target ==> r'.receiveCount == target)
            && (!(r.receiveChain.Some? && r.receiveCount <= target) ==> r' == r)
  {
    hide NewestOf, SkipLoop, Passing;
    if r.receiveChain.Some? && r.receiveCount <= target {
      SkipLoopStores(S, r, target);
    } else {
      assert r.store + [] == r.store;
      NewestOfAll(r.store);
    }
  }

  lemma {:induction false} ChainShift<K, P, C>(S: Suite<K, P, C>, chain: K, i: nat)
    ensures A.ChainAt(S, S.chainNext(Some(chain)), i) == A.ChainAt(S, chain, i + 1)
  {
    if i > 0 {
      ChainShift(S, chain, i - 1);
    }
  }

  lemma {:induction false} PassingAt<K, P, C>(S: Suite<K, P, C>, pub: P, from: nat, chain: K, count: nat, i: nat)
    requires from + count <= U32_MAX && i < count
    ensures Passing(S, pub, from, chain, count)[i] == Entry(SkippedKey(pub, from + i), A.MsgAt(S, chain, i))
    decreases count
  {
    if i > 0 {
      PassingAt(S, pub, from + 1, S.chainNext(Some(chain)), count - 1, i - 1);
      ChainShift(S, chain, i - 1);
    }
  }

  lemma FoundOnce<K, P>(store: seq<Entry<K, P>>, es: seq<Entry<K, P>>, store': seq<Entry<K, P>>, i: nat)
    requires NewestOf(store', store + es) && |es| <= MAX_SKIP_STORE && i < |es|
    requires forall k :: 0 <= k < |store| ==> store[k].id != es[i].id
    requires forall k :: 0 <= k < |es| && k != i ==> es[k].id != es[i].id
    ensures Stored(store', es[i].id) && store'[IndexOf(store', es[i].id)] == es[i]
  {
    assert store'[|store'| - |es| + i] == es[i];
    var k := IndexOf(store', es[i].id);
    assert store'[k] == (store + es)[|store + es| - |store'| + k];
  }

  /** After a skip every position it passed is stored, with the message key of that position of the chain. */
  lemma SkipStoresEach<K, P, C>(S: Suite<K, P, C>, r: State<K, P>, target: u32, n: u32)
    requires WellFormed(r) && |r.store| <= MAX_SKIP_STORE && SkipsNew(r, target)
    requires SkipTo(S, r, target).Ok? && r.receiveChain.Some? && r.receiveCount <= n < target
    ensures var store' := SkipTo(S, r, target).value.store;
            var id := SkippedKey(r.receiveKey.value, n);
            && Stored(store', id)
            && store'[IndexOf(store', id)].key == A.MsgAt(S, r.receiveChain.value, n - r.receiveCount)
  {
    hide NewestOf, SkipLoop, IndexOf;
    SkipToStores(S, r, target);
    var i := n - r.receiveCount;
    PassingAt(S, r.receiveKey.value, r.receiveCount, r.receiveChain.value, target - r.receiveCount, i);
    FoundOnce(r.store, Skipping(S, r, target), SkipTo(S, r, target).value.store, i);
  }

  /** The key the chain that a header opens starts from. */
  function NewChain<K, P, C>(S: Suite<K, P, C>, r: State<K, P>, h: Header<P>): Option<K> {
    match S.agree(r.sendKey, h.pub)
    case None => None
    case Some(shared) => Some(S.rootChain(r.rootKey, shared))
  }

  /** The keys a record passes over: those up to it in its chain, and what is left of the chain it leaves. */
  function SkippedBy<K, P(==), C>(S: Suite<K, P, C>, r: State<K, P>, h: Header<P>): (es: seq<Entry<K, P>>)
    requires WellFormed(r) && (r.receiveKey == Some(h.pub) || NewChain(S, r, h).Some?)
  {
    if r.receiveKey == Some(h.pub) then Skipping(S, r, h.n)
    else Skipping(S, r, h.pn) + Passing(S, h.pub, 0, NewChain(S, r, h).value, h.n)
  }

  /** None of the positions the record passes over is stored yet. */
  predicate PassesNew<K, P(==)>(r: State<K, P>, h: Header<P>) {
    if r.receiveKey == Some(h.pub) then SkipsNew(r, h.n)
    else SkipsNew(r, h.pn) && NoneStored(r.store, h.pub, 0, h.n)
  }

  lemma StillNone<K, P>(store: seq<Entry<K, P>>, es: seq<Entry<K, P>>, store': seq<Entry<K, P>>, pub: P, to: nat)
    requires NoneStored(store, pub, 0, to) && NewestOf(store', store + es)
    requires forall i :: 0 <= i < |es| ==> es[i].id.pub != pub
    ensures NoneStored(store', pub, 0, to)
  {
  }

  lemma SkippingOn<K, P, C>(S: Suite<K, P, C>, r: State<K, P>, to: u32)
    requires WellFormed(r)
    ensures forall i :: 0 <= i < |Skipping(S, r, to)| ==> Some(Skipping(S, r, to)[i].id.pub) == r.receiveKey
  {
  }

  lemma StepShape<K, P, C>(S: Suite<K, P, C>, r: State<K, P>, pub: P, newKey: Option<nat>)
    requires Step(S, r, pub, newKey).Ok?
    ensures var r' := Step(S, r, pub, newKey).value;
            && S.agree(r.sendKey, pub).Some? && r'.store == r.store && r'.receiveKey == Some(pub)
            && r'.receiveChain == Some(S.rootChain(r.rootKey, S.agree(r.sendKey, pub).value)) && r'.receiveCount == 0
  {
  }

  lemma AdvanceStores<K, P, C>(S: Suite<K, P, C>, r: State<K, P>, n: u32)
    requires WellFormed(r) && r.receiveKey.Some? && |r.store| <= MAX_SKIP_STORE && SkipsNew(r, n)
    requires Advance(S, r, n).Ok?
    ensures NewestOf(Advance(S, r, n).value.next.store, r.store + Skipping(S, r, n))
    ensures r.receiveChain.Some? ==> Advance(S, r, n).value.next.receiveCount == Inc32(n)
  {
    hide NewestOf, SkipTo, Skipping, SkipsNew;
    SkipToStores(S, r, n);
  }

  /**
   * The store after a record whose key was not stored: what it held, then the keys the record passes over, oldest
   * dropped first once the bound is reached.
   */
  lemma ReceiveStores<K, P, C>(S: Suite<K, P, C>, r: State<K, P>, h: Header<P>, newKey: Option<nat>)
    requires WellFormed(r) && |r.store| <= MAX_SKIP_STORE && PassesNew(r, h)
    requires !Stored(r.store, SkippedKey(h.pub, h.n)) && Receive(S, r, h, newKey).Ok?
    ensures r.receiveKey == Some(h.pub) || NewChain(S, r, h).Some?
    ensures var next := Receive(S, r, h, newKey).value.next;
            && NewestOf(next.store, r.store + SkippedBy(S, r, h))
            && ((r.receiveKey == Some(h.pub) ==> r.receiveChain.Some?) ==> next.receiveCount == Inc32(h.n))
  {
    hide NewestOf, NoneStored, SkipTo, Step, Advance, Passing;
    if r.receiveKey == Some(h.pub) {
      AdvanceStores(S, r, h.n);
    } else {
      SkipToStores(S, r, h.pn);
      var r1 := SkipTo(S, r, h.pn).value;
      StepShape(S, r1, h.pub, newKey);
      var r2 := Step(S, r1, h.pub, newKey).value;
      SkippingOn(S, r, h.pn);
      StillNone(r.store, Skipping(S, r, h.pn), r1.store, h.pub, h.n);
      NewestFits(r1.store, r.store + Skipping(S, r, h.pn));
      AdvanceStores(S, r2, h.n);
      var rest := Skipping(S, r2, h.n);
      NewestTwice(r1.store, r.store + Skipping(S, r, h.pn), rest, Receive(S, r, h, newKey).value.next.store);
      assert r.store + Skipping(S, r, h.pn) + rest == r.store + (Skipping(S, r, h.pn) + rest);
    }
  }

  /** No record passes over more keys than the store has room for, so each of them is stored. */
  lemma PassedIsStored<K, P, C>(S: Suite<K, P, C>, r: State<K, P>, h: Header<P>, newKey: Option<nat>)
    requires WellFormed(r) && |r.store| <= MAX_SKIP_STORE && PassesNew(r, h)
    requires !Stored(r.store, SkippedKey(h.pub, h.n)) && Receive(S, r, h, newKey).Ok?
    ensures r.receiveKey == Some(h.pub) || NewChain(S, r, h).Some?
    ensures var es := SkippedBy(S, r, h);
            var store' := Receive(S, r, h, newKey).value.next.store;
            |es| <= |store'| && es == store'[|store'| - |es|..]
  {
    ReceiveStores(S, r, h, newKey);
    SkippedFew(S, r, h, newKey);
    var store' := Receive(S, r, h, newKey).value.next.store;
    NewestEnd(store', r.store, SkippedBy(S, r, h));
  }

  lemma NewestEnd<T>(t: seq<T>, s: seq<T>, more: seq<T>)
    requires NewestOf(t, s + more) && |more| <= MAX_SKIP_STORE
    ensures |more| <= |t| && more == t[|t| - |more|..]
  {
  }

  lemma SkippedFew<K, P, C>(S: Suite<K, P, C>, r: State<K, P>, h: Header<P>, newKey: Option<nat>)
    requires WellFormed(r) && |r.store| <= MAX_SKIP_STORE && PassesNew(r, h)
    requires !Stored(r.store, SkippedKey(h.pub, h.n)) && Receive(S, r, h, newKey).Ok?
    ensures r.receiveKey == Some(h.pub) || NewChain(S, r, h).Some?
    ensures |SkippedBy(S, r, h)| <= 2 * MAX_SKIP
  {
    hide SkipLoop, NoneStored, NewestOf;
    if r.receiveKey != Some(h.pub) {
      SkipToStores(S, r, h.pn);
    }
  }
}
