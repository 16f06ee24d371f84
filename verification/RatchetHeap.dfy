/**
 * The ratchet as the program holds it: keys in byte buffers that are overwritten in
 * place, a skipped-key map beside an order list, and a clone that is advanced on trial.
 *
 * Every method is proved equal to its counterpart in module Ratchet on the abstract
 * value, and every method's frame says which buffers it may overwrite.
 */
module RatchetHeap {
  import opened Common
  import R = Ratchet

  type Suite = R.Suite<bytes, bytes, bytes>
  type Id = R.SkippedKey<bytes>
  type Entry = R.Entry<bytes, bytes>

  ghost predicate Zeroed(b: array?<byte>)
    reads if b == null then {} else {b}
  {
    b != null ==> forall i :: 0 <= i < b.Length ==> b[i] == 0
  }

  ghost predicate AllZeroed(bs: set<array<byte>>)
    reads bs
  {
    forall b :: b in bs ==> Zeroed(b)
  }

  /** Overwrites a buffer with zeros. */
  method Wipe(b: array<byte>)
    modifies b
    ensures Zeroed(b)
  {
    for i := 0 to b.Length
      invariant forall j :: 0 <= j < i ==> b[j] == 0
    {
      b[i] := 0;
    }
  }

  /** What is zeroed stays so. */
  method WipeToo(b: array<byte>, ghost done: set<array<byte>>)
    requires AllZeroed(done)
    modifies b
    ensures Zeroed(b) && AllZeroed(done)
  {
    Wipe(b);
  }

  method WipeIfAny(b: array?<byte>)
    modifies if b == null then {} else {b}
    ensures Zeroed(b)
  {
    if b != null {
      Wipe(b);
    }
  }

  method NewBuffer(content: bytes) returns (b: array<byte>)
    ensures fresh(b) && Bytes(b) == content
  {
    b := new byte[|content|](i requires 0 <= i < |content| => content[i]);
  }

  method CloneBytes(b: array?<byte>) returns (c: array?<byte>)
    ensures (c == null) == (b == null)
    ensures c != null ==> fresh(c) && Bytes(c) == Bytes(b)
  {
    if b == null {
      c := null;
    } else {
      c := NewBuffer(b[..]);
    }
  }

  ghost function Bytes(b: array<byte>): bytes
    reads b
  {
    b[..]
  }

  ghost function Some1(b: array?<byte>): set<array<byte>> {
    if b == null then {} else {b}
  }

  ghost function Content(b: array?<byte>): Option<bytes>
    reads if b == null then {} else {b}
  {
    if b == null then None else Some(Bytes(b))
  }

  /** The KDF of the root chain: a new root key and a chain key, in new buffers. */
  method DeriveRoot(S: Suite, root: array<byte>, secret: bytes) returns (newRoot: array<byte>, chain: array<byte>)
    ensures fresh(newRoot) && fresh(chain) && newRoot != chain
    ensures Bytes(newRoot) == S.rootKey(old(Bytes(root)), secret) &&
            Bytes(chain) == S.rootChain(old(Bytes(root)), secret)
  {
    var shared := NewBuffer(secret);
    newRoot := NewBuffer(S.rootKey(root[..], shared[..]));
    chain := NewBuffer(S.rootChain(root[..], shared[..]));
    Wipe(shared);
  }

  // ---------------------------------------------------------------------------
  // The map beside the order list, as one queue of references.

  type Skipped = map<Id, array<byte>>

  ghost predicate QueueOk(order: seq<Id>, skipped: Skipped, cells: seq<array<byte>>) {
    && |order| == |cells|
    && (forall i :: 0 <= i < |order| ==> order[i] in skipped && skipped[order[i]] == cells[i])
    && (forall i, j :: 0 <= i < j < |order| ==> order[i] != order[j] && cells[i] != cells[j])
    && (forall k :: k in skipped ==> k in order)
  }

  lemma QueueReplace(order: seq<Id>, skipped: Skipped, cells: seq<array<byte>>, i: nat, b: array<byte>)
    requires QueueOk(order, skipped, cells) && i < |order| && b !in cells
    ensures QueueOk(order, skipped[order[i] := b], cells[i := b])
  {
  }

  lemma QueueAppend(order: seq<Id>, skipped: Skipped, cells: seq<array<byte>>, k: Id, b: array<byte>)
    requires QueueOk(order, skipped, cells) && k !in skipped && b !in cells
    ensures QueueOk(order + [k], skipped[k := b], cells + [b])
  {
  }

  ghost function Cut<T>(s: seq<T>, i: nat): (r: seq<T>)
    requires i < |s|
    ensures |r| == |s| - 1 && (forall j :: 0 <= j < |r| ==> r[j] == s[if j < i then j else j + 1])
    ensures forall x :: x in r ==> x in s
  {
    s[..i] + s[i + 1..]
  }

  lemma QueueDelete(order: seq<Id>, skipped: Skipped, cells: seq<array<byte>>, i: nat)
    requires QueueOk(order, skipped, cells) && i < |order|
    ensures QueueOk(Cut(order, i), skipped - {order[i]}, Cut(cells, i))
    ensures skipped[order[i]] == cells[i] && cells[i] !in Cut(cells, i)
  {
    hide Cut;
    var order' := Cut(order, i);
    forall k | k in skipped - {order[i]}
      ensures k in order'
    {
      var j :| 0 <= j < |order| && order[j] == k;
      assert order'[if j < i then j else j - 1] == k;
    }
  }

  /** The buffers hold, in order, the keys of the queue `store`. */
  ghost predicate Holds(order: seq<Id>, cells: seq<array<byte>>, store: seq<Entry>)
    reads cells
  {
    |order| == |cells| == |store| && forall i :: 0 <= i < |cells| ==> store[i] == R.Entry(order[i], Bytes(cells[i]))
  }

  lemma HoldsCut(order: seq<Id>, cells: seq<array<byte>>, store: seq<Entry>, i: nat)
    requires Holds(order, cells, store) && i < |order|
    ensures Holds(Cut(order, i), Cut(cells, i), Cut(store, i))
  {
    hide Cut, Bytes;
  }

  class Ratchet {
    const S: Suite
    var rootKey: array?<byte>
    var sendKey: nat
    var receiveKey: Option<bytes>
    var sendChain: array?<byte>
    var receiveChain: array?<byte>
    var sendCount: u32
    var receiveCount: u32
    var previousSent: u32
    var skipped: map<Id, array<byte>>
    var order: seq<Id>
    var steps: nat

    /** The buffers of the stored keys, oldest first, and the queue they represent. */
    ghost var cells: seq<array<byte>>
    ghost var store: seq<Entry>
    /** Chain derivations performed so far. */
    ghost var work: nat

    /** Every buffer the ratchet may overwrite. */
    ghost var Repr: set<array<byte>>

    /** Map and order list are one queue, bounded, with the contents in `store`. */
    ghost predicate StoreValid()
      reads this`skipped, this`order, this`store, this`cells, cells
    {
      QueueOk(order, skipped, cells) && Holds(order, cells, store)
    }

    /** A head buffer is the ratchet's own and not one of the stored keys. */
    ghost predicate Apart(b: array?<byte>)
      reads this`Repr, this`cells
    {
      b != null ==> b in Repr && forall i :: 0 <= i < |cells| ==> cells[i] != b
    }

    ghost predicate CellsOwned()
      reads this`Repr, this`cells
    {
      forall i :: 0 <= i < |cells| ==> cells[i] in Repr
    }

    /** b is behind no field and no stored key. */
    ghost predicate Detached(b: array<byte>)
      reads this`rootKey, this`sendChain, this`receiveChain, this`cells
    {
      b != rootKey && b != sendChain && b != receiveChain && forall i :: 0 <= i < |cells| ==> cells[i] != b
    }

    /** No two fields share a buffer. */
    ghost predicate HeadsValid()
      reads this`Repr, this`cells, this`rootKey, this`sendChain, this`receiveChain, this`receiveKey
    {
      && Apart(rootKey) && Apart(sendChain) && Apart(receiveChain) && CellsOwned()
      && (rootKey != null ==> rootKey != sendChain && rootKey != receiveChain)
      && (sendChain != null ==> sendChain != receiveChain)
      && (receiveChain != null ==> receiveKey.Some?)
    }

    ghost predicate Valid()
      reads this`rootKey, this`sendChain, this`receiveChain, this`receiveKey, this`skipped, this`order, this`cells,
          this`store
      reads this`Repr, Repr
    {
      rootKey != null && HeadsValid() && StoreValid() && |store| <= R.MAX_SKIP_STORE
    }

    ghost function Abs(): (r: R.State<bytes, bytes>)
      requires Valid()
      reads this`rootKey, this`sendChain, this`receiveChain, this`receiveKey, this`skipped, this`order, this`cells,
          this`store
      reads this`Repr, Repr, this`sendKey, this`sendCount, this`receiveCount, this`previousSent, this`steps
      ensures R.WellFormed(r)
    {
      R.State(Bytes(rootKey), sendKey, receiveKey, Content(sendChain), Content(receiveChain),
              sendCount, receiveCount, previousSent, store, steps)
    }

    lemma IndexInStore(k: Id)
      requires StoreValid()
      ensures R.IndexOf(store, k) < |store| <==> k in skipped
      ensures k in skipped ==> order[R.IndexOf(store, k)] == k
    {
      if k in skipped {
        var i :| 0 <= i < |order| && order[i] == k;
        assert store[i].id == k;
      }
    }

    /** Every buffer that holds a secret. */
    ghost function Held(): set<array<byte>>
      reads this`rootKey, this`sendChain, this`receiveChain, this`cells
    {
      Some1(rootKey) + Some1(sendChain) + Some1(receiveChain) + set b | b in cells
    }

    /** One chain derivation: the message key and the next chain key, in new buffers. */
    method DeriveChain(chain: array?<byte>) returns (messageKey: array<byte>, nextChain: array<byte>)
      modifies this`work
      ensures fresh(messageKey) && fresh(nextChain) && messageKey != nextChain && work == old(work) + 1
      ensures Bytes(messageKey) == S.chainMsg(old(Content(chain))) &&
              Bytes(nextChain) == S.chainNext(old(Content(chain)))
    {
      var c := if chain == null then None else Some(chain[..]);
      messageKey := NewBuffer(S.chainMsg(c));
      nextChain := NewBuffer(S.chainNext(c));
      work := work + 1;
    }

    /** Puts a key into the map, at the back of the order unless its id is there already. */
    method Put(k: Id, messageKey: array<byte>)
      requires StoreValid() && HeadsValid() && messageKey !in Repr
      modifies this`skipped, this`order, this`store, this`cells, this`Repr
      ensures StoreValid() && HeadsValid()
      ensures store == R.Insert(old(store), k, Bytes(messageKey))
      ensures Repr == old(Repr) + {messageKey}
      ensures cells == old(cells) + [messageKey] ||
              (|cells| == |old(cells)| && forall b :: b in cells ==> b in old(cells) || b == messageKey)
    {
      hide QueueOk, Bytes, HeadsValid;
      IndexInStore(k);
      if k !in skipped {
        Append(k, messageKey);
      } else {
        Overwrite(R.IndexOf(store, k), k, messageKey);
      }
    }

    method Append(k: Id, messageKey: array<byte>)
      requires StoreValid() && HeadsValid() && messageKey !in Repr && k !in skipped
      modifies this`skipped, this`order, this`store, this`cells, this`Repr
      ensures StoreValid() && HeadsValid() && Repr == old(Repr) + {messageKey}
      ensures store == old(store) + [R.Entry(k, Bytes(messageKey))] && cells == old(cells) + [messageKey]
    {
      hide QueueOk, Bytes;
      QueueAppend(order, skipped, cells, k, messageKey);
      order := order + [k];
      skipped := skipped[k := messageKey];
      cells := cells + [messageKey];
      store := store + [R.Entry(k, Bytes(messageKey))];
      Repr := Repr + {messageKey};
    }

    method Overwrite(ghost i: nat, k: Id, messageKey: array<byte>)
      requires StoreValid() && HeadsValid() && messageKey !in Repr && i < |order| && order[i] == k
      modifies this`skipped, this`store, this`cells, this`Repr
      ensures StoreValid() && HeadsValid() && Repr == old(Repr) + {messageKey}
      ensures i < |old(store)| && store == old(store)[i := R.Entry(k, Bytes(messageKey))]
      ensures i < |old(cells)| && cells == old(cells)[i := messageKey]
    {
      hide QueueOk, Bytes;
      QueueReplace(order, skipped, cells, i, messageKey);
      skipped := skipped[k := messageKey];
      cells := cells[i := messageKey];
      store := store[i := R.Entry(k, Bytes(messageKey))];
      Repr := Repr + {messageKey};
    }

    lemma InMap(i: nat)
      requires StoreValid() && i < |order|
      ensures order[i] in skipped
    {
    }

    /** Takes the key at a place in the order out of the queue. */
    method Unlink(i: nat) returns (b: array<byte>)
      requires StoreValid() && HeadsValid() && i < |order|
      modifies this`skipped, this`order, this`store, this`cells
      ensures StoreValid() && HeadsValid() && b == old(cells)[i] && b !in cells
      ensures order == Cut(old(order), i) && cells == Cut(old(cells), i) && store == Cut(old(store), i)
    {
      InMap(i);
      HoldsCut(order, cells, store, i);
      hide QueueOk, Bytes, Holds;
      QueueDelete(order, skipped, cells, i);
      assert order[..i] + order[i + 1..] == Cut(order, i);
      hide Cut;
      b := skipped[order[i]];
      skipped := skipped - {order[i]};
      order := order[..i] + order[i + 1..];
      store := Cut(store, i);
      cells := Cut(cells, i);
    }

    /** Destroys the key at a place in the order. */
    method Drop(i: nat)
      requires StoreValid() && HeadsValid() && i < |order|
      modifies this`skipped, this`order, this`store, this`cells, {cells[i]}
      ensures StoreValid() && HeadsValid() && Zeroed(old(cells)[i])
      ensures order == Cut(old(order), i) && cells == Cut(old(cells), i) && store == Cut(old(store), i)
    {
      hide QueueOk, Bytes, Zeroed, Cut, HeadsValid;
      var b := Unlink(i);
      Wipe(b);
    }

    /** Stores a skipped key and evicts from the front until the bound holds. */
    method Remember(k: Id, messageKey: array<byte>)
      requires Valid() && messageKey !in Repr
      modifies this`skipped, this`order, this`store, this`cells, this`Repr, cells
      ensures Valid() && Repr == old(Repr) + {messageKey}
      ensures store == R.Remember(old(store), k, old(Bytes(messageKey)))
    {
      hide QueueOk, Bytes, HeadsValid;
      Put(k, messageKey);
      Evict();
    }

    /** Drops from the front until the bound holds. */
    method Evict()
      requires StoreValid() && HeadsValid() && |order| <= R.MAX_SKIP_STORE + 1
      modifies this`skipped, this`order, this`store, this`cells, if |order| > R.MAX_SKIP_STORE then {cells[0]} else {}
      ensures StoreValid() && HeadsValid() && store == R.Trim(old(store)) && |store| <= R.MAX_SKIP_STORE
    {
      hide QueueOk, Bytes, HeadsValid;
      while |order| > R.MAX_SKIP_STORE
        invariant StoreValid() && HeadsValid()
        invariant (order == old(order) && store == old(store) && cells == old(cells)) ||
                  (|old(order)| == R.MAX_SKIP_STORE + 1 && |order| == R.MAX_SKIP_STORE && store == old(store)[1..])
      {
        Drop(0);
      }
    }

    /** Destroys a stored key once it has been used. */
    method Forget(k: Id)
      requires Valid()
      modifies this`skipped, this`order, this`store, this`cells, Repr
      ensures Valid() && (k in old(skipped) ==> Detached(old(skipped)[k]) && Zeroed(old(skipped)[k]))
      ensures Abs() == old(Abs()).(store := R.Forget(old(store), k))
    {
      hide Bytes;
      IndexInStore(k);
      if k in skipped {
        var i := 0;
        while order[i] != k
          invariant 0 <= i <= R.IndexOf(store, k)
          decreases |order| - i
        {
          i := i + 1;
        }
        assert skipped[k] == cells[i];
        QueueDelete(order, skipped, cells, i);
        Drop(i);
      }
    }

    /** The header and message key of the next outgoing record. */
    method Next() returns (err: Option<R.Error>, h: R.Header<bytes>, messageKey: array?<byte>)
      requires Valid()
      modifies this`sendChain, this`sendCount, this`work, this`Repr, Repr
      ensures Valid() && fresh(Repr - old(Repr))
      ensures match R.Next(S, old(Abs()))
              case Err(e) => err == Some(e) && Abs() == old(Abs())
              case Ok(o) =>
                && err.None? && h == o.header && Abs() == o.next
                && messageKey != null && fresh(messageKey) && messageKey !in Repr && Bytes(messageKey) == o.key
                && Zeroed(old(sendChain))
    {
      OwnHeads();
      Fields();
      hide StoreValid, Bytes, Valid, Abs, Zeroed;
      h, messageKey := R.Header(0, [], 0, 0), null;
      if sendChain == null {
        return Some(R.CannotSend), h, null;
      }
      if sendCount == U32_MAX {
        return Some(R.ChainExhausted), h, null;
      }
      h := R.Header(R.V2, S.public(sendKey), previousSent, sendCount);
      messageKey := AdvanceSend();
      err := None;
    }

    method AdvanceSend() returns (messageKey: array<byte>)
      requires Valid() && sendChain != null && sendCount < U32_MAX
      modifies this`sendChain, this`sendCount, this`work, this`Repr, sendChain
      ensures Valid() && fresh(Repr - old(Repr)) && fresh(messageKey) && messageKey !in Repr && Zeroed(old(sendChain))
      ensures Bytes(messageKey) == S.chainMsg(old(Abs()).sendChain)
      ensures Abs() == old(Abs()).(sendChain := Some(S.chainNext(old(Abs()).sendChain)),
              sendCount := old(sendCount) + 1)
    {
      hide Valid, Abs, Zeroed, Bytes;
      messageKey := ShiftSend();
      Fields();
      CountSent();
    }

    method ShiftSend() returns (messageKey: array<byte>)
      requires Valid() && sendChain != null
      modifies this`sendChain, this`work, this`Repr, sendChain
      ensures Valid() && fresh(Repr - old(Repr)) && fresh(messageKey) && messageKey !in Repr && Zeroed(old(sendChain))
      ensures Bytes(messageKey) == S.chainMsg(old(Abs()).sendChain)
      ensures Abs() == old(Abs()).(sendChain := Some(S.chainNext(old(Abs()).sendChain)))
    {
      OwnHeads();
      Fields();
      hide Valid, Abs, Zeroed, Bytes;
      var nextChain;
      messageKey, nextChain := DeriveChain(sendChain);
      InstallSend(nextChain);
    }

    method CountSent()
      requires Valid() && sendCount < U32_MAX
      modifies this`sendCount
      ensures Valid() && sendCount == old(sendCount) + 1 && Abs() == old(Abs()).(sendCount := old(sendCount) + 1)
    {
      hide StoreValid, Bytes, HeadsValid;
      sendCount := sendCount + 1;
    }

    lemma Fields()
      requires Valid()
      ensures Abs().sendCount == sendCount && Abs().receiveCount == receiveCount && Abs().steps == steps
      ensures Abs().sendKey == sendKey && Abs().receiveKey == receiveKey && Abs().previousSent == previousSent
      ensures Abs().sendChain == Content(sendChain) && Abs().receiveChain == Content(receiveChain)
      ensures Abs().store == store && StoreValid()
    {
    }

    lemma OwnHeads()
      requires Valid()
      ensures rootKey != null && rootKey in Repr && rootKey != sendChain && rootKey != receiveChain
      ensures sendChain != null ==> sendChain in Repr && sendChain != receiveChain
      ensures receiveChain != null ==> receiveChain in Repr
    {
    }

    /** Derives and stores the keys of the current receiving chain before `target`. */
    method SkipTo(target: u32) returns (err: Option<R.Error>)
      requires Valid()
      modifies this`receiveChain, this`receiveCount, this`skipped, this`order, this`store, this`cells, this`work,
          this`Repr, Repr
      ensures Valid() && fresh(Repr - old(Repr))
      ensures old(work) <= work <= old(work) + R.MAX_SKIP
      ensures match R.SkipTo(S, old(Abs()), target)
              case Err(e) => err == Some(e)
              case Ok(r) => err.None? && Abs() == r
    {
      hide StoreValid, Bytes;
      if receiveChain == null || target < receiveCount {
        return None;
      }
      if target - receiveCount > R.MAX_SKIP {
        return Some(R.SkipTooLarge);
      }
      var pub := receiveKey.value;
      while receiveCount < target
        invariant Valid() && fresh(Repr - old(Repr)) && receiveChain != null && receiveKey == Some(pub)
        invariant receiveCount <= target && work - old(work) == receiveCount - old(receiveCount)
        invariant R.SkipLoop(S, Abs(), target) == R.SkipLoop(S, old(Abs()), target)
      {
        SkipOne(pub);
      }
      err := None;
    }

    /** Moves the receiving chain one place on. */
    method AdvanceReceive() returns (messageKey: array<byte>)
      requires Valid() && receiveKey.Some?
      modifies this`receiveChain, this`work, this`Repr, receiveChain
      ensures Valid() && fresh(Repr - old(Repr)) && fresh(messageKey) && messageKey !in Repr && receiveChain != null &&
              fresh(receiveChain)
      ensures Zeroed(old(receiveChain))
      ensures Bytes(messageKey) == S.chainMsg(old(Abs()).receiveChain) && work == old(work) + 1
      ensures Abs() == old(Abs()).(receiveChain := Some(S.chainNext(old(Abs()).receiveChain)))
    {
      OwnHeads();
      Fields();
      hide Valid, Abs, Zeroed, Bytes;
      var nextChain;
      messageKey, nextChain := DeriveChain(receiveChain);
      InstallReceive(nextChain);
    }

    method SkipOne(pub: bytes)
      requires Valid() && receiveChain != null && receiveKey == Some(pub) && receiveCount < U32_MAX
      modifies this`receiveChain, this`receiveCount, this`skipped, this`order, this`store, this`cells, this`work,
          this`Repr, Repr
      ensures Valid() && fresh(Repr - old(Repr)) && receiveChain != null
      ensures Abs() == R.SkipOne(S, old(Abs())) && work == old(work) + 1 && receiveCount == old(receiveCount) + 1
    {
      hide StoreValid, Bytes;
      var messageKey := AdvanceReceive();
      Remember(R.SkippedKey(pub, receiveCount), messageKey);
      receiveCount := receiveCount + 1;
    }

    /** Mixes a shared secret into the root key and yields the chain key that comes with it. */
    method MixRoot(secret: bytes) returns (chain: array<byte>)
      requires Valid()
      modifies this`rootKey, this`Repr, rootKey
      ensures Valid() && fresh(Repr - old(Repr)) && fresh(chain) && chain !in Repr && Zeroed(old(rootKey)) &&
              fresh(rootKey)
      ensures Bytes(chain) == S.rootChain(old(Abs()).rootKey, secret)
      ensures Abs() == old(Abs()).(rootKey := S.rootKey(old(Abs()).rootKey, secret))
    {
      hide StoreValid, Bytes, Zeroed;
      var newRoot;
      newRoot, chain := DeriveRoot(S, rootKey, secret);
      Wipe(rootKey);
      rootKey := newRoot;
      Repr := Repr + {newRoot};
    }

    method InstallReceive(chain: array<byte>)
      requires Valid() && chain !in Repr && receiveKey.Some?
      modifies this`receiveChain, this`Repr, receiveChain
      ensures Valid() && Repr == old(Repr) + {chain} && receiveChain == chain && Zeroed(old(receiveChain))
      ensures Abs() == old(Abs()).(receiveChain := Some(old(Bytes(chain))))
    {
      hide StoreValid, Bytes, Zeroed;
      WipeIfAny(receiveChain);
      receiveChain := chain;
      Repr := Repr + {chain};
    }

    method InstallSend(chain: array<byte>)
      requires Valid() && chain !in Repr
      modifies this`sendChain, this`Repr, sendChain
      ensures Valid() && Repr == old(Repr) + {chain} && Zeroed(old(sendChain))
      ensures Abs() == old(Abs()).(sendChain := Some(old(Bytes(chain))))
    {
      hide StoreValid, Bytes, Zeroed;
      WipeIfAny(sendChain);
      sendChain := chain;
      Repr := Repr + {chain};
    }

    /** The counters and the peer key of a step, set before anything can fail. */
    method TurnCounters(peer: bytes)
      requires Valid()
      modifies this`previousSent, this`sendCount, this`receiveCount, this`receiveKey
      ensures Valid()
      ensures Abs() == old(Abs()).(previousSent := old(sendCount), sendCount := 0, receiveCount := 0,
              receiveKey := Some(peer))
    {
      hide StoreValid, Bytes;
      previousSent := sendCount;
      sendCount := 0;
      receiveCount := 0;
      receiveKey := Some(peer);
    }

    method StepReceive(secret: bytes)
      requires Valid() && receiveKey.Some?
      modifies this`rootKey, this`receiveChain, this`Repr, rootKey, receiveChain
      ensures Valid() && fresh(Repr - old(Repr)) && Zeroed(old(rootKey)) && Zeroed(old(receiveChain)) && fresh(rootKey)
      ensures Abs() == old(Abs()).(rootKey := S.rootKey(old(Abs()).rootKey, secret),
                                   receiveChain := Some(S.rootChain(old(Abs()).rootKey, secret)))
    {
      OwnHeads();
      hide Valid, Abs, Zeroed;
      var chain := MixRoot(secret);
      InstallReceive(chain);
    }

    method StepSend(name: nat, secret: bytes)
      requires Valid()
      modifies this`rootKey, this`sendChain, this`sendKey, this`steps, this`Repr, rootKey, sendChain
      ensures Valid() && fresh(Repr - old(Repr)) && Zeroed(old(rootKey)) && Zeroed(old(sendChain))
      ensures Abs() == old(Abs()).(rootKey := S.rootKey(old(Abs()).rootKey, secret),
                                   sendChain := Some(S.rootChain(old(Abs()).rootKey, secret)),
                                   sendKey := name, steps := old(steps) + 1)
    {
      OwnHeads();
      Fields();
      hide Valid, Abs, Zeroed, Bytes;
      var chain := MixRoot(secret);
      InstallSend(chain);
      CountStep(name);
    }

    method CountStep(name: nat)
      requires Valid()
      modifies this`sendKey, this`steps
      ensures Valid() && Abs() == old(Abs()).(sendKey := name, steps := old(steps) + 1)
    {
      hide StoreValid, Bytes, HeadsValid;
      sendKey := name;
      steps := steps + 1;
    }

    /** The first half of a step: the counters, then the receiving chain; nothing more for a low-order key. */
    method BeginStep(peer: bytes) returns (ok: bool)
      requires Valid()
      modifies this`previousSent, this`sendCount, this`receiveCount, this`receiveKey, this`rootKey,
          this`receiveChain, this`Repr,
               rootKey, receiveChain
      ensures Valid() && fresh(Repr - old(Repr))
      ensures match S.agree(old(Abs()).sendKey, peer)
              case None => !ok
              case Some(shared) =>
                && ok && receiveKey.Some? && Zeroed(old(rootKey)) && Zeroed(old(receiveChain)) && fresh(rootKey)
                && Abs() == old(Abs()).(previousSent := old(Abs()).sendCount, sendCount := 0, receiveCount := 0,
                   receiveKey := Some(peer),
                                        rootKey := S.rootKey(old(Abs()).rootKey, shared),
                                        receiveChain := Some(S.rootChain(old(Abs()).rootKey, shared)))
    {
      OwnHeads();
      Fields();
      hide Valid, Abs, Zeroed;
      var shared := S.agree(sendKey, peer);
      TurnCounters(peer);
      Fields();
      ok := shared.Some?;
      if ok {
        StepReceive(shared.value);
      }
    }

    /** The DH ratchet step. After an error the state is only fit to be destroyed. */
    method Step(peer: bytes, newKey: Option<nat>) returns (err: Option<R.Error>)
      requires Valid()
      modifies this`previousSent, this`sendCount, this`receiveCount, this`receiveKey, this`sendKey, this`steps,
               this`rootKey, this`receiveChain, this`sendChain, this`Repr, rootKey, receiveChain, sendChain
      ensures Valid() && fresh(Repr - old(Repr))
      ensures err.None? ==> receiveKey.Some? && Zeroed(old(rootKey))
      ensures err.None? ==> Zeroed(old(receiveChain)) && Zeroed(old(sendChain))
      ensures match R.Step(S, old(Abs()), peer, newKey)
              case Err(e) => err == Some(e)
              case Ok(r) => err.None? && Abs() == r
    {
      OwnHeads();
      hide Valid, Abs, Zeroed;
      var ok := BeginStep(peer);
      if !ok {
        return Some(R.Malformed);
      }
      if newKey.None? {
        return Some(R.NoRandomness);
      }
      var shared := S.agree(newKey.value, peer);
      if shared.None? {
        return Some(R.Malformed);
      }
      Fields();
      StepSend(newKey.value, shared.value);
      err := None;
    }

    /** Turns to the chain a header belongs to. */
    method TurnTo(h: R.Header<bytes>, newKey: Option<nat>) returns (err: Option<R.Error>)
      requires Valid()
      modifies this, Repr
      ensures Valid() && fresh(Repr - old(Repr)) && old(work) <= work <= old(work) + R.MAX_SKIP
      ensures match R.TurnTo(S, old(Abs()), h, newKey)
              case Err(e) => err == Some(e)
              case Ok(r) => err.None? && Abs() == r && receiveKey.Some?
    {
      hide Valid, Abs, R.SkipTo, R.Step, Zeroed;
      Fields();
      err := None;
      if receiveKey.None? || receiveKey.value != h.pub {
        err := SkipTo(h.pn);
        if err.None? {
          OwnHeads();
          err := Step(h.pub, newKey);
          Fields();
        }
      }
    }

    /** Takes the key at index n of the receiving chain. */
    method Advance(n: u32) returns (err: Option<R.Error>, messageKey: array?<byte>)
      requires Valid() && receiveKey.Some?
      modifies this`receiveChain, this`receiveCount, this`skipped, this`order, this`store, this`cells, this`work,
          this`Repr, Repr
      ensures Valid() && fresh(Repr - old(Repr)) && old(work) <= work <= old(work) + R.MAX_SKIP + 1
      ensures match R.Advance(S, old(Abs()), n)
              case Err(e) => err == Some(e)
              case Ok(m) =>
                && err.None? && Abs() == m.next && m.from.None?
                && messageKey != null && Bytes(messageKey) == m.key && messageKey !in Repr && fresh(messageKey)
    {
      hide Valid, Abs, R.SkipTo;
      Fields();
      messageKey := null;
      if n < receiveCount {
        return Some(R.Stale), null;
      }
      err := SkipTo(n);
      if err.None? {
        OwnHeads();
        messageKey := AdvanceReceive();
        CountReceived();
      }
    }

    method CountReceived()
      requires Valid()
      modifies this`receiveCount
      ensures Valid() && Abs() == old(Abs()).(receiveCount := Inc32(old(Abs()).receiveCount))
    {
      hide StoreValid, Bytes;
      receiveCount := Inc32(receiveCount);
    }

    lemma InStore(id: Id)
      requires Valid()
      ensures R.Stored(Abs().store, id) <==> id in skipped
      ensures id in skipped ==> skipped[id] in Repr && Abs().store[R.IndexOf(Abs().store, id)].key == Bytes(skipped[id])
    {
      hide Bytes;
      IndexInStore(id);
    }

    /**
     * Resolves the message key for a header. The buffer returned is the stored one when
     * `from` says so, and a new one otherwise.
     */
    method Receive(h: R.Header<bytes>, newKey: Option<nat>)
      returns (err: Option<R.Error>, messageKey: array?<byte>, from: Option<Id>)
      requires Valid()
      modifies this, Repr
      ensures Valid() && fresh(Repr - old(Repr))
      ensures old(work) <= work <= old(work) + 2 * R.MAX_SKIP + 1
      ensures match R.Receive(S, old(Abs()), h, newKey)
              case Err(e) => err == Some(e)
              case Ok(m) =>
                && err.None? && from == m.from && Abs() == m.next
                && messageKey != null && Bytes(messageKey) == m.key
                && (from.None? ==> messageKey !in Repr && fresh(messageKey))
                && (from.Some? ==> from.value in skipped && messageKey == skipped[from.value] && messageKey in Repr)
    {
      hide Valid, Abs, R.TurnTo, R.Advance;
      var id := R.SkippedKey(h.pub, h.n);
      InStore(id);
      from := None;
      if id in skipped {
        return None, skipped[id], Some(id);
      }
      messageKey := null;
      err := TurnTo(h, newKey);
      if err.None? {
        err, messageKey := Advance(h.n);
      }
    }

    // -------------------------------------------------------------------------
    // Creation, copying and destruction.

    /** The side that accepted: it has no chain before the peer's first message. */
    constructor Responder(S: Suite, root: bytes, ephemeral: nat)
      ensures Valid() && fresh(Repr) && this.S == S && Abs() == R.Responder(root, ephemeral)
    {
      var buffer := NewBuffer(root);
      this.S := S;
      rootKey, sendKey, receiveKey, sendChain, receiveChain := buffer, ephemeral, None, null, null;
      sendCount, receiveCount, previousSent, steps := 0, 0, 0, 0;
      skipped, order, cells, store, work := map[], [], [], [], 0;
      Repr := {buffer};
    }

    constructor WithSendChain(S: Suite, root: array<byte>, chain: array<byte>, name: nat, peer: bytes)
      requires root != chain
      ensures Valid() && Repr == {root, chain} && this.S == S
      ensures Abs() == R.State(Bytes(root), name, Some(peer), Some(Bytes(chain)), None, 0, 0, 0, [], 0)
    {
      this.S := S;
      rootKey, sendKey, receiveKey, sendChain, receiveChain := root, name, Some(peer), chain, null;
      sendCount, receiveCount, previousSent, steps := 0, 0, 0, 0;
      skipped, order, cells, store, work := map[], [], [], [], 0;
      Repr := {root, chain};
    }

    /** The side that dialled: one root step against the peer's ephemeral, after which the
        caller's root key buffer is wiped. */
    static method NewInitiator(S: Suite, root: array<byte>, peer: bytes, name: nat) returns (r: Ratchet?)
      modifies root
      ensures match R.Initiator(S, old(Bytes(root)), peer, name)
              case None => r == null && unchanged(root)
              case Some(state) =>
                r != null && fresh(r) && r.Valid() && fresh(r.Repr) && r.S == S && r.Abs() == state && Zeroed(root)
    {
      var shared := S.agree(name, peer);
      r := null;
      if shared.Some? {
        var newRoot, chain := DeriveRoot(S, root, shared.value);
        Wipe(root);
        r := new Ratchet.WithSendChain(S, newRoot, chain, name, peer);
      }
    }

    /** Copies everything but the stored keys. */
    constructor HeadsOf(r: Ratchet)
      requires r.Valid()
      ensures Valid() && fresh(Repr) && S == r.S && Abs() == r.Abs().(store := []) && work == r.work && order == []
    {
      var root := NewBuffer(r.rootKey[..]);
      var send := CloneBytes(r.sendChain);
      var receive := CloneBytes(r.receiveChain);
      S := r.S;
      rootKey, sendKey, receiveKey, sendChain, receiveChain := root, r.sendKey, r.receiveKey, send, receive;
      sendCount, receiveCount, previousSent, steps := r.sendCount, r.receiveCount, r.previousSent, r.steps;
      skipped, order, cells, store, work := map[], [], [], [], r.work;
      Repr := {root} + (if send == null then {} else {send}) + (if receive == null then {} else {receive});
    }

    lemma Stored(i: nat)
      requires StoreValid() && i < |order|
      ensures order[i] in skipped && skipped[order[i]] == cells[i] && store[i] == R.Entry(order[i], Bytes(cells[i]))
      ensures |order| == |cells| == |store| && forall j :: 0 <= j < i ==> store[j].id != order[i]
    {
    }

    method CopyOne(r: Ratchet, i: nat)
      requires StoreValid() && HeadsValid() && r != this && r.StoreValid() && i < |r.order| == |r.store| &&
               store == r.store[..i]
      modifies this`skipped, this`order, this`store, this`cells, this`Repr
      ensures StoreValid() && HeadsValid() && fresh(Repr - old(Repr)) && store == r.store[..i + 1]
    {
      hide QueueOk, StoreValid;
      r.Stored(i);
      var copy := NewBuffer(r.skipped[r.order[i]][..]);
      Put(r.order[i], copy);
      AppendsNew(r.store[..i], r.order[i], Bytes(copy));
    }

    /** Copies the stored keys of r, each into a buffer of its own. */
    method CopyStore(r: Ratchet)
      requires Valid() && order == [] && r != this && r.StoreValid() && |r.order| <= R.MAX_SKIP_STORE
      modifies this`skipped, this`order, this`store, this`cells, this`Repr
      ensures Valid() && fresh(Repr - old(Repr)) && store == r.store
    {
      assert |r.order| == |r.store|;
      assert r.store[..0] == [];
      hide StoreValid, HeadsValid;
      var i := 0;
      while i < |r.order|
        invariant r.StoreValid() && StoreValid() && HeadsValid() && fresh(Repr - old(Repr))
        invariant 0 <= i <= |r.order| == |r.store| && store == r.store[..i]
      {
        CopyOne(r, i);
        i := i + 1;
      }
      assert r.store[..i] == r.store;
    }

    /** A copy for speculative decryption: equal in value, with no buffer in common. */
    method Clone() returns (c: Ratchet)
      requires Valid()
      ensures fresh(c) && c.Valid() && fresh(c.Repr) && c.S == S && c.Abs() == Abs() && c.work == work
    {
      c := new Ratchet.HeadsOf(this);
      c.CopyStore(this);
    }

    /** Overwriting a detached buffer leaves the ratchet as it is, and what is zeroed stays so. */
    method WipeDetached(b: array<byte>, ghost done: set<array<byte>>)
      requires Valid() && Detached(b) && AllZeroed(done)
      modifies b
      ensures Valid() && Abs() == old(Abs()) && Zeroed(b) && AllZeroed(done)
    {
      hide StoreValid, Bytes, AllZeroed, Zeroed;
      WipeToo(b, done);
    }

    lemma OutsideIsDetached(b: array<byte>)
      requires Valid() && b !in Repr
      ensures Detached(b)
    {
    }

    /** Lets go of a used message key: a stored one is forgotten, a new one was never held. */
    method Settle(messageKey: array<byte>, from: Option<Id>)
      requires Valid()
      requires from.None? ==> messageKey !in Repr
      requires from.Some? ==> from.value in skipped && messageKey == skipped[from.value]
      modifies this`skipped, this`order, this`store, this`cells, Repr
      ensures Valid() && Detached(messageKey)
      ensures Abs() == R.Settle(R.Incoming(old(Bytes(messageKey)), from, old(Abs())))
    {
      hide Valid, Abs, Detached;
      Fields();
      if from.Some? {
        Forget(from.value);
      } else {
        OutsideIsDetached(messageKey);
      }
    }

    /** Overwrites every stored key. */
    method WipeStore()
      requires StoreValid()
      modifies this`skipped, cells
      ensures skipped == map[]
      ensures forall i :: 0 <= i < |cells| ==> Zeroed(cells[i])
    {
      ghost var before := skipped;
      while skipped != map[]
        invariant skipped.Keys <= before.Keys && forall k :: k in skipped ==> skipped[k] == before[k]
        invariant forall k :: k in before && k !in skipped ==> Zeroed(before[k])
        decreases skipped.Keys
      {
        var k :| k in skipped;
        assert k in order;
        hide QueueOk;
        Wipe(skipped[k]);
        skipped := skipped - {k};
      }
    }

    /** Overwrites every secret and lets go of the buffers. */
    method Destroy()
      requires Valid()
      modifies this, Repr
      ensures rootKey == null && sendChain == null && receiveChain == null && skipped == map[] && order == []
      ensures AllZeroed(old(Held()))
    {
      hide Valid, AllZeroed, Held;
      WipeSecrets();
      order := [];
      rootKey, sendChain, receiveChain := null, null, null;
    }

    method WipeSecrets()
      requires Valid()
      modifies this`skipped, Repr
      ensures skipped == map[] && AllZeroed(Held())
    {
      OwnHeads();
      OwnCells();
      hide StoreValid, Zeroed, HeadsValid, QueueOk;
      WipeHeads();
      WipeStore();
      forall b | b in Held()
        ensures Zeroed(b)
      {
        if b != rootKey && b != sendChain && b != receiveChain {
          var i :| 0 <= i < |cells| && cells[i] == b;
        }
      }
    }

    lemma OwnCells()
      requires Valid()
      ensures forall i :: 0 <= i < |cells| ==>
              cells[i] in Repr && cells[i] != rootKey && cells[i] != sendChain && cells[i] != receiveChain
    {
    }

    /** Overwrites the root key and the chains. */
    method WipeHeads()
      requires Valid()
      modifies rootKey, sendChain, receiveChain
      ensures Zeroed(rootKey) && Zeroed(sendChain) && Zeroed(receiveChain) && StoreValid()
    {
      OwnHeads();
      OwnCells();
      hide Zeroed, HeadsValid, QueueOk;
      Wipe(rootKey);
      WipeIfAny(sendChain);
      WipeIfAny(receiveChain);
    }
  }

  lemma AppendsNew(store: seq<Entry>, id: Id, key: bytes)
    requires forall j :: 0 <= j < |store| ==> store[j].id != id
    ensures R.Insert(store, id, key) == store + [R.Entry(id, key)]
  {
  }
}
