/**
 * Records that arrive late. What a side has passed over is read off the headers it has accepted, never off its store;
 * over every run, a record passed over opens as long as fewer than MAX_SKIP_STORE positions were passed over since.
 */
module LateRecords {
  import opened Common
  import opened Ratchet
  import opened Agreement
  import opened SkippedKeys
  import opened Symbolic
  import opened TwoParty

  // ---------------------------------------------------------------------------
  // The trail of the headers accepted.

  /** Positions `from` to `to` of one chain. */
  function Span<P>(pub: P, from: nat, to: u32): (ids: seq<SkippedKey<P>>)
    ensures |ids| == if from <= to then to - from else 0
    ensures forall i :: 0 <= i < |ids| ==> ids[i] == SkippedKey(pub, from + i)
  {
    if from >= to then [] else seq(to - from, i requires 0 <= i < to - from => SkippedKey(pub, from + i))
  }

  /** The chain in hand, the next position in it, and every position passed over, in order. */
  datatype Trail<P> = Trail(at: Option<P>, next: nat, passed: seq<SkippedKey<P>>)

  function Leaving<P>(t: Trail<P>, pn: u32): seq<SkippedKey<P>> {
    if t.at.Some? then Span(t.at.value, t.next, pn) else []
  }

  function PassedBy<P(==)>(t: Trail<P>, h: Header<P>): seq<SkippedKey<P>> {
    if t.at == Some(h.pub) then Span(h.pub, t.next, h.n) else Leaving(t, h.pn) + Span(h.pub, 0, h.n)
  }

  function Along<P(==)>(t: Trail<P>, h: Header<P>): Trail<P> {
    if SkippedKey(h.pub, h.n) in t.passed then t
    else Trail(Some(h.pub), h.n + 1, t.passed + PassedBy(t, h))
  }

  function TrailOf<P(==)>(got: seq<Header<P>>): Trail<P> {
    if got == [] then Trail(None, 0, []) else Along(TrailOf(got[..|got| - 1]), got[|got| - 1])
  }

  /** The position was accepted. */
  predicate Taken<P(==)>(got: seq<Header<P>>, id: SkippedKey<P>) {
    exists i :: 0 <= i < |got| && got[i].pub == id.pub && got[i].n == id.n
  }

  // ---------------------------------------------------------------------------
  // The store against the positions passed over.

  function Pos<T(==)>(s: seq<T>, x: T): (i: nat)
    ensures i <= |s| && (i < |s| ==> s[i] == x)
    ensures forall j :: 0 <= j < i ==> s[j] != x
  {
    if s == [] || s[0] == x then 0 else 1 + Pos(s[1..], x)
  }

  predicate Unique<T(==)>(s: seq<T>) {
    forall i, j :: 0 <= i < j < |s| ==> s[i] != s[j]
  }

  lemma PosIs<T>(s: seq<T>, k: nat)
    requires Unique(s) && k < |s|
    ensures Pos(s, s[k]) == k
  {
  }

  /** Stored positions were passed over, and stand in the order of passing. */
  predicate Aligned<K, P(==)>(passed: seq<SkippedKey<P>>, store: seq<Entry<K, P>>) {
    && (forall i :: 0 <= i < |store| ==> store[i].id in passed)
    && (forall i, j :: 0 <= i < j < |store| ==> Pos(passed, store[i].id) < Pos(passed, store[j].id))
  }

  /** Whatever was passed over recently and not accepted is stored. */
  predicate Kept<K, P(==)>(passed: seq<SkippedKey<P>>, got: seq<Header<P>>, store: seq<Entry<K, P>>) {
    forall k :: 0 <= k < |passed| && |passed| - k <= MAX_SKIP_STORE && !Taken(got, passed[k]) ==>
      Stored(store, passed[k])
  }

  lemma {:induction false} RoomAfter<K, P>(passed: seq<SkippedKey<P>>, store: seq<Entry<K, P>>, i: nat)
    requires Aligned(passed, store) && i < |store|
    ensures Pos(passed, store[i].id) + |store| - i <= |passed|
    decreases |store| - i
  {
    if i + 1 < |store| {
      RoomAfter(passed, store, i + 1);
    } else {
      assert store[i].id in passed;
    }
  }

  lemma PosAppend<T>(s: seq<T>, u: seq<T>, x: T)
    requires x in s
    ensures Pos(s + u, x) == Pos(s, x)
  {
    var i := Pos(s, x);
    assert (s + u)[i] == s[i];
    var j := Pos(s + u, x);
    assert j < i ==> (s + u)[j] == s[j];
  }

  lemma AppendAligned<K, P>(
    passed: seq<SkippedKey<P>>, ids: seq<SkippedKey<P>>, store: seq<Entry<K, P>>, es: seq<Entry<K, P>>)
    requires Aligned(passed, store) && Unique(passed + ids)
    requires |ids| == |es| && forall i :: 0 <= i < |es| ==> es[i].id == ids[i]
    ensures Aligned(passed + ids, store + es)
  {
    var all, both := passed + ids, store + es;
    forall i | 0 <= i < |both|
      ensures both[i].id in all
      ensures Pos(all, both[i].id) ==
              if i < |store| then Pos(passed, store[i].id) else |passed| + i - |store|
      ensures i < |store| ==> Pos(passed, store[i].id) < |passed|
    {
      if i < |store| {
        assert both[i].id == store[i].id && store[i].id in passed;
        PosAppend(passed, ids, store[i].id);
      } else {
        assert both[i].id == all[|passed| + i - |store|];
        PosIs(all, |passed| + i - |store|);
      }
    }
  }

  lemma DropAligned<K, P>(passed: seq<SkippedKey<P>>, store: seq<Entry<K, P>>, k: nat)
    requires Aligned(passed, store) && k <= |store|
    ensures Aligned(passed, store[k..])
  {
  }

  lemma StoredAt<K, P>(store: seq<Entry<K, P>>, i: nat)
    requires i < |store|
    ensures Stored(store, store[i].id)
  {
  }

  lemma GrowKeeps<K, P>(
    passed: seq<SkippedKey<P>>, ids: seq<SkippedKey<P>>, got: seq<Header<P>>,
    store: seq<Entry<K, P>>, es: seq<Entry<K, P>>, store': seq<Entry<K, P>>)
    requires Aligned(passed, store) && Kept(passed, got, store) && Unique(passed + ids)
    requires |ids| == |es| && forall i :: 0 <= i < |es| ==> es[i].id == ids[i]
    requires NewestOf(store', store + es)
    ensures Aligned(passed + ids, store') && Kept(passed + ids, got, store')
  {
    hide Aligned, Stored, Taken;
    var all, both := passed + ids, store + es;
    AppendAligned(passed, ids, store, es);
    DropAligned(all, both, |both| - |store'|);
    forall k | 0 <= k < |all| && |all| - k <= MAX_SKIP_STORE && !Taken(got, all[k])
      ensures Stored(store', all[k])
    {
      var i := WhereKept(passed, ids, got, store, es, k);
      RoomAfter(all, both, i);
      PosIs(all, k);
      StoredAt(store', i - (|both| - |store'|));
    }
  }

  lemma WhereKept<K, P>(
    passed: seq<SkippedKey<P>>, ids: seq<SkippedKey<P>>, got: seq<Header<P>>,
    store: seq<Entry<K, P>>, es: seq<Entry<K, P>>, k: nat) returns (i: nat)
    requires Kept(passed, got, store) && |ids| == |es| && forall i :: 0 <= i < |es| ==> es[i].id == ids[i]
    requires k < |passed + ids| && |passed + ids| - k <= MAX_SKIP_STORE && !Taken(got, (passed + ids)[k])
    ensures i < |store + es| && (store + es)[i].id == (passed + ids)[k]
  {
    hide Taken;
    if k < |passed| {
      assert (passed + ids)[k] == passed[k];
      i := IndexOf(store, passed[k]);
    } else {
      i := |store| + k - |passed|;
    }
  }

  lemma ForgetKeeps<K, P>(passed: seq<SkippedKey<P>>, got: seq<Header<P>>, store: seq<Entry<K, P>>, h: Header<P>)
    requires Aligned(passed, store) && Kept(passed, got, store)
    ensures var store' := Forget(store, SkippedKey(h.pub, h.n));
            Aligned(passed, store') && Kept(passed, got + [h], store')
  {
    hide Taken, Stored;
    var id := SkippedKey(h.pub, h.n);
    var store' := Forget(store, id);
    forall k | 0 <= k < |passed| && |passed| - k <= MAX_SKIP_STORE && !Taken(got + [h], passed[k])
      ensures Stored(store', passed[k])
    {
      TakenGrows(got, h, passed[k]);
      ForgetOthers(store, id, passed[k]);
    }
  }

  lemma TakenGrows<P>(got: seq<Header<P>>, h: Header<P>, id: SkippedKey<P>)
    ensures Taken(got + [h], id) <==> Taken(got, id) || id == SkippedKey(h.pub, h.n)
  {
    if Taken(got, id) {
      var i :| 0 <= i < |got| && got[i].pub == id.pub && got[i].n == id.n;
      assert (got + [h])[i] == got[i];
    }
    assert (got + [h])[|got|] == h;
  }

  lemma ForgetOthers<K, P>(store: seq<Entry<K, P>>, id: SkippedKey<P>, other: SkippedKey<P>)
    requires Stored(store, other) && other != id
    ensures Stored(Forget(store, id), other)
  {
    var i, j := IndexOf(store, id), IndexOf(store, other);
    if i < |store| {
      var store' := Forget(store, id);
      assert store'[if j < i then j else j - 1].id == other;
    }
  }

  lemma KeptGrows<K, P>(passed: seq<SkippedKey<P>>, got: seq<Header<P>>, store: seq<Entry<K, P>>, h: Header<P>)
    requires Kept(passed, got, store)
    ensures Kept(passed, got + [h], store)
  {
    hide Taken, Stored;
    forall k | 0 <= k < |passed| && |passed| - k <= MAX_SKIP_STORE && !Taken(got + [h], passed[k])
      ensures Stored(store, passed[k])
    {
      TakenGrows(got, h, passed[k]);
    }
  }

  // ---------------------------------------------------------------------------
  // One side against its history.

  /** The position belongs to the peer and lies behind what has been received, `count` being the next one in hand. */
  predicate Behind<K, P(==), C>(S: Suite<K, P, C>, ep: seq<Epoch<K>>, s: nat, count: nat, id: SkippedKey<P>)
    requires s < |ep|
  {
    exists e :: 1 <= e < s && e % 2 != s % 2 && id.pub == S.public(ep[e].name) && (e == s - 1 ==> id.n < count)
  }

  predicate Met<P(==)>(got: seq<Header<P>>, passed: seq<SkippedKey<P>>, id: SkippedKey<P>) {
    Taken(got, id) || id in passed
  }

  /** How far epoch e is behind a side at turn s. */
  function Extent<K>(ep: seq<Epoch<K>>, s: nat, count: nat, e: nat): nat
    requires e < s < |ep|
  {
    if e == s - 1 then count else ep[e].count
  }

  predicate AllMet<K, P(==), C>(
    S: Suite<K, P, C>, ep: seq<Epoch<K>>, s: nat, count: nat, got: seq<Header<P>>, passed: seq<SkippedKey<P>>)
    requires s < |ep|
  {
    forall e, n: u32 :: 1 <= e < s && e % 2 != s % 2 && n < Extent(ep, s, count, e) ==>
      Met(got, passed, SkippedKey(S.public(ep[e].name), n))
  }

  predicate AllBehind<K, P(==), C>(
    S: Suite<K, P, C>, ep: seq<Epoch<K>>, s: nat, count: nat, got: seq<Header<P>>, passed: seq<SkippedKey<P>>)
    requires s < |ep|
  {
    && (forall k :: 0 <= k < |passed| ==> Behind(S, ep, s, count, passed[k]))
    && (forall i :: 0 <= i < |got| ==> Behind(S, ep, s, count, SkippedKey(got[i].pub, got[i].n)))
  }

  predicate TrailAt<K, P(==), C>(S: Suite<K, P, C>, ep: seq<Epoch<K>>, s: nat, count: nat, t: Trail<P>)
    requires s < |ep|
  {
    t.next == count && t.at == if s < 2 then None else Some(S.public(ep[s - 1].name))
  }

  predicate StoreKept<K, P(==)>(passed: seq<SkippedKey<P>>, got: seq<Header<P>>, store: seq<Entry<K, P>>) {
    |store| <= MAX_SKIP_STORE && Unique(passed) && Aligned(passed, store) && Kept(passed, got, store)
  }

  predicate History<K, P(==), C>(
    S: Suite<K, P, C>, ep: seq<Epoch<K>>, s: nat, r: State<K, P>, got: seq<Header<P>>)
  {
    var t := TrailOf(got);
    && s < |ep|
    && TrailAt(S, ep, s, r.receiveCount, t)
    && AllBehind(S, ep, s, r.receiveCount, got, t.passed)
    && AllMet(S, ep, s, r.receiveCount, got, t.passed)
    && StoreKept(t.passed, got, r.store)
  }

  lemma BehindAt<K, P, C>(S: Suite<K, P, C>, ep: seq<Epoch<K>>, s: nat, count: nat, id: SkippedKey<P>, e: nat)
    requires EpochsOk(S, ep) && s < |ep| && e < |ep| && id.pub == S.public(ep[e].name)
    requires Behind(S, ep, s, count, id)
    ensures 1 <= e < s && e % 2 != s % 2 && (e == s - 1 ==> id.n < count)
  {
  }

  lemma StoreBehind<K, P, C>(
    S: Suite<K, P, C>, ep: seq<Epoch<K>>, s: nat, r: State<K, P>, got: seq<Header<P>>, i: nat)
    requires History(S, ep, s, r, got) && i < |r.store|
    ensures s < |ep| && Behind(S, ep, s, r.receiveCount, r.store[i].id)
  {
    hide Behind;
    assert r.store[i].id in TrailOf(got).passed;
  }

  lemma NoneStoredAhead<K, P, C>(
    S: Suite<K, P, C>, ep: seq<Epoch<K>>, s: nat, r: State<K, P>, got: seq<Header<P>>, e: nat, from: nat, to: nat)
    requires EpochsOk(S, ep) && History(S, ep, s, r, got) && e < |ep|
    requires 1 <= e < s ==> e == s - 1 && r.receiveCount <= from
    ensures NoneStored(r.store, S.public(ep[e].name), from, to)
  {
    hide EpochsOk, History, Behind;
    forall i | 0 <= i < |r.store|
      ensures !(r.store[i].id.pub == S.public(ep[e].name) && from <= r.store[i].id.n < to)
    {
      StoreBehind(S, ep, s, r, got, i);
      if r.store[i].id.pub == S.public(ep[e].name) {
        BehindAt(S, ep, s, r.receiveCount, r.store[i].id, e);
      }
    }
  }

  lemma NotPassed<K, P, C>(
    S: Suite<K, P, C>, ep: seq<Epoch<K>>, s: nat, r: State<K, P>, got: seq<Header<P>>, e: nat, n: u32)
    requires EpochsOk(S, ep) && History(S, ep, s, r, got) && e < |ep|
    requires 1 <= e < s ==> e == s - 1 && r.receiveCount <= n
    ensures SkippedKey(S.public(ep[e].name), n) !in TrailOf(got).passed
  {
    hide EpochsOk, Behind, AllMet, StoreKept, TrailAt, TrailOf;
    var id := SkippedKey(S.public(ep[e].name), n);
    var passed := TrailOf(got).passed;
    if id in passed {
      var k :| 0 <= k < |passed| && passed[k] == id;
      BehindAt(S, ep, s, r.receiveCount, id, e);
    }
  }

  lemma UniqueAppend<T>(a: seq<T>, b: seq<T>)
    requires Unique(a) && Unique(b) && forall k :: 0 <= k < |b| ==> b[k] !in a
    ensures Unique(a + b)
  {
  }

  /** A record the receiver has yet to reach: ahead in the chain in hand, or in the one after it. */
  predicate AheadOf<K, P(==), C>(
    S: Suite<K, P, C>, ep: seq<Epoch<K>>, s: nat, r: State<K, P>, h: Header<P>, e: nat)
  {
    && 1 <= e < |ep| && h.pub == S.public(ep[e].name) && h.pn == PrevCount(ep, e) && h.n < ep[e].count
    && ((e + 1 == s && r.receiveCount <= h.n) || (e == s + 1 && (s >= 2 ==> r.receiveCount <= h.pn)))
  }

  lemma PassesUnique<K, P, C>(
    S: Suite<K, P, C>, ep: seq<Epoch<K>>, s: nat, r: State<K, P>, got: seq<Header<P>>, h: Header<P>, e: nat)
    requires EpochsOk(S, ep) && History(S, ep, s, r, got) && AheadOf(S, ep, s, r, h, e)
    ensures SkippedKey(h.pub, h.n) !in TrailOf(got).passed
    ensures Unique(TrailOf(got).passed + PassedBy(TrailOf(got), h))
  {
    hide AllBehind, AllMet, TrailOf;
    var t := TrailOf(got);
    NotPassed(S, ep, s, r, got, e, h.n);
    var ids := PassedBy(t, h);
    forall k | 0 <= k < |ids|
      ensures ids[k] !in t.passed
    {
      if ids[k].pub == h.pub {
        NotPassed(S, ep, s, r, got, e, ids[k].n);
      } else {
        NotPassed(S, ep, s, r, got, s - 1, ids[k].n);
      }
    }
    UniqueAppend(t.passed, ids);
  }

  lemma PubsDiffer<K, P, C>(S: Suite<K, P, C>, ep: seq<Epoch<K>>, i: nat, j: nat)
    requires EpochsOk(S, ep) && i < j < |ep|
    ensures S.public(ep[i].name) != S.public(ep[j].name)
  {
  }

  lemma PassesNewKeys<K, P, C>(
    S: Suite<K, P, C>, ep: seq<Epoch<K>>, s: nat, r: State<K, P>, got: seq<Header<P>>, h: Header<P>, e: nat)
    requires EpochsOk(S, ep) && History(S, ep, s, r, got) && SideOk(S, ep, s, r) && AheadOf(S, ep, s, r, h, e)
    ensures PassesNew(r, h) && !Stored(r.store, SkippedKey(h.pub, h.n))
  {
    hide History, EpochsOk, SendOk, NoneStored;
    SideFacts(S, ep, s, r);
    NoneStoredAhead(S, ep, s, r, got, e, h.n, h.n + 1);
    NotStored(r.store, h.pub, h.n);
    if e + 1 == s {
      NoneStoredAhead(S, ep, s, r, got, e, r.receiveCount, h.n);
    } else {
      NoneStoredAhead(S, ep, s, r, got, e, 0, h.n);
      if s >= 1 {
        PubsDiffer(S, ep, s - 1, e);
        NoneStoredAhead(S, ep, s, r, got, s - 1, r.receiveCount, h.pn);
      }
    }
  }

  lemma NotStored<K, P>(store: seq<Entry<K, P>>, pub: P, n: u32)
    requires NoneStored(store, pub, n, n + 1)
    ensures !Stored(store, SkippedKey(pub, n))
  {
  }

  lemma IdsAgree<K, P, C>(
    S: Suite<K, P, C>, ep: seq<Epoch<K>>, s: nat, r: State<K, P>, got: seq<Header<P>>, h: Header<P>, e: nat)
    requires EpochsOk(S, ep) && History(S, ep, s, r, got) && SideOk(S, ep, s, r) && AheadOf(S, ep, s, r, h, e)
    requires WellFormed(r) && (r.receiveKey == Some(h.pub) || NewChain(S, r, h).Some?)
    ensures var ids, es := PassedBy(TrailOf(got), h), SkippedBy(S, r, h);
            |ids| == |es| && forall i :: 0 <= i < |es| ==> es[i].id == ids[i]
  {
    hide AllBehind, AllMet, StoreKept, TrailOf, Passing, StoreOk;
  }

  // ---------------------------------------------------------------------------
  // One record accepted.

  lemma TrailGrows<P>(got: seq<Header<P>>, h: Header<P>)
    ensures TrailOf(got + [h]) == Along(TrailOf(got), h)
  {
    assert (got + [h])[..|got|] == got;
  }

  /** A side that goes on keeps behind what was behind. */
  predicate GoesOn(s: nat, count: nat, s': nat, count': nat) {
    (s' == s && count <= count') || s' == s + 2
  }

  lemma StaysBehind<K, P, C>(
    S: Suite<K, P, C>, ep: seq<Epoch<K>>, ep': seq<Epoch<K>>,
    s: nat, count: nat, s': nat, count': nat, id: SkippedKey<P>)
    requires s < |ep| && s' < |ep'| && Continues(ep, ep') && GoesOn(s, count, s', count') && Behind(S, ep, s, count, id)
    ensures Behind(S, ep', s', count', id)
  {
    var e :| 1 <= e < s && e % 2 != s % 2 && id.pub == S.public(ep[e].name) && (e == s - 1 ==> id.n < count);
    assert id.pub == S.public(ep'[e].name);
  }

  lemma BehindGrows<K, P, C>(
    S: Suite<K, P, C>, ep: seq<Epoch<K>>, ep': seq<Epoch<K>>, s: nat, count: nat, s': nat, count': nat,
    got: seq<Header<P>>, h: Header<P>, passed: seq<SkippedKey<P>>, ids: seq<SkippedKey<P>>)
    requires s < |ep| && s' < |ep'| && Continues(ep, ep') && GoesOn(s, count, s', count')
    requires AllBehind(S, ep, s, count, got, passed)
    requires Behind(S, ep', s', count', SkippedKey(h.pub, h.n))
    requires forall k :: 0 <= k < |ids| ==> Behind(S, ep', s', count', ids[k])
    ensures AllBehind(S, ep', s', count', got + [h], passed + ids)
  {
    hide Behind, Continues, GoesOn;
    var all, had := passed + ids, got + [h];
    forall k | 0 <= k < |all|
      ensures Behind(S, ep', s', count', all[k])
    {
      if k < |passed| {
        StaysBehind(S, ep, ep', s, count, s', count', passed[k]);
      } else {
        assert all[k] == ids[k - |passed|];
      }
    }
    forall i | 0 <= i < |had|
      ensures Behind(S, ep', s', count', SkippedKey(had[i].pub, had[i].n))
    {
      if i < |got| {
        StaysBehind(S, ep, ep', s, count, s', count', SkippedKey(got[i].pub, got[i].n));
      }
    }
  }

  /** The record's own position and those it passes are behind it. */
  lemma PassesBehind<K, P, C>(
    S: Suite<K, P, C>, ep: seq<Epoch<K>>, ep': seq<Epoch<K>>, s: nat, r: State<K, P>, got: seq<Header<P>>,
    h: Header<P>, e: nat)
    requires EpochsOk(S, ep) && History(S, ep, s, r, got) && AheadOf(S, ep, s, r, h, e) && Continues(ep, ep')
    requires e + 1 < |ep'|
    ensures Behind(S, ep', e + 1, h.n + 1, SkippedKey(h.pub, h.n))
    ensures var ids := PassedBy(TrailOf(got), h);
            forall k :: 0 <= k < |ids| ==> Behind(S, ep', e + 1, h.n + 1, ids[k])
  {
    hide AllBehind, AllMet, StoreKept, TrailOf;
    assert h.pub == S.public(ep'[e].name);
    var ids := PassedBy(TrailOf(got), h);
    forall k | 0 <= k < |ids|
      ensures Behind(S, ep', e + 1, h.n + 1, ids[k])
    {
      if ids[k].pub != h.pub {
        assert s >= 2 && ids[k].pub == S.public(ep'[s - 1].name);
      }
    }
  }

  lemma MetGrows<P>(
    got: seq<Header<P>>, passed: seq<SkippedKey<P>>, h: Header<P>, ids: seq<SkippedKey<P>>, id: SkippedKey<P>)
    requires Met(got, passed, id) || id == SkippedKey(h.pub, h.n) || id in ids
    ensures Met(got + [h], passed + ids, id)
  {
    hide Taken;
    TakenGrows(got, h, id);
  }

  lemma InSpan<P>(pub: P, from: nat, to: u32, n: u32)
    requires from <= n < to
    ensures SkippedKey(pub, n) in Span(pub, from, to)
  {
    assert Span(pub, from, to)[n - from] == SkippedKey(pub, n);
  }

  lemma PassesMet<K, P, C>(
    S: Suite<K, P, C>, ep: seq<Epoch<K>>, ep': seq<Epoch<K>>, s: nat, r: State<K, P>, got: seq<Header<P>>,
    h: Header<P>, e: nat)
    requires EpochsOk(S, ep) && History(S, ep, s, r, got) && AheadOf(S, ep, s, r, h, e) && ep <= ep'
    requires e + 1 < |ep'|
    ensures AllMet(S, ep', e + 1, h.n + 1, got + [h], TrailOf(got).passed + PassedBy(TrailOf(got), h))
  {
    hide AllBehind, StoreKept, TrailOf, Met, EpochsOk;
    var t := TrailOf(got);
    var ids := PassedBy(t, h);
    if e == s + 1 && s >= 2 {
      PubsDiffer(S, ep, s - 1, e);
    }
    forall d, n: u32 | 1 <= d < e + 1 && d % 2 != (e + 1) % 2 && n < Extent(ep', e + 1, h.n + 1, d)
      ensures Met(got + [h], t.passed + ids, SkippedKey(S.public(ep'[d].name), n))
    {
      var id := SkippedKey(S.public(ep[d].name), n);
      if d < s && n < Extent(ep, s, r.receiveCount, d) {
        assert Met(got, t.passed, id);
      } else if d == e {
        if n < h.n {
          InSpan(h.pub, if e + 1 == s then t.next else 0, h.n, n);
        }
      } else {
        InSpan(id.pub, t.next, h.pn, n);
      }
      MetGrows(got, t.passed, h, ids, id);
    }
  }

  lemma ChainInHand<K, P, C>(
    S: Suite<K, P, C>, ep: seq<Epoch<K>>, s: nat, r: State<K, P>, h: Header<P>, e: nat)
    requires EpochsOk(S, ep) && SideOk(S, ep, s, r) && AheadOf(S, ep, s, r, h, e)
    ensures r.receiveKey == Some(h.pub) ==> r.receiveChain.Some?
    ensures r.receiveKey == Some(h.pub) <==> e + 1 == s
    ensures Inc32(h.n) == h.n + 1
  {
  }

  lemma HistoryAhead<K, P, C>(
    S: Suite<K, P, C>, ep: seq<Epoch<K>>, ep': seq<Epoch<K>>, s: nat, r: State<K, P>, got: seq<Header<P>>,
    h: Header<P>, e: nat, newKey: Option<nat>)
    requires EpochsOk(S, ep) && History(S, ep, s, r, got) && SideOk(S, ep, s, r) && AheadOf(S, ep, s, r, h, e)
    requires WellFormed(r) && ep <= ep' && e + 1 < |ep'| && Receive(S, r, h, newKey).Ok?
    ensures !Stored(r.store, SkippedKey(h.pub, h.n))
    ensures History(S, ep', e + 1, Receive(S, r, h, newKey).value.next, got + [h])
  {
    hide EpochsOk, SideOk, AllBehind, AllMet, Aligned, Kept, Unique, TrailOf, Receive, PassedBy, NewestOf;
    var t := TrailOf(got);
    var ids := PassedBy(t, h);
    var store' := Receive(S, r, h, newKey).value.next.store;
    PassesUnique(S, ep, s, r, got, h, e);
    PassesNewKeys(S, ep, s, r, got, h, e);
    ChainInHand(S, ep, s, r, h, e);
    ReceiveStores(S, r, h, newKey);
    NewestFits(store', r.store + SkippedBy(S, r, h));
    IdsAgree(S, ep, s, r, got, h, e);
    GrowKeeps(t.passed, ids, got, r.store, SkippedBy(S, r, h), store');
    KeptGrows(t.passed + ids, got, store', h);
    PassesBehind(S, ep, ep', s, r, got, h, e);
    BehindGrows(S, ep, ep', s, r.receiveCount, e + 1, h.n + 1, got, h, t.passed, ids);
    PassesMet(S, ep, ep', s, r, got, h, e);
    TrailGrows(got, h);
  }

  lemma HistoryStored<K, P, C>(
    S: Suite<K, P, C>, ep: seq<Epoch<K>>, s: nat, r: State<K, P>, got: seq<Header<P>>, h: Header<P>)
    requires History(S, ep, s, r, got) && Stored(r.store, SkippedKey(h.pub, h.n))
    ensures History(S, ep, s, r.(store := Forget(r.store, SkippedKey(h.pub, h.n))), got + [h])
  {
    hide AllBehind, AllMet, Kept, TrailOf, Unique;
    var t := TrailOf(got);
    var id := SkippedKey(h.pub, h.n);
    assert id in t.passed;
    TrailGrows(got, h);
    ForgetKeeps(t.passed, got, r.store, h);
    assert t.passed + [] == t.passed;
    PassedStay(S, ep, s, r.receiveCount, got, h, t.passed);
  }

  lemma PassedStay<K, P, C>(
    S: Suite<K, P, C>, ep: seq<Epoch<K>>, s: nat, count: nat, got: seq<Header<P>>, h: Header<P>,
    passed: seq<SkippedKey<P>>)
    requires s < |ep| && AllBehind(S, ep, s, count, got, passed) && AllMet(S, ep, s, count, got, passed)
    requires SkippedKey(h.pub, h.n) in passed
    ensures AllBehind(S, ep, s, count, got + [h], passed) && AllMet(S, ep, s, count, got + [h], passed)
  {
    hide Behind, Met;
    assert passed + [] == passed;
    BehindGrows(S, ep, ep, s, count, s, count, got, h, passed, []);
    forall e, n: u32 | 1 <= e < s && e % 2 != s % 2 && n < Extent(ep, s, count, e)
      ensures Met(got + [h], passed, SkippedKey(S.public(ep[e].name), n))
    {
      MetGrows(got, passed, h, [], SkippedKey(S.public(ep[e].name), n));
    }
  }

  lemma ReachableAhead<K, P, C>(
    S: Suite<K, P, C>, tag: K, ep: seq<Epoch<K>>, s: nat, r: State<K, P>, p: Posted<P, C>)
    requires EpochsOk(S, ep) && SideOk(S, ep, s, r) && PostedOk(S, tag, ep, p) && Reachable(S, ep, s, r, p)
    requires !Stored(r.store, SkippedKey(p.record.header.pub, p.record.header.n))
    ensures AheadOf(S, ep, s, r, p.record.header, p.epoch)
  {
  }

  /** Accepting a record keeps the store in step with the history. */
  lemma HistoryReceive<K, P, C>(
    S: Suite<K, P, C>, tag: K, ep: seq<Epoch<K>>, ep': seq<Epoch<K>>, s: nat, r: State<K, P>, got: seq<Header<P>>,
    p: Posted<P, C>, newKey: Option<nat>)
    requires EpochsOk(S, ep) && History(S, ep, s, r, got) && SideOk(S, ep, s, r) && WellFormed(r)
    requires PostedOk(S, tag, ep, p) && Reachable(S, ep, s, r, p) && ep <= ep'
    requires Receive(S, r, p.record.header, newKey).Ok?
    requires s + 2 * (Settle(Receive(S, r, p.record.header, newKey).value).steps - r.steps) < |ep'|
    ensures var r' := Settle(Receive(S, r, p.record.header, newKey).value);
            var s' := s + 2 * (r'.steps - r.steps);
            s' >= 0 && History(S, ep', s', r', got + [p.record.header])
  {
    hide EpochsOk, SideOk, History, Reachable, TurnTo, Advance;
    var h := p.record.header;
    SideFacts(S, ep, s, r);
    AtMostOneTurn(S, r, h, newKey);
    if Stored(r.store, SkippedKey(h.pub, h.n)) {
      HistoryStored(S, ep, s, r, got, h);
      HistoryContinues(S, ep, ep', s, r.(store := Forget(r.store, SkippedKey(h.pub, h.n))), got + [h]);
    } else {
      ReachableAhead(S, tag, ep, s, r, p);
      ChainInHand(S, ep, s, r, h, p.epoch);
      FromNone(S, r, h, newKey);
      HistoryAhead(S, ep, ep', s, r, got, h, p.epoch, newKey);
    }
  }

  lemma FromNone<K, P, C>(S: Suite<K, P, C>, r: State<K, P>, h: Header<P>, newKey: Option<nat>)
    requires WellFormed(r) && !Stored(r.store, SkippedKey(h.pub, h.n)) && Receive(S, r, h, newKey).Ok?
    ensures Receive(S, r, h, newKey).value.from.None?
  {
    hide SkipTo, Step;
  }

  /** Epochs behind a side are settled: what happens later does not touch its history. */
  lemma HistoryContinues<K, P, C>(
    S: Suite<K, P, C>, ep: seq<Epoch<K>>, ep': seq<Epoch<K>>, s: nat, r: State<K, P>, got: seq<Header<P>>)
    requires History(S, ep, s, r, got) && Continues(ep, ep')
    requires forall e :: 0 <= e < s && e + 1 != s ==> ep'[e] == ep[e]
    ensures History(S, ep', s, r, got)
  {
    hide StoreKept, TrailOf, Behind, Met;
    var t := TrailOf(got);
    forall k | 0 <= k < |t.passed|
      ensures Behind(S, ep', s, r.receiveCount, t.passed[k])
    {
      StaysBehind(S, ep, ep', s, r.receiveCount, s, r.receiveCount, t.passed[k]);
    }
    forall i | 0 <= i < |got|
      ensures Behind(S, ep', s, r.receiveCount, SkippedKey(got[i].pub, got[i].n))
    {
      StaysBehind(S, ep, ep', s, r.receiveCount, s, r.receiveCount, SkippedKey(got[i].pub, got[i].n));
    }
    forall e, n: u32 | 1 <= e < s && e % 2 != s % 2 && n < Extent(ep', s, r.receiveCount, e)
      ensures Met(got, t.passed, SkippedKey(S.public(ep'[e].name), n))
    {
      assert n < Extent(ep, s, r.receiveCount, e);
      assert ep'[e].name == ep[e].name;
    }
  }

  // ---------------------------------------------------------------------------
  // Runs.

  /** The headers one side accepts with an event, and over a run. */
  function TookWith(w: World, act: Act, x: Side): seq<Header<Pub>>
    requires Ready(w.sys)
  {
    match act
    case Arrives(y, record, random) =>
      if y == x && Decrypt(SYM, w.sys.Get(x), record, if random then Some(w.next) else None).Ok? then [record.header]
      else []
    case _ => []
  }

  function Took(w: World, acts: seq<Act>, x: Side): seq<Header<Pub>>
    requires Ready(w.sys)
  {
    if acts == [] then []
    else
      var init := acts[..|acts| - 1];
      Took(w, init, x) + TookWith(Execute(w, init), acts[|acts| - 1], x)
  }

  predicate Remembers(w: World, ep: seq<Epoch<Key>>, x: Side, got: seq<Header<Pub>>) {
    History(SYM, ep, w.sys.Turn(x), w.sys.Get(x).ratchet, got)
  }

  lemma StartRemembers(seed: nat, tag: nat, ep: seq<Epoch<Key>>, x: Side)
    requires WorldInv(Init(seed, tag), ep)
    ensures Remembers(Init(seed, tag), ep, x, [])
  {
    hide EpochsOk, LogOk, StoreOk;
    Disassemble(SYM, Init(seed, tag).sys, ep, x);
    SideFacts(SYM, ep, Init(seed, tag).sys.Turn(x), Init(seed, tag).sys.Get(x).ratchet);
  }

  lemma SameHistory(ep: seq<Epoch<Key>>, s: nat, r: State<Key, Pub>, r': State<Key, Pub>, got: seq<Header<Pub>>)
    requires History(SYM, ep, s, r, got) && r'.receiveCount == r.receiveCount && r'.store == r.store
    ensures History(SYM, ep, s, r', got)
  {
    hide TrailAt, AllBehind, AllMet, StoreKept, TrailOf;
  }

  lemma SendKeepsStore(r: State<Key, Pub>)
    requires Next(SYM, r).Ok?
    ensures var r' := Next(SYM, r).value.next;
            r'.receiveCount == r.receiveCount && r'.store == r.store && r'.steps == r.steps
  {
  }

  lemma SaysRemembers(
    w: World, ep: seq<Epoch<Key>>, ep': seq<Epoch<Key>>, x: Side, plaintext: bytes, y: Side, got: seq<Header<Pub>>)
    requires Ready(w.sys) && WorldInv(w, ep) && Remembers(w, ep, y, got)
    requires Continues(ep, ep') && forall e :: 0 <= e < |ep| && e != w.sys.Turn(x) ==> ep'[e] == ep[e]
    ensures Remembers(Do(w, Says(x, plaintext)), ep', y, got)
  {
    hide Inv, Apply, History, Encrypt, Next, SideOk, EpochsOk, LogOk;
    Disassemble(SYM, w.sys, ep, x);
    ApplyPost(SYM, w.sys, x, plaintext);
    HistoryContinues(SYM, ep, ep', w.sys.Turn(y), w.sys.Get(y).ratchet, got);
    if Encrypt(SYM, w.sys.Get(x), plaintext).Ok? && y == x {
      SendKeepsStore(w.sys.Get(x).ratchet);
      SameHistory(ep', w.sys.Turn(x), w.sys.Get(x).ratchet, Next(SYM, w.sys.Get(x).ratchet).value.next, got);
    }
  }

  lemma ArrivesRemembers(
    w: World, ep: seq<Epoch<Key>>, ep': seq<Epoch<Key>>, x: Side, record: Record<Pub, Box>, random: bool, y: Side,
    got: seq<Header<Pub>>)
    requires Ready(w.sys) && WorldInv(w, ep) && Unforged(w.sys, record) && Remembers(w, ep, y, got)
    requires ep <= ep' && WorldInv(Do(w, Arrives(x, record, random)), ep')
    ensures Remembers(Do(w, Arrives(x, record, random)), ep', y, got + TookWith(w, Arrives(x, record, random), y))
  {
    hide Inv, History, Decrypt, SideOk, EpochsOk, LogOk, Reachable, Unforged, Receive, Settle;
    var newKey := if random then Some(w.next) else None;
    Disassemble(SYM, w.sys, ep, x);
    var sys' := Do(w, Arrives(x, record, random)).sys;
    Disassemble(SYM, sys', ep', x);
    if Decrypt(SYM, w.sys.Get(x), record, newKey).Ok? {
      ApplyDeliver(SYM, w.sys, x, record, newKey);
      if y == x {
        var i := OpensOnlyHonest(w, ep, x, record, newKey);
        PostedOfLog(SYM, w.sys.a.tag, ep, w.sys.log, w.sys.log[i]);
        HistoryReceive(
          SYM, w.sys.a.tag, ep, ep', w.sys.Turn(x), w.sys.Get(x).ratchet, got, w.sys.log[i], newKey);
      } else {
        HistoryContinues(SYM, ep, ep', w.sys.Turn(y), w.sys.Get(y).ratchet, got);
        assert got + [] == got;
      }
    } else {
      HistoryContinues(SYM, ep, ep', w.sys.Turn(y), w.sys.Get(y).ratchet, got);
      assert got + [] == got;
    }
  }

  lemma {:induction false} RunRemembers(seed: nat, tag: nat, acts: seq<Act>) returns (ep: seq<Epoch<Key>>)
    requires PossibleRun(Init(seed, tag), acts)
    ensures WorldInv(Execute(Init(seed, tag), acts), ep)
    ensures Remembers(Execute(Init(seed, tag), acts), ep, A, Took(Init(seed, tag), acts, A))
    ensures Remembers(Execute(Init(seed, tag), acts), ep, B, Took(Init(seed, tag), acts, B))
  {
    hide WorldInv, Do, Unforged, Init, Remembers, TookWith;
    if acts == [] {
      ep := StartHolds(seed, tag);
      StartRemembers(seed, tag, ep, A);
      StartRemembers(seed, tag, ep, B);
    } else {
      var init := acts[..|acts| - 1];
      var before := RunRemembers(seed, tag, init);
      var w := Execute(Init(seed, tag), init);
      ep := ActRemembers(w, before, acts[|acts| - 1], Took(Init(seed, tag), init, A), Took(Init(seed, tag), init, B));
    }
  }

  lemma ActRemembers(w: World, before: seq<Epoch<Key>>, act: Act, gotA: seq<Header<Pub>>, gotB: seq<Header<Pub>>)
    returns (ep: seq<Epoch<Key>>)
    requires Ready(w.sys) && WorldInv(w, before) && Possible(w, act)
    requires Remembers(w, before, A, gotA) && Remembers(w, before, B, gotB)
    ensures WorldInv(Do(w, act), ep)
    ensures Remembers(Do(w, act), ep, A, gotA + TookWith(w, act, A))
    ensures Remembers(Do(w, act), ep, B, gotB + TookWith(w, act, B))
  {
    hide WorldInv, Do, Unforged, Remembers;
    match act {
      case Says(x, plaintext) =>
        ep := SaysKeeps(w, before, x, plaintext);
        SaysRemembers(w, before, ep, x, plaintext, A, gotA);
        SaysRemembers(w, before, ep, x, plaintext, B, gotB);
        assert gotA + [] == gotA && gotB + [] == gotB;
      case Arrives(x, record, random) =>
        ep := ArrivesKeeps(w, before, x, record, random);
        ArrivesRemembers(w, before, ep, x, record, random, A, gotA);
        ArrivesRemembers(w, before, ep, x, record, random, B, gotB);
      case Closes(x) =>
        ep := before;
        ClosesKeeps(w, before, x);
        ClosesRemembers(w, before, x, A, gotA);
        ClosesRemembers(w, before, x, B, gotB);
        assert gotA + [] == gotA && gotB + [] == gotB;
    }
  }

  lemma ClosesRemembers(w: World, ep: seq<Epoch<Key>>, x: Side, y: Side, got: seq<Header<Pub>>)
    requires Ready(w.sys) && Remembers(w, ep, y, got)
    ensures Remembers(Do(w, Closes(x)), ep, y, got)
  {
    hide History;
  }

  // ---------------------------------------------------------------------------
  // The theorem.

  function IdOf(p: Posted<Pub, Box>): SkippedKey<Pub> {
    SkippedKey(p.record.header.pub, p.record.header.n)
  }

  /** The sender made the one record after the other. */
  predicate SentAfter(p: Posted<Pub, Box>, q: Posted<Pub, Box>) {
    q.epoch < p.epoch || (q.epoch == p.epoch && q.record.header.n < p.record.header.n)
  }

  lemma OvertakenIsMet(w: World, ep: seq<Epoch<Key>>, x: Side, got: seq<Header<Pub>>, i: nat, j: nat)
    requires WorldInv(w, ep) && Remembers(w, ep, x, got) && i < |w.sys.log| && j < |w.sys.log|
    requires w.sys.log[i].sender == w.sys.log[j].sender == Peer(x) && SentAfter(w.sys.log[j], w.sys.log[i])
    requires Taken(got, IdOf(w.sys.log[j]))
    ensures Met(got, TrailOf(got).passed, IdOf(w.sys.log[i]))
  {
    hide Inv, SideOk, EpochsOk, TrailAt, StoreKept, TrailOf, Met, Behind;
    var p, q := w.sys.log[i], w.sys.log[j];
    var s, count := w.sys.Turn(x), w.sys.Get(x).ratchet.receiveCount;
    Disassemble(SYM, w.sys, ep, x);
    assert PostedOk(SYM, w.sys.a.tag, ep, p) && PostedOk(SYM, w.sys.a.tag, ep, q);
    var k :| 0 <= k < |got| && got[k].pub == IdOf(q).pub && got[k].n == IdOf(q).n;
    assert Behind(SYM, ep, s, count, SkippedKey(got[k].pub, got[k].n));
    BehindAt(SYM, ep, s, count, IdOf(q), q.epoch);
    assert IdOf(p).n < Extent(ep, s, count, p.epoch);
  }

  /**
   * A record not yet accepted, overtaken by an accepted one, still opens, to its own plaintext and with no new key,
   * as long as fewer than MAX_SKIP_STORE positions were passed over after it.
   */
  lemma LateRecordDecrypts(seed: nat, tag: nat, acts: seq<Act>, x: Side, i: nat, j: nat, newKey: Option<nat>)
    requires PossibleRun(Init(seed, tag), acts)
    requires var log := Execute(Init(seed, tag), acts).sys.log;
             var got := Took(Init(seed, tag), acts, x);
             && i < |log| && j < |log| && log[i].sender == log[j].sender == Peer(x) && SentAfter(log[j], log[i])
             && Taken(got, IdOf(log[j])) && !Taken(got, IdOf(log[i]))
             && |TrailOf(got).passed| - Pos(TrailOf(got).passed, IdOf(log[i])) <= MAX_SKIP_STORE
    requires !Execute(Init(seed, tag), acts).sys.Get(x).closed
    ensures var sys := Execute(Init(seed, tag), acts).sys;
            && IdOf(sys.log[i]) in TrailOf(Took(Init(seed, tag), acts, x)).passed
            && var res := Decrypt(SYM, sys.Get(x), sys.log[i].record, newKey);
               res.Ok? && res.value.plaintext == sys.log[i].plaintext
  {
    hide WorldInv, Remembers, Execute, Took, TrailOf, Init, PossibleRun, Decrypt, Taken;
    var ep := RunRemembers(seed, tag, acts);
    var w := Execute(Init(seed, tag), acts);
    var got := Took(Init(seed, tag), acts, x);
    assert Remembers(w, ep, x, got) by { assert x == A || x == B; }
    OvertakenIsMet(w, ep, x, got, i, j);
    LateIsStored(w, ep, x, got, IdOf(w.sys.log[i]));
    ReachBothWays(w, ep, x, i);
    StoredNeedsNoKey(w.sys.Get(x), w.sys.log[i].record, newKey, Some(w.next));
  }

  lemma LateIsStored(w: World, ep: seq<Epoch<Key>>, x: Side, got: seq<Header<Pub>>, id: SkippedKey<Pub>)
    requires Remembers(w, ep, x, got) && id in TrailOf(got).passed && !Taken(got, id)
    requires |TrailOf(got).passed| - Pos(TrailOf(got).passed, id) <= MAX_SKIP_STORE
    ensures Stored(w.sys.Get(x).ratchet.store, id)
  {
    hide TrailAt, AllBehind, AllMet, TrailOf, Taken, Aligned;
    var passed := TrailOf(got).passed;
    var k := Pos(passed, id);
    assert k < |passed| && passed[k] == id;
  }

  lemma StoredNeedsNoKey(s: Session<Key, Pub>, rec: Record<Pub, Box>, k1: Option<nat>, k2: Option<nat>)
    requires WellFormed(s.ratchet) && Stored(s.ratchet.store, SkippedKey(rec.header.pub, rec.header.n))
    ensures Decrypt(SYM, s, rec, k1) == Decrypt(SYM, s, rec, k2)
  {
  }

  // ---------------------------------------------------------------------------
  // Sending.

  lemma {:induction false} TrailStarts<P>(got: seq<Header<P>>)
    ensures TrailOf(got).at.Some? <==> got != []
  {
    if got != [] {
      TrailStarts(got[..|got| - 1]);
      hide PassedBy;
      var t := TrailOf(got[..|got| - 1]);
      if t.at.None? {
        assert got[..|got| - 1] == [];
      }
    }
  }

  /**
   * Over every run: a side can send exactly while its session is open and its chain not used up, the accepting side
   * only once it has accepted a record.
   */
  lemma CanSendExactly(seed: nat, tag: nat, acts: seq<Act>, x: Side, plaintext: bytes)
    requires PossibleRun(Init(seed, tag), acts)
    ensures var s := Execute(Init(seed, tag), acts).sys.Get(x);
            Encrypt(SYM, s, plaintext).Ok? <==>
            !s.closed && s.ratchet.sendCount < U32_MAX && (x == A || Took(Init(seed, tag), acts, x) != [])
  {
    hide WorldInv, Remembers, Execute, Took, TrailOf, Init, PossibleRun;
    var ep := RunRemembers(seed, tag, acts);
    var w := Execute(Init(seed, tag), acts);
    var got := Took(Init(seed, tag), acts, x);
    assert Remembers(w, ep, x, got) by { assert x == A || x == B; }
    TrailStarts(got);
    SendsFrom(w, ep, x, got);
  }

  lemma SendsFrom(w: World, ep: seq<Epoch<Key>>, x: Side, got: seq<Header<Pub>>)
    requires WorldInv(w, ep) && Remembers(w, ep, x, got) && (TrailOf(got).at.Some? <==> got != [])
    ensures w.sys.Get(x).ratchet.sendChain.Some? <==> x == A || got != []
  {
    hide AllBehind, AllMet, StoreKept, TrailOf, EpochsOk, ReceiveOk;
    Disassemble(SYM, w.sys, ep, x);
    hide Inv;
  }
}
