/**
 * Where every field lies on the wire, by offset (internal/e2ee/wire.go, handshake.go and ratchet.go). Integers are read
 * by a definition of big-endian order of their own.
 */
module Layout {
  import opened Common
  import opened Wire
  import opened Codec
  import L = Labels
  import R = Ratchet

  /** The number a byte string spells, most significant byte first. */
  function BigEndian(b: bytes): nat {
    if b == [] then 0 else 0x100 * BigEndian(b[..|b| - 1]) + b[|b| - 1]
  }

  lemma TwoBytes(v: u16)
    ensures BigEndian(PutU16(v)) == v
  {
    var b := PutU16(v);
    assert b[..1] == [b[0]] && [b[0]][..0] == [];
    assert BigEndian(b[..1]) == b[0];
  }

  lemma FourBytes(v: u32)
    ensures BigEndian(PutU32(v)) == v
  {
    var b := PutU32(v);
    TwoBytes(v / 0x1_0000);
    var hi := PutU16(v / 0x1_0000);
    assert b[..3][..2] == hi && b[..2] == hi;
    assert BigEndian(b[..3]) == 0x100 * BigEndian(hi) + b[2];
  }

  /** The field of `b` at an offset. */
  predicate FieldAt(b: bytes, at: nat, field: bytes) {
    at + |field| <= |b| && b[at..at + |field|] == field
  }

  predicate NumberAt(b: bytes, at: nat, size: nat, v: nat) {
    at + size <= |b| && BigEndian(b[at..at + size]) == v
  }

  lemma FieldFirst(field: bytes, rest: bytes)
    ensures FieldAt(field + rest, 0, field)
  {
  }

  lemma FieldLast(head: bytes, field: bytes)
    ensures FieldAt(head + field, |head|, field)
  {
  }

  /** What lies in a tail lies in the whole, further on. */
  lemma FieldLater(head: bytes, rest: bytes, at: nat, field: bytes)
    requires FieldAt(rest, at, field)
    ensures FieldAt(head + rest, |head| + at, field)
  {
    assert (head + rest)[|head| + at..|head| + at + |field|] == rest[at..at + |field|];
  }

  lemma NumberOf(b: bytes, at: nat, field: bytes)
    requires FieldAt(b, at, field)
    ensures NumberAt(b, at, |field|, BigEndian(field))
  {
  }

  /** Record header: version, ratchet key, previous count, index. */
  lemma HeaderLayout(h: R.Header<bytes>)
    requires |h.pub| == PUB_SIZE
    ensures var b := EncodeHeader(h);
            && |b| == 41 && b[0] == h.version && FieldAt(b, 1, h.pub)
            && NumberAt(b, 33, 4, h.pn) && NumberAt(b, 37, 4, h.n)
  {
    HeaderParts([h.version], h.pub, PutU32(h.pn), PutU32(h.n));
    FourBytes(h.pn);
    FourBytes(h.n);
    hide BigEndian, PutU32;
  }

  lemma {:induction false} VersionAt(vs: seq<u16>, i: nat)
    requires i < |vs|
    ensures FieldAt(PutVersions(vs), 2 * i, PutU16(vs[i]))
  {
    hide PutU16;
    if i == 0 {
      FieldFirst(PutU16(vs[0]), PutVersions(vs[1..]));
    } else {
      VersionAt(vs[1..], i - 1);
      FieldLater(PutU16(vs[0]), PutVersions(vs[1..]), 2 * (i - 1), PutU16(vs[i]));
    }
  }

  lemma {:induction false} VersionsLength(vs: seq<u16>)
    ensures |PutVersions(vs)| == 2 * |vs|
  {
    if vs != [] {
      VersionsLength(vs[1..]);
    }
  }

  /** Five fields one after the other. */
  lemma FiveFields(a: bytes, b: bytes, c: bytes, d: bytes, e: bytes)
    ensures var s := a + (b + (c + (d + e)));
            && |s| == |a| + |b| + |c| + |d| + |e|
            && FieldAt(s, 0, a) && FieldAt(s, |a|, b) && FieldAt(s, |a| + |b|, c)
            && FieldAt(s, |a| + |b| + |c|, d) && FieldAt(s, |a| + |b| + |c| + |d|, e)
  {
    hide FieldAt;
    FieldFirst(d, e);
    FieldFirst(c, d + e);
    FieldFirst(b, c + (d + e));
    FieldFirst(a, b + (c + (d + e)));
    FieldLast(d, e);
    FieldLater(c, d + e, 0, d);
    FieldLater(c, d + e, |d|, e);
    FieldLater(b, c + (d + e), 0, c);
    FieldLater(b, c + (d + e), |c|, d);
    FieldLater(b, c + (d + e), |c| + |d|, e);
    FieldLater(a, b + (c + (d + e)), 0, b);
    FieldLater(a, b + (c + (d + e)), |b|, c);
    FieldLater(a, b + (c + (d + e)), |b| + |c|, d);
    FieldLater(a, b + (c + (d + e)), |b| + |c| + |d|, e);
  }

  /** A field within a field. */
  lemma FieldWithin(b: bytes, at: nat, field: bytes, inner: nat, part: bytes)
    requires FieldAt(b, at, field) && FieldAt(field, inner, part)
    ensures FieldAt(b, at + inner, part)
  {
    var got := b[at + inner..at + inner + |part|];
    forall i | 0 <= i < |part|
      ensures got[i] == part[i]
    {
      assert b[at..at + |field|][inner + i] == field[inner + i];
      assert field[inner..inner + |part|][i] == part[i];
    }
  }

  /** M1: kind, number of versions, the versions, ephemeral key, KEM key, random. */
  lemma HelloLayout(m: Hello)
    requires HelloFits(m)
    ensures var b := EncodeHello(m);
            var k := 2 + 2 * |m.versions|;
            && |b| == k + 32 + KEM_KEY_SIZE + 32 && FieldAt(b, 0, [1, |m.versions|])
            && FieldAt(b, k, m.ephemeral) && FieldAt(b, k + 32, m.kemKey)
            && FieldAt(b, k + 32 + KEM_KEY_SIZE, m.random)
            && forall i :: 0 <= i < |m.versions| ==> NumberAt(b, 2 + 2 * i, 2, m.versions[i])
  {
    var head: bytes := [1, |m.versions|];
    var vs := PutVersions(m.versions);
    var b := EncodeHello(m);
    assert b == head + (vs + (m.ephemeral + (m.kemKey + m.random)));
    VersionsLength(m.versions);
    FiveFields(head, vs, m.ephemeral, m.kemKey, m.random);
    hide EncodeHello, PutVersions, BigEndian, FieldAt, PutU16, NumberAt;
    forall i: nat | 0 <= i < |m.versions|
      ensures NumberAt(b, 2 + 2 * i, 2, m.versions[i])
    {
      VersionAt(m.versions, i);
      TwoBytes(m.versions[i]);
      FieldWithin(b, 2, vs, 2 * i, PutU16(m.versions[i]));
      NumberOf(b, 2 + 2 * i, PutU16(m.versions[i]));
    }
  }

  /** M2: kind, version, ephemeral key, KEM ciphertext, random, then C2 behind its length. */
  lemma ReplyLayout(m: Reply)
    requires ReplyFits(m)
    ensures var b := EncodeReply(m);
            && |b| == M2_HEADER_LEN + 4 + |m.c2| && FieldAt(b, 0, [2]) && NumberAt(b, 1, 2, m.version)
            && FieldAt(b, 3, m.ephemeral) && FieldAt(b, 35, m.kemCiphertext)
            && FieldAt(b, 35 + KEM_CIPHERTEXT_SIZE, m.random)
            && NumberAt(b, M2_HEADER_LEN, 4, |m.c2|) && FieldAt(b, M2_HEADER_LEN + 4, m.c2)
  {
    var b := EncodeReply(m);
    var header := ReplyHeader(m.version, m.ephemeral, m.kemCiphertext, m.random);
    assert b == header + Lp(m.c2);
    FiveFields([2], PutU16(m.version), m.ephemeral, m.kemCiphertext, m.random);
    FieldFirst(header, Lp(m.c2));
    LpLayout(header, m.c2);
    TwoBytes(m.version);
    hide EncodeReply, ReplyHeader, Lp, BigEndian, FieldAt, PutU16, NumberAt;
    FieldWithin(b, 0, header, 0, [2]);
    FieldWithin(b, 0, header, 1, PutU16(m.version));
    FieldWithin(b, 0, header, 3, m.ephemeral);
    FieldWithin(b, 0, header, 35, m.kemCiphertext);
    FieldWithin(b, 0, header, 35 + KEM_CIPHERTEXT_SIZE, m.random);
    NumberOf(b, 1, PutU16(m.version));
  }

  /** A length prefix: four bytes, then the string. */
  lemma LpLayout(head: bytes, x: bytes)
    requires |x| < 0x1_0000_0000
    ensures var b := head + Lp(x);
            |b| == |head| + 4 + |x| && NumberAt(b, |head|, 4, |x|) && FieldAt(b, |head| + 4, x)
  {
    FourBytes(|x|);
    FieldFirst(PutU32(|x|), x);
    assert FieldAt(Lp(x), 4, x);
    hide BigEndian, PutU32, FieldAt, NumberAt;
    FieldLater(head, Lp(x), 0, PutU32(|x|));
    FieldLater(head, Lp(x), 4, x);
    NumberOf(head + Lp(x), |head|, PutU32(|x|));
  }

  /** M3: kind, then C3 behind its length. */
  lemma FinishLayout(c3: bytes)
    requires |c3| < 0x1_0000_0000
    ensures var b := EncodeFinish(c3);
            |b| == 5 + |c3| && b[0] == 3 && NumberAt(b, 1, 4, |c3|) && FieldAt(b, 5, c3)
  {
    LpLayout([3], c3);
    hide Lp, BigEndian;
  }

  /** The sealed payload: identity key, ID, signature, MAC, nickname; ID and nickname behind their lengths. */
  lemma PayloadLayout(p: AuthPayload)
    requires PayloadFits(p)
    ensures var b := EncodePayload(p);
            var k := 36 + |p.id|;
            && |b| == k + 64 + 32 + 4 + |p.nickname|
            && FieldAt(b, 0, p.identity) && NumberAt(b, 32, 4, |p.id|) && FieldAt(b, 36, p.id)
            && FieldAt(b, k, p.signature) && FieldAt(b, k + 64, p.mac)
            && NumberAt(b, k + 96, 4, |p.nickname|) && FieldAt(b, k + 100, p.nickname)
  {
    var b := EncodePayload(p);
    FiveFields(p.identity, Lp(p.id), p.signature, p.mac, Lp(p.nickname));
    PrefixWithin(b, 32, p.id);
    PrefixWithin(b, 132 + |p.id|, p.nickname);
    hide EncodePayload, Lp, BigEndian, FieldAt, NumberAt;
  }

  lemma PrefixWithin(b: bytes, at: nat, x: bytes)
    requires |x| < 0x1_0000_0000 && FieldAt(b, at, Lp(x))
    ensures |Lp(x)| == 4 + |x| && NumberAt(b, at, 4, |x|) && FieldAt(b, at + 4, x)
  {
    LpLayout([], x);
    assert [] + Lp(x) == Lp(x);
    FieldWithin(b, at, Lp(x), 4, x);
    assert b[at..at + 4] == b[at..at + |Lp(x)|][..4];
    hide Lp, BigEndian;
  }

  /** A frame on the TLS stream: its length in four bytes, then the payload; none over the limit is written. */
  lemma FrameLayout(payload: bytes)
    ensures WriteFrame(payload).Some? <==> |payload| <= 0x1_0000
    ensures WriteFrame(payload).Some? ==>
              var b := WriteFrame(payload).value;
              |b| == 4 + |payload| && NumberAt(b, 0, 4, |payload|) && FieldAt(b, 4, payload)
  {
    hide BigEndian, FieldAt, NumberAt, PutU32;
    if |payload| <= MAX_FRAME_SIZE {
      LpLayout([], payload);
      assert [] + Lp(payload) == Lp(payload);
    }
  }

  /** A frame is refused by its announced length alone, before any of it is read. */
  lemma RefusedByLength(stream: bytes)
    requires |stream| >= 4
    ensures ReadFrame(stream).TooLarge? <==> BigEndian(stream[..4]) > 0x1_0000
    ensures ReadFrame(stream).Truncated? <==> |stream| - 4 < BigEndian(stream[..4]) <= 0x1_0000
  {
    var n := GetU32(stream[..4]);
    U32RoundTrip(n, stream[..4]);
    FourBytes(n);
    hide BigEndian, GetU32, PutU32;
  }

  /** What a signature or a MAC covers: label, a zero byte, transcript, identity key, then the ID behind its length. */
  lemma ContextLayout(p: L.Purpose, transcript: bytes, identity: bytes, id: bytes)
    requires |transcript| == 32 && |identity| == 32 && |id| < 0x1_0000_0000
    ensures var b := L.Context(p, transcript, identity, id);
            var k := |L.Label(p)|;
            && FieldAt(b, 0, L.Label(p)) && FieldAt(b, k, [0]) && FieldAt(b, k + 1, transcript)
            && FieldAt(b, k + 33, identity) && NumberAt(b, k + 65, 4, |id|) && FieldAt(b, k + 69, id)
  {
    hide BigEndian, Lp, L.Label, FieldAt, NumberAt;
    var b := L.Context(p, transcript, identity, id);
    FiveFields(L.Label(p), [0], transcript, identity, Lp(id));
    PrefixWithin(b, |L.Label(p)| + 65, id);
  }
}
