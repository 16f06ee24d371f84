/**
 * The handshake messages and the frame layer (internal/e2ee/wire.go and the encoders and
 * parsers of internal/e2ee/handshake.go). Every encoding is canonical: decoding inverts
 * encoding, and a byte string that decodes is the encoding of what it decodes to.
 */
module Codec {
  import opened Common
  import opened Wire
  import Padding

  // ---------------------------------------------------------------------------
  // The bounds-checked cursor.

  datatype Cursor = Cursor(rest: bytes, ok: bool)

  function Take(c: Cursor, n: nat): (bytes, Cursor) {
    if !c.ok then ([], c)
    else if |c.rest| < n then ([], c.(ok := false))
    else (c.rest[..n], Cursor(c.rest[n..], true))
  }

  function ReadU8(c: Cursor): (byte, Cursor) {
    var (b, c') := Take(c, 1);
    (if c'.ok then b[0] else 0, c')
  }

  function ReadU16(c: Cursor): (u16, Cursor) {
    var (b, c') := Take(c, 2);
    (if c'.ok then GetU16(b) else 0, c')
  }

  function ReadU32(c: Cursor): (u32, Cursor) {
    var (b, c') := Take(c, 4);
    (if c'.ok then GetU32(b) else 0, c')
  }

  function ReadLp(c: Cursor): (bytes, Cursor) {
    var (n, c') := ReadU32(c);
    if !c'.ok then ([], c')
    else if n > |c'.rest| then ([], c'.(ok := false))
    else Take(c', n)
  }

  /** Parsed cleanly and fully consumed. */
  predicate Done(c: Cursor) {
    c.ok && c.rest == []
  }

  function Lp(b: bytes): bytes {
    PutU32(|b| % 0x1_0000_0000) + b
  }

  /** The cursor as the program moves it. */
  class Reader {
    var b: bytes
    var failed: bool

    ghost function Abs(): Cursor
      reads this
    {
      Cursor(b, !failed)
    }

    constructor (frame: bytes)
      ensures Abs() == Cursor(frame, true)
    {
      b, failed := frame, false;
    }

    method TakeBytes(n: nat) returns (out: bytes)
      modifies this
      ensures (out, Abs()) == Take(old(Abs()), n)
    {
      if failed {
        return [];
      }
      if |b| < n {
        failed := true;
        return [];
      }
      out := b[..n];
      b := b[n..];
    }

    method U8() returns (v: byte)
      modifies this
      ensures (v, Abs()) == ReadU8(old(Abs()))
    {
      var out := TakeBytes(1);
      v := if failed then 0 else out[0];
    }

    method U16() returns (v: u16)
      modifies this
      ensures (v, Abs()) == ReadU16(old(Abs()))
    {
      var out := TakeBytes(2);
      v := if failed then 0 else GetU16(out);
    }

    method U32() returns (v: u32)
      modifies this
      ensures (v, Abs()) == ReadU32(old(Abs()))
    {
      var out := TakeBytes(4);
      v := if failed then 0 else GetU32(out);
    }

    method LpBytes() returns (out: bytes)
      modifies this
      ensures (out, Abs()) == ReadLp(old(Abs()))
    {
      var n := U32();
      if failed {
        return [];
      }
      if n > |b| {
        failed := true;
        return [];
      }
      out := TakeBytes(n);
    }

    method Finished() returns (ok: bool)
      ensures ok == Done(Abs())
    {
      ok := !failed && b == [];
    }
  }

  // Reading back what was written.

  lemma TakeWritten(x: bytes, rest: bytes)
    ensures Take(Cursor(x + rest, true), |x|) == (x, Cursor(rest, true))
  {
    assert (x + rest)[..|x|] == x && (x + rest)[|x|..] == rest;
  }

  lemma U8Written(v: byte, rest: bytes)
    ensures ReadU8(Cursor([v] + rest, true)) == (v, Cursor(rest, true))
  {
    TakeWritten([v], rest);
  }

  lemma U16Written(v: u16, rest: bytes)
    ensures ReadU16(Cursor(PutU16(v) + rest, true)) == (v, Cursor(rest, true))
  {
    TakeWritten(PutU16(v), rest);
    U16RoundTrip(v, [0, 0]);
  }

  lemma LpWritten(x: bytes, rest: bytes)
    requires |x| < 0x1_0000_0000
    ensures ReadLp(Cursor(Lp(x) + rest, true)) == (x, Cursor(rest, true))
  {
    assert Lp(x) + rest == PutU32(|x|) + (x + rest);
    TakeWritten(PutU32(|x|), x + rest);
    U32RoundTrip(|x|, [0, 0, 0, 0]);
    TakeWritten(x, rest);
  }

  // What was read is what stood there; a cursor that is still good was good before.

  lemma TakeRead(c: Cursor, n: nat)
    ensures var (x, c') := Take(c, n);
            c'.ok ==> c.ok && |x| == n && c.rest == x + c'.rest
  {
  }

  lemma U8Read(c: Cursor)
    ensures var (v, c') := ReadU8(c);
            c'.ok ==> c.ok && c.rest == [v] + c'.rest
  {
    assert c.rest != [] ==> c.rest == [c.rest[0]] + c.rest[1..];
  }

  lemma U16Read(c: Cursor)
    ensures var (v, c') := ReadU16(c);
            c'.ok ==> c.ok && c.rest == PutU16(v) + c'.rest
  {
    if Take(c, 2).1.ok {
      U16RoundTrip(0, Take(c, 2).0);
    }
  }

  lemma LpRead(c: Cursor)
    ensures var (x, c') := ReadLp(c);
            c'.ok ==> c.ok && c.rest == Lp(x) + c'.rest && |x| < 0x1_0000_0000
  {
    if Take(c, 4).1.ok {
      U32RoundTrip(0, Take(c, 4).0);
    }
  }

  // ---------------------------------------------------------------------------
  // M1: type, offered versions, ephemeral, encapsulation key, random.

  const MSG_INIT: byte := 1
  const MSG_RESP: byte := 2
  const MSG_FINISH: byte := 3
  const KEM_KEY_SIZE := 1184
  const KEM_CIPHERTEXT_SIZE := 1088

  datatype Hello = Hello(versions: seq<u16>, ephemeral: bytes, kemKey: bytes, random: bytes)

  predicate HelloFits(m: Hello) {
    |m.versions| <= 255 && |m.ephemeral| == 32 && |m.kemKey| == KEM_KEY_SIZE && |m.random| == 32
  }

  function PutVersions(vs: seq<u16>): bytes {
    if vs == [] then [] else PutU16(vs[0]) + PutVersions(vs[1..])
  }

  function ReadVersions(c: Cursor, count: nat): (seq<u16>, Cursor)
    decreases count
  {
    if count == 0 then ([], c)
    else
      var (v, c1) := ReadU16(c);
      var (vs, c2) := ReadVersions(c1, count - 1);
      ([v] + vs, c2)
  }

  function EncodeHello(m: Hello): bytes {
    [MSG_INIT] + ([|m.versions| % 0x100] + (PutVersions(m.versions) + (m.ephemeral + (m.kemKey + m.random))))
  }

  function DecodeHello(b: bytes): Option<Hello> {
    var (kind, c1) := ReadU8(Cursor(b, true));
    if kind != MSG_INIT then None
    else
      var (count, c2) := ReadU8(c1);
      var (versions, c3) := ReadVersions(c2, count);
      var (ephemeral, c4) := Take(c3, 32);
      var (kemKey, c5) := Take(c4, KEM_KEY_SIZE);
      var (random, c6) := Take(c5, 32);
      if Done(c6) then Some(Hello(versions, ephemeral, kemKey, random)) else None
  }

  lemma {:induction false} VersionsWritten(vs: seq<u16>, rest: bytes)
    ensures ReadVersions(Cursor(PutVersions(vs) + rest, true), |vs|) == (vs, Cursor(rest, true))
  {
    if vs == [] {
      assert PutVersions(vs) + rest == rest;
    } else {
      assert PutVersions(vs) + rest == PutU16(vs[0]) + (PutVersions(vs[1..]) + rest);
      U16Written(vs[0], PutVersions(vs[1..]) + rest);
      VersionsWritten(vs[1..], rest);
      assert [vs[0]] + vs[1..] == vs;
    }
  }

  lemma {:induction false} VersionsRead(c: Cursor, count: nat)
    ensures var (vs, c') := ReadVersions(c, count);
            |vs| == count && (c'.ok ==> c.ok && c.rest == PutVersions(vs) + c'.rest)
    decreases count
  {
    if count > 0 {
      var (v, c1) := ReadU16(c);
      U16Read(c);
      VersionsRead(c1, count - 1);
      var (vs, c2) := ReadVersions(c1, count - 1);
      assert ([v] + vs)[1..] == vs;
      assert c2.ok ==> PutU16(v) + (PutVersions(vs) + c2.rest) == PutU16(v) + PutVersions(vs) + c2.rest;
    }
  }

  lemma HelloWritten(m: Hello)
    requires HelloFits(m)
    ensures DecodeHello(EncodeHello(m)) == Some(m)
  {
    var t5 := m.random + [];
    var t4 := m.kemKey + m.random;
    var t3 := m.ephemeral + t4;
    var t2 := PutVersions(m.versions) + t3;
    U8Written(MSG_INIT, [|m.versions|] + t2);
    U8Written(|m.versions|, t2);
    VersionsWritten(m.versions, t3);
    TakeWritten(m.ephemeral, t4);
    TakeWritten(m.kemKey, m.random);
    TakeWritten(m.random, []);
    assert t5 == m.random;
  }

  lemma HelloRead(b: bytes)
    ensures DecodeHello(b).Some? ==> HelloFits(DecodeHello(b).value) && EncodeHello(DecodeHello(b).value) == b
  {
    var c0 := Cursor(b, true);
    var (kind, c1) := ReadU8(c0);
    var (count, c2) := ReadU8(c1);
    var (versions, c3) := ReadVersions(c2, count);
    var (ephemeral, c4) := Take(c3, 32);
    var (kemKey, c5) := Take(c4, KEM_KEY_SIZE);
    U8Read(c0);
    U8Read(c1);
    VersionsRead(c2, count);
    TakeRead(c3, 32);
    TakeRead(c4, KEM_KEY_SIZE);
    TakeRead(c5, 32);
  }

  // ---------------------------------------------------------------------------
  // M2: a fixed-size header, then the length-prefixed ciphertext C2.

  datatype Reply = Reply(version: u16, ephemeral: bytes, kemCiphertext: bytes, random: bytes, c2: bytes)

  const M2_HEADER_LEN := 1 + 2 + 32 + KEM_CIPHERTEXT_SIZE + 32

  predicate ReplyFits(m: Reply) {
    |m.ephemeral| == 32 && |m.kemCiphertext| == KEM_CIPHERTEXT_SIZE && |m.random| == 32 && |m.c2| < 0x1_0000_0000
  }

  function ReplyHeader(version: u16, ephemeral: bytes, kemCiphertext: bytes, random: bytes): bytes {
    [MSG_RESP] + (PutU16(version) + (ephemeral + (kemCiphertext + random)))
  }

  function EncodeReply(m: Reply): bytes {
    ReplyHeader(m.version, m.ephemeral, m.kemCiphertext, m.random) + Lp(m.c2)
  }

  function DecodeReply(b: bytes): Option<Reply> {
    if |b| < M2_HEADER_LEN then None
    else
      var (kind, c1) := ReadU8(Cursor(b, true));
      if kind != MSG_RESP then None
      else
        var (version, c2) := ReadU16(c1);
        var (ephemeral, c3) := Take(c2, 32);
        var (kemCiphertext, c4) := Take(c3, KEM_CIPHERTEXT_SIZE);
        var (random, c5) := Take(c4, 32);
        var (box, c6) := ReadLp(c5);
        if Done(c6) then Some(Reply(version, ephemeral, kemCiphertext, random, box)) else None
  }

  lemma ReplyWritten(m: Reply)
    requires ReplyFits(m)
    ensures DecodeReply(EncodeReply(m)) == Some(m)
    ensures EncodeReply(m)[..M2_HEADER_LEN] == ReplyHeader(m.version, m.ephemeral, m.kemCiphertext, m.random)
  {
    var t5 := Lp(m.c2) + [];
    var t4 := m.random + Lp(m.c2);
    var t3 := m.kemCiphertext + t4;
    var t2 := m.ephemeral + t3;
    var t1 := PutU16(m.version) + t2;
    assert EncodeReply(m) == [MSG_RESP] + t1;
    U8Written(MSG_RESP, t1);
    U16Written(m.version, t2);
    TakeWritten(m.ephemeral, t3);
    TakeWritten(m.kemCiphertext, t4);
    TakeWritten(m.random, Lp(m.c2));
    LpWritten(m.c2, []);
    assert t5 == Lp(m.c2);
    hide Take, ReadU8, ReadU16, ReadLp, Lp, PutU16;
  }

  lemma ReplyJoin(version: u16, ephemeral: bytes, kemCiphertext: bytes, random: bytes, tail: bytes)
    requires |ephemeral| == 32 && |kemCiphertext| == KEM_CIPHERTEXT_SIZE && |random| == 32
    ensures var whole := [MSG_RESP] + (PutU16(version) + (ephemeral + (kemCiphertext + (random + tail))));
            var head := ReplyHeader(version, ephemeral, kemCiphertext, random);
            |head| == M2_HEADER_LEN && whole == head + tail && whole[..M2_HEADER_LEN] == head
  {
  }

  lemma ReplyRead(b: bytes)
    ensures match DecodeReply(b)
            case None => true
            case Some(m) =>
              && ReplyFits(m) && EncodeReply(m) == b
              && b[..M2_HEADER_LEN] == ReplyHeader(m.version, m.ephemeral, m.kemCiphertext, m.random)
  {
    var c0 := Cursor(b, true);
    var (kind, c1) := ReadU8(c0);
    var (version, c2) := ReadU16(c1);
    var (ephemeral, c3) := Take(c2, 32);
    var (kemCiphertext, c4) := Take(c3, KEM_CIPHERTEXT_SIZE);
    var (random, c5) := Take(c4, 32);
    var (box, c6) := ReadLp(c5);
    U8Read(c0);
    U16Read(c1);
    TakeRead(c2, 32);
    TakeRead(c3, KEM_CIPHERTEXT_SIZE);
    TakeRead(c4, 32);
    LpRead(c5);
    if |b| >= M2_HEADER_LEN && kind == MSG_RESP && Done(c6) {
      hide Take, ReadU8, ReadU16, ReadLp, Lp;
      assert c5.rest == Lp(box);
      ReplyJoin(version, ephemeral, kemCiphertext, random, Lp(box));
    }
  }

  // ---------------------------------------------------------------------------
  // M3.

  function EncodeFinish(c3: bytes): bytes {
    [MSG_FINISH] + Lp(c3)
  }

  function DecodeFinish(b: bytes): Option<bytes> {
    var (kind, c1) := ReadU8(Cursor(b, true));
    if kind != MSG_FINISH then None
    else
      var (box, c2) := ReadLp(c1);
      if Done(c2) then Some(box) else None
  }

  lemma FinishRoundTrip(c3: bytes, b: bytes)
    ensures |c3| < 0x1_0000_0000 ==> DecodeFinish(EncodeFinish(c3)) == Some(c3)
    ensures DecodeFinish(b).Some? ==> EncodeFinish(DecodeFinish(b).value) == b
  {
    if |c3| < 0x1_0000_0000 {
      U8Written(MSG_FINISH, Lp(c3));
      assert Lp(c3) + [] == Lp(c3);
      LpWritten(c3, []);
    }
    U8Read(Cursor(b, true));
    LpRead(ReadU8(Cursor(b, true)).1);
  }

  // ---------------------------------------------------------------------------
  // The plaintext of C2 and C3.

  datatype AuthPayload = AuthPayload(identity: bytes, id: bytes, signature: bytes, mac: bytes, nickname: bytes)

  predicate PayloadFits(p: AuthPayload) {
    |p.identity| == 32 && |p.signature| == 64 && |p.mac| == 32 && |p.id| < 0x1_0000_0000 && |p.nickname| < 0x1_0000_0000
  }

  function EncodePayload(p: AuthPayload): bytes {
    p.identity + (Lp(p.id) + (p.signature + (p.mac + Lp(p.nickname))))
  }

  function DecodePayload(b: bytes): Option<AuthPayload> {
    var (identity, c1) := Take(Cursor(b, true), 32);
    var (id, c2) := ReadLp(c1);
    var (signature, c3) := Take(c2, 64);
    var (mac, c4) := Take(c3, 32);
    var (nickname, c5) := ReadLp(c4);
    if Done(c5) then Some(AuthPayload(identity, id, signature, mac, nickname)) else None
  }

  /** The parser as written, with the cursor moved in place. */
  method ParsePayload(b: bytes) returns (p: Option<AuthPayload>)
    ensures p == DecodePayload(b)
  {
    var r := new Reader(b);
    var identity := r.TakeBytes(32);
    var id := r.LpBytes();
    var signature := r.TakeBytes(64);
    var mac := r.TakeBytes(32);
    var nickname := r.LpBytes();
    var ok := r.Finished();
    p := if ok then Some(AuthPayload(identity, id, signature, mac, nickname)) else None;
  }

  /** The M1 parser as written, with its loop over the offered versions. */
  method ParseHello(b: bytes) returns (m: Option<Hello>)
    ensures m == DecodeHello(b)
  {
    var r := new Reader(b);
    var kind := r.U8();
    if kind != MSG_INIT {
      return None;
    }
    var count := r.U8();
    ghost var all, end := ReadVersions(r.Abs(), count).0, ReadVersions(r.Abs(), count).1;
    var offered: seq<u16> := [];
    var i := 0;
    while i < count
      invariant 0 <= i <= count
      invariant ReadVersions(r.Abs(), count - i).1 == end
      invariant offered + ReadVersions(r.Abs(), count - i).0 == all
    {
      var v := r.U16();
      assert offered + ([v] + ReadVersions(r.Abs(), count - i - 1).0) == all;
      assert offered + ([v] + ReadVersions(r.Abs(), count - i - 1).0) == offered + [v] +
          ReadVersions(r.Abs(), count - i - 1).0;
      offered := offered + [v];
      i := i + 1;
    }
    assert offered == all && r.Abs() == end;
    var ephemeral := r.TakeBytes(32);
    var kemKey := r.TakeBytes(KEM_KEY_SIZE);
    var random := r.TakeBytes(32);
    var ok := r.Finished();
    m := if ok then Some(Hello(offered, ephemeral, kemKey, random)) else None;
  }

  lemma PayloadWritten(p: AuthPayload)
    requires PayloadFits(p)
    ensures DecodePayload(EncodePayload(p)) == Some(p)
  {
    var t4 := Lp(p.nickname) + [];
    var t3 := p.mac + Lp(p.nickname);
    var t2 := p.signature + t3;
    TakeWritten(p.identity, Lp(p.id) + t2);
    LpWritten(p.id, t2);
    TakeWritten(p.signature, t3);
    TakeWritten(p.mac, Lp(p.nickname));
    LpWritten(p.nickname, []);
    assert t4 == Lp(p.nickname);
  }

  lemma PayloadRead(b: bytes)
    ensures DecodePayload(b).Some? ==> PayloadFits(DecodePayload(b).value) && EncodePayload(DecodePayload(b).value) == b
  {
    var c0 := Cursor(b, true);
    var (identity, c1) := Take(c0, 32);
    var (id, c2) := ReadLp(c1);
    var (signature, c3) := Take(c2, 64);
    var (mac, c4) := Take(c3, 32);
    TakeRead(c0, 32);
    LpRead(c1);
    TakeRead(c2, 64);
    TakeRead(c3, 32);
    LpRead(c4);
    hide Take, ReadLp, Lp;
  }

  // ---------------------------------------------------------------------------
  // Frames.

  const MAX_FRAME_SIZE := 0x1_0000

  datatype FrameResult = Frame(payload: bytes, rest: bytes) | TooLarge | Truncated

  function WriteFrame(payload: bytes): Option<bytes> {
    if |payload| > MAX_FRAME_SIZE then None else Some(PutU32(|payload|) + payload)
  }

  function ReadFrame(stream: bytes): FrameResult {
    if |stream| < 4 then Truncated
    else
      var n := GetU32(stream[..4]);
      if n > MAX_FRAME_SIZE then TooLarge
      else if |stream| - 4 < n then Truncated
      else Frame(stream[4..4 + n], stream[4 + n..])
  }

  /** A frame reads back with whatever follows it untouched, and only a written frame does. */
  lemma FrameRoundTrip(payload: bytes, rest: bytes, stream: bytes)
    ensures |payload| <= MAX_FRAME_SIZE ==> ReadFrame(WriteFrame(payload).value + rest) == Frame(payload, rest)
    ensures match ReadFrame(stream)
            case Frame(p, r) => WriteFrame(p).Some? && stream == WriteFrame(p).value + r
            case _ => true
  {
    if |payload| <= MAX_FRAME_SIZE {
      var s := WriteFrame(payload).value + rest;
      U32RoundTrip(|payload|, [0, 0, 0, 0]);
      assert s[..4] == PutU32(|payload|) && s[4..4 + |payload|] == payload && s[4 + |payload|..] == rest;
    }
    if ReadFrame(stream).Frame? {
      U32RoundTrip(0, stream[..4]);
      var n := GetU32(stream[..4]);
      assert stream == stream[..4] + stream[4..4 + n] + stream[4 + n..];
    }
  }

  function WriteFrames(payloads: seq<bytes>): bytes
    requires forall i :: 0 <= i < |payloads| ==> |payloads[i]| <= MAX_FRAME_SIZE
  {
    if payloads == [] then [] else WriteFrame(payloads[0]).value + WriteFrames(payloads[1..])
  }

  function ReadFrames(stream: bytes): (seq<bytes>, bytes)
    decreases |stream|
  {
    match ReadFrame(stream)
    case Frame(p, rest) => var (ps, left) := ReadFrames(rest); ([p] + ps, left)
    case _ => ([], stream)
  }

  /** A stream of frames comes apart into exactly the frames written, in order. */
  lemma {:induction false} StreamRoundTrip(payloads: seq<bytes>)
    requires forall i :: 0 <= i < |payloads| ==> |payloads[i]| <= MAX_FRAME_SIZE
    ensures ReadFrames(WriteFrames(payloads)) == (payloads, [])
  {
    if payloads != [] {
      FrameRoundTrip(payloads[0], WriteFrames(payloads[1..]), []);
      StreamRoundTrip(payloads[1..]);
      assert [payloads[0]] + payloads[1..] == payloads;
    }
  }

  /** And what comes apart is written back to the same bytes: frames read, and the unread rest. */
  lemma {:induction false} StreamRead(stream: bytes)
    ensures forall i :: 0 <= i < |ReadFrames(stream).0| ==> |ReadFrames(stream).0[i]| <= MAX_FRAME_SIZE
    ensures WriteFrames(ReadFrames(stream).0) + ReadFrames(stream).1 == stream
    ensures !ReadFrame(ReadFrames(stream).1).Frame?
    decreases |stream|
  {
    if ReadFrame(stream).Frame? {
      var p, rest := ReadFrame(stream).payload, ReadFrame(stream).rest;
      FrameRoundTrip([], [], stream);
      StreamRead(rest);
      hide ReadFrame, WriteFrame;
      var (ps, left) := ReadFrames(rest);
      assert ReadFrames(stream).0[1..] == ps;
      assert WriteFrame(p).value + (WriteFrames(ps) + left) == WriteFrame(p).value + WriteFrames(ps) + left;
    }
  }

  /** A record fits one frame exactly when its plaintext has at most 65279 bytes. */
  lemma RecordFitsFrame(plaintext: bytes, box: bytes)
    requires |box| == |Padding.Pad(plaintext)| + TAG_SIZE
    ensures HEADER_SIZE + |box| <= MAX_FRAME_SIZE <==> |plaintext| <= 65279
  {
    var n := |plaintext| + 1;
    assert Padding.PaddedLength(|plaintext|) == (n + 255) / 256 * 256;
  }
}
