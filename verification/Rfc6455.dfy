/**
 * The framing of sections 5.2 to 5.5 of RFC 6455, as the reference for the client in
 * internal/relay/websocket.go: encoding, masking, and assembly of fragments.
 */
module Rfc6455 {
  import opened Common
  import opened Wire

  const CONTINUATION := 0x0
  const TEXT := 0x1
  const BINARY := 0x2
  const CLOSE := 0x8
  const PING := 0x9
  const PONG := 0xA

  datatype Frame = Frame(fin: bool, op: nat, payload: bytes)

  predicate Sound(f: Frame) {
    f.op < 16 && |f.payload| < 0x1_0000_0000
  }

  // ---------------------------------------------------------------------------
  // Masking: exclusive or with a four-byte key.

  function Xor(a: nat, b: nat, k: nat): (r: nat)
    ensures r < Pow2(k)
  {
    if k == 0 then 0 else (a % 2 + b % 2) % 2 + 2 * Xor(a / 2, b / 2, k - 1)
  }

  lemma BitTwice(a: nat, b: nat)
    ensures ((a % 2 + b % 2) % 2 + b % 2) % 2 == a % 2
  {
  }

  lemma {:induction false} XorTwice(a: nat, b: nat, k: nat)
    requires a < Pow2(k)
    ensures Xor(Xor(a, b, k), b, k) == a
  {
    if k > 0 {
      XorTwice(a / 2, b / 2, k - 1);
      var x, bit := Xor(a / 2, b / 2, k - 1), (a % 2 + b % 2) % 2;
      var r := Xor(a, b, k);
      assert r / 2 == x && r % 2 == bit;
      BitTwice(a, b);
      assert Xor(r, b, k) == (r % 2 + b % 2) % 2 + 2 * Xor(r / 2, b / 2, k - 1);
    }
  }

  lemma EightBits()
    ensures Pow2(8) == 0x100
  {
    assert Pow2(4) == 16;
  }

  function XorByte(a: byte, b: byte): byte {
    EightBits();
    Xor(a, b, 8)
  }

  function Mask(payload: bytes, key: bytes): (m: bytes)
    requires |key| == 4
    ensures |m| == |payload|
    ensures forall i :: 0 <= i < |m| ==> m[i] == XorByte(payload[i], key[i % 4])
  {
    seq(|payload|, i requires 0 <= i < |payload| => XorByte(payload[i], key[i % 4]))
  }

  /** Unmasking is masking again. */
  lemma MaskTwice(payload: bytes, key: bytes)
    requires |key| == 4
    ensures Mask(Mask(payload, key), key) == payload
  {
    EightBits();
    forall i | 0 <= i < |payload|
      ensures Mask(Mask(payload, key), key)[i] == payload[i]
    {
      XorTwice(payload[i], key[i % 4], 8);
    }
  }

  // ---------------------------------------------------------------------------
  // Encoding and decoding of one frame.

  function EncodeLength(n: nat, mark: nat): bytes
    requires n < 0x1_0000_0000 && (mark == 0 || mark == 0x80)
  {
    if n < 126 then [mark + n]
    else if n <= 0xFFFF then [mark + 126] + PutU16(n)
    else [mark + 127] + ([0, 0, 0, 0] + PutU32(n))
  }

  function First(f: Frame): byte
    requires f.op < 16
  {
    (if f.fin then 0x80 else 0) + f.op
  }

  function EncodeServer(f: Frame): bytes
    requires Sound(f)
  {
    [First(f)] + (EncodeLength(|f.payload|, 0) + f.payload)
  }

  function EncodeClient(f: Frame, key: bytes): bytes
    requires Sound(f) && |key| == 4
  {
    [First(f)] + (EncodeLength(|f.payload|, 0x80) + (key + Mask(f.payload, key)))
  }

  /** Mask bit, payload length and header size, once enough bytes are there. */
  datatype Head = Head(fin: bool, op: nat, masked: bool, length: nat, size: nat)

  function ReadHead(b: bytes): Option<Head> {
    if |b| < 2 then None
    else
      var fin, op, masked, n := b[0] >= 0x80, b[0] % 16, b[1] >= 0x80, b[1] % 0x80;
      if n == 126 then
        if |b| < 4 then None else Some(Head(fin, op, masked, GetU16(b[2..4]), 4))
      else if n == 127 then
        if |b| < 10 then None
        else
          var high: nat := GetU32(b[2..6]);
          Some(Head(fin, op, masked, high * 0x1_0000_0000 + GetU32(b[6..10]), 10))
      else Some(Head(fin, op, masked, n, 2))
  }

  lemma FirstRead(f: Frame)
    requires f.op < 16
    ensures (First(f) >= 0x80) == f.fin && First(f) % 16 == f.op
  {
  }

  lemma HeadWritten(f: Frame, mark: nat, rest: bytes)
    requires Sound(f) && (mark == 0 || mark == 0x80)
    ensures var b := [First(f)] + (EncodeLength(|f.payload|, mark) + rest);
            var size := 1 + |EncodeLength(|f.payload|, mark)|;
            ReadHead(b) == Some(Head(f.fin, f.op, mark == 0x80, |f.payload|, size)) && b[size..] == rest
  {
    var n := |f.payload|;
    FirstRead(f);
    ShortHead(First(f), n, mark, rest);
    MediumHead(First(f), n, mark, rest);
    LongHead(First(f), n, mark, rest);
    hide First, ReadHead;
  }

  lemma ShortHead(first: byte, n: nat, mark: nat, rest: bytes)
    requires mark == 0 || mark == 0x80
    ensures n < 126 ==>
      var b := [first] + (EncodeLength(n, mark) + rest);
      ReadHead(b) == Some(Head(first >= 0x80, first % 16, mark == 0x80, n, 2)) && b[2..] == rest
  {
  }

  lemma MediumHead(first: byte, n: nat, mark: nat, rest: bytes)
    requires mark == 0 || mark == 0x80
    ensures 126 <= n <= 0xFFFF ==>
      var b := [first] + (EncodeLength(n, mark) + rest);
      ReadHead(b) == Some(Head(first >= 0x80, first % 16, mark == 0x80, n, 4)) && b[4..] == rest
  {
    if 126 <= n <= 0xFFFF {
      U16RoundTrip(n, [0, 0]);
      var b := [first] + (EncodeLength(n, mark) + rest);
      hide PutU16, GetU16;
      assert b[2..4] == PutU16(n);
    }
  }

  lemma LongHead(first: byte, n: nat, mark: nat, rest: bytes)
    requires n < 0x1_0000_0000 && (mark == 0 || mark == 0x80)
    ensures n > 0xFFFF ==>
      var b := [first] + (EncodeLength(n, mark) + rest);
      ReadHead(b) == Some(Head(first >= 0x80, first % 16, mark == 0x80, n, 10)) && b[10..] == rest
  {
    if n > 0xFFFF {
      U32RoundTrip(n, [0, 0, 0, 0]);
      assert GetU32([0, 0, 0, 0]) == 0;
      var b := [first] + (EncodeLength(n, mark) + rest);
      hide PutU32, GetU32;
      assert b[2..6] == [0, 0, 0, 0] && b[6..10] == PutU32(n);
    }
  }

  /** How a server reads a client frame: the mask bit is required. */
  function DecodeClient(b: bytes): Option<(Frame, bytes)> {
    match ReadHead(b)
    case None => None
    case Some(h) =>
      if !h.masked || |b| < h.size + 4 + h.length then None
      else
        var key := b[h.size..h.size + 4];
        var body := b[h.size + 4..h.size + 4 + h.length];
        Some((Frame(h.fin, h.op, Mask(body, key)), b[h.size + 4 + h.length..]))
  }

  lemma ClientRoundTrip(f: Frame, key: bytes, rest: bytes)
    requires Sound(f) && |key| == 4
    ensures DecodeClient(EncodeClient(f, key) + rest) == Some((f, rest))
  {
    var tail := key + Mask(f.payload, key) + rest;
    var b := EncodeClient(f, key) + rest;
    var size := 1 + |EncodeLength(|f.payload|, 0x80)|;
    assert b == [First(f)] + (EncodeLength(|f.payload|, 0x80) + tail);
    HeadWritten(f, 0x80, tail);
    hide ReadHead, EncodeLength;
    assert b[size..size + 4] == tail[..4] == key;
    assert b[size + 4..size + 4 + |f.payload|] == tail[4..4 + |f.payload|] == Mask(f.payload, key);
    assert b[size + 4 + |f.payload|..] == tail[4 + |f.payload|..] == rest;
    MaskTwice(f.payload, key);
  }

  /** The frames of a client stream, and what is left over. */
  function DecodeClients(b: bytes): (seq<Frame>, bytes)
    decreases |b|
  {
    match DecodeClient(b)
    case None => ([], b)
    case Some((f, rest)) => var (fs, left) := DecodeClients(rest); ([f] + fs, left)
  }

  lemma ClientsOne(f: Frame, key: bytes)
    requires Sound(f) && |key| == 4
    ensures DecodeClients(EncodeClient(f, key)) == ([f], [])
  {
    var e := EncodeClient(f, key);
    ClientRoundTrip(f, key, []);
    assert e + [] == e;
    var none: bytes := [];
    assert DecodeClients(none) == ([], []);
    hide DecodeClient, EncodeClient;
    assert DecodeClients(e).0 == [f] + DecodeClients(none).0 == [f];
  }

  /** A stream of whole frames stays one when a frame is appended. */
  lemma {:induction false} ClientsAppend(b: bytes, f: Frame, key: bytes)
    requires Sound(f) && |key| == 4 && DecodeClients(b).1 == []
    ensures DecodeClients(b + EncodeClient(f, key)) == (DecodeClients(b).0 + [f], [])
    decreases |b|
  {
    if b == [] {
      ClientsOne(f, key);
      assert b + EncodeClient(f, key) == EncodeClient(f, key);
      assert DecodeClients(b).0 + [f] == [f];
    } else {
      var (g, rest) := DecodeClient(b).value;
      DecodeClientMore(b, EncodeClient(f, key));
      ClientsAppend(rest, f, key);
      assert [g] + DecodeClients(rest).0 + [f] == [g] + (DecodeClients(rest).0 + [f]);
    }
  }

  lemma HeadMore(b: bytes, more: bytes)
    requires ReadHead(b).Some?
    ensures ReadHead(b + more) == ReadHead(b)
  {
    if |b| >= 4 {
      assert (b + more)[2..4] == b[2..4];
    }
    if |b| >= 10 {
      assert (b + more)[2..6] == b[2..6] && (b + more)[6..10] == b[6..10];
    }
  }

  lemma DecodeClientMore(b: bytes, more: bytes)
    requires DecodeClient(b).Some?
    ensures DecodeClient(b + more) == Some((DecodeClient(b).value.0, DecodeClient(b).value.1 + more))
  {
    hide ReadHead, Mask;
    HeadMore(b, more);
    var h := ReadHead(b).value;
    var k := h.size + 4 + h.length;
    assert (b + more)[h.size..h.size + 4] == b[h.size..h.size + 4];
    assert (b + more)[h.size + 4..k] == b[h.size + 4..k];
    assert (b + more)[k..] == b[k..] + more;
  }

  /** A client stream cut short holds a prefix of its frames. */
  lemma {:induction false} ClientsCut(b: bytes, more: bytes)
    ensures DecodeClients(b).0 <= DecodeClients(b + more).0
    decreases |b|
  {
    if DecodeClient(b).Some? {
      DecodeClientMore(b, more);
      ClientsCut(DecodeClient(b).value.1, more);
      hide DecodeClient;
    }
  }

  // ---------------------------------------------------------------------------
  // Assembly of fragments (section 5.4), with control frames in between (section 5.5).

  datatype Message = Message(text: bool, payload: bytes)

  /** A fragmented message under way. */
  datatype Partial = Idle | Open(op: nat, acc: bytes)

  predicate IsControl(op: nat) { op >= 0x8 }

  /** The opcodes section 5.2 defines; the others are reserved. */
  predicate Known(op: nat) {
    op == CONTINUATION || op == TEXT || op == BINARY || op == CLOSE || op == PING || op == PONG
  }

  /**
   * A frame an endpoint need not fail the connection for: a known opcode, and a control frame whole and short (section
   * 5.5).
   */
  predicate Regular(f: Frame) {
    Known(f.op) && (IsControl(f.op) ==> f.fin && |f.payload| <= 125)
  }

  /** The messages a sequence of frames carries, up to the first close or violation. */
  function Assemble(fs: seq<Frame>, state: Partial): seq<Message> {
    if fs == [] then []
    else
      var f := fs[0];
      if !Regular(f) || f.op == CLOSE then []
      else if IsControl(f.op) then Assemble(fs[1..], state)
      else if (f.op == CONTINUATION) != state.Open? then []
      else
        var op := if state.Open? then state.op else f.op;
        var acc := (if state.Open? then state.acc else []) + f.payload;
        if f.fin then [Message(op == TEXT, acc)] + Assemble(fs[1..], Idle)
        else Assemble(fs[1..], Open(op, acc))
  }

  /** The bytes of the binary messages, end to end. */
  function Binary(ms: seq<Message>): bytes {
    if ms == [] then [] else (if ms[0].text then [] else ms[0].payload) + Binary(ms[1..])
  }

  function EncodeServers(fs: seq<Frame>): bytes
    requires forall i :: 0 <= i < |fs| ==> Sound(fs[i])
  {
    if fs == [] then [] else EncodeServer(fs[0]) + EncodeServers(fs[1..])
  }

  // ---------------------------------------------------------------------------
  // What an endpoint answers (sections 5.5.1 to 5.5.3).

  /** A ping is answered by a pong with its data, a close by a close with its data, and nothing else is answered. */
  function AnswerTo(f: Frame): seq<Frame> {
    if f.op == PING then [Frame(true, PONG, f.payload)]
    else if f.op == CLOSE then [Frame(true, CLOSE, f.payload)]
    else []
  }

  function Answers(fs: seq<Frame>): seq<Frame> {
    if fs == [] then [] else AnswerTo(fs[0]) + Answers(fs[1..])
  }

  /**
   * How many frames an endpoint reads that takes frames and messages of up to `limit` bytes: it stops after a close,
   * after a data frame out of sequence and after one that makes its message too long, and before a frame too long.
   */
  function ReadCount(fs: seq<Frame>, state: Partial, limit: nat): (k: nat)
    ensures k <= |fs|
  {
    if fs == [] || |fs[0].payload| > limit then 0
    else if fs[0].op == CLOSE then 1
    else if fs[0].op == PING || fs[0].op == PONG then 1 + ReadCount(fs[1..], state, limit)
    else if (fs[0].op == CONTINUATION) != state.Open? then 1
    else
      var acc := (if state.Open? then state.acc else []) + fs[0].payload;
      if |acc| > limit then 1
      else
        var next := if fs[0].fin then Idle else Open(if state.Open? then state.op else fs[0].op, acc);
        1 + ReadCount(fs[1..], next, limit)
  }
}
