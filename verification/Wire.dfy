/** Big-endian integers and the record header (internal/e2ee/wire.go, internal/e2ee/ratchet.go). */
module Wire {
  import opened Common
  import opened Ratchet

  function PutU16(v: u16): (b: bytes)
    ensures |b| == 2
  {
    [v / 0x100, v % 0x100]
  }

  function GetU16(b: bytes): u16
    requires |b| == 2
  {
    var hi: int := b[0];
    hi * 0x100 + b[1]
  }

  function PutU32(v: u32): (b: bytes)
    ensures |b| == 4
  {
    PutU16(v / 0x1_0000) + PutU16(v % 0x1_0000)
  }

  function GetU32(b: bytes): u32
    requires |b| == 4
  {
    var hi: int := GetU16(b[..2]);
    hi * 0x1_0000 + GetU16(b[2..])
  }

  lemma U16RoundTrip(v: u16, b: bytes)
    requires |b| == 2
    ensures GetU16(PutU16(v)) == v
    ensures PutU16(GetU16(b)) == b
  {
  }

  lemma U32RoundTrip(v: u32, b: bytes)
    requires |b| == 4
    ensures GetU32(PutU32(v)) == v
    ensures PutU32(GetU32(b)) == b
  {
    U16RoundTrip(v / 0x1_0000, b[..2]);
    U16RoundTrip(v % 0x1_0000, b[2..]);
    assert PutU32(v)[..2] == PutU16(v / 0x1_0000) && PutU32(v)[2..] == PutU16(v % 0x1_0000);
    assert b == b[..2] + b[2..];
  }

  // ---------------------------------------------------------------------------
  // Record header.

  const PUB_SIZE := 32
  const HEADER_SIZE := 1 + 32 + 4 + 4
  const TAG_SIZE := 16

  function EncodeHeader(h: Header<bytes>): bytes {
    [h.version] + h.pub + PutU32(h.pn) + PutU32(h.n)
  }

  function DecodeHeader(b: bytes): Option<Header<bytes>> {
    if |b| != HEADER_SIZE then None
    else Some(Header(b[0], b[1..33], GetU32(b[33..37]), GetU32(b[37..41])))
  }

  lemma HeaderParts(v: bytes, pub: bytes, pn: bytes, n: bytes)
    requires |v| == 1 && |pub| == PUB_SIZE && |pn| == 4 && |n| == 4
    ensures var e := v + pub + pn + n;
            |e| == HEADER_SIZE && e[0] == v[0] && e[1..33] == pub && e[33..37] == pn && e[37..41] == n
  {
  }

  /** Encoding and decoding a header are inverse, on every header with a 32-byte key and on
      every 41-byte string. */
  lemma HeaderRoundTrip(h: Header<bytes>, b: bytes)
    ensures |h.pub| == PUB_SIZE ==> DecodeHeader(EncodeHeader(h)) == Some(h)
    ensures DecodeHeader(b).Some? ==>
              |DecodeHeader(b).value.pub| == PUB_SIZE && EncodeHeader(DecodeHeader(b).value) == b
  {
    if |h.pub| == PUB_SIZE {
      var e := EncodeHeader(h);
      U32RoundTrip(h.pn, [0, 0, 0, 0]);
      U32RoundTrip(h.n, [0, 0, 0, 0]);
      HeaderParts([h.version], h.pub, PutU32(h.pn), PutU32(h.n));
    }
    if |b| == HEADER_SIZE {
      U32RoundTrip(0, b[33..37]);
      U32RoundTrip(0, b[37..41]);
      assert b == [b[0]] + b[1..33] + b[33..37] + b[37..41];
    }
  }

  // ---------------------------------------------------------------------------
  // Records on the wire.

  /** `Session.Decrypt` on a byte string: the length check, the header, then the ratchet. */
  function DecryptBytes(
    S: Suite<bytes, bytes, bytes>, s: Session<bytes, bytes>, record: bytes,
    newKey: Option<nat>): Result<Accepted<bytes, bytes>>
    requires WellFormed(s.ratchet)
  {
    if s.closed then Err(SessionClosed)
    else if |record| < HEADER_SIZE + TAG_SIZE then Err(Malformed)
    else Decrypt(S, s, Record(DecodeHeader(record[..HEADER_SIZE]).value, record[HEADER_SIZE..]), newKey)
  }
}
