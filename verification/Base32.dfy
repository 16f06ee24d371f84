/** Base32 of an identity digest (workers/phonebook/src/lib/identity.js), against section 6 of RFC 4648. */
module Base32 {
  import opened Common
  import opened Arithmetic

  const ALPHABET := "ABCDEFGHIJKLMNOPQRSTUVWXYZ234567"

  type bit = x: int | 0 <= x < 2

  // ---------------------------------------------------------------------------
  // The reference: the input as one string of bits, cut into groups of five.

  /** The `k` low bits of `v`, the most significant first. */
  function BitsOf(v: nat, k: nat): (b: seq<bit>)
    ensures |b| == k
  {
    if k == 0 then [] else BitsOf(v / 2, k - 1) + [v % 2]
  }

  function ValueOf(b: seq<bit>): (v: nat)
    ensures v < Pow2(|b|)
  {
    if b == [] then 0 else 2 * ValueOf(b[..|b| - 1]) + b[|b| - 1]
  }

  function Bits(data: bytes): (b: seq<bit>)
    ensures |b| == 8 * |data|
  {
    if data == [] then [] else BitsOf(data[0], 8) + Bits(data[1..])
  }

  function Letter(group: seq<bit>): char
    requires |group| == 5
  {
    assert Pow2(5) == 32;
    ALPHABET[ValueOf(group)]
  }

  /** The last group is filled up with zero bits; there is no padding. */
  function EncodeBits(b: seq<bit>): (s: string)
    ensures |s| == (|b| + 4) / 5
  {
    if b == [] then ""
    else if |b| < 5 then [Letter(b + seq(5 - |b|, _ => 0))]
    else [Letter(b[..5])] + EncodeBits(b[5..])
  }

  function Encode(data: bytes): (s: string)
    ensures |s| == (8 * |data| + 4) / 5
  {
    EncodeBits(Bits(data))
  }

  // ---------------------------------------------------------------------------
  // No two inputs share an encoding.

  lemma {:induction false} ValueInjective(a: seq<bit>, b: seq<bit>)
    requires |a| == |b| && ValueOf(a) == ValueOf(b)
    ensures a == b
  {
    if a != [] {
      var n := |a| - 1;
      assert a[n] == b[n];
      ValueInjective(a[..n], b[..n]);
      assert a == a[..n] + [a[n]] && b == b[..n] + [b[n]];
    }
  }

  lemma LetterInjective(a: seq<bit>, b: seq<bit>)
    requires |a| == |b| == 5 && Letter(a) == Letter(b)
    ensures a == b
  {
    assert Pow2(5) == 32;
    AlphabetDistinct(ValueOf(a), ValueOf(b));
    ValueInjective(a, b);
  }

  lemma AlphabetDistinct(i: nat, j: nat)
    requires i < 32 && j < 32 && ALPHABET[i] == ALPHABET[j]
    ensures i == j
  {
    AlphabetAt(i);
    AlphabetAt(j);
  }

  lemma AlphabetAt(i: nat)
    requires i < 32
    ensures ALPHABET[i] == if i < 26 then 'A' + i as char else '2' + (i - 26) as char
  {
  }

  lemma {:induction false} BitsEncodeInjective(a: seq<bit>, b: seq<bit>)
    requires |a| == |b| && EncodeBits(a) == EncodeBits(b)
    ensures a == b
  {
    if 0 < |a| < 5 {
      var zeros: seq<bit> := seq(5 - |a|, _ => 0);
      assert EncodeBits(a)[0] == EncodeBits(b)[0];
      LetterInjective(a + zeros, b + zeros);
      assert a == (a + zeros)[..|a|] && b == (b + zeros)[..|a|];
    } else if |a| >= 5 {
      assert EncodeBits(a)[0] == EncodeBits(b)[0];
      LetterInjective(a[..5], b[..5]);
      assert EncodeBits(a)[1..] == EncodeBits(b)[1..];
      BitsEncodeInjective(a[5..], b[5..]);
      assert a == a[..5] + a[5..] && b == b[..5] + b[5..];
    }
  }

  lemma {:induction false} BitsOfInjective(x: nat, y: nat, k: nat)
    requires x < Pow2(k) && y < Pow2(k) && BitsOf(x, k) == BitsOf(y, k)
    ensures x == y
  {
    if k > 0 {
      assert x % 2 == BitsOf(x, k)[k - 1] == y % 2;
      assert BitsOf(x / 2, k - 1) == BitsOf(x, k)[..k - 1] == BitsOf(y / 2, k - 1);
      BitsOfInjective(x / 2, y / 2, k - 1);
    }
  }

  lemma {:induction false} BitsInjective(a: bytes, b: bytes)
    requires |a| == |b| && Bits(a) == Bits(b)
    ensures a == b
  {
    if a != [] {
      assert BitsOf(a[0], 8) == Bits(a)[..8] == BitsOf(b[0], 8);
      assert Pow2(4) == 16 && Pow2(8) == 256;
      BitsOfInjective(a[0], b[0], 8);
      assert Bits(a[1..]) == Bits(a)[8..] == Bits(b[1..]);
      BitsInjective(a[1..], b[1..]);
      assert a == [a[0]] + a[1..] && b == [b[0]] + b[1..];
    }
  }

  /**
   * Distinct inputs of any lengths have distinct encodings: the length of the input can be read off that of the
   * output.
   */
  lemma EncodeInjective(a: bytes, b: bytes)
    requires Encode(a) == Encode(b)
    ensures a == b
  {
    BitsEncodeInjective(Bits(a), Bits(b));
    BitsInjective(a, b);
  }

  // ---------------------------------------------------------------------------
  // The loop, with JavaScript's 32-bit shifts.

  const TWO32 := 0x1_0000_0000

  function ToUint32(v: int): (u: nat)
    ensures u < TWO32
  {
    v % TWO32
  }

  function ToInt32(v: int): int {
    var u := ToUint32(v);
    if u >= TWO32 / 2 then u - TWO32 else u
  }

  /** `(value << 8) | b`: the shift leaves the low eight bits clear, so the or is a sum. */
  function Push(value: int, b: byte): int {
    ToInt32(ToInt32(value * 256) + b)
  }

  /** `(value >>> k) & 31` */
  function Peek(value: int, k: nat): nat {
    ToUint32(value) / Pow2(k) % 32
  }

  /** `(value << k) & 31` */
  function PeekLeft(value: int, k: nat): nat {
    ToUint32(ToInt32(value * Pow2(k))) % 32
  }

  lemma Powers()
    ensures Pow2(5) == 32 && Pow2(8) == 256 && Pow2(32) == TWO32
  {
    assert Pow2(8) == 256;
    PowerSum(8, 8);
    PowerSum(16, 16);
  }

  lemma WrapOnce(x: int, y: int)
    ensures ToUint32(ToInt32(x)) == ToUint32(x)
    ensures ToUint32(ToInt32(ToInt32(x) + y)) == ToUint32(x + y)
  {
  }

  lemma LowBits(value: int, k: nat)
    requires k <= 32
    ensures ToUint32(value) % Pow2(k) == value % Pow2(k)
  {
    Powers();
    PowerSum(k, 32 - k);
    SplitRemainder(value, Pow2(k), Pow2(32 - k));
  }

  /** The wrap-around drops only bits that are no longer pending. */
  lemma PushPending(value: int, b: byte, k: nat)
    requires k <= 24
    ensures ToUint32(Push(value, b)) % Pow2(k + 8) == ToUint32(value) % Pow2(k) * 256 + b
  {
    Powers();
    WrapOnce(value * 256, b);
    LowBits(value * 256 + b, k + 8);
    LowBits(value, k);
    PowerSum(k, 8);
    ShiftRemainder(value, Pow2(k), 256, b);
  }

  lemma PeekPending(value: int, k: nat)
    requires k >= 5
    ensures Peek(value, k - 5) == ToUint32(value) % Pow2(k) / Pow2(k - 5)
    ensures ToUint32(value) % Pow2(k) % Pow2(k - 5) == ToUint32(value) % Pow2(k - 5)
  {
    Powers();
    PowerSum(k - 5, 5);
    SplitRemainder(ToUint32(value), Pow2(k - 5), 32);
  }

  lemma PeekLeftPending(value: int, k: nat)
    requires k <= 5
    ensures PeekLeft(value, 5 - k) == ToUint32(value) % Pow2(k) * Pow2(5 - k)
  {
    Powers();
    var x := value * Pow2(5 - k);
    WrapOnce(x, 0);
    LowBits(x, 5);
    LowBits(value, k);
    PowerSum(k, 5 - k);
    ShiftRemainder(value, Pow2(k), Pow2(5 - k), 0);
  }

  lemma {:induction false} BitsJoin(a: nat, i: nat, b: nat, j: nat)
    requires b < Pow2(j)
    ensures a * Pow2(j) + b >= 0 && BitsOf(a, i) + BitsOf(b, j) == BitsOf(a * Pow2(j) + b, i + j)
  {
    if j > 0 {
      BitsJoin(a, i, b / 2, j - 1);
      var whole := a * Pow2(j) + b;
      Associate(a, 2, Pow2(j - 1));
      assert a * Pow2(j) == 2 * (a * Pow2(j - 1));
      assert whole / 2 == a * Pow2(j - 1) + b / 2 && whole % 2 == b % 2;
      assert BitsOf(a, i) + BitsOf(b, j) == BitsOf(a, i) + BitsOf(b / 2, j - 1) + [b % 2];
    }
  }

  lemma {:induction false} ValueBack(v: nat, k: nat)
    requires v < Pow2(k)
    ensures ValueOf(BitsOf(v, k)) == v
  {
    if k > 0 {
      ValueBack(v / 2, k - 1);
      assert BitsOf(v, k)[..k - 1] == BitsOf(v / 2, k - 1);
    }
  }

  lemma {:induction false} ZeroBits(k: nat)
    ensures BitsOf(0, k) == seq(k, _ => 0)
  {
    if k > 0 {
      ZeroBits(k - 1);
    }
  }

  /** The bits of `value` not yet written out. */
  ghost function Pending(value: int, k: nat): (b: seq<bit>)
    ensures |b| == k
  {
    BitsOf(ToUint32(value) % Pow2(k), k)
  }

  lemma PushBits(value: int, b: byte, k: nat)
    requires k <= 24
    ensures Pending(Push(value, b), k + 8) == Pending(value, k) + BitsOf(b, 8)
  {
    PushPending(value, b, k);
    Powers();
    BitsJoin(ToUint32(value) % Pow2(k), k, b, 8);
  }

  lemma SplitBits(v: nat, k: nat)
    requires k >= 5 && v < Pow2(k)
    ensures v / Pow2(k - 5) < 32
    ensures BitsOf(v, k) == BitsOf(v / Pow2(k - 5), 5) + BitsOf(v % Pow2(k - 5), k - 5)
  {
    var p := Pow2(k - 5);
    Powers();
    PowerSum(k - 5, 5);
    RemainderIs(v, p);
    if v / p >= 32 {
      ProductMonotone(32, v / p, p);
    }
    BitsJoin(v / p, 5, v % p, k - 5);
  }

  lemma PeekBits(value: int, k: nat)
    requires k >= 5
    ensures Peek(value, k - 5) < 32 && Letter(Pending(value, k)[..5]) == ALPHABET[Peek(value, k - 5)]
    ensures Pending(value, k)[5..] == Pending(value, k - 5)
  {
    PeekPending(value, k);
    SplitBits(ToUint32(value) % Pow2(k), k);
    Powers();
    ValueBack(Peek(value, k - 5), 5);
    hide BitsOf, Peek, Pow2;
  }

  lemma LastBits(value: int, k: nat)
    requires k <= 5
    ensures PeekLeft(value, 5 - k) < 32
    ensures Letter(Pending(value, k) + seq(5 - k, _ => 0)) == ALPHABET[PeekLeft(value, 5 - k)]
  {
    PeekLeftPending(value, k);
    Powers();
    BitsJoin(ToUint32(value) % Pow2(k), k, 0, 5 - k);
    ZeroBits(5 - k);
    ValueBack(PeekLeft(value, 5 - k), 5);
  }

  /** One group written out. */
  lemma WriteGroup(head: seq<bit>, rest: seq<bit>)
    requires |head| >= 5
    ensures EncodeBits(head + rest) == [Letter(head[..5])] + EncodeBits(head[5..] + rest)
  {
    assert (head + rest)[..5] == head[..5] && (head + rest)[5..] == head[5..] + rest;
  }

  lemma NextByte(data: bytes, i: nat)
    requires i < |data|
    ensures Bits(data[i..]) == BitsOf(data[i], 8) + Bits(data[i + 1..])
  {
    assert data[i..][1..] == data[i + 1..];
  }

  lemma LastGroup(b: seq<bit>)
    requires |b| < 5
    ensures EncodeBits(b) == if b == [] then "" else [Letter(b + seq(5 - |b|, _ => 0))]
  {
  }

  /** The shifting loop writes the reference encoding, for every input. */
  method Base32Encode(data: bytes) returns (out: string)
    ensures out == Encode(data)
  {
    hide Push, Peek, PeekLeft, Pending, BitsOf, Bits, EncodeBits, Letter;
    var bits: nat, value := 0, 0;
    out := "";
    assert Pending(value, bits) + Bits(data[0..]) == Bits(data) by { assert data[0..] == data; }
    for i := 0 to |data|
      invariant bits < 5
      invariant Encode(data) == out + EncodeBits(Pending(value, bits) + Bits(data[i..]))
    {
      ghost var rest := Bits(data[i + 1..]);
      PushBits(value, data[i], bits);
      NextByte(data, i);
      assert Pending(value, bits) + (BitsOf(data[i], 8) + rest) == Pending(value, bits) + BitsOf(data[i], 8) + rest;
      value := Push(value, data[i]);
      bits := bits + 8;
      while bits >= 5
        invariant Encode(data) == out + EncodeBits(Pending(value, bits) + rest)
      {
        PeekBits(value, bits);
        WriteGroup(Pending(value, bits), rest);
        out := out + [ALPHABET[Peek(value, bits - 5)]];
        bits := bits - 5;
      }
    }
    assert Pending(value, bits) + Bits(data[|data|..]) == Pending(value, bits);
    LastGroup(Pending(value, bits));
    if bits > 0 {
      LastBits(value, bits);
      out := out + [ALPHABET[PeekLeft(value, 5 - bits)]];
    }
  }

  /** An ID's sixteen letters determine the ten digest bytes they stand for. */
  lemma IdLetters(digest: bytes, other: bytes)
    requires |digest| == 10
    ensures |Encode(digest)| == 16
    ensures Encode(digest) == Encode(other) ==> digest == other
  {
    if Encode(digest) == Encode(other) {
      EncodeInjective(digest, other);
    }
  }
}
