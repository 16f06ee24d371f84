/** ISO/IEC 7816-4 padding to 256-byte blocks (internal/e2ee/primitives.go). */
module Padding {
  import opened Common

  const PAD_BLOCK := 256

  /** Length of the padded form of an n-byte plaintext. */
  function PaddedLength(n: nat): nat {
    var m := n + 1;
    if m % PAD_BLOCK != 0 then m + (PAD_BLOCK - m % PAD_BLOCK) else m
  }

  function Pad(plaintext: bytes): (padded: bytes)
    ensures |padded| == PaddedLength(|plaintext|)
  {
    plaintext + [0x80] + Zeros(PaddedLength(|plaintext|) - |plaintext| - 1)
  }

  function Unpad(padded: bytes): (r: Option<bytes>)
  {
    if padded == [] then None
    else if padded[|padded| - 1] == 0 then Unpad(padded[..|padded| - 1])
    else if padded[|padded| - 1] == 0x80 then Some(padded[..|padded| - 1])
    else None
  }

  /** `Unpad` accepts exactly the byte strings of the form p, 0x80, 0x00*. */
  lemma {:induction false} UnpadMarker(p: bytes, k: nat)
    ensures Unpad(p + [0x80] + Zeros(k)) == Some(p)
  {
    var padded := p + [0x80] + Zeros(k);
    if k == 0 {
      assert padded[..|padded| - 1] == p;
    } else {
      assert padded[..|padded| - 1] == p + [0x80] + Zeros(k - 1);
      UnpadMarker(p, k - 1);
    }
  }

  lemma {:induction false} UnpadOnlyMarker(padded: bytes)
    ensures match Unpad(padded)
            case Some(p) => |p| < |padded| && padded == p + [0x80] + Zeros(|padded| - |p| - 1)
            case None => forall p: bytes, k: nat :: padded != p + [0x80] + Zeros(k)
  {
    forall p: bytes, k: nat
      ensures Unpad(p + [0x80] + Zeros(k)) == Some(p)
    {
      UnpadMarker(p, k);
    }
    if padded != [] && padded[|padded| - 1] == 0 {
      UnpadOnlyMarker(padded[..|padded| - 1]);
    }
  }

  /** Round trip, and the padded length is the least multiple of 256 that leaves
      room for the marker. */
  lemma PadRoundTrip(p: bytes)
    ensures Unpad(Pad(p)) == Some(p)
    ensures |Pad(p)| % PAD_BLOCK == 0
    ensures forall m: nat :: m % PAD_BLOCK == 0 && m > |p| ==> |Pad(p)| <= m
  {
    UnpadMarker(p, PaddedLength(|p|) - |p| - 1);
  }

  /** The buffer-filling form of `pad`. */
  method PadMessage(plaintext: bytes) returns (out: array<byte>)
    ensures fresh(out)
    ensures out[..] == Pad(plaintext)
  {
    var n := |plaintext| + 1;
    var r := n % PAD_BLOCK;
    if r != 0 {
      n := n + (PAD_BLOCK - r);
    }
    out := new byte[n](_ => 0);
    for i := 0 to |plaintext|
      invariant forall j :: 0 <= j < i ==> out[j] == plaintext[j]
      invariant forall j :: i <= j < n ==> out[j] == 0
    {
      out[i] := plaintext[i];
    }
    out[|plaintext|] := 0x80;
  }

  /** The index scan of `unpad`. */
  method UnpadMessage(padded: bytes) returns (r: Option<bytes>)
    ensures r == Unpad(padded)
  {
    var i := |padded| - 1;
    assert padded[..|padded|] == padded;
    while i >= 0 && padded[i] == 0
      invariant -1 <= i < |padded|
      invariant Unpad(padded) == Unpad(padded[..i + 1])
    {
      assert padded[..i + 1][..i] == padded[..i];
      i := i - 1;
    }
    if i < 0 || padded[i] != 0x80 {
      r := None;
    } else {
      assert padded[..i + 1][..i] == padded[..i];
      r := Some(padded[..i]);
    }
  }
}
