/** Types and byte-string helpers shared by every module. */
module Common {

  datatype Option<+T> = None | Some(value: T)

  type byte = x: int | 0 <= x < 0x100
  type u16 = x: int | 0 <= x < 0x1_0000
  type u32 = x: int | 0 <= x < 0x1_0000_0000

  type bytes = seq<byte>

  const U32_MAX: u32 := 0xFFFF_FFFF

  /** Go's `x++` on a uint32. */
  function Inc32(x: u32): u32 {
    if x == U32_MAX then 0 else x + 1
  }

  function Zeros(n: nat): (z: bytes)
    ensures |z| == n
    ensures forall i :: 0 <= i < n ==> z[i] == 0
  {
    seq(n, _ => 0)
  }

  function Pow2(k: nat): (p: nat)
    ensures p > 0
  {
    if k == 0 then 1 else 2 * Pow2(k - 1)
  }

  /** Key agreement between generated key pairs: always defined, and the same from both ends. */
  ghost predicate Commutes<K(!new), P(!new)>(public: nat -> P, agree: (nat, P) -> Option<K>) {
    forall a: nat, b: nat :: agree(a, public(b)).Some? && agree(a, public(b)) == agree(b, public(a))
  }

  lemma CommutesAt<K(!new), P(!new)>(public: nat -> P, agree: (nat, P) -> Option<K>, a: nat, b: nat)
    requires Commutes(public, agree)
    ensures agree(a, public(b)).Some? && agree(a, public(b)) == agree(b, public(a))
  {
  }

  /** Frames joined end to end. */
  function Concat(frames: seq<bytes>): bytes {
    if frames == [] then [] else frames[0] + Concat(frames[1..])
  }

  lemma {:induction false} ConcatPrefix(a: seq<bytes>, b: seq<bytes>)
    requires a <= b
    ensures Concat(a) <= Concat(b)
  {
    if a != [] {
      ConcatPrefix(a[1..], b[1..]);
    }
  }

  lemma {:induction false} ConcatAppend(a: seq<bytes>, b: seq<bytes>)
    ensures Concat(a + b) == Concat(a) + Concat(b)
  {
    if a == [] {
      assert a + b == b;
    } else {
      assert (a + b)[1..] == a[1..] + b;
      ConcatAppend(a[1..], b);
    }
  }
}
