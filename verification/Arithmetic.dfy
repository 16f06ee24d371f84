/** Quotients, remainders and powers of two. */
module Arithmetic {
  import opened Common

  lemma ProductMonotone(a: int, b: int, w: int)
    requires w > 0 && a <= b
    ensures a * w <= b * w
  {
  }

  lemma NextProduct(a: int, w: int)
    ensures (a + 1) * w == a * w + w
  {
  }

  lemma QuotientBounds(x: int, w: int)
    requires w > 0
    ensures x / w * w <= x < x / w * w + w
  {
  }

  lemma QuotientUnique(x: int, q: int, w: int)
    requires w > 0 && q * w <= x < q * w + w
    ensures x / w == q && x % w == x - q * w
  {
    var r := x / w;
    QuotientBounds(x, w);
    NextProduct(q, w);
    NextProduct(r, w);
    if r < q {
      ProductMonotone(r + 1, q, w);
    } else if q < r {
      ProductMonotone(q + 1, r, w);
    }
  }

  lemma QuotientMonotone(a: int, b: int, w: int)
    requires w > 0 && a <= b
    ensures a / w <= b / w
  {
    QuotientBounds(a, w);
    QuotientBounds(b, w);
    if a / w > b / w {
      ProductMonotone(b / w + 1, a / w, w);
    }
  }

  lemma Associate(a: int, b: int, c: int)
    ensures a * (b * c) == a * b * c && a * (b * c) == (a * c) * b
  {
  }

  lemma Distribute(a: int, b: int, c: int)
    ensures (a + b) * c == a * c + b * c
  {
  }

  lemma RemainderIs(x: int, w: int)
    requires w > 0
    ensures x == x / w * w + x % w && 0 <= x % w < w
  {
  }

  /** The digits of `x` to base `a` above and below: taking a remainder by `a * c` keeps the lower ones. */
  lemma SplitRemainder(x: int, a: int, c: int)
    requires a > 0 && c > 0 && a * c > 0
    ensures x % (a * c) % a == x % a
    ensures x % (a * c) / a == x / a % c
  {
    var q, r := x / (a * c), x % (a * c);
    RemainderIs(x, a * c);
    var s, t := r / a, r % a;
    RemainderIs(r, a);
    Associate(q, a, c);
    Distribute(q * c, s, a);
    assert x == (q * c + s) * a + t;
    QuotientUnique(x, q * c + s, a);
    if s >= c {
      ProductMonotone(c, s, a);
    }
    QuotientUnique(q * c + s, q, c);
  }

  /** Shifting a number left by a factor, and adding a digit, moves its remainder along. */
  lemma ShiftRemainder(x: int, a: int, c: int, d: int)
    requires a > 0 && c > 0 && a * c > 0 && 0 <= d < c
    ensures (x * c + d) % (a * c) == x % a * c + d
  {
    var q, l := x / a, x % a;
    RemainderIs(x, a);
    Distribute(q * a, l, c);
    Associate(q, a, c);
    assert x * c + d == q * (a * c) + (l * c + d);
    ProductMonotone(l + 1, a, c);
    NextProduct(l, c);
    assert l * c >= 0 by { ProductMonotone(0, l, c); }
    QuotientUnique(x * c + d, q, a * c);
  }

  lemma {:induction false} PowerSum(a: nat, b: nat)
    ensures Pow2(a) * Pow2(b) == Pow2(a + b)
  {
    if a > 0 {
      PowerSum(a - 1, b);
      Associate(2, Pow2(a - 1), Pow2(b));
    }
  }
}
