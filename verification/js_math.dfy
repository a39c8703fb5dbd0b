/**
 * The few `Math` functions and operators the components use, on exact reals.
 * JavaScript numbers are doubles; the model idealises them as `real`.
 */
module JsMath {

  function Abs(x: real): real
  {
    if x < 0.0 then -x else x
  }

  function Min(a: real, b: real): (r: real)
    ensures r <= a && r <= b
    ensures r == a || r == b
  {
    if a <= b then a else b
  }

  function Max(a: real, b: real): (r: real)
    ensures r >= a && r >= b
    ensures r == a || r == b
  {
    if a >= b then a else b
  }

  /** `Math.round` on a non-negative argument: the nearest integer, halves rounded up. */
  function Round(x: real): (n: nat)
    requires x >= 0.0
    ensures n as real - 0.5 <= x < n as real + 0.5
  {
    (x + 0.5).Floor
  }

  /** `Math.ceil`: the least integer not below `x`. */
  function Ceil(x: real): (n: int)
    ensures x <= n as real < x + 1.0
  {
    -((-x).Floor)
  }

  /** `Math.sign`. */
  function Sign(x: real): (s: real)
    ensures s * x == Abs(x)
    ensures s == -1.0 || s == 0.0 || s == 1.0
    ensures s > 0.0 <==> x > 0.0
    ensures s < 0.0 <==> x < 0.0
  {
    if x > 0.0 then 1.0 else if x < 0.0 then -1.0 else 0.0
  }

  /** Truncation toward zero, as JavaScript's `%` uses it for the quotient. */
  function Trunc(x: real): (n: int)
    ensures Abs(x - n as real) < 1.0
    ensures 0.0 <= x ==> 0.0 <= n as real <= x
    ensures x <= 0.0 ==> x <= n as real <= 0.0
  {
    if x >= 0.0 then x.Floor else -((-x).Floor)
  }

  /** JavaScript's `a % b` on numbers: the remainder takes the sign of the dividend. */
  function Rem(a: real, b: real): (r: real)
    requires b != 0.0
  {
    a - b * (Trunc(a / b) as real)
  }

  /** `a` and `b` differ by a whole multiple of `w`. */
  ghost predicate Congruent(a: real, b: real, w: real)
  {
    exists k: int :: a - b == Times(k, w)
  }

  /** `k` copies of `w`. */
  function Times(k: int, w: real): real
  {
    k as real * w
  }

  /** Scaling a fraction in `(-1, 1)` by a positive number stays within that number. */
  lemma ScaleBelow(x: real, b: real)
    requires b > 0.0 && -1.0 < x < 1.0
    ensures -b < x * b < b
  {
    if x >= 0.0 {
      assert (1.0 - x) * b > 0.0;
    } else {
      assert (1.0 + x) * b > 0.0;
    }
  }

  /** The remainder differs from the dividend by a whole multiple of the divisor, and is smaller than it in magnitude. */
  lemma RemFacts(a: real, b: real)
    requires b > 0.0
    ensures -b < Rem(a, b) < b
    ensures a >= 0.0 ==> Rem(a, b) >= 0.0
    ensures a - Rem(a, b) == Trunc(a / b) as real * b
  {
    var q := a / b;
    var t := Trunc(q) as real;
    var d := q - t;
    assert -1.0 < d < 1.0;
    assert a == q * b;
    ScaleBelow(d, b);
    assert -b < d * b < b;
    RemAsFraction(a, b, q, t);
    assert Rem(a, b) == d * b;
    if a >= 0.0 {
      assert q >= 0.0 && d >= 0.0;
    }
  }

  lemma RemAsFraction(a: real, b: real, q: real, t: real)
    requires b > 0.0 && q == a / b && t == Trunc(q) as real
    ensures Rem(a, b) == (q - t) * b
  {
    assert a == q * b;
  }

  /** The positive modulo `((o % w) + w) % w` that the marquee uses for its offset. */
  function PosMod(o: real, w: real): (r: real)
    requires w > 0.0
    ensures 0.0 <= r < w
  {
    RemFacts(o, w);
    RemFacts(Rem(o, w) + w, w);
    var r := Rem(Rem(o, w) + w, w);
    r
  }

  /** The positive modulo lands in the same residue class as its argument. */
  lemma PosModCongruent(o: real, w: real)
    requires w > 0.0
    ensures Congruent(o, PosMod(o, w), w)
  {
    RemFacts(o, w);
    var r1 := Rem(o, w);
    RemFacts(r1 + w, w);
    var k1 := Trunc(o / w);
    var k2 := Trunc((r1 + w) / w);
    TimesSum(k1, k2, w, o - r1, r1 + w - PosMod(o, w));
  }

  /** Two whole multiples of `w`, less one `w`, make a whole multiple. */
  lemma TimesSum(k1: int, k2: int, w: real, d1: real, d2: real)
    requires d1 == k1 as real * w && d2 == k2 as real * w
    ensures d1 + d2 - w == Times(k1 + k2 - 1, w)
  {
  }

  /** A value already in `[0, w)` is left alone. */
  lemma PosModIdentity(o: real, w: real)
    requires 0.0 <= o < w
    ensures PosMod(o, w) == o
  {
    var q := o / w;
    FractionBounds(o, w);
    assert Rem(o, w) == o;
    var q2 := (o + w) / w;
    assert q2 * w == o + w;
    Cancel(q2, q + 1.0, w);
    assert Trunc(q2) == 1;
  }

  /** A non-negative number below `w` is a fraction of `w` in `[0, 1)`. */
  lemma FractionBounds(o: real, w: real)
    requires 0.0 <= o < w
    ensures 0.0 <= o / w < 1.0
  {
    var q := o / w;
    assert q * w == o;
  }

  /** Two numbers with the same product by a non-zero factor are equal. */
  lemma Cancel(x: real, y: real, w: real)
    requires w != 0.0 && x * w == y * w
    ensures x == y
  {
    assert (x - y) * w == 0.0;
  }

  /** Sign rules for products, stated once so that proofs can cite them. */
  lemma MulNonNeg(x: real, y: real)
    requires x >= 0.0 && y >= 0.0
    ensures x * y >= 0.0
  {
  }

  lemma MulPos(x: real, y: real)
    requires x > 0.0 && y > 0.0
    ensures x * y > 0.0
  {
  }

  lemma MulNonPos(x: real, y: real)
    requires x <= 0.0 && y >= 0.0
    ensures x * y <= 0.0
  {
  }

  lemma MulZero(x: real, y: real)
    requires y == 0.0
    ensures x * y == 0.0
  {
  }

  lemma MulOne(x: real, y: real)
    requires y == 1.0
    ensures x * y == x
  {
  }

  /** Scaling by a fraction in `[0, 1]` moves a number toward zero. */
  lemma ShrinkNonNeg(x: real, y: real)
    requires x >= 0.0 && 0.0 <= y <= 1.0
    ensures 0.0 <= x * y <= x
  {
    MulNonNeg(x, y);
    MulNonNeg(x, 1.0 - y);
    assert x * (1.0 - y) == x - x * y;
  }

  lemma ShrinkNonPos(x: real, y: real)
    requires x <= 0.0 && 0.0 <= y <= 1.0
    ensures x <= x * y <= 0.0
  {
    MulNonPos(x, y);
    MulNonPos(x, 1.0 - y);
    assert x * (1.0 - y) == x - x * y;
  }

  /** The same two facts about a product `z` of `x` and `y`, for callers that have not split on the sign of `x`. */
  lemma ShrinkIfNonNeg(x: real, y: real, z: real)
    requires 0.0 <= y <= 1.0 && z == x * y
    ensures x >= 0.0 ==> 0.0 <= z <= x
  {
    if x >= 0.0 {
      ShrinkNonNeg(x, y);
    }
  }

  lemma ShrinkIfNonPos(x: real, y: real, z: real)
    requires 0.0 <= y <= 1.0 && z == x * y
    ensures x <= 0.0 ==> x <= z <= 0.0
  {
    if x <= 0.0 {
      ShrinkNonPos(x, y);
    }
  }
}
