/**
 * Linear interpolation, the one easing step both animated components use: the
 * gallery eases its scroll position toward the scroll target, and the logo
 * marquee eases its velocity toward the target velocity.
 */
module Easing {
  import opened JsMath

  /** `lerp(p1, p2, t)`: the point the fraction `t` of the way from `p` to `q`. */
  function Lerp(p: real, q: real, t: real): real
  {
    p + (q - p) * t
  }

  /** No step at `t = 0`, the whole way at `t = 1`, and in between never past either end. */
  lemma LerpBounds(p: real, q: real, t: real)
    ensures t == 0.0 ==> Lerp(p, q, t) == p
    ensures t == 1.0 ==> Lerp(p, q, t) == q
    ensures 0.0 <= t <= 1.0 && p <= q ==> p <= Lerp(p, q, t) <= q
    ensures 0.0 <= t <= 1.0 && q <= p ==> q <= Lerp(p, q, t) <= p
  {
    ScaledGap(q - p, t, Lerp(p, q, t) - p);
  }

  /** The part `d = g * t` of a gap `g` that one step covers. */
  lemma ScaledGap(g: real, t: real, d: real)
    requires d == g * t
    ensures t == 0.0 ==> d == 0.0
    ensures t == 1.0 ==> d == g
    ensures 0.0 <= t <= 1.0 && g >= 0.0 ==> 0.0 <= d <= g
    ensures 0.0 <= t <= 1.0 && g <= 0.0 ==> g <= d <= 0.0
  {
    if t == 0.0 {
      MulZero(g, t);
    }
    if t == 1.0 {
      MulOne(g, t);
    }
    if 0.0 <= t <= 1.0 && g >= 0.0 {
      ShrinkNonNeg(g, t);
    }
    if 0.0 <= t <= 1.0 && g <= 0.0 {
      ShrinkNonPos(g, t);
    }
  }

  /** The gap after one step, with its sign: exactly the fraction `1 - t` of the gap before. */
  lemma LerpStepGap(p: real, q: real, t: real)
    ensures q - Lerp(p, q, t) == (q - p) * (1.0 - t)
  {
    Distribute(q - p, t);
  }

  /** One step leaves exactly the fraction `1 - t` of the remaining gap. */
  lemma LerpGap(p: real, q: real, t: real)
    requires t <= 1.0
    ensures Abs(q - Lerp(p, q, t)) == Abs(q - p) * (1.0 - t)
  {
    LerpStepGap(p, q, t);
    if q - p >= 0.0 {
      MulNonNeg(q - p, 1.0 - t);
    } else {
      MulNonPos(q - p, 1.0 - t);
      Negate(q - p, 1.0 - t);
    }
  }

  /** With a factor in `[0, 1]` a step never overshoots and never widens the gap. */
  lemma LerpNeverWidens(p: real, q: real, t: real)
    requires 0.0 <= t <= 1.0
    ensures Abs(q - Lerp(p, q, t)) <= Abs(q - p)
    ensures t > 0.0 && p != q ==> Abs(q - Lerp(p, q, t)) < Abs(q - p)
  {
    LerpGap(p, q, t);
    var g := Abs(q - p);
    Distribute(g, t);
    MulNonNeg(g, t);
    if t > 0.0 && p != q {
      MulPos(g, t);
    }
  }

  /** `b` raised to the power `k`. */
  function Pow(b: real, k: nat): real
  {
    if k == 0 then 1.0 else Pow(b, k - 1) * b
  }

  /** The position after `k` frames that each ease `p` toward a fixed `q` by `t`. */
  function Settle(p: real, q: real, t: real, k: nat): real
    decreases k
  {
    if k == 0 then p else Settle(Lerp(p, q, t), q, t, k - 1)
  }

  /** After `k` frames the gap to the target is the initial gap scaled by `(1 - t)^k`. */
  lemma {:induction false} SettleGap(p: real, q: real, t: real, k: nat)
    ensures q - Settle(p, q, t, k) == (q - p) * Pow(1.0 - t, k)
    decreases k
  {
    if k == 0 {
      MulOne(q - p, Pow(1.0 - t, k));
    } else {
      var p1 := Lerp(p, q, t);
      SettleGap(p1, q, t, k - 1);
      LerpStepGap(p, q, t);
      SettleUnfold(p, q, t, k);
      Regroup(q - Settle(p, q, t, k), Pow(1.0 - t, k - 1), q - p1, 1.0 - t, q - p, Pow(1.0 - t, k));
    }
  }

  /** One frame of `Settle` and one factor of `Pow`, peeled off. */
  lemma SettleUnfold(p: real, q: real, t: real, k: nat)
    requires k > 0
    ensures Settle(p, q, t, k) == Settle(Lerp(p, q, t), q, t, k - 1)
    ensures Pow(1.0 - t, k) == Pow(1.0 - t, k - 1) * (1.0 - t)
  {
  }

  /** A power of a factor in `[0, 1]` stays in `[0, 1]`. */
  lemma {:induction false} PowUnit(b: real, k: nat)
    requires 0.0 <= b <= 1.0
    ensures 0.0 <= Pow(b, k) <= 1.0
  {
    if k > 0 {
      PowUnit(b, k - 1);
      ShrinkNonNeg(Pow(b, k - 1), b);
    }
  }

  /** Easing by a factor in `(0, 1]` never moves away from the target, however many frames run. */
  lemma {:induction false} SettleNeverWidens(p: real, q: real, t: real, k: nat)
    requires 0.0 < t <= 1.0
    ensures Abs(q - Settle(p, q, t, k)) <= Abs(q - p)
  {
    SettleGap(p, q, t, k);
    PowUnit(1.0 - t, k);
    ShrinkIfNonNeg(q - p, Pow(1.0 - t, k), q - Settle(p, q, t, k));
    ShrinkIfNonPos(q - p, Pow(1.0 - t, k), q - Settle(p, q, t, k));
  }

  lemma Distribute(g: real, t: real)
    ensures g * (1.0 - t) == g - g * t
  {
  }

  lemma Negate(g: real, f: real)
    ensures (-g) * f == -(g * f)
  {
  }

  lemma Regroup(x: real, pk: real, y: real, b: real, a: real, pw: real)
    requires x == y * pk && y == a * b && pw == pk * b
    ensures x == a * pw
  {
  }
}
