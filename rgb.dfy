/** 24-bit colours and the per-channel integer arithmetic the lighting pass
    uses. The colour library itself is not part of this model; each helper is
    defined here as the per-channel u8 operation its name describes. */
module Rgb {
  import opened Common

  datatype Rgb24 = Rgb24(r: U8, g: U8, b: U8)

  function Grey(v: U8): Rgb24 {
    Rgb24(v, v, v)
  }

  function SatU8(x: nat): U8 {
    if x > 255 then 255 else x
  }

  /** Divides every channel by `d` (integer division). */
  function ScalarDiv(c: Rgb24, d: nat): (q: Rgb24)
    requires d > 0
    ensures q.r <= c.r && q.g <= c.g && q.b <= c.b
  {
    DivLe(c.r, d);
    DivLe(c.g, d);
    DivLe(c.b, d);
    Rgb24(c.r / d, c.g / d, c.b / d)
  }

  /** Scales every channel by `s / 255`. */
  function NormalisedScalarMul(c: Rgb24, s: U8): (q: Rgb24)
    ensures q.r <= c.r && q.g <= c.g && q.b <= c.b
    ensures s == 255 ==> q == c
  {
    Rgb24(NormMul(c.r, s), NormMul(c.g, s), NormMul(c.b, s))
  }

  function NormMul(a: U8, s: U8): (m: U8)
    ensures m <= a
    ensures s == 255 ==> m == a
  {
    MulLeBound(a, s);
    (a * s) / 255
  }

  /** Adds channel by channel, clamping at 255. */
  function SaturatingAdd(a: Rgb24, b: Rgb24): (s: Rgb24)
    ensures NoDarker(s, a) && NoDarker(s, b)
  {
    Rgb24(SatU8(a.r + b.r), SatU8(a.g + b.g), SatU8(a.b + b.b))
  }

  /** The sum of the three channels, clamped at 255. */
  function SaturatingChannelTotal(c: Rgb24): (t: U8)
    ensures t > 31 <==> c.r + c.g + c.b > 31
  {
    SatU8(c.r + c.g + c.b)
  }

  /** Multiplies every channel by `n / d`, clamping at 255. */
  function SaturatingScalarMulDiv(c: Rgb24, n: nat, d: nat): Rgb24
    requires d > 0
  {
    Rgb24(SatU8(MulDiv(c.r, n, d)), SatU8(MulDiv(c.g, n, d)), SatU8(MulDiv(c.b, n, d)))
  }

  function MulDiv(a: nat, n: nat, d: nat): nat
    requires d > 0
  {
    var p: nat := MulNat(a, n);
    p / d
  }

  function MulNat(a: nat, n: nat): (p: nat)
    ensures p == a * n
  {
    assert a * n >= 0 by { MulNonneg(a, n); }
    a * n
  }

  lemma MulNonneg(a: nat, n: nat)
    ensures a * n >= 0
  {
  }

  /** No channel of `a` is below the same channel of `b`. */
  predicate NoDarker(a: Rgb24, b: Rgb24) {
    a.r >= b.r && a.g >= b.g && a.b >= b.b
  }

  lemma DivLe(a: nat, d: nat)
    requires d > 0
    ensures a / d <= a
  {
    var q := a / d;
    assert q * d <= a;
    assert q <= q * d by { MulGe(q, d); }
  }

  lemma MulGe(q: nat, d: nat)
    requires d > 0
    ensures q <= q * d
  {
  }

  lemma MulLeBound(a: U8, s: U8)
    ensures (a * s) / 255 <= a
    ensures s == 255 ==> (a * s) / 255 == a
  {
    assert a * s <= a * 255;
  }

  /** A brighter colour never has a smaller clamped channel total. */
  lemma TotalMonotone(a: Rgb24, b: Rgb24)
    requires NoDarker(a, b)
    ensures SaturatingChannelTotal(a) >= SaturatingChannelTotal(b)
  {
  }

  /** Adding any light to full white leaves it full white. */
  lemma WhiteAbsorbs(c: Rgb24)
    ensures SaturatingAdd(Grey(255), c) == Grey(255)
  {
  }
}
