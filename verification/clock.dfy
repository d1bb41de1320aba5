/** Conversion of performance counter ticks to microseconds in 64-bit arithmetic. */
module Clock {
  import opened Arithmetic

  const RANGE_32: nat := 0x1_0000_0000
  const MICROSECONDS: nat := 1_000_000

  /** Reduction modulo w. */
  function Mod(x: nat, w: nat): (r: nat)
    requires w > 0
    ensures r < w && (x < w ==> r == x)
    decreases x
  {
    if x < w then x else Mod(x - w, w)
  }

  /** Division rounded down. */
  function Div(x: nat, f: nat): (q: nat)
    requires f > 0
    ensures q <= x
    decreases x
  {
    if x < f then 0 else 1 + Div(x - f, f)
  }

  /** The conversion with words of base b: every operation is reduced modulo w. For b = 2^32 and
      w = 2^64 these are the operations of CxPlatTimePlatToUs64, with the count's halves apart. */
  function Convert(upper: nat, lower: nat, m: nat, f: nat, b: nat, w: nat): nat
    requires f > 0 && w > 0
  {
    var high := Mod(upper * m, w);
    var low := Mod(lower * m, w);
    Mod(Mod(Div(high, f) * b, w) + Div(Mod(low + Mod(Mod(high, f) * b, w), w), f), w)
  }

  function ToMicroseconds(count: nat, frequency: nat): nat
    requires frequency > 0
  {
    Convert(Div(count, RANGE_32), Mod(count, RANGE_32), MICROSECONDS, frequency, RANGE_32, RANGE_32 * RANGE_32)
  }

  lemma {:induction false} DivMod(x: nat, f: nat)
    requires f > 0
    ensures x == Div(x, f) * f + Mod(x, f)
    decreases x
  {
    if x >= f {
      DivMod(x - f, f);
    }
  }

  lemma {:induction false} DivideSum(q: nat, x: nat, f: nat)
    requires f > 0
    ensures Div(q * f + x, f) == q + Div(x, f)
    decreases q
  {
    if q > 0 {
      assert q * f == (q - 1) * f + f;
      assert (q - 1) * f >= 0;
      DivideSum(q - 1, x, f);
    }
  }

  /** Dividing the high part first and carrying its remainder is dividing the whole. */
  lemma LongDivision(high: nat, low: nat, f: nat, b: nat)
    requires f > 0
    ensures Div(high * b + low, f) == Div(high, f) * b + Div(low + Mod(high, f) * b, f)
  {
    var q, r := Div(high, f), Mod(high, f);
    DivMod(high, f);
    Regroup(q, r, f, b, low);
    DivideSum(q * b, low + r * b, f);
  }

  lemma Regroup(q: nat, r: nat, f: nat, b: nat, low: nat)
    ensures (q * f + r) * b + low == (q * b) * f + (low + r * b)
  {
  }

  lemma ProductBound(x: nat, y: nat, a: nat, b: nat)
    requires x < a && y <= b && b > 0
    ensures x * y < a * b
  {
    assert x * y <= x * b;
    assert x * b + b == (x + 1) * b <= a * b;
  }

  lemma CarryFits(lower: nat, m: nat, r: nat, f: nat, b: nat)
    requires lower < b && r < f && f + m <= b && m > 0
    ensures lower * m + r * b < b * b
  {
    ProductBound(lower, m, b, m);
    assert b * m + r * b == (r + m) * b;
    ProductBound(r + m, b, b, b);
  }

  /** Nothing wraps, so the result is the quotient of the whole product. */
  lemma ConvertIsExact(upper: nat, lower: nat, m: nat, f: nat, b: nat, w: nat, product: nat)
    requires f > 0 && m > 0 && upper < b && lower < b && f + m <= b && w == b * b && w > 0
    requires product == upper * m * b + lower * m && Div(product, f) < w
    ensures Convert(upper, lower, m, f, b, w) == Div(product, f)
  {
    ProductBound(upper, m, b, b);
    CarryFits(lower, m, Mod(upper * m, f), f, b);
    WithoutWrap(upper * m, lower * m, f, b, w, product);
  }

  lemma WithoutWrap(high: nat, low: nat, f: nat, b: nat, w: nat, product: nat)
    requires f > 0 && high < w && low + Mod(high, f) * b < w && product == high * b + low && Div(product, f) < w
    ensures Mod(Mod(Div(Mod(high, w), f) * b, w) + Div(Mod(Mod(low, w) + Mod(Mod(Mod(high, w), f) * b, w), w), f), w)
         == Div(product, f)
  {
    LongDivision(high, low, f, b);
    NoWrap(high, low, f, b, w);
  }

  lemma NoWrap(high: nat, low: nat, f: nat, b: nat, w: nat)
    requires f > 0 && high < w && low + Mod(high, f) * b < w && Div(high, f) * b + Div(low + Mod(high, f) * b, f) < w
    ensures Mod(Mod(Div(Mod(high, w), f) * b, w) + Div(Mod(Mod(low, w) + Mod(Mod(Mod(high, w), f) * b, w), w), f), w)
         == Div(high, f) * b + Div(low + Mod(high, f) * b, f)
  {
  }

  lemma {:induction false} DivIsDivision(x: nat, f: nat)
    requires f > 0
    ensures Div(x, f) == x / f && Mod(x, f) == x % f
    decreases x
  {
    if x >= f {
      DivIsDivision(x - f, f);
      var q := (x - f) / f;
      assert x - f == q * f + (x - f) % f;
      assert x == (q + 1) * f + (x - f) % f;
      QuotientUnique(x, f, q + 1, (x - f) % f);
    }
  }

  /** For every frequency up to 2^32 - 10^6 the result is the true number of microseconds, rounded down,
      whenever that number fits 64 bits. */
  lemma ConversionIsExact(count: nat, frequency: nat)
    requires count < RANGE_32 * RANGE_32 && 0 < frequency <= RANGE_32 - MICROSECONDS
    requires count * MICROSECONDS / frequency < RANGE_32 * RANGE_32
    ensures ToMicroseconds(count, frequency) == count * MICROSECONDS / frequency
  {
    var upper, lower := Div(count, RANGE_32), Mod(count, RANGE_32);
    DivMod(count, RANGE_32);
    Halves(upper, lower, count, MICROSECONDS, RANGE_32);
    DivIsDivision(count * MICROSECONDS, frequency);
    ConvertIsExact(upper, lower, MICROSECONDS, frequency, RANGE_32, RANGE_32 * RANGE_32, count * MICROSECONDS);
  }

  lemma Halves(upper: nat, lower: nat, count: nat, m: nat, b: nat)
    requires count == upper * b + lower && count < b * b
    ensures upper * m * b + lower * m == count * m && upper < b
  {
    assert upper >= b ==> upper * b >= b * b;
  }
}
