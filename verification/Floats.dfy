/** IEEE 754 binary floats as bit fields, and their exact conversions between widths (RFC 8949, section 4.2.1). */
module Floats {
  import opened Prelude

  // ---------- powers of two ----------

  function Pow2(k: nat): (p: nat)
    ensures p > 0
  {
    if k == 0 then 1 else 2 * Pow2(k - 1)
  }

  lemma {:induction false} Pow2Adds(a: nat, b: nat)
    ensures Pow2(a) * Pow2(b) == Pow2(a + b)
  {
    if a > 0 {
      Pow2Adds(a - 1, b);
      Doubled(Pow2(a - 1), Pow2(b));
      assert Pow2(a + b) == 2 * Pow2(a - 1 + b);
    }
  }

  lemma Doubled(a: nat, b: nat)
    ensures (2 * a) * b == 2 * (a * b)
  {
  }

  lemma {:induction false} Pow2Grows(a: nat, b: nat)
    requires a <= b
    ensures Pow2(a) <= Pow2(b)
  {
    if a < b {
      Pow2Grows(a, b - 1);
    }
  }

  /** The number of binary digits. */
  function Digits(n: nat): nat {
    if n == 0 then 0 else 1 + Digits(n / 2)
  }

  lemma {:induction false} DigitsBound(n: nat)
    requires n > 0
    ensures Digits(n) > 0 && Pow2(Digits(n) - 1) <= n < Pow2(Digits(n))
  {
    if n > 1 {
      DigitsBound(n / 2);
    }
  }

  lemma DigitsUnique(n: nat, k: nat)
    requires k > 0 && Pow2(k - 1) <= n < Pow2(k)
    ensures Digits(n) == k
  {
    DigitsBound(n);
    if Digits(n) < k {
      Pow2Grows(Digits(n), k - 1);
    } else if Digits(n) > k {
      Pow2Grows(k, Digits(n) - 1);
    }
  }

  lemma Quotient(q: nat, d: nat, r: nat)
    requires d > 0 && r < d
    ensures (q * d + r) / d == q && (q * d + r) % d == r
  {
    var n := q * d + r;
    var e := n / d - q;
    assert n == n / d * d + n % d;
    assert e * d == r - n % d;
    assert e * d < d && e * d > -(d as int);
  }

  lemma Multiple(q: nat, d: nat)
    requires d > 0
    ensures q * d / d == q && q * d % d == 0
  {
    Quotient(q, d, 0);
  }

  lemma ProductBound(q: nat, d: nat, m: nat)
    requires d > 0
    ensures q < m <==> q * d < m * d
  {
    if q < m {
      assert (m - q) * d > 0;
    } else {
      assert (q - m) * d >= 0;
    }
  }

  lemma Divided(n: nat, d: nat, m: nat)
    requires d > 0 && n < m * d
    ensures n / d * d + n % d == n && n / d < m && n % d < d
  {
    assert n == n / d * d + n % d;
    ProductBound(n / d, d, m);
  }

  function DivMod(n: nat, d: nat): (qr: (nat, nat))
    requires d > 0
    ensures qr.1 < d
  {
    (n / d, n % d)
  }

  // ---------- formats ----------

  /** A binary format: its biased exponents, its fraction bits, and its bias. */
  datatype Format = Format(exponents: nat, fractionBits: nat, bias: nat)

  const HALF := Format(0x20, 10, 15)
  const SINGLE := Format(0x100, 23, 127)
  const DOUBLE := Format(0x800, 52, 1023)

  datatype Fields = Fields(sign: nat, exponent: nat, fraction: nat)

  predicate Fits(fmt: Format, f: Fields) {
    f.sign < 2 && f.exponent < fmt.exponents && f.fraction < Pow2(fmt.fractionBits)
  }

  /** Neither an infinity nor a NaN. */
  predicate Finite(fmt: Format, f: Fields) {
    f.exponent + 1 < fmt.exponents
  }

  function Pack(fmt: Format, f: Fields): nat {
    (f.sign * fmt.exponents + f.exponent) * Pow2(fmt.fractionBits) + f.fraction
  }

  function Unpack(fmt: Format, n: nat): (f: Fields)
    requires fmt.exponents > 0
    ensures f.fraction < Pow2(fmt.fractionBits)
  {
    var (high, fraction) := DivMod(n, Pow2(fmt.fractionBits));
    var (sign, exponent) := DivMod(high, fmt.exponents);
    Fields(sign, exponent, fraction)
  }

  lemma UnpackOfPack(fmt: Format, f: Fields)
    requires fmt.exponents > 0 && Fits(fmt, f)
    ensures Unpack(fmt, Pack(fmt, f)) == f
    ensures Pack(fmt, f) < 2 * fmt.exponents * Pow2(fmt.fractionBits)
  {
    Quotient(f.sign * fmt.exponents + f.exponent, Pow2(fmt.fractionBits), f.fraction);
    Quotient(f.sign, fmt.exponents, f.exponent);
    PackBound(f.sign * fmt.exponents + f.exponent, 2 * fmt.exponents, Pow2(fmt.fractionBits), f.fraction);
  }

  lemma PackBound(q: nat, m: nat, d: nat, r: nat)
    requires q < m && r < d
    ensures q * d + r < m * d
  {
    ProductMonotone(d, q + 1, m);
    OneMore(q, d);
  }

  lemma PackOfUnpack(fmt: Format, n: nat)
    requires fmt.exponents > 0 && n < 2 * fmt.exponents * Pow2(fmt.fractionBits)
    ensures Pack(fmt, Unpack(fmt, n)) == n && Fits(fmt, Unpack(fmt, n))
  {
    Divided(n, Pow2(fmt.fractionBits), 2 * fmt.exponents);
    Divided(n / Pow2(fmt.fractionBits), fmt.exponents, 2);
  }

  // ---------- conversions ----------

  /** The first format's finite values are all among the second's, none of them below its normal range. */
  predicate Narrower(fmt: Format, wide: Format) {
    && 0 < fmt.fractionBits < wide.fractionBits
    && fmt.bias + fmt.fractionBits < wide.bias
    && fmt.exponents == 2 * fmt.bias + 2 && wide.exponents == 2 * wide.bias + 2
  }

  function Shifted(n: nat, k: nat): nat {
    n * Pow2(k)
  }

  lemma SubnormalDigits(n: nat, bits: nat)
    requires 0 < n < Pow2(bits)
    ensures 0 < Digits(n) <= bits && Pow2(Digits(n) - 1) <= n
  {
    DigitsBound(n);
    if Digits(n) > bits {
      Pow2Grows(bits, Digits(n) - 1);
    }
  }

  /** A narrow value in the wide format: the same value, exactly. */
  function Widen(fmt: Format, wide: Format, f: Fields): Fields
    requires Narrower(fmt, wide) && f.fraction < Pow2(fmt.fractionBits)
  {
    var more := wide.fractionBits - fmt.fractionBits;
    if f.exponent == 0 && f.fraction == 0 then Fields(f.sign, 0, 0)
    else if f.exponent == 0 then WidenSubnormal(fmt, wide, f)
    else if !Finite(fmt, f) then Fields(f.sign, wide.exponents - 1, Shifted(f.fraction, more))
    else Fields(f.sign, f.exponent - fmt.bias + wide.bias, Shifted(f.fraction, more))
  }

  /** A value below the narrow format's normal range is within the wide one's: its first digit becomes implicit. */
  function WidenSubnormal(fmt: Format, wide: Format, f: Fields): Fields
    requires Narrower(fmt, wide) && 0 < f.fraction < Pow2(fmt.fractionBits)
  {
    SubnormalDigits(f.fraction, fmt.fractionBits);
    var k := Digits(f.fraction);
    Fields(f.sign, wide.bias - fmt.bias - fmt.fractionBits + k,
           Shifted(f.fraction - Pow2(k - 1), wide.fractionBits + 1 - k))
  }

  /** The narrow form of a finite value, if there is one that is exact. */
  function Narrow(fmt: Format, wide: Format, d: Fields): Option<Fields>
    requires Narrower(fmt, wide)
  {
    var more := Pow2(wide.fractionBits - fmt.fractionBits);
    var e := d.exponent + fmt.bias - wide.bias;
    if d.exponent == 0 then if d.fraction == 0 then Some(Fields(d.sign, 0, 0)) else None
    else if 1 <= e < fmt.exponents - 1 then
      if d.fraction % more == 0 then Some(Fields(d.sign, e, d.fraction / more)) else None
    else if e <= 0 < fmt.fractionBits + e then NarrowSubnormal(wide, d, fmt.fractionBits + e)
    else None
  }

  function NarrowSubnormal(wide: Format, d: Fields, k: nat): Option<Fields>
    requires 0 < k <= wide.fractionBits
  {
    var step := Pow2(wide.fractionBits + 1 - k);
    if d.fraction % step == 0 then Some(Fields(d.sign, 0, Pow2(k - 1) + d.fraction / step)) else None
  }

  /** Scaling a fraction up keeps it a fraction, and can be undone. */
  lemma Scaled(n: nat, a: nat, b: nat)
    requires n < Pow2(a)
    ensures Shifted(n, b) < Pow2(a + b) && Shifted(n, b) / Pow2(b) == n && Shifted(n, b) % Pow2(b) == 0
  {
    Pow2Adds(a, b);
    ProductBound(n, Pow2(b), Pow2(a));
    Multiple(n, Pow2(b));
  }

  /** Scaling down exactly can be undone, too. */
  lemma Unscaled(n: nat, a: nat, b: nat)
    requires n < Pow2(a + b) && n % Pow2(b) == 0
    ensures n / Pow2(b) < Pow2(a) && Shifted(n / Pow2(b), b) == n
  {
    Pow2Adds(a, b);
    assert n == n / Pow2(b) * Pow2(b) + n % Pow2(b);
    ProductBound(n / Pow2(b), Pow2(b), Pow2(a));
  }

  /** Every finite narrow value is its own exact narrow form. */
  lemma NarrowOfWiden(fmt: Format, wide: Format, f: Fields)
    requires Narrower(fmt, wide) && Fits(fmt, f) && Finite(fmt, f)
    ensures Fits(wide, Widen(fmt, wide, f)) && Finite(wide, Widen(fmt, wide, f))
    ensures Narrow(fmt, wide, Widen(fmt, wide, f)) == Some(f)
  {
    if f.exponent > 0 {
      Scaled(f.fraction, fmt.fractionBits, wide.fractionBits - fmt.fractionBits);
    } else if f.fraction > 0 {
      SubnormalNarrows(fmt, wide, f);
    }
  }

  lemma SubnormalNarrows(fmt: Format, wide: Format, f: Fields)
    requires Narrower(fmt, wide) && f.sign < 2 && f.exponent == 0 && 0 < f.fraction < Pow2(fmt.fractionBits)
    ensures 0 < Digits(f.fraction) <= fmt.fractionBits
    ensures var d := WidenSubnormal(fmt, wide, f);
            && Fits(wide, d) && Finite(wide, d) && d.exponent > 0
            && NarrowSubnormal(wide, d, Digits(f.fraction)) == Some(f)
            && d.exponent + fmt.bias - wide.bias + fmt.fractionBits == Digits(f.fraction)
  {
    SubnormalDigits(f.fraction, fmt.fractionBits);
    var k := Digits(f.fraction);
    DigitsBound(f.fraction);
    assert Pow2(k) == 2 * Pow2(k - 1);
    Scaled(f.fraction - Pow2(k - 1), k - 1, wide.fractionBits + 1 - k);
  }

  /** What narrows is the wide form of what it narrows to. */
  lemma WidenOfNarrow(fmt: Format, wide: Format, d: Fields)
    requires Narrower(fmt, wide) && Fits(wide, d) && Narrow(fmt, wide, d).Some?
    ensures var f := Narrow(fmt, wide, d).value; Fits(fmt, f) && Finite(fmt, f) && Widen(fmt, wide, f) == d
  {
    var e := d.exponent + fmt.bias - wide.bias;
    if d.exponent > 0 && e >= 1 {
      Unscaled(d.fraction, fmt.fractionBits, wide.fractionBits - fmt.fractionBits);
    } else if d.exponent > 0 {
      SubnormalWidens(fmt, wide, d, fmt.fractionBits + e);
    }
  }

  lemma SubnormalWidens(fmt: Format, wide: Format, d: Fields, k: nat)
    requires Narrower(fmt, wide) && Fits(wide, d) && 0 < k <= fmt.fractionBits
    requires k == d.exponent + fmt.bias - wide.bias + fmt.fractionBits && NarrowSubnormal(wide, d, k).Some?
    ensures var f := NarrowSubnormal(wide, d, k).value;
            0 < f.fraction < Pow2(fmt.fractionBits) && WidenSubnormal(fmt, wide, f) == d
  {
    var g := d.fraction / Pow2(wide.fractionBits + 1 - k);
    Unscaled(d.fraction, k - 1, wide.fractionBits + 1 - k);
    LeadingDigit(g, k);
    Pow2Grows(k, fmt.fractionBits);
  }

  /** With a leading digit in front, the number of digits is known. */
  lemma LeadingDigit(g: nat, k: nat)
    requires k > 0 && g < Pow2(k - 1)
    ensures 0 < Pow2(k - 1) + g < Pow2(k) && Digits(Pow2(k - 1) + g) == k
  {
    assert Pow2(k) == 2 * Pow2(k - 1);
    DigitsUnique(Pow2(k - 1) + g, k);
  }

  lemma Pow2Values()
    ensures Pow2(29) == 0x2000_0000 && Pow2(42) == 0x400_0000_0000
  {
    assert Pow2(13) == 0x2000 && Pow2(16) == 0x1_0000;
    Pow2Adds(13, 16);
    Pow2Adds(29, 13);
  }

  /** Within the narrow format's normal range a float narrows exactly if the digits cut are zeros. */
  lemma NarrowNormal(fmt: Format, wide: Format, d: Fields, e: nat, more: nat)
    requires Narrower(fmt, wide) && d.exponent > 0 && more == Pow2(wide.fractionBits - fmt.fractionBits)
    requires e == d.exponent + fmt.bias - wide.bias && 1 <= e < fmt.exponents - 1
    ensures Narrow(fmt, wide, d)
            == if d.fraction % more == 0 then Some(Fields(d.sign, e, d.fraction / more)) else None
  {
  }

  /** Floats of appendix A of RFC 8949: 1.0 and the least positive half-width float narrow to half width,
      100000.0 to single width alone, and 1.1 to neither. */
  lemma FloatExamples()
    ensures Narrow(HALF, DOUBLE, Fields(0, 1023, 0)) == Some(Fields(0, 15, 0))
    ensures Narrow(HALF, DOUBLE, Fields(0, 999, 0)) == Some(Fields(0, 0, 1))
    ensures Narrow(HALF, DOUBLE, Fields(0, 1039, 0x8_6a00_0000_0000)).None?
    ensures Narrow(SINGLE, DOUBLE, Fields(0, 1039, 0x8_6a00_0000_0000)) == Some(Fields(0, 143, 0x43_5000))
    ensures Narrow(HALF, DOUBLE, Fields(0, 1023, 0x1_9999_9999_999a)).None?
    ensures Narrow(SINGLE, DOUBLE, Fields(0, 1023, 0x1_9999_9999_999a)).None?
  {
    Pow2Values();
    NarrowNormal(HALF, DOUBLE, Fields(0, 1023, 0), 15, 0x400_0000_0000);
    NarrowNormal(SINGLE, DOUBLE, Fields(0, 1039, 0x8_6a00_0000_0000), 143, 0x2000_0000);
    NarrowNormal(HALF, DOUBLE, Fields(0, 1023, 0x1_9999_9999_999a), 15, 0x400_0000_0000);
    NarrowNormal(SINGLE, DOUBLE, Fields(0, 1023, 0x1_9999_9999_999a), 127, 0x2000_0000);
  }
}
