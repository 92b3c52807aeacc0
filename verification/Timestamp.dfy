/** From a decimal number of seconds since the epoch to whole seconds and nanoseconds. */
module Timestamp {
  const U32_MAX: nat := 0xffff_ffff
  const TWO_32: nat := 0x1_0000_0000
  const U64_MAX: nat := 0xffff_ffff_ffff_ffff
  /** The last second a Unix system time can hold. */
  const I64_MAX: nat := 0x7fff_ffff_ffff_ffff
  const NANOS_PER_SEC: nat := 1_000_000_000

  /** A 96 bit mantissa scaled down by a power of ten, with a sign. */
  datatype RawDecimal = RawDecimal(negative: bool, mantissa: nat, scale: nat)

  type Decimal = d: RawDecimal | d.mantissa < 0x1_0000_0000_0000_0000_0000_0000 && d.scale <= 28
    witness RawDecimal(false, 0, 0)

  /** `Failed` is an arithmetic overflow, which a checked build turns into a panic. */
  datatype Conversion = Time(secs: nat, nanos: nat) | OutOfRange | Failed

  function Pow10(n: nat): (p: nat)
    ensures p > 0
  {
    if n == 0 then 1 else 10 * Pow10(n - 1)
  }

  function Quotient(a: nat, b: nat): nat
    requires b > 0
  {
    a / b
  }

  function Trunc(d: Decimal): nat {
    Quotient(d.mantissa, Pow10(d.scale))
  }

  /** The mantissa of the fractional part, which keeps the scale. */
  function Fract(d: Decimal): nat {
    d.mantissa % Pow10(d.scale)
  }

  function FromDecimal(d: Decimal): Conversion {
    if d.negative then Time(0, 0)
    else if Trunc(d) > U64_MAX then OutOfRange
    else if Fract(d) > U32_MAX then OutOfRange
    else if d.scale > 9 then Failed
    else
      var power := Pow10(9 - d.scale);
      if power > U32_MAX || Fract(d) * power > U32_MAX then Failed
      else ToSystemTime(Trunc(d), Fract(d) * power)
  }

  /** A duration carries whole seconds out of its nanoseconds; the sum must fit the system time. */
  function ToSystemTime(secs: nat, nanos: nat): Conversion {
    var total := secs + nanos / NANOS_PER_SEC;
    if total > U64_MAX then Failed
    else if total > I64_MAX then OutOfRange
    else Time(total, nanos % NANOS_PER_SEC)
  }

  /** Carrying keeps the time: with room for the seconds it is the same number of nanoseconds. */
  lemma CarryMeaning(secs: nat, nanos: nat)
    ensures var t := ToSystemTime(secs, nanos);
      && (t.Time? ==> t.secs * 1_000_000_000 + t.nanos == secs * 1_000_000_000 + nanos && t.nanos < 1_000_000_000)
      && (t.Time? <==> secs + nanos / 1_000_000_000 <= 9_223_372_036_854_775_807)
      && (t == Failed <==> secs + nanos / 1_000_000_000 > 18_446_744_073_709_551_615)
  {
  }

  lemma {:induction false} Pow10Add(a: nat, b: nat)
    ensures Pow10(a + b) == Pow10(a) * Pow10(b)
  {
    if a != 0 {
      Pow10Add(a - 1, b);
      assert Pow10(a + b) == 10 * Pow10(a - 1 + b);
      assert 10 * (Pow10(a - 1) * Pow10(b)) == (10 * Pow10(a - 1)) * Pow10(b);
    }
  }

  lemma Pow10Nine()
    ensures Pow10(9) == NANOS_PER_SEC
  {
  }

  lemma {:induction false} Pow10Grows(a: nat, b: nat)
    requires a <= b
    ensures Pow10(a) <= Pow10(b)
    decreases b
  {
    if a < b {
      Pow10Grows(a, b - 1);
    }
  }

  /** The number of nanoseconds a decimal of at most nine places stands for. */
  function Nanos(d: Decimal): int
    requires d.scale <= 9
  {
    (if d.negative then -1 else 1) * d.mantissa * Pow10(9 - d.scale)
  }

  function TotalNanos(c: Conversion): int
    requires c.Time?
  {
    c.secs * NANOS_PER_SEC + c.nanos
  }

  lemma MulAssoc(a: nat, b: nat, c: nat)
    ensures (a * b) * c == a * (b * c)
  {
  }

  lemma MulGrows(a: nat, b: nat, c: nat)
    requires a < b && c > 0
    ensures a * c < b * c
  {
  }

  lemma MulKeeps(a: int, b: int, c: nat)
    requires a <= b
    ensures a * c <= b * c
  {
  }

  lemma SplitScaled(m: nat, unit: nat, power: nat)
    requires unit > 0 && power > 0
    ensures m % unit * power < unit * power
    ensures Quotient(m, unit) * (unit * power) + m % unit * power == m * power
  {
    var q, r := Quotient(m, unit), m % unit;
    assert m == q * unit + r;
    MulGrows(r, unit, power);
    MulAssoc(q, unit, power);
    Distribute(q * unit, r, power);
  }

  /** Whole seconds and scaled fraction add up to the decimal, and the fraction stays below a second. */
  lemma Split(d: Decimal)
    requires d.scale <= 9
    ensures Fract(d) * Pow10(9 - d.scale) < NANOS_PER_SEC
    ensures Trunc(d) * NANOS_PER_SEC + Fract(d) * Pow10(9 - d.scale) == d.mantissa * Pow10(9 - d.scale)
  {
    hide Quotient, Pow10;
    Pow10Add(d.scale, 9 - d.scale);
    Pow10Nine();
    SplitScaled(d.mantissa, Pow10(d.scale), Pow10(9 - d.scale));
  }

  lemma Distribute(a: nat, b: nat, c: nat)
    ensures (a + b) * c == a * c + b * c
  {
  }

  /** With at most nine decimal places the conversion is exact, overflows nowhere,
      and exists exactly when the whole seconds fit; times before the epoch become the epoch. */
  lemma Exact(d: Decimal)
    requires d.scale <= 9
    ensures FromDecimal(d).Time? <==> d.negative || d.mantissa / Pow10(d.scale) <= 9_223_372_036_854_775_807
    ensures !FromDecimal(d).Time? ==> FromDecimal(d) == OutOfRange
    ensures FromDecimal(d).Time? ==>
      FromDecimal(d).nanos < NANOS_PER_SEC
      && TotalNanos(FromDecimal(d)) == if d.negative then 0 else Nanos(d)
  {
    hide Pow10, Fract, Trunc, ToSystemTime;
    TruncIs(d);
    Split(d);
    Pow10Grows(9 - d.scale, 9);
    Pow10Nine();
    Shrinks(Fract(d), Pow10(9 - d.scale));
    SmallSeconds(d);
  }

  lemma TruncIs(d: Decimal)
    ensures Trunc(d) == d.mantissa / Pow10(d.scale)
  {
  }

  /** Beyond the seconds of a system time nothing fails below nine places. */
  lemma SmallSeconds(d: Decimal)
    requires d.scale <= 9 && Fract(d) * Pow10(9 - d.scale) < NANOS_PER_SEC && Pow10(9 - d.scale) <= NANOS_PER_SEC
    requires Fract(d) <= Fract(d) * Pow10(9 - d.scale)
    ensures FromDecimal(d) != Failed
    ensures FromDecimal(d).Time? <==> d.negative || Trunc(d) <= I64_MAX
    ensures FromDecimal(d).Time? && !d.negative ==>
      FromDecimal(d) == Time(Trunc(d), Fract(d) * Pow10(9 - d.scale))
  {
    hide Pow10, Fract, Trunc;
    SmallNanos(Fract(d) * Pow10(9 - d.scale));
  }

  lemma SmallNanos(nanos: nat)
    requires nanos < NANOS_PER_SEC
    ensures nanos / NANOS_PER_SEC == 0 && nanos % NANOS_PER_SEC == nanos
  {
  }

  lemma Shrinks(a: nat, b: nat)
    requires b > 0
    ensures a <= a * b
  {
  }

  /** Arithmetic fails exactly for more than nine decimal places that pass the range checks. */
  lemma FailsIff(d: Decimal)
    ensures FromDecimal(d) == Failed
       <==> !d.negative && d.scale > 9 && d.mantissa / Pow10(d.scale) <= 18_446_744_073_709_551_615
            && d.mantissa % Pow10(d.scale) <= 4_294_967_295
  {
    if d.scale <= 9 {
      Exact(d);
    }
  }

  /** For instance a little more than one second, to ten places. */
  lemma TenPlacesFail()
    ensures FromDecimal(RawDecimal(false, 10_000_000_001, 10)) == Failed
  {
    Pow10Add(9, 1);
    Pow10Nine();
    assert Pow10(10) == 10 * NANOS_PER_SEC;
  }

  /** What a build computes that does not check its arithmetic: it wraps at 32 bits. */
  function FromDecimalUnchecked(d: Decimal): Conversion {
    if d.negative then Time(0, 0)
    else if Trunc(d) > U64_MAX then OutOfRange
    else if Fract(d) > U32_MAX then OutOfRange
    else ToSystemTime(Trunc(d), Fract(d) * (Pow10((9 - d.scale) % TWO_32) % TWO_32) % TWO_32)
  }

  /** High powers of ten are multiples of 2^32. */
  lemma {:induction false} Pow10Vanishes(e: nat) returns (q: nat)
    requires e >= 32
    ensures Pow10(e) == q * TWO_32
  {
    if e == 32 {
      Pow10Add(8, 8);
      Pow10Add(16, 16);
      assert Pow10(8) == 390_625 * 256;
      q := 390_625 * 390_625 * 390_625 * 390_625;
    } else {
      var r := Pow10Vanishes(e - 1);
      q := 10 * r;
    }
  }

  lemma VanishesTimes(f: nat, power: nat, q: nat)
    requires power == q * TWO_32
    ensures f * (power % TWO_32) % TWO_32 == 0
  {
    assert power % TWO_32 == 0;
  }

  lemma SmallStays(f: nat, power: nat)
    requires power < TWO_32 && f * power < TWO_32
    ensures f * (power % TWO_32) % TWO_32 == f * power
  {
  }

  lemma UncheckedLong(d: Decimal)
    requires d.scale > 9
    ensures Fract(d) * (Pow10((9 - d.scale) % TWO_32) % TWO_32) % TWO_32 == 0
  {
    hide Pow10, Fract;
    var e := (9 - d.scale) % TWO_32;
    assert e == 9 - d.scale + TWO_32;
    var q := Pow10Vanishes(e);
    VanishesTimes(Fract(d), Pow10(e), q);
  }

  lemma UncheckedShort(d: Decimal)
    requires d.scale <= 9
    ensures Pow10(9 - d.scale) <= U32_MAX && Fract(d) * Pow10(9 - d.scale) <= U32_MAX
    ensures Fract(d) * (Pow10((9 - d.scale) % TWO_32) % TWO_32) % TWO_32 == Fract(d) * Pow10(9 - d.scale)
  {
    hide Pow10, Fract, Trunc;
    Split(d);
    Pow10Grows(9 - d.scale, 9);
    Pow10Nine();
    assert (9 - d.scale) % TWO_32 == 9 - d.scale;
    SmallStays(Fract(d), Pow10(9 - d.scale));
  }

  /** Without the checks nothing changes up to nine places; beyond, where the checked
      build fails, the fraction is dropped. */
  lemma UncheckedMeaning(d: Decimal)
    ensures FromDecimal(d) != Failed ==> FromDecimalUnchecked(d) == FromDecimal(d)
    ensures FromDecimal(d) == Failed ==> FromDecimalUnchecked(d) == ToSystemTime(Trunc(d), 0)
  {
    hide Pow10, Fract, Trunc, ToSystemTime;
    FailsIff(d);
    if d.scale > 9 {
      UncheckedLong(d);
    } else {
      UncheckedShort(d);
    }
  }

  /** A build that does not check has a result for every timestamp. */
  lemma UncheckedNeverFails(d: Decimal)
    ensures FromDecimalUnchecked(d) != Failed
  {
    hide Fract;
    UncheckedMeaning(d);
  }

  datatype Build = Checked | Unchecked

  function Convert(build: Build, d: Decimal): Conversion {
    match build
    case Checked => FromDecimal(d)
    case Unchecked => FromDecimalUnchecked(d)
  }

  /** Numerical order, across scales. */
  predicate AtMost(a: Decimal, b: Decimal) {
    Signed(a) * Pow10(b.scale) <= Signed(b) * Pow10(a.scale)
  }

  function Signed(d: Decimal): int {
    (if d.negative then -1 else 1) * d.mantissa
  }

  lemma MulRegroup(m: int, x: int, y: int)
    ensures m * x * y == m * (x * y)
  {
  }

  lemma Cross(m: int, p: int, q: int, r: int, n: int)
    requires p * q == r * n
    ensures m * p * q == m * r * n
  {
  }

  lemma Rescale(m: int, a: nat, b: nat)
    requires a <= 9 && b <= 9
    ensures m * Pow10(b) * Pow10(18 - a - b) == m * Pow10(9 - a) * NANOS_PER_SEC
  {
    Pow10Add(b, 18 - a - b);
    Pow10Add(9 - a, 9);
    Pow10Nine();
    Cross(m, Pow10(b), Pow10(18 - a - b), Pow10(9 - a), NANOS_PER_SEC);
  }

  lemma NanosOrder(a: Decimal, b: Decimal)
    requires a.scale <= 9 && b.scale <= 9 && AtMost(a, b)
    ensures Nanos(a) <= Nanos(b)
  {
    var common := Pow10(18 - a.scale - b.scale);
    MulKeeps(Signed(a) * Pow10(b.scale), Signed(b) * Pow10(a.scale), common);
    Rescale(Signed(a), a.scale, b.scale);
    Rescale(Signed(b), b.scale, a.scale);
    assert Nanos(a) == Signed(a) * Pow10(9 - a.scale) && Nanos(b) == Signed(b) * Pow10(9 - b.scale);
  }

  /** Whole seconds bracket the nanoseconds. */
  lemma NanosBounds(d: Decimal)
    requires d.scale <= 9
    ensures d.negative ==> Nanos(d) <= 0
    ensures !d.negative ==> Trunc(d) * NANOS_PER_SEC <= Nanos(d) < (Trunc(d) + 1) * NANOS_PER_SEC
  {
    Split(d);
    MulRegroup(-1, d.mantissa, Pow10(9 - d.scale));
  }

  /** Earlier decimals convert whenever later ones do, and never to a later time. */
  lemma Monotone(a: Decimal, b: Decimal)
    requires a.scale <= 9 && b.scale <= 9 && AtMost(a, b)
    requires FromDecimal(b).Time?
    ensures FromDecimal(a).Time? && TotalNanos(FromDecimal(a)) <= TotalNanos(FromDecimal(b))
  {
    NanosOrder(a, b);
    Ordered(a, b, Nanos(a), Nanos(b));
  }

  lemma Ordered(a: Decimal, b: Decimal, x: int, y: int)
    requires a.scale <= 9 && b.scale <= 9 && x == Nanos(a) && y == Nanos(b) && x <= y
    requires FromDecimal(b).Time?
    ensures FromDecimal(a).Time? && TotalNanos(FromDecimal(a)) <= TotalNanos(FromDecimal(b))
  {
    Exact(a);
    Exact(b);
    NanosBounds(a);
    NanosBounds(b);
  }
}
