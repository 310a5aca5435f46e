/**
 Unit conversion (src/common/utils/eth-units.js:3-67). Quotients are rounded half up, away from
 zero, to the 20 decimal places bignumber.js keeps by default.
 */
module EthUnits {
  import opened Wrappers
  import opened Numerals
  import opened Strings

  /** A decimal number: `mantissa / 10^scale`. */
  datatype Decimal = Decimal(mantissa: int, scale: nat)

  const PLACES: nat := 20

  /** The units by the power of ten they stand for. */
  const UNIT_MAP: map<string, nat> := map[
    "wei" := 0,
    "kwei" := 3, "ada" := 3, "femtoether" := 3,
    "mwei" := 6, "babbage" := 6, "picoether" := 6,
    "gwei" := 9, "shannon" := 9, "nanoether" := 9, "nano" := 9,
    "szabo" := 12, "microether" := 12, "micro" := 12,
    "finney" := 15, "milliether" := 15, "milli" := 15,
    "ether" := 18,
    "kether" := 21, "grand" := 21, "einstein" := 21,
    "mether" := 24,
    "gether" := 27,
    "tether" := 30]

  /** `getValueOfUnit`, as a power of ten; no unit means ether. */
  function PowerOfUnit(unit: string): Option<nat> {
    var name := if unit != "" then Lower(unit) else "ether";
    if name in UNIT_MAP then Some(UNIT_MAP[name]) else None
  }

  function Ten(e: nat): (p: nat)
    ensures p > 0
  {
    PowerPositive(10, e);
    Power(10, e)
  }

  ghost predicate SameNumber(a: Decimal, b: Decimal) {
    a.mantissa * Ten(b.scale) == b.mantissa * Ten(a.scale)
  }

  /** `a / d` to the nearest integer, ties away from zero. */
  function HalfUp(a: int, d: nat): int
    requires d > 0
  {
    if a >= 0 then (2 * a + d) / (2 * d) else -((2 * -a + d) / (2 * d))
  }

  /** `a.div(b)` for `a / b == n / d`. */
  function Div(n: int, d: nat): Decimal
    requires d > 0
  {
    Decimal(HalfUp(n * Ten(PLACES), d), PLACES)
  }

  lemma ProductPositive(a: nat, b: nat)
    requires a > 0 && b > 0
    ensures a * b > 0
  {
  }

  /** `toWei(number, unit)` */
  function ToWei(number: Decimal, unit: nat): Decimal {
    Decimal(number.mantissa * Ten(unit), number.scale)
  }

  /** `unitToUnit(number, from, to)` */
  function UnitToUnit(number: Decimal, from: nat, to: nat): Decimal {
    ProductPositive(Ten(number.scale), Ten(to));
    Div(number.mantissa * Ten(from), Ten(number.scale) * Ten(to))
  }

  /** `toEther(number, unit)` */
  function ToEther(number: Decimal, unit: nat): Decimal {
    var wei := ToWei(number, unit);
    ProductPositive(Ten(wei.scale), Ten(18));
    Div(wei.mantissa, Ten(wei.scale) * Ten(18))
  }

  // Rounding

  /** No integer is nearer than the rounded one: it is off by at most a half. */
  lemma HalfUpNear(a: int, d: nat)
    requires d > 0
    ensures 2 * (HalfUp(a, d) * d - a) <= d && 2 * (a - HalfUp(a, d) * d) <= d
  {
    var x := if a >= 0 then a else -a;
    var q, r := (2 * x + d) / (2 * d), (2 * x + d) % (2 * d);
    assert 2 * x + d == (2 * d) * q + r;
    assert (2 * d) * q == 2 * (q * d);
    assert (-q) * d == -(q * d);
  }

  /** A quotient half way between two integers goes away from zero. */
  lemma TiesAwayFromZero(a: int, k: nat, d: nat)
    requires d > 0 && 2 * a == (2 * k + 1) * d
    ensures HalfUp(a, d) == k + 1 && HalfUp(-a, d) == -(k + 1)
  {
    var x := 2 * a + d;
    assert x == (k + 1) * (2 * d);
    assert a > 0 by {
      assert k * d >= 0;
    }
    WholeQuotient(x, k + 1, 2 * d);
  }

  lemma WholeQuotient(x: int, q: int, d: nat)
    requires d > 0 && x == q * d
    ensures x / d == q
  {
    var p, r := x / d, x % d;
    assert x == d * p + r;
    assert (q - p) * d == r && (p - q) * d == -r;
    if q > p {
      Scaled(q - p, d);
    } else if q < p {
      Scaled(p - q, d);
    }
  }

  /** A whole quotient is kept. */
  lemma HalfUpExact(a: int, q: int, d: nat)
    requires d > 0 && a == q * d
    ensures HalfUp(a, d) == q
  {
    var p := HalfUp(a, d);
    HalfUpNear(a, d);
    assert p * d - q * d == (p - q) * d;
    if p > q {
      Scaled(p - q, d);
    } else if p < q {
      assert (q - p) * d == -((p - q) * d);
      Scaled(q - p, d);
    }
  }

  lemma Scaled(k: int, d: int)
    requires k >= 1 && d > 0
    ensures k * d >= d
  {
    assert (k - 1) * d >= 0;
    assert k * d == (k - 1) * d + d;
  }

  /** The converted number is within half of 10^-20 of the exact quotient, for every pair of units. */
  lemma WithinHalf(number: Decimal, from: nat, to: nat)
    ensures var d: int := Ten(number.scale) * Ten(to);
      var r := UnitToUnit(number, from, to);
      var gap := r.mantissa * d - number.mantissa * Ten(from) * Ten(PLACES);
      r.scale == PLACES && 2 * gap <= d && -2 * gap <= d
  {
    ProductPositive(Ten(number.scale), Ten(to));
    HalfUpNear(number.mantissa * Ten(from) * Ten(PLACES), Ten(number.scale) * Ten(to));
  }

  // Converting there and back

  /** The quotient is whole in units of 10^-20. */
  ghost predicate Fits(scale: nat, from: nat, to: nat) {
    scale + to <= PLACES + from
  }

  lemma Regroup(m: int, a: nat, b: nat, c: nat, d: nat, e: nat)
    requires a + b == c + d + e
    ensures m * Ten(a) * Ten(b) == (m * Ten(c)) * (Ten(d) * Ten(e))
  {
    PowerAdd(10, a, b);
    PowerAdd(10, c + d, e);
    PowerAdd(10, c, d);
    Associate(m, Ten(a), Ten(b), Ten(c), Ten(d), Ten(e));
  }

  lemma Associate(m: int, a: int, b: int, c: int, d: int, e: int)
    requires a * b == c * d * e
    ensures m * a * b == (m * c) * (d * e)
  {
    assert m * a * b == m * (a * b);
    assert c * d * e == c * (d * e);
    assert m * (c * (d * e)) == (m * c) * (d * e);
  }

  lemma ExactConversion(number: Decimal, from: nat, to: nat)
    requires Fits(number.scale, from, to)
    ensures UnitToUnit(number, from, to) == Decimal(number.mantissa * Ten(PLACES + from - number.scale - to), PLACES)
  {
    var shift := PLACES + from - number.scale - to;
    ProductPositive(Ten(number.scale), Ten(to));
    Regroup(number.mantissa, from, PLACES, shift, number.scale, to);
    HalfUpExact(number.mantissa * Ten(from) * Ten(PLACES), number.mantissa * Ten(shift), Ten(number.scale) * Ten(to));
  }

  /** One unit of the last place vanishes when the quotient does not fit. */
  lemma Vanishes(scale: nat, from: nat, to: nat)
    requires !Fits(scale, from, to)
    ensures UnitToUnit(Decimal(1, scale), from, to) == Decimal(0, PLACES)
  {
    var n, d, gap := Ten(from) * Ten(PLACES), Ten(scale) * Ten(to), scale + to - PLACES - from;
    ProductPositive(Ten(scale), Ten(to));
    ProductPositive(Ten(from), Ten(PLACES));
    PowerAdd(10, from, PLACES);
    PowerAdd(10, scale, to);
    PowerAdd(10, from + PLACES, gap);
    assert d == n * Ten(gap);
    AtLeastTen(gap);
    TenTimes(n, Ten(gap));
    HalfUpSmall(n, d);
  }

  lemma TenTimes(n: int, g: int)
    requires n > 0 && g >= 10
    ensures n * g >= 10 * n
  {
    assert n * (g - 10) >= 0;
    assert n * g == n * (g - 10) + 10 * n;
  }

  lemma HalfUpSmall(n: nat, d: nat)
    requires 2 * n < d
    ensures HalfUp(n, d) == 0
  {
    HalfUpNear(n, d);
    var q := HalfUp(n, d);
    if q >= 1 {
      Scaled(q, d);
    }
  }

  lemma {:induction false} AtLeastTen(e: nat)
    requires e > 0
    ensures Ten(e) >= 10
  {
    if e > 1 {
      AtLeastTen(e - 1);
    }
  }

  function ThereAndBack(number: Decimal, from: nat, to: nat): Decimal {
    UnitToUnit(UnitToUnit(number, from, to), to, from)
  }

  lemma BackIsExact(number: Decimal, from: nat, to: nat)
    requires number.scale <= PLACES && Fits(number.scale, from, to)
    ensures SameNumber(ThereAndBack(number, from, to), number)
  {
    var m, shift := number.mantissa, PLACES + from - number.scale - to;
    ExactConversion(number, from, to);
    var there := Decimal(m * Ten(shift), PLACES);
    var rest := PLACES - number.scale;
    PowerAdd(10, shift, to);
    PowerAdd(10, rest, from);
    ProductPositive(Ten(PLACES), Ten(from));
    Rescale(m, Ten(shift), Ten(to), Ten(PLACES), Ten(rest), Ten(from));
    HalfUpExact(there.mantissa * Ten(to) * Ten(PLACES), m * Ten(rest), Ten(PLACES) * Ten(from));
    PowerAdd(10, rest, number.scale);
    Associate(m, Ten(rest), Ten(number.scale), 1, 1, Ten(PLACES));
  }

  lemma Rescale(m: int, s: int, t: int, p: int, r: int, f: int)
    requires s * t == r * f
    ensures (m * s) * t * p == (m * r) * (p * f)
  {
    assert (m * s) * t * p == m * (s * t) * p;
    assert (m * r) * (p * f) == m * (r * f) * p;
  }

  /** The smallest number of a scale that has more than 20 places is never a 20-place number. */
  lemma TooFine(scale: nat, m: int)
    requires scale > PLACES
    ensures !SameNumber(Decimal(m, PLACES), Decimal(1, scale))
  {
    var gap := scale - PLACES;
    PowerAdd(10, PLACES, gap);
    AtLeastTen(gap);
    var p, g := Ten(PLACES), Ten(gap);
    assert m * Ten(scale) == (m * g) * p by {
      Associate(m, p, g, g, p, 1);
    }
    NotOne(m, g);
    NotCancelled(m * g, p);
  }

  lemma NotOne(m: int, g: int)
    requires g >= 10
    ensures m * g != 1
  {
    if m >= 1 {
      Scaled(m, g);
    } else {
      assert (-m) * g >= 0;
      assert m * g == -((-m) * g);
    }
  }

  lemma NotCancelled(a: int, p: int)
    requires p > 0 && a != 1
    ensures a * p != p
  {
    if a > 1 {
      Scaled(a - 1, p);
      assert a * p == (a - 1) * p + p;
    } else {
      Scaled(1 - a, p);
      assert a * p == p - (1 - a) * p;
    }
  }

  /**
   Converting every number of a given scale to another unit and back is exact if and only if
   the scale has at most 20 places and the converted numbers have at most 20 places.
   */
  lemma ThereAndBackExact(scale: nat, from: nat, to: nat)
    ensures (forall m: int :: SameNumber(ThereAndBack(Decimal(m, scale), from, to), Decimal(m, scale))) <==>
            scale <= PLACES && Fits(scale, from, to)
  {
    if scale <= PLACES && Fits(scale, from, to) {
      forall m: int
        ensures SameNumber(ThereAndBack(Decimal(m, scale), from, to), Decimal(m, scale))
      {
        BackIsExact(Decimal(m, scale), from, to);
      }
    } else {
      var back := ThereAndBack(Decimal(1, scale), from, to);
      if scale > PLACES {
        TooFine(scale, back.mantissa);
      } else {
        Vanishes(scale, from, to);
        ProductPositive(Ten(PLACES), Ten(from));
        HalfUpExact(0, 0, Ten(PLACES) * Ten(from));
      }
      assert !SameNumber(back, Decimal(1, scale));
    }
  }

  /** To a smaller unit and back, for inputs of at most 20 decimals. */
  lemma SmallerUnitExact(number: Decimal, from: nat, to: nat)
    requires to <= from && number.scale <= PLACES
    ensures SameNumber(ThereAndBack(number, from, to), number)
  {
    BackIsExact(number, from, to);
  }

  /** Of the named units, wei survive the trip through all but kether and the ones above it. */
  lemma WeiThereAndBack(unit: string)
    requires PowerOfUnit(unit).Some?
    ensures (forall n: int :: SameNumber(ThereAndBack(Decimal(n, 0), 0, PowerOfUnit(unit).value), Decimal(n, 0))) <==>
            PowerOfUnit(unit).value <= PowerOfUnit("").value
  {
    ThereAndBackExact(0, 0, PowerOfUnit(unit).value);
  }

  /** Wei to ether to wei is the identity on all integers. */
  lemma WeiEtherWei(n: int)
    ensures SameNumber(ToWei(ToEther(Decimal(n, 0), 0), 18), Decimal(n, 0))
  {
    ExactConversion(Decimal(n, 0), 0, 18);
    assert Ten(0) == 1;
    PowerAdd(10, 2, 18);
    Associate(n, Ten(2), Ten(18), 1, 1, Ten(PLACES));
  }
}
