/**
 The saturating conversions of computed quotas to 32-bit quantities, over reals extended with the
 infinities and NaN.
 */
module QuotaMath {

  const MAX_QUOTA := 2_147_483_647
  const MIN_QUOTA := -2_147_483_648

  datatype Float = NaN | NegInf | Num(r: real) | PosInf

  datatype Kind = Overflow | Underflow | NotANumber

  datatype Checked = Exact(quota: int) | Clamped(quota: int, kind: Kind)

  datatype Strict = Ok(quota: int) | Rejected(kind: Kind)

  predicate AtLeast(v: Float, bound: int) { v.PosInf? || (v.Num? && v.r >= bound as real) }

  predicate AtMost(v: Float, bound: int) { v.NegInf? || (v.Num? && v.r <= bound as real) }

  /** Towards zero. */
  function Truncate(r: real): int { if r >= 0.0 then r.Floor else -(-r).Floor }

  /** To the nearest whole number, halves away from zero. */
  function RoundReal(r: real): int { if r >= 0.0 then (r + 0.5).Floor else -(-r + 0.5).Floor }

  function Round(v: Float): Float { if v.Num? then Num(RoundReal(v.r) as real) else v }

  function Saturate(v: Float): Checked {
    if v.NaN? then Clamped(0, NotANumber)
    else if AtLeast(v, MAX_QUOTA) then Clamped(MAX_QUOTA, Overflow)
    else if AtMost(v, MIN_QUOTA) then Clamped(MIN_QUOTA, Underflow)
    else Exact(Truncate(v.r))
  }

  function QuotaFromFloat(v: Float): Checked { Saturate(v) }

  function QuotaRound(v: Float): Checked { Saturate(Round(v)) }

  function Strictly(c: Checked): Strict {
    match c case Exact(q) => Ok(q) case Clamped(_, kind) => Rejected(kind)
  }

  // ---------------------------------------------------------------- the order of the inputs

  /** No NaN is comparable; the infinities are the ends. */
  predicate Leq(a: Float, b: Float) {
    !a.NaN? && !b.NaN? && (a.NegInf? || b.PosInf? || (a.Num? && b.Num? && a.r <= b.r))
  }

  lemma TruncateMeans(r: real)
    ensures var q := Truncate(r) as real;
            && r - 1.0 < q < r + 1.0 && (r >= 0.0 ==> 0.0 <= q <= r) && (r <= 0.0 ==> r <= q <= 0.0)
  {
  }

  lemma RoundMeans(r: real)
    ensures var q := RoundReal(r) as real;
            && r - 0.5 <= q <= r + 0.5 && (r >= 0.0 ==> q >= 0.0 && q > r - 0.5) && (r <= 0.0 ==> q <= 0.0 && q < r + 0.5)
  {
  }

  lemma TruncateMonotone(a: real, b: real)
    requires a <= b
    ensures Truncate(a) <= Truncate(b)
  {
    TruncateMeans(a);
    TruncateMeans(b);
    if a >= 0.0 || b <= 0.0 {
      assert a.Floor <= b.Floor && (-b).Floor <= (-a).Floor;
    }
  }

  lemma RoundMonotone(a: real, b: real)
    requires a <= b
    ensures RoundReal(a) <= RoundReal(b)
  {
    RoundMeans(a);
    RoundMeans(b);
  }

  lemma TruncateWhole(n: int)
    ensures Truncate(n as real) == n
  {
    TruncateMeans(n as real);
  }

  lemma SaturateMonotone(a: Float, b: Float)
    requires Leq(a, b)
    ensures Saturate(a).quota <= Saturate(b).quota
  {
    InRange(a);
    InRange(b);
    if a.Num? && b.Num? { TruncateMonotone(a.r, b.r); }
  }

  /** Every conversion, of NaN too, lands in the range of the database column. */
  lemma InRange(v: Float)
    ensures MIN_QUOTA <= Saturate(v).quota <= MAX_QUOTA
    ensures MIN_QUOTA <= QuotaRound(v).quota <= MAX_QUOTA
  {
    if v.Num? {
      TruncateMeans(v.r);
      TruncateMeans(Round(v).r);
    }
  }

  /** A larger amount never converts to a smaller quota, by truncation or by rounding. */
  lemma ConversionsMonotone(a: Float, b: Float)
    requires Leq(a, b)
    ensures QuotaFromFloat(a).quota <= QuotaFromFloat(b).quota
    ensures QuotaRound(a).quota <= QuotaRound(b).quota
  {
    SaturateMonotone(a, b);
    if a.Num? && b.Num? { RoundMonotone(a.r, b.r); }
    SaturateMonotone(Round(a), Round(b));
  }

  /** A charge never turns into a credit, nor a credit into a charge. */
  lemma ConversionsKeepSign(v: Float)
    ensures Leq(Num(0.0), v) ==> QuotaFromFloat(v).quota >= 0 && QuotaRound(v).quota >= 0
    ensures Leq(v, Num(0.0)) ==> QuotaFromFloat(v).quota <= 0 && QuotaRound(v).quota <= 0
  {
    TruncateWhole(0);
    assert RoundReal(0.0) == 0;
    if Leq(Num(0.0), v) { ConversionsMonotone(Num(0.0), v); }
    if Leq(v, Num(0.0)) { ConversionsMonotone(v, Num(0.0)); }
  }

  /** An exact truncation is less than one away, an exact rounding at most a half. */
  lemma ExactIsClose(v: Float)
    ensures QuotaFromFloat(v).Exact? ==> v.Num? && v.r - 1.0 < QuotaFromFloat(v).quota as real < v.r + 1.0
    ensures QuotaRound(v).Exact? ==> v.Num? && v.r - 0.5 <= QuotaRound(v).quota as real <= v.r + 0.5
    ensures QuotaFromFloat(v).Exact? ==> var q := QuotaFromFloat(v).quota as real; if v.r >= 0.0 then q <= v.r else q >= v.r
    ensures QuotaRound(v).Exact? ==> var q := QuotaRound(v).quota as real; if v.r >= 0.0 then q > v.r - 0.5 else q < v.r + 0.5
  {
    if v.Num? {
      TruncateMeans(v.r);
      RoundMeans(v.r);
      TruncateWhole(RoundReal(v.r));
    }
  }

  /** What is clamped, to what, and why: NaN to zero, the rest to the end it lies at or beyond. */
  lemma ClampedIff(v: Float, c: Checked)
    requires c.Clamped?
    ensures QuotaFromFloat(v) == c <==>
              || (v.NaN? && c == Clamped(0, NotANumber))
              || ((v.PosInf? || (v.Num? && v.r >= 2147483647.0)) && c == Clamped(2147483647, Overflow))
              || ((v.NegInf? || (v.Num? && v.r <= -2147483648.0)) && c == Clamped(-2147483648, Underflow))
    ensures QuotaRound(v) == c <==>
              || (v.NaN? && c == Clamped(0, NotANumber))
              || ((v.PosInf? || (v.Num? && v.r >= 2147483646.5)) && c == Clamped(2147483647, Overflow))
              || ((v.NegInf? || (v.Num? && v.r <= -2147483647.5)) && c == Clamped(-2147483648, Underflow))
  {
    if v.Num? { RoundMeans(v.r); }
  }

  /** The strict form succeeds exactly when nothing was clamped, which is strictly inside the range. */
  lemma StrictIff(v: Float)
    ensures Strictly(QuotaFromFloat(v)).Ok? <==>
            v.Num? && MIN_QUOTA as real < v.r < MAX_QUOTA as real
    ensures Strictly(QuotaRound(v)).Ok? <==>
            v.Num? && MIN_QUOTA as real + 0.5 < v.r < MAX_QUOTA as real - 0.5
    ensures Strictly(QuotaFromFloat(v)).Ok? ==> Strictly(QuotaFromFloat(v)).quota == QuotaFromFloat(v).quota
    ensures Strictly(QuotaRound(v)).Ok? ==> Strictly(QuotaRound(v)).quota == QuotaRound(v).quota
    ensures Strictly(QuotaFromFloat(v)).Rejected? ==> Strictly(QuotaFromFloat(v)).kind == QuotaFromFloat(v).kind
    ensures Strictly(QuotaRound(v)).Rejected? ==> Strictly(QuotaRound(v)).kind == QuotaRound(v).kind
  {
    if v.Num? { RoundMeans(v.r); }
  }

  /** The two ends of the range can be stored, yet the strict forms reject them. */
  lemma EndsAreRejected(end: int)
    requires end == MAX_QUOTA || end == MIN_QUOTA
    ensures QuotaFromFloat(Num(end as real)).quota == end
    ensures Strictly(QuotaFromFloat(Num(end as real))).Rejected?
  {
  }

  // ---------------------------------------------------------------- decimals

  /** `coefficient` divided by ten to the `scale`. */
  datatype Decimal = Decimal(coefficient: int, scale: nat)

  function Pow10(n: nat): (r: nat)
    ensures r > 0
  {
    if n == 0 then 1 else 10 * Pow10(n - 1)
  }

  function Value(d: Decimal): real { d.coefficient as real / Pow10(d.scale) as real }

  /** A whole number has no places, and a place more is a zero more. */
  lemma ValueMeans(c: int, n: nat)
    ensures Value(Decimal(c, 0)) == c as real && Value(Decimal(10 * c, n + 1)) == Value(Decimal(c, n))
  {
    var p := Pow10(n) as real;
    assert Pow10(n + 1) as real == 10.0 * p;
    SameQuotient(c as real, p, 10.0);
  }

  lemma SameQuotient(a: real, p: real, k: real)
    requires p > 0.0 && k > 0.0
    ensures k * p > 0.0 && (k * a) / (k * p) == a / p
  {
    var x := a / p;
    assert x * p == a;
    assert k * a == x * (k * p);
    Quotient(x, 0.0, k * p);
  }

  /** Rounding a decimal to no places by whole-number division of its coefficient. */
  function RoundDecimal(d: Decimal): int {
    var p, c := Pow10(d.scale), if d.coefficient < 0 then -d.coefficient else d.coefficient;
    var q := c / p + if 2 * (c % p) >= p then 1 else 0;
    if d.coefficient < 0 then -q else q
  }

  function QuotaFromDecimal(d: Decimal): Checked { Saturate(Num(RoundDecimal(d) as real)) }

  lemma Quotient(q: real, m: real, p: real)
    requires p > 0.0
    ensures (q * p + m) / p == q + m / p
  {
  }

  lemma QuotientOrder(a: real, b: real, p: real)
    requires p > 0.0
    ensures a < b <==> a / p < b / p
  {
    var x, y := a / p, b / p;
    assert x * p == a && y * p == b;
    assert (y - x) * p == b - a;
    Product(y - x, p);
  }

  lemma Product(x: real, p: real)
    requires p > 0.0
    ensures x * p > 0.0 <==> x > 0.0
  {
  }

  lemma UnitFraction(m: real, p: real)
    requires 0.0 <= m < p
    ensures 0.0 <= m / p < 1.0
  {
    QuotientOrder(m, 0.0, p);
    QuotientOrder(m, p, p);
  }

  /** A remainder is at least half its divisor exactly when twice it reaches the divisor. */
  lemma HalfFraction(m: real, p: real)
    requires p > 0.0
    ensures 2.0 * m >= p <==> m / p >= 0.5
  {
    var half := 0.5 * p;
    Quotient(0.5, 0.0, p);
    QuotientOrder(m, half, p);
  }

  lemma WholePart(x: real, q: int, f: real)
    requires x == q as real + f && 0.0 <= f < 1.0
    ensures (x + 0.5).Floor == q + if f >= 0.5 then 1 else 0
  {
  }

  /** Half-up rounding of a non-negative fraction by quotient and remainder. */
  lemma RoundFraction(c: nat, p: nat)
    requires p > 0
    ensures c as real / p as real >= 0.0
    ensures (c as real / p as real + 0.5).Floor == c / p + if 2 * (c % p) >= p then 1 else 0
  {
    var q, m := c / p, c % p;
    Recombine(c, p);
    Quotient(q as real, m as real, p as real);
    UnitFraction(m as real, p as real);
    HalfFraction(m as real, p as real);
    WholePart(c as real / p as real, q, m as real / p as real);
  }

  lemma Recombine(c: nat, p: nat)
    requires p > 0
    ensures c as real == (c / p) as real * p as real + (c % p) as real
    ensures c / p >= 0
  {
    assert c == (c / p) * p + c % p;
    assert ((c / p) * p) as real == (c / p) as real * p as real;
  }

  lemma NegatedQuotient(c: real, p: real)
    requires p > 0.0
    ensures -(c / p) == (-c) / p
  {
    Quotient(-(c / p), 0.0, p);
  }

  lemma RoundDecimalValue(d: Decimal)
    ensures RoundDecimal(d) == RoundReal(Value(d))
  {
    var p, c := Pow10(d.scale), d.coefficient;
    if c < 0 {
      RoundFraction(-c, p);
      NegatedQuotient(c as real, p as real);
    } else {
      RoundFraction(c, p);
    }
  }

  /** Rounding in decimal arithmetic and rounding the same amount as a number convert alike. */
  lemma DecimalAgreesWithRound(d: Decimal)
    ensures QuotaFromDecimal(d) == QuotaRound(Num(Value(d)))
  {
    RoundDecimalValue(d);
  }
}
