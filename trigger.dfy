/**
  Throttling of the session sweep. Each wake cycle the garbage collector derives a
  scaling factor from the text of the configured probability (a percentage), draws a
  random integer r in [0, 100 * factor] and sweeps only when r <= probability * factor.
  The probability is kept as an exact decimal numeral, so that the comparison is
  exact integer arithmetic.
*/
module Trigger {
  import opened Wrappers

  type Digit = d: int | 0 <= d <= 9

  /**
    A probability as the decimal numeral it is written as: the digits before the point
    and, when the numeral has a point, the digits after it. "25" is
    Decimal([2, 5], None), "0.25" is Decimal([0], Some([2, 5])) and "5." is
    Decimal([5], Some([])).
  */
  datatype Decimal = Decimal(whole: seq<Digit>, fraction: Option<seq<Digit>>)

  function DigitChar(d: Digit): char {
    ('0' as int + d) as char
  }

  function DigitsText(ds: seq<Digit>): string {
    seq(|ds|, i requires 0 <= i < |ds| => DigitChar(ds[i]))
  }

  /** The textual form of a probability, the string PHP hands to strrchr. */
  function Text(p: Decimal): string {
    DigitsText(p.whole) + match p.fraction {
      case None => ""
      case Some(f) => "." + DigitsText(f)
    }
  }

  function FractionDigits(p: Decimal): seq<Digit> {
    match p.fraction
    case None => []
    case Some(f) => f
  }

  /** Big-endian value of a digit string. */
  function DigitsValue(ds: seq<Digit>): nat {
    if ds == [] then 0 else DigitsValue(ds[..|ds| - 1]) * 10 + ds[|ds| - 1]
  }

  /** The value of p is Mantissa(p) / 10^Scale(p). */
  function Mantissa(p: Decimal): nat {
    DigitsValue(p.whole + FractionDigits(p))
  }

  function Scale(p: Decimal): nat {
    |FractionDigits(p)|
  }

  function Pow10(n: nat): (r: nat)
    ensures r >= 1
  {
    if n == 0 then 1 else 10 * Pow10(n - 1)
  }

  /** strrchr: the position of the last occurrence of c in s, None (PHP's false) when c does not occur. */
  function LastIndexOf(s: string, c: char): (r: Option<nat>)
    ensures r.None? ==> forall j | 0 <= j < |s| :: s[j] != c
    ensures r.Some? ==> r.value < |s| && s[r.value] == c
    ensures r.Some? ==> forall j | r.value < j < |s| :: s[j] != c
  {
    if s == [] then None
    else if s[|s| - 1] == c then Some(|s| - 1)
    else LastIndexOf(s[..|s| - 1], c)
  }

  /**
    strlen(strrchr(text, '.')) - 1: the number of characters after the last '.', or -1
    when the text has no '.' (strrchr yields false and strlen(false) is 0).
  */
  function Decimals(text: string): int {
    match LastIndexOf(text, '.')
    case None => -1
    case Some(i) => |text| - i - 1
  }

  /** The scaling factor: ten times the number of decimals, and 1 when there is no point. */
  function Factor(text: string): int {
    var decimals := Decimals(text);
    if decimals > -1 then decimals * 10 else 1
  }

  /** rand(0, 100 * factor) <= probability * factor, for the draw r, in exact arithmetic. */
  predicate Triggers(p: Decimal, r: int) {
    r * Pow10(Scale(p)) <= Mantissa(p) * Factor(Text(p))
  }

  /** The largest draw rand(0, 100 * factor) can return. */
  function MaxDraw(p: Decimal): int {
    100 * Factor(Text(p))
  }

  lemma DigitsTextHasNoPoint(ds: seq<Digit>)
    ensures forall j | 0 <= j < |DigitsText(ds)| :: DigitsText(ds)[j] != '.'
  {
  }

  /**
    The factor read off the text of a probability: 1 for a whole number, ten times the
    number of digits after the point otherwise ("0.25" gives 20, not 100, and "5."
    gives 0).
  */
  lemma FactorOfText(p: Decimal)
    ensures p.fraction.None? ==> Factor(Text(p)) == 1
    ensures p.fraction.Some? ==> Factor(Text(p)) == 10 * |p.fraction.value|
  {
    var w := DigitsText(p.whole);
    DigitsTextHasNoPoint(p.whole);
    match p.fraction {
      case None =>
        assert Text(p) == w;
      case Some(f) =>
        var t := Text(p);
        DigitsTextHasNoPoint(f);
        assert t == w + "." + DigitsText(f);
        assert t[|w|] == '.';
        assert forall j | |w| < j < |t| :: t[j] == DigitsText(f)[j - |w| - 1];
        assert Decimals(t) == |f|;
    }
  }

  /** The factor is never negative, so the draw range [0, 100 * factor] is never empty. */
  lemma FactorNonNegative(p: Decimal)
    ensures Factor(Text(p)) >= 0
    ensures MaxDraw(p) >= 0
  {
    FactorOfText(p);
  }

  /** A probability of 100 percent or more triggers a sweep for every possible draw. */
  lemma FullProbabilityAlwaysTriggers(p: Decimal, r: int)
    requires Mantissa(p) >= 100 * Pow10(Scale(p))
    requires 0 <= r <= MaxDraw(p)
    ensures Triggers(p, r)
  {
    var f, s := Factor(Text(p)), Pow10(Scale(p));
    FactorNonNegative(p);
    calc {
      r * s;
    <= { MulLeft(r, 100 * f, s); }
      100 * f * s;
    ==
      f * (100 * s);
    <= { MulLeft(100 * s, Mantissa(p), f); }
      Mantissa(p) * f;
    }
  }

  /** A probability of 0 percent triggers a sweep for the single draw 0 and for no other. */
  lemma ZeroProbabilityTriggersOnlyOnZeroDraw(p: Decimal, r: int)
    requires Mantissa(p) == 0
    requires 0 <= r <= MaxDraw(p)
    ensures Triggers(p, r) <==> r == 0
  {
    if r > 0 {
      MulLeft(1, r, Pow10(Scale(p)));
    }
  }

  /**
    A numeral that ends in a point ("5.") has factor 0, so its only draw is 0 and it
    triggers a sweep every cycle, whatever its value.
  */
  lemma PointTerminatedAlwaysTriggers(p: Decimal, r: int)
    requires p.fraction == Some([])
    requires 0 <= r <= MaxDraw(p)
    ensures r == 0 && Triggers(p, r)
  {
    FactorOfText(p);
  }

  /**
    The decision is monotone in the probability: among numerals with the same factor,
    one of at least the value of p triggers for every draw that p triggers for. Values
    are compared exactly: Mantissa(p) / 10^Scale(p) <= Mantissa(q) / 10^Scale(q).
  */
  lemma TriggersMonotone(p: Decimal, q: Decimal, r: int)
    requires Factor(Text(p)) == Factor(Text(q))
    requires Mantissa(p) * Pow10(Scale(q)) <= Mantissa(q) * Pow10(Scale(p))
    requires 0 <= r && Triggers(p, r)
    ensures Triggers(q, r)
  {
    FactorNonNegative(p);
    ScaledComparison(r, Pow10(Scale(p)), Pow10(Scale(q)), Mantissa(p), Mantissa(q), Factor(Text(p)));
  }

  /** r <= mp/sp * f and mp/sp <= mq/sq give r <= mq/sq * f, cross-multiplied. */
  lemma ScaledComparison(r: int, sp: int, sq: int, mp: int, mq: int, f: int)
    requires 0 <= r && 0 < sp && 0 < sq && 0 <= f
    requires r * sp <= mp * f
    requires mp * sq <= mq * sp
    ensures r * sq <= mq * f
  {
    calc {
      sp * (r * sq);
    ==
      (r * sp) * sq;
    <= { MulLeft(r * sp, mp * f, sq); }
      (mp * f) * sq;
    ==
      f * (mp * sq);
    <= { MulLeft(mp * sq, mq * sp, f); }
      f * (mq * sp);
    ==
      sp * (mq * f);
    }
    CancelLeft(sp, r * sq, mq * f);
  }

  lemma MulLeft(a: int, b: int, c: int)
    requires a <= b && 0 <= c
    ensures a * c <= b * c
  {
  }

  lemma CancelLeft(c: int, a: int, b: int)
    requires c > 0 && c * a <= c * b
    ensures a <= b
  {
  }
}
