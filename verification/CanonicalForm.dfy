/**
 Which of all the texts of a string or a number is the canonical one (RFC 8785, sections 3.2.2.2 and
 3.2.2.3): the shortest spelling RFC 8259 allows, and the layout the magnitude of the number asks for.
 */
module CanonicalForm {
  import opened Wrappers
  import opened Utf16
  import opened Numbers
  import opened Canonical

  // ----- spellings of a string (RFC 8259, section 7) -----

  /** The value of a hexadecimal digit; upper case only if `lower` is not asked for. */
  function DigitValue(lower: bool, c: CodePoint): Option<nat> {
    if 0x30 <= c <= 0x39 then Some(c - 0x30)
    else if 0x61 <= c <= 0x66 then Some(c - 0x61 + 10)
    else if !lower && 0x41 <= c <= 0x46 then Some(c - 0x41 + 10)
    else None
  }

  /** The text is backslash, u and four hexadecimal digits of this value. */
  predicate FourDigits(lower: bool, t: Text, value: nat) {
    && |t| == 6 && t[0] == 0x5C && t[1] == 0x75
    && (forall i | 2 <= i < 6 :: DigitValue(lower, t[i]).Some?)
    && value == DigitValue(lower, t[2]).value * 0x1000 + DigitValue(lower, t[3]).value * 0x100
                + DigitValue(lower, t[4]).value * 0x10 + DigitValue(lower, t[5]).value
  }

  /** The letter after a backslash, and the character the two spell. */
  const TWO_CHARACTER_ESCAPES: map<CodePoint, CodePoint> :=
    map[0x22 := 0x22, 0x5C := 0x5C, 0x2F := 0x2F, 0x62 := 0x08, 0x66 := 0x0C, 0x6E := 0x0A, 0x72 := 0x0D, 0x74 := 0x09]

  /** The ways to spell a character: as it is, by a letter, by its code, or by a surrogate pair. */
  predicate Spells(lower: bool, t: Text, c: CodePoint) {
    || (t == [c] && c >= 0x20 && c != 0x22 && c != 0x5C)
    || (|t| == 2 && t[0] == 0x5C && t[1] in TWO_CHARACTER_ESCAPES && TWO_CHARACTER_ESCAPES[t[1]] == c)
    || FourDigits(lower, t, c)
    || (|t| == 12 && c >= 0x1_0000
        && FourDigits(lower, t[..6], 0xD800 + (c - 0x1_0000) / 0x400)
        && FourDigits(lower, t[6..], 0xDC00 + (c - 0x1_0000) % 0x400))
  }

  /** The text spells the string, character by character. */
  ghost predicate Spelling(lower: bool, t: Text, s: Text)
    decreases |s|, 1
  {
    if s == [] then t == [] else exists k :: SpelledFrom(lower, t, s, k)
  }

  /** The first `k` characters of the text spell the first one, the others the rest. */
  ghost predicate SpelledFrom(lower: bool, t: Text, s: Text, k: int)
    requires s != []
    decreases |s|, 0
  {
    0 <= k <= |t| && Spells(lower, t[..k], s[0]) && Spelling(lower, t[k..], s[1..])
  }

  // ----- the canonical spelling -----

  lemma HexOfDigit(n: nat)
    requires n < 16
    ensures DigitValue(true, HexDigit(n)) == Some(n)
  {
  }

  lemma EscapeSpells(c: CodePoint)
    requires !IsSurrogate(c)
    ensures Spells(true, Escape(c), c)
  {
    if ShortEscape(c).None? && c < 0x20 {
      HexOfDigit(c / 16);
      HexOfDigit(c % 16);
    }
  }

  /** No spelling of a character is shorter than the canonical one, and with lower-case digits no other is
      as short. */
  lemma EscapeIsShortest(lower: bool, c: CodePoint, t: Text)
    requires Spells(lower, t, c)
    ensures |t| >= |Escape(c)|
    ensures lower && |t| == |Escape(c)| ==> t == Escape(c)
  {
    if FourDigits(lower, t, c) && c < 0x20 && ShortEscape(c).None? && lower {
      SameDigits(t, c);
    }
  }

  lemma SameDigits(t: Text, c: CodePoint)
    requires FourDigits(true, t, c) && c < 0x20 && ShortEscape(c).None?
    ensures t == Escape(c)
  {
    var a, b, d, e := DigitValue(true, t[2]).value, DigitValue(true, t[3]).value, DigitValue(true, t[4]).value,
                      DigitValue(true, t[5]).value;
    assert a == 0 && b == 0 && d == c / 16 && e == c % 16;
    HexOfDigit(d);
    HexOfDigit(e);
    assert t[2] == 0x30 && t[3] == 0x30;
    assert t[4] == HexDigit(d) && t[5] == HexDigit(e);
  }

  lemma {:induction false} EscapesSpell(s: Text)
    requires WellFormed(s)
    ensures Spelling(true, EscapeAll(s), s)
  {
    if s != [] {
      EscapeSpells(s[0]);
      EscapesSpell(s[1..]);
      var t, k := EscapeAll(s), |Escape(s[0])|;
      assert t[..k] == Escape(s[0]) && t[k..] == EscapeAll(s[1..]);
      assert SpelledFrom(true, t, s, k);
    }
  }

  /** A spelling is the spelling of its first character, and one of the others. */
  lemma FirstSpelled(lower: bool, s: Text, t: Text) returns (head: Text, tail: Text)
    requires s != [] && Spelling(lower, t, s)
    ensures t == head + tail && Spells(lower, head, s[0]) && Spelling(lower, tail, s[1..])
  {
    var k :| SpelledFrom(lower, t, s, k);
    head, tail := t[..k], t[k..];
  }

  lemma {:induction false} EscapesAreShortest(lower: bool, s: Text, t: Text)
    requires Spelling(lower, t, s)
    ensures |t| >= |EscapeAll(s)|
    ensures lower && |t| == |EscapeAll(s)| ==> t == EscapeAll(s)
    decreases |s|
  {
    if s != [] {
      var head, tail := FirstSpelled(lower, s, t);
      EscapeIsShortest(lower, s[0], head);
      EscapesAreShortest(lower, s[1..], tail);
    }
  }

  /**
   A string is printed, in quotes, as the shortest text that spells it, with lower-case digits where a code
   is needed; no other such text is as short.
   */
  lemma CanonicalIsShortest(s: Text, t: Text)
    requires WellFormed(s)
    ensures StringText(s).Some?
    ensures var body := StringText(s).value[1..|StringText(s).value| - 1];
      && StringText(s).value == [0x22] + body + [0x22] && Spelling(true, body, s)
      && (Spelling(false, t, s) ==> |t| >= |body|)
      && (Spelling(true, t, s) && |t| <= |body| ==> t == body)
  {
    EscapesSpell(s);
    var text := StringText(s).value;
    assert text[1..|text| - 1] == EscapeAll(s);
    if Spelling(false, t, s) {
      EscapesAreShortest(false, s, t);
    }
    if Spelling(true, t, s) {
      EscapesAreShortest(true, s, t);
    }
  }

  // ----- the two shapes of a number -----

  function DigitText(ds: Digits): Text {
    seq(|ds|, i requires 0 <= i < |ds| => (0x30 + ds[i] as int) as CodePoint)
  }

  /** Digits without a superfluous zero in front: a lone zero, or a first digit that is none. */
  predicate NoZeroInFront(ds: Digits) {
    ds == [0] || (ds != [] && ds[0] != 0)
  }

  /** A fraction without a superfluous zero at its end, or none at all. */
  predicate NoZeroAtEnd(ds: Digits) {
    ds != [] ==> ds[|ds| - 1] != 0
  }

  function Fraction(ds: Digits): Text {
    if ds == [] then [] else [0x2E] + DigitText(ds)
  }

  /** [-]digits[.digits] */
  predicate Plain(t: Text, neg: bool, whole: Digits, fraction: Digits) {
    && NoZeroInFront(whole) && NoZeroAtEnd(fraction)
    && t == (if neg then [0x2D] else []) + DigitText(whole) + Fraction(fraction)
  }

  /** [-]d[.digits]e+digits or e-digits, with a first digit that is no zero. */
  predicate Exponential(t: Text, neg: bool, first: Digit, fraction: Digits, up: bool, power: Digits) {
    && first != 0 && NoZeroAtEnd(fraction) && power != [] && power[0] != 0
    && t == (if neg then [0x2D] else []) + DigitText([first]) + Fraction(fraction)
            + [0x65, if up then 0x2B else 0x2D] + DigitText(power)
  }

  ghost predicate IsPlain(t: Text, neg: bool) {
    exists whole, fraction :: Plain(t, neg, whole, fraction)
  }

  ghost predicate IsExponential(t: Text, neg: bool) {
    exists first, fraction, up, power :: Exponential(t, neg, first, fraction, up, power)
  }

  /** The size of a number. */
  function Magnitude(n: Num): real {
    if Val(n) < 0.0 then -Val(n) else Val(n)
  }

  const MILLIONTH := 0.000001
  const SEXTILLION := 1000000000000000000000.0

  // ----- how many digits, how large -----

  lemma {:induction false} DigitBounds(ds: Digits)
    requires ds != [] && ds[0] != 0
    ensures PowNat(|ds| - 1) <= NatOf(ds) < PowNat(|ds|)
  {
    var front := ds[..|ds| - 1];
    if front == [] {
      assert NatOf(front) == 0 && PowNat(1) == 10 * PowNat(0);
    } else {
      DigitBounds(front);
    }
  }

  lemma {:induction false} PowersAgree(k: nat)
    ensures PowNat(k) as real == Pow10(k)
  {
    if k > 0 {
      PowersAgree(k - 1);
    }
  }

  lemma {:induction false} PowersAdd(a: nat, b: int)
    ensures Pow10(a + b) == Pow10(a) * Pow10(b)
  {
    if a > 0 {
      PowersAdd(a - 1, b);
      Pow10Step(a - 1 + b);
      Pow10Step(a - 1);
      Regrouped(Pow10(a - 1), Pow10(b));
    }
  }

  lemma Regrouped(p: real, q: real)
    ensures 10.0 * (p * q) == (10.0 * p) * q
  {
  }

  lemma {:induction false} PowersGrow(a: int, b: int)
    requires a <= b
    ensures Pow10(a) <= Pow10(b)
    decreases b - a
  {
    if a < b {
      PowersGrow(a, b - 1);
      Pow10Step(b - 1);
      Pow10Positive(b - 1);
    }
  }

  lemma ScaledBounds(low: real, x: real, high: real, p: real)
    requires low <= x < high && p > 0.0
    ensures low * p <= x * p < high * p
  {
  }

  lemma MagnitudeIs(n: Num)
    requires Normal(n) && n.Decimal?
    ensures Magnitude(n) == Scaled(NatOf(n.digits), n.exp) && (n.neg <==> Val(n) < 0.0)
  {
    DecimalIsNotZero(n);
  }

  lemma PowerSplit(k: nat, exp: int)
    ensures Pow10(exp + k) == Pow10(k) * Pow10(exp)
  {
    PowersAdd(k, exp);
    assert exp + k == k + exp;
  }

  lemma Between(low: real, x: real, high: real, p: real, a: real, b: real)
    requires low <= x < high && p > 0.0 && a == low * p && b == high * p
    ensures a <= x * p < b
  {
    ScaledBounds(low, x, high, p);
  }

  lemma DigitsBetween(digits: Digits)
    requires digits != [] && digits[0] != 0
    ensures Pow10(|digits| - 1) <= NatOf(digits) as real < Pow10(|digits|)
  {
    DigitBounds(digits);
    PowersAgree(|digits| - 1);
    PowersAgree(|digits|);
  }

  lemma Stretched(m: nat, exp: int, p: real, low: real, high: real, a: real, b: real)
    requires p == Pow10(exp) && p > 0.0 && low <= m as real < high && a == low * p && b == high * p
    ensures a <= Scaled(m, exp) < b
  {
    Between(low, m as real, high, p, a, b);
  }

  lemma Shifted(k: nat, exp: int, sum: int, q: real, p: real)
    requires sum == exp + k && q == Pow10(k) && p == Pow10(exp)
    ensures Pow10(sum) == q * p
  {
    PowerSplit(k, exp);
  }

  lemma ScaledByPowers(digits: Digits, exp: int, low: int, high: int)
    requires digits != [] && digits[0] != 0 && low == exp + (|digits| - 1) && high == exp + |digits|
    ensures Pow10(low) <= Scaled(NatOf(digits), exp) < Pow10(high)
  {
    var p, q, r := Pow10(exp), Pow10(|digits| - 1), Pow10(|digits|);
    DigitsBetween(digits);
    Pow10Positive(exp);
    Shifted(|digits| - 1, exp, low, q, p);
    Shifted(|digits|, exp, high, r, p);
    Stretched(NatOf(digits), exp, p, q, r, Pow10(low), Pow10(high));
  }

  /** A number with its decimal point after `e` digits is at least 10^(e-1) and below 10^e. */
  lemma MagnitudeBounds(n: Num)
    requires Normal(n) && n.Decimal?
    ensures Pow10(n.exp + |n.digits| - 1) <= Magnitude(n) < Pow10(n.exp + |n.digits|)
  {
    MagnitudeIs(n);
    ScaledByPowers(n.digits, n.exp, n.exp + |n.digits| - 1, n.exp + |n.digits|);
  }

  lemma TheBounds()
    ensures Pow10(-6) == MILLIONTH && Pow10(21) == SEXTILLION
  {
    assert Pow10(-1) == 0.1 && Pow10(-2) == 0.01 && Pow10(-3) == 0.001 && Pow10(-4) == 0.0001;
    assert Pow10(-5) == 0.00001;
    PowersAgree(21);
    assert PowNat(4) == 10_000;
    assert PowNat(8) == 100_000_000;
    assert PowNat(12) == 1_000_000_000_000;
    assert PowNat(16) == 10_000_000_000_000_000;
    assert PowNat(20) == 100_000_000_000_000_000_000;
  }

  /** Plain exactly from a millionth up to below 10^21. */
  lemma PlainByMagnitude(n: Num)
    requires Normal(n) && n.Decimal?
    ensures MILLIONTH <= Magnitude(n) < SEXTILLION <==> -6 < n.exp + |n.digits| <= 21
  {
    var e := n.exp + |n.digits|;
    MagnitudeBounds(n);
    TheBounds();
    if e <= -6 {
      PowersGrow(e, -6);
    } else {
      PowersGrow(-6, e - 1);
    }
    if e <= 21 {
      PowersGrow(e, 21);
    } else {
      PowersGrow(21, e - 1);
    }
  }

  // ----- the shape of what is printed -----

  lemma SameDigitText(ds: Digits)
    ensures DigitText(ds) == ToText(ds) && Fraction(ds) == FractionText(ds)
  {
  }

  lemma PlainText(neg: bool, whole: Digits, fraction: Digits, body: Text)
    requires NoZeroInFront(whole) && NoZeroAtEnd(fraction) && body == ToText(whole) + FractionText(fraction)
    ensures IsPlain(SignText(neg) + body, neg)
  {
    SameDigitText(whole);
    SameDigitText(fraction);
    assert SignText(neg) + body == SignText(neg) + ToText(whole) + FractionText(fraction);
    assert Plain(SignText(neg) + body, neg, whole, fraction);
  }

  lemma WholeIsPlain(neg: bool, digits: Digits, zeros: nat)
    requires digits != [] && digits[0] != 0
    ensures IsPlain(SignText(neg) + WholeText(digits, zeros), neg)
  {
    PlainText(neg, digits + Zeros(zeros), [], WholeText(digits, zeros));
  }

  lemma PointIsPlain(neg: bool, digits: Digits, e: nat)
    requires digits != [] && digits[0] != 0 && digits[|digits| - 1] != 0 && 0 < e < |digits|
    ensures IsPlain(SignText(neg) + PointText(digits, e), neg)
  {
    assert PointText(digits, e) == ToText(digits[..e]) + FractionText(digits[e..]);
    PlainText(neg, digits[..e], digits[e..], PointText(digits, e));
  }

  lemma SmallIsPlain(neg: bool, zeros: nat, digits: Digits)
    requires digits != [] && digits[|digits| - 1] != 0
    ensures IsPlain(SignText(neg) + SmallText(zeros, digits), neg)
  {
    var fraction := Zeros(zeros) + digits;
    assert SmallText(zeros, digits) == ToText([0]) + FractionText(fraction);
    PlainText(neg, [0], fraction, SmallText(zeros, digits));
  }

  lemma ExponentInText(x: int)
    requires x != 0
    ensures var power := DigitsOf(if x > 0 then x else -x);
      ExponentText(x) == [0x65, if x > 0 then 0x2B else 0x2D] + DigitText(power) && power[0] != 0
  {
    SameDigitText(DigitsOf(if x > 0 then x else -x));
  }

  lemma ScientificIsExponential(neg: bool, digits: Digits, x: int)
    requires digits != [] && digits[0] != 0 && digits[|digits| - 1] != 0 && x != 0
    ensures IsExponential(SignText(neg) + ScientificText(digits, x), neg)
  {
    var power := DigitsOf(if x > 0 then x else -x);
    SameDigitText([digits[0]]);
    SameDigitText(digits[1..]);
    ExponentInText(x);
    assert digits[..1] == [digits[0]];
    var t := SignText(neg) + ScientificText(digits, x);
    Regroup(SignText(neg), DigitText([digits[0]]), Fraction(digits[1..]), [0x65, if x > 0 then 0x2B else 0x2D],
            DigitText(power));
    assert Exponential(t, neg, digits[0], digits[1..], x > 0, power);
  }

  lemma Regroup(a: Text, b: Text, c: Text, d: Text, e: Text)
    ensures a + (b + c + (d + e)) == a + b + c + d + e
  {
  }

  /**
   A number is printed plainly exactly if its size is from a millionth up to below 10^21, and with an
   exponent, after one digit, if not; never with a superfluous zero.  Zero is the digit zero.
   */
  lemma LayoutByMagnitude(n: Num)
    requires Normal(n)
    ensures n.Zero? ==> NumText(n) == [0x30]
    ensures n.Decimal? ==>
      if MILLIONTH <= Magnitude(n) < SEXTILLION then IsPlain(NumText(n), Val(n) < 0.0)
      else IsExponential(NumText(n), Val(n) < 0.0)
  {
    if n.Decimal? {
      PlainByMagnitude(n);
      MagnitudeIs(n);
      LayoutShape(n.neg, n.digits, n.exp);
    } else {
      assert ToText([0]) == [0x30];
    }
  }

  lemma LayoutShape(neg: bool, digits: Digits, exp: int)
    requires digits != [] && digits[0] != 0 && digits[|digits| - 1] != 0
    ensures -6 < exp + |digits| <= 21 ==> IsPlain(SignText(neg) + Layout(digits, exp), neg)
    ensures !(-6 < exp + |digits| <= 21) ==> IsExponential(SignText(neg) + Layout(digits, exp), neg)
  {
    var e, layout := exp + |digits|, Layout(digits, exp);
    LayoutCases(digits, exp);
    if |digits| <= e <= 21 {
      WholeLayout(neg, digits, exp, layout);
    } else if 0 < e <= 21 {
      PointLayout(neg, digits, e, layout);
    } else if -6 < e <= 0 {
      SmallLayout(neg, -e, digits, layout);
    } else {
      ScientificLayout(neg, digits, e - 1, layout);
    }
  }

  lemma WholeLayout(neg: bool, digits: Digits, zeros: nat, layout: Text)
    requires digits != [] && digits[0] != 0 && layout == WholeText(digits, zeros)
    ensures IsPlain(SignText(neg) + layout, neg)
  {
    WholeIsPlain(neg, digits, zeros);
  }

  lemma PointLayout(neg: bool, digits: Digits, e: nat, layout: Text)
    requires digits != [] && digits[0] != 0 && digits[|digits| - 1] != 0 && 0 < e < |digits|
    requires layout == PointText(digits, e)
    ensures IsPlain(SignText(neg) + layout, neg)
  {
    PointIsPlain(neg, digits, e);
  }

  lemma SmallLayout(neg: bool, zeros: nat, digits: Digits, layout: Text)
    requires digits != [] && digits[|digits| - 1] != 0 && layout == SmallText(zeros, digits)
    ensures IsPlain(SignText(neg) + layout, neg)
  {
    SmallIsPlain(neg, zeros, digits);
  }

  lemma ScientificLayout(neg: bool, digits: Digits, x: int, layout: Text)
    requires digits != [] && digits[0] != 0 && digits[|digits| - 1] != 0 && x != 0
    requires layout == ScientificText(digits, x)
    ensures IsExponential(SignText(neg) + layout, neg)
  {
    ScientificIsExponential(neg, digits, x);
  }
}
