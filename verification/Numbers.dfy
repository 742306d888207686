/**
 Number text (RFC 8785, section 3.2.2.3): the four layouts `_encode_number` chooses from, a reader of
 decimal text, and the proof that reading gives back exactly the number that was written.
 */
module Numbers {
  import opened Wrappers
  import opened Utf16

  type Digit = d: int | 0 <= d < 10
  type Digits = seq<Digit>

  /** A JSON number by value: zero, or digits times a power of ten without redundant zeros. */
  datatype Num = Zero | Decimal(neg: bool, digits: Digits, exp: int)

  predicate Normal(n: Num) {
    n.Decimal? ==> n.digits != [] && n.digits[0] != 0 && n.digits[|n.digits| - 1] != 0
  }

  // ----- digits -----

  function NatOf(ds: Digits): nat {
    if ds == [] then 0 else NatOf(ds[..|ds| - 1]) * 10 + ds[|ds| - 1]
  }

  /** `str(n)` for a natural number. */
  function DigitsOf(n: nat): (ds: Digits)
    ensures ds != [] && (n > 0 ==> ds[0] != 0) && (n == 0 ==> ds == [0])
  {
    if n < 10 then [n] else DigitsOf(n / 10) + [n % 10]
  }

  lemma {:induction false} DigitsRoundTrip(n: nat)
    ensures NatOf(DigitsOf(n)) == n
  {
    if n >= 10 {
      DigitsRoundTrip(n / 10);
      assert DigitsOf(n)[..|DigitsOf(n)| - 1] == DigitsOf(n / 10);
    }
  }

  function Zeros(n: nat): Digits {
    seq(n, _ => 0)
  }

  // ----- text -----

  const MINUS: CodePoint := 0x2D
  const PLUS: CodePoint := 0x2B
  const POINT: CodePoint := 0x2E
  const LETTER_E: CodePoint := 0x65

  predicate IsDigitChar(c: CodePoint) {
    0x30 <= c <= 0x39
  }

  function ToText(ds: Digits): Text {
    seq(|ds|, i requires 0 <= i < |ds| => (ds[i] as int + 0x30) as CodePoint)
  }

  function SignText(neg: bool): Text {
    if neg then [MINUS] else []
  }

  function FractionText(fp: Digits): Text {
    if fp == [] then [] else [POINT] + ToText(fp)
  }

  function ExponentText(x: int): Text
    requires x != 0
  {
    [LETTER_E] + [if x > 0 then PLUS else MINUS] + ToText(DigitsOf(if x > 0 then x else -x))
  }

  function WholeText(digits: Digits, zeros: nat): Text {
    ToText(digits + Zeros(zeros))
  }

  function PointText(digits: Digits, e: nat): Text
    requires e <= |digits|
  {
    ToText(digits[..e]) + [POINT] + ToText(digits[e..])
  }

  function SmallText(zeros: nat, digits: Digits): Text {
    ToText([0]) + [POINT] + ToText(Zeros(zeros) + digits)
  }

  function ScientificText(digits: Digits, x: int): Text
    requires digits != [] && x != 0
  {
    ToText(digits[..1]) + FractionText(digits[1..]) + ExponentText(x)
  }

  /** The body `_encode_number` prints for a normal decimal, by digit count k and decimal point e. */
  function Layout(digits: Digits, exp: int): Text
    requires digits != []
  {
    var k := |digits|;
    var e := exp + k;
    if k <= e <= 21 then WholeText(digits, e - k)
    else if 0 < e <= 21 then PointText(digits, e)
    else if -6 < e <= 0 then SmallText(-e, digits)
    else ScientificText(digits, e - 1)
  }

  function NumText(n: Num): Text
    requires Normal(n)
  {
    match n
    case Zero => ToText([0])
    case Decimal(neg, digits, exp) => SignText(neg) + Layout(digits, exp)
  }

  /** `str(n)` of an integer. */
  function IntText(n: int): Text {
    SignText(n < 0) + ToText(DigitsOf(if n < 0 then -n else n))
  }

  // ----- reading -----

  /** The longest run of digits at the start of a text, and what follows it. */
  function TakeDigits(t: Text): (r: (Digits, Text))
    ensures |r.0| + |r.1| == |t|
  {
    if t == [] || !IsDigitChar(t[0]) then ([], t)
    else
      var r := TakeDigits(t[1..]);
      ([(t[0] - 0x30) as Digit] + r.0, r.1)
  }

  function DropLeadingZeros(ds: Digits): Digits {
    if ds != [] && ds[0] == 0 then DropLeadingZeros(ds[1..]) else ds
  }

  /** Move trailing zeros into the exponent. */
  function DropTrailingZeros(neg: bool, ds: Digits, exp: int): Num
    requires ds != [] && ds[0] != 0
    decreases |ds|
  {
    if ds[|ds| - 1] == 0 then DropTrailingZeros(neg, ds[..|ds| - 1], exp + 1) else Decimal(neg, ds, exp)
  }

  /** The number written as digits times a power of ten. */
  function Norm(neg: bool, ds: Digits, exp: int): Num {
    var d := DropLeadingZeros(ds);
    if d == [] then Zero else LeadingGone(ds); DropTrailingZeros(neg, d, exp)
  }

  lemma {:induction false} LeadingGone(ds: Digits)
    ensures DropLeadingZeros(ds) != [] ==> DropLeadingZeros(ds)[0] != 0
  {
    if ds != [] && ds[0] == 0 {
      LeadingGone(ds[1..]);
    }
  }

  /** Optional exponent part. */
  function ReadExponent(t: Text): (r: Option<(int, Text)>)
    ensures r.Some? ==> |r.value.1| <= |t|
  {
    if t == [] || t[0] != LETTER_E then Some((0, t))
    else
      var signed := |t| > 1 && (t[1] == PLUS || t[1] == MINUS);
      var r := TakeDigits(if signed then t[2..] else t[1..]);
      if r.0 == [] then None
      else Some((if signed && t[1] == MINUS then -(NatOf(r.0) as int) else NatOf(r.0), r.1))
  }

  /** Optional fraction part. */
  function ReadFraction(t: Text): (r: (Digits, Text))
    ensures |r.1| <= |t|
  {
    if t == [] || t[0] != POINT then ([], t) else TakeDigits(t[1..])
  }

  /** Reads a JSON number as a decimal, by value. */
  function ReadNumber(t: Text): (r: Option<(Num, Text)>)
    ensures r.Some? ==> |r.value.1| < |t|
  {
    if t != [] && t[0] == MINUS then ReadUnsigned(true, t[1..]) else ReadUnsigned(false, t)
  }

  function ReadUnsigned(neg: bool, t: Text): (r: Option<(Num, Text)>)
    ensures r.Some? ==> |r.value.1| < |t|
  {
    var ip := TakeDigits(t);
    if ip.0 == [] then None
    else
      var fp := ReadFraction(ip.1);
      var xp :- ReadExponent(fp.1);
      Some((Norm(neg, ip.0 + fp.0, xp.0 - |fp.0|), xp.1))
  }

  // ----- the round trip -----

  /** Text that cannot continue a number. */
  predicate Delimited(rest: Text) {
    rest == [] || !(IsDigitChar(rest[0]) || rest[0] == POINT || rest[0] == LETTER_E)
  }

  predicate NoDigitNext(rest: Text) {
    rest == [] || !IsDigitChar(rest[0])
  }

  lemma TakeOne(d: Digit, t: Text, ds: Digits, rest: Text)
    requires t != [] && t[0] == d as int + 0x30 && TakeDigits(t[1..]) == (ds, rest)
    ensures TakeDigits(t) == ([d] + ds, rest)
  {
  }

  lemma {:induction false} TakeWritten(ds: Digits, rest: Text)
    requires NoDigitNext(rest)
    ensures TakeDigits(ToText(ds) + rest) == (ds, rest)
  {
    if ds == [] {
      assert ToText(ds) + rest == rest;
    } else {
      TakeWritten(ds[1..], rest);
      assert (ToText(ds) + rest)[1..] == ToText(ds[1..]) + rest;
      TakeOne(ds[0], ToText(ds) + rest, ds[1..], rest);
      assert [ds[0]] + ds[1..] == ds;
    }
  }

  lemma {:induction false} NoLeadingZeros(ds: Digits, n: nat)
    requires ds != [] && ds[0] != 0
    ensures DropLeadingZeros(Zeros(n) + ds) == ds
  {
    if n > 0 {
      NoLeadingZeros(ds, n - 1);
      assert (Zeros(n) + ds)[1..] == Zeros(n - 1) + ds;
    } else {
      assert Zeros(n) + ds == ds;
    }
  }

  lemma {:induction false} TrailingZerosReturn(neg: bool, ds: Digits, n: nat, exp: int)
    requires ds != [] && ds[0] != 0 && ds[|ds| - 1] != 0
    ensures DropTrailingZeros(neg, ds + Zeros(n), exp) == Decimal(neg, ds, exp + n)
  {
    if n > 0 {
      var all := ds + Zeros(n);
      assert all[|all| - 1] == 0;
      ZerosSnoc(n - 1);
      assert all[..|all| - 1] == ds + Zeros(n - 1);
      TrailingZerosReturn(neg, ds, n - 1, exp + 1);
    } else {
      assert ds + Zeros(0) == ds;
    }
  }

  lemma ZerosSnoc(n: nat)
    ensures Zeros(n + 1) == Zeros(n) + [0]
  {
  }

  /** Digits with zeros around them, read with the matching exponent. */
  lemma NormOfPadded(neg: bool, lead: nat, ds: Digits, trail: nat, exp: int)
    requires ds != [] && ds[0] != 0 && ds[|ds| - 1] != 0
    ensures Norm(neg, Zeros(lead) + ds + Zeros(trail), exp) == Decimal(neg, ds, exp + trail)
  {
    assert Zeros(lead) + ds + Zeros(trail) == Zeros(lead) + (ds + Zeros(trail));
    NoLeadingZeros(ds + Zeros(trail), lead);
    TrailingZerosReturn(neg, ds, trail, exp);
  }

  /** Reading what is written as [-]ip[.fp] in front of a delimiter. */
  lemma ReadPlain(neg: bool, ip: Digits, fp: Digits, rest: Text)
    requires ip != [] && Delimited(rest)
    ensures ReadNumber(SignText(neg) + (ToText(ip) + FractionText(fp)) + rest)
         == Some((Norm(neg, ip + fp, -|fp|), rest))
  {
    ReadScientific(neg, ip, fp, [], 0, rest);
    var body := ToText(ip) + FractionText(fp);
    assert SignText(neg) + (body + []) + rest == SignText(neg) + body + rest;
  }

  /** What follows the mantissa: an exponent part of value `x`, or nothing. */
  ghost predicate Exponent(t: Text, x: int) {
    || (t == [] && x == 0)
    || (exists ds: Digits :: ds != [] && t == [LETTER_E, PLUS] + ToText(ds) && x == NatOf(ds))
    || (exists ds: Digits :: ds != [] && t == [LETTER_E, MINUS] + ToText(ds) && x == -(NatOf(ds) as int))
  }

  lemma ReadSignedExponent(t: Text, ds: Digits, rest: Text)
    requires |t| > 1 && t[0] == LETTER_E && (t[1] == PLUS || t[1] == MINUS)
    requires ds != [] && Delimited(rest) && t[2..] == ToText(ds) + rest
    ensures ReadExponent(t) == Some((if t[1] == MINUS then -(NatOf(ds) as int) else NatOf(ds), rest))
  {
    TakeWritten(ds, rest);
  }

  lemma ReadExponentText(t: Text, x: int, rest: Text)
    requires Exponent(t, x) && Delimited(rest)
    ensures ReadExponent(t + rest) == Some((x, rest))
    ensures NoDigitNext(t + rest) && (t + rest == [] || (t + rest)[0] != POINT)
  {
    if t == [] {
      assert t + rest == rest;
    } else if ds: Digits :| ds != [] && t == [LETTER_E, PLUS] + ToText(ds) && x == NatOf(ds) {
      assert (t + rest)[2..] == ToText(ds) + rest;
      ReadSignedExponent(t + rest, ds, rest);
    } else {
      var ds: Digits :| ds != [] && t == [LETTER_E, MINUS] + ToText(ds) && x == -(NatOf(ds) as int);
      assert (t + rest)[2..] == ToText(ds) + rest;
      ReadSignedExponent(t + rest, ds, rest);
    }
  }

  lemma ReadFractionText(fp: Digits, tail: Text)
    requires NoDigitNext(tail) && (tail == [] || tail[0] != POINT)
    ensures ReadFraction(FractionText(fp) + tail) == (fp, tail)
    ensures NoDigitNext(FractionText(fp) + tail)
  {
    if fp == [] {
      assert FractionText(fp) + tail == tail;
    } else {
      ReadPoint(fp, tail);
    }
  }

  lemma ReadPoint(fp: Digits, tail: Text)
    requires NoDigitNext(tail)
    ensures ReadFraction([POINT] + ToText(fp) + tail) == (fp, tail)
  {
    assert ([POINT] + ToText(fp) + tail)[1..] == ToText(fp) + tail;
    TakeWritten(fp, tail);
  }

  lemma ReadUnsignedText(neg: bool, ip: Digits, fp: Digits, et: Text, x: int, rest: Text)
    requires ip != [] && Delimited(rest) && Exponent(et, x)
    ensures ReadUnsigned(neg, ToText(ip) + (FractionText(fp) + (et + rest)))
      == Some((Norm(neg, ip + fp, x - |fp|), rest))
  {
    ReadExponentText(et, x, rest);
    ReadFractionText(fp, et + rest);
    TakeWritten(ip, FractionText(fp) + (et + rest));
  }

  lemma ReadSigned(neg: bool, t: Text)
    requires t != [] && IsDigitChar(t[0])
    ensures ReadNumber(SignText(neg) + t) == ReadUnsigned(neg, t)
  {
    if neg {
      assert (SignText(neg) + t)[1..] == t;
    } else {
      assert SignText(neg) + t == t;
    }
  }

  lemma ReadScientific(neg: bool, ip: Digits, fp: Digits, et: Text, x: int, rest: Text)
    requires ip != [] && Delimited(rest) && Exponent(et, x)
    ensures ReadNumber(SignText(neg) + (ToText(ip) + FractionText(fp) + et) + rest)
         == Some((Norm(neg, ip + fp, x - |fp|), rest))
  {
    ReadUnsignedText(neg, ip, fp, et, x, rest);
    ReadSigned(neg, ToText(ip) + (FractionText(fp) + (et + rest)));
    Regroup(SignText(neg), ToText(ip), FractionText(fp), et, rest);
  }

  lemma Regroup(a: Text, b: Text, c: Text, d: Text, e: Text)
    ensures a + (b + c + d) + e == a + (b + (c + (d + e)))
  {
  }

  lemma RegroupPoint(a: Text, b: Text)
    ensures a + ([POINT] + b) == a + [POINT] + b
  {
  }

  lemma ExponentPart(x: int)
    requires x != 0
    ensures Exponent(ExponentText(x), x)
  {
    var ds := DigitsOf(if x > 0 then x else -x);
    DigitsRoundTrip(if x > 0 then x else -x);
    assert ExponentText(x) == [LETTER_E, if x > 0 then PLUS else MINUS] + ToText(ds);
  }

  /** Layout 1: all digits before the point, padded with zeros. */
  lemma WholeRoundTrip(neg: bool, digits: Digits, exp: int, rest: Text)
    requires Normal(Decimal(neg, digits, exp)) && Delimited(rest) && exp >= 0
    ensures ReadNumber(SignText(neg) + WholeText(digits, exp) + rest) == Some((Decimal(neg, digits, exp), rest))
  {
    ReadPlain(neg, digits + Zeros(exp), [], rest);
    NormOfPadded(neg, 0, digits, exp, 0);
    assert Zeros(0) + digits + Zeros(exp) == digits + Zeros(exp) == digits + Zeros(exp) + [];
    assert ToText(digits + Zeros(exp)) + [] == ToText(digits + Zeros(exp));
  }

  /** Splitting the digits at a point does not matter. */
  lemma NormOfSplit(neg: bool, digits: Digits, at: nat, exp: int)
    requires Normal(Decimal(neg, digits, exp)) && at <= |digits|
    ensures Norm(neg, digits[..at] + digits[at..], exp) == Decimal(neg, digits, exp)
  {
    NormOfPadded(neg, 0, digits, 0, exp);
    assert digits[..at] + digits[at..] == digits == Zeros(0) + digits + Zeros(0);
  }

  /** Layout 2: the point inside the digits. */
  lemma PointRoundTrip(neg: bool, digits: Digits, exp: int, rest: Text)
    requires Normal(Decimal(neg, digits, exp)) && Delimited(rest) && -|digits| < exp < 0
    ensures ReadNumber(SignText(neg) + PointText(digits, exp + |digits|) + rest)
      == Some((Decimal(neg, digits, exp), rest))
  {
    var e := exp + |digits|;
    ReadPlain(neg, digits[..e], digits[e..], rest);
    NormOfSplit(neg, digits, e, exp);
    RegroupPoint(ToText(digits[..e]), ToText(digits[e..]));
  }

  lemma NormOfSmall(neg: bool, n: nat, digits: Digits, exp: int)
    requires Normal(Decimal(neg, digits, exp))
    ensures Norm(neg, [0] + (Zeros(n) + digits), exp) == Decimal(neg, digits, exp)
  {
    NormOfPadded(neg, n + 1, digits, 0, exp);
    assert Zeros(n + 1) == [0] + Zeros(n);
    assert [0] + (Zeros(n) + digits) == Zeros(n + 1) + digits + Zeros(0);
  }

  /** Layout 3: n zeros between the point and the digits. */
  lemma SmallRoundTrip(neg: bool, n: nat, digits: Digits, rest: Text)
    requires Normal(Decimal(neg, digits, 0 - n - |digits|)) && Delimited(rest)
    ensures ReadNumber(SignText(neg) + SmallText(n, digits) + rest)
      == Some((Decimal(neg, digits, 0 - n - |digits|), rest))
  {
    var fp := Zeros(n) + digits;
    assert |fp| == n + |digits|;
    ReadPlain(neg, [0], fp, rest);
    NormOfSmall(neg, n, digits, 0 - n - |digits|);
    RegroupPoint(ToText([0]), ToText(fp));
  }

  /** Layout 4: one digit before the point, and an exponent. */
  lemma ScientificRoundTrip(neg: bool, digits: Digits, exp: int, rest: Text)
    requires Normal(Decimal(neg, digits, exp)) && Delimited(rest) && exp + |digits| != 1
    ensures ReadNumber(SignText(neg) + ScientificText(digits, exp + |digits| - 1) + rest)
         == Some((Decimal(neg, digits, exp), rest))
  {
    var x := exp + |digits| - 1;
    ExponentPart(x);
    ReadScientific(neg, digits[..1], digits[1..], ExponentText(x), x, rest);
    NormOfSplit(neg, digits, 1, exp);
  }

  lemma LayoutCases(digits: Digits, exp: int)
    requires digits != []
    ensures var e := exp + |digits|;
      && (|digits| <= e <= 21 ==> exp >= 0 && Layout(digits, exp) == WholeText(digits, exp))
      && (0 < e <= 21 && e < |digits| ==> Layout(digits, exp) == PointText(digits, e))
      && (-6 < e <= 0 ==> Layout(digits, exp) == SmallText(-e, digits))
      && (e > 21 || e <= -6 ==> Layout(digits, exp) == ScientificText(digits, e - 1))
  {
  }

  /** Whatever layout is chosen, reading the text gives back exactly the number. */
  lemma LayoutRoundTrip(neg: bool, digits: Digits, exp: int, layout: Text, rest: Text)
    requires Normal(Decimal(neg, digits, exp)) && Delimited(rest) && layout == Layout(digits, exp)
    ensures ReadNumber(SignText(neg) + layout + rest) == Some((Decimal(neg, digits, exp), rest))
  {
    var e := exp + |digits|;
    LayoutCases(digits, exp);
    if |digits| <= e <= 21 {
      WholeRoundTrip(neg, digits, exp, rest);
    } else if 0 < e <= 21 {
      PointRoundTrip(neg, digits, exp, rest);
    } else if -6 < e <= 0 {
      SmallRoundTrip(neg, -e, digits, rest);
    } else {
      ScientificRoundTrip(neg, digits, exp, rest);
    }
  }

  /** Every normal number is read back from its text, up to the next delimiter. */
  lemma NumberRoundTrip(n: Num, rest: Text)
    requires Normal(n) && Delimited(rest)
    ensures ReadNumber(NumText(n) + rest) == Some((n, rest))
  {
    if n.Zero? {
      ReadPlain(false, [0], [], rest);
      assert SignText(false) + (ToText([0]) + []) + rest == ToText([0]) + rest;
      assert DropLeadingZeros([0] + []) == [];
    } else {
      LayoutRoundTrip(n.neg, n.digits, n.exp, Layout(n.digits, n.exp), rest);
    }
  }

  /** An integer's value as a number. */
  function NumOfInt(n: int): Num {
    Norm(n < 0, DigitsOf(if n < 0 then -n else n), 0)
  }

  lemma IntRoundTrip(n: int, rest: Text)
    requires Delimited(rest)
    ensures ReadNumber(IntText(n) + rest) == Some((NumOfInt(n), rest))
  {
    var ds := DigitsOf(if n < 0 then -n else n);
    ReadPlain(n < 0, ds, [], rest);
    assert ToText(ds) + [] == ToText(ds) && ds + [] == ds;
  }

  // ----- numbers by value -----

  function Pow10(e: int): real
    decreases if e < 0 then -e else e
  {
    if e == 0 then 1.0 else if e > 0 then 10.0 * Pow10(e - 1) else Pow10(e + 1) / 10.0
  }

  function Scaled(n: nat, exp: int): real {
    n as real * Pow10(exp)
  }

  /** The real number a decimal stands for. */
  function Val(n: Num): real {
    match n
    case Zero => 0.0
    case Decimal(neg, digits, exp) => if neg then -Scaled(NatOf(digits), exp) else Scaled(NatOf(digits), exp)
  }

  lemma Pow10Step(e: int)
    ensures Pow10(e + 1) == 10.0 * Pow10(e)
  {
  }

  lemma {:induction false} Pow10Positive(e: int)
    ensures Pow10(e) > 0.0
    decreases if e < 0 then -e else e
  {
    if e > 0 {
      Pow10Positive(e - 1);
    } else if e < 0 {
      Pow10Positive(e + 1);
    }
  }

  /** A factor ten moves between the digits and the exponent. */
  lemma ScaledStep(n: nat, exp: int)
    ensures Scaled(n * 10, exp) == Scaled(n, exp + 1)
  {
    Pow10Step(exp);
    assert (n * 10) as real == n as real * 10.0;
  }

  lemma {:induction false} NatOfDropsLeadingZero(ds: Digits)
    requires ds != [] && ds[0] == 0
    ensures NatOf(ds[1..]) == NatOf(ds)
  {
    if |ds| > 1 {
      NatOfDropsLeadingZero(ds[..|ds| - 1]);
      assert ds[1..][..|ds| - 2] == ds[..|ds| - 1][1..];
    }
  }

  lemma {:induction false} LeadingZerosKeepValue(ds: Digits)
    ensures NatOf(DropLeadingZeros(ds)) == NatOf(ds)
  {
    if ds != [] && ds[0] == 0 {
      LeadingZerosKeepValue(ds[1..]);
      NatOfDropsLeadingZero(ds);
    }
  }

  lemma {:induction false} TrailingZerosKeepValue(neg: bool, ds: Digits, exp: int)
    requires ds != [] && ds[0] != 0
    ensures Normal(DropTrailingZeros(neg, ds, exp))
    ensures Val(DropTrailingZeros(neg, ds, exp)) == Val(Decimal(neg, ds, exp))
    decreases |ds|
  {
    if ds[|ds| - 1] == 0 {
      TrailingZerosKeepValue(neg, ds[..|ds| - 1], exp + 1);
      ScaledStep(NatOf(ds[..|ds| - 1]), exp);
    }
  }

  /** The normal form is normal and stands for the same number. */
  lemma NormKeepsValue(neg: bool, ds: Digits, exp: int)
    ensures Normal(Norm(neg, ds, exp))
    ensures Val(Norm(neg, ds, exp)) == Val(Decimal(neg, ds, exp))
  {
    LeadingZerosKeepValue(ds);
    LeadingGone(ds);
    var d := DropLeadingZeros(ds);
    if d != [] {
      TrailingZerosKeepValue(neg, d, exp);
    }
  }

  lemma IntIsItsNumber(n: int)
    ensures Normal(NumOfInt(n)) && Val(NumOfInt(n)) == n as real
  {
    var m := if n < 0 then -n else n;
    NormKeepsValue(n < 0, DigitsOf(m), 0);
    DigitsRoundTrip(m);
  }

  lemma {:induction false} NatOfPositive(ds: Digits)
    requires ds != [] && ds[0] != 0
    ensures NatOf(ds) > 0
  {
    if |ds| > 1 {
      NatOfPositive(ds[..|ds| - 1]);
    }
  }

  /** Digits without leading zeros are fixed by the number they spell. */
  lemma {:induction false} DigitsFixedByNumber(a: Digits, b: Digits)
    requires a != [] && a[0] != 0 && b != [] && b[0] != 0
    requires NatOf(a) == NatOf(b)
    ensures a == b
    decreases |a|
  {
    var a', b' := a[..|a| - 1], b[..|b| - 1];
    LastDigit(NatOf(a'), a[|a| - 1], NatOf(b'), b[|b| - 1]);
    if a' != [] && b' != [] {
      DigitsFixedByNumber(a', b');
    } else if a' != [] {
      NatOfPositive(a');
    } else if b' != [] {
      NatOfPositive(b');
    }
    assert a == a' + [a[|a| - 1]] && b == b' + [b[|b| - 1]];
  }

  lemma LastDigit(x: nat, d: Digit, y: nat, e: Digit)
    requires x * 10 + d == y * 10 + e
    ensures x == y && d == e
  {
  }

  /** If m * 10^i = n * 10^j with j > i, ten divides m. */
  lemma {:induction false} TenDivides(m: nat, n: nat, i: int, j: int)
    requires Scaled(m, i) == Scaled(n, j) && j > i
    ensures m % 10 == 0
    decreases j - i
  {
    ScaledStep(n, j - 1);
    if j - 1 > i {
      TenDivides(m, n * 10, i, j - 1);
    } else {
      CancelScale(m, n * 10, i);
    }
  }

  lemma CancelScale(m: nat, n: nat, exp: int)
    requires Scaled(m, exp) == Scaled(n, exp)
    ensures m == n
  {
    Pow10Positive(exp);
    var p := Pow10(exp);
    assert (m as real * p) / p == m as real && (n as real * p) / p == n as real;
    assert m as real == n as real;
  }

  /** Equal values cannot have exponents i < j when the digits at i end in a non-zero one. */
  lemma ScaleIsFixed(a: Digits, b: Digits, i: int, j: int)
    requires a != [] && a[|a| - 1] != 0 && Scaled(NatOf(a), i) == Scaled(NatOf(b), j)
    ensures i >= j
  {
    if i < j {
      TenDivides(NatOf(a), NatOf(b), i, j);
      assert false;
    }
  }

  lemma SameScaleSameDigits(a: Num, b: Num)
    requires a.Decimal? && b.Decimal? && Normal(a) && Normal(b)
    requires Scaled(NatOf(a.digits), a.exp) == Scaled(NatOf(b.digits), b.exp)
    ensures a.digits == b.digits && a.exp == b.exp
  {
    ScaleIsFixed(a.digits, b.digits, a.exp, b.exp);
    ScaleIsFixed(b.digits, a.digits, b.exp, a.exp);
    if a.exp == b.exp {
      CancelScale(NatOf(a.digits), NatOf(b.digits), a.exp);
      DigitsFixedByNumber(a.digits, b.digits);
    }
  }

  lemma DecimalIsNotZero(a: Num)
    requires a.Decimal? && Normal(a)
    ensures Scaled(NatOf(a.digits), a.exp) > 0.0
  {
    NatOfPositive(a.digits);
    Pow10Positive(a.exp);
    PositiveProduct(NatOf(a.digits), Pow10(a.exp));
  }

  lemma PositiveProduct(n: nat, p: real)
    requires n > 0 && p > 0.0
    ensures n as real * p > 0.0
  {
    var x := n as real;
    assert x > 0.0;
  }

  /** Normal decimals are equal exactly when they stand for the same number. */
  lemma EqualByValue(a: Num, b: Num)
    requires Normal(a) && Normal(b)
    ensures a == b <==> Val(a) == Val(b)
  {
    if a.Decimal? {
      DecimalIsNotZero(a);
    }
    if b.Decimal? {
      DecimalIsNotZero(b);
    }
    if a.Decimal? && b.Decimal? {
      SameSignSameValue(a, b);
    }
  }

  lemma SameSignSameValue(a: Num, b: Num)
    requires a.Decimal? && b.Decimal? && Normal(a) && Normal(b)
    requires Scaled(NatOf(a.digits), a.exp) > 0.0 && Scaled(NatOf(b.digits), b.exp) > 0.0
    ensures Val(a) == Val(b) ==> a == b
  {
    var x, y := Scaled(NatOf(a.digits), a.exp), Scaled(NatOf(b.digits), b.exp);
    assert Val(a) == (if a.neg then -x else x) && Val(b) == (if b.neg then -y else y);
    if x == y {
      SameScaleSameDigits(a, b);
    }
  }

  /** Two normal numbers that print alike are the same number. */
  lemma NumTextInjective(a: Num, b: Num)
    requires Normal(a) && Normal(b)
    ensures NumText(a) == NumText(b) <==> Val(a) == Val(b)
  {
    NumberRoundTrip(a, []);
    NumberRoundTrip(b, []);
    assert NumText(a) + [] == NumText(a) && NumText(b) + [] == NumText(b);
    EqualByValue(a, b);
  }

  // ----- an integer prints as the float of the same value -----

  lemma {:induction false} DigitCount(n: nat, k: nat)
    requires n < PowNat(k) && k > 0
    ensures |DigitsOf(n)| <= k
    decreases k
  {
    if n >= 10 {
      assert k > 1 by {
        assert PowNat(1) == 10 * PowNat(0);
      }
      DigitCount(n / 10, k - 1);
    }
  }

  function PowNat(k: nat): nat {
    if k == 0 then 1 else 10 * PowNat(k - 1)
  }

  lemma {:induction false} TrailingZerosAreZeros(neg: bool, ds: Digits, exp: int) returns (z: nat)
    requires ds != [] && ds[0] != 0
    ensures z < |ds| && DropTrailingZeros(neg, ds, exp) == Decimal(neg, ds[..|ds| - z], exp + z)
    ensures ds == ds[..|ds| - z] + Zeros(z)
    decreases |ds|
  {
    if ds[|ds| - 1] == 0 {
      var y := TrailingZerosAreZeros(neg, ds[..|ds| - 1], exp + 1);
      z := y + 1;
      ZerosSnoc(y);
      assert ds[..|ds| - 1][..|ds| - 1 - y] == ds[..|ds| - z];
      assert ds == ds[..|ds| - 1] + [0];
    } else {
      z := 0;
      assert ds[..|ds|] == ds;
    }
  }

  const SAFE: int := 0x20_0000_0000_0000 // 2**53

  /** An int and a float of the same value print alike. */
  lemma IntTextIsNumText(n: int)
    requires -SAFE <= n <= SAFE
    ensures Normal(NumOfInt(n)) && NumText(NumOfInt(n)) == IntText(n)
  {
    IntIsItsNumber(n);
    var m := if n < 0 then -n else n;
    var ds := DigitsOf(m);
    if n == 0 {
      assert DropLeadingZeros([0]) == [];
    } else {
      var z := TrailingZerosAreZeros(n < 0, ds, 0);
      TenToSixteen();
      DigitCount(m, 16);
      assert NumOfInt(n) == Decimal(n < 0, ds[..|ds| - z], z);
      assert ds[..|ds| - z] + Zeros(|ds| - (|ds| - z)) == ds;
    }
  }

  lemma TenToSixteen()
    ensures PowNat(16) == 10_000_000_000_000_000
  {
    assert PowNat(4) == 10_000;
    assert PowNat(8) == 100_000_000;
    assert PowNat(12) == 1_000_000_000_000;
  }
}
