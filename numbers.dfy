/** JavaScript numbers as `validExpid` meets them: the unary `+s` coercion of a
    string written in decimal notation, and the text of a number when it is
    appended to a string. A number is held exactly, as an integer over a power
    of ten. */
module Numbers {

  import opened Results
  import opened Decimal
  import opened Text

  /** The value mantissa / 10^scale. */
  datatype Number = Number(mantissa: int, scale: nat)

  /** No trailing zero after the decimal point, so that every value has one
      representation and an integer has scale 0. */
  predicate Canonical(x: Number) {
    x.scale == 0 || x.mantissa % 10 != 0
  }

  /** x < n. */
  predicate Below(x: Number, n: int) {
    x.mantissa < n * Pow10(x.scale)
  }

  /** x > n. */
  predicate Above(x: Number, n: int) {
    x.mantissa > n * Pow10(x.scale)
  }

  /** The canonical form of m / 10^k: trailing zeros of the fraction dropped. */
  function Normalize(m: int, k: nat): (x: Number)
    ensures Canonical(x) && x.scale <= k
    ensures m == x.mantissa * Pow10(k - x.scale)
    ensures m >= 0 ==> x.mantissa >= 0
    decreases k
  {
    if k > 0 && m % 10 == 0 then
      var x := Normalize(m / 10, k - 1);
      ScaleByTen(x.mantissa, Pow10(k - 1 - x.scale));
      x
    else Number(m, k)
  }

  lemma ScaleByTen(a: int, p: int)
    ensures 10 * (a * p) == a * (10 * p)
  {
  }

  /** Where the first '.' of s stands, or |s| when there is none. */
  function DotIndex(s: string): (i: nat)
    ensures i <= |s| && (i < |s| ==> s[i] == '.')
    ensures forall j :: 0 <= j < i ==> s[j] != '.'
  {
    if s == [] || s[0] == '.' then 0 else 1 + DotIndex(s[1..])
  }

  /** An unsigned decimal literal: digits, then optionally a point and more digits,
      with at least one digit in all. None for any other text. */
  function UnsignedLiteral(s: string): (r: Option<Number>)
    ensures r.Some? ==> Canonical(r.value) && r.value.mantissa >= 0
    ensures AllDigits(s) && s != [] ==> r == Some(Number(DecimalValue(s), 0))
  {
    var i := DotIndex(s);
    var whole := s[..i];
    var fraction := if i < |s| then s[i + 1..] else "";
    assert AllDigits(s) ==> i == |s| && whole == s;
    if AllDigits(whole) && AllDigits(fraction) && |whole| + |fraction| > 0 then
      ValueOfConcat(whole, fraction);
      Some(Normalize(DecimalValue(whole + fraction), |fraction|))
    else None
  }

  /** `+s` on decimal text: white space around the text is ignored, blank text is
      0, and an optionally signed unsigned literal is its value. Any other text is
      NaN (None). */
  function ToNumber(s: string): (r: Option<Number>)
    ensures r.Some? ==> Canonical(r.value)
    ensures AllDigits(s) ==> r == Some(Number(DecimalValue(s), 0))
  {
    DigitsUntrimmed(s);
    TrimmedToNumber(Trim(s))
  }

  /** `+s` once the text is trimmed: blank text is 0, and an optionally signed
      unsigned literal is its value. */
  function TrimmedToNumber(t: string): (r: Option<Number>)
    ensures r.Some? ==> Canonical(r.value)
    ensures AllDigits(t) ==> r == Some(Number(DecimalValue(t), 0))
  {
    if t == [] then Some(Number(0, 0))
    else if t[0] == '-' then Negate(UnsignedLiteral(t[1..]))
    else if t[0] == '+' then UnsignedLiteral(t[1..])
    else UnsignedLiteral(t)
  }

  /** `+s` reads only the trimmed text. */
  lemma ToNumberOfTrim(s: string)
    ensures ToNumber(Trim(s)) == ToNumber(s)
  {
    TrimIdempotent(s);
  }

  /** White space written around the text does not change the number it denotes. */
  lemma ToNumberIgnoresSurroundingSpace(w1: string, s: string, w2: string)
    requires AllWhitespace(w1) && AllWhitespace(w2)
    ensures ToNumber(w1 + s + w2) == ToNumber(s)
  {
    SurroundingSpaceIgnored(w1, s, w2);
  }

  /** The unary minus applied to a number, NaN staying NaN. */
  function Negate(r: Option<Number>): (n: Option<Number>)
    requires r.Some? ==> Canonical(r.value)
    ensures n.Some? <==> r.Some?
    ensures n.Some? ==> Canonical(n.value) && n.value.mantissa == -r.value.mantissa
                        && n.value.scale == r.value.scale
  {
    match r
    case None => None
    case Some(x) =>
      NegatedMultipleOfTen(x.mantissa);
      Some(Number(-x.mantissa, x.scale))
  }

  lemma DigitsUntrimmed(s: string)
    ensures AllDigits(s) ==> Trim(s) == s
  {
    if AllDigits(s) && s != [] {
      TrimUnchanged(s);
    }
  }

  lemma NegatedMultipleOfTen(m: int)
    ensures (-m) % 10 == 0 ==> m % 10 == 0
  {
    if (-m) % 10 == 0 {
      var k := (-m) / 10;
      assert m == 10 * -k;
    }
  }

  lemma DivMod(m: int, p: int)
    requires p > 0
    ensures m == m / p * p + m % p
  {
  }

  /** n written with exactly k digits, zeros in front. */
  function FixedDigits(n: nat, k: nat): (s: string)
    requires 1 <= k && n < Pow10(k)
    ensures |s| == k && AllDigits(s) && DecimalValue(s) == n
  {
    NatToDecimalLength(n, k);
    var d := NatToDecimal(n);
    var zeros := seq(k - |d|, _ => '0');
    LeadingZerosIgnored(zeros, d);
    zeros + d
  }

  /** `String(x)` for a number 1 <= x < 10^21: the digits of its integer part and,
      unless it is an integer, a point followed by the digits of its fraction. */
  function NumberText(x: Number): (s: string)
    requires Canonical(x) && !Below(x, 1) && Below(x, 1000000000000000000000)
    ensures |s| > 0 && IsDigit(s[0]) && IsDigit(s[|s| - 1])
    ensures x.scale == 0 <==> AllDigits(s)
    ensures x.scale == 0 ==> DecimalValue(s) == x.mantissa
  {
    if x.scale == 0 then NatToDecimal(x.mantissa)
    else
      var p := Pow10(x.scale);
      var s := NatToDecimal(x.mantissa / p) + "." + FixedDigits(x.mantissa % p, x.scale);
      assert s[|NatToDecimal(x.mantissa / p)|] == '.';
      s
  }

  /** Converting an integer to text and back gives the integer again. */
  lemma ToNumberOfIntToString(n: int)
    ensures ToNumber(IntToString(n)) == Some(Number(n, 0))
  {
    var s := IntToString(n);
    if n < 0 {
      var digits := NatToDecimal(-n);
      assert s == "-" + digits && s[1..] == digits;
      TrimUnchanged(s);
      assert UnsignedLiteral(digits) == Some(Number(-n, 0));
      assert ToNumber(s) == Negate(UnsignedLiteral(digits));
    }
  }

  /** The text of a number reads back as that number. */
  lemma ToNumberOfText(x: Number)
    requires Canonical(x) && !Below(x, 1) && Below(x, 1000000000000000000000)
    ensures ToNumber(NumberText(x)) == Some(x)
  {
    ToNumberOfPaddedText("", x);
    assert "" + NumberText(x) == NumberText(x);
  }

  /** The text of a number, with any zeros written in front of it, reads back as
      that number. */
  lemma ToNumberOfPaddedText(z: string, x: Number)
    requires forall i :: 0 <= i < |z| ==> z[i] == '0'
    requires Canonical(x) && !Below(x, 1) && Below(x, 1000000000000000000000)
    ensures ToNumber(z + NumberText(x)) == Some(x)
  {
    var s := z + NumberText(x);
    if x.scale == 0 {
      LeadingZerosIgnored(z, NumberText(x));
      assert DecimalValue(s) == x.mantissa;
      assert ToNumber(s) == Some(Number(x.mantissa, 0));
    } else {
      TrimUnchanged(s);
      var p := Pow10(x.scale);
      var q, r := x.mantissa / p, x.mantissa % p;
      var w := z + NatToDecimal(q);
      var f := FixedDigits(r, x.scale);
      LeadingZerosIgnored(z, NatToDecimal(q));
      assert s == w + "." + f;
      UnsignedLiteralOfParts(w, f);
      ValueOfConcat(w, f);
      assert DecimalValue(w) == q && DecimalValue(f) == r && |f| == x.scale;
      assert DecimalValue(w + f) == q * p + r;
      DivMod(x.mantissa, p);
      assert Normalize(x.mantissa, x.scale) == x;
      ToNumberOfUnsigned(s);
      assert ToNumber(s) == Some(Normalize(DecimalValue(w + f), |f|));
      assert DecimalValue(w + f) == x.mantissa;
      assert ToNumber(s) == Some(x);
    }
  }

  /** A literal with a point reads as its digits over ten to the number of
      fraction digits. */
  lemma UnsignedLiteralOfParts(w: string, f: string)
    requires AllDigits(w) && AllDigits(f) && f != []
    ensures AllDigits(w + f)
    ensures UnsignedLiteral(w + "." + f) == Some(Normalize(DecimalValue(w + f), |f|))
  {
    var s := w + "." + f;
    assert s[|w|] == '.';
    assert DotIndex(s) == |w|;
    assert s[..|w|] == w && s[|w| + 1..] == f;
    ValueOfConcat(w, f);
  }

  /** Text that starts with a digit and has no white space around it is read as an
      unsigned literal. */
  lemma ToNumberOfUnsigned(s: string)
    requires s != [] && IsDigit(s[0]) && IsDigit(s[|s| - 1])
    ensures ToNumber(s) == UnsignedLiteral(s)
  {
    TrimUnchanged(s);
  }
}
