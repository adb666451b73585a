/** Night and exposure identifiers: the `nightPattern` test, `validExpid`, and the
    conversions between a night string and calendar fields. */
module NightId {

  import opened Results
  import opened Decimal
  import opened Js
  import opened Text
  import opened Numbers

  /** `nightPattern`, /^20[0-9]{6}$/: eight digits beginning with "20". */
  predicate MatchesNight(s: string) {
    |s| == 8 && s[0] == '2' && s[1] == '0' && AllDigits(s)
  }

  /** `expidPattern`, /^[0-9]{8}$/: exactly eight digits. */
  predicate IsExpidForm(s: string) {
    |s| == 8 && AllDigits(s)
  }

  const MinExpid: int := 10000
  const MaxExpid: int := 99999999

  /** What `validExpid` gives back: it throws, returns null, returns a string, or
      (from its last line) returns a number. */
  datatype ExpidResult =
    | ExpidThrows(error: JsError)
    | ExpidNull
    | ExpidString(s: string)
    | ExpidNumber(x: Number)

  /** The three zero-padding branches of `validExpid`, for a value in
      [10000, 10000000): as many zeros as bring an integer to eight digits, put in
      front of the number's text. */
  function ZeroPad8(x: Number): (s: string)
    requires Canonical(x) && !Below(x, MinExpid) && Below(x, 10000000)
    ensures x.scale == 0 ==> IsExpidForm(s) && DecimalValue(s) == x.mantissa
    ensures x.scale > 0 ==> !AllDigits(s)
  {
    var zeros := if Below(x, 100000) then "000" else if Below(x, 1000000) then "00" else "0";
    PaddedText(zeros, x);
    zeros + NumberText(x)
  }

  /** The zeros ZeroPad8 chooses make an integer's text eight digits long, and
      leave the text of a fraction not all digits. */
  lemma PaddedText(zeros: string, x: Number)
    requires Canonical(x) && !Below(x, MinExpid) && Below(x, 10000000)
    requires zeros == if Below(x, 100000) then "000" else if Below(x, 1000000) then "00" else "0"
    ensures x.scale == 0 ==> IsExpidForm(zeros + NumberText(x))
                             && DecimalValue(zeros + NumberText(x)) == x.mantissa
    ensures x.scale > 0 ==> !AllDigits(zeros + NumberText(x))
  {
    var text := NumberText(x);
    if x.scale == 0 {
      NatToDecimalLength(x.mantissa, 4);
      NatToDecimalLength(x.mantissa, 5);
      NatToDecimalLength(x.mantissa, 6);
      NatToDecimalLength(x.mantissa, 7);
      LeadingZerosIgnored(zeros, text);
    } else {
      assert (zeros + text)[|zeros|..] == text;
    }
  }

  /** The text of `expid` coerces to a number that is not an integer. */
  predicate Fractional(expid: JsValue) {
    && ToJsString(expid).Success?
    && ToNumber(ToJsString(expid).value).Some?
    && ToNumber(ToJsString(expid).value).value.scale > 0
  }

  /** The part of `validExpid` after `expid = +expid`: NaN and values outside
      [10000, 99999999] give null, values below 10000000 are zero-padded, and the
      rest come back as numbers. */
  function ExpidOfNumber(n: Option<Number>): (r: ExpidResult)
    requires n.Some? ==> Canonical(n.value)
    ensures !r.ExpidThrows?
    ensures r == ExpidNull <==> n.None? || Below(n.value, MinExpid) || Above(n.value, MaxExpid)
    ensures r.ExpidString? ==> n.Some? && (IsExpidForm(r.s) <==> n.value.scale == 0)
    ensures r.ExpidString? ==> !Below(n.value, MinExpid) && Below(n.value, 10000000)
    ensures r.ExpidNumber? ==> n == Some(r.x) && !Below(r.x, 10000000) && !Above(r.x, MaxExpid)
    ensures n.Some? && n.value.scale == 0 ==>
              var m := n.value.mantissa;
              && (m < MinExpid || m > MaxExpid ==> r == ExpidNull)
              && (MinExpid <= m < 10000000 ==> r.ExpidString? && DecimalValue(r.s) == m)
              && (10000000 <= m <= MaxExpid ==> r == ExpidNumber(n.value))
  {
    match n
    case None => ExpidNull
    case Some(x) =>
      if Below(x, MinExpid) || Above(x, MaxExpid) then ExpidNull
      else if Below(x, 10000000) then ExpidString(ZeroPad8(x))
      else ExpidNumber(x)
  }

  /** `validExpid(expid)`. */
  function ValidExpid(expid: JsValue): (r: ExpidResult)
    ensures r.ExpidThrows? <==> Nullish(expid)
    ensures expid.JsStr? && IsExpidForm(expid.s) ==> r == ExpidString(expid.s)
    ensures r.ExpidString? && !IsExpidForm(r.s) ==> Fractional(expid)
    ensures r.ExpidNumber? ==>
              && ToNumber(ToJsString(expid).value) == Some(r.x)
              && !Below(r.x, 10000000) && !Above(r.x, MaxExpid)
  {
    match ToJsString(expid)
    case Failure(e) => ExpidThrows(e)
    case Success(s) => if IsExpidForm(s) then ExpidString(s) else ExpidOfNumber(ToNumber(s))
  }

  /** The text `validExpid(expid)` contributes when it is appended to a URL path;
      None when it returns null (a thrown result never reaches a URL). */
  function ExpidSegment(expid: JsValue): (seg: Option<string>)
    ensures seg.Some? <==> ValidExpid(expid).ExpidString? || ValidExpid(expid).ExpidNumber?
    ensures ValidExpid(expid).ExpidString? ==> seg == Some(ValidExpid(expid).s)
    ensures seg.Some? && !Fractional(expid) ==> IsExpidForm(seg.value)
  {
    match ValidExpid(expid)
    case ExpidString(s) => Some(s)
    case ExpidNumber(x) =>
      if x.scale == 0 then
        NatToDecimalLength(x.mantissa, 7);
        NatToDecimalLength(x.mantissa, 8);
        Some(NumberText(x))
      else Some(NumberText(x))
    case _ => None
  }

  /** `validExpid` as its comment describes it: a value that is not an integer is
      rejected like one out of range, so every string returned has eight digits. */
  function ValidExpidChecked(expid: JsValue): (r: ExpidResult)
    ensures r.ExpidThrows? <==> Nullish(expid)
    ensures r.ExpidString? ==> IsExpidForm(r.s)
    ensures r.ExpidNumber? ==> r.x.scale == 0 && 10000000 <= r.x.mantissa <= MaxExpid
    ensures !Fractional(expid) ==> r == ValidExpid(expid)
    ensures Fractional(expid) ==> r == ExpidNull
  {
    match ToJsString(expid)
    case Failure(e) => ExpidThrows(e)
    case Success(s) =>
      if IsExpidForm(s) then ExpidString(s)
      else
        var n := ToNumber(s);
        if n.Some? && n.value.scale > 0 then ExpidNull else ExpidOfNumber(n)
  }

  /** Any number with a fraction in [10000, 10000000), given as its text, comes
      back as a string that is not eight digits, where the corrected version gives
      null. */
  lemma FractionalExpidAccepted(x: Number)
    requires Canonical(x) && x.scale > 0 && !Below(x, MinExpid) && Below(x, 10000000)
    ensures ValidExpid(JsStr(NumberText(x))).ExpidString?
    ensures !IsExpidForm(ValidExpid(JsStr(NumberText(x))).s)
    ensures ValidExpidChecked(JsStr(NumberText(x))) == ExpidNull
  {
    ToNumberOfText(x);
    ValidExpidOfText(NumberText(x));
  }

  /** Text other than eight digits is judged by the number it coerces to. */
  lemma ValidExpidOfText(t: string)
    requires !IsExpidForm(t)
    ensures ValidExpid(JsStr(t)) == ExpidOfNumber(ToNumber(t))
  {
  }

  /** The concrete case: "12345.5" gives "00012345.5". */
  lemma FractionalExpidExample()
    ensures ValidExpid(JsStr("12345.5")) == ExpidString("00012345.5")
    ensures ValidExpidChecked(JsStr("12345.5")) == ExpidNull
  {
    var x := Number(123455, 1);
    Text123455();
    FractionalExpidAccepted(x);
    ToNumberOfText(x);
    ValidExpidOfText("12345.5");
    PaddedByThreeZeros(x);
    PaddedLiterals();
  }

  /** White space around the text is ignored: " 12345" is the padded "00012345". */
  lemma SpacedExpidAccepted()
    ensures ValidExpid(JsStr(" 12345")) == ExpidString("00012345")
  {
    var x := Number(12345, 0);
    Spaced12345();
    Text12345();
    ValidExpidOfText(" 12345");
    PaddedByThreeZeros(x);
    PaddedLiterals();
  }

  /** A number in [10000, 100000) is padded with three zeros. */
  lemma PaddedByThreeZeros(x: Number)
    requires Canonical(x) && !Below(x, MinExpid) && Below(x, 100000)
    ensures ExpidOfNumber(Some(x)) == ExpidString("000" + NumberText(x))
  {
  }

  lemma Spaced12345()
    ensures ToNumber(" 12345") == Some(Number(12345, 0))
  {
    Trimmed12345();
    Text12345();
    assert UnsignedLiteral("12345") == Some(Number(12345, 0));
  }

  lemma Trimmed12345()
    ensures Trim(" 12345") == "12345"
  {
    TrimLeadingSpace("12345");
    PaddedLiterals();
  }

  lemma PaddedLiterals()
    ensures "000" + "12345.5" == "00012345.5"
    ensures "000" + "12345" == "00012345"
    ensures " " + "12345" == " 12345"
    ensures "12345" + "." + "5" == "12345.5"
  {
  }

  lemma Text123455()
    ensures NumberText(Number(123455, 1)) == "12345.5"
  {
    var x := Number(123455, 1);
    assert Pow10(1) == 10;
    assert x.mantissa / Pow10(1) == 12345 && x.mantissa % Pow10(1) == 5;
    assert NumberText(x) == NatToDecimal(12345) + "." + FixedDigits(5, 1);
    Text12345();
    FixedDigit5();
    PaddedLiterals();
  }

  lemma FixedDigit5()
    ensures FixedDigits(5, 1) == "5"
  {
    assert NatToDecimal(5) == "5";
  }


  /** "12345" is the text of 12345. */
  lemma Text12345()
    ensures AllDigits("12345") && DecimalValue("12345") == 12345
    ensures NatToDecimal(12345) == "12345"
  {
    assert "12345"[..4] == "1234" && "1234"[..3] == "123" && "123"[..2] == "12";
    assert "12"[..1] == "1" && "1"[..0] == "";
    assert DecimalValue("12") == 12;
    assert DecimalValue("1234") == 1234;
    NatToDecimalOfValue("12345");
  }

  /** An integer is accepted exactly when it lies in [10000, 99999999], and then it
      comes back as the eight-digit string that denotes it. */
  lemma ValidExpidOfInteger(n: int)
    ensures MinExpid <= n <= MaxExpid ==>
              ValidExpid(JsInt(n)).ExpidString? && IsExpidForm(ValidExpid(JsInt(n)).s)
              && DecimalValue(ValidExpid(JsInt(n)).s) == n
    ensures !(MinExpid <= n <= MaxExpid) ==> ValidExpid(JsInt(n)) == ExpidNull
  {
    IntegerText(n);
    var s := IntToString(n);
    if IsExpidForm(s) {
      assert ValidExpid(JsInt(n)) == ExpidString(s);
    } else {
      IntegerTextIsJudgedByValue(n);
    }
  }

  /** The text of an integer is eight digits exactly for the integers of eight digits. */
  lemma IntegerText(n: int)
    ensures ToJsString(JsInt(n)) == Success(IntToString(n))
    ensures IsExpidForm(IntToString(n)) <==> 10000000 <= n <= MaxExpid
    ensures IsExpidForm(IntToString(n)) ==> DecimalValue(IntToString(n)) == n
  {
    var s := IntToString(n);
    if n >= 0 {
      NatToDecimalLength(n, 7);
      NatToDecimalLength(n, 8);
    } else {
      assert !IsDigit(s[0]);
    }
  }

  lemma IntegerTextIsJudgedByValue(n: int)
    requires !IsExpidForm(IntToString(n))
    ensures ValidExpid(JsInt(n)) == ExpidOfNumber(Some(Number(n, 0)))
  {
    ToNumberOfIntToString(n);
    assert ToJsString(JsInt(n)) == Success(IntToString(n));
  }

  /** A digit string that is not eight characters long is judged by the number it
      denotes: null outside [10000, 99999999], a padded eight-digit string below
      10000000, and otherwise the number itself rather than a string. */
  lemma ValidExpidOfDigits(s: string)
    requires AllDigits(s) && |s| != 8
    ensures DecimalValue(s) < MinExpid || DecimalValue(s) > MaxExpid ==>
              ValidExpid(JsStr(s)) == ExpidNull
    ensures MinExpid <= DecimalValue(s) < 10000000 ==>
              ValidExpid(JsStr(s)).ExpidString? && DecimalValue(ValidExpid(JsStr(s)).s) == DecimalValue(s)
    ensures 10000000 <= DecimalValue(s) <= MaxExpid ==>
              ValidExpid(JsStr(s)) == ExpidNumber(Number(DecimalValue(s), 0))
  {
    assert ValidExpid(JsStr(s)) == ExpidOfNumber(ToNumber(s));
    assert ToNumber(s) == Some(Number(DecimalValue(s), 0));
  }

  /** Every string `validExpid` returns is a fixed point of it, the padded text of
      a fraction included. */
  lemma ValidExpidIdempotent(v: JsValue)
    requires ValidExpid(v).ExpidString?
    ensures ValidExpid(JsStr(ValidExpid(v).s)) == ValidExpid(v)
  {
    var s := ValidExpid(v).s;
    if !IsExpidForm(s) {
      var n := ToNumber(ToJsString(v).value);
      assert ValidExpid(v) == ExpidOfNumber(n);
      PaddedReadsBack(n.value);
      ValidExpidOfText(s);
    }
  }

  /** A zero-padded string reads back as the number it was made from. */
  lemma PaddedReadsBack(x: Number)
    requires Canonical(x) && ExpidOfNumber(Some(x)).ExpidString?
    ensures ToNumber(ExpidOfNumber(Some(x)).s) == Some(x)
  {
    var zeros := if Below(x, 100000) then "000" else if Below(x, 1000000) then "00" else "0";
    assert ExpidOfNumber(Some(x)).s == zeros + NumberText(x);
    ToNumberOfPaddedText(zeros, x);
  }

  /** The calendar fields of a JavaScript Date that the night conversions use:
      the full year, the zero-based month and the day of the month. */
  datatype CalendarDate = CalendarDate(year: int, monthIndex: int, day: int)

  /** A field written as `dateToNight` writes it: a "0" first when it is below 10. */
  function Pad2(n: int): string {
    (if n < 10 then "0" else "") + IntToString(n)
  }

  /** The night string for a date's fields, as `dateToNight` assembles it. */
  function NightOf(d: CalendarDate): string {
    IntToString(d.year) + Pad2(d.monthIndex + 1) + Pad2(d.day)
  }

  /** `dateToNight(D)`, building the string by successive appends. */
  method DateToNight(d: CalendarDate) returns (night: string)
    requires 0 <= d.monthIndex <= 11 && 1 <= d.day <= 31
    ensures night == NightOf(d)
    ensures 2000 <= d.year <= 2099 ==> MatchesNight(night) && NightToDate(night) == Some(d)
  {
    night := "" + IntToString(d.year);
    assert night == IntToString(d.year);
    night := AppendField(night, d.monthIndex + 1);
    night := AppendField(night, d.day);
    if 2000 <= d.year <= 2099 {
      NightToDateOfNightOf(d);
    }
  }

  /** One field of `dateToNight`: a "0" appended when the number is below 10, then
      the number itself. */
  method AppendField(prefix: string, n: int) returns (r: string)
    ensures r == prefix + Pad2(n)
  {
    r := prefix;
    if n < 10 {
      r := r + "0";
    }
    r := r + IntToString(n);
    AppendPadded(prefix, n);
  }

  /** Appending a "0" below 10 and then the number is appending its Pad2 field. */
  lemma AppendPadded(prefix: string, n: int)
    ensures (if n < 10 then prefix + "0" else prefix) + IntToString(n) == prefix + Pad2(n)
  {
    if n < 10 {
      assert (prefix + "0") + IntToString(n) == prefix + ("0" + IntToString(n));
    } else {
      assert prefix + ("" + IntToString(n)) == prefix + IntToString(n);
    }
  }

  /** `nightToDate(night)`: null unless the night matches the pattern, otherwise the
      year, zero-based month and day read from characters [0,4), [4,6) and [6,8). */
  function NightToDate(night: string): (r: Option<CalendarDate>)
    ensures r.Some? <==> MatchesNight(night)
  {
    if !MatchesNight(night) then None
    else Some(CalendarDate(DecimalValue(night[0..4]), DecimalValue(night[4..6]) - 1,
                           DecimalValue(night[6..8])))
  }

  /** A two-character field written by Pad2 reads back as the number written. */
  lemma Pad2Value(n: int)
    requires 0 <= n < 100
    ensures |Pad2(n)| == 2 && AllDigits(Pad2(n)) && DecimalValue(Pad2(n)) == n
  {
    var digits := NatToDecimal(n);
    NatToDecimalLength(n, 1);
    NatToDecimalLength(n, 2);
    if n < 10 {
      LeadingZerosIgnored("0", digits);
    }
  }

  /** Pad2 rewrites any two-digit field exactly as it was. */
  lemma Pad2OfField(t: string)
    requires |t| == 2 && AllDigits(t)
    ensures Pad2(DecimalValue(t)) == t
  {
    var n := DecimalValue(t);
    assert t == [t[0]] + [t[1]];
    ValueOfConcat([t[0]], [t[1]]);
    if t[0] == '0' {
      NatToDecimalOfValue([t[1]]);
    } else {
      NatToDecimalOfValue(t);
    }
  }

  /** A year in 2000-2099 is written as four digits beginning with "20". */
  lemma YearField(year: int)
    requires 2000 <= year <= 2099
    ensures var y := IntToString(year);
      |y| == 4 && y[0] == '2' && y[1] == '0' && AllDigits(y) && DecimalValue(y) == year
  {
    var decade := year / 10;
    assert decade / 10 == 20;
    assert NatToDecimal(20) == "20";
    var d := NatToDecimal(decade);
    assert d == "20" + [DigitChar(decade % 10)];
    assert IntToString(year) == d + [DigitChar(year % 10)];
  }

  /** For a year in 2000-2099, `dateToNight` yields a night matching the pattern whose
      characters [0,4), [4,6) and [6,8) denote the year, the month and the day. */
  lemma NightOfFields(d: CalendarDate)
    requires 2000 <= d.year <= 2099 && 0 <= d.monthIndex <= 98 && 0 <= d.day <= 99
    ensures MatchesNight(NightOf(d))
    ensures DecimalValue(NightOf(d)[0..4]) == d.year
    ensures DecimalValue(NightOf(d)[4..6]) == d.monthIndex + 1
    ensures DecimalValue(NightOf(d)[6..8]) == d.day
  {
    var y, m, dd := IntToString(d.year), Pad2(d.monthIndex + 1), Pad2(d.day);
    YearField(d.year);
    Pad2Value(d.monthIndex + 1);
    Pad2Value(d.day);
    var night := y + m + dd;
    assert night[0..4] == y && night[4..6] == m && night[6..8] == dd;
    assert forall i :: 0 <= i < 8 ==> IsDigit(night[i]) by {
      forall i | 0 <= i < 8 ensures IsDigit(night[i]) {
        if i < 4 { assert night[i] == y[i]; }
        else if i < 6 { assert night[i] == m[i - 4]; }
        else { assert night[i] == dd[i - 6]; }
      }
    }
  }

  /** Round trip from the date side: the fields `nightToDate` reads back from the
      night of a date are the date's own. */
  lemma NightToDateOfNightOf(d: CalendarDate)
    requires 2000 <= d.year <= 2099 && 0 <= d.monthIndex <= 98 && 0 <= d.day <= 99
    ensures NightToDate(NightOf(d)) == Some(d)
  {
    NightOfFields(d);
  }

  /** Round trip from the night side: every night matching the pattern is the
      night of the fields `nightToDate` reads from it. */
  lemma NightOfNightToDate(night: string)
    requires MatchesNight(night)
    ensures NightToDate(night).Some? && NightOf(NightToDate(night).value) == night
  {
    var d := NightToDate(night).value;
    var y := night[0..4];
    NatToDecimalOfValue(y);
    Pad2OfField(night[4..6]);
    Pad2OfField(night[6..8]);
    assert night == y + night[4..6] + night[6..8];
  }
}
