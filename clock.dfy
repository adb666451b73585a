/** `localTime`: the clock text shown next to the setup and park exposures. It moves
    the instant back a fixed seven hours and prints UTC fields of the result. The
    instant is integer milliseconds since the epoch; parsing the ISO text into it
    is outside the model (None stands for text that does not parse). */
module Clock {

  import opened Results
  import opened Decimal

  const MsPerSecond: int := 1000
  const MsPerMinute: int := 60000
  const MsPerHour: int := 3600000
  const MsPerDay: int := 86400000

  /** The fixed offset subtracted from every instant: 7 * 3600 * 1000. */
  const LocalOffsetMs: int := 7 * 3600 * 1000

  /** The largest distance from the epoch a JavaScript Date can hold. */
  const MaxTimeMs: int := 8640000000000000

  /** A Date built from t is valid (not NaN). */
  predicate ValidTime(t: int) {
    -MaxTimeMs <= t <= MaxTimeMs
  }

  /** `getUTCHours()`, with the floor-based day arithmetic Dates use for times
      before the epoch too. */
  function UtcHours(t: int): (h: nat)
    ensures h < 24
    ensures h == (t / MsPerHour) % 24
  {
    NestedFloor(t, MsPerHour, 24);
    (t % MsPerDay) / MsPerHour
  }

  /** `getUTCMinutes()`. */
  function UtcMinutes(t: int): (m: nat)
    ensures m < 60
    ensures m == (t / MsPerMinute) % 60
  {
    NestedFloor(t, MsPerMinute, 60);
    (t % MsPerHour) / MsPerMinute
  }

  /** `getUTCSeconds()`. */
  function UtcSeconds(t: int): (s: nat)
    ensures s < 60
    ensures s == (t / MsPerSecond) % 60
  {
    NestedFloor(t, MsPerSecond, 60);
    (t % MsPerMinute) / MsPerSecond
  }

  /** Counting whole units of `a` within the current block of `b` units is the same
      as counting whole units and taking them modulo `b`: the time of day read from
      the remainder agrees with the field definitions of ECMAScript's Date. */
  lemma NestedFloor(t: int, a: int, b: int)
    requires a > 0 && b > 0
    ensures (t % (a * b)) / a == (t / a) % b
  {
    var q, r := t / (a * b), t % (a * b);
    var u, v := r / a, r % a;
    assert t == q * (a * b) + r && 0 <= r < a * b;
    assert r == u * a + v && 0 <= v < a;
    assert 0 <= u < b by {
      BelowProduct(r, a, b);
    }
    assert t == (q * b + u) * a + v;
    DivModUnique(t, a, q * b + u, v);
    DivModUnique(q * b + u, b, q, u);
  }

  lemma BelowProduct(r: int, a: int, b: int)
    requires a > 0 && 0 <= r < a * b
    ensures 0 <= r / a < b
  {
    if r / a >= b {
      MulAtLeast(r / a, b, a);
    }
  }

  lemma MulAtLeast(x: int, y: int, a: int)
    requires a > 0 && x >= y
    ensures x * a >= y * a
  {
  }

  /** The quotient and remainder of a floor division are the only ones. */
  lemma DivModUnique(t: int, a: int, k: int, v: int)
    requires a > 0 && 0 <= v < a && t == k * a + v
    ensures t / a == k && t % a == v
  {
    var k', v' := t / a, t % a;
    assert t == k' * a + v' && 0 <= v' < a;
    if k > k' {
      MulAtLeast(k, k' + 1, a);
    } else if k < k' {
      MulAtLeast(k', k + 1, a);
    }
  }

  /** The `zpad` helper: `n.toFixed(0)`, with a "0" in front when that is one
      character. Every field it pads is below 100, where `SmallDecimal` is that
      rendering (`SmallDecimalIsNatToDecimal`). */
  function ZPad(n: nat): (s: string)
    requires n < 100
    ensures |s| == 2
    ensures s[0] == '0' <==> n < 10
  {
    var s := SmallDecimal(n);
    if |s| == 1 then "0" + s else s
  }

  /** The text every field becomes for an invalid Date. */
  const InvalidText: string := "NaN:NaN:NaN local"

  /** The shape both versions print: a first field unpadded (`toString()`), then
      two zero-padded fields. */
  function ClockString(first: nat, second: nat, third: nat): string
    requires first < 100 && second < 100 && third < 100
  {
    SmallDecimal(first) + ":" + ZPad(second) + ":" + ZPad(third) + " local"
  }

  /** A printed clock starts with a digit, so it is never the text of an invalid Date. */
  lemma ClockStringIsValid(first: nat, second: nat, third: nat)
    requires first < 100 && second < 100 && third < 100
    ensures ClockString(first, second, third) != InvalidText
  {
    assert ClockString(first, second, third)[0] == SmallDecimal(first)[0];
    assert InvalidText[0] == 'N';
  }

  /** `localTime(dateString)` as written: the hour unpadded, then the hour again
      zero-padded where the minutes belong, then the seconds zero-padded. */
  function LocalTime(time: Option<int>): (r: string)
    ensures r == InvalidText <==> time.None? || !ValidTime(time.value) || !ValidTime(time.value - LocalOffsetMs)
  {
    match time
    case None => InvalidText
    case Some(t) =>
      var local := t - LocalOffsetMs;
      if !ValidTime(t) || !ValidTime(local) then InvalidText
      else
        ClockStringIsValid(UtcHours(local), UtcHours(local), UtcSeconds(local));
        ClockString(UtcHours(local), UtcHours(local), UtcSeconds(local))
  }

  /** `localTime` as evidently intended: the middle field is the minutes. */
  function LocalTimeIntended(time: Option<int>): (r: string)
    ensures r == InvalidText <==> time.None? || !ValidTime(time.value) || !ValidTime(time.value - LocalOffsetMs)
  {
    match time
    case None => InvalidText
    case Some(t) =>
      var local := t - LocalOffsetMs;
      if !ValidTime(t) || !ValidTime(local) then InvalidText
      else
        ClockStringIsValid(UtcHours(local), UtcMinutes(local), UtcSeconds(local));
        ClockString(UtcHours(local), UtcMinutes(local), UtcSeconds(local))
  }

  /** `zpad` of a number below 100 is two digits that read back as the number. */
  lemma ZPadValue(n: nat)
    requires n < 100
    ensures |ZPad(n)| == 2 && AllDigits(ZPad(n)) && DecimalValue(ZPad(n)) == n
  {
    SmallDecimalIsNatToDecimal(n);
    if n < 10 {
      LeadingZerosIgnored("0", SmallDecimal(n));
    }
  }

  /** Reading the text back: a field of one or two digits without a leading zero
      that denotes `first`, a colon, two digits denoting `second`, a colon, two digits denoting `third`,
      then " local". */
  predicate ClockText(r: string, first: nat, second: nat, third: nat) {
    var p := |r| - 12;
    && (p == 1 || p == 2)
    && AllDigits(r[..p]) && DecimalValue(r[..p]) == first
    && (p == 2 ==> r[0] != '0')
    && r[p] == ':'
    && AllDigits(r[p + 1..p + 3]) && DecimalValue(r[p + 1..p + 3]) == second
    && r[p + 3] == ':'
    && AllDigits(r[p + 4..p + 6]) && DecimalValue(r[p + 4..p + 6]) == third
    && r[p + 6..] == " local"
  }

  lemma ClockTextOf(h: nat, a: nat, b: nat)
    requires h < 24 && a < 100 && b < 100
    ensures ClockText(ClockString(h, a, b), h, a, b)
  {
    var hs, sa, sb := SmallDecimal(h), ZPad(a), ZPad(b);
    SmallDecimalIsNatToDecimal(h);
    ZPadValue(a);
    ZPadValue(b);
    var r := ClockString(h, a, b);
    assert r == hs + ":" + sa + ":" + sb + " local";
    var p := |hs|;
    assert |r| == p + 12;
    assert r[..p] == hs;
    assert r[p] == ':';
    assert r[p + 1] == sa[0] && r[p + 2] == sa[1];
    assert r[p + 1..p + 3] == sa;
    assert r[p + 3] == ':';
    assert r[p + 4] == sb[0] && r[p + 5] == sb[1];
    assert r[p + 4..p + 6] == sb;
    assert r[p + 6..] == " local";
  }

  lemma LocalTimeIs(t: int)
    requires ValidTime(t) && ValidTime(t - LocalOffsetMs)
    ensures var local := t - LocalOffsetMs;
      LocalTime(Some(t)) == ClockString(UtcHours(local), UtcHours(local), UtcSeconds(local))
  {
  }

  lemma LocalTimeIntendedIs(t: int)
    requires ValidTime(t) && ValidTime(t - LocalOffsetMs)
    ensures var local := t - LocalOffsetMs;
      LocalTimeIntended(Some(t)) == ClockString(UtcHours(local), UtcMinutes(local), UtcSeconds(local))
  {
  }

  /** For a valid instant, the text shows the hour seven hours earlier unpadded, the
      same hour again padded to two digits, and that instant's seconds. */
  lemma LocalTimeFields(t: int)
    requires ValidTime(t) && ValidTime(t - LocalOffsetMs)
    ensures var local := t - LocalOffsetMs;
      ClockText(LocalTime(Some(t)), UtcHours(local), UtcHours(local), UtcSeconds(local))
  {
    var local := t - LocalOffsetMs;
    ClockTextOf(UtcHours(local), UtcHours(local), UtcSeconds(local));
    LocalTimeIs(t);
  }

  /** The intended text shows the hour, the minutes and the seconds. */
  lemma LocalTimeIntendedFields(t: int)
    requires ValidTime(t) && ValidTime(t - LocalOffsetMs)
    ensures var local := t - LocalOffsetMs;
      ClockText(LocalTimeIntended(Some(t)), UtcHours(local), UtcMinutes(local), UtcSeconds(local))
  {
    var local := t - LocalOffsetMs;
    ClockTextOf(UtcHours(local), UtcMinutes(local), UtcSeconds(local));
    LocalTimeIntendedIs(t);
  }

  lemma ClockStringsNearMidnight()
    ensures ClockString(0, 0, 0) == "0:00:00 local"
    ensures ClockString(0, 1, 0) == "0:01:00 local"
  {
    assert SmallDecimal(0) == "0" && SmallDecimal(1) == "1";
    assert ZPad(0) == "00" && ZPad(1) == "01";
  }

  /** As written, the minutes never reach the text: one minute past the (shifted)
      epoch reads the same as the epoch itself, "0:00:00 local", where the intended
      text reads "0:01:00 local". */
  lemma MinutesAreLost()
    ensures LocalTime(Some(LocalOffsetMs + MsPerMinute)) == LocalTime(Some(LocalOffsetMs))
    ensures LocalTime(Some(LocalOffsetMs)) == "0:00:00 local"
    ensures LocalTimeIntended(Some(LocalOffsetMs + MsPerMinute)) == "0:01:00 local"
  {
    LocalTimeIs(LocalOffsetMs + MsPerMinute);
    LocalTimeIs(LocalOffsetMs);
    LocalTimeIntendedIs(LocalOffsetMs + MsPerMinute);
    assert UtcHours(MsPerMinute) == 0 && UtcSeconds(MsPerMinute) == 0 && UtcMinutes(MsPerMinute) == 1;
    assert UtcHours(0) == 0 && UtcSeconds(0) == 0;
    ClockStringsNearMidnight();
  }
}
