/** `parse_sms_block` and `compute_financial_metrics`: bank SMS lines become transaction
    records, and the records become a monthly summary and a health score. A `float()` or
    `strptime` that raises makes the whole parse a `Failure`, as the exception does. */
module SmsParser {
  import opened Wrappers
  import opened Text
  import opened Numeric
  import opened SmsPattern

  // ---------------------------------------------------------------- amounts

  function DigitValue(c: char): (v: nat)
    requires InClass(c, Digit)
    ensures v <= 9
  {
    c as int - '0' as int
  }

  function DigitChar(v: nat): (c: char)
    requires v <= 9
    ensures InClass(c, Digit) && DigitValue(c) == v
  {
    ('0' as int + v) as char
  }

  /** The value of a string of decimal digits, most significant first. */
  function DigitsValue(t: string): nat
    requires AllOf(t, Digit)
  {
    if t == [] then 0 else DigitsValue(t[..|t| - 1]) * 10 + DigitValue(t[|t| - 1])
  }

  function Pow10(n: nat): (r: nat)
    ensures r >= 1
  {
    if n == 0 then 1 else 10 * Pow10(n - 1)
  }

  /** `t.replace(",", "")`. */
  function RemoveCommas(t: string): (r: string)
    ensures forall i :: 0 <= i < |r| ==> r[i] != ','
    ensures |r| <= |t|
  {
    if t == [] then [] else (if t[0] == ',' then [] else [t[0]]) + RemoveCommas(t[1..])
  }

  lemma {:induction false} RemoveCommasConcat(a: string, b: string)
    ensures RemoveCommas(a + b) == RemoveCommas(a) + RemoveCommas(b)
  {
    if a == [] {
      assert a + b == b;
    } else {
      assert (a + b)[0] == a[0];
      assert (a + b)[1..] == a[1..] + b;
      RemoveCommasConcat(a[1..], b);
    }
  }

  /** A string with no comma is left as it is. */
  lemma {:induction false} RemoveCommasNone(t: string)
    requires forall i :: 0 <= i < |t| ==> t[i] != ','
    ensures RemoveCommas(t) == t
  {
    if t != [] {
      RemoveCommasNone(t[1..]);
    }
  }

  /** Removing the commas of digits and commas leaves exactly the digits. */
  lemma {:induction false} RemoveCommasDigits(t: string)
    requires AllOf(t, AmountChar)
    ensures AllOf(RemoveCommas(t), Digit)
    ensures RemoveCommas(t) == [] <==> forall i :: 0 <= i < |t| ==> t[i] == ','
  {
    if t != [] {
      RemoveCommasDigits(t[1..]);
      if t[0] != ',' {
        assert RemoveCommas(t)[0] == t[0];
      } else {
        forall i | 0 < i < |t| ensures t[i] == t[1..][i - 1] {}
      }
    }
  }

  /** `v / 10^n`, one decimal place at a time. */
  function Shifted(v: real, n: nat): (r: real)
    ensures v >= 0.0 ==> r >= 0.0
  {
    if n == 0 then v else Shifted(v, n - 1) / 10.0
  }

  /** Python's `float(t)` on a string of digits with at most one `.`: at least one digit
      is needed, on either side of the point; any other string is refused. */
  function ParseDecimal(t: string): (r: Option<real>)
    ensures r.Some? ==> r.value >= 0.0
  {
    match FindFrom(t, ".", 0)
    case None =>
      if t != [] && AllOf(t, Digit) then Some(DigitsValue(t) as real) else None
    case Some(k) => PointValue(t[..k], t[k + 1..])
  }

  /** The value of the digits `whole` before the first `.` and `frac` after it. */
  function PointValue(whole: string, frac: string): (r: Option<real>)
    ensures r.Some? ==> r.value >= 0.0
  {
    if AllOf(whole, Digit) && AllOf(frac, Digit) && |whole| + |frac| > 0
    then Some(DigitsValue(whole) as real + Shifted(DigitsValue(frac) as real, |frac|))
    else None
  }

  /** `float(match.group("amount").replace(",", ""))`. */
  function ParseAmount(g: string): Option<real> {
    ParseDecimal(RemoveCommas(g))
  }

  lemma {:induction false} NoDotInDigits(t: string)
    requires AllOf(t, Digit)
    ensures FindFrom(t, ".", 0).None?
  {
    forall j: nat ensures !OccursAt(t, ".", j) {
      if j + 1 <= |t| { assert t[j..j + 1][0] == t[j]; }
    }
  }

  /** The first `.` of `a + "." + b`, where `a` has none, is at `|a|`. */
  lemma {:induction false} DotAfterDigits(a: string, b: string)
    requires AllOf(a, Digit)
    ensures FindFrom(a + "." + b, ".", 0) == Some(|a|)
  {
    var t := a + "." + b;
    assert OccursAt(t, ".", |a|) by { assert t[|a|..|a| + 1] == "."; }
    forall j: nat | j < |a| ensures !OccursAt(t, ".", j) {
      assert t[j..j + 1][0] == a[j];
    }
  }

  /** A digit character anywhere in `g`. */
  ghost predicate HasDigit(g: string) {
    exists i :: 0 <= i < |g| && InClass(g[i], Digit)
  }

  /** The text of an `amount` group converts exactly when it holds a digit, so an amount
      group made of commas (and perhaps a `.`) raises in `float()`. */
  lemma {:induction false} AmountParsesIff(g: string)
    requires AmountShaped(g)
    ensures ParseAmount(g).Some? <==> HasDigit(g)
  {
    var a, m, d := AmountParts(g);
    RemoveCommasParts(a, m, d);
    HasDigitParts(a, m, d);
    RemoveCommasDigits(a);
    DecimalParts(RemoveCommas(a), m, d);
  }

  /** An amount text split into its digits and commas, its optional `.` and its decimals. */
  lemma {:induction false} AmountParts(g: string) returns (a: string, m: string, d: string)
    requires AmountShaped(g)
    ensures g == a + m + d && AllOf(a, AmountChar) && (m == [] || m == ".") && AllOf(d, Digit)
  {
    var k1, k2 :| 1 <= k1 <= k2 <= |g| && k2 <= k1 + 1 && |g| <= k2 + 2
                  && AllOf(g[..k1], AmountChar) && (k2 == k1 + 1 ==> g[k1] == '.')
                  && AllOf(g[k2..], Digit);
    a, m, d := g[..k1], g[k1..k2], g[k2..];
    ThreeSlices(g, k1, k2);
    DotSlice(g, k1, k2);
  }

  lemma {:induction false} ThreeSlices(g: string, k1: nat, k2: nat)
    requires k1 <= k2 <= |g|
    ensures g == g[..k1] + g[k1..k2] + g[k2..]
  {
    assert g[..k2] == g[..k1] + g[k1..k2];
    assert g == g[..k2] + g[k2..];
  }

  lemma {:induction false} DotSlice(g: string, k1: nat, k2: nat)
    requires k1 <= k2 <= |g| && k2 <= k1 + 1 && (k2 == k1 + 1 ==> g[k1] == '.')
    ensures g[k1..k2] == [] || g[k1..k2] == "."
  {
    if k2 == k1 + 1 {
      assert g[k1..k2] == [g[k1]];
    } else {
      assert |g[k1..k2]| == 0;
    }
  }

  lemma {:induction false} RemoveCommasParts(a: string, m: string, d: string)
    requires (m == [] || m == ".") && AllOf(d, Digit)
    ensures RemoveCommas(a + m + d) == RemoveCommas(a) + m + d
  {
    RemoveCommasConcat(a + m, d);
    RemoveCommasConcat(a, m);
    RemoveCommasNone(m);
    RemoveCommasNone(d);
  }

  lemma {:induction false} HasDigitParts(a: string, m: string, d: string)
    requires AllOf(a, AmountChar) && (m == [] || m == ".") && AllOf(d, Digit)
    ensures HasDigit(a + m + d) <==> RemoveCommas(a) != [] || d != []
  {
    var g := a + m + d;
    RemoveCommasDigits(a);
    if RemoveCommas(a) != [] {
      var i :| 0 <= i < |a| && a[i] != ',';
      assert g[i] == a[i];
    }
    if d != [] { assert g[|a| + |m|] == d[0]; }
    if HasDigit(g) {
      var i :| 0 <= i < |g| && InClass(g[i], Digit);
      if i < |a| { assert a[i] == g[i]; }
      else if i < |a| + |m| { assert g[i] == '.'; }
    }
  }

  lemma {:induction false} DecimalParts(a: string, m: string, d: string)
    requires AllOf(a, Digit) && (m == [] || m == ".") && AllOf(d, Digit)
    ensures ParseDecimal(a + m + d).Some? <==> a != [] || d != []
  {
    if m == [] {
      assert a + m + d == a + d;
      NoDotInDigits(a + d);
    } else {
      assert a + m + d == a + "." + d;
      DotAfterDigits(a, d);
      assert (a + "." + d)[..|a|] == a;
      assert (a + "." + d)[|a| + 1..] == d;
    }
  }

  /** The decimal digits of `n`, no leading zero. */
  function NatText(n: nat): (t: string)
    ensures |t| >= 1 && AllOf(t, Digit)
  {
    if n < 10 then [DigitChar(n)] else NatText(n / 10) + [DigitChar(n % 10)]
  }

  lemma {:induction false} NatTextValue(n: nat)
    ensures DigitsValue(NatText(n)) == n
  {
    if n >= 10 {
      NatTextValue(n / 10);
      var t := NatText(n);
      assert t[..|t| - 1] == NatText(n / 10);
    }
  }

  /** `n` written with exactly `w` digits, zero-padded: `"%0wd" % n` for `n < 10^w`. */
  function PadDigits(n: nat, w: nat): (t: string)
    ensures |t| == w && AllOf(t, Digit)
  {
    if w == 0 then [] else PadDigits(n / 10, w - 1) + [DigitChar(n % 10)]
  }

  lemma {:induction false} PadDigitsValue(n: nat, w: nat)
    requires n < Pow10(w)
    ensures DigitsValue(PadDigits(n, w)) == n
  {
    if w > 0 {
      var q, r := n / 10, n % 10;
      assert n == q * 10 + r;
      assert q < Pow10(w - 1);
      PadDigitsValue(q, w - 1);
      var t := PadDigits(n, w);
      assert t[..|t| - 1] == PadDigits(q, w - 1);
      assert DigitValue(t[|t| - 1]) == r;
    }
  }

  /** The amounts `float()` gives back for text in rupees and paise. */
  lemma {:induction false} ParseDecimalRupees(n: nat)
    ensures ParseDecimal(NatText(n)) == Some(n as real)
  {
    NoDotInDigits(NatText(n));
    NatTextValue(n);
  }

  lemma {:induction false} ParseDecimalPaise(n: nat, paise: nat)
    requires paise < 100
    ensures ParseDecimal(NatText(n) + "." + PadDigits(paise, 2)) == Some(n as real + paise as real / 100.0)
  {
    var a, d := NatText(n), PadDigits(paise, 2);
    DecimalWithDot(a, d);
    NatTextValue(n);
    PadDigitsValue(paise, 2);
    var v := paise as real;
    assert Shifted(v, 1) == v / 10.0;
    assert Shifted(v, 2) == Shifted(v, 1) / 10.0;
  }

  /** Digits, a `.` and digits read as the whole part plus the scaled fraction. */
  lemma {:induction false} DecimalWithDot(a: string, d: string)
    requires AllOf(a, Digit) && AllOf(d, Digit) && |a| + |d| > 0
    ensures ParseDecimal(a + "." + d) == Some(DigitsValue(a) as real + Shifted(DigitsValue(d) as real, |d|))
  {
    var t := a + "." + d;
    DotAfterDigits(a, d);
    assert t[..|a|] == a && t[|a| + 1..] == d;
    assert ParseDecimal(t) == PointValue(a, d);
    PointValueDigits(a, d);
  }

  lemma {:induction false} PointValueDigits(a: string, d: string)
    requires AllOf(a, Digit) && AllOf(d, Digit) && |a| + |d| > 0
    ensures PointValue(a, d) == Some(DigitsValue(a) as real + Shifted(DigitsValue(d) as real, |d|))
  {
  }

  // ---------------------------------------------------------------- dates

  datatype Date = Date(year: int, month: int, day: int)

  predicate IsLeap(y: int) {
    y % 4 == 0 && (y % 100 != 0 || y % 400 == 0)
  }

  function DaysInMonth(y: int, m: int): (d: int)
    requires 1 <= m <= 12
    ensures 28 <= d <= 31
  {
    if m == 2 then (if IsLeap(y) then 29 else 28)
    else if m == 4 || m == 6 || m == 9 || m == 11 then 30
    else 31
  }

  /** The dates Python's `datetime.date` accepts. */
  predicate ValidDate(d: Date) {
    1 <= d.year <= 9999 && 1 <= d.month <= 12 && 1 <= d.day <= DaysInMonth(d.year, d.month)
  }

  /** The month abbreviations `%b` accepts in the C locale, lower case. */
  const MonthNames: seq<string> :=
    ["jan", "feb", "mar", "apr", "may", "jun", "jul", "aug", "sep", "oct", "nov", "dec"]

  datatype DateError =
    | DoesNotMatchFormat       // "time data ... does not match format"
    | UnconvertedDataRemains   // "unconverted data remains"
    | DayOutOfRange            // "day is out of range for month"

  predicate NonZeroDigit(c: char) {
    '1' <= c <= '9'
  }

  /** Alternative `alt` of the `%d` regex `3[01]|[12]\d|0[1-9]|[1-9]| [1-9]` at the start
      of `t`: the day and the length matched. */
  function DayAlternative(t: string, alt: nat): (r: Option<(nat, nat)>)
    ensures r.Some? ==> 1 <= r.value.0 <= 31 && 1 <= r.value.1 <= 2 && r.value.1 <= |t|
  {
    if alt == 0 then
      if |t| >= 2 && t[0] == '3' && (t[1] == '0' || t[1] == '1') then Some((30 + DigitValue(t[1]), 2)) else None
    else if alt == 1 then
      if |t| >= 2 && (t[0] == '1' || t[0] == '2') && InClass(t[1], Digit)
      then Some((10 * DigitValue(t[0]) + DigitValue(t[1]), 2)) else None
    else if alt == 2 then
      if |t| >= 2 && t[0] == '0' && NonZeroDigit(t[1]) then Some((DigitValue(t[1]), 2)) else None
    else if alt == 3 then
      if |t| >= 1 && NonZeroDigit(t[0]) then Some((DigitValue(t[0]), 1)) else None
    else if alt == 4 then
      if |t| >= 2 && t[0] == ' ' && NonZeroDigit(t[1]) then Some((DigitValue(t[1]), 2)) else None
    else None
  }

  /** The first of `MonthNames[k..]` at `i`, ignoring case, as a month number. */
  function MonthAt(t: string, i: nat, k: nat): (r: Option<nat>)
    ensures r.Some? ==> k + 1 <= r.value <= 12 && LitAt(t, i, MonthNames[r.value - 1])
    ensures r.None? ==> forall m :: k <= m < 12 ==> !LitAt(t, i, MonthNames[m])
    decreases 12 - k
  {
    if k >= 12 then None
    else if LitAt(t, i, MonthNames[k]) then Some(k + 1)
    else MonthAt(t, i, k + 1)
  }

  /** What the `%d%b%y` regex captures: day, month, two-digit year and where it ends. */
  datatype DateFields = DateFields(day: nat, month: nat, yy: nat, end: nat)

  /** The `%d%b%y` regex with day alternative `alt`; `%y` is `\d\d`. */
  function MatchDateWith(t: string, alt: nat): (r: Option<DateFields>)
    ensures r.Some? ==> 1 <= r.value.day <= 31 && 1 <= r.value.month <= 12 && r.value.yy <= 99
    ensures r.Some? ==> r.value.end <= |t|
    ensures r.Some? ==> DayAlternative(t, alt).Some? && r.value.end == DayAlternative(t, alt).value.1 + 5
                        && LitAt(t, DayAlternative(t, alt).value.1, MonthNames[r.value.month - 1])
  {
    match DayAlternative(t, alt)
    case None => None
    case Some((day, n)) =>
      match MonthAt(t, n, 0)
      case None => None
      case Some(month) =>
        if n + 5 <= |t| && InClass(t[n + 3], Digit) && InClass(t[n + 4], Digit)
        then Some(DateFields(day, month, 10 * DigitValue(t[n + 3]) + DigitValue(t[n + 4]), n + 5))
        else None
  }

  /** The `%d%b%y` regex, trying the day alternatives from `alt` on, in order. */
  function MatchDateFrom(t: string, alt: nat): (r: Option<DateFields>)
    ensures r.Some? ==> 1 <= r.value.day <= 31 && 1 <= r.value.month <= 12 && r.value.yy <= 99
    ensures r.Some? ==> r.value.end <= |t|
    ensures r.Some? ==> exists a :: alt <= a < 5 && MatchDateWith(t, a) == r
    decreases 5 - alt
  {
    if alt >= 5 then None
    else OrElse(MatchDateWith(t, alt), MatchDateFrom(t, alt + 1))
  }

  /** `%y`: 69..99 are 1969..1999, 00..68 are 2000..2068. */
  function Century(yy: nat): (y: int)
    requires yy <= 99
    ensures 1969 <= y <= 2068 && y % 100 == yy
  {
    if yy <= 68 then 2000 + yy else 1900 + yy
  }

  /** `datetime.strptime(t, "%d%b%y").date()`. */
  function ParseSmsDate(t: string): (r: Result<Date, DateError>)
    ensures r.Success? ==> ValidDate(r.value) && 1969 <= r.value.year <= 2068
  {
    match MatchDateFrom(t, 0)
    case None => Failure(DoesNotMatchFormat)
    case Some(m) =>
      if m.end != |t| then Failure(UnconvertedDataRemains)
      else
        var y := Century(m.yy);
        if m.day <= DaysInMonth(y, m.month) then Success(Date(y, m.month, m.day))
        else Failure(DayOutOfRange)
  }

  const MonthTitles: seq<string> :=
    ["Jan", "Feb", "Mar", "Apr", "May", "Jun", "Jul", "Aug", "Sep", "Oct", "Nov", "Dec"]

  /** A date as bank messages write it: `05Jan24`. */
  function FormatSmsDate(d: Date): (t: string)
    requires ValidDate(d)
    ensures |t| == 7
  {
    PadDigits(d.day, 2) + MonthTitles[d.month - 1] + PadDigits(d.year % 100, 2)
  }

  lemma {:induction false} TwoDigits(n: nat)
    requires n < 100
    ensures PadDigits(n, 2) == [DigitChar(n / 10), DigitChar(n % 10)]
  {
    var q := n / 10;
    assert q < 10;
    assert q % 10 == q;
    assert PadDigits(q, 1) == PadDigits(q / 10, 0) + [DigitChar(q % 10)];
  }

  lemma {:induction false} MonthNamesLetters()
    ensures forall k :: 0 <= k < 12 ==> |MonthNames[k]| == 3 && 'a' <= MonthNames[k][0] <= 'z'
  {
  }

  lemma {:induction false} MonthTitlesLower(k: nat)
    requires k < 12
    ensures Lower(MonthTitles[k]) == MonthNames[k]
  {
    var ti := MonthTitles[k];
    assert |ti| == 3;
    assert Lower(ti) == [LowerChar(ti[0]), LowerChar(ti[1]), LowerChar(ti[2])];
  }

  lemma {:induction false} MonthNamesDistinct()
    ensures forall a, b :: 0 <= a < b < 12 ==> MonthNames[a] != MonthNames[b]
  {
  }

  /** `%b` reads a month abbreviation, in any case, as its month. */
  lemma {:induction false} MonthAtName(t: string, i: nat, month: nat)
    requires 1 <= month <= 12 && i + 3 <= |t| && Lower(t[i..i + 3]) == MonthNames[month - 1]
    ensures MonthAt(t, i, 0) == Some(month)
  {
    MonthNamesLetters();
    MonthNamesDistinct();
    LitAtLower(t, i, MonthNames[month - 1]);
    var r := MonthAt(t, i, 0);
    if r.Some? {
      LitAtSame(t, i, MonthNames[r.value - 1], MonthNames[month - 1]);
    }
  }

  /** Two texts of the same length both read at `i` are the same. */
  lemma {:induction false} LitAtSame(t: string, i: nat, x: string, y: string)
    requires |x| == |y| && LitAt(t, i, x) && LitAt(t, i, y)
    ensures x == y
  {
    LitAtLower(t, i, x);
    LitAtLower(t, i, y);
  }

  /** `%y` as the inverse of writing the last two digits of a year in 1969..2068. */
  lemma {:induction false} CenturyOfYear(y: int)
    requires 1969 <= y <= 2068
    ensures Century(y % 100) == y
  {
  }

  /** Which `%d` alternative reads a zero-padded day, and that none before it does. */
  lemma {:induction false} DayOfPadded(t: string, day: nat) returns (alt: nat)
    requires 1 <= day <= 31 && |t| >= 2 && t[..2] == PadDigits(day, 2)
    ensures alt < 5 && DayAlternative(t, alt) == Some((day, 2))
    ensures forall a :: 0 <= a < alt ==> DayAlternative(t, a).None?
  {
    TwoDigits(day);
    assert t[0] == DigitChar(day / 10) && t[1] == DigitChar(day % 10);
    alt := if day >= 30 then 0 else if day >= 10 then 1 else 2;
  }

  /** Every date a bank message can carry, written as `05Jan24`, is read back by
      `strptime(..., "%d%b%y")` as that date. */
  lemma {:induction false} ParseFormatSmsDate(d: Date)
    requires ValidDate(d) && 1969 <= d.year <= 2068
    ensures ParseSmsDate(FormatSmsDate(d)) == Success(d)
  {
    FormattedFields(d);
    CenturyOfYear(d.year);
  }

  lemma {:induction false} FormattedFields(d: Date)
    requires ValidDate(d)
    ensures MatchDateFrom(FormatSmsDate(d), 0) == Some(DateFields(d.day, d.month, d.year % 100, 7))
  {
    var t := FormatSmsDate(d);
    var yy := d.year % 100;
    assert t[..2] == PadDigits(d.day, 2);
    assert t[2..5] == MonthTitles[d.month - 1];
    assert t[5..] == PadDigits(yy, 2);
    TwoDigits(yy);
    assert t[5] == DigitChar(yy / 10) && t[6] == DigitChar(yy % 10);
    MonthTitlesLower(d.month - 1);
    MonthAtName(t, 2, d.month);
    var alt := DayOfPadded(t, d.day);
    MatchWithParts(t, alt, d.day, d.month, yy);
    MatchDateSkip(t, 0, alt);
  }

  lemma {:induction false} MatchWithParts(t: string, alt: nat, day: nat, month: nat, yy: nat)
    requires |t| == 7 && yy < 100 && DayAlternative(t, alt) == Some((day, 2)) && MonthAt(t, 2, 0) == Some(month)
    requires t[5] == DigitChar(yy / 10) && t[6] == DigitChar(yy % 10)
    ensures MatchDateWith(t, alt) == Some(DateFields(day, month, yy, 7))
  {
    assert 10 * DigitValue(t[5]) + DigitValue(t[6]) == yy;
  }

  /** Alternatives whose day part fails are skipped. */
  lemma {:induction false} MatchDateSkip(t: string, from: nat, alt: nat)
    requires from <= alt < 5 && MatchDateWith(t, alt).Some?
    requires forall a :: from <= a < alt ==> DayAlternative(t, a).None?
    ensures MatchDateFrom(t, from) == MatchDateWith(t, alt)
    decreases alt - from
  {
    if from < alt { MatchDateSkip(t, from + 1, alt); }
  }

  /** On the text of a `date` group the `%d%b%y` regex, when it matches at all, takes all
      of it: the group never leaves unconverted data behind. */
  lemma {:induction false} DateGroupConsumed(g: string)
    requires DateShaped(g)
    ensures ParseSmsDate(g) != Failure(UnconvertedDataRemains)
  {
    DateGroupMatchEnds(g);
  }

  /** A match of the `%d%b%y` regex on a date group ends at the group's end. */
  lemma {:induction false} DateGroupMatchEnds(g: string)
    requires DateShaped(g)
    ensures var m := MatchDateFrom(g, 0); m.Some? ==> m.value.end == |g|
  {
    var n :| 1 <= n <= 2 && |g| == n + 5
             && AllOf(g[..n], Digit) && AllOf(g[n..n + 3], Letter) && AllOf(g[n + 3..], Digit);
    var m := MatchDateFrom(g, 0);
    if m.Some? {
      var a :| 0 <= a < 5 && MatchDateWith(g, a) == m;
      MatchWithEnds(g, n, a);
    }
  }

  /** A match with any day alternative on a text of `n` digits, three letters and two
      digits ends at its end. */
  lemma {:induction false} MatchWithEnds(g: string, n: nat, a: nat)
    requires 1 <= n <= 2 && |g| == n + 5 && AllOf(g[..n], Digit) && AllOf(g[n..n + 3], Letter)
    ensures var r := MatchDateWith(g, a); r.Some? ==> r.value.end == |g|
  {
    var r := MatchDateWith(g, a);
    if r.Some? {
      var len := DayAlternative(g, a).value.1;
      MonthStartsLetter(g, len, r.value.month);
      DayLength(g, n, a);
    }
  }

  /** The day alternatives read all of the leading digits when a non-digit follows. */
  lemma {:induction false} DayLength(g: string, n: nat, a: nat)
    requires 1 <= n <= 2 && |g| == n + 5 && AllOf(g[..n], Digit) && AllOf(g[n..n + 3], Letter)
    ensures var d := DayAlternative(g, a);
            d.Some? && !InClass(g[d.value.1], Digit) ==> d.value.1 == n
  {
    assert InClass(g[n..n + 3][0], Letter);
    if n == 2 {
      assert InClass(g[..n][1], Digit);
    }
  }

  /** Where a month name is read there is no digit. */
  lemma {:induction false} MonthStartsLetter(t: string, i: nat, month: nat)
    requires 1 <= month <= 12 && LitAt(t, i, MonthNames[month - 1])
    ensures i < |t| && !InClass(t[i], Digit)
  {
    MonthNamesLetters();
  }

  // ---------------------------------------------------------------- ISO dates

  /** `date.isoformat()`: `YYYY-MM-DD`. */
  function IsoFormat(d: Date): (t: string)
    requires ValidDate(d)
    ensures |t| == 10
  {
    PadDigits(d.year, 4) + "-" + PadDigits(d.month, 2) + "-" + PadDigits(d.day, 2)
  }

  /** Reading `YYYY-MM-DD` back. */
  function ParseIso(t: string): Option<Date> {
    if |t| == 10 && t[4] == '-' && t[7] == '-'
       && AllOf(t[..4], Digit) && AllOf(t[5..7], Digit) && AllOf(t[8..], Digit)
    then Some(Date(DigitsValue(t[..4]), DigitsValue(t[5..7]), DigitsValue(t[8..])))
    else None
  }

  lemma {:induction false} ParseIsoFormat(d: Date)
    requires ValidDate(d)
    ensures ParseIso(IsoFormat(d)) == Some(d)
  {
    var t := IsoFormat(d);
    assert t[..4] == PadDigits(d.year, 4);
    assert t[5..7] == PadDigits(d.month, 2);
    assert t[8..] == PadDigits(d.day, 2);
    assert Pow10(4) == 10000 && Pow10(2) == 100;
    PadDigitsValue(d.year, 4);
    PadDigitsValue(d.month, 2);
    PadDigitsValue(d.day, 2);
  }

  // ---------------------------------------------------------------- one line

  datatype Direction = Credit | Debit

  /** One record of `parse_sms_block`'s first result. */
  datatype Transaction = Transaction(date: string, amount: real, direction: Direction,
                                     ref: string, bank: string, raw: string)

  /** The exception a line can raise: `float()` on the amount or `strptime` on the date. */
  datatype ParseError =
    | InvalidAmount(amountText: string)
    | InvalidDate(dateText: string, reason: DateError)

  /** Building the record of a line the pattern matched: the amount is converted first,
      then the direction is read, then the date is converted. */
  function ToTransaction(line: string): (r: Result<Transaction, ParseError>)
    requires Search(line).Some?
  {
    var f := Search(line).value;
    var amountText := AmountGroup(line, f);
    match ParseAmount(amountText)
    case None => Failure(InvalidAmount(amountText))
    case Some(amount) =>
      var direction := if Lower(DirectionGroup(line, f)) == "credited" then Credit else Debit;
      var dateText := DateGroup(line, f);
      match ParseSmsDate(dateText)
      case Failure(why) => Failure(InvalidDate(dateText, why))
      case Success(d) =>
        Success(Transaction(IsoFormat(d), amount, direction, RefGroup(line, f), BankGroup(line, f), line))
  }

  /** What every record holds: a non-negative amount, an ISO date of a real day in
      1969..2068, a reference of digits and a bank of two or more letters. */
  ghost predicate WellFormed(t: Transaction) {
    t.amount >= 0.0
    && ParseIso(t.date).Some? && ValidDate(ParseIso(t.date).value)
    && 1969 <= ParseIso(t.date).value.year <= 2068
    && |t.ref| >= 1 && AllOf(t.ref, Digit)
    && |t.bank| >= 2 && AllOf(t.bank, Letter)
  }

  /** A line fails exactly when its amount has no digit or its date is not a date; the
      amount is checked first, and a date group never leaves unconverted data. */
  lemma {:induction false} ToTransactionFailure(line: string)
    requires Search(line).Some?
    ensures var f := Search(line).value;
            ToTransaction(line).Failure?
            <==> !HasDigit(AmountGroup(line, f)) || ParseSmsDate(DateGroup(line, f)).Failure?
    ensures var f := Search(line).value;
            !HasDigit(AmountGroup(line, f)) ==> ToTransaction(line) == Failure(InvalidAmount(AmountGroup(line, f)))
    ensures ToTransaction(line).Failure? && ToTransaction(line).error.InvalidDate? ==>
            ToTransaction(line).error.reason != UnconvertedDataRemains
  {
    var f := Search(line).value;
    AmountGroupShape(line);
    AmountParsesIff(AmountGroup(line, f));
    DateGroupShape(line);
    DateGroupConsumed(DateGroup(line, f));
  }

  /** A record keeps its line, reads the direction from the direction word, and is well
      formed. */
  lemma {:induction false} ToTransactionSuccess(line: string)
    requires Search(line).Some? && ToTransaction(line).Success?
    ensures var t := ToTransaction(line).value;
            var f := Search(line).value;
            t.raw == line && WellFormed(t)
            && (t.direction == Credit <==> Lower(DirectionGroup(line, f)) == "credited")
            && (t.direction == Debit <==> Lower(DirectionGroup(line, f)) == "debited")
  {
    var f := Search(line).value;
    var t := ToTransaction(line).value;
    DirectionGroupText(line);
    RefGroupShape(line);
    BankGroupShape(line);
    var d := ParseSmsDate(DateGroup(line, f)).value;
    ParseIsoFormat(d);
  }

  /** What happens to one line of the message block. */
  datatype LineOutcome =
    | Blank                      // empty after stripping: skipped
    | Unmatched(text: string)    // no transaction in it: kept in `unparsed`
    | Record(t: Transaction)     // a transaction
    | Raised(error: ParseError)  // the conversion raised

  function ParseLine(raw: string): LineOutcome {
    var line := Strip(raw);
    if line == [] then Blank
    else if Search(line).None? then Unmatched(line)
    else match ToTransaction(line)
      case Failure(e) => Raised(e)
      case Success(t) => Record(t)
  }

  /** `parse_sms_block`'s two lists. */
  datatype Parsed = Parsed(transactions: seq<Transaction>, unparsed: seq<string>)

  /** One more line taken into the lists built so far; an error already raised stays. */
  function Extend(acc: Result<Parsed, ParseError>, o: LineOutcome): Result<Parsed, ParseError> {
    match acc
    case Failure(e) => Failure(e)
    case Success(p) =>
      match o
      case Blank => Success(p)
      case Unmatched(l) => Success(Parsed(p.transactions, p.unparsed + [l]))
      case Record(t) => Success(Parsed(p.transactions + [t], p.unparsed))
      case Raised(e) => Failure(e)
  }

  /** The outcomes taken in order; the first error raised ends the parse. */
  function Collect(outs: seq<LineOutcome>): Result<Parsed, ParseError> {
    if outs == [] then Success(Parsed([], []))
    else Extend(Collect(outs[..|outs| - 1]), outs[|outs| - 1])
  }

  /** What happens to each line, line by line. */
  function Outcomes(lines: seq<string>): (r: seq<LineOutcome>)
    ensures |r| == |lines|
  {
    seq(|lines|, k requires 0 <= k < |lines| => ParseLine(lines[k]))
  }

  /** The lines taken in order; the first line that raises ends the parse. */
  function ParseLines(lines: seq<string>): Result<Parsed, ParseError> {
    Collect(Outcomes(lines))
  }

  lemma {:induction false} CollectSnoc(outs: seq<LineOutcome>, i: nat)
    requires i < |outs|
    ensures Collect(outs[..i + 1]) == Extend(Collect(outs[..i]), outs[i])
  {
    assert outs[..i + 1][..i] == outs[..i];
  }

  /** Once a prefix of the outcomes raises, so does the whole block, with the same error. */
  lemma {:induction false} CollectFailureStays(outs: seq<LineOutcome>, k: nat)
    requires k <= |outs| && Collect(outs[..k]).Failure?
    ensures Collect(outs) == Collect(outs[..k])
    decreases |outs| - k
  {
    if k < |outs| {
      CollectSnoc(outs, k);
      CollectFailureStays(outs, k + 1);
    } else {
      assert outs[..k] == outs;
    }
  }

  /** The loop body of `parse_sms_block` on one raw line. */
  method TakeLine(acc: Parsed, raw: string) returns (r: Result<Parsed, ParseError>)
    ensures r == Extend(Success(acc), ParseLine(raw))
  {
    var line := Strip(raw);
    if line == [] {
      return Success(acc);
    }
    var found := Search(line);
    if found.None? {
      return Success(Parsed(acc.transactions, acc.unparsed + [line]));
    }
    r := TakeFound(acc, raw, line);
  }

  /** The rest of the loop body once the pattern has found something in the stripped
      line: the line converted, and its record appended or its error raised. */
  method TakeFound(acc: Parsed, raw: string, line: string) returns (r: Result<Parsed, ParseError>)
    requires line == Strip(raw) != [] && Search(line).Some?
    ensures r == Extend(Success(acc), ParseLine(raw))
  {
    var t := ToTransaction(line);
    LineOutcomeFound(raw, t);
    ExtendConverted(acc, t);
    match t {
      case Failure(e) => r := Failure(e);
      case Success(record) => r := Success(Parsed(acc.transactions + [record], acc.unparsed));
    }
  }

  /** A line the pattern finds something in is recorded or raises as its conversion
      does. */
  lemma {:induction false} LineOutcomeFound(raw: string, t: Result<Transaction, ParseError>)
    requires Strip(raw) != [] && Search(Strip(raw)).Some? && t == ToTransaction(Strip(raw))
    ensures ParseLine(raw) == if t.Success? then Record(t.value) else Raised(t.error)
  {
  }

  /** Taking a converted line into the lists. */
  lemma {:induction false} ExtendConverted(acc: Parsed, t: Result<Transaction, ParseError>)
    ensures Extend(Success(acc), if t.Success? then Record(t.value) else Raised(t.error))
            == if t.Success? then Success(Parsed(acc.transactions + [t.value], acc.unparsed)) else Failure(t.error)
  {
  }

  /** `parse_sms_block(sms_text)`. */
  method ParseSmsBlock(smsText: string) returns (r: Result<Parsed, ParseError>)
    ensures r == ParseLines(SplitLines(smsText))
  {
    var lines := SplitLines(smsText);
    ghost var outs := Outcomes(lines);
    var transactions: seq<Transaction> := [];
    var unparsed: seq<string> := [];
    var i := 0;
    while i < |lines|
      invariant 0 <= i <= |lines|
      invariant Collect(outs[..i]) == Success(Parsed(transactions, unparsed))
    {
      CollectSnoc(outs, i);
      var next := TakeLine(Parsed(transactions, unparsed), lines[i]);
      if next.Failure? {
        CollectFailureStays(outs, i + 1);
        return next;
      }
      transactions, unparsed := next.value.transactions, next.value.unparsed;
      i := i + 1;
    }
    assert outs[..i] == outs;
    return Success(Parsed(transactions, unparsed));
  }

  // ------------------------------------------------------- what the block yields

  /** Each line stripped. */
  function Stripped(lines: seq<string>): (r: seq<string>)
    ensures |r| == |lines|
  {
    seq(|lines|, k requires 0 <= k < |lines| => Strip(lines[k]))
  }

  /** For each line, whether the pattern finds a transaction in it once stripped. */
  function Finds(lines: seq<string>): (r: seq<bool>)
    ensures |r| == |lines|
  {
    seq(|lines|, k requires 0 <= k < |lines| => Search(Strip(lines[k])).Some?)
  }

  /** The non-empty lines whose flag is `found`, in order. */
  function Select(lines: seq<string>, flags: seq<bool>, found: bool): seq<string>
    requires |flags| == |lines|
  {
    if lines == [] then []
    else
      var n := |lines|;
      Select(lines[..n - 1], flags[..n - 1], found)
      + (if lines[n - 1] != [] && flags[n - 1] == found then [lines[n - 1]] else [])
  }

  /** The stripped non-blank lines in which the pattern finds a transaction
      (`found`) or finds none (`!found`), in order. */
  function StrippedLines(lines: seq<string>, found: bool): seq<string> {
    Select(Stripped(lines), Finds(lines), found)
  }

  function Raws(ts: seq<Transaction>): (r: seq<string>)
    ensures |r| == |ts|
  {
    seq(|ts|, k requires 0 <= k < |ts| => ts[k].raw)
  }

  /** How a stripped line is classified by outcome `o`, where `found` says whether the
      pattern finds a transaction in it: blank, nothing found in it, or something found,
      which either converts into a well-formed record of the line or raises. */
  ghost predicate Classified(line: string, found: bool, o: LineOutcome) {
    (o.Blank? <==> line == [])
    && (o.Unmatched? <==> line != [] && !found)
    && (o.Unmatched? ==> o.text == line)
    && (o.Record? ==> line != [] && found && o.t.raw == line && WellFormed(o.t))
    && (o.Raised? ==> line != [] && found)
  }

  lemma {:induction false} ParseLineCases(raw: string)
    ensures Classified(Strip(raw), Search(Strip(raw)).Some?, ParseLine(raw))
  {
    var line := Strip(raw);
    if line == [] {
      assert ParseLine(raw) == Blank;
    } else if Search(line).None? {
      assert ParseLine(raw) == Unmatched(line);
    } else {
      var t := ToTransaction(line);
      LineOutcomeFound(raw, t);
      if t.Success? {
        ToTransactionSuccess(line);
      }
      FoundClassified(line, t);
    }
  }

  /** A line in which the pattern finds a transaction is classified by what converting it
      gives. */
  lemma {:induction false} FoundClassified(line: string, t: Result<Transaction, ParseError>)
    requires line != [] && (t.Success? ==> t.value.raw == line && WellFormed(t.value))
    ensures Classified(line, true, if t.Success? then Record(t.value) else Raised(t.error))
  {
  }

  /** A line with a transaction in it raises exactly when its amount has no digit or its
      date is not a date. */
  lemma {:induction false} ParseLineRaises(raw: string)
    requires Strip(raw) != [] && Search(Strip(raw)).Some?
    ensures var line := Strip(raw);
            var f := Search(line).value;
            ParseLine(raw).Raised?
            <==> !HasDigit(AmountGroup(line, f)) || ParseSmsDate(DateGroup(line, f)).Failure?
  {
    var line := Strip(raw);
    assert ParseLine(raw).Raised? <==> ToTransaction(line).Failure?;
    ToTransactionFailure(line);
  }

  lemma {:induction false} CollectPartition(lines: seq<string>, flags: seq<bool>, outs: seq<LineOutcome>)
    requires |flags| == |lines| && |outs| == |lines|
    requires forall k :: 0 <= k < |lines| ==> Classified(lines[k], flags[k], outs[k])
    requires Collect(outs).Success?
    ensures var p := Collect(outs).value;
            p.unparsed == Select(lines, flags, false)
            && Raws(p.transactions) == Select(lines, flags, true)
  {
    if lines != [] {
      var n := |lines|;
      var init, flagsInit, outsInit := lines[..n - 1], flags[..n - 1], outs[..n - 1];
      forall k | 0 <= k < n - 1
        ensures Classified(init[k], flagsInit[k], outsInit[k])
      {
        assert Classified(lines[k], flags[k], outs[k]);
      }
      assert Collect(outsInit).Success?;
      CollectPartition(init, flagsInit, outsInit);
      PartitionStep(Collect(outsInit).value, lines[n - 1], flags[n - 1], outs[n - 1]);
    }
  }

  /** One more classified line extends the lists as `Select` does. */
  lemma {:induction false} PartitionStep(p: Parsed, line: string, found: bool, o: LineOutcome)
    requires Classified(line, found, o) && Extend(Success(p), o).Success?
    ensures var q := Extend(Success(p), o).value;
            q.unparsed == p.unparsed + (if line != [] && !found then [line] else [])
            && Raws(q.transactions) == Raws(p.transactions) + (if line != [] && found then [line] else [])
  {
    if o.Record? {
      assert Raws(p.transactions + [o.t]) == Raws(p.transactions) + [o.t.raw];
    }
  }

  lemma {:induction false} CollectWellFormed(outs: seq<LineOutcome>)
    requires forall k :: 0 <= k < |outs| && outs[k].Record? ==> WellFormed(outs[k].t)
    requires Collect(outs).Success?
    ensures forall k :: 0 <= k < |Collect(outs).value.transactions| ==> WellFormed(Collect(outs).value.transactions[k])
  {
    if outs != [] {
      var n := |outs|;
      assert forall k :: 0 <= k < n - 1 ==> outs[..n - 1][k] == outs[k];
      assert Collect(outs[..n - 1]).Success?;
      CollectWellFormed(outs[..n - 1]);
    }
  }

  /** A block that parses splits its non-blank lines in two: the records, in line order,
      are exactly the lines with a transaction, each well formed, and `unparsed` is
      exactly the rest. */
  lemma {:induction false} ParsedPartition(lines: seq<string>)
    requires ParseLines(lines).Success?
    ensures var p := ParseLines(lines).value;
            p.unparsed == StrippedLines(lines, false)
            && Raws(p.transactions) == StrippedLines(lines, true)
            && forall k :: 0 <= k < |p.transactions| ==> WellFormed(p.transactions[k])
  {
    var stripped, flags, outs := Stripped(lines), Finds(lines), Outcomes(lines);
    forall k | 0 <= k < |lines| ensures Classified(stripped[k], flags[k], outs[k]) {
      ParseLineCases(lines[k]);
    }
    CollectPartition(stripped, flags, outs);
    CollectWellFormed(outs);
  }

  lemma {:induction false} CollectFailure(outs: seq<LineOutcome>)
    ensures Collect(outs).Failure? <==> exists k :: 0 <= k < |outs| && outs[k].Raised?
    ensures Collect(outs).Failure? ==>
              exists k :: 0 <= k < |outs| && outs[k] == Raised(Collect(outs).error)
                          && forall j :: 0 <= j < k ==> !outs[j].Raised?
  {
    if outs != [] {
      var init := outs[..|outs| - 1];
      CollectFailure(init);
      assert forall k :: 0 <= k < |init| ==> init[k] == outs[k];
      if Collect(init).Failure? {
        var k :| 0 <= k < |init| && init[k] == Raised(Collect(init).error)
                 && forall j :: 0 <= j < k ==> !init[j].Raised?;
        assert outs[k] == Raised(Collect(outs).error);
      }
    }
  }

  /** The block raises exactly when one of its lines does, and then with the error of the
      first line that does. */
  lemma {:induction false} ParseLinesFailure(lines: seq<string>)
    ensures ParseLines(lines).Failure? <==> exists k :: 0 <= k < |lines| && ParseLine(lines[k]).Raised?
    ensures ParseLines(lines).Failure? ==>
              exists k :: 0 <= k < |lines| && ParseLine(lines[k]) == Raised(ParseLines(lines).error)
                          && forall j :: 0 <= j < k ==> !ParseLine(lines[j]).Raised?
  {
    var outs := Outcomes(lines);
    CollectFailure(outs);
    assert forall k :: 0 <= k < |lines| ==> outs[k] == ParseLine(lines[k]);
  }

  // ---------------------------------------------------------------- metrics

  /** The total of the amounts of the records of direction `d` (`inflow` for credits,
      `outflow` for debits). */
  function Flow(ts: seq<Transaction>, d: Direction): real {
    if ts == [] then 0.0
    else Flow(ts[..|ts| - 1], d) + (if ts[|ts| - 1].direction == d then ts[|ts| - 1].amount else 0.0)
  }

  /** The total of all the amounts. */
  function Total(ts: seq<Transaction>): real {
    if ts == [] then 0.0 else Total(ts[..|ts| - 1]) + ts[|ts| - 1].amount
  }

  predicate NonNegativeAmounts(ts: seq<Transaction>) {
    forall k :: 0 <= k < |ts| ==> ts[k].amount >= 0.0
  }

  /** Every record is counted in exactly one of the two flows. */
  lemma {:induction false} FlowsTotal(ts: seq<Transaction>)
    ensures Flow(ts, Credit) + Flow(ts, Debit) == Total(ts)
  {
    if ts != [] {
      FlowsTotal(ts[..|ts| - 1]);
    }
  }

  /** The flows of two record lists put together add up. */
  lemma {:induction false} FlowConcat(a: seq<Transaction>, b: seq<Transaction>, d: Direction)
    ensures Flow(a + b, d) == Flow(a, d) + Flow(b, d)
    decreases |b|
  {
    if b == [] {
      assert a + b == a;
    } else {
      var n := |b|;
      assert (a + b)[..|a + b| - 1] == a + b[..n - 1];
      FlowConcat(a, b[..n - 1], d);
    }
  }

  /** With non-negative amounts each flow lies between zero and the total. */
  lemma {:induction false} FlowBounds(ts: seq<Transaction>, d: Direction)
    requires NonNegativeAmounts(ts)
    ensures 0.0 <= Flow(ts, d) <= Total(ts)
  {
    if ts != [] {
      var init := ts[..|ts| - 1];
      assert forall k :: 0 <= k < |init| ==> init[k] == ts[k];
      FlowBounds(init, d);
    }
  }

  /** `(inflow - outflow) / inflow if inflow else 0`. */
  function SavingsRate(inflow: real, outflow: real): real {
    if inflow != 0.0 then (inflow - outflow) / inflow else 0.0
  }

  /** With income and non-negative spending the savings rate is at most one, exactly
      one when nothing is spent, and negative exactly when spending exceeds income. */
  lemma {:induction false} SavingsRateBounds(inflow: real, outflow: real)
    requires inflow > 0.0 && outflow >= 0.0
    ensures SavingsRate(inflow, outflow) <= 1.0
    ensures SavingsRate(inflow, outflow) == 1.0 <==> outflow == 0.0
    ensures SavingsRate(inflow, outflow) < 0.0 <==> outflow > inflow
  {
    var r := SavingsRate(inflow, outflow);
    assert r * inflow == inflow - outflow;
    // (1 - r) * inflow == outflow, and a product with a positive factor keeps its sign
    var d := 1.0 - r;
    assert d * inflow == outflow;
    SignOfProduct(d, inflow);
    SignOfProduct(r, inflow);
  }

  lemma {:induction false} SignOfProduct(x: real, y: real)
    requires y > 0.0
    ensures x > 0.0 <==> x * y > 0.0
    ensures x == 0.0 <==> x * y == 0.0
  {
  }

  /** The fixed volatility placeholder. */
  const Volatility: real := 0.3

  /** `max(0, min(100, int(70 + (savings_rate - volatility) * 30)))`. */
  function HealthScore(savingsRate: real): (h: int)
    ensures 0 <= h <= 100
  {
    Clamp(Trunc(70.0 + (savingsRate - Volatility) * 30.0), 0, 100)
  }

  /** A higher savings rate never lowers the score. */
  lemma {:induction false} HealthScoreMonotone(a: real, b: real)
    requires a <= b
    ensures HealthScore(a) <= HealthScore(b)
  {
    TruncMonotone(70.0 + (a - Volatility) * 30.0, 70.0 + (b - Volatility) * 30.0);
    ClampMonotone(Trunc(70.0 + (a - Volatility) * 30.0), Trunc(70.0 + (b - Volatility) * 30.0), 0, 100);
  }

  /** No income scores 61; a savings rate of at most one scores at most 91, and the
      score bottoms out at zero exactly below a savings rate of -2. */
  lemma {:induction false} HealthScoreValues(savingsRate: real)
    ensures HealthScore(0.0) == 61
    ensures HealthScore(1.0) == 91
    ensures savingsRate <= 1.0 ==> HealthScore(savingsRate) <= 91
    ensures HealthScore(savingsRate) == 0 <==> savingsRate < -2.0
  {
    if savingsRate <= 1.0 {
      HealthScoreMonotone(savingsRate, 1.0);
    }
  }

  datatype MonthlySummary = MonthlySummary(inflow: real, outflow: real, volatility: real)

  /** `compute_financial_metrics`'s result. */
  datatype FinancialMetrics =
    FinancialMetrics(monthlySummary: MonthlySummary, financialHealthScore: int, nudges: seq<string>)

  const Nudges: seq<string> := ["Track discretionary spends weekly.", "Automate savings to improve stability."]

  /** `compute_financial_metrics(transactions)`: the two flows rounded to cents, the
      volatility placeholder, the health score and the two fixed nudges. */
  function ComputeFinancialMetrics(ts: seq<Transaction>): (m: FinancialMetrics)
    ensures Flow(ts, Credit) - 0.005 <= m.monthlySummary.inflow <= Flow(ts, Credit) + 0.005
    ensures Flow(ts, Debit) - 0.005 <= m.monthlySummary.outflow <= Flow(ts, Debit) + 0.005
    ensures m.monthlySummary.volatility == Volatility
    ensures 0 <= m.financialHealthScore <= 100
    ensures m.nudges == Nudges
  {
    var inflow, outflow := Flow(ts, Credit), Flow(ts, Debit);
    Round2OfCents(30);
    FinancialMetrics(
      MonthlySummary(Round2(inflow), Round2(outflow), Round2(Volatility)),
      HealthScore(SavingsRate(inflow, outflow)),
      Nudges)
  }

  /** For records with non-negative amounts: both flows round to non-negative values, the
      score is at most 91, and a list without credits scores 61. */
  lemma {:induction false} MetricsOfNonNegative(ts: seq<Transaction>)
    requires NonNegativeAmounts(ts)
    ensures var m := ComputeFinancialMetrics(ts);
            m.monthlySummary.inflow >= 0.0 && m.monthlySummary.outflow >= 0.0
            && m.financialHealthScore <= 91
            && (Flow(ts, Credit) == 0.0 ==> m.financialHealthScore == 61)
  {
    var inflow, outflow := Flow(ts, Credit), Flow(ts, Debit);
    FlowBounds(ts, Credit);
    FlowBounds(ts, Debit);
    Round2OfCents(0);
    Round2Monotone(0.0, inflow);
    Round2Monotone(0.0, outflow);
    var sr := SavingsRate(inflow, outflow);
    if inflow > 0.0 {
      SavingsRateBounds(inflow, outflow);
    }
    HealthScoreValues(sr);
  }

  /** The metrics of any block that parses: every record has a non-negative amount, so the
      score lies between 0 and 91. */
  lemma {:induction false} BlockMetrics(smsText: string)
    requires ParseLines(SplitLines(smsText)).Success?
    ensures var m := ComputeFinancialMetrics(ParseLines(SplitLines(smsText)).value.transactions);
            0 <= m.financialHealthScore <= 91
            && m.monthlySummary.inflow >= 0.0 && m.monthlySummary.outflow >= 0.0
  {
    var ts := ParseLines(SplitLines(smsText)).value.transactions;
    ParsedPartition(SplitLines(smsText));
    MetricsOfNonNegative(ts);
  }
}
