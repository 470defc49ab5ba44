/**
 * Calendar days. A stored `date` is the instant `new Date("YYYY-MM-DD")` yields,
 * midnight UTC of one day, so it is modelled as the day itself.
 */
module Calendar {
  import opened Options
  import opened JsText

  datatype Date = Date(year: int, month: int, day: int)

  predicate IsLeapYear(y: int) {
    y % 4 == 0 && (y % 100 != 0 || y % 400 == 0)
  }

  function DaysInMonth(y: int, m: int): (n: nat)
    requires 1 <= m <= 12
    ensures 28 <= n <= 31
    ensures n == 29 <==> m == 2 && IsLeapYear(y)
  {
    if m == 2 then (if IsLeapYear(y) then 29 else 28)
    else if m == 4 || m == 6 || m == 9 || m == 11 then 30
    else 31
  }

  /** A day of the proleptic Gregorian calendar with a four-digit year. */
  predicate ValidDate(d: Date) {
    0 <= d.year <= 9999 && 1 <= d.month <= 12 && 1 <= d.day <= DaysInMonth(d.year, d.month)
  }

  /** Chronological order of days. */
  predicate Before(a: Date, b: Date) {
    a.year < b.year
    || (a.year == b.year && a.month < b.month)
    || (a.year == b.year && a.month == b.month && a.day < b.day)
  }

  /**
   * `endDate.setDate(endDate.getDate() + 1)`: the following day, which comes
   * after `d` with no valid day strictly in between, and is itself a valid
   * day unless `d` is the last day of year 9999.
   */
  function NextDay(d: Date): (n: Date)
    requires ValidDate(d)
    ensures Before(d, n)
    ensures ValidDate(n) <==> !(d.year == 9999 && d.month == 12 && d.day == 31)
    ensures forall x :: ValidDate(x) && Before(d, x) ==> !Before(x, n)
  {
    if d.day < DaysInMonth(d.year, d.month) then Date(d.year, d.month, d.day + 1)
    else if d.month < 12 then Date(d.year, d.month + 1, 1)
    else Date(d.year + 1, 1, 1)
  }

  /**
   * The list filter `{ $gte: start, $lt: start + 1 day }`. On calendar days the
   * half-open window holds exactly the day `start` itself.
   */
  predicate InDayWindow(x: Date, start: Date)
    requires ValidDate(start)
    ensures ValidDate(x) ==> (InDayWindow(x, start) <==> x == start)
  {
    !Before(x, start) && Before(x, NextDay(start))
  }

  function Pad2(n: nat): (s: string)
    requires n < 100
    ensures |s| == 2 && AllDigits(s)
  {
    [DigitChar(n / 10), DigitChar(n % 10)]
  }

  function Pad4(n: nat): (s: string)
    requires n < 10000
    ensures |s| == 4 && AllDigits(s)
  {
    Pad2(n / 100) + Pad2(n % 100)
  }

  lemma Pad2Value(n: nat)
    requires n < 100
    ensures DigitsValue(Pad2(n)) == n
  {
    var s := Pad2(n);
    assert s[..1] == [DigitChar(n / 10)];
    assert DigitsValue(s[..1]) == n / 10 by {
      assert s[..1][..0] == [];
    }
  }

  lemma Pad4Value(n: nat)
    requires n < 10000
    ensures DigitsValue(Pad4(n)) == n
  {
    var s := Pad4(n);
    var hi, lo := n / 100, n % 100;
    Pad2Value(hi);
    assert s[..3][..2] == Pad2(hi);
    assert s[..2] == Pad2(hi);
    assert DigitsValue(s[..3]) == 10 * hi + lo / 10;
    assert DigitsValue(s) == 10 * (10 * hi + lo / 10) + lo % 10;
  }

  /** `date.toISOString().split('T')[0]`: the day as `YYYY-MM-DD`. */
  function FormatIsoDate(d: Date): (s: string)
    requires ValidDate(d)
    ensures |s| == 10 && s[4] == '-' && s[7] == '-'
    ensures AllDigits(s[..4]) && AllDigits(s[5..7]) && AllDigits(s[8..])
  {
    Pad4(d.year) + "-" + Pad2(d.month) + "-" + Pad2(d.day)
  }

  /** The shape `YYYY-MM-DD`: ten characters, dashes at 4 and 7, digits elsewhere. */
  predicate IsoShape(s: string) {
    |s| == 10 && s[4] == '-' && s[7] == '-'
    && AllDigits(s[..4]) && AllDigits(s[5..7]) && AllDigits(s[8..])
  }

  /**
   * `new Date(s)` for a date-only string. Only the canonical `YYYY-MM-DD` form
   * naming an existing day is accepted; everything else is an invalid date.
   */
  function ParseIsoDate(s: string): (r: Option<Date>)
    ensures r.Some? ==> ValidDate(r.value) && FormatIsoDate(r.value) == s
  {
    if IsoShape(s) then
      var d := Date(DigitsValue(s[..4]), DigitsValue(s[5..7]), DigitsValue(s[8..]));
      if ValidDate(d) then
        CanonicalForm(s, d);
        Some(d)
      else None
    else None
  }

  /** A well-shaped string is the formatting of the day its digits spell. */
  lemma CanonicalForm(s: string, d: Date)
    requires IsoShape(s) && ValidDate(d)
    requires d == Date(DigitsValue(s[..4]), DigitsValue(s[5..7]), DigitsValue(s[8..]))
    ensures FormatIsoDate(d) == s
  {
    DigitsFormat4(s[..4]);
    DigitsFormat2(s[5..7]);
    DigitsFormat2(s[8..]);
    assert s == s[..4] + "-" + s[5..7] + "-" + s[8..];
  }

  lemma DigitsFormat2(s: string)
    requires |s| == 2 && AllDigits(s)
    ensures DigitsValue(s) < 100 && Pad2(DigitsValue(s)) == s
  {
    assert s[..1][..0] == [];
    assert DigitsValue(s[..1]) == DigitValue(s[0]);
    var v := DigitsValue(s);
    assert v == 10 * DigitValue(s[0]) + DigitValue(s[1]);
  }

  lemma DigitsFormat4(s: string)
    requires |s| == 4 && AllDigits(s)
    ensures DigitsValue(s) < 10000 && Pad4(DigitsValue(s)) == s
  {
    var hi, lo := DigitsValue(s[..2]), DigitsValue(s[2..]);
    DigitsFormat2(s[..2]);
    DigitsFormat2(s[2..]);
    DigitsSplit4(s);
    assert (100 * hi + lo) / 100 == hi && (100 * hi + lo) % 100 == lo;
    assert s == s[..2] + s[2..];
  }

  /** Four digits denote a hundred times their first two plus their last two. */
  lemma DigitsSplit4(s: string)
    requires |s| == 4 && AllDigits(s)
    ensures DigitsValue(s) == 100 * DigitsValue(s[..2]) + DigitsValue(s[2..])
  {
    var t := s[2..];
    assert s[..3][..2] == s[..2];
    assert t[..1][..0] == [] && t[..1] == [s[2]] && t[1] == s[3];
    assert DigitsValue(s[..3]) == 10 * DigitsValue(s[..2]) + DigitValue(s[2]);
    assert DigitsValue(t[..1]) == DigitValue(s[2]);
    assert DigitsValue(t) == 10 * DigitValue(s[2]) + DigitValue(s[3]);
  }

  /** Formatting a day and parsing the text back gives the same day. */
  lemma {:induction false} ParseFormatRoundTrip(d: Date)
    requires ValidDate(d)
    ensures ParseIsoDate(FormatIsoDate(d)) == Some(d)
  {
    var s := FormatIsoDate(d);
    assert s[..4] == Pad4(d.year);
    assert s[5..7] == Pad2(d.month);
    assert s[8..] == Pad2(d.day);
    Pad4Value(d.year);
    Pad2Value(d.month);
    Pad2Value(d.day);
  }
}
