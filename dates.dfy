/**
 * Calendar dates, the three purchase-date formats the application accepts,
 * and the instants ("datetime" values) the portfolio compares them with.
 * An instant is a whole number of microseconds on the proleptic Gregorian
 * time line, the resolution of Python's datetime.
 */
module Dates {
  import opened Common
  import opened Text

  datatype Date = Date(year: int, month: int, day: int)

  predicate IsLeapYear(y: int) {
    y % 4 == 0 && (y % 100 != 0 || y % 400 == 0)
  }

  function DaysInMonth(y: int, m: int): (n: int)
    requires 1 <= m <= 12
    ensures 28 <= n <= 31
  {
    if m == 2 then (if IsLeapYear(y) then 29 else 28)
    else if m == 4 || m == 6 || m == 9 || m == 11 then 30
    else 31
  }

  /** A date datetime accepts: years 1 to 9999 and a day that exists in its month. */
  predicate ValidDate(d: Date) {
    1 <= d.year <= 9999 && 1 <= d.month <= 12 && 1 <= d.day <= DaysInMonth(d.year, d.month)
  }

  // ---------------------------------------------------------------------------
  // Parsing: the formats "%d-%m-%Y", "%d/%m/%Y" and "%Y-%m-%d"
  // ---------------------------------------------------------------------------

  datatype DateFormat = DashDayFirst | SlashDayFirst | IsoYearFirst

  function Separator(f: DateFormat): char {
    if f == SlashDayFirst then '/' else '-'
  }

  /**
   * Reads `s` left to right as three digit runs separated by `sep`:
   * the first run ends at the first `sep`, the second at the next one, and
   * the third runs to the end of the string.
   */
  function Fields(s: string, sep: char): Option<(string, string, string)> {
    var i := IndexOf(s, sep);
    if i == |s| then None
    else
      var rest := s[i + 1..];
      var j := IndexOf(rest, sep);
      if j == |rest| then None
      else
        var a, b, c := s[..i], rest[..j], rest[j + 1..];
        if AllDigits(a) && AllDigits(b) && AllDigits(c) then Some((a, b, c)) else None
  }

  /** `%d` and `%m` take one or two digits, `%Y` exactly four. */
  predicate ShortField(s: string) { 1 <= |s| <= 2 }

  function ParseWith(s: string, f: DateFormat): (r: Option<Date>)
    ensures r.Some? ==> ValidDate(r.value)
  {
    match Fields(s, Separator(f))
    case None => None
    case Some((a, b, c)) =>
      var d :=
        if f == IsoYearFirst then Date(DigitsValue(a), DigitsValue(b), DigitsValue(c))
        else Date(DigitsValue(c), DigitsValue(b), DigitsValue(a));
      var shapeOk :=
        if f == IsoYearFirst then |a| == 4 && ShortField(b) && ShortField(c)
        else ShortField(a) && ShortField(b) && |c| == 4;
      if shapeOk && ValidDate(d) then Some(d) else None
  }

  /**
   * Tries "%d-%m-%Y", then "%d/%m/%Y", then "%Y-%m-%d"; the first format
   * that reads the string wins.
   */
  function ParseDate(s: string): Option<Date> {
    var dash := ParseWith(s, DashDayFirst);
    if dash.Some? then dash
    else
      var slash := ParseWith(s, SlashDayFirst);
      if slash.Some? then slash else ParseWith(s, IsoYearFirst)
  }

  lemma {:induction false} FieldsOnlyDigitsAndSeparator(s: string, sep: char, t: nat)
    requires Fields(s, sep).Some?
    requires t < |s|
    ensures IsDigit(s[t]) || s[t] == sep
  {
    var i := IndexOf(s, sep);
    var rest := s[i + 1..];
    var j := IndexOf(rest, sep);
    if t < i {
      assert s[t] == s[..i][t];
    } else if t > i {
      var u := t - i - 1;
      assert s[t] == rest[u];
      if u < j {
        assert rest[u] == rest[..j][u];
      } else if u > j {
        assert rest[u] == rest[j + 1..][u - j - 1];
      }
    }
  }

  lemma NoSeparatorNoFields(s: string, sep: char)
    requires forall t :: 0 <= t < |s| ==> s[t] != sep
    ensures Fields(s, sep).None?
  {
  }

  lemma {:induction false} DifferentSeparatorsExclusive(s: string, f: DateFormat, g: DateFormat)
    requires Separator(f) != Separator(g)
    requires ParseWith(s, f).Some?
    ensures ParseWith(s, g).None?
  {
    var sep, other := Separator(f), Separator(g);
    forall t | 0 <= t < |s| ensures s[t] != other {
      FieldsOnlyDigitsAndSeparator(s, sep, t);
    }
    NoSeparatorNoFields(s, other);
  }

  /**
   * No string parses under two of the formats, so the order in which they
   * are tried never changes the date obtained.
   */
  lemma {:induction false} FormatsExclusive(s: string, f: DateFormat, g: DateFormat)
    requires f != g
    ensures !(ParseWith(s, f).Some? && ParseWith(s, g).Some?)
  {
    if ParseWith(s, f).Some? && ParseWith(s, g).Some? {
      if Separator(f) != Separator(g) {
        DifferentSeparatorsExclusive(s, f, g);
      }
    }
  }

  /** A string is a valid purchase date exactly when one of the three formats reads it. */
  lemma ParseDateIffSomeFormat(s: string, d: Date)
    ensures ParseDate(s) == Some(d) <==> exists f :: ParseWith(s, f) == Some(d)
  {
    if ParseWith(s, SlashDayFirst) == Some(d) {
      FormatsExclusive(s, DashDayFirst, SlashDayFirst);
    }
    if ParseWith(s, IsoYearFirst) == Some(d) {
      FormatsExclusive(s, DashDayFirst, IsoYearFirst);
      FormatsExclusive(s, SlashDayFirst, IsoYearFirst);
    }
  }

  /**
   * A date written in a format the way `strftime` writes it: day and month
   * as two digits, the year as four, in the format's order and joined by
   * its separator.
   */
  function Render(d: Date, f: DateFormat): string
    requires ValidDate(d)
  {
    var sep := [Separator(f)];
    var year, month, day := Padded(d.year, 4), Padded(d.month, 2), Padded(d.day, 2);
    if f == IsoYearFirst then year + sep + month + sep + day
    else day + sep + month + sep + year
  }

  /** Three digit runs joined by a separator that is not a digit read back as those runs. */
  lemma FieldsOfJoined(a: string, b: string, c: string, sep: char)
    requires AllDigits(a) && AllDigits(b) && AllDigits(c) && !IsDigit(sep)
    ensures Fields(a + [sep] + b + [sep] + c, sep) == Some((a, b, c))
  {
    var s := a + [sep] + b + [sep] + c;
    var tail := b + [sep] + c;
    assert s == a + [sep] + tail;
    IndexOfAfter(a, sep, tail);
    assert s[..|a|] == a;
    assert s[|a| + 1..] == tail;
    IndexOfAfter(b, sep, c);
    assert tail[..|b|] == b;
    assert tail[|b| + 1..] == c;
  }

  /** Every valid date, written in any of the three formats, is read back by that format. */
  lemma ParseWithRoundTrip(d: Date, f: DateFormat)
    requires ValidDate(d)
    ensures ParseWith(Render(d, f), f) == Some(d)
  {
    var year, month, day := Padded(d.year, 4), Padded(d.month, 2), Padded(d.day, 2);
    assert Pow10(2) == 100 && Pow10(4) == 10000;
    DigitsValueOfPadded(d.year, 4);
    DigitsValueOfPadded(d.month, 2);
    DigitsValueOfPadded(d.day, 2);
    if f == IsoYearFirst {
      FieldsOfJoined(year, month, day, Separator(f));
    } else {
      FieldsOfJoined(day, month, year, Separator(f));
    }
  }

  /** A rendered date is read back by the application's parser whichever format wrote it. */
  lemma ParseDateRoundTrip(d: Date, f: DateFormat)
    requires ValidDate(d)
    ensures ParseDate(Render(d, f)) == Some(d)
  {
    ParseWithRoundTrip(d, f);
    ParseDateIffSomeFormat(Render(d, f), d);
  }

  // ---------------------------------------------------------------------------
  // The time line
  // ---------------------------------------------------------------------------

  type Instant = int

  const MicrosPerSecond: int := 1000000
  const SecondsPerDay: int := 86400
  const MicrosPerDay: int := 86400000000

  function DaysBeforeYear(y: int): int {
    var p := y - 1;
    p * 365 + p / 4 - p / 100 + p / 400
  }

  function DaysBeforeMonth(y: int, m: int): int
    requires 1 <= m <= 12
  {
    if m == 1 then 0 else DaysBeforeMonth(y, m - 1) + DaysInMonth(y, m - 1)
  }

  /** `date.toordinal()`: 1 January of year 1 is day 1. */
  function Ordinal(d: Date): int
    requires ValidDate(d)
  {
    DaysBeforeYear(d.year) + DaysBeforeMonth(d.year, d.month) + d.day
  }

  /** The instant at which a date begins (what strptime returns for a bare date). */
  function Midnight(d: Date): Instant
    requires ValidDate(d)
  {
    Ordinal(d) * MicrosPerDay
  }

  /**
   * `(later - earlier).seconds`: the seconds part of a normalised timedelta,
   * that is, the elapsed time with whole days removed.
   */
  function TimedeltaSeconds(later: Instant, earlier: Instant): (s: int)
    ensures 0 <= s < SecondsPerDay
  {
    ((later - earlier) % MicrosPerDay) / MicrosPerSecond
  }

  /** Adding whole days to the later instant leaves `.seconds` unchanged. */
  lemma {:induction false} SecondsIgnoreWholeDays(later: Instant, earlier: Instant, days: nat)
    ensures TimedeltaSeconds(later + days * MicrosPerDay, earlier) == TimedeltaSeconds(later, earlier)
  {
    if days > 0 {
      SecondsIgnoreWholeDays(later, earlier, days - 1);
      var x := later + (days - 1) * MicrosPerDay - earlier;
      assert later + days * MicrosPerDay - earlier == x + MicrosPerDay;
      assert (x + MicrosPerDay) % MicrosPerDay == x % MicrosPerDay;
    }
  }
}
