/** UTC calendar days: the `YYYYMMDD` day strings that name the report
    files, and the "yesterday" the handler derives from the current day. */
module Calendar {
  import opened Wrappers
  import opened Text

  /** A proleptic Gregorian UTC day; `month` runs from 1 to 12. */
  datatype Date = Date(year: int, month: nat, day: nat)

  predicate IsLeapYear(y: int)
  {
    y % 4 == 0 && (y % 100 != 0 || y % 400 == 0)
  }

  function DaysInMonth(y: int, m: nat): nat
  {
    if m == 2 then (if IsLeapYear(y) then 29 else 28)
    else if m == 4 || m == 6 || m == 9 || m == 11 then 30
    else 31
  }

  predicate ValidDate(d: Date)
  {
    1 <= d.month <= 12 && 1 <= d.day <= DaysInMonth(d.year, d.month)
  }

  /** Chronological order of days. */
  predicate Before(a: Date, b: Date)
  {
    a.year < b.year
    || (a.year == b.year && a.month < b.month)
    || (a.year == b.year && a.month == b.month && a.day < b.day)
  }

  /** The day before `d`, stepping back over a month end or a year end. */
  function PreviousDay(d: Date): (r: Date)
    ensures ValidDate(d) ==> ValidDate(r) && Before(r, d)
  {
    if d.day > 1 then Date(d.year, d.month, d.day - 1)
    else if d.month > 1 then Date(d.year, d.month - 1, DaysInMonth(d.year, d.month - 1))
    else Date(d.year - 1, 12, 31)
  }

  /** The day after `d`; the reference against which `PreviousDay` is checked. */
  function NextDay(d: Date): Date
  {
    if d.day < DaysInMonth(d.year, d.month) then Date(d.year, d.month, d.day + 1)
    else if d.month < 12 then Date(d.year, d.month + 1, 1)
    else Date(d.year + 1, 1, 1)
  }

  /** `PreviousDay` is the immediately preceding calendar day: a valid day,
      before `d`, with no valid day in between, and `d` is its next day. */
  lemma PreviousDayIsImmediate(d: Date)
    requires ValidDate(d)
    ensures ValidDate(PreviousDay(d)) && Before(PreviousDay(d), d)
    ensures NextDay(PreviousDay(d)) == d
    ensures forall z :: ValidDate(z) && Before(z, d) ==> !Before(PreviousDay(d), z)
  {
  }

  lemma NextDayIsImmediate(d: Date)
    requires ValidDate(d)
    ensures ValidDate(NextDay(d)) && Before(d, NextDay(d))
    ensures PreviousDay(NextDay(d)) == d
  {
  }

  /** The year `Date.UTC` actually uses: a year from 0 to 99 is read as
      1900 to 1999. */
  function UtcYear(y: int): (r: int)
    ensures !(0 <= y <= 99) ==> r == y
    ensures 0 <= y <= 99 ==> r == 1900 + y
  {
    if 0 <= y <= 99 then 1900 + y else y
  }

  /** The "yesterday" of the handler: `Date.UTC(year, month, day - 1)`,
      which rolls a day 0 back into the previous month or year. */
  function Yesterday(now: Date): (r: Date)
    ensures ValidDate(now) ==> ValidDate(r)
    ensures !(0 <= now.year <= 99) ==> r == PreviousDay(now)
  {
    LeapYearShift(now.year);
    PreviousDay(Date(UtcYear(now.year), now.month, now.day))
  }

  /** Adding 1900 keeps leap years leap, except for year 0 (a leap year)
      against 1900 (not one). */
  lemma LeapYearShift(y: int)
    ensures 1 <= y <= 99 ==> IsLeapYear(1900 + y) == IsLeapYear(y)
  {
    if 1 <= y <= 99 {
      assert (1900 + y) % 4 == y % 4;
      assert (1900 + y) % 100 == y % 100;
    }
  }

  /** For a current year from 1 to 99 the "yesterday" is the previous
      calendar day, nineteen centuries later. */
  lemma YesterdayOfEarlyYear(now: Date)
    requires ValidDate(now) && 1 <= now.year <= 99
    ensures var p := PreviousDay(now); Yesterday(now) == Date(p.year + 1900, p.month, p.day)
  {
    LeapYearShift(now.year);
    LeapYearShift(now.year - 1);
  }

  /** For a current year from 0 to 99 the "yesterday" falls nineteen
      centuries later; e.g. 1 March of year 50 gives 28 February 1950. */
  lemma YesterdayOfTwoDigitYear()
    ensures Yesterday(Date(50, 3, 1)) == Date(1950, 2, 28)
  {
  }

  /** `yyyymmdd`: the year as `String` writes it, then month and day each
      padded to two digits with '0'. */
  function Yyyymmdd(d: Date): (s: string)
    ensures ValidDate(d) ==>
      && |s| >= 4
      && AllDigits(s[|s| - 4..|s| - 2]) && DigitsValue(s[|s| - 4..|s| - 2]) == d.month
      && AllDigits(s[|s| - 2..]) && DigitsValue(s[|s| - 2..]) == d.day
  {
    MonthDayTail(IntToString(d.year), d);
    IntToString(d.year) + PadStart(NatToString(d.month), 2, '0') + PadStart(NatToString(d.day), 2, '0')
  }

  /** The last four characters of a day string are the month and the day,
      whatever the year is written as. */
  lemma {:induction false} MonthDayTail(year: string, d: Date)
    ensures var s := year + PadStart(NatToString(d.month), 2, '0') + PadStart(NatToString(d.day), 2, '0');
      ValidDate(d) ==>
        && |s| >= 4
        && AllDigits(s[|s| - 4..|s| - 2]) && DigitsValue(s[|s| - 4..|s| - 2]) == d.month
        && AllDigits(s[|s| - 2..]) && DigitsValue(s[|s| - 2..]) == d.day
  {
    if ValidDate(d) {
      var m := PadStart(NatToString(d.month), 2, '0');
      var dd := PadStart(NatToString(d.day), 2, '0');
      TwoDigits(d.month);
      TwoDigits(d.day);
      LastFour(year, m, dd);
    }
  }

  lemma LastFour(y: string, m: string, dd: string)
    requires |m| == 2 && |dd| == 2
    ensures var s := y + m + dd;
      && |s| == |y| + 4
      && s[|s| - 4..|s| - 2] == m && s[|s| - 2..] == dd
  {
  }

  /** Reads an eight-digit day string back; the partner of `Yyyymmdd`. */
  function ParseDayString(s: string): (r: Option<Date>)
    ensures r.Some? ==> |s| == 8 && AllDigits(s)
  {
    if |s| == 8 && AllDigits(s) then
      Some(Date(DigitsValue(s[..4]), DigitsValue(s[4..6]), DigitsValue(s[6..])))
    else None
  }

  lemma {:induction false} TwoDigits(n: nat)
    requires 1 <= n <= 31
    ensures var p := PadStart(NatToString(n), 2, '0'); |p| == 2 && AllDigits(p) && DigitsValue(p) == n
  {
    var p := PadStart(NatToString(n), 2, '0');
    NatToStringValue(n);
    if n < 10 {
      assert p == ['0', DigitChar(n)];
      assert p[..1] == ['0'];
    } else {
      assert 1 <= n / 10 < 10;
      assert |NatToString(n)| == 2;
      assert p == NatToString(n);
    }
  }

  /** For a four-digit year the day string is eight digits and reads back
      as the same day. */
  lemma {:induction false} YyyymmddRoundTrip(d: Date)
    requires ValidDate(d) && 1000 <= d.year <= 9999
    ensures |Yyyymmdd(d)| == 8 && AllDigits(Yyyymmdd(d))
    ensures ParseDayString(Yyyymmdd(d)) == Some(d)
  {
    var y := NatToString(d.year);
    var m := PadStart(NatToString(d.month), 2, '0');
    var dd := PadStart(NatToString(d.day), 2, '0');
    NatToStringLength4(d.year);
    NatToStringValue(d.year);
    TwoDigits(d.month);
    TwoDigits(d.day);
    var s := Yyyymmdd(d);
    assert s == y + m + dd;
    assert s[..4] == y && s[4..6] == m && s[6..] == dd;
  }

  /** Different four-digit-year days never share a day string. */
  lemma YyyymmddInjective(a: Date, b: Date)
    requires ValidDate(a) && 1000 <= a.year <= 9999
    requires ValidDate(b) && 1000 <= b.year <= 9999
    requires Yyyymmdd(a) == Yyyymmdd(b)
    ensures a == b
  {
    YyyymmddRoundTrip(a);
    YyyymmddRoundTrip(b);
  }

  /** The two days whose reports are summed: today, then yesterday. */
  function ReportWindow(now: Date): (w: seq<string>)
    ensures |w| == 2
  {
    [Yyyymmdd(now), Yyyymmdd(Yesterday(now))]
  }

  /** The window names two consecutive days: the second string reads back
      as the day immediately before the first. */
  lemma ReportWindowConsecutive(now: Date)
    requires ValidDate(now) && 1001 <= now.year <= 9999
    ensures var w := ReportWindow(now);
      && ParseDayString(w[0]) == Some(now)
      && ParseDayString(w[1]).Some?
      && NextDay(ParseDayString(w[1]).value) == now
      && Before(ParseDayString(w[1]).value, now)
      && w[0] != w[1]
  {
    var p := PreviousDay(now);
    PreviousDayIsImmediate(now);
    assert Yesterday(now) == p;
    YyyymmddRoundTrip(now);
    YyyymmddRoundTrip(p);
    var w := ReportWindow(now);
    assert w[0] == Yyyymmdd(now) && w[1] == Yyyymmdd(p);
    assert ParseDayString(w[1]) == Some(p) && p != now;
  }
}
