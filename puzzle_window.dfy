/**
 * getPIDMonthStartEnd: maps a `yyyyMM` month to the inclusive range of daily puzzle ids
 * (one puzzle per day) measured from the anchor 2024-09-22 = puzzle 203.
 *
 * Dates are proleptic Gregorian day numbers (day 0 is 0001-01-01) with a millisecond of the day,
 * in local time with 24-hour days. The date-fns calls are modelled by their documented meaning:
 * `parse(s, "yyyyMM")` reads up to four digits of year (which must be positive), then up to two
 * digits of month (1..12), and tolerates only trailing white space; `startOfMonth` is the 1st at
 * 00:00:00.000, `endOfMonth` the last day at 23:59:59.999, and `differenceInDays` counts full
 * days, truncated toward zero.
 */
module PuzzleWindow {
  import opened Wrappers
  import JsStrings

  const ReferencePID := 203
  const MsPerDay := 86_400_000

  datatype YearMonth = YearMonth(year: int, month: int)

  predicate ValidMonth(ym: YearMonth) {
    ym.year >= 1 && 1 <= ym.month <= 12
  }

  type Month = ym: YearMonth | ValidMonth(ym) witness YearMonth(1, 1)

  // ---------------------------------------------------------------------------------------------
  // Gregorian calendar

  predicate IsLeapYear(y: int) {
    y % 4 == 0 && (y % 100 != 0 || y % 400 == 0)
  }

  function DaysInMonth(y: int, m: int): int
    requires 1 <= m <= 12
  {
    if m == 2 then (if IsLeapYear(y) then 29 else 28)
    else if m == 4 || m == 6 || m == 9 || m == 11 then 30
    else 31
  }

  /** Days of the year `y` that come before the 1st of month `m`. */
  function DaysBeforeMonth(y: int, m: int): int
    requires 1 <= m <= 12
  {
    [0, 31, 59, 90, 120, 151, 181, 212, 243, 273, 304, 334][m - 1]
    + (if m > 2 && IsLeapYear(y) then 1 else 0)
  }

  /** Days from 0001-01-01 to January 1st of year `y`. */
  function DaysBeforeYear(y: int): int
    requires y >= 1
  {
    var p := y - 1;
    365 * p + p / 4 - p / 100 + p / 400
  }

  /** Day number of the date y-m-d; 0001-01-01 is day 0. */
  function DaysFromCivil(y: int, m: int, d: int): int
    requires y >= 1 && 1 <= m <= 12
  {
    DaysBeforeYear(y) + DaysBeforeMonth(y, m) + d - 1
  }

  function NextMonth(m: Month): Month {
    if m.month == 12 then YearMonth(m.year + 1, 1) else YearMonth(m.year, m.month + 1)
  }

  /** Months counted from January of year 0, so that later months have larger indices. */
  function MonthIndex(m: Month): int {
    12 * m.year + m.month
  }

  function FirstDay(m: Month): int {
    DaysFromCivil(m.year, m.month, 1)
  }

  function LastDay(m: Month): int {
    DaysFromCivil(m.year, m.month, DaysInMonth(m.year, m.month))
  }

  const ReferenceDay := DaysFromCivil(2024, 9, 22)

  /** A year has 366 days exactly when it is a leap year. */
  lemma YearLength(y: int)
    requires y >= 1
    ensures DaysBeforeYear(y + 1) == DaysBeforeYear(y) + (if IsLeapYear(y) then 366 else 365)
  {
    var p := y - 1;
    DivStep(p, 4);
    DivStep(p, 100);
    DivStep(p, 400);
    if y % 400 == 0 {
      MultipleOf400(y);
    }
    if y % 100 == 0 {
      MultipleOf100(y);
    }
    assert DaysBeforeYear(y + 1) == 365 * y + y / 4 - y / 100 + y / 400;
    assert DaysBeforeYear(y) == 365 * p + p / 4 - p / 100 + p / 400;
  }

  /** A multiple of 400 is a multiple of 100. */
  lemma MultipleOf400(y: int)
    requires y % 400 == 0
    ensures y % 100 == 0
  {
    var q := y / 400;
    assert y == 400 * q;
    assert y == 100 * (4 * q) + 0;
  }

  /** A multiple of 100 is a multiple of 4. */
  lemma MultipleOf100(y: int)
    requires y % 100 == 0
    ensures y % 4 == 0
  {
    var q := y / 100;
    assert y == 100 * q;
    assert y == 4 * (25 * q) + 0;
  }

  /** Counting the multiples of k (4, 100 or 400) up to p + 1 adds one exactly when p + 1 is one. */
  lemma DivStep(p: int, k: int)
    requires p >= 0 && (k == 4 || k == 100 || k == 400)
    ensures (p + 1) / k == p / k + (if (p + 1) % k == 0 then 1 else 0)
  {
    if k == 4 {
      assert (p + 1) / 4 == p / 4 + (if (p + 1) % 4 == 0 then 1 else 0);
    } else if k == 100 {
      assert (p + 1) / 100 == p / 100 + (if (p + 1) % 100 == 0 then 1 else 0);
    } else {
      assert (p + 1) / 400 == p / 400 + (if (p + 1) % 400 == 0 then 1 else 0);
    }
  }

  /** The month after `m` starts the day after `m` ends, December to January included. */
  lemma NextMonthFollows(m: Month)
    ensures FirstDay(NextMonth(m)) == LastDay(m) + 1
    ensures LastDay(m) - FirstDay(m) + 1 == DaysInMonth(m.year, m.month)
  {
    if m.month == 12 {
      YearLength(m.year);
    }
  }

  /** Later months start on later days. */
  lemma {:induction false} FirstDayIncreasing(a: Month, b: Month)
    requires MonthIndex(a) < MonthIndex(b)
    ensures FirstDay(a) < FirstDay(b)
    decreases MonthIndex(b) - MonthIndex(a)
  {
    NextMonthFollows(a);
    var n := NextMonth(a);
    assert MonthIndex(n) == MonthIndex(a) + 1;
    if MonthIndex(n) < MonthIndex(b) {
      FirstDayIncreasing(n, b);
    } else {
      assert n == b;
    }
  }

  // ---------------------------------------------------------------------------------------------
  // Instants and differenceInDays

  /** A local date-time: a day number and the millisecond within that day. */
  datatype Instant = Instant(day: int, ms: int)

  function EpochMs(t: Instant): int {
    t.day * MsPerDay + t.ms
  }

  /** Integer division truncating toward zero, as `Math.trunc(a / b)`. */
  function TruncDiv(a: int, b: int): int
    requires b > 0
  {
    if a >= 0 then a / b else -((-a) / b)
  }

  /** date-fns `differenceInDays`: the number of full days from `earlier` to `later`, signed. */
  function DifferenceInDays(later: Instant, earlier: Instant): int {
    TruncDiv(EpochMs(later) - EpochMs(earlier), MsPerDay)
  }

  function StartOfMonth(m: Month): Instant {
    Instant(FirstDay(m), 0)
  }

  function EndOfMonth(m: Month): Instant {
    Instant(LastDay(m), MsPerDay - 1)
  }

  const ReferenceDate := Instant(ReferenceDay, 0)

  // ---------------------------------------------------------------------------------------------
  // Parsing "yyyyMM"

  predicate IsDigit(c: char) {
    '0' <= c <= '9'
  }

  /** Length of the longest prefix of `s` made of at most `max` digits. */
  function DigitRun(s: string, max: nat): (n: nat)
    ensures n <= max && n <= |s|
    ensures forall i :: 0 <= i < n ==> IsDigit(s[i])
    ensures n < max && n < |s| ==> !IsDigit(s[n])
  {
    if max == 0 || s == [] || !IsDigit(s[0]) then 0 else 1 + DigitRun(s[1..], max - 1)
  }

  /** The decimal value of a string of digits. */
  function DecimalValue(s: string): nat
    requires forall i :: 0 <= i < |s| ==> IsDigit(s[i])
  {
    if s == [] then 0
    else
      assert IsDigit(s[|s| - 1]);
      10 * DecimalValue(s[..|s| - 1]) + (s[|s| - 1] as int - '0' as int)
  }

  /** date-fns `parse(s, "yyyyMM", ...)`; None where it yields an Invalid Date. */
  function ParseYearMonth(s: string): (r: Option<Month>)
    ensures r.Some? ==> 4 < |s| && forall i :: 0 <= i < 5 ==> IsDigit(s[i])
  {
    var yearDigits := DigitRun(s, 4);
    var rest := s[yearDigits..];
    var monthDigits := DigitRun(rest, 2);
    if yearDigits == 0 || monthDigits == 0 then None
    else
      var year := DecimalValue(s[..yearDigits]);
      var month := DecimalValue(rest[..monthDigits]);
      if year > 0 && 1 <= month <= 12 && JsStrings.AllWhitespace(rest[monthDigits..])
      then var m: Month := YearMonth(year, month); Some(m)
      else None
  }

  // ---------------------------------------------------------------------------------------------
  // The window

  datatype PidWindow = PidWindow(pidStart: int, pidEnd: int)

  /** The window getPIDMonthStartEnd computes for a well-formed month. */
  function MonthWindow(m: Month): PidWindow {
    PidWindow(ReferencePID + DifferenceInDays(StartOfMonth(m), ReferenceDate),
              ReferencePID + DifferenceInDays(EndOfMonth(m), ReferenceDate))
  }

  /** getPIDMonthStartEnd; None stands for the `{PIDStart: NaN, PIDEnd: NaN}` of an unparsable input. */
  function GetPIDMonthStartEnd(dateYearMonth: string): Option<PidWindow> {
    match ParseYearMonth(dateYearMonth)
    case None => None
    case Some(m) => Some(MonthWindow(m))
  }

  /** PIDStart is 203 plus the signed number of calendar days from 2024-09-22 to the 1st. */
  lemma WindowStart(m: Month)
    ensures MonthWindow(m).pidStart == ReferencePID + FirstDay(m) - ReferenceDay
  {
    var d := FirstDay(m) - ReferenceDay;
    assert EpochMs(StartOfMonth(m)) - EpochMs(ReferenceDate) == d * MsPerDay;
  }

  /** PIDEnd is 203 plus the calendar days from the anchor to the last day of the month, except
      that a month ending before the anchor gets one more: 23:59:59.999 truncates toward zero. */
  lemma WindowEnd(m: Month)
    ensures MonthWindow(m).pidEnd
         == ReferencePID + LastDay(m) - ReferenceDay + (if LastDay(m) < ReferenceDay then 1 else 0)
  {
    var d := LastDay(m) - ReferenceDay;
    var diff := EpochMs(EndOfMonth(m)) - EpochMs(ReferenceDate);
    assert diff == d * MsPerDay + MsPerDay - 1;
    if d >= 0 {
      assert diff / MsPerDay == d;
    } else {
      assert -diff == (-d - 1) * MsPerDay + 1;
      assert (-diff) / MsPerDay == -d - 1;
    }
  }

  /** The window holds as many ids as the month has days (28, 29, 30 or 31 by the leap rule),
      plus one for a month that ends before the anchor. */
  lemma WindowLength(m: Month)
    ensures MonthWindow(m).pidEnd - MonthWindow(m).pidStart + 1
         == DaysInMonth(m.year, m.month) + (if LastDay(m) < ReferenceDay then 1 else 0)
    ensures MonthWindow(m).pidStart <= MonthWindow(m).pidEnd
  {
    WindowStart(m);
    WindowEnd(m);
    NextMonthFollows(m);
  }

  /** From the anchor's month on, consecutive windows meet without a gap or an overlap. */
  lemma WindowsTileFromAnchor(m: Month)
    requires LastDay(m) >= ReferenceDay
    ensures MonthWindow(m).pidEnd + 1 == MonthWindow(NextMonth(m)).pidStart
  {
    WindowEnd(m);
    WindowStart(NextMonth(m));
    NextMonthFollows(m);
  }

  /** Before the anchor, each window ends on the id that starts the next one. */
  lemma WindowsOverlapBeforeAnchor(m: Month)
    requires LastDay(m) < ReferenceDay
    ensures MonthWindow(m).pidEnd == MonthWindow(NextMonth(m)).pidStart
  {
    WindowEnd(m);
    WindowStart(NextMonth(m));
    NextMonthFollows(m);
  }

  /** A later month has a strictly larger PIDStart; nothing clamps the ids. */
  lemma WindowStartIncreasing(a: Month, b: Month)
    requires MonthIndex(a) < MonthIndex(b)
    ensures MonthWindow(a).pidStart < MonthWindow(b).pidStart
  {
    WindowStart(a);
    WindowStart(b);
    FirstDayIncreasing(a, b);
  }

  // ---------------------------------------------------------------------------------------------
  // Parsing facts

  function DigitValue(c: char): int {
    c as int - '0' as int
  }

  lemma DecimalValueUnfold(s: string)
    requires s != [] && forall i :: 0 <= i < |s| ==> IsDigit(s[i])
    ensures DecimalValue(s) == 10 * DecimalValue(s[..|s| - 1]) + DigitValue(s[|s| - 1])
  {
  }

  /** Six digits `yyyyMM` name year yyyy and month MM, when the year is positive and MM is 01..12. */
  lemma ParseSixDigits(s: string)
    requires |s| == 6 && forall i :: 0 <= i < 6 ==> IsDigit(s[i])
    ensures var year := 1000 * DigitValue(s[0]) + 100 * DigitValue(s[1]) + 10 * DigitValue(s[2]) + DigitValue(s[3]);
            var month := 10 * DigitValue(s[4]) + DigitValue(s[5]);
            ParseYearMonth(s) == if year > 0 && 1 <= month <= 12 then Some(YearMonth(year, month)) else None
  {
    assert DigitRun(s, 4) == 4;
    assert DigitRun(s[4..], 2) == 2;
    var y := s[..4];
    assert y[..3][..2][..1][..0] == [];
    DecimalValueUnfold(y);
    DecimalValueUnfold(y[..3]);
    DecimalValueUnfold(y[..3][..2]);
    DecimalValueUnfold(y[..3][..2][..1]);
    var mo := s[4..][..2];
    assert mo[..1][..0] == [];
    DecimalValueUnfold(mo);
    DecimalValueUnfold(mo[..1]);
    assert s[4..][2..] == [];
  }

  lemma ParseAnchorMonth()
    ensures ParseYearMonth("202409") == Some(YearMonth(2024, 9))
  {
    ParseSixDigits("202409");
  }

  /** The `yyyy-mm` form the comment mentions does not parse. */
  lemma ParseRejectsDashedForm()
    ensures ParseYearMonth("2024-09") == None
  {
    assert DigitRun("2024-09", 4) == 4;
    assert "2024-09"[4..] == "-09";
    assert DigitRun("-09", 2) == 0;
  }

  /** Month digits outside 01..12 do not parse. */
  lemma ParseRejectsBadMonths()
    ensures ParseYearMonth("202413") == None
    ensures ParseYearMonth("202400") == None
  {
    ParseSixDigits("202413");
    ParseSixDigits("202400");
  }

  /** The window of a month given by the calendar days of its first and last day. */
  lemma WindowOf(s: string, m: Month)
    requires ParseYearMonth(s) == Some(m)
    ensures GetPIDMonthStartEnd(s)
         == Some(PidWindow(ReferencePID + FirstDay(m) - ReferenceDay,
                           ReferencePID + LastDay(m) - ReferenceDay + (if LastDay(m) < ReferenceDay then 1 else 0)))
  {
    WindowStart(m);
    WindowEnd(m);
  }

  /** The anchor's month: ids 182..211, and 203 lies inside. */
  lemma September2024()
    ensures GetPIDMonthStartEnd("202409") == Some(PidWindow(182, 211))
  {
    ParseAnchorMonth();
    var m: Month := YearMonth(2024, 9);
    assert FirstDay(m) - ReferenceDay == -21 && LastDay(m) - ReferenceDay == 8;
    WindowOf("202409", m);
  }

  lemma ParseJanuary()
    ensures ParseYearMonth("202401") == Some(YearMonth(2024, 1))
  {
    ParseSixDigits("202401");
  }

  /** Months long before the anchor get ids below one: January 2024 is -62..-31. */
  lemma January2024()
    ensures GetPIDMonthStartEnd("202401") == Some(PidWindow(-62, -31))
  {
    ParseJanuary();
    var m: Month := YearMonth(2024, 1);
    assert FirstDay(m) - ReferenceDay == -265 && LastDay(m) - ReferenceDay == -235;
    WindowOf("202401", m);
  }

  lemma ParseAugust()
    ensures ParseYearMonth("202408") == Some(YearMonth(2024, 8))
  {
    ParseSixDigits("202408");
  }

  /** August 2024, the month before the anchor's: ids 151..182. */
  lemma August2024()
    ensures GetPIDMonthStartEnd("202408") == Some(PidWindow(151, 182))
  {
    ParseAugust();
    var m: Month := YearMonth(2024, 8);
    assert FirstDay(m) - ReferenceDay == -52 && LastDay(m) - ReferenceDay == -22;
    WindowOf("202408", m);
  }

  /** August 2024 ends on id 182, which is also the first id of September 2024. */
  lemma AugustOverlapsSeptember()
    ensures GetPIDMonthStartEnd("202408").Some? && GetPIDMonthStartEnd("202409").Some?
    ensures GetPIDMonthStartEnd("202408").value.pidEnd == GetPIDMonthStartEnd("202409").value.pidStart == 182
  {
    August2024();
    September2024();
  }

  // ---------------------------------------------------------------------------------------------
  // The intended window: one id per calendar day of the month

  function IntendedWindow(m: Month): PidWindow {
    PidWindow(ReferencePID + FirstDay(m) - ReferenceDay, ReferencePID + LastDay(m) - ReferenceDay)
  }

  /** The intended windows hold exactly one id per day and tile every pair of consecutive
      months; they agree with MonthWindow from the anchor's month on. */
  lemma IntendedWindowsTile(m: Month)
    ensures IntendedWindow(m).pidEnd - IntendedWindow(m).pidStart + 1 == DaysInMonth(m.year, m.month)
    ensures IntendedWindow(m).pidEnd + 1 == IntendedWindow(NextMonth(m)).pidStart
    ensures LastDay(m) >= ReferenceDay ==> IntendedWindow(m) == MonthWindow(m)
  {
    NextMonthFollows(m);
    WindowStart(m);
    WindowEnd(m);
  }
}
