/** The client's calendar arithmetic: the proleptic Gregorian calendar that
    JavaScript's Date implements, the `YYYY-MM-DD` keys produced by isoDate,
    and the month cursor moved by the previous/next buttons. */
module Dates {
  import opened Wrappers
  import opened Text

  // ---------------------------------------------------------------------
  // Gregorian calendar. Months are numbered 0..11, as Date.getMonth()
  // numbers them; years are astronomical (year 0 exists and is a leap year).

  predicate IsLeap(y: int) {
    y % 4 == 0 && (y % 100 != 0 || y % 400 == 0)
  }

  /** `new Date(y, m + 1, 0).getDate()`: the last day of month m of year y. */
  function DaysInMonth(y: int, m: int): (r: int)
    requires 0 <= m < 12
    ensures 28 <= r <= 31
    ensures r == 29 <==> m == 1 && IsLeap(y)
    ensures r == 31 <==> (m == 0 || m == 2 || m == 4 || m == 6 || m == 7 || m == 9 || m == 11)
  {
    if m == 1 then (if IsLeap(y) then 29 else 28)
    else if m == 3 || m == 5 || m == 8 || m == 10 then 30
    else 31
  }

  /** Days of year y before the first of month m (m == 12: the whole year). */
  function MonthOffset(y: int, m: int): int
    requires 0 <= m <= 12
  {
    [0, 31, 59, 90, 120, 151, 181, 212, 243, 273, 304, 334, 365][m]
      + (if m >= 2 && IsLeap(y) then 1 else 0)
  }

  /** The offset table is the running sum of the month lengths. */
  lemma MonthOffsetStep(y: int, m: int)
    requires 0 <= m < 12
    ensures MonthOffset(y, m + 1) == MonthOffset(y, m) + DaysInMonth(y, m)
  {
  }

  /** The twelve months of a year add up to the length of the year. */
  lemma YearOfMonths(y: int)
    ensures MonthOffset(y, 12) == if IsLeap(y) then 366 else 365
  {
  }

  /** Days from 0000-01-01 to the first of January of year y (negative for
      negative years); the three quotients count the leap years in between. */
  function YearStart(y: int): int {
    365 * y + (y + 3) / 4 - (y + 99) / 100 + (y + 399) / 400
  }

  lemma FloorStep4(y: int)
    ensures (y + 4) / 4 - (y + 3) / 4 == if y % 4 == 0 then 1 else 0
  {
  }

  lemma FloorStep100(y: int)
    ensures (y + 100) / 100 - (y + 99) / 100 == if y % 100 == 0 then 1 else 0
  {
  }

  lemma FloorStep400(y: int)
    ensures (y + 400) / 400 - (y + 399) / 400 == if y % 400 == 0 then 1 else 0
  {
  }

  /** Consecutive year starts are one year length apart. */
  lemma YearStartStep(y: int)
    ensures YearStart(y + 1) == YearStart(y) + MonthOffset(y, 12)
  {
    FloorStep4(y);
    FloorStep100(y);
    FloorStep400(y);
    YearOfMonths(y);
    var a4 := (y + 4) / 4 - (y + 3) / 4;
    var a100 := (y + 100) / 100 - (y + 99) / 100;
    var a400 := (y + 400) / 400 - (y + 399) / 400;
    assert YearStart(y + 1) == YearStart(y) + 365 + a4 - a100 + a400;
    DivisorsOfCentury(y);
  }

  /** A multiple of 400 is one of 100, and a multiple of 100 one of 4. */
  lemma DivisorsOfCentury(y: int)
    ensures y % 400 == 0 ==> y % 100 == 0
    ensures y % 100 == 0 ==> y % 4 == 0
  {
    if y % 400 == 0 {
      var q := y / 400;
      assert y == 100 * (4 * q);
      MultipleOf100(4 * q);
    }
    if y % 100 == 0 {
      var q := y / 100;
      assert y == 4 * (25 * q);
      MultipleOf4(25 * q);
    }
  }

  lemma MultipleOf100(p: int)
    ensures (100 * p) % 100 == 0
  {
  }

  lemma MultipleOf4(p: int)
    ensures (4 * p) % 4 == 0
  {
  }

  /** Days from 0000-01-01 to day d of month m of year y. */
  function DayNumber(y: int, m: int, d: int): int
    requires 0 <= m < 12
  {
    YearStart(y) + MonthOffset(y, m) + (d - 1)
  }

  /** Date.prototype.getDay(): 0 is Sunday. 0000-01-01 was a Saturday. */
  function Weekday(y: int, m: int, d: int): (r: int)
    requires 0 <= m < 12
    ensures 0 <= r < 7
  {
    (DayNumber(y, m, d) + 6) % 7
  }

  /** Two fixed points of the weekday rule: 1970-01-01 (the Unix epoch) was a
      Thursday and 2025-01-01 a Wednesday. */
  lemma WeekdayAnchors()
    ensures Weekday(1970, 0, 1) == 4
    ensures Weekday(2025, 0, 1) == 3
  {
  }

  // ---------------------------------------------------------------------
  // The month cursor. The client keeps `currentMonth` as a Date on the
  // first of a month; only its year and month matter.

  /** A calendar month: `month` is 0-based, as Date.getMonth() returns it. */
  datatype YearMonth = YearMonth(year: int, month: int) {
    predicate Valid() {
      0 <= month < 12
    }
  }

  /** Months elapsed since January of year 0. */
  function Index(c: YearMonth): int {
    c.year * 12 + c.month
  }

  /** The month Date's constructor lands on for `new Date(y, m, 1)` when m
      is out of 0..11: whole years carry into the year. */
  function Normalize(y: int, m: int): (r: YearMonth)
    ensures r.Valid()
    ensures Index(r) == y * 12 + m
  {
    YearMonth(y + m / 12, m % 12)
  }

  lemma IndexInjective(a: YearMonth, b: YearMonth)
    requires a.Valid() && b.Valid() && Index(a) == Index(b)
    ensures a == b
  {
  }

  /** The month before c (prevMonth, corrected as in the findings). */
  function Prev(c: YearMonth): (r: YearMonth)
    ensures r.Valid() && Index(r) == Index(c) - 1
  {
    Normalize(c.year, c.month - 1)
  }

  /** The month after c (nextMonth, corrected as in the findings). */
  function Next(c: YearMonth): (r: YearMonth)
    ensures r.Valid() && Index(r) == Index(c) + 1
  {
    Normalize(c.year, c.month + 1)
  }

  /** Moving back wraps January to December of the year before; moving
      forward wraps December to January of the year after; inside a year
      only the month changes. */
  lemma CursorWraps(c: YearMonth)
    requires c.Valid()
    ensures Prev(c) == if c.month == 0 then YearMonth(c.year - 1, 11) else YearMonth(c.year, c.month - 1)
    ensures Next(c) == if c.month == 11 then YearMonth(c.year + 1, 0) else YearMonth(c.year, c.month + 1)
  {
    var p := if c.month == 0 then YearMonth(c.year - 1, 11) else YearMonth(c.year, c.month - 1);
    var n := if c.month == 11 then YearMonth(c.year + 1, 0) else YearMonth(c.year, c.month + 1);
    IndexInjective(Prev(c), p);
    IndexInjective(Next(c), n);
  }

  /** Previous and next undo each other. */
  lemma CursorRoundTrip(c: YearMonth)
    requires c.Valid()
    ensures Next(Prev(c)) == c
    ensures Prev(Next(c)) == c
  {
    IndexInjective(Next(Prev(c)), c);
    IndexInjective(Prev(Next(c)), c);
  }

  /** The first of the next month falls as many days after the first of
      this month as this month has days. */
  lemma NextMonthDayNumber(c: YearMonth)
    requires c.Valid()
    ensures DayNumber(Next(c).year, Next(c).month, 1) == DayNumber(c.year, c.month, 1) + DaysInMonth(c.year, c.month)
  {
    CursorWraps(c);
    MonthOffsetStep(c.year, c.month);
    if c.month == 11 {
      YearStartStep(c.year);
    }
  }

  /** So the calendar's leading padding for the next month is this month's
      padding plus this month's length, modulo 7. */
  lemma NextMonthStartDay(c: YearMonth)
    requires c.Valid()
    ensures Weekday(Next(c).year, Next(c).month, 1) == (Weekday(c.year, c.month, 1) + DaysInMonth(c.year, c.month)) % 7
  {
    NextMonthDayNumber(c);
    var x := DayNumber(c.year, c.month, 1);
    var n := DaysInMonth(c.year, c.month);
    ModAddLeft(x + 6, n);
  }

  lemma ModAddLeft(a: int, b: int)
    ensures (a + b) % 7 == (a % 7 + b) % 7
  {
  }

  // ---------------------------------------------------------------------
  // The cursor as app.js moves it. `new Date(y, m, 1)` reads a year
  // argument from 0 to 99 as 1900 + y before carrying months into it.

  function DateCtorYear(y: int): int {
    if 0 <= y <= 99 then 1900 + y else y
  }

  /** `new Date(c.year, c.month - 1, 1)`, as prevMonth builds it. */
  function PrevAsWritten(c: YearMonth): (r: YearMonth)
    ensures r.Valid()
  {
    Normalize(DateCtorYear(c.year), c.month - 1)
  }

  /** `new Date(c.year, c.month + 1, 1)`, as nextMonth builds it. */
  function NextAsWritten(c: YearMonth): (r: YearMonth)
    ensures r.Valid()
  {
    Normalize(DateCtorYear(c.year), c.month + 1)
  }

  /** Outside the years 0..99 the code as written moves exactly one month. */
  lemma AsWrittenAgreesOutsideTwoDigitYears(c: YearMonth)
    requires !(0 <= c.year <= 99)
    ensures PrevAsWritten(c) == Prev(c) && NextAsWritten(c) == Next(c)
  {
  }

  /** From January of year 100, "previous" reaches December of year 99, and
      "next" from there jumps to January 2000 instead of coming back. */
  lemma AsWrittenRoundTripFails()
    ensures PrevAsWritten(YearMonth(100, 0)) == YearMonth(99, 11)
    ensures NextAsWritten(PrevAsWritten(YearMonth(100, 0))) == YearMonth(2000, 0)
    ensures NextAsWritten(PrevAsWritten(YearMonth(100, 0))) != YearMonth(100, 0)
  {
  }

  // ---------------------------------------------------------------------
  // isoDate: `${y}-${pad2(m + 1)}-${pad2(d)}`.

  /** String(k).padStart(2, "0"). */
  function Pad2(k: nat): (r: string)
    ensures k < 100 ==> |r| == 2
    ensures AllDigits(r) && DigitsValue(r) == k
  {
    DecimalRoundTrip(k);
    var s := NatToDecimal(k);
    if k < 10 then
      assert DigitsValue("0" + s) == DigitsValue(s) by {
        assert ("0" + s)[..1] == "0";
      }
      "0" + s
    else
      assert |s| == |NatToDecimal(k / 10)| + 1;
      s
  }

  /** isoDate for the date with year y, 0-based month m and day d. */
  function IsoDate(y: int, m: int, d: int): (r: string)
    requires 0 <= m < 12 && 1 <= d <= 31
    ensures |r| >= 7 && r[|r| - 6] == '-' && r[|r| - 3] == '-'
  {
    IntToDecimal(y) + "-" + Pad2(m + 1) + "-" + Pad2(d)
  }

  /** Reads an integer written as String(i) does: digits, optionally after
      a minus sign. */
  function ParseSigned(s: string): Option<int> {
    if s != [] && s[0] == '-' && |s| > 1 && AllDigits(s[1..]) then Some(0 - DigitsValue(s[1..]) as int)
    else if s != [] && AllDigits(s) then Some(DigitsValue(s))
    else None
  }

  lemma ParseSignedRoundTrip(i: int)
    ensures ParseSigned(IntToDecimal(i)) == Some(i)
  {
    if i < 0 {
      DecimalRoundTrip(-i);
      assert IntToDecimal(i)[1..] == NatToDecimal(-i);
    } else {
      DecimalRoundTrip(i);
    }
  }

  datatype DateParts = DateParts(year: int, month: int, day: int)

  /** Splits a `Y-MM-DD` key into its year, 1-based month and day. */
  function ParseIsoDate(s: string): Option<DateParts> {
    if |s| < 7 || s[|s| - 6] != '-' || s[|s| - 3] != '-' then None
    else
      var mm := s[|s| - 5..|s| - 3];
      var dd := s[|s| - 2..];
      if !AllDigits(mm) || !AllDigits(dd) then None
      else match ParseSigned(s[..|s| - 6])
        case None => None
        case Some(y) => Some(DateParts(y, DigitsValue(mm), DigitsValue(dd)))
  }

  /** An isoDate key reads back as the year, the 1-based month and the day
      it was made from. */
  lemma IsoDateRoundTrip(y: int, m: int, d: int)
    requires 0 <= m < 12 && 1 <= d <= 31
    ensures ParseIsoDate(IsoDate(y, m, d)) == Some(DateParts(y, m + 1, d))
  {
    SplitIso(IntToDecimal(y), Pad2(m + 1), Pad2(d));
    ParseSignedRoundTrip(y);
  }

  /** Where the three parts of `a-b-c` sit, for two-character b and c. */
  lemma SplitIso(a: string, b: string, c: string)
    requires |b| == 2 && |c| == 2
    ensures var r := a + "-" + b + "-" + c;
            && |r| == |a| + 6 && r[|a|] == '-' && r[|a| + 3] == '-'
            && r[..|a|] == a && r[|a| + 1..|a| + 3] == b && r[|a| + 4..] == c
  {
    var r := a + "-" + b + "-" + c;
    assert r == a + ("-" + b + "-" + c);
  }

  /** Keys of distinct days are distinct. */
  lemma IsoDateInjective(y1: int, m1: int, d1: int, y2: int, m2: int, d2: int)
    requires 0 <= m1 < 12 && 1 <= d1 <= 31 && 0 <= m2 < 12 && 1 <= d2 <= 31
    requires IsoDate(y1, m1, d1) == IsoDate(y2, m2, d2)
    ensures y1 == y2 && m1 == m2 && d1 == d2
  {
    IsoDateRoundTrip(y1, m1, d1);
    IsoDateRoundTrip(y2, m2, d2);
  }

  /** A `full-date` of section 5.6 of RFC 3339: four-digit year, two-digit
      month 01-12 and two-digit day within the month, separated by '-'. */
  predicate IsFullDate(s: string) {
    && |s| == 10 && s[4] == '-' && s[7] == '-'
    && AllDigits(s[..4]) && AllDigits(s[5..7]) && AllDigits(s[8..])
    && 1 <= DigitsValue(s[5..7]) <= 12
    && 1 <= DigitsValue(s[8..]) <= DaysInMonth(DigitsValue(s[..4]), DigitsValue(s[5..7]) - 1)
  }

  lemma FourDigits(y: nat)
    requires 1000 <= y <= 9999
    ensures |NatToDecimal(y)| == 4
  {
    assert |NatToDecimal(y / 1000)| == 1;
    assert |NatToDecimal(y / 100)| == |NatToDecimal(y / 1000)| + 1;
    assert |NatToDecimal(y / 10)| == |NatToDecimal(y / 100)| + 1;
  }

  /** For the years 1000..9999 and a day that exists, isoDate writes an
      RFC 3339 full-date (other years have fewer or more than four digits,
      or a sign). */
  lemma IsoDateIsFullDate(y: int, m: int, d: int)
    requires 1000 <= y <= 9999 && 0 <= m < 12 && 1 <= d <= DaysInMonth(y, m)
    ensures IsFullDate(IsoDate(y, m, d))
  {
    FourDigits(y);
    DecimalRoundTrip(y);
    SplitIso(NatToDecimal(y), Pad2(m + 1), Pad2(d));
  }
}
