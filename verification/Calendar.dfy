/** Civil dates and the time layouts of internal/uniquename, in a zone with a fixed offset. */
module Calendar {
  import opened Options

  // ---------- Digits ----------

  function Power10(w: nat): nat {
    if w == 0 then 1 else 10 * Power10(w - 1)
  }

  /** n in decimal with w digits. */
  function Digits(n: nat, w: nat): (s: string)
    ensures |s| == w && forall i | 0 <= i < w :: '0' <= s[i] <= '9'
  {
    if w == 0 then [] else Digits(n / 10, w - 1) + ['0' + (n % 10) as char]
  }

  function Number(s: string): Option<nat> {
    if s == [] then Some(0)
    else
      var rest, c := Number(s[..|s| - 1]), s[|s| - 1];
      if rest == None || !('0' <= c <= '9') then None else Some(10 * rest.value + (c - '0') as nat)
  }

  lemma {:induction false} NumberOfDigits(n: nat, w: nat)
    requires n < Power10(w)
    ensures Number(Digits(n, w)) == Some(n)
  {
    if 0 < w {
      NumberOfDigits(n / 10, w - 1);
      assert Digits(n, w)[..w - 1] == Digits(n / 10, w - 1);
    }
  }

  /** Only the digits of a number are read as it. */
  lemma {:induction false} DigitsOfNumber(s: string)
    requires Number(s).Some?
    ensures Number(s).value < Power10(|s|) && Digits(Number(s).value, |s|) == s
  {
    if s != [] {
      var n := |s| - 1;
      var d := LastOfNumber(s);
      DigitsOfNumber(s[..n]);
      DigitAppended(Number(s[..n]).value, d, n);
      assert s == s[..n] + [s[n]];
    }
  }

  lemma LastOfNumber(s: string) returns (d: nat)
    requires s != [] && Number(s).Some?
    ensures d < 10 && s[|s| - 1] == '0' + d as char
    ensures Number(s[..|s| - 1]).Some? && Number(s).value == 10 * Number(s[..|s| - 1]).value + d
  {
    d := (s[|s| - 1] - '0') as nat;
  }

  lemma DigitAppended(rest: nat, d: nat, w: nat)
    requires d < 10
    ensures Digits(10 * rest + d, w + 1) == Digits(rest, w) + ['0' + d as char]
  {
    LastDigit(rest, d);
  }

  lemma LastDigit(rest: nat, d: nat)
    requires d < 10
    ensures (10 * rest + d) / 10 == rest && (10 * rest + d) % 10 == d
  {
  }

  // ---------- Dates ----------

  predicate Leap(y: nat) {
    y % 4 == 0 && (y % 100 != 0 || y % 400 == 0)
  }

  function YearLength(y: nat): nat {
    if Leap(y) then 366 else 365
  }

  /** Days from the start of year 0 to the start of year y. */
  function YearStart(y: nat): nat {
    if y == 0 then 0 else YearStart(y - 1) + YearLength(y - 1)
  }

  function MonthLength(y: nat, m: nat): nat {
    if m == 2 then (if Leap(y) then 29 else 28)
    else if m == 4 || m == 6 || m == 9 || m == 11 then 30 else 31
  }

  /** Days from the start of the year to the start of month m. */
  function MonthStart(y: nat, m: nat): nat {
    if m <= 1 then 0 else MonthStart(y, m - 1) + MonthLength(y, m - 1)
  }

  datatype Date = Date(year: nat, month: nat, day: nat) {
    predicate Valid() {
      1 <= month <= 12 && 1 <= day <= MonthLength(year, month)
    }

    /** Days since the start of year 0. */
    function Days(): int {
      YearStart(year) + MonthStart(year, month) + day - 1
    }
  }

  /** The year that day d is in, at or after y. */
  function YearFrom(d: nat, y: nat): (r: nat)
    requires YearStart(y) <= d
    ensures YearStart(r) <= d < YearStart(r + 1) && y <= r
    decreases d - YearStart(y)
  {
    if d < YearStart(y + 1) then y else YearFrom(d, y + 1)
  }

  lemma MonthsFillYear(y: nat)
    ensures MonthStart(y, 13) == YearLength(y)
  {
    assert MonthStart(y, 2) == 31;
    assert MonthStart(y, 3) == 31 + MonthLength(y, 2);
    assert MonthStart(y, 5) == MonthStart(y, 3) + 61;
    assert MonthStart(y, 7) == MonthStart(y, 5) + 61;
    assert MonthStart(y, 9) == MonthStart(y, 7) + 62;
    assert MonthStart(y, 11) == MonthStart(y, 9) + 61;
    assert MonthStart(y, 13) == MonthStart(y, 11) + 61;
  }

  /** The month that day d of year y is in, at or after m. */
  function MonthFrom(y: nat, d: nat, m: nat): (r: nat)
    requires 1 <= m <= 12 && MonthStart(y, m) <= d < YearLength(y)
    ensures 1 <= r <= 12 && MonthStart(y, r) <= d < MonthStart(y, r + 1)
    decreases 12 - m
  {
    MonthsFillYear(y);
    if d < MonthStart(y, m + 1) then m else MonthFrom(y, d, m + 1)
  }

  /** The date of day d. */
  function DateOf(d: nat): Date {
    var y := YearFrom(d, 0);
    DateIn(y, d - YearStart(y))
  }

  /** The date of day d of year y. */
  function DateIn(y: nat, d: nat): Date
    requires d < YearLength(y)
  {
    var m := MonthFrom(y, d, 1);
    Date(y, m, d - MonthStart(y, m) + 1)
  }

  /** Dates and days correspond to each other. */
  lemma DateRoundTrip(d: nat)
    ensures DateOf(d).Valid() && DateOf(d).Days() == d
  {
  }

  lemma {:induction false} YearStartMonotone(y: nat, z: nat)
    requires y <= z
    ensures YearStart(y) <= YearStart(z)
  {
    if y < z {
      YearStartMonotone(y, z - 1);
    }
  }

  lemma {:induction false} MonthStartMonotone(y: nat, m: nat, n: nat)
    requires m <= n
    ensures MonthStart(y, m) <= MonthStart(y, n)
  {
    if m < n {
      MonthStartMonotone(y, m, n - 1);
    }
  }

  lemma NotBefore(a: Date, b: Date)
    requires a.Valid() && b.Valid() && a.Days() == b.Days()
    ensures b.year <= a.year && (a.year == b.year ==> b.month <= a.month)
  {
    DayIsInMonth(a);
    DayIsInMonth(b);
    if a.year < b.year {
      YearStartMonotone(a.year + 1, b.year);
    } else if a.month < b.month {
      MonthStartMonotone(b.year, a.month + 1, b.month);
    }
  }

  /** Different dates are different days. */
  lemma DayRoundTrip(date: Date)
    requires date.Valid()
    ensures 0 <= date.Days() && DateOf(date.Days()) == date
  {
    DateRoundTrip(date.Days());
    NotBefore(date, DateOf(date.Days()));
    NotBefore(DateOf(date.Days()), date);
  }

  lemma DayIsInMonth(date: Date)
    requires date.Valid()
    ensures var rest := date.Days() - YearStart(date.year);
      MonthStart(date.year, date.month) <= rest < MonthStart(date.year, date.month + 1) && rest < YearLength(date.year)
  {
    MonthStartMonotone(date.year, date.month + 1, 13);
    MonthsFillYear(date.year);
  }

  /** The days before year y: every fourth year is a leap year, but of those at centuries only every fourth. */
  function GregorianYears(y: nat): int {
    365 * y + (y + 3) / 4 - (y + 99) / 100 + (y + 399) / 400
  }

  /** The days before month m: from March on, month lengths of 31, 30, 31, 30, 31 repeat. */
  function GregorianMonths(leap: bool, m: nat): int {
    if m <= 2 then 31 * (m - 1) else 59 + (if leap then 1 else 0) + (153 * (m - 3) + 2) / 5
  }

  lemma {:induction false} YearStartClosed(y: nat)
    ensures YearStart(y) == GregorianYears(y)
  {
    if 0 < y {
      YearStartClosed(y - 1);
      CountFourths(y - 1);
      CountHundredths(y - 1);
      CountFourHundredths(y - 1);
      CenturiesAreFourths(y - 1);
    }
  }

  lemma CountFourths(n: nat)
    ensures (n + 4) / 4 == (n + 3) / 4 + if n % 4 == 0 then 1 else 0
  {
  }

  lemma CountHundredths(n: nat)
    ensures (n + 100) / 100 == (n + 99) / 100 + if n % 100 == 0 then 1 else 0
  {
  }

  lemma CountFourHundredths(n: nat)
    ensures (n + 400) / 400 == (n + 399) / 400 + if n % 400 == 0 then 1 else 0
  {
  }

  lemma CenturiesAreFourths(n: nat)
    ensures n % 400 == 0 ==> n % 100 == 0
    ensures n % 100 == 0 ==> n % 4 == 0
  {
    assert n % 400 == 0 ==> n == n / 400 * 4 * 100;
    assert n % 100 == 0 ==> n == n / 100 * 25 * 4;
  }

  lemma {:induction false} MonthStartClosed(y: nat, m: nat)
    requires 1 <= m <= 13
    ensures MonthStart(y, m) == GregorianMonths(Leap(y), m)
  {
    if 3 < m {
      MonthStartClosed(y, m - 1);
    } else {
      assert MonthStart(y, 2) == 31;
    }
  }

  /** The days of a date as the Gregorian calendar counts them, in closed form. */
  lemma DaysInClosedForm(date: Date)
    requires date.Valid()
    ensures var leap := date.year % 400 == 0 || (date.year % 4 == 0 && date.year % 100 != 0);
      date.Days() == GregorianYears(date.year) + GregorianMonths(leap, date.month) + date.day - 1
  {
    hide YearStart, MonthStart, GregorianYears, GregorianMonths;
    YearStartClosed(date.year);
    MonthStartClosed(date.year, date.month);
    CenturiesAreFourths(date.year);
  }

  // ---------- Times ----------

  /** Nanoseconds since the start of year 0 in UTC. */
  type Time = int

  const SECOND: int := 1_000_000_000
  const MINUTE: int := 60 * SECOND

  /** Go's zero time: the start of year 1 in UTC. */
  const ZERO_TIME: Time := 366 * 86400 * SECOND

  /** A zone's offset from UTC in seconds. */
  type Offset = int

  /** Seconds since the start of year 0 on the zone's clock. */
  function LocalSeconds(t: Time, zone: Offset): int {
    t / SECOND + zone
  }

  /** The date and the time of the day of a second. */
  datatype Clock = Clock(date: Date, hour: nat, minute: nat, second: nat) {
    predicate Valid() {
      date.Valid() && hour < 24 && minute < 60 && second < 60
    }

    function Seconds(): int {
      date.Days() * 86400 + hour * 3600 + minute * 60 + second
    }
  }

  function ClockOf(s: nat): Clock {
    var rest := s % 86400;
    Clock(DateOf(s / 86400), rest / 3600, rest % 3600 / 60, rest % 60)
  }

  lemma ClockRoundTrip(s: nat)
    ensures ClockOf(s).Valid() && ClockOf(s).Seconds() == s
  {
    DateRoundTrip(s / 86400);
    TimeOfDay(s % 86400);
  }

  lemma TimeOfDay(rest: nat)
    requires rest < 86400
    ensures rest / 3600 < 24 && rest / 3600 * 3600 + rest % 3600 / 60 * 60 + rest % 60 == rest
  {
  }

  lemma ReferenceDay()
    ensures Date(2006, 1, 2).Days() == 719528 + 13150
  {
    hide YearStart, MonthStart;
    YearStartClosed(2006);
    MonthStartClosed(2006, 1);
  }

  lemma FirstDayOf1970()
    ensures Date(1970, 1, 1).Days() == 719528
  {
    hide YearStart, MonthStart;
    YearStartClosed(1970);
    MonthStartClosed(1970, 1);
  }

  /** The second after the start of 1970 that Go's reference time is, 15:04:05 in a zone seven hours behind. */
  lemma ReferenceSecond()
    ensures var c := Clock(Date(2006, 1, 2), 15, 4, 5);
      c.Valid() && c.Seconds() == Clock(Date(1970, 1, 1), 0, 0, 0).Seconds() + 1136239445 - 7 * 3600
    ensures Clock(Date(1970, 1, 1), 0, 0, 0).Seconds() == 719528 * 86400
    ensures YearStart(10000) == 3652425
  {
    hide YearStart, MonthStart;
    ReferenceDay();
    FirstDayOf1970();
    YearStartClosed(10000);
  }

  lemma ZeroTimeIsYearOne()
    ensures Clock(Date(1, 1, 1), 0, 0, 0).Seconds() * SECOND == ZERO_TIME
  {
    DaysInClosedForm(Date(1, 1, 1));
  }

  /** Every clock is read off the second it stands for. */
  lemma ClockIsRead(c: Clock)
    requires c.Valid()
    ensures 0 <= c.Seconds() && ClockOf(c.Seconds()) == c
  {
    DayRoundTrip(c.date);
    TimeIsRead(c.date.Days(), c.hour, c.minute, c.second);
    hide DateOf;
  }

  lemma TimeIsRead(days: nat, hour: nat, minute: nat, second: nat)
    requires hour < 24 && minute < 60 && second < 60
    ensures var s := days * 86400 + hour * 3600 + minute * 60 + second;
      && s / 86400 == days && s % 86400 / 3600 == hour && s % 86400 % 3600 / 60 == minute && s % 86400 % 60 == second
  {
    var rest := hour * 3600 + minute * 60 + second;
    assert rest / 3600 == hour && rest % 3600 == minute * 60 + second;
    assert (minute * 60 + second) / 60 == minute && rest % 60 == second;
  }

  /** A character of the layout 2006-01-02T150405 */
  predicate LayoutChar(c: char) {
    '0' <= c <= '9' || c == '-' || c == 'T'
  }

  predicate InLayout(s: string) {
    forall i | 0 <= i < |s| :: LayoutChar(s[i])
  }

  /** The layout 2006-01-02T150405 */
  function FormatClock(c: Clock): (s: string)
    ensures |s| == 17 && InLayout(s)
  {
    Digits(c.date.year, 4) + "-" + Digits(c.date.month, 2) + "-" + Digits(c.date.day, 2)
      + "T" + Digits(c.hour, 2) + Digits(c.minute, 2) + Digits(c.second, 2)
  }

  /** The layout 20060102150405 */
  function FormatCompact(c: Clock): (s: string)
    ensures |s| == 14 && InLayout(s)
  {
    Digits(c.date.year, 4) + Digits(c.date.month, 2) + Digits(c.date.day, 2)
      + Digits(c.hour, 2) + Digits(c.minute, 2) + Digits(c.second, 2)
  }

  /** What s says in the layout 2006-01-02T150405, if it does and the clock exists. */
  function ParseClock(s: string): Option<Clock> {
    if |s| != 17 || s[4] != '-' || s[7] != '-' || s[10] != 'T' then None
    else
      var y, mo, d := Number(s[..4]), Number(s[5..7]), Number(s[8..10]);
      var h, mi, sec := Number(s[11..13]), Number(s[13..15]), Number(s[15..17]);
      if y == None || mo == None || d == None || h == None || mi == None || sec == None then None
      else
        var c := Clock(Date(y.value, mo.value, d.value), h.value, mi.value, sec.value);
        if c.Valid() then Some(c) else None
  }

  /** The offset that s says in the layout -0700. */
  function ParseZone(s: string): Option<Offset> {
    if |s| != 5 || (s[0] != '-' && s[0] != '+') then None
    else
      var h, m := Number(s[1..3]), Number(s[3..5]);
      if h == None || m == None || h.value > 24 || m.value > 60 then None
      else
        var offset := h.value * 3600 + m.value * 60;
        Some(if s[0] == '-' then -offset else offset)
  }

  /** The layout -0700 */
  function FormatZone(negative: bool, hours: nat, minutes: nat): (s: string)
    ensures |s| == 5
  {
    (if negative then "-" else "+") + Digits(hours, 2) + Digits(minutes, 2)
  }

  lemma ZoneParts(negative: bool, hours: nat, minutes: nat)
    ensures var s := FormatZone(negative, hours, minutes);
      && |s| == 5 && s[0] == (if negative then '-' else '+')
      && s[1..3] == Digits(hours, 2) && s[3..5] == Digits(minutes, 2)
  {
    hide Digits;
  }

  lemma ReadTwoDigits(n: nat)
    requires n < 100
    ensures Number(Digits(n, 2)) == Some(n)
  {
    assert Power10(2) == 100;
    NumberOfDigits(n, 2);
  }

  /** What is written is read back if it is an offset that Go reads, and refused otherwise. */
  lemma ParseFormatZone(negative: bool, hours: nat, minutes: nat)
    requires hours < 100 && minutes < 100
    ensures var offset := hours * 3600 + minutes * 60;
      ParseZone(FormatZone(negative, hours, minutes)) ==
        if hours <= 24 && minutes <= 60 then Some(if negative then -offset else offset) else None
  {
    hide FormatZone, Digits, Number;
    ZoneParts(negative, hours, minutes);
    ReadTwoDigits(hours);
    ReadTwoDigits(minutes);
  }

  lemma FormatParts(c: Clock)
    ensures var s := FormatClock(c);
      && |s| == 17 && s[4] == '-' && s[7] == '-' && s[10] == 'T'
      && s[..4] == Digits(c.date.year, 4) && s[5..7] == Digits(c.date.month, 2) && s[8..10] == Digits(c.date.day, 2)
      && s[11..13] == Digits(c.hour, 2) && s[13..15] == Digits(c.minute, 2) && s[15..17] == Digits(c.second, 2)
  {
  }

  /** The fields have as many digits as the layouts have room for. */
  predicate Fits(c: Clock) {
    && c.date.year < 10000 && c.date.month < 100 && c.date.day < 100
    && c.hour < 100 && c.minute < 100 && c.second < 100
  }

  lemma ReadYear(y: nat)
    requires y < 10000
    ensures Number(Digits(y, 4)) == Some(y)
  {
    assert Power10(4) == 10000;
    NumberOfDigits(y, 4);
  }

  /** What is written is read back if it is a time of the calendar, and refused otherwise. */
  lemma ParseFormat(c: Clock)
    requires Fits(c)
    ensures ParseClock(FormatClock(c)) == if c.Valid() then Some(c) else None
  {
    hide FormatClock, Digits, Number;
    FormatParts(c);
    ReadYear(c.date.year);
    ReadTwoDigits(c.date.month);
    ReadTwoDigits(c.date.day);
    ReadTwoDigits(c.hour);
    ReadTwoDigits(c.minute);
    ReadTwoDigits(c.second);
  }

  /** Nothing else is read than what is written for a time of the calendar. */
  lemma FormatParse(s: string)
    requires ParseClock(s).Some?
    ensures var c := ParseClock(s).value; c.Valid() && Fits(c) && FormatClock(c) == s
  {
    assert Power10(2) == 100 && Power10(4) == 10000;
    DigitsOfNumber(s[..4]);
    DigitsOfNumber(s[5..7]);
    DigitsOfNumber(s[8..10]);
    DigitsOfNumber(s[11..13]);
    DigitsOfNumber(s[13..15]);
    DigitsOfNumber(s[15..17]);
    hide Digits, Number, Power10;
    SplitLayout(s);
  }

  lemma SplitLayout(s: string)
    requires |s| == 17 && s[4] == '-' && s[7] == '-' && s[10] == 'T'
    ensures s == s[..4] + "-" + s[5..7] + "-" + s[8..10] + "T" + s[11..13] + s[13..15] + s[15..17]
  {
  }

  lemma FormatParseZone(s: string)
    requires ParseZone(s).Some?
    ensures exists negative, hours: nat, minutes: nat ::
      hours <= 24 && minutes <= 60 && FormatZone(negative, hours, minutes) == s
  {
    DigitsOfNumber(s[1..3]);
    DigitsOfNumber(s[3..5]);
    assert s == s[..1] + s[1..3] + s[3..5];
    assert FormatZone(s[0] == '-', Number(s[1..3]).value, Number(s[3..5]).value) == s;
  }

  /** What s says in the layout 20060102150405, by which nothing is read in the program. */
  function ReadCompact(s: string): Option<Clock>
    requires |s| == 14
  {
    ParseClock(s[..4] + "-" + s[4..6] + "-" + s[6..8] + "T" + s[8..])
  }

  /** The compact layout tells the time as well. */
  lemma CompactIsRead(c: Clock)
    requires c.Valid() && c.date.year < 10000
    ensures ReadCompact(FormatCompact(c)) == Some(c)
  {
    var s := FormatCompact(c);
    hide Digits, ParseClock;
    assert s[..4] == Digits(c.date.year, 4) && s[4..6] == Digits(c.date.month, 2) && s[6..8] == Digits(c.date.day, 2);
    assert s[8..] == Digits(c.hour, 2) + Digits(c.minute, 2) + Digits(c.second, 2);
    assert s[..4] + "-" + s[4..6] + "-" + s[6..8] + "T" + s[8..] == FormatClock(c);
    ParseFormat(c);
  }

  /** Two digits. */
  lemma TwoDigits(n: nat)
    requires n < 100
    ensures Digits(n, 2) == ['0' + (n / 10) as char, '0' + (n % 10) as char]
  {
    assert Digits(n / 10, 1) == Digits(n / 100, 0) + ['0' + (n / 10 % 10) as char];
  }

  lemma ReferenceYear()
    ensures Digits(2006, 4) == "2006"
  {
    DigitAppended(200, 6, 3);
    DigitAppended(20, 0, 2);
    DigitAppended(2, 0, 1);
    DigitAppended(0, 2, 0);
    assert Digits(0, 0) == "";
    hide Digits;
  }

  lemma ReferenceDate()
    ensures Digits(1, 2) == "01" && Digits(2, 2) == "02" && Digits(15, 2) == "15"
  {
    TwoDigits(1);
    TwoDigits(2);
    TwoDigits(15);
    hide Digits;
  }

  lemma ReferenceTime()
    ensures Digits(4, 2) == "04" && Digits(5, 2) == "05" && Digits(7, 2) == "07" && Digits(0, 2) == "00"
  {
    TwoDigits(4);
    TwoDigits(5);
    TwoDigits(7);
    TwoDigits(0);
    hide Digits;
  }

  /** In the layouts, the time by which Go describes layouts looks like their descriptions. */
  lemma LayoutsShowReference()
    ensures var c := Clock(Date(2006, 1, 2), 15, 4, 5);
      && FormatClock(c) == "2006-01-02T150405" && FormatCompact(c) == "20060102150405"
      && FormatZone(true, 7, 0) == "-0700"
  {
    ReferenceYear();
    ReferenceDate();
    ReferenceTime();
    hide Digits;
  }

  /** The zone's clock shows a year from 0 to 9999, which the layouts have digits for. */
  predicate InRange(t: Time, zone: Offset) {
    0 <= LocalSeconds(t, zone) < YearStart(10000) * 86400
  }

  lemma YearInRange(t: Time, zone: Offset)
    requires InRange(t, zone)
    ensures ClockOf(LocalSeconds(t, zone)).date.year < 10000
  {
    var d := LocalSeconds(t, zone) / 86400;
    var y := YearFrom(d, 0);
    if 10000 <= y {
      YearStartMonotone(10000, y);
    }
  }
}
