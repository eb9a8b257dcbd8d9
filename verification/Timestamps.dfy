/**
 Timestamps as the runtime stores them: text of the form `YYYY-MM-DD HH:MM:SS`, cut to whole
 seconds, compared by SQLite as text. The module proves that comparing the text is comparing the
 instants, and what the cut to whole seconds does to a lease.
 */
module Timestamps {

  /** A UTC date and time of day, to the second. */
  datatype Civil = Civil(year: nat, month: nat, day: nat, hour: nat, minute: nat, second: nat)

  predicate IsLeap(year: nat) {
    year % 4 == 0 && (year % 100 != 0 || year % 400 == 0)
  }

  function DaysInMonth(year: nat, month: nat): nat {
    if month == 2 then (if IsLeap(year) then 29 else 28)
    else if month in {4, 6, 9, 11} then 30
    else 31
  }

  /** A date of the Gregorian calendar whose year is written with four digits. */
  predicate Valid(c: Civil) {
    && c.year <= 9999
    && 1 <= c.month <= 12
    && 1 <= c.day <= DaysInMonth(c.year, c.month)
    && c.hour < 24 && c.minute < 60 && c.second < 60
  }

  // ----- the instant a date stands for -----

  function DaysBeforeMonth(year: nat, month: nat): nat {
    if month <= 1 then 0 else DaysBeforeMonth(year, month - 1) + DaysInMonth(year, month - 1)
  }

  function DaysInYear(year: nat): nat {
    if IsLeap(year) then 366 else 365
  }

  function DaysBeforeYear(year: nat): nat {
    if year == 0 then 0 else DaysBeforeYear(year - 1) + DaysInYear(year - 1)
  }

  function DayNumber(c: Civil): nat
    requires Valid(c)
  {
    DaysBeforeYear(c.year) + DaysBeforeMonth(c.year, c.month) + c.day - 1
  }

  /** Seconds since the start of year 0. */
  function Instant(c: Civil): nat
    requires Valid(c)
  {
    ((DayNumber(c) * 24 + c.hour) * 60 + c.minute) * 60 + c.second
  }

  lemma {:induction false} MonthsClosed(year: nat, month: nat)
    requires 1 <= month <= 13
    ensures DaysBeforeMonth(year, month) ==
      if month == 1 then 0 else if month == 2 then 31 else (153 * (month - 3) + 2) / 5 + (if IsLeap(year) then 60 else 59)
  {
    if month > 1 { MonthsClosed(year, month - 1); }
  }

  /** How many leap years there are up to a year, by the rule of the calendar. */
  function Leaps(year: int): int {
    year / 4 - year / 100 + year / 400
  }

  lemma {:induction false} Quarter(n: nat)
    ensures n / 4 == (n - 1) / 4 + if n % 4 == 0 then 1 else 0
  {
  }

  lemma {:induction false} Century(n: nat)
    ensures n / 100 == (n - 1) / 100 + if n % 100 == 0 then 1 else 0
    ensures n % 100 == 0 ==> n % 4 == 0
  {
    if n % 100 == 0 { assert n == 4 * (25 * (n / 100)); }
  }

  lemma {:induction false} FourCenturies(n: nat)
    ensures n / 400 == (n - 1) / 400 + if n % 400 == 0 then 1 else 0
    ensures n % 400 == 0 ==> n % 100 == 0
  {
    if n % 400 == 0 { assert n == 100 * (4 * (n / 400)); }
  }

  lemma {:induction false} LeapsCountLeapYears(year: nat)
    ensures Leaps(year) == Leaps(year - 1) + if IsLeap(year) then 1 else 0
  {
    Quarter(year);
    Century(year);
    FourCenturies(year);
  }

  lemma {:induction false} MonthsFillYear(year: nat)
    ensures DaysBeforeMonth(year, 13) == DaysInYear(year)
  {
    MonthsClosed(year, 13);
  }

  function LeapYearsBefore(year: nat): nat {
    if year == 0 then 0 else LeapYearsBefore(year - 1) + if IsLeap(year - 1) then 1 else 0
  }

  lemma {:induction false} LeapYearsClosed(year: nat)
    ensures LeapYearsBefore(year) == Leaps(year - 1) + 1
  {
    if year > 0 {
      LeapYearsClosed(year - 1);
      LeapsCountLeapYears(year - 1);
    }
  }

  lemma {:induction false} YearsAreDays(year: nat)
    ensures DaysBeforeYear(year) == 365 * year + LeapYearsBefore(year)
  {
    if year > 0 {
      YearsAreDays(year - 1);
    }
  }

  /** The days from the first of March to a month. */
  function DaysFromMarch(month: nat): nat {
    (153 * ((month + 9) % 12) + 2) / 5
  }

  lemma {:induction false} MonthsFromMarch(month: nat)
    requires 1 <= month <= 12
    ensures DaysFromMarch(month) == if month == 1 then 306 else if month == 2 then 337 else (153 * (month - 3) + 2) / 5
  {
  }

  lemma {:induction false} DaySum(
    year: nat, month: nat, day: nat, beforeYear: int, beforeMonth: int, leapsBefore: int, leaps: int, leap: bool, fromMarch: int)
    requires month >= 1 && beforeYear == 365 * year + leapsBefore + 1 && leaps == leapsBefore + if leap then 1 else 0
    requires beforeMonth == if month == 1 then 0 else if month == 2 then 31 else fromMarch + (if leap then 60 else 59)
    requires (month == 1 ==> fromMarch == 306) && (month == 2 ==> fromMarch == 337)
    ensures beforeYear + beforeMonth + day - 1 ==
      365 * (if month <= 2 then year - 1 else year) + (if month <= 2 then leapsBefore else leaps) + fromMarch + day + 59
  {
  }

  /** The number of a day in the Gregorian calendar, from years that begin in March. */
  lemma {:induction false} DayIsGregorian(c: Civil)
    requires Valid(c)
    ensures var y := if c.month <= 2 then c.year - 1 else c.year;
      DayNumber(c) == 365 * y + Leaps(y) + DaysFromMarch(c.month) + c.day + 59
  {
    MonthsClosed(c.year, c.month);
    MonthsFromMarch(c.month);
    YearsAreDays(c.year);
    LeapYearsClosed(c.year);
    LeapsCountLeapYears(c.year);
    DaySum(c.year, c.month, c.day, DaysBeforeYear(c.year), DaysBeforeMonth(c.year, c.month), Leaps(c.year - 1), Leaps(c.year),
           IsLeap(c.year), DaysFromMarch(c.month));
  }

  lemma {:induction false} SecondsOfDay(day: int, hour: int, minute: int, second: int)
    ensures ((day * 24 + hour) * 60 + minute) * 60 + second == 86400 * day + 3600 * hour + 60 * minute + second
  {
  }

  /** The instant in seconds: the number of the day, and the second of the day. */
  lemma {:induction false} InstantIsGregorian(c: Civil)
    requires Valid(c)
    ensures Instant(c) == 86400 * DayNumber(c) + 3600 * c.hour + 60 * c.minute + c.second
  {
    SecondsOfDay(DayNumber(c), c.hour, c.minute, c.second);
  }

  lemma {:induction false} YearOf(day: nat, years: nat) returns (year: nat)
    requires day < DaysBeforeYear(years)
    ensures year < years && DaysBeforeYear(year) <= day < DaysBeforeYear(year) + DaysInYear(year)
  {
    if DaysBeforeYear(years - 1) <= day { year := years - 1; } else { year := YearOf(day, years - 1); }
  }

  lemma {:induction false} MonthOf(year: nat, day: nat, months: nat) returns (month: nat)
    requires 1 <= months && day < DaysBeforeMonth(year, months)
    ensures 1 <= month < months && DaysBeforeMonth(year, month) <= day < DaysBeforeMonth(year, month) + DaysInMonth(year, month)
  {
    if DaysBeforeMonth(year, months - 1) <= day { month := months - 1; } else { month := MonthOf(year, day, months - 1); }
  }

  /** Every second of the first `years` years has its date and time of day. */
  lemma {:induction false} EveryInstantHasADate(t: nat, years: nat) returns (c: Civil)
    requires years <= 10000 && t / 86400 < DaysBeforeYear(years)
    ensures Valid(c) && Instant(c) == t && c.year < years
  {
    var day, second := t / 86400, t % 86400;
    var year := YearOf(day, years);
    MonthsFillYear(year);
    var month := MonthOf(year, day - DaysBeforeYear(year), 13);
    c := Civil(year, month, day - DaysBeforeYear(year) - DaysBeforeMonth(year, month) + 1, second / 3600, second / 60 % 60, second % 60);
    assert DayNumber(c) == day;
    InstantIsGregorian(c);
    ClockReads(second);
  }

  lemma {:induction false} ClockReads(second: nat)
    requires second < 86400
    ensures second / 3600 < 24 && 3600 * (second / 3600) + 60 * (second / 60 % 60) + second % 60 == second
  {
  }

  // ----- the text that is stored -----

  function Digit(d: nat): char
    requires d < 10
  {
    ('0' as int + d) as char
  }

  function Padded(n: nat, width: nat): string {
    if width == 0 then "" else Padded(n / 10, width - 1) + [Digit(n % 10)]
  }

  function Power10(width: nat): nat {
    if width == 0 then 1 else 10 * Power10(width - 1)
  }

  /** The `%Y-%m-%d %H:%M:%S` rendering. */
  function Format(c: Civil): string
    requires Valid(c)
  {
    Padded(c.year, 4) + ("-" + (Padded(c.month, 2) + ("-" + (Padded(c.day, 2) + (" " +
    (Padded(c.hour, 2) + (":" + (Padded(c.minute, 2) + (":" + (Padded(c.second, 2) + ""))))))))))
  }

  function Number(digits: string): int {
    if digits == "" then 0
    else 10 * Number(digits[..|digits| - 1]) + (digits[|digits| - 1] as int - '0' as int)
  }

  lemma {:induction false} PaddedReadsBack(n: nat, width: nat)
    requires n < Power10(width)
    ensures |Padded(n, width)| == width && Number(Padded(n, width)) == n
  {
    if width > 0 {
      PaddedReadsBack(n / 10, width - 1);
      assert Padded(n, width)[..width - 1] == Padded(n / 10, width - 1);
    }
  }

  lemma {:induction false} FieldBefore(text: string, field: string, separator: string, rest: string)
    requires text == field + (separator + rest) && |separator| == 1
    ensures text[..|field|] == field && text[|field|] == separator[0] && text[|field| + 1..] == rest
  {
  }

  predicate ReadsAs(digits: string, n: nat) {
    Number(digits) == n
  }

  /** The stored text has its fields in their places, so the date can be read back from it. */
  lemma {:induction false} FormatReadsBack(c: Civil)
    requires Valid(c)
    ensures var f := Format(c);
      && |f| == 19 && f[4] == f[7] == '-' && f[10] == ' ' && f[13] == f[16] == ':'
      && ReadsAs(f[..4], c.year) && ReadsAs(f[5..7], c.month) && ReadsAs(f[8..10], c.day)
      && ReadsAs(f[11..13], c.hour) && ReadsAs(f[14..16], c.minute) && ReadsAs(f[17..], c.second)
  {
    assert Power10(2) == 100 && Power10(4) == 10000;
    PaddedReadsBack(c.year, 4);
    PaddedReadsBack(c.month, 2);
    PaddedReadsBack(c.day, 2);
    PaddedReadsBack(c.hour, 2);
    PaddedReadsBack(c.minute, 2);
    PaddedReadsBack(c.second, 2);
    FieldsInPlace(Format(c), Padded(c.year, 4), Padded(c.month, 2), Padded(c.day, 2),
                  Padded(c.hour, 2), Padded(c.minute, 2), Padded(c.second, 2));
  }

  lemma {:induction false} FieldsInPlace(f: string, y: string, mo: string, d: string, h: string, mi: string, s: string)
    requires |y| == 4 && |mo| == |d| == |h| == |mi| == |s| == 2
    requires f == y + ("-" + (mo + ("-" + (d + (" " + (h + (":" + (mi + (":" + (s + ""))))))))))
    ensures |f| == 19 && f[4] == f[7] == '-' && f[10] == ' ' && f[13] == f[16] == ':'
    ensures f[..4] == y && f[5..7] == mo && f[8..10] == d && f[11..13] == h && f[14..16] == mi && f[17..] == s
  {
    var r5 := s + "";
    var r4 := mi + (":" + r5);
    var r3 := h + (":" + r4);
    var r2 := d + (" " + r3);
    var r1 := mo + ("-" + r2);
    FieldBefore(f, y, "-", r1);
    FieldBefore(r1, mo, "-", r2);
    FieldBefore(r2, d, " ", r3);
    FieldBefore(r3, h, ":", r4);
    FieldBefore(r4, mi, ":", r5);
    SlicesOfRest(f, r1, 5);
    SlicesOfRest(f, r2, 8);
    SlicesOfRest(f, r3, 11);
    SlicesOfRest(f, r4, 14);
  }

  lemma {:induction false} SlicesOfRest(text: string, rest: string, n: nat)
    requires n <= |text| && text[n..] == rest && |rest| >= 5
    ensures text[n..n + 2] == rest[..2] && text[n + 2] == rest[2] && text[n + 3..] == rest[3..]
  {
  }

  /** `a < b` on TEXT columns: byte by byte, a proper prefix being smaller. */
  predicate TextLess(a: string, b: string) {
    if b == "" then false
    else if a == "" then true
    else a[0] < b[0] || (a[0] == b[0] && TextLess(a[1..], b[1..]))
  }

  lemma {:induction false} LessAfterSame(p: string, a: string, b: string)
    requires |p| == 1
    ensures TextLess(p + a, p + b) == TextLess(a, b)
  {
    assert (p + a)[1..] == a && (p + b)[1..] == b;
  }

  /** Of two texts that differ, exactly one is less; a text is not less than itself. */
  lemma {:induction false} TextOrderIsTotal(a: string, b: string)
    ensures !TextLess(a, a)
    ensures a != b ==> (TextLess(a, b) <==> !TextLess(b, a))
    ensures a < b ==> TextLess(a, b)
  {
    if a != "" && b != "" {
      TextOrderIsTotal(a[1..], b[1..]);
      assert a == [a[0]] + a[1..] && b == [b[0]] + b[1..];
    } else if a != "" {
      TextOrderIsTotal(a[1..], "");
    }
  }

  /** Equal-width decimal fields compare as numbers, then by what follows them. */
  lemma {:induction false} PaddedOrder(n: nat, m: nat, width: nat, a: string, b: string)
    requires n < Power10(width) && m < Power10(width)
    ensures TextLess(Padded(n, width) + a, Padded(m, width) + b) <==> n < m || (n == m && TextLess(a, b))
  {
    if width == 0 {
      assert Padded(n, 0) + a == a && Padded(m, 0) + b == b;
    } else {
      var a', b' := [Digit(n % 10)] + a, [Digit(m % 10)] + b;
      assert Padded(n, width) + a == Padded(n / 10, width - 1) + a';
      assert Padded(m, width) + b == Padded(m / 10, width - 1) + b';
      PaddedOrder(n / 10, m / 10, width - 1, a', b');
      assert a'[1..] == a && b'[1..] == b;
    }
  }

  /** Field-by-field comparison, the most significant field first. */
  predicate FieldsLess(a: Civil, b: Civil) {
    a.year < b.year || (a.year == b.year && (
    a.month < b.month || (a.month == b.month && (
    a.day < b.day || (a.day == b.day && (
    a.hour < b.hour || (a.hour == b.hour && (
    a.minute < b.minute || (a.minute == b.minute && a.second < b.second)))))))))
  }

  lemma {:induction false} TextOrderIsFieldOrder(a: Civil, b: Civil)
    requires Valid(a) && Valid(b)
    ensures TextLess(Format(a), Format(b)) <==> FieldsLess(a, b)
  {
    assert Power10(2) == 100 && Power10(4) == 10000;
    var a5, b5 := Padded(a.second, 2) + "", Padded(b.second, 2) + "";
    var a4, b4 := Padded(a.minute, 2) + (":" + a5), Padded(b.minute, 2) + (":" + b5);
    var a3, b3 := Padded(a.hour, 2) + (":" + a4), Padded(b.hour, 2) + (":" + b4);
    var a2, b2 := Padded(a.day, 2) + (" " + a3), Padded(b.day, 2) + (" " + b3);
    var a1, b1 := Padded(a.month, 2) + ("-" + a2), Padded(b.month, 2) + ("-" + b2);
    PaddedOrder(a.second, b.second, 2, "", "");
    PaddedOrder(a.minute, b.minute, 2, ":" + a5, ":" + b5);
    LessAfterSame(":", a5, b5);
    PaddedOrder(a.hour, b.hour, 2, ":" + a4, ":" + b4);
    LessAfterSame(":", a4, b4);
    PaddedOrder(a.day, b.day, 2, " " + a3, " " + b3);
    LessAfterSame(" ", a3, b3);
    PaddedOrder(a.month, b.month, 2, "-" + a2, "-" + b2);
    LessAfterSame("-", a2, b2);
    PaddedOrder(a.year, b.year, 4, "-" + a1, "-" + b1);
    LessAfterSame("-", a1, b1);
  }

  // ----- the calendar is monotone -----

  lemma {:induction false} MonthsInOrder(year: nat, m: nat, n: nat)
    requires 1 <= m < n
    ensures DaysBeforeMonth(year, m) + DaysInMonth(year, m) <= DaysBeforeMonth(year, n)
  {
    if m + 1 < n { MonthsInOrder(year, m, n - 1); }
  }

  lemma {:induction false} YearsInOrder(y: nat, z: nat)
    requires y < z
    ensures DaysBeforeYear(y) + DaysInYear(y) <= DaysBeforeYear(z)
  {
    if y + 1 < z { YearsInOrder(y, z - 1); }
  }

  lemma {:induction false} EarlierDate(a: Civil, b: Civil)
    requires Valid(a) && Valid(b)
    requires a.year < b.year || (a.year == b.year && (a.month < b.month || (a.month == b.month && a.day < b.day)))
    ensures DayNumber(a) < DayNumber(b)
  {
    MonthsInOrder(a.year, a.month, 13);
    MonthsFillYear(a.year);
    if a.year < b.year {
      YearsInOrder(a.year, b.year);
    } else if a.month < b.month {
      MonthsInOrder(a.year, a.month, b.month);
    }
  }

  lemma {:induction false} EarlierFieldsEarlierInstant(a: Civil, b: Civil)
    requires Valid(a) && Valid(b) && FieldsLess(a, b)
    ensures Instant(a) < Instant(b)
  {
    if a.year == b.year && a.month == b.month && a.day == b.day {
    } else {
      EarlierDate(a, b);
    }
  }

  /** Comparing stored timestamps as text is comparing the instants they stand for. */
  lemma {:induction false} TextOrderIsTimeOrder(a: Civil, b: Civil)
    requires Valid(a) && Valid(b)
    ensures TextLess(Format(a), Format(b)) <==> Instant(a) < Instant(b)
    ensures Format(a) == Format(b) <==> a == b
  {
    TextOrderIsFieldOrder(a, b);
    TextOrderIsFieldOrder(b, a);
    TextOrderIsFieldOrder(a, a);
    if FieldsLess(a, b) {
      EarlierFieldsEarlierInstant(a, b);
    } else if FieldsLess(b, a) {
      EarlierFieldsEarlierInstant(b, a);
    } else {
      assert a == b;
    }
  }

  // ----- the cut to whole seconds -----

  /** A clock reading in milliseconds, as it is stored: whole seconds, the rest dropped. */
  function Seconds(millis: int): int {
    millis / 1000
  }

  /** The expiry stored for a lease of `secs` seconds taken at `start`. */
  function Expiry(start: int, secs: nat): int {
    Seconds(start + 1000 * secs)
  }

  /**
   The expiry test `expiry < now`, both sides cut to seconds, never succeeds within the lease
   and always succeeds from one second after its end.
   */
  lemma LeaseWindow(start: int, secs: nat, now: int)
    ensures Expiry(start, secs) < Seconds(now) ==> now > start + 1000 * secs
    ensures now >= start + 1000 * (secs + 1) ==> Expiry(start, secs) < Seconds(now)
    ensures Expiry(start, secs) < Seconds(now) <==> now >= 1000 * (Seconds(start) + secs + 1)
  {
  }
}
