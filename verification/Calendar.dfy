/** The UTC date and time formatter (section 5.6 of RFC 3339) and its exactness. */
module Calendar {
  import opened Prelude

  const SECONDS_PER_DAY: nat := 86_400

  /** `is_leap`. */
  predicate IsLeap(year: nat) { (year % 4 == 0 && year % 100 != 0) || year % 400 == 0 }

  function YearDays(year: nat): nat { if IsLeap(year) then 366 else 365 }

  /** The days of the month with the given number, counted from zero. */
  function MonthDays(year: nat, month: nat): nat
    requires month < 12
  {
    if month == 1 then (if IsLeap(year) then 29 else 28)
    else if month in {3, 5, 8, 10} then 30
    else 31
  }

  /** The days between 1 January 1970 and 1 January of the given year. */
  function DaysBeforeYear(year: nat): nat
    requires year >= 1970
  {
    if year == 1970 then 0 else DaysBeforeYear(year - 1) + YearDays(year - 1)
  }

  function DaysBeforeMonth(year: nat, month: nat): nat
    requires month <= 12
  {
    if month == 0 then 0 else DaysBeforeMonth(year, month - 1) + MonthDays(year, month - 1)
  }

  /** A date and time as it is printed: months and days count from one. */
  datatype Civil = Civil(year: nat, month: nat, day: nat, hour: nat, minute: nat, second: nat)

  predicate IsCivil(c: Civil) {
    && 1970 <= c.year <= 9999
    && 1 <= c.month <= 12
    && 1 <= c.day <= MonthDays(c.year, c.month - 1)
    && c.hour < 24 && c.minute < 60 && c.second < 60
  }

  function DayNumber(c: Civil): nat
    requires IsCivil(c)
  {
    DaysBeforeYear(c.year) + DaysBeforeMonth(c.year, c.month - 1) + c.day - 1
  }

  function TimeOfDay(c: Civil): nat { c.hour * 3600 + c.minute * 60 + c.second }

  /** The seconds between the start of 1970 and a date and time. */
  function SecondsOf(c: Civil): nat
    requires IsCivil(c)
  {
    DayNumber(c) * SECONDS_PER_DAY + TimeOfDay(c)
  }

  function Digit(n: nat): char
    requires n < 10
  {
    ('0' as int + n) as char
  }

  /** A number below 100 in two digits. */
  function Dec2(n: nat): string
    requires n < 100
  {
    [Digit(n / 10), Digit(n % 10)]
  }

  function Dec4(n: nat): string
    requires n < 10_000
  {
    Dec2(n / 100) + Dec2(n % 100)
  }

  function Render(c: Civil): string
    requires IsCivil(c)
  {
    DayFitsTwoDigits(c);
    Dec4(c.year) + ("-" + (Dec2(c.month) + ("-" + (Dec2(c.day) + ("T" +
      (Dec2(c.hour) + (":" + (Dec2(c.minute) + (":" + (Dec2(c.second) + "Z"))))))))))
  }

  lemma DayFitsTwoDigits(c: Civil)
    requires IsCivil(c)
    ensures c.day < 100
  {
  }

  /** A printed time for a number of seconds after the start of 1970: missing exactly when the year
      would exceed 9999, and otherwise the one valid date and time that lies at that second. */
  ghost predicate IsFormatOf(seconds: nat, text: Option<string>) {
    if seconds >= 253_402_300_800 then text.None?
    else text.Some? && exists c :: IsCivil(c) && SecondsOf(c) == seconds && text.value == Render(c)
  }

  /** `format_iso8601`. */
  method FormatIso8601(seconds: nat) returns (r: Option<string>)
    ensures IsFormatOf(seconds, r)
  {
    var totalDays := seconds / SECONDS_PER_DAY;
    var secsInDay := seconds % SECONDS_PER_DAY;
    var hour := secsInDay / 3600;
    var minute := secsInDay % 3600 / 60;
    var second := secsInDay % 60;

    var days: nat := totalDays;
    var year: nat := 1970;
    while true
      invariant 1970 <= year <= 9999
      invariant days + DaysBeforeYear(year) == totalDays
      decreases days
    {
      var yearDays := if IsLeap(year) then 366 else 365;
      if days >= yearDays {
        days := days - yearDays;
        year := year + 1;
      } else {
        break;
      }
      if year > 9999 {
        TooLate(seconds);
        return None;
      }
    }
    InRange(seconds, year);
    var month := 0;
    ghost var dayOfYear := days;
    while month < 12 && days >= MonthDays(year, month)
      invariant month <= 12
      invariant days + DaysBeforeMonth(year, month) == dayOfYear
    {
      days := days - MonthDays(year, month);
      month := month + 1;
    }
    MonthsFillYear(year);
    TimeSplits(secsInDay);
    var c := Civil(year, month + 1, days + 1, hour, minute, second);
    SecondsOfParts(seconds, c);
    return Some(Render(c));
  }

  lemma DaysAndSeconds(seconds: nat, days: nat)
    ensures seconds / SECONDS_PER_DAY < days <==> seconds < days * SECONDS_PER_DAY
  {
  }

  lemma TooLate(seconds: nat)
    requires seconds / SECONDS_PER_DAY >= DaysBeforeYear(10_000)
    ensures seconds >= 253_402_300_800
  {
    DaysBeforeYear10000();
    DaysAndSeconds(seconds, DaysBeforeYear(10_000));
  }

  /** The year loop stops before year 10000 only for seconds before it. */
  lemma InRange(seconds: nat, year: nat)
    requires 1970 <= year <= 9999 && seconds / SECONDS_PER_DAY < DaysBeforeYear(year) + YearDays(year)
    ensures seconds < 253_402_300_800
  {
    YearMonotone(year + 1, 10_000);
    DaysBeforeYear10000();
    DaysAndSeconds(seconds, DaysBeforeYear(10_000));
  }

  lemma SecondsOfParts(seconds: nat, c: Civil)
    requires IsCivil(c) && DayNumber(c) == seconds / SECONDS_PER_DAY && TimeOfDay(c) == seconds % SECONDS_PER_DAY
    ensures SecondsOf(c) == seconds
  {
  }

  lemma TimeSplits(s: nat)
    requires s < SECONDS_PER_DAY
    ensures s / 3600 < 24 && s % 3600 / 60 < 60
    ensures s / 3600 * 3600 + s % 3600 / 60 * 60 + s % 60 == s
  {
  }

  lemma MonthsFillYear(year: nat)
    ensures DaysBeforeMonth(year, 12) == YearDays(year)
  {
    assert DaysBeforeMonth(year, 1) == 31;
    assert DaysBeforeMonth(year, 2) == 31 + MonthDays(year, 1);
    assert DaysBeforeMonth(year, 4) == DaysBeforeMonth(year, 2) + 61;
    assert DaysBeforeMonth(year, 6) == DaysBeforeMonth(year, 4) + 61;
    assert DaysBeforeMonth(year, 8) == DaysBeforeMonth(year, 6) + 62;
    assert DaysBeforeMonth(year, 10) == DaysBeforeMonth(year, 8) + 61;
  }

  // ---------------------------------------------------------------------------
  // A closed form for the day count
  // ---------------------------------------------------------------------------

  /** The leap years before the given one. */
  function LeapYearsBefore(year: nat): int
    requires year >= 1
  {
    (year - 1) / 4 - (year - 1) / 100 + (year - 1) / 400
  }

  /** Counting year by year gives 365 days a year plus one for each leap year since 1970. */
  lemma {:induction false} DaysClosedForm(year: nat)
    requires year >= 1970
    ensures DaysBeforeYear(year) == 365 * (year - 1970) + LeapYearsBefore(year) - LeapYearsBefore(1970)
  {
    if year > 1970 {
      DaysClosedForm(year - 1);
      LeapStep(year - 1);
    }
  }

  lemma LeapStep(year: nat)
    requires year >= 1
    ensures LeapYearsBefore(year + 1) - LeapYearsBefore(year) == if IsLeap(year) then 1 else 0
  {
    MultipleStep(year, 4);
    MultipleStep(year, 100);
    MultipleStep(year, 400);
    CenturiesAreMultiples(year);
  }

  lemma CenturiesAreMultiples(n: nat)
    ensures n % 400 == 0 ==> n % 100 == 0
    ensures n % 100 == 0 ==> n % 4 == 0
  {
    if n % 400 == 0 {
      assert n == n / 400 * 4 * 100;
    }
    if n % 100 == 0 {
      assert n == n / 100 * 25 * 4;
    }
  }

  lemma MultipleStep(n: nat, k: nat)
    requires n >= 1 && k in {4, 100, 400}
    ensures n / k - (n - 1) / k == if n % k == 0 then 1 else 0
  {
  }

  lemma DaysBeforeYear10000()
    ensures DaysBeforeYear(10_000) * SECONDS_PER_DAY == 253_402_300_800
  {
    DaysClosedForm(10_000);
  }

  lemma {:induction false} YearMonotone(a: nat, b: nat)
    requires 1970 <= a <= b
    ensures DaysBeforeYear(a) <= DaysBeforeYear(b)
    decreases b
  {
    if a < b {
      YearMonotone(a, b - 1);
    }
  }

  lemma {:induction false} MonthMonotone(year: nat, a: nat, b: nat)
    requires a <= b <= 12
    ensures DaysBeforeMonth(year, a) <= DaysBeforeMonth(year, b)
    decreases b
  {
    if a < b {
      MonthMonotone(year, a, b - 1);
    }
  }

  // ---------------------------------------------------------------------------
  // Order
  // ---------------------------------------------------------------------------

  /** Calendar order: the first differing field decides. */
  predicate Before(a: Civil, b: Civil) {
    if a.year != b.year then a.year < b.year
    else if a.month != b.month then a.month < b.month
    else if a.day != b.day then a.day < b.day
    else if a.hour != b.hour then a.hour < b.hour
    else if a.minute != b.minute then a.minute < b.minute
    else a.second < b.second
  }

  lemma BeforeIsEarlier(a: Civil, b: Civil)
    requires IsCivil(a) && IsCivil(b) && Before(a, b)
    ensures SecondsOf(a) < SecondsOf(b)
  {
    if a.year < b.year {
      YearMonotone(a.year + 1, b.year);
      MonthMonotone(a.year, a.month, 12);
      MonthsFillYear(a.year);
      assert DayNumber(a) < DayNumber(b);
    } else if a.month < b.month {
      MonthMonotone(a.year, a.month, b.month - 1);
      assert DayNumber(a) < DayNumber(b);
    }
    assert TimeOfDay(a) < SECONDS_PER_DAY && TimeOfDay(b) < SECONDS_PER_DAY;
  }

  /** Lexicographic order of texts. */
  predicate LexLess(a: string, b: string) {
    b != "" && (a == "" || a[0] < b[0] || (a[0] == b[0] && LexLess(a[1..], b[1..])))
  }

  lemma {:induction false} LexConcat(a: string, b: string, x: string, y: string)
    requires |a| == |b|
    ensures LexLess(a + x, b + y) <==> LexLess(a, b) || (a == b && LexLess(x, y))
  {
    if a == "" {
      assert a + x == x && b + y == y;
    } else {
      assert (a + x)[1..] == a[1..] + x && (b + y)[1..] == b[1..] + y;
      LexConcat(a[1..], b[1..], x, y);
      assert a == [a[0]] + a[1..] && b == [b[0]] + b[1..];
    }
  }

  lemma LexDigit(m: nat, n: nat)
    requires m < 10 && n < 10
    ensures LexLess([Digit(m)], [Digit(n)]) <==> m < n
    ensures [Digit(m)] == [Digit(n)] <==> m == n
  {
  }

  lemma LexDec2(m: nat, n: nat)
    requires m < 100 && n < 100
    ensures LexLess(Dec2(m), Dec2(n)) <==> m < n
    ensures Dec2(m) == Dec2(n) <==> m == n
  {
    LexConcat([Digit(m / 10)], [Digit(n / 10)], [Digit(m % 10)], [Digit(n % 10)]);
    LexDigit(m / 10, n / 10);
    LexDigit(m % 10, n % 10);
    assert Dec2(m) == [Digit(m / 10)] + [Digit(m % 10)] && Dec2(n) == [Digit(n / 10)] + [Digit(n % 10)];
  }

  lemma LexDec4(m: nat, n: nat)
    requires m < 10_000 && n < 10_000
    ensures LexLess(Dec4(m), Dec4(n)) <==> m < n
    ensures Dec4(m) == Dec4(n) <==> m == n
  {
    LexConcat(Dec2(m / 100), Dec2(n / 100), Dec2(m % 100), Dec2(n % 100));
    LexDec2(m / 100, n / 100);
    LexDec2(m % 100, n % 100);
    assert Dec4(m)[..2] == Dec2(m / 100) && Dec4(n)[..2] == Dec2(n / 100);
    assert Dec4(m)[2..] == Dec2(m % 100) && Dec4(n)[2..] == Dec2(n % 100);
  }

  /** A two-digit field with a separator in front, compared before what follows it. */
  lemma LexField(sep: string, m: nat, n: nat, x: string, y: string)
    requires m < 100 && n < 100 && |sep| == 1
    ensures LexLess(sep + (Dec2(m) + x), sep + (Dec2(n) + y)) <==> m < n || (m == n && LexLess(x, y))
  {
    LexConcat(sep, sep, Dec2(m) + x, Dec2(n) + y);
    assert !LexLess(sep, sep);
    LexConcat(Dec2(m), Dec2(n), x, y);
    LexDec2(m, n);
  }

  function TimeText(c: Civil): string
    requires IsCivil(c)
  {
    "T" + (Dec2(c.hour) + (":" + (Dec2(c.minute) + (":" + (Dec2(c.second) + "Z")))))
  }

  lemma LexTime(a: Civil, b: Civil)
    requires IsCivil(a) && IsCivil(b)
    requires a.year == b.year && a.month == b.month && a.day == b.day
    ensures LexLess(TimeText(a), TimeText(b)) <==> Before(a, b)
  {
    assert !LexLess("Z", "Z");
    LexField(":", a.second, b.second, "Z", "Z");
    LexField(":", a.minute, b.minute, ":" + (Dec2(a.second) + "Z"), ":" + (Dec2(b.second) + "Z"));
    LexField("T", a.hour, b.hour, ":" + (Dec2(a.minute) + (":" + (Dec2(a.second) + "Z"))),
             ":" + (Dec2(b.minute) + (":" + (Dec2(b.second) + "Z"))));
  }

  lemma LexRender(a: Civil, b: Civil)
    requires IsCivil(a) && IsCivil(b)
    ensures LexLess(Render(a), Render(b)) <==> Before(a, b)
  {
    DayFitsTwoDigits(a);
    DayFitsTwoDigits(b);
    if a.year == b.year && a.month == b.month && a.day == b.day {
      LexTime(a, b);
    }
    LexField("-", a.day, b.day, TimeText(a), TimeText(b));
    var dayA, dayB := "-" + (Dec2(a.day) + TimeText(a)), "-" + (Dec2(b.day) + TimeText(b));
    LexField("-", a.month, b.month, dayA, dayB);
    LexDec4(a.year, b.year);
    LexConcat(Dec4(a.year), Dec4(b.year), "-" + (Dec2(a.month) + dayA), "-" + (Dec2(b.month) + dayB));
  }

  /** Of two formatted instants, the later one has the lexicographically larger text. Together
      with the exactness of the formatter this makes the text determine the second. */
  lemma LaterPrintsLarger(a: Civil, b: Civil)
    requires IsCivil(a) && IsCivil(b)
    ensures SecondsOf(a) < SecondsOf(b) <==> LexLess(Render(a), Render(b))
    ensures SecondsOf(a) == SecondsOf(b) <==> a == b
  {
    LexRender(a, b);
    if Before(a, b) {
      BeforeIsEarlier(a, b);
    } else if Before(b, a) {
      BeforeIsEarlier(b, a);
    }
  }

  /** Of two formatter inputs that print, the larger one prints the lexicographically larger text, and
      different inputs print different texts. */
  lemma LaterInputPrintsLarger(a: nat, b: nat, textA: Option<string>, textB: Option<string>)
    requires IsFormatOf(a, textA) && IsFormatOf(b, textB) && textA.Some? && textB.Some?
    ensures a < b <==> LexLess(textA.value, textB.value)
    ensures a == b <==> textA == textB
  {
    var c :| IsCivil(c) && SecondsOf(c) == a && textA.value == Render(c);
    var d :| IsCivil(d) && SecondsOf(d) == b && textB.value == Render(d);
    LaterPrintsLarger(c, d);
    LaterPrintsLarger(d, c);
    LexIrreflexive(textA.value);
  }

  lemma {:induction false} LexIrreflexive(s: string)
    ensures !LexLess(s, s)
  {
    if s != "" {
      LexIrreflexive(s[1..]);
    }
  }

  /** A printed time for milliseconds: zero stands for no time, and the rest of a second is cut off. */
  ghost predicate IsIsoOf(ms: nat, text: Option<string>) {
    if ms == 0 then text.None? else IsFormatOf(ms / 1000, text)
  }

  /** `timestamp_to_iso`. */
  method TimestampToIso(ms: nat) returns (r: Option<string>)
    ensures IsIsoOf(ms, r)
    ensures r.None? <==> ms == 0 || ms >= 253_402_300_800_000
  {
    if ms == 0 {
      return None;
    }
    r := FormatIso8601(ms / 1000);
  }

  // ---------------------------------------------------------------------------
  // Known dates and the layout of the text
  // ---------------------------------------------------------------------------

  /** The length of each month in a common year and in a leap year. */
  lemma MonthLengths(year: nat, month: nat)
    requires month < 12
    ensures !IsLeap(year) ==> MonthDays(year, month) == [31, 28, 31, 30, 31, 30, 31, 31, 30, 31, 30, 31][month]
    ensures IsLeap(year) ==> MonthDays(year, month) == [31, 29, 31, 30, 31, 30, 31, 31, 30, 31, 30, 31][month]
  {
  }

  /** Some seconds and their dates: a month end, a leap day of a century, a day after a missing one, and
      the last second that is printed. */
  lemma KnownSeconds(c: Civil)
    requires IsCivil(c)
    ensures IsAt(c, 1970, 1, 31) && TimeOfDay(c) == 0 ==> SecondsOf(c) == 2_592_000
    ensures IsAt(c, 2000, 2, 29) && TimeOfDay(c) == 45_296 ==> SecondsOf(c) == 951_827_696
    ensures IsAt(c, 2100, 3, 1) && TimeOfDay(c) == 0 ==> SecondsOf(c) == 4_107_542_400
    ensures IsAt(c, 9999, 12, 31) && TimeOfDay(c) == 86_399 ==> SecondsOf(c) == 253_402_300_799
  {
    KnownDays(c, c.year, c.month - 1);
    SecondsSplit(c, DayNumber(c), TimeOfDay(c));
  }

  lemma SecondsSplit(c: Civil, days: nat, time: nat)
    requires IsCivil(c) && days == DayNumber(c) && time == TimeOfDay(c)
    ensures SecondsOf(c) == days * 86_400 + time
  {
  }

  lemma KnownDays(c: Civil, year: nat, month: nat)
    requires IsCivil(c) && c.year == year && c.month == month + 1
    ensures year == 1970 && month == 0 && c.day == 31 ==> DayNumber(c) == 30
    ensures year == 2000 && month == 1 && c.day == 29 ==> DayNumber(c) == 11_016
    ensures year == 2100 && month == 2 && c.day == 1 ==> DayNumber(c) == 47_541
    ensures year == 9999 && month == 11 && c.day == 31 ==> DayNumber(c) == 2_932_896
  {
    KnownYears(year);
    KnownMonths(year, month);
  }

  lemma KnownYears(year: nat)
    requires year >= 1970
    ensures year == 1970 ==> DaysBeforeYear(year) == 0
    ensures year == 2000 ==> DaysBeforeYear(year) == 10_957
    ensures year == 2100 ==> DaysBeforeYear(year) == 47_482
    ensures year == 9999 ==> DaysBeforeYear(year) == 2_932_532
  {
    DaysClosedForm(year);
    KnownLeapYears(year);
  }

  lemma KnownLeapYears(year: nat)
    requires year >= 1
    ensures LeapYearsBefore(1970) == 477
    ensures year == 2000 ==> LeapYearsBefore(year) == 484
    ensures year == 2100 ==> LeapYearsBefore(year) == 509
    ensures year == 9999 ==> LeapYearsBefore(year) == 2_424
  {
  }

  lemma KnownMonths(year: nat, month: nat)
    requires month < 12
    ensures month == 0 ==> DaysBeforeMonth(year, month) == 0
    ensures month == 1 ==> DaysBeforeMonth(year, month) == 31
    ensures month == 2 ==> DaysBeforeMonth(year, month) == if IsLeap(year) then 60 else 59
    ensures month == 11 ==> DaysBeforeMonth(year, month) == if IsLeap(year) then 335 else 334
  {
    MonthStarts(year);
  }

  predicate IsAt(c: Civil, year: nat, month: nat, day: nat) { c.year == year && c.month == month && c.day == day }

  /** Hours, minutes and seconds in seconds. */
  lemma KnownTimes(c: Civil)
    ensures c.hour == 12 && c.minute == 34 && c.second == 56 ==> TimeOfDay(c) == 45_296
    ensures c.hour == 23 && c.minute == 59 && c.second == 59 ==> TimeOfDay(c) == 86_399
  {
  }

  lemma MonthStarts(year: nat)
    ensures DaysBeforeMonth(year, 0) == 0 && DaysBeforeMonth(year, 1) == 31
    ensures DaysBeforeMonth(year, 2) == 31 + MonthDays(year, 1)
    ensures DaysBeforeMonth(year, 11) == DaysBeforeMonth(year, 12) - 31 == YearDays(year) - 31
  {
    assert DaysBeforeMonth(year, 1) == DaysBeforeMonth(year, 0) + 31;
    assert DaysBeforeMonth(year, 2) == DaysBeforeMonth(year, 1) + MonthDays(year, 1);
    assert DaysBeforeMonth(year, 12) == DaysBeforeMonth(year, 11) + 31;
    MonthsFillYear(year);
  }

  /** The number that a text of decimal digits stands for. */
  function NumberOf(s: string): int {
    if s == "" then 0 else NumberOf(s[..|s| - 1]) * 10 + (s[|s| - 1] as int - 48)
  }

  predicate AllDigits(s: string) { forall i :: 0 <= i < |s| ==> 48 <= s[i] as int <= 57 }

  lemma NumberOfTwo(a: char, b: char)
    ensures NumberOf([a, b]) == (a as int - 48) * 10 + (b as int - 48)
  {
    assert [a, b][..1] == [a];
    assert [a][..0] == "";
    assert NumberOf([a]) == a as int - 48;
    assert NumberOf([a, b]) == NumberOf([a]) * 10 + (b as int - 48);
  }

  lemma Dec2Reads(n: nat)
    requires n < 100
    ensures |Dec2(n)| == 2 && AllDigits(Dec2(n)) && NumberOf(Dec2(n)) == n
  {
    NumberOfTwo(Digit(n / 10), Digit(n % 10));
  }

  lemma Dec4Reads(n: nat)
    requires n < 10_000
    ensures |Dec4(n)| == 4 && AllDigits(Dec4(n)) && NumberOf(Dec4(n)) == n
  {
    var a, b := Dec2(n / 100), Dec2(n % 100);
    Dec2Reads(n / 100);
    Dec2Reads(n % 100);
    assert (a + b)[..3] == a + [b[0]];
    assert (a + b)[..3][..2] == a;
    NumberOfTwo(b[0], b[1]);
    assert b == [b[0], b[1]];
    assert NumberOf(a + b) == NumberOf(a + [b[0]]) * 10 + (b[1] as int - 48);
    assert NumberOf(a + [b[0]]) == NumberOf(a) * 10 + (b[0] as int - 48);
  }

  /** The text of a date and time, field by field: the digits at the places of section 5.6 of RFC 3339
      stand for the year, the month and so on, with the separators between them. */
  ghost predicate Reads(text: string, c: Civil) {
    && |text| == 20
    && NumberOf(text[0..4]) == c.year && text[4] == '-'
    && NumberOf(text[5..7]) == c.month && text[7] == '-'
    && NumberOf(text[8..10]) == c.day && text[10] == 'T'
    && NumberOf(text[11..13]) == c.hour && text[13] == ':'
    && NumberOf(text[14..16]) == c.minute && text[16] == ':'
    && NumberOf(text[17..19]) == c.second && text[19] == 'Z'
    && AllDigits(text[0..4] + text[5..7] + text[8..10] + text[11..13] + text[14..16] + text[17..19])
  }

  lemma Cut(a: string, sep: string, rest: string)
    requires |sep| == 1
    ensures var t := a + (sep + rest);
            |t| == |a| + 1 + |rest| && t[..|a|] == a && t[|a|] == sep[0] && t[|a| + 1..] == rest
  {
  }

  lemma RenderReads(c: Civil)
    requires IsCivil(c)
    ensures Reads(Render(c), c)
  {
    DayFitsTwoDigits(c);
    Dec4Reads(c.year);
    Dec2Reads(c.month);
    Dec2Reads(c.day);
    Dec2Reads(c.hour);
    Dec2Reads(c.minute);
    Dec2Reads(c.second);
    var s1 := Dec2(c.second) + ("Z" + "");
    var s2 := Dec2(c.minute) + (":" + s1);
    var s3 := Dec2(c.hour) + (":" + s2);
    var s4 := Dec2(c.day) + ("T" + s3);
    var s5 := Dec2(c.month) + ("-" + s4);
    var t := Dec4(c.year) + ("-" + s5);
    assert "Z" + "" == "Z";
    assert t == Render(c);
    Cut(Dec4(c.year), "-", s5);
    Cut(Dec2(c.month), "-", s4);
    Cut(Dec2(c.day), "T", s3);
    Cut(Dec2(c.hour), ":", s2);
    Cut(Dec2(c.minute), ":", s1);
    Cut(Dec2(c.second), "Z", "");
    FieldsOf(t, s5, s4, s3, s2, s1);
  }

  /** Where the fields of a text lie, given what follows each of them. */
  lemma FieldsOf(t: string, s5: string, s4: string, s3: string, s2: string, s1: string)
    requires |t| == 20 && t[5..] == s5 && |s5| == 15 && s5[3..] == s4 && s4[3..] == s3 && s3[3..] == s2 && s2[3..] == s1
    ensures t[0..4] == t[..4]
    ensures t[5..7] == s5[..2] && t[7] == s5[2] && t[8..10] == s4[..2] && t[10] == s4[2]
    ensures t[11..13] == s3[..2] && t[13] == s3[2] && t[14..16] == s2[..2] && t[16] == s2[2]
    ensures t[17..19] == s1[..2] && t[19] == s1[2]
  {
    assert t[8..] == s4 && t[11..] == s3 && t[14..] == s2 && t[17..] == s1;
  }

  /** What the formatter prints, read back: the digits name the one date and time at that second. */
  lemma PrintedReads(seconds: nat, text: Option<string>) returns (c: Civil)
    requires IsFormatOf(seconds, text) && text.Some?
    ensures IsCivil(c) && SecondsOf(c) == seconds && Reads(text.value, c)
  {
    c :| IsCivil(c) && SecondsOf(c) == seconds && text.value == Render(c);
    RenderReads(c);
  }
}
