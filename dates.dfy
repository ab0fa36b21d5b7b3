/**
 * Date utilities of the scraper: the month range of `parse_month`, the
 * half-open membership test `month_matches`, the URL-path month tokens of
 * `month_tokens` with `is_candidate_url`, and the `%d.%m.%Y` rendering used
 * in the report. Every timestamp the scraper compares is a UTC `datetime`.
 */
module Dates {
  import opened Text

  const MicrosPerDay: int := 86_400_000_000

  /** A UTC `datetime`: calendar date plus the time of day in microseconds. */
  datatype DateTime = DateTime(year: int, month: int, day: int, micros: int)

  predicate IsLeapYear(y: int) {
    y % 4 == 0 && (y % 100 != 0 || y % 400 == 0)
  }

  function DaysInMonth(y: int, m: int): (n: int)
    requires 1 <= m <= 12
    ensures 28 <= n <= 31
  {
    if m == 2 then (if IsLeapYear(y) then 29 else 28)
    else if m == 4 || m == 6 || m == 9 || m == 11 then 30
    else 31
  }

  /** A real calendar instant (the upper year bound of `datetime` is imposed where it matters). */
  predicate ValidDateTime(d: DateTime) {
    && 1 <= d.year
    && 1 <= d.month <= 12
    && 1 <= d.day <= DaysInMonth(d.year, d.month)
    && 0 <= d.micros < MicrosPerDay
  }

  /** The values a date parser of the scraper can return: valid UTC instants. */
  type Instant = d: DateTime | ValidDateTime(d) witness DateTime(1, 1, 1, 0)

  /** Chronological order of UTC datetimes, `a < b`. */
  predicate Before(a: DateTime, b: DateTime) {
    || a.year < b.year
    || (a.year == b.year && a.month < b.month)
    || (a.year == b.year && a.month == b.month && a.day < b.day)
    || (a.year == b.year && a.month == b.month && a.day == b.day && a.micros < b.micros)
  }

  /** `a <= b`. */
  predicate NotAfter(a: DateTime, b: DateTime) {
    !Before(b, a)
  }

  lemma BeforeTransitive(a: DateTime, b: DateTime, c: DateTime)
    requires Before(a, b) && Before(b, c)
    ensures Before(a, c)
  {
  }

  /** `d + timedelta(days=1)`. */
  function NextDay(d: DateTime): (r: DateTime)
    requires ValidDateTime(d)
    ensures ValidDateTime(r) && Before(d, r) && r.micros == d.micros
  {
    if d.day < DaysInMonth(d.year, d.month) then d.(day := d.day + 1)
    else if d.month < 12 then d.(month := d.month + 1, day := 1)
    else d.(year := d.year + 1, month := 1, day := 1)
  }

  /** `d + timedelta(days=n)`. */
  function AddDays(d: DateTime, n: nat): (r: DateTime)
    requires ValidDateTime(d)
    ensures ValidDateTime(r)
    decreases n
  {
    if n == 0 then d else AddDays(NextDay(d), n - 1)
  }

  /** The months `datetime` can hold together with the month after them. */
  predicate MonthInRange(year: int, month: int) {
    1 <= year <= 9999 && 1 <= month <= 12 && (year < 9999 || month < 12)
  }

  /** Midnight of the first day of the calendar month after `year`-`month`. */
  function FirstOfNextMonth(year: int, month: int): DateTime {
    if month == 12 then DateTime(year + 1, 1, 1, 0) else DateTime(year, month + 1, 1, 0)
  }

  /** Four days after the 28th lands on day 1 to 4 of the following month. */
  lemma FourDaysAfter28(d: DateTime)
    requires ValidDateTime(d) && d.day == 28
    ensures AddDays(d, 4).(day := 1) == FirstOfNextMonth(d.year, d.month).(micros := d.micros)
  {
    var d1 := NextDay(d);
    var d2 := NextDay(d1);
    var d3 := NextDay(d2);
    var d4 := NextDay(d3);
    assert AddDays(d3, 1) == d4;
    assert AddDays(d2, 2) == d4;
    assert AddDays(d1, 3) == d4;
    assert AddDays(d, 4) == d4;
  }

  /**
   * `parse_month`: the half-open UTC range of the month, [start, end).
   * `end` is found as `parse_month` finds it: set the day to 28, add four days, set
   * the day back to 1.
   */
  function ParseMonth(year: int, month: int): (range: (DateTime, DateTime))
    requires MonthInRange(year, month)
    ensures range.0 == DateTime(year, month, 1, 0)
    ensures range.1 == FirstOfNextMonth(year, month)
    ensures Before(range.0, range.1)
  {
    var start := DateTime(year, month, 1, 0);
    FourDaysAfter28(start.(day := 28));
    var next := AddDays(start.(day := 28), 4).(day := 1);
    (start, next)
  }

  /** `month_matches`: `start <= date < end`. */
  predicate MonthMatches(date: DateTime, start: DateTime, end: DateTime) {
    NotAfter(start, date) && Before(date, end)
  }

  /** The range of `parse_month` holds exactly the instants of that calendar month. */
  lemma MonthMatchesCalendarMonth(date: Instant, year: int, month: int)
    requires MonthInRange(year, month)
    ensures MonthMatches(date, ParseMonth(year, month).0, ParseMonth(year, month).1)
            <==> date.year == year && date.month == month
  {
  }

  /** The first instant of the month is in its range, the first instant of the next is not. */
  lemma MonthRangeHalfOpen(year: int, month: int)
    requires MonthInRange(year, month)
    ensures var (start, end) := ParseMonth(year, month);
            MonthMatches(start, start, end) && !MonthMatches(end, start, end)
  {
  }

  // ------------------------------------------------------------ tokens

  /**
   * `month_tokens`: the path fragments `/YYYY/MM`, `/YYYY-MM`, `/YYYY/M`.
   * The year is written with four ASCII digits; `month_tokens` keeps the
   * year text `%Y` accepted, which matters only for non-ASCII digits.
   */
  function MonthTokens(year: int, month: int): set<string>
    requires MonthInRange(year, month)
  {
    var y := ZeroPad(year, 4);
    var mm := ZeroPad(month, 2);
    var m := NatToString(month);
    {"/" + y + "/" + mm, "/" + y + "-" + mm, "/" + y + "/" + m}
  }

  /** Months 1 to 9 get three tokens; from October on `MM` and `M` coincide. */
  lemma MonthTokensCount(year: int, month: int)
    requires MonthInRange(year, month)
    ensures |MonthTokens(year, month)| == if month < 10 then 3 else 2
  {
    var y := ZeroPad(year, 4);
    var mm := ZeroPad(month, 2);
    var m := NatToString(month);
    var a, b, c := "/" + y + "/" + mm, "/" + y + "-" + mm, "/" + y + "/" + m;
    assert a[1 + |y|] == '/' && b[1 + |y|] == '-';
    if month < 10 {
      assert |mm| == 2 && |m| == 1;
      assert |a| != |c| && |b| != |c|;
      assert {a, b, c} == {a, b} + {c};
    } else {
      assert mm == m;
      assert {a, b, c} == {a, b};
    }
  }

  /** `is_candidate_url`: some token occurs in the URL's path. */
  predicate IsCandidatePath(path: string, tokens: set<string>) {
    exists t :: t in tokens && Contains(path, t)
  }

  /** For the tokens of a month, the candidate test is one of three substring tests. */
  lemma CandidatePathMonth(path: string, year: int, month: int)
    requires MonthInRange(year, month)
    ensures IsCandidatePath(path, MonthTokens(year, month)) <==>
            || Contains(path, "/" + ZeroPad(year, 4) + "/" + ZeroPad(month, 2))
            || Contains(path, "/" + ZeroPad(year, 4) + "-" + ZeroPad(month, 2))
            || Contains(path, "/" + ZeroPad(year, 4) + "/" + NatToString(month))
  {
  }

  // ------------------------------------------------------- formatting

  /** `strftime("%d.%m.%Y")`. */
  function FormatDate(d: Instant): (r: string)
    ensures |r| >= 10
  {
    ZeroPad(d.day, 2) + "." + ZeroPad(d.month, 2) + "." + ZeroPad(d.year, 4)
  }
}
