/** Date utilities (src/lib/utils/dateHelpers.ts): due-day comparisons against
    the current instant, days until a due day, and "yyyy-MM" month arithmetic.

    The wall clock (`new Date()`) is an explicit `Now` parameter. Instants are
    counted in milliseconds from 00:00 on the 1st of the current month; every
    day is `MsPerDay` long (daylight-saving shifts are not modelled). */
module DateHelpers {
  import opened JsMath
  import opened Records

  const MsPerDay: int := 86_400_000

  /** A calendar month; `month` is counted 1..12 as in the "yyyy-MM" form. */
  datatype YearMonth = YearMonth(year: int, month: int)

  predicate ValidMonth(ym: YearMonth)
  {
    1 <= ym.month <= 12
  }

  predicate IsLeapYear(year: int)
  {
    year % 4 == 0 && (year % 100 != 0 || year % 400 == 0)
  }

  /** The length of a month in the proleptic Gregorian calendar that
      JavaScript dates use. */
  function DaysInMonth(ym: YearMonth): (r: int)
    requires ValidMonth(ym)
    ensures 28 <= r <= 31
  {
    if ym.month == 2 then (if IsLeapYear(ym.year) then 29 else 28)
    else if ym.month == 4 || ym.month == 6 || ym.month == 9 || ym.month == 11 then 30
    else 31
  }

  /** The months, numbered consecutively: the month after `ym` is number + 1. */
  function MonthNumber(ym: YearMonth): int
  {
    ym.year * 12 + (ym.month - 1)
  }

  /** The current instant read from the wall clock: the current month, the
      day of the month and the milliseconds since local midnight. */
  datatype Now = Now(month: YearMonth, day: int, msOfDay: int)

  predicate ValidNow(now: Now)
  {
    && ValidMonth(now.month)
    && 1 <= now.day <= DaysInMonth(now.month)
    && 0 <= now.msOfDay < MsPerDay
  }

  /** The current instant on the month's millisecond scale. */
  function NowMs(now: Now): int
  {
    (now.day - 1) * MsPerDay + now.msOfDay
  }

  /** `new Date(today.getFullYear(), today.getMonth(), dueDay)`: 00:00 at the
      start of day `dueDay`; like the JavaScript constructor, a day number past
      the end of the month runs on into the next one. */
  function DueDateMs(dueDay: int): int
  {
    (dueDay - 1) * MsPerDay
  }

  /** `isDueSoon(dueDay, daysAhead)`: the due date is not before now and is
      strictly before now plus `daysAhead` days. In calendar terms: the due
      day is later this month (or is today and it is exactly midnight), and
      fewer than `daysAhead` days away, or exactly `daysAhead` days away once
      today's midnight has passed. */
  function IsDueSoon(dueDay: int, daysAhead: int, now: Now): (r: bool)
    requires ValidNow(now)
    ensures r <==>
      && (dueDay > now.day || (dueDay == now.day && now.msOfDay == 0))
      && (dueDay - now.day < daysAhead || (dueDay - now.day == daysAhead && now.msOfDay > 0))
  {
    if DueDateMs(dueDay) < NowMs(now) then false
    else DueDateMs(dueDay) < NowMs(now) + daysAhead * MsPerDay
  }

  /** `isOverdue(dueDay, isPaid)`: never for a paid bill; otherwise exactly
      when now is after 00:00 of the due day, so an unpaid bill is already
      overdue on its due day once midnight has passed. */
  function IsOverdue(dueDay: int, isPaid: bool, now: Now): (r: bool)
    requires ValidNow(now)
    ensures r <==> !isPaid && (dueDay < now.day || (dueDay == now.day && now.msOfDay > 0))
  {
    if isPaid then false
    else NowMs(now) > DueDateMs(dueDay)
  }

  /** An unpaid bill is never both overdue and due soon, and a due date
      already behind now is never due soon. */
  lemma OverdueExcludesDueSoon(dueDay: int, daysAhead: int, now: Now)
    requires ValidNow(now)
    ensures IsOverdue(dueDay, false, now) ==> !IsDueSoon(dueDay, daysAhead, now)
    ensures DueDateMs(dueDay) < NowMs(now) ==> !IsDueSoon(dueDay, daysAhead, now)
  {
  }

  /** `getDaysUntilDue(dueDay)`: the due date this month, moved to the same
      day of next month when it is already behind now, then the whole days
      until it, rounded up. Calendar days from today to the due day this
      month, or to the due day next month once this month's has passed. */
  method GetDaysUntilDue(dueDay: int, now: Now) returns (days: int)
    requires ValidNow(now)
    requires dueDay >= 1
    ensures days >= 0
    ensures days == 0 <==> dueDay == now.day && now.msOfDay == 0
    ensures dueDay > now.day || (dueDay == now.day && now.msOfDay == 0) ==> days == dueDay - now.day
    ensures dueDay < now.day || (dueDay == now.day && now.msOfDay > 0) ==>
      days == DaysInMonth(now.month) + dueDay - now.day
  {
    var due := DueDateMs(dueDay);
    var nowMs := NowMs(now);
    if due < nowMs {
      // dueDate.setMonth(dueDate.getMonth() + 1): day `dueDay` of next month,
      // which starts DaysInMonth days after this one.
      due := DaysInMonth(now.month) * MsPerDay + due;
    }
    var dayCount := due - nowMs;
    days := Ceil(dayCount as real / MsPerDay as real);
    CeilOfDays(dayCount / MsPerDay + (if dayCount % MsPerDay == 0 then 0 else 1), dayCount);
  }

  /** The whole days, rounded up, in `ms` milliseconds. */
  lemma CeilOfDays(k: int, ms: int)
    requires (k - 1) * MsPerDay < ms <= k * MsPerDay
    ensures Ceil(ms as real / MsPerDay as real) == k
  {
    var x := ms as real / MsPerDay as real;
    assert (k - 1) as real < x <= k as real;
  }

  // ---------------------------------------------------------------------
  // Month arithmetic on (year, month) values
  // ---------------------------------------------------------------------

  /** The month following `ym`; December wraps to January of the next year. */
  function NextMonth(ym: YearMonth): (r: YearMonth)
    requires ValidMonth(ym)
    ensures ValidMonth(r)
    ensures MonthNumber(r) == MonthNumber(ym) + 1
  {
    if ym.month == 12 then YearMonth(ym.year + 1, 1) else YearMonth(ym.year, ym.month + 1)
  }

  /** The month preceding `ym`; January wraps to December of the year before. */
  function PreviousMonth(ym: YearMonth): (r: YearMonth)
    requires ValidMonth(ym)
    ensures ValidMonth(r)
    ensures MonthNumber(r) == MonthNumber(ym) - 1
  {
    if ym.month == 1 then YearMonth(ym.year - 1, 12) else YearMonth(ym.year, ym.month - 1)
  }

  /** A valid month is determined by its number. */
  lemma MonthNumberInjective(a: YearMonth, b: YearMonth)
    requires ValidMonth(a) && ValidMonth(b)
    requires MonthNumber(a) == MonthNumber(b)
    ensures a == b
  {
  }

  /** Next and previous month undo each other; December and January wrap
      across the year boundary. */
  lemma NextPreviousInverse(ym: YearMonth)
    requires ValidMonth(ym)
    ensures PreviousMonth(NextMonth(ym)) == ym
    ensures NextMonth(PreviousMonth(ym)) == ym
    ensures ym.month == 12 ==> NextMonth(ym) == YearMonth(ym.year + 1, 1)
    ensures ym.month == 1 ==> PreviousMonth(ym) == YearMonth(ym.year - 1, 12)
  {
    MonthNumberInjective(PreviousMonth(NextMonth(ym)), ym);
    MonthNumberInjective(NextMonth(PreviousMonth(ym)), ym);
  }

  /** The month of `new Date(year, monthIndex, 1)` once the JavaScript
      constructor has carried an out-of-range 0-based month index into the
      year (floor division, so index -1 is December of the year before). */
  function NormalMonth(year: int, monthIndex: int): (r: YearMonth)
    ensures ValidMonth(r)
    ensures MonthNumber(r) == year * 12 + monthIndex
  {
    var t := year * 12 + monthIndex;
    YearMonth(t / 12, t % 12 + 1)
  }

  /** The year the JavaScript `Date(year, monthIndex, ...)` constructor really
      uses: a year argument from 0 to 99 means 1900 to 1999. */
  function JsFullYear(year: int): int
  {
    if 0 <= year <= 99 then 1900 + year else year
  }

  /** The month of `new Date(year, monthIndex, 1)`, with both adjustments of
      the JavaScript constructor. */
  function JsDateMonth(year: int, monthIndex: int): (r: YearMonth)
    ensures ValidMonth(r)
    ensures year >= 0 ==> r.year * 12 >= 1200 + monthIndex - 11
    ensures 0 <= year <= 99 ==> MonthNumber(r) == (1900 + year) * 12 + monthIndex
    ensures !(0 <= year <= 99) ==> MonthNumber(r) == year * 12 + monthIndex
  {
    NormalMonth(JsFullYear(year), monthIndex)
  }

  // ---------------------------------------------------------------------
  // The "yyyy-MM" string form
  // ---------------------------------------------------------------------

  predicate IsDigit(c: char)
  {
    '0' <= c <= '9'
  }

  predicate AllDigits(s: string)
  {
    forall i :: 0 <= i < |s| ==> IsDigit(s[i])
  }

  /** `Number(s)` for a string of decimal digits. */
  function DigitsValue(s: string): nat
    requires AllDigits(s)
  {
    if s == [] then 0 else DigitsValue(s[..|s| - 1]) * 10 + (s[|s| - 1] as int - '0' as int)
  }

  function DigitChar(d: int): (c: char)
    requires 0 <= d < 10
    ensures IsDigit(c) && c as int - '0' as int == d
  {
    ('0' as int + d) as char
  }

  /** The decimal digits of `n`, without leading zeros. */
  function DecimalDigits(n: nat): (s: string)
    ensures |s| >= 1 && AllDigits(s) && DigitsValue(s) == n
    ensures n < 10 ==> |s| == 1
  {
    if n < 10 then [DigitChar(n)]
    else
      var s := DecimalDigits(n / 10) + [DigitChar(n % 10)];
      assert s[..|s| - 1] == DecimalDigits(n / 10);
      s
  }

  /** A leading zero does not change the value of a digit string. */
  lemma {:induction false} LeadingZero(s: string)
    requires AllDigits(s)
    ensures AllDigits(['0'] + s) && DigitsValue(['0'] + s) == DigitsValue(s)
  {
    if s != [] {
      var n := |s| - 1;
      assert (['0'] + s)[..|s|] == ['0'] + s[..n];
      LeadingZero(s[..n]);
    }
  }

  /** The digit string left-padded with zeros to at least `width` characters,
      as date-fns pads the "yyyy" and "MM" fields. */
  function PadZeros(s: string, width: nat): (r: string)
    requires AllDigits(s)
    ensures AllDigits(r) && DigitsValue(r) == DigitsValue(s)
    ensures |r| == if |s| >= width then |s| else width
    decreases width - |s|
  {
    if |s| >= width then s
    else
      LeadingZero(s);
      PadZeros(['0'] + s, width)
  }

  /** `format(date, "yyyy-MM")` for a month of a year from 0 on. */
  function FormatMonth(ym: YearMonth): (s: string)
    requires ValidMonth(ym) && ym.year >= 0
    ensures |s| >= 7 && s[|s| - 3] == '-'
  {
    PadZeros(DecimalDigits(ym.year), 4) + "-" + PadZeros(DecimalDigits(ym.month), 2)
  }

  /** The index of the first '-' in `s`, or `|s|` when there is none. */
  function FirstDash(s: string): (i: nat)
    ensures i <= |s|
    ensures forall j :: 0 <= j < i ==> s[j] != '-'
    ensures i < |s| ==> s[i] == '-'
  {
    if s == [] || s[0] == '-' then 0 else 1 + FirstDash(s[1..])
  }

  /** `month.split("-").map(Number)` destructured as `[year, mo]`: the first
      two dash-separated fields, any further field ignored. A field that is
      not a non-empty run of decimal digits (`Number` would give NaN or
      read it leniently) makes the result `None`. */
  function ParseMonth(s: string): (r: Option<YearMonth>)
    ensures FirstDash(s) == |s| ==> r.None?
    ensures r.Some? ==> r.value.year >= 0 && r.value.month >= 0
  {
    var i := FirstDash(s);
    if i == |s| then None
    else
      var yearField := s[..i];
      var rest := s[i + 1..];
      var monthField := rest[..FirstDash(rest)];
      if yearField != [] && AllDigits(yearField) && monthField != [] && AllDigits(monthField)
      then Some(YearMonth(DigitsValue(yearField), DigitsValue(monthField)))
      else None
  }

  lemma FirstDashAfterDigits(a: string, b: string)
    requires AllDigits(a)
    ensures FirstDash(a + "-" + b) == |a|
    ensures FirstDash(a) == |a|
  {
    var s := a + "-" + b;
    assert s[|a|] == '-';
    assert forall j :: 0 <= j < |a| ==> s[j] == a[j];
  }

  /** Parsing the formatted month gives the month back. */
  lemma ParseFormat(ym: YearMonth)
    requires ValidMonth(ym) && ym.year >= 0
    ensures ParseMonth(FormatMonth(ym)) == Some(ym)
  {
    var y := PadZeros(DecimalDigits(ym.year), 4);
    var m := PadZeros(DecimalDigits(ym.month), 2);
    var s := y + "-" + m;
    FirstDashAfterDigits(y, m);
    assert s[..|y|] == y;
    assert s[|y| + 1..] == m;
    FirstDashAfterDigits(m, "");
    assert m[..|m|] == m;
  }

  /** Different months format differently. */
  lemma FormatInjective(a: YearMonth, b: YearMonth)
    requires ValidMonth(a) && a.year >= 0 && ValidMonth(b) && b.year >= 0
    requires FormatMonth(a) == FormatMonth(b)
    ensures a == b
  {
    ParseFormat(a);
    ParseFormat(b);
  }

  /** `getNextMonth(month)`: parse, `new Date(year, mo, 1)`, format. Defined
      exactly on the strings that parse, and what it answers parses again, to
      a month in 1..12. */
  function GetNextMonth(s: string): (r: Option<string>)
    ensures r.Some? <==> ParseMonth(s).Some?
    ensures r.Some? ==> ParseMonth(r.value).Some? && ValidMonth(ParseMonth(r.value).value)
  {
    match ParseMonth(s)
    case None => None
    case Some(ym) =>
      var next := JsDateMonth(ym.year, ym.month);
      ParseFormat(next);
      Some(FormatMonth(next))
  }

  /** `getPreviousMonth(month)`: parse, `new Date(year, mo - 2, 1)`, format.
      Defined exactly on the strings that parse, and what it answers parses
      again, to a month in 1..12. */
  function GetPreviousMonth(s: string): (r: Option<string>)
    ensures r.Some? <==> ParseMonth(s).Some?
    ensures r.Some? ==> ParseMonth(r.value).Some? && ValidMonth(ParseMonth(r.value).value)
  {
    match ParseMonth(s)
    case None => None
    case Some(ym) =>
      var previous := JsDateMonth(ym.year, ym.month - 2);
      ParseFormat(previous);
      Some(FormatMonth(previous))
  }

  /** For months of the year 100 on, `getNextMonth` is the next month. */
  lemma GetNextMonthIsNext(ym: YearMonth)
    requires ValidMonth(ym) && ym.year >= 100
    ensures GetNextMonth(FormatMonth(ym)) == Some(FormatMonth(NextMonth(ym)))
  {
    ParseFormat(ym);
    MonthNumberInjective(JsDateMonth(ym.year, ym.month), NextMonth(ym));
  }

  /** For months of the year 100 on, `getPreviousMonth` is the previous
      month. */
  lemma GetPreviousMonthIsPrevious(ym: YearMonth)
    requires ValidMonth(ym) && ym.year >= 100
    ensures GetPreviousMonth(FormatMonth(ym)) == Some(FormatMonth(PreviousMonth(ym)))
  {
    ParseFormat(ym);
    MonthNumberInjective(JsDateMonth(ym.year, ym.month - 2), PreviousMonth(ym));
  }

  /** On "yyyy-MM" strings from the year 100 on, `getNextMonth` and
      `getPreviousMonth` undo each other. */
  lemma MonthStringsInverse(ym: YearMonth)
    requires ValidMonth(ym) && ym.year >= 100
    ensures GetPreviousMonth(FormatMonth(NextMonth(ym))) == Some(FormatMonth(ym))
    ensures ym != YearMonth(100, 1) ==>
      GetNextMonth(FormatMonth(PreviousMonth(ym))) == Some(FormatMonth(ym))
  {
    GetNextMonthIsNext(ym);
    GetPreviousMonthIsPrevious(NextMonth(ym));
    NextPreviousInverse(ym);
    if ym != YearMonth(100, 1) {
      GetPreviousMonthIsPrevious(ym);
      GetNextMonthIsNext(PreviousMonth(ym));
    }
  }

  /** As written, `getNextMonth` on a month of the years 0 to 99 answers the
      month after the same month of 1900 to 1999. */
  lemma GetNextMonthTwoDigitYear(ym: YearMonth)
    requires ValidMonth(ym) && 0 <= ym.year <= 99
    ensures GetNextMonth(FormatMonth(ym)) == Some(FormatMonth(NextMonth(YearMonth(ym.year + 1900, ym.month))))
  {
    ParseFormat(ym);
    MonthNumberInjective(JsDateMonth(ym.year, ym.month), NextMonth(YearMonth(ym.year + 1900, ym.month)));
  }

  /** The counterexample: the month after "0099-12" comes out as "2000-01",
      not "0100-01", so the two helpers are not inverse on "0100-01". */
  lemma GetNextMonthCounterexample()
    ensures GetPreviousMonth(FormatMonth(YearMonth(100, 1))) == Some(FormatMonth(YearMonth(99, 12)))
    ensures GetNextMonth(FormatMonth(YearMonth(99, 12))) == Some(FormatMonth(YearMonth(2000, 1)))
    ensures GetNextMonth(FormatMonth(YearMonth(99, 12))) != Some(FormatMonth(YearMonth(100, 1)))
  {
    GetPreviousMonthIsPrevious(YearMonth(100, 1));
    GetNextMonthTwoDigitYear(YearMonth(99, 12));
    if FormatMonth(YearMonth(2000, 1)) == FormatMonth(YearMonth(100, 1)) {
      FormatInjective(YearMonth(2000, 1), YearMonth(100, 1));
    }
  }

  /** The intended `getNextMonth`: the calendar month after the parsed one,
      for every year. */
  function NextMonthString(s: string): Option<string>
  {
    match ParseMonth(s)
    case None => None
    case Some(ym) => Some(FormatMonth(NormalMonth(ym.year, ym.month)))
  }

  /** The intended `getPreviousMonth`; there is no "yyyy" form for the month
      before January of the year 0. */
  function PreviousMonthString(s: string): Option<string>
  {
    match ParseMonth(s)
    case None => None
    case Some(ym) =>
      var previous := NormalMonth(ym.year, ym.month - 2);
      if previous.year >= 0 then Some(FormatMonth(previous)) else None
  }

  /** The intended helpers are the next and previous month for every year,
      undo each other, and agree with the written ones from the year 100 on. */
  lemma IntendedMonthStrings(ym: YearMonth)
    requires ValidMonth(ym) && ym.year >= 0
    ensures NextMonthString(FormatMonth(ym)) == Some(FormatMonth(NextMonth(ym)))
    ensures PreviousMonthString(FormatMonth(NextMonth(ym))) == Some(FormatMonth(ym))
    ensures ym.year >= 1 ==> PreviousMonthString(FormatMonth(ym)) == Some(FormatMonth(PreviousMonth(ym)))
    ensures ym.year >= 1 ==> NextMonthString(FormatMonth(PreviousMonth(ym))) == Some(FormatMonth(ym))
    ensures ym.year >= 100 ==> GetNextMonth(FormatMonth(ym)) == NextMonthString(FormatMonth(ym))
  {
    NextMonthStringIsNext(ym);
    NextPreviousInverse(ym);
    PreviousMonthStringIsPrevious(NextMonth(ym));
    if ym.year >= 1 {
      PreviousMonthStringIsPrevious(ym);
      NextMonthStringIsNext(PreviousMonth(ym));
    }
    if ym.year >= 100 {
      GetNextMonthIsNext(ym);
    }
  }

  /** The intended next-month string is the formatted calendar successor. */
  lemma NextMonthStringIsNext(ym: YearMonth)
    requires ValidMonth(ym) && ym.year >= 0
    ensures NextMonthString(FormatMonth(ym)) == Some(FormatMonth(NextMonth(ym)))
  {
    ParseFormat(ym);
    MonthNumberInjective(NormalMonth(ym.year, ym.month), NextMonth(ym));
  }

  /** The intended previous-month string is the formatted calendar
      predecessor whenever that has a "yyyy" form. */
  lemma PreviousMonthStringIsPrevious(ym: YearMonth)
    requires ValidMonth(ym) && ym.year >= 0 && PreviousMonth(ym).year >= 0
    ensures PreviousMonthString(FormatMonth(ym)) == Some(FormatMonth(PreviousMonth(ym)))
  {
    ParseFormat(ym);
    MonthNumberInjective(NormalMonth(ym.year, ym.month - 2), PreviousMonth(ym));
  }

  // ---------------------------------------------------------------------
  // Month bounds
  // ---------------------------------------------------------------------

  /** A local date and time of day. */
  datatype LocalTime = LocalTime(month: YearMonth, day: int, msOfDay: int)

  /** `getMonthStart(month)`: `startOfMonth(new Date(year, mo - 1))`. */
  function GetMonthStart(s: string): (r: Option<LocalTime>)
    ensures r.Some? <==> ParseMonth(s).Some?
    ensures r.Some? ==> ValidMonth(r.value.month) && r.value.day == 1 && r.value.msOfDay == 0
  {
    match ParseMonth(s)
    case None => None
    case Some(ym) => Some(LocalTime(JsDateMonth(ym.year, ym.month - 1), 1, 0))
  }

  /** `getMonthEnd(month)`: `endOfMonth(new Date(year, mo - 1))`, the last
      millisecond of the month's last day. */
  function GetMonthEnd(s: string): (r: Option<LocalTime>)
    ensures r.Some? <==> ParseMonth(s).Some?
    ensures r.Some? ==>
      && ValidMonth(r.value.month)
      && r.value.day == DaysInMonth(r.value.month)
      && r.value.msOfDay == MsPerDay - 1
    ensures r.Some? ==> r.value.month == GetMonthStart(s).value.month
  {
    match ParseMonth(s)
    case None => None
    case Some(ym) =>
      var m := JsDateMonth(ym.year, ym.month - 1);
      Some(LocalTime(m, DaysInMonth(m), MsPerDay - 1))
  }

  /** For a month of the year 100 on, the bounds are 00:00 on day 1 and the
      last millisecond of the last day of that same month: every instant of
      the month lies between them, and the instant after the end is in the
      next month. */
  lemma MonthBounds(ym: YearMonth)
    requires ValidMonth(ym) && ym.year >= 100
    ensures GetMonthStart(FormatMonth(ym)) == Some(LocalTime(ym, 1, 0))
    ensures GetMonthEnd(FormatMonth(ym)) == Some(LocalTime(ym, DaysInMonth(ym), MsPerDay - 1))
    ensures forall now: Now :: now.month == ym && ValidNow(now) ==>
      0 <= NowMs(now) <= (DaysInMonth(ym) - 1) * MsPerDay + (MsPerDay - 1)
  {
    ParseFormat(ym);
    MonthNumberInjective(JsDateMonth(ym.year, ym.month - 1), ym);
  }
}
