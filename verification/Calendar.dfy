/** Log timestamps: day number to proleptic Gregorian date in closed form.
    Models `civil_from_days` in daemon/src/logging.rs; the calendar rules are those of RFC 3339,
    section 5.7 and Appendix C. */
module Calendar {
  import opened Common

  datatype Date = Date(year: int, month: int, day: int)

  // ---- The closed form ----

  /** Integer division as the source's language defines it: toward zero. */
  function TruncDiv(a: int, b: int): int
    requires b > 0
  {
    if a >= 0 then a / b else -((-a) / b)
  }

  function Era(z: int): int { TruncDiv(if z >= 0 then z else z - 146_096, 146_097) }

  function YearOfEra(doe: int): int { (doe - doe / 1460 + doe / 36524 - doe / 146096) / 365 }

  function CivilFromDays(days: int): Date {
    var z := days + 719_468;
    var era := Era(z);
    var doe := z - era * 146_097;
    var yoe := YearOfEra(doe);
    var y := yoe + era * 400;
    var doy := doe - (365 * yoe + yoe / 4 - yoe / 100);
    var mp := (5 * doy + 2) / 153;
    var d := doy - (153 * mp + 2) / 5 + 1;
    var m := if mp < 10 then mp + 3 else mp - 9;
    Date(if m <= 2 then y + 1 else y, m, d)
  }

  // ---- The calendar, counted ----

  predicate IsLeap(year: int) { year % 4 == 0 && (year % 100 != 0 || year % 400 == 0) }

  function DaysInMonth(year: int, month: int): int {
    if month == 2 then (if IsLeap(year) then 29 else 28)
    else if month == 4 || month == 6 || month == 9 || month == 11 then 30
    else 31
  }

  predicate ValidDate(d: Date) { 1 <= d.month <= 12 && 1 <= d.day <= DaysInMonth(d.year, d.month) }

  function DaysInYear(year: int): int { if IsLeap(year) then 366 else 365 }

  /** Days from 1 January 1970 to 1 January of `year`, one year at a time. */
  function YearStart(year: int): int
    decreases if year >= 1970 then year - 1970 else 1970 - year
  {
    if year == 1970 then 0
    else if year > 1970 then YearStart(year - 1) + DaysInYear(year - 1)
    else YearStart(year + 1) - DaysInYear(year)
  }

  /** Days of `year` before its month `month`, one month at a time. */
  function MonthStart(year: int, month: int): int
    decreases month
  {
    if month <= 1 then 0 else MonthStart(year, month - 1) + DaysInMonth(year, month - 1)
  }

  function DayNumber(d: Date): int { YearStart(d.year) + MonthStart(d.year, d.month) + d.day - 1 }

  function NextDay(d: Date): Date {
    if d.day < DaysInMonth(d.year, d.month) then d.(day := d.day + 1)
    else if d.month < 12 then Date(d.year, d.month + 1, 1)
    else Date(d.year + 1, 1, 1)
  }

  // ---- The counted year in closed form ----

  function LeapsBefore(year: int): int { (year - 1) / 4 - (year - 1) / 100 + (year - 1) / 400 }

  lemma LeapsStep(year: int)
    ensures LeapsBefore(year + 1) == LeapsBefore(year) + (if IsLeap(year) then 1 else 0)
  {
    MultiplesNest(year);
    DivStep(year, 4);
    DivStep(year, 100);
    DivStep(year, 400);
    var n := year + 1 - 1;
    assert n == year;
  }

  lemma MultiplesNest(n: int)
    ensures n % 400 == 0 ==> n % 100 == 0
    ensures n % 100 == 0 ==> n % 4 == 0
  {
    if n % 400 == 0 { DivUnique(n, 100, 4 * (n / 400), 0); }
    if n % 100 == 0 { DivUnique(n, 4, 25 * (n / 100), 0); }
  }

  lemma DivStep(n: int, k: int)
    requires k > 1
    ensures n / k == (n - 1) / k + (if n % k == 0 then 1 else 0)
  {
    var q := (n - 1) / k;
    var r := (n - 1) % k;
    assert n - 1 == q * k + r;
    if r == k - 1 {
      assert n == (q + 1) * k;
      DivUnique(n, k, q + 1, 0);
    } else {
      DivUnique(n, k, q, r + 1);
    }
  }

  lemma DivUnique(n: int, k: int, q: int, r: int)
    requires k > 0 && n == q * k + r && 0 <= r < k
    ensures n / k == q && n % k == r
  {
    var q', r' := n / k, n % k;
    if q > q' { MulAtLeast(q, q', k); }
    if q < q' { MulAtLeast(q', q, k); }
  }

  lemma MulAtLeast(a: int, b: int, k: int)
    requires a > b && k > 0
    ensures a * k >= b * k + k
  {
    MulMonotone(a - b - 1, k);
    assert a * k == (a - b - 1) * k + b * k + k;
  }

  lemma MulMonotone(n: int, k: int)
    requires n >= 0 && k >= 0
    ensures n * k >= 0
  {
  }

  lemma {:induction false} YearStartClosed(year: int)
    ensures YearStart(year) == 365 * (year - 1970) + LeapsBefore(year) - 477
    decreases if year >= 1970 then year - 1970 else 1970 - year
  {
    if year > 1970 {
      YearStartClosed(year - 1);
      LeapsStep(year - 1);
    } else if year < 1970 {
      YearStartClosed(year + 1);
      LeapsStep(year);
    }
  }

  // ---- Inside one 400-year era ----

  /** Rounding toward zero after the shift is rounding down. */
  lemma EraIsFloor(z: int)
    ensures Era(z) == z / 146_097
    ensures 0 <= z - Era(z) * 146_097 < 146_097
  {
    if z < 0 {
      var q, r := (146_096 - z) / 146_097, (146_096 - z) % 146_097;
      assert 146_096 - z == q * 146_097 + r;
      DivUnique(z, 146_097, -q, 146_096 - r);
    }
  }

  /** A day of the era as century, four-year cycle, year and day, counting years from 1 March. */
  ghost predicate Splits(doe: int, c: int, q: int, k: int, doy: int) {
    && 0 <= c <= 3 && 0 <= q <= 24 && 0 <= k <= 3
    && doe == 36524 * c + 1461 * q + 365 * k + doy
    && 0 <= doy <= 365
    && (doy == 365 ==> k == 3 && (q < 24 || c == 3))
  }

  lemma SplitExists(doe: int) returns (c: int, q: int, k: int, doy: int)
    requires 0 <= doe < 146_097
    ensures Splits(doe, c, q, k, doy)
  {
    c := if doe / 36524 <= 3 then doe / 36524 else 3;
    var rc := doe - 36524 * c;
    q := if rc / 1461 <= 24 then rc / 1461 else 24;
    var rq := rc - 1461 * q;
    k := if rq / 365 <= 3 then rq / 365 else 3;
    doy := rq - 365 * k;
  }

  /** The source's correction terms find the year of every day of the era. */
  lemma YearOfEraIsRight(doe: int, c: int, q: int, k: int, doy: int)
    requires 0 <= doe < 146_097 && Splits(doe, c, q, k, doy)
    ensures YearOfEra(doe) == 100 * c + 4 * q + k
  {
    var rq := 365 * k + doy;
    var e := if 24 * c + q + rq >= 1460 then 1 else 0;
    assert doe / 1460 == 25 * c + q + e by {
      DivUnique(doe, 1460, 25 * c + q + e, 24 * c + q + rq - 1460 * e);
    }
    var last := if doe == 146_096 then 1 else 0;
    assert doe / 36524 == c + last by { DivUnique(doe, 36524, c + last, 1461 * q + rq - 36524 * last); }
    assert doe / 146096 == last by { DivUnique(doe, 146096, last, doe - 146096 * last); }
    DivUnique(36500 * c + 1460 * q + rq - e, 365, 100 * c + 4 * q + k, doy - e + (if doy < e then 365 else 0));
  }

  /** Year and day of the year, as the source's terms compute them. */
  lemma EraSplits(doe: int) returns (c: int, q: int, k: int, doy: int)
    requires 0 <= doe < 146_097
    ensures Splits(doe, c, q, k, doy)
    ensures var yoe := 100 * c + 4 * q + k;
            YearOfEra(doe) == yoe && yoe / 4 == 25 * c + q && yoe / 100 == c && doy == doe - (365 * yoe + yoe / 4 - yoe / 100)
  {
    c, q, k, doy := SplitExists(doe);
    YearOfEraIsRight(doe, c, q, k, doy);
    var yoe := 100 * c + 4 * q + k;
    DivUnique(yoe, 4, 25 * c + q, k);
    DivUnique(yoe, 100, c, 4 * q + k);
  }

  /** The month table: `doy` days after 1 March. */
  function MonthOf(doy: int): int { (5 * doy + 2) / 153 }

  lemma MonthTable(doy: int)
    requires 0 <= doy <= 365
    ensures var mp := MonthOf(doy);
            && 0 <= mp <= 11
            && (153 * mp + 2) / 5 <= doy
            && doy < (if mp == 11 then 366 else (153 * (mp + 1) + 2) / 5)
  {
  }

  /** Days from 1 March of a year to the first of a month, and how they were counted. */
  lemma MarchBased(y: int, mp: int)
    requires 0 <= mp <= 11
    ensures if mp < 10 then YearStart(y) + MonthStart(y, mp + 3) == YearStart(y) + MonthStart(y, 3) + (153 * mp + 2) / 5
            else YearStart(y + 1) + MonthStart(y + 1, mp - 9) == YearStart(y) + MonthStart(y, 3) + (153 * mp + 2) / 5
  {
    MonthsFromMarch(y);
    YearStartClosed(y);
    YearStartClosed(y + 1);
    LeapsStep(y);
  }

  lemma MonthsFromMarch(y: int)
    ensures MonthStart(y, 1) == 0 && MonthStart(y, 2) == 31
    ensures MonthStart(y, 3) == 59 + (if IsLeap(y) then 1 else 0)
    ensures forall mp :: 0 <= mp < 10 ==> MonthStart(y, mp + 3) == MonthStart(y, 3) + (153 * mp + 2) / 5
    ensures MonthStart(y, 13) == DaysInYear(y)
  {
    assert MonthStart(y, 2) == 31 && MonthStart(y, 3) == 31 + DaysInMonth(y, 2);
    assert MonthStart(y, 4) == MonthStart(y, 3) + 31 && MonthStart(y, 5) == MonthStart(y, 4) + 30;
    assert MonthStart(y, 6) == MonthStart(y, 5) + 31 && MonthStart(y, 7) == MonthStart(y, 6) + 30;
    assert MonthStart(y, 8) == MonthStart(y, 7) + 31 && MonthStart(y, 9) == MonthStart(y, 8) + 31;
    assert MonthStart(y, 10) == MonthStart(y, 9) + 30 && MonthStart(y, 11) == MonthStart(y, 10) + 31;
    assert MonthStart(y, 12) == MonthStart(y, 11) + 30 && MonthStart(y, 13) == MonthStart(y, 12) + 31;
  }

  /** 1 March of year `100c + 4q + k` of an era. */
  lemma MarchFirst(era: int, c: int, q: int, k: int)
    requires 0 <= c <= 3 && 0 <= q <= 24 && 0 <= k <= 3
    ensures var y := 400 * era + 100 * c + 4 * q + k;
            && YearStart(y) + MonthStart(y, 3) == era * 146_097 + 36524 * c + 1461 * q + 365 * k - 719_468
            && (IsLeap(y + 1) <==> k == 3 && (q < 24 || c == 3))
  {
    var y := 400 * era + 100 * c + 4 * q + k;
    YearStartClosed(y);
    LeapsStep(y);
    MonthsFromMarch(y);
    DivUnique(y, 400, era, 100 * c + 4 * q + k);
    DivUnique(y, 100, 4 * era + c, 4 * q + k);
    DivUnique(y, 4, 100 * era + 25 * c + q, k);
    if k < 3 {
      DivUnique(y + 1, 4, 100 * era + 25 * c + q, k + 1);
    } else if q < 24 {
      DivUnique(y + 1, 4, 100 * era + 25 * c + q + 1, 0);
      DivUnique(y + 1, 100, 4 * era + c, 4 * q + 4);
    } else if c < 3 {
      DivUnique(y + 1, 4, 100 * era + 25 * c + q + 1, 0);
      DivUnique(y + 1, 100, 4 * era + c + 1, 0);
      DivUnique(y + 1, 400, era, 100 * c + 100);
    } else {
      DivUnique(y + 1, 4, 100 * era + 25 * c + q + 1, 0);
      DivUnique(y + 1, 400, era + 1, 0);
    }
  }

  // ---- The main results ----

  /** Every day number, negative ones too, yields a valid date, and counting that date's days from
      1 January 1970 gives the number back. */
  lemma CivilFromDaysIsRight(days: int)
    ensures ValidDate(CivilFromDays(days))
    ensures DayNumber(CivilFromDays(days)) == days
  {
    hide CivilFromDays, FromMarch, DayNumber, ValidDate, YearStart, MonthStart, IsLeap;
    var era, c, q, k, doy := Decompose(days);
    MarchFirst(era, c, q, k);
    MarchDate(400 * era + 100 * c + 4 * q + k, doy);
  }

  /** The era, the year of the era and the day since 1 March that a day number stands for. */
  lemma Decompose(days: int) returns (era: int, c: int, q: int, k: int, doy: int)
    ensures Splits(days + 719_468 - era * 146_097, c, q, k, doy)
    ensures CivilFromDays(days) == FromMarch(400 * era + 100 * c + 4 * q + k, doy)
  {
    hide CivilFromDays, FromMarch, YearOfEra, Era, Splits;
    era := Era(days + 719_468);
    EraIsFloor(days + 719_468);
    var doe := days + 719_468 - era * 146_097;
    c, q, k, doy := EraSplits(doe);
    CivilFromMarch(days, era, doe, 100 * c + 4 * q + k, doy);
  }

  lemma CivilFromMarch(days: int, era: int, doe: int, yoe: int, doy: int)
    requires era == Era(days + 719_468) && doe == days + 719_468 - era * 146_097 && yoe == YearOfEra(doe)
    requires doy == doe - (365 * yoe + yoe / 4 - yoe / 100)
    ensures CivilFromDays(days) == FromMarch(yoe + era * 400, doy)
  {
    hide Era, YearOfEra;
  }

  /** The date `doy` days after 1 March of year `y`, as the source's month arithmetic has it. */
  function FromMarch(y: int, doy: int): Date {
    var mp := MonthOf(doy);
    var m := if mp < 10 then mp + 3 else mp - 9;
    Date(if m <= 2 then y + 1 else y, m, doy - (153 * mp + 2) / 5 + 1)
  }

  lemma MarchDate(y: int, doy: int)
    requires 0 <= doy <= 365 && (doy == 365 ==> IsLeap(y + 1))
    ensures ValidDate(FromMarch(y, doy))
    ensures DayNumber(FromMarch(y, doy)) == YearStart(y) + MonthStart(y, 3) + doy
  {
    MonthTable(doy);
    MarchBased(y, MonthOf(doy));
    MonthFits(y, doy);
    hide YearStart, MonthStart, IsLeap, DaysInMonth;
  }

  /** The day of the month stays within the month. */
  lemma MonthFits(y: int, doy: int)
    requires 0 <= doy <= 365 && (doy == 365 ==> IsLeap(y + 1))
    ensures var mp := MonthOf(doy);
            var m := if mp < 10 then mp + 3 else mp - 9;
            1 <= doy - (153 * mp + 2) / 5 + 1 <= DaysInMonth(if m <= 2 then y + 1 else y, m)
  {
    MonthTable(doy);
  }

  lemma {:induction false} MonthStartGrows(year: int, m: int, n: int)
    requires 1 <= m < n
    ensures MonthStart(year, m) + DaysInMonth(year, m) <= MonthStart(year, n)
    decreases n
  {
    if m < n - 1 { MonthStartGrows(year, m, n - 1); }
  }

  lemma {:induction false} YearStartGrows(y: int, n: int)
    requires y < n
    ensures YearStart(y) + DaysInYear(y) <= YearStart(n)
    decreases n - y
  {
    YearStartClosed(n - 1);
    YearStartClosed(n);
    LeapsStep(n - 1);
    if y < n - 1 { YearStartGrows(y, n - 1); }
  }

  predicate Before(a: Date, b: Date) {
    a.year < b.year || (a.year == b.year && (a.month < b.month || (a.month == b.month && a.day < b.day)))
  }

  /** Later dates have larger day numbers. */
  lemma DayNumberGrows(a: Date, b: Date)
    requires ValidDate(a) && ValidDate(b) && Before(a, b)
    ensures DayNumber(a) < DayNumber(b)
  {
    MonthsFromMarch(a.year);
    MonthStartGrows(a.year, a.month, 13);
    if a.year < b.year {
      YearStartGrows(a.year, b.year);
      if b.month > 1 { MonthStartGrows(b.year, 1, b.month); }
    } else if a.month < b.month {
      MonthStartGrows(a.year, a.month, b.month);
    }
  }

  lemma DayNumberIsInjective(a: Date, b: Date)
    requires ValidDate(a) && ValidDate(b) && DayNumber(a) == DayNumber(b)
    ensures a == b
  {
    if Before(a, b) { DayNumberGrows(a, b); }
    if Before(b, a) { DayNumberGrows(b, a); }
  }

  /** And every valid date comes back from its own day number. */
  lemma DateRoundTrip(d: Date)
    requires ValidDate(d)
    ensures CivilFromDays(DayNumber(d)) == d
  {
    hide CivilFromDays, DayNumber, ValidDate;
    CivilFromDaysIsRight(DayNumber(d));
    DayNumberIsInjective(CivilFromDays(DayNumber(d)), d);
  }

  /** Consecutive days give consecutive dates, across months, years, centuries and eras. */
  lemma ConsecutiveDays(days: int)
    ensures CivilFromDays(days + 1) == NextDay(CivilFromDays(days))
  {
    hide CivilFromDays, DayNumber, ValidDate, NextDay;
    var d := CivilFromDays(days);
    CivilFromDaysIsRight(days);
    NextDayCounts(d);
    DateRoundTrip(NextDay(d));
  }

  lemma NextDayCounts(d: Date)
    requires ValidDate(d)
    ensures ValidDate(NextDay(d)) && DayNumber(NextDay(d)) == DayNumber(d) + 1
  {
    if d.day == DaysInMonth(d.year, d.month) && d.month == 12 {
      MonthsFromMarch(d.year);
      YearStartClosed(d.year);
      YearStartClosed(d.year + 1);
      LeapsStep(d.year);
    }
  }

  /** Day 0 is 1 January 1970. */
  lemma Epoch()
    ensures CivilFromDays(0) == Date(1970, 1, 1)
  {
    hide CivilFromDays;
    DateRoundTrip(Date(1970, 1, 1));
  }

  // ---- Machine arithmetic ----

  const I64_MAX: int := 0x7FFF_FFFF_FFFF_FFFF
  const I64_MIN: int := -0x8000_0000_0000_0000

  predicate Signed(n: int) { I64_MIN <= n <= I64_MAX }

  predicate Unsigned(n: int) { 0 <= n <= U64_MAX }

  /** Every value the source computes on the way to the year and day of the era, in its own type. */
  predicate EraFits(z: int) {
    && Signed(z) && Signed(if z >= 0 then z else z - 146_096)
    && (var era := Era(z); Signed(era) && Signed(era * 146_097) && Signed(era * 400))
    && Signed(z - Era(z) * 146_097) && Unsigned(z - Era(z) * 146_097)
  }

  predicate TermsFit(doe: int) {
    && Unsigned(doe - doe / 1460) && Unsigned(doe - doe / 1460 + doe / 36524)
    && Unsigned(doe - doe / 1460 + doe / 36524 - doe / 146096)
  }

  predicate DayFits(doe: int, yoe: int) {
    && Unsigned(yoe) && Signed(yoe) && Unsigned(365 * yoe) && Unsigned(365 * yoe + yoe / 4)
    && Unsigned(365 * yoe + yoe / 4 - yoe / 100) && Unsigned(DayOfYear(doe, yoe))
  }

  predicate YearFits(doe: int) { TermsFit(doe) && DayFits(doe, YearOfEra(doe)) }

  predicate MonthComputes(doy: int) {
    && Unsigned(5 * doy) && Unsigned(5 * doy + 2)
    && (var mp := MonthOf(doy);
        && Unsigned(153 * mp) && Unsigned(153 * mp + 2)
        && Unsigned(doy - (153 * mp + 2) / 5) && Unsigned(doy - (153 * mp + 2) / 5 + 1) && Signed(doy - (153 * mp + 2) / 5 + 1)
        && Unsigned(if mp < 10 then mp + 3 else mp - 9) && Signed(if mp < 10 then mp + 3 else mp - 9))
  }

  function DayOfYear(doe: int, yoe: int): int { doe - (365 * yoe + yoe / 4 - yoe / 100) }

  predicate DateFits(era: int, doe: int) {
    && YearFits(doe) && MonthComputes(DayOfYear(doe, YearOfEra(doe)))
    && Signed(YearOfEra(doe) + era * 400) && Signed(YearOfEra(doe) + era * 400 + 1)
  }

  /** The whole computation stays within its machine types. */
  predicate ComputesExactly(days: int) {
    EraFits(days + 719_468) && DateFits(Era(days + 719_468), days + 719_468 - Era(days + 719_468) * 146_097)
  }

  /** No step overflows, signed or unsigned, exactly for inputs that leave room to add the day offset. */
  lemma MachineArithmeticSuffices(days: int)
    requires Signed(days)
    ensures ComputesExactly(days) <==> days <= I64_MAX - 719_468
  {
    hide Era, DateFits;
    var z := days + 719_468;
    if days <= I64_MAX - 719_468 {
      EraIsFloor(z);
      EraComputes(z);
      DateComputes(Era(z), z - Era(z) * 146_097);
    }
  }

  lemma DateComputes(era: int, doe: int)
    requires 0 <= doe < 146_097 && I64_MIN + 400 <= era * 400 <= I64_MAX - 401
    ensures DateFits(era, doe)
  {
    hide YearOfEra, YearFits, MonthComputes;
    var c, q, k, doy := EraSplits(doe);
    YearComputes(doe);
    MonthComputesWithin(doy);
  }

  lemma EraComputes(z: int)
    requires I64_MIN + 719_468 <= z <= I64_MAX && 0 <= z - Era(z) * 146_097 < 146_097
    ensures EraFits(z) && I64_MIN + 400 <= Era(z) * 400 <= I64_MAX - 401
  {
    hide Era;
  }

  lemma YearComputes(doe: int)
    requires 0 <= doe < 146_097
    ensures YearFits(doe) && 0 <= YearOfEra(doe) < 400
  {
    hide YearOfEra, TermsFit;
    TermsCompute(doe);
    var c, q, k, doy := EraSplits(doe);
  }

  lemma TermsCompute(doe: int)
    requires 0 <= doe < 146_097
    ensures TermsFit(doe)
  {
    DivisorsShrink(doe);
  }

  lemma MonthComputesWithin(doy: int)
    requires 0 <= doy <= 365
    ensures MonthComputes(doy)
  {
    MonthTable(doy);
  }

  lemma DivisorsShrink(n: int)
    requires n >= 0
    ensures 0 <= n / 1460 <= n && 0 <= n / 36524 <= n && 0 <= n / 146096 <= n / 36524
  {
  }
}
