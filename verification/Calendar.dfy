/** The proleptic Gregorian calendar of the runtime. */
module Calendar {
  // Day numbers to dates and back. Python's `//` and `%` floor, which for the positive
  // divisors here is Dafny's division.

  // ----- Days and dates -----

  datatype Date = Date(year: int, month: int, day: int)

  function DaysFromCivil(y0: int, m: int, d: int): int {
    var y := if m <= 2 then y0 - 1 else y0;
    var era := y / 400;
    var yoe := y - era * 400;
    var doy := (153 * (if m > 2 then m - 3 else m + 9) + 2) / 5 + d - 1;
    var doe := yoe * 365 + yoe / 4 - yoe / 100 + doy;
    era * 146097 + doe - 719468
  }

  function CivilFromDays(z0: int): Date {
    var z := z0 + 719468;
    var era := z / 146097;
    var doe := z - era * 146097;
    var yoe := (doe - doe / 1460 + doe / 36524 - doe / 146096) / 365;
    var y := yoe + era * 400;
    var doy := doe - (365 * yoe + yoe / 4 - yoe / 100);
    var mp := (5 * doy + 2) / 153;
    var d := doy - (153 * mp + 2) / 5 + 1;
    var m := if mp < 10 then mp + 3 else mp - 9;
    Date(y + (if m <= 2 then 1 else 0), m, d)
  }

  predicate Leap(year: int) {
    (year % 4 == 0 && year % 100 != 0) || year % 400 == 0
  }

  function DaysInMonth(month: int, year: int): int
    requires 1 <= month <= 12
  {
    if month == 2 then (if Leap(year) then 29 else 28)
    else [31, 28, 31, 30, 31, 30, 31, 31, 30, 31, 30, 31][month - 1]
  }

  predicate Valid(dt: Date) {
    1 <= dt.month <= 12 && 1 <= dt.day <= DaysInMonth(dt.month, dt.year)
  }

  /** The day after, by the lengths of the months. */
  function NextDay(dt: Date): Date
    requires Valid(dt)
  {
    if dt.day < DaysInMonth(dt.month, dt.year) then Date(dt.year, dt.month, dt.day + 1)
    else if dt.month < 12 then Date(dt.year, dt.month + 1, 1)
    else Date(dt.year + 1, 1, 1)
  }

  // Days since 1 March of year 0 of an era, and days since 1 March of a year.
  function YearStart(yoe: int): int { yoe * 365 + yoe / 4 - yoe / 100 }

  function MonthStart(mp: int): int { (153 * mp + 2) / 5 }

  /** Length of the year that begins on 1 March of year yoe of an era. */
  function MarchYear(yoe: int): int {
    if (yoe + 1) % 4 == 0 && ((yoe + 1) % 100 != 0 || yoe == 399) then 366 else 365
  }

  lemma YearStep(yoe: int)
    requires 0 <= yoe < 400
    ensures if yoe < 399 then YearStart(yoe + 1) == YearStart(yoe) + MarchYear(yoe)
            else YearStart(yoe) + MarchYear(yoe) == 146097
  {
  }

  /** YearOfEra for the k-th day of year 100c + 4q + r of the era. */
  lemma YearOfEraAt(c: int, q: int, r: int, k: int)
    requires 0 <= c < 4 && 0 <= q < 25 && 0 <= r < 4 && 0 <= k <= 365
    requires k == 365 ==> r == 3 && (q < 24 || c == 3)
    ensures var doe := 36524 * c + 1461 * q + 365 * r + k;
            (doe - doe / 1460 + doe / 36524 - doe / 146096) / 365 == 100 * c + 4 * q + r
  {
    var doe := 36524 * c + 1461 * q + 365 * r + k;
    var rem := 24 * c + q + 365 * r + k;
    assert doe == 1460 * (25 * c + q) + rem && 0 <= rem < 2920;
    var e := if rem < 1460 then 0 else 1;
    assert doe / 1460 == 25 * c + q + e;
    var h := if doe == 146096 then 1 else 0;
    assert doe / 36524 == c + h && doe / 146096 == h;
    assert doe - doe / 1460 + doe / 36524 - doe / 146096 == 365 * (100 * c + 4 * q + r) + (k - e);
  }

  lemma YearStartAt(c: int, q: int, r: int)
    requires 0 <= c < 4 && 0 <= q < 25 && 0 <= r < 4
    ensures YearStart(100 * c + 4 * q + r) == 36524 * c + 1461 * q + 365 * r
    ensures MarchYear(100 * c + 4 * q + r) == if r == 3 && (q < 24 || c == 3) then 366 else 365
  {
    var y := 100 * c + 4 * q + r;
    assert y / 4 == 25 * c + q && y / 100 == c;
    assert (y + 1) % 4 == (r + 1) % 4;
    assert (y + 1) % 100 == (4 * q + r + 1) % 100;
  }

  /** The year the algorithm picks really contains the day. */
  lemma YearOfEra(doe: int)
    requires 0 <= doe < 146097
    ensures var yoe := (doe - doe / 1460 + doe / 36524 - doe / 146096) / 365;
            0 <= yoe < 400 && YearStart(yoe) <= doe < YearStart(yoe) + MarchYear(yoe)
  {
    var c := if doe / 36524 < 4 then doe / 36524 else 3;
    var w := doe - 36524 * c;
    var q := if w / 1461 < 25 then w / 1461 else 24;
    var x := w - 1461 * q;
    var r := if x / 365 < 4 then x / 365 else 3;
    YearOfEraAt(c, q, r, x - 365 * r);
    YearStartAt(c, q, r);
  }

  /** A day of a year determines the year: the years of an era do not overlap. */
  lemma YearUnique(doe: int, yoe: int)
    requires 0 <= yoe < 400 && YearStart(yoe) <= doe < YearStart(yoe) + MarchYear(yoe)
    ensures 0 <= doe < 146097
    ensures (doe - doe / 1460 + doe / 36524 - doe / 146096) / 365 == yoe
  {
    var c := yoe / 100;
    var q := (yoe - 100 * c) / 4;
    var r := yoe - 100 * c - 4 * q;
    YearStartAt(c, q, r);
    YearOfEraAt(c, q, r, doe - YearStart(yoe));
  }

  /** Month of a March year: `mp` is the month that contains day doy. */
  lemma MonthOfYear(doy: int, mp: int)
    requires 0 <= mp < 12 && MonthStart(mp) <= doy < (if mp < 11 then MonthStart(mp + 1) else 366)
    ensures (5 * doy + 2) / 153 == mp
  {
  }

  lemma MonthExists(doy: int)
    requires 0 <= doy < 366
    ensures var mp := (5 * doy + 2) / 153;
            0 <= mp < 12 && MonthStart(mp) <= doy < (if mp < 11 then MonthStart(mp + 1) else 366)
  {
  }

  /** Lengths of the months of a March year are those of the calendar. */
  lemma MonthLengths(y: int, mp: int)
    requires 0 <= mp < 12
    ensures var m := if mp < 10 then mp + 3 else mp - 9;
            var year := if m <= 2 then y + 1 else y;
            DaysInMonth(m, year) == MarchMonth(y, mp)
  {
    EraYear(y);
  }

  lemma MulAtLeast(k: int, n: int)
    requires k >= 1 && n >= 0
    ensures k * n >= n
  {
    assert (k - 1) * n >= 0;
  }

  lemma QuotientUnique(q: int, r: int, q': int, r': int, n: int)
    requires 0 <= r < n && 0 <= r' < n && q * n + r == q' * n + r'
    ensures q == q' && r == r'
  {
    if q > q' {
      assert q * n == (q - q') * n + q' * n;
      MulAtLeast(q - q', n);
    } else if q < q' {
      assert q' * n == (q' - q) * n + q * n;
      MulAtLeast(q' - q, n);
    }
  }

  lemma DivMod(a: int, b: int, n: int)
    requires 0 <= b < n
    ensures (a * n + b) / n == a && (a * n + b) % n == b
  {
    var x := a * n + b;
    assert x == x / n * n + x % n;
    QuotientUnique(x / n, x % n, a, b, n);
  }

  lemma EraYear(y: int)
    ensures Leap(y + 1) <==> MarchYear(y % 400) == 366
  {
    var e, x := y / 400, y % 400 + 1;
    assert y + 1 == 400 * e + x;
    DivMod(100 * e + x / 4, x % 4, 4);
    DivMod(4 * e + x / 100, x % 100, 100);
    if x < 400 { DivMod(e, x, 400); } else { DivMod(e + 1, 0, 400); }
  }

  // ----- The two conversions are inverse -----

  /** Length of month mp of March year y. */
  function MarchMonth(y: int, mp: int): int
    requires 0 <= mp < 12
  {
    (if mp < 11 then MonthStart(mp + 1) else MarchYear(y % 400)) - MonthStart(mp)
  }

  /** The date of day d of month mp of year yoe of an era. */
  function DateAt(era: int, yoe: int, mp: int, d: int): Date {
    var m := if mp < 10 then mp + 3 else mp - 9;
    Date(era * 400 + yoe + (if m <= 2 then 1 else 0), m, d)
  }

  function DayAt(era: int, yoe: int, mp: int, d: int): int {
    era * 146097 + YearStart(yoe) + MonthStart(mp) + d - 1 - 719468
  }

  /** The conversion once its era, year and month are known. */
  lemma CivilFrom(z: int, era: int, doe: int, yoe: int, mp: int)
    requires (z + 719468) / 146097 == era && doe == z + 719468 - era * 146097
    requires (doe - doe / 1460 + doe / 36524 - doe / 146096) / 365 == yoe
    requires (5 * (doe - YearStart(yoe)) + 2) / 153 == mp
    ensures CivilFromDays(z) == DateAt(era, yoe, mp, doe - YearStart(yoe) - MonthStart(mp) + 1)
  {
  }

  lemma CivilAt(era: int, yoe: int, mp: int, d: int)
    requires 0 <= yoe < 400 && 0 <= mp < 12 && 1 <= d <= MarchMonth(yoe, mp)
    ensures CivilFromDays(DayAt(era, yoe, mp, d)) == DateAt(era, yoe, mp, d)
  {
    var doy := MonthStart(mp) + d - 1;
    var doe := YearStart(yoe) + doy;
    MonthOfYear(doy, mp);
    YearUnique(doe, yoe);
    DivMod(era, doe, 146097);
    CivilFrom(DayAt(era, yoe, mp, d), era, doe, yoe, mp);
  }

  lemma DaysAt(era: int, yoe: int, mp: int, d: int)
    requires 0 <= yoe < 400 && 0 <= mp < 12
    ensures var dt := DateAt(era, yoe, mp, d);
            DaysFromCivil(dt.year, dt.month, dt.day) == DayAt(era, yoe, mp, d)
    ensures Valid(DateAt(era, yoe, mp, d)) <==> 1 <= d <= MarchMonth(yoe, mp)
  {
    DivMod(era, yoe, 400);
    MonthLengths(era * 400 + yoe, mp);
  }

  /** Where a date sits in its era. */
  lemma DatePlace(dt: Date) returns (era: int, yoe: int, mp: int)
    requires 1 <= dt.month <= 12
    ensures 0 <= yoe < 400 && 0 <= mp < 12 && dt == DateAt(era, yoe, mp, dt.day)
  {
    var y := if dt.month <= 2 then dt.year - 1 else dt.year;
    era, yoe, mp := y / 400, y % 400, if dt.month > 2 then dt.month - 3 else dt.month + 9;
  }

  /** Where a day sits in its era. */
  lemma DayPlace(doe: int) returns (yoe: int, mp: int, d: int)
    requires 0 <= doe < 146097
    ensures 0 <= yoe < 400 && 0 <= mp < 12 && 1 <= d <= MarchMonth(yoe, mp)
    ensures doe == YearStart(yoe) + MonthStart(mp) + d - 1
  {
    YearOfEra(doe);
    yoe := (doe - doe / 1460 + doe / 36524 - doe / 146096) / 365;
    MonthExists(doe - YearStart(yoe));
    mp := (5 * (doe - YearStart(yoe)) + 2) / 153;
    d := doe - YearStart(yoe) - MonthStart(mp) + 1;
  }

  /** Every day number is a valid date that converts back to it. */
  lemma DaysRoundTrip(z: int)
    ensures Valid(CivilFromDays(z))
    ensures DaysFromCivil(CivilFromDays(z).year, CivilFromDays(z).month, CivilFromDays(z).day) == z
  {
    var era := (z + 719468) / 146097;
    var yoe, mp, d := DayPlace(z + 719468 - era * 146097);
    CivilAt(era, yoe, mp, d);
    DaysAt(era, yoe, mp, d);
  }

  /** Every valid date is the date of its day number. */
  lemma DateRoundTrip(dt: Date)
    requires Valid(dt)
    ensures CivilFromDays(DaysFromCivil(dt.year, dt.month, dt.day)) == dt
  {
    var era, yoe, mp := DatePlace(dt);
    DaysAt(era, yoe, mp, dt.day);
    CivilAt(era, yoe, mp, dt.day);
  }

  lemma NextInMonth(era: int, yoe: int, mp: int, d: int)
    requires 0 <= yoe < 400 && 0 <= mp < 12 && 1 <= d < MarchMonth(yoe, mp)
    ensures Valid(DateAt(era, yoe, mp, d)) && NextDay(DateAt(era, yoe, mp, d)) == DateAt(era, yoe, mp, d + 1)
  {
    DivMod(era, yoe, 400);
    MonthLengths(era * 400 + yoe, mp);
  }

  lemma NextMonth(era: int, yoe: int, mp: int, d: int)
    requires 0 <= yoe < 400 && 0 <= mp < 11 && d == MarchMonth(yoe, mp)
    ensures Valid(DateAt(era, yoe, mp, d)) && NextDay(DateAt(era, yoe, mp, d)) == DateAt(era, yoe, mp + 1, 1)
    ensures DayAt(era, yoe, mp + 1, 1) == DayAt(era, yoe, mp, d) + 1
  {
    DivMod(era, yoe, 400);
    MonthLengths(era * 400 + yoe, mp);
  }

  lemma NextYear(era: int, yoe: int, d: int)
    requires 0 <= yoe < 400 && d == MarchMonth(yoe, 11)
    ensures Valid(DateAt(era, yoe, 11, d))
    ensures var e, y := if yoe < 399 then era else era + 1, if yoe < 399 then yoe + 1 else 0;
            && NextDay(DateAt(era, yoe, 11, d)) == DateAt(e, y, 0, 1)
            && DayAt(e, y, 0, 1) == DayAt(era, yoe, 11, d) + 1
  {
    DivMod(era, yoe, 400);
    MonthLengths(era * 400 + yoe, 11);
    YearStep(yoe);
  }

  lemma NextInMonthCounts(dt: Date, era: int, yoe: int, mp: int)
    requires 0 <= yoe < 400 && 0 <= mp < 12 && dt == DateAt(era, yoe, mp, dt.day) && Valid(dt)
    requires dt.day < MarchMonth(yoe, mp)
    ensures Valid(NextDay(dt)) && DayNumber(NextDay(dt)) == DayAt(era, yoe, mp, dt.day) + 1
  {
    DaysAt(era, yoe, mp, dt.day);
    NextInMonth(era, yoe, mp, dt.day);
    DaysAt(era, yoe, mp, dt.day + 1);
  }

  lemma NextMonthCounts(dt: Date, era: int, yoe: int, mp: int)
    requires 0 <= yoe < 400 && 0 <= mp < 11 && dt == DateAt(era, yoe, mp, dt.day) && Valid(dt)
    requires dt.day == MarchMonth(yoe, mp)
    ensures Valid(NextDay(dt)) && DayNumber(NextDay(dt)) == DayAt(era, yoe, mp, dt.day) + 1
  {
    NextMonth(era, yoe, mp, dt.day);
    DaysAt(era, yoe, mp + 1, 1);
  }

  lemma NextYearCounts(dt: Date, era: int, yoe: int)
    requires 0 <= yoe < 400 && dt == DateAt(era, yoe, 11, dt.day) && Valid(dt)
    requires dt.day == MarchMonth(yoe, 11)
    ensures Valid(NextDay(dt)) && DayNumber(NextDay(dt)) == DayAt(era, yoe, 11, dt.day) + 1
  {
    NextYear(era, yoe, dt.day);
    if yoe < 399 { DaysAt(era, yoe + 1, 0, 1); } else { DaysAt(era + 1, 0, 0, 1); }
  }

  lemma PlaceBounds(dt: Date, era: int, yoe: int, mp: int)
    requires 0 <= yoe < 400 && 0 <= mp < 12 && dt == DateAt(era, yoe, mp, dt.day) && Valid(dt)
    ensures 1 <= dt.day <= MarchMonth(yoe, mp) && DayNumber(dt) == DayAt(era, yoe, mp, dt.day)
  {
    DaysAt(era, yoe, mp, dt.day);
  }

  lemma NextDayCounts(dt: Date)
    requires Valid(dt)
    ensures Valid(NextDay(dt)) && DayNumber(NextDay(dt)) == DayNumber(dt) + 1
  {
    var era, yoe, mp := DatePlace(dt);
    PlaceBounds(dt, era, yoe, mp);
    if dt.day < MarchMonth(yoe, mp) {
      NextInMonthCounts(dt, era, yoe, mp);
    } else if mp < 11 {
      NextMonthCounts(dt, era, yoe, mp);
    } else {
      NextYearCounts(dt, era, yoe);
    }
  }

  function DayNumber(dt: Date): int {
    DaysFromCivil(dt.year, dt.month, dt.day)
  }

  /** A valid date is the only date its day number converts to. */
  lemma CivilUnique(dt: Date, z: int)
    requires Valid(dt) && DayNumber(dt) == z
    ensures CivilFromDays(z) == dt
  {
    DateRoundTrip(dt);
  }

  /** Consecutive day numbers are consecutive Gregorian dates. */
  lemma ConsecutiveDays(z: int)
    ensures Valid(CivilFromDays(z)) && CivilFromDays(z + 1) == NextDay(CivilFromDays(z))
  {
    var dt := CivilFromDays(z);
    DaysRoundTrip(z);
    NextDayCounts(dt);
    CivilUnique(NextDay(dt), z + 1);
  }

  lemma EpochDay()
    ensures CivilFromDays(0) == Date(1970, 1, 1)
  {
    CivilUnique(Date(1970, 1, 1), 0);
  }

  // ----- Day of the year -----

  function YearDay(dt: Date): int {
    DaysFromCivil(dt.year, dt.month, dt.day) - DaysFromCivil(dt.year, 1, 1) + 1
  }

  /** Days in the months before month m. */
  function DaysBefore(m: int, year: int): int
    requires 1 <= m <= 12
  {
    if m == 1 then 0 else DaysBefore(m - 1, year) + DaysInMonth(m - 1, year)
  }

  /** YearDay counts the months before and the day, so it lies in 1..365 or 1..366. */
  lemma {:induction false} YearDayCounts(dt: Date)
    requires Valid(dt)
    ensures YearDay(dt) == DaysBefore(dt.month, dt.year) + dt.day
    ensures 1 <= YearDay(dt) <= if Leap(dt.year) then 366 else 365
    decreases dt.month
  {
    if dt.month > 1 {
      var p := Date(dt.year, dt.month - 1, DaysInMonth(dt.month - 1, dt.year));
      YearDayCounts(p);
      NextDayCounts(p);
      assert DaysFromCivil(dt.year, dt.month, dt.day) == DaysFromCivil(dt.year, dt.month, 1) + dt.day - 1;
    }
    DaysBeforeBound(dt.month, dt.year);
  }

  lemma DaysBeforeBound(m: int, year: int)
    requires 1 <= m <= 12
    ensures 0 <= DaysBefore(m, year)
    ensures DaysBefore(m, year) + DaysInMonth(m, year) <= if Leap(year) then 366 else 365
    ensures DaysBefore(12, year) + 31 == if Leap(year) then 366 else 365
  {
    var f := if Leap(year) then 29 else 28;
    assert DaysBefore(2, year) == 31;
    assert DaysBefore(3, year) == 31 + f;
    assert DaysBefore(4, year) == 62 + f;
    assert DaysBefore(5, year) == 92 + f;
    assert DaysBefore(6, year) == 123 + f;
    assert DaysBefore(7, year) == 153 + f;
    assert DaysBefore(8, year) == 184 + f;
    assert DaysBefore(9, year) == 215 + f;
    assert DaysBefore(10, year) == 245 + f;
    assert DaysBefore(11, year) == 276 + f;
    assert DaysBefore(12, year) == 306 + f;
  }
}
