/** Instants and their arithmetic. */
module Times {
  // A Unix second, a nanosecond and the fixed zone the wall clock reads through, with Date's
  // carries.

  import opened Calendar

  const NANOS := 1_000_000_000
  const DAY := 86400

  datatype Location = Location(name: string, offset: int)

  const UTC := Location("UTC", 0)

  datatype Clock = Clock(hour: int, minute: int, second: int)

  /** Carry lo into hi so that lo lands in [0, base); nothing is gained or lost. */
  function Norm(hi: int, lo: int, base: int): (r: (int, int))
    requires base > 0
    ensures r.0 * base + r.1 == hi * base + lo
    ensures 0 <= r.1 < base
  {
    var n := if lo < 0 then (-lo - 1) / base + 1 else 0;
    var hi1, lo1 := hi - n, lo + n * base;
    assert hi1 * base == hi * base - n * base;
    assert lo < 0 ==> 0 <= lo1 < base by {
      if lo < 0 { assert (-lo - 1) == (-lo - 1) / base * base + (-lo - 1) % base; }
    }
    if lo1 >= base then
      var k := lo1 / base;
      assert (hi1 + k) * base == hi1 * base + k * base;
      (hi1 + k, lo1 - k * base)
    else (hi1, lo1)
  }

  datatype Time = Time(sec: int, nsec: int, loc: Location) {
    function Local(): int { sec + loc.offset }

    function Date(): Calendar.Date { CivilFromDays(Local() / DAY) }

    function ClockOf(): Clock {
      var rem := Local() - Local() / DAY * DAY;
      Clock(rem / 3600, rem % 3600 / 60, rem % 60)
    }

    /** Nanoseconds since the epoch. */
    function Total(): int { sec * NANOS + nsec }

    function Add(d: int): Time {
      var total := nsec + d;
      Time(sec + total / NANOS, total - total / NANOS * NANOS, loc)
    }

    function Sub(u: Time): int { I64((sec - u.sec) * NANOS + (nsec - u.nsec)) }

    function AddDate(years: int, months: int, days: int): Time {
      var dt, c := Date(), ClockOf();
      TimeDate(dt.year + years, dt.month + months, dt.day + days, c.hour, c.minute, c.second, nsec, loc)
    }

    predicate Equal(u: Time) { sec == u.sec && nsec == u.nsec }
  }

  /** Wrap to a signed 64-bit integer. */
  function I64(x: int): int {
    var v := x % 0x1_0000_0000_0000_0000;
    if v >= 0x8000_0000_0000_0000 then v - 0x1_0000_0000_0000_0000 else v
  }

  function TimeDate(year0: int, month0: int, day0: int, hour0: int, minute0: int, sec0: int, nsec0: int,
                    loc: Location): Time
  {
    var (sec1, nsec) := Norm(sec0, nsec0, NANOS);
    var (minute1, sec) := Norm(minute0, sec1, 60);
    var (hour1, minute) := Norm(hour0, minute1, 60);
    var (day, hour) := Norm(day0, hour1, 24);
    var (year, m) := Norm(year0, month0 - 1, 12);
    var days := DaysFromCivil(year, m + 1, 1) + (day - 1);
    var local := days * DAY + hour * 3600 + minute * 60 + sec;
    Time(local - loc.offset, nsec, loc)
  }

  /** Month and year carried into range: the same count of months, month in 1..12. */
  function Months(year: int, month: int): (r: Date)
    ensures 1 <= r.month <= 12 && 12 * r.year + r.month == 12 * year + month && Valid(r)
  {
    var (y, m) := Norm(year, month - 1, 12);
    Date(y, m + 1, 1)
  }

  /** time_date loses nothing: for any integer components the instant is the sum of
      their weights from the first of the carried month, minus the zone offset. */
  lemma TimeDateConserves(year: int, month: int, day: int, hour: int, minute: int, sec: int, nsec: int, loc: Location)
    ensures var t := TimeDate(year, month, day, hour, minute, sec, nsec, loc);
            && 0 <= t.nsec < NANOS && t.loc == loc
            && t.Total() == ((DayNumber(Months(year, month)) + day - 1) * DAY
                             + hour * 3600 + minute * 60 + sec - loc.offset) * NANOS + nsec
  {
  }

  lemma ClockInRange(t: Time)
    ensures var c := t.ClockOf(); 0 <= c.hour < 24 && 0 <= c.minute < 60 && 0 <= c.second < 60
    ensures var c := t.ClockOf();
            t.Local() == t.Local() / DAY * DAY + c.hour * 3600 + c.minute * 60 + c.second
  {
  }

  lemma MonthsOfValid(year: int, month: int)
    requires 1 <= month <= 12
    ensures Months(year, month) == Date(year, month, 1)
  {
  }

  predicate ClockValid(c: Clock) {
    0 <= c.hour < 24 && 0 <= c.minute < 60 && 0 <= c.second < 60
  }

  function SecondsOf(c: Clock): int { c.hour * 3600 + c.minute * 60 + c.second }

  lemma ClockUnique(c: Clock)
    requires ClockValid(c)
    ensures var rem := SecondsOf(c); 0 <= rem < DAY && Clock(rem / 3600, rem % 3600 / 60, rem % 60) == c
  {
    DivMod(c.hour, c.minute * 60 + c.second, 3600);
    DivMod(c.minute, c.second, 60);
    DivMod(c.hour * 60 + c.minute, c.second, 60);
  }

  /** A wall clock second determines the date and the clock that are shown. */
  lemma ShowsLocal(t: Time, dt: Date, c: Clock)
    requires Valid(dt) && ClockValid(c) && t.Local() == DayNumber(dt) * DAY + SecondsOf(c)
    ensures t.Date() == dt && t.ClockOf() == c
  {
    var n := DayNumber(dt);
    ClockUnique(c);
    DivMod(n, SecondsOf(c), DAY);
    CivilUnique(dt, n);
    assert t.Local() / DAY == n;
  }

  /** A valid wall clock reading is what the time it names shows. */
  lemma ShowsItsFields(dt: Date, c: Clock, nsec: int, loc: Location)
    requires Valid(dt) && ClockValid(c) && 0 <= nsec < NANOS
    ensures var t := TimeDate(dt.year, dt.month, dt.day, c.hour, c.minute, c.second, nsec, loc);
            t.Date() == dt && t.ClockOf() == c && t.nsec == nsec && t.loc == loc
  {
    var t := TimeDate(dt.year, dt.month, dt.day, c.hour, c.minute, c.second, nsec, loc);
    TimeDateSec(dt, c, nsec, loc);
    ShowsLocal(t, dt, c);
  }

  lemma TimeDateSec(dt: Date, c: Clock, nsec: int, loc: Location)
    requires 1 <= dt.month <= 12 && 0 <= nsec < NANOS
    ensures var t := TimeDate(dt.year, dt.month, dt.day, c.hour, c.minute, c.second, nsec, loc);
            t.nsec == nsec && t.loc == loc && t.Local() == DayNumber(dt) * DAY + SecondsOf(c)
  {
    var t := TimeDate(dt.year, dt.month, dt.day, c.hour, c.minute, c.second, nsec, loc);
    TimeDateConserves(dt.year, dt.month, dt.day, c.hour, c.minute, c.second, nsec, loc);
    MonthsOfValid(dt.year, dt.month);
    DayInMonth(dt);
    QuotientUnique(t.sec, t.nsec, DayNumber(dt) * DAY + SecondsOf(c) - loc.offset, nsec, NANOS);
  }

  lemma DayInMonth(dt: Date)
    ensures DayNumber(dt) == DayNumber(Date(dt.year, dt.month, 1)) + dt.day - 1
  {
  }

  /** Two times with the same total, a normal nanosecond and the same zone are one. */
  lemma TotalDetermines(t: Time, u: Time)
    requires 0 <= t.nsec < NANOS && 0 <= u.nsec < NANOS && t.loc == u.loc && t.Total() == u.Total()
    ensures t == u
  {
    QuotientUnique(t.sec, t.nsec, u.sec, u.nsec, NANOS);
  }

  /** The fields a time shows, n days later, name the instant n days later. */
  lemma AddDateDays(t: Time, n: int)
    requires 0 <= t.nsec < NANOS
    ensures t.AddDate(0, 0, n) == t.Add(n * DAY * NANOS)
  {
    var dt, c := t.Date(), t.ClockOf();
    var u := t.AddDate(0, 0, n);
    TimeDateConserves(dt.year, dt.month, dt.day + n, c.hour, c.minute, c.second, t.nsec, t.loc);
    ClockInRange(t);
    DaysRoundTrip(t.Local() / DAY);
    MonthsOfValid(dt.year, dt.month);
    DayInMonth(dt);
    AddTotal(t, n * DAY * NANOS);
    TotalDetermines(u, t.Add(n * DAY * NANOS));
  }

  lemma AddTotal(t: Time, d: int)
    ensures t.Add(d).Total() == t.Total() + d && 0 <= t.Add(d).nsec < NANOS && t.Add(d).loc == t.loc
  {
  }

  /** The fields a time shows name that time again. */
  lemma NamedByItsFields(t: Time)
    requires 0 <= t.nsec < NANOS
    ensures var dt, c := t.Date(), t.ClockOf();
            TimeDate(dt.year, dt.month, dt.day, c.hour, c.minute, c.second, t.nsec, t.loc) == t
  {
    AddDateDays(t, 0);
    assert t.Add(0) == t;
  }

  lemma WrapsByAMultiple(x: int)
    ensures -0x8000_0000_0000_0000 <= I64(x) < 0x8000_0000_0000_0000
    ensures (I64(x) - x) % 0x1_0000_0000_0000_0000 == 0
    ensures -0x8000_0000_0000_0000 <= x < 0x8000_0000_0000_0000 ==> I64(x) == x
  {
  }

  /** Sub undoes Add exactly for the durations a 64-bit Duration can hold; any other one
      comes back wrapped to 64 bits. */
  lemma SubUndoesAdd(t: Time, d: int)
    ensures var r := t.Add(d).Sub(t);
            && r == I64(d) && -0x8000_0000_0000_0000 <= r < 0x8000_0000_0000_0000
            && (r - d) % 0x1_0000_0000_0000_0000 == 0
            && (r == d <==> -0x8000_0000_0000_0000 <= d < 0x8000_0000_0000_0000)
  {
    AddTotal(t, d);
    assert (t.Add(d).sec - t.sec) * NANOS + (t.Add(d).nsec - t.nsec) == d;
    WrapsByAMultiple(d);
  }

  /** For instance one nanosecond too long. */
  lemma SubWraps(t: Time)
    ensures t.Add(0x8000_0000_0000_0000).Sub(t) == -0x8000_0000_0000_0000
  {
    SubUndoesAdd(t, 0x8000_0000_0000_0000);
  }
}
