/**
 time.Parse: the layout's pieces read off a value one after the other, then the
 fields put together to an instant.
 */
module TimeParse {
  import opened Prelude
  import opened Calendar
  import opened Digits
  import T = Times
  import opened TimeLayout
  import opened TimeFormat

  /** What the pieces have set so far; -1 stands for not set. */
  datatype Fields = Fields(
    year: int, month: int, day: int, yday: int, hour: int, minute: int, sec: int, nsec: int,
    utc: bool, zoneOffset: int, zoneName: string, am: bool, pm: bool)

  const NO_FIELDS := Fields(0, -1, -1, -1, 0, 0, 0, 0, false, -1, "", false, false)

  datatype ParseError =
    | CannotParse(elem: string, text: string)
    | OutOfRange(what: string, elem: string, text: string)
    | ExtraText(text: string)
    | YearDayOutOfRange | YearDayMismatch | DayOutOfRange
    | NeedsLocalZone(name: string)

  /** A piece was read, did not match, or named a value out of its range. */
  datatype Read = Good(f: Fields, rest: string) | Bad | Range(what: string, rest: string)

  predicate MonthSet(f: Fields) { f.month == -1 || 1 <= f.month <= 12 }

  // ----- Reading characters -----

  predicate IsDigit(s: string, i: nat) { i < |s| && '0' <= s[i] <= '9' }

  function Num(c: char): int { c as int - '0' as int }

  /** One or two leading digits, both when fixed. */
  function GetNum(s: string, fixed: bool): Option<(int, string)> {
    if !IsDigit(s, 0) then None
    else if !IsDigit(s, 1) then (if fixed then None else Some((Num(s[0]), s[1..])))
    else Some((Num(s[0]) * 10 + Num(s[1]), s[2..]))
  }

  /** How many digits stand at s[from..], at most `max`. */
  function CountDigits(s: string, from: nat, max: nat): (n: nat)
    ensures n <= max && (n > 0 ==> from + n <= |s|)
    ensures forall k :: from <= k < from + n ==> IsDigit(s, k)
    decreases max
  {
    if max > 0 && IsDigit(s, from) then 1 + CountDigits(s, from + 1, max - 1) else 0
  }

  function GetNum3(s: string, fixed: bool): Option<(int, string)> {
    var i := CountDigits(s, 0, 3);
    if i == 0 || (fixed && i != 3) then None else Some((ValueOf(s[..i], 10), s[i..]))
  }

  function Lower(c: char): char {
    if 'A' <= c <= 'Z' then (c as int + 32) as char else c
  }

  predicate HasPrefixFold(val: string, name: string) {
    |name| <= |val| && forall i :: 0 <= i < |name| ==> Lower(val[i]) == Lower(name[i])
  }

  /** The first of the names from index i on that starts val, whatever its case. */
  function Lookup(names: seq<string>, val: string, i: nat): (r: Option<(int, string)>)
    requires i <= |names|
    ensures r.Some? ==> i <= r.value.0 < |names|
    decreases |names| - i
  {
    if i == |names| then None
    else if HasPrefixFold(val, names[i]) then Some((i as int, val[|names[i]|..]))
    else Lookup(names, val, i + 1)
  }

  function Short(names: seq<string>): seq<string>
    requires forall i :: 0 <= i < |names| ==> |names[i]| >= 3
  {
    seq(|names|, i requires 0 <= i < |names| => names[i][..3])
  }

  function LStrip(s: string): (r: string)
    ensures |r| <= |s|
  {
    if s != "" && s[0] == ' ' then LStrip(s[1..]) else s
  }

  /** Consume the literal prefix; a run of spaces matches any run of spaces. */
  function Skip(value: string, prefix: string): Option<string>
    decreases |prefix|
  {
    if prefix == "" then Some(value)
    else if prefix[0] == ' ' then
      if value != "" && value[0] != ' ' then None
      else Skip(LStrip(value), LStrip(prefix[1..]))
    else if value == "" || value[0] != prefix[0] then None
    else Skip(value[1..], prefix[1..])
  }

  /** The fraction value[0..n], value[0] its point, scaled to nanoseconds. */
  function Nanoseconds(value: string, n0: nat): Option<int>
    requires 1 <= n0 <= |value|
  {
    var n := if n0 > 10 then 10 else n0;
    var digits := value[1..n];
    if value[0] != '.' && value[0] != ',' then None
    else if !AllDigits(digits, 10) then None
    else Some(ValueOf(digits, 10) * Pow(10, 10 - n))
  }

  // ----- Reading pieces -----

  function InRange(r: Option<(int, string)>, lo: int, hi: int, what: string, store: int -> Fields): Read {
    if r.None? then Bad
    else if lo <= r.value.0 <= hi then Good(store(r.value.0), r.value.1)
    else Range(what, r.value.1)
  }

  /** The fraction a seconds field may carry without a fraction piece of its own. */
  function OwnFraction(rest: string, value: string, f: Fields): (r: Read)
    ensures r.Good? ==> r.f.month == f.month
  {
    if |value| > 1 && (value[0] == '.' || value[0] == ',') && IsDigit(value, 1) then
      var next := NextChunk(rest);
      if next.prefix == "" && (next.std == Frac0 || next.std == Frac9) then Good(f, value)
      else ReadFraction(value, f)
    else Good(f, value)
  }

  function ReadFraction(value: string, f: Fields): (r: Read)
    requires value != ""
    ensures r.Good? ==> r.f.month == f.month
  {
    var i := CountDigits(value, 1, 9);
    match Nanoseconds(value, 1 + i)
    case None => Bad
    case Some(ns) => Good(f.(nsec := ns), value[1 + i..])
  }

  function ReadSecond(rest: string, value: string, fixed: bool, f: Fields): (r: Read)
    ensures r.Good? ==> r.f.month == f.month
  {
    match InRange(GetNum(value, fixed), 0, 59, "second", (v: int) => f.(sec := v))
    case Good(f1, value1) => OwnFraction(rest, value1, f1)
    case r => r
  }

  function ReadNoon(value: string, am: string, pm: string, f: Fields): (r: Read)
    requires |am| == 2 == |pm|
    ensures r.Good? ==> r.f.month == f.month
  {
    if |value| < 2 then Bad
    else if value[..2] == pm then Good(f.(pm := true), value[2..])
    else if value[..2] == am then Good(f.(am := true), value[2..])
    else Bad
  }

  /** Length of a numeric zone, and where its minutes and seconds stand (0: not there). */
  function ZoneShape(std: Std): (nat, nat, nat) {
    if std == IsoColonTz || std == NumColonTz then (6, 4, 0)
    else if std == IsoShortTz || std == NumShortTz then (3, 0, 0)
    else if std == IsoColonSecondsTz || std == NumColonSecondsTz then (9, 4, 7)
    else if std == IsoSecondsTz || std == NumSecondsTz then (7, 3, 5)
    else (5, 3, 0)
  }

  function ReadZone(std: Std, value: string, f: Fields): (r: Read)
    ensures r.Good? ==> r.f.month == f.month
  {
    if IsIso(std) && value != "" && value[0] == 'Z' then Good(f.(utc := true), value[1..])
    else
      var (n, m, s) := ZoneShape(std);
      if |value| < n then Bad
      else if m == 4 && value[3] != ':' then Bad
      else if s == 7 && value[6] != ':' then Bad
      else
        var hr := GetNum(value[1..3], true);
        var mi := GetNum(if m == 0 then "00" else value[m..m + 2], true);
        var ss := GetNum(if s == 0 then "00" else value[s..s + 2], true);
        if hr.None? || mi.None? || ss.None? then Bad
        else
          var offset := (hr.value.0 * 60 + mi.value.0) * 60 + ss.value.0;
          if value[0] == '+' then Good(f.(zoneOffset := offset), value[n..])
          else if value[0] == '-' then Good(f.(zoneOffset := -offset), value[n..])
          else Bad
  }

  function CountCapitals(s: string): (n: nat)
    ensures n <= |s|
  {
    if s != "" && 'A' <= s[0] <= 'Z' then 1 + CountCapitals(s[1..]) else 0
  }

  function ReadZoneName(value: string, f: Fields): (r: Read)
    ensures r.Good? ==> r.f.month == f.month
  {
    if At(value, 0, "UTC") then Good(f.(utc := true), value[3..])
    else if CountCapitals(value) == 0 then Bad
    else Good(f.(zoneName := value[..CountCapitals(value)]), value[CountCapitals(value)..])
  }

  function Unchecked(r: Option<(int, string)>, store: int -> Fields): Read {
    if r.None? then Bad else Good(store(r.value.0), r.value.1)
  }

  function ReadYear(value: string, f: Fields): (r: Read)
    ensures r.Good? ==> r.f.month == f.month
  {
    if !IsDigit(value, 0) || !IsDigit(value, 1) then Bad
    else
      var yy := ValueOf(value[..2], 10);
      Good(f.(year := if yy >= 69 then yy + 1900 else yy + 2000), value[2..])
  }

  function ReadLongYear(value: string, f: Fields): (r: Read)
    ensures r.Good? ==> r.f.month == f.month
  {
    if IsDigit(value, 0) && IsDigit(value, 1) && IsDigit(value, 2) && IsDigit(value, 3)
    then Good(f.(year := ValueOf(value[..4], 10)), value[4..])
    else Bad
  }

  function ReadFrac0(value: string, arg: nat, f: Fields): (r: Read)
    ensures r.Good? ==> r.f.month == f.month
  {
    if |value| < 1 + arg then Bad
    else
      match Nanoseconds(value, 1 + arg)
      case None => Bad
      case Some(ns) => Good(f.(nsec := ns), value[1 + arg..])
  }

  function ReadFrac9(value: string, f: Fields): (r: Read)
    ensures r.Good? ==> r.f.month == f.month
  {
    if |value| < 2 || (value[0] != '.' && value[0] != ',') || !IsDigit(value, 1) then Good(f, value)
    else ReadFraction(value, f)
  }

  function ReadMonth(std: Std, value: string, f: Fields): (r: Read)
    requires MonthSet(f)
    ensures r.Good? ==> MonthSet(r.f)
  {
    match std
    case Month => Unchecked(Lookup(Short(MONTH_NAMES), value, 0), (v: int) => f.(month := v + 1))
    case LongMonth => Unchecked(Lookup(MONTH_NAMES, value, 0), (v: int) => f.(month := v + 1))
    case NumMonth => InRange(GetNum(value, false), 1, 12, "month", (v: int) => f.(month := v))
    case _ => InRange(GetNum(value, true), 1, 12, "month", (v: int) => f.(month := v))
  }

  function ReadDay(std: Std, value: string, f: Fields): (r: Read)
    ensures r.Good? ==> r.f.month == f.month
  {
    match std
    case Day => Unchecked(GetNum(value, false), (v: int) => f.(day := v))
    case UnderDay =>
      Unchecked(GetNum(if value != "" && value[0] == ' ' then value[1..] else value, false), (v: int) => f.(day := v))
    case ZeroDay => Unchecked(GetNum(value, true), (v: int) => f.(day := v))
    case UnderYearDay => Unchecked(GetNum3(value, false), (v: int) => f.(yday := v))
    case _ => Unchecked(GetNum3(value, true), (v: int) => f.(yday := v))
  }

  function ReadClock(std: Std, rest: string, value: string, f: Fields): (r: Read)
    ensures r.Good? ==> r.f.month == f.month
  {
    match std
    case Hour => InRange(GetNum(value, false), 0, 23, "hour", (v: int) => f.(hour := v))
    case Hour12 => InRange(GetNum(value, false), 0, 12, "hour", (v: int) => f.(hour := v))
    case ZeroHour12 => InRange(GetNum(value, true), 0, 12, "hour", (v: int) => f.(hour := v))
    case Minute => InRange(GetNum(value, false), 0, 59, "minute", (v: int) => f.(minute := v))
    case ZeroMinute => InRange(GetNum(value, true), 0, 59, "minute", (v: int) => f.(minute := v))
    case Second => ReadSecond(rest, value, false, f)
    case _ => ReadSecond(rest, value, true, f)
  }

  function ReadWeekday(names: seq<string>, value: string, f: Fields): (r: Read)
    ensures r.Good? ==> r.f.month == f.month
  {
    Unchecked(Lookup(names, value, 0), (v: int) => f)
  }

  /** Years, fractions, half-days and zones. */
  function ReadOther(std: Std, arg: nat, value: string, f: Fields): (r: Read)
    ensures r.Good? ==> r.f.month == f.month
  {
    match std
    case Year => ReadYear(value, f)
    case LongYear => ReadLongYear(value, f)
    case PmUpper => ReadNoon(value, "AM", "PM", f)
    case PmLower => ReadNoon(value, "am", "pm", f)
    case Tz => ReadZoneName(value, f)
    case Frac0 => ReadFrac0(value, arg, f)
    case Frac9 => ReadFrac9(value, f)
    case _ => ReadZone(std, value, f)
  }

  /** Read one piece off value; `rest` is the layout after the piece. */
  function ReadPiece(std: Std, arg: nat, rest: string, value: string, f: Fields): (r: Read)
    requires std != Literal && MonthSet(f)
    ensures r.Good? ==> MonthSet(r.f)
  {
    match std
    case Month | LongMonth | NumMonth | ZeroMonth => ReadMonth(std, value, f)
    case Weekday => ReadWeekday(Short(WEEKDAY_NAMES), value, f)
    case LongWeekday => ReadWeekday(WEEKDAY_NAMES, value, f)
    case Day | UnderDay | ZeroDay | UnderYearDay | ZeroYearDay => ReadDay(std, value, f)
    case Hour | Hour12 | ZeroHour12 | Minute | ZeroMinute | Second | ZeroSecond => ReadClock(std, rest, value, f)
    case _ => ReadOther(std, arg, value, f)
  }

  // ----- The whole value -----

  function ParseFields(layout: string, value: string, f: Fields): (r: Result<Fields, ParseError>)
    requires MonthSet(f)
    ensures r.Ok? ==> MonthSet(r.value)
    decreases |layout|, value
  {
    ChunkPartitions(layout);
    var c := NextChunk(layout);
    match Skip(value, c.prefix)
    case None => Err(CannotParse(c.prefix, value))
    case Some(hold) =>
      if c.std == Literal then (if hold != "" then Err(ExtraText(hold)) else Ok(f))
      else
        match ReadPiece(c.std, c.arg, c.suffix, hold, f)
        case Good(f1, rest) => ParseFields(c.suffix, rest, f1)
        case Bad => Err(CannotParse(PieceText(layout, c), hold))
        case Range(what, rest) => Err(OutOfRange(what, PieceText(layout, c), rest))
  }

  function Hour24(f: Fields): int {
    if f.pm && f.hour < 12 then f.hour + 12 else if f.am && f.hour == 12 then 0 else f.hour
  }

  /** The month and day of a day of the year, from month m on. */
  function OfYearDay(m: int, d: int, year: int): (int, int)
    requires 1 <= m <= 13
    decreases 13 - m
  {
    if m <= 12 && d > DaysInMonth(m, year) then OfYearDay(m + 1, d - DaysInMonth(m, year), year) else (m, d)
  }

  method SplitYearDay(yday: int, year: int) returns (m: int, d: int)
    ensures (m, d) == OfYearDay(1, yday, year)
  {
    m, d := 1, yday;
    while m <= 12 && d > DaysInMonth(m, year)
      invariant 1 <= m <= 13
      invariant OfYearDay(m, d, year) == OfYearDay(1, yday, year)
      decreases 13 - m
    {
      d, m := d - DaysInMonth(m, year), m + 1;
    }
  }

  function MonthAndDay(f: Fields): Result<(int, int), ParseError> {
    if f.yday >= 0 then
      if f.yday < 1 || f.yday > (if DaysInMonth(2, f.year) == 29 then 366 else 365) then Err(YearDayOutOfRange)
      else
        var (m, d) := OfYearDay(1, f.yday, f.year);
        if f.month >= 0 && (f.month != m || (f.day >= 0 && f.day != d)) then Err(YearDayMismatch)
        else Ok((m, d))
    else Ok((if f.month < 0 then 1 else f.month, if f.day < 0 then 1 else f.day))
  }

  function Zone(f: Fields, default: T.Location): Result<T.Location, ParseError> {
    if f.utc then Ok(T.UTC)
    else if f.zoneOffset != -1 then
      if f.zoneOffset == 0 && (f.zoneName == "" || f.zoneName == "UTC") then Ok(T.UTC)
      else Ok(T.Location(f.zoneName, f.zoneOffset))
    else if f.zoneName != "" && f.zoneName != "UTC" then Err(NeedsLocalZone(f.zoneName))
    else Ok(default)
  }

  lemma OfYearDayInYear(m: int, d: int, year: int)
    requires 1 <= m <= 12 && 1 <= d
    requires DaysBefore(m, year) + d <= if Leap(year) then 366 else 365
    ensures 1 <= OfYearDay(m, d, year).0 <= 12
    ensures Valid(Date(year, OfYearDay(m, d, year).0, OfYearDay(m, d, year).1))
    ensures DaysBefore(OfYearDay(m, d, year).0, year) + OfYearDay(m, d, year).1 == DaysBefore(m, year) + d
    decreases 13 - m
  {
    DaysBeforeBound(m, year);
    if d > DaysInMonth(m, year) {
      OfYearDayInYear(m + 1, d - DaysInMonth(m, year), year);
    }
  }

  function Assemble(f: Fields, default: T.Location): Result<T.Time, ParseError>
    requires MonthSet(f)
  {
    match MonthAndDay(f)
    case Err(e) => Err(e)
    case Ok(md) =>
      assert 1 <= md.0 <= 12 by {
        if f.yday >= 0 { OfYearDayInYear(1, f.yday, f.year); }
      }
      if md.1 < 1 || md.1 > DaysInMonth(md.0, f.year) then Err(DayOutOfRange)
      else
        match Zone(f, default)
        case Err(e) => Err(e)
        case Ok(loc) => Ok(T.TimeDate(f.year, md.0, md.1, Hour24(f), f.minute, f.sec, f.nsec, loc))
  }

  function ParseSpec(layout: string, value: string, default: T.Location): Result<T.Time, ParseError> {
    match ParseFields(layout, value, NO_FIELDS)
    case Err(e) => Err(e)
    case Ok(f) => Assemble(f, default)
  }

  method Parse(layout0: string, value0: string, default: T.Location) returns (r: Result<T.Time, ParseError>)
    ensures r == ParseSpec(layout0, value0, default)
  {
    var layout, value, f := layout0, value0, NO_FIELDS;
    while true
      invariant MonthSet(f)
      invariant ParseFields(layout, value, f) == ParseFields(layout0, value0, NO_FIELDS)
      decreases |layout|
    {
      ChunkPartitions(layout);
      var c := ScanChunk(layout);
      var hold := Skip(value, c.prefix);
      if hold.None? {
        return Err(CannotParse(c.prefix, value));
      }
      if c.std == Literal {
        if hold.value != "" {
          return Err(ExtraText(hold.value));
        }
        return Assemble(f, default);
      }
      match ReadPiece(c.std, c.arg, c.suffix, hold.value, f) {
        case Good(f1, rest) => layout, value, f := c.suffix, rest, f1;
        case Bad => return Err(CannotParse(PieceText(layout, c), hold.value));
        case Range(what, rest) => return Err(OutOfRange(what, PieceText(layout, c), rest));
      }
    }
  }
}
