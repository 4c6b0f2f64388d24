/** Time.Format: each layout piece replaced by the matching component of the time. */
module TimeFormat {
  import opened Calendar
  import opened Digits
  import T = Times
  import opened TimeLayout

  const MONTH_NAMES := ["January", "February", "March", "April", "May", "June",
                        "July", "August", "September", "October", "November", "December"]
  const WEEKDAY_NAMES := ["Sunday", "Monday", "Tuesday", "Wednesday", "Thursday", "Friday", "Saturday"]

  function Decimal(n: nat): string { Render(n, 10) }

  /** The digits of x, zero-padded to at least `width`; the sign is not counted. */
  function AppendInt(x: int, width: nat): string {
    var s := Decimal(if x < 0 then -x else x);
    (if x < 0 then "-" else "") + Zeros(if |s| < width then width - |s| else 0) + s
  }

  function Take(s: string, n: nat): string {
    if n <= |s| then s[..n] else s
  }

  function TrimZeros(s: string): (r: string)
    ensures r <= s && (r == "" || r[|r| - 1] != '0')
    ensures forall i :: |r| <= i < |s| ==> s[i] == '0'
  {
    if s != "" && s[|s| - 1] == '0' then TrimZeros(s[..|s| - 1]) else s
  }

  predicate IsIso(std: Std) {
    std == IsoTz || std == IsoShortTz || std == IsoSecondsTz || std == IsoColonTz || std == IsoColonSecondsTz
  }

  function ZoneText(offset: int, std: Std): string {
    if IsIso(std) && offset == 0 then "Z"
    else
      var zone := if offset >= 0 then offset / 60 else -(-offset / 60);
      var minutes := if zone < 0 then -zone else zone;
      var absoff := if zone < 0 then -offset else offset;
      var colons := std == IsoColonTz || std == IsoColonSecondsTz || std == NumColonTz || std == NumColonSecondsTz;
      var seconds := std == IsoSecondsTz || std == IsoColonSecondsTz || std == NumSecondsTz || std == NumColonSecondsTz;
      (if zone < 0 then "-" else "+")
      + AppendInt(minutes / 60, 2)
      + (if colons then ":" else "")
      + (if std == IsoShortTz || std == NumShortTz then "" else AppendInt(minutes % 60, 2))
      + (if !seconds then "" else
           (if std == IsoColonSecondsTz || std == NumColonSecondsTz then ":" else "") + AppendInt(absoff % 60, 2))
  }

  function FracText(nsec: int, digits: nat, drop: bool): string {
    var s := Take(AppendInt(nsec, 9), digits);
    if drop then PointBefore(TrimZeros(s)) else "." + s
  }

  function PointBefore(s: string): string {
    if s == "" then "" else "." + s
  }

  function Hour12Of(hour: int): int {
    if hour % 12 == 0 then 12 else hour % 12
  }

  predicate IsDatePiece(std: Std) {
    || std == Year || std == LongYear || std == Month || std == LongMonth || std == NumMonth || std == ZeroMonth
    || std == Weekday || std == LongWeekday || std == Day || std == UnderDay || std == ZeroDay
    || std == UnderYearDay || std == ZeroYearDay
  }

  predicate IsClockPiece(std: Std) {
    || std == Hour || std == Hour12 || std == ZeroHour12 || std == Minute || std == ZeroMinute
    || std == Second || std == ZeroSecond || std == PmUpper || std == PmLower
  }

  function DatePiece(dt: Date, wday: int, std: Std): string
    requires IsDatePiece(std) && Valid(dt) && 0 <= wday < 7
  {
    match std
    case Year => AppendInt(if dt.year >= 0 then dt.year % 100 else -dt.year % 100, 2)
    case LongYear => AppendInt(dt.year, 4)
    case Month => MONTH_NAMES[dt.month - 1][..3]
    case LongMonth => MONTH_NAMES[dt.month - 1]
    case NumMonth => AppendInt(dt.month, 0)
    case ZeroMonth => AppendInt(dt.month, 2)
    case Weekday => WEEKDAY_NAMES[wday][..3]
    case LongWeekday => WEEKDAY_NAMES[wday]
    case Day => AppendInt(dt.day, 0)
    case UnderDay => (if dt.day < 10 then " " else "") + AppendInt(dt.day, 0)
    case ZeroDay => AppendInt(dt.day, 2)
    case UnderYearDay =>
      (if YearDay(dt) < 100 then " " else "") + (if YearDay(dt) < 10 then " " else "") + AppendInt(YearDay(dt), 0)
    case ZeroYearDay => AppendInt(YearDay(dt), 3)
  }

  function ClockPiece(c: T.Clock, std: Std): string
    requires IsClockPiece(std)
  {
    match std
    case Hour => AppendInt(c.hour, 2)
    case Hour12 => AppendInt(Hour12Of(c.hour), 0)
    case ZeroHour12 => AppendInt(Hour12Of(c.hour), 2)
    case Minute => AppendInt(c.minute, 0)
    case ZeroMinute => AppendInt(c.minute, 2)
    case Second => AppendInt(c.second, 0)
    case ZeroSecond => AppendInt(c.second, 2)
    case PmUpper => if c.hour >= 12 then "PM" else "AM"
    case PmLower => if c.hour >= 12 then "pm" else "am"
  }

  /** The components of a time, taken once. */
  datatype Shown = Shown(date: Date, wday: int, clock: T.Clock, nsec: int, loc: T.Location)

  predicate Sound(s: Shown) { Valid(s.date) && 0 <= s.wday < 7 }

  function ShownOf(t: T.Time): (s: Shown)
    ensures Sound(s)
  {
    DaysRoundTrip(t.Local() / T.DAY);
    Shown(t.Date(), (t.Local() / T.DAY + 4) % 7, t.ClockOf(), t.nsec, t.loc)
  }

  /** What stands for one piece. */
  function PieceFor(s: Shown, std: Std, arg: nat): string
    requires Sound(s)
  {
    if std == Literal then ""
    else if IsDatePiece(std) then DatePiece(s.date, s.wday, std)
    else if IsClockPiece(std) then ClockPiece(s.clock, std)
    else if std == Tz && s.loc.name != "" then s.loc.name
    else if std == Frac0 || std == Frac9 then FracText(s.nsec, arg, std == Frac9)
    else ZoneText(s.loc.offset, if std == Tz then NumTz else std)
  }

  function Pieces(s: Shown): (Std, nat) -> string
    requires Sound(s)
  {
    (std: Std, arg: nat) => PieceFor(s, std, arg)
  }

  /** A layout with its pieces replaced. */
  function FillIn(pieces: (Std, nat) -> string, layout: string): string
    decreases |layout|
  {
    if layout == "" then ""
    else
      ChunkPartitions(layout);
      var c := NextChunk(layout);
      if c.std == Literal then c.prefix
      else c.prefix + (pieces(c.std, c.arg) + FillIn(pieces, c.suffix))
  }

  function FormatRest(t: T.Time, layout: string): string { FillIn(Pieces(ShownOf(t)), layout) }

  /** One turn of the scanner. */
  lemma FillStep(pieces: (Std, nat) -> string, layout: string)
    requires layout != ""
    ensures var c := NextChunk(layout);
            && |c.suffix| < |layout| + (if c.std == Literal then 1 else 0)
            && FillIn(pieces, layout) ==
               if c.std == Literal then c.prefix
               else c.prefix + (pieces(c.std, c.arg) + FillIn(pieces, c.suffix))
  {
    ChunkPartitions(layout);
  }

  lemma Regroup(a: string, b: string, c: string, d: string)
    ensures a + b + c + d == a + (b + (c + d))
  {
  }

  method Fill(pieces: (Std, nat) -> string, layout0: string) returns (out: string)
    ensures out == FillIn(pieces, layout0)
  {
    out := "";
    var layout := layout0;
    while layout != ""
      invariant out + FillIn(pieces, layout) == FillIn(pieces, layout0)
      decreases |layout|
    {
      FillStep(pieces, layout);
      var c := ScanChunk(layout);
      if c.std == Literal {
        return out + c.prefix;
      }
      Regroup(out, c.prefix, pieces(c.std, c.arg), FillIn(pieces, c.suffix));
      out := out + c.prefix + pieces(c.std, c.arg);
      layout := c.suffix;
    }
  }

  method Format(t: T.Time, layout: string) returns (out: string)
    ensures out == FormatRest(t, layout)
  {
    out := Fill(Pieces(ShownOf(t)), layout);
  }
}
