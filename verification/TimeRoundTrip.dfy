/**
 RFC 3339 (section 5.6): what Format prints with the RFC3339Nano layout, Parse
 reads back, exactly for the times that layout can carry. The scanner takes the
 layout apart once; printing and reading then follow the same eight pieces, each
 printed field read back as that field with the rest of the text untouched, and
 the fields that come out name the instant that went in.
 */
module TimeRoundTrip {
  import opened Prelude
  import opened Calendar
  import opened Digits
  import T = Times
  import opened TimeLayout
  import opened TimeFormat
  import opened TimeParse

  const RFC3339_NANO := "2006-01-02T15:04:05.999999999Z07:00"

  // What is left of the layout from each piece on, its literal prefix included.
  const FROM_MONTH := "-01-02T15:04:05.999999999Z07:00"
  const FROM_DAY := "-02T15:04:05.999999999Z07:00"
  const FROM_HOUR := "T15:04:05.999999999Z07:00"
  const FROM_MINUTE := ":04:05.999999999Z07:00"
  const FROM_SECOND := ":05.999999999Z07:00"
  const FROM_FRAC := ".999999999Z07:00"
  const FROM_ZONE := "Z07:00"

  // ----- The chunks of the layout -----

  lemma YearChunk()
    ensures NextChunk(RFC3339_NANO) == Chunk("", LongYear, 0, FROM_MONTH)
  {
    assert RFC3339_NANO[0..4] == "2006";
    assert RFC3339_NANO[4..] == FROM_MONTH;
  }

  lemma MonthChunk()
    ensures NextChunk(FROM_MONTH) == Chunk("-", ZeroMonth, 0, FROM_DAY)
  {
    var l := FROM_MONTH;
    assert l[2] == '1' && l[3..] == FROM_DAY;
    NotNumericZone(l);
    assert NextChunk(l) == NextChunkFrom(l, 1);
    assert CharIn(l, 1 + 1, '1', '6');
    assert l[..1] == "-";
  }

  lemma AtMeans(l: string, pat: string)
    ensures At(l, 0, pat) ==> forall k :: 0 <= k < |pat| ==> l[k] == pat[k]
  {
  }

  /** A '-' that is not followed by 07 starts no piece. */
  lemma NotNumericZone(l: string)
    requires |l| > 2 && l[0] == '-' && (l[1] != '0' || l[2] != '7')
    ensures PieceAt(l, 0) == Nothing
  {
    AtMeans(l, "-070000");
    AtMeans(l, "-07:00:00");
    AtMeans(l, "-0700");
    AtMeans(l, "-07:00");
    AtMeans(l, "-07");
  }

  lemma DayChunk()
    ensures NextChunk(FROM_DAY) == Chunk("-", ZeroDay, 0, FROM_HOUR)
  {
    var l := FROM_DAY;
    assert l[2] == '2' && l[3..] == FROM_HOUR;
    NotNumericZone(l);
    assert NextChunk(l) == NextChunkFrom(l, 1);
    assert CharIn(l, 1 + 1, '1', '6');
    assert l[..1] == "-";
  }

  lemma HourPiece(l: string)
    requires |l| >= 3 && l[0] == 'T' && l[1] == '1' && l[2] == '5'
    ensures NextChunk(l) == Chunk(l[..1], Hour, 0, l[3..])
  {
    assert PieceAt(l, 0) == Nothing;
    assert l[2..3] == "5" && At(l, 1 + 1, "5");
    assert PieceAt(l, 1) == Piece(1, Hour, 0, 3);
    assert NextChunk(l) == NextChunkFrom(l, 1);
  }

  lemma HourChunk()
    ensures NextChunk(FROM_HOUR) == Chunk("T", Hour, 0, FROM_MINUTE)
  {
    var l := FROM_HOUR;
    assert l[0] == 'T' && l[1] == '1' && l[2] == '5';
    assert l[..1] == "T" && l[3..] == FROM_MINUTE;
    HourPiece(l);
  }

  lemma MinuteChunk()
    ensures NextChunk(FROM_MINUTE) == Chunk(":", ZeroMinute, 0, FROM_SECOND)
  {
    var l := FROM_MINUTE;
    assert l[1] == '0' && l[2] == '4' && l[3..] == FROM_SECOND && l[..1] == ":";
    assert NextChunk(l) == NextChunkFrom(l, 1);
    assert CharIn(l, 1 + 1, '1', '6');
  }

  lemma SecondChunk()
    ensures NextChunk(FROM_SECOND) == Chunk(":", ZeroSecond, 0, FROM_FRAC)
  {
    var l := FROM_SECOND;
    assert l[1] == '0' && l[2] == '5' && l[3..] == FROM_FRAC && l[..1] == ":";
    assert NextChunk(l) == NextChunkFrom(l, 1);
    assert CharIn(l, 1 + 1, '1', '6');
  }

  lemma FracChunk()
    ensures NextChunk(FROM_FRAC) == Chunk("", Frac9, 9, FROM_ZONE)
  {
    var l := FROM_FRAC;
    var e := RunEnd(l, 1, '9');
    assert l[10] == 'Z';
    assert forall k :: 1 <= k < 10 ==> l[k] == '9';
    assert e == 10;
    assert l[10..] == FROM_ZONE;
    assert PieceAt(l, 0) == Piece(0, Frac9, 9, 10);
  }

  lemma ZoneChunk()
    ensures NextChunk(FROM_ZONE) == Chunk("", IsoColonTz, 0, "")
  {
    var l := FROM_ZONE;
    assert l[0..5] != "Z0700" by { assert l[0..5][3] == ':'; }
    assert l[0..6] == FROM_ZONE;
    assert PieceAt(l, 0) == Piece(0, IsoColonTz, 0, 6);
  }

  /** The layout from each of its pieces on, each with the literal before it. */
  datatype Layouts = Layouts(year: string, month: string, day: string, hour: string, minute: string,
                             second: string, frac: string, zone: string)

  const RFC3339 := Layouts(RFC3339_NANO, FROM_MONTH, FROM_DAY, FROM_HOUR, FROM_MINUTE, FROM_SECOND,
                           FROM_FRAC, FROM_ZONE)

  predicate Leads(layout: string, c: Chunk) {
    layout != "" && NextChunk(layout) == c && |c.suffix| < |layout|
  }

  /** The scanner takes the layouts apart, one into the next. */
  predicate Chunked(l: Layouts) {
    && Leads(l.year, Chunk("", LongYear, 0, l.month)) && Leads(l.month, Chunk("-", ZeroMonth, 0, l.day))
    && Leads(l.day, Chunk("-", ZeroDay, 0, l.hour)) && Leads(l.hour, Chunk("T", Hour, 0, l.minute))
    && Leads(l.minute, Chunk(":", ZeroMinute, 0, l.second)) && Leads(l.second, Chunk(":", ZeroSecond, 0, l.frac))
    && Leads(l.frac, Chunk("", Frac9, 9, l.zone)) && Leads(l.zone, Chunk("", IsoColonTz, 0, ""))
  }

  lemma Rfc3339Chunked()
    ensures Chunked(RFC3339)
  {
    YearChunk();
    MonthChunk();
    DayChunk();
    HourChunk();
    MinuteChunk();
    SecondChunk();
    FracChunk();
    ZoneChunk();
  }

  // ----- What is printed for a field is read back as that field -----

  /** s is the decimal text of x with w digits. */
  predicate Digs(s: string, w: nat, x: int) {
    |s| == w && AllDigits(s, 10) && ValueOf(s, 10) == x
  }

  lemma Padded(s: string, k: nat)
    requires AllDigits(s, 10)
    ensures Digs(Zeros(k) + s, k + |s|, ValueOf(s, 10))
  {
    ValueOfZeros(k, 10);
    ValueOfConcat(Zeros(k), s, 10);
    Annihilates(Pow(10, |s|));
  }

  lemma Annihilates(p: int)
    ensures 0 * p == 0
  {
  }

  /** Padding puts zeros before the digits. */
  lemma PadIsZeros(x: int, w: nat)
    requires 0 <= x && |Decimal(x)| <= w
    ensures AppendInt(x, w) == Zeros(w - |Decimal(x)|) + Decimal(x)
  {
    assert "" + Zeros(w - |Decimal(x)|) == Zeros(w - |Decimal(x)|);
  }

  lemma PadReads(x: int, w: nat)
    requires w >= 1 && 0 <= x < Pow(10, w)
    ensures Digs(AppendInt(x, w), w, x)
  {
    RenderReads(x, 10);
    RenderLength(x, 10, w);
    PadIsZeros(x, w);
    PadDigits(Decimal(x), w, x);
  }

  lemma PadDigits(s: string, w: nat, x: int)
    requires |s| <= w && AllDigits(s, 10) && ValueOf(s, 10) == x
    ensures Digs(Zeros(w - |s|) + s, w, x)
  {
    Padded(s, w - |s|);
  }

  lemma TwoDigits(x: int)
    requires 0 <= x < 100
    ensures Digs(AppendInt(x, 2), 2, x)
  {
    assert Pow(10, 1) == 10 && Pow(10, 2) == 100;
    PadReads(x, 2);
  }

  lemma DigitRead(c: char)
    requires 0 <= DigitValue(c) < 10
    ensures '0' <= c <= '9' && Num(c) == DigitValue(c)
  {
  }

  lemma GetNumReads(d: string, x: int, rest: string, fixed: bool)
    requires Digs(d, 2, x)
    ensures GetNum(d + rest, fixed) == Some((x, rest))
  {
    DigitRead(d[0]);
    DigitRead(d[1]);
    assert d == ("" + [d[0]]) + [d[1]];
    ValueOfSnoc("" + [d[0]], d[1], 10);
    ValueOfSnoc("", d[0], 10);
    assert (d + rest)[2..] == rest;
  }

  lemma LongYearReads(d: string, x: int, rest: string, f: Fields)
    requires Digs(d, 4, x)
    ensures ReadLongYear(d + rest, f) == Good(f.(year := x), rest)
  {
    DigitRead(d[0]);
    DigitRead(d[1]);
    DigitRead(d[2]);
    DigitRead(d[3]);
    assert (d + rest)[4..] == rest && (d + rest)[..4] == d;
  }

  lemma {:induction false} CountsRun(value: string, from: nat, max: nat, len: nat)
    requires len <= max && from + len <= |value|
    requires forall k :: from <= k < from + len ==> IsDigit(value, k)
    requires len == max || !IsDigit(value, from + len)
    ensures CountDigits(value, from, max) == len
    decreases max
  {
    if len > 0 { CountsRun(value, from + 1, max - 1, len - 1); }
  }

  lemma {:induction false} ZerosAre(s: string, k: nat)
    requires |s| == k && forall i :: 0 <= i < k ==> s[i] == '0'
    ensures s == Zeros(k)
  {
    if k > 0 {
      ZerosAre(s[1..], k - 1);
      assert s == "0" + s[1..];
    }
  }

  lemma Untrimmed(s: string)
    requires AllDigits(s, 10) && |s| <= 9
    ensures var t := TrimZeros(s);
            AllDigits(t, 10) && ValueOf(s, 10) == ValueOf(t, 10) * Pow(10, |s| - |t|)
  {
    var t := TrimZeros(s);
    var z := s[|t|..];
    ZerosAre(z, |s| - |t|);
    assert s == t + z;
    ValueOfConcat(t, z, 10);
    ValueOfZeros(|s| - |t|, 10);
  }

  /** The trimmed digits stand for the same nanoseconds. */
  lemma TrimmedValue(nsec: int) returns (t: string)
    requires 0 <= nsec < T.NANOS
    ensures |t| <= 9 && AllDigits(t, 10) && nsec == ValueOf(t, 10) * Pow(10, 9 - |t|)
    ensures FracText(nsec, 9, true) == if t == "" then "" else "." + t
  {
    PowNine();
    PadReads(nsec, 9);
    var s := AppendInt(nsec, 9);
    t := TrimZeros(s);
    Untrimmed(s);
    assert Take(s, 9) == s;
  }

  lemma PowNine()
    ensures Pow(10, 9) == 1_000_000_000
  {
    assert Pow(10, 3) == 1000;
    assert Pow(10, 6) == 1_000_000;
  }

  /** Text that can follow a fraction: it does not go on with digits or a point. */
  predicate EndsFraction(z: string) {
    z != "" && z[0] != '.' && z[0] != ',' && !('0' <= z[0] <= '9')
  }

  lemma FractionReads(t: string, z: string, f: Fields)
    requires 1 <= |t| <= 9 && AllDigits(t, 10) && EndsFraction(z)
    ensures ReadFrac9("." + t + z, f) == Good(f.(nsec := ValueOf(t, 10) * Pow(10, 9 - |t|)), z)
  {
    var value := "." + t + z;
    forall k | 1 <= k < 1 + |t| ensures IsDigit(value, k) {
      assert value[k] == t[k - 1];
      DigitRead(t[k - 1]);
    }
    assert value[1 + |t|] == z[0];
    CountsRun(value, 1, 9, |t|);
    assert value[1..1 + |t|] == t;
    assert value[1 + |t|..] == z;
  }

  lemma Frac9Reads(nsec: int, z: string, f: Fields)
    requires 0 <= nsec < T.NANOS && EndsFraction(z) && f.nsec == 0
    ensures ReadFrac9(FracText(nsec, 9, true) + z, f) == Good(f.(nsec := nsec), z)
  {
    var t := TrimmedValue(nsec);
    if t == "" {
      assert "" + z == z;
      assert 0 * Pow(10, 9) == 0;
    } else {
      FractionReads(t, z, f);
    }
  }

  /** After the seconds a fraction is left to its own piece. */
  lemma SecondReads(l: Layouts, d: string, x: int, rest: string, f: Fields)
    requires Chunked(l)
    requires Digs(d, 2, x) && 0 <= x < 60
    ensures ReadSecond(l.frac, d + rest, true, f) == Good(f.(sec := x), rest)
  {
    GetNumReads(d, x, rest, true);
  }

  /** The offset in whole minutes, towards zero. */
  function Minutes(offset: int): int {
    if offset >= 0 then offset / 60 * 60 else -(-offset / 60 * 60)
  }

  lemma HoursMinutesRead(sign: char, hh: string, mm: string, h: int, m: int, f: Fields)
    requires (sign == '+' || sign == '-') && Digs(hh, 2, h) && Digs(mm, 2, m)
    ensures ReadZone(IsoColonTz, [sign] + hh + ":" + mm, f) ==
            Good(f.(zoneOffset := (if sign == '+' then 1 else -1) * ((h * 60 + m) * 60)), "")
  {
    var text := [sign] + hh + ":" + mm;
    assert text[3] == ':' && text[1..3] == hh && text[4..6] == mm && text[6..] == "";
    GetNumReads(hh, h, "", true);
    GetNumReads(mm, m, "", true);
    assert hh + "" == hh && mm + "" == mm;
    assert "00"[2..] == "" && GetNum("00", true) == Some((0, ""));
  }

  /** What is printed for a non-zero offset. */
  lemma ZonePrints(offset: int)
    requires offset != 0
    ensures var n := (if offset >= 0 then offset else -offset) / 60;
            ZoneText(offset, IsoColonTz) ==
            [if offset < 0 && n > 0 then '-' else '+'] + AppendInt(n / 60, 2) + ":" + AppendInt(n % 60, 2)
  {
    var n := (if offset >= 0 then offset else -offset) / 60;
    var sign := if offset < 0 && n > 0 then "-" else "+";
    assert ZoneText(offset, IsoColonTz) == sign + AppendInt(n / 60, 2) + ":" + AppendInt(n % 60, 2) + "";
  }

  lemma UtcReads(f: Fields)
    ensures ReadZone(IsoColonTz, ZoneText(0, IsoColonTz), f) == Good(f.(utc := true), "")
    ensures EndsFraction(ZoneText(0, IsoColonTz))
  {
    assert ZoneText(0, IsoColonTz) == "Z" && ("Z")[1..] == "";
  }

  lemma OffsetReads(offset: int, f: Fields)
    requires offset != 0 && -360_000 < offset < 360_000
    ensures ReadZone(IsoColonTz, ZoneText(offset, IsoColonTz), f) == Good(f.(zoneOffset := Minutes(offset)), "")
    ensures EndsFraction(ZoneText(offset, IsoColonTz))
  {
    var n := (if offset >= 0 then offset else -offset) / 60;
    var h, m := n / 60, n % 60;
    ZonePrints(offset);
    TwoDigits(h);
    TwoDigits(m);
    var sign := if offset < 0 && n > 0 then '-' else '+';
    HoursMinutesRead(sign, AppendInt(h, 2), AppendInt(m, 2), h, m, f);
    SignedMinutes(offset, n, h, m);
  }

  lemma SignedMinutes(offset: int, n: int, h: int, m: int)
    requires n == (if offset >= 0 then offset else -offset) / 60 && h == n / 60 && m == n % 60
    ensures Minutes(offset) == (if offset < 0 && n > 0 then -1 else 1) * ((h * 60 + m) * 60)
  {
    assert h * 60 + m == n;
  }

  lemma ZoneReads(offset: int, f: Fields)
    requires -360_000 < offset < 360_000
    ensures ReadZone(IsoColonTz, ZoneText(offset, IsoColonTz), f) ==
            Good(if offset == 0 then f.(utc := true) else f.(zoneOffset := Minutes(offset)), "")
    ensures EndsFraction(ZoneText(offset, IsoColonTz))
  {
    if offset == 0 { UtcReads(f); } else { OffsetReads(offset, f); }
  }

  // ----- The whole text -----

  function PrintedFor(dt: Date, c: T.Clock, nsec: int, offset: int): string {
    AppendInt(dt.year, 4) + ("-" + (AppendInt(dt.month, 2) + ("-" + (AppendInt(dt.day, 2) + ("T"
    + (AppendInt(c.hour, 2) + (":" + (AppendInt(c.minute, 2) + (":" + (AppendInt(c.second, 2)
    + (FracText(nsec, 9, true) + ZoneText(offset, IsoColonTz))))))))))))
  }

  /** What Format prints with RFC3339Nano. */
  function Printed(t: T.Time): string { PrintedFor(t.Date(), t.ClockOf(), t.nsec, t.loc.offset) }

  lemma FillTail(l: Layouts, p: (Std, nat) -> string)
    requires Chunked(l)
    ensures FillIn(p, l.frac) == p(Frac9, 9) + p(IsoColonTz, 0)
  {
    FillStep(p, l.frac);
    FillStep(p, l.zone);
    assert p(IsoColonTz, 0) + "" == p(IsoColonTz, 0);
  }

  lemma FillClock(l: Layouts, p: (Std, nat) -> string)
    requires Chunked(l)
    ensures FillIn(p, l.hour) == "T" + (p(Hour, 0) + (":" + (p(ZeroMinute, 0) + (":" + (p(ZeroSecond, 0)
                                 + FillIn(p, l.frac))))))
  {
    FillStep(p, l.hour);
    FillStep(p, l.minute);
    FillStep(p, l.second);
  }

  lemma FillDate(l: Layouts, p: (Std, nat) -> string)
    requires Chunked(l)
    ensures FillIn(p, l.year) == p(LongYear, 0) + ("-" + (p(ZeroMonth, 0) + ("-" + (p(ZeroDay, 0)
                                 + FillIn(p, l.hour)))))
  {
    FillStep(p, l.year);
    FillStep(p, l.month);
    FillStep(p, l.day);
  }

  lemma FracIs(s: Shown, digits: nat)
    requires Sound(s)
    ensures Pieces(s)(Frac9, digits) == FracText(s.nsec, digits, true)
  {
    FracFor(s, Frac9, digits);
  }

  lemma FracFor(s: Shown, std: Std, digits: nat)
    requires Sound(s) && std == Frac9
    ensures PieceFor(s, std, digits) == FracText(s.nsec, digits, true)
  {
    assert !IsDatePiece(std) && !IsClockPiece(std) && std != Tz && std != Literal;
  }

  lemma ZoneIs(s: Shown, std: Std)
    requires Sound(s) && IsIso(std)
    ensures Pieces(s)(std, 0) == ZoneText(s.loc.offset, std)
  {
  }

  lemma ClockIs(s: Shown, std: Std)
    requires Sound(s) && IsClockPiece(std)
    ensures Pieces(s)(std, 0) == ClockPiece(s.clock, std)
  {
  }

  lemma DateIs(s: Shown, std: Std)
    requires Sound(s) && IsDatePiece(std)
    ensures Pieces(s)(std, 0) == DatePiece(s.date, s.wday, std)
  {
  }

  lemma FillPrints(l: Layouts, p: (Std, nat) -> string, text: string)
    requires Chunked(l)
    requires text == p(LongYear, 0) + ("-" + (p(ZeroMonth, 0) + ("-" + (p(ZeroDay, 0) + ("T" + (p(Hour, 0) + (":"
                     + (p(ZeroMinute, 0) + (":" + (p(ZeroSecond, 0) + (p(Frac9, 9) + p(IsoColonTz, 0))))))))))))
    ensures FillIn(p, l.year) == text
  {
    FillDate(l, p);
    FillClock(l, p);
    FillTail(l, p);
  }

  lemma ShownPrints(l: Layouts, s: Shown)
    requires Chunked(l) && Sound(s)
    ensures FillIn(Pieces(s), l.year) == PrintedFor(s.date, s.clock, s.nsec, s.loc.offset)
  {
    DateIs(s, LongYear);
    DateIs(s, ZeroMonth);
    DateIs(s, ZeroDay);
    ClockIs(s, Hour);
    ClockIs(s, ZeroMinute);
    ClockIs(s, ZeroSecond);
    FracIs(s, 9);
    ZoneIs(s, IsoColonTz);
    FillPrints(l, Pieces(s), PrintedFor(s.date, s.clock, s.nsec, s.loc.offset));
  }

  lemma FormatPrints(l: Layouts, t: T.Time)
    requires Chunked(l)
    ensures FormatRest(t, l.year) == Printed(t)
  {
    ShownPrints(l, ShownOf(t));
  }

  lemma YearPiece(suffix: string, value: string, f: Fields)
    requires MonthSet(f)
    ensures ReadPiece(LongYear, 0, suffix, value, f) == ReadLongYear(value, f)
  {
  }

  lemma FracPiece(suffix: string, value: string, f: Fields)
    requires MonthSet(f)
    ensures ReadPiece(Frac9, 9, suffix, value, f) == ReadFrac9(value, f)
  {
  }

  lemma ZonePiece(suffix: string, value: string, f: Fields)
    requires MonthSet(f)
    ensures ReadPiece(IsoColonTz, 0, suffix, value, f) == ReadZone(IsoColonTz, value, f)
  {
  }

  lemma ParseStep(layout: string, value: string, f: Fields, c: Chunk, hold: string, f1: Fields, rest: string)
    requires MonthSet(f) && NextChunk(layout) == c && c.std != Literal && |c.suffix| < |layout|
    requires Skip(value, c.prefix) == Some(hold)
    requires ReadPiece(c.std, c.arg, c.suffix, hold, f) == Good(f1, rest)
    ensures MonthSet(f1) && ParseFields(layout, value, f) == ParseFields(c.suffix, rest, f1)
  {
  }

  lemma SkipChar(c: char, rest: string)
    requires c != ' '
    ensures Skip([c] + rest, [c]) == Some(rest)
  {
    assert ([c] + rest)[1..] == rest;
    assert [c][1..] == "";
  }

  lemma ParseEnd(f: Fields)
    requires MonthSet(f)
    ensures ParseFields("", "", f) == Ok(f)
  {
  }

  /** What can be read back, whole-minute zone or not. */
  predicate Printable(t: T.Time) {
    0 <= t.Date().year <= 9999 && -360_000 < t.loc.offset < 360_000
  }

  function DateFields(t: T.Time): Fields {
    NO_FIELDS.(year := t.Date().year, month := t.Date().month, day := t.Date().day)
  }

  function TimeFields(t: T.Time): Fields {
    var c := t.ClockOf();
    DateFields(t).(hour := c.hour, minute := c.minute, sec := c.second, nsec := t.nsec)
  }

  function AllFields(t: T.Time): Fields {
    if t.loc.offset == 0 then TimeFields(t).(utc := true)
    else TimeFields(t).(zoneOffset := Minutes(t.loc.offset))
  }

  lemma YearRead(l: Layouts, x: int, rest: string, f: Fields)
    requires Chunked(l)
    requires MonthSet(f) && 0 <= x <= 9999
    ensures ParseFields(l.year, AppendInt(x, 4) + rest, f) == ParseFields(l.month, rest, f.(year := x))
  {
    assert Pow(10, 4) == 10_000;
    PadReads(x, 4);
    YearTextRead(l, AppendInt(x, 4), x, rest, f);
  }

  lemma YearTextRead(l: Layouts, d: string, x: int, rest: string, f: Fields)
    requires Chunked(l) && MonthSet(f) && Digs(d, 4, x)
    ensures ParseFields(l.year, d + rest, f) == ParseFields(l.month, rest, f.(year := x))
  {
    LongYearReads(d, x, rest, f);
    YearPiece(l.month, d + rest, f);
    var v := d + rest;
    ParseStep(l.year, v, f, Chunk("", LongYear, 0, l.month), v, f.(year := x), rest);
  }

  /** One two-digit piece after a one-character literal. */
  lemma TwoDigitRead(layout: string, c: char, std: Std, suffix: string, x: int, rest: string, f: Fields, f1: Fields)
    requires c != ' ' && NextChunk(layout) == Chunk([c], std, 0, suffix) && std != Literal && |suffix| < |layout|
    requires MonthSet(f) && 0 <= x < 100
    requires ReadPiece(std, 0, suffix, AppendInt(x, 2) + rest, f) == Good(f1, rest)
    ensures MonthSet(f1)
    ensures ParseFields(layout, [c] + (AppendInt(x, 2) + rest), f) == ParseFields(suffix, rest, f1)
  {
    SkipChar(c, AppendInt(x, 2) + rest);
    ParseStep(layout, [c] + (AppendInt(x, 2) + rest), f, Chunk([c], std, 0, suffix), AppendInt(x, 2) + rest, f1, rest);
  }

  lemma MonthRead(l: Layouts, x: int, rest: string, f: Fields)
    requires Chunked(l)
    requires MonthSet(f) && 1 <= x <= 12
    ensures ParseFields(l.month, "-" + (AppendInt(x, 2) + rest), f) == ParseFields(l.day, rest, f.(month := x))
  {
    TwoDigits(x);
    GetNumReads(AppendInt(x, 2), x, rest, true);
    TwoDigitRead(l.month, '-', ZeroMonth, l.day, x, rest, f, f.(month := x));
  }

  lemma DayRead(l: Layouts, x: int, rest: string, f: Fields)
    requires Chunked(l)
    requires MonthSet(f) && 0 <= x < 100
    ensures ParseFields(l.day, "-" + (AppendInt(x, 2) + rest), f) == ParseFields(l.hour, rest, f.(day := x))
  {
    TwoDigits(x);
    GetNumReads(AppendInt(x, 2), x, rest, true);
    TwoDigitRead(l.day, '-', ZeroDay, l.hour, x, rest, f, f.(day := x));
  }

  lemma HourRead(l: Layouts, x: int, rest: string, f: Fields)
    requires Chunked(l)
    requires MonthSet(f) && 0 <= x < 24
    ensures ParseFields(l.hour, "T" + (AppendInt(x, 2) + rest), f) == ParseFields(l.minute, rest, f.(hour := x))
  {
    TwoDigits(x);
    GetNumReads(AppendInt(x, 2), x, rest, false);
    TwoDigitRead(l.hour, 'T', Hour, l.minute, x, rest, f, f.(hour := x));
  }

  lemma MinuteRead(l: Layouts, x: int, rest: string, f: Fields)
    requires Chunked(l)
    requires MonthSet(f) && 0 <= x < 60
    ensures ParseFields(l.minute, ":" + (AppendInt(x, 2) + rest), f) == ParseFields(l.second, rest, f.(minute := x))
  {
    TwoDigits(x);
    GetNumReads(AppendInt(x, 2), x, rest, true);
    TwoDigitRead(l.minute, ':', ZeroMinute, l.second, x, rest, f, f.(minute := x));
  }

  lemma SecondRead(l: Layouts, x: int, rest: string, f: Fields)
    requires Chunked(l)
    requires MonthSet(f) && 0 <= x < 60
    ensures ParseFields(l.second, ":" + (AppendInt(x, 2) + rest), f) == ParseFields(l.frac, rest, f.(sec := x))
  {
    TwoDigits(x);
    SecondReads(l, AppendInt(x, 2), x, rest, f);
    TwoDigitRead(l.second, ':', ZeroSecond, l.frac, x, rest, f, f.(sec := x));
  }

  lemma DateReads(l: Layouts, t: T.Time, rest: string)
    requires Chunked(l)
    requires 0 <= t.Date().year <= 9999
    ensures var dt := t.Date();
            1 <= dt.month <= 12 &&
            ParseFields(l.year,
              AppendInt(dt.year, 4) + ("-" + (AppendInt(dt.month, 2) + ("-" + (AppendInt(dt.day, 2) + rest)))),
              NO_FIELDS)
            == ParseFields(l.hour, rest, DateFields(t))
  {
    var dt := t.Date();
    DaysRoundTrip(t.Local() / T.DAY);
    var v3 := AppendInt(dt.day, 2) + rest;
    var v2 := AppendInt(dt.month, 2) + ("-" + v3);
    YearRead(l, dt.year, "-" + v2, NO_FIELDS);
    MonthRead(l, dt.month, "-" + v3, NO_FIELDS.(year := dt.year));
    DayRead(l, dt.day, rest, NO_FIELDS.(year := dt.year, month := dt.month));
  }

  lemma ClockReads(l: Layouts, t: T.Time, rest: string, f: Fields)
    requires Chunked(l)
    requires MonthSet(f)
    ensures var c := t.ClockOf();
            ParseFields(l.hour,
              "T" + (AppendInt(c.hour, 2) + (":" + (AppendInt(c.minute, 2) + (":" + (AppendInt(c.second, 2) + rest))))),
              f)
            == ParseFields(l.frac, rest, f.(hour := c.hour, minute := c.minute, sec := c.second))
  {
    var c := t.ClockOf();
    T.ClockInRange(t);
    var v3 := AppendInt(c.second, 2) + rest;
    var v2 := AppendInt(c.minute, 2) + (":" + v3);
    HourRead(l, c.hour, ":" + v2, f);
    MinuteRead(l, c.minute, ":" + v3, f.(hour := c.hour));
    SecondRead(l, c.second, rest, f.(hour := c.hour, minute := c.minute));
  }

  lemma ZoneRead(l: Layouts, offset: int, f: Fields)
    requires Chunked(l)
    requires MonthSet(f) && -360_000 < offset < 360_000
    ensures ParseFields(l.zone, ZoneText(offset, IsoColonTz), f) ==
            Ok(if offset == 0 then f.(utc := true) else f.(zoneOffset := Minutes(offset)))
  {
    var zone := ZoneText(offset, IsoColonTz);
    var f1 := if offset == 0 then f.(utc := true) else f.(zoneOffset := Minutes(offset));
    ZoneReads(offset, f);
    ZonePiece("", zone, f);
    ParseStep(l.zone, zone, f, Chunk("", IsoColonTz, 0, ""), zone, f1, "");
    ParseEnd(f1);
  }

  lemma FracRead(l: Layouts, nsec: int, zone: string, f: Fields)
    requires Chunked(l)
    requires MonthSet(f) && 0 <= nsec < T.NANOS && EndsFraction(zone) && f.nsec == 0
    ensures ParseFields(l.frac, FracText(nsec, 9, true) + zone, f) == ParseFields(l.zone, zone, f.(nsec := nsec))
  {
    var v := FracText(nsec, 9, true) + zone;
    Frac9Reads(nsec, zone, f);
    FracPiece(l.zone, v, f);
    ParseStep(l.frac, v, f, Chunk("", Frac9, 9, l.zone), v, f.(nsec := nsec), zone);
  }

  lemma FracAndZoneRead(l: Layouts, t: T.Time, f: Fields)
    requires Chunked(l)
    requires Printable(t) && 0 <= t.nsec < T.NANOS && MonthSet(f) && f.nsec == 0
    ensures var f1 := f.(nsec := t.nsec);
            ParseFields(l.frac, FracText(t.nsec, 9, true) + ZoneText(t.loc.offset, IsoColonTz), f)
            == Ok(if t.loc.offset == 0 then f1.(utc := true) else f1.(zoneOffset := Minutes(t.loc.offset)))
  {
    var f1 := f.(nsec := t.nsec);
    ZoneReads(t.loc.offset, f1);
    FracRead(l, t.nsec, ZoneText(t.loc.offset, IsoColonTz), f);
    ZoneRead(l, t.loc.offset, f1);
  }

  lemma FieldsRead(l: Layouts, t: T.Time)
    requires Chunked(l)
    requires Printable(t) && 0 <= t.nsec < T.NANOS
    ensures ParseFields(l.year, Printed(t), NO_FIELDS) == Ok(AllFields(t))
    ensures MonthSet(AllFields(t))
  {
    var c := t.ClockOf();
    var tail := FracText(t.nsec, 9, true) + ZoneText(t.loc.offset, IsoColonTz);
    var rest := "T" + (AppendInt(c.hour, 2) + (":" + (AppendInt(c.minute, 2) + (":" + (AppendInt(c.second, 2)
                + tail)))));
    DateReads(l, t, rest);
    ClockReads(l, t, tail, DateFields(t));
    FracAndZoneRead(l, t, DateFields(t).(hour := c.hour, minute := c.minute, sec := c.second));
  }

  // ----- Round trip -----

  /** What Parse makes of what Format prints. */
  function Reparsed(layout: string, t: T.Time, default: T.Location): Result<T.Time, ParseError> {
    ParseSpec(layout, FormatRest(t, layout), default)
  }

  lemma AssembleFields(t: T.Time, default: T.Location) returns (loc: T.Location)
    requires 0 <= t.nsec < T.NANOS
    ensures MonthSet(AllFields(t)) && loc.offset == Minutes(t.loc.offset)
    ensures var dt, c := t.Date(), t.ClockOf();
            Assemble(AllFields(t), default) ==
            Ok(T.TimeDate(dt.year, dt.month, dt.day, c.hour, c.minute, c.second, t.nsec, loc))
  {
    DaysRoundTrip(t.Local() / T.DAY);
    loc := Zone(AllFields(t), default).value;
    MinutesExact(t.loc.offset);
  }

  lemma MinutesExact(offset: int)
    ensures Minutes(offset) == offset <==> offset % 60 == 0
    ensures Minutes(offset) % 60 == 0
  {
  }

  /** The same wall clock, read through the zone in whole minutes. */
  lemma ParsedTime(l: Layouts, t: T.Time, default: T.Location) returns (u: T.Time)
    requires Chunked(l)
    requires Printable(t) && 0 <= t.nsec < T.NANOS
    ensures Reparsed(l.year, t, default) == Ok(u)
    ensures u.loc.offset == Minutes(t.loc.offset) && u.nsec == t.nsec
    ensures u.sec == t.sec + t.loc.offset - Minutes(t.loc.offset)
  {
    FormatPrints(l, t);
    FieldsRead(l, t);
    var loc := AssembleFields(t, default);
    var dt, c := t.Date(), t.ClockOf();
    u := T.TimeDate(dt.year, dt.month, dt.day, c.hour, c.minute, c.second, t.nsec, loc);
    T.NamedByItsFields(t);
    SameWallClock(dt, c, t.nsec, t.loc, loc);
  }

  /** A zone only shifts the instant that a wall clock reading names. */
  lemma SameWallClock(dt: Date, c: T.Clock, nsec: int, loc: T.Location, loc': T.Location)
    ensures var t := T.TimeDate(dt.year, dt.month, dt.day, c.hour, c.minute, c.second, nsec, loc);
            var t' := T.TimeDate(dt.year, dt.month, dt.day, c.hour, c.minute, c.second, nsec, loc');
            t'.nsec == t.nsec && t'.sec + loc'.offset == t.sec + loc.offset && t'.loc == loc'
  {
  }

  /** What the layout can carry: a four-digit year and whole minutes of a zone under
      100 hours. */
  predicate Carried(t: T.Time) {
    0 <= t.Date().year <= 9999 && t.loc.offset % 60 == 0 && -360_000 < t.loc.offset < 360_000
  }

  /** RFC 3339 round trip: an Equal time with the same offset. */
  lemma RoundTrip(t: T.Time, default: T.Location)
    requires 0 <= t.nsec < T.NANOS && Carried(t)
    ensures var r := Reparsed(RFC3339_NANO, t, default);
            r.Ok? && r.value.Equal(t) && r.value.loc.offset == t.loc.offset
  {
    Rfc3339Chunked();
    var u := ParsedTime(RFC3339, t, default);
    MinutesExact(t.loc.offset);
  }

  // ----- And for no other time -----

  lemma ParseFails(layout: string, value: string, f: Fields, c: Chunk)
    requires MonthSet(f) && NextChunk(layout) == c && c.std != Literal && |c.suffix| < |layout|
    requires Skip(value, c.prefix).Some? ==> ReadPiece(c.std, c.arg, c.suffix, Skip(value, c.prefix).value, f).Bad?
    ensures ParseFields(layout, value, f).Err?
  {
  }

  /** The digits of a large number are as many as they must be. */
  lemma {:induction false} RenderAtLeast(n: nat, k: nat)
    requires n >= Pow(10, k)
    ensures |Decimal(n)| > k
  {
    RenderReads(n, 10);
    if |Decimal(n)| <= k {
      ValueBounds(Decimal(n), 10);
      PowGrows(|Decimal(n)|, k);
    }
  }

  lemma {:induction false} PowGrows(a: nat, b: nat)
    requires a <= b
    ensures 1 <= Pow(10, a) <= Pow(10, b)
  {
    if b > a { PowGrows(a, b - 1); }
    else if a > 0 { PowGrows(a - 1, a - 1); }
  }

  lemma BadYear(l: Layouts, t: T.Time)
    requires Chunked(l)
    requires t.Date().year < 0 || t.Date().year > 9999
    ensures ParseFields(l.year, Printed(t), NO_FIELDS).Err?
  {
    var text, year := Printed(t), AppendInt(t.Date().year, 4);
    var rest := text[|year|..];
    assert text == year + rest;
    if t.Date().year < 0 {
      assert year[0] == '-';
      DashFails(l, text);
    } else {
      WideYear(t.Date().year);
      LongYearFails(l, year, rest);
    }
  }

  lemma DashFails(l: Layouts, text: string)
    requires Chunked(l) && text != "" && text[0] == '-'
    ensures ParseFields(l.year, text, NO_FIELDS).Err?
  {
    YearPiece(l.month, text, NO_FIELDS);
    ParseFails(l.year, text, NO_FIELDS, Chunk("", LongYear, 0, l.month));
  }

  lemma WideYear(y: int)
    requires y > 9999
    ensures |AppendInt(y, 4)| > 4 && AllDigits(AppendInt(y, 4), 10)
  {
    RenderReads(y, 10);
    assert Pow(10, 4) == 10_000;
    RenderAtLeast(y, 4);
    assert AppendInt(y, 4) == Decimal(y);
  }

  /** A year of five digits leaves a digit where the '-' should be. */
  lemma LongYearFails(l: Layouts, s: string, rest: string)
    requires Chunked(l)
    requires |s| > 4 && AllDigits(s, 10)
    ensures ParseFields(l.year, s + rest, NO_FIELDS).Err?
  {
    var d, more := s[..4], s[4..] + rest;
    assert s + rest == d + more && more[0] == s[4];
    DigitRead(s[4]);
    FiveDigitsFail(l, d, more);
  }

  lemma FiveDigitsFail(l: Layouts, d: string, more: string)
    requires Chunked(l)
    requires |d| == 4 && AllDigits(d, 10) && more != "" && more[0] != '-'
    ensures ParseFields(l.year, d + more, NO_FIELDS).Err?
  {
    var f := NO_FIELDS.(year := ValueOf(d, 10));
    LongYearReads(d, ValueOf(d, 10), more, NO_FIELDS);
    ParseStep(l.year, d + more, NO_FIELDS, Chunk("", LongYear, 0, l.month), d + more, f, more);
    ParseFails(l.month, more, f, Chunk("-", ZeroMonth, 0, l.day));
  }

  lemma WideHours(n: nat)
    requires n >= 100
    ensures var hh := AppendInt(n, 2); |hh| > 2 && '0' <= hh[2] <= '9'
  {
    assert Pow(10, 2) == 100;
    RenderReads(n, 10);
    RenderAtLeast(n, 2);
    assert AppendInt(n, 2) == Decimal(n);
    DigitRead(Decimal(n)[2]);
  }

  lemma WideZoneReads(sign: char, h: nat, m: nat, f: Fields)
    requires (sign == '+' || sign == '-') && h >= 100
    ensures ReadZone(IsoColonTz, [sign] + AppendInt(h, 2) + ":" + AppendInt(m, 2), f).Bad?
  {
    WideHours(h);
    NoColon(sign, AppendInt(h, 2), ":" + AppendInt(m, 2), f);
    assert [sign] + AppendInt(h, 2) + ":" + AppendInt(m, 2) == [sign] + AppendInt(h, 2) + (":" + AppendInt(m, 2));
  }

  lemma WideZone(offset: int, f: Fields)
    requires offset <= -360_000 || offset >= 360_000
    ensures ReadZone(IsoColonTz, ZoneText(offset, IsoColonTz), f).Bad?
    ensures EndsFraction(ZoneText(offset, IsoColonTz))
  {
    var n := (if offset >= 0 then offset else -offset) / 60;
    ZonePrints(offset);
    WideZoneReads(if offset < 0 && n > 0 then '-' else '+', n / 60, n % 60, f);
  }

  lemma NoColon(sign: char, hh: string, more: string, f: Fields)
    requires (sign == '+' || sign == '-') && |hh| > 2 && '0' <= hh[2] <= '9'
    ensures ReadZone(IsoColonTz, [sign] + hh + more, f).Bad?
  {
    assert ([sign] + hh + more)[3] == hh[2];
  }

  lemma BadZone(l: Layouts, t: T.Time)
    requires Chunked(l)
    requires 0 <= t.Date().year <= 9999 && 0 <= t.nsec < T.NANOS
    requires t.loc.offset <= -360_000 || t.loc.offset >= 360_000
    ensures ParseFields(l.year, Printed(t), NO_FIELDS).Err?
  {
    var c := t.ClockOf();
    var zone := ZoneText(t.loc.offset, IsoColonTz);
    var tail := FracText(t.nsec, 9, true) + zone;
    var rest := "T" + (AppendInt(c.hour, 2) + (":" + (AppendInt(c.minute, 2) + (":" + (AppendInt(c.second, 2)
                + tail)))));
    DateReads(l, t, rest);
    ClockReads(l, t, tail, DateFields(t));
    var f := DateFields(t).(hour := c.hour, minute := c.minute, sec := c.second);
    ZoneFails(l, t.loc.offset, f.(nsec := t.nsec));
    FracRead(l, t.nsec, zone, f);
  }

  lemma ZoneFails(l: Layouts, offset: int, f: Fields)
    requires Chunked(l)
    requires MonthSet(f) && (offset <= -360_000 || offset >= 360_000)
    ensures ParseFields(l.zone, ZoneText(offset, IsoColonTz), f).Err?
    ensures EndsFraction(ZoneText(offset, IsoColonTz))
  {
    WideZone(offset, f);
    ZonePiece("", ZoneText(offset, IsoColonTz), f);
    ParseFails(l.zone, ZoneText(offset, IsoColonTz), f, Chunk("", IsoColonTz, 0, ""));
  }

  /** Printing and parsing gives the time back exactly when the layout can carry it. */
  lemma RoundTripExactly(t: T.Time, default: T.Location)
    requires 0 <= t.nsec < T.NANOS
    ensures Reparsed(RFC3339_NANO, t, default).Ok? && Reparsed(RFC3339_NANO, t, default).value.Equal(t) <==> Carried(t)
  {
    Rfc3339Chunked();
    if Printable(t) {
      var u := ParsedTime(RFC3339, t, default);
      MinutesExact(t.loc.offset);
    } else {
      NotReparsed(RFC3339, t, default);
    }
  }

  lemma NotReparsed(l: Layouts, t: T.Time, default: T.Location)
    requires Chunked(l)
    requires 0 <= t.nsec < T.NANOS && !Printable(t)
    ensures Reparsed(l.year, t, default).Err?
  {
    FormatPrints(l, t);
    if t.Date().year < 0 || t.Date().year > 9999 { BadYear(l, t); } else { BadZone(l, t); }
  }
}
