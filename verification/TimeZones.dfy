/** Which instant a parsed text with a numeric zone names. */
module TimeZones {
  import opened Prelude
  import opened Calendar
  import T = Times
  import opened TimeLayout
  import opened TimeFormat
  import opened TimeParse

  // ----- The zones in a text -----

  predicate IsNumericZone(std: Std) {
    IsIso(std) || std in {NumTz, NumShortTz, NumSecondsTz, NumColonTz, NumColonSecondsTz}
  }

  predicate HasZoneSeconds(std: Std) {
    std in {IsoSecondsTz, IsoColonSecondsTz, NumSecondsTz, NumColonSecondsTz}
  }

  function TwoDigits(s: string, i: nat): int
    requires i + 2 <= |s|
  {
    Num(s[i]) * 10 + Num(s[i + 1])
  }

  /** The minutes and the seconds past them that the text of a numeric zone names. */
  function MinutesOf(std: Std, text: string): int
    requires |text| >= ZoneShape(std).0
  {
    var m := ZoneShape(std).1;
    TwoDigits(text, 1) * 60 + if m == 0 then 0 else TwoDigits(text, m)
  }

  function SecondsOf(std: Std, text: string): int
    requires |text| >= ZoneShape(std).0
  {
    var s := ZoneShape(std).2;
    if s == 0 then 0 else TwoDigits(text, s)
  }

  /** The offset it names, in seconds east. */
  function OffsetOf(std: Std, text: string): int
    requires |text| >= ZoneShape(std).0
  {
    var offset := MinutesOf(std, text) * 60 + SecondsOf(std, text);
    if text[0] == '-' then -offset else offset
  }

  /** What the zones of a text name: UTC by a Z or by its name, the last other name, the
      last numeric offset. */
  datatype Zones = Zones(utc: bool, name: string, offset: Option<int>)

  const NO_ZONES := Zones(false, "", None)

  predicate SaysZ(std: Std, text: string) { IsIso(std) && text != "" && text[0] == 'Z' }

  function WithPiece(std: Std, text: string, zs: Zones): Zones {
    if std == Tz then
      if At(text, 0, "UTC") then zs.(utc := true) else zs.(name := text[..CountCapitals(text)])
    else if SaysZ(std, text) then zs.(utc := true)
    else if IsNumericZone(std) && |text| >= ZoneShape(std).0 then zs.(offset := Some(OffsetOf(std, text)))
    else zs
  }

  /** A piece of the layout and the text from where it was read. */
  datatype Bit = Bit(std: Std, text: string)

  /** What the layout's pieces were read from, one after the other. */
  function Bits(layout: string, value: string, f: Fields): seq<Bit>
    requires MonthSet(f)
    decreases |layout|
  {
    ChunkPartitions(layout);
    var c := NextChunk(layout);
    match Skip(value, c.prefix)
    case None => []
    case Some(hold) =>
      if c.std == Literal then []
      else
        match ReadPiece(c.std, c.arg, c.suffix, hold, f)
        case Good(f1, rest) => [Bit(c.std, hold)] + Bits(c.suffix, rest, f1)
        case _ => []
  }

  function ZonesIn(bits: seq<Bit>, zs: Zones): Zones {
    if bits == [] then zs else ZonesIn(bits[1..], WithPiece(bits[0].std, bits[0].text, zs))
  }

  function ZonesOf(layout: string, value: string): Zones { ZonesIn(Bits(layout, value, NO_FIELDS), NO_ZONES) }

  // ----- The fields hold the zones that were read -----

  predicate Holds(f: Fields, zs: Zones) {
    && f.utc == zs.utc && f.zoneName == zs.name
    && f.zoneOffset == if zs.offset.Some? then zs.offset.value else -1
  }

  predicate SameZone(f: Fields, g: Fields) {
    f.utc == g.utc && f.zoneName == g.zoneName && f.zoneOffset == g.zoneOffset
  }

  /** A reading that leaves the zones alone. */
  predicate Keeps(r: Read, f: Fields) { r.Good? ==> SameZone(r.f, f) }

  lemma MonthKeeps(std: Std, value: string, f: Fields)
    requires MonthSet(f)
    ensures Keeps(ReadMonth(std, value, f), f)
  {
  }

  lemma DayKeeps(std: Std, value: string, f: Fields)
    ensures Keeps(ReadDay(std, value, f), f)
  {
  }

  lemma FractionKeeps(rest: string, value: string, f: Fields)
    ensures Keeps(OwnFraction(rest, value, f), f)
    ensures value != "" ==> Keeps(ReadFraction(value, f), f)
  {
  }

  lemma SecondKeeps(rest: string, value: string, fixed: bool, f: Fields)
    ensures Keeps(ReadSecond(rest, value, fixed, f), f)
  {
    var r := InRange(GetNum(value, fixed), 0, 59, "second", (v: int) => f.(sec := v));
    if r.Good? { FractionKeeps(rest, r.rest, r.f); }
  }

  lemma ClockKeeps(std: Std, rest: string, value: string, f: Fields)
    ensures Keeps(ReadClock(std, rest, value, f), f)
  {
    SecondKeeps(rest, value, std != Second, f);
  }

  lemma OtherKeeps(std: Std, arg: nat, value: string, f: Fields)
    requires std in {Year, LongYear, PmUpper, PmLower, Frac0, Frac9}
    ensures Keeps(ReadOther(std, arg, value, f), f)
  {
    FractionKeeps("", value, f);
  }

  lemma NamedZoneReads(value: string, f: Fields, zs: Zones)
    requires Holds(f, zs) && ReadZoneName(value, f).Good?
    ensures Holds(ReadZoneName(value, f).f, WithPiece(Tz, value, zs))
  {
  }

  lemma TwoDigitsRead(value: string, i: nat)
    requires i + 2 <= |value| && GetNum(value[i..i + 2], true).Some?
    ensures GetNum(value[i..i + 2], true).value.0 == TwoDigits(value, i)
  {
    assert value[i..i + 2][0] == value[i] && value[i..i + 2][1] == value[i + 1];
  }

  lemma ShapeFits(std: Std)
    ensures var (n, m, s) := ZoneShape(std); 3 <= n && m + 2 <= n && s + 2 <= n
  {
  }

  /** What a numeric zone reads: a sign, and hours, minutes and seconds of offset. */
  lemma NumericZoneReads(std: Std, value: string, f: Fields)
    requires !SaysZ(std, value) && ReadZone(std, value, f).Good?
    ensures |value| >= ZoneShape(std).0 && (value[0] == '+' || value[0] == '-')
    ensures ReadZone(std, value, f) == Good(f.(zoneOffset := OffsetOf(std, value)), value[ZoneShape(std).0..])
  {
    var (n, m, s) := ZoneShape(std);
    ShapeFits(std);
    TwoDigitsRead(value, 1);
    var minutes, seconds := if m == 0 then "00" else value[m..m + 2], if s == 0 then "00" else value[s..s + 2];
    assert GetNum("00", true).value.0 == 0;
    if m != 0 { TwoDigitsRead(value, m); }
    if s != 0 { TwoDigitsRead(value, s); }
    assert GetNum(value[1..3], true).value.0 * 60 + GetNum(minutes, true).value.0 == MinutesOf(std, value);
    assert GetNum(seconds, true).value.0 == SecondsOf(std, value);
  }

  lemma ZonePieceReads(std: Std, value: string, f: Fields, zs: Zones)
    requires IsNumericZone(std) && Holds(f, zs) && ReadZone(std, value, f).Good?
    ensures Holds(ReadZone(std, value, f).f, WithPiece(std, value, zs))
  {
    if !SaysZ(std, value) { NumericZoneReads(std, value, f); }
  }

  /** Which reading a piece has. */
  predicate IsMonth(std: Std) { std in {Month, LongMonth, NumMonth, ZeroMonth} }
  predicate IsDay(std: Std) { std in {Day, UnderDay, ZeroDay, UnderYearDay, ZeroYearDay} }
  predicate IsWeekday(std: Std) { std == Weekday || std == LongWeekday }
  predicate IsClock(std: Std) { std in {Hour, Hour12, ZeroHour12, Minute, ZeroMinute, Second, ZeroSecond} }

  lemma WeekdayKeeps(std: Std, arg: nat, rest: string, value: string, f: Fields)
    requires IsWeekday(std) && MonthSet(f)
    ensures Keeps(ReadPiece(std, arg, rest, value, f), f)
  {
  }

  lemma OtherZones(std: Std, arg: nat, value: string, f: Fields, zs: Zones)
    requires !IsMonth(std) && !IsDay(std) && !IsWeekday(std) && !IsClock(std) && std != Literal
    requires Holds(f, zs) && ReadOther(std, arg, value, f).Good?
    ensures Holds(ReadOther(std, arg, value, f).f, WithPiece(std, value, zs))
  {
    if std == Tz {
      NamedZoneReads(value, f, zs);
    } else if IsNumericZone(std) {
      ZonePieceReads(std, value, f, zs);
    } else {
      OtherKeeps(std, arg, value, f);
    }
  }

  lemma DatePieceZones(std: Std, arg: nat, rest: string, value: string, f: Fields)
    requires MonthSet(f) && (IsMonth(std) || IsDay(std) || IsWeekday(std))
    ensures Keeps(ReadPiece(std, arg, rest, value, f), f)
  {
    if IsMonth(std) {
      MonthKeeps(std, value, f);
    } else if IsDay(std) {
      DayKeeps(std, value, f);
    } else {
      WeekdayKeeps(std, arg, rest, value, f);
    }
  }

  lemma ClockPieceZones(std: Std, arg: nat, rest: string, value: string, f: Fields)
    requires MonthSet(f) && IsClock(std)
    ensures Keeps(ReadPiece(std, arg, rest, value, f), f)
  {
    ClockKeeps(std, rest, value, f);
  }

  lemma NoZonePiece(std: Std, value: string, zs: Zones)
    requires IsMonth(std) || IsDay(std) || IsWeekday(std) || IsClock(std)
    ensures WithPiece(std, value, zs) == zs
  {
    assert std != Tz && !IsIso(std);
  }

  lemma OtherPiece(std: Std, arg: nat, rest: string, value: string, f: Fields)
    requires MonthSet(f) && !IsMonth(std) && !IsDay(std) && !IsWeekday(std) && !IsClock(std) && std != Literal
    ensures ReadPiece(std, arg, rest, value, f) == ReadOther(std, arg, value, f)
  {
  }

  lemma PieceZones(std: Std, arg: nat, rest: string, value: string, f: Fields, zs: Zones)
    requires std != Literal && MonthSet(f) && Holds(f, zs) && ReadPiece(std, arg, rest, value, f).Good?
    ensures Holds(ReadPiece(std, arg, rest, value, f).f, WithPiece(std, value, zs))
  {
    if IsMonth(std) || IsDay(std) || IsWeekday(std) {
      DatePieceZones(std, arg, rest, value, f);
      NoZonePiece(std, value, zs);
    } else if IsClock(std) {
      ClockPieceZones(std, arg, rest, value, f);
      NoZonePiece(std, value, zs);
    } else {
      OtherPiece(std, arg, rest, value, f);
      OtherZones(std, arg, value, f, zs);
    }
  }

  lemma ZonesStep(bit: Bit, bits: seq<Bit>, zs: Zones)
    ensures ZonesIn([bit] + bits, zs) == ZonesIn(bits, WithPiece(bit.std, bit.text, zs))
  {
    assert ([bit] + bits)[1..] == bits;
  }

  lemma {:induction false} FieldsHoldZones(layout: string, value: string, f: Fields, zs: Zones)
    requires MonthSet(f) && Holds(f, zs) && ParseFields(layout, value, f).Ok?
    ensures Holds(ParseFields(layout, value, f).value, ZonesIn(Bits(layout, value, f), zs))
    decreases |layout|
  {
    ChunkPartitions(layout);
    var c := NextChunk(layout);
    var hold := Skip(value, c.prefix).value;
    if c.std != Literal {
      PieceZones(c.std, c.arg, c.suffix, hold, f, zs);
      var r := ReadPiece(c.std, c.arg, c.suffix, hold, f);
      ZonesStep(Bit(c.std, hold), Bits(c.suffix, r.rest, r.f), zs);
      FieldsHoldZones(c.suffix, r.rest, r.f, WithPiece(c.std, hold, zs));
    }
  }

  // ----- The instant -----

  /** The seconds of the wall clock reading, as if it stood at UTC. */
  function WallSeconds(f: Fields): int
    requires MonthSet(f) && MonthAndDay(f).Ok?
  {
    var (m, d) := MonthAndDay(f).value;
    (DayNumber(T.Months(f.year, m)) + d - 1) * T.DAY + Hour24(f) * 3600 + f.minute * 60 + f.sec
  }

  /** The time that is put together stands in the zone chosen, at the wall clock read. */
  lemma AssembledInstant(f: Fields, default: T.Location)
    requires MonthSet(f) && Assemble(f, default).Ok?
    ensures MonthAndDay(f).Ok?
    ensures var u := Assemble(f, default).value;
            Zone(f, default) == Ok(u.loc) && u.Total() == (WallSeconds(f) - u.loc.offset) * T.NANOS + f.nsec
  {
    var (m, d) := MonthAndDay(f).value;
    T.TimeDateConserves(f.year, m, d, Hour24(f), f.minute, f.sec, f.nsec, Zone(f, default).value);
  }

  /** The instant is the wall clock reading less the offset. */
  predicate Lands(f: Fields, u: T.Time, offset: int)
    requires MonthSet(f)
  {
    MonthAndDay(f).Ok? && u.Total() == (WallSeconds(f) - offset) * T.NANOS + f.nsec
  }

  /** The time read from the text is its wall clock reading less the offset. */
  predicate LandsExactly(layout: string, value: string, default: T.Location, offset: int)
    requires ParseSpec(layout, value, default).Ok?
  {
    Lands(ParseFields(layout, value, NO_FIELDS).value, ParseSpec(layout, value, default).value, offset)
  }

  /** A text with a numeric zone lands the instant exactly if and only if, with UTC named
      beside it, the offset is zero, and without, it is not one second west, the mark for
      no zone, for which the default zone stands in. */
  lemma NumericZoneExactly(layout: string, value: string, default: T.Location)
    requires ParseSpec(layout, value, default).Ok? && ZonesOf(layout, value).offset.Some?
    ensures var zs := ZonesOf(layout, value);
            LandsExactly(layout, value, default, zs.offset.value) <==>
            if zs.utc then zs.offset.value == 0 else zs.offset.value != -1 || default.offset == -1
  {
    FieldsHoldZones(layout, value, NO_FIELDS, NO_ZONES);
    var f := ParseFields(layout, value, NO_FIELDS).value;
    AssembledInstant(f, default);
  }

  // ----- What the layout alone tells -----

  function PiecesOf(layout: string): seq<Std>
    decreases |layout|
  {
    ChunkPartitions(layout);
    var c := NextChunk(layout);
    if c.std == Literal then [] else [c.std] + PiecesOf(c.suffix)
  }

  /** No zone has seconds. */
  predicate WholeMinutes(ps: seq<Std>) { forall i :: 0 <= i < |ps| ==> !HasZoneSeconds(ps[i]) }

  predicate NamesUtc(std: Std) { IsIso(std) || std == Tz }

  /** A numeric zone and a piece that can say UTC are not both there, unless they are one
      piece. */
  predicate OneZone(ps: seq<Std>) {
    forall i, j :: 0 <= i < |ps| && 0 <= j < |ps| && NamesUtc(ps[i]) && IsNumericZone(ps[j]) ==> i == j
  }

  function Stds(bits: seq<Bit>): (ps: seq<Std>)
    ensures |ps| == |bits| && forall i :: 0 <= i < |ps| ==> ps[i] == bits[i].std
  {
    seq(|bits|, i requires 0 <= i < |bits| => bits[i].std)
  }

  predicate Starts(ps: seq<Std>, all: seq<Std>) { ps <= all }

  lemma FollowStep(bit: Bit, bits: seq<Bit>, all: seq<Std>)
    requires Starts(Stds(bits), all)
    ensures Starts(Stds([bit] + bits), [bit.std] + all)
  {
    assert Stds([bit] + bits) == [bit.std] + Stds(bits);
  }

  /** The pieces that were read are the layout's, up to where reading stopped. */
  lemma {:induction false} BitsFollow(layout: string, value: string, f: Fields)
    requires MonthSet(f)
    ensures Starts(Stds(Bits(layout, value, f)), PiecesOf(layout))
    decreases |layout|
  {
    ChunkPartitions(layout);
    var c := NextChunk(layout);
    var hold := Skip(value, c.prefix);
    if hold.Some? && c.std != Literal {
      var r := ReadPiece(c.std, c.arg, c.suffix, hold.value, f);
      if r.Good? {
        BitsFollow(c.suffix, r.rest, r.f);
        FollowStep(Bit(c.std, hold.value), Bits(c.suffix, r.rest, r.f), PiecesOf(c.suffix));
      }
    }
  }

  lemma StartsKeeps(ps: seq<Std>, all: seq<Std>)
    requires Starts(ps, all) && WholeMinutes(all) && OneZone(all)
    ensures WholeMinutes(ps) && OneZone(ps)
  {
    assert forall i :: 0 <= i < |ps| ==> ps[i] == all[i];
  }

  lemma SixtyDivides(x: int)
    ensures x * 60 % 60 == 0
  {
  }

  lemma NoSeconds(std: Std, text: string)
    requires !HasZoneSeconds(std) && |text| >= ZoneShape(std).0
    ensures SecondsOf(std, text) == 0
  {
  }

  lemma WholeOffset(std: Std, text: string)
    requires |text| >= ZoneShape(std).0 && SecondsOf(std, text) == 0
    ensures OffsetOf(std, text) % 60 == 0
  {
    var minutes := MinutesOf(std, text);
    SixtyDivides(minutes);
    SixtyDivides(-minutes);
    assert OffsetOf(std, text) == minutes * 60 || OffsetOf(std, text) == -minutes * 60;
  }

  lemma {:induction false} WholeIn(bits: seq<Bit>, zs: Zones)
    requires WholeMinutes(Stds(bits)) && (zs.offset.Some? ==> zs.offset.value % 60 == 0)
    ensures var r := ZonesIn(bits, zs); r.offset.Some? ==> r.offset.value % 60 == 0
  {
    if bits != [] {
      var b := bits[0];
      assert Stds(bits)[0] == b.std && Stds(bits[1..]) == Stds(bits)[1..];
      if |b.text| >= ZoneShape(b.std).0 {
        NoSeconds(b.std, b.text);
        WholeOffset(b.std, b.text);
      }
      WholeIn(bits[1..], WithPiece(b.std, b.text, zs));
    }
  }

  predicate HasNumeric(ps: seq<Std>) { exists i :: 0 <= i < |ps| && IsNumericZone(ps[i]) }

  predicate HasUtc(ps: seq<Std>) { exists i :: 0 <= i < |ps| && NamesUtc(ps[i]) }

  /** The pieces to come cannot add UTC to an offset or an offset to UTC. */
  predicate Apart(ps: seq<Std>, zs: Zones) {
    && OneZone(ps) && !(zs.utc && zs.offset.Some?)
    && (zs.utc ==> !HasNumeric(ps)) && (zs.offset.Some? ==> !HasUtc(ps))
  }

  lemma ApartStep(ps: seq<Std>, text: string, zs: Zones)
    requires ps != [] && Apart(ps, zs)
    ensures Apart(ps[1..], WithPiece(ps[0], text, zs))
  {
    assert forall i :: 0 <= i < |ps| - 1 ==> ps[1..][i] == ps[i + 1];
  }

  lemma {:induction false} ApartIn(bits: seq<Bit>, zs: Zones)
    requires Apart(Stds(bits), zs)
    ensures var r := ZonesIn(bits, zs); !(r.utc && r.offset.Some?)
  {
    if bits != [] {
      assert Stds(bits)[0] == bits[0].std && Stds(bits[1..]) == Stds(bits)[1..];
      ApartStep(Stds(bits), bits[0].text, zs);
      ApartIn(bits[1..], WithPiece(bits[0].std, bits[0].text, zs));
    }
  }

  lemma SafeZones(bits: seq<Bit>)
    requires WholeMinutes(Stds(bits)) && OneZone(Stds(bits))
    ensures var zs := ZonesIn(bits, NO_ZONES); zs.offset.Some? ==> !zs.utc && zs.offset.value != -1
  {
    WholeIn(bits, NO_ZONES);
    ApartIn(bits, NO_ZONES);
  }

  lemma LayoutZones(layout: string, value: string)
    requires WholeMinutes(PiecesOf(layout)) && OneZone(PiecesOf(layout))
    ensures var zs := ZonesOf(layout, value); zs.offset.Some? ==> !zs.utc && zs.offset.value != -1
  {
    var bits := Bits(layout, value, NO_FIELDS);
    BitsFollow(layout, value, NO_FIELDS);
    StartsKeeps(Stds(bits), PiecesOf(layout));
    SafeZones(bits);
  }

  /** Only a layout with seconds in a zone, or with UTC beside a numeric zone, can lose an
      instant: for every other layout each text with a numeric zone lands exactly. */
  lemma LayoutLandsExactly(layout: string, value: string, default: T.Location)
    requires ParseSpec(layout, value, default).Ok? && ZonesOf(layout, value).offset.Some?
    requires WholeMinutes(PiecesOf(layout)) && OneZone(PiecesOf(layout))
    ensures LandsExactly(layout, value, default, ZonesOf(layout, value).offset.value)
  {
    LayoutZones(layout, value);
    NumericZoneExactly(layout, value, default);
  }

  // ----- It happens -----

  lemma SecondsLayout()
    ensures NextChunk("Z07:00:00") == Chunk("", IsoColonSecondsTz, 0, "")
    ensures NextChunk("") == Chunk("", Literal, 0, "")
  {
    var l := "Z07:00:00";
    assert l[3] == ':' && l[..9] == l && l[..0] == "" && l[9..] == "";
    assert "Z070000"[3] == '0';
    assert At(l, 0, "Z07:00:00") && !At(l, 0, "Z070000");
  }

  lemma OneSecondWestReads()
    ensures ReadPiece(IsoColonSecondsTz, 0, "", "-00:00:01", NO_FIELDS) == Good(NO_FIELDS.(zoneOffset := -1), "")
    ensures WithPiece(IsoColonSecondsTz, "-00:00:01", NO_ZONES) == NO_ZONES.(offset := Some(-1))
  {
    var v := "-00:00:01";
    assert v[1..3] == "00" && v[4..6] == "00" && v[7..9] == "01" && v[9..] == "";
    assert IsDigit("00", 0) && IsDigit("00", 1) && IsDigit("01", 0) && IsDigit("01", 1);
  }

  /** A zone of one second west is read as no zone. */
  lemma OneSecondWestIsLost(default: T.Location)
    ensures ZonesOf("Z07:00:00", "-00:00:01") == NO_ZONES.(offset := Some(-1))
    ensures var r := ParseSpec("Z07:00:00", "-00:00:01", default); r.Ok? && r.value.loc == default
    ensures LandsExactly("Z07:00:00", "-00:00:01", default, -1) <==> default.offset == -1
  {
    var l, v, f := "Z07:00:00", "-00:00:01", NO_FIELDS.(zoneOffset := -1);
    SecondsLayout();
    OneSecondWestReads();
    assert Skip(v, "") == Some(v) && Skip("", "") == Some("");
    assert ParseFields("", "", f) == Ok(f);
    assert ParseFields(l, v, NO_FIELDS) == ParseFields("", "", f);
    assert Bits("", "", f) == [];
    assert Bits(l, v, NO_FIELDS) == [Bit(IsoColonSecondsTz, v)] + Bits("", "", f);
    ZonesStep(Bit(IsoColonSecondsTz, v), [], NO_ZONES);
    NumericZoneExactly(l, v, default);
  }
}
