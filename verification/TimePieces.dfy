/** When a printed date or clock piece is read back as what was printed. */
module TimePieces {
  import opened Prelude
  import opened Calendar
  import opened Digits
  import T = Times
  import opened TimeLayout
  import opened TimeFormat
  import opened TimeParse
  import R = TimeRoundTrip

  // ----- The condition -----

  /** The fields with the piece's component in them. */
  function WithComponent(s: Shown, std: Std, f: Fields): Fields
    requires Sound(s) && (IsDatePiece(std) || IsClockPiece(std))
  {
    match std
    case Year | LongYear => f.(year := s.date.year)
    case Month | LongMonth | NumMonth | ZeroMonth => f.(month := s.date.month)
    case Weekday | LongWeekday => f
    case Day | UnderDay | ZeroDay => f.(day := s.date.day)
    case UnderYearDay | ZeroYearDay => f.(yday := YearDay(s.date))
    case Hour => f.(hour := s.clock.hour)
    case Hour12 | ZeroHour12 => f.(hour := Hour12Of(s.clock.hour))
    case Minute | ZeroMinute => f.(minute := s.clock.minute)
    case Second | ZeroSecond => f.(sec := s.clock.second)
    case PmUpper | PmLower => if s.clock.hour >= 12 then f.(pm := true) else f.(am := true)
  }

  /** A number without padding ends where its digits do. */
  predicate Ends(x: int, rest: string) { x >= 10 || !IsDigit(rest, 0) }

  /** A fraction follows that no piece of the layout asks for. */
  predicate StrayFraction(layout: string, rest: string) {
    var next := NextChunk(layout);
    && |rest| > 1 && (rest[0] == '.' || rest[0] == ',') && IsDigit(rest, 1)
    && !(next.prefix == "" && (next.std == Frac0 || next.std == Frac9))
  }

  /** What has to hold of the component and of the text and layout that follow it. */
  predicate ReadsBack(s: Shown, std: Std, layout: string, rest: string)
    requires Sound(s)
  {
    match std
    case Year => 1969 <= s.date.year <= 2068
    case LongYear => 0 <= s.date.year <= 9999
    case NumMonth => Ends(s.date.month, rest)
    case Day => Ends(s.date.day, rest)
    case UnderDay => Ends(s.date.day, rest)
    case UnderYearDay => YearDay(s.date) >= 100
    case Hour12 => Ends(Hour12Of(s.clock.hour), rest)
    case Minute => Ends(s.clock.minute, rest)
    case Second => Ends(s.clock.second, rest) && !StrayFraction(layout, rest)
    case ZeroSecond => !StrayFraction(layout, rest)
    case _ => true
  }

  // ----- Numbers -----

  lemma OneDigit(x: int)
    requires 0 <= x < 10
    ensures AppendInt(x, 0) == [Digit(x)] && '0' <= Digit(x) <= '9' && Num(Digit(x)) == x
  {
  }

  lemma TwoDigitsPlain(x: int)
    requires 10 <= x < 100
    ensures R.Digs(AppendInt(x, 0), 2, x)
  {
    RenderReads(x, 10);
    assert Pow(10, 2) == 100;
    RenderLength(x, 10, 2);
    assert Decimal(x) == Render(x / 10, 10) + [Digit(x % 10)];
    assert AppendInt(x, 0) == Decimal(x);
  }

  /** A padded number is read back whatever follows. */
  lemma PaddedReads(x: int, rest: string, fixed: bool)
    requires 0 <= x < 100
    ensures GetNum(AppendInt(x, 2) + rest, fixed) == Some((x, rest))
  {
    R.TwoDigits(x);
    R.GetNumReads(AppendInt(x, 2), x, rest, fixed);
  }

  /** One without padding exactly when no digit runs on from a single one. */
  lemma PlainReads(x: int, rest: string)
    requires 0 <= x < 100
    ensures GetNum(AppendInt(x, 0) + rest, false) == Some((x, rest)) <==> Ends(x, rest)
    ensures var r := GetNum(AppendInt(x, 0) + rest, false); r.Some? && (Ends(x, rest) || |r.value.1| < |rest|)
    ensures AppendInt(x, 0) != "" && AppendInt(x, 0)[0] != ' '
  {
    if x < 10 {
      OneDigit(x);
      var v := AppendInt(x, 0) + rest;
      assert v[1..] == rest;
      if IsDigit(rest, 0) { assert v[1] == rest[0] && v[2..] == rest[1..]; }
    } else {
      TwoDigitsPlain(x);
      R.DigitRead(AppendInt(x, 0)[0]);
      R.GetNumReads(AppendInt(x, 0), x, rest, false);
    }
  }

  // ----- Days of the year -----

  lemma ThreeDigits(d: string, x: int, rest: string, fixed: bool)
    requires R.Digs(d, 3, x)
    ensures GetNum3(d + rest, fixed) == Some((x, rest))
  {
    R.DigitRead(d[0]);
    R.DigitRead(d[1]);
    R.DigitRead(d[2]);
    R.CountsRun(d + rest, 0, 3, 3);
    assert (d + rest)[..3] == d && (d + rest)[3..] == rest;
  }

  lemma ThreeDigitsPlain(x: int)
    requires 100 <= x < 1000
    ensures AppendInt(x, 0) == AppendInt(x, 3)
  {
    TwoDigitsPlain(x / 10);
    RenderReads(x, 10);
    assert Decimal(x) == Render(x / 10, 10) + [Digit(x % 10)];
    assert AppendInt(x / 10, 0) == Decimal(x / 10);
    assert |Decimal(x)| == 3;
  }

  lemma YearDayReads(dt: Date, wday: int, rest: string, f: Fields)
    requires Valid(dt) && 0 <= wday < 7
    ensures ReadDay(ZeroYearDay, DatePiece(dt, wday, ZeroYearDay) + rest, f) == Good(f.(yday := YearDay(dt)), rest)
    ensures ReadDay(UnderYearDay, DatePiece(dt, wday, UnderYearDay) + rest, f) ==
            if YearDay(dt) >= 100 then Good(f.(yday := YearDay(dt)), rest) else Bad
  {
    YearDayCounts(dt);
    var x := YearDay(dt);
    assert Pow(10, 2) == 100 && Pow(10, 3) == 1000;
    R.PadReads(x, 3);
    ThreeDigits(AppendInt(x, 3), x, rest, true);
    ThreeDigits(AppendInt(x, 3), x, rest, false);
    var v := DatePiece(dt, wday, UnderYearDay) + rest;
    if x >= 100 {
      ThreeDigitsPlain(x);
      assert DatePiece(dt, wday, UnderYearDay) == AppendInt(x, 3);
    } else {
      assert v[0] == ' ';
      assert CountDigits(v, 0, 3) == 0;
    }
  }

  // ----- Years -----

  function Century(yy: int): int { if yy >= 69 then yy + 1900 else yy + 2000 }

  lemma CenturyExactly(y: int)
    ensures Century(if y >= 0 then y % 100 else -y % 100) == y <==> 1969 <= y <= 2068
  {
  }

  lemma ShortYearReads(yy: int, rest: string, f: Fields)
    requires 0 <= yy < 100
    ensures ReadYear(AppendInt(yy, 2) + rest, f) == Good(f.(year := Century(yy)), rest)
  {
    var d := AppendInt(yy, 2);
    R.TwoDigits(yy);
    R.DigitRead(d[0]);
    R.DigitRead(d[1]);
    assert (d + rest)[..2] == d && (d + rest)[2..] == rest;
  }

  lemma YearReads(y: int, rest: string, f: Fields)
    ensures var text := AppendInt(if y >= 0 then y % 100 else -y % 100, 2);
            ReadYear(text + rest, f) == Good(f.(year := y), rest) <==> 1969 <= y <= 2068
  {
    var yy := if y >= 0 then y % 100 else -y % 100;
    ShortYearReads(yy, rest, f);
    CenturyExactly(y);
    assert f.(year := Century(yy)).year == Century(yy) && f.(year := y).year == y;
  }

  lemma LongYearReads(y: int, rest: string, f: Fields)
    ensures ReadLongYear(AppendInt(y, 4) + rest, f) == Good(f.(year := y), rest) <==> 0 <= y <= 9999
  {
    var d := AppendInt(y, 4);
    if y < 0 {
      assert (d + rest)[0] == '-';
    } else if y <= 9999 {
      assert Pow(10, 2) == 100 && Pow(10, 4) == 10000;
      R.PadReads(y, 4);
      R.LongYearReads(d, y, rest, f);
    } else {
      R.WideYear(y);
      assert |(d + rest)[4..]| > |rest|;
    }
  }

  // ----- Names -----

  /** The first three letters in lower case, as a number. */
  function Key(name: string): int
    requires |name| >= 3
  {
    Lower(name[0]) as int * 65536 + Lower(name[1]) as int * 256 + Lower(name[2]) as int
  }

  predicate Named(names: seq<string>) { forall i :: 0 <= i < |names| ==> |names[i]| >= 3 }

  predicate Distinct(names: seq<string>)
    requires Named(names)
  {
    forall i, j :: 0 <= i < j < |names| ==> Key(names[i]) != Key(names[j])
  }

  lemma PrefixKey(val: string, name: string)
    requires |val| >= 3 && |name| >= 3 && HasPrefixFold(val, name)
    ensures Key(val) == Key(name)
  {
  }

  /** A name is found again at its own place, whatever follows. */
  lemma {:induction false} NameFound(names: seq<string>, i: nat, k: nat, rest: string)
    requires Named(names) && Distinct(names) && i <= k < |names|
    ensures Lookup(names, names[k] + rest, i) == Some((k as int, rest))
    decreases k - i
  {
    var val := names[k] + rest;
    if i == k {
      assert val[|names[k]|..] == rest;
    } else {
      assert Key(val) == Key(names[k]);
      if HasPrefixFold(val, names[i]) { PrefixKey(val, names[i]); }
      NameFound(names, i + 1, k, rest);
    }
  }

  lemma ShortDistinct(names: seq<string>)
    requires Named(names) && Distinct(names)
    ensures Named(Short(names)) && Distinct(Short(names))
  {
    var short := Short(names);
    forall i | 0 <= i < |names| ensures Key(short[i]) == Key(names[i]) { assert short[i] == names[i][..3]; }
  }

  const MONTH_KEYS := [6971758, 6710626, 7168370, 6385778, 7168377, 6976878, 6976876, 6387047, 7562608,
                       7299956, 7237494, 6579555]

  lemma MonthKey(i: nat)
    requires i < 12
    ensures Key(MONTH_NAMES[i]) == MONTH_KEYS[i]
  {
  }

  lemma MonthsDistinct()
    ensures Named(MONTH_NAMES) && Distinct(MONTH_NAMES)
  {
    forall i, j | 0 <= i < j < 12 ensures Key(MONTH_NAMES[i]) != Key(MONTH_NAMES[j]) {
      MonthKey(i);
      MonthKey(j);
      KeysDistinct(i, j);
    }
  }

  lemma KeysDistinct(i: nat, j: nat)
    requires i < j < 12
    ensures MONTH_KEYS[i] != MONTH_KEYS[j]
  {
  }

  const WEEKDAY_KEYS := [7566702, 7171950, 7632229, 7824740, 7628917, 6713961, 7561588]

  lemma WeekdayKey(i: nat)
    requires i < 7
    ensures Key(WEEKDAY_NAMES[i]) == WEEKDAY_KEYS[i]
  {
  }

  lemma WeekdaysDistinct()
    ensures Named(WEEKDAY_NAMES) && Distinct(WEEKDAY_NAMES)
  {
    forall i, j | 0 <= i < j < 7 ensures Key(WEEKDAY_NAMES[i]) != Key(WEEKDAY_NAMES[j]) {
      WeekdayKey(i);
      WeekdayKey(j);
      assert WEEKDAY_KEYS[i] != WEEKDAY_KEYS[j];
    }
  }

  lemma MonthNameReads(s: Shown, std: Std, rest: string, f: Fields)
    requires Sound(s) && MonthSet(f) && (std == Month || std == LongMonth)
    ensures ReadMonth(std, DatePiece(s.date, s.wday, std) + rest, f) == Good(f.(month := s.date.month), rest)
  {
    MonthsDistinct();
    ShortDistinct(MONTH_NAMES);
    NameFound(MONTH_NAMES, 0, s.date.month - 1, rest);
    NameFound(Short(MONTH_NAMES), 0, s.date.month - 1, rest);
  }

  lemma WeekdayReads(s: Shown, rest: string, f: Fields)
    requires Sound(s)
    ensures ReadWeekday(WEEKDAY_NAMES, WEEKDAY_NAMES[s.wday] + rest, f) == Good(f, rest)
    ensures ReadWeekday(Short(WEEKDAY_NAMES), WEEKDAY_NAMES[s.wday][..3] + rest, f) == Good(f, rest)
  {
    WeekdaysDistinct();
    ShortDistinct(WEEKDAY_NAMES);
    NameFound(WEEKDAY_NAMES, 0, s.wday, rest);
    NameFound(Short(WEEKDAY_NAMES), 0, s.wday, rest);
  }

  // ----- Months, days and the clock -----

  lemma MonthReads(s: Shown, std: Std, layout: string, rest: string, f: Fields)
    requires Sound(s) && MonthSet(f) && std in {Month, LongMonth, NumMonth, ZeroMonth}
    ensures ReadMonth(std, DatePiece(s.date, s.wday, std) + rest, f) == Good(f.(month := s.date.month), rest)
            <==> ReadsBack(s, std, layout, rest)
  {
    if std == Month || std == LongMonth {
      MonthNameReads(s, std, rest, f);
    } else if std == NumMonth {
      PlainReads(s.date.month, rest);
    } else {
      PaddedReads(s.date.month, rest, true);
    }
  }

  lemma UnderDayReads(s: Shown, rest: string, f: Fields)
    requires Sound(s)
    ensures ReadDay(UnderDay, DatePiece(s.date, s.wday, UnderDay) + rest, f) == Good(f.(day := s.date.day), rest)
            <==> Ends(s.date.day, rest)
  {
    var plain := AppendInt(s.date.day, 0) + rest;
    var v := DatePiece(s.date, s.wday, UnderDay) + rest;
    PlainReads(s.date.day, rest);
    if s.date.day < 10 { assert v == " " + plain && v[1..] == plain; } else { assert v == plain; }
  }

  lemma DayReads(s: Shown, std: Std, layout: string, rest: string, f: Fields)
    requires Sound(s) && std in {Day, UnderDay, ZeroDay, UnderYearDay, ZeroYearDay}
    ensures ReadDay(std, DatePiece(s.date, s.wday, std) + rest, f) == Good(WithComponent(s, std, f), rest)
            <==> ReadsBack(s, std, layout, rest)
  {
    if std == Day {
      PlainReads(s.date.day, rest);
    } else if std == UnderDay {
      UnderDayReads(s, rest, f);
    } else if std == ZeroDay {
      PaddedReads(s.date.day, rest, true);
    } else {
      YearDayReads(s.date, s.wday, rest, f);
    }
  }

  lemma HourReads(s: Shown, std: Std, layout: string, rest: string, f: Fields)
    requires Sound(s) && T.ClockValid(s.clock) && std in {Hour, Hour12, ZeroHour12}
    ensures ReadClock(std, layout, ClockPiece(s.clock, std) + rest, f) == Good(WithComponent(s, std, f), rest)
            <==> ReadsBack(s, std, layout, rest)
  {
    PaddedReads(s.clock.hour, rest, false);
    PlainReads(Hour12Of(s.clock.hour), rest);
    PaddedReads(Hour12Of(s.clock.hour), rest, true);
  }

  lemma MinuteReads(s: Shown, std: Std, layout: string, rest: string, f: Fields)
    requires Sound(s) && T.ClockValid(s.clock) && std in {Minute, ZeroMinute}
    ensures ReadClock(std, layout, ClockPiece(s.clock, std) + rest, f) == Good(WithComponent(s, std, f), rest)
            <==> ReadsBack(s, std, layout, rest)
  {
    PlainReads(s.clock.minute, rest);
    PaddedReads(s.clock.minute, rest, true);
  }

  /** A stray fraction is taken off the text. */
  lemma FractionTaken(layout: string, rest: string, f: Fields)
    ensures var r := OwnFraction(layout, rest, f);
            if StrayFraction(layout, rest) then r.Good? ==> |r.rest| < |rest| else r == Good(f, rest)
  {
  }

  lemma FractionShortens(layout: string, value: string, f: Fields)
    ensures var r := OwnFraction(layout, value, f); r.Good? ==> |r.rest| <= |value|
  {
  }

  lemma SecondReads(s: Shown, fixed: bool, layout: string, rest: string, f: Fields)
    requires Sound(s) && T.ClockValid(s.clock)
    ensures var x := s.clock.second;
            ReadSecond(layout, AppendInt(x, if fixed then 2 else 0) + rest, fixed, f) == Good(f.(sec := x), rest)
            <==> (fixed || Ends(x, rest)) && !StrayFraction(layout, rest)
  {
    var x := s.clock.second;
    var value := AppendInt(x, if fixed then 2 else 0) + rest;
    if fixed { PaddedReads(x, rest, true); } else { PlainReads(x, rest); }
    var n := GetNum(value, fixed).value;
    FractionTaken(layout, rest, f.(sec := n.0));
    FractionShortens(layout, n.1, f.(sec := n.0));
  }

  lemma NoonReads(s: Shown, std: Std, rest: string, f: Fields)
    requires Sound(s) && T.ClockValid(s.clock) && (std == PmUpper || std == PmLower)
    ensures ReadOther(std, 0, ClockPiece(s.clock, std) + rest, f) == Good(WithComponent(s, std, f), rest)
  {
    var text := ClockPiece(s.clock, std);
    assert (text + rest)[..2] == text && (text + rest)[2..] == rest;
    assert "AM"[0] != "PM"[0] && "am"[0] != "pm"[0];
  }

  // ----- Every date and clock piece -----

  predicate Back(s: Shown, std: Std, layout: string, rest: string, f: Fields)
    requires Sound(s) && MonthSet(f) && (IsDatePiece(std) || IsClockPiece(std))
  {
    ReadPiece(std, 0, layout, PieceFor(s, std, 0) + rest, f) == Good(WithComponent(s, std, f), rest)
  }

  lemma MonthBack(s: Shown, std: Std, layout: string, rest: string, f: Fields)
    requires Sound(s) && MonthSet(f) && std in {Month, LongMonth, NumMonth, ZeroMonth}
    ensures Back(s, std, layout, rest, f) <==> ReadsBack(s, std, layout, rest)
  {
    MonthReads(s, std, layout, rest, f);
  }

  lemma DayBack(s: Shown, std: Std, layout: string, rest: string, f: Fields)
    requires Sound(s) && MonthSet(f) && std in {Day, UnderDay, ZeroDay, UnderYearDay, ZeroYearDay}
    ensures Back(s, std, layout, rest, f) <==> ReadsBack(s, std, layout, rest)
  {
    DayReads(s, std, layout, rest, f);
  }

  lemma OtherDateBack(s: Shown, std: Std, layout: string, rest: string, f: Fields)
    requires Sound(s) && MonthSet(f) && std in {Weekday, LongWeekday, Year, LongYear}
    ensures Back(s, std, layout, rest, f) <==> ReadsBack(s, std, layout, rest)
  {
    if std == Weekday || std == LongWeekday {
      WeekdayReads(s, rest, f);
    } else {
      YearReads(s.date.year, rest, f);
      LongYearReads(s.date.year, rest, f);
    }
  }

  lemma DatePieceReads(s: Shown, std: Std, layout: string, rest: string, f: Fields)
    requires Sound(s) && MonthSet(f) && IsDatePiece(std)
    ensures Back(s, std, layout, rest, f) <==> ReadsBack(s, std, layout, rest)
  {
    if std in {Month, LongMonth, NumMonth, ZeroMonth} {
      MonthBack(s, std, layout, rest, f);
    } else if std in {Day, UnderDay, ZeroDay, UnderYearDay, ZeroYearDay} {
      DayBack(s, std, layout, rest, f);
    } else {
      OtherDateBack(s, std, layout, rest, f);
    }
  }

  predicate IsNumber(std: Std) { std in {Hour, Hour12, ZeroHour12, Minute, ZeroMinute, Second, ZeroSecond} }

  lemma ClockDispatch(s: Shown, std: Std, layout: string, value: string, f: Fields)
    requires Sound(s) && MonthSet(f) && IsNumber(std)
    ensures IsClockPiece(std) && PieceFor(s, std, 0) == ClockPiece(s.clock, std)
    ensures ReadPiece(std, 0, layout, value, f) == ReadClock(std, layout, value, f)
  {
  }

  lemma NumberReads(s: Shown, std: Std, layout: string, rest: string, f: Fields)
    requires Sound(s) && T.ClockValid(s.clock) && IsNumber(std)
    ensures ReadClock(std, layout, ClockPiece(s.clock, std) + rest, f) == Good(WithComponent(s, std, f), rest)
            <==> ReadsBack(s, std, layout, rest)
  {
    if std in {Hour, Hour12, ZeroHour12} {
      HourReads(s, std, layout, rest, f);
    } else if std in {Minute, ZeroMinute} {
      MinuteReads(s, std, layout, rest, f);
    } else {
      SecondReads(s, std == ZeroSecond, layout, rest, f);
    }
  }

  lemma NoonBack(s: Shown, std: Std, layout: string, rest: string, f: Fields)
    requires Sound(s) && T.ClockValid(s.clock) && MonthSet(f) && (std == PmUpper || std == PmLower)
    ensures Back(s, std, layout, rest, f)
  {
    NoonReads(s, std, rest, f);
  }

  lemma ClockPieceReads(s: Shown, std: Std, layout: string, rest: string, f: Fields)
    requires Sound(s) && T.ClockValid(s.clock) && MonthSet(f) && IsClockPiece(std)
    ensures Back(s, std, layout, rest, f) <==> ReadsBack(s, std, layout, rest)
  {
    if IsNumber(std) {
      ClockDispatch(s, std, layout, ClockPiece(s.clock, std) + rest, f);
      NumberReads(s, std, layout, rest, f);
    } else {
      NoonBack(s, std, layout, rest, f);
    }
  }

  /** What Format writes for a date or clock piece, Parse reads back as the component, with
      the text after it untouched, exactly when the component fits the piece and the text
      after it does not run on: a day of the year padded with blanks is read back only from
      100 on. */
  lemma PieceReadsExactly(t: T.Time, std: Std, layout: string, rest: string, f: Fields)
    requires MonthSet(f) && (IsDatePiece(std) || IsClockPiece(std))
    ensures Back(ShownOf(t), std, layout, rest, f) <==> ReadsBack(ShownOf(t), std, layout, rest)
  {
    T.ClockInRange(t);
    if IsDatePiece(std) {
      DatePieceReads(ShownOf(t), std, layout, rest, f);
    } else {
      ClockPieceReads(ShownOf(t), std, layout, rest, f);
    }
  }
}
