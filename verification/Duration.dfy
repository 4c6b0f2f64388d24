/**
 Duration.String: the text of a nanosecond count, and a reader that sums the
 parts of such a text, which gives every count back.
 */
module Duration {
  import opened Prelude
  import opened Digits

  // ----- Printing -----

  /** The low n digits of v without the trailing zeros; `printing` says that a
      non-zero digit stands below them. */
  function FracDigits(v: nat, n: nat, printing: bool): string {
    if n == 0 then ""
    else
      var p := printing || v % 10 != 0;
      FracDigits(v / 10, n - 1, p) + if p then [Digit(v % 10)] else ""
  }

  /** v with its low n digits taken off. */
  function Drop(v: nat, n: nat): nat {
    if n == 0 then v else Drop(v / 10, n - 1)
  }

  function Dotted(t: string): string { if t == "" then "" else "." + t }

  function FracText(v: nat, n: nat): string {
    Dotted(FracDigits(v, n, false))
  }

  lemma FracStep(v: nat, n: nat, printing: bool, digits: string)
    requires n > 0
    ensures var p := printing || v % 10 != 0;
            FracDigits(v, n, printing) + digits ==
            FracDigits(v / 10, n - 1, p) + if p then [Digit(v % 10)] + digits else digits
  {
  }

  method FormatFrac(v0: nat, prec: nat) returns (text: string, v: nat)
    ensures text == FracText(v0, prec) && v == Drop(v0, prec)
  {
    var digits, printing := "", false;
    v := v0;
    for i := 0 to prec
      invariant FracDigits(v0, prec, false) == FracDigits(v, prec - i, printing) + digits
      invariant Drop(v0, prec) == Drop(v, prec - i)
      invariant printing <==> digits != ""
    {
      var digit := v % 10;
      FracStep(v, prec - i, printing, digits);
      printing := printing || digit != 0;
      if printing {
        digits := [Digit(digit)] + digits;
      }
      v := v / 10;
    }
    text := if printing then "." + digits else "";
  }

  /** fmtInt: the digits of v, one '0' for zero. */
  method FormatInt(v0: nat) returns (s: string)
    ensures s == Render(v0, 10)
  {
    if v0 == 0 {
      return "0";
    }
    s := "";
    var v := v0;
    while v > 0
      invariant Render(v0, 10) == if v == 0 then s else Render(v, 10) + s
    {
      s, v := [Digit(v % 10)] + s, v / 10;
    }
  }

  const MICRO := "\U{00B5}s"

  function SubSecond(u: nat): string {
    if u < 1000 then Render(u, 10) + "ns"
    else if u < 1_000_000 then Render(Drop(u, 3), 10) + (FracText(u, 3) + MICRO)
    else Render(Drop(u, 6), 10) + (FracText(u, 6) + "ms")
  }

  function Clock(u: nat): string {
    var total := Drop(u, 9);
    var seconds := Render(total % 60, 10) + (FracText(u, 9) + "s");
    var minutes := total / 60;
    if minutes == 0 then seconds
    else
      var parts := Render(minutes % 60, 10) + ("m" + seconds);
      if minutes / 60 == 0 then parts else Render(minutes / 60, 10) + ("h" + parts)
  }

  function Text(d: int): string {
    if d == 0 then "0s"
    else
      var u := if d < 0 then -d else d;
      (if d < 0 then "-" else "") + if u < 1_000_000_000 then SubSecond(u) else Clock(u)
  }

  method DurationString(d: int) returns (out: string)
    ensures out == Text(d)
  {
    if d == 0 {
      return "0s";
    }
    var neg := d < 0;
    var u: nat := if neg then -d else d;
    if u < 1_000_000_000 {
      var prec, unit := 6, "ms";
      if u < 1000 {
        prec, unit := 0, "ns";
      } else if u < 1_000_000 {
        prec, unit := 3, MICRO;
      }
      var frac, v := FormatFrac(u, prec);
      var digits := FormatInt(v);
      out := digits + (frac + unit);
      assert u < 1000 ==> frac == "" && "" + unit == unit;
    } else {
      var frac, v := FormatFrac(u, 9);
      var digits := FormatInt(v % 60);
      out := digits + (frac + "s");
      v := v / 60;
      if v > 0 {
        digits := FormatInt(v % 60);
        out := digits + ("m" + out);
        v := v / 60;
        if v > 0 {
          digits := FormatInt(v);
          out := digits + ("h" + out);
        }
      }
    }
    if neg {
      out := "-" + out;
    } else {
      assert "" + out == out;
    }
  }

  // ----- Reading -----

  /** How many decimal digits the text starts with. */
  function Run(s: string): (n: nat)
    ensures n <= |s|
  {
    if s != "" && '0' <= s[0] <= '9' then 1 + Run(s[1..]) else 0
  }

  predicate StartsWith(s: string, p: string) {
    |p| <= |s| && s[..|p|] == p
  }

  /** Nanoseconds of a unit: its length in the text, a factor, and the power of ten
      below which a fraction of it may go. */
  datatype Unit = Unit(len: nat, factor: nat, places: nat)

  function UnitAt(s: string): Option<Unit> {
    if StartsWith(s, "ns") then Some(Unit(2, 1, 0))
    else if StartsWith(s, MICRO) then Some(Unit(2, 1000, 3))
    else if StartsWith(s, "ms") then Some(Unit(2, 1_000_000, 6))
    else if StartsWith(s, "s") then Some(Unit(1, 1_000_000_000, 9))
    else if StartsWith(s, "m") then Some(Unit(1, 60_000_000_000, 0))
    else if StartsWith(s, "h") then Some(Unit(1, 3_600_000_000_000, 0))
    else None
  }

  datatype Part = Part(whole: string, frac: string, unit: Unit)

  /** How many digits follow a point at the front of the text. */
  function FracRun(s: string): (k: nat)
    ensures k > 0 ==> 1 + k <= |s|
  {
    if s != "" && s[0] == '.' then Run(s[1..]) else 0
  }

  /** The parts `digits[.digits]unit` that the text consists of. */
  function Parts(s: string): Option<seq<Part>>
    decreases |s|
  {
    if s == "" then Some([])
    else
      var n := Run(s);
      var k := FracRun(s[n..]);
      var frac := if k > 0 then s[n..][1..1 + k] else "";
      var after := if k > 0 then s[n..][1 + k..] else s[n..];
      match UnitAt(after)
      case None => None
      case Some(u) =>
        if n == 0 || k > u.places then None else Before(Part(s[..n], frac, u), Parts(after[u.len..]))
  }

  function Before(p: Part, r: Option<seq<Part>>): Option<seq<Part>> {
    if r.Some? then Some([p] + r.value) else None
  }

  function PartValue(p: Part): int
    requires |p.frac| <= p.unit.places
  {
    ValueOf(p.whole, 10) * p.unit.factor + ValueOf(p.frac, 10) * Pow(10, p.unit.places - |p.frac|)
  }

  /** The sum of the values of the parts. */
  function Total(ps: seq<Part>): int {
    if ps == [] then 0
    else (if |ps[0].frac| <= ps[0].unit.places then PartValue(ps[0]) else 0) + Total(ps[1..])
  }

  function Read(s: string): Option<int> {
    var neg := s != "" && s[0] == '-';
    match Parts(if neg then s[1..] else s)
    case None => None
    case Some(ps) => Some(if neg then -Total(ps) else Total(ps))
  }

  // ----- The fraction is exact -----

  lemma {:induction false} FracShape(v: nat, n: nat, printing: bool)
    ensures var t := FracDigits(v, n, printing);
            && AllDigits(t, 10) && |t| <= n && (printing ==> |t| == n)
            && (!printing && t != "" ==> t[|t| - 1] != '0')
  {
    if n > 0 {
      FracShape(v / 10, n - 1, printing || v % 10 != 0);
      DigitOf(v % 10);
    }
  }

  lemma TenTimes(a: int, p: int, b: int, q: int)
    ensures (a * p + b * q) * 10 == a * (10 * p) + b * (10 * q)
  {
    assert (a * p + b * q) * 10 == a * p * 10 + b * q * 10;
    assert a * p * 10 == a * (10 * p) && b * q * 10 == b * (10 * q);
  }

  lemma PrintedDigit(v: nat, a: int, p: int, b: int)
    requires v / 10 == a * p + b * 1
    ensures v == a * (10 * p) + (b * 10 + v % 10) * 1
  {
    TenTimes(a, p, b, 1);
    assert v == v / 10 * 10 + v % 10;
  }

  lemma DroppedZero(v: nat, a: int, p: int, b: int, q: int)
    requires v % 10 == 0 && v / 10 == a * p + b * q
    ensures v == a * (10 * p) + b * (10 * q)
  {
    TenTimes(a, p, b, q);
    assert v == v / 10 * 10;
  }

  /** The digits kept, with the zeros dropped, and the quotient make up v again. */
  lemma {:induction false} FracExact(v: nat, n: nat, printing: bool)
    ensures var t := FracDigits(v, n, printing);
            && |t| <= n && v == Drop(v, n) * Pow(10, n) + ValueOf(t, 10) * Pow(10, n - |t|)
  {
    FracShape(v, n, printing);
    if n > 0 {
      var p := printing || v % 10 != 0;
      var t' := FracDigits(v / 10, n - 1, p);
      FracShape(v / 10, n - 1, p);
      FracExact(v / 10, n - 1, p);
      if p {
        DigitOf(v % 10);
        ValueOfSnoc(t', Digit(v % 10), 10);
        PrintedDigit(v, Drop(v / 10, n - 1), Pow(10, n - 1), ValueOf(t', 10));
      } else {
        assert t' + "" == t';
        DroppedZero(v, Drop(v / 10, n - 1), Pow(10, n - 1), ValueOf(t', 10), Pow(10, n - 1 - |t'|));
      }
    }
  }

  /** No printed fraction ends in 0. */
  lemma FractionEndsNonZero(v: nat, n: nat)
    ensures var f := FracText(v, n); f != "" ==> |f| > 1 && f[|f| - 1] != '0'
  {
    FracShape(v, n, false);
  }

  // ----- Every part is read back -----

  predicate NoDigit(s: string) { s == "" || !('0' <= s[0] <= '9') }

  lemma {:induction false} RunOfDigits(t: string, rest: string)
    requires AllDigits(t, 10) && NoDigit(rest)
    ensures Run(t + rest) == |t|
  {
    if t == "" {
      assert t + rest == rest;
    } else {
      assert (t + rest)[1..] == t[1..] + rest;
      assert 0 <= DigitValue(t[0]) < 10;
      RunOfDigits(t[1..], rest);
    }
  }

  /** Text of a unit that can stand after digits. */
  predicate UnitText(after: string, u: Unit) {
    UnitAt(after) == Some(u) && NoDigit(after) && after[0] != '.' && u.len <= |after|
  }

  lemma FracRead(t: string, after: string)
    requires AllDigits(t, 10) && NoDigit(after) && after != "" && after[0] != '.'
    ensures var rest := Dotted(t) + after;
            && FracRun(rest) == |t| && NoDigit(rest)
            && (if |t| > 0 then rest[1..1 + |t|] else "") == t
            && (if |t| > 0 then rest[1 + |t|..] else rest) == after
  {
    var rest := Dotted(t) + after;
    if t == "" {
      assert rest == after;
    } else {
      assert rest[1..] == t + after;
      RunOfDigits(t, after);
    }
  }

  /** A part `w[.t]unit` in front of the rest is read as that part. */
  lemma PartsRead(w: string, t: string, after: string, u: Unit)
    requires w != "" && AllDigits(w, 10) && AllDigits(t, 10) && |t| <= u.places && UnitText(after, u)
    ensures Parts(w + (Dotted(t) + after)) == Before(Part(w, t, u), Parts(after[u.len..]))
  {
    var rest := Dotted(t) + after;
    FracRead(t, after);
    RunOfDigits(w, rest);
    assert (w + rest)[..|w|] == w && (w + rest)[|w|..] == rest;
  }

  lemma RenderDigits(v: nat)
    ensures Render(v, 10) != "" && AllDigits(Render(v, 10), 10)
  {
    RenderReads(v, 10);
  }

  lemma WholeRead(v: nat, after: string, u: Unit)
    requires UnitText(after, u)
    ensures Parts(Render(v, 10) + after) == Before(Part(Render(v, 10), "", u), Parts(after[u.len..]))
  {
    RenderDigits(v);
    PartsRead(Render(v, 10), "", after, u);
    assert Dotted("") + after == after;
  }

  lemma WholeValue(v: nat, u: Unit)
    ensures PartValue(Part(Render(v, 10), "", u)) == v * u.factor
  {
    RenderReads(v, 10);
    assert 0 * Pow(10, u.places) == 0;
  }

  /** A last part with a fraction. */
  lemma LastRead(w: nat, v: nat, n: nat, unit: string, u: Unit)
    requires UnitText(unit, u) && u.len == |unit| && u.places == n
    ensures Parts(Render(w, 10) + (FracText(v, n) + unit)) ==
            Some([Part(Render(w, 10), FracDigits(v, n, false), u)])
  {
    RenderDigits(w);
    FracShape(v, n, false);
    LastReadOf(Render(w, 10), FracDigits(v, n, false), unit, u);
  }

  lemma LastReadOf(w: string, t: string, unit: string, u: Unit)
    requires w != "" && AllDigits(w, 10) && AllDigits(t, 10) && |t| <= u.places
    requires UnitText(unit, u) && u.len == |unit|
    ensures Parts(w + (Dotted(t) + unit)) == Some([Part(w, t, u)])
  {
    PartsRead(w, t, unit, u);
    NoMoreParts(unit, Part(w, t, u));
  }

  lemma NoMoreParts(unit: string, p: Part)
    ensures Before(p, Parts(unit[|unit|..])) == Some([p])
  {
    assert unit[|unit|..] == "";
    assert Parts("") == Some([]);
    assert [p] + [] == [p];
  }

  lemma LastValue(w: nat, v: nat, n: nat, u: Unit)
    requires u.places == n
    ensures |FracDigits(v, n, false)| <= n
    ensures PartValue(Part(Render(w, 10), FracDigits(v, n, false), u)) ==
            w * u.factor + (v - Drop(v, n) * Pow(10, n))
  {
    RenderReads(w, 10);
    FracExact(v, n, false);
  }

  const NANO := Unit(2, 1, 0)
  const MICROS := Unit(2, 1000, 3)
  const MILLI := Unit(2, 1_000_000, 6)
  const SECOND := Unit(1, 1_000_000_000, 9)
  const MINUTE := Unit(1, 60_000_000_000, 0)
  const HOUR := Unit(1, 3_600_000_000_000, 0)

  lemma UnitTexts()
    ensures UnitText("ns", NANO) && UnitText(MICRO, MICROS) && UnitText("ms", MILLI) && UnitText("s", SECOND)
  {
    assert "ns"[..2] == "ns" && "ms"[..2] == "ms" && "s"[..1] == "s" && MICRO[..2] == MICRO;
    assert MICRO[0] != 'n' && MICRO[..2][0] == MICRO[0] && "ns"[0] == 'n';
  }

  lemma LongUnits(rest: string)
    requires rest != "" && rest[0] != 's'
    ensures UnitText("m" + rest, MINUTE) && ("m" + rest)[1..] == rest
    ensures UnitText("h" + rest, HOUR) && ("h" + rest)[1..] == rest
  {
    var m, h := "m" + rest, "h" + rest;
    assert m[..1] == "m" && h[..1] == "h";
    assert m[..2][0] == 'm' && m[..2][1] == rest[0];
    assert h[..2][0] == 'h';
    assert "ns"[0] == 'n' && MICRO[0] != 'm' && MICRO[0] != 'h' && "ms"[1] == 's' && "ms"[0] == 'm';
    assert m[..1][0] == 'm' && h[..1][0] == 'h';
  }

  lemma DropThree(v: nat)
    ensures Drop(v, 3) == v / 1000 && Pow(10, 3) == 1000
  {
    assert Drop(v, 3) == Drop(v / 10, 2) == Drop(v / 10 / 10, 1) == Drop(v / 10 / 10 / 10, 0);
    assert v / 10 / 10 / 10 == v / 1000;
  }

  lemma {:induction false} DropMore(v: nat, m: nat, n: nat)
    ensures Drop(v, m + n) == Drop(Drop(v, m), n) && Pow(10, m + n) == Pow(10, m) * Pow(10, n)
    decreases m
  {
    if m > 0 {
      DropMore(v / 10, m - 1, n);
      assert 10 * (Pow(10, m - 1) * Pow(10, n)) == 10 * Pow(10, m - 1) * Pow(10, n);
    }
  }

  lemma Drops(v: nat)
    ensures Drop(v, 3) == v / 1000 && Pow(10, 3) == 1000
    ensures Drop(v, 6) == v / 1_000_000 && Pow(10, 6) == 1_000_000
    ensures Drop(v, 9) == v / 1_000_000_000 && Pow(10, 9) == 1_000_000_000
  {
    DropThree(v);
    DropThree(v / 1000);
    DropThree(v / 1_000_000);
    DropMore(v, 3, 3);
    DropMore(v, 6, 3);
  }

  lemma TotalOne(p: Part)
    requires |p.frac| <= p.unit.places
    ensures Total([p]) == PartValue(p)
  {
    assert [p][1..] == [];
  }

  lemma TotalBefore(p: Part, ps: seq<Part>)
    requires |p.frac| <= p.unit.places
    ensures Total([p] + ps) == PartValue(p) + Total(ps)
  {
    assert ([p] + ps)[1..] == ps;
  }

  /** The text has parts, and they sum to u. */
  ghost predicate SumsTo(s: string, u: int) {
    Parts(s).Some? && Total(Parts(s).value) == u
  }

  lemma LastSums(w: nat, v: nat, n: nat, unit: string, u: Unit)
    requires UnitText(unit, u) && u.len == |unit| && u.places == n
    ensures SumsTo(Render(w, 10) + (FracText(v, n) + unit), w * u.factor + (v - Drop(v, n) * Pow(10, n)))
  {
    LastRead(w, v, n, unit, u);
    LastValue(w, v, n, u);
    TotalOne(Part(Render(w, 10), FracDigits(v, n, false), u));
  }

  lemma WholeSums(v: nat, after: string, u: Unit, x: int)
    requires UnitText(after, u) && SumsTo(after[u.len..], x)
    ensures SumsTo(Render(v, 10) + after, v * u.factor + x)
  {
    WholeRead(v, after, u);
    WholeValue(v, u);
    TotalBefore(Part(Render(v, 10), "", u), Parts(after[u.len..]).value);
  }

  lemma SubSecondSums(u: nat)
    requires 0 < u < 1_000_000_000
    ensures SumsTo(SubSecond(u), u)
  {
    UnitTexts();
    Drops(u);
    if u < 1000 {
      assert "ns"[2..] == "" && Parts("") == Some([]);
      WholeSums(u, "ns", NANO, 0);
    } else if u < 1_000_000 {
      LastSums(Drop(u, 3), u, 3, MICRO, MICROS);
    } else {
      LastSums(Drop(u, 6), u, 6, "ms", MILLI);
    }
  }

  /** A text that starts with a rendered number starts with a digit. */
  lemma StartsWithDigit(v: nat, rest: string)
    ensures var s := Render(v, 10) + rest; s != "" && '0' <= s[0] <= '9'
  {
    RenderReads(v, 10);
    assert 0 <= DigitValue(Render(v, 10)[0]) < 10;
  }

  function SecondsText(u: nat): string { Render(Drop(u, 9) % 60, 10) + (FracText(u, 9) + "s") }

  function MinutesText(u: nat): string { Render(Drop(u, 9) / 60 % 60, 10) + ("m" + SecondsText(u)) }

  function HoursText(u: nat): string { Render(Drop(u, 9) / 60 / 60, 10) + ("h" + MinutesText(u)) }

  lemma SecondsSum(u: nat)
    ensures SumsTo(SecondsText(u), Drop(u, 9) % 60 * 1_000_000_000 + (u - Drop(u, 9) * 1_000_000_000))
  {
    Drops(u);
    UnitTexts();
    LastSums(Drop(u, 9) % 60, u, 9, "s", SECOND);
  }

  lemma MinutesSum(u: nat, x: int)
    requires SumsTo(SecondsText(u), x)
    ensures SumsTo(MinutesText(u), Drop(u, 9) / 60 % 60 * 60_000_000_000 + x)
  {
    StartsWithDigit(Drop(u, 9) % 60, FracText(u, 9) + "s");
    LongUnits(SecondsText(u));
    WholeSums(Drop(u, 9) / 60 % 60, "m" + SecondsText(u), MINUTE, x);
  }

  lemma HoursSum(u: nat, x: int)
    requires SumsTo(MinutesText(u), x)
    ensures SumsTo(HoursText(u), Drop(u, 9) / 60 / 60 * 3_600_000_000_000 + x)
  {
    StartsWithDigit(Drop(u, 9) / 60 % 60, "m" + SecondsText(u));
    LongUnits(MinutesText(u));
    WholeSums(Drop(u, 9) / 60 / 60, "h" + MinutesText(u), HOUR, x);
  }

  lemma SixtyAndSixty(t: nat)
    ensures t == t / 60 / 60 * 3600 + t / 60 % 60 * 60 + t % 60
    ensures t / 60 == t / 60 / 60 * 60 + t / 60 % 60
  {
  }

  lemma ClockSums(u: nat)
    ensures SumsTo(Clock(u), u)
  {
    var t := Drop(u, 9);
    var x := t % 60 * 1_000_000_000 + (u - t * 1_000_000_000);
    var y := t / 60 % 60 * 60_000_000_000 + x;
    SecondsSum(u);
    MinutesSum(u, x);
    HoursSum(u, y);
    SixtyAndSixty(t);
    assert Clock(u) == if t / 60 == 0 then SecondsText(u) else if t / 60 / 60 == 0 then MinutesText(u)
                       else HoursText(u);
  }

  lemma NotNegative(u: nat)
    ensures SubSecond(u) != "" && '0' <= SubSecond(u)[0] <= '9'
    ensures Clock(u) != "" && '0' <= Clock(u)[0] <= '9'
  {
    StartsWithDigit(u, "ns");
    StartsWithDigit(Drop(u, 3), FracText(u, 3) + MICRO);
    StartsWithDigit(Drop(u, 6), FracText(u, 6) + "ms");
    var total := Drop(u, 9);
    var seconds := Render(total % 60, 10) + (FracText(u, 9) + "s");
    StartsWithDigit(total % 60, FracText(u, 9) + "s");
    StartsWithDigit(total / 60 % 60, "m" + seconds);
    StartsWithDigit(total / 60 / 60, "h" + (Render(total / 60 % 60, 10) + ("m" + seconds)));
  }

  lemma ZeroText()
    ensures SumsTo("0s", 0)
  {
    RenderReads(0, 10);
    UnitTexts();
    assert "s"[1..] == "" && Parts("") == Some([]) && "0" + "s" == "0s";
    WholeSums(0, "s", SECOND, 0);
  }

  lemma ReadSigned(s: string, u: int)
    requires SumsTo(s, u) && s != "" && '0' <= s[0] <= '9'
    ensures Read(s) == Some(u) && Read("-" + s) == Some(-u)
  {
    assert ("-" + s)[1..] == s;
  }

  /** The parts printed for a count sum to exactly that count, for every integer. */
  lemma TextReadsBack(d: int)
    ensures Read(Text(d)) == Some(d)
  {
    if d == 0 {
      ZeroText();
      ReadSigned("0s", 0);
    } else {
      var u: nat := if d < 0 then -d else d;
      var s := if u < 1_000_000_000 then SubSecond(u) else Clock(u);
      assert SumsTo(s, u) by {
        if u < 1_000_000_000 { SubSecondSums(u); } else { ClockSums(u); }
      }
      NotNegative(u);
      ReadSigned(s, u);
      assert "" + s == s && Text(d) == if d < 0 then "-" + s else s;
    }
  }

  /** So no two counts print alike. */
  lemma TextIsInjective(a: int, b: int)
    requires Text(a) == Text(b)
    ensures a == b
  {
    TextReadsBack(a);
    TextReadsBack(b);
  }
}
