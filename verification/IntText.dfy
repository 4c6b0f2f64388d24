/** Integers as text: FormatInt, and ParseInt with its syntax and range errors. */
module IntText {
  import opened Prelude
  import opened Digits

  // ----- Formatting -----

  function FormatInt(i: int, base: int): string
    requires IsBase(base)
  {
    (if i < 0 then "-" else "") + Render(if i < 0 then -i else i, base)
  }

  /** Peeling the last digit off a rendering. */
  lemma RenderStep(n: nat, base: int, text: string)
    requires IsBase(base) && n > 0
    ensures Render(n, base) + text ==
            (if n / base == 0 then [Digit(n % base)] + text
             else Render(n / base, base) + ([Digit(n % base)] + text))
    ensures 0 <= n / base < n
  {
    if n < base {
      SmallDivides(n, base);
    } else {
      DivideDown(n, base);
    }
  }

  lemma SmallDivides(n: nat, base: int)
    requires 0 <= n < base
    ensures n / base == 0 && n % base == n
  {
  }

  method Format(i: int, base: int) returns (text: string)
    requires IsBase(base)
    ensures text == FormatInt(i, base)
  {
    if i == 0 {
      return "0";
    }
    var neg := i < 0;
    var n: nat := if neg then -i else i;
    text := "";
    while n > 0
      invariant Render(if neg then -i else i, base) == if n == 0 then text else Render(n, base) + text
    {
      RenderStep(n, base, text);
      text := [Digit(n % base)] + text;
      n := n / base;
    }
    if neg {
      text := "-" + text;
    } else {
      assert "" + text == text;
    }
  }

  // ----- Parsing -----

  datatype Parsed = Value(v: int) | SyntaxError | RangeError

  /** Inclusive bounds; a bit size of 0 is the 64-bit word. */
  function Bounds(bitSize: nat, signed: bool): (int, int) {
    var bits := if bitSize == 0 then 64 else bitSize;
    if signed then (-Pow(2, bits - 1), Pow(2, bits - 1) - 1) else (0, Pow(2, bits) - 1)
  }

  function InBounds(v: int, bitSize: nat, signed: bool): Parsed {
    var (lo, hi) := Bounds(bitSize, signed);
    if v < lo || v > hi then RangeError else Value(v)
  }

  predicate HasUnderscore(s: string) { '_' in s }

  predicate DoubleUnderscore(s: string) {
    exists i :: 0 <= i < |s| - 1 && s[i] == '_' && s[i + 1] == '_'
  }

  function NoUnderscores(s: string): string {
    if s == "" then "" else (if s[0] == '_' then "" else [s[0]]) + NoUnderscores(s[1..])
  }

  predicate Head(s: string, letter: char) {
    |s| >= 2 && s[0] == '0' && (s[1] == letter || s[1] as int == letter as int - 32)
  }

  /** The base that a literal's own prefix names, and what follows the prefix. */
  function InferBase(s: string): (int, string) {
    if Head(s, 'x') then (16, s[2..])
    else if Head(s, 'o') then (8, s[2..])
    else if Head(s, 'b') then (2, s[2..])
    else if s != "" && s[0] == '0' then (8, s)
    else (10, s)
  }

  /** The digits without their separators; None where one is out of place. */
  function Strip(s: string, base0: bool): Option<string> {
    if !HasUnderscore(s) then Some(s)
    else if !base0 || s[0] == '_' || s[|s| - 1] == '_' || DoubleUnderscore(s) then None
    else Some(NoUnderscores(s))
  }

  /** `int(s, base)` refuses a base out of 2..36. */
  function DigitsValue(s: string, base: int, neg: bool, bitSize: nat, signed: bool): Parsed {
    if s == "" || !AllDigits(s, base) || !IsBase(base) then SyntaxError
    else InBounds(if neg then -ValueOf(s, base) else ValueOf(s, base), bitSize, signed)
  }

  /** The digits after sign and prefix. */
  function ParseDigits(s: string, base: int, base0: bool, neg: bool, bitSize: nat, signed: bool): Parsed {
    match Strip(s, base0)
    case None => SyntaxError
    case Some(ds) => DigitsValue(ds, base, neg, bitSize, signed)
  }

  function ParseUnsigned(s: string, base: int, neg: bool, bitSize: nat, signed: bool): Parsed {
    if s == "" then SyntaxError
    else if base == 0 then
      var (b, rest) := InferBase(s);
      ParseDigits(rest, b, true, neg, bitSize, signed)
    else ParseDigits(s, base, false, neg, bitSize, signed)
  }

  function ParseInt(text: string, base: int, bitSize: nat, signed: bool): Parsed {
    if text == "" then SyntaxError
    else if text[0] == '+' then ParseUnsigned(text[1..], base, false, bitSize, signed)
    else if text[0] == '-' then
      if !signed then SyntaxError else ParseUnsigned(text[1..], base, true, bitSize, signed)
    else ParseUnsigned(text, base, false, bitSize, signed)
  }

  // ----- What is parsed -----

  predicate Sign(sign: string, signed: bool) {
    sign == "" || sign == "+" || (sign == "-" && signed)
  }

  /** The text is an optional sign and at least one digit of the base. */
  ghost predicate IsNumeral(text: string, base: int, signed: bool) {
    exists sign: string, ds: string :: Numeral(text, sign, ds, base, signed)
  }

  predicate Numeral(text: string, sign: string, ds: string, base: int, signed: bool) {
    text == sign + ds && Sign(sign, signed) && ds != "" && AllDigits(ds, base)
  }

  lemma DigitsOnly(ds: string, base: int)
    requires AllDigits(ds, base)
    ensures !HasUnderscore(ds) && (ds != "" ==> ds[0] != '+' && ds[0] != '-')
  {
    assert DigitValue('_') == -1 && DigitValue('+') == -1 && DigitValue('-') == -1;
    forall k | 0 <= k < |ds| ensures ds[k] != '_' {
      assert 0 <= DigitValue(ds[k]);
    }
    assert ds != "" ==> 0 <= DigitValue(ds[0]);
  }

  /** A numeral of an explicit base is a value in bounds or a range error, by its value. */
  lemma NumeralIsParsed(text: string, sign: string, ds: string, base: int, bitSize: nat, signed: bool)
    requires IsBase(base) && Numeral(text, sign, ds, base, signed)
    ensures ParseInt(text, base, bitSize, signed) ==
            InBounds(if sign == "-" then -ValueOf(ds, base) else ValueOf(ds, base), bitSize, signed)
  {
    DigitsOnly(ds, base);
    if sign == "" {
      assert text == ds;
    } else {
      assert text[0] == sign[0] && text[1..] == ds;
    }
  }

  /** Every other text is a syntax error, and no numeral is one. */
  lemma SyntaxErrorExactly(text: string, base: int, bitSize: nat, signed: bool)
    requires base != 0
    ensures ParseInt(text, base, bitSize, signed) == SyntaxError <==>
            !(IsBase(base) && IsNumeral(text, base, signed))
  {
    if IsBase(base) && IsNumeral(text, base, signed) {
      var sign: string, ds: string :| Numeral(text, sign, ds, base, signed);
      NumeralIsParsed(text, sign, ds, base, bitSize, signed);
    }
    if ParseInt(text, base, bitSize, signed) != SyntaxError {
      var signedText := text[0] == '+' || text[0] == '-';
      var sign := if signedText then text[..1] else "";
      var ds := if signedText then text[1..] else text;
      assert text == sign + ds;
      assert signedText ==> sign == [text[0]];
      assert Numeral(text, sign, ds, base, signed);
    }
  }

  lemma FormatIsNumeral(i: int, base: int, signed: bool)
    requires IsBase(base) && (signed || i >= 0)
    ensures var ds := Render(if i < 0 then -i else i, base);
            && Numeral(FormatInt(i, base), if i < 0 then "-" else "", ds, base, signed)
            && ValueOf(ds, base) == if i < 0 then -i else i
  {
    RenderReads(if i < 0 then -i else i, base);
  }

  /** Parsing a formatted integer gives it back when it fits the bit size, and a range
      error when it does not. */
  lemma FormatParses(i: int, base: int, bitSize: nat, signed: bool)
    requires IsBase(base) && (signed || i >= 0)
    ensures ParseInt(FormatInt(i, base), base, bitSize, signed) == InBounds(i, bitSize, signed)
  {
    FormatIsNumeral(i, base, signed);
    NumeralIsParsed(FormatInt(i, base), if i < 0 then "-" else "", Render(if i < 0 then -i else i, base),
                    base, bitSize, signed);
  }

  /** The round trip: every value within the bounds, in every base. */
  lemma RoundTrip(i: int, base: int, bitSize: nat, signed: bool)
    requires IsBase(base) && Bounds(bitSize, signed).0 <= i <= Bounds(bitSize, signed).1
    ensures ParseInt(FormatInt(i, base), base, bitSize, signed) == Value(i)
  {
    FormatParses(i, base, bitSize, signed);
  }

  lemma InferDecimal(ds: string)
    requires AllDigits(ds, 10) && ds != "" && (|ds| > 1 ==> ds[0] != '0')
    ensures InferBase(ds) == (if ds == "0" then 8 else 10, ds)
  {
    assert |ds| == 1 && ds[0] == '0' ==> ds == "0";
  }

  lemma ZeroReads(base: int)
    requires IsBase(base)
    ensures AllDigits("0", base) && ValueOf("0", base) == 0
  {
    assert ("0")[..0] == "";
  }

  /** Decimal text also reads back when the base is left to be inferred. */
  lemma RoundTripInferred(i: int, bitSize: nat, signed: bool)
    requires Bounds(bitSize, signed).0 <= i <= Bounds(bitSize, signed).1
    ensures ParseInt(FormatInt(i, 10), 0, bitSize, signed) == Value(i)
  {
    var n: nat := if i < 0 then -i else i;
    var ds := Render(n, 10);
    RenderReads(n, 10);
    DigitsOnly(ds, 10);
    InferDecimal(ds);
    ZeroReads(8);
    ParseDecimal(ds, n, i < 0, bitSize, signed);
    if i < 0 {
      assert FormatInt(i, 10)[1..] == ds;
    } else {
      assert FormatInt(i, 10) == ds;
    }
  }

  lemma ParseDecimal(ds: string, n: int, neg: bool, bitSize: nat, signed: bool)
    requires AllDigits(ds, 10) && ds != "" && !HasUnderscore(ds)
    requires (|ds| > 1 ==> ds[0] != '0') && ValueOf(ds, 10) == n
    ensures ParseUnsigned(ds, 0, neg, bitSize, signed) == InBounds(if neg then -n else n, bitSize, signed)
  {
    InferDecimal(ds);
    if ds == "0" {
      ZeroReads(8);
      ZeroReads(10);
    }
  }

  function BaseLetter(base: int): char {
    if base == 16 then 'x' else if base == 8 then 'o' else 'b'
  }

  /** A zero and the letter of the base, in either case. */
  predicate IsPrefix(prefix: string, base: int) {
    (base == 16 || base == 8 || base == 2) && |prefix| == 2 && Head(prefix, BaseLetter(base))
  }

  lemma PrefixRead(prefix: string, rest: string, base: int)
    requires IsPrefix(prefix, base)
    ensures InferBase(prefix + rest) == (base, rest)
    ensures prefix + rest != "" && (prefix + rest)[0] == '0'
  {
    assert (prefix + rest)[2..] == rest;
    assert (prefix + rest)[0] == prefix[0] && (prefix + rest)[1] == prefix[1];
  }

  /** Taking the sign off. */
  lemma SignRead(sign: string, s: string, base: int, bitSize: nat, signed: bool)
    requires Sign(sign, signed) && s != "" && s[0] != '+' && s[0] != '-'
    ensures ParseInt(sign + s, base, bitSize, signed) == ParseUnsigned(s, base, sign == "-", bitSize, signed)
  {
    if sign == "" {
      assert sign + s == s;
    } else {
      assert (sign + s)[0] == sign[0] && (sign + s)[1..] == s;
    }
  }

  /** A prefix picks the base, after any sign: what follows 0x is read as hexadecimal, and
      so on. */
  lemma PrefixPicksBase(sign: string, prefix: string, ds: string, base: int, bitSize: nat, signed: bool)
    requires Sign(sign, signed) && IsPrefix(prefix, base)
    requires ds != "" && !HasUnderscore(ds) && ds[0] != '+' && ds[0] != '-'
    ensures ParseInt(sign + (prefix + ds), 0, bitSize, signed) == ParseInt(sign + ds, base, bitSize, signed)
  {
    PrefixRead(prefix, ds, base);
    SignRead(sign, prefix + ds, 0, bitSize, signed);
    SignRead(sign, ds, base, bitSize, signed);
  }

  lemma {:induction false} NoneLeft(s: string)
    ensures !HasUnderscore(NoUnderscores(s))
    ensures !HasUnderscore(s) ==> NoUnderscores(s) == s
    ensures s != "" && s[0] != '_' ==> NoUnderscores(s) != "" && NoUnderscores(s)[0] == s[0]
  {
    if s != "" { NoneLeft(s[1..]); }
  }

  lemma HeadStays(s: string, letter: char)
    requires Head(s, letter) && 'b' <= letter <= 'x'
    ensures Head(NoUnderscores(s), letter) && NoUnderscores(s)[1] == s[1]
    ensures NoUnderscores(s)[2..] == NoUnderscores(s[2..])
  {
    assert s[1..][1..] == s[2..];
    assert NoUnderscores(s[1..]) == [s[1]] + NoUnderscores(s[2..]);
    assert NoUnderscores(s) == [s[0]] + NoUnderscores(s[1..]);
  }

  /** Separators in an accepted literal do not change how its base is inferred. */
  lemma InferWithoutSeparators(s: string)
    requires s != ""
    requires var (b, rest) := InferBase(s);
             rest != "" && rest[0] != '_' && AllDigits(NoUnderscores(rest), b)
    ensures InferBase(NoUnderscores(s)) == (InferBase(s).0, NoUnderscores(InferBase(s).1))
  {
    NoneLeft(s);
    var t := NoUnderscores(s);
    if Head(s, 'x') { HeadStays(s, 'x'); }
    else if Head(s, 'o') { HeadStays(s, 'o'); }
    else if Head(s, 'b') { HeadStays(s, 'b'); }
    else if s[0] == '0' && |t| > 1 {
      assert 0 <= DigitValue(t[1]) < 8;
    }
  }

  lemma StripsToBare(s: string)
    requires Strip(s, true).Some?
    ensures Strip(s, true) == Some(NoUnderscores(s)) && Strip(NoUnderscores(s), true) == Some(NoUnderscores(s))
    ensures s != "" ==> s[0] != '_'
  {
    NoneLeft(s);
    assert !HasUnderscore(s) && s != "" ==> s[0] in s;
  }

  lemma DigitsWithoutSeparators(s: string, base: int, neg: bool, bitSize: nat, signed: bool)
    requires ParseDigits(s, base, true, neg, bitSize, signed) != SyntaxError
    ensures s != "" && s[0] != '_' && AllDigits(NoUnderscores(s), base)
    ensures ParseDigits(NoUnderscores(s), base, true, neg, bitSize, signed)
            == ParseDigits(s, base, true, neg, bitSize, signed)
  {
    StripsToBare(s);
  }

  lemma UnsignedWithoutSeparators(s: string, neg: bool, bitSize: nat, signed: bool)
    requires ParseUnsigned(s, 0, neg, bitSize, signed) != SyntaxError
    ensures s != "" && NoUnderscores(s) != ""
    ensures ParseUnsigned(NoUnderscores(s), 0, neg, bitSize, signed) == ParseUnsigned(s, 0, neg, bitSize, signed)
    ensures s[0] != '_'
  {
    var (b, rest) := InferBase(s);
    DigitsWithoutSeparators(rest, b, neg, bitSize, signed);
    NoneLeft(s);
    InferWithoutSeparators(s);
  }

  /** In a literal that is accepted, the separators carry no meaning: dropping them all
      leaves the same value or the same range error. */
  lemma SeparatorsAreIgnored(text: string, bitSize: nat, signed: bool)
    requires ParseInt(text, 0, bitSize, signed) != SyntaxError
    ensures ParseInt(NoUnderscores(text), 0, bitSize, signed) == ParseInt(text, 0, bitSize, signed)
  {
    if text[0] == '+' || text[0] == '-' {
      UnsignedWithoutSeparators(text[1..], text[0] == '-', bitSize, signed);
      assert NoUnderscores(text)[1..] == NoUnderscores(text[1..]);
    } else {
      UnsignedWithoutSeparators(text, false, bitSize, signed);
      NoneLeft(text);
    }
  }

  /** A separator straight after a base prefix is refused, whatever the sign and the case
      of the letter and whatever follows. */
  lemma NoSeparatorAfterPrefix(sign: string, prefix: string, rest: string, base: int, bitSize: nat, signed: bool)
    requires Sign(sign, signed) && IsPrefix(prefix, base)
    ensures ParseInt(sign + (prefix + ("_" + rest)), 0, bitSize, signed) == SyntaxError
  {
    PrefixRead(prefix, "_" + rest, base);
    SignRead(sign, prefix + ("_" + rest), 0, bitSize, signed);
    assert ("_" + rest)[0] == '_';
  }

  // ----- Against Go's rule -----

  // The section "Integer literals" of the Go Programming Language Specification: an
  // underscore may stand after a base prefix or between successive digits. A sign is
  // admitted on signed integers only.

  predicate GoDigit(c: char, base: int) { 0 <= DigitValue(c) < base }

  predicate GoDigits(s: string, from: nat, base: int) {
    forall i :: from <= i < |s| ==> s[i] == '_' || GoDigit(s[i], base)
  }

  /** Every underscore from `from` on follows a digit or the prefix, and a digit follows it. */
  predicate Separates(s: string, from: nat, base: int) {
    forall i :: from <= i < |s| ==> SeparatorFits(s, from, base, i)
  }

  predicate SeparatorFits(s: string, from: nat, base: int, i: nat)
    requires from <= i < |s|
  {
    s[i] == '_' ==>
      && (if i == from then from == 2 else GoDigit(s[i - 1], base))
      && i + 1 < |s| && GoDigit(s[i + 1], base)
  }

  /** The base a literal is written in, and where its digits begin. */
  function GoPrefix(s: string): (r: (int, nat))
    ensures r.1 <= |s|
  {
    if Head(s, 'x') then (16, 2)
    else if Head(s, 'o') then (8, 2)
    else if Head(s, 'b') then (2, 2)
    else (if s != "" && s[0] == '0' then 8 else 10, 0)
  }

  /** The base a text is to be read in, and where its digits begin. */
  function GoBase(s: string, base: int): (r: (int, nat))
    ensures r.1 <= |s|
  {
    if base == 0 then GoPrefix(s) else (base, 0)
  }

  /** An unsigned literal: a prefix where the base is open, and digits that separators may
      divide, in an explicit base without them. */
  predicate Literal(s: string, base: int) {
    var (b, from) := GoBase(s, base);
    |s| != from && IsBase(b) && GoDigits(s, from, b) && Separates(s, from, b) && (base != 0 ==> !HasUnderscore(s))
  }

  function GoUnsigned(s: string, base: int, neg: bool, bitSize: nat, signed: bool): Parsed {
    if !Literal(s, base) then SyntaxError
    else
      var (b, from) := GoBase(s, base);
      var v := ValueOf(NoUnderscores(s[from..]), b);
      InBounds(if neg then -v else v, bitSize, signed)
  }

  /** A text as a literal of Go: no literal, a value, or a literal out of the bounds. */
  function GoParse(text: string, base: int, bitSize: nat, signed: bool): Parsed {
    if text != "" && (text[0] == '+' || text[0] == '-') then
      if signed then GoUnsigned(text[1..], base, text[0] == '-', bitSize, signed) else SyntaxError
    else GoUnsigned(text, base, false, bitSize, signed)
  }

  lemma {:induction false} DigitsLeft(s: string, base: int)
    ensures AllDigits(NoUnderscores(s), base) <==> GoDigits(s, 0, base)
  {
    if s != "" {
      DigitsLeft(s[1..], base);
      assert forall i :: 1 <= i < |s| ==> s[1..][i - 1] == s[i];
      assert forall i :: 0 <= i < |s[1..]| ==> s[1..][i] == s[i + 1];
      var one := if s[0] == '_' then "" else [s[0]];
      var rest := NoUnderscores(s[1..]);
      assert forall i :: 0 <= i < |rest| ==> (one + rest)[|one| + i] == rest[i];
      if AllDigits(one + rest, base) {
        assert one != "" ==> (one + rest)[0] == s[0];
      }
    }
  }

  /** The code's own test on separators says what Go's does, but for the first place. */
  lemma SameSeparators(s: string, base: int)
    requires s != "" && GoDigits(s, 0, base) && base <= 36
    ensures (s[0] != '_' && s[|s| - 1] != '_' && !DoubleUnderscore(s)) <==> Separates(s, 0, base)
  {
    assert DigitValue('_') == -1;
    if s[0] != '_' && s[|s| - 1] != '_' && !DoubleUnderscore(s) {
      forall i | 0 <= i < |s| ensures SeparatorFits(s, 0, base, i) {
        assert i > 0 && s[i] == '_' ==> s[i - 1] != '_' by {
          if i > 0 && s[i - 1] == '_' { assert s[i - 1 + 1] != '_'; }
        }
      }
    }
    if Separates(s, 0, base) {
      assert SeparatorFits(s, 0, base, 0) && SeparatorFits(s, 0, base, |s| - 1);
      forall i | 0 <= i < |s| - 1 && s[i] == '_' ensures s[i + 1] != '_' { assert SeparatorFits(s, 0, base, i); }
    }
  }

  /** Go's test from an offset on is its test on what stands there. */
  lemma FromThere(s: string, from: nat, base: int)
    requires from <= |s|
    ensures GoDigits(s, from, base) <==> GoDigits(s[from..], 0, base)
    ensures from < |s| && s[from] != '_' ==> (Separates(s, from, base) <==> Separates(s[from..], 0, base))
  {
    var t := s[from..];
    assert forall i :: from <= i < |s| ==> s[i] == t[i - from];
    assert forall i :: 0 <= i < |t| ==> t[i] == s[from + i];
    if from < |s| && s[from] != '_' {
      forall i | from <= i < |s| ensures SeparatorFits(s, from, base, i) <==> SeparatorFits(t, 0, base, i - from) {
      }
      if Separates(s, from, base) {
        forall i | 0 <= i < |t| ensures SeparatorFits(t, 0, base, i) {
          assert SeparatorFits(s, from, base, from + i);
        }
      }
    }
  }

  lemma PrefixesAgree(s: string)
    ensures InferBase(s) == (GoPrefix(s).0, s[GoPrefix(s).1..])
  {
  }

  /** An underscore stands straight after the prefix. */
  predicate SeparatedPrefix(s: string) {
    var from := GoPrefix(s).1;
    from == 2 && |s| > 2 && s[2] == '_'
  }

  /** The digits after the prefix, by the code's test and by Go's. */
  lemma DigitsAgree(s: string, from: nat, base: int, neg: bool, bitSize: nat, signed: bool)
    requires from < |s| && s[from] != '_' && IsBase(base)
    ensures ParseDigits(s[from..], base, true, neg, bitSize, signed) ==
            if !GoDigits(s, from, base) || !Separates(s, from, base) then SyntaxError
            else InBounds(if neg then -ValueOf(NoUnderscores(s[from..]), base)
                          else ValueOf(NoUnderscores(s[from..]), base), bitSize, signed)
  {
    var rest := s[from..];
    FromThere(s, from, base);
    DigitsLeft(rest, base);
    NoneLeft(rest);
    if GoDigits(rest, 0, base) {
      SameSeparators(rest, base);
      NoSeparators(rest, base);
    }
  }

  lemma UnsignedAgrees(s: string, neg: bool, bitSize: nat, signed: bool)
    ensures SeparatedPrefix(s) ==> ParseUnsigned(s, 0, neg, bitSize, signed) == SyntaxError
    ensures !SeparatedPrefix(s) ==>
      ParseUnsigned(s, 0, neg, bitSize, signed) == GoUnsigned(s, 0, neg, bitSize, signed)
  {
    var (b, from) := GoPrefix(s);
    PrefixesAgree(s);
    if from < |s| && s[from] != '_' {
      DigitsAgree(s, from, b, neg, bitSize, signed);
    } else if from < |s| {
      assert s[from..][0] == '_' && (from == 0 ==> !SeparatorFits(s, from, b, from));
    }
  }

  lemma NoSeparators(s: string, base: int)
    ensures !HasUnderscore(s) ==> Separates(s, 0, base) && NoUnderscores(s) == s
  {
    NoneLeft(s);
  }

  lemma ExplicitAgrees(s: string, base: int, neg: bool, bitSize: nat, signed: bool)
    requires base != 0
    ensures ParseUnsigned(s, base, neg, bitSize, signed) == GoUnsigned(s, base, neg, bitSize, signed)
  {
    assert s[0..] == s;
    NoSeparators(s, base);
    DigitsLeft(s, base);
  }

  function AfterSign(text: string): string {
    if text != "" && (text[0] == '+' || text[0] == '-') then text[1..] else text
  }

  /** What stands between the code and Go's literals: an underscore straight after the base
      prefix, where a sign is admitted or absent, and a plus sign on an unsigned one. */
  predicate OtherwiseRead(text: string, base: int, signed: bool) {
    var s := AfterSign(text);
    if base == 0 && SeparatedPrefix(s) then signed || s == text else !signed && text != "" && text[0] == '+'
  }

  /** The code tells literals, their values and those out of bounds as Go's grammar does
      unless the unsigned part of the text is a literal that is otherwise read. */
  lemma FollowsGoExactly(text: string, base: int, bitSize: nat, signed: bool)
    ensures ParseInt(text, base, bitSize, signed) == GoParse(text, base, bitSize, signed) <==>
            !(Literal(AfterSign(text), base) && OtherwiseRead(text, base, signed))
  {
    var s := AfterSign(text);
    var neg := text != "" && text[0] == '-';
    if base == 0 { UnsignedAgrees(s, neg, bitSize, signed); } else { ExplicitAgrees(s, base, neg, bitSize, signed); }
  }

  lemma {:induction false} PowTwoGrows(k: nat)
    requires k >= 4
    ensures Pow(2, k) >= 16
  {
    if k > 4 { PowTwoGrows(k - 1); } else { assert Pow(2, 2) == 4; }
  }

  lemma OneDigit(c: char, base: int)
    ensures ValueOf([c], base) == DigitValue(c)
  {
    ValueOfSnoc("", c, base);
    assert "" + [c] == [c];
  }

  lemma GoReadsHex(bitSize: nat)
    requires bitSize == 0 || bitSize >= 5
    ensures GoUnsigned("0x_f", 0, false, bitSize, true) == Value(15)
  {
    var s := "0x_f";
    HexText();
    assert GoBase(s, 0) == (16, 2) && GoDigits(s, 2, 16);
    assert SeparatorFits(s, 2, 16, 2) && SeparatorFits(s, 2, 16, 3);
    SmallFits(15, bitSize, true);
  }

  lemma HexText()
    ensures ("0x_f")[2..] == "_f" && NoUnderscores("_f") == "f" && ValueOf("f", 16) == 15
  {
    OneDigit('f', 16);
    NoneLeft("f");
    FirstDropped("_f");
    assert ("_f")[1..] == "f";
  }

  lemma FirstDropped(s: string)
    requires s != "" && s[0] == '_'
    ensures NoUnderscores(s) == NoUnderscores(s[1..])
  {
  }

  lemma SmallFits(v: int, bitSize: nat, signed: bool)
    requires (bitSize == 0 || bitSize >= 5) && 0 <= v < 16
    ensures InBounds(v, bitSize, signed) == Value(v)
  {
    var bits := if bitSize == 0 then 64 else bitSize;
    PowTwoGrows(bits - 1);
    PowTwoGrows(bits);
  }

  lemma PlusIsRead(bitSize: nat)
    requires bitSize == 0 || bitSize >= 5
    ensures ParseInt("+1", 0, bitSize, false) == Value(1)
  {
    SmallFits(1, bitSize, false);
    assert ("+1")[1..] == "1" && InferBase("1") == (10, "1");
    OneDigit('1', 10);
  }

  /** Both happen. */
  lemma GoReadsOtherwise(bitSize: nat)
    requires bitSize == 0 || bitSize >= 5
    ensures ParseInt("0x_f", 0, bitSize, true) == SyntaxError && GoParse("0x_f", 0, bitSize, true) == Value(15)
    ensures ParseInt("+1", 0, bitSize, false) == Value(1) && GoParse("+1", 0, bitSize, false) == SyntaxError
  {
    GoReadsHex(bitSize);
    PlusIsRead(bitSize);
    assert SeparatedPrefix("0x_f");
    UnsignedAgrees("0x_f", false, bitSize, true);
  }
}
