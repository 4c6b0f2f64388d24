/** Numbers as digit text, most significant digit first, in any base from 2 to 36. */
module Digits {
  predicate IsBase(base: int) { 2 <= base <= 36 }

  function Digit(v: int): char
    requires 0 <= v < 36
  {
    if v < 10 then ('0' as int + v) as char else ('a' as int + v - 10) as char
  }

  /** The value of a digit in either case, -1 for any other character. */
  function DigitValue(c: char): int {
    if '0' <= c <= '9' then c as int - '0' as int
    else if 'a' <= c <= 'z' then c as int - 'a' as int + 10
    else if 'A' <= c <= 'Z' then c as int - 'A' as int + 10
    else -1
  }

  predicate AllDigits(s: string, base: int) {
    forall i :: 0 <= i < |s| ==> 0 <= DigitValue(s[i]) < base
  }

  lemma DivideDown(n: nat, base: int)
    requires IsBase(base) && n >= base
    ensures 0 < n / base < n && 0 <= n % base < base
    ensures n / base * base + n % base == n
  {
  }

  function Render(n: nat, base: int): (s: string)
    requires IsBase(base)
  {
    if n < base then [Digit(n)]
    else
      DivideDown(n, base);
      Render(n / base, base) + [Digit(n % base)]
  }

  function ValueOf(s: string, base: int): int {
    if s == "" then 0 else ValueOf(s[..|s| - 1], base) * base + DigitValue(s[|s| - 1])
  }

  function Pow(base: int, k: nat): int {
    if k == 0 then 1 else base * Pow(base, k - 1)
  }

  function Zeros(k: nat): string {
    if k == 0 then "" else "0" + Zeros(k - 1)
  }

  lemma DigitOf(v: int)
    requires 0 <= v < 36
    ensures DigitValue(Digit(v)) == v
  {
  }

  lemma ValueOfSnoc(s: string, c: char, base: int)
    ensures ValueOf(s + [c], base) == ValueOf(s, base) * base + DigitValue(c)
  {
    assert (s + [c])[..|s|] == s;
  }

  lemma {:induction false} RenderReads(n: nat, base: int)
    requires IsBase(base)
    ensures Render(n, base) != "" && AllDigits(Render(n, base), base) && ValueOf(Render(n, base), base) == n
    ensures n > 0 ==> Render(n, base)[0] != '0'
    ensures n == 0 ==> Render(n, base) == "0"
  {
    if n < base {
      DigitOf(n);
      ValueOfSnoc("", Digit(n), base);
      assert "" + [Digit(n)] == [Digit(n)];
    } else {
      DivideDown(n, base);
      DigitOf(n % base);
      RenderReads(n / base, base);
      ValueOfSnoc(Render(n / base, base), Digit(n % base), base);
    }
  }

  lemma CancelFactor(base: int, q: int, p: int)
    requires base > 0 && base * q < base * p
    ensures q < p
  {
  }

  lemma QuotientBelow(n: nat, base: int, p: int)
    requires IsBase(base) && n < base * p
    ensures n / base < p
  {
    assert base * (n / base) <= n;
    CancelFactor(base, n / base, p);
  }

  lemma {:induction false} RenderLength(n: nat, base: int, k: nat)
    requires IsBase(base) && k >= 1 && n < Pow(base, k)
    ensures |Render(n, base)| <= k
  {
    assert k == 1 ==> Pow(base, k) == base * Pow(base, 0);
    if n >= base {
      DivideDown(n, base);
      QuotientBelow(n, base, Pow(base, k - 1));
      RenderLength(n / base, base, k - 1);
    }
  }

  lemma Shift(a: int, p: int, b: int, base: int, d: int)
    ensures (a * p + b) * base + d == a * (base * p) + (b * base + d)
  {
    assert (a * p + b) * base == a * p * base + b * base;
    assert a * p * base == a * (base * p);
  }

  lemma {:induction false} ValueOfConcat(a: string, b: string, base: int)
    ensures ValueOf(a + b, base) == ValueOf(a, base) * Pow(base, |b|) + ValueOf(b, base)
  {
    if b == "" {
      assert a + b == a;
    } else {
      var b', c := b[..|b| - 1], b[|b| - 1];
      assert b == b' + [c] && a + b == (a + b') + [c];
      ValueOfConcat(a, b', base);
      ValueOfSnoc(a + b', c, base);
      ValueOfSnoc(b', c, base);
      Shift(ValueOf(a, base), Pow(base, |b'|), ValueOf(b', base), base, DigitValue(c));
    }
  }

  lemma {:induction false} ValueOfZeros(k: nat, base: int)
    requires IsBase(base)
    ensures ValueOf(Zeros(k), base) == 0 && |Zeros(k)| == k && AllDigits(Zeros(k), base)
  {
    if k > 0 {
      ValueOfZeros(k - 1, base);
      ValueOfConcat("0", Zeros(k - 1), base);
      assert "0"[..0] == "";
    }
  }

  lemma DigitFits(v: int, p: int, base: int, d: int)
    requires 0 <= v < p && 0 <= d < base
    ensures 0 <= v * base + d < base * p
  {
    assert v * base <= (p - 1) * base;
    assert (p - 1) * base == base * p - base;
    assert v * base >= 0;
  }

  lemma {:induction false} ValueBounds(s: string, base: int)
    requires IsBase(base) && AllDigits(s, base)
    ensures 0 <= ValueOf(s, base) < Pow(base, |s|)
  {
    if s != "" {
      var s', c := s[..|s| - 1], s[|s| - 1];
      ValueBounds(s', base);
      DigitFits(ValueOf(s', base), Pow(base, |s'|), base, DigitValue(c));
    }
  }
}
