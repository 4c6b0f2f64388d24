/** UTF-8 (sections 3 and 4 of RFC 3629). */
module Utf8 {
  // The runtime's two decoders, its encoder, its validator and counter, and its backwards
  // decoder. Masking with 2^k - 1 is the remainder by 2^k, and shifting by six bits and
  // or-ing in six is 64 times plus.

  type Byte = b: int | 0 <= b < 256

  const RUNE_ERROR := 0xFFFD

  predicate Scalar(r: int) {
    0 <= r <= 0x10FFFF && !(0xD800 <= r <= 0xDFFF)
  }

  /** The payload bits of a byte: c & (m - 1) for a power m of two. */
  function Low(c: Byte, m: int): int
    requires m > 0
  {
    c % m
  }

  predicate Continuation(c: Byte) { 0x80 <= c <= 0xBF }

  /** `chr(r).encode("utf-8")` by the table of RFC 3629, with U+FFFD for no scalar. */
  function Encode(r: int): (e: seq<Byte>)
    ensures 1 <= |e| <= 4
  {
    if !Scalar(r) then [0xEF, 0xBF, 0xBD]
    else if r < 0x80 then [r]
    else if r < 0x800 then [0xC0 + r / 64, 0x80 + r % 64]
    else if r < 0x10000 then [0xE0 + r / 4096, 0x80 + r / 64 % 64, 0x80 + r % 64]
    else [0xF0 + r / 262144, 0x80 + r / 4096 % 64, 0x80 + r / 64 % 64, 0x80 + r % 64]
  }

  // ----- The two forward decoders -----

  /** What the first byte c0 asks for: size, accept range of the second byte, payload. */
  datatype Lead = Lead(size: nat, lo: int, hi: int, cp: int)

  function LeadOf(c0: Byte): Lead
    requires 0xC2 <= c0 < 0xF5
  {
    if c0 < 0xE0 then Lead(2, 0x80, 0xBF, Low(c0, 32))
    else if c0 < 0xF0 then
      Lead(3, if c0 == 0xE0 then 0xA0 else 0x80, if c0 == 0xED then 0x9F else 0xBF, Low(c0, 16))
    else Lead(4, if c0 == 0xF0 then 0x90 else 0x80, if c0 == 0xF4 then 0x8F else 0xBF, Low(c0, 8))
  }

  /** The continuation bytes from the k-th on folded into cp. */
  function Tail(b: seq<Byte>, i: nat, k: nat, size: nat, cp: int): (int, nat)
    requires k <= size
    decreases size - k
  {
    if k == size then (cp, size)
    else if i + k >= |b| || !Continuation(b[i + k]) then (RUNE_ERROR, 1)
    else Tail(b, i, k + 1, size, cp * 64 + Low(b[i + k], 64))
  }

  /** `_utf8_decode`: the rune at b[i..] and its size. */
  function Utf8Decode(b: seq<Byte>, i: nat): (int, nat) {
    if i >= |b| then (RUNE_ERROR, 0)
    else if b[i] < 0x80 then (b[i], 1)
    else if b[i] < 0xC2 || b[i] >= 0xF5 then (RUNE_ERROR, 1)
    else
      var lead := LeadOf(b[i]);
      if i + 1 >= |b| || b[i + 1] < lead.lo || b[i + 1] > lead.hi then (RUNE_ERROR, 1)
      else Tail(b, i, 2, lead.size, lead.cp * 64 + Low(b[i + 1], 64))
  }

  method DecodeAt(b: seq<Byte>, i: nat) returns (r: int, size: nat)
    ensures (r, size) == Utf8Decode(b, i)
  {
    if i >= |b| {
      return RUNE_ERROR, 0;
    }
    var c0 := b[i];
    if c0 < 0x80 {
      return c0, 1;
    }
    if c0 < 0xC2 || c0 >= 0xF5 {
      return RUNE_ERROR, 1;
    }
    var lead := LeadOf(c0);
    if i + 1 >= |b| {
      return RUNE_ERROR, 1;
    }
    var c1 := b[i + 1];
    if c1 < lead.lo || c1 > lead.hi {
      return RUNE_ERROR, 1;
    }
    r, size := lead.cp * 64 + Low(c1, 64), lead.size;
    for k := 2 to size
      invariant Tail(b, i, k, size, r) == Utf8Decode(b, i)
    {
      if i + k >= |b| {
        return RUNE_ERROR, 1;
      }
      var ck := b[i + k];
      if ck < 0x80 || ck > 0xBF {
        return RUNE_ERROR, 1;
      }
      r := r * 64 + Low(ck, 64);
    }
  }

  /** `_decode_rune`, which `range` over a string uses. */
  function DecodeRune(s: seq<Byte>, i: nat): (int, nat)
    requires i < |s|
  {
    var b0 := s[i];
    if b0 < 0x80 then (b0, 1)
    else if 0xC2 <= b0 < 0xE0 then
      if i + 1 < |s| && 0x80 <= s[i + 1] < 0xC0 then (Low(b0, 32) * 64 + Low(s[i + 1], 64), 2) else (RUNE_ERROR, 1)
    else if 0xE0 <= b0 < 0xF0 then
      var lo := if b0 == 0xE0 then 0xA0 else 0x80;
      var hi := if b0 == 0xED then 0x9F else 0xBF;
      if i + 2 < |s| && lo <= s[i + 1] <= hi && 0x80 <= s[i + 2] < 0xC0
      then (Low(b0, 16) * 4096 + Low(s[i + 1], 64) * 64 + Low(s[i + 2], 64), 3)
      else (RUNE_ERROR, 1)
    else if 0xF0 <= b0 <= 0xF4 then
      var lo := if b0 == 0xF0 then 0x90 else 0x80;
      var hi := if b0 == 0xF4 then 0x8F else 0xBF;
      if i + 3 < |s| && lo <= s[i + 1] <= hi && 0x80 <= s[i + 2] < 0xC0 && 0x80 <= s[i + 3] < 0xC0
      then (Low(b0, 8) * 262144 + Low(s[i + 1], 64) * 4096 + Low(s[i + 2], 64) * 64 + Low(s[i + 3], 64), 4)
      else (RUNE_ERROR, 1)
    else (RUNE_ERROR, 1)
  }

  lemma TailTwo(b: seq<Byte>, i: nat, cp: int)
    ensures Tail(b, i, 2, 2, cp) == (cp, 2)
    ensures Tail(b, i, 2, 3, cp) ==
      if i + 2 < |b| && Continuation(b[i + 2]) then (cp * 64 + Low(b[i + 2], 64), 3) else (RUNE_ERROR, 1)
    ensures Tail(b, i, 2, 4, cp) ==
      if i + 3 < |b| && Continuation(b[i + 2]) && Continuation(b[i + 3])
      then ((cp * 64 + Low(b[i + 2], 64)) * 64 + Low(b[i + 3], 64), 4) else (RUNE_ERROR, 1)
  {
    if i + 2 < |b| {
      var cp2 := cp * 64 + Low(b[i + 2], 64);
      assert Tail(b, i, 3, 3, cp2) == (cp2, 3);
      if i + 3 < |b| {
        var cp3 := cp2 * 64 + Low(b[i + 3], 64);
        assert Tail(b, i, 4, 4, cp3) == (cp3, 4);
      }
    }
  }

  /** The two decoders, written independently, agree at every offset of every string. */
  lemma DecodersAgree(b: seq<Byte>, i: nat)
    requires i < |b|
    ensures Utf8Decode(b, i) == DecodeRune(b, i)
  {
    if 0xC2 <= b[i] < 0xF5 && i + 1 < |b| {
      TailTwo(b, i, LeadOf(b[i]).cp * 64 + Low(b[i + 1], 64));
    }
  }

  // ----- Decoding and encoding -----

  predicate Invalid(d: (int, nat)) { d.0 == RUNE_ERROR && d.1 == 1 }

  /** Six-bit groups of r, low to high. */
  lemma Groups(r: int, a: int, b: int, c: int, d: int)
    requires 0 <= b < 64 && 0 <= c < 64 && 0 <= d < 64 && r == a * 262144 + b * 4096 + c * 64 + d
    ensures r % 64 == d && r / 64 % 64 == c && r / 4096 % 64 == b && r / 262144 == a
    ensures r / 4096 == a * 64 + b && r / 64 == a * 4096 + b * 64 + c
  {
    assert r == (a * 4096 + b * 64 + c) * 64 + d;
    assert r / 64 == a * 4096 + b * 64 + c;
    assert r == (a * 64 + b) * 4096 + (c * 64 + d);
    assert r / 4096 == a * 64 + b;
  }

  lemma GroupsOf(r: int)
    requires r >= 0
    ensures r == r / 262144 * 262144 + r / 4096 % 64 * 4096 + r / 64 % 64 * 64 + r % 64
    ensures r / 4096 == r / 262144 * 64 + r / 4096 % 64 && r / 64 == r / 4096 * 64 + r / 64 % 64
  {
    var d := r % 64;
    var r1 := r / 64;
    var c := r1 % 64;
    var r2 := r1 / 64;
    var b := r2 % 64;
    var a := r2 / 64;
    assert r == a * 262144 + b * 4096 + c * 64 + d;
    Groups(r, a, b, c, d);
  }

  // The payload bits of the encoding's bytes are the six-bit groups of r.

  lemma PayloadTwo(r: int)
    requires 0x80 <= r < 0x800
    ensures var e := Encode(r); |e| == 2 && Low(e[0], 32) * 64 + Low(e[1], 64) == r
  {
  }

  lemma PayloadThree(r: int)
    requires Scalar(r) && 0x800 <= r < 0x10000
    ensures var e := Encode(r); |e| == 3 && Low(e[0], 16) * 4096 + Low(e[1], 64) * 64 + Low(e[2], 64) == r
  {
    GroupsOf(r);
  }

  lemma PayloadFour(r: int)
    requires Scalar(r) && 0x10000 <= r
    ensures var e := Encode(r);
            |e| == 4 && Low(e[0], 8) * 262144 + Low(e[1], 64) * 4096 + Low(e[2], 64) * 64 + Low(e[3], 64) == r
  {
    GroupsOf(r);
  }

  /** The bytes of an encoding lie in the ranges the decoders accept. */
  lemma RangesOf(r: int)
    requires Scalar(r)
    ensures var e := Encode(r);
            && (|e| == 1 ==> e[0] == r && r < 0x80)
            && (|e| == 2 ==> 0xC2 <= e[0] < 0xE0)
            && (|e| == 3 ==> 0xE0 <= e[0] < 0xF0 && (e[0] == 0xE0 ==> e[1] >= 0xA0) && (e[0] == 0xED ==> e[1] <= 0x9F))
            && (|e| == 4 ==> 0xF0 <= e[0] <= 0xF4 && (e[0] == 0xF0 ==> e[1] >= 0x90) && (e[0] == 0xF4 ==> e[1] <= 0x8F))
            && forall k :: 1 <= k < |e| ==> Continuation(e[k])
  {
    GroupsOf(r);
  }

  /** DecodeRune reads the encoding of r off the bytes that stand at i. */
  lemma DecodeRuneAt(b: seq<Byte>, i: nat, r: int)
    requires Scalar(r) && i + |Encode(r)| <= |b|
    requires forall k :: 0 <= k < |Encode(r)| ==> b[i + k] == Encode(r)[k]
    ensures DecodeRune(b, i) == (r, |Encode(r)|)
  {
    RangesOf(r);
    if r >= 0x10000 { PayloadFour(r); }
    else if r >= 0x800 { PayloadThree(r); }
    else if r >= 0x80 { PayloadTwo(r); }
    var e := Encode(r);
    assert b[i + 0] == e[0];
    if |e| > 1 { assert b[i + 1] == e[1]; }
    if |e| > 2 { assert b[i + 2] == e[2]; }
    if |e| > 3 { assert b[i + 3] == e[3]; }
  }

  /** Decoding undoes encoding, whatever stands before and after. */
  lemma DecodeUndoesEncode(p: seq<Byte>, r: int, q: seq<Byte>)
    requires Scalar(r)
    ensures Utf8Decode(p + Encode(r) + q, |p|) == (r, |Encode(r)|)
  {
    var b := p + Encode(r) + q;
    DecodeRuneAt(b, |p|, r);
    DecodersAgree(b, |p|);
  }

  lemma AsciiEncodes(b: Byte)
    requires b < 0x80
    ensures Scalar(b) && Encode(b) == [b]
  {
  }

  lemma EncodeUndoesTwo(b0: Byte, b1: Byte)
    requires 0xC2 <= b0 < 0xE0 && Continuation(b1)
    ensures var r := Low(b0, 32) * 64 + Low(b1, 64); Scalar(r) && Encode(r) == [b0, b1]
  {
    Groups(Low(b0, 32) * 64 + Low(b1, 64), 0, 0, Low(b0, 32), Low(b1, 64));
  }

  lemma EncodeUndoesThree(b0: Byte, b1: Byte, b2: Byte)
    requires 0xE0 <= b0 < 0xF0 && Continuation(b1) && Continuation(b2)
    requires (b0 == 0xE0 ==> b1 >= 0xA0) && (b0 == 0xED ==> b1 <= 0x9F)
    ensures var r := Low(b0, 16) * 4096 + Low(b1, 64) * 64 + Low(b2, 64);
            Scalar(r) && Encode(r) == [b0, b1, b2]
  {
    Groups(Low(b0, 16) * 4096 + Low(b1, 64) * 64 + Low(b2, 64), 0, Low(b0, 16), Low(b1, 64), Low(b2, 64));
  }

  lemma LowBits(b0: Byte, b1: Byte)
    requires 0xF0 <= b0 <= 0xF4 && Continuation(b1)
    ensures Low(b0, 8) == b0 - 0xF0 && Low(b1, 64) == b1 - 0x80
  {
  }

  /** A scalar value of four groups is encoded group by group. */
  lemma EncodeFour(a: int, b: int, c: int, d: int)
    requires 0 <= a <= 4 && 0 <= b < 64 && 0 <= c < 64 && 0 <= d < 64
    requires (a == 0 ==> b >= 0x10) && (a == 4 ==> b < 0x10)
    ensures var r := a * 262144 + b * 4096 + c * 64 + d;
            Scalar(r) && Encode(r) == [0xF0 + a, 0x80 + b, 0x80 + c, 0x80 + d]
  {
    Groups(a * 262144 + b * 4096 + c * 64 + d, a, b, c, d);
  }

  lemma EncodeUndoesFour(b0: Byte, b1: Byte, b2: Byte, b3: Byte)
    requires 0xF0 <= b0 <= 0xF4 && Continuation(b1) && Continuation(b2) && Continuation(b3)
    requires (b0 == 0xF0 ==> b1 >= 0x90) && (b0 == 0xF4 ==> b1 <= 0x8F)
    ensures var r := Low(b0, 8) * 262144 + Low(b1, 64) * 4096 + Low(b2, 64) * 64 + Low(b3, 64);
            Scalar(r) && Encode(r) == [b0, b1, b2, b3]
  {
    LowBits(b0, b1);
    LowBits(b0, b2);
    LowBits(b0, b3);
    EncodeFour(Low(b0, 8), Low(b1, 64), Low(b2, 64), Low(b3, 64));
  }

  /** What the second decoder reads without error is the encoding of a scalar value. */
  lemma DecodeRuneEncodes(b: seq<Byte>, i: nat)
    requires i < |b| && !Invalid(DecodeRune(b, i))
    ensures var (r, n) := DecodeRune(b, i);
            Scalar(r) && 1 <= n && i + n <= |b| && Encode(r) == b[i..i + n]
  {
    if b[i] < 0x80 {
      AsciiEncodes(b[i]);
    } else if b[i] < 0xE0 {
      EncodeUndoesTwo(b[i], b[i + 1]);
      assert b[i..i + 2] == [b[i], b[i + 1]];
    } else if b[i] < 0xF0 {
      EncodeUndoesThree(b[i], b[i + 1], b[i + 2]);
      assert b[i..i + 3] == [b[i], b[i + 1], b[i + 2]];
    } else {
      EncodeUndoesFour(b[i], b[i + 1], b[i + 2], b[i + 3]);
      assert b[i..i + 4] == [b[i], b[i + 1], b[i + 2], b[i + 3]];
    }
  }

  /** What decodes without error is the encoding of a scalar value. */
  lemma EncodeUndoesDecode(b: seq<Byte>, i: nat)
    requires i < |b| && !Invalid(Utf8Decode(b, i))
    ensures var (r, n) := Utf8Decode(b, i);
            Scalar(r) && 1 <= n && i + n <= |b| && Encode(r) == b[i..i + n]
  {
    DecodersAgree(b, i);
    DecodeRuneEncodes(b, i);
  }

  // ----- Validating and counting -----

  function EncodeAll(rs: seq<int>): seq<Byte> {
    if rs == [] then [] else Encode(rs[0]) + EncodeAll(rs[1..])
  }

  predicate AllScalar(rs: seq<int>) {
    forall k :: 0 <= k < |rs| ==> Scalar(rs[k])
  }

  lemma SizePositive(b: seq<Byte>, i: nat)
    requires i < |b|
    ensures 1 <= Utf8Decode(b, i).1 <= |b| - i
  {
    DecodersAgree(b, i);
  }

  function ValidFrom(b: seq<Byte>, i: nat): bool
    requires i <= |b|
    decreases |b| - i
  {
    if i == |b| then true
    else
      SizePositive(b, i);
      !Invalid(Utf8Decode(b, i)) && ValidFrom(b, i + Utf8Decode(b, i).1)
  }

  function CountFrom(b: seq<Byte>, i: nat): nat
    requires i <= |b|
    decreases |b| - i
  {
    if i == |b| then 0
    else
      SizePositive(b, i);
      1 + CountFrom(b, i + Utf8Decode(b, i).1)
  }

  method Validate(b: seq<Byte>) returns (ok: bool)
    ensures ok == ValidFrom(b, 0)
  {
    var i := 0;
    while i < |b|
      invariant 0 <= i <= |b|
      invariant ValidFrom(b, 0) == ValidFrom(b, i)
    {
      var r, size := DecodeAt(b, i);
      SizePositive(b, i);
      if r == RUNE_ERROR && size == 1 {
        return false;
      }
      i := i + size;
    }
    return true;
  }

  method Count(b: seq<Byte>) returns (count: nat)
    ensures count == CountFrom(b, 0)
  {
    var i := 0;
    count := 0;
    while i < |b|
      invariant 0 <= i <= |b|
      invariant count + CountFrom(b, i) == CountFrom(b, 0)
    {
      var _, size := DecodeAt(b, i);
      SizePositive(b, i);
      i, count := i + size, count + 1;
    }
  }

  /** The runes of a valid string. */
  function RunesFrom(b: seq<Byte>, i: nat): seq<int>
    requires i <= |b|
    decreases |b| - i
  {
    if i == |b| then []
    else
      SizePositive(b, i);
      [Utf8Decode(b, i).0] + RunesFrom(b, i + Utf8Decode(b, i).1)
  }

  lemma {:induction false} ValidIsEncoded(b: seq<Byte>, i: nat)
    requires i <= |b| && ValidFrom(b, i)
    ensures AllScalar(RunesFrom(b, i)) && EncodeAll(RunesFrom(b, i)) == b[i..]
    decreases |b| - i
  {
    if i < |b| {
      SizePositive(b, i);
      EncodeUndoesDecode(b, i);
      var n := Utf8Decode(b, i).1;
      ValidIsEncoded(b, i + n);
      assert b[i..] == b[i..i + n] + b[i + n..];
      var rs := RunesFrom(b, i);
      assert rs[1..] == RunesFrom(b, i + n);
    }
  }

  /** From i on the bytes are valid and hold these runes. */
  predicate Holds(b: seq<Byte>, i: nat, rs: seq<int>) {
    i <= |b| && ValidFrom(b, i) && CountFrom(b, i) == |rs| && RunesFrom(b, i) == rs
  }

  /** One rune in front of what is valid. */
  lemma OneRune(b: seq<Byte>, i: nat, r: int, n: nat, rs: seq<int>)
    requires i < |b| && n >= 1 && Utf8Decode(b, i) == (r, n) && !Invalid((r, n)) && Holds(b, i + n, rs)
    ensures Holds(b, i, [r] + rs)
  {
  }

  lemma EncodingIsNoError(r: int)
    requires Scalar(r)
    ensures !Invalid((r, |Encode(r)|))
  {
  }

  lemma EncodedRune(p: seq<Byte>, r: int, rest: seq<Byte>, rs: seq<int>)
    requires Scalar(r) && Holds(p + Encode(r) + rest, |p + Encode(r)|, rs)
    ensures Holds(p + Encode(r) + rest, |p|, [r] + rs)
  {
    DecodeUndoesEncode(p, r, rest);
    EncodingIsNoError(r);
    OneRune(p + Encode(r) + rest, |p|, r, |Encode(r)|, rs);
  }

  lemma {:induction false} EncodedIsValid(p: seq<Byte>, rs: seq<int>)
    requires AllScalar(rs)
    ensures Holds(p + EncodeAll(rs), |p|, rs)
    decreases |rs|
  {
    if rs == [] {
      assert p + EncodeAll(rs) == p;
    } else {
      var e, rest := Encode(rs[0]), EncodeAll(rs[1..]);
      EncodedIsValid(p + e, rs[1..]);
      EncodedRune(p, rs[0], rest, rs[1..]);
      SplitThere(p, e, rest);
      assert [rs[0]] + rs[1..] == rs;
    }
  }

  lemma SplitThere(p: seq<Byte>, e: seq<Byte>, rest: seq<Byte>)
    ensures p + (e + rest) == p + e + rest && |p + e| == |p| + |e|
  {
  }

  /** A string is valid exactly when it is a concatenation of encodings of scalar
      values; there is only one such concatenation, and it is as long as the count. */
  lemma ValidExactlyEncodings(b: seq<Byte>)
    ensures ValidFrom(b, 0) <==> exists rs :: AllScalar(rs) && EncodeAll(rs) == b
    ensures forall rs :: AllScalar(rs) && EncodeAll(rs) == b ==> rs == RunesFrom(b, 0) && |rs| == CountFrom(b, 0)
  {
    forall rs | AllScalar(rs) && EncodeAll(rs) == b
      ensures ValidFrom(b, 0) && rs == RunesFrom(b, 0) && |rs| == CountFrom(b, 0)
    {
      EncodedIsValid([], rs);
      assert [] + EncodeAll(rs) == b;
    }
    if ValidFrom(b, 0) {
      ValidIsEncoded(b, 0);
      assert b[0..] == b;
    }
  }

  // ----- Decoding backwards -----

  /** Walk back from `start` to a byte that is no continuation, but not below lim. */
  function LeadBack(s: seq<Byte>, start: int, lim: int): (lead: int)
    requires -1 <= start < |s| && 0 <= lim
    ensures lead <= start && (lead < lim || 0 <= lead)
    decreases start + 1
  {
    if start < lim then start
    else if s[start] < 0x80 || s[start] >= 0xC0 then start
    else LeadBack(s, start - 1, lim)
  }

  function DecodeLast(s: seq<Byte>): (int, nat) {
    var n := |s|;
    if n == 0 then (RUNE_ERROR, 0)
    else if s[n - 1] < 0x80 then (s[n - 1], 1)
    else
      var lim := if n < 4 then 0 else n - 4;
      var back := LeadBack(s, n - 1, lim);
      var start := if back < lim then n - 1 else back;
      var d := Utf8Decode(s, start);
      if start + d.1 != n then (RUNE_ERROR, 1) else d
  }

  method DecodeLastRune(s: seq<Byte>) returns (r: int, size: nat)
    ensures (r, size) == DecodeLast(s)
  {
    var n := |s|;
    if n == 0 {
      return RUNE_ERROR, 0;
    }
    if s[n - 1] < 0x80 {
      return s[n - 1], 1;
    }
    var lim := n - 4;
    if lim < 0 {
      lim := 0;
    }
    var start := n - 1;
    while start >= lim
      invariant -1 <= start < n
      invariant LeadBack(s, start, lim) == LeadBack(s, n - 1, lim)
      decreases start
    {
      if s[start] < 0x80 || s[start] >= 0xC0 {
        break;
      }
      start := start - 1;
    }
    if start < lim {
      start := n - 1;
    }
    r, size := DecodeAt(s, start);
    if start + size != n {
      return RUNE_ERROR, 1;
    }
  }

  lemma {:induction false} LeadBackStops(s: seq<Byte>, start: int, lim: int, lead: int)
    requires 0 <= lim <= lead <= start < |s|
    requires s[lead] < 0x80 || s[lead] >= 0xC0
    requires forall k :: lead < k <= start ==> Continuation(s[k])
    ensures LeadBack(s, start, lim) == lead
    decreases start
  {
    if start > lead { LeadBackStops(s, start - 1, lim, lead); }
  }

  /** Whatever stands before, the last rune decodes to itself and its width. */
  lemma DecodeLastOfEncoded(p: seq<Byte>, r: int)
    requires Scalar(r)
    ensures DecodeLast(p + Encode(r)) == (r, |Encode(r)|)
  {
    var e := Encode(r);
    var s := p + e;
    RangesOf(r);
    DecodeUndoesEncode(p, r, []);
    assert s + [] == s;
    forall k | |p| < k < |s| ensures Continuation(s[k]) {
      assert s[k] == e[k - |p|];
    }
    assert s[|p|] == e[0];
    LeadBackStops(s, |s| - 1, if |s| < 4 then 0 else |s| - 4, |p|);
  }

  /** After a byte that is no ASCII, an answer without error is a decode that ends the text. */
  lemma DecodeLastHigh(s: seq<Byte>) returns (start: nat)
    requires s != [] && s[|s| - 1] >= 0x80 && !Invalid(DecodeLast(s))
    ensures start < |s| && DecodeLast(s) == Utf8Decode(s, start) && start + DecodeLast(s).1 == |s|
  {
    var n := |s|;
    var lim := if n < 4 then 0 else n - 4;
    var back := LeadBack(s, n - 1, lim);
    start := if back < lim then n - 1 else back;
  }

  /** Conversely an answer that is no error is the encoding the string ends in. */
  lemma DecodeLastIsSuffix(s: seq<Byte>)
    requires s != [] && !Invalid(DecodeLast(s))
    ensures var (r, n) := DecodeLast(s);
            Scalar(r) && 1 <= n <= |s| && s[|s| - n..] == Encode(r)
  {
    if s[|s| - 1] < 0x80 {
      AsciiEncodes(s[|s| - 1]);
      assert s[|s| - 1..] == [s[|s| - 1]];
    } else {
      var start := DecodeLastHigh(s);
      EncodeUndoesDecode(s, start);
      assert s[start..|s|] == s[start..];
    }
  }
}
