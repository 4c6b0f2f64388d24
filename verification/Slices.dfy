/** Go slices as headers over shared backing arrays. */
module Slices {
  // The header never changes once built; what is updated in place is the backing, which
  // several headers may share.

  import opened Prelude

  type Value(==, !new)

  /** A cell of a backing list; None is what a fresh backing is filled with. */
  type Elem = Option<Value>

  datatype Slice = Slice(backing: array<Elem>, offset: nat, length: nat, cap: nat)

  datatype Panic = IndexOutOfRange(i: int, length: nat) | BoundsOutOfRange

  predicate WF(s: Slice) {
    s.length <= s.cap && s.offset + s.cap <= s.backing.Length
  }

  /** What the program sees through the header. */
  function View(s: Slice): (v: seq<Elem>)
    requires WF(s)
    reads s.backing
    ensures |v| == s.length
  {
    s.backing[s.offset..s.offset + s.length]
  }

  method GetAt(s: Slice, i: int) returns (r: Result<Elem, Panic>)
    requires WF(s)
    ensures r == if 0 <= i < s.length then Ok(View(s)[i]) else Err(IndexOutOfRange(i, s.length))
  {
    if i < 0 || i >= s.length {
      return Err(IndexOutOfRange(i, s.length));
    }
    return Ok(s.backing[s.offset + i]);
  }

  method SetAt(s: Slice, i: int, v: Elem) returns (r: Result<(), Panic>)
    requires WF(s)
    modifies s.backing
    ensures r.Ok? <==> 0 <= i < s.length
    ensures r.Ok? ==> View(s) == old(View(s))[i := v]
    ensures s.backing[..] == if 0 <= i < s.length then old(s.backing[..])[s.offset + i := v] else old(s.backing[..])
  {
    if i < 0 || i >= s.length {
      return Err(IndexOutOfRange(i, s.length));
    }
    s.backing[s.offset + i] := v;
    return Ok(());
  }

  method Literal(backing: array<Elem>) returns (s: Slice)
    ensures WF(s) && s.backing == backing && View(s) == backing[..] && s.cap == s.length
  {
    s := Slice(backing, 0, backing.Length, backing.Length);
  }

  // ----- Reslicing -----

  function Subslice(s: Slice, start: Option<int>, stop: Option<int>): (r: Result<Slice, Panic>)
    requires WF(s)
    ensures r.Ok? ==> WF(r.value) && r.value.backing == s.backing
  {
    var low := if start.None? then 0 else start.value;
    var high := if stop.None? then s.length else stop.value;
    if low < 0 || high > s.cap || low > high then Err(BoundsOutOfRange)
    else Ok(Slice(s.backing, s.offset + low, high - low, s.cap - low))
  }

  function Subslice3(s: Slice, low: int, high: int, max: int): (r: Result<Slice, Panic>)
    requires WF(s)
    ensures r.Ok? ==> WF(r.value) && r.value.backing == s.backing
  {
    if low < 0 || high < low || max < high || max > s.cap then Err(BoundsOutOfRange)
    else Ok(Slice(s.backing, s.offset + low, high - low, max - low))
  }

  /** A reslice names exactly the cells low..high of the operand, counted from its
      first cell and possibly beyond its length, and reaches no further than it. */
  lemma SubsliceAliases(s: Slice, low: int, high: int, i: int)
    requires WF(s) && Subslice(s, Some(low), Some(high)).Ok?
    ensures var t := Subslice(s, Some(low), Some(high)).value;
            && t.length == high - low && t.offset + t.cap == s.offset + s.cap
            && (0 <= i < t.length ==> View(t)[i] == s.backing[s.offset + low + i])
            && (0 <= i < t.length && low + i < s.length ==> View(t)[i] == View(s)[low + i])
  {
  }

  /** Reslicing a reslice is reslicing once, with the same panics. */
  lemma SubsliceTwice(s: Slice, a: int, b: int, c: int, d: int)
    requires WF(s) && Subslice(s, Some(a), Some(b)).Ok?
    ensures var t := Subslice(s, Some(a), Some(b)).value;
            && (Subslice(t, Some(c), Some(d)).Ok? <==> 0 <= c && Subslice(s, Some(a + c), Some(a + d)).Ok?)
            && (Subslice(t, Some(c), Some(d)).Ok? ==>
                  Subslice(t, Some(c), Some(d)) == Subslice(s, Some(a + c), Some(a + d)))
  {
  }

  /** A three-index slice is a two-index slice whose capacity is cut to max. */
  lemma FullSliceCutsCapacity(s: Slice, low: int, high: int, max: int)
    requires WF(s)
    ensures Subslice3(s, low, high, max).Ok? <==>
            Subslice(s, Some(low), Some(high)).Ok? && high <= max <= s.cap
    ensures Subslice3(s, low, high, max).Ok? ==>
            var t := Subslice3(s, low, high, max).value;
            && t == Subslice(s, Some(low), Some(high)).value.(cap := t.cap)
            && t.offset + t.cap == s.offset + max
  {
  }

  // ----- Growth -----

  function GrowLoop(newcap: nat, needed: nat): nat
    decreases needed - newcap
  {
    if newcap < needed then GrowLoop(newcap + (newcap + 768) / 4, needed) else newcap
  }

  function GrowCap(oldcap: nat, needed: nat): nat {
    if needed > 2 * oldcap then needed
    else if oldcap < 256 then 2 * oldcap
    else GrowLoop(oldcap, needed)
  }

  method Grow(oldcap: nat, needed: nat) returns (newcap: nat)
    ensures newcap == GrowCap(oldcap, needed)
  {
    if needed > 2 * oldcap {
      return needed;
    }
    if oldcap < 256 {
      return 2 * oldcap;  // the test of the source for 2 * oldcap < needed cannot succeed here
    }
    newcap := oldcap;
    while newcap < needed
      invariant GrowLoop(newcap, needed) == GrowLoop(oldcap, needed)
    {
      newcap := newcap + (newcap + 768) / 4;
    }
  }

  lemma {:induction false} GrowLoopEnough(newcap: nat, needed: nat)
    ensures GrowLoop(newcap, needed) >= needed
    ensures GrowLoop(newcap, needed) >= newcap
    decreases needed - newcap
  {
    if newcap < needed { GrowLoopEnough(newcap + (newcap + 768) / 4, needed); }
  }

  /** An overflowing append gets enough room, and at least a quarter more than before. */
  lemma GrowsByAQuarter(oldcap: nat, needed: nat)
    requires needed > oldcap
    ensures GrowCap(oldcap, needed) >= needed
    ensures 4 * GrowCap(oldcap, needed) >= 5 * oldcap
  {
    if needed <= 2 * oldcap && oldcap >= 256 {
      GrowLoopEnough(oldcap, needed);
      GrowLoopEnough(oldcap + (oldcap + 768) / 4, needed);
    }
  }

  // ----- append -----

  /** The cells with `vals` written from `base` on. */
  function Overwrite(cells: seq<Elem>, base: nat, vals: seq<Elem>): (r: seq<Elem>)
    requires base + |vals| <= |cells|
    ensures |r| == |cells|
  {
    cells[..base] + vals + cells[base + |vals|..]
  }

  /** Overwrite, cell by cell. */
  lemma IsOverwrite(after: seq<Elem>, before: seq<Elem>, base: nat, vals: seq<Elem>)
    requires |after| == |before| && base + |vals| <= |before|
    requires forall k :: 0 <= k < |vals| ==> after[base + k] == vals[k]
    requires forall j :: 0 <= j < |before| && !(base <= j < base + |vals|) ==> after[j] == before[j]
    ensures after == Overwrite(before, base, vals)
  {
    forall j | 0 <= j < |before| ensures after[j] == Overwrite(before, base, vals)[j] {
      if base <= j < base + |vals| { assert after[base + (j - base)] == vals[j - base]; }
    }
  }

  /** Store the values into consecutive cells. */
  method StoreAll(arr: array<Elem>, base: nat, vals: seq<Elem>)
    requires base + |vals| <= arr.Length
    modifies arr
    ensures arr[..] == Overwrite(old(arr[..]), base, vals)
  {
    for k := 0 to |vals|
      invariant forall i :: 0 <= i < k ==> arr[base + i] == vals[i]
      invariant forall j :: 0 <= j < arr.Length && !(base <= j < base + k) ==> arr[j] == old(arr[j])
    {
      arr[base + k] := vals[k];
    }
    IsOverwrite(arr[..], old(arr[..]), base, vals);
  }

  /** A fresh backing that starts with what s shows and is empty after it; `copied` counts
      the turns of the copying loop. */
  method Reallocate(s: Slice, newcap: nat) returns (newarr: array<Elem>, ghost copied: nat)
    requires WF(s) && s.length <= newcap
    ensures copied == s.length
    ensures fresh(newarr) && newarr.Length == newcap
    ensures newarr[..s.length] == View(s)
    ensures forall j :: s.length <= j < newcap ==> newarr[j] == None
  {
    newarr := new Elem[newcap](_ => None);
    copied := 0;
    for k := 0 to s.length
      invariant copied == k
      invariant forall i :: 0 <= i < k ==> newarr[i] == s.backing[s.offset + i]
      invariant forall j :: k <= j < newcap ==> newarr[j] == None
    {
      newarr[k] := s.backing[s.offset + k];
      copied := copied + 1;
    }
  }

  /** `copied` counts the elements moved to a new backing. */
  method Append(s: Slice, vals: seq<Elem>) returns (r: Slice, ghost copied: nat)
    requires WF(s)
    modifies s.backing
    ensures copied == if s.length + |vals| <= s.cap then 0 else s.length
    ensures WF(r) && View(r) == old(View(s)) + vals
    ensures s.length + |vals| <= s.cap ==>
      && r == Slice(s.backing, s.offset, s.length + |vals|, s.cap)
      && s.backing[..] == Overwrite(old(s.backing[..]), s.offset + s.length, vals)
    ensures s.length + |vals| > s.cap ==>
      && fresh(r.backing) && r.offset == 0 && r.cap == r.backing.Length == GrowCap(s.cap, s.length + |vals|)
      && s.backing[..] == old(s.backing[..])
      && forall k :: r.length <= k < r.cap ==> r.backing[k] == None
  {
    var n := s.length + |vals|;
    if n <= s.cap {
      copied := 0;
      StoreAll(s.backing, s.offset + s.length, vals);
      r := Slice(s.backing, s.offset, n, s.cap);
      ViewOfOverwrite(old(s.backing[..]), s.offset, s.length, vals);
    } else {
      GrowsByAQuarter(s.cap, n);
      var newcap := Grow(s.cap, n);
      var newarr;
      newarr, copied := Reallocate(s, newcap);
      ghost var cells := newarr[..];
      StoreAll(newarr, s.length, vals);
      r := Slice(newarr, 0, n, newcap);
      assert cells[..s.length] == cells[0..s.length] == View(s);
      ViewOfOverwrite(cells, 0, s.length, vals);
      forall k | r.length <= k < r.cap ensures r.backing[k] == None {
        assert newarr[..][k] == cells[k];
      }
    }
  }

  lemma ViewOfOverwrite(cells: seq<Elem>, offset: nat, length: nat, vals: seq<Elem>)
    requires offset + length + |vals| <= |cells|
    ensures Overwrite(cells, offset + length, vals)[offset..offset + length + |vals|] ==
            cells[offset..offset + length] + vals
  {
  }

  /** What another header over the same backing sees of an in-place append: exactly
      the cells just past the appended slice's length, and nothing else. */
  lemma SeenThrough(cells: seq<Elem>, base: nat, vals: seq<Elem>, offset: nat, i: nat)
    requires base + |vals| <= |cells| && offset + i < |cells|
    ensures Overwrite(cells, base, vals)[offset + i] ==
            if base <= offset + i < base + |vals| then vals[offset + i - base] else cells[offset + i]
  {
  }

  /** Appending in two goes writes what one append writes. */
  lemma AppendInTwo(cells: seq<Elem>, base: nat, xs: seq<Elem>, ys: seq<Elem>)
    requires base + |xs| + |ys| <= |cells|
    ensures Overwrite(Overwrite(cells, base, xs), base + |xs|, ys) == Overwrite(cells, base, xs + ys)
  {
  }

  // ----- The amortised cost of appending -----

  /** Length, capacity and elements copied so far of a slice built by appends. */
  datatype Cost = Cost(length: nat, cap: nat, copied: nat)

  /** The cost after appends of the given sizes, starting from the nil slice. */
  function AppendCost(sizes: seq<nat>): Cost {
    if sizes == [] then Cost(0, 0, 0) else OneAppend(AppendCost(sizes[..|sizes| - 1]), sizes[|sizes| - 1])
  }

  function OneAppend(c: Cost, size: nat): Cost {
    var n := c.length + size;
    if n <= c.cap then c.(length := n) else Cost(n, GrowCap(c.cap, n), c.copied + c.length)
  }

  /** Appends of any sizes copy at most four times the capacity they end with and at
      most five times the number of elements appended. */
  lemma {:induction false} AppendsAreAmortised(sizes: seq<nat>)
    ensures var c := AppendCost(sizes); c.length <= c.cap && c.copied <= 4 * c.cap && c.copied <= 5 * c.length
  {
    if sizes != [] {
      AppendsAreAmortised(sizes[..|sizes| - 1]);
      var c := AppendCost(sizes[..|sizes| - 1]);
      var n := c.length + sizes[|sizes| - 1];
      if n > c.cap { GrowsByAQuarter(c.cap, n); }
    }
  }

  lemma OneMoreAppend(sizes: seq<nat>, size: nat)
    ensures AppendCost(sizes + [size]) == OneAppend(AppendCost(sizes), size)
  {
    assert (sizes + [size])[..|sizes|] == sizes;
  }

  /** Append the values one by one to the nil slice; `copied` is what the appends copied. */
  method BuildOneByOne(vals: seq<Elem>) returns (s: Slice, ghost copied: nat)
    ensures WF(s) && View(s) == vals && fresh(s.backing)
    ensures copied <= 5 * |vals|
  {
    var nothing := new Elem[0];
    s, copied := Slice(nothing, 0, 0, 0), 0;
    ghost var sizes: seq<nat> := [];
    for i := 0 to |vals|
      invariant WF(s) && View(s) == vals[..i] && fresh(s.backing)
      invariant AppendCost(sizes) == Cost(s.length, s.cap, copied)
    {
      OneMoreAppend(sizes, 1);
      ghost var more;
      s, more := Append(s, [vals[i]]);
      copied, sizes := copied + more, sizes + [1];
    }
    AppendsAreAmortised(sizes);
    assert vals[..|vals|] == vals;
  }

  // ----- append beside other headers -----

  /** An append to s while another header t is about. Over the same backing t sees exactly
      the cells just past s's length change, and only when the append stays in place. */
  method AppendBeside(s: Slice, t: Slice, vals: seq<Elem>) returns (r: Slice)
    requires WF(s) && WF(t)
    modifies s.backing
    ensures WF(r) && View(r) == old(View(s)) + vals
    ensures s.length + |vals| > s.cap ==> fresh(r.backing)
    ensures forall i :: 0 <= i < t.length ==>
      var cell := t.offset + i - (s.offset + s.length);
      View(t)[i] == if t.backing == s.backing && s.length + |vals| <= s.cap && 0 <= cell < |vals| then vals[cell]
                    else old(View(t))[i]
  {
    ghost var copied;
    r, copied := Append(s, vals);
    if t.backing == s.backing && s.length + |vals| <= s.cap {
      forall i | 0 <= i < t.length
        ensures View(t)[i] == Overwrite(old(s.backing[..]), s.offset + s.length, vals)[t.offset + i]
      {
        assert s.backing[..][t.offset + i] == View(t)[i];
        SeenThrough(old(s.backing[..]), s.offset + s.length, vals, t.offset, i);
      }
    }
  }

  /** Appending in two goes shows what one append shows. */
  method AppendTwice(s: Slice, xs: seq<Elem>, ys: seq<Elem>) returns (r: Slice)
    requires WF(s)
    modifies s.backing
    ensures WF(r) && View(r) == old(View(s)) + (xs + ys)
  {
    ghost var copied;
    ghost var v := View(s);
    r, copied := Append(s, xs);
    assert View(r) == v + xs;
    r, copied := Append(r, ys);
    assert v + xs + ys == v + (xs + ys);
  }

  /** And in place it leaves the very header and backing. */
  method AppendTwiceInPlace(s: Slice, xs: seq<Elem>, ys: seq<Elem>) returns (r: Slice)
    requires WF(s) && s.length + |xs| + |ys| <= s.cap
    modifies s.backing
    ensures r == Slice(s.backing, s.offset, s.length + |xs + ys|, s.cap)
    ensures s.backing[..] == Overwrite(old(s.backing[..]), s.offset + s.length, xs + ys)
  {
    ghost var copied;
    ghost var cells := s.backing[..];
    r, copied := Append(s, xs);
    AppendInTwo(cells, s.offset + s.length, xs, ys);
    r, copied := Append(r, ys);
  }

  // ----- copy -----

  function Min(a: nat, b: nat): nat { if a < b then a else b }

  /** Cells [lo, hi) of dst hold what was at the same places of `from`, others are as before. */
  twostate predicate Moved(dst: Slice, from: seq<Elem>, lo: int, hi: int)
    requires WF(dst) && 0 <= lo <= hi <= |from| <= dst.length
    reads dst.backing
  {
    && (forall j :: lo <= j < hi ==> dst.backing[dst.offset + j] == from[j])
    && (forall j :: 0 <= j < dst.backing.Length && !(dst.offset + lo <= j < dst.offset + hi) ==>
          dst.backing[j] == old(dst.backing[j]))
  }

  method CopyBackward(dst: Slice, src: Slice, n: nat)
    requires WF(dst) && WF(src) && n <= dst.length && n <= src.length
    requires dst.backing == src.backing && dst.offset > src.offset
    modifies dst.backing
    ensures Moved(dst, old(View(src))[..n], 0, n)
  {
    var k := n;
    while k > 0
      invariant 0 <= k <= n
      invariant Moved(dst, old(View(src))[..n], k, n)
    {
      k := k - 1;
      dst.backing[dst.offset + k] := src.backing[src.offset + k];
    }
  }

  method CopyForward(dst: Slice, src: Slice, n: nat)
    requires WF(dst) && WF(src) && n <= dst.length && n <= src.length
    requires dst.backing != src.backing || dst.offset <= src.offset
    modifies dst.backing
    ensures Moved(dst, old(View(src))[..n], 0, n)
  {
    for k := 0 to n
      invariant Moved(dst, old(View(src))[..n], 0, k)
    {
      dst.backing[dst.offset + k] := src.backing[src.offset + k];
    }
  }

  /** copy is memmove: the first cells of dst get what src held before, however the
      two overlap, and no other cell changes. */
  method CopySlice(dst: Slice, src: Slice) returns (n: nat)
    requires WF(dst) && WF(src)
    modifies dst.backing
    ensures n == Min(dst.length, src.length)
    ensures dst.backing[..] == Overwrite(old(dst.backing[..]), dst.offset, old(View(src))[..n])
  {
    n := Min(dst.length, src.length);
    if dst.backing == src.backing && dst.offset > src.offset {
      CopyBackward(dst, src, n);
    } else {
      CopyForward(dst, src, n);
    }
    IsOverwrite(dst.backing[..], old(dst.backing[..]), dst.offset, old(View(src))[..n]);
  }
}
