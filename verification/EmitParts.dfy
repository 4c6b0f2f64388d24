/** Where the text of a sub-expression stands in the text of the whole. */
module EmitParts {
  import opened Prelude
  import opened IR
  import opened EmitText
  import opened EmitExpr

  /** The part stands somewhere in the text, in one piece. */
  ghost predicate Contains(w: Words, part: Words) {
    exists before: Words, after: Words :: w == before + part + after
  }

  lemma Whole(w: Words)
    ensures Contains(w, w)
  {
    assert w == [] + w + [];
  }

  lemma ContainsThrough(w: Words, v: Words, part: Words)
    requires Contains(w, v) && Contains(v, part)
    ensures Contains(w, part)
  {
    var a, b :| w == a + v + b;
    var c, d :| v == c + part + d;
    assert w == (a + c) + part + (d + b);
  }

  lemma NotEmpty(w: Words, part: Words)
    requires Contains(w, part) && part != []
    ensures w != []
  {
  }

  lemma Between(before: Words, part: Words, after: Words)
    ensures Contains(before + part + after, part)
  {
  }

  lemma First(part: Words, after: Words)
    ensures Contains(part + after, part)
  {
    assert part + after == [] + part + after;
  }

  lemma Last(before: Words, part: Words)
    ensures Contains(before + part, part)
  {
    assert before + part == before + part + [];
  }

  lemma {:induction false} InJoin(ws: seq<Words>, i: nat)
    requires i < |ws|
    ensures Contains(Join(ws), ws[i])
  {
    if |ws| == 1 {
      Whole(ws[0]);
    } else if i == 0 {
      assert Join(ws) == ws[0] + (Str(", ") + Join(ws[1..]));
      First(ws[0], Str(", ") + Join(ws[1..]));
    } else {
      InJoin(ws[1..], i - 1);
      Last(ws[0] + Str(", "), Join(ws[1..]));
      ContainsThrough(Join(ws), Join(ws[1..]), ws[i]);
    }
  }

  /** The sub-expressions whose text is written: all but the element of an array of length
      zero. */
  function Written(e: Expr): (r: seq<Expr>)
    ensures forall i :: 0 <= i < |r| ==> r[i] < e
  {
    if e.ArrayZero? && e.len == 0 then [] else Children(e)
  }

  /** The text of a part is in the text of the whole. */
  ghost predicate Stands(w: Words, x: Expr) {
    Emit(x).Some? && Contains(w, Emit(x).value)
  }

  // ----- Lists -----

  lemma {:induction false} ArgStands(args: seq<Expr>, i: nat)
    requires EmitArgs(args).Some? && i < |args|
    ensures |EmitArgs(args).value| == |args| && Emit(args[i]) == Some(EmitArgs(args).value[i])
  {
    if i > 0 {
      ArgStands(args[1..], i - 1);
    } else if |args| > 1 {
      ArgStands(args[1..], 0);
    }
  }

  lemma {:induction false} CaptureStands(captures: seq<Capture<Expr>>, i: nat)
    requires EmitCaptures(captures).Some? && i < |captures|
    ensures var cs := EmitCaptures(captures).value;
            |cs| == |captures| && Emit(captures[i].value) == Some(cs[i].value)
  {
    if i > 0 {
      CaptureStands(captures[1..], i - 1);
    } else if |captures| > 1 {
      CaptureStands(captures[1..], 0);
    }
  }

  lemma {:induction false} FieldStands(keyed: bool, fields: seq<StructArg>, i: nat)
    requires EmitFields(keyed, fields).Some? && i < |fields|
    ensures var ws := EmitFields(keyed, fields).value;
            |ws| == |fields| && Stands(ws[i], fields[i].value)
  {
    if i > 0 {
      FieldStands(keyed, fields[1..], i - 1);
    } else {
      if |fields| > 1 { FieldStands(keyed, fields[1..], 0); }
      var w := Emit(fields[0].value).value;
      Whole(w);
      Last(Str(fields[0].name + "="), w);
    }
  }

  lemma {:induction false} EntryStands(entries: seq<MapEntry>, i: nat)
    requires EmitEntries(entries).Some? && i < |entries|
    ensures var ws := EmitEntries(entries).value;
            |ws| == |entries| && Stands(ws[i], entries[i].key) && Stands(ws[i], entries[i].value)
  {
    if i > 0 {
      EntryStands(entries[1..], i - 1);
    } else {
      if |entries| > 1 { EntryStands(entries[1..], 0); }
      var k, v := Emit(entries[0].key).value, Emit(entries[0].value).value;
      assert k + Str(": ") + v == k + (Str(": ") + v);
      First(k, Str(": ") + v);
      Last(k + Str(": "), v);
    }
  }

  lemma JoinStands(w: Words, before: Words, ws: seq<Words>, after: Words, i: nat, part: Words)
    requires w == before + Join(ws) + after && i < |ws| && Contains(ws[i], part)
    ensures Contains(w, part)
  {
    InJoin(ws, i);
    Between(before, Join(ws), after);
    ContainsThrough(w, Join(ws), ws[i]);
    ContainsThrough(w, ws[i], part);
  }

  lemma ListPartStands(e: Expr, i: nat)
    requires e.Call? || e.Intrinsic? || e.Tuple? || e.ArrayLit? || e.SliceLit?
    requires Emit(e).Some? && i < |Children(e)|
    ensures Stands(Emit(e).value, Children(e)[i])
  {
    var args := Children(e);
    ArgStands(args, i);
    var ws, w := EmitArgs(args).value, Emit(e).value;
    Whole(ws[i]);
    match e
    case Call(name, _) => JoinStands(w, Str(name + "("), ws, Str(")"), i, ws[i]);
    case Intrinsic(name, _) => JoinStands(w, Runtime(name + "("), ws, Str(")"), i, ws[i]);
    case Tuple(_) => JoinStands(w, Str("("), ws, Str(if |args| == 1 then ",)" else ")"), i, ws[i]);
    case ArrayLit(_) => JoinStands(w, Str("["), ws, Str("]"), i, ws[i]);
    case SliceLit(_) => JoinStands(w, Runtime("_slice_lit(["), ws, Str("])"), i, ws[i]);
  }

  lemma MethodCallPartStands(e: Expr, i: nat)
    requires e.MethodCall? && Emit(e).Some? && i < |Children(e)|
    ensures Stands(Emit(e).value, Children(e)[i])
  {
    var w, a := Emit(e).value, Emit(e.recv).value;
    var ws := EmitArgs(e.args).value;
    var name := Str("." + e.name + "(");
    if i == 0 {
      assert w == a + (name + Join(ws) + Str(")"));
      First(a, name + Join(ws) + Str(")"));
    } else {
      ArgStands(e.args, i - 1);
      Whole(ws[i - 1]);
      JoinStands(w, a + name, ws, Str(")"), i - 1, ws[i - 1]);
    }
  }

  lemma StructLitPartStands(e: Expr, i: nat)
    requires e.StructLit? && Emit(e).Some? && i < |Children(e)|
    ensures Stands(Emit(e).value, Children(e)[i])
  {
    FieldStands(e.keyed, e.fields, i);
    JoinStands(Emit(e).value, Str(e.typ + "("), EmitFields(e.keyed, e.fields).value, Str(")"), i,
               Emit(e.fields[i].value).value);
  }

  lemma MapLitPartStands(e: Expr, i: nat)
    requires e.MapLit? && Emit(e).Some? && i < |Children(e)|
    ensures Stands(Emit(e).value, Children(e)[i])
  {
    var n := |e.entries|;
    var k := if i < n then i else i - n;
    EntryStands(e.entries, k);
    var ws := EmitEntries(e.entries).value;
    JoinStands(Emit(e).value, Str("{"), ws, Str("}"), k, Emit(Children(e)[i]).value);
  }

  /** A seed stands in the signature, which then is not empty. */
  lemma SeedStands(params: seq<string>, captures: seq<Capture<Expr>>, i: nat)
    requires EmitCaptures(captures).Some? && i < |captures|
    ensures var sig := SignatureText(params, EmitCaptures(captures).value);
            sig != [] && Stands(sig, captures[i].value)
  {
    CaptureStands(captures, i);
    var caps := EmitCaptures(captures).value;
    var ws := Names(params) + Defaults(caps);
    var k, v := |params| + i, caps[i].value;
    assert ws[k] == Str(caps[i].param + "=") + v;
    Last(Str(caps[i].param + "="), v);
    InJoin(ws, k);
    ContainsThrough(Join(ws), ws[k], v);
    NotEmpty(Join(ws), ws[k]);
  }

  lemma LambdaPartStands(e: Expr, i: nat)
    requires e.Lambda? && Emit(e).Some? && i < |Children(e)|
    ensures Stands(Emit(e).value, Children(e)[i])
  {
    var b, w := Emit(e.body).value, Emit(e).value;
    var sig := SignatureText(e.params, EmitCaptures(e.captures).value);
    var head := if sig == [] then Str("lambda: ") else Str("lambda ") + sig + Str(": ");
    assert w == head + b;
    if i == |e.captures| {
      Last(head, b);
    } else {
      SeedStands(e.params, e.captures, i);
      assert w == Str("lambda ") + sig + (Str(": ") + b);
      Between(Str("lambda "), sig, Str(": ") + b);
      ContainsThrough(w, sig, Emit(e.captures[i].value).value);
    }
  }

  // ----- Fixed parts -----

  lemma OneOperand(w: Words, before: Words, x: Expr, after: Words)
    requires Emit(x).Some? && w == before + Emit(x).value + after
    ensures Stands(w, x)
  {
  }

  lemma BinaryPartStands(e: Expr, i: nat)
    requires e.Binary? && Emit(e).Some? && i < 2
    ensures Stands(Emit(e).value, Children(e)[i])
  {
    var a, b, w := Emit(e.x).value, Emit(e.y).value, Emit(e).value;
    var op := Str(" " + BinOp(e.op).value + " ");
    if i == 0 {
      assert w == Str("(") + a + (op + b + Str(")"));
      OneOperand(w, Str("("), e.x, op + b + Str(")"));
    } else {
      OneOperand(w, Str("(") + a + op, e.y, Str(")"));
    }
  }

  /** Two parts between what the node itself writes. */
  lemma TwoTexts(w: Words, before: Words, a: Words, mid: Words, b: Words, after: Words)
    requires w == before + a + mid + b + after
    ensures Contains(w, a) && Contains(w, b)
  {
    assert w == before + a + (mid + b + after);
    assert w == (before + a + mid) + b + after;
  }

  lemma IndexPartStands(e: Expr, i: nat)
    requires (e.IndexExpr? || e.AddrIndex?) && Emit(e).Some? && i < 2
    ensures Stands(Emit(e).value, Children(e)[i])
  {
    var w := Emit(e).value;
    if e.IndexExpr? {
      var a, b := Emit(e.x).value, Emit(e.index).value;
      assert w == [] + a + Str("[") + b + Str("]");
      TwoTexts(w, [], a, Str("["), b, Str("]"));
    } else {
      TwoTexts(w, Runtime("IndexPtr("), Emit(e.sequence).value, Str(", "), Emit(e.index).value, Str(")"));
    }
  }

  /** The operand that the text begins with, after what the node itself writes. */
  function Before(e: Expr): Words {
    match e
    case Unary(op, _) => if UnaryOp(op).Some? then Str("(" + UnaryOp(op).value) else []
    case Mask(bits, signed, _) => Runtime(MaskHelper(bits, signed) + "(")
    case Convert(to, _) => Str(to + "(")
    case AddrField(_, _) => Runtime("FieldPtr(")
    case ArrayZero(_, _, _) => Str("[")
    case ArrayClone(_) => Runtime("_clone_array(")
    case _ => []
  }

  lemma SinglePartStands(e: Expr)
    requires e.Unary? || e.Mask? || e.Convert? || e.MethodValue? || e.FieldAccess? || e.AddrField? || e.Deref?
             || e.Clone? || e.ArrayZero? || e.ArrayClone?
    requires Emit(e).Some? && Written(e) != []
    ensures Written(e) == Children(e) && |Children(e)| == 1 && Stands(Emit(e).value, Children(e)[0])
  {
    var x, w, before := Children(e)[0], Emit(e).value, Before(e);
    var a := Emit(x).value;
    assert w == before + a + w[|before| + |a|..];
    OneOperand(w, before, x, w[|before| + |a|..]);
  }

  lemma SliceMakePartStands(e: Expr, i: nat)
    requires e.SliceMake? && Emit(e).Some? && i < 3
    ensures Stands(Emit(e).value, Children(e)[i])
  {
    var l, c, a, w := Emit(e.length).value, Emit(e.capacity).value, Emit(e.elem).value, Emit(e).value;
    var backing := if e.elemMutable then Str("[") + a + Str(" for _ in range(") + c + Str(")]")
                   else Str("[") + a + Str("] * ") + c;
    assert w == Runtime("Slice(") + backing + Str(", 0, ") + l + (Str(", ") + c + Str(")"));
    TwoTexts(w, Runtime("Slice("), backing, Str(", 0, "), l, Str(", ") + c + Str(")"));
    if e.elemMutable {
      TwoTexts(backing, Str("["), a, Str(" for _ in range("), c, Str(")]"));
    } else {
      assert backing == Str("[") + a + Str("] * ") + c + [];
      TwoTexts(backing, Str("["), a, Str("] * "), c, []);
    }
    ContainsThrough(w, backing, a);
    ContainsThrough(w, backing, c);
  }

  /** The two-index form. */
  lemma ResliceStands(e: Expr)
    requires e.SliceExpr? && e.max.None? && Emit(e).Some?
    ensures Stands(Emit(e).value, e.x)
    ensures Contains(Emit(e).value, EmitBound(e.low).value) && Contains(Emit(e).value, EmitBound(e.high).value)
  {
    var w, a := Emit(e).value, Emit(e.x).value;
    var l, h := EmitBound(e.low).value, EmitBound(e.high).value;
    assert w == [] + a + Str("[") + l + (Str(":") + h + Str("]"));
    TwoTexts(w, [], a, Str("["), l, Str(":") + h + Str("]"));
    assert w == a + Str("[") + l + Str(":") + h + Str("]");
  }

  /** The three-index form, which writes a zero for an empty low bound. */
  lemma FullSliceStands(e: Expr)
    requires e.SliceExpr? && e.max.Some? && Emit(e).Some?
    ensures Stands(Emit(e).value, e.x) && Stands(Emit(e).value, e.max.value)
    ensures Contains(Emit(e).value, EmitBound(e.low).value) && Contains(Emit(e).value, EmitBound(e.high).value)
  {
    var w, a, m := Emit(e).value, Emit(e.x).value, Emit(e.max.value).value;
    var l, h := EmitBound(e.low).value, EmitBound(e.high).value;
    var low := if l == [] then Str("0") else l;
    assert w == Runtime("_subslice3(") + a + Str(", ") + low + (Str(", ") + h + Str(", ") + m + Str(")"));
    TwoTexts(w, Runtime("_subslice3("), a, Str(", "), low, Str(", ") + h + Str(", ") + m + Str(")"));
    var front := Runtime("_subslice3(") + a + Str(", ") + low + Str(", ");
    assert w == front + h + Str(", ") + m + Str(")");
    TwoTexts(w, front, h, Str(", "), m, Str(")"));
    if l == [] { assert w == [] + l + w; }
  }

  lemma SliceExprPartStands(e: Expr, i: nat)
    requires e.SliceExpr? && Emit(e).Some? && i < |Children(e)|
    ensures Stands(Emit(e).value, Children(e)[i])
  {
    if e.max.Some? { FullSliceStands(e); } else { ResliceStands(e); }
    SliceExprChild(e, i);
  }

  lemma SliceExprChild(e: Expr, i: nat)
    requires e.SliceExpr? && i < |Children(e)|
    ensures var x := Children(e)[i];
            x == e.x || e.low == Some(x) || e.high == Some(x) || e.max == Some(x)
  {
  }

  /** Whatever an expression is made of is in its text, but for the element of an array of
      length zero. */
  lemma PartStands(e: Expr, i: nat)
    requires Emit(e).Some? && i < |Written(e)|
    ensures Stands(Emit(e).value, Written(e)[i])
  {
    if e.Call? || e.Intrinsic? || e.Tuple? || e.ArrayLit? || e.SliceLit? {
      ListPartStands(e, i);
    } else if e.MethodCall? {
      MethodCallPartStands(e, i);
    } else if e.StructLit? {
      StructLitPartStands(e, i);
    } else if e.MapLit? {
      MapLitPartStands(e, i);
    } else if e.Lambda? {
      LambdaPartStands(e, i);
    } else if e.Binary? {
      BinaryPartStands(e, i);
    } else if e.IndexExpr? || e.AddrIndex? {
      IndexPartStands(e, i);
    } else if e.SliceMake? {
      SliceMakePartStands(e, i);
    } else if e.SliceExpr? {
      SliceExprPartStands(e, i);
    } else {
      SinglePartStands(e);
    }
  }
}
