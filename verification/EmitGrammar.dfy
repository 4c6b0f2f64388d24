/** The Python tree of an expression, and when it is one that Python's grammar knows. */
module EmitGrammar {
  // The tree puts every node where the emitter means it to stand. The emitter writes
  // parentheses around operators but around neither a lambda nor a repeated list, so the
  // tree is read back only where nothing binds tighter than those.

  import opened Prelude
  import opened IR
  import opened EmitText
  import opened EmitExpr
  import opened EmitParts
  import opened PyGrammar

  // ----- The tree -----

  function Plain(t: Py): Item { Item(false, None, t, None) }

  function Word(name: string): Py { Name(Str(name)) }

  function RuntimeName(name: string): Py { Attr(Name([Shim]), Str(name)) }

  function Call0(x: Py, name: string): Py { Apply(Attr(x, Str(name)), []) }

  /** The operator a unary one is written as. */
  function PrefixOf(op: string): string {
    if op == "!" then "not" else if UnaryOp(op).Some? then op else ""
  }

  function InfixOf(op: string): string { if BinOp(op).Some? then BinOp(op).value else "" }

  function Repeat(elem: Py, count: Py): Py { Bin("*", List([Plain(elem)]), count) }

  function Each(elem: Py, count: Py): Py { Comp(elem, Apply(Word("range"), [Plain(count)])) }

  function UnboundCopy(typ: string, name: string): Py {
    Lam([Plain(Word("_s")), Item(true, None, Word("_a"), None)],
        Apply(Attr(Word(typ), Str(name)), [Plain(Call0(Word("_s"), "copy")), Item(true, None, Word("_a"), None)]))
  }

  function PyOf(e: Expr): Py
    decreases e, 0
  {
    match e
    case NilExpr => Missing
    case IntLit(text) => Word(text)
    case FloatLit(text) => Word(text)
    case StringLit(bytes) => Word(PyBytes(bytes))
    case BoolLit(value) => Word(if value then "True" else "False")
    case Ident(name) => Word(name)
    case Binary(op, x, y) => Paren([Plain(Bin(InfixOf(op), PyOf(x), PyOf(y)))], false)
    case Unary(op, x) => Paren([Plain(Un(PrefixOf(op), PyOf(x)))], false)
    case Mask(bits, signed, x) => Apply(RuntimeName(MaskHelper(bits, signed)), [Plain(PyOf(x))])
    case Convert(to, x) => Apply(Word(to), [Plain(PyOf(x))])
    case IndexExpr(x, index) => Index(PyOf(x), PyOf(index))
    case Call(name, args) => Apply(Word(name), PyArgs(args))
    case MethodCall(recv, name, args) => Apply(Attr(PyOf(recv), Str(name)), PyArgs(args))
    case MethodValue(recv, name, copy) => Attr(if copy then Call0(PyOf(recv), "copy") else PyOf(recv), Str(name))
    case MethodExpr(typ, name, valueCopy) => if valueCopy then UnboundCopy(typ, name) else Attr(Word(typ), Str(name))
    case Intrinsic(name, args) => Apply(RuntimeName(name), PyArgs(args))
    case ShimFunc(name) => RuntimeName(name)
    case FieldAccess(x, name) => Attr(PyOf(x), Str(name))
    case AddrField(container, name) =>
      Apply(RuntimeName("FieldPtr"), [Plain(PyOf(container)), Plain(Word(Quoted(name)))])
    case AddrIndex(sequence, index) => Apply(RuntimeName("IndexPtr"), [Plain(PyOf(sequence)), Plain(PyOf(index))])
    case Deref(x) => Call0(PyOf(x), "get")
    case Tuple(elems) => Paren(PyArgs(elems), |elems| == 1)
    case Lambda(params, captures, body) => Lam(Params(params) + PyCaptures(captures), PyOf(body))
    case StructLit(typ, keyed, fields) => Apply(Word(typ), PyFields(keyed, fields))
    case Clone(x) => Call0(PyOf(x), "copy")
    case ArrayZero(len, elem, elemMutable) =>
      if len == 0 then List([])
      else if elemMutable then Each(PyOf(elem), Word(Decimal(len)))
      else Repeat(PyOf(elem), Word(Decimal(len)))
    case ArrayLit(elems) => List(PyArgs(elems))
    case ArrayClone(x) => Apply(RuntimeName("_clone_array"), [Plain(PyOf(x))])
    case SliceLit(elems) => Apply(RuntimeName("_slice_lit"), [Plain(List(PyArgs(elems)))])
    case SliceMake(length, capacity, elem, elemMutable) =>
      var backing := if elemMutable then Each(PyOf(elem), PyOf(capacity)) else Repeat(PyOf(elem), PyOf(capacity));
      Apply(RuntimeName("Slice"), [Plain(backing), Plain(Word("0")), Plain(PyOf(length)), Plain(PyOf(capacity))])
    case SliceExpr(x, low, high, max) =>
      if max.None? then Range(PyOf(x), PyBound(low), PyBound(high))
      else
        Apply(RuntimeName("_subslice3"),
              [Plain(PyOf(x)), Plain(if low.None? then Word("0") else PyOf(low.value)),
               Plain(if high.None? then Missing else PyOf(high.value)), Plain(PyOf(max.value))])
    case NilSlice => RuntimeName("NIL_SLICE")
    case MapLit(entries) => Dict(PyEntries(entries))
    case NilMap => RuntimeName("NIL_MAP")
    case NilPtr => RuntimeName("NIL_PTR")
    case NilInterface => Word("None")
    case EmptyStruct => Paren([], false)
  }

  function PyBound(bound: Option<Expr>): Option<Py>
    decreases bound, 1
  {
    match bound
    case None => None
    case Some(e) => Some(PyOf(e))
  }

  function PyArgs(args: seq<Expr>): (items: seq<Item>)
    ensures |items| == |args|
    decreases args, 1
  {
    if args == [] then [] else [Plain(PyOf(args[0]))] + PyArgs(args[1..])
  }

  function Params(names: seq<string>): seq<Item> {
    if names == [] then [] else [Plain(Word(names[0]))] + Params(names[1..])
  }

  function PyCaptures(captures: seq<Capture<Expr>>): seq<Item>
    decreases captures, 1
  {
    if captures == [] then []
    else [Item(false, Some(Str(captures[0].param)), PyOf(captures[0].value), None)] + PyCaptures(captures[1..])
  }

  function PyFields(keyed: bool, fields: seq<StructArg>): seq<Item>
    decreases fields, 1
  {
    if fields == [] then []
    else
      [Item(false, if keyed then Some(Str(fields[0].name)) else None, PyOf(fields[0].value), None)]
      + PyFields(keyed, fields[1..])
  }

  function PyEntries(entries: seq<MapEntry>): seq<Item>
    decreases entries, 1
  {
    if entries == [] then []
    else [PyEntry(entries[0])] + PyEntries(entries[1..])
  }

  function PyEntry(entry: MapEntry): Item
    decreases entry, 1
  {
    Item(false, None, PyOf(entry.key), Some(PyOf(entry.value)))
  }

  // ----- Where a node may stand -----

  predicate IsLambda(e: Expr) { e.Lambda? || (e.MethodExpr? && e.valueCopy) }

  predicate IsRepeat(e: Expr) { e.ArrayZero? && e.len != 0 && !e.elemMutable }

  /** Written so that anything may follow. */
  predicate Tight(e: Expr) { !IsLambda(e) && !IsRepeat(e) }

  /** The operands of this node bind tightly enough, and none is left out. */
  predicate Place(e: Expr) {
    match e
    case NilExpr => false
    case Binary(op, x, y) =>
      BinOp(op).Some? && !IsLambda(x) && !IsLambda(y) && !(IsRepeat(y) && op in {"*", "//", "%"})
    case Unary(op, x) => UnaryOp(op).Some? && !IsLambda(x) && (op == "!" || !IsRepeat(x))
    case IndexExpr(x, _) => Tight(x)
    case MethodCall(recv, _, _) => Tight(recv)
    case MethodValue(recv, _, _) => Tight(recv)
    case FieldAccess(x, _) => Tight(x)
    case Deref(x) => Tight(x)
    case Clone(x) => Tight(x)
    case SliceMake(_, capacity, _, elemMutable) => elemMutable || Tight(capacity)
    case SliceExpr(x, _, high, max) => if max.None? then Tight(x) else high.Some?
    case _ => true
  }

  /** Every node that is written stands where it may. */
  predicate Sits(e: Expr) {
    Place(e) && forall i :: 0 <= i < |Written(e)| ==> Sits(Written(e)[i])
  }

  // ----- Grammatical exactly when every node sits -----

  predicate IsLeaf(e: Expr) {
    e.NilExpr? || e.IntLit? || e.FloatLit? || e.StringLit? || e.BoolLit? || e.Ident? || e.MethodExpr? || e.ShimFunc?
    || e.NilSlice? || e.NilMap? || e.NilPtr? || e.NilInterface? || e.EmptyStruct?
  }

  lemma LeafLevel(e: Expr)
    requires Tight(e) && IsLeaf(e)
    ensures Level(PyOf(e)) == TIGHTEST
  {
  }

  lemma NodeLevel(e: Expr)
    requires Tight(e) && !IsLeaf(e)
    ensures Level(PyOf(e)) == TIGHTEST
  {
  }

  lemma LooseLevel(e: Expr)
    requires !Tight(e)
    ensures Level(PyOf(e)) == if IsLambda(e) then 0 else 7
  {
  }

  lemma LevelIs(e: Expr)
    ensures Level(PyOf(e)) == if IsLambda(e) then 0 else if IsRepeat(e) then 7 else TIGHTEST
  {
    if !Tight(e) { LooseLevel(e); } else if IsLeaf(e) { LeafLevel(e); } else { NodeLevel(e); }
  }

  predicate Fits(e: Expr) { Grammatical(PyOf(e)) }

  predicate AllFit(es: seq<Expr>) { es == [] || (Fits(es[0]) && AllFit(es[1..])) }

  lemma {:induction false} AllFitMeans(es: seq<Expr>)
    ensures AllFit(es) <==> forall i :: 0 <= i < |es| ==> Fits(es[i])
  {
    if es != [] {
      AllFitMeans(es[1..]);
      assert forall i :: 0 <= i < |es[1..]| ==> es[1..][i] == es[i + 1];
      if Fits(es[0]) && AllFit(es[1..]) {
        forall i | 0 <= i < |es| ensures Fits(es[i]) { if i > 0 { assert es[1..][i - 1] == es[i]; } }
      }
    }
  }

  lemma {:induction false} FitConcat(a: seq<Expr>, b: seq<Expr>)
    ensures AllFit(a + b) <==> AllFit(a) && AllFit(b)
  {
    if a == [] {
      assert a + b == b;
    } else {
      assert (a + b)[1..] == a[1..] + b;
      FitConcat(a[1..], b);
    }
  }

  lemma FitOne(x: Expr)
    ensures AllFit([x]) <==> Fits(x)
  {
    assert [x][1..] == [];
  }

  lemma FitTwo(x: Expr, y: Expr)
    ensures AllFit([x, y]) <==> Fits(x) && Fits(y)
  {
    assert [x, y][1..] == [y];
    FitOne(y);
  }

  lemma ItemsCons(item: Item, more: seq<Item>)
    ensures AllGrammatical([item] + more) <==> ItemGrammatical(item) && AllGrammatical(more)
  {
    assert ([item] + more)[1..] == more;
  }

  lemma OneItem(item: Item)
    ensures AllGrammatical([item]) <==> ItemGrammatical(item)
  {
    assert [item][1..] == [];
  }

  lemma TwoItems(a: Item, b: Item)
    ensures AllGrammatical([a, b]) <==> ItemGrammatical(a) && ItemGrammatical(b)
  {
    assert [a, b][1..] == [b];
    OneItem(b);
  }

  lemma FourItems(a: Item, b: Item, c: Item, d: Item)
    ensures AllGrammatical([a, b, c, d]) <==>
            ItemGrammatical(a) && ItemGrammatical(b) && ItemGrammatical(c) && ItemGrammatical(d)
  {
    assert [a, b, c, d] == [a] + ([b] + [c, d]);
    ItemsCons(a, [b] + [c, d]);
    ItemsCons(b, [c, d]);
    TwoItems(c, d);
  }

  lemma PlainFits(t: Py)
    ensures ItemGrammatical(Plain(t)) <==> Grammatical(t)
  {
  }

  lemma AllCons(item: Item, more: seq<Item>, p: Item -> bool)
    ensures All([item] + more, p) <==> p(item) && All(more, p)
  {
    var items := [item] + more;
    if All(items, p) {
      assert p(items[0]);
      forall i | 0 <= i < |more| ensures p(more[i]) { assert more[i] == items[i + 1]; }
    }
    if p(item) && All(more, p) {
      forall i | 0 <= i < |items| ensures p(items[i]) { if i > 0 { assert items[i] == more[i - 1]; } }
    }
  }

  lemma {:induction false} ArgsFit(args: seq<Expr>)
    ensures AllGrammatical(PyArgs(args)) <==> AllFit(args)
    ensures All(PyArgs(args), IsPlain) && All(PyArgs(args), IsArgument)
  {
    if args != [] {
      var item, more := Plain(PyOf(args[0])), PyArgs(args[1..]);
      ArgsFit(args[1..]);
      ItemsCons(item, more);
      PlainFits(PyOf(args[0]));
      AllCons(item, more, IsPlain);
      AllCons(item, more, IsArgument);
    }
  }

  lemma {:induction false} ParamsFit(names: seq<string>, more: seq<Item>)
    ensures AllGrammatical(Params(names) + more) <==> AllGrammatical(more)
    ensures All(Params(names) + more, IsParameter) <==> All(more, IsParameter)
  {
    if names == [] {
      assert [] + more == more;
    } else {
      var item, rest := Plain(Word(names[0])), Params(names[1..]) + more;
      ParamsFit(names[1..], more);
      assert Params(names) + more == [item] + rest;
      ItemsCons(item, rest);
      PlainFits(Word(names[0]));
      AllCons(item, rest, IsParameter);
    }
  }

  lemma {:induction false} CapturesFit(captures: seq<Capture<Expr>>)
    ensures AllGrammatical(PyCaptures(captures)) <==> AllFit(Seeds(captures))
    ensures All(PyCaptures(captures), IsParameter)
  {
    if captures != [] {
      var item := Item(false, Some(Str(captures[0].param)), PyOf(captures[0].value), None);
      CapturesFit(captures[1..]);
      assert Seeds(captures)[1..] == Seeds(captures[1..]);
      ItemsCons(item, PyCaptures(captures[1..]));
      AllCons(item, PyCaptures(captures[1..]), IsParameter);
      assert ItemGrammatical(item) <==> Fits(captures[0].value);
    }
  }

  lemma {:induction false} FieldsFit(keyed: bool, fields: seq<StructArg>)
    ensures AllGrammatical(PyFields(keyed, fields)) <==> AllFit(FieldValues(fields))
    ensures All(PyFields(keyed, fields), IsArgument)
  {
    if fields != [] {
      var key := if keyed then Some(Str(fields[0].name)) else None;
      var item, more := Item(false, key, PyOf(fields[0].value), None), PyFields(keyed, fields[1..]);
      FieldsFit(keyed, fields[1..]);
      assert FieldValues(fields)[1..] == FieldValues(fields[1..]);
      ItemsCons(item, more);
      AllCons(item, more, IsArgument);
      assert ItemGrammatical(item) <==> Fits(fields[0].value);
    }
  }

  lemma {:induction false} EntriesFit(entries: seq<MapEntry>)
    ensures AllGrammatical(PyEntries(entries)) <==> AllFit(Keys(entries)) && AllFit(Values(entries))
    ensures All(PyEntries(entries), IsEntry)
  {
    if entries != [] {
      var item, more := PyEntry(entries[0]), PyEntries(entries[1..]);
      EntriesFit(entries[1..]);
      assert Keys(entries)[1..] == Keys(entries[1..]) && Values(entries)[1..] == Values(entries[1..]);
      ItemsCons(item, more);
      AllCons(item, more, IsEntry);
      EntryFits(entries[0]);
    }
  }

  lemma EntryFits(entry: MapEntry)
    ensures ItemGrammatical(PyEntry(entry)) <==> Fits(entry.key) && Fits(entry.value)
  {
  }

  /** The node fits exactly when its parts do and it is in its place. */
  predicate NodeFits(e: Expr) { Fits(e) <==> Place(e) && AllFit(Written(e)) }

  lemma ApplyFits(f: Py, items: seq<Item>)
    ensures Grammatical(Apply(f, items)) <==>
            Grammatical(f) && Level(f) == TIGHTEST && AllGrammatical(items) && All(items, IsArgument)
  {
  }

  lemma AttrFits(x: Py, name: Words)
    ensures Grammatical(Attr(x, name)) <==> Grammatical(x) && Level(x) == TIGHTEST
  {
  }

  lemma NamesFit(name: string)
    ensures Grammatical(RuntimeName(name)) && Grammatical(Word(name))
    ensures Level(RuntimeName(name)) == TIGHTEST == Level(Word(name))
  {
  }

  lemma ListNodeFits(e: Expr)
    requires e.Call? || e.Intrinsic? || e.Tuple? || e.ArrayLit?
    ensures NodeFits(e)
  {
    ArgsFit(Children(e));
    if e.Call? || e.Intrinsic? { NamesFit(e.name); }
  }

  lemma SliceLitFits(e: Expr)
    requires e.SliceLit?
    ensures NodeFits(e)
  {
    ArgsFit(e.elems);
    var t := List(PyArgs(e.elems));
    OneItem(Plain(t));
    PlainFits(t);
    NamesFit("_slice_lit");
    ApplyFits(RuntimeName("_slice_lit"), [Plain(t)]);
  }

  lemma MethodCallFits(e: Expr)
    requires e.MethodCall?
    ensures NodeFits(e)
  {
    ArgsFit(e.args);
    FitConcat([e.recv], e.args);
    FitOne(e.recv);
    LevelIs(e.recv);
    AttrFits(PyOf(e.recv), Str(e.name));
  }

  lemma LambdaFits(e: Expr)
    requires e.Lambda?
    ensures NodeFits(e)
  {
    CapturesFit(e.captures);
    ParamsFit(e.params, PyCaptures(e.captures));
    FitConcat(Seeds(e.captures), [e.body]);
    FitOne(e.body);
  }

  lemma StructLitFits(e: Expr)
    requires e.StructLit?
    ensures NodeFits(e)
  {
    FieldsFit(e.keyed, e.fields);
    NamesFit(e.typ);
    ApplyFits(Word(e.typ), PyFields(e.keyed, e.fields));
  }

  lemma MapLitFits(e: Expr)
    requires e.MapLit?
    ensures NodeFits(e)
  {
    EntriesFit(e.entries);
    FitConcat(Keys(e.entries), Values(e.entries));
  }

  lemma ParenFits(t: Py)
    ensures Grammatical(Paren([Plain(t)], false)) <==> Grammatical(t)
  {
    OneItem(Plain(t));
    PlainFits(t);
  }

  lemma InfixLevels(op: string)
    requires BinOp(op).Some?
    ensures 0 < LevelOf(InfixOf(op)) <= 7 && LeftLevel(InfixOf(op)) <= 7
    ensures LevelOf(InfixOf(op)) == 7 <==> op in {"*", "//", "%"}
  {
  }

  lemma BinaryFits(e: Expr)
    requires e.Binary?
    ensures NodeFits(e)
  {
    var t := Bin(InfixOf(e.op), PyOf(e.x), PyOf(e.y));
    ParenFits(t);
    FitTwo(e.x, e.y);
    LevelIs(e.x);
    LevelIs(e.y);
    if BinOp(e.op).Some? { InfixLevels(e.op); } else { assert LevelOf(InfixOf(e.op)) == 0; }
  }

  lemma UnaryFits(e: Expr)
    requires e.Unary?
    ensures NodeFits(e)
  {
    var t := Un(PrefixOf(e.op), PyOf(e.x));
    ParenFits(t);
    FitOne(e.x);
    LevelIs(e.x);
    PrefixLevels(e.op);
  }

  lemma PrefixLevels(op: string)
    ensures PrefixLevel(PrefixOf(op)) == if op == "!" then 3 else if UnaryOp(op).Some? then 8 else 0
  {
  }

  lemma IndexFits(e: Expr)
    requires e.IndexExpr?
    ensures NodeFits(e)
  {
    FitTwo(e.x, e.index);
    LevelIs(e.x);
  }

  lemma AddrIndexFits(e: Expr)
    requires e.AddrIndex?
    ensures NodeFits(e)
  {
    FitTwo(e.sequence, e.index);
    TwoItems(Plain(PyOf(e.sequence)), Plain(PyOf(e.index)));
    PlainFits(PyOf(e.sequence));
    PlainFits(PyOf(e.index));
    NamesFit("IndexPtr");
    ApplyFits(RuntimeName("IndexPtr"), [Plain(PyOf(e.sequence)), Plain(PyOf(e.index))]);
  }

  lemma CallOnOneFits(e: Expr)
    requires e.Mask? || e.Convert? || e.ArrayClone? || e.AddrField?
    ensures NodeFits(e)
  {
    var x := Children(e)[0];
    FitOne(x);
    OneItem(Plain(PyOf(x)));
    PlainFits(PyOf(x));
    match e
    case Mask(bits, signed, _) =>
      NamesFit(MaskHelper(bits, signed));
      ApplyFits(RuntimeName(MaskHelper(bits, signed)), [Plain(PyOf(x))]);
    case Convert(to, _) =>
      NamesFit(to);
      ApplyFits(Word(to), [Plain(PyOf(x))]);
    case ArrayClone(_) =>
      NamesFit("_clone_array");
      ApplyFits(RuntimeName("_clone_array"), [Plain(PyOf(x))]);
    case AddrField(_, name) =>
      var quoted := Word(Quoted(name));
      NamesFit("FieldPtr");
      TwoItems(Plain(PyOf(x)), Plain(quoted));
      PlainFits(quoted);
      ApplyFits(RuntimeName("FieldPtr"), [Plain(PyOf(x)), Plain(quoted)]);
  }

  lemma BaseFits(e: Expr)
    requires e.MethodValue? || e.FieldAccess? || e.Deref? || e.Clone?
    ensures NodeFits(e)
  {
    var x := Children(e)[0];
    FitOne(x);
    LevelIs(x);
    match e
    case MethodValue(_, name, copy) =>
      Call0Fits(PyOf(x), "copy");
      AttrFits(PyOf(x), Str(name));
      AttrFits(Call0(PyOf(x), "copy"), Str(name));
    case FieldAccess(_, name) => AttrFits(PyOf(x), Str(name));
    case Deref(_) => Call0Fits(PyOf(x), "get");
    case Clone(_) => Call0Fits(PyOf(x), "copy");
  }

  lemma Call0Fits(x: Py, name: string)
    ensures Grammatical(Call0(x, name)) <==> Grammatical(x) && Level(x) == TIGHTEST
  {
    AttrFits(x, Str(name));
    ApplyFits(Attr(x, Str(name)), []);
  }

  lemma EachFits(elem: Py, count: Py)
    ensures Grammatical(Each(elem, count)) <==> Grammatical(elem) && Grammatical(count)
  {
    OneItem(Plain(count));
    PlainFits(count);
    assert Grammatical(Apply(Word("range"), [Plain(count)])) <==> Grammatical(count);
  }

  lemma RepeatFits(elem: Py, count: Py)
    ensures Grammatical(Repeat(elem, count)) <==> Grammatical(elem) && Grammatical(count) && Level(count) > 7
  {
    OneItem(Plain(elem));
    PlainFits(elem);
    assert Grammatical(List([Plain(elem)])) <==> Grammatical(elem);
  }

  lemma ArrayZeroFits(e: Expr)
    requires e.ArrayZero?
    ensures NodeFits(e)
  {
    FitOne(e.elem);
    EachFits(PyOf(e.elem), Word(Decimal(e.len)));
    RepeatFits(PyOf(e.elem), Word(Decimal(e.len)));
  }

  lemma SliceMakeFits(e: Expr)
    requires e.SliceMake?
    ensures NodeFits(e)
  {
    var elem, l, c := PyOf(e.elem), PyOf(e.length), PyOf(e.capacity);
    assert Children(e) == [e.length, e.capacity] + [e.elem];
    FitConcat([e.length, e.capacity], [e.elem]);
    FitTwo(e.length, e.capacity);
    FitOne(e.elem);
    LevelIs(e.capacity);
    EachFits(elem, c);
    RepeatFits(elem, c);
    var backing := if e.elemMutable then Each(elem, c) else Repeat(elem, c);
    NamesFit("Slice");
    NamesFit("0");
    CallOnFourFits(RuntimeName("Slice"), PyOf(e).items, backing, Word("0"), l, c);
  }

  /** Four arguments, none under a key or a star. */
  predicate ArePlain(items: seq<Item>, a: Py, b: Py, c: Py, d: Py) {
    |items| == 4 && items[0] == Plain(a) && items[1] == Plain(b) && items[2] == Plain(c) && items[3] == Plain(d)
  }

  lemma FourPlain(items: seq<Item>, a: Py, b: Py, c: Py, d: Py)
    requires ArePlain(items, a, b, c, d)
    ensures AllGrammatical(items) <==> Grammatical(a) && Grammatical(b) && Grammatical(c) && Grammatical(d)
  {
    assert items == [Plain(a), Plain(b), Plain(c), Plain(d)];
    FourItems(Plain(a), Plain(b), Plain(c), Plain(d));
    PlainFits(a);
    PlainFits(b);
    PlainFits(c);
    PlainFits(d);
  }

  lemma FourArguments(items: seq<Item>, a: Py, b: Py, c: Py, d: Py)
    requires ArePlain(items, a, b, c, d)
    ensures All(items, IsArgument)
  {
    forall i | 0 <= i < 4 ensures IsArgument(items[i]) {
    }
  }

  lemma CallOnFourFits(f: Py, items: seq<Item>, a: Py, b: Py, c: Py, d: Py)
    requires Grammatical(f) && Level(f) == TIGHTEST && ArePlain(items, a, b, c, d)
    ensures Grammatical(Apply(f, items)) <==> Grammatical(a) && Grammatical(b) && Grammatical(c) && Grammatical(d)
  {
    FourPlain(items, a, b, c, d);
    FourArguments(items, a, b, c, d);
    ApplyFits(f, items);
  }

  lemma BoundFits(b: Option<Expr>)
    ensures AllFit(Bound(b)) <==> BoundGrammatical(PyBound(b))
    ensures b.Some? ==> (AllFit(Bound(b)) <==> Fits(b.value))
  {
    if b.Some? { FitOne(b.value); }
  }

  lemma SliceParts(e: Expr)
    requires e.SliceExpr?
    ensures AllFit(Children(e)) <==>
            Fits(e.x) && AllFit(Bound(e.low)) && AllFit(Bound(e.high)) && AllFit(Bound(e.max))
  {
    FitConcat([e.x] + Bound(e.low) + Bound(e.high), Bound(e.max));
    FitConcat([e.x] + Bound(e.low), Bound(e.high));
    FitConcat([e.x], Bound(e.low));
    FitOne(e.x);
  }

  lemma SliceExprFits(e: Expr)
    requires e.SliceExpr?
    ensures NodeFits(e)
  {
    SliceParts(e);
    BoundFits(e.low);
    BoundFits(e.high);
    BoundFits(e.max);
    LevelIs(e.x);
    if e.max.Some? {
      NamesFit("_subslice3");
      NamesFit("0");
      CallOnFourFits(RuntimeName("_subslice3"), PyOf(e).items, PyOf(e.x),
                     if e.low.None? then Word("0") else PyOf(e.low.value),
                     if e.high.None? then Missing else PyOf(e.high.value), PyOf(e.max.value));
    }
  }

  lemma UnboundCopyFits(typ: string, name: string)
    ensures Grammatical(UnboundCopy(typ, name))
  {
    var s, a := Word("_s"), Item(true, None, Word("_a"), None);
    TwoItems(Plain(s), a);
    TwoItems(Plain(Call0(s, "copy")), a);
    PlainFits(s);
    PlainFits(Call0(s, "copy"));
    Call0Fits(s, "copy");
    AttrFits(Word(typ), Str(name));
    ApplyFits(Attr(Word(typ), Str(name)), [Plain(Call0(s, "copy")), a]);
  }

  lemma NamedFits(e: Expr)
    requires e.MethodExpr? || e.ShimFunc?
    ensures NodeFits(e)
  {
    NamesFit(e.name);
    if e.MethodExpr? {
      UnboundCopyFits(e.typ, e.name);
      AttrFits(Word(e.typ), Str(e.name));
    }
  }

  lemma LeafFits(e: Expr)
    requires IsLeaf(e)
    ensures NodeFits(e)
  {
    if e.MethodExpr? || e.ShimFunc? { NamedFits(e); }
  }

  lemma OperandNodeFits(e: Expr)
    requires !IsLeaf(e)
    ensures NodeFits(e)
  {
    if e.Call? || e.Intrinsic? || e.Tuple? || e.ArrayLit? { ListNodeFits(e); }
    else if e.SliceLit? { SliceLitFits(e); }
    else if e.MethodCall? { MethodCallFits(e); }
    else if e.Lambda? { LambdaFits(e); }
    else if e.StructLit? { StructLitFits(e); }
    else if e.MapLit? { MapLitFits(e); }
    else if e.Binary? { BinaryFits(e); }
    else if e.Unary? { UnaryFits(e); }
    else if e.IndexExpr? { IndexFits(e); }
    else if e.AddrIndex? { AddrIndexFits(e); }
    else if e.Mask? || e.Convert? || e.ArrayClone? || e.AddrField? { CallOnOneFits(e); }
    else if e.MethodValue? || e.FieldAccess? || e.Deref? || e.Clone? { BaseFits(e); }
    else if e.ArrayZero? { ArrayZeroFits(e); }
    else if e.SliceMake? { SliceMakeFits(e); }
    else { SliceExprFits(e); }
  }

  /** The tree of an expression is grammatical exactly when each of its nodes sits. */
  lemma {:induction false} SitsExactly(e: Expr)
    ensures Fits(e) <==> Sits(e)
  {
    if IsLeaf(e) { LeafFits(e); } else { OperandNodeFits(e); }
    AllFitMeans(Written(e));
    forall i | 0 <= i < |Written(e)| ensures Fits(Written(e)[i]) <==> Sits(Written(e)[i]) {
      SitsExactly(Written(e)[i]);
    }
  }
}
