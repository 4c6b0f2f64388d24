/** The text of an expression, token by token, and the tree it is read as. */
module EmitSpelling {
  import opened Prelude
  import opened IR
  import opened IRVerify
  import opened EmitText
  import opened EmitExpr
  import opened PyGrammar
  import opened EmitGrammar
  import F = EmitFields

  // ----- The tree's tokens spell the emitted text -----

  function TextOf(t: Py): Words { SpellAll(Print(t)) }

  function ItemsText(items: seq<Item>): Words { SpellAll(PrintItems(items)) }

  lemma {:induction false} SpellConcat(a: seq<Token>, b: seq<Token>)
    ensures SpellAll(a + b) == SpellAll(a) + SpellAll(b)
  {
    if a == [] {
      assert a + b == b;
    } else {
      assert (a + b)[1..] == a[1..] + b;
      SpellConcat(a[1..], b);
    }
  }

  lemma SpellOne(t: Token)
    ensures SpellAll([t]) == Spell(t)
  {
    assert [t][1..] == [];
  }

  /** Something between two tokens. */
  lemma SpellBetween(open: Token, ts: seq<Token>, close: Token)
    ensures SpellAll([open] + (ts + [close])) == Spell(open) + SpellAll(ts) + Spell(close)
  {
    SpellConcat([open], ts + [close]);
    SpellConcat(ts, [close]);
    SpellOne(open);
    SpellOne(close);
  }

  lemma SpellAfter(x: seq<Token>, open: Token, ts: seq<Token>, close: Token)
    ensures SpellAll(x + ([open] + (ts + [close]))) == SpellAll(x) + Spell(open) + SpellAll(ts) + Spell(close)
  {
    SpellConcat(x, [open] + (ts + [close]));
    SpellBetween(open, ts, close);
  }

  lemma SpellMiddle(a: seq<Token>, mid: Token, b: seq<Token>)
    ensures SpellAll(a + ([mid] + b)) == SpellAll(a) + Spell(mid) + SpellAll(b)
  {
    SpellConcat(a, [mid] + b);
    SpellConcat([mid], b);
    SpellOne(mid);
  }

  /** The last token taken out of the parentheses. */
  lemma Outside(a: seq<Token>, mid: seq<Token>, b: seq<Token>, close: seq<Token>)
    ensures a + (mid + (b + close)) == (a + (mid + b)) + close
  {
  }

  lemma WordText(name: string)
    ensures TextOf(Word(name)) == Str(name)
  {
    SpellOne(Atom(Str(name)));
  }

  lemma AttrText(x: Py, name: string)
    ensures TextOf(Attr(x, Str(name))) == TextOf(x) + Str("." + name)
  {
    SpellConcat(Print(x), [Dot, Atom(Str(name))]);
    SpellConcat([Dot], [Atom(Str(name))]);
    assert [Dot] + [Atom(Str(name))] == [Dot, Atom(Str(name))];
    SpellOne(Dot);
    SpellOne(Atom(Str(name)));
    StrConcat(".", name);
  }

  lemma RuntimeText(name: string)
    ensures TextOf(RuntimeName(name)) == Runtime(name)
  {
    AttrText(Name([Shim]), name);
    SpellOne(Atom([Shim]));
  }

  lemma ApplyText(f: Py, items: seq<Item>)
    ensures TextOf(Apply(f, items)) == TextOf(f) + Str("(") + ItemsText(items) + Str(")")
  {
    SpellAfter(Print(f), OpenParen, PrintItems(items), CloseParen);
  }

  lemma ListText(items: seq<Item>)
    ensures TextOf(List(items)) == Str("[") + ItemsText(items) + Str("]")
  {
    SpellBetween(OpenBracket, PrintItems(items), CloseBracket);
  }

  lemma DictText(items: seq<Item>)
    ensures TextOf(Dict(items)) == Str("{") + ItemsText(items) + Str("}")
  {
    SpellBetween(OpenBrace, PrintItems(items), CloseBrace);
  }

  lemma TupleSpelled(w: Words)
    ensures Str("(") + (w + (Str(",") + Str(")"))) == Str("(") + w + Str(",)")
  {
    assert ",)" == "," + ")";
    StrConcat(",", ")");
  }

  lemma TupleText(ts: seq<Token>)
    ensures SpellAll([OpenParen] + (ts + ([Comma(false)] + [CloseParen]))) == Str("(") + SpellAll(ts) + Str(",)")
  {
    SpellConcat([OpenParen], ts + ([Comma(false)] + [CloseParen]));
    SpellConcat(ts, [Comma(false)] + [CloseParen]);
    SpellConcat([Comma(false)], [CloseParen]);
    SpellOne(OpenParen);
    SpellOne(Comma(false));
    SpellOne(CloseParen);
    TupleSpelled(SpellAll(ts));
  }

  lemma ParenText(items: seq<Item>, comma: bool)
    ensures TextOf(Paren(items, comma)) == Str("(") + ItemsText(items) + Str(if comma then ",)" else ")")
  {
    if comma {
      TupleText(PrintItems(items));
    } else {
      assert [] + [CloseParen] == [CloseParen];
      SpellBetween(OpenParen, PrintItems(items), CloseParen);
    }
  }

  lemma IndexText(x: Py, index: Py)
    ensures TextOf(Index(x, index)) == TextOf(x) + Str("[") + TextOf(index) + Str("]")
  {
    SpellAfter(Print(x), OpenBracket, Print(index), CloseBracket);
  }

  lemma RangeSpelled(x: Words, l: Words, h: Words)
    ensures x + Str("[") + (l + Str(":") + h) + Str("]") == x + Str("[") + l + Str(":") + h + Str("]")
  {
  }

  lemma RangeText(x: Py, low: Option<Py>, high: Option<Py>)
    ensures TextOf(Range(x, low, high)) ==
            TextOf(x) + Str("[") + SpellAll(PrintBound(low)) + Str(":") + SpellAll(PrintBound(high)) + Str("]")
  {
    var a, b := PrintBound(low), PrintBound(high);
    Outside(a, [Colon(false)], b, [CloseBracket]);
    SpellAfter(Print(x), OpenBracket, a + ([Colon(false)] + b), CloseBracket);
    SpellMiddle(a, Colon(false), b);
    RangeSpelled(TextOf(x), SpellAll(a), SpellAll(b));
  }

  lemma BinText(op: string, x: Py, y: Py)
    ensures TextOf(Bin(op, x, y)) == TextOf(x) + Str(" " + op + " ") + TextOf(y)
  {
    SpellMiddle(Print(x), Op(op, true), Print(y));
  }

  lemma UnText(op: string, x: Py)
    ensures TextOf(Un(op, x)) == Str(if op == "not" then "not " else op) + TextOf(x)
  {
    SpellConcat([Op(op, false)], Print(x));
    SpellOne(Op(op, false));
  }

  lemma CompSpells(a: seq<Token>, b: seq<Token>)
    ensures SpellAll([OpenBracket] + (a + ([ForIn] + (b + [CloseBracket])))) ==
            Str("[") + (SpellAll(a) + Str(" for _ in ") + SpellAll(b)) + Str("]")
  {
    Outside(a, [ForIn], b, [CloseBracket]);
    SpellBetween(OpenBracket, a + ([ForIn] + b), CloseBracket);
    SpellMiddle(a, ForIn, b);
  }

  lemma CompText(elem: Py, source: Py)
    ensures TextOf(Comp(elem, source)) == Str("[") + (TextOf(elem) + Str(" for _ in ") + TextOf(source)) + Str("]")
  {
    CompSpells(Print(elem), Print(source));
  }

  lemma LamText(items: seq<Item>, body: Py)
    ensures TextOf(Lam(items, body)) ==
            Str(if items != [] then "lambda " else "lambda") + ItemsText(items) + Str(": ") + TextOf(body)
  {
    var head := LambdaWord(items != []);
    SpellConcat([head], PrintItems(items) + ([Colon(true)] + Print(body)));
    SpellMiddle(PrintItems(items), Colon(true), Print(body));
    SpellOne(head);
  }

  // ----- Lists of items -----

  function ItemText(item: Item): Words { SpellAll(PrintItem(item)) }

  lemma PlainText(t: Py)
    ensures ItemText(Plain(t)) == TextOf(t)
  {
    assert PrintItem(Plain(t)) == Print(t);
  }

  lemma KeyText(key: string, t: Py)
    ensures ItemText(Item(false, Some(Str(key)), t, None)) == Str(key + "=") + TextOf(t)
  {
    var head := [Atom(Str(key)), Equals];
    assert PrintItem(Item(false, Some(Str(key)), t, None)) == head + Print(t);
    SpellConcat(head, Print(t));
    assert head == [Atom(Str(key))] + [Equals];
    SpellConcat([Atom(Str(key))], [Equals]);
    SpellOne(Atom(Str(key)));
    SpellOne(Equals);
    StrConcat(key, "=");
  }

  lemma StarText(t: Py)
    ensures ItemText(Item(true, None, t, None)) == Str("*") + TextOf(t)
  {
    assert PrintItem(Item(true, None, t, None)) == [Op("*", false)] + Print(t);
    SpellConcat([Op("*", false)], Print(t));
    SpellOne(Op("*", false));
  }

  lemma PairText(k: Py, v: Py)
    ensures ItemText(Item(false, None, k, Some(v))) == TextOf(k) + Str(": ") + TextOf(v)
  {
    assert PrintItem(Item(false, None, k, Some(v))) == Print(k) + ([Colon(true)] + Print(v));
    SpellConcat(Print(k), [Colon(true)] + Print(v));
    SpellConcat([Colon(true)], Print(v));
    SpellOne(Colon(true));
  }

  function Texts(items: seq<Item>): seq<Words> {
    if items == [] then [] else [ItemText(items[0])] + Texts(items[1..])
  }

  lemma {:induction false} ItemsJoin(items: seq<Item>)
    ensures ItemsText(items) == Join(Texts(items)) && |Texts(items)| == |items|
  {
    if |items| == 1 {
      assert Texts(items[1..]) == [];
    } else if items != [] {
      ItemsJoin(items[1..]);
      var more := PrintItems(items[1..]);
      SpellConcat(PrintItem(items[0]), [Comma(true)] + more);
      SpellConcat([Comma(true)], more);
      SpellOne(Comma(true));
      assert Texts(items)[1..] == Texts(items[1..]);
    }
  }

  lemma {:induction false} TextsConcat(a: seq<Item>, b: seq<Item>)
    ensures Texts(a + b) == Texts(a) + Texts(b)
  {
    if a == [] {
      assert a + b == b;
    } else {
      assert (a + b)[1..] == a[1..] + b;
      TextsConcat(a[1..], b);
    }
  }

  lemma OneText(t: Py)
    ensures ItemsText([Plain(t)]) == TextOf(t)
  {
    PlainText(t);
  }

  lemma ConsText(item: Item, more: seq<Item>)
    requires more != []
    ensures ItemsText([item] + more) == ItemText(item) + Str(", ") + ItemsText(more)
  {
    assert ([item] + more)[1..] == more;
    SpellMiddle(PrintItem(item), Comma(true), PrintItems(more));
  }

  lemma LastText(item: Item)
    ensures ItemsText([item]) == ItemText(item)
  {
  }

  lemma PairOfTexts(a: Item, b: Item)
    ensures ItemsText([a, b]) == ItemText(a) + Str(", ") + ItemText(b)
  {
    assert [a, b] == [a] + [b];
    ConsText(a, [b]);
    LastText(b);
  }

  lemma FourItemsText(a: Item, b: Item, c: Item, d: Item)
    ensures ItemsText([a] + ([b] + ([c] + [d]))) ==
            ItemText(a) + Str(", ") + (ItemText(b) + Str(", ") + (ItemText(c) + Str(", ") + ItemText(d)))
  {
    ConsText(a, [b] + ([c] + [d]));
    ConsText(b, [c] + [d]);
    ConsText(c, [d]);
    LastText(d);
  }

  lemma FourTexts(a: Py, b: Py, c: Py, d: Py)
    ensures ItemsText([Plain(a), Plain(b), Plain(c), Plain(d)]) ==
            TextOf(a) + Str(", ") + (TextOf(b) + Str(", ") + (TextOf(c) + Str(", ") + TextOf(d)))
  {
    assert [Plain(a), Plain(b), Plain(c), Plain(d)] == [Plain(a)] + ([Plain(b)] + ([Plain(c)] + [Plain(d)]));
    FourItemsText(Plain(a), Plain(b), Plain(c), Plain(d));
    PlainText(a);
    PlainText(b);
    PlainText(c);
    PlainText(d);
  }

  // ----- Every expression -----

  predicate TextIs(e: Expr) { Emit(e).Some? ==> TextOf(PyOf(e)) == Emit(e).value }

  predicate AllTexts(es: seq<Expr>) { es == [] || (TextIs(es[0]) && AllTexts(es[1..])) }

  lemma {:induction false} AllTextsAt(es: seq<Expr>, i: nat)
    requires AllTexts(es) && i < |es|
    ensures TextIs(es[i])
  {
    if i > 0 { AllTextsAt(es[1..], i - 1); }
  }

  lemma {:induction false} AllTextsFrom(es: seq<Expr>)
    requires forall i :: 0 <= i < |es| ==> TextIs(es[i])
    ensures AllTexts(es)
  {
    if es != [] { AllTextsFrom(es[1..]); }
  }

  lemma {:induction false} AllTextsSplit(a: seq<Expr>, b: seq<Expr>)
    requires AllTexts(a + b)
    ensures AllTexts(a) && AllTexts(b)
  {
    if a == [] {
      assert a + b == b;
    } else {
      assert (a + b)[1..] == a[1..] + b;
      AllTextsSplit(a[1..], b);
    }
  }

  lemma {:induction false} ArgsTexts(args: seq<Expr>)
    requires AllTexts(args) && EmitArgs(args).Some?
    ensures Texts(PyArgs(args)) == EmitArgs(args).value
    ensures ItemsText(PyArgs(args)) == Join(EmitArgs(args).value)
  {
    if args != [] {
      ArgsTexts(args[1..]);
      PlainText(PyOf(args[0]));
      assert PyArgs(args)[1..] == PyArgs(args[1..]);
    }
    ItemsJoin(PyArgs(args));
  }

  lemma NamesCons(names: seq<string>)
    requires names != []
    ensures Names(names) == [Str(names[0])] + Names(names[1..])
  {
  }

  lemma TextsCons(item: Item, more: seq<Item>)
    ensures Texts([item] + more) == [ItemText(item)] + Texts(more)
  {
    assert ([item] + more)[1..] == more;
  }

  lemma ParamText(name: string)
    ensures ItemText(Plain(Word(name))) == Str(name)
  {
    PlainText(Word(name));
    WordText(name);
  }

  lemma {:induction false} ParamsTexts(names: seq<string>)
    ensures Texts(Params(names)) == Names(names)
  {
    if names == [] {
      assert Names(names) == [];
    } else {
      ParamsTexts(names[1..]);
      ParamText(names[0]);
      TextsCons(Plain(Word(names[0])), Params(names[1..]));
      NamesCons(names);
    }
  }

  lemma DefaultsCons(c: Capture<Words>, cs: seq<Capture<Words>>)
    ensures Defaults([c] + cs) == [Str(c.param + "=") + c.value] + Defaults(cs)
  {
  }

  lemma {:induction false} CapturesTexts(captures: seq<Capture<Expr>>)
    requires AllTexts(Seeds(captures)) && EmitCaptures(captures).Some?
    ensures Texts(PyCaptures(captures)) == Defaults(EmitCaptures(captures).value)
  {
    if captures == [] {
      assert Defaults([]) == [];
    } else {
      assert Seeds(captures)[1..] == Seeds(captures[1..]);
      CapturesTexts(captures[1..]);
      KeyText(captures[0].param, PyOf(captures[0].value));
      assert PyCaptures(captures)[1..] == PyCaptures(captures[1..]);
      var c := Capture(captures[0].param, Emit(captures[0].value).value);
      DefaultsCons(c, EmitCaptures(captures[1..]).value);
    }
  }

  lemma {:induction false} FieldsTexts(keyed: bool, fields: seq<StructArg>)
    requires AllTexts(FieldValues(fields)) && EmitFields(keyed, fields).Some?
    ensures Texts(PyFields(keyed, fields)) == EmitFields(keyed, fields).value
  {
    if fields != [] {
      assert FieldValues(fields)[1..] == FieldValues(fields[1..]);
      FieldsTexts(keyed, fields[1..]);
      KeyText(fields[0].name, PyOf(fields[0].value));
      PlainText(PyOf(fields[0].value));
      assert PyFields(keyed, fields)[1..] == PyFields(keyed, fields[1..]);
    }
  }

  lemma {:induction false} EntriesTexts(entries: seq<MapEntry>)
    requires AllTexts(Keys(entries)) && AllTexts(Values(entries)) && EmitEntries(entries).Some?
    ensures Texts(PyEntries(entries)) == EmitEntries(entries).value
  {
    if entries != [] {
      assert Keys(entries)[1..] == Keys(entries[1..]) && Values(entries)[1..] == Values(entries[1..]);
      EntriesTexts(entries[1..]);
      PairText(PyOf(entries[0].key), PyOf(entries[0].value));
      assert PyEntries(entries)[1..] == PyEntries(entries[1..]);
    }
  }

  lemma CallOf(name: string, items: seq<Item>)
    ensures TextOf(Apply(Word(name), items)) == Str(name + "(") + ItemsText(items) + Str(")")
  {
    ApplyText(Word(name), items);
    WordText(name);
    StrConcat(name, "(");
  }

  lemma RuntimeCallOf(name: string, items: seq<Item>)
    ensures TextOf(Apply(RuntimeName(name), items)) == Runtime(name + "(") + ItemsText(items) + Str(")")
  {
    ApplyText(RuntimeName(name), items);
    RuntimeText(name);
    assert "." + (name + "(") == ("." + name) + "(";
    StrConcat("." + name, "(");
  }

  lemma MethodOf(x: Py, name: string, items: seq<Item>)
    ensures TextOf(Apply(Attr(x, Str(name)), items)) ==
            TextOf(x) + Str("." + name + "(") + ItemsText(items) + Str(")")
  {
    ApplyText(Attr(x, Str(name)), items);
    AttrText(x, name);
    StrConcat("." + name, "(");
  }

  lemma Call0Text(x: Py, name: string)
    ensures TextOf(Call0(x, name)) == TextOf(x) + Str("." + name + "()")
  {
    MethodOf(x, name, []);
    assert "." + name + "()" == ("." + name + "(") + ")";
    StrConcat("." + name + "(", ")");
  }

  lemma SliceLitTexts(e: Expr)
    requires e.SliceLit? && AllTexts(Children(e))
    ensures TextIs(e)
  {
    if EmitArgs(e.elems).Some? {
      ArgsTexts(e.elems);
      SliceLitText(PyArgs(e.elems));
    }
  }

  lemma CallNodeTexts(e: Expr)
    requires (e.Call? || e.Intrinsic?) && AllTexts(Children(e))
    ensures TextIs(e)
  {
    if EmitArgs(e.args).Some? {
      ArgsTexts(e.args);
      if e.Call? { CallOf(e.name, PyArgs(e.args)); } else { RuntimeCallOf(e.name, PyArgs(e.args)); }
    }
  }

  lemma TupleTexts(e: Expr)
    requires e.Tuple? && AllTexts(Children(e))
    ensures TextIs(e)
  {
    if EmitArgs(e.elems).Some? {
      ArgsTexts(e.elems);
      ParenText(PyArgs(e.elems), |e.elems| == 1);
    }
  }

  lemma ArrayLitTexts(e: Expr)
    requires e.ArrayLit? && AllTexts(Children(e))
    ensures TextIs(e)
  {
    if EmitArgs(e.elems).Some? {
      ArgsTexts(e.elems);
      ListText(PyArgs(e.elems));
    }
  }

  lemma SliceLitSpelled(w: Words)
    ensures Runtime("_slice_lit(") + (Str("[") + w + Str("]")) + Str(")") == Runtime("_slice_lit([") + w + Str("])")
  {
    assert "." + "_slice_lit([" == ("." + "_slice_lit(") + "[" && "])" == "]" + ")";
    StrConcat("." + "_slice_lit(", "[");
    StrConcat("]", ")");
  }

  lemma SliceLitText(items: seq<Item>)
    ensures TextOf(Apply(RuntimeName("_slice_lit"), [Plain(List(items))])) ==
            Runtime("_slice_lit([") + ItemsText(items) + Str("])")
  {
    RuntimeCallOf("_slice_lit", [Plain(List(items))]);
    OneText(List(items));
    ListText(items);
    assert "_slice_lit" + "(" == "_slice_lit(";
    SliceLitSpelled(ItemsText(items));
  }

  lemma MethodCallTexts(e: Expr)
    requires e.MethodCall? && AllTexts(Children(e))
    ensures TextIs(e)
  {
    AllTextsSplit([e.recv], e.args);
    if Emit(e).Some? {
      ArgsTexts(e.args);
      MethodOf(PyOf(e.recv), e.name, PyArgs(e.args));
    }
  }

  lemma StructLitTexts(e: Expr)
    requires e.StructLit? && AllTexts(Children(e))
    ensures TextIs(e)
  {
    if Emit(e).Some? {
      FieldsTexts(e.keyed, e.fields);
      ItemsJoin(PyFields(e.keyed, e.fields));
      CallOf(e.typ, PyFields(e.keyed, e.fields));
    }
  }

  lemma MapLitTexts(e: Expr)
    requires e.MapLit? && AllTexts(Children(e))
    ensures TextIs(e)
  {
    AllTextsSplit(Keys(e.entries), Values(e.entries));
    if Emit(e).Some? {
      EntriesTexts(e.entries);
      ItemsJoin(PyEntries(e.entries));
      DictText(PyEntries(e.entries));
    }
  }

  /** Parameters with names leave no signature empty. */
  lemma {:induction false} SignatureEmpty(params: seq<string>, captures: seq<Capture<Words>>)
    requires Named(params)
    ensures SignatureText(params, captures) == [] <==> params == [] && captures == []
  {
    var ws := Names(params) + Defaults(captures);
    if params != [] {
      assert ws[0] == Str(params[0]) && params[0] != "";
      JoinNotEmpty(ws);
    } else if captures != [] {
      assert ws[0] == Str(captures[0].param + "=") + captures[0].value;
      JoinNotEmpty(ws);
    }
  }

  lemma JoinNotEmpty(ws: seq<Words>)
    requires ws != [] && ws[0] != []
    ensures Join(ws) != []
  {
  }

  lemma {:induction false} CaptureCount(captures: seq<Capture<Expr>>)
    requires EmitCaptures(captures).Some?
    ensures |EmitCaptures(captures).value| == |captures| == |PyCaptures(captures)|
  {
    if captures != [] { CaptureCount(captures[1..]); }
  }

  lemma SignatureIs(e: Expr)
    requires e.Lambda? && Named(e.params) && AllTexts(Seeds(e.captures)) && EmitCaptures(e.captures).Some?
    ensures var items := Params(e.params) + PyCaptures(e.captures);
            var sig := SignatureText(e.params, EmitCaptures(e.captures).value);
            ItemsText(items) == sig && (items == [] <==> sig == [])
  {
    var items := Params(e.params) + PyCaptures(e.captures);
    CapturesTexts(e.captures);
    ParamsTexts(e.params);
    TextsConcat(Params(e.params), PyCaptures(e.captures));
    ItemsJoin(items);
    CaptureCount(e.captures);
    SignatureEmpty(e.params, EmitCaptures(e.captures).value);
  }

  function LambdaWords(sig: Words, body: Words): Words {
    (if sig == [] then Str("lambda: ") else Str("lambda ") + sig + Str(": ")) + body
  }

  lemma LambdaSpelled(sig: Words, body: Words)
    ensures Str(if sig != [] then "lambda " else "lambda") + sig + Str(": ") + body == LambdaWords(sig, body)
  {
    if sig == [] {
      assert "lambda: " == "lambda" + ": ";
      StrConcat("lambda", ": ");
      assert Str("lambda") + sig == Str("lambda");
    }
  }

  lemma LambdaEmits(e: Expr)
    requires e.Lambda? && Emit(e).Some?
    ensures EmitCaptures(e.captures).Some? && Emit(e.body).Some?
    ensures Emit(e).value ==
            LambdaWords(SignatureText(e.params, EmitCaptures(e.captures).value), Emit(e.body).value)
  {
  }

  lemma LambdaTexts(e: Expr)
    requires e.Lambda? && Named(e.params) && AllTexts(Children(e))
    ensures TextIs(e)
  {
    AllTextsSplit(Seeds(e.captures), [e.body]);
    if Emit(e).Some? {
      var items := Params(e.params) + PyCaptures(e.captures);
      LambdaEmits(e);
      SignatureIs(e);
      LamText(items, PyOf(e.body));
      LambdaSpelled(ItemsText(items), TextOf(PyOf(e.body)));
    }
  }

  // ----- Operators, bases and bounds -----

  lemma OneOf(x: Expr)
    requires AllTexts([x])
    ensures TextIs(x)
  {
  }

  lemma TwoOf(x: Expr, y: Expr)
    requires AllTexts([x, y])
    ensures TextIs(x) && TextIs(y)
  {
    AllTextsAt([x, y], 0);
    AllTextsAt([x, y], 1);
  }

  lemma InfixText(op: string, x: Py, y: Py)
    ensures TextOf(Paren([Plain(Bin(op, x, y))], false)) ==
            Str("(") + (TextOf(x) + Str(" " + op + " ") + TextOf(y)) + Str(")")
  {
    ParenText([Plain(Bin(op, x, y))], false);
    OneText(Bin(op, x, y));
    BinText(op, x, y);
  }

  lemma BinaryEmits(e: Expr)
    requires e.Binary? && Emit(e).Some?
    ensures Emit(e.x).Some? && Emit(e.y).Some? && BinOp(e.op).Some?
    ensures Emit(e).value ==
            Str("(") + (Emit(e.x).value + Str(" " + BinOp(e.op).value + " ") + Emit(e.y).value) + Str(")")
  {
  }

  lemma BinaryTexts(e: Expr)
    requires e.Binary? && AllTexts(Children(e))
    ensures TextIs(e)
  {
    TwoOf(e.x, e.y);
    if Emit(e).Some? {
      BinaryEmits(e);
      InfixText(InfixOf(e.op), PyOf(e.x), PyOf(e.y));
    }
  }

  lemma PrefixSpelled(op: string)
    requires UnaryOp(op).Some?
    ensures (if PrefixOf(op) == "not" then "not " else PrefixOf(op)) == UnaryOp(op).value
  {
    assert "-" != "not" && "+" != "not";
  }

  lemma UnarySpelled(o: string, w: Words)
    ensures Str("(") + (Str(o) + w) + Str(")") == Str("(" + o) + w + Str(")")
  {
    StrConcat("(", o);
  }

  lemma UnaryText(op: string, x: Py)
    requires UnaryOp(op).Some?
    ensures TextOf(Paren([Plain(Un(PrefixOf(op), x))], false)) == Str("(" + UnaryOp(op).value) + TextOf(x) + Str(")")
  {
    var t := Un(PrefixOf(op), x);
    ParenText([Plain(t)], false);
    OneText(t);
    UnText(PrefixOf(op), x);
    PrefixSpelled(op);
    UnarySpelled(UnaryOp(op).value, TextOf(x));
  }

  lemma UnaryTexts(e: Expr)
    requires e.Unary? && AllTexts(Children(e))
    ensures TextIs(e)
  {
    OneOf(e.x);
    if Emit(e).Some? { UnaryText(e.op, PyOf(e.x)); }
  }

  lemma MaskTexts(e: Expr)
    requires e.Mask? && AllTexts(Children(e))
    ensures TextIs(e)
  {
    OneOf(e.x);
    OneText(PyOf(e.x));
    RuntimeCallOf(MaskHelper(e.bits, e.signed), [Plain(PyOf(e.x))]);
  }

  lemma ConvertTexts(e: Expr)
    requires e.Convert? && AllTexts(Children(e))
    ensures TextIs(e)
  {
    OneOf(e.x);
    OneText(PyOf(e.x));
    CallOf(e.to, [Plain(PyOf(e.x))]);
  }

  lemma ArrayCloneTexts(e: Expr)
    requires e.ArrayClone? && AllTexts(Children(e))
    ensures TextIs(e)
  {
    OneOf(e.x);
    OneText(PyOf(e.x));
    RuntimeCallOf("_clone_array", [Plain(PyOf(e.x))]);
    assert "_clone_array" + "(" == "_clone_array(";
  }

  lemma AddrText(name: string, a: Py, b: Py)
    ensures TextOf(Apply(RuntimeName(name), [Plain(a), Plain(b)])) ==
            Runtime(name + "(") + (TextOf(a) + Str(", ") + TextOf(b)) + Str(")")
  {
    RuntimeCallOf(name, [Plain(a), Plain(b)]);
    PairOfTexts(Plain(a), Plain(b));
    PlainText(a);
    PlainText(b);
  }

  lemma AddrFieldEmits(e: Expr)
    requires e.AddrField? && Emit(e).Some?
    ensures Emit(e.container).Some?
    ensures Emit(e).value ==
            Runtime("FieldPtr(") + (Emit(e.container).value + Str(", ") + Str(Quoted(e.name))) + Str(")")
  {
    StrConcat(", ", Quoted(e.name));
    StrConcat(", " + Quoted(e.name), ")");
  }

  lemma AddrFieldTexts(e: Expr)
    requires e.AddrField? && AllTexts(Children(e))
    ensures TextIs(e)
  {
    OneOf(e.container);
    if Emit(e).Some? {
      AddrFieldEmits(e);
      AddrText("FieldPtr", PyOf(e.container), Word(Quoted(e.name)));
      WordText(Quoted(e.name));
      assert "FieldPtr" + "(" == "FieldPtr(";
    }
  }

  lemma AddrIndexEmits(e: Expr)
    requires e.AddrIndex? && Emit(e).Some?
    ensures Emit(e.sequence).Some? && Emit(e.index).Some?
    ensures Emit(e).value ==
            Runtime("IndexPtr(") + (Emit(e.sequence).value + Str(", ") + Emit(e.index).value) + Str(")")
  {
  }

  lemma AddrIndexTexts(e: Expr)
    requires e.AddrIndex? && AllTexts(Children(e))
    ensures TextIs(e)
  {
    TwoOf(e.sequence, e.index);
    if Emit(e).Some? {
      AddrIndexEmits(e);
      AddrText("IndexPtr", PyOf(e.sequence), PyOf(e.index));
      assert "IndexPtr" + "(" == "IndexPtr(";
    }
  }

  lemma IndexTexts(e: Expr)
    requires e.IndexExpr? && AllTexts(Children(e))
    ensures TextIs(e)
  {
    TwoOf(e.x, e.index);
    IndexText(PyOf(e.x), PyOf(e.index));
  }

  lemma BaseTexts(e: Expr)
    requires (e.FieldAccess? || e.Deref? || e.Clone?) && AllTexts(Children(e))
    ensures TextIs(e)
  {
    OneOf(e.x);
    match e
    case FieldAccess(x, name) => AttrText(PyOf(x), name);
    case Deref(x) => Call0Text(PyOf(x), "get"); assert "." + "get" + "()" == ".get()";
    case Clone(x) => Call0Text(PyOf(x), "copy"); assert "." + "copy" + "()" == ".copy()";
  }

  lemma CopySpelled(w: Words, name: string)
    ensures w + Str(".copy()") + Str("." + name) == w + Str(".copy()." + name)
  {
    assert ".copy()." + name == ".copy()" + ("." + name);
    StrConcat(".copy()", "." + name);
  }

  lemma CopiedText(x: Py, name: string)
    ensures TextOf(Attr(Call0(x, "copy"), Str(name))) == TextOf(x) + Str(".copy()." + name)
  {
    Call0Text(x, "copy");
    assert "." + "copy" + "()" == ".copy()";
    AttrText(Call0(x, "copy"), name);
    CopySpelled(TextOf(x), name);
  }

  lemma MethodValueTexts(e: Expr)
    requires e.MethodValue? && AllTexts(Children(e))
    ensures TextIs(e)
  {
    OneOf(e.recv);
    if e.copy { CopiedText(PyOf(e.recv), e.name); } else { AttrText(PyOf(e.recv), e.name); }
  }

  lemma RepeatSpelled(a: Words, n: Words)
    ensures (Str("[") + a + Str("]")) + Str(" " + "*" + " ") + n == Str("[") + a + Str("] * ") + n
  {
    var times := " " + "*" + " ";
    assert "] * " == "]" + times;
    StrConcat("]", times);
    Regroup(Str("["), a, Str("]"), Str(times));
  }

  lemma RepeatText(elem: Py, count: Py)
    ensures TextOf(Repeat(elem, count)) == Str("[") + TextOf(elem) + Str("] * ") + TextOf(count)
  {
    BinText("*", List([Plain(elem)]), count);
    ListText([Plain(elem)]);
    OneText(elem);
    RepeatSpelled(TextOf(elem), TextOf(count));
  }

  lemma RangeCallText(count: Py)
    ensures TextOf(Apply(Word("range"), [Plain(count)])) == Str("range(") + TextOf(count) + Str(")")
  {
    CallOf("range", [Plain(count)]);
    OneText(count);
    assert "range" + "(" == "range(";
  }

  lemma EachSpelled(a: Words, n: Words)
    ensures Str("[") + (a + Str(" for _ in ") + (Str("range(") + n + Str(")"))) + Str("]")
         == Str("[") + a + Str(" for _ in range(") + n + Str(")]")
  {
    assert " for _ in range(" == " for _ in " + "range(" && ")]" == ")" + "]";
    StrConcat(" for _ in ", "range(");
    StrConcat(")", "]");
    Regroup(a, Str(" for _ in "), Str("range("), n + Str(")"));
  }

  lemma EachText(elem: Py, count: Py)
    ensures TextOf(Each(elem, count)) ==
            Str("[") + TextOf(elem) + Str(" for _ in range(") + TextOf(count) + Str(")]")
  {
    CompText(elem, Apply(Word("range"), [Plain(count)]));
    RangeCallText(count);
    EachSpelled(TextOf(elem), TextOf(count));
  }

  lemma ArrayZeroTexts(e: Expr)
    requires e.ArrayZero? && AllTexts(Children(e))
    ensures TextIs(e)
  {
    OneOf(e.elem);
    var count := Word(Decimal(e.len));
    WordText(Decimal(e.len));
    if e.len == 0 {
      ListText([]);
      assert "[]" == "[" + "]";
      StrConcat("[", "]");
    } else if e.elemMutable {
      EachText(PyOf(e.elem), count);
      StrConcat(" for _ in range(", Decimal(e.len));
      StrConcat(" for _ in range(" + Decimal(e.len), ")]");
    } else {
      RepeatText(PyOf(e.elem), count);
      StrConcat("] * ", Decimal(e.len));
    }
  }

  function BackingWords(e: Expr, elem: Words, count: Words): Words
    requires e.SliceMake?
  {
    if e.elemMutable then Str("[") + elem + Str(" for _ in range(") + count + Str(")]")
    else Str("[") + elem + Str("] * ") + count
  }

  lemma SliceMakeEmits(e: Expr)
    requires e.SliceMake? && Emit(e).Some?
    ensures Emit(e.length).Some? && Emit(e.capacity).Some? && Emit(e.elem).Some?
    ensures var l, c := Emit(e.length).value, Emit(e.capacity).value;
            Emit(e).value == Runtime("Slice(") + BackingWords(e, Emit(e.elem).value, c) + Str(", 0, ") + l
                             + Str(", ") + c + Str(")")
  {
  }

  /** Four arguments, the second of them zero. */
  lemma ZeroSecond(head: Words, b: Words, l: Words, c: Words)
    ensures head + (b + Str(", ") + (Str("0") + Str(", ") + (l + Str(", ") + c))) + Str(")")
         == head + b + Str(", 0, ") + l + Str(", ") + c + Str(")")
  {
    assert ", 0, " == ", " + ("0" + ", ");
    StrConcat(", ", "0" + ", ");
    StrConcat("0", ", ");
    Regroup(b, Str(", "), Str("0") + Str(", "), l + Str(", ") + c);
  }

  lemma Regroup(a: Words, b: Words, c: Words, d: Words)
    ensures a + b + (c + d) == a + (b + c) + d
  {
  }

  lemma SliceMakeTexts(e: Expr)
    requires e.SliceMake? && AllTexts(Children(e))
    ensures TextIs(e)
  {
    AllTextsAt(Children(e), 0);
    AllTextsAt(Children(e), 1);
    AllTextsAt(Children(e), 2);
    if Emit(e).Some? {
      SliceMakeEmits(e);
      var elem, l, c := PyOf(e.elem), PyOf(e.length), PyOf(e.capacity);
      var backing := if e.elemMutable then Each(elem, c) else Repeat(elem, c);
      BackingText(e, elem, c);
      CallOnBacking(backing, l, c);
      ZeroSecond(Runtime("Slice("), TextOf(backing), TextOf(l), TextOf(c));
    }
  }

  lemma BackingText(e: Expr, elem: Py, count: Py)
    requires e.SliceMake?
    ensures TextOf(if e.elemMutable then Each(elem, count) else Repeat(elem, count)) ==
            BackingWords(e, TextOf(elem), TextOf(count))
  {
    EachText(elem, count);
    RepeatText(elem, count);
  }

  lemma CallOnBacking(backing: Py, l: Py, c: Py)
    ensures TextOf(Apply(RuntimeName("Slice"), [Plain(backing), Plain(Word("0")), Plain(l), Plain(c)])) ==
            Runtime("Slice(")
            + (TextOf(backing) + Str(", ") + (Str("0") + Str(", ") + (TextOf(l) + Str(", ") + TextOf(c)))) + Str(")")
  {
    RuntimeCallOf("Slice", [Plain(backing), Plain(Word("0")), Plain(l), Plain(c)]);
    FourTexts(backing, Word("0"), l, c);
    WordText("0");
    assert "Slice" + "(" == "Slice(";
  }

  // ----- Slices -----

  lemma BoundText(b: Option<Expr>)
    requires EmitBound(b).Some? && (b.Some? ==> TextIs(b.value))
    ensures SpellAll(PrintBound(PyBound(b))) == EmitBound(b).value
  {
  }

  lemma SliceChildren(e: Expr)
    requires e.SliceExpr? && AllTexts(Children(e))
    ensures TextIs(e.x) && (e.low.Some? ==> TextIs(e.low.value)) && (e.high.Some? ==> TextIs(e.high.value))
    ensures e.max.Some? ==> TextIs(e.max.value)
  {
    AllTextsSplit([e.x] + Bound(e.low) + Bound(e.high), Bound(e.max));
    AllTextsSplit([e.x] + Bound(e.low), Bound(e.high));
    AllTextsSplit([e.x], Bound(e.low));
  }

  lemma ResliceTexts(e: Expr)
    requires e.SliceExpr? && e.max.None? && AllTexts(Children(e))
    ensures TextIs(e)
  {
    SliceChildren(e);
    if Emit(e).Some? {
      BoundText(e.low);
      BoundText(e.high);
      RangeText(PyOf(e.x), PyBound(e.low), PyBound(e.high));
    }
  }

  lemma FullSliceEmits(e: Expr)
    requires e.SliceExpr? && e.max.Some? && Emit(e).Some?
    ensures Emit(e.x).Some? && EmitBound(e.low).Some? && EmitBound(e.high).Some? && Emit(e.max.value).Some?
    ensures var l, h := EmitBound(e.low).value, EmitBound(e.high).value;
            Emit(e).value == Runtime("_subslice3(") + Emit(e.x).value + Str(", ") + (if l == [] then Str("0") else l)
                             + Str(", ") + h + Str(", ") + Emit(e.max.value).value + Str(")")
  {
  }

  lemma FourWords(head: Words, a: Words, b: Words, c: Words, d: Words)
    ensures head + (a + Str(", ") + (b + Str(", ") + (c + Str(", ") + d))) + Str(")")
         == head + a + Str(", ") + b + Str(", ") + c + Str(", ") + d + Str(")")
  {
  }

  lemma MissingText()
    ensures TextOf(Missing) == []
  {
  }

  lemma SubsliceText(x: Py, l: Py, h: Py, m: Py)
    ensures TextOf(Apply(RuntimeName("_subslice3"), [Plain(x), Plain(l), Plain(h), Plain(m)])) ==
            Runtime("_subslice3(") + TextOf(x) + Str(", ") + TextOf(l) + Str(", ") + TextOf(h) + Str(", ") + TextOf(m)
            + Str(")")
  {
    RuntimeCallOf("_subslice3", [Plain(x), Plain(l), Plain(h), Plain(m)]);
    FourTexts(x, l, h, m);
    assert "_subslice3" + "(" == "_subslice3(";
    FourWords(Runtime("_subslice3("), TextOf(x), TextOf(l), TextOf(h), TextOf(m));
  }

  lemma FullSliceTexts(e: Expr)
    requires e.SliceExpr? && e.max.Some? && AllTexts(Children(e))
    requires e.low.Some? && Emit(e.low.value).Some? ==> Emit(e.low.value).value != []
    ensures TextIs(e)
  {
    SliceChildren(e);
    if Emit(e).Some? {
      FullSliceEmits(e);
      var x, m := PyOf(e.x), PyOf(e.max.value);
      var l := if e.low.None? then Word("0") else PyOf(e.low.value);
      var h := if e.high.None? then Missing else PyOf(e.high.value);
      WordText("0");
      MissingText();
      SubsliceText(x, l, h, m);
    }
  }

  // ----- Leaves -----

  lemma UnboundCopySpelled(typ: string, name: string)
    ensures Str("lambda ") + (Str("_s") + Str(", ") + (Str("*") + Str("_a"))) + Str(": ")
            + (Str(typ) + Str("." + name + "(")
               + ((Str("_s") + Str("." + "copy" + "()")) + Str(", ") + (Str("*") + Str("_a"))) + Str(")"))
         == Str("lambda _s, *_a: " + typ + "." + name + "(_s.copy(), *_a)")
  {
  }

  lemma UnboundCopyText(typ: string, name: string)
    ensures TextOf(UnboundCopy(typ, name)) == Str("lambda _s, *_a: " + typ + "." + name + "(_s.copy(), *_a)")
  {
    var s, a := Word("_s"), Item(true, None, Word("_a"), None);
    var args := [Plain(Call0(s, "copy")), a];
    LamText([Plain(s), a], Apply(Attr(Word(typ), Str(name)), args));
    PairOfTexts(Plain(s), a);
    PlainText(s);
    WordText("_s");
    StarText(Word("_a"));
    WordText("_a");
    MethodOf(Word(typ), name, args);
    WordText(typ);
    PairOfTexts(Plain(Call0(s, "copy")), a);
    PlainText(Call0(s, "copy"));
    Call0Text(s, "copy");
    UnboundCopySpelled(typ, name);
  }

  lemma UnboundTexts(e: Expr)
    requires e.MethodExpr?
    ensures TextIs(e)
  {
    if e.valueCopy {
      UnboundCopyText(e.typ, e.name);
    } else {
      AttrText(Word(e.typ), e.name);
      WordText(e.typ);
      StrConcat(e.typ, "." + e.name);
      assert e.typ + "." + e.name == e.typ + ("." + e.name);
    }
  }

  lemma WordTexts(e: Expr)
    requires e.IntLit? || e.FloatLit? || e.StringLit? || e.BoolLit? || e.Ident? || e.NilInterface?
    ensures TextIs(e)
  {
    match e
    case IntLit(text) => WordIs(e, text);
    case FloatLit(text) => WordIs(e, text);
    case StringLit(bytes) => WordIs(e, PyBytes(bytes));
    case BoolLit(value) => WordIs(e, if value then "True" else "False");
    case Ident(name) => WordIs(e, name);
    case NilInterface => WordIs(e, "None");
  }

  lemma NilSliceTexts()
    ensures TextIs(NilSlice)
  {
    RuntimeIs(NilSlice, "NIL_SLICE");
  }

  lemma NilMapTexts()
    ensures TextIs(NilMap)
  {
    RuntimeIs(NilMap, "NIL_MAP");
  }

  lemma NilPtrTexts()
    ensures TextIs(NilPtr)
  {
    RuntimeIs(NilPtr, "NIL_PTR");
  }

  lemma RuntimeIs(e: Expr, name: string)
    requires PyOf(e) == RuntimeName(name) && Emit(e) == Some(Runtime(name))
    ensures TextIs(e)
  {
    RuntimeText(name);
  }

  lemma WordIs(e: Expr, text: string)
    requires PyOf(e) == Word(text) && Emit(e) == Some(Str(text))
    ensures TextIs(e)
  {
    WordText(text);
  }

  lemma NothingBetween()
    ensures Str("(") + [] + Str(")") == Str("()")
  {
    assert "()" == "(" + ")";
    StrConcat("(", ")");
  }

  lemma NoItems(items: seq<Item>)
    requires items == []
    ensures ItemsText(items) == []
  {
  }

  lemma EmptyParenText(items: seq<Item>)
    requires items == []
    ensures TextOf(Paren(items, false)) == Str("()")
  {
    ParenText(items, false);
    NoItems(items);
    NothingBetween();
  }

  lemma ParensAre(e: Expr, items: seq<Item>)
    requires items == [] && PyOf(e) == Paren(items, false) && Emit(e) == Some(Str("()"))
    ensures TextIs(e)
  {
    EmptyParenText(items);
  }

  lemma EmptyStructTexts(e: Expr, items: seq<Item>)
    requires e.EmptyStruct? && items == []
    ensures TextIs(e)
  {
    ParensAre(e, items);
  }

  lemma ShimFuncTexts(name: string)
    ensures TextIs(ShimFunc(name))
  {
    RuntimeIs(ShimFunc(name), name);
  }

  lemma LeafTexts(e: Expr)
    requires IsLeaf(e)
    ensures TextIs(e)
  {
    match e
    case NilExpr =>
    case MethodExpr(_, _, _) => UnboundTexts(e);
    case EmptyStruct => EmptyStructTexts(e, []);
    case ShimFunc(name) => ShimFuncTexts(name);
    case NilSlice => NilSliceTexts();
    case NilMap => NilMapTexts();
    case NilPtr => NilPtrTexts();
    case _ => WordTexts(e);
  }

  // ----- A verified expression -----

  predicate AllVerified(es: seq<Expr>) { forall i :: 0 <= i < |es| ==> VerifyExpr(es[i]) }

  lemma {:induction false} ArgsVerified(args: seq<Expr>)
    requires VerifyArgs(args)
    ensures AllVerified(args)
  {
    if args != [] {
      ArgsVerified(args[1..]);
      forall i | 0 <= i < |args| ensures VerifyExpr(args[i]) { if i > 0 { assert args[i] == args[1..][i - 1]; } }
    }
  }

  lemma {:induction false} CapturesVerified(captures: seq<Capture<Expr>>)
    requires VerifyCaptures(captures)
    ensures AllVerified(Seeds(captures))
  {
    if captures != [] {
      CapturesVerified(captures[1..]);
      forall i | 0 <= i < |captures| ensures VerifyExpr(Seeds(captures)[i]) {
        if i > 0 { assert Seeds(captures)[i] == Seeds(captures[1..])[i - 1]; }
      }
    }
  }

  lemma {:induction false} FieldsVerified(keyed: bool, fields: seq<StructArg>)
    requires VerifyFields(keyed, fields)
    ensures AllVerified(FieldValues(fields))
  {
    if fields != [] {
      FieldsVerified(keyed, fields[1..]);
      forall i | 0 <= i < |fields| ensures VerifyExpr(FieldValues(fields)[i]) {
        if i > 0 { assert FieldValues(fields)[i] == FieldValues(fields[1..])[i - 1]; }
      }
    }
  }

  lemma {:induction false} EntriesVerified(entries: seq<MapEntry>)
    requires VerifyEntries(entries)
    ensures AllVerified(Keys(entries)) && AllVerified(Values(entries))
  {
    if entries != [] {
      EntriesVerified(entries[1..]);
      forall i | 0 <= i < |entries| ensures VerifyExpr(Keys(entries)[i]) && VerifyExpr(Values(entries)[i]) {
        if i > 0 {
          assert Keys(entries)[i] == Keys(entries[1..])[i - 1];
          assert Values(entries)[i] == Values(entries[1..])[i - 1];
        }
      }
    }
  }

  lemma ListVerified(e: Expr)
    requires VerifyExpr(e)
    requires e.Call? || e.MethodCall? || e.Intrinsic? || e.Tuple? || e.ArrayLit? || e.SliceLit?
    ensures AllVerified(Children(e))
  {
    match e
    case Call(_, args) => ArgsVerified(args);
    case MethodCall(_, _, args) => ArgsVerified(args);
    case Intrinsic(_, args) => ArgsVerified(args);
    case Tuple(elems) => ArgsVerified(elems);
    case ArrayLit(elems) => ArgsVerified(elems);
    case SliceLit(elems) => ArgsVerified(elems);
  }

  lemma FixedVerified(e: Expr)
    requires VerifyExpr(e) && !e.Lambda? && !e.StructLit? && !e.MapLit?
    requires !e.Call? && !e.MethodCall? && !e.Intrinsic? && !e.Tuple? && !e.ArrayLit? && !e.SliceLit?
    ensures AllVerified(Children(e))
  {
  }

  lemma ChildrenVerified(e: Expr)
    requires VerifyExpr(e)
    ensures AllVerified(Children(e))
  {
    if e.Call? || e.MethodCall? || e.Intrinsic? || e.Tuple? || e.ArrayLit? || e.SliceLit? {
      ListVerified(e);
    } else if e.Lambda? {
      CapturesVerified(e.captures);
    } else if e.StructLit? {
      FieldsVerified(e.keyed, e.fields);
    } else if e.MapLit? {
      EntriesVerified(e.entries);
    } else {
      FixedVerified(e);
    }
  }

  lemma NodeTexts(e: Expr)
    requires VerifyExpr(e) && !IsLeaf(e) && AllTexts(Children(e))
    ensures TextIs(e)
  {
    if e.Call? || e.Intrinsic? { CallNodeTexts(e); }
    else if e.SliceLit? { SliceLitTexts(e); }
    else if e.Tuple? { TupleTexts(e); }
    else if e.ArrayLit? { ArrayLitTexts(e); }
    else if e.MethodCall? { MethodCallTexts(e); }
    else if e.StructLit? { StructLitTexts(e); }
    else if e.MapLit? { MapLitTexts(e); }
    else if e.Lambda? { LambdaTexts(e); }
    else if e.Binary? { BinaryTexts(e); }
    else if e.Unary? { UnaryTexts(e); }
    else if e.Mask? { MaskTexts(e); }
    else if e.Convert? { ConvertTexts(e); }
    else if e.ArrayClone? { ArrayCloneTexts(e); }
    else if e.AddrField? { AddrFieldTexts(e); }
    else if e.AddrIndex? { AddrIndexTexts(e); }
    else if e.IndexExpr? { IndexTexts(e); }
    else if e.FieldAccess? || e.Deref? || e.Clone? { BaseTexts(e); }
    else if e.MethodValue? { MethodValueTexts(e); }
    else if e.ArrayZero? { ArrayZeroTexts(e); }
    else if e.SliceMake? { SliceMakeTexts(e); }
    else { SliceTexts(e); }
  }

  lemma SliceTexts(e: Expr)
    requires VerifyExpr(e) && e.SliceExpr? && AllTexts(Children(e))
    ensures TextIs(e)
  {
    if e.max.None? {
      ResliceTexts(e);
    } else {
      if e.low.Some? && Emit(e.low.value).Some? { F.TextNotEmpty(e.low.value); }
      FullSliceTexts(e);
    }
  }

  /** The tokens of a verified expression's tree spell the text that is emitted for it. */
  lemma {:induction false} TextFollows(e: Expr)
    requires VerifyExpr(e)
    ensures TextIs(e)
  {
    if IsLeaf(e) {
      LeafTexts(e);
    } else {
      ChildrenVerified(e);
      forall i | 0 <= i < |Children(e)| ensures TextIs(Children(e)[i]) { TextFollows(Children(e)[i]); }
      AllTextsFrom(Children(e));
      NodeTexts(e);
    }
  }

  /** The text emitted for a verified expression is spelled by the tokens of its tree, and
      those are read as that tree if and only if every node sits where it may. */
  lemma ReadsAsTreeExactly(e: Expr)
    requires VerifyExpr(e) && Emit(e).Some?
    ensures SpellAll(Print(PyOf(e))) == Emit(e).value
    ensures ReadAll(Print(PyOf(e))) == Some(PyOf(e)) <==> Sits(e)
  {
    TextFollows(e);
    ReadsBackExactly(PyOf(e));
    SitsExactly(e);
  }

  // ----- Otherwise -----

  lemma PlainTokens(t: Py)
    ensures PrintItems([Plain(t)]) == Print(t)
  {
    assert PrintItem(Plain(t)) == Print(t);
  }

  lemma SameTokens(op: string, items: seq<Item>, body: Py, y: Py)
    ensures Print(Bin(op, Lam(items, body), y)) == Print(Lam(items, Bin(op, body, y)))
  {
    var right := [Op(op, true)] + Print(y);
    var b := [Colon(true)] + Print(body);
    Onward([LambdaWord(items != [])], PrintItems(items) + b, right);
    Onward(PrintItems(items), b, right);
    Onward([Colon(true)], Print(body), right);
  }

  lemma SameInParens(a: Py, b: Py)
    requires Print(a) == Print(b)
    ensures Print(Paren([Plain(a)], false)) == Print(Paren([Plain(b)], false))
  {
    PlainTokens(a);
    PlainTokens(b);
  }

  lemma LambdaOver(params: seq<string>, inner: Py)
    requires Grammatical(inner)
    ensures var t := Paren([Plain(Lam(Params(params), inner))], false); ReadAll(Print(t)) == Some(t)
  {
    ParamsFit(params, []);
    assert Params(params) + [] == Params(params);
    ParenFits(Lam(Params(params), inner));
    ReadsBackExactly(Paren([Plain(Lam(Params(params), inner))], false));
  }

  lemma OperandsFit(op: string, x: Expr, y: Expr)
    requires BinOp(op).Some? && Sits(Binary(op, x, y))
    ensures Grammatical(Bin(BinOp(op).value, PyOf(x), PyOf(y)))
  {
    SitsExactly(Binary(op, x, y));
    ParenFits(Bin(BinOp(op).value, PyOf(x), PyOf(y)));
  }

  lemma BareLambda(params: seq<string>, body: Expr)
    ensures PyOf(Lambda(params, [], body)) == Lam(Params(params), PyOf(body))
  {
    assert Params(params) + [] == Params(params);
  }

  lemma LambdaLeft(op: string, params: seq<string>, body: Expr, y: Expr)
    requires BinOp(op).Some?
    ensures PyOf(Binary(op, Lambda(params, [], body), y)) ==
            Paren([Plain(Bin(BinOp(op).value, Lam(Params(params), PyOf(body)), PyOf(y)))], false)
  {
    BareLambda(params, body);
  }

  /** A lambda on the left of an operator takes the right operand into its body. */
  lemma LambdaTakesOperand(op: string, params: seq<string>, body: Expr, y: Expr)
    requires BinOp(op).Some? && Sits(Binary(op, body, y))
    ensures ReadAll(Print(PyOf(Binary(op, Lambda(params, [], body), y)))) ==
            Some(Paren([Plain(Lam(Params(params), Bin(BinOp(op).value, PyOf(body), PyOf(y))))], false))
  {
    var o, a, b := BinOp(op).value, PyOf(body), PyOf(y);
    OperandsFit(op, body, y);
    LambdaOver(params, Bin(o, a, b));
    LambdaLeft(op, params, body, y);
    SameTokens(o, Params(params), a, b);
    SameInParens(Bin(o, Lam(Params(params), a), b), Lam(Params(params), Bin(o, a, b)));
  }

  lemma IndexOfRepeat(elem: Py, count: Py, index: Py)
    ensures Print(Index(Repeat(elem, count), index)) == Print(Bin("*", List([Plain(elem)]), Index(count, index)))
  {
    var right := [OpenBracket] + (Print(index) + [CloseBracket]);
    Onward(Print(List([Plain(elem)])), [Op("*", true)] + Print(count), right);
    Onward([Op("*", true)], Print(count), right);
  }

  lemma IndexedRepeat(n: int, elem: Expr, index: Expr)
    requires n != 0
    ensures PyOf(IndexExpr(ArrayZero(n, elem, false), index)) ==
            Index(Repeat(PyOf(elem), Word(Decimal(n))), PyOf(index))
  {
    assert PyOf(ArrayZero(n, elem, false)) == Repeat(PyOf(elem), Word(Decimal(n)));
  }

  lemma RepeatIsRead(elem: Py, count: Py)
    requires Grammatical(elem) && Grammatical(count) && Level(count) == TIGHTEST
    ensures ReadAll(Print(Repeat(elem, count))) == Some(Repeat(elem, count))
  {
    RepeatFits(elem, count);
    ReadsBackExactly(Repeat(elem, count));
  }

  /** An index on a repeated list is taken of its length instead. */
  lemma LengthIsIndexed(n: int, elem: Expr, index: Expr)
    requires n != 0 && Sits(elem) && Sits(index)
    ensures ReadAll(Print(PyOf(IndexExpr(ArrayZero(n, elem, false), index)))) ==
            Some(Bin("*", List([Plain(PyOf(elem))]), Index(Word(Decimal(n)), PyOf(index))))
  {
    SitsExactly(elem);
    SitsExactly(index);
    IndexedRepeat(n, elem, index);
    IndexOfRepeat(PyOf(elem), Word(Decimal(n)), PyOf(index));
    RepeatIsRead(PyOf(elem), Index(Word(Decimal(n)), PyOf(index)));
  }
}
