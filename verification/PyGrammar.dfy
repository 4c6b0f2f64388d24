/** Python expressions: their tokens, their tree, and the tree that is read from the tokens. */
module PyGrammar {
  // The part of section 6 of the Python Language Reference that emitted expressions use. A
  // tree keeps its parentheses, so whether a tree stands for its own tokens is a question of
  // which operands bind tightly enough.

  import opened Prelude
  import opened EmitText

  // ----- Tokens -----

  /** Spaced or not is how a token is written, never what it is. */
  datatype Token =
    | Atom(w: Words)
    | Op(op: string, spaced: bool)
    | LambdaWord(spaced: bool)
    | ForIn
    | OpenParen | CloseParen | OpenBracket | CloseBracket | OpenBrace | CloseBrace
    | Comma(spaced: bool)
    | Colon(spaced: bool)
    | Dot
    | Equals

  function Spell(t: Token): Words {
    match t
    case Atom(w) => w
    case Op(op, spaced) => Str(if spaced then " " + op + " " else if op == "not" then "not " else op)
    case LambdaWord(spaced) => Str(if spaced then "lambda " else "lambda")
    case ForIn => Str(" for _ in ")
    case OpenParen => Str("(")
    case CloseParen => Str(")")
    case OpenBracket => Str("[")
    case CloseBracket => Str("]")
    case OpenBrace => Str("{")
    case CloseBrace => Str("}")
    case Comma(spaced) => Str(if spaced then ", " else ",")
    case Colon(spaced) => Str(if spaced then ": " else ":")
    case Dot => Str(".")
    case Equals => Str("=")
  }

  function SpellAll(ts: seq<Token>): Words {
    if ts == [] then [] else Spell(ts[0]) + SpellAll(ts[1..])
  }

  // ----- Trees -----

  /** Missing is an operand that was left out. */
  datatype Py =
    | Missing
    | Name(w: Words)
    | Paren(items: seq<Item>, comma: bool)
    | List(items: seq<Item>)
    | Comp(elem: Py, source: Py)
    | Dict(items: seq<Item>)
    | Bin(op: string, x: Py, y: Py)
    | Un(op: string, x: Py)
    | Attr(x: Py, name: Words)
    | Apply(x: Py, items: seq<Item>)
    | Index(x: Py, index: Py)
    | Range(x: Py, low: Option<Py>, high: Option<Py>)
    | Lam(items: seq<Item>, body: Py)

  /** An element of a list, an argument, a parameter or an entry: after a star, after a key
      and an equals sign, or before a colon and a second part. */
  datatype Item = Item(star: bool, key: Option<Words>, value: Py, second: Option<Py>)

  function Print(t: Py): seq<Token>
    decreases t, 0
  {
    match t
    case Missing => []
    case Name(w) => [Atom(w)]
    case Paren(items, comma) =>
      [OpenParen] + (PrintItems(items) + ((if comma then [Comma(false)] else []) + [CloseParen]))
    case List(items) => [OpenBracket] + (PrintItems(items) + [CloseBracket])
    case Comp(elem, source) => [OpenBracket] + (Print(elem) + ([ForIn] + (Print(source) + [CloseBracket])))
    case Dict(items) => [OpenBrace] + (PrintItems(items) + [CloseBrace])
    case Bin(op, x, y) => Print(x) + ([Op(op, true)] + Print(y))
    case Un(op, x) => [Op(op, false)] + Print(x)
    case Attr(x, name) => Print(x) + [Dot, Atom(name)]
    case Apply(x, items) => Print(x) + ([OpenParen] + (PrintItems(items) + [CloseParen]))
    case Index(x, index) => Print(x) + ([OpenBracket] + (Print(index) + [CloseBracket]))
    case Range(x, low, high) =>
      Print(x) + ([OpenBracket] + (PrintBound(low) + ([Colon(false)] + (PrintBound(high) + [CloseBracket]))))
    case Lam(items, body) => [LambdaWord(items != [])] + (PrintItems(items) + ([Colon(true)] + Print(body)))
  }

  function PrintBound(t: Option<Py>): seq<Token>
    decreases t, 1
  {
    match t
    case None => []
    case Some(x) => Print(x)
  }

  function PrintItem(item: Item): seq<Token>
    decreases item, 1
  {
    (if item.star then [Op("*", false)] else [])
    + ((if item.key.Some? then [Atom(item.key.value), Equals] else [])
       + (Print(item.value) + if item.second.Some? then [Colon(true)] + Print(item.second.value) else []))
  }

  function PrintItems(items: seq<Item>): seq<Token>
    decreases items, 1
  {
    if items == [] then []
    else if |items| == 1 then PrintItem(items[0])
    else PrintItem(items[0]) + ([Comma(true)] + PrintItems(items[1..]))
  }

  // ----- How tightly a tree binds (section 6.17) -----

  function LevelOf(op: string): nat {
    if op == "or" then 1
    else if op == "and" then 2
    else if op in {"<", ">", "<=", ">=", "==", "!=", "is", "is not"} then 4
    else if op == "<<" || op == ">>" then 5
    else if op == "+" || op == "-" then 6
    else if op == "*" || op == "//" || op == "%" then 7
    else 0
  }

  /** What the left operand needs: comparisons chain and do not nest. */
  function LeftLevel(op: string): nat { if LevelOf(op) == 4 then 5 else LevelOf(op) }

  function PrefixLevel(op: string): nat { if op == "not" then 3 else if op == "-" || op == "+" then 8 else 0 }

  const TIGHTEST: nat := 9

  function Level(t: Py): nat {
    match t
    case Lam(_, _) => 0
    case Bin(op, _, _) => LevelOf(op)
    case Un(op, _) => PrefixLevel(op)
    case _ => TIGHTEST
  }

  predicate IsPlain(item: Item) { !item.star && item.key.None? && item.second.None? }

  predicate IsArgument(item: Item) { item.second.None? && !(item.star && item.key.Some?) }

  predicate IsEntry(item: Item) { !item.star && item.key.None? && item.second.Some? }

  predicate IsParameter(item: Item) { IsArgument(item) && (item.key.None? ==> item.value.Name?) }

  predicate All(items: seq<Item>, p: Item -> bool) {
    forall i :: 0 <= i < |items| ==> p(items[i])
  }

  /** Every operand binds at least as tightly as its place asks. */
  predicate Grammatical(t: Py)
    decreases t, 0
  {
    match t
    case Missing => false
    case Name(_) => true
    case Paren(items, comma) => AllGrammatical(items) && All(items, IsPlain) && (comma ==> items != [])
    case List(items) => AllGrammatical(items) && All(items, IsPlain)
    case Comp(elem, source) => Grammatical(elem) && Grammatical(source) && Level(source) >= 1
    case Dict(items) => AllGrammatical(items) && All(items, IsEntry)
    case Bin(op, x, y) =>
      Grammatical(x) && Grammatical(y) && LevelOf(op) > 0 && Level(x) >= LeftLevel(op) && Level(y) > LevelOf(op)
    case Un(op, x) => Grammatical(x) && PrefixLevel(op) > 0 && Level(x) >= PrefixLevel(op)
    case Attr(x, _) => Grammatical(x) && Level(x) == TIGHTEST
    case Apply(x, items) => Grammatical(x) && Level(x) == TIGHTEST && AllGrammatical(items) && All(items, IsArgument)
    case Index(x, index) => Grammatical(x) && Level(x) == TIGHTEST && Grammatical(index)
    case Range(x, low, high) =>
      Grammatical(x) && Level(x) == TIGHTEST && BoundGrammatical(low) && BoundGrammatical(high)
    case Lam(items, body) => AllGrammatical(items) && All(items, IsParameter) && Grammatical(body)
  }

  predicate BoundGrammatical(t: Option<Py>)
    decreases t, 1
  {
    match t
    case None => true
    case Some(x) => Grammatical(x)
  }

  predicate ItemGrammatical(item: Item)
    decreases item, 1
  {
    Grammatical(item.value) && BoundGrammatical(item.second)
  }

  predicate AllGrammatical(items: seq<Item>)
    decreases items, 1
  {
    items == [] || (ItemGrammatical(items[0]) && AllGrammatical(items[1..]))
  }

  // ----- Reading -----

  predicate Ends(t: Token) {
    t.CloseParen? || t.CloseBracket? || t.CloseBrace? || t.Colon? || t.ForIn?
  }

  /** An expression whose operators bind at least as tightly as n, and what is left. */
  function ReadExpr(ts: seq<Token>, n: nat): (r: Option<(Py, seq<Token>)>)
    requires n <= TIGHTEST
    ensures r.Some? ==> |r.value.1| < |ts|
    decreases |ts|, 3
  {
    if ts == [] then None
    else if ts[0].LambdaWord? then if n > 0 then None else ReadLambda(ts)
    else if ts[0].Op? then
      var k := PrefixLevel(ts[0].op);
      if k == 0 || n > k then None
      else
        var x :- ReadExpr(ts[1..], k);
        Climb(Un(ts[0].op, x.0), x.1, n)
    else
      var x :- ReadPrimary(ts);
      Climb(x.0, x.1, n)
  }

  /** Take what binds at least as tightly as n onto an operand. */
  function Climb(x: Py, ts: seq<Token>, n: nat): (r: Option<(Py, seq<Token>)>)
    ensures r.Some? ==> |r.value.1| <= |ts|
    decreases |ts|, 2
  {
    if ts == [] || !ts[0].Op? then Some((x, ts))
    else
      var k := LevelOf(ts[0].op);
      if k == 0 || n > k || LeftLevel(ts[0].op) > Level(x) then Some((x, ts))
      else
        var y :- ReadExpr(ts[1..], k + 1);
        Climb(Bin(ts[0].op, x, y.0), y.1, n)
  }

  function ReadLambda(ts: seq<Token>): (r: Option<(Py, seq<Token>)>)
    requires ts != []
    ensures r.Some? ==> |r.value.1| < |ts|
    decreases |ts|, 2
  {
    var l :- ReadItems(ts[1..], false);
    if l.2 == [] || !l.2[0].Colon? || !All(l.0, IsParameter) then None
    else
      var body :- ReadExpr(l.2[1..], 0);
      Some((Lam(l.0, body.0), body.1))
  }

  function ReadPrimary(ts: seq<Token>): (r: Option<(Py, seq<Token>)>)
    requires ts != []
    ensures r.Some? ==> |r.value.1| < |ts|
    decreases |ts|, 2
  {
    var a :- ReadAtom(ts);
    Postfix(a.0, a.1)
  }

  /** A name or literal, or what stands in brackets. */
  function ReadAtom(ts: seq<Token>): (r: Option<(Py, seq<Token>)>)
    requires ts != []
    ensures r.Some? ==> |r.value.1| < |ts|
    decreases |ts|, 1
  {
    if ts[0].Atom? then Some((Name(ts[0].w), ts[1..]))
    else if ts[0].OpenParen? then
      var l :- ReadItems(ts[1..], false);
      if l.2 == [] || !l.2[0].CloseParen? || !All(l.0, IsPlain) then None else Some((Paren(l.0, l.1), l.2[1..]))
    else if ts[0].OpenBracket? then ReadList(ts)
    else if ts[0].OpenBrace? then
      var l :- ReadItems(ts[1..], true);
      if l.2 == [] || !l.2[0].CloseBrace? || !All(l.0, IsEntry) then None else Some((Dict(l.0), l.2[1..]))
    else None
  }

  /** A list, by its elements or by a comprehension. */
  function ReadList(ts: seq<Token>): (r: Option<(Py, seq<Token>)>)
    requires ts != []
    ensures r.Some? ==> |r.value.1| < |ts|
    decreases |ts|, 0
  {
    var l :- ReadItems(ts[1..], false);
    if l.2 == [] || !All(l.0, IsPlain) then None
    else if l.2[0].CloseBracket? then Some((List(l.0), l.2[1..]))
    else if l.2[0].ForIn? && |l.0| == 1 && !l.1 then
      var source :- ReadExpr(l.2[1..], 1);
      if source.1 == [] || !source.1[0].CloseBracket? then None
      else Some((Comp(l.0[0].value, source.0), source.1[1..]))
    else None
  }

  /** Attributes, calls and subscripts after a primary. */
  function Postfix(x: Py, ts: seq<Token>): (r: Option<(Py, seq<Token>)>)
    ensures r.Some? ==> |r.value.1| <= |ts|
    decreases |ts|, 1
  {
    if ts == [] then Some((x, ts))
    else if ts[0].Dot? then
      if |ts| < 2 || !ts[1].Atom? then None else Postfix(Attr(x, ts[1].w), ts[2..])
    else if ts[0].OpenParen? then
      var l :- ReadItems(ts[1..], false);
      if l.2 == [] || !l.2[0].CloseParen? || !All(l.0, IsArgument) then None
      else Postfix(Apply(x, l.0), l.2[1..])
    else if ts[0].OpenBracket? then
      var sub :- ReadSubscript(x, ts);
      Postfix(sub.0, sub.1)
    else Some((x, ts))
  }

  function ReadSubscript(x: Py, ts: seq<Token>): (r: Option<(Py, seq<Token>)>)
    requires ts != []
    ensures r.Some? ==> |r.value.1| < |ts|
    decreases |ts|, 0
  {
    var low :- ReadBound(ts[1..]);
    if low.1 == [] then None
    else if low.1[0].CloseBracket? then (if low.0.None? then None else Some((Index(x, low.0.value), low.1[1..])))
    else if low.1[0].Colon? then
      var high :- ReadBound(low.1[1..]);
      if high.1 == [] || !high.1[0].CloseBracket? then None else Some((Range(x, low.0, high.0), high.1[1..]))
    else None
  }

  /** A bound of a slice, which may be left out. */
  function ReadBound(ts: seq<Token>): (r: Option<(Option<Py>, seq<Token>)>)
    ensures r.Some? ==> |r.value.1| <= |ts|
    decreases |ts|, 4
  {
    if ts == [] || Ends(ts[0]) then Some((None, ts))
    else
      var x :- ReadExpr(ts, 0);
      Some((Some(x.0), x.1))
  }

  /** Items up to a token that ends them, whether a comma stands last, and what is left. */
  function ReadItems(ts: seq<Token>, pairs: bool): (r: Option<(seq<Item>, bool, seq<Token>)>)
    ensures r.Some? ==> |r.value.2| <= |ts|
    decreases |ts|, 5
  {
    if ts == [] || Ends(ts[0]) then Some(([], false, ts))
    else
      var item :- ReadItem(ts, pairs);
      if item.1 != [] && item.1[0].Comma? then
        var more :- ReadItems(item.1[1..], pairs);
        Some(([item.0] + more.0, more.0 == [] || more.1, more.2))
      else Some(([item.0], false, item.1))
  }

  function ReadItem(ts: seq<Token>, pairs: bool): (r: Option<(Item, seq<Token>)>)
    requires ts != []
    ensures r.Some? ==> |r.value.1| < |ts|
    decreases |ts|, 4
  {
    if ts[0].Op? && ts[0].op == "*" then
      var v :- ReadExpr(ts[1..], 0);
      Some((Item(true, None, v.0, None), v.1))
    else
      var v :- ReadExpr(ts, 0);
      if v.0.Name? && v.1 != [] && v.1[0].Equals? then
        var u :- ReadExpr(v.1[1..], 0);
        Some((Item(false, Some(v.0.w), u.0, None), u.1))
      else if pairs && v.1 != [] && v.1[0].Colon? then
        var u :- ReadExpr(v.1[1..], 0);
        Some((Item(false, None, v.0, Some(u.0)), u.1))
      else Some((Item(false, None, v.0, None), v.1))
  }

  /** A whole expression. */
  function ReadAll(ts: seq<Token>): Option<Py> {
    var x :- ReadExpr(ts, 0);
    if x.1 == [] then Some(x.0) else None
  }

  // ----- What is read is grammatical -----

  lemma {:induction false} ExprIsGrammatical(ts: seq<Token>, n: nat)
    requires n <= TIGHTEST && ReadExpr(ts, n).Some?
    ensures var t := ReadExpr(ts, n).value.0; Grammatical(t) && Level(t) >= n
    decreases |ts|, 3
  {
    if ts[0].LambdaWord? {
      LambdaIsGrammatical(ts);
    } else if ts[0].Op? {
      var k := PrefixLevel(ts[0].op);
      ExprIsGrammatical(ts[1..], k);
      var x := ReadExpr(ts[1..], k).value;
      ClimbIsGrammatical(Un(ts[0].op, x.0), x.1, n);
    } else {
      PrimaryIsGrammatical(ts);
      var x := ReadPrimary(ts).value;
      ClimbIsGrammatical(x.0, x.1, n);
    }
  }

  lemma {:induction false} ClimbIsGrammatical(x: Py, ts: seq<Token>, n: nat)
    requires Grammatical(x) && Level(x) >= n && Climb(x, ts, n).Some?
    ensures var t := Climb(x, ts, n).value.0; Grammatical(t) && Level(t) >= n
    decreases |ts|, 2
  {
    if ts != [] && ts[0].Op? {
      var k := LevelOf(ts[0].op);
      if k > 0 && n <= k && LeftLevel(ts[0].op) <= Level(x) {
        ExprIsGrammatical(ts[1..], k + 1);
        var y := ReadExpr(ts[1..], k + 1).value;
        ClimbIsGrammatical(Bin(ts[0].op, x, y.0), y.1, n);
      }
    }
  }

  lemma {:induction false} LambdaIsGrammatical(ts: seq<Token>)
    requires ts != [] && ReadLambda(ts).Some?
    ensures Grammatical(ReadLambda(ts).value.0)
    decreases |ts|, 2
  {
    ItemsAreGrammatical(ts[1..], false);
    ExprIsGrammatical(ReadItems(ts[1..], false).value.2[1..], 0);
  }

  lemma {:induction false} PrimaryIsGrammatical(ts: seq<Token>)
    requires ts != [] && ReadPrimary(ts).Some?
    ensures var t := ReadPrimary(ts).value.0; Grammatical(t) && Level(t) == TIGHTEST
    decreases |ts|, 2
  {
    AtomIsGrammatical(ts);
    var a := ReadAtom(ts).value;
    PostfixIsGrammatical(a.0, a.1);
  }

  lemma {:induction false} AtomIsGrammatical(ts: seq<Token>)
    requires ts != [] && ReadAtom(ts).Some?
    ensures var t := ReadAtom(ts).value.0; Grammatical(t) && Level(t) == TIGHTEST
    decreases |ts|, 1
  {
    if ts[0].OpenParen? {
      ItemsAreGrammatical(ts[1..], false);
    } else if ts[0].OpenBracket? {
      ListIsGrammatical(ts);
    } else if ts[0].OpenBrace? {
      ItemsAreGrammatical(ts[1..], true);
    }
  }

  lemma {:induction false} ListIsGrammatical(ts: seq<Token>)
    requires ts != [] && ReadList(ts).Some?
    ensures var t := ReadList(ts).value.0; Grammatical(t) && Level(t) == TIGHTEST
    decreases |ts|, 0
  {
    ItemsAreGrammatical(ts[1..], false);
    var l := ReadItems(ts[1..], false).value;
    if l.2[0].ForIn? { ExprIsGrammatical(l.2[1..], 1); }
  }

  lemma {:induction false} PostfixIsGrammatical(x: Py, ts: seq<Token>)
    requires Grammatical(x) && Level(x) == TIGHTEST && Postfix(x, ts).Some?
    ensures var t := Postfix(x, ts).value.0; Grammatical(t) && Level(t) == TIGHTEST
    decreases |ts|, 1
  {
    if ts != [] {
      if ts[0].Dot? {
        PostfixIsGrammatical(Attr(x, ts[1].w), ts[2..]);
      } else if ts[0].OpenParen? {
        ItemsAreGrammatical(ts[1..], false);
        var l := ReadItems(ts[1..], false).value;
        PostfixIsGrammatical(Apply(x, l.0), l.2[1..]);
      } else if ts[0].OpenBracket? {
        SubscriptIsGrammatical(x, ts);
        var sub := ReadSubscript(x, ts).value;
        PostfixIsGrammatical(sub.0, sub.1);
      }
    }
  }

  lemma {:induction false} SubscriptIsGrammatical(x: Py, ts: seq<Token>)
    requires ts != [] && Grammatical(x) && Level(x) == TIGHTEST && ReadSubscript(x, ts).Some?
    ensures var t := ReadSubscript(x, ts).value.0; Grammatical(t) && Level(t) == TIGHTEST
    decreases |ts|, 0
  {
    BoundIsGrammatical(ts[1..]);
    var low := ReadBound(ts[1..]).value;
    if low.1[0].Colon? { BoundIsGrammatical(low.1[1..]); }
  }

  lemma {:induction false} BoundIsGrammatical(ts: seq<Token>)
    requires ReadBound(ts).Some?
    ensures BoundGrammatical(ReadBound(ts).value.0)
    decreases |ts|, 4
  {
    if ts != [] && !Ends(ts[0]) { ExprIsGrammatical(ts, 0); }
  }

  lemma {:induction false} ItemsAreGrammatical(ts: seq<Token>, pairs: bool)
    requires ReadItems(ts, pairs).Some?
    ensures var r := ReadItems(ts, pairs).value; AllGrammatical(r.0) && (r.1 ==> r.0 != [])
    decreases |ts|, 5
  {
    if ts != [] && !Ends(ts[0]) {
      ItemIsGrammatical(ts, pairs);
      var item := ReadItem(ts, pairs).value;
      if item.1 != [] && item.1[0].Comma? {
        ItemsAreGrammatical(item.1[1..], pairs);
        var more := ReadItems(item.1[1..], pairs).value;
        assert ([item.0] + more.0)[1..] == more.0;
      }
    }
  }

  lemma {:induction false} ItemIsGrammatical(ts: seq<Token>, pairs: bool)
    requires ts != [] && ReadItem(ts, pairs).Some?
    ensures ItemGrammatical(ReadItem(ts, pairs).value.0)
    decreases |ts|, 4
  {
    if ts[0].Op? && ts[0].op == "*" {
      ExprIsGrammatical(ts[1..], 0);
    } else {
      ExprIsGrammatical(ts, 0);
      var v := ReadExpr(ts, 0).value;
      if v.1 != [] && (v.1[0].Equals? || v.1[0].Colon?) && ReadExpr(v.1[1..], 0).Some? {
        ExprIsGrammatical(v.1[1..], 0);
      }
    }
  }

  // ----- A grammatical tree is read back -----

  predicate CanStart(t: Token) {
    t.Atom? || t.LambdaWord? || (t.Op? && PrefixLevel(t.op) > 0) || t.OpenParen? || t.OpenBracket? || t.OpenBrace?
  }

  lemma {:induction false} Starts(t: Py)
    requires Grammatical(t)
    ensures Print(t) != [] && CanStart(Print(t)[0])
    ensures Level(t) == TIGHTEST ==> !Print(t)[0].Op? && !Print(t)[0].LambdaWord?
  {
    match t
    case Bin(_, x, _) => Starts(x);
    case Attr(x, _) => Starts(x);
    case Apply(x, _) => Starts(x);
    case Index(x, _) => Starts(x);
    case Range(x, _, _) => Starts(x);
    case _ =>
  }

  /** Nothing that would be taken onto the tree before it. */
  predicate Stop(rest: seq<Token>) {
    rest == [] || (!rest[0].Op? && !rest[0].Dot? && !rest[0].OpenParen? && !rest[0].OpenBracket?)
  }

  /** At most an operator that the tree binds tightly enough to stand left of. */
  predicate Follows(t: Py, rest: seq<Token>) {
    rest == []
    || (!rest[0].Dot? && !rest[0].OpenParen? && !rest[0].OpenBracket?
        && (rest[0].Op? ==> 0 < LeftLevel(rest[0].op) <= Level(t)))
  }

  lemma Stays(x: Py, rest: seq<Token>, n: nat)
    requires Stop(rest)
    ensures Climb(x, rest, n) == Some((x, rest)) && Postfix(x, rest) == Some((x, rest)) && Follows(x, rest)
  {
  }

  /** An operand on its own. */
  lemma {:induction false} OperandReads(t: Py, rest: seq<Token>, n: nat)
    requires Grammatical(t) && n <= Level(t) && Stop(rest)
    ensures ReadExpr(Print(t) + rest, n) == Some((t, rest))
    decreases t, 4
  {
    Stays(t, rest, n);
    ExprReads(t, rest, n);
  }

  lemma {:induction false} ExprReads(t: Py, rest: seq<Token>, n: nat)
    requires Grammatical(t) && n <= Level(t) && Follows(t, rest)
    ensures ReadExpr(Print(t) + rest, n) == Climb(t, rest, n)
    decreases t, 3
  {
    match t
    case Bin(_, _, _) => BinReads(t, rest, n);
    case Un(_, _) => UnReads(t, rest, n);
    case Lam(_, _) => LamReads(t, rest);
    case Missing =>
    case _ =>
      Starts(t);
      PrimaryReads(t, rest);
      assert (Print(t) + rest)[0] == Print(t)[0];
  }

  lemma {:induction false} BinReads(t: Py, rest: seq<Token>, n: nat)
    requires t.Bin? && Grammatical(t) && n <= Level(t) && Follows(t, rest)
    ensures ReadExpr(Print(t) + rest, n) == Climb(t, rest, n)
    decreases t, 2
  {
    var k := LevelOf(t.op);
    var right := Print(t.y) + rest;
    var after := [Op(t.op, true)] + right;
    assert Print(t) + rest == Print(t.x) + after;
    ExprReads(t.x, after, n);
    assert after[1..] == right;
    ExprReads(t.y, rest, k + 1);
    assert Climb(t.y, rest, k + 1) == Some((t.y, rest));
  }

  lemma {:induction false} UnReads(t: Py, rest: seq<Token>, n: nat)
    requires t.Un? && Grammatical(t) && n <= Level(t) && Follows(t, rest)
    ensures ReadExpr(Print(t) + rest, n) == Climb(t, rest, n)
    decreases t, 2
  {
    var k := PrefixLevel(t.op);
    assert (Print(t) + rest)[1..] == Print(t.x) + rest;
    ExprReads(t.x, rest, k);
    assert Climb(t.x, rest, k) == Some((t.x, rest));
  }

  /** A lambda from the readings of its parts. */
  lemma LamFrom(ts: seq<Token>, items: seq<Item>, after: seq<Token>, body: Py, rest: seq<Token>)
    requires ts != [] && ts[0].LambdaWord? && after != [] && after[0].Colon? && All(items, IsParameter)
    requires ReadItems(ts[1..], false) == Some((items, false, after))
    requires ReadExpr(after[1..], 0) == Some((body, rest))
    ensures ReadExpr(ts, 0) == Some((Lam(items, body), rest))
  {
    assert ReadLambda(ts) == Some((Lam(items, body), rest));
  }

  lemma {:induction false} LamReads(t: Py, rest: seq<Token>)
    requires t.Lam? && Grammatical(t) && Follows(t, rest)
    ensures ReadExpr(Print(t) + rest, 0) == Climb(t, rest, 0)
    decreases t, 2
  {
    var body := Print(t.body) + rest;
    var after := [Colon(true)] + body;
    assert (Print(t) + rest)[1..] == PrintItems(t.items) + after;
    ItemsReadAlone(t.items, false, after);
    assert after[1..] == body;
    assert Stop(rest);
    OperandReads(t.body, rest, 0);
    LamFrom(Print(t) + rest, t.items, after, t.body, rest);
    Stays(t, rest, 0);
  }

  lemma {:induction false} PrimaryReads(t: Py, rest: seq<Token>)
    requires Grammatical(t) && Level(t) == TIGHTEST
    ensures Print(t) != [] && ReadPrimary(Print(t) + rest) == Postfix(t, rest)
    decreases t, 2
  {
    match t
    case Name(w) => assert ([Atom(w)] + rest)[1..] == rest;
    case Paren(_, _) => BracketsRead(t, rest);
    case List(_) => BracketsRead(t, rest);
    case Dict(_) => BracketsRead(t, rest);
    case Comp(_, _) => CompReads(t, rest);
    case Attr(x, name) =>
      var after := [Dot, Atom(name)] + rest;
      assert Print(t) + rest == Print(x) + after && after[2..] == rest;
      PrimaryReads(x, after);
    case Apply(_, _) => ApplyReads(t, rest);
    case Index(_, _) => IndexReads(t, rest);
    case Range(_, _, _) => RangeReads(t, rest);
  }

  lemma {:induction false} BracketsRead(t: Py, rest: seq<Token>)
    requires (t.Paren? || t.List? || t.Dict?) && Grammatical(t)
    ensures ReadAtom(Print(t) + rest) == Some((t, rest))
    decreases t, 1
  {
    var comma := t.Paren? && t.comma;
    var close := if t.Paren? then CloseParen else if t.List? then CloseBracket else CloseBrace;
    var after := [close] + rest;
    assert (Print(t) + rest)[1..] == PrintItems(t.items) + ((if comma then [Comma(false)] else []) + after);
    ItemsRead(t.items, t.Dict?, comma, after);
    assert after[1..] == rest;
  }

  lemma {:induction false} ElementReads(elem: Py, rest: seq<Token>)
    requires Grammatical(elem) && rest != [] && rest[0].ForIn?
    ensures ReadItems(Print(elem) + rest, false) == Some(([Item(false, None, elem, None)], false, rest))
    decreases elem, 6
  {
    Starts(elem);
    assert (Print(elem) + rest)[0] == Print(elem)[0];
    ValueReads(elem, false, rest);
  }

  /** A comprehension from the readings of its parts. */
  lemma CompFrom(ts: seq<Token>, elem: Py, iter: seq<Token>, source: Py, after: seq<Token>)
    requires ts != [] && ts[0].OpenBracket? && iter != [] && iter[0].ForIn? && after != [] && after[0].CloseBracket?
    requires ReadItems(ts[1..], false) == Some(([Item(false, None, elem, None)], false, iter))
    requires ReadExpr(iter[1..], 1) == Some((source, after))
    ensures ReadAtom(ts) == Some((Comp(elem, source), after[1..]))
  {
    assert ReadList(ts) == Some((Comp(elem, source), after[1..]));
  }

  lemma Onward(a: seq<Token>, b: seq<Token>, rest: seq<Token>)
    ensures (a + b) + rest == a + (b + rest)
  {
  }

  lemma CompTokens(t: Py, rest: seq<Token>)
    requires t.Comp?
    ensures Print(t) + rest ==
            [OpenBracket] + (Print(t.elem) + ([ForIn] + (Print(t.source) + ([CloseBracket] + rest))))
  {
    var source := Print(t.source) + [CloseBracket];
    Onward([OpenBracket], Print(t.elem) + ([ForIn] + source), rest);
    Onward(Print(t.elem), [ForIn] + source, rest);
    Onward([ForIn], source, rest);
    Onward(Print(t.source), [CloseBracket], rest);
  }

  lemma {:induction false} CompReads(t: Py, rest: seq<Token>)
    requires t.Comp? && Grammatical(t)
    ensures ReadAtom(Print(t) + rest) == Some((t, rest))
    decreases t, 1
  {
    var after := [CloseBracket] + rest;
    var source := Print(t.source) + after;
    var iter := [ForIn] + source;
    CompTokens(t, rest);
    ElementReads(t.elem, iter);
    assert iter[1..] == source && after[1..] == rest;
    OperandReads(t.source, after, 1);
    assert ([OpenBracket] + (Print(t.elem) + iter))[1..] == Print(t.elem) + iter;
    CompFrom([OpenBracket] + (Print(t.elem) + iter), t.elem, iter, t.source, after);
  }

  lemma {:induction false} ApplyReads(t: Py, rest: seq<Token>)
    requires t.Apply? && Grammatical(t)
    ensures Print(t) != [] && ReadPrimary(Print(t) + rest) == Postfix(t, rest)
    decreases t, 1
  {
    var close := [CloseParen] + rest;
    var after := [OpenParen] + (PrintItems(t.items) + close);
    assert Print(t) + rest == Print(t.x) + after;
    PrimaryReads(t.x, after);
    ItemsReadAlone(t.items, false, close);
    assert after[1..] == PrintItems(t.items) + close && close[1..] == rest;
  }

  lemma {:induction false} BoundReads(b: Option<Py>, rest: seq<Token>)
    requires BoundGrammatical(b) && rest != [] && Ends(rest[0])
    ensures ReadBound(PrintBound(b) + rest) == Some((b, rest))
    decreases b, 5
  {
    if b.Some? {
      Starts(b.value);
      OperandReads(b.value, rest, 0);
      assert (Print(b.value) + rest)[0] == Print(b.value)[0];
    } else {
      assert [] + rest == rest;
    }
  }

  lemma {:induction false} IndexReads(t: Py, rest: seq<Token>)
    requires t.Index? && Grammatical(t)
    ensures Print(t) != [] && ReadPrimary(Print(t) + rest) == Postfix(t, rest)
    decreases t, 1
  {
    var close := [CloseBracket] + rest;
    var after := [OpenBracket] + (Print(t.index) + close);
    assert Print(t) + rest == Print(t.x) + after;
    PrimaryReads(t.x, after);
    Starts(t.index);
    OperandReads(t.index, close, 0);
    assert after[1..] == Print(t.index) + close && close[1..] == rest;
    assert after[1..][0] == Print(t.index)[0];
    assert ReadBound(after[1..]) == Some((Some(t.index), close));
    assert ReadSubscript(t.x, after) == Some((t, rest));
  }

  lemma {:induction false} RangeReads(t: Py, rest: seq<Token>)
    requires t.Range? && Grammatical(t)
    ensures Print(t) != [] && ReadPrimary(Print(t) + rest) == Postfix(t, rest)
    decreases t, 1
  {
    var close := [CloseBracket] + rest;
    var high := PrintBound(t.high) + close;
    var colon := [Colon(false)] + high;
    var after := [OpenBracket] + (PrintBound(t.low) + colon);
    assert Print(t) + rest == Print(t.x) + after;
    PrimaryReads(t.x, after);
    BoundReads(t.low, colon);
    BoundReads(t.high, close);
    assert after[1..] == PrintBound(t.low) + colon && colon[1..] == high && close[1..] == rest;
    assert ReadSubscript(t.x, after) == Some((t, rest));
  }

  predicate ItemFits(item: Item, pairs: bool) { if pairs then IsEntry(item) else IsArgument(item) }

  lemma {:induction false} NameReads(w: Words, rest: seq<Token>)
    requires Stop(rest)
    ensures ReadExpr([Atom(w)] + rest, 0) == Some((Name(w), rest))
  {
    var ts := [Atom(w)] + rest;
    assert ts[1..] == rest;
    Stays(Name(w), rest, 0);
    assert ReadAtom(ts) == Some((Name(w), rest));
    assert ReadPrimary(ts) == Some((Name(w), rest));
  }

  /** What may stand after an item. */
  predicate AfterItem(rest: seq<Token>, pairs: bool) {
    rest != [] && (Ends(rest[0]) || rest[0].Comma?) && (pairs ==> !rest[0].Colon?)
  }

  lemma {:induction false} ItemReads(item: Item, pairs: bool, rest: seq<Token>)
    requires ItemGrammatical(item) && ItemFits(item, pairs) && AfterItem(rest, pairs)
    ensures PrintItem(item) != [] && !Ends(PrintItem(item)[0])
    ensures ReadItem(PrintItem(item) + rest, pairs) == Some((item, rest))
    decreases item, 5
  {
    Starts(item.value);
    if item.star {
      StarReads(item, pairs, rest);
    } else if item.key.Some? {
      KeyReads(item, pairs, rest);
    } else if item.second.Some? {
      EntryReads(item, rest);
    } else {
      assert PrintItem(item) == Print(item.value);
      ValueReads(item.value, pairs, rest);
    }
  }

  lemma {:induction false} StarReads(item: Item, pairs: bool, rest: seq<Token>)
    requires item.star && ItemGrammatical(item) && IsArgument(item) && AfterItem(rest, pairs)
    ensures ReadItem(PrintItem(item) + rest, pairs) == Some((item, rest))
    decreases item, 4
  {
    assert (PrintItem(item) + rest)[1..] == Print(item.value) + rest;
    OperandReads(item.value, rest, 0);
  }

  lemma {:induction false} KeyReads(item: Item, pairs: bool, rest: seq<Token>)
    requires item.key.Some? && ItemGrammatical(item) && IsArgument(item) && AfterItem(rest, pairs)
    ensures ReadItem(PrintItem(item) + rest, pairs) == Some((item, rest))
    decreases item, 4
  {
    var value := Print(item.value) + rest;
    var after := [Equals] + value;
    assert PrintItem(item) + rest == [Atom(item.key.value)] + after && after[1..] == value;
    NameReads(item.key.value, after);
    OperandReads(item.value, rest, 0);
  }

  lemma {:induction false} EntryReads(item: Item, rest: seq<Token>)
    requires ItemGrammatical(item) && IsEntry(item) && AfterItem(rest, true)
    ensures ReadItem(PrintItem(item) + rest, true) == Some((item, rest))
    decreases item, 4
  {
    var value, more := Print(item.value), Print(item.second.value) + rest;
    var after := [Colon(true)] + more;
    Starts(item.value);
    assert PrintItem(item) + rest == value + after && after[1..] == more && (value + after)[0] == value[0];
    OperandReads(item.value, after, 0);
    OperandReads(item.second.value, rest, 0);
  }

  lemma {:induction false} ValueReads(value: Py, pairs: bool, rest: seq<Token>)
    requires Grammatical(value) && AfterItem(rest, pairs)
    ensures Print(value) != []
    ensures ReadItem(Print(value) + rest, pairs) == Some((Item(false, None, value, None), rest))
    decreases value, 5
  {
    Starts(value);
    assert (Print(value) + rest)[0] == Print(value)[0];
    OperandReads(value, rest, 0);
  }

  lemma {:induction false} ItemsRead(items: seq<Item>, pairs: bool, comma: bool, rest: seq<Token>)
    requires AllGrammatical(items) && forall i :: 0 <= i < |items| ==> ItemFits(items[i], pairs)
    requires rest != [] && Ends(rest[0]) && (pairs ==> !rest[0].Colon?) && (comma ==> items != [])
    ensures ReadItems(PrintItems(items) + ((if comma then [Comma(false)] else []) + rest), pairs)
            == Some((items, comma, rest))
    decreases items, 6
  {
    var tail := (if comma then [Comma(false)] else []) + rest;
    var ts := PrintItems(items) + tail;
    if items == [] {
      assert ts == rest;
    } else if |items| == 1 {
      ItemReads(items[0], pairs, tail);
      assert ts[0] == PrintItem(items[0])[0];
      assert ReadItems(rest, pairs) == Some(([], false, rest));
      assert items == [items[0]] && items == [items[0]] + [];
      if comma { assert tail[1..] == rest; } else { assert tail == rest; }
    } else {
      var more := PrintItems(items[1..]) + tail;
      var after := [Comma(true)] + more;
      assert ts == PrintItem(items[0]) + after && after[1..] == more;
      ItemReads(items[0], pairs, after);
      assert ts[0] == PrintItem(items[0])[0];
      ItemsRead(items[1..], pairs, comma, rest);
      assert [items[0]] + items[1..] == items;
    }
  }

  /** Without a last comma. */
  lemma {:induction false} ItemsReadAlone(items: seq<Item>, pairs: bool, rest: seq<Token>)
    requires AllGrammatical(items) && forall i :: 0 <= i < |items| ==> ItemFits(items[i], pairs)
    requires rest != [] && Ends(rest[0]) && (pairs ==> !rest[0].Colon?)
    ensures ReadItems(PrintItems(items) + rest, pairs) == Some((items, false, rest))
    decreases items, 7
  {
    ItemsRead(items, pairs, false, rest);
    assert [] + rest == rest;
  }

  /** The tokens of a tree are read as that tree if and only if it is grammatical. */
  lemma ReadsBackExactly(t: Py)
    ensures ReadAll(Print(t)) == Some(t) <==> Grammatical(t)
  {
    if Grammatical(t) {
      OperandReads(t, [], 0);
      assert Print(t) + [] == Print(t);
    } else if ReadAll(Print(t)) == Some(t) {
      ExprIsGrammatical(Print(t), 0);
    }
  }
}
