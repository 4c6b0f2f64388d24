/** When emitted text names the runtime, against the analysis that decides the import. */
module ShimUse {
  // An expression's text is made of its sub-expressions' texts, so the comparison is an
  // induction over the tree. The one part that is rendered and then dropped is the element of
  // an array of length zero, which is why the analysis has two readings.

  import opened Prelude
  import opened IR
  import opened EmitText
  import opened EmitExpr
  import opened EmitWrite
  import L = EmitLayout

  // ----- The analysis -----

  /** Whether an expression uses the runtime. The import analysis is the loose reading; the
      strict one passes over the element of an array of length zero, which the emitter
      does not write. */
  predicate Uses(e: Expr, loose: bool)
    decreases e, 0
  {
    match e
    case Intrinsic(_, _) => true
    case Mask(_, _, _) => true
    case ShimFunc(_) => true
    case Binary(_, x, y) => Uses(x, loose) || Uses(y, loose)
    case Unary(_, x) => Uses(x, loose)
    case Convert(_, x) => Uses(x, loose)
    case IndexExpr(x, index) => Uses(x, loose) || Uses(index, loose)
    case Call(_, args) => ArgsUse(args, loose)
    case MethodCall(recv, _, args) => Uses(recv, loose) || ArgsUse(args, loose)
    case MethodValue(recv, _, _) => Uses(recv, loose)
    case FieldAccess(x, _) => Uses(x, loose)
    case AddrField(_, _) => true
    case AddrIndex(_, _) => true
    case Deref(x) => Uses(x, loose)
    case Tuple(elems) => ArgsUse(elems, loose)
    case Lambda(_, captures, body) => CapturesUse(captures, loose) || Uses(body, loose)
    case Clone(x) => Uses(x, loose)
    case ArrayClone(_) => true
    case ArrayZero(len, elem, _) => (loose || len != 0) && Uses(elem, loose)
    case ArrayLit(elems) => ArgsUse(elems, loose)
    case SliceLit(_) => true
    case SliceMake(_, _, _, _) => true
    case NilSlice => true
    case NilMap => true
    case NilPtr => true
    case MapLit(entries) => EntriesUse(entries, loose)
    case SliceExpr(x, low, high, max) =>
      max.Some? || Uses(x, loose) || BoundUses(low, loose) || BoundUses(high, loose)
    case StructLit(_, _, fields) => FieldsUse(fields, loose)
    case _ => false
  }

  predicate BoundUses(e: Option<Expr>, loose: bool)
    decreases e, 1
  {
    match e
    case None => false
    case Some(x) => Uses(x, loose)
  }

  predicate ArgsUse(args: seq<Expr>, loose: bool)
    decreases args, 1
  {
    args != [] && (Uses(args[0], loose) || ArgsUse(args[1..], loose))
  }

  predicate CapturesUse(captures: seq<Capture<Expr>>, loose: bool)
    decreases captures, 1
  {
    captures != [] && (Uses(captures[0].value, loose) || CapturesUse(captures[1..], loose))
  }

  predicate FieldsUse(fields: seq<StructArg>, loose: bool)
    decreases fields, 1
  {
    fields != [] && (Uses(fields[0].value, loose) || FieldsUse(fields[1..], loose))
  }

  predicate EntryUses(entry: MapEntry, loose: bool)
    decreases entry, 1
  {
    Uses(entry.key, loose) || Uses(entry.value, loose)
  }

  predicate EntriesUse(entries: seq<MapEntry>, loose: bool)
    decreases entries, 1
  {
    entries != [] && (EntryUses(entries[0], loose) || EntriesUse(entries[1..], loose))
  }

  predicate AnyUse(es: seq<Expr>, loose: bool) {
    exists i :: 0 <= i < |es| && Uses(es[i], loose)
  }

  // ----- Against the text -----

  predicate Any(ws: seq<Words>) {
    ws != [] && (Shim in ws[0] || Any(ws[1..]))
  }

  lemma {:induction false} JoinNames(ws: seq<Words>)
    ensures Shim in Join(ws) <==> Any(ws)
  {
    if |ws| > 1 {
      JoinNames(ws[1..]);
    } else if |ws| == 1 {
      assert ws[1..] == [];
    }
  }

  lemma {:induction false} AnyConcat(a: seq<Words>, b: seq<Words>)
    ensures Any(a + b) <==> Any(a) || Any(b)
  {
    if a == [] {
      assert a + b == b;
    } else {
      assert (a + b)[1..] == a[1..] + b;
      AnyConcat(a[1..], b);
    }
  }

  lemma {:induction false} NamesName(names: seq<string>)
    ensures !Any(Names(names))
  {
    if names != [] {
      assert Names(names)[1..] == Names(names[1..]);
      NamesName(names[1..]);
    }
  }

  /** What is to be shown: the text names the runtime exactly when the expression uses it
      outside arrays of length zero. */
  predicate Agrees(e: Expr) {
    Emit(e).Some? ==> (Shim in Emit(e).value <==> Uses(e, false))
  }

  predicate AllAgree(es: seq<Expr>) {
    forall i :: 0 <= i < |es| ==> Agrees(es[i])
  }

  lemma AllAgreeConcat(a: seq<Expr>, b: seq<Expr>)
    requires AllAgree(a + b)
    ensures AllAgree(a) && AllAgree(b)
  {
    assert forall i :: 0 <= i < |a| ==> a[i] == (a + b)[i];
    assert forall i :: 0 <= i < |b| ==> b[i] == (a + b)[|a| + i];
  }

  lemma {:induction false} ArgsAgree(args: seq<Expr>)
    requires EmitArgs(args).Some? && AllAgree(args)
    ensures Any(EmitArgs(args).value) <==> ArgsUse(args, false)
  {
    if args != [] {
      assert Agrees(args[0]);
      ArgsAgree(args[1..]);
      assert EmitArgs(args).value[1..] == EmitArgs(args[1..]).value;
    }
  }

  lemma {:induction false} CapturesAgree(captures: seq<Capture<Expr>>)
    requires EmitCaptures(captures).Some? && AllAgree(Seeds(captures))
    ensures Any(Defaults(EmitCaptures(captures).value)) <==> CapturesUse(captures, false)
  {
    if captures != [] {
      assert Agrees(Seeds(captures)[0]);
      assert Seeds(captures)[1..] == Seeds(captures[1..]);
      CapturesAgree(captures[1..]);
      var cs := EmitCaptures(captures).value;
      assert Defaults(cs)[1..] == Defaults(EmitCaptures(captures[1..]).value);
    }
  }

  lemma {:induction false} FieldsAgree(keyed: bool, fields: seq<StructArg>)
    requires EmitFields(keyed, fields).Some? && AllAgree(FieldValues(fields))
    ensures Any(EmitFields(keyed, fields).value) <==> FieldsUse(fields, false)
  {
    if fields != [] {
      assert Agrees(FieldValues(fields)[0]);
      assert FieldValues(fields)[1..] == FieldValues(fields[1..]);
      FieldsAgree(keyed, fields[1..]);
      assert EmitFields(keyed, fields).value[1..] == EmitFields(keyed, fields[1..]).value;
    }
  }

  lemma {:induction false} EntriesAgree(entries: seq<MapEntry>)
    requires EmitEntries(entries).Some? && AllAgree(Keys(entries)) && AllAgree(Values(entries))
    ensures Any(EmitEntries(entries).value) <==> EntriesUse(entries, false)
  {
    if entries != [] {
      assert Agrees(Keys(entries)[0]) && Agrees(Values(entries)[0]);
      assert Keys(entries)[1..] == Keys(entries[1..]) && Values(entries)[1..] == Values(entries[1..]);
      EntriesAgree(entries[1..]);
      assert EmitEntries(entries).value[1..] == EmitEntries(entries[1..]).value;
    }
  }

  lemma BoundAgrees(bound: Option<Expr>)
    requires EmitBound(bound).Some? && AllAgree(Bound(bound))
    ensures Shim in EmitBound(bound).value <==> BoundUses(bound, false)
  {
    if bound.Some? { assert Agrees(Bound(bound)[0]); }
  }

  lemma SliceExprAgrees(e: Expr)
    requires e.SliceExpr? && AllAgree(Children(e))
    ensures Agrees(e)
  {
    if Emit(e).Some? {
      AllAgreeConcat([e.x] + Bound(e.low) + Bound(e.high), Bound(e.max));
      AllAgreeConcat([e.x] + Bound(e.low), Bound(e.high));
      AllAgreeConcat([e.x], Bound(e.low));
      assert Agrees([e.x][0]);
      BoundAgrees(e.low);
      BoundAgrees(e.high);
    }
  }

  lemma SignatureAgrees(params: seq<string>, captures: seq<Capture<Expr>>)
    requires EmitCaptures(captures).Some? && AllAgree(Seeds(captures))
    ensures Shim in SignatureText(params, EmitCaptures(captures).value) <==> CapturesUse(captures, false)
  {
    var cs := EmitCaptures(captures).value;
    JoinNames(Names(params) + Defaults(cs));
    AnyConcat(Names(params), Defaults(cs));
    NamesName(params);
    CapturesAgree(captures);
  }

  predicate IsList(e: Expr) {
    e.Call? || e.MethodCall? || e.Tuple? || e.ArrayLit? || e.StructLit? || e.MapLit? || e.Lambda?
  }

  lemma ArgListAgrees(e: Expr)
    requires e.Call? || e.Tuple? || e.ArrayLit?
    requires AllAgree(Children(e))
    ensures Agrees(e)
  {
    if Emit(e).Some? {
      ArgsAgree(Children(e));
      JoinNames(EmitArgs(Children(e)).value);
    }
  }

  lemma MethodCallAgrees(e: Expr)
    requires e.MethodCall? && AllAgree(Children(e))
    ensures Agrees(e)
  {
    if Emit(e).Some? {
      AllAgreeConcat([e.recv], e.args);
      assert Agrees([e.recv][0]);
      ArgsAgree(e.args);
      JoinNames(EmitArgs(e.args).value);
    }
  }

  lemma ListAgrees(e: Expr)
    requires IsList(e) && AllAgree(Children(e))
    ensures Agrees(e)
  {
    if Emit(e).Some? {
      match e
      case StructLit(_, keyed, fields) =>
        FieldsAgree(keyed, fields);
        JoinNames(EmitFields(keyed, fields).value);
      case MapLit(entries) =>
        AllAgreeConcat(Keys(entries), Values(entries));
        EntriesAgree(entries);
        JoinNames(EmitEntries(entries).value);
      case Lambda(params, captures, body) =>
        AllAgreeConcat(Seeds(captures), [body]);
        assert Agrees([body][0]);
        SignatureAgrees(params, captures);
      case MethodCall(_, _, _) => MethodCallAgrees(e);
      case _ => ArgListAgrees(e);
    }
  }

  /** The nodes whose text always starts from the runtime. */
  predicate AlwaysRuntime(e: Expr) {
    e.Intrinsic? || e.Mask? || e.ShimFunc? || e.AddrField? || e.AddrIndex? || e.ArrayClone? || e.SliceLit?
    || e.SliceMake? || e.NilSlice? || e.NilMap? || e.NilPtr?
  }

  lemma RuntimeAgrees(e: Expr)
    requires AlwaysRuntime(e)
    ensures Agrees(e)
  {
    if Emit(e).Some? {
      assert Emit(e).value[0] == Shim;
    }
  }

  lemma OperandsAgree(e: Expr)
    requires !IsList(e) && !AlwaysRuntime(e) && !e.SliceExpr? && AllAgree(Children(e))
    ensures Agrees(e)
  {
    var cs := Children(e);
    assert |cs| > 0 ==> Agrees(cs[0]);
    assert |cs| > 1 ==> Agrees(cs[1]);
  }

  lemma {:induction false} TextNamesExactly(e: Expr)
    ensures Agrees(e)
  {
    forall i | 0 <= i < |Children(e)| ensures Agrees(Children(e)[i]) {
      TextNamesExactly(Children(e)[i]);
    }
    if IsList(e) {
      ListAgrees(e);
    } else if e.SliceExpr? {
      SliceExprAgrees(e);
    } else if AlwaysRuntime(e) {
      RuntimeAgrees(e);
    } else {
      OperandsAgree(e);
    }
  }

  // ----- Statements -----

  /** The statements that call the runtime whatever they hold. */
  predicate CallsRuntime<X>(s: Stmt<X>) {
    s.RangeMap? || s.RangeString? || s.DeferReturn? || s.Panic? || (s.DeferBlock? && s.reshape)
  }

  predicate StmtUses(s: Stmt<Expr>, loose: bool)
    decreases s, 0
  {
    || CallsRuntime(s) || AnyUse(Parts(s), loose)
    || match s
       case FuncDef(_, _, _, _, body) => BlockUses(body, loose)
       case If(_, thn, els) => BlockUses(thn, loose) || BlockUses(els, loose)
       case For(_, body, _) => BlockUses(body, loose)
       case ForRange(_, _, _, _, body) => BlockUses(body, loose)
       case DeferBlock(body, _, _) => BlockUses(body, loose)
       case _ => false
  }

  predicate BlockUses(body: seq<Stmt<Expr>>, loose: bool)
    decreases body, 1
  {
    body != [] && (StmtUses(body[0], loose) || BlockUses(body[1..], loose))
  }

  // ----- Lines -----

  predicate TextNames(t: L.Text) {
    match t
    case Plain(s) => Shim in s
    case ClassHead(s) => Shim in s
    case DefHead(s) => Shim in s
    case IfHead(s) => Shim in s
    case ElifHead(s) => Shim in s
    case WhileHead(s) => Shim in s
    case ForHead(s) => Shim in s
    case ExceptHead(s) => Shim in s
    case _ => false
  }

  /** Some line names the runtime. */
  predicate LinesName(lines: seq<L.Line>) {
    exists i :: 0 <= i < |lines| && TextNames(lines[i].text)
  }

  lemma ConcatNames(a: seq<L.Line>, b: seq<L.Line>)
    ensures LinesName(a + b) <==> LinesName(a) || LinesName(b)
  {
    if LinesName(a) {
      var i :| 0 <= i < |a| && TextNames(a[i].text);
      assert (a + b)[i] == a[i];
    }
    if LinesName(b) {
      var i :| 0 <= i < |b| && TextNames(b[i].text);
      assert (a + b)[|a| + i] == b[i];
    }
  }

  lemma LineNames(l: L.Line)
    ensures LinesName([l]) <==> TextNames(l.text)
  {
    assert [l][0] == l;
  }

  // ----- The lines of a statement -----

  lemma AnyUseConcat(a: seq<Expr>, b: seq<Expr>, loose: bool)
    ensures AnyUse(a + b, loose) <==> AnyUse(a, loose) || AnyUse(b, loose)
  {
    if AnyUse(a, loose) {
      var i :| 0 <= i < |a| && Uses(a[i], loose);
      assert (a + b)[i] == a[i];
    }
    if AnyUse(b, loose) {
      var i :| 0 <= i < |b| && Uses(b[i], loose);
      assert (a + b)[|a| + i] == b[i];
    }
  }

  lemma OneUse(e: Expr, loose: bool)
    ensures AnyUse([e], loose) <==> Uses(e, loose)
  {
    assert [e][0] == e;
  }

  lemma {:induction false} ArgsUseAny(args: seq<Expr>, loose: bool)
    ensures ArgsUse(args, loose) <==> AnyUse(args, loose)
  {
    if args != [] {
      ArgsUseAny(args[1..], loose);
      AnyUseConcat([args[0]], args[1..], loose);
      OneUse(args[0], loose);
      assert [args[0]] + args[1..] == args;
    }
  }

  lemma {:induction false} SeedsUseAny(captures: seq<Capture<Expr>>, loose: bool)
    ensures CapturesUse(captures, loose) <==> AnyUse(Seeds(captures), loose)
  {
    if captures != [] {
      SeedsUseAny(captures[1..], loose);
      AnyUseConcat([captures[0].value], Seeds(captures[1..]), loose);
      OneUse(captures[0].value, loose);
      assert [captures[0].value] + Seeds(captures[1..]) == Seeds(captures);
    }
  }

  lemma OneNames(e: Expr)
    requires Emit(e).Some?
    ensures Shim in Emit(e).value <==> AnyUse([e], false)
  {
    TextNamesExactly(e);
    OneUse(e, false);
  }

  lemma TwoNames(x: Expr, y: Expr)
    requires Emit(x).Some? && Emit(y).Some?
    ensures Shim in Emit(x).value || Shim in Emit(y).value <==> AnyUse([x, y], false)
  {
    OneNames(x);
    OneNames(y);
    AnyUseConcat([x], [y], false);
    assert [x] + [y] == [x, y];
  }

  lemma ThreeNames(x: Expr, y: Expr, z: Expr)
    requires Emit(x).Some? && Emit(y).Some? && Emit(z).Some?
    ensures Shim in Emit(x).value || Shim in Emit(y).value || Shim in Emit(z).value <==> AnyUse([x, y, z], false)
  {
    TwoNames(x, y);
    OneNames(z);
    AnyUseConcat([x, y], [z], false);
    assert [x, y] + [z] == [x, y, z];
  }

  lemma OptionalNames(e: Option<Expr>)
    requires WriteOptional(e).Some?
    ensures (WriteOptional(e).value.Some? && Shim in WriteOptional(e).value.value) <==> AnyUse(Optional(e), false)
  {
    if e.Some? { OneNames(e.value); }
  }

  lemma EveryAgrees(es: seq<Expr>)
    ensures AllAgree(es)
  {
    forall i | 0 <= i < |es| ensures Agrees(es[i]) { TextNamesExactly(es[i]); }
  }

  lemma PushNames(fn: Expr, args: seq<Expr>)
    requires Emit(fn).Some? && EmitArgs(args).Some?
    ensures Shim in Emit(fn).value || Shim in Join(EmitArgs(args).value) <==> AnyUse([fn] + args, false)
  {
    OneNames(fn);
    EveryAgrees(args);
    ArgsAgree(args);
    ArgsUseAny(args, false);
    JoinNames(EmitArgs(args).value);
    AnyUseConcat([fn], args, false);
  }

  lemma NamesJoined(names: seq<string>)
    ensures Shim !in Join(Names(names))
  {
    NamesName(names);
    JoinNames(Names(names));
  }

  lemma StoreNames(s: Stmt<Expr>)
    requires s.Assign? || s.TupleAssign? || s.SetField? || s.SetIndex? || s.DerefSet?
    requires WriteStmt(s).Some?
    ensures Shim in L.PlainText(WriteStmt(s).value) <==> StmtUses(s, false)
  {
    match s
    case Assign(_, value) => OneNames(value);
    case TupleAssign(names, value) => OneNames(value); NamesJoined(names);
    case SetField(obj, _, value) => TwoNames(obj, value);
    case SetIndex(obj, index, value) => ThreeNames(obj, index, value);
    case DerefSet(ptr, value) => TwoNames(ptr, value);
  }

  lemma PlainNames(s: Stmt<Expr>)
    requires WriteStmt(s).Some? && L.IsPlain(WriteStmt(s).value)
    ensures Shim in L.PlainText(WriteStmt(s).value) <==> StmtUses(s, false)
  {
    match s
    case ExprStmt(x) => OneNames(x);
    case Return(result) => OptionalNames(result);
    case Panic(_) =>
      var text := L.PlainText(WriteStmt(s).value);
      assert text[6] == Shim;
    case DeferPush(fn, args) => PushNames(fn, args);
    case Break =>
    case Continue =>
    case _ => StoreNames(s);
  }

  lemma HeadNames(head: L.Text, lines: seq<L.Line>, depth: nat)
    ensures LinesName([L.At(depth, head)] + lines) <==> TextNames(head) || LinesName(lines)
  {
    ConcatNames([L.At(depth, head)], lines);
    LineNames(L.At(depth, head));
  }

  lemma RangeNames(s: Stmt<Expr>)
    requires s.ForRange? && WriteStmt(s).Some?
    ensures Shim in L.RangeText(WriteStmt(s).value) <==> AnyUse(Parts(s), false)
  {
    OptionalNames(s.start);
    OneNames(s.stop);
    OptionalNames(s.step);
    AnyUseConcat(Optional(s.start) + [s.stop], Optional(s.step), false);
    AnyUseConcat(Optional(s.start), [s.stop], false);
  }

  lemma DefNames(s: Stmt<Expr>)
    requires s.FuncDef? && WriteStmt(s).Some?
    ensures Shim in L.DefText(WriteStmt(s).value) <==> AnyUse(Parts(s), false)
  {
    EveryAgrees(Seeds(s.captures));
    SignatureAgrees(s.params, s.captures);
    SeedsUseAny(s.captures, false);
  }

  lemma {:induction false} StmtsName(body: seq<Stmt<Expr>>, depth: nat)
    requires WriteBlock(body).Some? && !L.AnyRefused(WriteBlock(body).value)
    ensures LinesName(L.StmtsLines(WriteBlock(body).value, depth)) <==> BlockUses(body, false)
    decreases body, 1
  {
    if body != [] {
      var ws := WriteBlock(body).value;
      assert ws[1..] == WriteBlock(body[1..]).value;
      StmtNames(body[0], depth);
      StmtsName(body[1..], depth);
      ConcatNames(L.StmtLines(ws[0], depth), L.StmtsLines(ws[1..], depth));
    }
  }

  lemma {:induction false} BlockNames(body: seq<Stmt<Expr>>, depth: nat)
    requires WriteBlock(body).Some? && !L.AnyRefused(WriteBlock(body).value)
    ensures LinesName(L.BlockLines(WriteBlock(body).value, depth)) <==> BlockUses(body, false)
    decreases body, 2
  {
    if body == [] { LineNames(L.At(depth, L.Pass)); } else { StmtsName(body, depth); }
  }

  lemma {:induction false} ElseNames(els: seq<Stmt<Expr>>, depth: nat)
    requires WriteBlock(els).Some? && !L.AnyRefused(WriteBlock(els).value)
    ensures LinesName(L.ElseLines(WriteBlock(els).value, depth)) <==> BlockUses(els, false)
    decreases els, 3
  {
    var ws := WriteBlock(els).value;
    if els == [] {
    } else if |els| == 1 && els[0].If? {
      ElifNames(els, depth);
    } else {
      BlockNames(els, depth + 1);
      HeadNames(L.ElseHead, L.BlockLines(ws, depth + 1), depth);
    }
  }

  lemma {:induction false} ElifNames(els: seq<Stmt<Expr>>, depth: nat)
    requires |els| == 1 && els[0].If?
    requires WriteBlock(els).Some? && !L.AnyRefused(WriteBlock(els).value)
    ensures LinesName(L.ElseLines(WriteBlock(els).value, depth)) <==> BlockUses(els, false)
    decreases els, 2
  {
    var ws, nested := WriteBlock(els).value, els[0];
    L.ElifLines(ws, depth);
    OneNames(nested.cond);
    BlockNames(nested.thn, depth + 1);
    ElseNames(nested.els, depth);
    var suite := L.BlockLines(ws[0].thn, depth + 1);
    HeadNames(L.ElifHead(ws[0].cond), suite, depth);
    ConcatNames([L.At(depth, L.ElifHead(ws[0].cond))] + suite, L.ElseLines(ws[0].els, depth));
    assert BlockUses(els, false) <==> StmtUses(nested, false);
  }

  lemma {:induction false} IfNames(s: Stmt<Expr>, depth: nat)
    requires s.If? && WriteStmt(s).Some? && !L.Refused(WriteStmt(s).value)
    ensures LinesName(L.StmtLines(WriteStmt(s).value, depth)) <==> StmtUses(s, false)
    decreases s, 0
  {
    var w := WriteStmt(s).value;
    OneNames(s.cond);
    BlockNames(s.thn, depth + 1);
    ElseNames(s.els, depth);
    var suite := L.BlockLines(w.thn, depth + 1);
    HeadNames(L.IfHead(w.cond), suite, depth);
    ConcatNames([L.At(depth, L.IfHead(w.cond))] + suite, L.ElseLines(w.els, depth));
  }

  lemma {:induction false} LoopNames(s: Stmt<Expr>, depth: nat)
    requires (s.For? || s.ForRange?) && WriteStmt(s).Some? && !L.Refused(WriteStmt(s).value)
    ensures LinesName(L.StmtLines(WriteStmt(s).value, depth)) <==> StmtUses(s, false)
    decreases s, 0
  {
    var w := WriteStmt(s).value;
    BlockNames(s.body, depth + 1);
    var suite := L.BlockLines(w.body, depth + 1);
    if s.For? {
      OptionalNames(s.condition);
      HeadNames(L.WhileHead(L.WhileText(w.condition)), suite, depth);
    } else {
      RangeNames(s);
      HeadNames(L.ForHead(L.RangeText(w)), suite, depth);
    }
  }

  /** The ranges that call the runtime name it. */
  lemma RuntimeRangeNames(w: L.Stmt, depth: nat)
    requires w.RangeMap? || w.RangeString?
    ensures LinesName(L.StmtLines(w, depth))
  {
    var lines := L.StmtLines(w, depth);
    if w.RangeMap? {
      assert TextNames(L.ForHead(L.RangeMapText(w))) by {
        if w.item != "" {
          assert L.RangeMapText(w)[|OrBlank(w.key)| + |w.item| + 6] == Shim;
        } else {
          assert L.RangeMapText(w)[|OrBlank(w.key)| + 4] == Shim;
        }
      }
      assert TextNames(lines[0].text);
    } else {
      assert L.DecodeText(w)[|OrBlank(w.rune)| + |w.width| + 5] == Shim;
      assert lines[2] == L.At(depth + 1, L.Plain(L.DecodeText(w)));
      assert TextNames(lines[2].text);
    }
  }

  lemma ReshapeNames(w: L.Stmt, depth: nat)
    requires w.DeferBlock? && w.reshape
    ensures LinesName(L.StmtLines(w, depth))
  {
    var handler := L.HandlerLines(w.results, depth);
    assert TextNames(handler[0].text);
    ConcatNames([L.At(depth, L.Plain(L.NO_DEFERS)), L.At(depth, L.TryHead)]
                + (L.BlockLines(w.body, depth + 1) + L.FallOffLines(w.body, w.results, depth + 1)), handler);
  }

  lemma {:induction false} PlainDeferNames(s: Stmt<Expr>, depth: nat)
    requires s.DeferBlock? && !s.reshape && WriteStmt(s).Some? && !L.Refused(WriteStmt(s).value)
    ensures LinesName(L.StmtLines(WriteStmt(s).value, depth)) <==> StmtUses(s, false)
    decreases s, 0
  {
    var w := WriteStmt(s).value;
    BlockNames(s.body, depth + 1);
    var front := [L.At(depth, L.Plain(L.NO_DEFERS)), L.At(depth, L.TryHead)];
    var after := [L.At(depth, L.FinallyHead), L.At(depth + 1, L.ForHead(L.EACH_DEFER)),
                  L.At(depth + 2, L.Plain(L.CALL_DEFER))];
    assert !LinesName(front) && !LinesName(after);
    ConcatNames(front + L.BlockLines(w.body, depth + 1), after);
    ConcatNames(front, L.BlockLines(w.body, depth + 1));
  }

  lemma {:induction false} FuncDefNames(s: Stmt<Expr>, depth: nat)
    requires s.FuncDef? && WriteStmt(s).Some? && !L.Refused(WriteStmt(s).value)
    ensures LinesName(L.StmtLines(WriteStmt(s).value, depth)) <==> StmtUses(s, false)
    decreases s, 0
  {
    var w := WriteStmt(s).value;
    BlockNames(s.body, depth + 1);
    DefNames(s);
    NamesJoined(s.nonlocals);
    var head := [L.At(depth, L.DefHead(L.DefText(w)))];
    var outer := if w.nonlocals != [] then [L.At(depth + 1, L.Plain(L.NonlocalText(w.nonlocals)))] else [];
    assert !LinesName(outer);
    LineNames(head[0]);
    ConcatNames(head + outer, L.BlockLines(w.body, depth + 1));
    ConcatNames(head, outer);
  }

  lemma {:induction false} StmtNames(s: Stmt<Expr>, depth: nat)
    requires WriteStmt(s).Some? && !L.Refused(WriteStmt(s).value)
    ensures LinesName(L.StmtLines(WriteStmt(s).value, depth)) <==> StmtUses(s, false)
    decreases s, 1
  {
    var w := WriteStmt(s).value;
    if s.If? {
      IfNames(s, depth);
    } else if s.For? || s.ForRange? {
      LoopNames(s, depth);
    } else if s.RangeMap? || s.RangeString? {
      RuntimeRangeNames(w, depth);
    } else if s.FuncDef? {
      FuncDefNames(s, depth);
    } else if s.DeferBlock? {
      if s.reshape { ReshapeNames(w, depth); } else { PlainDeferNames(s, depth); }
    } else if s.DeferReturn? {
      assert TextNames(L.StmtLines(w, depth)[0].text);
    } else {
      PlainNames(s);
      LineNames(L.At(depth, L.Plain(L.PlainText(w))));
    }
  }
}
