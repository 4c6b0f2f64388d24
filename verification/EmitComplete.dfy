/** A verified expression or block emits exactly when its operators are in the tables. */
module EmitComplete {
  // The emitter refuses an operator it has no spelling for, a missing node, a node it does
  // not know, a labeled jump. The verifier refuses all of these but the first, so of an
  // accepted tree only the operators decide, and only those the emitter reaches: the step of a
  // continue is never rendered.

  import opened Prelude
  import opened IR
  import opened EmitExpr
  import opened EmitWrite
  import opened IRVerify
  import L = EmitLayout

  /** Every operator in the expression is one the emitter maps. */
  predicate OpsKnown(e: Expr) {
    && (e.Binary? ==> BinOp(e.op).Some?) && (e.Unary? ==> UnaryOp(e.op).Some?)
    && forall i :: 0 <= i < |Children(e)| ==> OpsKnown(Children(e)[i])
  }

  predicate AllKnown(es: seq<Expr>) {
    forall i :: 0 <= i < |es| ==> OpsKnown(es[i])
  }

  lemma AllKnownSplit(es: seq<Expr>)
    requires es != []
    ensures AllKnown(es) <==> OpsKnown(es[0]) && AllKnown(es[1..])
  {
    if OpsKnown(es[0]) && AllKnown(es[1..]) {
      forall i | 0 <= i < |es| ensures OpsKnown(es[i]) {
        if i > 0 { assert es[i] == es[1..][i - 1]; }
      }
    }
  }

  lemma AllKnownConcat(a: seq<Expr>, b: seq<Expr>)
    ensures AllKnown(a + b) <==> AllKnown(a) && AllKnown(b)
  {
    if AllKnown(a + b) {
      assert forall i :: 0 <= i < |a| ==> a[i] == (a + b)[i];
      assert forall i :: 0 <= i < |b| ==> b[i] == (a + b)[|a| + i];
    }
  }

  lemma KnownByChildren(e: Expr)
    ensures OpsKnown(e) <==> (e.Binary? ==> BinOp(e.op).Some?) && (e.Unary? ==> UnaryOp(e.op).Some?)
                             && AllKnown(Children(e))
  {
  }

  /** What is to be shown of an expression. */
  predicate EmitsIfKnown(e: Expr) {
    VerifyExpr(e) ==> (Emit(e).Some? <==> OpsKnown(e))
  }

  predicate AllEmit(es: seq<Expr>) {
    forall i :: 0 <= i < |es| ==> EmitsIfKnown(es[i])
  }

  lemma AllEmitSplit(es: seq<Expr>)
    requires AllEmit(es) && es != []
    ensures EmitsIfKnown(es[0]) && AllEmit(es[1..])
  {
  }

  lemma AllEmitConcat(a: seq<Expr>, b: seq<Expr>)
    requires AllEmit(a + b)
    ensures AllEmit(a) && AllEmit(b)
  {
    assert forall i :: 0 <= i < |a| ==> a[i] == (a + b)[i];
    assert forall i :: 0 <= i < |b| ==> b[i] == (a + b)[|a| + i];
  }

  lemma {:induction false} ArgsEmit(args: seq<Expr>)
    requires VerifyArgs(args) && AllEmit(args)
    ensures EmitArgs(args).Some? <==> AllKnown(args)
  {
    if args != [] {
      AllKnownSplit(args);
      AllEmitSplit(args);
      ArgsEmit(args[1..]);
    }
  }

  lemma {:induction false} CapturesEmit(captures: seq<Capture<Expr>>)
    requires VerifyCaptures(captures) && AllEmit(Seeds(captures))
    ensures EmitCaptures(captures).Some? <==> AllKnown(Seeds(captures))
  {
    if captures != [] {
      AllKnownSplit(Seeds(captures));
      AllEmitSplit(Seeds(captures));
      assert Seeds(captures)[1..] == Seeds(captures[1..]);
      CapturesEmit(captures[1..]);
    }
  }

  lemma {:induction false} FieldsEmit(keyed: bool, fields: seq<StructArg>)
    requires VerifyFields(keyed, fields) && AllEmit(FieldValues(fields))
    ensures EmitFields(keyed, fields).Some? <==> AllKnown(FieldValues(fields))
  {
    if fields != [] {
      AllKnownSplit(FieldValues(fields));
      AllEmitSplit(FieldValues(fields));
      assert FieldValues(fields)[1..] == FieldValues(fields[1..]);
      FieldsEmit(keyed, fields[1..]);
    }
  }

  lemma {:induction false} EntriesEmit(entries: seq<MapEntry>)
    requires VerifyEntries(entries) && AllEmit(Keys(entries)) && AllEmit(Values(entries))
    ensures EmitEntries(entries).Some? <==> AllKnown(Keys(entries)) && AllKnown(Values(entries))
  {
    if entries != [] {
      AllKnownSplit(Keys(entries));
      AllKnownSplit(Values(entries));
      AllEmitSplit(Keys(entries));
      AllEmitSplit(Values(entries));
      assert Keys(entries)[1..] == Keys(entries[1..]) && Values(entries)[1..] == Values(entries[1..]);
      EntriesEmit(entries[1..]);
    }
  }

  lemma BoundEmits(bound: Option<Expr>)
    requires VerifyOptional(bound) && AllEmit(Bound(bound))
    ensures EmitBound(bound).Some? <==> AllKnown(Bound(bound))
    ensures WriteOptional(bound).Some? <==> AllKnown(Bound(bound))
  {
    if bound.Some? {
      assert Bound(bound)[0] == bound.value;
    }
  }

  lemma SliceExprEmits(e: Expr)
    requires e.SliceExpr? && VerifyExpr(e) && AllEmit(Children(e))
    ensures Emit(e).Some? <==> AllKnown(Children(e))
  {
    var bounds := [Bound(e.low), Bound(e.high), Bound(e.max)];
    AllKnownConcat([e.x] + bounds[0] + bounds[1], bounds[2]);
    AllKnownConcat([e.x] + bounds[0], bounds[1]);
    AllKnownConcat([e.x], bounds[0]);
    AllKnownSplit([e.x]);
    AllEmitConcat([e.x] + bounds[0] + bounds[1], bounds[2]);
    AllEmitConcat([e.x] + bounds[0], bounds[1]);
    AllEmitConcat([e.x], bounds[0]);
    AllEmitSplit([e.x]);
    BoundEmits(e.low);
    BoundEmits(e.high);
    BoundEmits(e.max);
  }

  lemma ListsEmit(e: Expr)
    requires e.MethodCall? || e.Lambda? || e.MapLit? || e.StructLit?
    requires VerifyExpr(e) && AllEmit(Children(e))
    ensures Emit(e).Some? <==> AllKnown(Children(e))
  {
    match e
    case MethodCall(recv, _, args) =>
      AllKnownConcat([recv], args);
      AllKnownSplit([recv]);
      AllEmitConcat([recv], args);
      AllEmitSplit([recv]);
      ArgsEmit(args);
    case Lambda(_, captures, body) =>
      AllKnownConcat(Seeds(captures), [body]);
      AllKnownSplit([body]);
      AllEmitConcat(Seeds(captures), [body]);
      AllEmitSplit([body]);
      CapturesEmit(captures);
    case MapLit(entries) =>
      AllKnownConcat(Keys(entries), Values(entries));
      AllEmitConcat(Keys(entries), Values(entries));
      EntriesEmit(entries);
    case StructLit(_, keyed, fields) => FieldsEmit(keyed, fields);
  }

  lemma ArgListEmits(e: Expr)
    requires e.Call? || e.Intrinsic? || e.Tuple? || e.ArrayLit? || e.SliceLit?
    requires VerifyExpr(e) && AllEmit(Children(e))
    ensures Emit(e).Some? <==> AllKnown(Children(e))
  {
    ArgsEmit(Children(e));
  }

  lemma FromChildren(e: Expr)
    requires VerifyExpr(e) && AllEmit(Children(e))
    ensures Emit(e).Some? <==> OpsKnown(e)
  {
    if e.Binary? || e.Unary? {
      OperatorEmits(e);
    } else if e.SliceMake? {
      SliceMakeEmits(e);
    } else if e.IndexExpr? || e.AddrIndex? {
      IndexEmits(e);
    } else if OneChild(e) {
      OneChildEmits(e);
    } else if FixedChildren(e) {
      LeafEmits(e);
    } else {
      KnownByChildren(e);
      if e.SliceExpr? {
        SliceExprEmits(e);
      } else if e.MethodCall? || e.Lambda? || e.MapLit? || e.StructLit? {
        ListsEmit(e);
      } else {
        ArgListEmits(e);
      }
    }
  }

  predicate FixedChildren(e: Expr) {
    !(e.Call? || e.Intrinsic? || e.Tuple? || e.ArrayLit? || e.SliceLit? || e.StructLit? || e.MethodCall?
      || e.Lambda? || e.MapLit? || e.SliceExpr?)
  }

  lemma OperatorEmits(e: Expr)
    requires VerifyExpr(e) && AllEmit(Children(e)) && (e.Binary? || e.Unary?)
    ensures Emit(e).Some? <==> OpsKnown(e)
  {
    KnownByChildren(e);
    assert EmitsIfKnown(Children(e)[0]);
    if e.Binary? { assert EmitsIfKnown(Children(e)[1]); }
  }

  lemma SliceMakeEmits(e: Expr)
    requires VerifyExpr(e) && AllEmit(Children(e)) && e.SliceMake?
    ensures Emit(e).Some? <==> OpsKnown(e)
  {
    KnownByChildren(e);
    var cs := Children(e);
    assert EmitsIfKnown(cs[0]) && EmitsIfKnown(cs[1]) && EmitsIfKnown(cs[2]);
  }

  lemma IndexEmits(e: Expr)
    requires VerifyExpr(e) && AllEmit(Children(e)) && (e.IndexExpr? || e.AddrIndex?)
    ensures Emit(e).Some? <==> OpsKnown(e)
  {
    KnownByChildren(e);
    var cs := Children(e);
    assert EmitsIfKnown(cs[0]) && EmitsIfKnown(cs[1]);
  }

  predicate OneChild(e: Expr) {
    e.Mask? || e.Convert? || e.MethodValue? || e.FieldAccess? || e.AddrField? || e.Deref? || e.Clone?
    || e.ArrayZero? || e.ArrayClone?
  }

  lemma OneChildEmits(e: Expr)
    requires VerifyExpr(e) && AllEmit(Children(e)) && OneChild(e)
    ensures Emit(e).Some? <==> OpsKnown(e)
  {
    KnownByChildren(e);
    var x := Children(e)[0];
    assert Children(e) == [x] && EmitsIfKnown(x);
    AllKnownSplit([x]);
  }

  lemma LeafEmits(e: Expr)
    requires VerifyExpr(e) && FixedChildren(e) && !OneChild(e)
    requires !e.Binary? && !e.Unary? && !e.SliceMake? && !e.IndexExpr? && !e.AddrIndex?
    ensures Emit(e).Some? && OpsKnown(e)
  {
    KnownByChildren(e);
  }

  /** A verified expression emits if and only if its operators are known. */
  lemma {:induction false} Emits(e: Expr)
    ensures EmitsIfKnown(e)
  {
    forall i | 0 <= i < |Children(e)| ensures EmitsIfKnown(Children(e)[i]) {
      Emits(Children(e)[i]);
    }
    if VerifyExpr(e) { FromChildren(e); }
  }

  // ----- Statements -----

  /** Every operator the statement emits is known; the step of a continue is not emitted. */
  predicate StmtKnown(s: Stmt<Expr>)
    decreases s, 0
  {
    && AllKnown(Parts(s))
    && match s
       case FuncDef(_, _, _, _, body) => BlockKnown(body)
       case If(_, thn, els) => BlockKnown(thn) && BlockKnown(els)
       case For(_, body, _) => BlockKnown(body)
       case ForRange(_, _, _, _, body) => BlockKnown(body)
       case RangeMap(_, _, _, body) => BlockKnown(body)
       case RangeString(_, _, _, _, _, body, _) => BlockKnown(body)
       case DeferBlock(body, _, _) => BlockKnown(body)
       case _ => true
  }

  predicate BlockKnown(body: seq<Stmt<Expr>>)
    decreases body, 1
  {
    body == [] || (StmtKnown(body[0]) && BlockKnown(body[1..]))
  }

  lemma PartEmits(e: Expr)
    requires VerifyExpr(e)
    ensures Emit(e).Some? <==> AllKnown([e])
  {
    Emits(e);
    AllKnownSplit([e]);
  }

  lemma OptionalEmits(e: Option<Expr>)
    requires VerifyOptional(e)
    ensures WriteOptional(e).Some? <==> AllKnown(Optional(e))
  {
    if e.Some? { PartEmits(e.value); }
  }

  lemma EveryEmits(es: seq<Expr>)
    ensures AllEmit(es)
  {
    forall i | 0 <= i < |es| ensures EmitsIfKnown(es[i]) { Emits(es[i]); }
  }

  lemma TwoParts(x: Expr, y: Expr)
    requires VerifyExpr(x) && VerifyExpr(y)
    ensures Emit(x).Some? && Emit(y).Some? <==> AllKnown([x, y])
  {
    PartEmits(x);
    PartEmits(y);
    AllKnownConcat([x], [y]);
    assert [x] + [y] == [x, y];
  }

  lemma ThreeParts(x: Expr, y: Expr, z: Expr)
    requires VerifyExpr(x) && VerifyExpr(y) && VerifyExpr(z)
    ensures Emit(x).Some? && Emit(y).Some? && Emit(z).Some? <==> AllKnown([x, y, z])
  {
    TwoParts(x, y);
    PartEmits(z);
    AllKnownConcat([x, y], [z]);
    assert [x, y] + [z] == [x, y, z];
  }

  lemma PushParts(fn: Expr, args: seq<Expr>)
    requires VerifyExpr(fn) && VerifyArgs(args)
    ensures Emit(fn).Some? && EmitArgs(args).Some? <==> AllKnown([fn] + args)
  {
    PartEmits(fn);
    EveryEmits(args);
    ArgsEmit(args);
    AllKnownConcat([fn], args);
  }

  lemma CaptureParts(captures: seq<Capture<Expr>>)
    requires VerifyCaptures(captures)
    ensures EmitCaptures(captures).Some? <==> AllKnown(Seeds(captures))
  {
    EveryEmits(Seeds(captures));
    CapturesEmit(captures);
  }

  lemma RangeParts(start: Option<Expr>, stop: Expr, step: Option<Expr>)
    requires VerifyOptional(start) && VerifyExpr(stop) && VerifyOptional(step)
    ensures WriteOptional(start).Some? && Emit(stop).Some? && WriteOptional(step).Some?
            <==> AllKnown(Optional(start) + [stop] + Optional(step))
  {
    OptionalEmits(start);
    PartEmits(stop);
    OptionalEmits(step);
    AllKnownConcat(Optional(start) + [stop], Optional(step));
    AllKnownConcat(Optional(start), [stop]);
  }

  predicate Leaf(s: Stmt<Expr>) {
    !(s.FuncDef? || s.If? || s.For? || s.ForRange? || s.RangeMap? || s.RangeString? || s.DeferBlock?)
  }

  lemma LeafWrites(s: Stmt<Expr>)
    requires VerifyStmt(s) && Leaf(s)
    ensures StmtWritten(s)
  {
    match s
    case ExprStmt(x) => PartEmits(x);
    case Return(result) => OptionalEmits(result);
    case Assign(_, value) => PartEmits(value);
    case TupleAssign(_, value) => PartEmits(value);
    case SetField(obj, _, value) => TwoParts(obj, value);
    case SetIndex(obj, index, value) => ThreeParts(obj, index, value);
    case DerefSet(ptr, value) => TwoParts(ptr, value);
    case Panic(value) => PartEmits(value);
    case DeferPush(fn, args) => PushParts(fn, args);
    case _ =>
  }

  /** What is to be shown of a block. */
  predicate Writes(body: seq<Stmt<Expr>>) {
    && (WriteBlock(body).Some? <==> BlockKnown(body))
    && (WriteBlock(body).Some? ==> !L.AnyRefused(WriteBlock(body).value))
  }

  predicate StmtWritten(s: Stmt<Expr>) {
    && (WriteStmt(s).Some? <==> StmtKnown(s))
    && (WriteStmt(s).Some? ==> !L.Refused(WriteStmt(s).value))
  }

  lemma LoopWrites(s: Stmt<Expr>)
    requires s.For? || s.ForRange?
    requires VerifyStmt(s) && Writes(s.body)
    ensures StmtWritten(s)
  {
    if s.For? { OptionalEmits(s.condition); } else { RangeParts(s.start, s.stop, s.step); }
  }

  lemma RangeWrites(s: Stmt<Expr>)
    requires s.RangeMap? || s.RangeString?
    requires VerifyStmt(s) && Writes(s.body)
    ensures StmtWritten(s)
  {
    PartEmits(s.source);
  }

  lemma FuncDefWrites(s: Stmt<Expr>)
    requires s.FuncDef? && VerifyStmt(s) && Writes(s.body)
    ensures StmtWritten(s)
  {
    CaptureParts(s.captures);
  }

  lemma IfWrites(s: Stmt<Expr>)
    requires s.If? && VerifyStmt(s) && Writes(s.thn) && Writes(s.els)
    ensures StmtWritten(s)
  {
    PartEmits(s.cond);
  }

  lemma DeferBlockWrites(s: Stmt<Expr>)
    requires s.DeferBlock? && Writes(s.body)
    ensures StmtWritten(s)
  {
    assert Parts(s) == [];
  }

  lemma OneBlockWrites(s: Stmt<Expr>)
    requires !Leaf(s) && !s.If? && VerifyStmt(s) && Writes(s.body)
    ensures StmtWritten(s)
  {
    if s.For? || s.ForRange? {
      LoopWrites(s);
    } else if s.RangeMap? || s.RangeString? {
      RangeWrites(s);
    } else if s.FuncDef? {
      FuncDefWrites(s);
    } else {
      DeferBlockWrites(s);
    }
  }

  lemma {:induction false} StmtWrites(s: Stmt<Expr>)
    requires VerifyStmt(s)
    ensures StmtWritten(s)
    decreases s, 0
  {
    if s.If? {
      BlockWrites(s.thn);
      BlockWrites(s.els);
      IfWrites(s);
    } else if Leaf(s) {
      LeafWrites(s);
    } else {
      BlockWrites(s.body);
      OneBlockWrites(s);
    }
  }

  lemma {:induction false} BlockWrites(body: seq<Stmt<Expr>>)
    requires VerifyBlock(body)
    ensures Writes(body)
    decreases body, 1
  {
    if body != [] {
      StmtWrites(body[0]);
      BlockWrites(body[1..]);
      if WriteBlock(body).Some? {
        assert WriteBlock(body).value[1..] == WriteBlock(body[1..]).value;
      }
    }
  }

  /** A verified body emits if and only if its operators are known: nothing else the
      emitter can refuse gets past the verifier. */
  lemma BodyEmits(body: seq<Stmt<Expr>>, depth: nat)
    requires VerifyBlock(body)
    ensures EmitBody(body, depth).Some? <==> BlockKnown(body)
  {
    BlockWrites(body);
  }
}
