/** Statements with their expressions rendered, ready to be laid out as lines. */
module EmitWrite {
  import opened Prelude
  import opened IR
  import opened EmitText
  import opened EmitExpr
  import L = EmitLayout

  function WriteOptional(e: Option<Expr>): Option<Option<Words>> {
    match e
    case None => Some(None)
    case Some(x) =>
      var w :- Emit(x);
      Some(Some(w))
  }

  function WriteBlock(body: seq<Stmt<Expr>>): Option<seq<Stmt<Words>>>
    decreases body, 1
  {
    if body == [] then Some([])
    else
      var s :- WriteStmt(body[0]);
      var rest :- WriteBlock(body[1..]);
      Some([s] + rest)
  }

  /** The step of a continue is left to the pass that injects it; the emitter drops it. */
  function WriteStmt(s: Stmt<Expr>): Option<Stmt<Words>>
    decreases s, 0
  {
    match s
    case NilStmt => Some(NilStmt)
    case ExprStmt(x) =>
      var w :- Emit(x);
      Some(ExprStmt(w))
    case Return(result) =>
      var w :- WriteOptional(result);
      Some(Return(w))
    case Assign(name, value) =>
      var w :- Emit(value);
      Some(Assign(name, w))
    case TupleAssign(names, value) =>
      var w :- Emit(value);
      Some(TupleAssign(names, w))
    case SetField(obj, name, value) =>
      var o :- Emit(obj);
      var w :- Emit(value);
      Some(SetField(o, name, w))
    case SetIndex(obj, index, value) =>
      var o :- Emit(obj);
      var i :- Emit(index);
      var w :- Emit(value);
      Some(SetIndex(o, i, w))
    case DerefSet(ptr, value) =>
      var p :- Emit(ptr);
      var w :- Emit(value);
      Some(DerefSet(p, w))
    case Panic(value) =>
      var w :- Emit(value);
      Some(Panic(w))
    case DeferPush(fn, args) =>
      var f :- Emit(fn);
      var ws :- EmitArgs(args);
      Some(DeferPush(f, ws))
    case DeferReturn(results) => Some(DeferReturn(results))
    case Break => Some(Break)
    case Continue => Some(Continue)
    case FuncDef(name, params, captures, nonlocals, body) =>
      var caps :- EmitCaptures(captures);
      var b :- WriteBlock(body);
      Some(FuncDef(name, params, caps, nonlocals, b))
    case If(cond, thn, els) =>
      var c :- Emit(cond);
      var t :- WriteBlock(thn);
      var e :- WriteBlock(els);
      Some(If(c, t, e))
    case For(cond, body, _) =>
      var c :- WriteOptional(cond);
      var b :- WriteBlock(body);
      Some(For(c, b, []))
    case ForRange(variable, start, stop, step, body) =>
      var lo :- WriteOptional(start);
      var hi :- Emit(stop);
      var stride :- WriteOptional(step);
      var b :- WriteBlock(body);
      Some(ForRange(variable, lo, hi, stride, b))
    case RangeMap(key, item, source, body) =>
      var w :- Emit(source);
      var b :- WriteBlock(body);
      Some(RangeMap(key, item, w, b))
    case RangeString(key, rune, source, cursor, width, body, _) =>
      var w :- Emit(source);
      var b :- WriteBlock(body);
      Some(RangeString(key, rune, w, cursor, width, b, []))
    case DeferBlock(body, reshape, results) =>
      var b :- WriteBlock(body);
      Some(DeferBlock(b, reshape, results))
    case LabeledBreak(target) => Some(LabeledBreak(target))
    case LabeledContinue(target) => Some(LabeledContinue(target))
  }

  /** The lines of a suite, or an error anywhere in it. */
  function EmitBody(body: seq<Stmt<Expr>>, depth: nat): Option<seq<L.Line>> {
    var ws :- WriteBlock(body);
    if L.AnyRefused(ws) then None else Some(L.BlockLines(ws, depth))
  }
}
