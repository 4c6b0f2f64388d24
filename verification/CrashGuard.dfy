/** Which panics the crash guard of main is written for. */
module CrashGuard {
  import opened Prelude
  import opened IR
  import opened EmitExpr
  import opened EmitWrite
  import opened EmitModule
  import opened ShimUse
  import opened ShimImport

  type Body = seq<Stmt<Expr>>

  // ----- Panics in an expression -----

  predicate Panics(e: Expr) { e.Intrinsic? && e.name in PANIC_INTRINSICS }

  /** A panic stands where the path leads, child by child. */
  predicate PanicAt(e: Expr, path: seq<nat>)
    decreases |path|
  {
    if path == [] then Panics(e) else path[0] < |Children(e)| && PanicAt(Children(e)[path[0]], path[1..])
  }

  /** The i-th part is looked into: not one of a slice literal, a make or an address, nor
      what a lambda captures. */
  predicate LookedInto(e: Expr, i: nat) {
    !e.SliceLit? && !e.SliceMake? && !e.AddrField? && !e.AddrIndex? && !(e.Lambda? && i < |e.captures|)
  }

  predicate Open(e: Expr, path: seq<nat>)
    decreases |path|
  {
    path == []
    || (path[0] < |Children(e)| && LookedInto(e, path[0]) && Open(Children(e)[path[0]], path[1..]))
  }

  ghost predicate HoldsPanic(e: Expr) { exists path :: PanicAt(e, path) }

  ghost predicate OpenPanic(e: Expr) { exists path :: PanicAt(e, path) && Open(e, path) }

  lemma {:induction false} OpenIsFound(e: Expr, path: seq<nat>)
    requires PanicAt(e, path) && Open(e, path)
    ensures Unwinds(e)
    decreases |path|
  {
    if path != [] {
      var x := Children(e)[path[0]];
      OpenIsFound(x, path[1..]);
      assert x == Searched(e)[if e.Lambda? then 0 else path[0]];
    }
  }

  lemma {:induction false} FoundIsOpen(e: Expr) returns (path: seq<nat>)
    requires Unwinds(e)
    ensures PanicAt(e, path) && Open(e, path)
  {
    if Panics(e) {
      path := [];
    } else {
      var i :| 0 <= i < |Searched(e)| && Unwinds(Searched(e)[i]);
      var rest := FoundIsOpen(Searched(e)[i]);
      var k: nat := if e.Lambda? then |e.captures| else i;
      assert Children(e)[k] == Searched(e)[i];
      path := [k] + rest;
      assert path[1..] == rest;
    }
  }

  /** The analysis finds a panic exactly when one stands in the open. */
  lemma UnwindsExactly(e: Expr)
    ensures Unwinds(e) <==> OpenPanic(e)
  {
    if Unwinds(e) { var path := FoundIsOpen(e); }
    if path :| PanicAt(e, path) && Open(e, path) { OpenIsFound(e, path); }
  }

  // ----- Panics in a body -----

  /** A panic or a defer is a statement of its own. */
  predicate Raises(s: Stmt<Expr>)
    decreases s, 0
  {
    match s
    case Panic(_) | DeferBlock(_, _, _) | DeferPush(_, _) | DeferReturn(_) => true
    case FuncDef(_, _, _, _, body) => BlockRaises(body)
    case If(_, thn, els) => BlockRaises(thn) || BlockRaises(els)
    case For(_, body, _) => BlockRaises(body)
    case ForRange(_, _, _, _, body) => BlockRaises(body)
    case RangeMap(_, _, _, body) => BlockRaises(body)
    case RangeString(_, _, _, _, _, body, _) => BlockRaises(body)
    case _ => false
  }

  predicate BlockRaises(body: Body)
    decreases body, 1
  {
    body != [] && (Raises(body[0]) || BlockRaises(body[1..]))
  }

  /** The expressions of a statement at any depth, but not the captures of a nested def. */
  function Exprs(s: Stmt<Expr>): seq<Expr>
    decreases s, 0
  {
    match s
    case FuncDef(_, _, _, _, body) => BlockExprs(body)
    case If(cond, thn, els) => [cond] + (BlockExprs(thn) + BlockExprs(els))
    case For(_, body, _) => Parts(s) + BlockExprs(body)
    case ForRange(_, _, _, _, body) => Parts(s) + BlockExprs(body)
    case RangeMap(_, _, source, body) => [source] + BlockExprs(body)
    case RangeString(_, _, source, _, _, body, _) => [source] + BlockExprs(body)
    case _ => Parts(s)
  }

  function BlockExprs(body: Body): seq<Expr>
    decreases body, 1
  {
    if body == [] then [] else Exprs(body[0]) + BlockExprs(body[1..])
  }

  lemma AnyConcat(a: seq<Expr>, b: seq<Expr>)
    ensures AnyUnwinds(a + b) <==> AnyUnwinds(a) || AnyUnwinds(b)
  {
    if i :| 0 <= i < |b| && Unwinds(b[i]) { assert (a + b)[|a| + i] == b[i]; }
    if i :| 0 <= i < |a| && Unwinds(a[i]) { assert (a + b)[i] == a[i]; }
  }

  lemma {:induction false} StmtByExprs(s: Stmt<Expr>)
    ensures StmtUnwinds(s) <==> Raises(s) || AnyUnwinds(Exprs(s))
    decreases s, 0
  {
    match s
    case FuncDef(_, _, _, _, body) => BlockByExprs(body);
    case If(cond, thn, els) =>
      BlockByExprs(thn);
      BlockByExprs(els);
      AnyConcat(BlockExprs(thn), BlockExprs(els));
      AnyConcat([cond], BlockExprs(thn) + BlockExprs(els));
    case For(_, body, _) => BlockByExprs(body); AnyConcat(Parts(s), BlockExprs(body));
    case ForRange(_, _, _, _, body) => BlockByExprs(body); AnyConcat(Parts(s), BlockExprs(body));
    case RangeMap(_, _, _, body) => BlockByExprs(body); AnyConcat(Parts(s), BlockExprs(body));
    case RangeString(_, _, _, _, _, body, _) => BlockByExprs(body); AnyConcat(Parts(s), BlockExprs(body));
    case _ =>
  }

  lemma {:induction false} BlockByExprs(body: Body)
    ensures BlockUnwinds(body) <==> BlockRaises(body) || AnyUnwinds(BlockExprs(body))
    decreases body, 1
  {
    if body != [] {
      StmtByExprs(body[0]);
      BlockByExprs(body[1..]);
      AnyConcat(Exprs(body[0]), BlockExprs(body[1..]));
    }
  }

  // ----- The guard -----

  /** The body of a function or of a method. */
  predicate BodyOf(m: Module, b: Body) {
    || (exists f :: f in m.funcs && f.body == b)
    || (exists d, f :: d in m.named && f in d.methods && f.body == b)
    || (exists d, f :: d in m.structs && f in d.methods && f.body == b)
  }

  /** A panic or a defer, or a panic of the runtime in the open. */
  ghost predicate MayPanic(b: Body) {
    BlockRaises(b) || exists k :: 0 <= k < |BlockExprs(b)| && OpenPanic(BlockExprs(b)[k])
  }

  lemma BodyExactly(b: Body)
    ensures BlockUnwinds(b) <==> MayPanic(b)
  {
    BlockByExprs(b);
    var es := BlockExprs(b);
    forall k | 0 <= k < |es| ensures Unwinds(es[k]) <==> OpenPanic(es[k]) { UnwindsExactly(es[k]); }
  }

  lemma ModuleByBodies(m: Module)
    ensures ModuleUnwinds(m) <==> exists b :: BodyOf(m, b) && BlockUnwinds(b)
  {
    if ModuleUnwinds(m) {
      if FuncsUnwind(m.funcs) {
        var i :| 0 <= i < |m.funcs| && BlockUnwinds(m.funcs[i].body);
        assert m.funcs[i] in m.funcs && BodyOf(m, m.funcs[i].body);
      } else if i :| 0 <= i < |m.named| && FuncsUnwind(m.named[i].methods) {
        var j :| 0 <= j < |m.named[i].methods| && BlockUnwinds(m.named[i].methods[j].body);
        assert m.named[i].methods[j] in m.named[i].methods && BodyOf(m, m.named[i].methods[j].body);
      } else {
        var i :| 0 <= i < |m.structs| && FuncsUnwind(m.structs[i].methods);
        var j :| 0 <= j < |m.structs[i].methods| && BlockUnwinds(m.structs[i].methods[j].body);
        assert m.structs[i].methods[j] in m.structs[i].methods && BodyOf(m, m.structs[i].methods[j].body);
      }
    }
    if b :| BodyOf(m, b) && BlockUnwinds(b) {
      if f :| f in m.funcs && f.body == b {
        assert FuncsUnwind(m.funcs);
      } else if d, f :| d in m.named && f in d.methods && f.body == b {
        assert FuncsUnwind(d.methods);
      } else {
        var d, f :| d in m.structs && f in d.methods && f.body == b;
        assert FuncsUnwind(d.methods);
      }
    }
  }

  /** The guard is written if and only if there is a main, and some body holds a panic, a
      defer, or in the open a runtime call that can panic. */
  lemma GuardExactly(m: Module)
    ensures LinesName(Guard(m)) <==> HasMain(m) && exists b :: BodyOf(m, b) && MayPanic(b)
  {
    GuardNames(m);
    ModuleByBodies(m);
    if b :| BodyOf(m, b) && BlockUnwinds(b) { BodyExactly(b); }
    if b :| BodyOf(m, b) && MayPanic(b) { BodyExactly(b); }
  }

  lemma SliceLiteralHolds(elems: seq<Expr>, i: nat)
    requires i < |elems| && HoldsPanic(elems[i])
    ensures HoldsPanic(SliceLit(elems)) && !Unwinds(SliceLit(elems))
  {
    var path :| PanicAt(elems[i], path);
    assert ([i] + path)[1..] == path;
    assert PanicAt(SliceLit(elems), [i] + path);
    assert Searched(SliceLit(elems)) == [];
  }

  lemma AssignWrites(name: string, e: Expr)
    requires Emit(e).Some?
    ensures WriteStmt(Assign(name, e)) == Some(Assign(name, Emit(e).value))
    ensures ModuleLines(MainOnly(Assign(name, e))).Some?
  {
    MainLines(Assign(name, e));
  }

  lemma AssignUnguarded(name: string, e: Expr)
    requires !Unwinds(e)
    ensures !LinesName(Guard(MainOnly(Assign(name, e))))
  {
    assert Parts(Assign(name, e)) == [e];
    MainUnwinds(Assign(name, e));
    GuardNames(MainOnly(Assign(name, e)));
  }

  /** func main() { x = []T{..., e, ...} }, where evaluating e can panic, emits and has no
      guard. */
  lemma SliceLiteralUnguarded(name: string, elems: seq<Expr>, i: nat)
    requires i < |elems| && HoldsPanic(elems[i]) && EmitArgs(elems).Some?
    ensures HoldsPanic(SliceLit(elems))
    ensures var m := MainOnly(Assign(name, SliceLit(elems))); ModuleLines(m).Some? && !LinesName(Guard(m))
  {
    SliceLiteralHolds(elems, i);
    SliceEmits(elems);
    AssignWrites(name, SliceLit(elems));
    AssignUnguarded(name, SliceLit(elems));
  }

  lemma SliceEmits(elems: seq<Expr>)
    requires EmitArgs(elems).Some?
    ensures Emit(SliceLit(elems)).Some?
  {
  }
}
