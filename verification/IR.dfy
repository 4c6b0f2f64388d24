/** The tree between Go and the Python emitter. */
module IR {
  // Statements are generic in what stands for an expression: the tree the verifier and the
  // analyses walk holds Expr, and the emitter's layout works on statements whose
  // expressions are already text.

  import opened Prelude

  type Byte = b: int | 0 <= b < 256

  /** A variable a closure snapshots when it is created: its parameter and the seed. */
  datatype Capture<X> = Capture(param: string, value: X)

  datatype StructArg = StructArg(name: string, value: Expr)

  datatype MapEntry = MapEntry(key: Expr, value: Expr)

  /** NilExpr stands for a missing node where one is required; optional ones are Options. */
  datatype Expr =
    | NilExpr
    | IntLit(text: string)
    | FloatLit(text: string)
    | StringLit(bytes: seq<Byte>)
    | BoolLit(value: bool)
    | Ident(name: string)
    | Binary(op: string, x: Expr, y: Expr)
    | Unary(op: string, x: Expr)
    | Mask(bits: int, signed: bool, x: Expr)
    | Convert(to: string, x: Expr)
    | IndexExpr(x: Expr, index: Expr)
    | Call(name: string, args: seq<Expr>)
    | MethodCall(recv: Expr, name: string, args: seq<Expr>)
    | MethodValue(recv: Expr, name: string, copy: bool)
    | MethodExpr(typ: string, name: string, valueCopy: bool)
    | Intrinsic(name: string, args: seq<Expr>)
    | ShimFunc(name: string)
    | FieldAccess(x: Expr, name: string)
    | AddrField(container: Expr, name: string)
    | AddrIndex(sequence: Expr, index: Expr)
    | Deref(x: Expr)
    | Tuple(elems: seq<Expr>)
    | Lambda(params: seq<string>, captures: seq<Capture<Expr>>, body: Expr)
    | StructLit(typ: string, keyed: bool, fields: seq<StructArg>)
    | Clone(x: Expr)
    | ArrayZero(len: int, elem: Expr, elemMutable: bool)
    | ArrayLit(elems: seq<Expr>)
    | ArrayClone(x: Expr)
    | SliceLit(elems: seq<Expr>)
    | SliceMake(length: Expr, capacity: Expr, elem: Expr, elemMutable: bool)
    | SliceExpr(x: Expr, low: Option<Expr>, high: Option<Expr>, max: Option<Expr>)
    | NilSlice
    | MapLit(entries: seq<MapEntry>)
    | NilMap
    | NilPtr
    | NilInterface
    | EmptyStruct

  function Bound(e: Option<Expr>): (r: seq<Expr>)
    ensures forall i :: 0 <= i < |r| ==> r[i] < e
  {
    if e.Some? then [e.value] else []
  }

  function Seeds<X>(captures: seq<Capture<X>>): (r: seq<X>)
    ensures |r| == |captures| && forall i :: 0 <= i < |r| ==> r[i] == captures[i].value
  {
    seq(|captures|, i requires 0 <= i < |captures| => captures[i].value)
  }

  function FieldValues(fields: seq<StructArg>): (r: seq<Expr>)
    ensures |r| == |fields| && forall i :: 0 <= i < |r| ==> r[i] == fields[i].value
  {
    seq(|fields|, i requires 0 <= i < |fields| => fields[i].value)
  }

  /** The immediate sub-expressions. */
  function Children(e: Expr): (r: seq<Expr>)
    ensures forall i :: 0 <= i < |r| ==> r[i] < e
  {
    match e
    case Binary(_, x, y) => [x, y]
    case Unary(_, x) => [x]
    case Mask(_, _, x) => [x]
    case Convert(_, x) => [x]
    case IndexExpr(x, index) => [x, index]
    case Call(_, args) => args
    case MethodCall(recv, _, args) => [recv] + args
    case MethodValue(recv, _, _) => [recv]
    case Intrinsic(_, args) => args
    case FieldAccess(x, _) => [x]
    case AddrField(container, _) => [container]
    case AddrIndex(sequence, index) => [sequence, index]
    case Deref(x) => [x]
    case Tuple(elems) => elems
    case Lambda(_, captures, body) => Seeds(captures) + [body]
    case StructLit(_, _, fields) => FieldValues(fields)
    case Clone(x) => [x]
    case ArrayZero(_, elem, _) => [elem]
    case ArrayLit(elems) => elems
    case ArrayClone(x) => [x]
    case SliceLit(elems) => elems
    case SliceMake(length, capacity, elem, _) => [length, capacity, elem]
    case SliceExpr(x, low, high, max) => [x] + Bound(low) + Bound(high) + Bound(max)
    case MapLit(entries) => Keys(entries) + Values(entries)
    case _ => []
  }

  function Keys(entries: seq<MapEntry>): (r: seq<Expr>)
    ensures |r| == |entries| && forall i :: 0 <= i < |r| ==> r[i] == entries[i].key && r[i] < entries[i]
  {
    seq(|entries|, i requires 0 <= i < |entries| => entries[i].key)
  }

  function Values(entries: seq<MapEntry>): (r: seq<Expr>)
    ensures |r| == |entries| && forall i :: 0 <= i < |r| ==> r[i] == entries[i].value && r[i] < entries[i]
  {
    seq(|entries|, i requires 0 <= i < |entries| => entries[i].value)
  }

  datatype Stmt<X> =
    | NilStmt
    | ExprStmt(x: X)
    | Return(result: Option<X>)
    | Assign(name: string, value: X)
    | TupleAssign(names: seq<string>, value: X)
    | SetField(obj: X, name: string, value: X)
    | SetIndex(obj: X, index: X, value: X)
    | DerefSet(ptr: X, value: X)
    | Panic(value: X)
    | DeferPush(fn: X, args: seq<X>)
    | DeferReturn(results: seq<string>)
    | Break
    | Continue
    | FuncDef(name: string, params: seq<string>, captures: seq<Capture<X>>, nonlocals: seq<string>,
              body: seq<Stmt<X>>)
    | If(cond: X, thn: seq<Stmt<X>>, els: seq<Stmt<X>>)
    | For(condition: Option<X>, body: seq<Stmt<X>>, continueStep: seq<Stmt<X>>)
    | ForRange(variable: string, start: Option<X>, stop: X, step: Option<X>, body: seq<Stmt<X>>)
    | RangeMap(key: string, item: string, source: X, body: seq<Stmt<X>>)
    | RangeString(key: string, rune: string, source: X, cursor: string, width: string,
                  body: seq<Stmt<X>>, continueStep: seq<Stmt<X>>)
    | DeferBlock(body: seq<Stmt<X>>, reshape: bool, results: seq<string>)
    | LabeledBreak(target: string)
    | LabeledContinue(target: string)

  /** The expressions a statement holds itself, besides those of its blocks. */
  function Parts<X>(s: Stmt<X>): seq<X> {
    match s
    case ExprStmt(x) => [x]
    case Return(result) => Optional(result)
    case Assign(_, value) => [value]
    case TupleAssign(_, value) => [value]
    case SetField(obj, _, value) => [obj, value]
    case SetIndex(obj, index, value) => [obj, index, value]
    case DerefSet(ptr, value) => [ptr, value]
    case Panic(value) => [value]
    case DeferPush(fn, args) => [fn] + args
    case FuncDef(_, _, captures, _, _) => Seeds(captures)
    case If(cond, _, _) => [cond]
    case For(cond, _, _) => Optional(cond)
    case ForRange(_, start, stop, step, _) => Optional(start) + [stop] + Optional(step)
    case RangeMap(_, _, source, _) => [source]
    case RangeString(_, _, source, _, _, _, _) => [source]
    case _ => []
  }

  function Optional<X>(x: Option<X>): seq<X> {
    if x.Some? then [x.value] else []
  }

  // ----- Definitions -----

  datatype Field =
    | Scalar(name: string, zero: Expr)
    | Struct(name: string, typ: string)
    | Array(name: string, zero: Expr)
    | Sync(name: string, zero: Expr)

  datatype Func = Func(name: string, params: seq<string>, body: seq<Stmt<Expr>>)

  datatype StructDef = StructDef(name: string, fields: seq<Field>, comparable: bool, methods: seq<Func>)

  datatype NamedDef = NamedDef(name: string, base: string, typ: string, methods: seq<Func>)

  datatype Signature = Signature(name: string, params: seq<string>)

  datatype InterfaceDef = InterfaceDef(name: string, methods: seq<Signature>)

  datatype Module = Module(package: string, structs: seq<StructDef>, interfaces: seq<InterfaceDef>,
                           named: seq<NamedDef>, funcs: seq<Func>)
}
