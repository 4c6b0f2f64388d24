/** A whole module: imports, definitions and the entry guard. */
module EmitModule {
  import opened Prelude
  import opened IR
  import opened EmitText
  import opened EmitExpr
  import opened EmitWrite
  import opened ShimUse
  import L = EmitLayout

  function Line(depth: nat, s: string): L.Line { L.At(depth, L.Plain(Str(s))) }

  function Zero(e: Expr): Words { if Emit(e).Some? then Emit(e).value else [] }

  // ----- Structs -----

  predicate IsStructType(fields: seq<Field>, name: string) {
    exists g :: g in fields && g.Struct? && g.typ == name
  }

  /** The constructor parameter of a field: suffixed where the bare name would hide the
      class that builds a value-struct field. */
  function CtorParamName(fields: seq<Field>, name: string): string {
    if IsStructType(fields, name) then name + "_" else name
  }

  function Parameter(fields: seq<Field>, f: Field): Words {
    Str(CtorParamName(fields, f.name) + "=") + if f.Scalar? then Zero(f.zero) else Str("None")
  }

  function InitText(fields: seq<Field>, f: Field): Words {
    var p := CtorParamName(fields, f.name);
    match f
    case Scalar(name, _) => Str("self." + name + " = " + p)
    case Struct(name, typ) => Str("self." + name + " = " + p + " if " + p + " is not None else " + typ + "()")
    case Array(name, zero) => Str("self." + name + " = " + p + " if " + p + " is not None else ") + Zero(zero)
    case Sync(name, zero) => Str("self." + name + " = " + p + " if " + p + " is not None else ") + Zero(zero)
  }

  function CopyText(f: Field): Words {
    match f
    case Struct(name, _) => Str("self." + name + ".copy()")
    case Array(name, _) => Runtime("_clone_array(self." + name + ")")
    case _ => Str("self." + f.name)
  }

  function HashText(f: Field): Words {
    if f.Array? then Runtime("_arraykey(self." + f.name + ")") else Str("self." + f.name)
  }

  function EqText(fields: seq<Field>): string
    requires fields != []
  {
    "self." + fields[0].name + " == other." + fields[0].name
    + if |fields| == 1 then "" else " and " + EqText(fields[1..])
  }

  function Slots(fields: seq<Field>): (r: seq<Words>)
    ensures |r| == |fields| && forall i :: 0 <= i < |r| ==> r[i] == Str(Quoted(fields[i].name))
  {
    seq(|fields|, i requires 0 <= i < |fields| => Str(Quoted(fields[i].name)))
  }

  function Parameters(fields: seq<Field>): (r: seq<Words>)
    ensures |r| == |fields| && forall i :: 0 <= i < |r| ==> r[i] == Parameter(fields, fields[i])
  {
    seq(|fields|, i requires 0 <= i < |fields| => Parameter(fields, fields[i]))
  }

  function Copies(fields: seq<Field>): (r: seq<Words>)
    ensures |r| == |fields| && forall i :: 0 <= i < |r| ==> r[i] == CopyText(fields[i])
  {
    seq(|fields|, i requires 0 <= i < |fields| => CopyText(fields[i]))
  }

  function Hashes(fields: seq<Field>): (r: seq<Words>)
    ensures |r| == |fields| && forall i :: 0 <= i < |r| ==> r[i] == HashText(fields[i])
  {
    seq(|fields|, i requires 0 <= i < |fields| => HashText(fields[i]))
  }

  function SlotsText(fields: seq<Field>): Words {
    Str("__slots__ = (") + Join(Slots(fields))
    + Str(if |fields| == 1 then ",)" else ")")
  }

  function InitHead(fields: seq<Field>): Words {
    Str("__init__(")
    + Join([Str("self")] + Parameters(fields)) + Str(")")
  }

  function CopyReturn(d: StructDef): Words {
    Str("return " + d.name + "(")
    + Join(Copies(d.fields)) + Str(")")
  }

  function HashReturn(fields: seq<Field>): Words {
    Str("return hash((") + Join(Hashes(fields))
    + Str(if |fields| == 1 then ",))" else "))")
  }

  function EqLines(d: StructDef): seq<L.Line> {
    [L.At(1, L.DefHead(Str("__eq__(self, other)"))),
     L.At(2, L.IfHead(Str("other.__class__ is not " + d.name))), Line(3, "return NotImplemented"),
     Line(2, if d.fields == [] then "return True" else "return " + EqText(d.fields)),
     L.At(1, L.DefHead(Str("__hash__(self)"))), L.At(2, L.Plain(HashReturn(d.fields)))]
  }

  function InitLines(d: StructDef): seq<L.Line> {
    if d.fields == [] then [L.At(2, L.Pass)]
    else seq(|d.fields|, i requires 0 <= i < |d.fields| => L.At(2, L.Plain(InitText(d.fields, d.fields[i]))))
  }

  function ClassHeader(package: string, d: StructDef): seq<L.Line> {
    [L.At(0, L.ClassHead(Str(d.name))), Line(1, "_hebi_type = " + Quoted(package + "." + d.name)),
     L.At(1, L.Plain(SlotsText(d.fields))), L.At(1, L.DefHead(InitHead(d.fields)))]
  }

  function CopyLines(d: StructDef): seq<L.Line> {
    [L.At(1, L.DefHead(Str("copy(self)"))), L.At(2, L.Plain(CopyReturn(d)))]
  }

  /** The class of a struct up to its methods. */
  function ClassLines(package: string, d: StructDef): seq<L.Line> {
    ClassHeader(package, d) + InitLines(d) + CopyLines(d) + if d.comparable then EqLines(d) else []
  }

  // ----- Definitions -----

  function FuncHead(f: Func, method_: bool): Words {
    Str(f.name + "(") + Join(Names((if method_ then ["self"] else []) + f.params)) + Str(")")
  }

  function FuncLines(f: Func, depth: nat, method_: bool): Option<seq<L.Line>> {
    var body :- EmitBody(f.body, depth + 1);
    Some([L.At(depth, L.DefHead(FuncHead(f, method_)))] + body)
  }

  function FuncsLines(fs: seq<Func>, depth: nat, method_: bool): Option<seq<L.Line>> {
    if fs == [] then Some([])
    else
      var first :- FuncLines(fs[0], depth, method_);
      var rest :- FuncsLines(fs[1..], depth, method_);
      Some(first + rest)
  }

  function StructLines(package: string, d: StructDef): Option<seq<L.Line>> {
    var methods :- FuncsLines(d.methods, 1, true);
    Some(ClassLines(package, d) + methods)
  }

  function NamedHead(d: NamedDef): seq<L.Line> {
    [L.At(0, L.ClassHead(Str(d.name + "(" + d.base + ")"))), Line(1, "_hebi_type = " + Quoted(d.typ))]
  }

  function NamedLines(d: NamedDef): Option<seq<L.Line>> {
    var methods :- FuncsLines(d.methods, 1, true);
    Some(NamedHead(d) + methods)
  }

  function SignatureLine(s: Signature): L.Line {
    L.At(1, L.Plain(Str("def " + s.name + "(") + Join(Names(["self"] + s.params)) + Str("): ...")))
  }

  function InterfaceLines(d: InterfaceDef): seq<L.Line> {
    [Line(0, "@runtime_checkable"), L.At(0, L.ClassHead(Str(d.name + "(Protocol)")))]
    + if d.methods == [] then [L.At(1, L.Pass)]
      else seq(|d.methods|, i requires 0 <= i < |d.methods| => SignatureLine(d.methods[i]))
  }

  function InterfacesLines(ds: seq<InterfaceDef>): seq<L.Line> {
    if ds == [] then [] else InterfaceLines(ds[0]) + InterfacesLines(ds[1..])
  }

  function NamedsLines(ds: seq<NamedDef>): Option<seq<L.Line>> {
    if ds == [] then Some([])
    else
      var first :- NamedLines(ds[0]);
      var rest :- NamedsLines(ds[1..]);
      Some(first + rest)
  }

  function StructsLines(package: string, ds: seq<StructDef>): Option<seq<L.Line>> {
    if ds == [] then Some([])
    else
      var first :- StructLines(package, ds[0]);
      var rest :- StructsLines(package, ds[1..]);
      Some(first + rest)
  }

  /** Interfaces, named types, structs and functions, in that order. */
  function Definitions(m: Module): Option<seq<L.Line>> {
    var named :- NamedsLines(m.named);
    var structs :- StructsLines(m.package, m.structs);
    var funcs :- FuncsLines(m.funcs, 0, false);
    Some(InterfacesLines(m.interfaces) + named + structs + funcs)
  }

  // ----- The analyses -----

  /** A field reaches the runtime. An array field always does, through the clone helper;
      the analysis takes it of every sync field, the text shows it where the zero does. */
  predicate FieldUses(f: Field, loose: bool) {
    match f
    case Scalar(_, zero) => Uses(zero, loose) && (loose || Emit(zero).Some?)
    case Struct(_, _) => false
    case Array(_, _) => true
    case Sync(_, zero) => loose || (Uses(zero, false) && Emit(zero).Some?)
  }

  predicate FuncsUse(fs: seq<Func>, loose: bool) {
    exists i :: 0 <= i < |fs| && BlockUses(fs[i].body, loose)
  }

  predicate FieldsReach(fields: seq<Field>, loose: bool) {
    exists i :: 0 <= i < |fields| && FieldUses(fields[i], loose)
  }

  predicate StructsUse(ds: seq<StructDef>, loose: bool) {
    exists i :: 0 <= i < |ds| && (FieldsReach(ds[i].fields, loose) || FuncsUse(ds[i].methods, loose))
  }

  predicate NamedsUse(ds: seq<NamedDef>, loose: bool) {
    exists i :: 0 <= i < |ds| && FuncsUse(ds[i].methods, loose)
  }

  predicate ModuleUses(m: Module, loose: bool) {
    StructsUse(m.structs, loose) || NamedsUse(m.named, loose) || FuncsUse(m.funcs, loose)
  }

  predicate UsesShim(m: Module) { ModuleUses(m, true) }

  const PANIC_INTRINSICS := {"_type_assert", "_idiv", "_imod", "_quo", "chan_send", "chan_close", "select",
                             "waitgroup_add", "waitgroup_done", "once_do"}

  /** The sub-expressions searched for a panic: not those of a slice literal, a make, an
      address, nor what a lambda captures. */
  function Searched(e: Expr): (r: seq<Expr>)
    ensures forall i :: 0 <= i < |r| ==> r[i] < e
  {
    if e.Lambda? then [e.body]
    else if e.SliceLit? || e.SliceMake? || e.AddrField? || e.AddrIndex? then []
    else Children(e)
  }

  predicate Unwinds(e: Expr) {
    (e.Intrinsic? && e.name in PANIC_INTRINSICS)
    || exists i :: 0 <= i < |Searched(e)| && Unwinds(Searched(e)[i])
  }

  predicate AnyUnwinds(es: seq<Expr>) {
    exists i :: 0 <= i < |es| && Unwinds(es[i])
  }

  /** A statement that can raise or pass on a panic; the captures of a nested def are not searched. */
  predicate StmtUnwinds(s: Stmt<Expr>)
    decreases s, 0
  {
    || s.Panic? || s.DeferBlock? || s.DeferPush? || s.DeferReturn?
    || (!s.FuncDef? && AnyUnwinds(Parts(s)))
    || match s
       case FuncDef(_, _, _, _, body) => BlockUnwinds(body)
       case If(_, thn, els) => BlockUnwinds(thn) || BlockUnwinds(els)
       case For(_, body, _) => BlockUnwinds(body)
       case ForRange(_, _, _, _, body) => BlockUnwinds(body)
       case RangeMap(_, _, _, body) => BlockUnwinds(body)
       case RangeString(_, _, _, _, _, body, _) => BlockUnwinds(body)
       case _ => false
  }

  predicate BlockUnwinds(body: seq<Stmt<Expr>>)
    decreases body, 1
  {
    body != [] && (StmtUnwinds(body[0]) || BlockUnwinds(body[1..]))
  }

  predicate FuncsUnwind(fs: seq<Func>) {
    exists i :: 0 <= i < |fs| && BlockUnwinds(fs[i].body)
  }

  predicate ModuleUnwinds(m: Module) {
    || (exists i :: 0 <= i < |m.structs| && FuncsUnwind(m.structs[i].methods))
    || (exists i :: 0 <= i < |m.named| && FuncsUnwind(m.named[i].methods))
    || FuncsUnwind(m.funcs)
  }

  predicate HasMain(m: Module) {
    exists i :: 0 <= i < |m.funcs| && m.funcs[i].name == "main"
  }

  // ----- The module -----

  function Imports(m: Module): seq<L.Line> {
    (if m.interfaces != [] then [Line(0, "from typing import Protocol, runtime_checkable")] else [])
    + if UsesShim(m) then [L.At(0, L.Plain(Str("import ") + [Shim]))] else []
  }

  /** What follows the definitions: nothing, a call of main, or main under the crash guard. */
  function Guard(m: Module): seq<L.Line> {
    if !HasMain(m) then []
    else
      [L.At(0, L.IfHead(Str("__name__ == \"__main__\"")))]
      + if ModuleUnwinds(m) then
          [L.At(1, L.TryHead), Line(2, "main()"), L.At(1, L.ExceptHead(L.CATCH)),
           L.At(2, L.Plain(Runtime("_crash(_p)")))]
        else [Line(1, "main()")]
  }

  function ModuleLines(m: Module): Option<seq<L.Line>> {
    var defs :- Definitions(m);
    Some(Imports(m) + defs + Guard(m))
  }

  function Onto(a: seq<L.Line>, r: Option<seq<L.Line>>): Option<seq<L.Line>> {
    if r.Some? then Some(a + r.value) else None
  }

  lemma OntoNothing(r: Option<seq<L.Line>>)
    ensures Onto([], r) == r
  {
    if r.Some? { assert [] + r.value == r.value; }
  }

  lemma OntoTwice(a: seq<L.Line>, b: seq<L.Line>, r: Option<seq<L.Line>>)
    ensures Onto(a + b, r) == Onto(a, Onto(b, r))
  {
    if r.Some? { assert a + b + r.value == a + (b + r.value); }
  }

  method EmitFuncs(ds: seq<Func>, depth: nat, method_: bool) returns (r: Option<seq<L.Line>>)
    ensures r == FuncsLines(ds, depth, method_)
  {
    var lines: seq<L.Line> := [];
    OntoNothing(FuncsLines(ds, depth, method_));
    for i := 0 to |ds|
      invariant FuncsLines(ds, depth, method_) == Onto(lines, FuncsLines(ds[i..], depth, method_))
    {
      var next := FuncLines(ds[i], depth, method_);
      assert ds[i..][1..] == ds[i + 1..];
      if next.None? {
        return None;
      }
      OntoTwice(lines, next.value, FuncsLines(ds[i + 1..], depth, method_));
      lines := lines + next.value;
    }
    assert ds[|ds|..] == [] && lines + [] == lines;
    return Some(lines);
  }

  method EmitNameds(ds: seq<NamedDef>) returns (r: Option<seq<L.Line>>)
    ensures r == NamedsLines(ds)
  {
    var lines: seq<L.Line> := [];
    OntoNothing(NamedsLines(ds));
    for i := 0 to |ds|
      invariant NamedsLines(ds) == Onto(lines, NamedsLines(ds[i..]))
    {
      var next := NamedLines(ds[i]);
      assert ds[i..][1..] == ds[i + 1..];
      if next.None? {
        return None;
      }
      OntoTwice(lines, next.value, NamedsLines(ds[i + 1..]));
      lines := lines + next.value;
    }
    assert ds[|ds|..] == [] && lines + [] == lines;
    return Some(lines);
  }

  method EmitStructs(package: string, ds: seq<StructDef>) returns (r: Option<seq<L.Line>>)
    ensures r == StructsLines(package, ds)
  {
    var lines: seq<L.Line> := [];
    OntoNothing(StructsLines(package, ds));
    for i := 0 to |ds|
      invariant StructsLines(package, ds) == Onto(lines, StructsLines(package, ds[i..]))
    {
      var next := StructLines(package, ds[i]);
      assert ds[i..][1..] == ds[i + 1..];
      if next.None? {
        return None;
      }
      OntoTwice(lines, next.value, StructsLines(package, ds[i + 1..]));
      lines := lines + next.value;
    }
    assert ds[|ds|..] == [] && lines + [] == lines;
    return Some(lines);
  }

  method EmitInterfaces(ds: seq<InterfaceDef>) returns (lines: seq<L.Line>)
    ensures lines == InterfacesLines(ds)
  {
    lines := [];
    for i := 0 to |ds|
      invariant InterfacesLines(ds) == lines + InterfacesLines(ds[i..])
    {
      lines := lines + InterfaceLines(ds[i]);
      assert ds[i..][1..] == ds[i + 1..];
    }
    assert ds[|ds|..] == [];
  }

  /** The module written definition by definition, or the first error. */
  method EmitLines(m: Module) returns (r: Option<seq<L.Line>>)
    ensures r == ModuleLines(m)
  {
    var lines := EmitInterfaces(m.interfaces);
    var named := EmitNameds(m.named);
    if named.None? {
      return None;
    }
    lines := lines + named.value;
    var structs := EmitStructs(m.package, m.structs);
    if structs.None? {
      return None;
    }
    lines := lines + structs.value;
    var funcs := EmitFuncs(m.funcs, 0, false);
    if funcs.None? {
      return None;
    }
    return Some(Imports(m) + (lines + funcs.value) + Guard(m));
  }
}
