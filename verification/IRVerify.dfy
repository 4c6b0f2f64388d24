/** The verifier of the IR, and what an accepted tree means to the emitter. */
module IRVerify {
  import opened Prelude
  import opened IR

  // ----- Expressions -----

  predicate Named(names: seq<string>) {
    forall i :: 0 <= i < |names| ==> names[i] != ""
  }

  predicate VerifyExpr(e: Expr)
    decreases e, 0
  {
    match e
    case NilExpr => false
    case IntLit(text) => text != ""
    case FloatLit(text) => text != ""
    case StringLit(_) => true
    case BoolLit(_) => true
    case Ident(name) => name != ""
    case Binary(op, x, y) => op != "" && VerifyExpr(x) && VerifyExpr(y)
    case Unary(op, x) => op != "" && VerifyExpr(x)
    case Mask(bits, _, x) => bits in {8, 16, 32, 64} && VerifyExpr(x)
    case Convert(to, x) => to in {"int", "float"} && VerifyExpr(x)
    case IndexExpr(x, index) => VerifyExpr(x) && VerifyExpr(index)
    case Call(name, args) => name != "" && VerifyArgs(args)
    case MethodCall(recv, name, args) => name != "" && VerifyExpr(recv) && VerifyArgs(args)
    case MethodValue(recv, name, _) => name != "" && VerifyExpr(recv)
    case MethodExpr(typ, name, _) => typ != "" && name != ""
    case Intrinsic(name, args) => name != "" && VerifyArgs(args)
    case ShimFunc(name) => name != ""
    case FieldAccess(x, name) => name != "" && VerifyExpr(x)
    case AddrField(container, name) => name != "" && VerifyExpr(container)
    case AddrIndex(sequence, index) => VerifyExpr(sequence) && VerifyExpr(index)
    case Deref(x) => VerifyExpr(x)
    case Tuple(elems) => |elems| >= 2 && VerifyArgs(elems)
    case Lambda(params, captures, body) => Named(params) && VerifyCaptures(captures) && VerifyExpr(body)
    case StructLit(typ, keyed, fields) => typ != "" && VerifyFields(keyed, fields)
    case Clone(x) => VerifyExpr(x)
    case ArrayZero(len, elem, _) => len >= 0 && VerifyExpr(elem)
    case ArrayLit(elems) => VerifyArgs(elems)
    case ArrayClone(x) => VerifyExpr(x)
    case SliceLit(elems) => VerifyArgs(elems)
    case SliceMake(length, capacity, elem, _) => VerifyExpr(length) && VerifyExpr(capacity) && VerifyExpr(elem)
    case SliceExpr(x, low, high, max) =>
      VerifyExpr(x) && VerifyOptional(low) && VerifyOptional(high) && VerifyOptional(max)
    case NilSlice => true
    case MapLit(entries) => VerifyEntries(entries)
    case NilMap => true
    case NilPtr => true
    case NilInterface => true
    case EmptyStruct => true
  }

  predicate VerifyOptional(e: Option<Expr>)
    decreases e, 1
  {
    match e
    case None => true
    case Some(x) => VerifyExpr(x)
  }

  predicate VerifyArgs(args: seq<Expr>)
    decreases args, 1
  {
    args == [] || (VerifyExpr(args[0]) && VerifyArgs(args[1..]))
  }

  predicate VerifyCaptures(captures: seq<Capture<Expr>>)
    decreases captures, 1
  {
    captures == []
    || (captures[0].param != "" && VerifyExpr(captures[0].value) && VerifyCaptures(captures[1..]))
  }

  predicate VerifyFields(keyed: bool, fields: seq<StructArg>)
    decreases fields, 1
  {
    fields == []
    || ((keyed ==> fields[0].name != "") && VerifyExpr(fields[0].value) && VerifyFields(keyed, fields[1..]))
  }

  predicate VerifyEntry(entry: MapEntry)
    decreases entry, 1
  {
    VerifyExpr(entry.key) && VerifyExpr(entry.value)
  }

  predicate VerifyEntries(entries: seq<MapEntry>)
    decreases entries, 1
  {
    entries == [] || (VerifyEntry(entries[0]) && VerifyEntries(entries[1..]))
  }

  // ----- Statements -----

  predicate VerifyBlock(body: seq<Stmt<Expr>>)
    decreases body, 1
  {
    body == [] || (VerifyStmt(body[0]) && VerifyBlock(body[1..]))
  }

  predicate VerifyStmt(s: Stmt<Expr>)
    decreases s, 0
  {
    match s
    case NilStmt => false
    case ExprStmt(x) => VerifyExpr(x)
    case Return(result) => VerifyOptional(result)
    case Assign(name, value) => name != "" && VerifyExpr(value)
    case TupleAssign(names, value) => |names| >= 2 && Named(names) && VerifyExpr(value)
    case SetField(obj, name, value) => name != "" && VerifyExpr(obj) && VerifyExpr(value)
    case SetIndex(obj, index, value) => VerifyExpr(obj) && VerifyExpr(index) && VerifyExpr(value)
    case DerefSet(ptr, value) => VerifyExpr(ptr) && VerifyExpr(value)
    case Panic(value) => VerifyExpr(value)
    case DeferPush(fn, args) => VerifyExpr(fn) && VerifyArgs(args)
    case DeferReturn(results) => Named(results)
    case Break => true
    case Continue => true
    case FuncDef(name, params, captures, nonlocals, body) =>
      name != "" && Named(params) && VerifyCaptures(captures) && Named(nonlocals) && VerifyBlock(body)
    case If(cond, thn, els) => VerifyExpr(cond) && VerifyBlock(thn) && VerifyBlock(els)
    case For(cond, body, continueStep) => VerifyOptional(cond) && VerifyBlock(continueStep) && VerifyBlock(body)
    case ForRange(_, start, stop, step, body) =>
      VerifyExpr(stop) && VerifyOptional(start) && VerifyOptional(step) && VerifyBlock(body)
    case RangeMap(_, _, source, body) => VerifyExpr(source) && VerifyBlock(body)
    case RangeString(_, _, source, cursor, width, body, continueStep) =>
      cursor != "" && width != "" && VerifyExpr(source) && VerifyBlock(continueStep) && VerifyBlock(body)
    case DeferBlock(body, reshape, results) =>
      Named(results) && (!reshape ==> results == []) && VerifyBlock(body)
    case LabeledBreak(_) => false
    case LabeledContinue(_) => false
  }

  // ----- Modules -----

  /** The names of a list of definitions. */
  function NamesOf<D>(ds: seq<D>, name: D -> string): (r: seq<string>)
    ensures |r| == |ds| && forall i :: 0 <= i < |ds| ==> r[i] == name(ds[i])
  {
    seq(|ds|, i requires 0 <= i < |ds| => name(ds[i]))
  }

  function FuncName(d: Func): string { d.name }
  function SignatureName(d: Signature): string { d.name }
  function StructName(d: StructDef): string { d.name }
  function NamedName(d: NamedDef): string { d.name }
  function InterfaceName(d: InterfaceDef): string { d.name }

  /** No name is listed twice. */
  predicate Distinct(names: seq<string>) {
    names == []
    || (names[|names| - 1] !in names[..|names| - 1] && Distinct(names[..|names| - 1]))
  }

  lemma {:induction false} DistinctMeans(names: seq<string>)
    ensures Distinct(names) <==> forall i, j :: 0 <= i < j < |names| ==> names[i] != names[j]
  {
    if names != [] {
      var front, last := names[..|names| - 1], |names| - 1;
      DistinctMeans(front);
      assert forall i :: 0 <= i < last ==> front[i] == names[i];
      if names[last] in front {
        var i :| 0 <= i < last && front[i] == names[last];
        assert names[i] == names[last];
      }
    }
  }

  predicate FuncOk(f: Func) { f.name != "" && Named(f.params) && VerifyBlock(f.body) }

  predicate FuncsOk(fs: seq<Func>) {
    (forall i :: 0 <= i < |fs| ==> FuncOk(fs[i])) && Distinct(NamesOf(fs, FuncName))
  }

  predicate FieldOk(f: Field) {
    f.name != "" && (if f.Struct? then f.typ != "" else VerifyExpr(f.zero))
  }

  predicate StructOk(d: StructDef) {
    d.name != "" && (forall i :: 0 <= i < |d.fields| ==> FieldOk(d.fields[i])) && FuncsOk(d.methods)
  }

  predicate NamedOk(d: NamedDef) {
    d.name != "" && d.base in {"int", "float", "bytes"} && FuncsOk(d.methods)
  }

  predicate SignatureOk(s: Signature) { s.name != "" && Named(s.params) }

  predicate InterfaceOk(d: InterfaceDef) {
    d.name != "" && SignaturesOk(d.methods)
  }

  function ClassNames(m: Module): seq<string> { NamesOf(m.structs, StructName) + NamesOf(m.named, NamedName) }

  /** The names of the types, in the order the verifier meets them. */
  function TypeNames(m: Module): seq<string> { ClassNames(m) + NamesOf(m.interfaces, InterfaceName) }

  predicate StructsOk(ds: seq<StructDef>) { forall i :: 0 <= i < |ds| ==> StructOk(ds[i]) }

  predicate NamedsOk(ds: seq<NamedDef>) { forall i :: 0 <= i < |ds| ==> NamedOk(ds[i]) }

  predicate InterfacesOk(ds: seq<InterfaceDef>) { forall i :: 0 <= i < |ds| ==> InterfaceOk(ds[i]) }

  /** What an accepted module is: every part is sound, and no type, function or method
      name is taken twice. */
  predicate WellFormed(m: Module) {
    && m.package != "" && StructsOk(m.structs) && NamedsOk(m.named) && InterfacesOk(m.interfaces)
    && Distinct(TypeNames(m)) && FuncsOk(m.funcs)
  }

  /** The first k names are all different, and they are what has been seen. */
  ghost predicate Seen(seen: set<string>, names: seq<string>, k: nat) {
    k <= |names| && Distinct(names[..k]) && seen == set n | n in names[..k]
  }

  lemma OneMoreName(seen: set<string>, names: seq<string>, k: nat)
    requires k < |names| && Seen(seen, names, k)
    ensures names[k] in seen ==> !Distinct(names)
    ensures names[k] !in seen ==> Seen(seen + {names[k]}, names, k + 1)
  {
    var longer := names[..k + 1];
    assert longer == names[..k] + [names[k]] && longer[..k] == names[..k];
    if names[k] in seen {
      assert !Distinct(longer);
      PrefixDistinct(longer, names[k + 1..]);
      assert longer + names[k + 1..] == names;
    }
  }

  lemma AllSeen(seen: set<string>, names: seq<string>)
    requires Seen(seen, names, |names|)
    ensures Distinct(names)
  {
    assert names[..|names|] == names;
  }

  lemma SeenGoesOn(seen: set<string>, names: seq<string>, more: seq<string>)
    requires Seen(seen, names, |names|)
    ensures Seen(seen, names + more, |names|)
  {
    assert (names + more)[..|names|] == names[..|names|];
  }

  lemma {:induction false} PrefixDistinct(names: seq<string>, more: seq<string>)
    ensures Distinct(names + more) ==> Distinct(names)
    decreases |more|
  {
    if more == [] {
      assert names + more == names;
    } else {
      var shorter := more[..|more| - 1];
      assert (names + more)[..|names + more| - 1] == names + shorter;
      PrefixDistinct(names, shorter);
    }
  }

  /** The check every loop makes: a name that is there and has not been seen. */
  method TakeName(seen: set<string>, name: string, ghost names: seq<string>, ghost k: nat)
    returns (ok: bool, seen': set<string>)
    requires k < |names| && names[k] == name && Seen(seen, names, k)
    ensures ok ==> name != "" && Seen(seen', names, k + 1)
    ensures !ok ==> name == "" || !Distinct(names)
  {
    OneMoreName(seen, names, k);
    if name == "" || name in seen {
      return false, seen;
    }
    return true, seen + {name};
  }

  method VerifyMethods(fs: seq<Func>) returns (ok: bool)
    ensures ok <==> FuncsOk(fs)
  {
    ghost var names := NamesOf(fs, FuncName);
    var seen: set<string> := {};
    for i := 0 to |fs|
      invariant Seen(seen, names, i)
      invariant forall k :: 0 <= k < i ==> FuncOk(fs[k])
    {
      assert names[i] == fs[i].name;
      ok, seen := TakeName(seen, fs[i].name, names, i);
      if !ok {
        return;
      }
      if !(Named(fs[i].params) && VerifyBlock(fs[i].body)) {
        return false;
      }
    }
    AllSeen(seen, names);
    return true;
  }

  predicate SignaturesOk(ss: seq<Signature>) {
    (forall i :: 0 <= i < |ss| ==> SignatureOk(ss[i])) && Distinct(NamesOf(ss, SignatureName))
  }

  method VerifySignatures(ss: seq<Signature>) returns (ok: bool)
    ensures ok <==> SignaturesOk(ss)
  {
    ghost var names := NamesOf(ss, SignatureName);
    var seen: set<string> := {};
    for i := 0 to |ss|
      invariant Seen(seen, names, i)
      invariant forall k :: 0 <= k < i ==> SignatureOk(ss[k])
    {
      assert names[i] == ss[i].name;
      ok, seen := TakeName(seen, ss[i].name, names, i);
      if !ok {
        return;
      }
      if !Named(ss[i].params) {
        return false;
      }
    }
    AllSeen(seen, names);
    return true;
  }

  method VerifyStruct(d: StructDef) returns (ok: bool)
    requires d.name != ""
    ensures ok <==> StructOk(d)
  {
    for i := 0 to |d.fields|
      invariant forall k :: 0 <= k < i ==> FieldOk(d.fields[k])
    {
      if !FieldOk(d.fields[i]) {
        return false;
      }
    }
    ok := VerifyMethods(d.methods);
  }

  method VerifyStructs(ds: seq<StructDef>) returns (ok: bool, seen: set<string>)
    ensures ok <==> StructsOk(ds) && Distinct(NamesOf(ds, StructName))
    ensures ok ==> Seen(seen, NamesOf(ds, StructName), |ds|)
  {
    ghost var names := NamesOf(ds, StructName);
    seen := {};
    for i := 0 to |ds|
      invariant Seen(seen, names, i)
      invariant forall k :: 0 <= k < i ==> StructOk(ds[k])
    {
      assert names[i] == ds[i].name;
      ok, seen := TakeName(seen, ds[i].name, names, i);
      if !ok {
        return;
      }
      ok := VerifyStruct(ds[i]);
      if !ok {
        return;
      }
    }
    AllSeen(seen, names);
    return true, seen;
  }

  lemma NameThere<D>(before: seq<string>, ds: seq<D>, name: D -> string, i: nat)
    requires i < |ds|
    ensures (before + NamesOf(ds, name))[|before| + i] == name(ds[i])
  {
  }

  method VerifyNamed(ds: seq<NamedDef>, before: set<string>, ghost classes: seq<string>)
    returns (ok: bool, seen: set<string>)
    requires Seen(before, classes, |classes|)
    ensures ok <==> NamedsOk(ds) && Distinct(classes + NamesOf(ds, NamedName))
    ensures ok ==> Seen(seen, classes + NamesOf(ds, NamedName), |classes| + |ds|)
  {
    ghost var names := classes + NamesOf(ds, NamedName);
    seen := before;
    SeenGoesOn(before, classes, NamesOf(ds, NamedName));
    for i := 0 to |ds|
      invariant Seen(seen, names, |classes| + i)
      invariant NamedsOk(ds) <==> NamedsOk(ds[i..])
    {
      NameThere(classes, ds, NamedName, i);
      NamedsFrom(ds, i);
      ok, seen := TakeName(seen, ds[i].name, names, |classes| + i);
      if !ok {
        return;
      }
      ok := VerifyNamedType(ds[i]);
      if !ok {
        return;
      }
    }
    AllSeen(seen, names);
    return true, seen;
  }

  lemma NamedsFrom(ds: seq<NamedDef>, i: nat)
    requires i < |ds|
    ensures NamedsOk(ds[i..]) <==> NamedOk(ds[i]) && NamedsOk(ds[i + 1..])
  {
    var rest, after := ds[i..], ds[i + 1..];
    assert rest[0] == ds[i];
    assert forall k :: 0 <= k < |after| ==> after[k] == rest[k + 1];
    if NamedOk(ds[i]) && NamedsOk(after) {
      forall k | 0 <= k < |rest| ensures NamedOk(rest[k]) {
        if k > 0 { assert rest[k] == after[k - 1]; }
      }
    }
  }

  method VerifyNamedType(d: NamedDef) returns (ok: bool)
    requires d.name != ""
    ensures ok <==> NamedOk(d)
  {
    if d.base !in {"int", "float", "bytes"} {
      return false;
    }
    ok := VerifyMethods(d.methods);
  }

  /** Two maps stand for what has been seen. */
  ghost predicate SeenInTwo(before: set<string>, faces: set<string>, names: seq<string>, k: nat) {
    Seen(before + faces, names, k)
  }

  lemma OneMoreInterface(before: set<string>, faces: set<string>, names: seq<string>, k: nat)
    requires k < |names| && SeenInTwo(before, faces, names, k)
    ensures names[k] in before || names[k] in faces ==> !Distinct(names)
    ensures !(names[k] in before || names[k] in faces) ==> SeenInTwo(before, faces + {names[k]}, names, k + 1)
  {
    OneMoreName(before + faces, names, k);
    assert before + faces + {names[k]} == before + (faces + {names[k]});
  }

  lemma InterfacesStart(before: set<string>, classes: seq<string>, more: seq<string>)
    requires Seen(before, classes, |classes|)
    ensures SeenInTwo(before, {}, classes + more, |classes|)
  {
    SeenGoesOn(before, classes, more);
    assert before + {} == before;
  }

  /** The interfaces from the i-th on are sound and their names new. */
  ghost predicate RestOk(ds: seq<InterfaceDef>, i: nat, names: seq<string>)
    requires i <= |ds|
  {
    (forall k :: i <= k < |ds| ==> InterfaceOk(ds[k])) && Distinct(names)
  }

  lemma RestStep(ds: seq<InterfaceDef>, i: nat, names: seq<string>)
    requires i < |ds|
    ensures RestOk(ds, i, names) <==> InterfaceOk(ds[i]) && RestOk(ds, i + 1, names)
  {
  }

  method VerifyInterfaces(ds: seq<InterfaceDef>, before: set<string>, ghost classes: seq<string>)
    returns (ok: bool)
    requires Seen(before, classes, |classes|)
    ensures ok <==> InterfacesOk(ds) && Distinct(classes + NamesOf(ds, InterfaceName))
  {
    ghost var names := classes + NamesOf(ds, InterfaceName);
    var faces: set<string> := {};
    InterfacesStart(before, classes, NamesOf(ds, InterfaceName));
    for i := 0 to |ds|
      invariant SeenInTwo(before, faces, names, |classes| + i)
      invariant RestOk(ds, 0, names) <==> RestOk(ds, i, names)
    {
      var name := ds[i].name;
      NameThere(classes, ds, InterfaceName, i);
      OneMoreInterface(before, faces, names, |classes| + i);
      RestStep(ds, i, names);
      if name == "" || name in faces || name in before {
        return false;
      }
      faces := faces + {name};
      ok := VerifySignatures(ds[i].methods);
      if !ok {
        return;
      }
    }
    AllSeen(before + faces, names);
    return true;
  }

  /** The verifier accepts exactly the well-formed modules. */
  method Verify(m: Module) returns (ok: bool)
    ensures ok <==> WellFormed(m)
  {
    if m.package == "" {
      return false;
    }
    PrefixDistinct(ClassNames(m), NamesOf(m.interfaces, InterfaceName));
    PrefixDistinct(NamesOf(m.structs, StructName), NamesOf(m.named, NamedName));
    ghost var structs := NamesOf(m.structs, StructName);
    var seen;
    ok, seen := VerifyStructs(m.structs);
    if !ok {
      return;
    }
    ok, seen := VerifyNamed(m.named, seen, structs);
    if !ok {
      return;
    }
    ok := VerifyInterfaces(m.interfaces, seen, ClassNames(m));
    if !ok {
      return;
    }
    ok := VerifyMethods(m.funcs);
  }
}
