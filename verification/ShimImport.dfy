/** Whether the import of the runtime is there exactly when the module names it. */
module ShimImport {
  // The definitions name the runtime exactly when the strict reading of the tree finds a use;
  // the import follows the loose one, which is never short of it; and the entry guard follows
  // a third analysis, of what can unwind. Where the three part ways the import is missing or
  // unused, and the theorems say when that is.

  import opened Prelude
  import opened IR
  import opened EmitText
  import opened EmitExpr
  import opened EmitWrite
  import opened ShimUse
  import opened EmitModule
  import L = EmitLayout

  // ----- Functions and methods -----

  lemma BodyNames(body: seq<Stmt<Expr>>, depth: nat)
    requires EmitBody(body, depth).Some?
    ensures LinesName(EmitBody(body, depth).value) <==> BlockUses(body, false)
  {
    BlockNames(body, depth);
  }

  lemma FuncNames(f: Func, depth: nat, method_: bool)
    requires FuncLines(f, depth, method_).Some?
    ensures LinesName(FuncLines(f, depth, method_).value) <==> BlockUses(f.body, false)
  {
    BodyNames(f.body, depth + 1);
    NamesJoined((if method_ then ["self"] else []) + f.params);
    HeadNames(L.DefHead(FuncHead(f, method_)), EmitBody(f.body, depth + 1).value, depth);
  }

  lemma {:induction false} FuncsName(fs: seq<Func>, depth: nat, method_: bool)
    requires FuncsLines(fs, depth, method_).Some?
    ensures LinesName(FuncsLines(fs, depth, method_).value) <==> FuncsUse(fs, false)
  {
    if fs != [] {
      FuncNames(fs[0], depth, method_);
      FuncsName(fs[1..], depth, method_);
      ConcatNames(FuncLines(fs[0], depth, method_).value, FuncsLines(fs[1..], depth, method_).value);
      FuncsUseSplit(fs, false);
    }
  }

  lemma FuncsUseSplit(fs: seq<Func>, loose: bool)
    requires fs != []
    ensures FuncsUse(fs, loose) <==> BlockUses(fs[0].body, loose) || FuncsUse(fs[1..], loose)
  {
    if FuncsUse(fs[1..], loose) {
      var i :| 0 <= i < |fs[1..]| && BlockUses(fs[1..][i].body, loose);
      assert fs[i + 1] == fs[1..][i];
    }
    if FuncsUse(fs, loose) && !BlockUses(fs[0].body, loose) {
      var i :| 0 <= i < |fs| && BlockUses(fs[i].body, loose);
      assert fs[1..][i - 1] == fs[i];
    }
  }

  // ----- Structs -----

  lemma AnyExists(ws: seq<Words>)
    ensures Any(ws) <==> exists i :: 0 <= i < |ws| && Shim in ws[i]
  {
    if ws != [] {
      AnyExists(ws[1..]);
      if exists i :: 0 <= i < |ws| && Shim in ws[i] {
        var i :| 0 <= i < |ws| && Shim in ws[i];
        if i > 0 { assert ws[1..][i - 1] == ws[i]; }
      }
      if Any(ws[1..]) {
        var i :| 0 <= i < |ws[1..]| && Shim in ws[1..][i];
        assert ws[i + 1] == ws[1..][i];
      }
    }
  }

  lemma JoinedNames(ws: seq<Words>)
    ensures Shim in Join(ws) <==> exists i :: 0 <= i < |ws| && Shim in ws[i]
  {
    JoinNames(ws);
    AnyExists(ws);
  }

  lemma ZeroNames(e: Expr)
    ensures Shim in Zero(e) <==> Emit(e).Some? && Uses(e, false)
  {
    TextNamesExactly(e);
  }

  /** A field names the runtime on one of the three lines it stands on. */
  predicate OnItsLines(fields: seq<Field>, f: Field) {
    Shim in Parameter(fields, f) || Shim in InitText(fields, f) || Shim in CopyText(f)
  }

  lemma FieldNames(fields: seq<Field>, f: Field)
    ensures OnItsLines(fields, f) <==> FieldUses(f, false)
    ensures Shim in HashText(f) ==> FieldUses(f, false)
  {
    if !f.Struct? { ZeroNames(f.zero); }
  }

  lemma SlotsNames(fields: seq<Field>)
    ensures Shim !in SlotsText(fields)
  {
    JoinedNames(Slots(fields));
  }

  lemma InitHeadNames(fields: seq<Field>)
    ensures Shim in InitHead(fields) <==> exists i :: 0 <= i < |fields| && Shim in Parameter(fields, fields[i])
  {
    JoinNames([Str("self")] + Parameters(fields));
    AnyConcat([Str("self")], Parameters(fields));
    AnyExists([Str("self")]);
    AnyExists(Parameters(fields));
  }

  lemma CopyNames(d: StructDef)
    ensures Shim in CopyReturn(d) <==> exists i :: 0 <= i < |d.fields| && Shim in CopyText(d.fields[i])
  {
    JoinedNames(Copies(d.fields));
  }

  lemma HashNames(fields: seq<Field>)
    ensures Shim in HashReturn(fields) <==> exists i :: 0 <= i < |fields| && Shim in HashText(fields[i])
  {
    JoinedNames(Hashes(fields));
  }

  lemma InitLinesName(d: StructDef)
    ensures LinesName(InitLines(d)) <==> exists i :: 0 <= i < |d.fields| && Shim in InitText(d.fields, d.fields[i])
  {
    if d.fields == [] {
      LineNames(L.At(2, L.Pass));
    } else {
      var lines := InitLines(d);
      assert forall i :: 0 <= i < |d.fields| ==>
        (TextNames(lines[i].text) <==> Shim in InitText(d.fields, d.fields[i]));
    }
  }

  lemma LastLineNames(ls: seq<L.Line>)
    requires ls != [] && LinesName(ls) && forall i :: 0 <= i < |ls| - 1 ==> !TextNames(ls[i].text)
    ensures TextNames(ls[|ls| - 1].text)
  {
  }

  lemma EqLinesName(d: StructDef)
    ensures LinesName(EqLines(d)) ==> Shim in HashReturn(d.fields)
  {
    if LinesName(EqLines(d)) { LastLineNames(EqLines(d)); }
  }

  lemma EqNames(d: StructDef)
    ensures LinesName(EqLines(d)) ==> FieldsReach(d.fields, false)
  {
    EqLinesName(d);
    if Shim in HashReturn(d.fields) {
      HashNames(d.fields);
      var k :| 0 <= k < |d.fields| && Shim in HashText(d.fields[k]);
      FieldNames(d.fields, d.fields[k]);
    }
  }

  lemma HeaderNames(package: string, d: StructDef)
    ensures LinesName(ClassHeader(package, d)) <==> Shim in InitHead(d.fields)
  {
    SlotsNames(d.fields);
    FourLines(ClassHeader(package, d));
  }

  lemma ClassNames(package: string, d: StructDef)
    ensures LinesName(ClassLines(package, d)) <==> FieldsReach(d.fields, false)
  {
    var head, eq := ClassHeader(package, d), if d.comparable then EqLines(d) else [];
    HeaderNames(package, d);
    InitHeadNames(d.fields);
    CopyNames(d);
    TwoLines(CopyLines(d));
    InitLinesName(d);
    EqNames(d);
    ConcatNames(head + InitLines(d) + CopyLines(d), eq);
    ConcatNames(head + InitLines(d), CopyLines(d));
    ConcatNames(head, InitLines(d));
    FieldsOnTheirLines(d.fields);
  }

  lemma FourLines(ls: seq<L.Line>)
    requires |ls| == 4
    ensures LinesName(ls) <==> TextNames(ls[0].text) || TextNames(ls[1].text) || TextNames(ls[2].text)
                               || TextNames(ls[3].text)
  {
  }

  lemma TwoLines(ls: seq<L.Line>)
    requires |ls| == 2
    ensures LinesName(ls) <==> TextNames(ls[0].text) || TextNames(ls[1].text)
  {
  }

  lemma FieldsOnTheirLines(fields: seq<Field>)
    ensures FieldsReach(fields, false) <==>
            || (exists i :: 0 <= i < |fields| && Shim in Parameter(fields, fields[i]))
            || (exists i :: 0 <= i < |fields| && Shim in InitText(fields, fields[i]))
            || (exists i :: 0 <= i < |fields| && Shim in CopyText(fields[i]))
  {
    forall i | 0 <= i < |fields| ensures OnItsLines(fields, fields[i]) <==> FieldUses(fields[i], false) {
      FieldNames(fields, fields[i]);
    }
    if FieldsReach(fields, false) {
      var i :| 0 <= i < |fields| && FieldUses(fields[i], false);
      assert OnItsLines(fields, fields[i]);
    }
  }

  // ----- The definitions -----

  lemma {:induction false} StructsName(package: string, ds: seq<StructDef>)
    requires StructsLines(package, ds).Some?
    ensures LinesName(StructsLines(package, ds).value) <==> StructsUse(ds, false)
  {
    if ds != [] {
      var d := ds[0];
      ClassNames(package, d);
      FuncsName(d.methods, 1, true);
      ConcatNames(ClassLines(package, d), FuncsLines(d.methods, 1, true).value);
      StructsName(package, ds[1..]);
      ConcatNames(StructLines(package, d).value, StructsLines(package, ds[1..]).value);
      StructsUseSplit(ds, false);
    }
  }

  predicate StructUses(d: StructDef, loose: bool) {
    FieldsReach(d.fields, loose) || FuncsUse(d.methods, loose)
  }

  lemma StructsUseSplit(ds: seq<StructDef>, loose: bool)
    requires ds != []
    ensures StructsUse(ds, loose) <==> StructUses(ds[0], loose) || StructsUse(ds[1..], loose)
  {
    if StructsUse(ds[1..], loose) {
      var i :| 0 <= i < |ds[1..]| && StructUses(ds[1..][i], loose);
      assert ds[i + 1] == ds[1..][i];
    }
    if StructsUse(ds, loose) && !StructUses(ds[0], loose) {
      var i :| 0 <= i < |ds| && StructUses(ds[i], loose);
      assert ds[1..][i - 1] == ds[i];
    }
  }

  lemma {:induction false} NamedsName(ds: seq<NamedDef>)
    requires NamedsLines(ds).Some?
    ensures LinesName(NamedsLines(ds).value) <==> NamedsUse(ds, false)
  {
    if ds != [] {
      TwoLines(NamedHead(ds[0]));
      FuncsName(ds[0].methods, 1, true);
      ConcatNames(NamedHead(ds[0]), FuncsLines(ds[0].methods, 1, true).value);
      NamedsName(ds[1..]);
      ConcatNames(NamedLines(ds[0]).value, NamedsLines(ds[1..]).value);
      NamedsUseSplit(ds, false);
    }
  }

  lemma NamedsUseSplit(ds: seq<NamedDef>, loose: bool)
    requires ds != []
    ensures NamedsUse(ds, loose) <==> FuncsUse(ds[0].methods, loose) || NamedsUse(ds[1..], loose)
  {
    if NamedsUse(ds[1..], loose) {
      var i :| 0 <= i < |ds[1..]| && FuncsUse(ds[1..][i].methods, loose);
      assert ds[i + 1] == ds[1..][i];
    }
    if NamedsUse(ds, loose) && !FuncsUse(ds[0].methods, loose) {
      var i :| 0 <= i < |ds| && FuncsUse(ds[i].methods, loose);
      assert ds[1..][i - 1] == ds[i];
    }
  }

  lemma InterfaceNames(d: InterfaceDef)
    ensures !LinesName(InterfaceLines(d))
  {
    var lines := InterfaceLines(d);
    forall i | 0 <= i < |lines| ensures !TextNames(lines[i].text) {
      if i >= 2 && d.methods != [] {
        var s := d.methods[i - 2];
        NamesJoined(["self"] + s.params);
        assert lines[i] == SignatureLine(s);
      }
    }
  }

  lemma {:induction false} InterfacesName(ds: seq<InterfaceDef>)
    ensures !LinesName(InterfacesLines(ds))
  {
    if ds != [] {
      InterfaceNames(ds[0]);
      InterfacesName(ds[1..]);
      ConcatNames(InterfaceLines(ds[0]), InterfacesLines(ds[1..]));
    }
  }

  /** The definitions name the runtime exactly when the strict reading finds a use. */
  lemma DefinitionsName(m: Module)
    requires Definitions(m).Some?
    ensures LinesName(Definitions(m).value) <==> ModuleUses(m, false)
  {
    var named, structs, funcs := NamedsLines(m.named).value, StructsLines(m.package, m.structs).value,
                                 FuncsLines(m.funcs, 0, false).value;
    InterfacesName(m.interfaces);
    NamedsName(m.named);
    StructsName(m.package, m.structs);
    FuncsName(m.funcs, 0, false);
    ConcatNames(InterfacesLines(m.interfaces) + named + structs, funcs);
    ConcatNames(InterfacesLines(m.interfaces) + named, structs);
    ConcatNames(InterfacesLines(m.interfaces), named);
  }

  // ----- The analysis is never short of the text -----

  lemma {:induction false} FieldsUseAny(fields: seq<StructArg>, loose: bool)
    ensures FieldsUse(fields, loose) <==> AnyUse(FieldValues(fields), loose)
  {
    if fields != [] {
      FieldsUseAny(fields[1..], loose);
      AnyUseConcat([fields[0].value], FieldValues(fields[1..]), loose);
      OneUse(fields[0].value, loose);
      assert [fields[0].value] + FieldValues(fields[1..]) == FieldValues(fields);
    }
  }

  lemma AnyUseSplit(es: seq<Expr>, loose: bool)
    requires es != []
    ensures AnyUse(es, loose) <==> Uses(es[0], loose) || AnyUse(es[1..], loose)
  {
    AnyUseConcat([es[0]], es[1..], loose);
    OneUse(es[0], loose);
    assert [es[0]] + es[1..] == es;
  }

  lemma {:induction false} EntriesUseAny(entries: seq<MapEntry>, loose: bool)
    ensures EntriesUse(entries, loose) <==> AnyUse(Keys(entries), loose) || AnyUse(Values(entries), loose)
  {
    if entries != [] {
      EntriesUseAny(entries[1..], loose);
      AnyUseSplit(Keys(entries), loose);
      AnyUseSplit(Values(entries), loose);
      assert Keys(entries)[1..] == Keys(entries[1..]) && Values(entries)[1..] == Values(entries[1..]);
    }
  }

  lemma BoundUsesAny(bound: Option<Expr>, loose: bool)
    ensures BoundUses(bound, loose) <==> AnyUse(Bound(bound), loose)
  {
    if bound.Some? { OneUse(bound.value, loose); }
  }

  /** A use is the runtime's own node, a three-index slice, or a use in a sub-expression
      that is looked at. */
  predicate UsesFromChildren(e: Expr, loose: bool) {
    || AlwaysRuntime(e) || (e.SliceExpr? && e.max.Some?)
    || ((e.ArrayZero? && e.len == 0 ==> loose) && AnyUse(Children(e), loose))
  }

  lemma LambdaUses(e: Expr, loose: bool)
    requires e.Lambda?
    ensures Uses(e, loose) <==> AnyUse(Children(e), loose)
  {
    SeedsUseAny(e.captures, loose);
    AnyUseConcat(Seeds(e.captures), [e.body], loose);
    OneUse(e.body, loose);
  }

  lemma MethodCallUses(e: Expr, loose: bool)
    requires e.MethodCall?
    ensures Uses(e, loose) <==> AnyUse(Children(e), loose)
  {
    AnyUseConcat([e.recv], e.args, loose);
    OneUse(e.recv, loose);
    ArgsUseAny(e.args, loose);
  }

  lemma ListUses(e: Expr, loose: bool)
    requires IsList(e)
    ensures Uses(e, loose) <==> AnyUse(Children(e), loose)
  {
    match e
    case MethodCall(_, _, _) => MethodCallUses(e, loose);
    case StructLit(_, _, fields) => FieldsUseAny(fields, loose);
    case MapLit(entries) =>
      EntriesUseAny(entries, loose);
      AnyUseConcat(Keys(entries), Values(entries), loose);
    case Lambda(_, _, _) => LambdaUses(e, loose);
    case _ => ArgsUseAny(Children(e), loose);
  }

  lemma SliceExprUses(e: Expr, loose: bool)
    requires e.SliceExpr? && e.max.None?
    ensures Uses(e, loose) <==> AnyUse(Children(e), loose)
  {
    AnyUseConcat([e.x] + Bound(e.low) + Bound(e.high), Bound(e.max), loose);
    AnyUseConcat([e.x] + Bound(e.low), Bound(e.high), loose);
    AnyUseConcat([e.x], Bound(e.low), loose);
    OneUse(e.x, loose);
    BoundUsesAny(e.low, loose);
    BoundUsesAny(e.high, loose);
  }

  lemma OperandsUse(e: Expr, loose: bool)
    requires !IsList(e) && !AlwaysRuntime(e) && !e.SliceExpr?
    ensures Uses(e, loose) <==> (e.ArrayZero? && e.len == 0 ==> loose) && AnyUse(Children(e), loose)
  {
    var cs := Children(e);
    assert |cs| <= 2;
    assert AnyUse(cs, loose) <==> (|cs| > 0 && Uses(cs[0], loose)) || (|cs| > 1 && Uses(cs[1], loose));
  }

  lemma UsesByChildren(e: Expr, loose: bool)
    ensures Uses(e, loose) <==> UsesFromChildren(e, loose)
  {
    if AlwaysRuntime(e) || (e.SliceExpr? && e.max.Some?) {
    } else if IsList(e) {
      ListUses(e, loose);
    } else if e.SliceExpr? {
      SliceExprUses(e, loose);
    } else {
      OperandsUse(e, loose);
    }
  }

  lemma {:induction false} StrictIsLoose(e: Expr)
    ensures Uses(e, false) ==> Uses(e, true)
  {
    UsesByChildren(e, false);
    UsesByChildren(e, true);
    forall i | 0 <= i < |Children(e)| ensures Uses(Children(e)[i], false) ==> Uses(Children(e)[i], true) {
      StrictIsLoose(Children(e)[i]);
    }
  }

  lemma AnyStrictIsLoose(es: seq<Expr>)
    ensures AnyUse(es, false) ==> AnyUse(es, true)
  {
    forall i | 0 <= i < |es| ensures Uses(es[i], false) ==> Uses(es[i], true) { StrictIsLoose(es[i]); }
  }

  lemma {:induction false} StmtStrictIsLoose(s: Stmt<Expr>)
    ensures StmtUses(s, false) ==> StmtUses(s, true)
    decreases s, 0
  {
    AnyStrictIsLoose(Parts(s));
    match s
    case FuncDef(_, _, _, _, body) => BlockStrictIsLoose(body);
    case If(_, thn, els) => BlockStrictIsLoose(thn); BlockStrictIsLoose(els);
    case For(_, body, _) => BlockStrictIsLoose(body);
    case ForRange(_, _, _, _, body) => BlockStrictIsLoose(body);
    case DeferBlock(body, _, _) => BlockStrictIsLoose(body);
    case _ =>
  }

  lemma {:induction false} BlockStrictIsLoose(body: seq<Stmt<Expr>>)
    ensures BlockUses(body, false) ==> BlockUses(body, true)
    decreases body, 1
  {
    if body != [] {
      StmtStrictIsLoose(body[0]);
      BlockStrictIsLoose(body[1..]);
    }
  }

  lemma FuncsStrictIsLoose(fs: seq<Func>)
    ensures FuncsUse(fs, false) ==> FuncsUse(fs, true)
  {
    forall i | 0 <= i < |fs| ensures BlockUses(fs[i].body, false) ==> BlockUses(fs[i].body, true) {
      BlockStrictIsLoose(fs[i].body);
    }
  }

  lemma FieldsStrictIsLoose(fields: seq<Field>)
    ensures FieldsReach(fields, false) ==> FieldsReach(fields, true)
  {
    forall i | 0 <= i < |fields| ensures FieldUses(fields[i], false) ==> FieldUses(fields[i], true) {
      if fields[i].Scalar? { StrictIsLoose(fields[i].zero); }
    }
  }

  lemma ModuleStrictIsLoose(m: Module)
    ensures ModuleUses(m, false) ==> UsesShim(m)
  {
    FuncsStrictIsLoose(m.funcs);
    forall i | 0 <= i < |m.named| ensures FuncsUse(m.named[i].methods, false) ==> FuncsUse(m.named[i].methods, true) {
      FuncsStrictIsLoose(m.named[i].methods);
    }
    forall i | 0 <= i < |m.structs| ensures StructUses(m.structs[i], false) ==> StructUses(m.structs[i], true) {
      FuncsStrictIsLoose(m.structs[i].methods);
      FieldsStrictIsLoose(m.structs[i].fields);
    }
  }

  // ----- A panic needs the runtime, except for a plain defer -----

  lemma {:induction false} PanicUses(e: Expr)
    ensures Unwinds(e) ==> Uses(e, true)
  {
    UsesByChildren(e, true);
    forall i | 0 <= i < |Searched(e)| ensures Unwinds(Searched(e)[i]) ==> Uses(Searched(e)[i], true) {
      PanicUses(Searched(e)[i]);
    }
    if e.Lambda? {
      AnyUseConcat(Seeds(e.captures), [e.body], true);
      OneUse(e.body, true);
    }
  }

  /** A defer stands in the statement, reshaped or plain. */
  predicate HasDefer(s: Stmt<Expr>)
    decreases s, 0
  {
    match s
    case DeferBlock(_, _, _) => true
    case DeferPush(_, _) => true
    case FuncDef(_, _, _, _, body) => BlockHasDefer(body)
    case If(_, thn, els) => BlockHasDefer(thn) || BlockHasDefer(els)
    case For(_, body, _) => BlockHasDefer(body)
    case ForRange(_, _, _, _, body) => BlockHasDefer(body)
    case RangeMap(_, _, _, body) => BlockHasDefer(body)
    case RangeString(_, _, _, _, _, body, _) => BlockHasDefer(body)
    case _ => false
  }

  predicate BlockHasDefer(body: seq<Stmt<Expr>>)
    decreases body, 1
  {
    body != [] && (HasDefer(body[0]) || BlockHasDefer(body[1..]))
  }

  lemma AnyPanicUses(es: seq<Expr>)
    ensures AnyUnwinds(es) ==> AnyUse(es, true)
  {
    forall i | 0 <= i < |es| ensures Unwinds(es[i]) ==> Uses(es[i], true) { PanicUses(es[i]); }
  }

  /** Without a use of the runtime, what unwinds is exactly what defers. */
  lemma {:induction false} StmtUnwindsByDefer(s: Stmt<Expr>)
    ensures HasDefer(s) ==> StmtUnwinds(s)
    ensures StmtUnwinds(s) ==> HasDefer(s) || StmtUses(s, true)
    decreases s, 0
  {
    AnyPanicUses(Parts(s));
    match s
    case FuncDef(_, _, _, _, body) => BlockUnwindsByDefer(body);
    case If(_, thn, els) => BlockUnwindsByDefer(thn); BlockUnwindsByDefer(els);
    case For(_, body, _) => BlockUnwindsByDefer(body);
    case ForRange(_, _, _, _, body) => BlockUnwindsByDefer(body);
    case RangeMap(_, _, _, body) => BlockUnwindsByDefer(body);
    case RangeString(_, _, _, _, _, body, _) => BlockUnwindsByDefer(body);
    case _ =>
  }

  lemma {:induction false} BlockUnwindsByDefer(body: seq<Stmt<Expr>>)
    ensures BlockHasDefer(body) ==> BlockUnwinds(body)
    ensures BlockUnwinds(body) ==> BlockHasDefer(body) || BlockUses(body, true)
    decreases body, 1
  {
    if body != [] {
      StmtUnwindsByDefer(body[0]);
      BlockUnwindsByDefer(body[1..]);
    }
  }

  predicate FuncsDefer(fs: seq<Func>) {
    exists i :: 0 <= i < |fs| && BlockHasDefer(fs[i].body)
  }

  predicate ModuleDefers(m: Module) {
    || (exists i :: 0 <= i < |m.structs| && FuncsDefer(m.structs[i].methods))
    || (exists i :: 0 <= i < |m.named| && FuncsDefer(m.named[i].methods))
    || FuncsDefer(m.funcs)
  }

  lemma FuncsUnwindByDefer(fs: seq<Func>)
    ensures FuncsDefer(fs) ==> FuncsUnwind(fs)
    ensures FuncsUnwind(fs) ==> FuncsDefer(fs) || FuncsUse(fs, true)
  {
    forall i | 0 <= i < |fs|
      ensures BlockHasDefer(fs[i].body) ==> BlockUnwinds(fs[i].body)
      ensures BlockUnwinds(fs[i].body) ==> BlockHasDefer(fs[i].body) || BlockUses(fs[i].body, true)
    {
      BlockUnwindsByDefer(fs[i].body);
    }
  }

  lemma ModuleUnwindsByDefer(m: Module)
    requires !UsesShim(m)
    ensures ModuleUnwinds(m) <==> ModuleDefers(m)
  {
    FuncsUnwindByDefer(m.funcs);
    forall i | 0 <= i < |m.named|
      ensures FuncsUnwind(m.named[i].methods) <==> FuncsDefer(m.named[i].methods)
    {
      FuncsUnwindByDefer(m.named[i].methods);
    }
    forall i | 0 <= i < |m.structs|
      ensures FuncsUnwind(m.structs[i].methods) <==> FuncsDefer(m.structs[i].methods)
    {
      FuncsUnwindByDefer(m.structs[i].methods);
      assert !StructUses(m.structs[i], true);
    }
  }

  // ----- The import -----

  lemma GuardNames(m: Module)
    ensures LinesName(Guard(m)) <==> HasMain(m) && ModuleUnwinds(m)
  {
    var lines := Guard(m);
    if HasMain(m) && ModuleUnwinds(m) {
      assert TextNames(lines[3].text);
    }
  }

  /** The lines below the imports. */
  function Below(m: Module): seq<L.Line>
    requires Definitions(m).Some?
  {
    Definitions(m).value + Guard(m)
  }

  /** No definition names the runtime without the import: what is missing is at most for
      the crash guard, and it is missing exactly when main runs a plain defer in a module
      that uses the runtime nowhere. */
  lemma MissingImportExactly(m: Module)
    requires Definitions(m).Some?
    ensures LinesName(Definitions(m).value) ==> UsesShim(m)
    ensures LinesName(Below(m)) && !UsesShim(m) <==> HasMain(m) && ModuleDefers(m) && !UsesShim(m)
  {
    DefinitionsName(m);
    ModuleStrictIsLoose(m);
    ConcatNames(Definitions(m).value, Guard(m));
    GuardNames(m);
    if !UsesShim(m) { ModuleUnwindsByDefer(m); }
  }

  /** The import is there and unused exactly when the text drops every use the analysis
      sees: the element of an array of length zero, a sync field whose zero is no runtime
      call, or a field's zero whose operator the emitter does not know. */
  lemma UnusedImportExactly(m: Module)
    requires Definitions(m).Some?
    ensures UsesShim(m) && !LinesName(Below(m)) <==>
            UsesShim(m) && !ModuleUses(m, false) && !(HasMain(m) && ModuleUnwinds(m))
  {
    DefinitionsName(m);
    ConcatNames(Definitions(m).value, Guard(m));
    GuardNames(m);
  }

  // ----- Two witnesses -----

  function MainOnly(s: Stmt<Expr>): Module { Module("main", [], [], [], [Func("main", [], [s])]) }

  lemma SingleBlock(s: Stmt<Expr>)
    ensures WriteBlock([s]) == if WriteStmt(s).Some? then Some([WriteStmt(s).value]) else None
    ensures BlockUses([s], true) <==> StmtUses(s, true)
    ensures BlockUses([s], false) <==> StmtUses(s, false)
    ensures BlockHasDefer([s]) <==> HasDefer(s)
    ensures BlockUnwinds([s]) <==> StmtUnwinds(s)
  {
    assert [s][1..] == [];
    assert WriteBlock([s][1..]) == Some([]);
    if WriteStmt(s).Some? { assert [WriteStmt(s).value] + [] == [WriteStmt(s).value]; }
  }

  lemma MainLines(s: Stmt<Expr>)
    requires WriteStmt(s).Some? && !L.Refused(WriteStmt(s).value)
    ensures Definitions(MainOnly(s)).Some?
  {
    var m, f := MainOnly(s), Func("main", [], [s]);
    SingleBlock(s);
    assert !L.AnyRefused([WriteStmt(s).value]);
    assert FuncLines(f, 0, false).Some?;
    assert m.funcs[1..] == [] && FuncsLines(m.funcs[1..], 0, false) == Some([]);
    assert m.funcs[0] == f;
  }

  lemma MainUses(s: Stmt<Expr>, loose: bool)
    ensures ModuleUses(MainOnly(s), loose) <==> StmtUses(s, loose)
  {
    var m := MainOnly(s);
    SingleBlock(s);
    FuncsUseSplit(m.funcs, loose);
    assert m.funcs[1..] == [];
  }

  lemma MainUnwinds(s: Stmt<Expr>)
    ensures var m := MainOnly(s);
            HasMain(m) && (ModuleDefers(m) <==> HasDefer(s)) && (ModuleUnwinds(m) <==> StmtUnwinds(s))
  {
    var m := MainOnly(s);
    SingleBlock(s);
    assert m.funcs[0] == Func("main", [], [s]);
  }

  lemma PlainDeferWritten(push: Stmt<Expr>)
    requires push.DeferPush? && WriteStmt(push).Some? && !StmtUses(push, true)
    ensures var s := DeferBlock([push], false, []);
            WriteStmt(s).Some? && !L.Refused(WriteStmt(s).value) && !StmtUses(s, true)
  {
    SingleBlock(push);
    assert !L.AnyRefused([WriteStmt(push).value]);
  }

  /** func main() { defer f(args) }, using the runtime nowhere, reaches for the crash
      handler of a runtime it never imports. */
  lemma PlainDeferMissesImport(push: Stmt<Expr>)
    requires push.DeferPush? && WriteStmt(push).Some? && !StmtUses(push, true)
    ensures var m := MainOnly(DeferBlock([push], false, []));
            Definitions(m).Some? && LinesName(Below(m)) && !UsesShim(m)
  {
    var s := DeferBlock([push], false, []);
    PlainDeferWritten(push);
    MainLines(s);
    MainUses(s, true);
    MainUnwinds(s);
    MissingImportExactly(MainOnly(s));
  }

  lemma EmptyArrayUses(name: string, elem: Expr, elemMutable: bool)
    requires Emit(elem).Some? && Uses(elem, true)
    ensures var s := Assign(name, ArrayZero(0, elem, elemMutable)); StmtUses(s, true) && !StmtUses(s, false)
  {
    var zero := ArrayZero(0, elem, elemMutable);
    OneUse(zero, true);
    OneUse(zero, false);
    assert Parts(Assign(name, zero)) == [zero];
  }

  lemma EmptyArrayText(elem: Expr, elemMutable: bool)
    requires Emit(elem).Some?
    ensures Emit(ArrayZero(0, elem, elemMutable)) == Some(Str("[]"))
  {
  }

  lemma EmptyArrayEmits(name: string, elem: Expr, elemMutable: bool)
    requires Emit(elem).Some?
    ensures var s := Assign(name, ArrayZero(0, elem, elemMutable));
            WriteStmt(s).Some? && !L.Refused(WriteStmt(s).value)
  {
    EmptyArrayText(elem, elemMutable);
    var s := Assign(name, ArrayZero(0, elem, elemMutable));
    assert WriteStmt(s) == Some(Assign(name, Str("[]")));
  }

  lemma EmptyArrayRunsOn(name: string, elem: Expr, elemMutable: bool)
    requires !Unwinds(elem)
    ensures !StmtUnwinds(Assign(name, ArrayZero(0, elem, elemMutable)))
  {
    var zero := ArrayZero(0, elem, elemMutable);
    assert Parts(Assign(name, zero)) == [zero];
    assert Searched(zero) == [elem] && !Unwinds(zero);
  }

  /** func main() { var a [0]T }, where the zero of T uses the runtime, imports a runtime
      that nothing below the import names. */
  lemma EmptyArrayImportsForNothing(name: string, elem: Expr, elemMutable: bool)
    requires Emit(elem).Some? && Uses(elem, true) && !Unwinds(elem)
    ensures var m := MainOnly(Assign(name, ArrayZero(0, elem, elemMutable)));
            Definitions(m).Some? && UsesShim(m) && !LinesName(Below(m))
  {
    var s := Assign(name, ArrayZero(0, elem, elemMutable));
    EmptyArrayUses(name, elem, elemMutable);
    EmptyArrayEmits(name, elem, elemMutable);
    EmptyArrayRunsOn(name, elem, elemMutable);
    MainLines(s);
    MainUses(s, true);
    MainUses(s, false);
    MainUnwinds(s);
    UnusedImportExactly(MainOnly(s));
  }
}
