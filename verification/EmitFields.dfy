/** What the constructor of a verified struct promises about its fields. */
module EmitFields {
  import opened IR
  import opened IRVerify
  import opened EmitText
  import opened EmitExpr
  import opened EmitComplete
  import opened EmitModule
  import opened EmitParts
  import opened ShimUse
  import opened ShimImport
  import opened EmitVerified

  // ----- Field defaults -----

  lemma RuntimeTextNotEmpty(e: Expr)
    requires AlwaysRuntime(e) && Emit(e).Some?
    ensures Emit(e).value != []
  {
    assert Emit(e).value[0] == Shim;
  }

  lemma TextNotEmpty(e: Expr)
    requires VerifyExpr(e) && Emit(e).Some?
    ensures Emit(e).value != []
  {
    if AlwaysRuntime(e) { RuntimeTextNotEmpty(e); }
  }

  /** The emitter drops the error of a field's zero, so the default it writes is there if and
      only if every operator in the zero is known. */
  lemma DefaultExactly(f: Field)
    requires FieldOk(f) && !f.Struct?
    ensures Zero(f.zero) != [] <==> OpsKnown(f.zero)
  {
    Emits(f.zero);
    if Emit(f.zero).Some? { TextNotEmpty(f.zero); }
  }

  predicate ZeroKnown(f: Field) {
    !f.Struct? ==> OpsKnown(f.zero)
  }

  /** Every operator of the module is known, in bodies and in the zeros of fields. */
  predicate AllOpsKnown(m: Module) {
    && ModuleKnown(m)
    && forall i, j :: 0 <= i < |m.structs| && 0 <= j < |m.structs[i].fields| ==> ZeroKnown(m.structs[i].fields[j])
  }

  /** Every field default of the module is written. */
  predicate DefaultsWritten(m: Module) {
    forall i, j :: 0 <= i < |m.structs| && 0 <= j < |m.structs[i].fields| ==>
      var f := m.structs[i].fields[j]; f.Struct? || Zero(f.zero) != []
  }

  /** An unknown operator in a verified module is an error, or else it stands in a field's
      zero and leaves that default unwritten. */
  lemma UnknownOperatorExactly(m: Module)
    requires WellFormed(m)
    ensures AllOpsKnown(m) <==> ModuleLines(m).Some? && DefaultsWritten(m)
  {
    VerifiedModulesEmit(m);
    forall i, j | 0 <= i < |m.structs| && 0 <= j < |m.structs[i].fields|
      ensures var f := m.structs[i].fields[j]; (f.Struct? || Zero(f.zero) != []) <==> ZeroKnown(f)
    {
      assert StructOk(m.structs[i]);
      var f := m.structs[i].fields[j];
      assert FieldOk(f);
      if !f.Struct? { DefaultExactly(f); }
    }
  }

  function OneStruct(fields: seq<Field>): Module {
    Module("main", [StructDef("T", fields, false, [])], [], [], [])
  }

  lemma OneStructVerified(fields: seq<Field>)
    requires forall i :: 0 <= i < |fields| ==> FieldOk(fields[i])
    ensures WellFormed(OneStruct(fields)) && ModuleLines(OneStruct(fields)).Some?
    ensures !HasMain(OneStruct(fields)) && !ModuleUnwinds(OneStruct(fields))
  {
    var m := OneStruct(fields);
    assert StructOk(m.structs[0]);
    assert TypeNames(m) == ["T"];
    VerifiedModulesEmit(m);
  }

  /** A field zero with an operator outside the tables, over an operand that uses the runtime. */
  function UnknownZero(op: string): Expr { Binary(op, Mask(8, false, IntLit("1")), IntLit("1")) }

  lemma UnknownZeroFacts(name: string, op: string)
    requires name != "" && op != "" && BinOp(op).None?
    ensures var f := Scalar(name, UnknownZero(op));
            FieldOk(f) && Zero(f.zero) == [] && FieldUses(f, true) && !FieldUses(f, false)
  {
    var m := Mask(8, false, IntLit("1"));
    assert VerifyExpr(m) && Uses(m, true) && Uses(UnknownZero(op), true);
    assert Emit(UnknownZero(op)).None?;
  }

  lemma OneFieldReaches(f: Field, loose: bool)
    ensures ModuleUses(OneStruct([f]), loose) <==> FieldUses(f, loose)
  {
    var m := OneStruct([f]);
    assert [f][0] == f && m.structs[0].fields == [f] && m.structs[0].methods == [];
    if FieldUses(f, loose) { assert FieldsReach(m.structs[0].fields, loose); }
  }

  /** A verified module that emits without an error a field with no default, and imports
      the runtime that the dropped text would have named. */
  lemma UnknownZeroIsDropped(name: string, op: string)
    requires name != "" && op != "" && BinOp(op).None?
    ensures var m := OneStruct([Scalar(name, UnknownZero(op))]);
            && WellFormed(m) && ModuleLines(m).Some? && !DefaultsWritten(m)
            && UsesShim(m) && !LinesName(Below(m))
  {
    var f := Scalar(name, UnknownZero(op));
    UnknownZeroFacts(name, op);
    OneStructVerified([f]);
    OneFieldReaches(f, true);
    OneFieldReaches(f, false);
    UnusedImportExactly(OneStruct([f]));
    assert OneStruct([f]).structs[0].fields[0] == f;
  }

  // ----- Names the constructor looks up -----

  /** A name in the text, and the character that follows it there if one is fixed. */
  datatype Name = Name(text: string, after: string)

  /** The names the node writes itself: identifiers, whatever it calls, and the class of a
      method taken unbound. */
  function Own(e: Expr): set<Name> {
    match e
    case Ident(name) => {Name(name, "")}
    case Call(name, _) => {Name(name, "(")}
    case StructLit(typ, _, _) => {Name(typ, "(")}
    case Convert(to, _) => {Name(to, "(")}
    case MethodExpr(typ, _, valueCopy) => if valueCopy && typ in {"_s", "_a"} then {} else {Name(typ, ".")}
    case ArrayZero(len, _, elemMutable) => if len != 0 && elemMutable then {Name("range", "(")} else {}
    case SliceMake(_, _, _, elemMutable) => if elemMutable then {Name("range", "(")} else {}
    case _ => {}
  }

  /** The names bound over the i-th part: a lambda's over its body, a comprehension's over
      its element. */
  function Binds(e: Expr, i: nat): set<string> {
    if e.Lambda? && i == |e.captures| then set p | p in e.params + CaptureParams(e.captures)
    else if e.ArrayZero? && e.elemMutable then {"_"}
    else if e.SliceMake? && e.elemMutable && i == 2 then {"_"}
    else {}
  }

  function CaptureParams(captures: seq<Capture<Expr>>): seq<string> {
    seq(|captures|, i requires 0 <= i < |captures| => captures[i].param)
  }

  /** The text of e looks up the name in the scope around it. */
  predicate LooksUp(e: Expr, c: Name) {
    c in Own(e) || exists i :: 0 <= i < |Written(e)| && c.text !in Binds(e, i) && LooksUp(Written(e)[i], c)
  }

  /** A comprehension's call of range, after its element. */
  lemma RangeStands(before: Words, a: Words, n: Words, after: Words)
    ensures Contains(before + (Str("[") + a + Str(" for _ in range(") + n + Str(")]")) + after, Str("range("))
  {
    StrConcat(" for _ in ", "range(");
    var front, back := before + Str("[") + a + Str(" for _ in "), n + Str(")]") + after;
    assert before + (Str("[") + a + Str(" for _ in range(") + n + Str(")]")) + after == front + Str("range(") + back;
    Between(front, Str("range("), back);
  }

  lemma ArrayRangeStands(e: Expr)
    requires e.ArrayZero? && e.elemMutable && e.len != 0 && Emit(e).Some?
    ensures Contains(Emit(e).value, Str("range("))
  {
    var w, a := Emit(e).value, Emit(e.elem).value;
    var n := Decimal(e.len);
    StrConcat(" for _ in range(" + n, ")]");
    StrConcat(" for _ in range(", n);
    assert w == [] + (Str("[") + a + Str(" for _ in range(") + Str(n) + Str(")]")) + [];
    RangeStands([], a, Str(n), []);
  }

  lemma MakeRangeStands(e: Expr)
    requires e.SliceMake? && e.elemMutable && Emit(e).Some?
    ensures Contains(Emit(e).value, Str("range("))
  {
    var w, a, n := Emit(e).value, Emit(e.elem).value, Emit(e.capacity).value;
    var after := Str(", 0, ") + Emit(e.length).value + Str(", ") + n + Str(")");
    assert w == Runtime("Slice(") + (Str("[") + a + Str(" for _ in range(") + n + Str(")]")) + after;
    RangeStands(Runtime("Slice("), a, n, after);
  }

  lemma UnboundStands(e: Expr)
    requires e.MethodExpr?
    ensures Emit(e).Some? && Contains(Emit(e).value, Str(e.typ + "."))
  {
    var part := e.typ + ".";
    if e.valueCopy {
      var last := e.name + "(_s.copy(), *_a)";
      assert "lambda _s, *_a: " + e.typ + "." + e.name + "(_s.copy(), *_a)" == "lambda _s, *_a: " + (part + last);
      StrConcat("lambda _s, *_a: ", part + last);
      StrConcat(part, last);
      assert Emit(e).value == Str("lambda _s, *_a: ") + Str(part) + Str(last);
      Between(Str("lambda _s, *_a: "), Str(part), Str(last));
    } else {
      StrConcat(part, e.name);
      First(Str(part), Str(e.name));
    }
  }

  lemma CalleeStands(e: Expr, c: Name)
    requires (e.Call? || e.StructLit? || e.Convert?) && Emit(e).Some? && c in Own(e)
    ensures Contains(Emit(e).value, Str(c.text + c.after))
  {
    var w, part := Emit(e).value, Str(c.text + c.after);
    assert w == part + w[|part|..];
    First(part, w[|part|..]);
  }

  lemma OwnStands(e: Expr, c: Name)
    requires Emit(e).Some? && c in Own(e)
    ensures Contains(Emit(e).value, Str(c.text + c.after))
  {
    assert "range" + "(" == "range(";
    if e.ArrayZero? {
      ArrayRangeStands(e);
    } else if e.SliceMake? {
      MakeRangeStands(e);
    } else if e.MethodExpr? {
      UnboundStands(e);
    } else if e.Ident? {
      assert e.name + "" == e.name;
      Whole(Str(e.name));
    } else {
      CalleeStands(e, c);
    }
  }

  /** The name stands in the text, and after it what belongs there. */
  lemma {:induction false} NameStands(e: Expr, c: Name)
    requires Emit(e).Some? && LooksUp(e, c)
    ensures Contains(Emit(e).value, Str(c.text + c.after))
  {
    if c in Own(e) {
      OwnStands(e, c);
    } else {
      var i :| 0 <= i < |Written(e)| && LooksUp(Written(e)[i], c);
      PartStands(e, i);
      NameStands(Written(e)[i], c);
      ContainsThrough(Emit(e).value, Emit(Written(e)[i]).value, Str(c.text + c.after));
    }
  }

  /** The body of the constructor evaluates the zero of an array or sync field; a scalar's
      is evaluated where the class is defined. */
  predicate InZero(fields: seq<Field>, c: Name) {
    exists f :: f in fields && (f.Array? || f.Sync?) && LooksUp(f.zero, c)
  }

  /** A default in the body of the constructor looks up the name. */
  predicate LookedUp(fields: seq<Field>, c: Name) {
    (c.after == "(" && IsStructType(fields, c.text)) || InZero(fields, c)
  }

  /** And the name stands in the text of the field's line. */
  lemma LookedUpStands(fields: seq<Field>, c: Name)
    requires LookedUp(fields, c) && forall f :: f in fields && !f.Struct? ==> Emit(f.zero).Some?
    ensures exists f :: f in fields && Contains(InitText(fields, f), Str(c.text + c.after))
  {
    if c.after == "(" && IsStructType(fields, c.text) {
      var f :| f in fields && f.Struct? && f.typ == c.text;
      var head := "self." + f.name + " = " + CtorParamName(fields, f.name) + " if "
                  + CtorParamName(fields, f.name) + " is not None else ";
      assert InitText(fields, f) == Str(head) + Str(c.text + "(") + Str(")");
      Between(Str(head), Str(c.text + "("), Str(")"));
    } else {
      var f :| f in fields && (f.Array? || f.Sync?) && LooksUp(f.zero, c);
      var p := CtorParamName(fields, f.name);
      var head := Str("self." + f.name + " = " + p + " if " + p + " is not None else ");
      assert InitText(fields, f) == head + Emit(f.zero).value;
      Last(head, Emit(f.zero).value);
      NameStands(f.zero, c);
      ContainsThrough(InitText(fields, f), Emit(f.zero).value, Str(c.text + c.after));
    }
  }

  /** The constructor's parameters: the instance and one for each field. */
  predicate IsParameter(fields: seq<Field>, p: string) {
    p == "self" || exists f :: f in fields && CtorParamName(fields, f.name) == p
  }

  /** No parameter hides a name that a default in the constructor body looks up. */
  ghost predicate HidesNothing(fields: seq<Field>) {
    forall c :: LookedUp(fields, c) ==> !IsParameter(fields, c.text)
  }

  predicate TextInZero(fields: seq<Field>, text: string) {
    InZero(fields, Name(text, "")) || InZero(fields, Name(text, "(")) || InZero(fields, Name(text, "."))
  }

  /** A field whose own parameter hides a name: named after one looked up in a zero and not
      suffixed, or suffixed into another class or a name looked up in a zero. */
  predicate HidingField(fields: seq<Field>, f: Field) {
    var suffixed := f.name + "_";
    if IsStructType(fields, f.name) then IsStructType(fields, suffixed) || TextInZero(fields, suffixed)
    else TextInZero(fields, f.name)
  }

  lemma {:induction false} AfterIs(e: Expr, c: Name)
    requires LooksUp(e, c)
    ensures c.after in {"", "(", "."}
  {
    if c !in Own(e) {
      var i :| 0 <= i < |Written(e)| && LooksUp(Written(e)[i], c);
      AfterIs(Written(e)[i], c);
    }
  }

  lemma LookedUpByText(fields: seq<Field>, text: string)
    ensures (exists after :: LookedUp(fields, Name(text, after))) <==>
            IsStructType(fields, text) || TextInZero(fields, text)
  {
    if after :| LookedUp(fields, Name(text, after)) {
      if InZero(fields, Name(text, after)) {
        var f :| f in fields && (f.Array? || f.Sync?) && LooksUp(f.zero, Name(text, after));
        AfterIs(f.zero, Name(text, after));
        assert after == "" || after == "(" || after == ".";
      }
    }
    if IsStructType(fields, text) { assert LookedUp(fields, Name(text, "(")); }
    if TextInZero(fields, text) {
      assert LookedUp(fields, Name(text, "")) || LookedUp(fields, Name(text, "(")) || LookedUp(fields, Name(text, "."));
    }
  }

  /** A parameter hides a name exactly when some field is such a one, or the name is self. */
  lemma ParamHidesNameExactly(fields: seq<Field>)
    ensures !HidesNothing(fields) <==>
            || IsStructType(fields, "self") || TextInZero(fields, "self")
            || exists f :: f in fields && HidingField(fields, f)
  {
    LookedUpByText(fields, "self");
    if !HidesNothing(fields) {
      var c :| LookedUp(fields, c) && IsParameter(fields, c.text);
      assert c == Name(c.text, c.after);
      LookedUpByText(fields, c.text);
      if c.text != "self" {
        var f :| f in fields && CtorParamName(fields, f.name) == c.text;
        LongerName(f.name);
        assert HidingField(fields, f);
      }
    }
    if f :| f in fields && HidingField(fields, f) {
      var p := CtorParamName(fields, f.name);
      LookedUpByText(fields, p);
      var after :| LookedUp(fields, Name(p, after));
      HiddenName(fields, Name(p, after));
    }
    if IsStructType(fields, "self") || TextInZero(fields, "self") {
      var after :| LookedUp(fields, Name("self", after));
      HiddenName(fields, Name("self", after));
    }
  }

  lemma TwoFieldsVerified(f: Field, g: Field)
    requires FieldOk(f) && FieldOk(g)
    ensures WellFormed(OneStruct([f, g]))
    ensures f in [f, g] && g in [f, g]
  {
    assert [f, g][0] == f && [f, g][1] == g;
    OneStructVerified([f, g]);
  }

  lemma HiddenName(fields: seq<Field>, c: Name)
    requires LookedUp(fields, c) && IsParameter(fields, c.text)
    ensures !HidesNothing(fields)
  {
  }

  /** An array of one field's name beside it: verified, and the parameter hides whatever of
      that name the array's zero looks up. */
  lemma ZeroNameHidden(c: Name, arr: string, zero: Expr)
    requires c.text != "" && arr != "" && VerifyExpr(zero) && LooksUp(zero, c)
    ensures var fields := [Scalar(c.text, IntLit("0")), Array(arr, zero)];
            WellFormed(OneStruct(fields)) && LookedUp(fields, c) && IsParameter(fields, c.text) && !HidesNothing(fields)
  {
    var f, g := Scalar(c.text, IntLit("0")), Array(arr, zero);
    TwoFieldsVerified(f, g);
    assert InZero([f, g], c);
    assert !IsStructType([f, g], c.text);
    assert CtorParamName([f, g], f.name) == c.text;
    HiddenName([f, g], c);
  }

  function StructArray(name: string, n: int): Expr { ArrayZero(n, StructLit(name, false, []), true) }

  lemma ElementLooksUp(e: Expr, c: Name)
    requires e.ArrayZero? && e.len != 0 && c.text != "_" && LooksUp(e.elem, c)
    ensures LooksUp(e, c)
  {
    assert Written(e)[0] == e.elem;
  }

  /** type T struct { name int; arr [n]name }, verified: the parameter hides the class. */
  lemma ArrayElementHidden(name: string, arr: string, n: nat)
    requires name != "" && name != "_" && arr != "" && n > 0
    ensures var fields := [Scalar(name, IntLit("0")), Array(arr, StructArray(name, n))];
            && WellFormed(OneStruct(fields)) && LookedUp(fields, Name(name, "("))
            && IsParameter(fields, name) && !HidesNothing(fields)
  {
    var lit := StructLit(name, false, []);
    assert VerifyExpr(lit) && LooksUp(lit, Name(name, "("));
    ElementLooksUp(StructArray(name, n), Name(name, "("));
    ZeroNameHidden(Name(name, "("), arr, StructArray(name, n));
  }

  /** A field named int or float beside an array whose element is converted, verified: the
      parameter hides the class the conversion calls. */
  lemma ConversionHidden(to: string, arr: string, n: nat, text: string)
    requires to in {"int", "float"} && arr != "" && n > 0 && text != ""
    ensures var fields := [Scalar(to, IntLit("0")), Array(arr, ArrayZero(n, Convert(to, IntLit(text)), false))];
            && WellFormed(OneStruct(fields)) && LookedUp(fields, Name(to, "("))
            && IsParameter(fields, to) && !HidesNothing(fields)
  {
    var x, zero := Convert(to, IntLit(text)), ArrayZero(n, Convert(to, IntLit(text)), false);
    assert VerifyExpr(x) && LooksUp(x, Name(to, "("));
    ElementLooksUp(zero, Name(to, "("));
    ZeroNameHidden(Name(to, "("), arr, zero);
  }

  /** type T struct { name; next name_ }, verified: the suffixed parameter hides a class. */
  lemma SuffixHides(name: string, next: string)
    requires name != "" && next != ""
    ensures var fields := [Struct(name, name), Struct(next, name + "_")];
            && WellFormed(OneStruct(fields)) && LookedUp(fields, Name(name + "_", "("))
            && IsParameter(fields, name + "_") && !HidesNothing(fields)
  {
    var f, g := Struct(name, name), Struct(next, name + "_");
    TwoFieldsVerified(f, g);
    assert IsStructType([f, g], f.typ) && IsStructType([f, g], g.typ);
    assert CtorParamName([f, g], f.name) == name + "_";
    HiddenName([f, g], Name(name + "_", "("));
  }

  // ----- Parameters that meet -----

  predicate Apart(fields: seq<Field>) {
    forall i, j :: 0 <= i < j < |fields| ==> fields[i].name != fields[j].name
  }

  predicate Clash(fields: seq<Field>, i: nat, j: nat)
    requires i < |fields| && j < |fields|
  {
    CtorParamName(fields, fields[i].name) == CtorParamName(fields, fields[j].name)
  }

  /** Fields of different names share a parameter exactly when one is named after a struct
      type and the other is called the same with an underscore, itself no struct type. */
  lemma ParamsClashExactly(fields: seq<Field>, i: nat, j: nat)
    requires Apart(fields) && i < |fields| && j < |fields| && i != j
    ensures Clash(fields, i, j) <==>
            var a, b := fields[i].name, fields[j].name;
            || (IsStructType(fields, a) && b == a + "_" && !IsStructType(fields, b))
            || (IsStructType(fields, b) && a == b + "_" && !IsStructType(fields, a))
  {
    var a, b := fields[i].name, fields[j].name;
    assert a != b;
    assert (a + "_")[..|a|] == a && (b + "_")[..|b|] == b;
  }

  /** And a field shares the instance's parameter exactly when it is called self, unless a
      struct type of that name has it suffixed. */
  lemma SelfClashExactly(fields: seq<Field>, i: nat)
    requires i < |fields|
    ensures CtorParamName(fields, fields[i].name) == "self" <==>
            fields[i].name == "self" && !IsStructType(fields, "self")
  {
    assert (fields[i].name + "_")[|fields[i].name|] == '_' && ("self")[3] == 'f';
  }

  lemma LongerName(name: string)
    ensures name + "_" != name
  {
    assert |name + "_"| == |name| + 1;
  }

  /** type T struct { name; name_ int }, verified, whose constructor repeats a parameter. */
  lemma ParamsMeet(name: string)
    requires name != ""
    ensures var fields := [Struct(name, name), Scalar(name + "_", IntLit("0"))];
            WellFormed(OneStruct(fields)) && Apart(fields) && Clash(fields, 0, 1)
  {
    var f, g := Struct(name, name), Scalar(name + "_", IntLit("0"));
    LongerName(name);
    TwoFieldsVerified(f, g);
    assert IsStructType([f, g], f.typ) && !IsStructType([f, g], g.name);
    ParamsClashExactly([f, g], 0, 1);
  }
}
