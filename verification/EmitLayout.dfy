/** The block structure the emitter writes. */
module EmitLayout {
  // IR statements to indented lines. Expressions are already text here; a line is its
  // indentation and what stands on it.

  import opened Prelude
  import IR
  import opened EmitText

  /** A statement whose expressions have been rendered. */
  type Stmt = IR.Stmt<Words>

  // ----- Lines -----

  /** What stands on a line after its indentation. */
  datatype Text =
    | Plain(s: Words)
    | Pass
    | ClassHead(s: Words)
    | DefHead(s: Words)
    | IfHead(s: Words)
    | ElifHead(s: Words)
    | ElseHead
    | WhileHead(s: Words)
    | ForHead(s: Words)
    | TryHead
    | ExceptHead(s: Words)
    | FinallyHead

  datatype Line = Line(indent: nat, text: Text)

  function At(depth: nat, text: Text): Line { Line(4 * depth, text) }

  function ResultReturn(results: seq<string>): Words {
    if |results| == 0 then Str("return")
    else if |results| == 1 then Str("return " + results[0])
    else Str("return (") + Join(Names(results)) + Str(")")
  }

  /** The text of a statement that is one plain line. */
  function PlainText(s: Stmt): Words
    requires IsPlain(s)
  {
    match s
    case ExprStmt(x) => x
    case Return(value) => if value.Some? then Str("return ") + value.value else Str("return")
    case Assign(name, value) => Str(name + " = ") + value
    case TupleAssign(names, value) => Join(Names(names)) + Str(" = ") + value
    case SetField(obj, name, value) => obj + Str("." + name + " = ") + value
    case SetIndex(obj, index, value) => obj + Str("[") + index + Str("] = ") + value
    case DerefSet(ptr, value) => ptr + Str(".set(") + value + Str(")")
    case Panic(value) => Str("raise ") + Runtime("GoPanic(") + value + Str(")")
    case DeferPush(fn, args) =>
      Str("_defers.append((") + fn + Str(", (") + Join(args) + Str(if |args| == 1 then "," else "") + Str(")))")
    case Break => Str("break")
    case Continue => Str("continue")
  }

  predicate IsPlain(s: Stmt) {
    s.ExprStmt? || s.Return? || s.Assign? || s.TupleAssign? || s.SetField? || s.SetIndex? || s.DerefSet?
    || s.Panic? || s.DeferPush? || s.Break? || s.Continue?
  }

  const RUN_DEFERS: Words := Runtime("_run_defers(_defers)")
  const NO_DEFERS: Words := Str("_defers = []")
  const CATCH: Words := Runtime("GoPanic as _p")
  const UNRECOVERED: Words := Str("not _p.recovered")
  const RAISE: Words := Str("raise")
  const EACH_DEFER: Words := Str("_fn, _args in reversed(_defers)")
  const CALL_DEFER: Words := Str("_fn(*_args)")

  function DefText(s: Stmt): Words
    requires s.FuncDef?
  {
    Str(s.name + "(") + SignatureText(s.params, s.captures) + Str(")")
  }

  function NonlocalText(names: seq<string>): Words { Str("nonlocal ") + Join(Names(names)) }

  function WhileText(cond: Option<Words>): Words { if cond.Some? then cond.value else Str("True") }

  function RangeArgs(start: Option<Words>, stop: Words, step: Option<Words>): Words {
    if start.None? && step.None? then stop
    else
      (if start.Some? then start.value else Str("0")) + Str(", ") + stop
      + (if step.Some? then Str(", ") + step.value else [])
  }

  function RangeText(s: Stmt): Words
    requires s.ForRange?
  {
    Str(OrBlank(s.variable) + " in range(") + RangeArgs(s.start, s.stop, s.step) + Str(")")
  }

  function RangeMapText(s: Stmt): Words
    requires s.RangeMap?
  {
    if s.item != "" then Str(OrBlank(s.key) + ", " + s.item + " in ") + Runtime("_map_items(") + s.source + Str(")")
    else Str(OrBlank(s.key) + " in ") + Runtime("_map_keys(") + s.source + Str(")")
  }

  function CursorText(s: Stmt): Words
    requires s.RangeString?
  {
    Str(s.cursor + " = 0")
  }

  function CursorTest(s: Stmt): Words
    requires s.RangeString?
  {
    Str(s.cursor + " < len(") + s.source + Str(")")
  }

  function DecodeText(s: Stmt): Words
    requires s.RangeString?
  {
    Str(OrBlank(s.rune) + ", " + s.width + " = ") + Runtime("_decode_rune(") + s.source + Str(", " + s.cursor + ")")
  }

  function KeyText(s: Stmt): Words
    requires s.RangeString?
  {
    Str(s.key + " = " + s.cursor)
  }

  function AdvanceText(s: Stmt): Words
    requires s.RangeString?
  {
    Str(s.cursor + " = " + s.cursor + " + " + s.width)
  }

  predicate EndsTerminated(body: seq<Stmt>) {
    body != [] && (body[|body| - 1].DeferReturn? || body[|body| - 1].Panic?)
  }

  /** A range over a string decodes the next rune and names its index. */
  function StepLines(s: Stmt, depth: nat): seq<Line>
    requires s.RangeString?
  {
    [At(depth, Plain(DecodeText(s)))] + if s.key != "" then [At(depth, Plain(KeyText(s)))] else []
  }

  /** The drain and return for a reshaped body that can fall off its end. */
  function FallOffLines(body: seq<Stmt>, results: seq<string>, depth: nat): seq<Line> {
    if EndsTerminated(body) then [] else [At(depth, Plain(RUN_DEFERS)), At(depth, Plain(ResultReturn(results)))]
  }

  /** The except part of a reshaped block. */
  function HandlerLines(results: seq<string>, depth: nat): seq<Line> {
    [At(depth, ExceptHead(CATCH)), At(depth + 1, Plain(RUN_DEFERS)),
     At(depth + 1, IfHead(UNRECOVERED)), At(depth + 2, Plain(RAISE)),
     At(depth + 1, Plain(ResultReturn(results)))]
  }

  /** The suite of a block; an empty one is a single pass. */
  function BlockLines(body: seq<Stmt>, depth: nat): seq<Line>
    decreases body, 2
  {
    if body == [] then [At(depth, Pass)] else StmtsLines(body, depth)
  }

  function StmtsLines(body: seq<Stmt>, depth: nat): seq<Line>
    decreases body, 1
  {
    if body == [] then [] else StmtLines(body[0], depth) + StmtsLines(body[1..], depth)
  }

  function ElseLines(els: seq<Stmt>, depth: nat): seq<Line>
    decreases els, 3
  {
    if els == [] then []
    else if |els| == 1 && els[0].If? then
      [At(depth, ElifHead(els[0].cond))] + BlockLines(els[0].thn, depth + 1) + ElseLines(els[0].els, depth)
    else [At(depth, ElseHead)] + BlockLines(els, depth + 1)
  }

  function StmtLines(s: Stmt, depth: nat): seq<Line>
    decreases s, 0
  {
    match s
    case DeferReturn(results) => [At(depth, Plain(RUN_DEFERS)), At(depth, Plain(ResultReturn(results)))]
    case FuncDef(_, _, _, nonlocals, body) =>
      [At(depth, DefHead(DefText(s)))]
      + (if nonlocals != [] then [At(depth + 1, Plain(NonlocalText(nonlocals)))] else [])
      + BlockLines(body, depth + 1)
    case If(cond, thn, els) =>
      [At(depth, IfHead(cond))] + BlockLines(thn, depth + 1) + ElseLines(els, depth)
    case For(cond, body, _) =>
      [At(depth, WhileHead(WhileText(cond)))] + BlockLines(body, depth + 1)
    case ForRange(_, _, _, _, body) =>
      [At(depth, ForHead(RangeText(s)))]
      + BlockLines(body, depth + 1)
    case RangeMap(_, _, _, body) =>
      [At(depth, ForHead(RangeMapText(s)))] + BlockLines(body, depth + 1)
    case RangeString(_, _, _, _, _, body, _) =>
      [At(depth, Plain(CursorText(s))), At(depth, WhileHead(CursorTest(s)))]
      + (StepLines(s, depth + 1) + StmtsLines(body, depth + 1)
         + [At(depth + 1, Plain(AdvanceText(s)))])
    case DeferBlock(body, reshape, results) =>
      if reshape then
        [At(depth, Plain(NO_DEFERS)), At(depth, TryHead)]
        + (BlockLines(body, depth + 1) + FallOffLines(body, results, depth + 1))
        + HandlerLines(results, depth)
      else
        [At(depth, Plain(NO_DEFERS)), At(depth, TryHead)]
        + BlockLines(body, depth + 1)
        + [At(depth, FinallyHead), At(depth + 1, ForHead(EACH_DEFER)),
           At(depth + 2, Plain(CALL_DEFER))]
    case NilStmt => []
    case LabeledBreak(_) => []
    case LabeledContinue(_) => []
    case _ => [At(depth, Plain(PlainText(s)))]
  }

  /** A labeled jump that reaches the emitter is an error. */
  predicate Refused(s: Stmt) {
    match s
    case NilStmt => true
    case LabeledBreak(_) => true
    case LabeledContinue(_) => true
    case FuncDef(_, _, _, _, body) => AnyRefused(body)
    case If(_, thn, els) => AnyRefused(thn) || AnyRefused(els)
    case For(_, body, _) => AnyRefused(body)
    case ForRange(_, _, _, _, body) => AnyRefused(body)
    case RangeMap(_, _, _, body) => AnyRefused(body)
    case RangeString(_, _, _, _, _, body, _) => AnyRefused(body)
    case DeferBlock(body, _, _) => AnyRefused(body)
    case _ => false
  }

  predicate AnyRefused(body: seq<Stmt>) {
    body != [] && (Refused(body[0]) || AnyRefused(body[1..]))
  }

  lemma ElifLines(els: seq<Stmt>, depth: nat)
    requires |els| == 1 && els[0].If?
    ensures AnyRefused(els) <==> AnyRefused(els[0].thn) || AnyRefused(els[0].els)
    ensures ElseLines(els, depth) ==
            ([At(depth, ElifHead(els[0].cond))] + BlockLines(els[0].thn, depth + 1)) + ElseLines(els[0].els, depth)
  {
    assert AnyRefused(els) <==> Refused(els[0]);
  }

  lemma RangeStringLines(s: Stmt, depth: nat)
    requires s.RangeString?
    ensures Refused(s) <==> AnyRefused(s.body)
    ensures StmtLines(s, depth) ==
            [At(depth, Plain(CursorText(s))), At(depth, WhileHead(CursorTest(s)))]
            + (StepLines(s, depth + 1) + StmtsLines(s.body, depth + 1) + [At(depth + 1, Plain(AdvanceText(s)))])
  {
  }

  /** The lines and the refusals of a suite, from its i-th statement on. */
  lemma FromStmt(body: seq<Stmt>, i: nat, depth: nat)
    requires i < |body|
    ensures StmtsLines(body[i..], depth) == StmtLines(body[i], depth) + StmtsLines(body[i + 1..], depth)
    ensures AnyRefused(body[i..]) <==> Refused(body[i]) || AnyRefused(body[i + 1..])
  {
    assert body[i..][1..] == body[i + 1..];
  }

  // ----- The emitter, appending to a builder -----

  class Builder {
    var lines: seq<Line>

    constructor ()
      ensures lines == []
    {
      lines := [];
    }

    method Write(depth: nat, text: Text)
      modifies this
      ensures lines == old(lines) + [At(depth, text)]
    {
      lines := lines + [At(depth, text)];
    }

    /** Emit every statement in turn; stops at the first error. */
    method EmitStmts(body: seq<Stmt>, depth: nat) returns (ok: bool)
      modifies this
      ensures ok <==> !AnyRefused(body)
      ensures ok ==> lines == old(lines) + StmtsLines(body, depth)
      decreases body, 1
    {
      for i := 0 to |body|
        invariant AnyRefused(body) <==> AnyRefused(body[i..])
        invariant old(lines) + StmtsLines(body, depth) == lines + StmtsLines(body[i..], depth)
      {
        FromStmt(body, i, depth);
        ok := EmitStmt(body[i], depth);
        if !ok {
          return;
        }
      }
      return true;
    }

    method EmitBlock(body: seq<Stmt>, depth: nat) returns (ok: bool)
      modifies this
      ensures ok <==> !AnyRefused(body)
      ensures ok ==> lines == old(lines) + BlockLines(body, depth)
      decreases body, 2
    {
      if body == [] {
        Write(depth, Pass);
        return true;
      }
      ok := EmitStmts(body, depth);
    }

    method EmitElse(els: seq<Stmt>, depth: nat) returns (ok: bool)
      modifies this
      ensures ok <==> !AnyRefused(els)
      ensures ok ==> lines == old(lines) + ElseLines(els, depth)
      decreases els, 4
    {
      if els == [] {
        return true;
      }
      if |els| == 1 && els[0].If? {
        ElifLines(els, depth);
        ok := EmitSuite(ElifHead(els[0].cond), els[0].thn, depth);
        if !ok {
          return;
        }
        ok := EmitElse(els[0].els, depth);
      } else {
        ok := EmitSuite(ElseHead, els, depth);
      }
    }

    /** A header line and the suite below it. */
    method EmitSuite(head: Text, body: seq<Stmt>, depth: nat) returns (ok: bool)
      modifies this
      ensures ok <==> !AnyRefused(body)
      ensures ok ==> lines == old(lines) + ([At(depth, head)] + BlockLines(body, depth + 1))
      decreases body, 3
    {
      Write(depth, head);
      ok := EmitBlock(body, depth + 1);
    }

    method EmitFuncDef(s: Stmt, depth: nat) returns (ok: bool)
      requires s.FuncDef?
      modifies this
      ensures ok <==> !Refused(s)
      ensures ok ==> lines == old(lines) + StmtLines(s, depth)
      decreases s.body, 4
    {
      Write(depth, DefHead(DefText(s)));
      if s.nonlocals != [] {
        Write(depth + 1, Plain(NonlocalText(s.nonlocals)));
      }
      ok := EmitBlock(s.body, depth + 1);
    }

    method EmitRangeString(s: Stmt, depth: nat) returns (ok: bool)
      requires s.RangeString?
      modifies this
      ensures ok <==> !Refused(s)
      ensures ok ==> lines == old(lines) + StmtLines(s, depth)
      decreases s.body, 4
    {
      RangeStringLines(s, depth);
      Write(depth, Plain(CursorText(s)));
      Write(depth, WhileHead(CursorTest(s)));
      ghost var head := lines;
      assert head == old(lines) + [At(depth, Plain(CursorText(s))), At(depth, WhileHead(CursorTest(s)))];
      ok := EmitStep(s, depth + 1);
    }

    /** The suite of a range over a string. */
    method EmitStep(s: Stmt, depth: nat) returns (ok: bool)
      requires s.RangeString?
      modifies this
      ensures ok <==> !AnyRefused(s.body)
      ensures ok ==> lines == old(lines) + (StepLines(s, depth) + StmtsLines(s.body, depth)
                                            + [At(depth, Plain(AdvanceText(s)))])
      decreases s.body, 3
    {
      Write(depth, Plain(DecodeText(s)));
      if s.key != "" {
        Write(depth, Plain(KeyText(s)));
      }
      ok := EmitStmts(s.body, depth);
      if ok {
        Write(depth, Plain(AdvanceText(s)));
      }
    }

    method EmitDeferReshape(s: Stmt, depth: nat) returns (ok: bool)
      requires s.DeferBlock? && s.reshape
      modifies this
      ensures ok <==> !Refused(s)
      ensures ok ==> lines == old(lines) + StmtLines(s, depth)
      decreases s.body, 4
    {
      Write(depth, Plain(NO_DEFERS));
      Write(depth, TryHead);
      ghost var head := lines;
      ok := EmitBlock(s.body, depth + 1);
      if !ok {
        return;
      }
      EmitFallOff(s.body, s.results, depth + 1);
      EmitHandler(s.results, depth);
      assert lines == head + (BlockLines(s.body, depth + 1) + FallOffLines(s.body, s.results, depth + 1))
                      + HandlerLines(s.results, depth);
    }

    method EmitFallOff(body: seq<Stmt>, results: seq<string>, depth: nat)
      modifies this
      ensures lines == old(lines) + FallOffLines(body, results, depth)
    {
      if !EndsTerminated(body) {
        Write(depth, Plain(RUN_DEFERS));
        Write(depth, Plain(ResultReturn(results)));
      }
    }

    method EmitHandler(results: seq<string>, depth: nat)
      modifies this
      ensures lines == old(lines) + HandlerLines(results, depth)
    {
      Write(depth, ExceptHead(CATCH));
      Write(depth + 1, Plain(RUN_DEFERS));
      Write(depth + 1, IfHead(UNRECOVERED));
      Write(depth + 2, Plain(RAISE));
      Write(depth + 1, Plain(ResultReturn(results)));
    }

    method EmitDeferPlain(s: Stmt, depth: nat) returns (ok: bool)
      requires s.DeferBlock? && !s.reshape
      modifies this
      ensures ok <==> !Refused(s)
      ensures ok ==> lines == old(lines) + StmtLines(s, depth)
      decreases s.body, 4
    {
      Write(depth, Plain(NO_DEFERS));
      Write(depth, TryHead);
      ok := EmitBlock(s.body, depth + 1);
      if !ok {
        return;
      }
      Write(depth, FinallyHead);
      Write(depth + 1, ForHead(EACH_DEFER));
      Write(depth + 2, Plain(CALL_DEFER));
    }

    method EmitDeferReturn(results: seq<string>, depth: nat)
      modifies this
      ensures lines == old(lines) + [At(depth, Plain(RUN_DEFERS)), At(depth, Plain(ResultReturn(results)))]
    {
      Write(depth, Plain(RUN_DEFERS));
      Write(depth, Plain(ResultReturn(results)));
    }

    method EmitIf(s: Stmt, depth: nat) returns (ok: bool)
      requires s.If?
      modifies this
      ensures ok <==> !Refused(s)
      ensures ok ==> lines == old(lines) + StmtLines(s, depth)
      decreases s, 0
    {
      ok := EmitSuite(IfHead(s.cond), s.thn, depth);
      if ok {
        ok := EmitElse(s.els, depth);
      }
    }

    method EmitStmt(s: Stmt, depth: nat) returns (ok: bool)
      modifies this
      ensures ok <==> !Refused(s)
      ensures ok ==> lines == old(lines) + StmtLines(s, depth)
      decreases s, 1
    {
      match s {
        case FuncDef(_, _, _, _, _) => ok := EmitFuncDef(s, depth);
        case DeferBlock(_, reshape, _) =>
          if reshape { ok := EmitDeferReshape(s, depth); } else { ok := EmitDeferPlain(s, depth); }
        case DeferReturn(results) =>
          EmitDeferReturn(results, depth);
          ok := true;
        case If(_, _, _) =>
          ok := EmitIf(s, depth);
        case For(cond, body, _) =>
          ok := EmitSuite(WhileHead(WhileText(cond)), body, depth);
        case ForRange(_, _, _, _, body) =>
          ok := EmitSuite(ForHead(RangeText(s)), body, depth);
        case RangeMap(_, _, _, body) =>
          ok := EmitSuite(ForHead(RangeMapText(s)), body, depth);
        case RangeString(_, _, _, _, _, _, _) => ok := EmitRangeString(s, depth);
        case NilStmt => ok := false;
        case LabeledBreak(_) => ok := false;
        case LabeledContinue(_) => ok := false;
        case _ =>
          Write(depth, Plain(PlainText(s)));
          ok := true;
      }
    }
  }
}
