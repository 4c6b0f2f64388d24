/** Reading emitted lines back the way Python does. */
module EmitReading {
  // INDENT and DEDENT tokens by a stack of indentations (section 2.1.8 of the Python
  // Language Reference), then the statement grammar. What is read back is the control tree
  // of the IR.

  import opened Prelude
  import opened EmitText
  import opened EmitLayout

  // ----- Tokens by indentation -----

  datatype Token = Indent | Dedent | T(text: Text)

  /** The tokens of the lines, with the open indentations on the stack; None is an
      inconsistent dedent. */
  function Tokenize(lines: seq<Line>, stack: seq<nat>): Option<seq<Token>>
    requires stack != []
    decreases |lines|, |stack|
  {
    var top := stack[|stack| - 1];
    if lines == [] then
      if |stack| == 1 then Some([]) else Prepend([Dedent], Tokenize(lines, stack[..|stack| - 1]))
    else if lines[0].indent == top then Prepend([T(lines[0].text)], Tokenize(lines[1..], stack))
    else if lines[0].indent > top then
      Prepend([Indent, T(lines[0].text)], Tokenize(lines[1..], stack + [lines[0].indent]))
    else if |stack| > 1 && lines[0].indent in stack[..|stack| - 1] then
      Prepend([Dedent], Tokenize(lines, stack[..|stack| - 1]))
    else None
  }

  function Prepend(ts: seq<Token>, r: Option<seq<Token>>): Option<seq<Token>> {
    if r.Some? then Some(ts + r.value) else None
  }

  // ----- The control tree -----

  datatype Py =
    | Line(s: Words)
    | Def(s: Words, body: seq<Py>)
    | PyIf(s: Words, thn: seq<Py>, els: seq<Py>)
    | While(s: Words, body: seq<Py>)
    | PyFor(s: Words, body: seq<Py>)
    | TryExcept(body: seq<Py>, s: Words, handler: seq<Py>)
    | TryFinally(body: seq<Py>, handler: seq<Py>)

  /** Statements up to the end of the suite; pass is no statement. */
  function ReadBlock(ts: seq<Token>): (r: Option<(seq<Py>, seq<Token>)>)
    ensures r.Some? ==> |r.value.1| <= |ts|
    decreases |ts|, 2
  {
    if ts == [] || ts[0] == Dedent then Some(([], ts))
    else if ts[0] == T(Pass) then ReadBlock(ts[1..])
    else
      match ReadStmt(ts)
      case None => None
      case Some(p) =>
        match ReadBlock(p.1)
        case None => None
        case Some(b) => Some(([p.0] + b.0, b.1))
  }

  /** An indented suite. */
  function ReadSuite(ts: seq<Token>): (r: Option<(seq<Py>, seq<Token>)>)
    ensures r.Some? ==> |r.value.1| < |ts|
    decreases |ts|, 1
  {
    if ts == [] || ts[0] != Indent then None
    else
      match ReadBlock(ts[1..])
      case None => None
      case Some(b) => if b.1 != [] && b.1[0] == Dedent then Some((b.0, b.1[1..])) else None
  }

  /** What follows an if suite: elif is an else holding one if. */
  function ReadElse(ts: seq<Token>): (r: Option<(seq<Py>, seq<Token>)>)
    ensures r.Some? ==> |r.value.1| <= |ts|
    decreases |ts|, 1
  {
    if ts != [] && ts[0].T? && ts[0].text.ElifHead? then
      match ReadSuite(ts[1..])
      case None => None
      case Some(thn) =>
        match ReadElse(thn.1)
        case None => None
        case Some(els) => Some(([PyIf(ts[0].text.s, thn.0, els.0)], els.1))
    else if ts != [] && ts[0] == T(ElseHead) then ReadSuite(ts[1..])
    else Some(([], ts))
  }

  function ReadTry(ts: seq<Token>): (r: Option<(Py, seq<Token>)>)
    ensures r.Some? ==> |r.value.1| < |ts|
    decreases |ts|, 2
  {
    match ReadSuite(ts)
    case None => None
    case Some(b) =>
      if b.1 == [] || !b.1[0].T? then None
      else if b.1[0].text.ExceptHead? then
        match ReadSuite(b.1[1..])
        case None => None
        case Some(h) => Some((TryExcept(b.0, b.1[0].text.s, h.0), h.1))
      else if b.1[0].text.FinallyHead? then
        match ReadSuite(b.1[1..])
        case None => None
        case Some(h) => Some((TryFinally(b.0, h.0), h.1))
      else None
  }

  function ReadStmt(ts: seq<Token>): (r: Option<(Py, seq<Token>)>)
    ensures r.Some? ==> |r.value.1| < |ts|
    decreases |ts|, 1
  {
    if ts == [] || !ts[0].T? then None
    else
      match ts[0].text
      case Plain(s) => Some((Py.Line(s), ts[1..]))
      case DefHead(s) =>
        (match ReadSuite(ts[1..]) case None => None case Some(b) => Some((Def(s, b.0), b.1)))
      case WhileHead(s) =>
        (match ReadSuite(ts[1..]) case None => None case Some(b) => Some((While(s, b.0), b.1)))
      case ForHead(s) =>
        (match ReadSuite(ts[1..]) case None => None case Some(b) => Some((PyFor(s, b.0), b.1)))
      case IfHead(s) =>
        (match ReadSuite(ts[1..])
         case None => None
         case Some(thn) =>
           match ReadElse(thn.1)
           case None => None
           case Some(els) => Some((PyIf(s, thn.0, els.0), els.1)))
      case TryHead => ReadTry(ts[1..])
      case _ => None
  }

  /** A whole file: every line read, nothing left over. */
  function ReadFile(lines: seq<EmitLayout.Line>): Option<seq<Py>> {
    match Tokenize(lines, [0])
    case None => None
    case Some(ts) =>
      match ReadBlock(ts)
      case None => None
      case Some(b) => if b.1 == [] then Some(b.0) else None
  }

  // ----- The control tree of the IR -----

  function TreeOfBlock(body: seq<Stmt>): seq<Py>
    decreases body, 1
  {
    if body == [] then [] else TreeOf(body[0]) + TreeOfBlock(body[1..])
  }

  function StepTree(s: Stmt): seq<Py>
    requires s.RangeString?
  {
    [Py.Line(DecodeText(s))] + if s.key != "" then [Py.Line(KeyText(s))] else []
  }

  function FallOffTree(body: seq<Stmt>, results: seq<string>): seq<Py> {
    if EndsTerminated(body) then [] else [Py.Line(RUN_DEFERS), Py.Line(ResultReturn(results))]
  }

  function HandlerTree(results: seq<string>): seq<Py> {
    [Py.Line(RUN_DEFERS), PyIf(UNRECOVERED, [Py.Line(RAISE)], []), Py.Line(ResultReturn(results))]
  }

  function TreeOf(s: Stmt): seq<Py>
    decreases s, 0
  {
    match s
    case DeferReturn(results) => [Py.Line(RUN_DEFERS), Py.Line(ResultReturn(results))]
    case FuncDef(_, _, _, nonlocals, body) =>
      [Def(DefText(s),
           (if nonlocals != [] then [Py.Line(NonlocalText(nonlocals))] else []) + TreeOfBlock(body))]
    case If(cond, thn, els) => [PyIf(cond, TreeOfBlock(thn), TreeOfBlock(els))]
    case For(cond, body, _) => [While(WhileText(cond), TreeOfBlock(body))]
    case ForRange(_, _, _, _, body) =>
      [PyFor(RangeText(s), TreeOfBlock(body))]
    case RangeMap(_, _, _, body) => [PyFor(RangeMapText(s), TreeOfBlock(body))]
    case RangeString(_, _, _, _, _, body, _) =>
      [Py.Line(CursorText(s)),
       While(CursorTest(s),
             StepTree(s) + TreeOfBlock(body) + [Py.Line(AdvanceText(s))])]
    case DeferBlock(body, reshape, results) =>
      if reshape then
        [Py.Line(NO_DEFERS),
         TryExcept(TreeOfBlock(body) + FallOffTree(body, results), CATCH, HandlerTree(results))]
      else
        [Py.Line(NO_DEFERS),
         TryFinally(TreeOfBlock(body), [PyFor(EACH_DEFER, [Py.Line(CALL_DEFER)])])]
    case NilStmt => []
    case LabeledBreak(_) => []
    case LabeledContinue(_) => []
    case _ => [Py.Line(PlainText(s))]
  }
}
