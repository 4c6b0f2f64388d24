/** Emitted lines read back as the control tree of the IR, for every block. */
module EmitRoundTrip {
  import opened Prelude
  import opened EmitText
  import opened EmitLayout
  import opened EmitReading

  // ----- The tokens between lines and tree -----

  function Suite(head: Text, content: seq<Token>): seq<Token> {
    [T(head)] + ([Indent] + content + [Dedent])
  }

  function BlockTokens(body: seq<Stmt>): seq<Token>
    decreases body, 2
  {
    if body == [] then [T(Pass)] else StmtsTokens(body)
  }

  function StmtsTokens(body: seq<Stmt>): seq<Token>
    decreases body, 1
  {
    if body == [] then [] else StmtTokens(body[0]) + StmtsTokens(body[1..])
  }

  function ElseTokens(els: seq<Stmt>): seq<Token>
    decreases els, 3
  {
    if els == [] then []
    else if |els| == 1 && els[0].If? then
      Suite(ElifHead(els[0].cond), BlockTokens(els[0].thn)) + ElseTokens(els[0].els)
    else Suite(ElseHead, BlockTokens(els))
  }

  function StepTokens(s: Stmt): seq<Token>
    requires s.RangeString?
  {
    [T(Plain(DecodeText(s)))] + if s.key != "" then [T(Plain(KeyText(s)))] else []
  }

  function FallOffTokens(body: seq<Stmt>, results: seq<string>): seq<Token> {
    if EndsTerminated(body) then [] else [T(Plain(RUN_DEFERS))] + [T(Plain(ResultReturn(results)))]
  }

  function HandlerTokens(results: seq<string>): seq<Token> {
    Suite(ExceptHead(CATCH),
          [T(Plain(RUN_DEFERS))]
          + (Suite(IfHead(UNRECOVERED), [T(Plain(RAISE))]) + [T(Plain(ResultReturn(results)))]))
  }

  function StmtTokens(s: Stmt): seq<Token>
    decreases s, 0
  {
    match s
    case DeferReturn(results) => [T(Plain(RUN_DEFERS))] + [T(Plain(ResultReturn(results)))]
    case FuncDef(_, _, _, nonlocals, body) =>
      Suite(DefHead(DefText(s)),
            (if nonlocals != [] then [T(Plain(NonlocalText(nonlocals)))] else []) + BlockTokens(body))
    case If(cond, thn, els) => Suite(IfHead(cond), BlockTokens(thn)) + ElseTokens(els)
    case For(cond, body, _) => Suite(WhileHead(WhileText(cond)), BlockTokens(body))
    case ForRange(_, _, _, _, body) =>
      Suite(ForHead(RangeText(s)), BlockTokens(body))
    case RangeMap(_, _, _, body) => Suite(ForHead(RangeMapText(s)), BlockTokens(body))
    case RangeString(_, _, _, _, _, body, _) =>
      [T(Plain(CursorText(s)))]
      + Suite(WhileHead(CursorTest(s)),
              StepTokens(s) + StmtsTokens(body) + [T(Plain(AdvanceText(s)))])
    case DeferBlock(body, reshape, results) =>
      [T(Plain(NO_DEFERS))]
      + (if reshape then
           Suite(TryHead, BlockTokens(body) + FallOffTokens(body, results)) + HandlerTokens(results)
         else
           Suite(TryHead, BlockTokens(body))
           + Suite(FinallyHead, Suite(ForHead(EACH_DEFER), [T(Plain(CALL_DEFER))])))
    case NilStmt => []
    case LabeledBreak(_) => []
    case LabeledContinue(_) => []
    case _ => [T(Plain(PlainText(s)))]
  }

  // ----- Lines to tokens -----

  /** An indentation stack whose top is the given depth. */
  ghost predicate StackAt(stack: seq<nat>, depth: nat) {
    && stack != [] && stack[|stack| - 1] == 4 * depth
    && forall i, j :: 0 <= i < j < |stack| ==> stack[i] < stack[j]
  }

  /** Lines that can follow a block: they go on at a level that is still open. */
  ghost predicate Fits(rest: seq<EmitLayout.Line>, stack: seq<nat>) {
    rest == [] || rest[0].indent in stack
  }

  /** Before the given rest these lines are read as these tokens. */
  ghost predicate TokensBefore(lines: seq<EmitLayout.Line>, ts: seq<Token>, depth: nat,
                               rest: seq<EmitLayout.Line>, stack: seq<nat>) {
    StackAt(stack, depth) && Fits(rest, stack) ==>
      Tokenize(lines + rest, stack) == Prepend(ts, Tokenize(rest, stack))
  }

  /** Wherever these lines stand at this depth, they are read as these tokens. */
  ghost predicate Tokens(lines: seq<EmitLayout.Line>, ts: seq<Token>, depth: nat) {
    forall rest: seq<EmitLayout.Line>, stack: seq<nat> :: TokensBefore(lines, ts, depth, rest, stack)
  }

  /** The lines begin at the depth. */
  predicate Begins(lines: seq<EmitLayout.Line>, depth: nat) {
    lines != [] && lines[0].indent == 4 * depth
  }

  lemma PrependTwice(a: seq<Token>, b: seq<Token>, r: Option<seq<Token>>)
    ensures Prepend(a, Prepend(b, r)) == Prepend(a + b, r)
  {
    if r.Some? { assert a + (b + r.value) == a + b + r.value; }
  }

  lemma TokensNone(depth: nat)
    ensures Tokens([], [], depth)
  {
    forall rest: seq<EmitLayout.Line>, stack: seq<nat> | StackAt(stack, depth) && Fits(rest, stack)
      ensures TokensBefore([], [], depth, rest, stack)
    {
      assert [] + rest == rest;
      var r := Tokenize(rest, stack);
      if r.Some? { assert [] + r.value == r.value; }
    }
  }

  lemma TokensLine(depth: nat, text: Text)
    ensures Tokens([At(depth, text)], [T(text)], depth)
  {
    forall rest: seq<EmitLayout.Line>, stack: seq<nat> | StackAt(stack, depth) && Fits(rest, stack)
      ensures TokensBefore([At(depth, text)], [T(text)], depth, rest, stack)
    {
      assert ([At(depth, text)] + rest)[1..] == rest;
    }
  }

  lemma TokensConcat(a: seq<EmitLayout.Line>, ta: seq<Token>, b: seq<EmitLayout.Line>, tb: seq<Token>, depth: nat)
    requires Tokens(a, ta, depth) && Tokens(b, tb, depth) && (b == [] || Begins(b, depth))
    ensures Tokens(a + b, ta + tb, depth)
  {
    forall rest: seq<EmitLayout.Line>, stack: seq<nat> | StackAt(stack, depth) && Fits(rest, stack)
      ensures TokensBefore(a + b, ta + tb, depth, rest, stack)
    {
      assert a + b + rest == a + (b + rest);
      assert Fits(b + rest, stack) by {
        if b == [] { assert b + rest == rest; } else { assert (b + rest)[0] == b[0]; }
      }
      assert TokensBefore(a, ta, depth, b + rest, stack) && TokensBefore(b, tb, depth, rest, stack);
      PrependTwice(ta, tb, Tokenize(rest, stack));
    }
  }

  lemma DedentBefore(rest: seq<EmitLayout.Line>, stack: seq<nat>, depth: nat)
    requires StackAt(stack, depth) && Fits(rest, stack)
    ensures Tokenize(rest, stack + [4 * (depth + 1)]) == Prepend([Dedent], Tokenize(rest, stack))
  {
    var deeper := stack + [4 * (depth + 1)];
    assert deeper[..|deeper| - 1] == stack;
  }

  lemma IndentBefore(lines: seq<EmitLayout.Line>, rest: seq<EmitLayout.Line>, stack: seq<nat>, depth: nat)
    requires StackAt(stack, depth) && Begins(lines, depth + 1)
    ensures Tokenize(lines + rest, stack) == Prepend([Indent], Tokenize(lines + rest, stack + [4 * (depth + 1)]))
  {
    var deeper := stack + [4 * (depth + 1)];
    var all := lines + rest;
    assert all[0] == lines[0];
    PrependTwice([Indent], [T(all[0].text)], Tokenize(all[1..], deeper));
    assert [Indent] + [T(all[0].text)] == [Indent, T(all[0].text)];
  }

  lemma TokensSuite(head: Text, lines: seq<EmitLayout.Line>, ts: seq<Token>, depth: nat)
    requires Tokens(lines, ts, depth + 1) && Begins(lines, depth + 1)
    ensures Tokens([At(depth, head)] + lines, Suite(head, ts), depth)
  {
    forall rest: seq<EmitLayout.Line>, stack: seq<nat> | StackAt(stack, depth) && Fits(rest, stack)
      ensures TokensBefore([At(depth, head)] + lines, Suite(head, ts), depth, rest, stack)
    {
      var deeper := stack + [4 * (depth + 1)];
      assert StackAt(deeper, depth + 1) && Fits(rest, deeper);
      var r := Tokenize(rest, stack);
      IndentBefore(lines, rest, stack, depth);
      assert TokensBefore(lines, ts, depth + 1, rest, deeper);
      DedentBefore(rest, stack, depth);
      PrependTwice(ts, [Dedent], r);
      PrependTwice([Indent], ts + [Dedent], r);
      assert [Indent] + (ts + [Dedent]) == [Indent] + ts + [Dedent];
      var all := [At(depth, head)] + lines + rest;
      assert all[1..] == lines + rest && all[0] == At(depth, head);
      PrependTwice([T(head)], [Indent] + ts + [Dedent], r);
    }
  }

  // ----- Every statement's lines are read as its tokens -----

  lemma {:induction false} StmtBegins(s: Stmt, depth: nat)
    requires !Refused(s)
    ensures Begins(StmtLines(s, depth), depth)
  {
  }

  lemma StmtsBegin(body: seq<Stmt>, depth: nat)
    requires !AnyRefused(body) && body != []
    ensures Begins(StmtsLines(body, depth), depth)
  {
    StmtBegins(body[0], depth);
  }

  lemma {:induction false} StmtsTokenized(body: seq<Stmt>, depth: nat)
    requires !AnyRefused(body)
    ensures Tokens(StmtsLines(body, depth), StmtsTokens(body), depth)
    decreases body, 1
  {
    if body == [] {
      TokensNone(depth);
    } else {
      StmtTokenized(body[0], depth);
      StmtsTokenized(body[1..], depth);
      if body[1..] != [] { StmtsBegin(body[1..], depth); }
      TokensConcat(StmtLines(body[0], depth), StmtTokens(body[0]),
                   StmtsLines(body[1..], depth), StmtsTokens(body[1..]), depth);
    }
  }

  lemma {:induction false} BlockTokenized(body: seq<Stmt>, depth: nat)
    requires !AnyRefused(body)
    ensures Tokens(BlockLines(body, depth), BlockTokens(body), depth) && Begins(BlockLines(body, depth), depth)
    decreases body, 2
  {
    if body == [] {
      TokensLine(depth, Pass);
    } else {
      StmtsTokenized(body, depth);
      StmtsBegin(body, depth);
    }
  }

  lemma {:induction false} SuiteTokenized(head: Text, body: seq<Stmt>, depth: nat)
    requires !AnyRefused(body)
    ensures Tokens([At(depth, head)] + BlockLines(body, depth + 1), Suite(head, BlockTokens(body)), depth)
    decreases body, 3
  {
    BlockTokenized(body, depth + 1);
    TokensSuite(head, BlockLines(body, depth + 1), BlockTokens(body), depth);
  }

  lemma {:induction false} ElseTokenized(els: seq<Stmt>, depth: nat)
    requires !AnyRefused(els)
    ensures Tokens(ElseLines(els, depth), ElseTokens(els), depth)
    ensures ElseLines(els, depth) == [] || Begins(ElseLines(els, depth), depth)
    decreases els, 4
  {
    if els == [] {
      TokensNone(depth);
    } else if |els| == 1 && els[0].If? {
      assert !Refused(els[0]);
      SuiteTokenized(ElifHead(els[0].cond), els[0].thn, depth);
      ElseTokenized(els[0].els, depth);
      TokensConcat([At(depth, ElifHead(els[0].cond))] + BlockLines(els[0].thn, depth + 1),
                   Suite(ElifHead(els[0].cond), BlockTokens(els[0].thn)),
                   ElseLines(els[0].els, depth), ElseTokens(els[0].els), depth);
    } else {
      SuiteTokenized(ElseHead, els, depth);
    }
  }

  lemma TokensTwoLines(depth: nat, a: Text, b: Text)
    ensures Tokens([At(depth, a), At(depth, b)], [T(a)] + [T(b)], depth)
  {
    TokensLine(depth, a);
    TokensLine(depth, b);
    TokensConcat([At(depth, a)], [T(a)], [At(depth, b)], [T(b)], depth);
    assert [At(depth, a)] + [At(depth, b)] == [At(depth, a), At(depth, b)];
  }

  lemma HandlerTokenized(results: seq<string>, depth: nat)
    ensures Tokens(HandlerLines(results, depth), HandlerTokens(results), depth)
    ensures Begins(HandlerLines(results, depth), depth)
  {
    var d := depth + 1;
    var run, ret, unless := Plain(RUN_DEFERS), Plain(ResultReturn(results)), IfHead(UNRECOVERED);
    TokensLine(d + 1, Plain(RAISE));
    TokensSuite(unless, [At(d + 1, Plain(RAISE))], [T(Plain(RAISE))], d);
    TokensLine(d, ret);
    var check := [At(d, unless)] + [At(d + 1, Plain(RAISE))];
    TokensConcat(check, Suite(unless, [T(Plain(RAISE))]), [At(d, ret)], [T(ret)], d);
    TokensLine(d, run);
    TokensConcat([At(d, run)], [T(run)], check + [At(d, ret)], Suite(unless, [T(Plain(RAISE))]) + [T(ret)], d);
    var suite := [At(d, run)] + (check + [At(d, ret)]);
    var head := ExceptHead(CATCH);
    TokensSuite(head, suite, [T(run)] + (Suite(unless, [T(Plain(RAISE))]) + [T(ret)]), depth);
    assert HandlerLines(results, depth) == [At(depth, head)] + suite;
  }

  lemma FallOffTokenized(body: seq<Stmt>, results: seq<string>, depth: nat)
    ensures Tokens(FallOffLines(body, results, depth), FallOffTokens(body, results), depth)
    ensures FallOffLines(body, results, depth) == [] || Begins(FallOffLines(body, results, depth), depth)
  {
    TokensNone(depth);
    TokensTwoLines(depth, Plain(RUN_DEFERS), Plain(ResultReturn(results)));
  }

  lemma {:induction false} ReshapeTokenized(s: Stmt, depth: nat)
    requires s.DeferBlock? && s.reshape && !AnyRefused(s.body)
    ensures Tokens(StmtLines(s, depth), StmtTokens(s), depth)
    decreases s.body, 5
  {
    var d := depth + 1;
    var lines := BlockLines(s.body, d) + FallOffLines(s.body, s.results, d);
    var ts := BlockTokens(s.body) + FallOffTokens(s.body, s.results);
    BlockTokenized(s.body, d);
    FallOffTokenized(s.body, s.results, d);
    TokensConcat(BlockLines(s.body, d), BlockTokens(s.body),
                 FallOffLines(s.body, s.results, d), FallOffTokens(s.body, s.results), d);
    assert Begins(lines, d) by { assert lines[0] == BlockLines(s.body, d)[0]; }
    TokensSuite(TryHead, lines, ts, depth);
    HandlerTokenized(s.results, depth);
    var try := [At(depth, TryHead)] + lines;
    TokensConcat(try, Suite(TryHead, ts), HandlerLines(s.results, depth), HandlerTokens(s.results), depth);
    AfterDefers(try + HandlerLines(s.results, depth), Suite(TryHead, ts) + HandlerTokens(s.results), depth);
    assert StmtLines(s, depth) == [At(depth, Plain(NO_DEFERS))] + (try + HandlerLines(s.results, depth));
  }

  lemma AfterDefers(lines: seq<EmitLayout.Line>, ts: seq<Token>, depth: nat)
    requires Tokens(lines, ts, depth) && Begins(lines, depth)
    ensures Tokens([At(depth, Plain(NO_DEFERS))] + lines, [T(Plain(NO_DEFERS))] + ts, depth)
  {
    TokensLine(depth, Plain(NO_DEFERS));
    TokensConcat([At(depth, Plain(NO_DEFERS))], [T(Plain(NO_DEFERS))], lines, ts, depth);
  }

  lemma {:induction false} PlainDeferTokenized(s: Stmt, depth: nat)
    requires s.DeferBlock? && !s.reshape && !AnyRefused(s.body)
    ensures Tokens(StmtLines(s, depth), StmtTokens(s), depth)
    decreases s.body, 5
  {
    var head, call := ForHead(EACH_DEFER), Plain(CALL_DEFER);
    SuiteTokenized(TryHead, s.body, depth);
    TokensLine(depth + 2, call);
    TokensSuite(head, [At(depth + 2, call)], [T(call)], depth + 1);
    var loop := [At(depth + 1, head)] + [At(depth + 2, call)];
    TokensSuite(FinallyHead, loop, Suite(head, [T(call)]), depth);
    var try := [At(depth, TryHead)] + BlockLines(s.body, depth + 1);
    var fin := [At(depth, FinallyHead)] + loop;
    TokensConcat(try, Suite(TryHead, BlockTokens(s.body)), fin, Suite(FinallyHead, Suite(head, [T(call)])), depth);
    AfterDefers(try + fin, Suite(TryHead, BlockTokens(s.body)) + Suite(FinallyHead, Suite(head, [T(call)])), depth);
    assert StmtLines(s, depth) == [At(depth, Plain(NO_DEFERS))] + (try + fin);
  }

  lemma {:induction false} RangeStringTokenized(s: Stmt, depth: nat)
    requires s.RangeString? && !AnyRefused(s.body)
    ensures Tokens(StmtLines(s, depth), StmtTokens(s), depth)
    decreases s.body, 5
  {
    var d := depth + 1;
    var start, loop := Plain(CursorText(s)), WhileHead(CursorTest(s));
    var next := Plain(AdvanceText(s));
    var decode, index := Plain(DecodeText(s)), Plain(KeyText(s));
    TokensLine(d, decode);
    TokensTwoLines(d, decode, index);
    assert [At(d, decode)] + [At(d, index)] == [At(d, decode), At(d, index)];
    assert StepLines(s, d) == if s.key != "" then [At(d, decode), At(d, index)] else [At(d, decode)];
    assert StepTokens(s) == if s.key != "" then [T(decode)] + [T(index)] else [T(decode)];
    assert Tokens(StepLines(s, d), StepTokens(s), d);
    StmtsTokenized(s.body, d);
    if s.body != [] { StmtsBegin(s.body, d); }
    TokensConcat(StepLines(s, d), StepTokens(s), StmtsLines(s.body, d), StmtsTokens(s.body), d);
    TokensLine(d, next);
    var most := StepLines(s, d) + StmtsLines(s.body, d);
    TokensConcat(most, StepTokens(s) + StmtsTokens(s.body), [At(d, next)], [T(next)], d);
    assert Begins(most + [At(d, next)], d);
    TokensSuite(loop, most + [At(d, next)], StepTokens(s) + StmtsTokens(s.body) + [T(next)], depth);
    TokensLine(depth, start);
    var rest := [At(depth, loop)] + (most + [At(d, next)]);
    TokensConcat([At(depth, start)], [T(start)], rest,
                 Suite(loop, StepTokens(s) + StmtsTokens(s.body) + [T(next)]), depth);
    assert StmtLines(s, depth) == [At(depth, start)] + rest;
  }

  lemma {:induction false} FuncDefTokenized(s: Stmt, depth: nat)
    requires s.FuncDef? && !AnyRefused(s.body)
    ensures Tokens(StmtLines(s, depth), StmtTokens(s), depth)
    decreases s.body, 5
  {
    var d := depth + 1;
    var nonlocal := Plain(NonlocalText(s.nonlocals));
    var first := if s.nonlocals != [] then [At(d, nonlocal)] else [];
    var ts := if s.nonlocals != [] then [T(nonlocal)] else [];
    TokensLine(d, nonlocal);
    TokensNone(d);
    BlockTokenized(s.body, d);
    TokensConcat(first, ts, BlockLines(s.body, d), BlockTokens(s.body), d);
    var head := DefHead(DefText(s));
    TokensSuite(head, first + BlockLines(s.body, d), ts + BlockTokens(s.body), depth);
    assert StmtLines(s, depth) == [At(depth, head)] + (first + BlockLines(s.body, d));
  }

  lemma {:induction false} StmtTokenized(s: Stmt, depth: nat)
    requires !Refused(s)
    ensures Tokens(StmtLines(s, depth), StmtTokens(s), depth)
    decreases s, 0
  {
    match s
    case FuncDef(_, _, _, _, _) => FuncDefTokenized(s, depth);
    case RangeString(_, _, _, _, _, _, _) => RangeStringTokenized(s, depth);
    case DeferBlock(_, reshape, _) =>
      if reshape { ReshapeTokenized(s, depth); } else { PlainDeferTokenized(s, depth); }
    case DeferReturn(results) => TokensTwoLines(depth, Plain(RUN_DEFERS), Plain(ResultReturn(results)));
    case If(cond, thn, els) =>
      SuiteTokenized(IfHead(cond), thn, depth);
      ElseTokenized(els, depth);
      TokensConcat([At(depth, IfHead(cond))] + BlockLines(thn, depth + 1), Suite(IfHead(cond), BlockTokens(thn)),
                   ElseLines(els, depth), ElseTokens(els), depth);
    case For(cond, body, _) => SuiteTokenized(WhileHead(WhileText(cond)), body, depth);
    case ForRange(_, _, _, _, body) =>
      SuiteTokenized(ForHead(RangeText(s)), body, depth);
    case RangeMap(_, _, _, body) =>
      SuiteTokenized(ForHead(RangeMapText(s)), body, depth);
    case NilStmt =>
    case LabeledBreak(_) =>
    case LabeledContinue(_) =>
    case _ => TokensLine(depth, Plain(PlainText(s)));
  }

  // ----- Tokens to the tree -----

  /** Tokens that do not go on with an if statement already read. */
  predicate NotElse(ts: seq<Token>) {
    ts == [] || !ts[0].T? || (!ts[0].text.ElifHead? && !ts[0].text.ElseHead?)
  }

  function Onto(tree: seq<Py>, r: Option<(seq<Py>, seq<Token>)>): Option<(seq<Py>, seq<Token>)> {
    if r.Some? then Some((tree + r.value.0, r.value.1)) else None
  }

  ghost predicate ReadsBefore(ts: seq<Token>, tree: seq<Py>, rest: seq<Token>) {
    NotElse(rest) ==> ReadBlock(ts + rest) == Onto(tree, ReadBlock(rest))
  }

  /** Wherever they stand in a block, these tokens are read as these statements. */
  ghost predicate Reads(ts: seq<Token>, tree: seq<Py>) {
    forall rest: seq<Token> :: ReadsBefore(ts, tree, rest)
  }

  ghost predicate ReadsElseBefore(ts: seq<Token>, tree: seq<Py>, rest: seq<Token>) {
    NotElse(rest) ==> ReadElse(ts + rest) == Some((tree, rest))
  }

  ghost predicate ReadsElse(ts: seq<Token>, tree: seq<Py>) {
    forall rest: seq<Token> :: ReadsElseBefore(ts, tree, rest)
  }

  lemma ReadsNone()
    ensures Reads([], [])
  {
    forall rest: seq<Token> ensures ReadsBefore([], [], rest) {
      assert [] + rest == rest;
      var r := ReadBlock(rest);
      if r.Some? { assert [] + r.value.0 == r.value.0; }
    }
  }

  lemma ReadsLine(s: Words)
    ensures Reads([T(Plain(s))], [Py.Line(s)])
  {
    forall rest: seq<Token> ensures ReadsBefore([T(Plain(s))], [Py.Line(s)], rest) {
      assert ([T(Plain(s))] + rest)[1..] == rest;
    }
  }

  lemma ReadsPass()
    ensures Reads([T(Pass)], [])
  {
    forall rest: seq<Token> ensures ReadsBefore([T(Pass)], [], rest) {
      assert ([T(Pass)] + rest)[1..] == rest;
      var r := ReadBlock(rest);
      if r.Some? { assert [] + r.value.0 == r.value.0; }
    }
  }

  lemma ReadsConcat(a: seq<Token>, ta: seq<Py>, b: seq<Token>, tb: seq<Py>)
    requires Reads(a, ta) && Reads(b, tb) && NotElse(b)
    ensures Reads(a + b, ta + tb)
  {
    forall rest: seq<Token> | NotElse(rest) ensures ReadsBefore(a + b, ta + tb, rest) {
      assert a + b + rest == a + (b + rest);
      if b == [] { assert b + rest == rest; } else { assert (b + rest)[0] == b[0]; }
      assert ReadsBefore(a, ta, b + rest) && ReadsBefore(b, tb, rest);
      var r := ReadBlock(rest);
      if r.Some? { assert ta + (tb + r.value.0) == ta + tb + r.value.0; }
    }
  }

  /** An indented suite is read as what its content is read as. */
  lemma ReadsSuite(ts: seq<Token>, tree: seq<Py>, rest: seq<Token>)
    requires Reads(ts, tree)
    ensures ReadSuite([Indent] + ts + [Dedent] + rest) == Some((tree, rest))
  {
    var all := [Indent] + ts + [Dedent] + rest;
    var after := [Dedent] + rest;
    assert all[1..] == ts + after;
    assert ReadsBefore(ts, tree, after);
    assert ReadBlock(after) == Some(([], after));
    assert tree + [] == tree && after[1..] == rest;
  }

  lemma SuiteApart(head: Text, ts: seq<Token>, rest: seq<Token>)
    ensures Suite(head, ts) + rest == [T(head)] + ([Indent] + ts + [Dedent] + rest)
    ensures (Suite(head, ts) + rest)[0] == T(head)
    ensures (Suite(head, ts) + rest)[1..] == [Indent] + ts + [Dedent] + rest
  {
  }

  /** One statement read off the front of a block. */
  lemma StmtFirst(ts: seq<Token>, p: Py, rest: seq<Token>)
    requires ts != [] && ts[0].T? && ts[0].text != Pass && ReadStmt(ts) == Some((p, rest))
    ensures ReadBlock(ts) == Onto([p], ReadBlock(rest))
  {
  }

  lemma ReadsDef(s: Words, ts: seq<Token>, tree: seq<Py>)
    requires Reads(ts, tree)
    ensures Reads(Suite(DefHead(s), ts), [Def(s, tree)])
  {
    forall rest: seq<Token> ensures ReadsBefore(Suite(DefHead(s), ts), [Def(s, tree)], rest) {
      SuiteApart(DefHead(s), ts, rest);
      ReadsSuite(ts, tree, rest);
      StmtFirst(Suite(DefHead(s), ts) + rest, Def(s, tree), rest);
    }
  }

  lemma ReadsWhile(s: Words, ts: seq<Token>, tree: seq<Py>)
    requires Reads(ts, tree)
    ensures Reads(Suite(WhileHead(s), ts), [While(s, tree)])
  {
    forall rest: seq<Token> ensures ReadsBefore(Suite(WhileHead(s), ts), [While(s, tree)], rest) {
      SuiteApart(WhileHead(s), ts, rest);
      ReadsSuite(ts, tree, rest);
      StmtFirst(Suite(WhileHead(s), ts) + rest, While(s, tree), rest);
    }
  }

  lemma ReadsFor(s: Words, ts: seq<Token>, tree: seq<Py>)
    requires Reads(ts, tree)
    ensures Reads(Suite(ForHead(s), ts), [PyFor(s, tree)])
  {
    forall rest: seq<Token> ensures ReadsBefore(Suite(ForHead(s), ts), [PyFor(s, tree)], rest) {
      SuiteApart(ForHead(s), ts, rest);
      ReadsSuite(ts, tree, rest);
      StmtFirst(Suite(ForHead(s), ts) + rest, PyFor(s, tree), rest);
    }
  }

  lemma ReadsIf(s: Words, ts: seq<Token>, thn: seq<Py>, es: seq<Token>, els: seq<Py>)
    requires Reads(ts, thn) && ReadsElse(es, els)
    ensures Reads(Suite(IfHead(s), ts) + es, [PyIf(s, thn, els)])
  {
    forall rest: seq<Token> | NotElse(rest)
      ensures ReadsBefore(Suite(IfHead(s), ts) + es, [PyIf(s, thn, els)], rest)
    {
      assert Suite(IfHead(s), ts) + es + rest == Suite(IfHead(s), ts) + (es + rest);
      SuiteApart(IfHead(s), ts, es + rest);
      ReadsSuite(ts, thn, es + rest);
      assert ReadsElseBefore(es, els, rest);
      StmtFirst(Suite(IfHead(s), ts) + (es + rest), PyIf(s, thn, els), rest);
    }
  }

  lemma ReadsElif(s: Words, ts: seq<Token>, thn: seq<Py>, es: seq<Token>, els: seq<Py>)
    requires Reads(ts, thn) && ReadsElse(es, els)
    ensures ReadsElse(Suite(ElifHead(s), ts) + es, [PyIf(s, thn, els)])
  {
    forall rest: seq<Token> | NotElse(rest)
      ensures ReadsElseBefore(Suite(ElifHead(s), ts) + es, [PyIf(s, thn, els)], rest)
    {
      assert Suite(ElifHead(s), ts) + es + rest == Suite(ElifHead(s), ts) + (es + rest);
      SuiteApart(ElifHead(s), ts, es + rest);
      ReadsSuite(ts, thn, es + rest);
      assert ReadsElseBefore(es, els, rest);
    }
  }

  lemma ReadsElseSuite(ts: seq<Token>, tree: seq<Py>)
    requires Reads(ts, tree)
    ensures ReadsElse(Suite(ElseHead, ts), tree)
  {
    forall rest: seq<Token> ensures ReadsElseBefore(Suite(ElseHead, ts), tree, rest) {
      SuiteApart(ElseHead, ts, rest);
      ReadsSuite(ts, tree, rest);
    }
  }

  lemma ReadsNoElse()
    ensures ReadsElse([], [])
  {
    forall rest: seq<Token> | NotElse(rest) ensures ReadsElseBefore([], [], rest) {
      assert [] + rest == rest;
    }
  }

  /** A try with its second suite, which is an except or a finally. */
  lemma ReadsTry(ts: seq<Token>, tree: seq<Py>, head: Text, hs: seq<Token>, handler: seq<Py>)
    requires Reads(ts, tree) && Reads(hs, handler) && (head.ExceptHead? || head.FinallyHead?)
    ensures Reads(Suite(TryHead, ts) + Suite(head, hs),
                  [if head.ExceptHead? then TryExcept(tree, head.s, handler) else TryFinally(tree, handler)])
  {
    var p := if head.ExceptHead? then TryExcept(tree, head.s, handler) else TryFinally(tree, handler);
    forall rest: seq<Token> ensures ReadsBefore(Suite(TryHead, ts) + Suite(head, hs), [p], rest) {
      var more := Suite(head, hs) + rest;
      assert Suite(TryHead, ts) + Suite(head, hs) + rest == Suite(TryHead, ts) + more;
      SuiteApart(TryHead, ts, more);
      ReadsSuite(ts, tree, more);
      SuiteApart(head, hs, rest);
      ReadsSuite(hs, handler, rest);
      StmtFirst(Suite(TryHead, ts) + more, p, rest);
    }
  }

  // ----- Every statement's tokens are read as its tree -----

  lemma StmtTokensNotElse(s: Stmt)
    ensures NotElse(StmtTokens(s))
  {
  }

  lemma {:induction false} StmtsRead(body: seq<Stmt>)
    requires !AnyRefused(body)
    ensures Reads(StmtsTokens(body), TreeOfBlock(body)) && NotElse(StmtsTokens(body))
    decreases body, 1
  {
    if body == [] {
      ReadsNone();
    } else {
      StmtRead(body[0]);
      StmtsRead(body[1..]);
      StmtTokensNotElse(body[0]);
      ReadsConcat(StmtTokens(body[0]), TreeOf(body[0]), StmtsTokens(body[1..]), TreeOfBlock(body[1..]));
    }
  }

  lemma {:induction false} BlockRead(body: seq<Stmt>)
    requires !AnyRefused(body)
    ensures Reads(BlockTokens(body), TreeOfBlock(body)) && NotElse(BlockTokens(body))
    decreases body, 2
  {
    if body == [] { ReadsPass(); } else { StmtsRead(body); }
  }

  lemma {:induction false} ElseRead(els: seq<Stmt>)
    requires !AnyRefused(els)
    ensures ReadsElse(ElseTokens(els), TreeOfBlock(els))
    decreases els, 3
  {
    if els == [] {
      ReadsNoElse();
    } else if |els| == 1 && els[0].If? {
      assert !Refused(els[0]);
      BlockRead(els[0].thn);
      ElseRead(els[0].els);
      ReadsElif(els[0].cond, BlockTokens(els[0].thn), TreeOfBlock(els[0].thn),
                ElseTokens(els[0].els), TreeOfBlock(els[0].els));
      assert els[1..] == [];
      assert TreeOf(els[0]) + [] == TreeOf(els[0]);
    } else {
      BlockRead(els);
      ReadsElseSuite(BlockTokens(els), TreeOfBlock(els));
    }
  }

  lemma ReadsTwoLines(a: Words, b: Words)
    ensures Reads([T(Plain(a))] + [T(Plain(b))], [Py.Line(a), Py.Line(b)])
  {
    ReadsLine(a);
    ReadsLine(b);
    ReadsConcat([T(Plain(a))], [Py.Line(a)], [T(Plain(b))], [Py.Line(b)]);
    assert [Py.Line(a)] + [Py.Line(b)] == [Py.Line(a), Py.Line(b)];
  }

  function HandlerContent(results: seq<string>): seq<Token> {
    [T(Plain(RUN_DEFERS))]
    + (Suite(IfHead(UNRECOVERED), [T(Plain(RAISE))]) + [T(Plain(ResultReturn(results)))])
  }

  lemma HandlerRead(results: seq<string>)
    ensures Reads(HandlerContent(results), HandlerTree(results))
  {
    var ret := ResultReturn(results);
    var check := Suite(IfHead(UNRECOVERED), [T(Plain(RAISE))]);
    var raise := PyIf(UNRECOVERED, [Py.Line(RAISE)], []);
    ReadsLine(RAISE);
    ReadsNoElse();
    ReadsIf(UNRECOVERED, [T(Plain(RAISE))], [Py.Line(RAISE)], [], []);
    assert check + [] == check;
    ReadsLine(ret);
    ReadsConcat(check, [raise], [T(Plain(ret))], [Py.Line(ret)]);
    ReadsLine(RUN_DEFERS);
    ReadsConcat([T(Plain(RUN_DEFERS))], [Py.Line(RUN_DEFERS)], check + [T(Plain(ret))], [raise] + [Py.Line(ret)]);
    assert [Py.Line(RUN_DEFERS)] + ([raise] + [Py.Line(ret)]) == HandlerTree(results);
  }

  lemma FallOffRead(body: seq<Stmt>, results: seq<string>)
    ensures Reads(FallOffTokens(body, results), FallOffTree(body, results)) && NotElse(FallOffTokens(body, results))
  {
    ReadsNone();
    ReadsTwoLines(RUN_DEFERS, ResultReturn(results));
  }

  lemma AfterDefersRead(ts: seq<Token>, p: Py)
    requires Reads(ts, [p]) && NotElse(ts)
    ensures Reads([T(Plain(NO_DEFERS))] + ts, [Py.Line(NO_DEFERS), p])
  {
    ReadsLine(NO_DEFERS);
    ReadsConcat([T(Plain(NO_DEFERS))], [Py.Line(NO_DEFERS)], ts, [p]);
    assert [Py.Line(NO_DEFERS)] + [p] == [Py.Line(NO_DEFERS), p];
  }

  lemma {:induction false} DeferRead(s: Stmt)
    requires s.DeferBlock? && !AnyRefused(s.body)
    ensures Reads(StmtTokens(s), TreeOf(s))
    decreases s.body, 5
  {
    BlockRead(s.body);
    var ts, tree := BlockTokens(s.body), TreeOfBlock(s.body);
    if s.reshape {
      FallOffRead(s.body, s.results);
      var fts, ftree := FallOffTokens(s.body, s.results), FallOffTree(s.body, s.results);
      ReadsConcat(ts, tree, fts, ftree);
      HandlerRead(s.results);
      var head := ExceptHead(CATCH);
      ReadsTry(ts + fts, tree + ftree, head, HandlerContent(s.results), HandlerTree(s.results));
      AfterDefersRead(Suite(TryHead, ts + fts) + Suite(head, HandlerContent(s.results)),
                      TryExcept(tree + ftree, CATCH, HandlerTree(s.results)));
    } else {
      var loop := EACH_DEFER;
      ReadsLine(CALL_DEFER);
      ReadsFor(loop, [T(Plain(CALL_DEFER))], [Py.Line(CALL_DEFER)]);
      var hs := Suite(ForHead(loop), [T(Plain(CALL_DEFER))]);
      ReadsTry(ts, tree, FinallyHead, hs, [PyFor(loop, [Py.Line(CALL_DEFER)])]);
      AfterDefersRead(Suite(TryHead, ts) + Suite(FinallyHead, hs),
                      TryFinally(tree, [PyFor(loop, [Py.Line(CALL_DEFER)])]));
    }
  }

  lemma StepRead(s: Stmt)
    requires s.RangeString?
    ensures Reads(StepTokens(s), StepTree(s))
  {
    var decode, index := DecodeText(s), KeyText(s);
    ReadsLine(decode);
    ReadsLine(index);
    ReadsConcat([T(Plain(decode))], [Py.Line(decode)], [T(Plain(index))], [Py.Line(index)]);
    if s.key == "" {
      assert StepTokens(s) == [T(Plain(decode))] && StepTree(s) == [Py.Line(decode)];
    }
  }

  lemma {:induction false} RangeStringRead(s: Stmt)
    requires s.RangeString? && !AnyRefused(s.body)
    ensures Reads(StmtTokens(s), TreeOf(s))
    decreases s.body, 5
  {
    var next := AdvanceText(s);
    var loop := CursorTest(s);
    StepRead(s);
    StmtsRead(s.body);
    ReadsConcat(StepTokens(s), StepTree(s), StmtsTokens(s.body), TreeOfBlock(s.body));
    ReadsLine(next);
    ReadsConcat(StepTokens(s) + StmtsTokens(s.body), StepTree(s) + TreeOfBlock(s.body),
                [T(Plain(next))], [Py.Line(next)]);
    var ts := StepTokens(s) + StmtsTokens(s.body) + [T(Plain(next))];
    var tree := StepTree(s) + TreeOfBlock(s.body) + [Py.Line(next)];
    ReadsWhile(loop, ts, tree);
    var start := CursorText(s);
    ReadsLine(start);
    ReadsConcat([T(Plain(start))], [Py.Line(start)], Suite(WhileHead(loop), ts), [While(loop, tree)]);
    assert TreeOf(s) == [Py.Line(start)] + [While(loop, tree)];
  }

  lemma {:induction false} FuncDefRead(s: Stmt)
    requires s.FuncDef? && !AnyRefused(s.body)
    ensures Reads(StmtTokens(s), TreeOf(s))
    decreases s.body, 5
  {
    var nonlocal := NonlocalText(s.nonlocals);
    var ts := if s.nonlocals != [] then [T(Plain(nonlocal))] else [];
    var tree := if s.nonlocals != [] then [Py.Line(nonlocal)] else [];
    ReadsLine(nonlocal);
    ReadsNone();
    BlockRead(s.body);
    ReadsConcat(ts, tree, BlockTokens(s.body), TreeOfBlock(s.body));
    ReadsDef(DefText(s), ts + BlockTokens(s.body), tree + TreeOfBlock(s.body));
  }

  lemma {:induction false} StmtRead(s: Stmt)
    requires !Refused(s)
    ensures Reads(StmtTokens(s), TreeOf(s))
    decreases s, 0
  {
    match s
    case FuncDef(_, _, _, _, _) => FuncDefRead(s);
    case RangeString(_, _, _, _, _, _, _) => RangeStringRead(s);
    case DeferBlock(_, _, _) => DeferRead(s);
    case DeferReturn(results) => ReadsTwoLines(RUN_DEFERS, ResultReturn(results));
    case If(cond, thn, els) =>
      BlockRead(thn);
      ElseRead(els);
      ReadsIf(cond, BlockTokens(thn), TreeOfBlock(thn), ElseTokens(els), TreeOfBlock(els));
    case For(cond, body, _) =>
      BlockRead(body);
      ReadsWhile(WhileText(cond), BlockTokens(body), TreeOfBlock(body));
    case ForRange(_, _, _, _, body) =>
      BlockRead(body);
      ReadsFor(RangeText(s),
               BlockTokens(body), TreeOfBlock(body));
    case RangeMap(_, _, _, body) =>
      BlockRead(body);
      ReadsFor(RangeMapText(s), BlockTokens(body), TreeOfBlock(body));
    case NilStmt =>
    case LabeledBreak(_) =>
    case LabeledContinue(_) =>
    case _ => ReadsLine(PlainText(s));
  }

  // ----- The round trip -----

  /** At every depth, inside any open indentations, the lines of a block come back
      as tokens that read as the block's control tree, and the rest is untouched. */
  lemma BlockReadsBack(body: seq<Stmt>, depth: nat, rest: seq<EmitLayout.Line>, stack: seq<nat>)
    requires !AnyRefused(body) && StackAt(stack, depth) && Fits(rest, stack)
    ensures Tokenize(BlockLines(body, depth) + rest, stack) == Prepend(BlockTokens(body), Tokenize(rest, stack))
    ensures forall ts: seq<Token> :: NotElse(ts) ==>
      ReadBlock(BlockTokens(body) + ts) == Onto(TreeOfBlock(body), ReadBlock(ts))
  {
    BlockTokenized(body, depth);
    assert TokensBefore(BlockLines(body, depth), BlockTokens(body), depth, rest, stack);
    BlockRead(body);
    forall ts: seq<Token> | NotElse(ts)
      ensures ReadBlock(BlockTokens(body) + ts) == Onto(TreeOfBlock(body), ReadBlock(ts))
    {
      assert ReadsBefore(BlockTokens(body), TreeOfBlock(body), ts);
    }
  }

  /** The emitted lines of any block without labeled jumps, read as a file, are
      exactly its control tree. */
  lemma FileReadsBack(body: seq<Stmt>)
    requires !AnyRefused(body)
    ensures ReadFile(BlockLines(body, 0)) == Some(TreeOfBlock(body))
  {
    BlockReadsBack(body, 0, [], [0]);
    var ts := BlockTokens(body);
    assert BlockLines(body, 0) + [] == BlockLines(body, 0);
    assert Tokenize([], [0]) == Some([]);
    assert ts + [] == ts;
    assert ReadBlock([]) == Some(([], []));
    assert NotElse([]);
    assert ReadBlock(ts + []) == Onto(TreeOfBlock(body), ReadBlock([]));
    assert TreeOfBlock(body) + [] == TreeOfBlock(body);
  }

  /** So two blocks that emit the same lines have the same control tree. */
  lemma LinesDetermineTree(a: seq<Stmt>, b: seq<Stmt>)
    requires !AnyRefused(a) && !AnyRefused(b) && BlockLines(a, 0) == BlockLines(b, 0)
    ensures TreeOfBlock(a) == TreeOfBlock(b)
  {
    FileReadsBack(a);
    FileReadsBack(b);
  }
}
