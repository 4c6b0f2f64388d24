/** A block's source text reads as its control tree exactly when its lines are clean. */
module EmitSourceTree {
  // A reader never sees a line that is not clean, so a tree it builds is made of clean
  // texts; and a block whose tree is made of clean texts emits only clean lines.

  import opened Prelude
  import opened EmitText
  import opened EmitLayout
  import opened EmitReading
  import opened EmitSource

  // ----- Clean trees -----

  predicate CleanPy(p: Py)
    decreases p, 0
  {
    match p
    case Line(s) => Clean(Plain(s))
    case Def(s, body) => NEWLINE !in s && CleanTree(body)
    case PyIf(s, thn, els) => NEWLINE !in s && CleanTree(thn) && CleanTree(els)
    case While(s, body) => NEWLINE !in s && CleanTree(body)
    case PyFor(s, body) => NEWLINE !in s && CleanTree(body)
    case TryExcept(body, s, handler) => NEWLINE !in s && CleanTree(body) && CleanTree(handler)
    case TryFinally(body, handler) => CleanTree(body) && CleanTree(handler)
  }

  predicate CleanTree(ps: seq<Py>)
    decreases ps, 1
  {
    ps == [] || (CleanPy(ps[0]) && CleanTree(ps[1..]))
  }

  lemma {:induction false} CleanConcat(a: seq<Py>, b: seq<Py>)
    ensures CleanTree(a + b) <==> CleanTree(a) && CleanTree(b)
    decreases |a|
  {
    if a == [] {
      assert a + b == b;
    } else {
      assert (a + b)[1..] == a[1..] + b;
      CleanConcat(a[1..], b);
    }
  }

  lemma OneTree(p: Py)
    ensures CleanTree([p]) <==> CleanPy(p)
  {
    assert [p][1..] == [];
  }

  // ----- What a reader sees -----

  lemma {:induction false} AfterLeading(w: Words)
    ensures Leading(w) < |w| ==> w[Leading(w)] != SPACE
  {
    if w != [] && w[0] == SPACE { AfterLeading(w[1..]); }
  }

  lemma LineReadClean(w: Words)
    requires NEWLINE !in w
    ensures AllClean(ReadLine(w))
  {
    var n := Leading(w);
    AfterLeading(w);
    if n < |w| && w[n] != Ch('#') {
      ClassifiedText(w[n..]);
      assert Clean(Classify(w[n..]));
    }
  }

  /** Whatever the source, the lines read from it are clean. */
  lemma {:induction false} SourceReadClean(w: Words)
    ensures AllClean(ReadSource(w))
    decreases |w|
  {
    if w != [] {
      var n := LineEnd(w);
      LineReadClean(w[..n]);
      if n < |w| { SourceReadClean(w[n + 1..]); }
    }
  }

  predicate CleanTokens(ts: seq<Token>) {
    forall i :: 0 <= i < |ts| && ts[i].T? ==> Clean(ts[i].text)
  }

  lemma {:induction false} TokensReadClean(lines: seq<EmitLayout.Line>, stack: seq<nat>)
    requires stack != [] && AllClean(lines) && Tokenize(lines, stack).Some?
    ensures CleanTokens(Tokenize(lines, stack).value)
    decreases |lines|, |stack|
  {
    var top := stack[|stack| - 1];
    if lines == [] {
      if |stack| > 1 { TokensReadClean(lines, stack[..|stack| - 1]); }
    } else {
      assert Clean(lines[0].text) && AllClean(lines[1..]) by { CleanSplit(lines); }
      if lines[0].indent == top {
        TokensReadClean(lines[1..], stack);
      } else if lines[0].indent > top {
        TokensReadClean(lines[1..], stack + [lines[0].indent]);
      } else {
        TokensReadClean(lines, stack[..|stack| - 1]);
      }
    }
  }

  lemma RestClean(ts: seq<Token>, n: nat)
    requires n <= |ts| && CleanTokens(ts)
    ensures CleanTokens(ts[n..])
  {
  }

  lemma HeadClean(t: Text)
    requires Clean(t) && !t.Plain? && !Fixed(t)
    ensures NEWLINE !in t.s
  {
    HeaderClean(t);
  }

  lemma {:induction false} BlockReadClean(ts: seq<Token>)
    requires CleanTokens(ts) && ReadBlock(ts).Some?
    ensures CleanTree(ReadBlock(ts).value.0) && CleanTokens(ReadBlock(ts).value.1)
    decreases |ts|, 2
  {
    if ts != [] && ts[0] != Dedent {
      if ts[0] == T(Pass) {
        BlockReadClean(ts[1..]);
      } else {
        StmtReadClean(ts);
        var p := ReadStmt(ts).value;
        BlockReadClean(p.1);
        var b := ReadBlock(p.1).value;
        assert ([p.0] + b.0)[1..] == b.0;
      }
    }
  }

  lemma {:induction false} SuiteReadClean(ts: seq<Token>)
    requires CleanTokens(ts) && ReadSuite(ts).Some?
    ensures CleanTree(ReadSuite(ts).value.0) && CleanTokens(ReadSuite(ts).value.1)
    decreases |ts|, 1
  {
    BlockReadClean(ts[1..]);
  }

  lemma {:induction false} ElseReadClean(ts: seq<Token>)
    requires CleanTokens(ts) && ReadElse(ts).Some?
    ensures CleanTree(ReadElse(ts).value.0) && CleanTokens(ReadElse(ts).value.1)
    decreases |ts|, 2
  {
    if ts != [] && ts[0].T? && ts[0].text.ElifHead? {
      ElifReadClean(ts);
    } else if ts != [] && ts[0] == T(ElseHead) {
      RestClean(ts, 1);
      SuiteReadClean(ts[1..]);
    }
  }

  lemma {:induction false} ElifReadClean(ts: seq<Token>)
    requires ts != [] && ts[0].T? && ts[0].text.ElifHead?
    requires CleanTokens(ts) && ReadElse(ts).Some?
    ensures CleanTree(ReadElse(ts).value.0) && CleanTokens(ReadElse(ts).value.1)
    decreases |ts|, 1
  {
    HeadClean(ts[0].text);
    RestClean(ts, 1);
    SuiteReadClean(ts[1..]);
    var thn := ReadSuite(ts[1..]).value;
    ElseReadClean(thn.1);
    OneTree(PyIf(ts[0].text.s, thn.0, ReadElse(thn.1).value.0));
  }

  lemma {:induction false} TryReadClean(ts: seq<Token>)
    requires CleanTokens(ts) && ReadTry(ts).Some?
    ensures CleanPy(ReadTry(ts).value.0) && CleanTokens(ReadTry(ts).value.1)
    decreases |ts|, 2
  {
    SuiteReadClean(ts);
    var b := ReadSuite(ts).value;
    if b.1[0].text.ExceptHead? { HeadClean(b.1[0].text); }
    SuiteReadClean(b.1[1..]);
  }

  lemma {:induction false} StmtReadClean(ts: seq<Token>)
    requires CleanTokens(ts) && ReadStmt(ts).Some?
    ensures CleanPy(ReadStmt(ts).value.0) && CleanTokens(ReadStmt(ts).value.1)
    decreases |ts|, 1
  {
    var t := ts[0].text;
    assert Clean(t);
    RestClean(ts, 1);
    if t.DefHead? || t.WhileHead? || t.ForHead? || t.IfHead? {
      HeadClean(t);
      SuiteReadClean(ts[1..]);
      if t.IfHead? { ElseReadClean(ReadSuite(ts[1..]).value.1); }
    } else if t.TryHead? {
      TryReadClean(ts[1..]);
    }
  }

  /** Whatever the source, a tree that is read from it is clean. */
  lemma FileReadClean(w: Words)
    requires ReadFile(ReadSource(w)).Some?
    ensures CleanTree(ReadFile(ReadSource(w)).value)
  {
    var lines := ReadSource(w);
    SourceReadClean(w);
    TokensReadClean(lines, [0]);
    BlockReadClean(Tokenize(lines, [0]).value);
  }

  // ----- Clean trees are emitted in clean lines -----

  lemma LinesConcat(a: seq<EmitLayout.Line>, b: seq<EmitLayout.Line>)
    ensures AllClean(a + b) <==> AllClean(a) && AllClean(b)
  {
    if AllClean(a + b) {
      assert forall i :: 0 <= i < |a| ==> a[i] == (a + b)[i];
      assert forall i :: 0 <= i < |b| ==> b[i] == (a + b)[|a| + i];
    }
  }

  lemma OneClean(depth: nat, t: Text)
    ensures AllClean([At(depth, t)]) <==> Clean(t)
  {
    assert [At(depth, t)][0].text == t;
  }

  lemma HeadedClean(depth: nat, t: Text, lines: seq<EmitLayout.Line>)
    requires Clean(t) && AllClean(lines)
    ensures AllClean([At(depth, t)] + lines)
  {
    OneClean(depth, t);
    LinesConcat([At(depth, t)], lines);
  }

  lemma {:induction false} StmtsEmitClean(body: seq<Stmt>, depth: nat)
    requires !AnyRefused(body) && CleanTree(TreeOfBlock(body))
    ensures AllClean(StmtsLines(body, depth))
    decreases body, 1
  {
    if body != [] {
      CleanConcat(TreeOf(body[0]), TreeOfBlock(body[1..]));
      StmtEmitClean(body[0], depth);
      StmtsEmitClean(body[1..], depth);
      LinesConcat(StmtLines(body[0], depth), StmtsLines(body[1..], depth));
    }
  }

  lemma {:induction false} BlockEmitClean(body: seq<Stmt>, depth: nat)
    requires !AnyRefused(body) && CleanTree(TreeOfBlock(body))
    ensures AllClean(BlockLines(body, depth))
    decreases body, 2
  {
    FixedClean(Pass);
    if body != [] { StmtsEmitClean(body, depth); }
  }

  lemma {:induction false} SuiteEmitClean(head: Text, body: seq<Stmt>, depth: nat)
    requires !AnyRefused(body) && CleanTree(TreeOfBlock(body))
    requires !head.Plain? && (Fixed(head) || NEWLINE !in head.s)
    ensures AllClean([At(depth, head)] + BlockLines(body, depth + 1))
    decreases body, 3
  {
    CleanExactly(head);
    BlockEmitClean(body, depth + 1);
    HeadedClean(depth, head, BlockLines(body, depth + 1));
  }

  lemma {:induction false} ElseEmitClean(els: seq<Stmt>, depth: nat)
    requires !AnyRefused(els) && CleanTree(TreeOfBlock(els))
    ensures AllClean(ElseLines(els, depth))
    decreases els, 4
  {
    if els == [] {
    } else if |els| == 1 && els[0].If? {
      ElifEmitClean(els, depth);
    } else {
      SuiteEmitClean(ElseHead, els, depth);
    }
  }

  lemma {:induction false} ElifEmitClean(els: seq<Stmt>, depth: nat)
    requires |els| == 1 && els[0].If? && !AnyRefused(els) && CleanTree(TreeOfBlock(els))
    ensures AllClean(ElseLines(els, depth))
    decreases els, 3
  {
    var nested := els[0];
    ElifLines(els, depth);
    assert TreeOfBlock(els) == TreeOf(nested) by {
      assert els[1..] == [] && TreeOf(nested) + [] == TreeOf(nested);
    }
    assert CleanPy(TreeOf(nested)[0]);
    SuiteEmitClean(ElifHead(nested.cond), nested.thn, depth);
    ElseEmitClean(nested.els, depth);
    LinesConcat([At(depth, ElifHead(nested.cond))] + BlockLines(nested.thn, depth + 1),
                ElseLines(nested.els, depth));
  }

  /** One plain line, or two. */
  lemma LinesEmitClean(depth: nat, a: Words, b: Words)
    requires CleanTree([Py.Line(a), Py.Line(b)])
    ensures AllClean([At(depth, Plain(a)), At(depth, Plain(b))])
  {
    assert [Py.Line(a), Py.Line(b)][1..] == [Py.Line(b)];
    OneTree(Py.Line(b));
  }

  lemma StepEmitClean(s: Stmt, depth: nat)
    requires s.RangeString? && CleanTree(StepTree(s))
    ensures AllClean(StepLines(s, depth))
  {
    var decode, name := Py.Line(DecodeText(s)), Py.Line(KeyText(s));
    OneTree(decode);
    if s.key != "" {
      assert StepTree(s) == [decode, name];
      LinesEmitClean(depth, DecodeText(s), KeyText(s));
      assert StepLines(s, depth) == [At(depth, Plain(DecodeText(s))), At(depth, Plain(KeyText(s)))];
    } else {
      assert StepTree(s) == [decode];
      assert StepLines(s, depth) == [At(depth, Plain(DecodeText(s)))];
    }
  }

  lemma {:induction false} RangeStringEmitClean(s: Stmt, depth: nat)
    requires s.RangeString? && !Refused(s) && CleanTree(TreeOf(s))
    ensures AllClean(StmtLines(s, depth))
    decreases s.body, 3
  {
    RangeStringLines(s, depth);
    var step := StepTree(s) + TreeOfBlock(s.body);
    var loop := While(CursorTest(s), step + [Py.Line(AdvanceText(s))]);
    assert TreeOf(s) == [Py.Line(CursorText(s)), loop];
    assert TreeOf(s)[1..] == [loop];
    OneTree(loop);
    CleanConcat(step, [Py.Line(AdvanceText(s))]);
    CleanConcat(StepTree(s), TreeOfBlock(s.body));
    OneTree(Py.Line(AdvanceText(s)));
    StepEmitClean(s, depth + 1);
    StmtsEmitClean(s.body, depth + 1);
    OneClean(depth + 1, Plain(AdvanceText(s)));
    LinesConcat(StepLines(s, depth + 1), StmtsLines(s.body, depth + 1));
    LinesConcat(StepLines(s, depth + 1) + StmtsLines(s.body, depth + 1), [At(depth + 1, Plain(AdvanceText(s)))]);
    CleanExactly(WhileHead(CursorTest(s)));
    var head := [At(depth, Plain(CursorText(s))), At(depth, WhileHead(CursorTest(s)))];
    assert AllClean(head);
    LinesConcat(head, StepLines(s, depth + 1) + StmtsLines(s.body, depth + 1)
                      + [At(depth + 1, Plain(AdvanceText(s)))]);
  }

  lemma {:induction false} FuncDefEmitClean(s: Stmt, depth: nat)
    requires s.FuncDef? && !Refused(s) && CleanTree(TreeOf(s))
    ensures AllClean(StmtLines(s, depth))
    decreases s.body, 3
  {
    var names := Py.Line(NonlocalText(s.nonlocals));
    var tree := if s.nonlocals != [] then [names] else [];
    var lines := if s.nonlocals != [] then [At(depth + 1, Plain(NonlocalText(s.nonlocals)))] else [];
    CleanConcat(tree, TreeOfBlock(s.body));
    OneTree(names);
    assert AllClean(lines);
    BlockEmitClean(s.body, depth + 1);
    CleanExactly(DefHead(DefText(s)));
    HeadedClean(depth, DefHead(DefText(s)), lines);
    LinesConcat([At(depth, DefHead(DefText(s)))] + lines, BlockLines(s.body, depth + 1));
  }

  lemma FallOffEmitClean(body: seq<Stmt>, results: seq<string>, depth: nat)
    requires CleanTree(FallOffTree(body, results))
    ensures AllClean(FallOffLines(body, results, depth))
  {
    if !EndsTerminated(body) { LinesEmitClean(depth, RUN_DEFERS, ResultReturn(results)); }
  }

  lemma HandlerEmitClean(results: seq<string>, depth: nat)
    requires CleanTree(HandlerTree(results))
    requires NEWLINE !in CATCH
    ensures AllClean(HandlerLines(results, depth))
  {
    var test := PyIf(UNRECOVERED, [Py.Line(RAISE)], []);
    var h := HandlerTree(results);
    assert h[1..] == [test, Py.Line(ResultReturn(results))] && h[1..][1..] == [Py.Line(ResultReturn(results))];
    OneTree(Py.Line(ResultReturn(results)));
    OneTree(Py.Line(RAISE));
    assert CleanPy(test);
    CleanExactly(ExceptHead(CATCH));
    CleanExactly(IfHead(UNRECOVERED));
  }

  /** The two lines a defer block begins with. */
  lemma TryEmitClean(depth: nat, lines: seq<EmitLayout.Line>)
    requires CleanPy(Py.Line(NO_DEFERS)) && AllClean(lines)
    ensures AllClean([At(depth, Plain(NO_DEFERS)), At(depth, TryHead)] + lines)
  {
    FixedClean(TryHead);
    var head := [At(depth, Plain(NO_DEFERS)), At(depth, TryHead)];
    assert AllClean(head);
    LinesConcat(head, lines);
  }

  lemma FinallyEmitClean(depth: nat)
    requires CleanPy(PyFor(EACH_DEFER, [Py.Line(CALL_DEFER)]))
    ensures AllClean([At(depth, FinallyHead), At(depth + 1, ForHead(EACH_DEFER)), At(depth + 2, Plain(CALL_DEFER))])
  {
    OneTree(Py.Line(CALL_DEFER));
    FixedClean(FinallyHead);
    CleanExactly(ForHead(EACH_DEFER));
  }

  lemma {:induction false} ReshapeEmitClean(s: Stmt, depth: nat)
    requires s.DeferBlock? && s.reshape && !Refused(s) && CleanTree(TreeOf(s))
    ensures AllClean(StmtLines(s, depth))
    decreases s.body, 3
  {
    var tree := TreeOfBlock(s.body) + FallOffTree(s.body, s.results);
    var block := TryExcept(tree, CATCH, HandlerTree(s.results));
    assert TreeOf(s) == [Py.Line(NO_DEFERS), block] && TreeOf(s)[1..] == [block];
    OneTree(block);
    CleanConcat(TreeOfBlock(s.body), FallOffTree(s.body, s.results));
    BlockEmitClean(s.body, depth + 1);
    FallOffEmitClean(s.body, s.results, depth + 1);
    HandlerEmitClean(s.results, depth);
    var lines := BlockLines(s.body, depth + 1) + FallOffLines(s.body, s.results, depth + 1);
    LinesConcat(BlockLines(s.body, depth + 1), FallOffLines(s.body, s.results, depth + 1));
    TryEmitClean(depth, lines);
    LinesConcat([At(depth, Plain(NO_DEFERS)), At(depth, TryHead)] + lines, HandlerLines(s.results, depth));
  }

  lemma {:induction false} PlainDeferEmitClean(s: Stmt, depth: nat)
    requires s.DeferBlock? && !s.reshape && !Refused(s) && CleanTree(TreeOf(s))
    ensures AllClean(StmtLines(s, depth))
    decreases s.body, 3
  {
    var each := PyFor(EACH_DEFER, [Py.Line(CALL_DEFER)]);
    var block := TryFinally(TreeOfBlock(s.body), [each]);
    assert TreeOf(s) == [Py.Line(NO_DEFERS), block] && TreeOf(s)[1..] == [block];
    OneTree(block);
    OneTree(each);
    BlockEmitClean(s.body, depth + 1);
    FinallyEmitClean(depth);
    TryEmitClean(depth, BlockLines(s.body, depth + 1));
    LinesConcat([At(depth, Plain(NO_DEFERS)), At(depth, TryHead)] + BlockLines(s.body, depth + 1),
                [At(depth, FinallyHead), At(depth + 1, ForHead(EACH_DEFER)), At(depth + 2, Plain(CALL_DEFER))]);
  }

  lemma {:induction false} StmtEmitClean(s: Stmt, depth: nat)
    requires !Refused(s) && CleanTree(TreeOf(s))
    ensures AllClean(StmtLines(s, depth))
    decreases s, 0
  {
    match s
    case FuncDef(_, _, _, _, _) => FuncDefEmitClean(s, depth);
    case If(cond, thn, els) =>
      SuiteEmitClean(IfHead(cond), thn, depth);
      ElseEmitClean(els, depth);
      LinesConcat([At(depth, IfHead(cond))] + BlockLines(thn, depth + 1), ElseLines(els, depth));
    case For(cond, body, _) => SuiteEmitClean(WhileHead(WhileText(cond)), body, depth);
    case ForRange(_, _, _, _, body) => SuiteEmitClean(ForHead(RangeText(s)), body, depth);
    case RangeMap(_, _, _, body) => SuiteEmitClean(ForHead(RangeMapText(s)), body, depth);
    case RangeString(_, _, _, _, _, _, _) => RangeStringEmitClean(s, depth);
    case DeferBlock(_, reshape, _) =>
      if reshape { ReshapeEmitClean(s, depth); } else { PlainDeferEmitClean(s, depth); }
    case DeferReturn(results) => LinesEmitClean(depth, RUN_DEFERS, ResultReturn(results));
    case NilStmt =>
    case LabeledBreak(_) =>
    case LabeledContinue(_) =>
    case _ => OneClean(depth, Plain(PlainText(s)));
  }

  /** The source of a block, read as a file, is the block's control tree if and only if each
      of its lines is clean. */
  lemma SourceReadsAsTreeExactly(body: seq<Stmt>)
    requires !AnyRefused(body)
    ensures ReadFile(ReadSource(Source(BlockLines(body, 0)))) == Some(TreeOfBlock(body))
            <==> AllClean(BlockLines(body, 0))
  {
    if AllClean(BlockLines(body, 0)) {
      BlockReadsFromSource(body);
    } else if ReadFile(ReadSource(Source(BlockLines(body, 0)))) == Some(TreeOfBlock(body)) {
      FileReadClean(Source(BlockLines(body, 0)));
      BlockEmitClean(body, 0);
    }
  }
}
