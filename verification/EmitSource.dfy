/** Lines as source text, and read back from it. */
module EmitSource {
  // What kind of line a line is has to be told from its first word, and where a line ends
  // and how deep it stands from the characters alone.

  import opened Prelude
  import IR
  import opened EmitText
  import opened EmitLayout
  import R = EmitReading
  import T = EmitRoundTrip

  const NEWLINE := Ch('\n')
  const SPACE := Ch(' ')

  // ----- Writing -----

  function Header(keyword: string, s: Words): Words { Str(keyword) + s + Str(":") }

  function TextOf(t: Text): Words {
    match t
    case Plain(s) => s
    case Pass => Str("pass")
    case ClassHead(s) => Header("class ", s)
    case DefHead(s) => Header("def ", s)
    case IfHead(s) => Header("if ", s)
    case ElifHead(s) => Header("elif ", s)
    case ElseHead => Str("else:")
    case WhileHead(s) => Header("while ", s)
    case ForHead(s) => Header("for ", s)
    case TryHead => Str("try:")
    case ExceptHead(s) => Header("except ", s)
    case FinallyHead => Str("finally:")
  }

  function Spaces(n: nat): Words {
    if n == 0 then [] else [SPACE] + Spaces(n - 1)
  }

  function LineText(l: Line): Words { Spaces(l.indent) + TextOf(l.text) }

  function Source(lines: seq<Line>): Words {
    if lines == [] then [] else LineText(lines[0]) + [NEWLINE] + Source(lines[1..])
  }

  // ----- Reading -----

  /** The line begins with the keyword and ends with a colon. */
  predicate IsHeader(w: Words, keyword: string) {
    |keyword| < |w| && w[..|keyword|] == Str(keyword) && w[|w| - 1] == Ch(':')
  }

  function Inside(w: Words, keyword: string): Words
    requires IsHeader(w, keyword)
  {
    w[|keyword|..|w| - 1]
  }

  /** What kind of line it is, by its first word. */
  function Classify(w: Words): Text {
    if w == Str("pass") then Pass
    else if w == Str("else:") then ElseHead
    else if w == Str("try:") then TryHead
    else if w == Str("finally:") then FinallyHead
    else if IsHeader(w, "class ") then ClassHead(Inside(w, "class "))
    else if IsHeader(w, "def ") then DefHead(Inside(w, "def "))
    else if IsHeader(w, "if ") then IfHead(Inside(w, "if "))
    else if IsHeader(w, "elif ") then ElifHead(Inside(w, "elif "))
    else if IsHeader(w, "while ") then WhileHead(Inside(w, "while "))
    else if IsHeader(w, "for ") then ForHead(Inside(w, "for "))
    else if IsHeader(w, "except ") then ExceptHead(Inside(w, "except "))
    else Plain(w)
  }

  function Leading(w: Words): (n: nat)
    ensures n <= |w|
  {
    if w != [] && w[0] == SPACE then 1 + Leading(w[1..]) else 0
  }

  /** A line of text; a blank one and a comment are none (sections 2.1.3 and 2.1.7 of the
      Python Language Reference). */
  function ReadLine(w: Words): seq<Line> {
    var n := Leading(w);
    if n == |w| || w[n] == Ch('#') then [] else [Line(n, Classify(w[n..]))]
  }

  function LineEnd(w: Words): (n: nat)
    ensures n <= |w| && NEWLINE !in w[..n] && (n < |w| ==> w[n] == NEWLINE)
  {
    if w == [] || w[0] == NEWLINE then 0 else 1 + LineEnd(w[1..])
  }

  function ReadSource(w: Words): seq<Line>
    decreases |w|
  {
    if w == [] then []
    else
      var n := LineEnd(w);
      ReadLine(w[..n]) + if n < |w| then ReadSource(w[n + 1..]) else []
  }

  // ----- Back again -----

  /** The text is one line, neither blank nor a comment, and of the kind it is taken for. */
  predicate Clean(t: Text) {
    var w := TextOf(t);
    NEWLINE !in w && w != [] && w[0] != SPACE && w[0] != Ch('#') && Classify(w) == t
  }

  predicate AllClean(lines: seq<Line>) {
    forall i :: 0 <= i < |lines| ==> Clean(lines[i].text)
  }

  predicate OneLine(lines: seq<Line>) {
    forall i :: 0 <= i < |lines| ==> NEWLINE !in TextOf(lines[i].text)
  }

  lemma {:induction false} SpacesLead(n: nat, w: Words)
    ensures |Spaces(n)| == n && NEWLINE !in Spaces(n)
    ensures Leading(Spaces(n) + w) == n + Leading(w)
  {
    if n == 0 {
      assert Spaces(0) + w == w;
    } else {
      SpacesLead(n - 1, w);
      assert (Spaces(n) + w)[1..] == Spaces(n - 1) + w;
    }
  }

  lemma {:induction false} EndsThere(w: Words, rest: Words)
    requires NEWLINE !in w
    ensures LineEnd(w + [NEWLINE] + rest) == |w|
  {
    if w == [] {
      assert (w + [NEWLINE] + rest)[0] == NEWLINE;
    } else {
      EndsThere(w[1..], rest);
      assert (w + [NEWLINE] + rest)[1..] == w[1..] + [NEWLINE] + rest;
    }
  }

  /** One line off the front of a source. */
  lemma FirstLine(l: Line, rest: Words)
    requires NEWLINE !in TextOf(l.text)
    ensures ReadSource(LineText(l) + [NEWLINE] + rest) == ReadLine(LineText(l)) + ReadSource(rest)
  {
    SpacesLead(l.indent, TextOf(l.text));
    EndsThere(LineText(l), rest);
    var w := LineText(l) + [NEWLINE] + rest;
    assert w[..|LineText(l)|] == LineText(l) && w[|LineText(l)| + 1..] == rest;
  }

  /** A line is read as itself exactly when its text is clean. */
  lemma LineReadsExactly(l: Line)
    requires NEWLINE !in TextOf(l.text)
    ensures |ReadLine(LineText(l))| <= 1 && (ReadLine(LineText(l)) == [l] <==> Clean(l.text))
  {
    var w, t := LineText(l), TextOf(l.text);
    SpacesLead(l.indent, t);
    var n := Leading(t);
    assert w[l.indent + n..] == t[n..];
    if n == 0 {
      assert t[0..] == t;
      if t != [] { assert w[l.indent] == t[0]; }
    } else {
      assert t[0] == SPACE;
      if ReadLine(w) != [] { assert ReadLine(w)[0].indent == l.indent + n; }
    }
  }

  lemma CleanSplit(lines: seq<Line>)
    requires lines != []
    ensures AllClean(lines) <==> Clean(lines[0].text) && AllClean(lines[1..])
    ensures OneLine(lines) ==> NEWLINE !in TextOf(lines[0].text) && OneLine(lines[1..])
  {
    var rest := lines[1..];
    assert forall i :: 0 <= i < |rest| ==> rest[i] == lines[i + 1];
    if Clean(lines[0].text) && AllClean(rest) {
      forall i | 0 <= i < |lines| ensures Clean(lines[i].text) { if i > 0 { assert lines[i] == rest[i - 1]; } }
    }
  }

  /** At most one line from the first and at most as many as there are from the rest. */
  lemma SameParts(lines: seq<Line>, first: seq<Line>, more: seq<Line>)
    requires lines != [] && |first| <= 1 && |more| <= |lines| - 1
    ensures first + more == lines <==> first == [lines[0]] && more == lines[1..]
  {
    if first + more == lines {
      assert |first| == 1 && first[0] == (first + more)[0] && more == (first + more)[1..];
    }
    assert [lines[0]] + lines[1..] == lines;
  }

  lemma {:induction false} SourceReads(lines: seq<Line>)
    requires OneLine(lines)
    ensures |ReadSource(Source(lines))| <= |lines|
    ensures ReadSource(Source(lines)) == lines <==> AllClean(lines)
  {
    if lines != [] {
      CleanSplit(lines);
      FirstLine(lines[0], Source(lines[1..]));
      LineReadsExactly(lines[0]);
      SourceReads(lines[1..]);
      SameParts(lines, ReadLine(LineText(lines[0])), ReadSource(Source(lines[1..])));
    }
  }

  /** No line that is read holds a line end. */
  lemma {:induction false} ReadIsOneLine(w: Words)
    ensures OneLine(ReadSource(w))
    decreases |w|
  {
    if w != [] {
      var n := LineEnd(w);
      LineIsOneLine(w[..n]);
      if n < |w| { ReadIsOneLine(w[n + 1..]); }
    }
  }

  lemma LineIsOneLine(w: Words)
    requires NEWLINE !in w
    ensures OneLine(ReadLine(w))
  {
    var n := Leading(w);
    if n < |w| && w[n] != Ch('#') { ClassifiedText(w[n..]); }
  }

  /** The text of a line is what it was classified from. */
  lemma ClassifiedText(w: Words)
    ensures TextOf(Classify(w)) == w
  {
    HeaderText(w, "class ");
    HeaderText(w, "def ");
    HeaderText(w, "if ");
    HeaderText(w, "elif ");
    HeaderText(w, "while ");
    HeaderText(w, "for ");
    HeaderText(w, "except ");
  }

  lemma HeaderText(w: Words, keyword: string)
    ensures IsHeader(w, keyword) ==> Header(keyword, Inside(w, keyword)) == w
  {
    if IsHeader(w, keyword) { assert Str(":")[0] == Ch(':'); }
  }

  /** The source of any lines reads back as those lines if and only if every line's text is
      clean. */
  lemma SourceReadsBackExactly(lines: seq<Line>)
    ensures ReadSource(Source(lines)) == lines <==> AllClean(lines)
  {
    if OneLine(lines) {
      SourceReads(lines);
    } else {
      ReadIsOneLine(Source(lines));
      assert !AllClean(lines);
    }
  }

  // ----- Which lines are clean -----

  /** A plain line that looks like another kind of line. */
  predicate LooksLike(w: Words) {
    || w in {Str("pass"), Str("else:"), Str("try:"), Str("finally:")}
    || IsHeader(w, "class ") || IsHeader(w, "def ") || IsHeader(w, "if ") || IsHeader(w, "elif ")
    || IsHeader(w, "while ") || IsHeader(w, "for ") || IsHeader(w, "except ")
  }

  /** The keywords of headers differ in their first two letters. */
  predicate OtherKeyword(w: Words, keyword: string) {
    |keyword| > 1 && |w| > 1 && (w[0] != Ch(keyword[0]) || w[1] != Ch(keyword[1]))
  }

  lemma NotTheOther(w: Words, keyword: string)
    requires OtherKeyword(w, keyword)
    ensures !IsHeader(w, keyword)
  {
    var n := if |keyword| < |w| then |keyword| else 2;
    assert n <= |w| && w[..n][0] == w[0] && w[..n][1] == w[1];
    assert Str(keyword)[0] == Ch(keyword[0]) && Str(keyword)[1] == Ch(keyword[1]);
  }

  lemma HeaderIs(keyword: string, s: Words)
    requires |keyword| > 2
    ensures var w := Header(keyword, s);
            && IsHeader(w, keyword) && Inside(w, keyword) == s
            && |w| > 3 && w[0] == Ch(keyword[0]) && w[1] == Ch(keyword[1]) && w[2] == Ch(keyword[2])
  {
    var w := Header(keyword, s);
    assert w[..|keyword|] == Str(keyword) && w[|keyword|..|w| - 1] == s;
  }

  /** A text whose first letters are no other header's, and not one of the fixed lines. */
  lemma OnlyHeader(w: Words, keyword: string)
    requires keyword in ["class ", "def ", "if ", "elif ", "while ", "for ", "except "]
    requires |w| > 3 && w[0] == Ch(keyword[0]) && w[1] == Ch(keyword[1]) && w[2] == Ch(keyword[2])
    ensures forall k :: k in ["class ", "def ", "if ", "elif ", "while ", "for ", "except "] && k != keyword ==>
      !IsHeader(w, k)
    ensures w !in {Str("pass"), Str("else:"), Str("try:"), Str("finally:")}
  {
    forall k | k in ["class ", "def ", "if ", "elif ", "while ", "for ", "except "] && k != keyword
      ensures !IsHeader(w, k)
    {
      NotTheOther(w, k);
    }
    assert Str("pass")[0] == Ch('p') && Str("else:")[2] == Ch('s');
    assert Str("try:")[0] == Ch('t') && Str("finally:")[1] == Ch('i');
  }

  lemma HeaderClassified(keyword: string, s: Words)
    requires keyword in ["class ", "def ", "if ", "elif ", "while ", "for ", "except "]
    ensures var w := Header(keyword, s);
            && w[0] != SPACE && w[0] != Ch('#')
            && IsHeader(w, keyword) && Inside(w, keyword) == s
            && w !in {Str("pass"), Str("else:"), Str("try:"), Str("finally:")}
            && forall k :: k in ["class ", "def ", "if ", "elif ", "while ", "for ", "except "] && k != keyword ==>
                 !IsHeader(w, k)
  {
    HeaderIs(keyword, s);
    OnlyHeader(Header(keyword, s), keyword);
  }

  function KeywordOf(t: Text): string
    requires !t.Plain? && !Fixed(t)
  {
    match t
    case ClassHead(_) => "class "
    case DefHead(_) => "def "
    case IfHead(_) => "if "
    case ElifHead(_) => "elif "
    case WhileHead(_) => "while "
    case ForHead(_) => "for "
    case ExceptHead(_) => "except "
  }

  predicate Fixed(t: Text) { t.Pass? || t.ElseHead? || t.TryHead? || t.FinallyHead? }

  lemma HeaderClean(t: Text)
    requires !t.Plain? && !Fixed(t)
    ensures Clean(t) <==> NEWLINE !in t.s
  {
    var keyword := KeywordOf(t);
    HeaderClassified(keyword, t.s);
    HeaderOneLine(keyword, t.s);
    ClassifyHeader(t);
  }

  lemma HeaderOneLine(keyword: string, s: Words)
    requires '\n' !in keyword
    ensures NEWLINE in Header(keyword, s) <==> NEWLINE in s
  {
    assert forall i :: 0 <= i < |keyword| ==> Str(keyword)[i] == Ch(keyword[i]);
    assert Str(":") == [Ch(':')];
  }

  /** A text that is a header of one keyword and of no other, and no fixed line. */
  predicate HeaderOf(w: Words, keyword: string) {
    && IsHeader(w, keyword) && w !in {Str("pass"), Str("else:"), Str("try:"), Str("finally:")}
    && forall k :: k in ["class ", "def ", "if ", "elif ", "while ", "for ", "except "] && k != keyword ==>
         !IsHeader(w, k)
  }

  lemma ClassifyFirst(w: Words)
    ensures HeaderOf(w, "class ") ==> Classify(w) == ClassHead(Inside(w, "class "))
    ensures HeaderOf(w, "def ") ==> Classify(w) == DefHead(Inside(w, "def "))
    ensures HeaderOf(w, "if ") ==> Classify(w) == IfHead(Inside(w, "if "))
  {
  }

  lemma ClassifyLast(w: Words)
    ensures HeaderOf(w, "elif ") ==> Classify(w) == ElifHead(Inside(w, "elif "))
    ensures HeaderOf(w, "while ") ==> Classify(w) == WhileHead(Inside(w, "while "))
    ensures HeaderOf(w, "for ") ==> Classify(w) == ForHead(Inside(w, "for "))
    ensures HeaderOf(w, "except ") ==> Classify(w) == ExceptHead(Inside(w, "except "))
  {
  }

  lemma ClassifyHeader(t: Text)
    requires !t.Plain? && !Fixed(t)
    ensures TextOf(t) == Header(KeywordOf(t), t.s) && Classify(TextOf(t)) == t
  {
    HeaderClassified(KeywordOf(t), t.s);
    assert HeaderOf(TextOf(t), KeywordOf(t));
    ClassifyFirst(TextOf(t));
    ClassifyLast(TextOf(t));
  }

  lemma PlainClassified(s: Words)
    ensures Classify(s) == Plain(s) <==> !LooksLike(s)
  {
  }

  /** Exactly which lines are clean: a header by its own keyword as long as it is one line,
      a fixed line always, and a plain line unless it looks like one of those. */
  lemma CleanExactly(t: Text)
    ensures Clean(t) <==>
            if t.Plain? then
              NEWLINE !in t.s && t.s != [] && t.s[0] != SPACE && t.s[0] != Ch('#') && !LooksLike(t.s)
            else Fixed(t) || NEWLINE !in t.s
  {
    if t.Plain? {
      PlainClassified(t.s);
    } else if Fixed(t) {
      FixedClean(t);
    } else {
      HeaderClean(t);
    }
  }

  lemma FixedClean(t: Text)
    requires Fixed(t)
    ensures Clean(t)
  {
    var w := TextOf(t);
    assert Str("pass")[0] == Ch('p') && Str("else:")[0] == Ch('e') && Str("try:")[0] == Ch('t')
           && Str("finally:")[0] == Ch('f');
  }

  // ----- Blocks from their source -----

  /** The source of a block's lines, read as a file, is the block's control tree whenever
      every line is clean. */
  lemma BlockReadsFromSource(body: seq<Stmt>)
    requires !AnyRefused(body) && AllClean(BlockLines(body, 0))
    ensures R.ReadFile(ReadSource(Source(BlockLines(body, 0)))) == Some(R.TreeOfBlock(body))
  {
    SourceReadsBackExactly(BlockLines(body, 0));
    T.FileReadsBack(body);
  }

  /** Two blocks of clean lines that emit the same source have the same control tree. */
  lemma SourcesDetermineTree(a: seq<Stmt>, b: seq<Stmt>)
    requires !AnyRefused(a) && AllClean(BlockLines(a, 0)) && !AnyRefused(b) && AllClean(BlockLines(b, 0))
    requires Source(BlockLines(a, 0)) == Source(BlockLines(b, 0))
    ensures R.TreeOfBlock(a) == R.TreeOfBlock(b)
  {
    BlockReadsFromSource(a);
    BlockReadsFromSource(b);
  }

  /** A line that is not clean: a statement that is the name pass is read as no statement. */
  lemma PassIsLost()
    ensures var body := [IR.ExprStmt(Str("pass"))];
            && !AnyRefused(body) && R.TreeOfBlock(body) == [R.Py.Line(Str("pass"))]
            && R.ReadFile(ReadSource(Source(BlockLines(body, 0)))) == Some([])
  {
    var s: Stmt := IR.ExprStmt(Str("pass"));
    var body := [s];
    var lines := [Line(0, Plain(Str("pass")))];
    assert StmtLines(s, 0) == lines && body[1..] == [] && StmtsLines(body[1..], 0) == [];
    assert BlockLines(body, 0) == lines + [];
    assert lines[1..] == [] && Source(lines) == Source([Line(0, Pass)]);
    FixedClean(Pass);
    SourceReadsBackExactly([Line(0, Pass)]);
    var none: seq<Stmt> := [];
    T.FileReadsBack(none);
    assert BlockLines(none, 0) == [Line(0, Pass)];
  }
}
