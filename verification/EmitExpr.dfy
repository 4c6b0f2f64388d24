/** Expressions as Python text; None is an operator or a node the emitter does not support. */
module EmitExpr {
  import opened Prelude
  import opened IR
  import opened EmitText
  import opened IntText

  function BinOp(op: string): Option<string> {
    if op in {"+", "-", "*", "<", ">", "<=", ">=", "==", "!=", "<<", ">>", "//", "%", "is", "is not"} then Some(op)
    else if op == "&&" then Some("and")
    else if op == "||" then Some("or")
    else None
  }

  function UnaryOp(op: string): Option<string> {
    if op == "-" || op == "+" then Some(op) else if op == "!" then Some("not ") else None
  }

  function Decimal(i: int): string { FormatInt(i, 10) }

  function Quoted(name: string): string { "\"" + name + "\"" }

  function MaskHelper(bits: int, signed: bool): string {
    (if signed then "_i" else "_u") + Decimal(bits)
  }

  // ----- Bytes literals -----

  function Hex(v: int): char
    requires 0 <= v < 16
  {
    if v < 10 then ('0' as int + v) as char else ('a' as int + v - 10) as char
  }

  /** A byte inside the quotes of a bytes literal. */
  function PyByte(b: Byte): string {
    var c := b as char;
    if c == '\\' then "\\\\"
    else if c == '\"' then "\\\""
    else if c == '\n' then "\\n"
    else if c == '\r' then "\\r"
    else if c == '\t' then "\\t"
    else if b < 0x20 || b >= 0x7F then "\\x" + [Hex(b / 16), Hex(b % 16)]
    else [c]
  }

  function Escaped(bytes: seq<Byte>): string {
    if bytes == [] then "" else PyByte(bytes[0]) + Escaped(bytes[1..])
  }

  function PyBytes(bytes: seq<Byte>): string { "b\"" + Escaped(bytes) + "\"" }

  function HexValue(c: char): int {
    if '0' <= c <= '9' then c as int - '0' as int
    else if 'a' <= c <= 'f' then c as int - 'a' as int + 10
    else -1
  }

  /** One byte read as Python reads it inside a bytes literal (section 2.4.1 of the
      Python Language Reference), for the escapes the emitter writes. */
  function ReadByte(t: string): Option<(Byte, string)> {
    if t == "" || t[0] == '\"' || t[0] == '\n' || t[0] as int >= 0x80 then None
    else if t[0] != '\\' then Some((t[0] as Byte, t[1..]))
    else if |t| < 2 then None
    else if t[1] == '\\' || t[1] == '\"' then Some((t[1] as Byte, t[2..]))
    else if t[1] == 'n' then Some((10, t[2..]))
    else if t[1] == 'r' then Some((13, t[2..]))
    else if t[1] == 't' then Some((9, t[2..]))
    else if t[1] == 'x' && |t| >= 4 && HexValue(t[2]) >= 0 && HexValue(t[3]) >= 0 then
      Some((16 * HexValue(t[2]) + HexValue(t[3]), t[4..]))
    else None
  }

  /** The bytes up to the closing quote, and what stands after it. */
  function ReadBytes(t: string): Option<(seq<Byte>, string)>
    decreases |t|
  {
    if t != "" && t[0] == '\"' then Some(([], t[1..]))
    else
      var b :- ReadByte(t);
      assert |b.1| < |t|;
      var more :- ReadBytes(b.1);
      Some(([b.0] + more.0, more.1))
  }

  lemma PyByteReads(b: Byte, rest: string)
    ensures PyByte(b) != "" && PyByte(b)[0] != '\"'
    ensures ReadByte(PyByte(b) + rest) == Some((b, rest))
  {
    var t := PyByte(b) + rest;
    if b == 92 || b == 34 || b == 10 || b == 13 || b == 9 {
      assert t[2..] == rest;
    } else if b < 0x20 || b >= 0x7F {
      assert t[4..] == rest;
      assert HexValue(Hex(b / 16)) == b / 16 && HexValue(Hex(b % 16)) == b % 16;
    } else {
      assert t[1..] == rest;
    }
  }

  lemma {:induction false} EscapedReads(bytes: seq<Byte>, rest: string)
    ensures ReadBytes(Escaped(bytes) + ("\"" + rest)) == Some((bytes, rest))
  {
    if bytes == [] {
      assert ("\"" + rest)[1..] == rest;
      assert "" + ("\"" + rest) == "\"" + rest;
    } else {
      var more := Escaped(bytes[1..]) + ("\"" + rest);
      assert Escaped(bytes) + ("\"" + rest) == PyByte(bytes[0]) + more;
      PyByteReads(bytes[0], more);
      EscapedReads(bytes[1..], rest);
      assert [bytes[0]] + bytes[1..] == bytes;
    }
  }

  /** The literal of a byte string is read back as exactly those bytes, and it ends where
      the emitter ended it, whatever text follows. */
  lemma BytesReadBack(bytes: seq<Byte>, rest: string)
    ensures (PyBytes(bytes) + rest)[..2] == "b\""
    ensures ReadBytes((PyBytes(bytes) + rest)[2..]) == Some((bytes, rest))
  {
    assert (PyBytes(bytes) + rest)[2..] == Escaped(bytes) + ("\"" + rest);
    EscapedReads(bytes, rest);
  }

  /** The literal stays on its line and in printable ASCII. */
  lemma {:induction false} BytesArePrintable(bytes: seq<Byte>)
    ensures forall i :: 0 <= i < |Escaped(bytes)| ==> 0x20 <= Escaped(bytes)[i] as int < 0x7F
  {
    if bytes != [] {
      BytesArePrintable(bytes[1..]);
      var b := bytes[0];
      assert forall i :: 0 <= i < |PyByte(b)| ==> 0x20 <= PyByte(b)[i] as int < 0x7F;
    }
  }

  // ----- Expressions -----

  function Emit(e: Expr): Option<Words>
    decreases e, 0
  {
    match e
    case NilExpr => None
    case IntLit(text) => Some(Str(text))
    case FloatLit(text) => Some(Str(text))
    case StringLit(bytes) => Some(Str(PyBytes(bytes)))
    case BoolLit(value) => Some(Str(if value then "True" else "False"))
    case Ident(name) => Some(Str(name))
    case Binary(op, x, y) =>
      var o :- BinOp(op);
      var a :- Emit(x);
      var b :- Emit(y);
      Some(Str("(") + a + Str(" " + o + " ") + b + Str(")"))
    case Unary(op, x) =>
      var o :- UnaryOp(op);
      var a :- Emit(x);
      Some(Str("(" + o) + a + Str(")"))
    case Mask(bits, signed, x) =>
      var a :- Emit(x);
      Some(Runtime(MaskHelper(bits, signed) + "(") + a + Str(")"))
    case Convert(to, x) =>
      var a :- Emit(x);
      Some(Str(to + "(") + a + Str(")"))
    case IndexExpr(x, index) =>
      var a :- Emit(x);
      var i :- Emit(index);
      Some(a + Str("[") + i + Str("]"))
    case Call(name, args) =>
      var ws :- EmitArgs(args);
      Some(Str(name + "(") + Join(ws) + Str(")"))
    case MethodCall(recv, name, args) =>
      var a :- Emit(recv);
      var ws :- EmitArgs(args);
      Some(a + Str("." + name + "(") + Join(ws) + Str(")"))
    case MethodValue(recv, name, copy) =>
      var a :- Emit(recv);
      Some(a + Str((if copy then ".copy()." else ".") + name))
    case MethodExpr(typ, name, valueCopy) =>
      Some(Str(if valueCopy then "lambda _s, *_a: " + typ + "." + name + "(_s.copy(), *_a)" else typ + "." + name))
    case Intrinsic(name, args) =>
      var ws :- EmitArgs(args);
      Some(Runtime(name + "(") + Join(ws) + Str(")"))
    case ShimFunc(name) => Some(Runtime(name))
    case FieldAccess(x, name) =>
      var a :- Emit(x);
      Some(a + Str("." + name))
    case AddrField(container, name) =>
      var a :- Emit(container);
      Some(Runtime("FieldPtr(") + a + Str(", " + Quoted(name) + ")"))
    case AddrIndex(sequence, index) =>
      var a :- Emit(sequence);
      var i :- Emit(index);
      Some(Runtime("IndexPtr(") + a + Str(", ") + i + Str(")"))
    case Deref(x) =>
      var a :- Emit(x);
      Some(a + Str(".get()"))
    case Tuple(elems) =>
      var ws :- EmitArgs(elems);
      Some(Str("(") + Join(ws) + Str(if |elems| == 1 then ",)" else ")"))
    case Lambda(params, captures, body) =>
      var caps :- EmitCaptures(captures);
      var b :- Emit(body);
      var sig := SignatureText(params, caps);
      Some((if sig == [] then Str("lambda: ") else Str("lambda ") + sig + Str(": ")) + b)
    case StructLit(typ, keyed, fields) =>
      var ws :- EmitFields(keyed, fields);
      Some(Str(typ + "(") + Join(ws) + Str(")"))
    case Clone(x) =>
      var a :- Emit(x);
      Some(a + Str(".copy()"))
    case ArrayZero(len, elem, elemMutable) =>
      var a :- Emit(elem);
      Some(if len == 0 then Str("[]")
           else if elemMutable then Str("[") + a + Str(" for _ in range(" + Decimal(len) + ")]")
           else Str("[") + a + Str("] * " + Decimal(len)))
    case ArrayLit(elems) =>
      var ws :- EmitArgs(elems);
      Some(Str("[") + Join(ws) + Str("]"))
    case ArrayClone(x) =>
      var a :- Emit(x);
      Some(Runtime("_clone_array(") + a + Str(")"))
    case SliceLit(elems) =>
      var ws :- EmitArgs(elems);
      Some(Runtime("_slice_lit([") + Join(ws) + Str("])"))
    case SliceMake(length, capacity, elem, elemMutable) =>
      var l :- Emit(length);
      var c :- Emit(capacity);
      var a :- Emit(elem);
      var backing := if elemMutable then Str("[") + a + Str(" for _ in range(") + c + Str(")]")
                     else Str("[") + a + Str("] * ") + c;
      Some(Runtime("Slice(") + backing + Str(", 0, ") + l + Str(", ") + c + Str(")"))
    case SliceExpr(x, low, high, max) =>
      var a :- Emit(x);
      var l :- EmitBound(low);
      var h :- EmitBound(high);
      if max.None? then Some(a + Str("[") + l + Str(":") + h + Str("]"))
      else
        var m :- Emit(max.value);
        Some(Runtime("_subslice3(") + a + Str(", ") + (if l == [] then Str("0") else l) + Str(", ") + h
             + Str(", ") + m + Str(")"))
    case NilSlice => Some(Runtime("NIL_SLICE"))
    case MapLit(entries) =>
      var ws :- EmitEntries(entries);
      Some(Str("{") + Join(ws) + Str("}"))
    case NilMap => Some(Runtime("NIL_MAP"))
    case NilPtr => Some(Runtime("NIL_PTR"))
    case NilInterface => Some(Str("None"))
    case EmptyStruct => Some(Str("()"))
  }

  /** A slice bound; an omitted one leaves its side empty. */
  function EmitBound(bound: Option<Expr>): Option<Words>
    decreases bound, 1
  {
    match bound
    case None => Some([])
    case Some(e) => Emit(e)
  }

  function EmitArgs(args: seq<Expr>): Option<seq<Words>>
    decreases args, 1
  {
    if args == [] then Some([])
    else
      var w :- Emit(args[0]);
      var ws :- EmitArgs(args[1..]);
      Some([w] + ws)
  }

  function EmitCaptures(captures: seq<Capture<Expr>>): Option<seq<Capture<Words>>>
    decreases captures, 1
  {
    if captures == [] then Some([])
    else
      var w :- Emit(captures[0].value);
      var cs :- EmitCaptures(captures[1..]);
      Some([Capture(captures[0].param, w)] + cs)
  }

  function EmitFields(keyed: bool, fields: seq<StructArg>): Option<seq<Words>>
    decreases fields, 1
  {
    if fields == [] then Some([])
    else
      var w :- Emit(fields[0].value);
      var ws :- EmitFields(keyed, fields[1..]);
      Some([if keyed then Str(fields[0].name + "=") + w else w] + ws)
  }

  function EmitEntry(entry: MapEntry): Option<Words>
    decreases entry, 1
  {
    var k :- Emit(entry.key);
    var v :- Emit(entry.value);
    Some(k + Str(": ") + v)
  }

  function EmitEntries(entries: seq<MapEntry>): Option<seq<Words>>
    decreases entries, 1
  {
    if entries == [] then Some([])
    else
      var w :- EmitEntry(entries[0]);
      var ws :- EmitEntries(entries[1..]);
      Some([w] + ws)
  }
}
