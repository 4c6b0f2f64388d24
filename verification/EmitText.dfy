/** Emitted text as a sequence of symbols. */
module EmitText {
  // A symbol is a character the emitter writes or the name of the imported runtime, which is
  // one symbol of its own, so that naming the runtime cannot be confused with a user name
  // that happens to hold its letters.

  import opened IR

  datatype Sym = Ch(c: char) | Shim

  type Words = seq<Sym>

  function Str(s: string): (w: Words)
    ensures |w| == |s| && Shim !in w
  {
    seq(|s|, i requires 0 <= i < |s| => Ch(s[i]))
  }

  lemma StrConcat(a: string, b: string)
    ensures Str(a + b) == Str(a) + Str(b)
  {
  }

  /** A name of the runtime, reached through the import. */
  function Runtime(name: string): (w: Words)
    ensures |w| > 0 && w[0] == Shim
  {
    [Shim] + Str("." + name)
  }

  function Join(parts: seq<Words>): Words {
    if parts == [] then [] else if |parts| == 1 then parts[0] else parts[0] + Str(", ") + Join(parts[1..])
  }

  function Names(names: seq<string>): (ws: seq<Words>)
    ensures |ws| == |names| && forall i :: 0 <= i < |ws| ==> Shim !in ws[i]
  {
    seq(|names|, i requires 0 <= i < |names| => Str(names[i]))
  }

  function OrBlank(name: string): string { if name == "" then "_" else name }

  /** Captured variables as default arguments. */
  function Defaults(captures: seq<Capture<Words>>): seq<Words> {
    seq(|captures|, i requires 0 <= i < |captures| => Str(captures[i].param + "=") + captures[i].value)
  }

  /** The plain parameters and after them the captures. */
  function SignatureText(params: seq<string>, captures: seq<Capture<Words>>): Words {
    Join(Names(params) + Defaults(captures))
  }
}
