/** What acceptance by the verifier promises of the emitted module. */
module EmitVerified {
  import opened Prelude
  import opened IR
  import opened IRVerify
  import opened EmitComplete
  import opened EmitWrite
  import opened EmitModule
  import R = EmitReading
  import T = EmitRoundTrip
  import S = EmitSource

  // ----- Verified modules emit -----

  predicate FuncsKnown(fs: seq<Func>) {
    forall i :: 0 <= i < |fs| ==> BlockKnown(fs[i].body)
  }

  /** Every operator in a body is in the emitter's tables. */
  predicate ModuleKnown(m: Module) {
    && (forall i :: 0 <= i < |m.structs| ==> FuncsKnown(m.structs[i].methods))
    && (forall i :: 0 <= i < |m.named| ==> FuncsKnown(m.named[i].methods))
    && FuncsKnown(m.funcs)
  }

  lemma {:induction false} FuncsEmit(fs: seq<Func>, depth: nat, method_: bool)
    requires forall i :: 0 <= i < |fs| ==> FuncOk(fs[i])
    ensures FuncsLines(fs, depth, method_).Some? <==> FuncsKnown(fs)
  {
    if fs != [] {
      assert FuncOk(fs[0]);
      BodyEmits(fs[0].body, depth + 1);
      assert forall i :: 0 <= i < |fs[1..]| ==> FuncOk(fs[1..][i]) by {
        assert forall i :: 0 <= i < |fs[1..]| ==> fs[1..][i] == fs[i + 1];
      }
      FuncsEmit(fs[1..], depth, method_);
      assert FuncsKnown(fs) <==> BlockKnown(fs[0].body) && FuncsKnown(fs[1..]) by { KnownSplit(fs); }
    }
  }

  lemma KnownSplit(fs: seq<Func>)
    requires fs != []
    ensures FuncsKnown(fs) <==> BlockKnown(fs[0].body) && FuncsKnown(fs[1..])
  {
    if BlockKnown(fs[0].body) && FuncsKnown(fs[1..]) {
      forall i | 0 <= i < |fs| ensures BlockKnown(fs[i].body) {
        if i > 0 { assert fs[i] == fs[1..][i - 1]; }
      }
    }
  }

  predicate StructsKnown(ds: seq<StructDef>) {
    forall i :: 0 <= i < |ds| ==> FuncsKnown(ds[i].methods)
  }

  lemma {:induction false} StructsEmit(package: string, ds: seq<StructDef>)
    requires forall i :: 0 <= i < |ds| ==> StructOk(ds[i])
    ensures StructsLines(package, ds).Some? <==> StructsKnown(ds)
  {
    if ds != [] {
      assert StructOk(ds[0]);
      FuncsEmit(ds[0].methods, 1, true);
      assert forall i :: 0 <= i < |ds[1..]| ==> ds[1..][i] == ds[i + 1];
      StructsEmit(package, ds[1..]);
      if FuncsKnown(ds[0].methods) && StructsKnown(ds[1..]) {
        forall i | 0 <= i < |ds| ensures FuncsKnown(ds[i].methods) {
          if i > 0 { assert ds[i] == ds[1..][i - 1]; }
        }
      }
    }
  }

  predicate NamedsKnown(ds: seq<NamedDef>) {
    forall i :: 0 <= i < |ds| ==> FuncsKnown(ds[i].methods)
  }

  lemma {:induction false} NamedsEmit(ds: seq<NamedDef>)
    requires forall i :: 0 <= i < |ds| ==> NamedOk(ds[i])
    ensures NamedsLines(ds).Some? <==> NamedsKnown(ds)
  {
    if ds != [] {
      assert NamedOk(ds[0]);
      FuncsEmit(ds[0].methods, 1, true);
      assert forall i :: 0 <= i < |ds[1..]| ==> ds[1..][i] == ds[i + 1];
      NamedsEmit(ds[1..]);
      if FuncsKnown(ds[0].methods) && NamedsKnown(ds[1..]) {
        forall i | 0 <= i < |ds| ensures FuncsKnown(ds[i].methods) {
          if i > 0 { assert ds[i] == ds[1..][i - 1]; }
        }
      }
    }
  }

  /** An accepted module emits if and only if the operators in its bodies are known. */
  lemma VerifiedModulesEmit(m: Module)
    requires WellFormed(m)
    ensures ModuleLines(m).Some? <==> ModuleKnown(m)
  {
    NamedsEmit(m.named);
    StructsEmit(m.package, m.structs);
    FuncsEmit(m.funcs, 0, false);
  }

  /** The lines emitted for an accepted body read back as the body's control tree, and so
      does their source text when every line is clean. */
  lemma VerifiedBodyReadsBack(body: seq<Stmt<Expr>>)
    requires VerifyBlock(body) && BlockKnown(body)
    ensures WriteBlock(body).Some? && EmitBody(body, 0).Some?
    ensures R.ReadFile(EmitBody(body, 0).value) == Some(R.TreeOfBlock(WriteBlock(body).value))
    ensures S.AllClean(EmitBody(body, 0).value) ==>
      R.ReadFile(S.ReadSource(S.Source(EmitBody(body, 0).value))) == Some(R.TreeOfBlock(WriteBlock(body).value))
  {
    BlockWrites(body);
    T.FileReadsBack(WriteBlock(body).value);
    S.SourceReadsBackExactly(EmitBody(body, 0).value);
  }
}
