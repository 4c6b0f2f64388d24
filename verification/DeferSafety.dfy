/** The emitted defer shape against Go's rule, for every body and every run of it. */
module DeferSafety {
  import opened Prelude
  import opened Defers

  // ----- The body -----

  /** The activation while its body runs: nothing drained yet, nothing handled. */
  ghost predicate Ready(m: Machine) {
    m.handling == None && m.defers == m.pushed && m.ran == []
  }

  /** The activation where the body's statements left it. */
  ghost function Reached(m: Machine, g: GoState): Machine {
    m.(vars := g.vars, defers := g.pushed, pushed := g.pushed)
  }

  /** What executing the emitted statements gives, told by Go's run of the IR. */
  ghost predicate Follows(m: Machine, g: GoState, r: (Machine, PyEnd), reshape: bool) {
    match g.end
    case GoFell => r == (Reached(m, g), Fell)
    case GoTimeout => r.1 == OutOfFuel
    case GoPanicked(v) => r == (Reached(m, g).(panics := m.panics + 1), Raised(v))
    case GoReturned =>
      if !reshape then r == (Reached(m, g), PyReturned(g.vars))
      else
        var (m', q) := Drain(Reached(m, g));
        r == (m', if q.Some? then Raised(q.value) else PyReturned(m'.vars))
  }

  lemma {:induction false} ExecConcat(a: seq<Py>, b: seq<Py>, m: Machine, fuel: nat)
    ensures ExecBlock(a + b, m, fuel) ==
            var (m', e) := ExecBlock(a, m, fuel);
            if e.Fell? then ExecBlock(b, m', fuel) else (m', e)
    decreases |a|
  {
    if a == [] {
      assert a + b == b;
    } else {
      assert (a + b)[1..] == a[1..] + b;
      var (m', e) := Exec(a[0], m, fuel);
      if e.Fell? { ExecConcat(a[1..], b, m', fuel); }
    }
  }

  lemma ExecSingle(p: Py, m: Machine, fuel: nat)
    ensures ExecBlock([p], m, fuel) == Exec(p, m, fuel)
  {
    var (m', e) := Exec(p, m, fuel);
    assert [p][1..] == [];
    assert ExecBlock([], m', fuel) == (m', Fell);
  }

  lemma ExecCons(p: Py, rest: seq<Py>, m: Machine, fuel: nat)
    ensures ExecBlock([p] + rest, m, fuel) ==
            var (m', e) := Exec(p, m, fuel);
            if e.Fell? then ExecBlock(rest, m', fuel) else (m', e)
  {
    ExecConcat([p], rest, m, fuel);
    ExecSingle(p, m, fuel);
  }

  lemma {:induction false} BlockFollows(body: seq<Stmt>, m: Machine, fuel: nat, reshape: bool)
    requires Ready(m)
    ensures Follows(m, GoBlock(body, m.vars, m.pushed, fuel), ExecBlock(EmitBlock(body, reshape), m, fuel), reshape)
    decreases fuel, body, 1
  {
    if body != [] {
      var g := GoStmt(body[0], m.vars, m.pushed, fuel);
      StmtFollows(body[0], m, fuel, reshape);
      ExecConcat(EmitStmt(body[0], reshape), EmitBlock(body[1..], reshape), m, fuel);
      if g.end.GoFell? {
        BlockFollows(body[1..], Reached(m, g), fuel, reshape);
      }
    }
  }

  lemma {:induction false} StmtFollows(s: Stmt, m: Machine, fuel: nat, reshape: bool)
    requires Ready(m)
    ensures Follows(m, GoStmt(s, m.vars, m.pushed, fuel), ExecBlock(EmitStmt(s, reshape), m, fuel), reshape)
    decreases fuel, s, 0
  {
    match s
    case Do(act) => ExecSingle(PyDo(act), m, fuel);
    case DeferPush(call) => ExecSingle(Append(call), m, fuel);
    case Panic(value) => ExecSingle(Raise(value), m, fuel);
    case DeferReturn =>
      if reshape {
        var (m', q) := Drain(m);
        assert [RunDefers, Return][1..] == [Return];
        ExecSingle(Return, m', fuel);
      } else {
        ExecSingle(Return, m, fuel);
      }
    case If(cond, thn, els) =>
      ExecSingle(PyIf(cond, EmitBlock(thn, reshape), EmitBlock(els, reshape)), m, fuel);
      if cond(m.vars) { BlockFollows(thn, m, fuel, reshape); } else { BlockFollows(els, m, fuel, reshape); }
    case For(cond, body) =>
      ExecSingle(While(cond, EmitBlock(body, reshape)), m, fuel);
      if cond(m.vars) && fuel > 0 {
        BlockFollows(body, m, fuel - 1, reshape);
        var g := GoBlock(body, m.vars, m.pushed, fuel - 1);
        if g.end.GoFell? {
          StmtFollows(s, Reached(m, g), fuel - 1, reshape);
          ExecSingle(While(cond, EmitBlock(body, reshape)), Reached(m, g), fuel - 1);
        }
      }
  }

  /** A body whose last statement is a DeferReturn or a Panic never falls off its end. */
  lemma {:induction false} TerminatedNeverFalls(body: seq<Stmt>, vars: Vars, pushed: seq<Call>, fuel: nat)
    requires EndsTerminated(body)
    ensures !GoBlock(body, vars, pushed, fuel).end.GoFell?
    decreases |body|
  {
    var g := GoStmt(body[0], vars, pushed, fuel);
    if |body| > 1 && g.end.GoFell? {
      assert EndsTerminated(body[1..]);
      TerminatedNeverFalls(body[1..], g.vars, g.pushed, fuel);
    }
  }

  // ----- Draining -----

  /** The panic a deferred call would see now. */
  ghost function Current(m: Machine): Option<Val> {
    if m.recovered then None else m.handling
  }

  ghost function GoFrom(m: Machine): FunctionEnd {
    GoDefers(Reverse(m.defers), m.vars, Current(m), m.ran)
  }

  lemma {:induction false} DrainFollowsGo(m: Machine)
    ensures var (m', q) := Drain(m);
            && m'.ran + Reverse(m'.defers) == m.ran + Reverse(m.defers)
            && m'.pushed == m.pushed && m'.handling == m.handling
            && m'.panics == m.panics + (if q.Some? then 1 else 0)
            && (q.None? ==> m'.defers == [])
            && GoFrom(m) == GoDefers(Reverse(m'.defers), m'.vars, if q.Some? then q else Current(m'), m'.ran)
    decreases |m.defers|
  {
    if m.defers != [] {
      var (m1, p) := RunOne(m);
      var c := m.defers[|m.defers| - 1];
      var todo := Reverse(m.defers);
      assert todo[0] == c && todo[1..] == Reverse(m1.defers);
      assert m.ran + todo == m.ran + [c] + Reverse(m1.defers);
      if p.None? { DrainFollowsGo(m1); }
    }
  }

  lemma {:induction false} GoRunsAll(todo: seq<Call>, vars: Vars, panicking: Option<Val>, ran: seq<Call>)
    ensures var f := GoDefers(todo, vars, panicking, ran);
            (f.Returned? || f.Escaped?) && f.ran == ran + todo
    decreases |todo|
  {
    if todo == [] {
      assert ran + todo == ran;
    } else {
      var c := todo[0];
      var (vars', p) := c.run(vars, if c.recovers(vars) then panicking else None);
      GoRunsAll(todo[1..], vars', AfterCall(c, vars, panicking, p), ran + [c]);
      assert ran + [c] + todo[1..] == ran + todo;
    }
  }

  /** The except block, entered with panic v: the drain, and then the verdict. */
  ghost function Handled(m: Machine, v: Val): (Machine, PyEnd) {
    var (m', q) := Drain(m.(handling := Some(v), recovered := false));
    (m', if q.Some? then Raised(q.value) else if m'.recovered then PyReturned(m'.vars) else Raised(v))
  }

  lemma HandlerRuns(m: Machine, v: Val, fuel: nat)
    ensures ExecBlock([RunDefers, RaiseUnlessRecovered, Return], m.(handling := Some(v), recovered := false), fuel)
            == Handled(m, v)
  {
    var m0 := m.(handling := Some(v), recovered := false);
    var (m', q) := Drain(m0);
    DrainFollowsGo(m0);
    assert [RunDefers, RaiseUnlessRecovered, Return] == [RunDefers] + [RaiseUnlessRecovered, Return];
    ExecCons(RunDefers, [RaiseUnlessRecovered, Return], m0, fuel);
    assert [RaiseUnlessRecovered, Return] == [RaiseUnlessRecovered] + [Return];
    ExecCons(RaiseUnlessRecovered, [Return], m', fuel);
    ExecSingle(Return, m', fuel);
  }

  /** Where the try's body leaves off: how it ends once its own draining is done. */
  ghost function TryBody(m: Machine, g: GoState): (Machine, PyEnd) {
    match g.end
    case GoTimeout => (m, OutOfFuel)
    case GoPanicked(v) => (Reached(m, g).(panics := m.panics + 1), Raised(v))
    case _ =>
      var (m', q) := Drain(Reached(m, g));
      (m', if q.Some? then Raised(q.value) else PyReturned(m'.vars))
  }

  function Fresh(vars: Vars): Machine { Machine(vars, [], None, false, [], [], 0) }

  /** The whole emitted function, in terms of Go's run of its body. */
  lemma EmittedRuns(body: seq<Stmt>, vars: Vars, fuel: nat)
    ensures var g := GoBlock(body, vars, [], fuel);
            var t := TryBody(Fresh(vars), g);
            var r := EmittedMachine(body, vars, fuel);
            if t.1.OutOfFuel? then r.1.OutOfFuel?
            else r == if t.1.Raised? then Handled(t.0, t.1.v) else t
  {
    var m := Fresh(vars);
    var g := GoBlock(body, vars, [], fuel);
    var tail := if EndsTerminated(body) then [] else [RunDefers, Return];
    BlockFollows(body, m, fuel, true);
    ExecConcat(EmitBlock(body, true), tail, m, fuel);
    if EndsTerminated(body) {
      TerminatedNeverFalls(body, vars, [], fuel);
    } else if g.end.GoFell? {
      var (m', q) := Drain(Reached(m, g));
      assert [RunDefers, Return] == [RunDefers] + [Return];
      ExecCons(RunDefers, [Return], Reached(m, g), fuel);
      ExecSingle(Return, m', fuel);
    }
    var p := Try(EmitBlock(body, true) + tail, [RunDefers, RaiseUnlessRecovered, Return]);
    assert EmitReshape(body) == [NewDefers] + [p];
    ExecCons(NewDefers, [p], m, fuel);
    ExecSingle(p, m, fuel);
    var t := TryBody(m, g);
    if t.1.Raised? { HandlerRuns(t.0, t.1.v, fuel); }
  }

  // ----- What the shape guarantees -----

  ghost function Unwinding(e: PyEnd): Option<Val> {
    if e.Raised? then Some(e.v) else None
  }

  /** The drained calls after the try's body, and how Go would go on from there. */
  lemma TryBodyDrains(m: Machine, g: GoState)
    requires Ready(m) && m.panics == 0 && !g.end.GoTimeout?
    ensures var (t, e) := TryBody(m, g);
            && t.pushed == g.pushed && t.ran + Reverse(t.defers) == Reverse(g.pushed)
            && t.panics == (if e.Raised? then 1 else 0)
            && !e.Fell? && !e.OutOfFuel?
            && (e.PyReturned? ==> t.defers == [] && e.results == t.vars)
            && GoDefers(Reverse(g.pushed), g.vars, if g.end.GoPanicked? then Some(g.end.v) else None, []) ==
               GoDefers(Reverse(t.defers), t.vars, Unwinding(e), t.ran)
  {
    var r := Reached(m, g);
    assert [] + Reverse(g.pushed) == Reverse(g.pushed);
    if !g.end.GoPanicked? {
      DrainFollowsGo(r);
      var (m', q) := Drain(r);
      assert q.None? ==> m'.defers == [];
      assert Current(r) == None && Current(m') == None;
    }
  }

  lemma HandledDrains(m: Machine, v: Val)
    ensures var (m', e) := Handled(m, v);
            && m'.pushed == m.pushed && m'.ran + Reverse(m'.defers) == m.ran + Reverse(m.defers)
            && m.panics <= m'.panics <= m.panics + 1
            && (m'.panics == m.panics ==> m'.defers == [] && (e.Raised? <==> !m'.recovered))
            && (m'.panics > m.panics ==> e.Raised?)
            && !e.Fell? && !e.OutOfFuel?
            && (e.PyReturned? ==> e.results == m'.vars && m'.defers == [])
            && (e.Raised? && m'.panics == m.panics ==> e.v == v)
            && GoDefers(Reverse(m.defers), m.vars, Some(v), m.ran) ==
               GoDefers(Reverse(m'.defers), m'.vars, Unwinding(e), m'.ran)
  {
    var m0 := m.(handling := Some(v), recovered := false);
    DrainFollowsGo(m0);
    var (m', q) := Drain(m0);
    assert q.None? ==> m'.defers == [];
  }

  /** On every exit the calls that ran are the first ones in reverse order of the
      pushes, each once; there are at most two panics, and control never falls off. */
  lemma RunsAPrefixInReverseOrder(body: seq<Stmt>, vars: Vars, fuel: nat)
    requires !EmittedMachine(body, vars, fuel).1.OutOfFuel?
    ensures var (m, e) := EmittedMachine(body, vars, fuel);
            && m.pushed == GoBlock(body, vars, [], fuel).pushed
            && m.ran <= Reverse(m.pushed) && m.ran + Reverse(m.defers) == Reverse(m.pushed)
            && m.panics <= 2 && !e.Fell?
  {
    var g := GoBlock(body, vars, [], fuel);
    EmittedRuns(body, vars, fuel);
    TryBodyDrains(Fresh(vars), g);
    var t := TryBody(Fresh(vars), g);
    if t.1.Raised? { HandledDrains(t.0, t.1.v); }
  }

  /** With at most one panic in the body and the deferred calls together, every
      deferred call runs, the panic escapes exactly when none of them recovered it,
      and what is returned was read after the last of them. */
  lemma OnePanicOrNone(body: seq<Stmt>, vars: Vars, fuel: nat)
    requires var (m, e) := EmittedMachine(body, vars, fuel); !e.OutOfFuel? && m.panics <= 1
    ensures var (m, e) := EmittedMachine(body, vars, fuel);
            && m.ran == Reverse(m.pushed)
            && (e.Raised? <==> m.panics == 1 && !m.recovered)
            && (e.PyReturned? ==> e.results == m.vars)
  {
    var g := GoBlock(body, vars, [], fuel);
    EmittedRuns(body, vars, fuel);
    TryBodyDrains(Fresh(vars), g);
    var t := TryBody(Fresh(vars), g);
    if t.1.Raised? { HandledDrains(t.0, t.1.v); }
    var m := EmittedMachine(body, vars, fuel).0;
    assert m.defers == [] ==> m.ran + Reverse(m.defers) == m.ran;
  }

  /** In Go's own run of the calls still to do, a second panic comes from a call that is
      not the last. `raised` says that a panic has been raised before. */
  predicate SecondPanicEarly(todo: seq<Call>, vars: Vars, panicking: Option<Val>, raised: bool) {
    && todo != []
    && var c := todo[0];
       var (vars', p) := c.run(vars, if c.recovers(vars) then panicking else None);
       if p.Some? && raised then |todo| > 1
       else SecondPanicEarly(todo[1..], vars', AfterCall(c, vars, panicking, p), raised || p.Some?)
  }

  /** That for the calls a body deferred, a panic of the body counted as the first. */
  predicate PanicsAgainEarly(body: seq<Stmt>, vars: Vars, fuel: nat) {
    var g := GoBlock(body, vars, [], fuel);
    SecondPanicEarly(Reverse(g.pushed), g.vars, if g.end.GoPanicked? then Some(g.end.v) else None, g.end.GoPanicked?)
  }

  lemma ReverseLength(calls: seq<Call>)
    ensures |Reverse(calls)| == |calls|
  {
    if calls != [] { ReverseLength(calls[..|calls| - 1]); }
  }

  /** A drain meets Go's second panic where Go raises it. */
  lemma {:induction false} DrainSeesPanics(m: Machine, raised: bool)
    ensures var (m', q) := Drain(m);
            SecondPanicEarly(Reverse(m.defers), m.vars, Current(m), raised) <==>
            q.Some? && if raised then m'.defers != [] else SecondPanicEarly(Reverse(m'.defers), m'.vars, q, true)
    decreases |m.defers|
  {
    if m.defers != [] {
      var (m1, p) := RunOne(m);
      var todo := Reverse(m.defers);
      assert todo[0] == m.defers[|m.defers| - 1] && todo[1..] == Reverse(m1.defers);
      ReverseLength(m.defers);
      assert AfterCall(todo[0], m.vars, Current(m), p) == if p.Some? then p else Current(m1);
      if p.None? { DrainSeesPanics(m1, raised); }
    }
  }

  /** What the handler leaves behind of the calls it finds. */
  lemma HandlerLeaves(m: Machine, v: Val)
    ensures Handled(m, v).0.defers != [] <==> SecondPanicEarly(Reverse(m.defers), m.vars, Some(v), true)
  {
    var m0 := m.(handling := Some(v), recovered := false);
    var (m', q) := Drain(m0);
    DrainSeesPanics(m0, true);
    DrainFollowsGo(m0);
    assert Handled(m, v).0 == m' && Current(m0) == Some(v);
    assert q.None? ==> m'.defers == [];
  }

  /** And what a return leaves behind, its own drain and then the handler's. */
  lemma ReturnLeaves(m: Machine)
    requires m.handling == None
    ensures var (m', q) := Drain(m);
            (if q.Some? then Handled(m', q.value).0.defers != [] else m'.defers != []) <==>
            SecondPanicEarly(Reverse(m.defers), m.vars, None, false)
  {
    var (m', q) := Drain(m);
    assert Current(m) == None;
    DrainSeesPanics(m, false);
    DrainFollowsGo(m);
    match q
    case Some(v) =>
      HandlerLeaves(m', v);
      assert SecondPanicEarly(Reverse(m.defers), m.vars, None, false) <==>
             SecondPanicEarly(Reverse(m'.defers), m'.vars, Some(v), true);
    case None =>
      assert m'.defers == [];
      assert !SecondPanicEarly(Reverse(m.defers), m.vars, None, false);
  }

  /** The emitted function leaves calls behind exactly when Go's run panics again early. */
  lemma LeavesCallsExactly(body: seq<Stmt>, vars: Vars, fuel: nat)
    requires !GoBlock(body, vars, [], fuel).end.GoTimeout?
    ensures EmittedMachine(body, vars, fuel).0.defers != [] <==> PanicsAgainEarly(body, vars, fuel)
  {
    var g := GoBlock(body, vars, [], fuel);
    var r := Reached(Fresh(vars), g);
    EmittedRuns(body, vars, fuel);
    if g.end.GoPanicked? {
      HandlerLeaves(r.(panics := 1), g.end.v);
    } else {
      ReturnLeaves(r);
    }
  }

  /** The emitted function does exactly what Go does unless, in Go's run, a second panic
      comes from a deferred call that is not the last to run; then, and only then, the
      calls after it are left behind. */
  lemma AgreesWithGoExactly(body: seq<Stmt>, vars: Vars, fuel: nat)
    ensures var (m, e) := EmittedMachine(body, vars, fuel);
            var f := EmittedFunction(body, vars, fuel);
            && (f.Diverged? <==> GoFunction(body, vars, fuel).Diverged?)
            && (!f.Diverged? ==>
                  (f == GoFunction(body, vars, fuel) <==> !PanicsAgainEarly(body, vars, fuel))
                  && (m.ran == Reverse(m.pushed) <==> !PanicsAgainEarly(body, vars, fuel)))
  {
    var g := GoBlock(body, vars, [], fuel);
    EmittedRuns(body, vars, fuel);
    if !g.end.GoTimeout? {
      var t := TryBody(Fresh(vars), g);
      TryBodyDrains(Fresh(vars), g);
      var (m, e) := EmittedMachine(body, vars, fuel);
      if t.1.Raised? { HandledDrains(t.0, t.1.v); }
      var pan := Unwinding(e);
      assert GoFunction(body, vars, fuel) == GoDefers(Reverse(m.defers), m.vars, pan, m.ran);
      GoRunsAll(Reverse(m.defers), m.vars, pan, m.ran);
      assert m.ran + Reverse(m.defers) == Reverse(m.pushed);
      GoRunsAll([], m.vars, pan, m.ran);
      ReverseLength(m.defers);
      if m.defers == [] { assert m.ran + [] == m.ran; }
      LeavesCallsExactly(body, vars, fuel);
    }
  }

  function Quiet(): Call { Call(_ => false, (x: Vars, _: Option<Val>) => (x, None)) }

  function Loud(w: Val): Call { Call(_ => false, (x: Vars, _: Option<Val>) => (x, Some(w))) }

  function TwicePanicking(v: Val, w: Val): seq<Stmt> {
    [DeferPush(_ => Quiet()), DeferPush(_ => Loud(w)), Panic(_ => v)]
  }

  /** It does happen: the body panics, the call deferred last panics again in the
      except block, and the call deferred first never runs. */
  lemma SecondPanicSkipsACall(vars: Vars, v: Val, w: Val)
    ensures EmittedFunction(TwicePanicking(v, w), vars, 0) == Escaped(w, [Loud(w)])
    ensures GoFunction(TwicePanicking(v, w), vars, 0) == Escaped(w, [Loud(w), Quiet()])
  {
    var body := TwicePanicking(v, w);
    assert body[1..][1..] == [body[2]];
    var pushed := [Quiet(), Loud(w)];
    assert [] + [Quiet()] == [Quiet()] && [Quiet()] + [Loud(w)] == pushed;
    assert GoBlock(body[1..][1..], vars, pushed, 0) == GoState(vars, pushed, GoPanicked(v));
    assert GoBlock(body[1..], vars, [Quiet()], 0) == GoState(vars, pushed, GoPanicked(v));
    assert GoBlock(body, vars, [], 0) == GoState(vars, pushed, GoPanicked(v));
    assert pushed[..1] == [Quiet()] && [Quiet()][..0] == [];
    assert Reverse([Quiet()]) == [Quiet()];
    assert Reverse(pushed) == [Loud(w), Quiet()];
    assert [Loud(w), Quiet()][1..] == [Quiet()] && [Quiet()][1..] == [];
    assert [] + [Loud(w)] == [Loud(w)] && [Loud(w)] + [Quiet()] == [Loud(w), Quiet()];
    assert GoDefers([Quiet()], vars, Some(w), [Loud(w)]) == GoDefers([], vars, Some(w), [Loud(w), Quiet()]);
    EmittedRuns(body, vars, 0);
  }

  // ----- The plain block -----

  /** What the finally loop gets wrong in Go's run of the calls still to do: a panic that
      is not the last call's skips the rest, and a recovered panic goes on. */
  predicate PlainGoesWrong(todo: seq<Call>, vars: Vars, panicking: Option<Val>, swallowed: bool) {
    if todo == [] then swallowed
    else
      var c := todo[0];
      var (vars', p) := c.run(vars, if c.recovers(vars) then panicking else None);
      if p.Some? then |todo| > 1
      else PlainGoesWrong(todo[1..], vars', AfterCall(c, vars, panicking, p),
                          swallowed || (c.recovers(vars) && panicking.Some?))
  }

  /** The panic the finally ends with: a new one, or the one it began with. */
  ghost function FinallyEnd(first: Option<Val>, q: Option<Val>): Option<Val> {
    if q.Some? then q else first
  }

  /** The finally loop against Go, from the same calls, variables and live panic. */
  lemma {:induction false} EachFollowsGo(todo: seq<Call>, m: Machine, swallowed: bool)
    requires swallowed <==> m.recovered && m.handling.Some?
    ensures var (m', q) := RunEach(todo, m);
            var f := GoDefers(todo, m.vars, Current(m), m.ran);
            var same := if FinallyEnd(m.handling, q).Some? then f == Escaped(FinallyEnd(m.handling, q).value, m'.ran)
                        else f.Returned? && f.ran == m'.ran;
            same <==> !PlainGoesWrong(todo, m.vars, Current(m), swallowed)
    decreases |todo|
  {
    GoRunsAll(todo, m.vars, Current(m), m.ran);
    if todo != [] {
      var c := todo[0];
      var (m1, p) := RunCall(m, c);
      assert AfterCall(c, m.vars, Current(m), p) == if p.Some? then p else Current(m1);
      if p.Some? {
        assert m.ran + [c] + todo[1..] == m.ran + todo;
        assert |todo| > 1 ==> m.ran + todo != m1.ran;
        assert |todo| == 1 ==> todo[1..] == [];
      } else {
        EachFollowsGo(todo[1..], m1, m1.recovered && m1.handling.Some?);
      }
    }
  }

  /** The whole plain function, in terms of Go's run of its body. */
  lemma PlainRuns(body: seq<Stmt>, vars: Vars, fuel: nat)
    ensures var g := GoBlock(body, vars, [], fuel);
            var first := if g.end.GoPanicked? then Some(g.end.v) else None;
            var m := Reached(Fresh(vars), g).(handling := first, recovered := false);
            var (m', q) := RunEach(Reverse(g.pushed), m.(panics := if first.Some? then 1 else 0));
            EmittedPlain(body, vars, fuel) ==
            if g.end.GoTimeout? then Diverged
            else if FinallyEnd(first, q).Some? then Escaped(FinallyEnd(first, q).value, m'.ran)
            else if g.end.GoFell? then FellOff(m'.ran)
            else Returned(g.vars, m'.ran)
  {
    var m := Fresh(vars);
    BlockFollows(body, m, fuel, false);
    var p := TryFinally(EmitBlock(body, false));
    assert EmitPlain(body) == [NewDefers] + [p];
    ExecCons(NewDefers, [p], m, fuel);
    ExecSingle(p, m, fuel);
  }

  /** A function with a plain block does exactly what Go does unless, in Go's run, a call
      that is not the last panics or a recovered panic is not replaced. */
  lemma PlainAgreesExactly(body: seq<Stmt>, vars: Vars, fuel: nat)
    ensures var g := GoBlock(body, vars, [], fuel);
            EmittedPlain(body, vars, fuel) == GoPlain(body, vars, fuel) <==>
            g.end.GoTimeout?
            || !PlainGoesWrong(Reverse(g.pushed), g.vars, if g.end.GoPanicked? then Some(g.end.v) else None, false)
  {
    var g := GoBlock(body, vars, [], fuel);
    var first := if g.end.GoPanicked? then Some(g.end.v) else None;
    var m := Reached(Fresh(vars), g).(handling := first, recovered := false,
                                      panics := if first.Some? then 1 else 0);
    PlainRuns(body, vars, fuel);
    EachFollowsGo(Reverse(g.pushed), m, false);
    GoRunsAll(Reverse(g.pushed), g.vars, first, []);
  }

  /** A call that panics before the last skips it, with no other panic about. */
  lemma PlainSkipsACall(vars: Vars, w: Val)
    ensures EmittedPlain(OncePanicking(w), vars, 0) == Escaped(w, [Loud(w)])
    ensures GoPlain(OncePanicking(w), vars, 0) == Escaped(w, [Loud(w), Quiet()])
  {
    var body := OncePanicking(w);
    var pushed := [Quiet(), Loud(w)];
    assert body[1..] == [DeferPush(_ => Loud(w))] && body[1..][1..] == [];
    assert [] + [Quiet()] == [Quiet()] && [Quiet()] + [Loud(w)] == pushed;
    assert GoBlock(body[1..][1..], vars, pushed, 0) == GoState(vars, pushed, GoFell);
    assert GoBlock(body[1..], vars, [Quiet()], 0) == GoState(vars, pushed, GoFell);
    assert GoBlock(body, vars, [], 0) == GoState(vars, pushed, GoFell);
    ReverseTwo(Quiet(), Loud(w));
    PlainRuns(body, vars, 0);
    assert [Loud(w), Quiet()][1..] == [Quiet()] && [Quiet()][1..] == [];
    assert [] + [Loud(w)] == [Loud(w)] && [Loud(w)] + [Quiet()] == [Loud(w), Quiet()];
    assert GoDefers([Quiet()], vars, Some(w), [Loud(w)]) == GoDefers([], vars, Some(w), [Loud(w), Quiet()]);
  }

  function OncePanicking(w: Val): seq<Stmt> { [DeferPush(_ => Quiet()), DeferPush(_ => Loud(w))] }

  lemma ReverseTwo(a: Call, b: Call)
    ensures Reverse([a, b]) == [b, a]
  {
    assert [a, b][..1] == [a] && [a][..0] == [];
    assert Reverse([a]) == [a];
  }
}
