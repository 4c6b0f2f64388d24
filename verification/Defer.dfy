/** Defer and panic: the emitted shape and Go's rule. */
module Defers {
  // A reshaped deferring function is emitted as a try with an except that drains the
  // recorded calls. The shape is executed by the rules of Python's try, to be compared with
  // Go's own rule for defer, panic and recover.

  import opened Prelude

  /** The values of the function's variables, named results included. */
  type Vars(!new)

  /** What a panic carries. */
  type Val(!new)

  /** A recorded call with its captured arguments. `recovers` says, from the variables the
      call starts with, whether it comes to call recover(). `run` gets those variables and
      what recover() returned, and gives the new variables and the panic it ends in. */
  datatype Call = Call(recovers: Vars -> bool, run: (Vars, Option<Val>) -> (Vars, Option<Val>))

  // ----- The function body in the IR -----

  /** Do is any other statement: it changes variables and may panic. DeferReturn is the
      return of a deferring function, in a plain block an ordinary return. */
  datatype Stmt =
    | Do(act: Vars -> (Vars, Option<Val>))
    | DeferPush(call: Vars -> Call)
    | Panic(value: Vars -> Val)
    | DeferReturn
    | If(cond: Vars -> bool, thn: seq<Stmt>, els: seq<Stmt>)
    | For(cond: Vars -> bool, body: seq<Stmt>)

  // ----- Go's rule -----

  datatype GoEnd = GoFell | GoReturned | GoPanicked(v: Val) | GoTimeout

  /** Variables, calls deferred so far, and how the statements ended. A loop turn
      costs one unit of fuel; running out of it is GoTimeout. */
  datatype GoState = GoState(vars: Vars, pushed: seq<Call>, end: GoEnd)

  function GoBlock(body: seq<Stmt>, vars: Vars, pushed: seq<Call>, fuel: nat): GoState
    decreases fuel, body, 1
  {
    if body == [] then GoState(vars, pushed, GoFell)
    else
      var g := GoStmt(body[0], vars, pushed, fuel);
      if g.end.GoFell? then GoBlock(body[1..], g.vars, g.pushed, fuel) else g
  }

  function GoStmt(s: Stmt, vars: Vars, pushed: seq<Call>, fuel: nat): GoState
    decreases fuel, s, 0
  {
    match s
    case Do(act) =>
      var (vars', p) := act(vars);
      GoState(vars', pushed, if p.Some? then GoPanicked(p.value) else GoFell)
    case DeferPush(call) => GoState(vars, pushed + [call(vars)], GoFell)
    case Panic(value) => GoState(vars, pushed, GoPanicked(value(vars)))
    case DeferReturn => GoState(vars, pushed, GoReturned)
    case If(cond, thn, els) => GoBlock(if cond(vars) then thn else els, vars, pushed, fuel)
    case For(cond, body) =>
      if !cond(vars) then GoState(vars, pushed, GoFell)
      else if fuel == 0 then GoState(vars, pushed, GoTimeout)
      else
        var g := GoBlock(body, vars, pushed, fuel - 1);
        if g.end.GoFell? then GoStmt(s, g.vars, g.pushed, fuel - 1) else g
  }

  /** How a function call ends, with the deferred calls that ran, in order. */
  datatype FunctionEnd =
    | Returned(results: Vars, ran: seq<Call>)
    | Escaped(v: Val, ran: seq<Call>)
    | FellOff(ran: seq<Call>)
    | Diverged

  /** Go runs every deferred call; recover stops the current panic, a new panic
      replaces it, and the rest still run. */
  function GoDefers(todo: seq<Call>, vars: Vars, panicking: Option<Val>, ran: seq<Call>): FunctionEnd {
    if todo == [] then
      if panicking.Some? then Escaped(panicking.value, ran) else Returned(vars, ran)
    else
      var c := todo[0];
      var (vars', p) := c.run(vars, if c.recovers(vars) then panicking else None);
      GoDefers(todo[1..], vars', AfterCall(c, vars, panicking, p), ran + [c])
  }

  /** The panic in flight after call c, which began with these variables. */
  function AfterCall(c: Call, vars: Vars, panicking: Option<Val>, p: Option<Val>): Option<Val> {
    if p.Some? then p else if c.recovers(vars) then None else panicking
  }

  function Reverse(s: seq<Call>): seq<Call> {
    if s == [] then [] else [s[|s| - 1]] + Reverse(s[..|s| - 1])
  }

  function GoFunction(body: seq<Stmt>, vars: Vars, fuel: nat): FunctionEnd {
    var g := GoBlock(body, vars, [], fuel);
    match g.end
    case GoTimeout => Diverged
    case GoPanicked(v) => GoDefers(Reverse(g.pushed), g.vars, Some(v), [])
    case _ => GoDefers(Reverse(g.pushed), g.vars, None, [])
  }

  /** The same for a function whose results have no names: deferred calls cannot change
      what the return evaluated, and one without results may fall off its end. */
  function GoPlain(body: seq<Stmt>, vars: Vars, fuel: nat): FunctionEnd {
    var g := GoBlock(body, vars, [], fuel);
    match GoFunction(body, vars, fuel)
    case Returned(_, ran) => if g.end.GoFell? then FellOff(ran) else Returned(g.vars, ran)
    case f => f
  }

  // ----- The emitted Python -----

  datatype Py =
    | PyDo(act: Vars -> (Vars, Option<Val>))
    | Append(call: Vars -> Call)          // _defers.append(...)
    | Raise(value: Vars -> Val)           // raise GoPanic(...)
    | RunDefers                           // _run_defers(_defers)
    | Return                              // return the result variables
    | PyIf(cond: Vars -> bool, thn: seq<Py>, els: seq<Py>)
    | While(cond: Vars -> bool, body: seq<Py>)
    | NewDefers                           // _defers = []
    | Try(body: seq<Py>, handler: seq<Py>)  // try: ... except GoPanic as _p: ...
    | RaiseUnlessRecovered                // if not _p.recovered: raise
    | TryFinally(body: seq<Py>)           // try: ... finally: for _fn, _args in reversed(_defers): ...

  function EmitStmt(s: Stmt, reshape: bool): seq<Py> {
    match s
    case Do(act) => [PyDo(act)]
    case DeferPush(call) => [Append(call)]
    case Panic(value) => [Raise(value)]
    case DeferReturn => if reshape then [RunDefers, Return] else [Return]
    case If(cond, thn, els) => [PyIf(cond, EmitBlock(thn, reshape), EmitBlock(els, reshape))]
    case For(cond, body) => [While(cond, EmitBlock(body, reshape))]
  }

  function EmitBlock(body: seq<Stmt>, reshape: bool): seq<Py> {
    if body == [] then [] else EmitStmt(body[0], reshape) + EmitBlock(body[1..], reshape)
  }

  predicate EndsTerminated(body: seq<Stmt>) {
    body != [] && (body[|body| - 1].DeferReturn? || body[|body| - 1].Panic?)
  }

  function EmitReshape(body: seq<Stmt>): seq<Py> {
    [NewDefers,
     Try(EmitBlock(body, true) + if EndsTerminated(body) then [] else [RunDefers, Return],
         [RunDefers, RaiseUnlessRecovered, Return])]
  }

  function EmitPlain(body: seq<Stmt>): seq<Py> {
    [NewDefers, TryFinally(EmitBlock(body, false))]
  }

  // ----- Executing it -----

  /** The activation. `handling` is the exception an except block is handling and
      `recovered` its flag; `pushed`, `ran` and `panics` are history. */
  datatype Machine = Machine(vars: Vars, defers: seq<Call>, handling: Option<Val>, recovered: bool,
                             pushed: seq<Call>, ran: seq<Call>, panics: nat)

  datatype PyEnd = Fell | PyReturned(results: Vars) | Raised(v: Val) | OutOfFuel

  /** What recover() returns to call c: the handled panic unless already recovered. */
  function Recover(m: Machine, c: Call): Option<Val> {
    if c.recovers(m.vars) && !m.recovered then m.handling else None
  }

  function RunCall(m: Machine, c: Call): (Machine, Option<Val>) {
    var (vars, p) := c.run(m.vars, Recover(m, c));
    (m.(vars := vars, recovered := m.recovered || Recover(m, c).Some?,
        ran := m.ran + [c], panics := m.panics + if p.Some? then 1 else 0), p)
  }

  /** Pop the last recorded call and run it. */
  function RunOne(m: Machine): (Machine, Option<Val>)
    requires m.defers != []
  {
    RunCall(m.(defers := m.defers[..|m.defers| - 1]), m.defers[|m.defers| - 1])
  }

  /** The loop of a finally: the calls in turn, up to the first that panics. */
  function RunEach(todo: seq<Call>, m: Machine): (Machine, Option<Val>) {
    if todo == [] then (m, None)
    else
      var (m', p) := RunCall(m, todo[0]);
      if p.Some? then (m', p) else RunEach(todo[1..], m')
  }

  function Drain(m: Machine): (Machine, Option<Val>)
    decreases |m.defers|
  {
    if m.defers == [] then (m, None)
    else
      var (m', p) := RunOne(m);
      if p.Some? then (m', p) else Drain(m')
  }

  /** The activation as an object, with `_run_defers` draining its list in place. */
  class Activation {
    var vars: Vars
    var defers: seq<Call>
    var handling: Option<Val>
    var recovered: bool
    ghost var pushed: seq<Call>
    ghost var ran: seq<Call>
    ghost var panics: nat

    constructor (vars: Vars)
      ensures View() == Machine(vars, [], None, false, [], [], 0)
    {
      this.vars, defers, handling, recovered := vars, [], None, false;
      pushed, ran, panics := [], [], 0;
    }

    ghost function View(): Machine
      reads this
    {
      Machine(vars, defers, handling, recovered, pushed, ran, panics)
    }

    /** What the deferred call's recover() does to the exception being handled. */
    method TakePanic(c: Call) returns (v: Option<Val>)
      modifies this`recovered
      ensures v == Recover(old(View()), c) && recovered == (old(recovered) || v.Some?)
    {
      v := None;
      if c.recovers(vars) && handling.Some? && !recovered {
        recovered, v := true, handling;
      }
    }

    method RunDefersInPlace() returns (p: Option<Val>)
      modifies this
      ensures (View(), p) == Drain(old(View()))
    {
      p := None;
      while defers != []
        invariant p == None
        invariant Drain(View()) == Drain(old(View()))
        decreases |defers|
      {
        var c := defers[|defers| - 1];
        defers := defers[..|defers| - 1];
        var v := TakePanic(c);
        var r := c.run(vars, v);
        vars, p := r.0, r.1;
        ran, panics := ran + [c], panics + if p.Some? then 1 else 0;
        if p.Some? {
          return;
        }
      }
    }
  }

  function ExecBlock(ps: seq<Py>, m: Machine, fuel: nat): (Machine, PyEnd)
    decreases fuel, ps, 1
  {
    if ps == [] then (m, Fell)
    else
      var (m', e) := Exec(ps[0], m, fuel);
      if e.Fell? then ExecBlock(ps[1..], m', fuel) else (m', e)
  }

  function Exec(p: Py, m: Machine, fuel: nat): (Machine, PyEnd)
    decreases fuel, p, 0
  {
    match p
    case PyDo(act) =>
      var (vars, q) := act(m.vars);
      if q.Some? then (m.(vars := vars, panics := m.panics + 1), Raised(q.value)) else (m.(vars := vars), Fell)
    case Append(call) => (m.(defers := m.defers + [call(m.vars)], pushed := m.pushed + [call(m.vars)]), Fell)
    case Raise(value) => (m.(panics := m.panics + 1), Raised(value(m.vars)))
    case RunDefers =>
      var (m', q) := Drain(m);
      (m', if q.Some? then Raised(q.value) else Fell)
    case Return => (m, PyReturned(m.vars))
    case PyIf(cond, thn, els) => ExecBlock(if cond(m.vars) then thn else els, m, fuel)
    case While(cond, body) =>
      if !cond(m.vars) then (m, Fell)
      else if fuel == 0 then (m, OutOfFuel)
      else
        var (m', e) := ExecBlock(body, m, fuel - 1);
        if e.Fell? then Exec(p, m', fuel - 1) else (m', e)
    case NewDefers => (m.(defers := []), Fell)
    case Try(body, handler) =>
      var (m', e) := ExecBlock(body, m, fuel);
      if !e.Raised? then (m', e)
      else ExecBlock(handler, m'.(handling := Some(e.v), recovered := false), fuel)
    case TryFinally(body) =>
      var (m', e) := ExecBlock(body, m, fuel);
      if e.OutOfFuel? then (m', e)
      else
        var raised := if e.Raised? then Some(e.v) else None;
        var (m2, q) := RunEach(Reverse(m'.defers), m'.(handling := raised, recovered := false));
        (m2, if q.Some? then Raised(q.value) else e)
    case RaiseUnlessRecovered =>
      if m.handling.Some? && !m.recovered then (m, Raised(m.handling.value)) else (m, Fell)
  }

  /** The emitted function called with the given variables. */
  function EmittedMachine(body: seq<Stmt>, vars: Vars, fuel: nat): (Machine, PyEnd) {
    ExecBlock(EmitReshape(body), Machine(vars, [], None, false, [], [], 0), fuel)
  }

  function EndOf(m: Machine, e: PyEnd): FunctionEnd {
    match e
    case PyReturned(results) => Returned(results, m.ran)
    case Raised(v) => Escaped(v, m.ran)
    case Fell => FellOff(m.ran)
    case OutOfFuel => Diverged
  }

  function EmittedFunction(body: seq<Stmt>, vars: Vars, fuel: nat): FunctionEnd {
    var (m, e) := EmittedMachine(body, vars, fuel);
    EndOf(m, e)
  }

  function EmittedPlain(body: seq<Stmt>, vars: Vars, fuel: nat): FunctionEnd {
    var (m, e) := ExecBlock(EmitPlain(body), Machine(vars, [], None, false, [], [], 0), fuel);
    EndOf(m, e)
  }
}
