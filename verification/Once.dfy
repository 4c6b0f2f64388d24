/**
 sync.Once over every run: the double-checked flag, one shared access a step.
 */
module Onces {
  import opened Prelude

  type ThreadId = nat

  datatype Phase =
    | Called                    // about to read the flag without the lock
    | WantsLock                 // saw it unset
    | HasLock                   // about to read it again under the lock
    | InFn                      // running fn
    | FnEnded(panicked: bool)   // fn returned or panicked; about to set the flag
    | Done(panicked: bool)      // about to release the lock

  /** `started` and `finished` count the executions of fn. */
  datatype State = State(done: bool, lock: Option<ThreadId>, threads: map<ThreadId, Phase>,
                         started: nat, finished: nat)

  const INIT := State(false, None, map[], 0, 0)

  /** Call enters once_do; Go is the next access of t; End says how fn ended. */
  datatype Step = Call(t: ThreadId) | Go(t: ThreadId) | End(t: ThreadId, panicked: bool)

  predicate Enabled(s: State, step: Step) {
    match step
    case Call(t) => t !in s.threads
    case Go(t) => t in s.threads && !s.threads[t].InFn? && (s.threads[t].WantsLock? ==> s.lock == None)
    case End(t, _) => t in s.threads && s.threads[t].InFn?
  }

  function Apply(s: State, step: Step): State
    requires Enabled(s, step)
  {
    match step
    case Call(t) => s.(threads := s.threads[t := Called])
    case End(t, panicked) => s.(threads := s.threads[t := FnEnded(panicked)], finished := s.finished + 1)
    case Go(t) =>
      match s.threads[t]
      case Called =>
        if s.done then s.(threads := s.threads - {t}) else s.(threads := s.threads[t := WantsLock])
      case WantsLock => s.(lock := Some(t), threads := s.threads[t := HasLock])
      case HasLock =>
        if s.done then s.(threads := s.threads[t := Done(false)])
        else s.(threads := s.threads[t := InFn], started := s.started + 1)
      case FnEnded(panicked) => s.(done := true, threads := s.threads[t := Done(panicked)])
      case Done(_) => s.(lock := None, threads := s.threads - {t})
      case InFn => s
  }

  predicate Legal(s: State, steps: seq<Step>)
    decreases |steps|
  {
    steps == [] || (Enabled(s, steps[0]) && Legal(Apply(s, steps[0]), steps[1..]))
  }

  function Run(s: State, steps: seq<Step>): State
    requires Legal(s, steps)
    decreases |steps|
  {
    if steps == [] then s else Run(Apply(s, steps[0]), steps[1..])
  }

  predicate Locked(p: Phase) {
    !p.Called? && !p.WantsLock?
  }

  predicate Inv(s: State) {
    && (forall t :: t in s.threads ==> (Locked(s.threads[t]) <==> s.lock == Some(t)))
    && (s.lock.Some? ==> s.lock.value in s.threads)
    && s.finished <= s.started <= 1
    && (s.done ==> s.finished == 1)
    && (forall t :: t in s.threads ==>
          match s.threads[t]
          case InFn => !s.done && s.started == 1 && s.finished == 0
          case FnEnded(_) => !s.done && s.finished == 1
          case Done(_) => s.done
          case _ => true)
    // fn has been started but the flag is unset only while somebody is on it
    && (s.started == 1 && !s.done ==>
          && s.lock.Some?
          && (s.threads[s.lock.value].InFn? || s.threads[s.lock.value].FnEnded?))
  }

  lemma StepKeepsInv(s: State, step: Step)
    requires Inv(s) && Enabled(s, step)
    ensures Inv(Apply(s, step))
  {
  }

  lemma {:induction false} RunKeepsInv(s: State, steps: seq<Step>)
    requires Inv(s) && Legal(s, steps)
    ensures Inv(Run(s, steps))
    decreases |steps|
  {
    if steps != [] {
      StepKeepsInv(s, steps[0]);
      RunKeepsInv(Apply(s, steps[0]), steps[1..]);
    }
  }

  /** In every run fn is started at most once, and when any once_do leaves, that one
      execution has ended, by return or by panic. */
  lemma OnceAndBeforeAnyReturn(steps: seq<Step>, step: Step)
    requires Legal(INIT, steps) && Enabled(Run(INIT, steps), step)
    ensures var s := Run(INIT, steps);
            && Apply(s, step).started <= 1
            && (step.t in s.threads && step.t !in Apply(s, step).threads ==>
                  s.started == 1 && s.finished == 1)
  {
    RunKeepsInv(INIT, steps);
    StepKeepsInv(Run(INIT, steps), step);
  }

  /** A panic in fn reaches only the call that ran it: everybody else returns normally. */
  lemma {:induction false} OnlyTheRunnerSeesThePanic(s: State, steps: seq<Step>, t: ThreadId)
    requires Inv(s) && s.started == 1 && s.done && Legal(s, steps)
    requires forall u :: u in s.threads && s.threads[u].Done? ==> !s.threads[u].panicked
    ensures t in Run(s, steps).threads && Run(s, steps).threads[t].Done? ==> !Run(s, steps).threads[t].panicked
    ensures Run(s, steps).started == 1
    decreases |steps|
  {
    if steps != [] {
      StepKeepsInv(s, steps[0]);
      OnlyTheRunnerSeesThePanic(Apply(s, steps[0]), steps[1..], t);
    }
  }

  /** The step by which a call of once_do hands fn's panic to its caller. */
  predicate LeavesPanicking(s: State, step: Step)
    requires Enabled(s, step)
  {
    step.Go? && s.threads[step.t] == Done(true)
  }

  /** How many calls of a run hand a panic to their callers. */
  function PanicsOut(s: State, steps: seq<Step>): nat
    requires Legal(s, steps)
    decreases |steps|
  {
    if steps == [] then 0
    else (if LeavesPanicking(s, steps[0]) then 1 else 0) + PanicsOut(Apply(s, steps[0]), steps[1..])
  }

  /** How many executions of fn in the run panic. */
  function PanicsIn(steps: seq<Step>): nat {
    if steps == [] then 0 else (if steps[0].End? && steps[0].panicked then 1 else 0) + PanicsIn(steps[1..])
  }

  /** A panic on its way out: the holder of the lock ran fn and it panicked. */
  function OnItsWay(s: State): nat {
    if s.lock.Some? && s.lock.value in s.threads
       && (s.threads[s.lock.value] == FnEnded(true) || s.threads[s.lock.value] == Done(true)) then 1 else 0
  }

  lemma {:induction false} PanicsConserve(s: State, steps: seq<Step>)
    requires Inv(s) && Legal(s, steps)
    ensures PanicsOut(s, steps) + OnItsWay(Run(s, steps)) == PanicsIn(steps) + OnItsWay(s)
    ensures s.finished + PanicsIn(steps) <= 1
    decreases |steps|
  {
    if steps != [] {
      StepKeepsInv(s, steps[0]);
      PanicsConserve(Apply(s, steps[0]), steps[1..]);
    }
  }

  /** Over every run: fn panics at most once, and its panic leaves by exactly one call, or
      is still on its way out. Nobody else sees one. */
  lemma PanicLeavesOnce(steps: seq<Step>)
    requires Legal(INIT, steps)
    ensures PanicsOut(INIT, steps) + OnItsWay(Run(INIT, steps)) == PanicsIn(steps) <= 1
  {
    PanicsConserve(INIT, steps);
  }
}
