/** sync.Cond over every run. */
module Conds {
  // Each step is one lock operation of one thread, so a Signal or Broadcast may fall anywhere
  // between the lines of a Wait.

  import opened Prelude

  type ThreadId = nat

  /** A call of cond_wait, numbered in the order the calls were made. */
  type WaitId = nat

  /** Where a thread stands inside cond_wait, or inside a notifying call. `due` is
      the history of a notifying call: the waits that had released L, and were not
      yet woken, when it began. */
  datatype Phase =
    | Entered(id: WaitId)        // about to take the internal lock; L held
    | Inside(id: WaitId)         // internal lock held, L held
    | Released(id: WaitId)       // internal lock held, L released
    | Asleep(id: WaitId)         // in the waiter queue, holds nothing
    | Woken(id: WaitId)          // notified, wants the internal lock back
    | Leaving(id: WaitId)        // internal lock held again
    | WantsL(id: WaitId)         // internal lock released, wants L
    | Notifier(all: bool, due: set<WaitId>)
    | NotifierInside(all: bool, due: set<WaitId>)

  /** `holder` has L, `inner` has the internal lock, `queue` is the waiter queue. */
  datatype State = State(holder: Option<ThreadId>, inner: Option<ThreadId>, queue: seq<ThreadId>,
                         threads: map<ThreadId, Phase>, calls: nat, woken: set<WaitId>)

  const INIT := State(None, None, [], map[], 0, {})

  /** Lock, Unlock, Wait and Notify start something; Go is the next line of t. */
  datatype Step = Lock(t: ThreadId) | Unlock(t: ThreadId) | Wait(t: ThreadId) | Notify(t: ThreadId, all: bool)
                | Go(t: ThreadId)

  predicate Enabled(s: State, step: Step) {
    match step
    case Lock(t) => t !in s.threads && s.holder == None
    case Unlock(t) => t !in s.threads && s.holder == Some(t)
    case Wait(t) => t !in s.threads && s.holder == Some(t)
    case Notify(t, _) => t !in s.threads
    case Go(t) =>
      && t in s.threads
      && match s.threads[t]
         case Entered(_) => s.inner == None
         case Woken(_) => s.inner == None
         case Notifier(_, _) => s.inner == None
         case WantsL(_) => s.holder == None
         case Asleep(_) => false
         case _ => true
  }

  ghost function ReleasedWaits(s: State): set<WaitId> {
    set t | t in s.threads && (s.threads[t].Released? || s.threads[t].Asleep?) :: s.threads[t].id
  }

  function Wake(threads: map<ThreadId, Phase>, who: seq<ThreadId>): map<ThreadId, Phase> {
    map t | t in threads :: if t in who && threads[t].Asleep? then Woken(threads[t].id) else threads[t]
  }

  ghost function IdsOf(threads: map<ThreadId, Phase>, who: seq<ThreadId>): set<WaitId> {
    set t | t in threads && t in who && threads[t].Asleep? :: threads[t].id
  }

  ghost function Apply(s: State, step: Step): State
    requires Enabled(s, step)
  {
    match step
    case Lock(t) => s.(holder := Some(t))
    case Unlock(_) => s.(holder := None)
    case Wait(t) => s.(threads := s.threads[t := Entered(s.calls)], calls := s.calls + 1)
    case Notify(t, all) => s.(threads := s.threads[t := Notifier(all, ReleasedWaits(s))])
    case Go(t) =>
      match s.threads[t]
      case Entered(id) => s.(inner := Some(t), threads := s.threads[t := Inside(id)])
      case Inside(id) => s.(holder := None, threads := s.threads[t := Released(id)])
      case Released(id) => s.(inner := None, queue := s.queue + [t], threads := s.threads[t := Asleep(id)])
      case Woken(id) => s.(inner := Some(t), threads := s.threads[t := Leaving(id)])
      case Leaving(id) => s.(inner := None, threads := s.threads[t := WantsL(id)])
      case WantsL(_) => s.(holder := Some(t), threads := s.threads - {t})
      case Notifier(all, due) => s.(inner := Some(t), threads := s.threads[t := NotifierInside(all, due)])
      case NotifierInside(all, _) =>
        var who := if all || s.queue == [] then s.queue else [s.queue[0]];
        s.(inner := None, queue := s.queue[|who|..], threads := Wake(s.threads, who) - {t},
           woken := s.woken + IdsOf(s.threads, who))
      case Asleep(_) => s
  }

  ghost predicate Legal(s: State, steps: seq<Step>)
    decreases |steps|
  {
    steps == [] || (Enabled(s, steps[0]) && Legal(Apply(s, steps[0]), steps[1..]))
  }

  ghost function Run(s: State, steps: seq<Step>): State
    requires Legal(s, steps)
    decreases |steps|
  {
    if steps == [] then s else Run(Apply(s, steps[0]), steps[1..])
  }

  // ----- Invariants -----

  predicate HoldsInner(p: Phase) {
    p.Inside? || p.Released? || p.Leaving? || p.NotifierInside?
  }

  predicate HoldsL(p: Phase) {
    p.Entered? || p.Inside?
  }

  /** The wait is on its way to being woken or has been. */
  ghost predicate Pending(s: State, id: WaitId) {
    id in s.woken || exists t :: t in s.threads && s.threads[t] in {Released(id), Asleep(id)}
  }

  predicate LocksMatch(s: State) {
    // exactly the owner of the internal lock is in a phase that owns it
    && (forall t :: t in s.threads ==> (HoldsInner(s.threads[t]) <==> s.inner == Some(t)))
    && (s.inner.Some? ==> s.inner.value in s.threads)
    // a waiting thread has L up to the release, and not from there to its return
    && (forall t :: t in s.threads && !s.threads[t].Notifier? && !s.threads[t].NotifierInside? ==>
          (HoldsL(s.threads[t]) <==> s.holder == Some(t)))
  }

  /** The queue is exactly the threads asleep, each once. */
  ghost predicate QueueMatches(s: State) {
    && (forall t :: t in s.queue <==> t in s.threads && s.threads[t].Asleep?)
    && (forall i, j :: 0 <= i < j < |s.queue| ==> s.queue[i] != s.queue[j])
  }

  ghost predicate WakeupsMatch(s: State) {
    // a notifier still finds every wait it owes a wakeup
    && (forall t :: t in s.threads && (s.threads[t].Notifier? || s.threads[t].NotifierInside?) ==>
          forall id :: id in s.threads[t].due ==> Pending(s, id))
    // wakeups come from notifications only
    && (forall t :: t in s.threads && (s.threads[t].Woken? || s.threads[t].Leaving? || s.threads[t].WantsL?) ==>
          s.threads[t].id in s.woken)
  }

  ghost predicate Inv(s: State) {
    LocksMatch(s) && QueueMatches(s) && WakeupsMatch(s)
  }

  lemma PendingStays(s: State, step: Step, id: WaitId)
    requires Inv(s) && Enabled(s, step) && Pending(s, id)
    ensures Pending(Apply(s, step), id)
  {
    var s' := Apply(s, step);
    if id !in s.woken {
      var t :| t in s.threads && s.threads[t] in {Released(id), Asleep(id)};
      if t in s'.threads && s'.threads[t] in {Released(id), Asleep(id)} {
      } else {
        assert step.Go?;
        if step.t != t {
          assert s.threads[step.t].NotifierInside?;
          var who := if s.threads[step.t].all || s.queue == [] then s.queue else [s.queue[0]];
          assert t in who && s.threads[t].id in IdsOf(s.threads, who);
        }
      }
    }
  }

  lemma StepKeepsLocks(s: State, step: Step)
    requires LocksMatch(s) && Enabled(s, step)
    ensures LocksMatch(Apply(s, step))
  {
  }

  lemma StepKeepsQueue(s: State, step: Step)
    requires QueueMatches(s) && Enabled(s, step)
    ensures QueueMatches(Apply(s, step))
  {
    if step.Go? && s.threads[step.t].NotifierInside? && s.queue != [] {
      assert s.queue == [s.queue[0]] + s.queue[1..];
    }
  }

  lemma StepKeepsWakeups(s: State, step: Step)
    requires Inv(s) && Enabled(s, step)
    ensures WakeupsMatch(Apply(s, step))
  {
    var s' := Apply(s, step);
    forall t | t in s'.threads && (s'.threads[t].Notifier? || s'.threads[t].NotifierInside?)
      ensures forall id :: id in s'.threads[t].due ==> Pending(s', id)
    {
      forall id | id in s'.threads[t].due ensures Pending(s', id) {
        assert Pending(s, id);
        PendingStays(s, step, id);
      }
    }
  }

  lemma StepKeepsInv(s: State, step: Step)
    requires Inv(s) && Enabled(s, step)
    ensures Inv(Apply(s, step))
  {
    StepKeepsLocks(s, step);
    StepKeepsQueue(s, step);
    StepKeepsWakeups(s, step);
  }

  lemma {:induction false} RunKeepsInv(s: State, steps: seq<Step>)
    requires Inv(s) && Legal(s, steps)
    ensures Inv(Run(s, steps))
    decreases |steps|
  {
    if steps != [] {
      StepKeepsInv(s, steps[0]);
      RunKeepsInv(Apply(s, steps[0]), steps[1..]);
    }
  }

  /** When a Broadcast has notified, every wait that had released L when the
      Broadcast began has been woken, and nobody who slept is asleep. */
  lemma BroadcastWakesEveryWaiter(steps: seq<Step>, t: ThreadId)
    requires Legal(INIT, steps)
    requires var s := Run(INIT, steps);
             t in s.threads && s.threads[t].NotifierInside? && s.threads[t].all
    ensures var s := Run(INIT, steps);
            var s' := Apply(s, Go(t));
            && s.threads[t].due <= s'.woken
            && s'.queue == []
            && forall u :: u in s.threads && s.threads[u].Asleep? ==>
                 u in s'.threads && s'.threads[u] == Woken(s.threads[u].id)
  {
    RunKeepsInv(INIT, steps);
    var s := Run(INIT, steps);
    forall id | id in s.threads[t].due ensures id in Apply(s, Go(t)).woken {
      assert Pending(s, id);
      if id !in s.woken {
        var u :| u in s.threads && s.threads[u] in {Released(id), Asleep(id)};
        assert u in s.queue && s.threads[u].id in IdsOf(s.threads, s.queue);
      }
    }
  }

  /** A Signal wakes exactly one sleeper, the one that slept longest, unless every
      wait it owed a wakeup has been woken already. */
  lemma SignalWakesOneWaiter(steps: seq<Step>, t: ThreadId)
    requires Legal(INIT, steps)
    requires var s := Run(INIT, steps);
             t in s.threads && s.threads[t].NotifierInside? && !s.threads[t].all
    ensures var s := Run(INIT, steps);
            var s' := Apply(s, Go(t));
            if s.queue == [] then s.threads[t].due <= s.woken && s'.woken == s.woken
            else
              && s.queue[0] in s.threads && s.threads[s.queue[0]].Asleep?
              && s'.woken == s.woken + {s.threads[s.queue[0]].id}
              && forall u :: u in s.threads && s.threads[u].Asleep? ==>
                   u in s'.threads
                   && s'.threads[u] == if u == s.queue[0] then Woken(s.threads[u].id) else s.threads[u]
  {
    RunKeepsInv(INIT, steps);
    var s := Run(INIT, steps);
    if s.queue == [] {
      forall id | id in s.threads[t].due ensures id in s.woken {
        assert Pending(s, id);
        if id !in s.woken {
          var u :| u in s.threads && s.threads[u] in {Released(id), Asleep(id)};
          assert false;
        }
      }
    } else {
      assert s.queue[0] in s.queue;
    }
  }

  /** A Wait goes back to its caller only after a notification woke it, with L held
      by the caller and by nobody else in between. */
  lemma WaitReturnsWokenWithL(steps: seq<Step>, t: ThreadId)
    requires Legal(INIT, steps)
    requires var s := Run(INIT, steps);
             && t in s.threads && !s.threads[t].Notifier? && !s.threads[t].NotifierInside?
             && Enabled(s, Go(t)) && t !in Apply(s, Go(t)).threads
    ensures var s := Run(INIT, steps);
            && s.threads[t].WantsL? && s.threads[t].id in s.woken
            && s.holder == None && Apply(s, Go(t)).holder == Some(t)
  {
    RunKeepsInv(INIT, steps);
  }
}
