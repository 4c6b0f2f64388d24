/** The writer-preferring read-write lock. */
module RWMutexes {
  // Its critical sections as methods of a class, and every run of any number of threads using
  // one lock.

  datatype Fields = Fields(readers: nat, writer: bool, waitingWriters: int)

  /** What a critical section did for the calling thread. */
  datatype Outcome = MustBlock | Acquired | Released | Refused | Fatal

  datatype Segment = Segment(m: Fields, out: Outcome, notify: bool)

  function RLockTry(m: Fields): Segment {
    if m.writer || m.waitingWriters > 0 then Segment(m, MustBlock, false)
    else Segment(m.(readers := m.readers + 1), Acquired, false)
  }

  function RUnlockSeg(m: Fields): Segment {
    if m.readers == 0 then Segment(m, Fatal, false)
    else Segment(m.(readers := m.readers - 1), Released, m.readers == 1)
  }

  function LockEnter(m: Fields): Segment {
    LockTry(m.(waitingWriters := m.waitingWriters + 1))
  }

  function LockTry(m: Fields): Segment {
    if m.writer || m.readers > 0 then Segment(m, MustBlock, false)
    else Segment(m.(waitingWriters := m.waitingWriters - 1, writer := true), Acquired, false)
  }

  function UnlockSeg(m: Fields): Segment {
    if !m.writer then Segment(m, Fatal, false) else Segment(m.(writer := false), Released, true)
  }

  function TryLockSeg(m: Fields): Segment {
    if m.writer || m.readers > 0 || m.waitingWriters > 0 then Segment(m, Refused, false)
    else Segment(m.(writer := true), Acquired, false)
  }

  function TryRLockSeg(m: Fields): Segment {
    if m.writer || m.waitingWriters > 0 then Segment(m, Refused, false)
    else Segment(m.(readers := m.readers + 1), Acquired, false)
  }

  class RWMutex {
    var readers: nat
    var writer: bool
    var waitingWriters: int

    constructor ()
      ensures View() == Fields(0, false, 0)
    {
      readers, writer, waitingWriters := 0, false, 0;
    }

    function View(): Fields
      reads this
    {
      Fields(readers, writer, waitingWriters)
    }

    method ReadLock() returns (out: Outcome)
      modifies this
      ensures Segment(View(), out, false) == RLockTry(old(View()))
    {
      if writer || waitingWriters > 0 {
        return MustBlock;
      }
      readers, out := readers + 1, Acquired;
    }

    method ReadUnlock() returns (out: Outcome, notify: bool)
      modifies this
      ensures Segment(View(), out, notify) == RUnlockSeg(old(View()))
    {
      if readers == 0 {
        return Fatal, false;
      }
      readers := readers - 1;
      out, notify := Released, readers == 0;
    }

    method BeginLock() returns (out: Outcome)
      modifies this
      ensures Segment(View(), out, false) == LockEnter(old(View()))
    {
      waitingWriters := waitingWriters + 1;
      out := ResumeLock();
    }

    method ResumeLock() returns (out: Outcome)
      modifies this
      ensures Segment(View(), out, false) == LockTry(old(View()))
    {
      if writer || readers > 0 {
        return MustBlock;
      }
      waitingWriters := waitingWriters - 1;
      writer, out := true, Acquired;
    }

    method Unlock() returns (out: Outcome, notify: bool)
      modifies this
      ensures Segment(View(), out, notify) == UnlockSeg(old(View()))
    {
      if !writer {
        return Fatal, false;
      }
      writer, out, notify := false, Released, true;
    }

    method TryLock() returns (out: Outcome)
      modifies this
      ensures Segment(View(), out, false) == TryLockSeg(old(View()))
    {
      if writer || readers > 0 || waitingWriters > 0 {
        return Refused;
      }
      writer, out := true, Acquired;
    }

    method TryReadLock() returns (out: Outcome)
      modifies this
      ensures Segment(View(), out, false) == TryRLockSeg(old(View()))
    {
      if writer || waitingWriters > 0 {
        return Refused;
      }
      readers, out := readers + 1, Acquired;
    }
  }

  // ----- Any number of threads -----

  type ThreadId = nat

  datatype Blocked = Reader(notified: bool) | Writer(notified: bool)

  /** `readHolds` and `writeHolds` count acquisitions that returned and were not
      yet given back; the lock itself does not store them. A fatal error ends the
      process, so nothing runs once `dead`. */
  datatype State = State(m: Fields, blocked: map<ThreadId, Blocked>, readHolds: int, writeHolds: int, dead: bool)

  const INIT := State(Fields(0, false, 0), map[], 0, 0, false)

  datatype Step =
    | RLock(t: ThreadId) | RUnlock(t: ThreadId)
    | Lock(t: ThreadId) | Unlock(t: ThreadId)
    | TryLock(t: ThreadId) | TryRLock(t: ThreadId)
    | Resume(t: ThreadId)

  predicate Enabled(s: State, step: Step) {
    && !s.dead
    && if step.Resume? then step.t in s.blocked && s.blocked[step.t].notified else step.t !in s.blocked
  }

  function NotifyAll(blocked: map<ThreadId, Blocked>): map<ThreadId, Blocked> {
    map t | t in blocked :: blocked[t].(notified := true)
  }

  function SegmentOf(s: State, step: Step): Segment
    requires Enabled(s, step)
  {
    match step
    case RLock(_) => RLockTry(s.m)
    case RUnlock(_) => RUnlockSeg(s.m)
    case Lock(_) => LockEnter(s.m)
    case Unlock(_) => UnlockSeg(s.m)
    case TryLock(_) => TryLockSeg(s.m)
    case TryRLock(_) => TryRLockSeg(s.m)
    case Resume(t) => if s.blocked[t].Reader? then RLockTry(s.m) else LockTry(s.m)
  }

  /** Whether the step works on the read side of the lock. */
  predicate ReadSide(s: State, step: Step)
    requires Enabled(s, step)
  {
    step.RLock? || step.RUnlock? || step.TryRLock? || (step.Resume? && s.blocked[step.t].Reader?)
  }

  function Apply(s: State, step: Step): State
    requires Enabled(s, step)
  {
    var seg := SegmentOf(s, step);
    var woken := if seg.notify then NotifyAll(s.blocked) else s.blocked;
    var blocked := if !seg.out.MustBlock? then woken - {step.t}
                   else woken[step.t := if ReadSide(s, step) then Reader(false) else Writer(false)];
    var change := if seg.out.Acquired? then 1 else if seg.out.Released? then -1 else 0;
    State(seg.m, blocked,
          s.readHolds + (if ReadSide(s, step) then change else 0),
          s.writeHolds + (if ReadSide(s, step) then 0 else change),
          seg.out.Fatal?)
  }

  predicate Legal(s: State, steps: seq<Step>)
    decreases |steps|
  {
    steps == [] || (Enabled(s, steps[0]) && Legal(Apply(s, steps[0]), steps[1..]))
  }

  function Run(s: State, steps: seq<Step>): State
    requires Legal(s, steps)
    decreases |steps|
  {
    if steps == [] then s else Run(Apply(s, steps[0]), steps[1..])
  }

  // ----- Invariants -----

  ghost function Writers(blocked: map<ThreadId, Blocked>): set<ThreadId> {
    set t | t in blocked && blocked[t].Writer?
  }

  predicate Free(m: Fields) {
    !m.writer && m.readers == 0
  }

  ghost predicate Counted(s: State) {
    // a writer excludes readers, and the lock's counters are the outstanding holds
    && !(s.m.writer && s.m.readers > 0)
    && s.readHolds == s.m.readers
    && s.writeHolds == (if s.m.writer then 1 else 0)
    // every thread blocked in Lock is counted, and nobody else
    && s.m.waitingWriters == |Writers(s.blocked)|
  }

  /** Whoever waits un-notified has a reason to wait. */
  predicate NoLostWakeup(s: State) {
    forall t :: t in s.blocked && !s.blocked[t].notified ==>
      if s.blocked[t].Reader? then s.m.writer || s.m.waitingWriters > 0 else !Free(s.m)
  }

  ghost predicate Inv(s: State) {
    Counted(s) && NoLostWakeup(s)
  }

  lemma WritersAfter(blocked: map<ThreadId, Blocked>, t: ThreadId, b: Blocked)
    ensures Writers(NotifyAll(blocked)) == Writers(blocked)
    ensures Writers(blocked - {t}) == Writers(blocked) - {t}
    ensures Writers(blocked[t := b]) == if b.Writer? then Writers(blocked) + {t} else Writers(blocked) - {t}
  {
  }

  /** The lock's fields go on counting the holds. */
  lemma StepCountsHolds(s: State, step: Step)
    requires Counted(s) && Enabled(s, step)
    ensures var s' := Apply(s, step);
            && !(s'.m.writer && s'.m.readers > 0)
            && s'.readHolds == s'.m.readers && s'.writeHolds == (if s'.m.writer then 1 else 0)
  {
  }

  /** The blocked threads after a step, whoever was notified. */
  lemma WritersAfterStep(s: State, step: Step)
    requires Enabled(s, step)
    ensures Writers(Apply(s, step).blocked) ==
            Writers(s.blocked) - {step.t}
            + if SegmentOf(s, step).out.MustBlock? && !ReadSide(s, step) then {step.t} else {}
  {
    var woken := if SegmentOf(s, step).notify then NotifyAll(s.blocked) else s.blocked;
    WritersAfter(s.blocked, step.t, Writer(false));
    WritersAfter(woken, step.t, if ReadSide(s, step) then Reader(false) else Writer(false));
  }

  /** How the count of waiting writers moves with the step's thread. */
  lemma WaitingWritersMove(s: State, step: Step)
    requires Enabled(s, step)
    ensures Apply(s, step).m.waitingWriters ==
            s.m.waitingWriters - (if step.t in Writers(s.blocked) then 1 else 0)
            + (if SegmentOf(s, step).out.MustBlock? && !ReadSide(s, step) then 1 else 0)
  {
    assert step.t in Writers(s.blocked) <==> step.t in s.blocked && s.blocked[step.t].Writer?;
  }

  /** And the threads blocked in Lock. */
  lemma StepCountsWriters(s: State, step: Step)
    requires Counted(s) && Enabled(s, step)
    ensures Apply(s, step).m.waitingWriters == |Writers(Apply(s, step).blocked)|
  {
    WritersAfterStep(s, step);
    WaitingWritersMove(s, step);
  }

  lemma StepKeepsCounts(s: State, step: Step)
    requires Counted(s) && Enabled(s, step)
    ensures Counted(Apply(s, step))
  {
    StepCountsHolds(s, step);
    StepCountsWriters(s, step);
  }

  lemma StepKeepsWakeups(s: State, step: Step)
    requires Inv(s) && Enabled(s, step)
    ensures NoLostWakeup(Apply(s, step))
  {
    var s' := Apply(s, step);
    if step.t in s.blocked && s.blocked[step.t].Writer? { assert step.t in Writers(s.blocked); }
    forall t | t in s'.blocked && !s'.blocked[t].notified
      ensures if s'.blocked[t].Reader? then s'.m.writer || s'.m.waitingWriters > 0 else !Free(s'.m)
    {
      if t != step.t {
        assert !SegmentOf(s, step).notify && s'.blocked[t] == s.blocked[t];
      }
    }
  }

  lemma StepKeepsInv(s: State, step: Step)
    requires Inv(s) && Enabled(s, step)
    ensures Inv(Apply(s, step))
  {
    StepKeepsCounts(s, step);
    StepKeepsWakeups(s, step);
  }

  lemma {:induction false} RunKeepsInv(s: State, steps: seq<Step>)
    requires Inv(s) && Legal(s, steps)
    ensures Inv(Run(s, steps))
    decreases |steps|
  {
    if steps != [] {
      StepKeepsInv(s, steps[0]);
      RunKeepsInv(Apply(s, steps[0]), steps[1..]);
    }
  }

  // ----- What the lock promises, in every run from the unlocked state -----

  /** At most one write hold, none beside a read hold, and the counters are exact. */
  lemma MutualExclusion(steps: seq<Step>)
    requires Legal(INIT, steps)
    ensures var s := Run(INIT, steps);
            && 0 <= s.writeHolds <= 1 && 0 <= s.readHolds
            && (s.writeHolds == 1 ==> s.readHolds == 0)
            && (s.m.writer <==> s.writeHolds == 1) && s.m.readers == s.readHolds
            && s.m.waitingWriters == |Writers(s.blocked)|
  {
    RunKeepsInv(INIT, steps);
  }

  /** The program dies exactly on giving back a hold that nobody has. */
  lemma FatalExactlyOnUnheld(steps: seq<Step>, step: Step)
    requires Legal(INIT, steps) && Enabled(Run(INIT, steps), step)
    ensures var s := Run(INIT, steps);
            Apply(s, step).dead <==> (step.RUnlock? && s.readHolds == 0) || (step.Unlock? && s.writeHolds == 0)
  {
    RunKeepsInv(INIT, steps);
  }

  /** No stuck state: when the lock is free and somebody is blocked, some blocked
      thread has been notified and gets the lock the moment it runs. */
  lemma NobodyIsStuck(steps: seq<Step>, t: ThreadId)
    requires Legal(INIT, steps)
    requires var s := Run(INIT, steps); Free(s.m) && t in s.blocked && !s.dead
    ensures var s := Run(INIT, steps);
            exists u :: Enabled(s, Resume(u)) && SegmentOf(s, Resume(u)).out == Acquired
              && (s.blocked[t].Writer? ==> s.blocked[u].Writer?)
  {
    RunKeepsInv(INIT, steps);
    var s := Run(INIT, steps);
    if Writers(s.blocked) != {} {
      var u :| u in Writers(s.blocked);
      assert Enabled(s, Resume(u)) && SegmentOf(s, Resume(u)).out == Acquired;
    } else {
      assert |Writers(s.blocked)| == 0;
      assert t !in Writers(s.blocked);
      assert Enabled(s, Resume(t)) && SegmentOf(s, Resume(t)).out == Acquired;
    }
  }

  /** Thread t waits to write in every state of the run from s. */
  predicate WaitsThroughout(s: State, steps: seq<Step>, t: ThreadId)
    requires Legal(s, steps)
    decreases |steps|
  {
    && t in s.blocked && s.blocked[t].Writer?
    && (steps != [] ==> WaitsThroughout(Apply(s, steps[0]), steps[1..], t))
  }

  function Count(steps: seq<Step>, step: Step -> bool): nat {
    if steps == [] then 0 else (if step(steps[0]) then 1 else 0) + Count(steps[1..], step)
  }

  /** While some writer waits no reader gets in: each step can only lower the number
      of readers, so after as many RUnlocks as there were readers none is left. */
  lemma {:induction false} WriterIsNotStarved(s: State, steps: seq<Step>, t: ThreadId)
    requires Inv(s) && Legal(s, steps) && WaitsThroughout(s, steps, t)
    requires !Run(s, steps).dead
    ensures Run(s, steps).m.readers == s.m.readers - Count(steps, (x: Step) => x.RUnlock?)
    decreases |steps|
  {
    if steps != [] {
      assert t in Writers(s.blocked);
      StepKeepsInv(s, steps[0]);
      var s' := Apply(s, steps[0]);
      WriterIsNotStarved(s', steps[1..], t);
    }
  }
}
