/** What the channel runtime promises its callers, over every run from `INIT`. */
module ChannelTheorems {
  import opened Prelude
  import opened Channels
  import opened ChannelSafety

  lemma InitInv()
    ensures Inv(INIT)
  {
  }

  /** Every state of every run satisfies the invariants. */
  lemma ReachableStatesAreSafe(steps: seq<Step>)
    requires Legal(INIT, steps)
    ensures Inv(Run(INIT, steps))
  {
    InitInv();
    RunKeepsInv(INIT, steps);
  }

  // ----- What never goes back -----

  predicate Grows(a: Tracked, b: Tracked) {
    && b.ch.cap == a.ch.cap && b.ch.zero == a.ch.zero
    && (a.ch.closed ==> b.ch.closed && b.deposited == a.deposited)
    && a.deposited <= b.deposited && a.received <= b.received
  }

  lemma CommitGrows(s: State, t: ThreadId, c: ChanId, seg: Segment, offered: seq<Value>, w: Wait, c': ChanId)
    requires Conserves(s) && c in s.chans && c' in s.chans && Proper(s.chans[c], seg, offered)
    ensures Grows(s.chans[c'], Commit(s, t, c, seg, offered, w).chans[c'])
  {
    TrackConserves(s.chans[c], seg, offered);
  }

  lemma SelectGrows(s: State, t: ThreadId, hasDefault: bool, cases: seq<Case>, pick: nat, c: ChanId)
    requires Conserves(s) && CasesKnown(s.chans, cases) && c in s.chans
    requires AnyReady(s.chans, cases) ==> pick < |cases| && CaseReady(s.chans, cases[pick])
    ensures Grows(s.chans[c], SelectTurn(s, t, hasDefault, cases, pick).chans[c])
  {
    if AnyReady(s.chans, cases) {
      var k := cases[pick];
      CommitGrows(s, t, k.ch.value, FireCase(s.chans[k.ch.value].ch, k),
                  if k.SendCase? then [k.v] else [], Sel(cases), c);
    }
  }

  lemma ResumeGrows(s: State, t: ThreadId, pick: nat, c: ChanId)
    requires Inv(s) && Enabled(s, Resume(t, pick)) && c in s.chans
    ensures c in Apply(s, Resume(t, pick)).chans && Grows(s.chans[c], Apply(s, Resume(t, pick)).chans[c])
  {
    var w := s.threads[t].wait;
    assert WaitMakesSense(s.chans, w);
    match w
    case Drain(c', _, _) => CommitGrows(s, t, c', SendDrain(s.chans[c'].ch), [], w, c);
    case Room(c', v) => CommitGrows(s, t, c', SendRoom(s.chans[c'].ch, v), [v], w, c);
    case Recv(c') => CommitGrows(s, t, c', RecvTry(s.chans[c'].ch), [], w, c);
    case Sel(cases) => SelectGrows(Deregistered(s, t, cases), t, false, cases, pick, c);
  }

  lemma SendGrows(s: State, t: ThreadId, c': ChanId, v: Value, c: ChanId)
    requires Inv(s) && Enabled(s, StartSend(t, c', v)) && c in s.chans
    ensures c in Apply(s, StartSend(t, c', v)).chans && Grows(s.chans[c], Apply(s, StartSend(t, c', v)).chans[c])
  {
    CommitGrows(s, t, c', SendEnter(s.chans[c'].ch, v), [v],
      if s.chans[c'].ch.cap == 0 then Drain(c', v, |s.chans[c'].deposited|) else Room(c', v), c);
  }

  lemma StepGrows(s: State, step: Step, c: ChanId)
    requires Inv(s) && Enabled(s, step) && c in s.chans
    ensures c in Apply(s, step).chans && Grows(s.chans[c], Apply(s, step).chans[c])
  {
    match step
    case Make(_, _, _) =>
    case StartSend(t, c', v) => SendGrows(s, t, c', v, c);
    case StartRecv(t, c') => CommitGrows(s, t, c', RecvEnter(s.chans[c'].ch), [], Recv(c'), c);
    case StartClose(t, c') => CommitGrows(s, t, c', CloseChan(s.chans[c'].ch), [], Recv(c'), c);
    case StartSelect(t, hasDefault, cases, pick) => SelectGrows(s, t, hasDefault, cases, pick, c);
    case Resume(t, pick) => ResumeGrows(s, t, pick, c);
  }

  /** Along a run deposits and receipts only grow at the end, and a close freezes
      the deposits: nothing is ever deposited after it. */
  lemma {:induction false} RunGrows(s: State, steps: seq<Step>, c: ChanId)
    requires Inv(s) && Legal(s, steps) && c in s.chans
    ensures c in Run(s, steps).chans && Grows(s.chans[c], Run(s, steps).chans[c])
    decreases |steps|
  {
    if steps != [] {
      StepGrows(s, steps[0], c);
      StepKeepsInv(s, steps[0]);
      RunGrows(Apply(s, steps[0]), steps[1..], c);
    }
  }

  // ----- Receiving -----

  predicate Drained(h: Tracked) {
    h.ch.closed && h.received == h.deposited
  }

  // One receive, from a state that meets the invariant.
  lemma OldestValueOut(s: State, step: Step)
    requires Inv(s) && Enabled(s, step)
    requires Outcomes(s, step).Received? && Outcomes(s, step).ok
    ensures var c := OperatedOn(s, step);
            && c in s.chans && |s.chans[c].received| < |s.chans[c].deposited|
            && Outcomes(s, step).value == s.chans[c].deposited[|s.chans[c].received|]
            && Apply(s, step).chans[c].received == s.chans[c].received + [Outcomes(s, step).value]
            && forall c' :: c' in s.chans && c' != c ==> Apply(s, step).chans[c'].received == s.chans[c'].received
  {
    var c := OperatedOn(s, step);
    assert s.chans[c].deposited == s.chans[c].received + s.chans[c].ch.buf;
    assert |s.chans[c].received| < |s.chans[c].deposited|
      && Outcomes(s, step).value == s.chans[c].deposited[|s.chans[c].received|];
  }

  /** A value handed out is the oldest deposited value not yet handed out. */
  lemma ReceivesInDepositOrder(steps: seq<Step>, step: Step)
    requires Legal(INIT, steps) && Enabled(Run(INIT, steps), step)
    requires Outcomes(Run(INIT, steps), step).Received? && Outcomes(Run(INIT, steps), step).ok
    ensures var s := Run(INIT, steps);
            var c := OperatedOn(s, step);
            && c in s.chans && |s.chans[c].received| < |s.chans[c].deposited|
            && Outcomes(s, step).value == s.chans[c].deposited[|s.chans[c].received|]
            && Apply(s, step).chans[c].received == s.chans[c].received + [Outcomes(s, step).value]
            && forall c' :: c' in s.chans && c' != c ==> Apply(s, step).chans[c'].received == s.chans[c'].received
  {
    ReachableStatesAreSafe(steps);
    OldestValueOut(Run(INIT, steps), step);
  }

  /** The channel of a step that runs a segment. */
  function OperatedOn(s: State, step: Step): ChanId
    requires Enabled(s, step)
  {
    match step
    case Make(c, _, _) => c
    case StartSend(_, c, _) => c
    case StartRecv(_, c) => c
    case StartClose(_, c) => c
    case StartSelect(_, _, cases, pick) => FiredChan(s, cases, pick)
    case Resume(t, pick) =>
      match s.threads[t].wait
      case Sel(cases) => FiredChan(Deregistered(s, t, cases), cases, pick)
      case w => w.c
  }

  function FiredChan(s: State, cases: seq<Case>, pick: nat): ChanId
    requires CasesKnown(s.chans, cases)
    requires AnyReady(s.chans, cases) ==> pick < |cases| && CaseReady(s.chans, cases[pick])
  {
    if AnyReady(s.chans, cases) then cases[pick].ch.value else 0
  }

  // One receive that reports false.
  lemma ClosedAndDrained(s: State, step: Step)
    requires Inv(s) && Enabled(s, step)
    requires Outcomes(s, step).Received? && !Outcomes(s, step).ok
    ensures OperatedOn(s, step) in s.chans
    ensures Drained(s.chans[OperatedOn(s, step)])
    ensures Outcomes(s, step).value == s.chans[OperatedOn(s, step)].ch.zero
  {
    if step.Resume? { assert WaitMakesSense(s.chans, s.threads[step.t].wait); }
  }

  /** ok = false means: closed, everything deposited was received, and the value
      is the channel's zero. */
  lemma OkFalseMeansDrained(steps: seq<Step>, step: Step)
    requires Legal(INIT, steps) && Enabled(Run(INIT, steps), step)
    requires Outcomes(Run(INIT, steps), step).Received? && !Outcomes(Run(INIT, steps), step).ok
    ensures var s := Run(INIT, steps);
            OperatedOn(s, step) in s.chans
    ensures var s := Run(INIT, steps);
            Drained(s.chans[OperatedOn(s, step)])
    ensures var s := Run(INIT, steps);
            Outcomes(s, step).value == s.chans[OperatedOn(s, step)].ch.zero
  {
    ReachableStatesAreSafe(steps);
    ClosedAndDrained(Run(INIT, steps), step);
  }

  /** From then on, in every continuation, every receive gives (zero, false) at once. */
  lemma DrainedForever(s: State, steps: seq<Step>, c: ChanId)
    requires Inv(s) && Legal(s, steps) && c in s.chans && Drained(s.chans[c])
    ensures c in Run(s, steps).chans && Drained(Run(s, steps).chans[c])
    ensures RecvEnter(Run(s, steps).chans[c].ch).out == Received(s.chans[c].ch.zero, false)
    ensures RecvTry(Run(s, steps).chans[c].ch).out == Received(s.chans[c].ch.zero, false)
  {
    RunGrows(s, steps, c);
    RunKeepsInv(s, steps);
    var h := Run(s, steps).chans[c];
    assert h.received + h.ch.buf == h.deposited;
    assert |h.received| == |h.deposited|;
  }

  // ----- Unbuffered sends -----

  // One return of an unbuffered send.
  lemma OwnValueTaken(s: State, t: ThreadId, pick: nat)
    requires Inv(s) && Enabled(s, Resume(t, pick)) && s.threads[t].wait.Drain?
    requires Outcomes(s, Resume(t, pick)) == Sent
    ensures var w := s.threads[t].wait;
            var h := s.chans[w.c];
            w.pos < |h.received| && h.received[w.pos] == w.v
  {
    var w := s.threads[t].wait;
    assert WaitMakesSense(s.chans, w);
    assert s.chans[w.c].received + s.chans[w.c].ch.buf == s.chans[w.c].deposited;
  }

  /** An unbuffered send that returns normally had its own value received first. */
  lemma UnbufferedSendWasReceived(steps: seq<Step>, t: ThreadId, pick: nat)
    requires Legal(INIT, steps) && Enabled(Run(INIT, steps), Resume(t, pick)) && Run(INIT, steps).threads[t].wait.Drain?
    requires Outcomes(Run(INIT, steps), Resume(t, pick)) == Sent
    ensures var s := Run(INIT, steps);
            var w := s.threads[t].wait;
            var h := s.chans[w.c];
            w.pos < |h.received| && h.received[w.pos] == w.v
  {
    ReachableStatesAreSafe(steps);
    OwnValueTaken(Run(INIT, steps), t, pick);
  }

  /** When a woken unbuffered sender returns, panics or goes on waiting: it looks at the
      whole buffer, so a close panics it whenever any value on the channel is still
      undelivered, its own received or not. */
  lemma WokenSenderExactly(steps: seq<Step>, t: ThreadId, pick: nat)
    requires Legal(INIT, steps) && Enabled(Run(INIT, steps), Resume(t, pick)) && Run(INIT, steps).threads[t].wait.Drain?
    ensures var s := Run(INIT, steps);
            var h := s.chans[s.threads[t].wait.c];
            var out := Outcomes(s, Resume(t, pick));
            && (out == Panicked <==> h.ch.closed && |h.received| < |h.deposited|)
            && (out == Sent <==> |h.received| == |h.deposited|)
            && (out == Parked <==> !h.ch.closed && |h.received| < |h.deposited|)
  {
    ReachableStatesAreSafe(steps);
    var s := Run(INIT, steps);
    var h := s.chans[s.threads[t].wait.c];
    assert h.received + h.ch.buf == h.deposited;
  }

  /** It does happen that a sender whose value was received panics: a later sender's
      value is undelivered when the channel is closed. */
  lemma ReceivedSendMayStillPanic(v: Value, w: Value, zero: Value) returns (steps: seq<Step>)
    ensures Legal(INIT, steps)
    ensures var s := Run(INIT, steps);
            && Enabled(s, Resume(1, 0)) && s.threads[1].wait == Drain(0, v, 0)
            && s.chans[0].received == [v]
            && Outcomes(s, Resume(1, 0)) == Panicked
  {
    steps := [];
    var s0 := INIT;
    s0, steps := Extend(s0, steps, Make(0, 0, zero));
    s0, steps := Extend(s0, steps, StartSend(1, 0, v));
    assert s0.chans[0] == Tracked(Fields(0, [v], false, 0, zero), [v], []);
    s0, steps := Extend(s0, steps, StartRecv(2, 0));
    assert s0.chans[0] == Tracked(Fields(0, [], false, 0, zero), [v], [v]);
    assert s0.threads == map[1 := Thread(Drain(0, v, 0), true)];
    s0, steps := Extend(s0, steps, StartSend(3, 0, w));
    s0, steps := Extend(s0, steps, StartClose(4, 0));
  }

  /** Lengthen a run from INIT by one enabled step. */
  lemma Extend(s: State, steps: seq<Step>, step: Step) returns (s': State, steps': seq<Step>)
    requires Legal(INIT, steps) && Run(INIT, steps) == s && Enabled(s, step)
    ensures steps' == steps + [step] && Legal(INIT, steps') && Run(INIT, steps') == s' == Apply(s, step)
  {
    s', steps' := Apply(s, step), steps + [step];
    ExtendFrom(INIT, steps, step);
  }

  lemma {:induction false} ExtendFrom(s: State, steps: seq<Step>, step: Step)
    requires Legal(s, steps) && Enabled(Run(s, steps), step)
    ensures Legal(s, steps + [step]) && Run(s, steps + [step]) == Apply(Run(s, steps), step)
    decreases |steps|
  {
    if steps == [] {
      assert [] + [step] == [step];
      assert [step][1..] == [];
    } else {
      assert (steps + [step])[1..] == steps[1..] + [step];
      ExtendFrom(Apply(s, steps[0]), steps[1..], step);
    }
  }

  // ----- Wakeups -----

  /** An open channel never has an un-notified sender and an un-notified receiver
      parked at once: they would have met. */
  lemma SenderAndReceiverNeverBothStuck(steps: seq<Step>, t: ThreadId, u: ThreadId, c: ChanId)
    requires Legal(INIT, steps)
    requires var s := Run(INIT, steps);
             && t in s.threads && !s.threads[t].notified
             && u in s.threads && !s.threads[u].notified
             && (s.threads[t].wait.Drain? || s.threads[t].wait.Room?) && s.threads[t].wait.c == c
    ensures var s := Run(INIT, steps);
            && c in s.chans && !s.chans[c].ch.closed
            && s.threads[u].wait != Recv(c)
            && (s.threads[u].wait.Sel? ==> RecvCase(Some(c)) !in s.threads[u].wait.cases)
  {
    ReachableStatesAreSafe(steps);
    var s := Run(INIT, steps);
    assert MustWait(s.chans, s.threads[t].wait) && MustWait(s.chans, s.threads[u].wait);
  }

  /** Exactly when a parked select was left un-notified although it could go on:
      when a receiver has arrived on the channel of one of its send cases. */
  lemma SelectLostWakeupExactly(steps: seq<Step>, t: ThreadId)
    requires Legal(INIT, steps)
    requires var s := Run(INIT, steps);
             t in s.threads && !s.threads[t].notified && s.threads[t].wait.Sel?
    ensures var s := Run(INIT, steps);
            var cases := s.threads[t].wait.cases;
            && CasesKnown(s.chans, cases)
            && (AnyReady(Deregistered(s, t, cases).chans, cases) <==>
                exists i :: 0 <= i < |cases| && cases[i].SendCase? && cases[i].ch.Some?
                  && var c := cases[i].ch.value;
                     s.chans[c].ch.recvWaiting - RecvCases(cases, c) > |s.chans[c].ch.buf|)
  {
    ReachableStatesAreSafe(steps);
    var s := Run(INIT, steps);
    var cases := s.threads[t].wait.cases;
    assert WaitMakesSense(s.chans, Sel(cases)) && MustWait(s.chans, Sel(cases));
    var d := Deregistered(s, t, cases);
    forall i | 0 <= i < |cases|
      ensures CaseReady(d.chans, cases[i]) <==>
        cases[i].SendCase? && cases[i].ch.Some?
        && var c := cases[i].ch.value;
           s.chans[c].ch.recvWaiting - RecvCases(cases, c) > |s.chans[c].ch.buf|
    {
      if cases[i].ch.Some? {
        assert cases[i].ch.value in d.chans;
      }
    }
  }

  /** So a select without send cases is never left behind. */
  lemma ReceiveSelectsAreWoken(steps: seq<Step>, t: ThreadId)
    requires Legal(INIT, steps)
    requires var s := Run(INIT, steps);
             && t in s.threads && !s.threads[t].notified && s.threads[t].wait.Sel?
             && forall i :: 0 <= i < |s.threads[t].wait.cases| ==> s.threads[t].wait.cases[i].RecvCase?
    ensures var s := Run(INIT, steps);
            var cases := s.threads[t].wait.cases;
            CasesKnown(s.chans, cases) && !AnyReady(Deregistered(s, t, cases).chans, cases)
  {
    SelectLostWakeupExactly(steps, t);
  }

  /** A select parked on a send and a receiver that arrives later: the select can
      go on, nobody was notified, and no step wakes either of them. */
  lemma SelectSendIsLeftBehind(v: Value, zero: Value) returns (steps: seq<Step>)
    ensures Legal(INIT, steps)
    ensures var s := Run(INIT, steps);
            var cases := [SendCase(Some(0), v)];
            && s.threads.Keys == {1, 2}
            && s.threads[1] == Thread(Sel(cases), false) && s.threads[2] == Thread(Recv(0), false)
            && CasesKnown(s.chans, cases) && AnyReady(Deregistered(s, 1, cases).chans, cases)
            && forall t, pick :: !Enabled(s, Resume(t, pick))
  {
    var cases := [SendCase(Some(0), v)];
    steps := [];
    var s := INIT;
    s, steps := Extend(s, steps, Make(0, 0, zero));
    assert !CaseReady(s.chans, cases[0]);
    s, steps := Extend(s, steps, StartSelect(1, false, cases, 0));
    assert RecvCases(cases, 0) == 0;
    assert s.chans[0] == Tracked(Fields(0, [], false, 0, zero), [], []);
    s, steps := Extend(s, steps, StartRecv(2, 0));
    assert CaseReady(Deregistered(s, 1, cases).chans, cases[0]);
  }
}
