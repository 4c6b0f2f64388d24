/** Capacity and rendezvous, with and without select sends. */
module ChannelRendezvous {
  import opened Prelude
  import opened Channels
  import opened ChannelSafety
  import opened ChannelTheorems

  /** The case a step fires, if it is a select that fires one. */
  function Fired(s: State, step: Step): Option<Case>
    requires Enabled(s, step)
  {
    match step
    case StartSelect(_, _, cases, pick) => if AnyReady(s.chans, cases) then Some(cases[pick]) else None
    case Resume(t, pick) =>
      (match s.threads[t].wait
       case Sel(cases) => if AnyReady(Deregistered(s, t, cases).chans, cases) then Some(cases[pick]) else None
       case _ => None)
    case _ => None
  }

  // ----- Capacity -----

  /** A buffered channel goes over its capacity exactly when a select fires a send
      case into a full open buffer. */
  lemma OverflowsExactly(s: State, step: Step, c: ChanId)
    requires Enabled(s, step)
    requires c in s.chans && s.chans[c].ch.cap > 0 && |s.chans[c].ch.buf| <= s.chans[c].ch.cap
    ensures |Apply(s, step).chans[c].ch.buf| > s.chans[c].ch.cap <==>
            && Fired(s, step).Some? && Fired(s, step).value.SendCase? && Fired(s, step).value.ch == Some(c)
            && |s.chans[c].ch.buf| == s.chans[c].ch.cap && !s.chans[c].ch.closed
  {
  }

  predicate ReceivesOnly(cases: seq<Case>) {
    forall i :: 0 <= i < |cases| ==> cases[i].RecvCase?
  }

  predicate NoSelectSend(steps: seq<Step>) {
    forall i :: 0 <= i < |steps| && steps[i].StartSelect? ==> ReceivesOnly(steps[i].cases)
  }

  /** A buffered channel holds at most `cap` values, and no select waits to send. */
  predicate Disciplined(s: State) {
    && (forall c :: c in s.chans && s.chans[c].ch.cap > 0 ==> |s.chans[c].ch.buf| <= s.chans[c].ch.cap)
    && (forall t :: t in s.threads && s.threads[t].wait.Sel? ==> ReceivesOnly(s.threads[t].wait.cases))
  }

  lemma SelectsOnlyReceive(s: State, step: Step)
    requires Disciplined(s) && Enabled(s, step)
    requires step.StartSelect? ==> ReceivesOnly(step.cases)
    ensures !FiresSend(s, step) && (Fired(s, step).Some? ==> Fired(s, step).value.RecvCase?)
  {
  }

  lemma StepParksReceivers(s: State, step: Step, t: ThreadId)
    requires Disciplined(s) && Enabled(s, step)
    requires step.StartSelect? ==> ReceivesOnly(step.cases)
    requires t in Apply(s, step).threads && Apply(s, step).threads[t].wait.Sel?
    ensures ReceivesOnly(Apply(s, step).threads[t].wait.cases)
  {
  }

  lemma StepKeepsDiscipline(s: State, step: Step)
    requires Inv(s) && Disciplined(s) && Enabled(s, step)
    requires step.StartSelect? ==> ReceivesOnly(step.cases)
    ensures Disciplined(Apply(s, step)) && !FiresSend(s, step)
  {
    var s' := Apply(s, step);
    SelectsOnlyReceive(s, step);
    forall t | t in s'.threads && s'.threads[t].wait.Sel? ensures ReceivesOnly(s'.threads[t].wait.cases) {
      StepParksReceivers(s, step, t);
    }
    forall c | c in s'.chans && s'.chans[c].ch.cap > 0 ensures |s'.chans[c].ch.buf| <= s'.chans[c].ch.cap {
      StepKeepsCapacity(s, step, c);
    }
  }

  lemma StepKeepsCapacity(s: State, step: Step, c: ChanId)
    requires Inv(s) && Enabled(s, step) && (Fired(s, step).Some? ==> Fired(s, step).value.RecvCase?)
    requires c in Apply(s, step).chans && Apply(s, step).chans[c].ch.cap > 0
    requires c in s.chans && s.chans[c].ch.cap > 0 ==> |s.chans[c].ch.buf| <= s.chans[c].ch.cap
    ensures |Apply(s, step).chans[c].ch.buf| <= Apply(s, step).chans[c].ch.cap
  {
    if c in s.chans {
      StepGrows(s, step, c);
      OverflowsExactly(s, step, c);
    }
  }

  lemma {:induction false} DisciplineHolds(s: State, steps: seq<Step>)
    requires Inv(s) && Disciplined(s) && Legal(s, steps) && NoSelectSend(steps)
    ensures Disciplined(Run(s, steps)) && SelectDeposits(s, steps) == {}
    decreases |steps|
  {
    if steps != [] {
      assert steps[0].StartSelect? ==> ReceivesOnly(steps[0].cases);
      StepKeepsDiscipline(s, steps[0]);
      StepKeepsInv(s, steps[0]);
      assert forall i :: 0 <= i < |steps[1..]| ==> steps[1..][i] == steps[i + 1];
      DisciplineHolds(Apply(s, steps[0]), steps[1..]);
    }
  }

  /** It does happen: two woken receivers still count as waiting. */
  lemma SelectSendCanOverflow(v: Value, w: Value, zero: Value) returns (steps: seq<Step>)
    ensures Legal(INIT, steps)
    ensures 0 in Run(INIT, steps).chans
    ensures Run(INIT, steps).chans[0].ch.cap == 1 && Run(INIT, steps).chans[0].ch.buf == [v, w]
  {
    var cases := [SendCase(Some(0), w)];
    steps := [];
    var s := INIT;
    s, steps := Extend(s, steps, Make(0, 1, zero));
    s, steps := Extend(s, steps, StartRecv(1, 0));
    s, steps := Extend(s, steps, StartRecv(2, 0));
    assert s.chans[0] == Tracked(Fields(1, [], false, 2, zero), [], []);
    s, steps := Extend(s, steps, StartSend(3, 0, v));
    assert s.chans[0] == Tracked(Fields(1, [v], false, 2, zero), [v], []);
    assert CaseReady(s.chans, cases[0]);
    s, steps := Extend(s, steps, StartSelect(4, false, cases, 0));
  }

  // ----- Rendezvous -----

  /** A select send that went through. */
  predicate FiresSend(s: State, step: Step)
    requires Enabled(s, step)
  {
    && Fired(s, step).Some? && Fired(s, step).value.SendCase?
    && Fired(s, step).value.ch.Some? && Fired(s, step).value.ch.value in s.chans
    && !s.chans[Fired(s, step).value.ch.value].ch.closed
  }

  /** The channel and the position of the value a step deposits through a select. */
  function SelectDeposit(s: State, step: Step): set<(ChanId, nat)>
    requires Enabled(s, step)
  {
    if FiresSend(s, step) then
      var c := Fired(s, step).value.ch.value;
      {(c, |s.chans[c].deposited|)}
    else {}
  }

  /** Every position filled by a select send in a run. */
  function SelectDeposits(s: State, steps: seq<Step>): set<(ChanId, nat)>
    requires Legal(s, steps)
    decreases |steps|
  {
    if steps == [] then {}
    else SelectDeposit(s, steps[0]) + SelectDeposits(Apply(s, steps[0]), steps[1..])
  }

  /** Thread t is the sender of the i-th value deposited on c, still parked. */
  predicate SendsAt(threads: map<ThreadId, Thread>, t: ThreadId, c: ChanId, i: nat) {
    t in threads && threads[t].wait.Drain? && threads[t].wait.c == c && threads[t].wait.pos == i
  }

  ghost predicate HasSender(threads: map<ThreadId, Thread>, c: ChanId, i: nat) {
    exists t :: SendsAt(threads, t, c, i)
  }

  /** The i-th value deposited on the open unbuffered c is not yet handed over. */
  predicate Owed(s: State, c: ChanId, i: nat) {
    && c in s.chans && s.chans[c].ch.cap == 0 && !s.chans[c].ch.closed
    && |s.chans[c].received| <= i < |s.chans[c].deposited|
  }

  /** Each value in an open unbuffered channel is a select's, or has its sender waiting. */
  ghost predicate Paired(s: State, bySelect: set<(ChanId, nat)>) {
    && (forall c: ChanId, i: nat :: (c, i) in bySelect ==> c in s.chans && i < |s.chans[c].deposited|)
    && (forall t :: t in s.threads && s.threads[t].wait.Drain? ==>
          DrainPosIsOld(s, t) && (s.threads[t].wait.c, s.threads[t].wait.pos) !in bySelect)
    && (forall c: ChanId, i: nat :: Owed(s, c, i) && (c, i) !in bySelect ==> HasSender(s.threads, c, i))
  }

  /** What a segment other than a select deposit does, seen from its thread t. */
  predicate Orderly(s: State, t: ThreadId, c: ChanId, seg: Segment, offered: seq<Value>, w: Wait) {
    && c in s.chans && Proper(s.chans[c], seg, offered) && |offered| <= 1
    && (seg.ch.cap == 0 && |seg.ch.buf| > |s.chans[c].ch.buf| ==>
          t !in s.threads && seg.out.Parked? && w.Drain? && w.c == c && w.pos == |s.chans[c].deposited|)
    && (t in s.threads && s.threads[t].wait.Drain? ==>
          && s.threads[t].wait.c == c
          && if seg.out.Parked? then w == s.threads[t].wait else seg.ch.closed || seg.ch.buf == [])
    && (seg.out.Parked? && w.Drain? ==>
          && w.c == c
          && ((w.pos == |s.chans[c].deposited| && |seg.ch.buf| > |s.chans[c].ch.buf|)
              || (t in s.threads && w == s.threads[t].wait)))
  }

  lemma CommitKeepsPairs(s: State, t: ThreadId, c: ChanId, seg: Segment, offered: seq<Value>, w: Wait,
                         bySelect: set<(ChanId, nat)>)
    requires Conserves(s) && Paired(s, bySelect) && Orderly(s, t, c, seg, offered, w)
    ensures Paired(Commit(s, t, c, seg, offered, w), bySelect)
  {
    var s' := Commit(s, t, c, seg, offered, w);
    TrackConserves(s.chans[c], seg, offered);
    forall c': ChanId, i: nat | Owed(s', c', i) && (c', i) !in bySelect ensures HasSender(s'.threads, c', i) {
      CommitKeepsSender(s, t, c, seg, offered, w, bySelect, c', i);
    }
    assert c in s.chans && s.chans[c].deposited <= s'.chans[c].deposited;
  }

  lemma CommitKeepsSender(s: State, t: ThreadId, c: ChanId, seg: Segment, offered: seq<Value>, w: Wait,
                          bySelect: set<(ChanId, nat)>, c': ChanId, i: nat)
    requires Conserves(s) && Paired(s, bySelect) && Orderly(s, t, c, seg, offered, w)
    requires Owed(Commit(s, t, c, seg, offered, w), c', i) && (c', i) !in bySelect
    ensures HasSender(Commit(s, t, c, seg, offered, w).threads, c', i)
  {
    var s' := Commit(s, t, c, seg, offered, w);
    TrackConserves(s.chans[c], seg, offered);
    if i < |s.chans[c'].deposited| {
      assert Owed(s, c', i);
      var u :| SendsAt(s.threads, u, c', i);
      assert s'.chans[c'].received + s'.chans[c'].ch.buf == s'.chans[c'].deposited;
      assert SendsAt(s'.threads, u, c', i);
    } else {
      assert SendsAt(s'.threads, t, c', i);
    }
  }

  /** A parked sender's value was deposited before now. */
  predicate DrainPosIsOld(s: State, u: ThreadId)
    requires u in s.threads && s.threads[u].wait.Drain?
  {
    var w := s.threads[u].wait;
    w.c in s.chans && w.pos < |s.chans[w.c].deposited|
  }

  /** A select send adds its own position and moves no sender. */
  lemma DepositKeepsPairs(s: State, t: ThreadId, c: ChanId, v: Value, w: Wait, bySelect: set<(ChanId, nat)>)
    requires Conserves(s) && Paired(s, bySelect) && c in s.chans && t !in s.threads
    ensures Paired(Commit(s, t, c, SendDeposit(s.chans[c].ch, v), [v], w),
                   bySelect + if s.chans[c].ch.closed then {} else {(c, |s.chans[c].deposited|)})
  {
    var s' := Commit(s, t, c, SendDeposit(s.chans[c].ch, v), [v], w);
    var bySelect' := bySelect + if s.chans[c].ch.closed then {} else {(c, |s.chans[c].deposited|)};
    assert s'.chans[c].deposited ==
           if s.chans[c].ch.closed then s.chans[c].deposited else s.chans[c].deposited + [v];
    assert s'.chans[c].received == s.chans[c].received;
    forall c': ChanId, i: nat | (c', i) in bySelect' ensures c' in s'.chans && i < |s'.chans[c'].deposited| {
      assert (c', i) in bySelect || (c', i) == (c, |s.chans[c].deposited|);
    }
    forall u | u in s'.threads && s'.threads[u].wait.Drain?
      ensures (s'.threads[u].wait.c, s'.threads[u].wait.pos) !in bySelect'
    {
      assert u in s.threads && s'.threads[u].wait == s.threads[u].wait;
      assert DrainPosIsOld(s, u);
    }
    forall c': ChanId, i: nat | Owed(s', c', i) && (c', i) !in bySelect' ensures HasSender(s'.threads, c', i) {
      assert Owed(s, c', i);
      var u :| SendsAt(s.threads, u, c', i);
      assert SendsAt(s'.threads, u, c', i);
    }
  }

  lemma SelectKeepsPairs(s: State, t: ThreadId, hasDefault: bool, cases: seq<Case>, pick: nat,
                         bySelect: set<(ChanId, nat)>)
    requires Conserves(s) && Paired(s, bySelect) && t !in s.threads && CasesKnown(s.chans, cases)
    requires AnyReady(s.chans, cases) ==> pick < |cases| && CaseReady(s.chans, cases[pick])
    ensures Paired(SelectTurn(s, t, hasDefault, cases, pick),
                   bySelect + TurnDeposit(s, cases, pick))
  {
    var s' := SelectTurn(s, t, hasDefault, cases, pick);
    if AnyReady(s.chans, cases) {
      var c := cases[pick].ch.value;
      if cases[pick].SendCase? {
        DepositKeepsPairs(s, t, c, cases[pick].v, Sel(cases), bySelect);
      } else {
        CommitKeepsPairs(s, t, c, FireCase(s.chans[c].ch, cases[pick]), [], Sel(cases), bySelect);
      }
    } else {
      SamePairs(s, s', bySelect);
    }
  }

  /** The position a turn of the select loop fills, if it sends. */
  function TurnDeposit(s: State, cases: seq<Case>, pick: nat): set<(ChanId, nat)>
    requires CasesKnown(s.chans, cases)
    requires AnyReady(s.chans, cases) ==> pick < |cases| && CaseReady(s.chans, cases[pick])
  {
    if AnyReady(s.chans, cases) && cases[pick].SendCase? && !s.chans[cases[pick].ch.value].ch.closed then
      {(cases[pick].ch.value, |s.chans[cases[pick].ch.value].deposited|)}
    else {}
  }

  lemma SamePairs(s: State, s': State, bySelect: set<(ChanId, nat)>)
    requires Paired(s, bySelect) && s'.chans.Keys == s.chans.Keys
    requires forall c :: c in s.chans ==>
      var a, b := s.chans[c], s'.chans[c];
      (a.deposited == b.deposited && a.received == b.received && a.ch.buf == b.ch.buf
       && a.ch.cap == b.ch.cap && a.ch.closed == b.ch.closed)
    requires forall t :: t in s.threads && s.threads[t].wait.Drain? ==> t in s'.threads && s'.threads[t] == s.threads[t]
    requires forall t :: t in s'.threads && s'.threads[t].wait.Drain? ==>
      t in s.threads && s'.threads[t] == s.threads[t]
    ensures Paired(s', bySelect)
  {
    forall c: ChanId, i: nat | Owed(s', c, i) && (c, i) !in bySelect ensures HasSender(s'.threads, c, i) {
      assert Owed(s, c, i);
      var t :| SendsAt(s.threads, t, c, i);
      assert SendsAt(s'.threads, t, c, i);
    }
  }

  lemma ResumeKeepsPairs(s: State, t: ThreadId, pick: nat, bySelect: set<(ChanId, nat)>)
    requires Inv(s) && Paired(s, bySelect) && Enabled(s, Resume(t, pick))
    ensures Paired(Apply(s, Resume(t, pick)), bySelect + SelectDeposit(s, Resume(t, pick)))
  {
    var w := s.threads[t].wait;
    assert WaitMakesSense(s.chans, w);
    assert bySelect + {} == bySelect;
    match w
    case Drain(c, _, _) => CommitKeepsPairs(s, t, c, SendDrain(s.chans[c].ch), [], w, bySelect);
    case Room(c, v) => CommitKeepsPairs(s, t, c, SendRoom(s.chans[c].ch, v), [v], w, bySelect);
    case Recv(c) => CommitKeepsPairs(s, t, c, RecvTry(s.chans[c].ch), [], w, bySelect);
    case Sel(cases) =>
      var d := Deregistered(s, t, cases);
      SamePairs(s, d, bySelect);
      SelectKeepsPairs(d, t, false, cases, pick, bySelect);
  }

  lemma StepKeepsPairs(s: State, step: Step, bySelect: set<(ChanId, nat)>)
    requires Inv(s) && Paired(s, bySelect) && Enabled(s, step)
    ensures Paired(Apply(s, step), bySelect + SelectDeposit(s, step))
  {
    assert bySelect + {} == bySelect;
    match step
    case Make(_, _, _) =>
      forall c: ChanId, i: nat | Owed(Apply(s, step), c, i) && (c, i) !in bySelect ensures HasSender(s.threads, c, i) {
        assert Owed(s, c, i);
      }
    case StartSend(t, c, v) =>
      CommitKeepsPairs(s, t, c, SendEnter(s.chans[c].ch, v), [v],
        if s.chans[c].ch.cap == 0 then Drain(c, v, |s.chans[c].deposited|) else Room(c, v), bySelect);
    case StartRecv(t, c) => CommitKeepsPairs(s, t, c, RecvEnter(s.chans[c].ch), [], Recv(c), bySelect);
    case StartClose(t, c) => CommitKeepsPairs(s, t, c, CloseChan(s.chans[c].ch), [], Recv(c), bySelect);
    case StartSelect(t, hasDefault, cases, pick) => SelectKeepsPairs(s, t, hasDefault, cases, pick, bySelect);
    case Resume(t, pick) => ResumeKeepsPairs(s, t, pick, bySelect);
  }

  lemma {:induction false} RunKeepsPairs(s: State, steps: seq<Step>, bySelect: set<(ChanId, nat)>)
    requires Inv(s) && Paired(s, bySelect) && Legal(s, steps)
    ensures Paired(Run(s, steps), bySelect + SelectDeposits(s, steps))
    decreases |steps|
  {
    if steps == [] {
      assert bySelect + {} == bySelect;
    } else {
      StepKeepsPairs(s, steps[0], bySelect);
      StepKeepsInv(s, steps[0]);
      var first, rest := SelectDeposit(s, steps[0]), SelectDeposits(Apply(s, steps[0]), steps[1..]);
      RunKeepsPairs(Apply(s, steps[0]), steps[1..], bySelect + first);
      assert bySelect + first + rest == bySelect + (first + rest);
    }
  }

  /** Over every run: a value in an open unbuffered channel has its sender still parked
      with it if and only if it was not put there by a select. */
  lemma RendezvousExactly(steps: seq<Step>, c: ChanId, i: nat)
    requires Legal(INIT, steps) && c in Run(INIT, steps).chans
    requires var h := Run(INIT, steps).chans[c]; h.ch.cap == 0 && !h.ch.closed && i < |h.ch.buf|
    ensures var s := Run(INIT, steps);
            var h := s.chans[c];
            (exists t :: t in s.threads && s.threads[t].wait == Drain(c, h.ch.buf[i], |h.received| + i)) <==>
            (c, |h.received| + i) !in SelectDeposits(INIT, steps)
  {
    InitInv();
    RunKeepsPairs(INIT, steps, {});
    assert {} + SelectDeposits(INIT, steps) == SelectDeposits(INIT, steps);
    ReachableStatesAreSafe(steps);
    OwedSender(Run(INIT, steps), SelectDeposits(INIT, steps), c, i);
  }

  /** The sender of a buffered value in an open unbuffered channel. */
  lemma OwedSender(s: State, bySelect: set<(ChanId, nat)>, c: ChanId, i: nat)
    requires Inv(s) && Paired(s, bySelect) && c in s.chans
    requires s.chans[c].ch.cap == 0 && !s.chans[c].ch.closed && i < |s.chans[c].ch.buf|
    ensures var h := s.chans[c];
            (exists t :: t in s.threads && s.threads[t].wait == Drain(c, h.ch.buf[i], |h.received| + i)) <==>
            (c, |h.received| + i) !in bySelect
  {
    var h := s.chans[c];
    assert h.received + h.ch.buf == h.deposited;
    assert Owed(s, c, |h.received| + i);
    if (c, |h.received| + i) !in bySelect {
      var t :| SendsAt(s.threads, t, c, |h.received| + i);
      assert WaitMakesSense(s.chans, s.threads[t].wait);
      assert h.deposited[|h.received| + i] == h.ch.buf[i];
    }
  }

  /** In every run without select sends, buffers respect their capacity and every
      value in an open unbuffered channel has its sender still parked with it. */
  lemma CapacityAndRendezvous(steps: seq<Step>, c: ChanId, i: nat)
    requires Legal(INIT, steps) && NoSelectSend(steps) && c in Run(INIT, steps).chans
    ensures var h := Run(INIT, steps).chans[c];
            && (h.ch.cap > 0 ==> |h.ch.buf| <= h.ch.cap)
            && (h.ch.cap == 0 && !h.ch.closed && i < |h.ch.buf| ==>
                  exists t :: t in Run(INIT, steps).threads
                    && Run(INIT, steps).threads[t].wait == Drain(c, h.ch.buf[i], |h.received| + i))
  {
    InitInv();
    DisciplineHolds(INIT, steps);
    var h := Run(INIT, steps).chans[c];
    if h.ch.cap == 0 && !h.ch.closed && i < |h.ch.buf| { RendezvousExactly(steps, c, i); }
  }

  /** A receiver waits on two open unbuffered channels in one select. */
  lemma ReceiverWaitsOnTwo(zero: Value) returns (steps: seq<Step>)
    ensures Legal(INIT, steps)
    ensures Run(INIT, steps) == TwoChannels([], [], zero, false)
  {
    var receiver := [RecvCase(Some(0)), RecvCase(Some(1))];
    steps := [];
    var s := INIT;
    s, steps := Extend(s, steps, Make(0, 0, zero));
    s, steps := Extend(s, steps, Make(1, 0, zero));
    assert !CaseReady(s.chans, receiver[0]) && !CaseReady(s.chans, receiver[1]);
    s, steps := Extend(s, steps, StartSelect(1, false, receiver, 0));
    assert receiver[1..] == [RecvCase(Some(1))];
    assert RecvCases(receiver, 0) == 1 && RecvCases(receiver, 1) == 1;
    assert s.chans == TwoChannels([], [], zero, false).chans;
  }

  /** Thread 1 waits to receive from channels 0 and 1, which hold these values. */
  function TwoChannels(a: seq<Value>, b: seq<Value>, zero: Value, notified: bool): State {
    State(map[0 := Tracked(Fields(0, a, false, 1, zero), a, []), 1 := Tracked(Fields(0, b, false, 1, zero), b, [])],
          map[1 := Thread(Sel([RecvCase(Some(0)), RecvCase(Some(1))]), notified)])
  }

  lemma SelectSendGoesAhead(s: State, steps: seq<Step>, c: ChanId, v: Value, zero: Value, a: seq<Value>)
    returns (s': State, steps': seq<Step>)
    requires Legal(INIT, steps) && Run(INIT, steps) == s && c < 2
    requires s == TwoChannels(a, [], zero, c == 1) && (if c == 0 then a == [] else |a| == 1)
    ensures Legal(INIT, steps') && Run(INIT, steps') == s'
    ensures s' == if c == 0 then TwoChannels([v], [], zero, true) else TwoChannels(a, [v], zero, true)
  {
    var cases := [SendCase(Some(c), v)];
    assert CaseReady(s.chans, cases[0]);
    s', steps' := Extend(s, steps, StartSelect(2, false, cases, 0));
    assert [] + [v] == [v];
  }

  /** A value left behind: a receiver that waits on two channels in one select draws a
      select send on each, takes one of the two values and leaves the other in its open
      unbuffered channel, with no thread left at all. */
  lemma SelectSendIsNotTaken(v: Value, w: Value, zero: Value) returns (steps: seq<Step>)
    ensures Legal(INIT, steps)
    ensures var s := Run(INIT, steps);
            && s.threads == map[] && 0 in s.chans
            && s.chans[0].ch.cap == 0 && !s.chans[0].ch.closed && s.chans[0].ch.buf == [v]
  {
    steps := ReceiverWaitsOnTwo(zero);
    var s := Run(INIT, steps);
    s, steps := SelectSendGoesAhead(s, steps, 0, v, zero, []);
    s, steps := SelectSendGoesAhead(s, steps, 1, w, zero, [v]);
    LastReceive(s, v, w, zero);
    s, steps := Extend(s, steps, Resume(1, 1));
  }

  lemma LastReceive(s: State, v: Value, w: Value, zero: Value)
    requires s == TwoChannels([v], [w], zero, true)
    ensures Enabled(s, Resume(1, 1)) && Apply(s, Resume(1, 1)).threads == map[]
    ensures 0 in Apply(s, Resume(1, 1)).chans
    ensures var ch := Apply(s, Resume(1, 1)).chans[0].ch; ch.cap == 0 && !ch.closed && ch.buf == [v]
  {
    var receiver := [RecvCase(Some(0)), RecvCase(Some(1))];
    assert CaseReady(Deregistered(s, 1, receiver).chans, receiver[1]);
  }
}
