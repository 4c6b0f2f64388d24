/** What every reachable state of the channels keeps. */
module ChannelSafety {
  // For any number of threads and channels and every interleaving: FIFO conservation,
  // exact receiver registration, no lost wakeup.

  import opened Channels

  // ----- Counting registrations -----

  /** How often a waiting thread counts towards `recvWaiting` of c. */
  function Registered(w: Wait, c: ChanId): nat {
    match w
    case Recv(c') => if c' == c then 1 else 0
    case Sel(cases) => RecvCases(cases, c)
    case _ => 0
  }

  ghost function Registrations(threads: map<ThreadId, Thread>, c: ChanId): nat
    decreases |threads|
  {
    if threads == map[] then 0
    else
      var t :| t in threads;
      Registered(threads[t].wait, c) + Registrations(threads - {t}, c)
  }

  lemma {:induction false} RegistrationsSplit(threads: map<ThreadId, Thread>, t: ThreadId, c: ChanId)
    requires t in threads
    ensures Registrations(threads, c) == Registered(threads[t].wait, c) + Registrations(threads - {t}, c)
    decreases |threads|
  {
    var u :| u in threads &&
      Registrations(threads, c) == Registered(threads[u].wait, c) + Registrations(threads - {u}, c);
    if u != t {
      RegistrationsSplit(threads - {u}, t, c);
      RegistrationsSplit(threads - {t}, u, c);
      assert threads - {u} - {t} == threads - {t} - {u};
    }
  }

  lemma {:induction false} RegistrationsNotified(threads: map<ThreadId, Thread>, c: ChanId)
    ensures Registrations(NotifyAll(threads), c) == Registrations(threads, c)
    decreases |threads|
  {
    if threads != map[] {
      var t :| t in threads;
      RegistrationsSplit(threads, t, c);
      RegistrationsSplit(NotifyAll(threads), t, c);
      assert NotifyAll(threads) - {t} == NotifyAll(threads - {t});
      RegistrationsNotified(threads - {t}, c);
    } else {
      assert NotifyAll(threads) == map[];
    }
  }

  /** Removing a thread and parking it again at w. */
  lemma RegistrationsUpdate(threads: map<ThreadId, Thread>, t: ThreadId, th: Thread, c: ChanId)
    ensures Registrations(threads[t := th], c) ==
            Registrations(threads - {t}, c) + Registered(th.wait, c)
  {
    RegistrationsSplit(threads[t := th], t, c);
    assert threads[t := th] - {t} == threads - {t};
  }

  // ----- The invariants -----

  /** received ++ buffer is exactly what was deposited, in that order. */
  predicate Conserves(s: State) {
    forall c :: c in s.chans ==> s.chans[c].received + s.chans[c].ch.buf == s.chans[c].deposited
  }

  ghost predicate CountsReceivers(s: State) {
    forall c :: c in s.chans ==> s.chans[c].ch.recvWaiting == Registrations(s.threads, c)
  }

  /** Waiting threads name existing channels, and a draining sender's position
      really holds its value. */
  predicate WaitsMakeSense(s: State) {
    forall t :: t in s.threads ==> WaitMakesSense(s.chans, s.threads[t].wait)
  }

  predicate WaitMakesSense(chans: map<ChanId, Tracked>, w: Wait) {
    match w
    case Drain(c, v, pos) =>
      && c in chans && chans[c].ch.cap == 0
      && pos < |chans[c].deposited| && chans[c].deposited[pos] == v
    case Room(c, _) => c in chans && chans[c].ch.cap > 0
    case Recv(c) => c in chans
    case Sel(cases) => CasesKnown(chans, cases)
  }

  /** Nothing that a waiter's guard reads from `buf` and `closed` lets it go on. */
  predicate MustWait(chans: map<ChanId, Tracked>, w: Wait)
    requires WaitMakesSense(chans, w)
  {
    match w
    case Drain(c, _, _) => chans[c].ch.buf != [] && !chans[c].ch.closed
    case Room(c, _) => |chans[c].ch.buf| >= chans[c].ch.cap && !chans[c].ch.closed
    case Recv(c) => !RecvReady(chans[c].ch)
    case Sel(cases) =>
      forall i :: 0 <= i < |cases| && cases[i].ch.Some? ==>
        var ch := chans[cases[i].ch.value].ch;
        if cases[i].RecvCase? then !RecvReady(ch) else |ch.buf| >= ch.cap && !ch.closed
  }

  /** A thread that waits without having been notified is right to wait. */
  predicate NoLostWakeup(s: State)
    requires WaitsMakeSense(s)
  {
    forall t :: t in s.threads && !s.threads[t].notified ==> MustWait(s.chans, s.threads[t].wait)
  }

  ghost predicate Inv(s: State) {
    Conserves(s) && CountsReceivers(s) && WaitsMakeSense(s) && NoLostWakeup(s)
  }

  // ----- Preservation -----

  /** What every segment does: FIFO effect on the buffer, no silent change. */
  predicate Proper(h: Tracked, seg: Segment, offered: seq<Value>) {
    && seg.ch.cap == h.ch.cap && seg.ch.zero == h.ch.zero
    && (h.ch.closed ==> seg.ch.closed && |seg.ch.buf| <= |h.ch.buf|)
    && (!seg.notify ==> seg.ch.buf == h.ch.buf && seg.ch.closed == h.ch.closed)
    && (seg.ch.buf == h.ch.buf || (offered != [] && seg.ch.buf == h.ch.buf + offered)
        || (h.ch.buf != [] && seg.ch.buf == h.ch.buf[1..]))
    && (seg.out.Received? && seg.out.ok <==> h.ch.buf != [] && seg.ch.buf == h.ch.buf[1..])
    && (seg.out.Received? && seg.out.ok ==> seg.out.value == h.ch.buf[0])
  }

  lemma TrackConserves(h: Tracked, seg: Segment, offered: seq<Value>)
    requires h.received + h.ch.buf == h.deposited
    requires Proper(h, seg, offered)
    ensures var h' := Track(h, seg, offered);
            && h'.received + h'.ch.buf == h'.deposited
            && h.deposited <= h'.deposited
            && h.received <= h'.received
            && (h.ch.closed ==> h'.deposited == h.deposited)
  {
    if seg.out.Received? && seg.out.ok {
      assert h.ch.buf == [h.ch.buf[0]] + h.ch.buf[1..];
      assert h.received + [h.ch.buf[0]] + h.ch.buf[1..] == h.received + h.ch.buf;
    } else if offered != [] && seg.ch.buf == h.ch.buf + offered {
      assert h.received + (h.ch.buf + offered) == h.received + h.ch.buf + offered;
    }
  }

  /** A segment of a thread that is not waiting, and where it waits if it parks. */
  ghost predicate GoodCommit(s: State, t: ThreadId, c: ChanId, seg: Segment, offered: seq<Value>, w: Wait) {
    && c in s.chans && t !in s.threads
    && Proper(s.chans[c], seg, offered)
    && seg.ch.recvWaiting == s.chans[c].ch.recvWaiting + (if seg.out.Parked? then Registered(w, c) else 0)
    && (seg.out.Parked? ==>
          var chans' := s.chans[c := Track(s.chans[c], seg, offered)];
          && WaitMakesSense(chans', w) && MustWait(chans', w)
          && (forall c' :: c' != c ==> Registered(w, c') == 0))
  }

  lemma CommitCounts(s: State, t: ThreadId, c: ChanId, seg: Segment, offered: seq<Value>, w: Wait)
    requires CountsReceivers(s) && GoodCommit(s, t, c, seg, offered, w)
    ensures CountsReceivers(Commit(s, t, c, seg, offered, w))
  {
    var s' := Commit(s, t, c, seg, offered, w);
    var woken := if seg.notify then NotifyAll(s.threads) else s.threads;
    assert woken - {t} == woken;
    forall c' | c' in s'.chans
      ensures s'.chans[c'].ch.recvWaiting == Registrations(s'.threads, c')
    {
      RegistrationsNotified(s.threads, c');
      RegistrationsUpdate(woken, t, Thread(w, false), c');
    }
  }

  lemma CommitWaits(s: State, t: ThreadId, c: ChanId, seg: Segment, offered: seq<Value>, w: Wait)
    requires Conserves(s) && WaitsMakeSense(s) && NoLostWakeup(s) && GoodCommit(s, t, c, seg, offered, w)
    ensures var s' := Commit(s, t, c, seg, offered, w); WaitsMakeSense(s') && NoLostWakeup(s')
  {
    var s' := Commit(s, t, c, seg, offered, w);
    TrackConserves(s.chans[c], seg, offered);
    forall u | u in s'.threads
      ensures WaitMakesSense(s'.chans, s'.threads[u].wait)
      ensures !s'.threads[u].notified ==> MustWait(s'.chans, s'.threads[u].wait)
    {
      if u != t {
        assert s'.threads[u].wait == s.threads[u].wait;
        StillMakesSense(s.chans, s'.chans, s.threads[u].wait);
        if !s'.threads[u].notified {
          assert !seg.notify;
          SameGuards(s.chans, s'.chans, s.threads[u].wait);
        }
      }
    }
  }

  lemma StillMakesSense(chans: map<ChanId, Tracked>, chans': map<ChanId, Tracked>, w: Wait)
    requires WaitMakesSense(chans, w)
    requires forall c :: c in chans ==>
      (c in chans' && chans'[c].ch.cap == chans[c].ch.cap && chans[c].deposited <= chans'[c].deposited)
    ensures WaitMakesSense(chans', w)
  {
  }

  lemma CommitPreserves(s: State, t: ThreadId, c: ChanId, seg: Segment, offered: seq<Value>, w: Wait)
    requires Inv(s) && GoodCommit(s, t, c, seg, offered, w)
    ensures Inv(Commit(s, t, c, seg, offered, w))
  {
    TrackConserves(s.chans[c], seg, offered);
    CommitCounts(s, t, c, seg, offered, w);
    CommitWaits(s, t, c, seg, offered, w);
  }

  /** Guards depend on `cap`, `buf` and `closed` only. */
  lemma SameGuards(chans: map<ChanId, Tracked>, chans': map<ChanId, Tracked>, w: Wait)
    requires WaitMakesSense(chans, w) && WaitMakesSense(chans', w)
    requires forall c :: c in chans && c in chans' ==>
      var a, b := chans[c].ch, chans'[c].ch;
      a.cap == b.cap && a.buf == b.buf && a.closed == b.closed
    ensures MustWait(chans, w) == MustWait(chans', w)
  {
  }

  /** A woken thread out of its wait, its registrations taken back. */
  function Unparked(s: State, t: ThreadId): State
    requires t in s.threads
  {
    match s.threads[t].wait
    case Recv(c) =>
      if c in s.chans then
        State(s.chans[c := s.chans[c].(ch := s.chans[c].ch.(recvWaiting := s.chans[c].ch.recvWaiting - 1))],
              s.threads - {t})
      else s
    case Sel(cases) => Deregistered(s, t, cases)
    case _ => State(s.chans, s.threads - {t})
  }

  lemma UnparkedKeepsInv(s: State, t: ThreadId)
    requires Inv(s) && t in s.threads
    ensures Inv(Unparked(s, t)) && t !in Unparked(s, t).threads
  {
    var s' := Unparked(s, t);
    assert WaitMakesSense(s.chans, s.threads[t].wait);
    forall c | c in s'.chans
      ensures s'.chans[c].ch.recvWaiting == Registrations(s'.threads, c)
    {
      RegistrationsSplit(s.threads, t, c);
    }
    forall u | u in s'.threads ensures WaitMakesSense(s'.chans, s'.threads[u].wait) {
      assert WaitMakesSense(s.chans, s.threads[u].wait);
    }
    forall u | u in s'.threads && !s'.threads[u].notified
      ensures MustWait(s'.chans, s'.threads[u].wait)
    {
      SameGuards(s.chans, s'.chans, s.threads[u].wait);
    }
  }

  lemma SelectParkKeepsInv(s: State, t: ThreadId, cases: seq<Case>)
    requires Inv(s) && t !in s.threads && CasesKnown(s.chans, cases) && !AnyReady(s.chans, cases)
    ensures Inv(State(Register(s.chans, cases, 1), s.threads[t := Thread(Sel(cases), false)]))
  {
    var s' := State(Register(s.chans, cases, 1), s.threads[t := Thread(Sel(cases), false)]);
    assert s.threads - {t} == s.threads;
    forall c | c in s'.chans
      ensures s'.chans[c].ch.recvWaiting == Registrations(s'.threads, c)
    {
      RegistrationsUpdate(s.threads, t, Thread(Sel(cases), false), c);
    }
    forall u | u in s'.threads ensures WaitMakesSense(s'.chans, s'.threads[u].wait) {
      if u != t { assert WaitMakesSense(s.chans, s.threads[u].wait); }
    }
    forall u | u in s'.threads && !s'.threads[u].notified
      ensures MustWait(s'.chans, s'.threads[u].wait)
    {
      if u != t {
        SameGuards(s.chans, s'.chans, s.threads[u].wait);
      } else {
        assert forall i :: 0 <= i < |cases| ==> !CaseReady(s.chans, cases[i]);
      }
    }
  }

  lemma SelectTurnKeepsInv(s: State, t: ThreadId, hasDefault: bool, cases: seq<Case>, pick: nat)
    requires Inv(s) && t !in s.threads && CasesKnown(s.chans, cases)
    requires AnyReady(s.chans, cases) ==> pick < |cases| && CaseReady(s.chans, cases[pick])
    ensures Inv(SelectTurn(s, t, hasDefault, cases, pick))
  {
    if AnyReady(s.chans, cases) {
      var k := cases[pick];
      var c := k.ch.value;
      CommitPreserves(s, t, c, FireCase(s.chans[c].ch, k), if k.SendCase? then [k.v] else [], Sel(cases));
    } else if hasDefault {
      assert s.threads - {t} == s.threads;
    } else {
      SelectParkKeepsInv(s, t, cases);
    }
  }

  lemma StepKeepsInv(s: State, step: Step)
    requires Inv(s) && Enabled(s, step)
    ensures Inv(Apply(s, step))
  {
    match step
    case Make(c, cap, zero) => MakeKeepsInv(s, c, cap, zero);
    case StartSend(t, c, v) =>
      CommitPreserves(s, t, c, SendEnter(s.chans[c].ch, v), [v],
        if s.chans[c].ch.cap == 0 then Drain(c, v, |s.chans[c].deposited|) else Room(c, v));
    case StartRecv(t, c) => CommitPreserves(s, t, c, RecvEnter(s.chans[c].ch), [], Recv(c));
    case StartClose(t, c) => CommitPreserves(s, t, c, CloseChan(s.chans[c].ch), [], Recv(c));
    case StartSelect(t, hasDefault, cases, pick) => SelectTurnKeepsInv(s, t, hasDefault, cases, pick);
    case Resume(t, pick) => ResumeKeepsInv(s, t, pick);
  }

  lemma ResumeKeepsInv(s: State, t: ThreadId, pick: nat)
    requires Inv(s) && Enabled(s, Resume(t, pick))
    ensures Inv(Apply(s, Resume(t, pick)))
  {
    var w := s.threads[t].wait;
    UnparkedKeepsInv(s, t);
    assert WaitMakesSense(s.chans, w);
    match w
    case Drain(c, _, _) => PlainResumeKeepsInv(s, t, c, SendDrain(s.chans[c].ch), []);
    case Room(c, v) => PlainResumeKeepsInv(s, t, c, SendRoom(s.chans[c].ch, v), [v]);
    case Recv(c) => PlainResumeKeepsInv(s, t, c, RecvTry(s.chans[c].ch), []);
    case Sel(cases) => SelectTurnKeepsInv(Unparked(s, t), t, false, cases, pick);
  }

  lemma PlainResumeKeepsInv(s: State, t: ThreadId, c: ChanId, seg: Segment, offered: seq<Value>)
    requires Inv(s) && t in s.threads && c in s.chans && !s.threads[t].wait.Sel?
    requires match s.threads[t].wait
             case Drain(c', _, _) => c' == c && seg == SendDrain(s.chans[c].ch) && offered == []
             case Room(c', v) => c' == c && seg == SendRoom(s.chans[c].ch, v) && offered == [v]
             case Recv(c') => c' == c && seg == RecvTry(s.chans[c].ch) && offered == []
             case _ => false
    ensures Inv(Commit(s, t, c, seg, offered, s.threads[t].wait))
  {
    var w := s.threads[t].wait;
    UnparkedKeepsInv(s, t);
    assert WaitMakesSense(s.chans, w);
    CommitPreserves(Unparked(s, t), t, c, seg, offered, w);
    SameCommit(s, Unparked(s, t), t, c, seg, offered, w);
  }

  /** Running a segment from the parked state or from the unparked one is the same. */
  lemma SameCommit(s: State, u: State, t: ThreadId, c: ChanId, seg: Segment, offered: seq<Value>, w: Wait)
    requires t in s.threads && u == Unparked(s, t) && c in s.chans
    requires match s.threads[t].wait case Recv(c') => c' == c case Sel(_) => false case _ => true
    ensures c in u.chans && Commit(s, t, c, seg, offered, w) == Commit(u, t, c, seg, offered, w)
  {
    assert s.chans[c := Track(s.chans[c], seg, offered)] == u.chans[c := Track(u.chans[c], seg, offered)];
    assert NotifyAll(s.threads) - {t} == NotifyAll(u.threads) - {t};
    assert NotifyAll(s.threads)[t := Thread(w, false)] == NotifyAll(u.threads)[t := Thread(w, false)];
    assert s.threads[t := Thread(w, false)] == u.threads[t := Thread(w, false)];
  }

  lemma MakeKeepsInv(s: State, c: ChanId, cap: nat, zero: Value)
    requires Inv(s) && Enabled(s, Make(c, cap, zero))
    ensures Inv(Apply(s, Make(c, cap, zero)))
  {
    var s' := Apply(s, Make(c, cap, zero));
    NoneRegistered(s.threads, s.chans, c);
    forall t | t in s'.threads
      ensures WaitMakesSense(s'.chans, s'.threads[t].wait)
      ensures !s'.threads[t].notified ==> MustWait(s'.chans, s'.threads[t].wait)
    {
      assert WaitMakesSense(s.chans, s.threads[t].wait);
      SameGuards(s.chans, s'.chans, s.threads[t].wait);
    }
  }

  lemma {:induction false} NoneRegistered(threads: map<ThreadId, Thread>, chans: map<ChanId, Tracked>, c: ChanId)
    requires forall t :: t in threads ==> WaitMakesSense(chans, threads[t].wait)
    requires c !in chans
    ensures Registrations(threads, c) == 0
    decreases |threads|
  {
    if threads != map[] {
      var t :| t in threads;
      RegistrationsSplit(threads, t, c);
      assert WaitMakesSense(chans, threads[t].wait);
      if threads[t].wait.Sel? { NoCaseOn(threads[t].wait.cases, chans, c); }
      NoneRegistered(threads - {t}, chans, c);
    }
  }

  lemma {:induction false} NoCaseOn(cases: seq<Case>, chans: map<ChanId, Tracked>, c: ChanId)
    requires CasesKnown(chans, cases) && c !in chans
    ensures RecvCases(cases, c) == 0
  {
    if cases != [] {
      assert cases[0].ch.Some? ==> cases[0].ch.value in chans;
      forall i | 0 <= i < |cases[1..]| && cases[1..][i].ch.Some? ensures cases[1..][i].ch.value in chans {
        assert cases[1..][i] == cases[i + 1];
      }
      NoCaseOn(cases[1..], chans, c);
    }
  }

  lemma {:induction false} RunKeepsInv(s: State, steps: seq<Step>)
    requires Inv(s) && Legal(s, steps)
    ensures Inv(Run(s, steps))
    decreases |steps|
  {
    if steps != [] {
      StepKeepsInv(s, steps[0]);
      RunKeepsInv(Apply(s, steps[0]), steps[1..]);
    }
  }
}
