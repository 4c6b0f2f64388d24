/** Go channels and `select` on one shared condition. */
module Channels {
  // Every stretch of code between two waits on `_chan_cond` runs under its lock, so it is
  // one atomic segment: a function from the channel's fields to its new fields, what the
  // caller gets, and whether `notify_all` was called. The class `Chan` runs the segments in
  // place; `State` composes them for any number of threads and channels.

  import opened Prelude

  type Value(==, !new)

  // ----- One channel -----

  /** The fields of a channel; `zero` is what its zero factory builds. */
  datatype Fields = Fields(cap: nat, buf: seq<Value>, closed: bool, recvWaiting: int, zero: Value)

  datatype Outcome =
    | Parked
    | Sent
    | Received(value: Value, ok: bool)
    | Closed
    | Defaulted
    | Panicked

  /** What one critical section did. */
  datatype Segment = Segment(ch: Fields, out: Outcome, notify: bool)

  function SendEnter(ch: Fields, v: Value): Segment {
    if ch.closed then Segment(ch, Panicked, false)
    else if ch.cap == 0 then Segment(ch.(buf := ch.buf + [v]), Parked, true)
    else SendRoom(ch, v)
  }

  /** The `while len(buf) >= cap` loop of a buffered send, from its test on. */
  function SendRoom(ch: Fields, v: Value): Segment {
    if |ch.buf| >= ch.cap && !ch.closed then Segment(ch, Parked, false)
    else if ch.closed then Segment(ch, Panicked, false)
    else Segment(ch.(buf := ch.buf + [v]), Sent, true)
  }

  /** The `while buf and not closed` loop of an unbuffered send, after a wait. */
  function SendDrain(ch: Fields): Segment {
    if ch.buf != [] && !ch.closed then Segment(ch, Parked, false)
    else if ch.closed && ch.buf != [] then Segment(ch, Panicked, false)
    else Segment(ch, Sent, false)
  }

  function RecvEnter(ch: Fields): Segment {
    RecvTry(ch.(recvWaiting := ch.recvWaiting + 1))
  }

  /** One turn of the receive loop; the receiver is counted in `recvWaiting`. */
  function RecvTry(ch: Fields): Segment {
    if ch.buf != [] then
      Segment(ch.(buf := ch.buf[1..], recvWaiting := ch.recvWaiting - 1), Received(ch.buf[0], true), true)
    else if ch.closed then
      Segment(ch.(recvWaiting := ch.recvWaiting - 1), Received(ch.zero, false), false)
    else
      Segment(ch, Parked, false)
  }

  function CloseChan(ch: Fields): Segment {
    if ch.closed then Segment(ch, Panicked, false) else Segment(ch.(closed := true), Closed, true)
  }

  predicate RecvReady(ch: Fields) {
    |ch.buf| > 0 || ch.closed
  }

  predicate SendReady(ch: Fields) {
    |ch.buf| < ch.cap || ch.recvWaiting > |ch.buf| || ch.closed
  }

  function SendDeposit(ch: Fields, v: Value): Segment {
    if ch.closed then Segment(ch, Panicked, false)
    else Segment(ch.(buf := ch.buf + [v]), Sent, true)
  }

  /** The channel object: each method is one critical section on its fields. */
  class Chan {
    const cap: nat
    const zero: Value
    var buf: seq<Value>
    var closed: bool
    var recvWaiting: int

    constructor (cap: nat, zero: Value)
      ensures View() == Fields(cap, [], false, 0, zero)
    {
      this.cap, this.zero := cap, zero;
      buf, closed, recvWaiting := [], false, 0;
    }

    function View(): Fields
      reads this
    {
      Fields(cap, buf, closed, recvWaiting, zero)
    }

    method BeginSend(v: Value) returns (out: Outcome, notify: bool)
      modifies this
      ensures Segment(View(), out, notify) == SendEnter(old(View()), v)
    {
      out, notify := Parked, false;
      if closed {
        out := Panicked;
      } else if cap == 0 {
        buf, notify := buf + [v], true;
      } else {
        out, notify := ResumeRoom(v);
      }
    }

    method ResumeRoom(v: Value) returns (out: Outcome, notify: bool)
      modifies this
      ensures Segment(View(), out, notify) == SendRoom(old(View()), v)
    {
      out, notify := Parked, false;
      if |buf| >= cap && !closed {
        return;
      }
      if closed {
        out := Panicked;
        return;
      }
      buf, out, notify := buf + [v], Sent, true;
    }

    method ResumeDrain() returns (out: Outcome)
      ensures Segment(View(), out, false) == SendDrain(View())
    {
      out := Sent;
      if buf != [] && !closed {
        out := Parked;
      } else if closed && buf != [] {
        out := Panicked;
      }
    }

    method BeginRecv() returns (out: Outcome, notify: bool)
      modifies this
      ensures Segment(View(), out, notify) == RecvEnter(old(View()))
    {
      recvWaiting := recvWaiting + 1;
      out, notify := ResumeRecv();
    }

    method ResumeRecv() returns (out: Outcome, notify: bool)
      modifies this
      ensures Segment(View(), out, notify) == RecvTry(old(View()))
    {
      out, notify := Parked, false;
      if buf != [] {
        out, notify := Received(buf[0], true), true;
        buf, recvWaiting := buf[1..], recvWaiting - 1;
      } else if closed {
        out, recvWaiting := Received(zero, false), recvWaiting - 1;
      }
    }

    method Close() returns (out: Outcome, notify: bool)
      modifies this
      ensures Segment(View(), out, notify) == CloseChan(old(View()))
    {
      if closed {
        out, notify := Panicked, false;
      } else {
        closed, out, notify := true, Closed, true;
      }
    }

    method Deposit(v: Value) returns (out: Outcome, notify: bool)
      modifies this
      ensures Segment(View(), out, notify) == SendDeposit(old(View()), v)
    {
      if closed {
        return Panicked, false;
      }
      buf, out, notify := buf + [v], Sent, true;
    }
  }

  // ----- select on channel objects -----

  /** A select case over a channel object; null is Go's nil channel. */
  datatype CaseRef = RecvOn(ch: Chan?) | SendOn(ch: Chan?, v: Value)

  predicate RefReady(k: CaseRef)
    reads k.ch
  {
    k.ch != null && if k.RecvOn? then RecvReady(k.ch.View()) else SendReady(k.ch.View())
  }

  ghost function ChansOf(cases: seq<CaseRef>): set<object> {
    set i | 0 <= i < |cases| && cases[i].ch != null :: cases[i].ch
  }

  /** How many of the cases receive from the object ch. */
  ghost function RecvRefs(cases: seq<CaseRef>, ch: Chan): nat {
    if cases == [] then 0
    else RecvRefs(cases[..|cases| - 1], ch) + (if cases[|cases| - 1] == RecvOn(ch) then 1 else 0)
  }

  /** The list of ready indices the select chooses from. */
  method ReadyCases(cases: seq<CaseRef>) returns (ready: seq<nat>)
    ensures forall i :: i in ready <==> 0 <= i < |cases| && RefReady(cases[i])
    ensures forall i, j :: 0 <= i < j < |ready| ==> ready[i] < ready[j]
  {
    ready := [];
    for i := 0 to |cases|
      invariant forall j :: j in ready <==> 0 <= j < i && RefReady(cases[j])
      invariant forall j :: 0 <= j < |ready| ==> ready[j] < i
      invariant forall j, k :: 0 <= j < k < |ready| ==> ready[j] < ready[k]
    {
      if RefReady(cases[i]) {
        ready := ready + [i];
      }
    }
  }

  /** Add `sign` to `recvWaiting` once per receive case; one channel may occur in several. */
  method RegisterRefs(cases: seq<CaseRef>, sign: int)
    modifies ChansOf(cases)
    ensures forall ch: Chan :: ch in ChansOf(cases) ==>
      ch.View() == old(ch.View()).(recvWaiting := old(ch.recvWaiting) + sign * RecvRefs(cases, ch))
  {
    for i := 0 to |cases|
      invariant forall ch: Chan :: ch in ChansOf(cases) ==>
        ch.View() == old(ch.View()).(recvWaiting := old(ch.recvWaiting) + sign * RecvRefs(cases[..i], ch))
    {
      assert cases[..i + 1][..i] == cases[..i];
      if cases[i].RecvOn? && cases[i].ch != null {
        assert cases[i].ch in ChansOf(cases);
        cases[i].ch.recvWaiting := cases[i].ch.recvWaiting + sign;
      }
    }
    assert cases[..|cases|] == cases;
  }

  /** One turn of the select loop on channel objects; `draw` is the random draw.
      An index of -1 means the default was taken or the thread has to wait. */
  method SelectOnce(hasDefault: bool, cases: seq<CaseRef>, draw: nat)
    returns (index: int, out: Outcome, notify: bool)
    modifies ChansOf(cases)
    ensures (exists i :: 0 <= i < |cases| && old(RefReady(cases[i]))) ==>
      && 0 <= index < |cases| && old(RefReady(cases[index]))
      && Segment(cases[index].ch.View(), out, notify) ==
         (if cases[index].RecvOn? then RecvEnter(old(cases[index].ch.View()))
          else SendDeposit(old(cases[index].ch.View()), cases[index].v))
      && (forall ch: Chan :: ch in ChansOf(cases) && ch != cases[index].ch ==> ch.View() == old(ch.View()))
    ensures !(exists i :: 0 <= i < |cases| && old(RefReady(cases[i]))) ==>
      && index == -1 && !notify && out == (if hasDefault then Defaulted else Parked)
      && (forall ch: Chan :: ch in ChansOf(cases) ==>
            ch.View() == old(ch.View()).(recvWaiting := old(ch.recvWaiting)
                           + if hasDefault then 0 else RecvRefs(cases, ch)))
  {
    var ready := ReadyCases(cases);
    index, out, notify := -1, Defaulted, false;
    if ready != [] {
      index := ready[draw % |ready|];
      assert index in ready;
      assert cases[index].ch in ChansOf(cases);
      if cases[index].RecvOn? {
        out, notify := cases[index].ch.BeginRecv();
      } else {
        out, notify := cases[index].ch.Deposit(cases[index].v);
      }
    } else {
      assert forall i :: 0 <= i < |cases| ==> i !in ready;
      if !hasDefault {
        RegisterRefs(cases, 1);
        out := Parked;
      }
    }
  }

  // ----- All channels and threads -----

  type ChanId = nat
  type ThreadId = nat

  /** A select case; `ch` is None for a nil channel. */
  datatype Case = RecvCase(ch: Option<ChanId>) | SendCase(ch: Option<ChanId>, v: Value)

  /** Where a thread waits on the shared condition. `pos` is the position of the
      waiting sender's own value among all values deposited on the channel. */
  datatype Wait =
    | Drain(c: ChanId, v: Value, pos: nat)
    | Room(c: ChanId, v: Value)
    | Recv(c: ChanId)
    | Sel(cases: seq<Case>)

  /** `notified` means woken by `notify_all` but not yet running again. */
  datatype Thread = Thread(wait: Wait, notified: bool)

  /** A channel with what was ever put into it and ever handed out of it. */
  datatype Tracked = Tracked(ch: Fields, deposited: seq<Value>, received: seq<Value>)

  /** A thread outside `threads` runs code of its own and may start an operation. */
  datatype State = State(chans: map<ChanId, Tracked>, threads: map<ThreadId, Thread>)

  const INIT := State(map[], map[])

  datatype Step =
    | Make(c: ChanId, cap: nat, zero: Value)
    | StartSend(t: ThreadId, c: ChanId, v: Value)
    | StartRecv(t: ThreadId, c: ChanId)
    | StartClose(t: ThreadId, c: ChanId)
    | StartSelect(t: ThreadId, hasDefault: bool, cases: seq<Case>, pick: nat)
    | Resume(t: ThreadId, pick: nat)

  function NotifyAll(threads: map<ThreadId, Thread>): map<ThreadId, Thread> {
    map t | t in threads :: threads[t].(notified := true)
  }

  /** The channel after a segment that was offered the values `offered`. */
  function Track(h: Tracked, seg: Segment, offered: seq<Value>): Tracked {
    Tracked(seg.ch,
            if |seg.ch.buf| > |h.ch.buf| then h.deposited + offered else h.deposited,
            if seg.out.Received? && seg.out.ok then h.received + [seg.out.value] else h.received)
  }

  /** Thread t ran a segment on c; when it parked, it waits at w. */
  function Commit(s: State, t: ThreadId, c: ChanId, seg: Segment, offered: seq<Value>, w: Wait): State
    requires c in s.chans
  {
    var woken := if seg.notify then NotifyAll(s.threads) else s.threads;
    State(s.chans[c := Track(s.chans[c], seg, offered)],
          if seg.out.Parked? then woken[t := Thread(w, false)] else woken - {t})
  }

  /** How many of the cases receive from c. */
  function RecvCases(cases: seq<Case>, c: ChanId): nat {
    if cases == [] then 0
    else (if cases[0] == RecvCase(Some(c)) then 1 else 0) + RecvCases(cases[1..], c)
  }

  /** Add `sign` to `_recv_waiting` once for each receive case. */
  function Register(chans: map<ChanId, Tracked>, cases: seq<Case>, sign: int): (r: map<ChanId, Tracked>)
    ensures r.Keys == chans.Keys
  {
    map c | c in chans ::
      chans[c].(ch := chans[c].ch.(recvWaiting := chans[c].ch.recvWaiting + sign * RecvCases(cases, c)))
  }

  predicate CaseReady(chans: map<ChanId, Tracked>, k: Case)
    requires k.ch.Some? ==> k.ch.value in chans
  {
    && k.ch.Some?
    && (if k.RecvCase? then RecvReady(chans[k.ch.value].ch) else SendReady(chans[k.ch.value].ch))
  }

  predicate CasesKnown(chans: map<ChanId, Tracked>, cases: seq<Case>) {
    forall i :: 0 <= i < |cases| && cases[i].ch.Some? ==> cases[i].ch.value in chans
  }

  predicate AnyReady(chans: map<ChanId, Tracked>, cases: seq<Case>)
    requires CasesKnown(chans, cases)
  {
    exists i :: 0 <= i < |cases| && CaseReady(chans, cases[i])
  }

  function FireCase(ch: Fields, k: Case): Segment {
    if k.RecvCase? then RecvEnter(ch) else SendDeposit(ch, k.v)
  }

  /** One turn of the select loop: fire the picked ready case, else take the
      default, else register on the receive cases and park. */
  function SelectTurn(s: State, t: ThreadId, hasDefault: bool, cases: seq<Case>, pick: nat): State
    requires CasesKnown(s.chans, cases)
    requires AnyReady(s.chans, cases) ==> pick < |cases| && CaseReady(s.chans, cases[pick])
  {
    if AnyReady(s.chans, cases) then
      var k := cases[pick];
      Commit(s, t, k.ch.value, FireCase(s.chans[k.ch.value].ch, k),
             if k.SendCase? then [k.v] else [], Sel(cases))
    else if hasDefault then State(s.chans, s.threads - {t})
    else State(Register(s.chans, cases, 1), s.threads[t := Thread(Sel(cases), false)])
  }

  /** The state a woken select looks at: it has taken its own registrations back. */
  function Deregistered(s: State, t: ThreadId, cases: seq<Case>): State {
    State(Register(s.chans, cases, -1), s.threads - {t})
  }

  predicate Enabled(s: State, step: Step) {
    match step
    case Make(c, _, _) => c !in s.chans
    case StartSend(t, c, _) => t !in s.threads && c in s.chans
    case StartRecv(t, c) => t !in s.threads && c in s.chans
    case StartClose(t, c) => t !in s.threads && c in s.chans
    case StartSelect(t, _, cases, pick) =>
      && t !in s.threads && CasesKnown(s.chans, cases)
      && (AnyReady(s.chans, cases) ==> pick < |cases| && CaseReady(s.chans, cases[pick]))
    case Resume(t, pick) =>
      && t in s.threads && s.threads[t].notified
      && match s.threads[t].wait
         case Sel(cases) =>
           var d := Deregistered(s, t, cases);
           && CasesKnown(d.chans, cases)
           && (AnyReady(d.chans, cases) ==> pick < |cases| && CaseReady(d.chans, cases[pick]))
         case w => w.c in s.chans
  }

  function Apply(s: State, step: Step): State
    requires Enabled(s, step)
  {
    match step
    case Make(c, cap, zero) => State(s.chans[c := Tracked(Fields(cap, [], false, 0, zero), [], [])], s.threads)
    case StartSend(t, c, v) =>
      Commit(s, t, c, SendEnter(s.chans[c].ch, v), [v],
             if s.chans[c].ch.cap == 0 then Drain(c, v, |s.chans[c].deposited|) else Room(c, v))
    case StartRecv(t, c) => Commit(s, t, c, RecvEnter(s.chans[c].ch), [], Recv(c))
    case StartClose(t, c) => Commit(s, t, c, CloseChan(s.chans[c].ch), [], Recv(c))
    case StartSelect(t, hasDefault, cases, pick) => SelectTurn(s, t, hasDefault, cases, pick)
    case Resume(t, pick) =>
      match s.threads[t].wait
      case Drain(c, v, _) => Commit(s, t, c, SendDrain(s.chans[c].ch), [], s.threads[t].wait)
      case Room(c, v) => Commit(s, t, c, SendRoom(s.chans[c].ch, v), [v], s.threads[t].wait)
      case Recv(c) => Commit(s, t, c, RecvTry(s.chans[c].ch), [], s.threads[t].wait)
      case Sel(cases) => SelectTurn(Deregistered(s, t, cases), t, false, cases, pick)
  }

  /** What the thread that takes the step gets back from its operation. */
  function Outcomes(s: State, step: Step): Outcome
    requires Enabled(s, step)
  {
    match step
    case Make(_, _, _) => Defaulted
    case StartSend(_, c, v) => SendEnter(s.chans[c].ch, v).out
    case StartRecv(_, c) => RecvEnter(s.chans[c].ch).out
    case StartClose(_, c) => CloseChan(s.chans[c].ch).out
    case StartSelect(t, hasDefault, cases, pick) => SelectOutcome(s, hasDefault, cases, pick)
    case Resume(t, pick) =>
      match s.threads[t].wait
      case Drain(c, _, _) => SendDrain(s.chans[c].ch).out
      case Room(c, v) => SendRoom(s.chans[c].ch, v).out
      case Recv(c) => RecvTry(s.chans[c].ch).out
      case Sel(cases) => SelectOutcome(Deregistered(s, t, cases), false, cases, pick)
  }

  function SelectOutcome(s: State, hasDefault: bool, cases: seq<Case>, pick: nat): Outcome
    requires CasesKnown(s.chans, cases)
    requires AnyReady(s.chans, cases) ==> pick < |cases| && CaseReady(s.chans, cases[pick])
  {
    if AnyReady(s.chans, cases) then FireCase(s.chans[cases[pick].ch.value].ch, cases[pick]).out
    else if hasDefault then Defaulted
    else Parked
  }

  predicate Legal(s: State, steps: seq<Step>)
    decreases |steps|
  {
    steps == [] || (Enabled(s, steps[0]) && Legal(Apply(s, steps[0]), steps[1..]))
  }

  function Run(s: State, steps: seq<Step>): State
    requires Legal(s, steps)
    decreases |steps|
  {
    if steps == [] then s else Run(Apply(s, steps[0]), steps[1..])
  }
}
