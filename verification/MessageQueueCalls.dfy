/**
 * What a thread gets from the message queue of rt-thread/src/ipc.c, told from its own call: which
 * bytes are pushed, for how many bytes a receive asks, what the call returns, who is woken. The
 * call is read off the events alone, so nothing here relies on what the model stored for a thread
 * that was suspended or in the middle of a copy.
 */
module MessageQueueCalls {
  import opened Kernel
  import opened WaitQueue
  import opened History
  import opened MessageQueueModel
  import opened MessageQueueDeque

  /** The thread an event is about, or -1. */
  function Who(ev: Event): int {
    if ev.Reset? then -1 else ev.t
  }

  /** The thread that makes a call with this event, or -1. */
  function Caller(ev: Event): int {
    if ev.Send? || ev.Urgent? || ev.Recv? then ev.t else -1
  }

  /** The thread runs in this event. */
  predicate Runs(ev: Event) { !ev.Expire? && !ev.Reset? }

  function Ticks(ev: Event): nat {
    if ev.Resume? then ev.elapsed else 0
  }

  predicate Fires(ev: Event) { ev.Expire? }

  /** The last that happened to the thread is that its timer fired. */
  predicate Expired(evs: seq<Event>, t: Tid) { EndsWith(evs, Who, Fires, t) }

  /** What is left of the waiting time `timeout` of the last call. */
  function Left(evs: seq<Event>, t: Tid, timeout: int): int {
    TimeLeft(timeout, Elapsed(evs, Caller, Who, Ticks, t))
  }

  lemma {:induction false} Append(evs: seq<Event>, ev: Event, t: Tid)
    ensures InCall(evs + [ev], Caller, t) <==> Caller(ev) == t || InCall(evs, Caller, t)
    ensures InCall(evs + [ev], Caller, t) ==>
              Call(evs + [ev], Caller, t) == if Caller(ev) == t then ev else Call(evs, Caller, t)
    ensures forall timeout ::
              Left(evs + [ev], t, timeout) ==
                if Caller(ev) == t then timeout
                else if Who(ev) == t && ev.Resume? then Remaining(Left(evs, t, timeout), ev.elapsed)
                else Left(evs, t, timeout)
    ensures Expired(evs + [ev], t) <==> if Who(ev) == t then ev.Expire? else Expired(evs, t)
  {
    CallAppend(evs, ev, Caller, t);
    EndsWithAppend(evs, ev, Who, Fires, t);
    ElapsedAppend(evs, ev, Caller, Who, Ticks, t);
  }

  predicate InSend(evs: seq<Event>, t: Tid, buf: seq<Byte>) {
    InCall(evs, Caller, t) && Call(evs, Caller, t).Send? && Call(evs, Caller, t).buf == buf
  }

  predicate InUrgent(evs: seq<Event>, t: Tid, buf: seq<Byte>) {
    InCall(evs, Caller, t) && Call(evs, Caller, t) == Urgent(t, buf)
  }

  predicate InRecv(evs: seq<Event>, t: Tid, size: nat) {
    InCall(evs, Caller, t) && Call(evs, Caller, t).Recv? && Call(evs, Caller, t).size == size
  }

  /** The thread waits, or waited until it was woken, with so much time left. */
  predicate Waits(evs: seq<Event>, t: Tid, timeout: int) {
    && InCall(evs, Caller, t) && !Call(evs, Caller, t).Urgent?
    && timeout == Left(evs, t, Call(evs, Caller, t).timeout) != 0
  }

  predicate WokenFor(evs: seq<Event>, t: Tid, err: Err) {
    err != EFULL && (err == ETIMEOUT <==> Expired(evs, t))
  }

  /** What a thread in the middle of a call carries belongs to that call. */
  predicate Remembered(pc: Pc, evs: seq<Event>, t: Tid, msgSize: nat) {
    match pc
    case Idle(_) => true
    case SendWait(buf, timeout) => InSend(evs, t, buf) && Waits(evs, t, timeout) && !Expired(evs, t)
    case SendWoken(buf, timeout, err) => InSend(evs, t, buf) && Waits(evs, t, timeout) && WokenFor(evs, t, err)
    case Filling(_, buf, urgent, _) => if urgent then InUrgent(evs, t, buf) else InSend(evs, t, buf)
    case RecvWait(size, timeout) => InRecv(evs, t, size) && Waits(evs, t, timeout) && !Expired(evs, t)
    case RecvWoken(size, timeout, err) => InRecv(evs, t, size) && Waits(evs, t, timeout) && WokenFor(evs, t, err)
    case Draining(_, want, _) =>
      && InCall(evs, Caller, t) && Call(evs, Caller, t).Recv?
      && want == if Call(evs, Caller, t).size < msgSize then Call(evs, Caller, t).size else msgSize
  }

  /** The lists are in their promised order, with arrival times read off the events. */
  predicate Remembers(s: State, evs: seq<Event>) {
    && |s.prio| == |s.pcs|
    && (forall t: Tid :: t < |s.pcs| ==> Remembered(s.pcs[t], evs, t, s.msgSize))
    && InOrder(s.senders, s.flag, s.prio, evs, Who)
    && InOrder(s.receivers, s.flag, s.prio, evs, Who)
  }

  /** An event that is not about the thread leaves it as it is, or wakes it. */
  lemma {:induction false} OtherRemembered(pc: Pc, evs: seq<Event>, ev: Event, t: Tid, msgSize: nat, err: Err)
    requires Remembered(pc, evs, t, msgSize) && Who(ev) != t && (err == EOK || err == ERROR)
    ensures Remembered(pc, evs + [ev], t, msgSize) && Remembered(Woken(pc, err), evs + [ev], t, msgSize)
  {
    Append(evs, ev, t);
  }

  /** What an event does to the threads that it is not about. */
  lemma {:induction false} OthersStep(s: State, ev: Event, t: Tid)
    requires Shape(s) && Enabled(s, ev) && t < |s.pcs| && Who(ev) != t
    ensures var pc, pc' := s.pcs[t], Step(s, ev).pcs[t];
            pc' == pc || pc' == Woken(pc, EOK) || pc' == Woken(pc, ERROR)
  {
  }

  /** A call starts. */
  lemma {:induction false} StartRemembered(s: State, evs: seq<Event>, ev: Event)
    requires Inv(s) && Enabled(s, ev) && Caller(ev) >= 0
    ensures Remembered(Step(s, ev).pcs[ev.t], evs + [ev], ev.t, s.msgSize)
  {
    Append(evs, ev, ev.t);
  }

  /** A woken thread goes on with its call. */
  lemma {:induction false} ResumeRemembered(s: State, evs: seq<Event>, t: Tid, elapsed: nat)
    requires Inv(s) && Enabled(s, Resume(t, elapsed)) && Remembered(s.pcs[t], evs, t, s.msgSize)
    ensures Remembered(Step(s, Resume(t, elapsed)).pcs[t], evs + [Resume(t, elapsed)], t, s.msgSize)
  {
    Append(evs, Resume(t, elapsed), t);
    assert PcShape(s.pcs[t], s.msgSize, s.nodes);
  }

  /** A thread copies a byte, finishes its call, or is taken off its list by its timer. */
  lemma {:induction false} GoOnRemembered(s: State, evs: seq<Event>, ev: Event)
    requires Inv(s) && Enabled(s, ev) && (ev.Copy? || ev.Finish? || ev.Expire?)
    requires Remembered(s.pcs[ev.t], evs, ev.t, s.msgSize)
    ensures Remembered(Step(s, ev).pcs[ev.t], evs + [ev], ev.t, s.msgSize)
  {
    Append(evs, ev, ev.t);
  }

  lemma {:induction false} PcsRemember(s: State, evs: seq<Event>, ev: Event, t: Tid)
    requires Inv(s) && Remembers(s, evs) && Enabled(s, ev) && t < |s.pcs|
    ensures Remembered(Step(s, ev).pcs[t], evs + [ev], t, s.msgSize)
  {
    assert Remembered(s.pcs[t], evs, t, s.msgSize);
    if Who(ev) != t {
      OthersStep(s, ev, t);
      OtherRemembered(s.pcs[t], evs, ev, t, s.msgSize, EOK);
      OtherRemembered(s.pcs[t], evs, ev, t, s.msgSize, ERROR);
    } else if Caller(ev) >= 0 {
      StartRemembered(s, evs, ev);
    } else if ev.Resume? {
      ResumeRemembered(s, evs, t, ev.elapsed);
    } else {
      GoOnRemembered(s, evs, ev);
    }
  }

  lemma {:induction false} ListSteps(s: State, ev: Event)
    requires Inv(s) && Enabled(s, ev)
    ensures ListStep(s.senders, Step(s, ev).senders, Who(ev), s.flag, s.prio)
    ensures ListStep(s.receivers, Step(s, ev).receivers, Who(ev), s.flag, s.prio)
  {
    if !ev.Reset? {
      var pc := s.pcs[ev.t];
      assert (ev.t in s.senders <==> pc.SendWait?) && (ev.t in s.receivers <==> pc.RecvWait?);
      assert PcShape(pc, s.msgSize, s.nodes);
      match ev
      case Send(t, buf, timeout) => if |buf| <= s.msgSize { SendLists(s, t, buf, timeout); }
      case Recv(t, size, timeout) => RecvLists(s, t, size, timeout);
      case Resume(t, elapsed) =>
        if MaySend(pc) {
          SendLists(s, t, pc.buf, Remaining(pc.timeout, elapsed));
        } else if MayReceive(pc) {
          RecvLists(s, t, pc.size, Remaining(pc.timeout, elapsed));
        }
      case Finish(t) => FinishLists(s, t);
      case Expire(t) => TimeOutLists(s, t);
      case _ =>
    }
  }

  lemma {:induction false} SendLists(s: State, t: Tid, buf: seq<Byte>, timeout: int)
    requires Shape(s) && t < |s.pcs| && 0 < |buf| <= s.msgSize && t !in s.senders && t !in s.receivers
    ensures ListStep(s.senders, TrySend(s, t, buf, timeout).senders, t, s.flag, s.prio)
    ensures ListStep(s.receivers, TrySend(s, t, buf, timeout).receivers, t, s.flag, s.prio)
  {
  }

  lemma {:induction false} RecvLists(s: State, t: Tid, size: nat, timeout: int)
    requires Shape(s) && t < |s.pcs| && size > 0 && t !in s.senders && t !in s.receivers
    ensures ListStep(s.senders, TryRecv(s, t, size, timeout).senders, t, s.flag, s.prio)
    ensures ListStep(s.receivers, TryRecv(s, t, size, timeout).receivers, t, s.flag, s.prio)
  {
  }

  lemma {:induction false} FinishLists(s: State, t: Tid)
    requires Shape(s) && Enabled(s, Finish(t)) && t !in s.senders && t !in s.receivers
    ensures ListStep(s.senders, Step(s, Finish(t)).senders, t, s.flag, s.prio)
    ensures ListStep(s.receivers, Step(s, Finish(t)).receivers, t, s.flag, s.prio)
  {
  }

  lemma {:induction false} TimeOutLists(s: State, t: Tid)
    requires Shape(s) && Enabled(s, Expire(t))
    requires (t in s.senders <==> s.pcs[t].SendWait?) && (t in s.receivers <==> s.pcs[t].RecvWait?)
    ensures ListStep(s.senders, TimeOut(s, t).senders, t, s.flag, s.prio)
    ensures ListStep(s.receivers, TimeOut(s, t).receivers, t, s.flag, s.prio)
  {
  }

  lemma {:induction false} StepRemembers(s: State, evs: seq<Event>, ev: Event)
    requires Inv(s) && Remembers(s, evs) && Enabled(s, ev)
    ensures Remembers(Step(s, ev), evs + [ev])
  {
    forall t: Tid | t < |s.pcs| ensures Remembered(Step(s, ev).pcs[t], evs + [ev], t, s.msgSize) {
      PcsRemember(s, evs, ev, t);
    }
    ListSteps(s, ev);
    ListInOrder(s.senders, Step(s, ev).senders, s.flag, s.prio, evs, Who, ev);
    ListInOrder(s.receivers, Step(s, ev).receivers, s.flag, s.prio, evs, Who, ev);
  }

  /** One event keeps the invariant and what is remembered. */
  lemma {:induction false} KeptBy(s: State, past: seq<Event>, ev: Event) returns (s1: State)
    requires Inv(s) && Remembers(s, past) && Enabled(s, ev)
    ensures s1 == Step(s, ev) && Inv(s1) && Remembers(s1, past + [ev])
  {
    StepKeepsInv(s, ev);
    StepRemembers(s, past, ev);
    s1 := Step(s, ev);
  }

  /** The first step of a run that `past` came before; `all` is what happened before and in it. */
  lemma {:induction false} FirstStep(s: State, past: seq<Event>, evs: seq<Event>, all: seq<Event>)
    returns (s1: State, past1: seq<Event>, rest: seq<Event>)
    requires Inv(s) && Remembers(s, past) && Runnable(s, evs) && evs != [] && all == past + evs
    ensures Inv(s1) && Remembers(s1, past1)
    ensures Runnable(s1, rest) && Exec(s, evs) == Exec(s1, rest)
    ensures all == past1 + rest && |rest| < |evs|
  {
    s1 := KeptBy(s, past, evs[0]);
    past1, rest := past + [evs[0]], evs[1..];
    Advance(past, evs, all);
  }

  lemma {:induction false} RunRemembers(s: State, past: seq<Event>, evs: seq<Event>, all: seq<Event>) returns (e: State)
    requires Inv(s) && Remembers(s, past) && Runnable(s, evs) && all == past + evs
    ensures e == Exec(s, evs) && Remembers(e, all)
    decreases |evs|
  {
    if evs == [] {
      assert all == past;
      e := s;
    } else {
      var s1, past1, rest := FirstStep(s, past, evs, all);
      e := RunRemembers(s1, past1, rest, all);
    }
  }

  lemma {:induction false} Reached(s: State, evs: seq<Event>) returns (e: State)
    requires Init(s) && Runnable(s, evs)
    ensures e == Exec(s, evs) && Inv(e) && Remembers(e, evs)
  {
    InitInv(s);
    RunKeepsInv(s, evs);
    e := RunRemembers(s, [], evs, evs);
  }

  /** Why the thread runs again: the error it was woken with, none when it does not come from waiting. */
  function Cause(e: State, ev: Event): Err
    requires Enabled(e, ev) && Runs(ev)
  {
    if ev.Resume? then e.pcs[ev.t].err else EOK
  }

  /** In its first section, or in another pass of its loop, a call fails, waits or starts to copy. */
  predicate Begins(ev: Event) { Caller(ev) >= 0 || ev.Resume? }

  /**
   * What event `ev`, in which a thread runs in its call, does to state `e`. A send fails for a
   * message that is too long, for the want of a node exactly when no waiting time is left, and
   * for the time exactly when its timer fired; it returns RT_EOK exactly when it has linked its
   * node. A receive ends with as many bytes as it asked for, up to the size of a message.
   */
  predicate Answered(e: State, evs: seq<Event>, ev: Event)
    requires Shape(e) && Enabled(e, ev) && Runs(ev)
  {
    var h, t, e', cause := evs + [ev], ev.t, Step(e, ev), Cause(e, ev);
    var pc' := e'.pcs[t];
    && InCall(h, Caller, t)
    && (cause == ETIMEOUT <==> ev.Resume? && Expired(evs, t))
    && (cause != EOK ==> pc' == Idle(Done(cause)) && e'.queue == e.queue && e'.free == e.free)
    && match Call(h, Caller, t)
       case Send(_, buf, timeout) =>
         var fits := cause == EOK && |buf| <= e.msgSize;
         && (pc' == Idle(Done(EOK)) <==> ev.Finish?)
         && (Begins(ev) ==>
               && e'.queue == e.queue
               && (pc' == Idle(Done(ERROR)) <==> cause == ERROR || |buf| > e.msgSize)
               && (pc'.Filling? <==> fits && e.free != [])
               && (pc' == Idle(Done(EFULL)) <==> fits && e.free == [] && Left(h, t, timeout) == 0)
               && (pc'.SendWait? <==> fits && e.free == [] && Left(h, t, timeout) != 0))
       case Urgent(_, buf) =>
         && (pc' == Idle(Done(EOK)) <==> ev.Finish?)
         && (Begins(ev) ==>
               && e'.queue == e.queue
               && (pc' == Idle(Done(ERROR)) <==> |buf| > e.msgSize)
               && (pc'.Filling? <==> |buf| <= e.msgSize && e.free != [])
               && (pc' == Idle(Done(EFULL)) <==> |buf| <= e.msgSize && e.free == []))
       case Recv(_, size, timeout) =>
         && (pc'.Idle? && pc'.last.Got? <==> ev.Finish?)
         && (ev.Finish? ==> |pc'.last.bytes| == if size < e.msgSize then size else e.msgSize)
         && (Begins(ev) && cause == EOK ==>
               && (pc'.Draining? <==> e.queue != [])
               && (pc' == Idle(Done(ETIMEOUT)) <==> e.queue == [] && Left(h, t, timeout) == 0)
               && (pc'.RecvWait? <==> e.queue == [] && Left(h, t, timeout) != 0))
  }

  /** In every reachable state a call does what its arguments say, whether or not it had to wait. */
  lemma {:induction false} Answers(s: State, evs: seq<Event>, ev: Event)
    requires Init(s) && Runnable(s, evs) && Enabled(Exec(s, evs), ev) && Runs(ev)
    ensures Answered(Exec(s, evs), evs, ev)
  {
    var e := Reached(s, evs);
    assert Remembered(e.pcs[ev.t], evs, ev.t, e.msgSize);
    if Caller(ev) >= 0 {
      StartAnswered(e, evs, ev);
    } else if ev.Resume? {
      ResumeAnswered(e, evs, ev.t, ev.elapsed);
    } else {
      CopyAnswered(e, evs, ev);
    }
  }

  lemma {:induction false} StartAnswered(e: State, evs: seq<Event>, ev: Event)
    requires Shape(e) && Enabled(e, ev) && Caller(ev) >= 0
    ensures Answered(e, evs, ev)
  {
    Append(evs, ev, ev.t);
  }

  lemma {:induction false} ResumeAnswered(e: State, evs: seq<Event>, t: Tid, elapsed: nat)
    requires Shape(e) && Enabled(e, Resume(t, elapsed)) && Remembered(e.pcs[t], evs, t, e.msgSize)
    ensures Answered(e, evs, Resume(t, elapsed))
  {
    Append(evs, Resume(t, elapsed), t);
    assert PcShape(e.pcs[t], e.msgSize, e.nodes);
  }

  lemma {:induction false} CopyAnswered(e: State, evs: seq<Event>, ev: Event)
    requires Inv(e) && Enabled(e, ev) && (ev.Copy? || ev.Finish?)
    requires Remembered(e.pcs[ev.t], evs, ev.t, e.msgSize)
    ensures Answered(e, evs, ev)
  {
    Append(evs, ev, ev.t);
    assert (ev.t in e.senders <==> e.pcs[ev.t].SendWait?) && (ev.t in e.receivers <==> e.pcs[ev.t].RecvWait?);
  }

  /**
   * Who is woken in any reachable state. A suspended thread is woken with an error by its own
   * timer and by a reset, and without one exactly when it comes before all others that wait as
   * it does and a message is linked, for a receiver, or a node is freed, for a sender. No other
   * thread is touched by an event that is not its own.
   */
  lemma {:induction false} WakesTheFirst(s: State, evs: seq<Event>, ev: Event, u: Tid)
    requires Init(s) && Runnable(s, evs) && Enabled(Exec(s, evs), ev)
    requires u < |Exec(s, evs).pcs| && !(Runs(ev) && ev.t == u)
    ensures var e := Exec(s, evs);
            var e', pc := Step(e, ev), e.pcs[u];
            && e'.pcs[u] ==
                 if ev.Expire? && ev.t == u then Woken(pc, ETIMEOUT)
                 else if ev.Reset? then Woken(pc, ERROR)
                 else if |e'.queue| > |e.queue| && ComesFirst(u, e.pcs, Receiving, e.flag, e.prio, evs, Who)
                 then RecvWoken(pc.size, pc.timeout, EOK)
                 else if |e'.free| > |e.free| && ComesFirst(u, e.pcs, Sending, e.flag, e.prio, evs, Who)
                 then SendWoken(pc.buf, pc.timeout, EOK)
                 else pc
  {
    var e := Reached(s, evs);
    StepWakes(e, ev, u);
    FirstComesFirst(e.receivers, |e.queue|, e.pcs, Receiving, MayReceive, e.flag, e.prio, evs, Who);
    FirstComesFirst(e.senders, |e.free|, e.pcs, Sending, MaySend, e.flag, e.prio, evs, Who);
    if e.receivers != [] { assert e.receivers[0] in e.receivers; }
    if e.senders != [] { assert e.senders[0] in e.senders; }
  }

  /** The same in terms of the lists. */
  lemma {:induction false} StepWakes(e: State, ev: Event, u: Tid)
    requires Shape(e) && Enabled(e, ev) && u < |e.pcs| && !(Runs(ev) && ev.t == u)
    ensures var e', pc := Step(e, ev), e.pcs[u];
            && e'.pcs[u] ==
                 if ev.Expire? && ev.t == u then Woken(pc, ETIMEOUT)
                 else if ev.Reset? then Woken(pc, ERROR)
                 else if |e'.queue| > |e.queue| && e.receivers != [] && u == e.receivers[0] then Woken(pc, EOK)
                 else if |e'.free| > |e.free| && e.senders != [] && u == e.senders[0] then Woken(pc, EOK)
                 else pc
  {
    if Begins(ev) { assert Step(e, ev).pcs[u] == e.pcs[u]; }
  }

  /** A run, taken apart at its last event. */
  lemma {:induction false} LastStep(s: State, evs: seq<Event>)
    requires Shape(s) && Runnable(s, evs) && evs != []
    ensures var front, ev := evs[..|evs| - 1], evs[|evs| - 1];
            Runnable(s, front) && Enabled(Exec(s, front), ev) && Exec(s, evs) == Step(Exec(s, front), ev)
    decreases |evs|
  {
    var front := evs[..|evs| - 1];
    if |evs| > 1 {
      LastStep(Step(s, evs[0]), evs[1..]);
      assert evs[1..][..|evs| - 2] == front[1..];
    }
  }

  /**
   * The operation of the atomic deque that the last event is, told from the call of its thread:
   * a send that returns RT_EOK pushes its whole buffer at the back, an urgent send in front, and
   * a receive that starts to copy pops a message for as many bytes as it asked for.
   */
  function CallOp(evs: seq<Event>, e': State): Op
    requires evs != []
  {
    var ev := evs[|evs| - 1];
    if ev.Reset? then Empty
    else if !Runs(ev) || ev.t >= |e'.pcs| || !InCall(evs, Caller, ev.t) then Stutter
    else
      var pc := e'.pcs[ev.t];
      match Call(evs, Caller, ev.t)
      case Send(_, buf, _) => if pc == Idle(Done(EOK)) then PushBack(buf) else Stutter
      case Urgent(_, buf) => if pc == Idle(Done(EOK)) then PushFront(buf) else Stutter
      case Recv(_, size, _) =>
        if Begins(ev) && pc.Draining? then Pop(ev.t, if size < e'.msgSize then size else e'.msgSize) else Stutter
      case _ => Stutter
  }

  lemma {:induction false} EffectIsCall(s: State, evs: seq<Event>, ev: Event)
    requires Init(s) && Runnable(s, evs) && Enabled(Exec(s, evs), ev)
    ensures Effect(Exec(s, evs), ev) == CallOp(evs + [ev], Step(Exec(s, evs), ev))
  {
    var e := Reached(s, evs);
    if Runs(ev) {
      assert Remembered(e.pcs[ev.t], evs, ev.t, e.msgSize);
      Answers(s, evs, ev);
      if Begins(ev) { BeginOp(e, evs, ev); } else { CopyOp(e, evs, ev); }
    }
  }

  lemma {:induction false} BeginOp(e: State, evs: seq<Event>, ev: Event)
    requires Shape(e) && Enabled(e, ev) && Begins(ev) && Answered(e, evs, ev)
    requires Remembered(e.pcs[ev.t], evs, ev.t, e.msgSize)
    ensures Effect(e, ev) == CallOp(evs + [ev], Step(e, ev))
  {
    Append(evs, ev, ev.t);
    if ev.Resume? { assert PcShape(e.pcs[ev.t], e.msgSize, e.nodes); }
  }

  lemma {:induction false} CopyOp(e: State, evs: seq<Event>, ev: Event)
    requires Shape(e) && Enabled(e, ev) && (ev.Copy? || ev.Finish?) && Answered(e, evs, ev)
    requires Remembered(e.pcs[ev.t], evs, ev.t, e.msgSize)
    ensures Effect(e, ev) == CallOp(evs + [ev], Step(e, ev))
  {
    Append(evs, ev, ev.t);
  }

  /** The operations of a run, each told from the call of its thread. */
  function CallOps(s: State, evs: seq<Event>): seq<Op>
    requires Shape(s) && Runnable(s, evs)
    decreases |evs|
  {
    if evs == [] then []
    else
      LastStep(s, evs);
      CallOps(s, evs[..|evs| - 1]) + [CallOp(evs, Exec(s, evs))]
  }

  lemma {:induction false} OpsAreEffects(s: State, evs: seq<Event>)
    requires Init(s) && Runnable(s, evs)
    ensures CallOps(s, evs) == Effects(s, evs)
    decreases |evs|
  {
    if evs != [] {
      LastOp(s, evs);
      OpsAreEffects(s, evs[..|evs| - 1]);
    }
  }

  lemma {:induction false} LastOp(s: State, evs: seq<Event>)
    requires Init(s) && Runnable(s, evs) && evs != []
    ensures Runnable(s, evs[..|evs| - 1])
    ensures Effects(s, evs) == Effects(s, evs[..|evs| - 1]) + [CallOp(evs, Exec(s, evs))]
  {
    var front, ev := evs[..|evs| - 1], evs[|evs| - 1];
    LastStep(s, evs);
    assert front + [ev] == evs;
    EffectIsCall(s, front, ev);
    EffectsAppend(s, front, ev);
  }

  lemma {:induction false} EffectsAppend(s: State, evs: seq<Event>, ev: Event)
    requires Shape(s) && Runnable(s, evs) && Enabled(Exec(s, evs), ev) && Runnable(s, evs + [ev])
    ensures Effects(s, evs + [ev]) == Effects(s, evs) + [Effect(Exec(s, evs), ev)]
    decreases |evs|
  {
    if evs == [] {
      assert evs + [ev] == [ev] && [ev][1..] == [];
      assert Effects(Step(s, ev), []) == [];
    } else {
      assert (evs + [ev])[0] == evs[0] && (evs + [ev])[1..] == evs[1..] + [ev];
      EffectsAppend(Step(s, evs[0]), evs[1..], ev);
    }
  }

  /**
   * Linearization, told from the calls. From a fresh queue, every interleaving does to an atomic
   * deque of messages what its calls say: exactly the buffers of the sends that returned RT_EOK
   * were pushed, whole, where they asked; the queue holds the messages of that deque; and a
   * receive that has returned gives as many bytes as it asked for, which agree with the message
   * that the deque gave its thread.
   */
  lemma {:induction false} CallsOnDeque(s: State, evs: seq<Event>)
    requires Init(s) && FreshThreads(s) && Runnable(s, evs)
    ensures Accepts(NewDeque(s), CallOps(s, evs))
    ensures var e, d := Exec(s, evs), ApplyAll(NewDeque(s), CallOps(s, evs));
            && |e.queue| == |d.messages| && |d.given| == |e.pcs|
            && (forall i :: 0 <= i < |e.queue| ==> d.messages[i] <= e.pool[e.queue[i]])
            && (forall t: Tid :: t < |e.pcs| && e.pcs[t].Idle? && e.pcs[t].last.Got? ==>
                  var bytes, g := e.pcs[t].last.bytes, d.given[t];
                  && |bytes| == g.asked && Agree(bytes, g.m)
                  && (g.asked <= |g.m| ==> bytes == g.m[..g.asked]))
  {
    OpsAreEffects(s, evs);
    Linearizable(s, evs);
  }
}
