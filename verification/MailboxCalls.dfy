/**
 * What a thread gets from the mailbox of rt-thread/src/ipc.c, told from its own call: which
 * mail goes in, what the call returns, who is woken. The call is read off the events alone, so
 * nothing here relies on what the model stored for a suspended thread.
 */
module MailboxCalls {
  import opened Kernel
  import opened WaitQueue
  import opened History
  import opened MailboxModel
  import opened MailboxDeque

  /** The thread an event is about, or -1. */
  function Who(ev: Event): int {
    if ev.Reset? then -1 else ev.t
  }

  /** The thread that makes a call with this event, or -1. */
  function Caller(ev: Event): int {
    if ev.Send? || ev.Urgent? || ev.Recv? then ev.t else -1
  }

  /** The thread runs in this event: it starts a call, or goes on with one. */
  predicate Runs(ev: Event) { !ev.Expire? && !ev.Reset? }

  function Ticks(ev: Event): nat {
    if ev.Resume? then ev.elapsed else 0
  }

  predicate Fires(ev: Event) { ev.Expire? }

  /** The last that happened to the thread is that its timer fired. */
  predicate Expired(evs: seq<Event>, t: Tid) { EndsWith(evs, Who, Fires, t) }

  /** What is left of the waiting time `timeout` of the last call. */
  function Left(evs: seq<Event>, t: Tid, timeout: int): int {
    TimeLeft(timeout, Elapsed(evs, Caller, Who, Ticks, t))
  }

  lemma {:induction false} Append(evs: seq<Event>, ev: Event, t: Tid)
    ensures InCall(evs + [ev], Caller, t) <==> Caller(ev) == t || InCall(evs, Caller, t)
    ensures InCall(evs + [ev], Caller, t) ==>
              Call(evs + [ev], Caller, t) == if Caller(ev) == t then ev else Call(evs, Caller, t)
    ensures forall timeout ::
              Left(evs + [ev], t, timeout) ==
                if Caller(ev) == t then timeout
                else if Who(ev) == t && ev.Resume? then Remaining(Left(evs, t, timeout), ev.elapsed)
                else Left(evs, t, timeout)
    ensures Expired(evs + [ev], t) <==> if Who(ev) == t then ev.Expire? else Expired(evs, t)
  {
    CallAppend(evs, ev, Caller, t);
    EndsWithAppend(evs, ev, Who, Fires, t);
    ElapsedAppend(evs, ev, Caller, Who, Ticks, t);
  }

  predicate InSend(evs: seq<Event>, t: Tid, value: Word, timeout: int) {
    InCall(evs, Caller, t) &&
    var c := Call(evs, Caller, t);
    c.Send? && c.value == value && timeout == Left(evs, t, c.timeout) != 0
  }

  predicate InRecv(evs: seq<Event>, t: Tid, timeout: int) {
    InCall(evs, Caller, t) &&
    var c := Call(evs, Caller, t);
    c.Recv? && timeout == Left(evs, t, c.timeout) != 0
  }

  /** What a suspended or woken thread carries belongs to its last call. */
  predicate Remembered(pc: Pc, evs: seq<Event>, t: Tid) {
    match pc
    case Idle(_) => true
    case SendWait(value, timeout) => InSend(evs, t, value, timeout) && !Expired(evs, t)
    case RecvWait(timeout) => InRecv(evs, t, timeout) && !Expired(evs, t)
    case SendWoken(value, timeout, err) =>
      InSend(evs, t, value, timeout) && err != EFULL && (err == ETIMEOUT <==> Expired(evs, t))
    case RecvWoken(timeout, err) =>
      InRecv(evs, t, timeout) && err != EFULL && (err == ETIMEOUT <==> Expired(evs, t))
  }

  /** The lists are in their promised order, with arrival times read off the events. */
  predicate Remembers(s: State, evs: seq<Event>) {
    && |s.prio| == |s.pcs|
    && (forall t: Tid :: t < |s.pcs| ==> Remembered(s.pcs[t], evs, t))
    && InOrder(s.senders, s.flag, s.prio, evs, Who)
    && InOrder(s.receivers, s.flag, s.prio, evs, Who)
  }

  /** An event that is not about the thread leaves it as it is, or wakes it. */
  lemma {:induction false} OtherRemembered(pc: Pc, evs: seq<Event>, ev: Event, t: Tid, err: Err)
    requires Remembered(pc, evs, t) && Who(ev) != t && (err == EOK || err == ERROR)
    ensures Remembered(pc, evs + [ev], t) && Remembered(Woken(pc, err), evs + [ev], t)
  {
    Append(evs, ev, t);
  }

  /** What an event does to the threads that it is not about. */
  lemma {:induction false} OthersStep(s: State, ev: Event, t: Tid)
    requires Shape(s) && Enabled(s, ev) && t < |s.pcs| && Who(ev) != t
    ensures var pc, pc' := s.pcs[t], Step(s, ev).pcs[t];
            pc' == pc || pc' == Woken(pc, EOK) || pc' == Woken(pc, ERROR)
  {
  }

  /** A call starts. */
  lemma {:induction false} StartRemembered(s: State, evs: seq<Event>, ev: Event)
    requires Inv(s) && Enabled(s, ev) && Caller(ev) >= 0
    ensures Remembered(Step(s, ev).pcs[ev.t], evs + [ev], ev.t)
  {
    Append(evs, ev, ev.t);
  }

  /** A woken thread goes on with its call. */
  lemma {:induction false} ResumeRemembered(s: State, evs: seq<Event>, t: Tid, elapsed: nat)
    requires Inv(s) && Enabled(s, Resume(t, elapsed)) && Remembered(s.pcs[t], evs, t)
    ensures Remembered(Step(s, Resume(t, elapsed)).pcs[t], evs + [Resume(t, elapsed)], t)
    ensures Left(evs + [Resume(t, elapsed)], t, Call(evs, Caller, t).timeout) == Remaining(s.pcs[t].timeout, elapsed)
  {
    Append(evs, Resume(t, elapsed), t);
  }

  lemma {:induction false} ExpireRemembered(s: State, evs: seq<Event>, t: Tid)
    requires Inv(s) && Enabled(s, Expire(t)) && Remembered(s.pcs[t], evs, t)
    ensures Remembered(Step(s, Expire(t)).pcs[t], evs + [Expire(t)], t)
  {
    Append(evs, Expire(t), t);
  }

  lemma {:induction false} PcsRemember(s: State, evs: seq<Event>, ev: Event, t: Tid)
    requires Inv(s) && Remembers(s, evs) && Enabled(s, ev) && t < |s.pcs|
    ensures Remembered(Step(s, ev).pcs[t], evs + [ev], t)
  {
    assert Remembered(s.pcs[t], evs, t);
    if Who(ev) != t {
      OthersStep(s, ev, t);
      OtherRemembered(s.pcs[t], evs, ev, t, EOK);
      OtherRemembered(s.pcs[t], evs, ev, t, ERROR);
    } else if Caller(ev) >= 0 {
      StartRemembered(s, evs, ev);
    } else if ev.Resume? {
      ResumeRemembered(s, evs, t, ev.elapsed);
    } else {
      ExpireRemembered(s, evs, t);
    }
  }

  lemma {:induction false} ListSteps(s: State, ev: Event)
    requires Inv(s) && Enabled(s, ev)
    ensures ListStep(s.senders, Step(s, ev).senders, Who(ev), s.flag, s.prio)
    ensures ListStep(s.receivers, Step(s, ev).receivers, Who(ev), s.flag, s.prio)
    ensures Step(s, ev).flag == s.flag && Step(s, ev).prio == s.prio
  {
    if !ev.Reset? {
      var pc := s.pcs[ev.t];
      assert (ev.t in s.senders <==> pc.SendWait?) && (ev.t in s.receivers <==> pc.RecvWait?);
      match ev
      case Send(t, value, timeout) => SendLists(s, t, value, timeout);
      case Urgent(t, value) => SendLists(s, t, value, 0);
      case Recv(t, timeout) => RecvLists(s, t, timeout);
      case Resume(t, elapsed) =>
        if MaySend(pc) {
          SendLists(s, t, pc.value, Remaining(pc.timeout, elapsed));
        } else if MayReceive(pc) {
          RecvLists(s, t, Remaining(pc.timeout, elapsed));
        }
      case Expire(t) =>
    }
  }

  lemma {:induction false} SendLists(s: State, t: Tid, value: Word, timeout: int)
    requires Shape(s) && t < |s.pcs| && t !in s.senders && t !in s.receivers
    ensures ListStep(s.senders, TrySend(s, t, value, timeout).senders, t, s.flag, s.prio)
    ensures ListStep(s.receivers, TrySend(s, t, value, timeout).receivers, t, s.flag, s.prio)
  {
  }

  lemma {:induction false} RecvLists(s: State, t: Tid, timeout: int)
    requires Shape(s) && t < |s.pcs| && t !in s.senders && t !in s.receivers
    ensures ListStep(s.senders, TryRecv(s, t, timeout).senders, t, s.flag, s.prio)
    ensures ListStep(s.receivers, TryRecv(s, t, timeout).receivers, t, s.flag, s.prio)
  {
  }

  lemma {:induction false} StepRemembers(s: State, evs: seq<Event>, ev: Event)
    requires Inv(s) && Remembers(s, evs) && Enabled(s, ev)
    ensures Remembers(Step(s, ev), evs + [ev])
  {
    forall t: Tid | t < |s.pcs| ensures Remembered(Step(s, ev).pcs[t], evs + [ev], t) {
      PcsRemember(s, evs, ev, t);
    }
    ListSteps(s, ev);
    ListInOrder(s.senders, Step(s, ev).senders, s.flag, s.prio, evs, Who, ev);
    ListInOrder(s.receivers, Step(s, ev).receivers, s.flag, s.prio, evs, Who, ev);
  }

  /** One event keeps the invariant and what is remembered. */
  lemma {:induction false} KeptBy(s: State, past: seq<Event>, ev: Event) returns (s1: State)
    requires Inv(s) && Remembers(s, past) && Enabled(s, ev)
    ensures s1 == Step(s, ev) && Inv(s1) && Remembers(s1, past + [ev])
  {
    StepKeepsInv(s, ev);
    StepRemembers(s, past, ev);
    s1 := Step(s, ev);
  }

  /** The first step of a run that `past` came before; `all` is what happened before and in it. */
  lemma {:induction false} FirstStep(s: State, past: seq<Event>, evs: seq<Event>, all: seq<Event>)
    returns (s1: State, past1: seq<Event>, rest: seq<Event>)
    requires Inv(s) && Remembers(s, past) && Runnable(s, evs) && evs != [] && all == past + evs
    ensures Inv(s1) && Remembers(s1, past1)
    ensures Runnable(s1, rest) && Exec(s, evs) == Exec(s1, rest)
    ensures all == past1 + rest && |rest| < |evs|
  {
    s1 := KeptBy(s, past, evs[0]);
    past1, rest := past + [evs[0]], evs[1..];
    Advance(past, evs, all);
  }

  lemma {:induction false} RunRemembers(s: State, past: seq<Event>, evs: seq<Event>, all: seq<Event>) returns (e: State)
    requires Inv(s) && Remembers(s, past) && Runnable(s, evs) && all == past + evs
    ensures e == Exec(s, evs) && Remembers(e, all)
    decreases |evs|
  {
    if evs == [] {
      assert all == past;
      e := s;
    } else {
      var s1, past1, rest := FirstStep(s, past, evs, all);
      e := RunRemembers(s1, past1, rest, all);
    }
  }

  lemma {:induction false} Reached(s: State, evs: seq<Event>) returns (e: State)
    requires Init(s) && Runnable(s, evs)
    ensures e == Exec(s, evs) && Inv(e) && Remembers(e, evs)
  {
    RunKeepsInv(s, evs);
    e := RunRemembers(s, [], evs, evs);
  }

  /** Why the thread runs again: the error it was woken with, none when it starts a call. */
  function Cause(e: State, ev: Event): Err
    requires Enabled(e, ev) && Runs(ev)
  {
    if ev.Resume? then e.pcs[ev.t].err else EOK
  }

  /**
   * What event `ev`, in which a thread runs in its call, does to state `e`. A send returns
   * RT_EOK exactly when its own mail went in, at the end of the box; it fails for the full box
   * exactly when no waiting time is left, for the time exactly when its timer fired, and
   * otherwise waits on. An urgent send puts its mail in front and never waits. A receive returns
   * the first mail exactly when there is one.
   */
  predicate Answered(e: State, evs: seq<Event>, ev: Event)
    requires Shape(e) && Enabled(e, ev) && Runs(ev)
  {
    var h, t, e', cause := evs + [ev], ev.t, Step(e, ev), Cause(e, ev);
    var pc' := e'.pcs[t];
    && InCall(h, Caller, t)
    && (cause == ETIMEOUT <==> ev.Resume? && Expired(evs, t))
    && (cause != EOK ==> pc' == Idle(Done(cause)) && e'.box == e.box)
    && match Call(h, Caller, t)
       case Send(_, value, timeout) =>
         && (pc' == Idle(Done(EOK)) <==> e'.box == e.box + [value])
         && (pc' == Idle(Done(EOK)) <==> cause == EOK && |e.box| < e.size)
         && (pc' != Idle(Done(EOK)) ==> e'.box == e.box)
         && (pc' == Idle(Done(EFULL)) <==> cause == EOK && |e.box| == e.size && Left(h, t, timeout) == 0)
         && (!pc'.Idle? <==> cause == EOK && |e.box| == e.size && Left(h, t, timeout) != 0)
         && (!pc'.Idle? ==> pc'.SendWait?)
       case Urgent(_, value) =>
         && (pc' == Idle(Done(EOK)) <==> e'.box == [value] + e.box)
         && (pc' == Idle(Done(EFULL)) <==> |e.box| == e.size && e'.box == e.box)
         && (pc' == Idle(Done(EOK)) || pc' == Idle(Done(EFULL)))
       case Recv(_, timeout) =>
         && (cause == EOK && e.box != [] ==> pc' == Idle(Mail(e.box[0])) && e'.box == e.box[1..])
         && (e.box == [] ==> e'.box == [])
         && (cause == EOK && e.box == [] ==>
               if Left(h, t, timeout) == 0 then pc' == Idle(Done(ETIMEOUT)) else pc'.RecvWait?)
  }

  /** In every reachable state a call does what its arguments say, whether or not it had to wait. */
  lemma {:induction false} Answers(s: State, evs: seq<Event>, ev: Event)
    requires Init(s) && Runnable(s, evs) && Enabled(Exec(s, evs), ev) && Runs(ev)
    ensures Answered(Exec(s, evs), evs, ev)
  {
    var e := Reached(s, evs);
    assert Remembered(e.pcs[ev.t], evs, ev.t);
    assert (ev.t in e.senders <==> e.pcs[ev.t].SendWait?) && (ev.t in e.receivers <==> e.pcs[ev.t].RecvWait?);
    if ev.Resume? { ResumeAnswered(e, evs, ev.t, ev.elapsed); } else { StartAnswered(e, evs, ev); }
  }

  lemma {:induction false} StartAnswered(e: State, evs: seq<Event>, ev: Event)
    requires Shape(e) && Enabled(e, ev) && Caller(ev) >= 0 && ev.t !in e.senders && ev.t !in e.receivers
    ensures Answered(e, evs, ev)
  {
    Append(evs, ev, ev.t);
    match ev
    case Send(t, value, timeout) => SendPass(e, t, value, timeout);
    case Urgent(t, value) => if |e.box| < e.size { assert ([value] + e.box)[1..] == e.box; }
    case Recv(t, timeout) => RecvPass(e, t, timeout);
  }

  lemma {:induction false} ResumeAnswered(e: State, evs: seq<Event>, t: Tid, elapsed: nat)
    requires Inv(e) && Enabled(e, Resume(t, elapsed)) && t !in e.senders && t !in e.receivers
    requires Remembered(e.pcs[t], evs, t)
    ensures Answered(e, evs, Resume(t, elapsed))
  {
    var pc := e.pcs[t];
    Append(evs, Resume(t, elapsed), t);
    if MaySend(pc) {
      SendPass(e, t, pc.value, Remaining(pc.timeout, elapsed));
    } else if MayReceive(pc) {
      RecvPass(e, t, Remaining(pc.timeout, elapsed));
    }
  }

  /** One pass of the send loop, with `left` of the waiting time. */
  lemma {:induction false} SendPass(e: State, t: Tid, value: Word, left: int)
    requires Shape(e) && t < |e.pcs|
    ensures var e' := TrySend(e, t, value, left);
            if |e.box| < e.size then
              && e'.box == e.box + [value] && e'.box != e.box
              && (t !in e.receivers ==> e'.pcs[t] == Idle(Done(EOK)))
            else
              && e'.box == e.box
              && e'.pcs[t] == if left == 0 then Idle(Done(EFULL)) else SendWait(value, left)
  {
  }

  /** One pass of the receive loop, with `left` of the waiting time. */
  lemma {:induction false} RecvPass(e: State, t: Tid, left: int)
    requires Shape(e) && t < |e.pcs|
    ensures var e' := TryRecv(e, t, left);
            if e.box != [] then
              e'.box == e.box[1..] && (t !in e.senders ==> e'.pcs[t] == Idle(Mail(e.box[0])))
            else
              && e'.box == e.box
              && e'.pcs[t] == if left == 0 then Idle(Done(ETIMEOUT)) else RecvWait(left)
  {
  }

  /**
   * Who is woken in any reachable state. A suspended thread is woken with an error by its own
   * timer and by a reset, and without one exactly when it comes before all others that wait as
   * it does and a mail goes in, for a receiver, or comes out, for a sender. No other thread is
   * touched by an event that is not its own.
   */
  lemma {:induction false} WakesTheFirst(s: State, evs: seq<Event>, ev: Event, u: Tid)
    requires Init(s) && Runnable(s, evs) && Enabled(Exec(s, evs), ev)
    requires u < |Exec(s, evs).pcs| && !(Runs(ev) && ev.t == u)
    ensures var e := Exec(s, evs);
            var e', pc := Step(e, ev), e.pcs[u];
            && |e'.pcs| == |e.pcs|
            && e'.pcs[u] ==
                 if ev.Expire? && ev.t == u then Woken(pc, ETIMEOUT)
                 else if ev.Reset? then Woken(pc, ERROR)
                 else if |e'.box| > |e.box| && ComesFirst(u, e.pcs, Receiving, e.flag, e.prio, evs, Who)
                 then RecvWoken(pc.timeout, EOK)
                 else if |e'.box| < |e.box| && ComesFirst(u, e.pcs, Sending, e.flag, e.prio, evs, Who)
                 then SendWoken(pc.value, pc.timeout, EOK)
                 else pc
  {
    var e := Reached(s, evs);
    StepWakes(e, ev, u);
    FirstComesFirst(e.receivers, |e.box|, e.pcs, Receiving, MayReceive, e.flag, e.prio, evs, Who);
    FirstComesFirst(e.senders, e.size - |e.box|, e.pcs, Sending, MaySend, e.flag, e.prio, evs, Who);
    if e.receivers != [] { assert e.receivers[0] in e.receivers; }
    if e.senders != [] { assert e.senders[0] in e.senders; }
  }

  /** The same in terms of the lists. */
  lemma {:induction false} StepWakes(e: State, ev: Event, u: Tid)
    requires Shape(e) && Enabled(e, ev) && u < |e.pcs| && !(Runs(ev) && ev.t == u)
    ensures var e', pc := Step(e, ev), e.pcs[u];
            && |e'.pcs| == |e.pcs|
            && e'.pcs[u] ==
                 if ev.Expire? && ev.t == u then Woken(pc, ETIMEOUT)
                 else if ev.Reset? then Woken(pc, ERROR)
                 else if |e'.box| > |e.box| && e.receivers != [] && u == e.receivers[0] then Woken(pc, EOK)
                 else if |e'.box| < |e.box| && e.senders != [] && u == e.senders[0] then Woken(pc, EOK)
                 else pc
  {
    match ev
    case Send(t, value, timeout) => SendWakes(e, t, value, timeout, u);
    case Recv(t, timeout) => RecvWakes(e, t, timeout, u);
    case Resume(t, elapsed) =>
      var pc := e.pcs[t];
      if MaySend(pc) {
        SendWakes(e, t, pc.value, Remaining(pc.timeout, elapsed), u);
      } else if MayReceive(pc) {
        RecvWakes(e, t, Remaining(pc.timeout, elapsed), u);
      }
    case _ =>
  }

  lemma {:induction false} SendWakes(e: State, t: Tid, value: Word, timeout: int, u: Tid)
    requires Shape(e) && t < |e.pcs| && u < |e.pcs| && u != t
    ensures var e' := TrySend(e, t, value, timeout);
            && |e'.box| >= |e.box|
            && e'.pcs[u] == if |e'.box| > |e.box| && e.receivers != [] && u == e.receivers[0]
                            then Woken(e.pcs[u], EOK) else e.pcs[u]
  {
  }

  lemma {:induction false} RecvWakes(e: State, t: Tid, timeout: int, u: Tid)
    requires Shape(e) && t < |e.pcs| && u < |e.pcs| && u != t
    ensures var e' := TryRecv(e, t, timeout);
            && |e'.box| <= |e.box|
            && e'.pcs[u] == if |e'.box| < |e.box| && e.senders != [] && u == e.senders[0]
                            then Woken(e.pcs[u], EOK) else e.pcs[u]
  {
  }

  /**
   * The operation of the bounded queue that the last event is, told from the call of its thread:
   * a send that returns RT_EOK pushes its own value at the back, an urgent send in front.
   */
  function CallOp(evs: seq<Event>, e': State): Op
    requires evs != []
  {
    var ev := evs[|evs| - 1];
    if ev.Reset? then Empty
    else if !Runs(ev) || ev.t >= |e'.pcs| || !InCall(evs, Caller, ev.t) then Stutter
    else
      var pc := e'.pcs[ev.t];
      match Call(evs, Caller, ev.t)
      case Send(_, value, _) => if pc == Idle(Done(EOK)) then PushBack(value) else Stutter
      case Urgent(_, value) => if pc == Idle(Done(EOK)) then PushFront(value) else Stutter
      case _ => if pc.Idle? && pc.last.Mail? then Pop(ev.t) else Stutter
  }

  lemma {:induction false} EffectIsCall(s: State, evs: seq<Event>, ev: Event)
    requires Init(s) && Runnable(s, evs) && Enabled(Exec(s, evs), ev)
    ensures Effect(Exec(s, evs), ev) == CallOp(evs + [ev], Step(Exec(s, evs), ev))
  {
    if Runs(ev) {
      var e := Reached(s, evs);
      Append(evs, ev, ev.t);
      assert Remembered(e.pcs[ev.t], evs, ev.t);
      Answers(s, evs, ev);
    } else if ev.Expire? {
      assert Step(Exec(s, evs), ev).pcs[ev.t] == Woken(Exec(s, evs).pcs[ev.t], ETIMEOUT);
    }
  }

  /** A run, taken apart at its last event. */
  lemma {:induction false} LastStep(s: State, evs: seq<Event>)
    requires Shape(s) && Runnable(s, evs) && evs != []
    ensures var front, ev := evs[..|evs| - 1], evs[|evs| - 1];
            Runnable(s, front) && Enabled(Exec(s, front), ev) && Exec(s, evs) == Step(Exec(s, front), ev)
    decreases |evs|
  {
    var front := evs[..|evs| - 1];
    if |evs| > 1 {
      LastStep(Step(s, evs[0]), evs[1..]);
      assert evs[1..][..|evs| - 2] == front[1..];
    }
  }

  /** The value of the call of the last event's thread, if that event made it return RT_EOK. */
  function SentBy(evs: seq<Event>, e': State): seq<Word>
    requires evs != []
  {
    var ev := evs[|evs| - 1];
    if Runs(ev) && ev.t < |e'.pcs| && e'.pcs[ev.t] == Idle(Done(EOK))
       && InCall(evs, Caller, ev.t) && !Call(evs, Caller, ev.t).Recv?
    then [Call(evs, Caller, ev.t).value] else []
  }

  /** The mail that the last event's thread returned with. */
  function ReceivedBy(evs: seq<Event>, e': State): seq<Word>
    requires evs != []
  {
    var ev := evs[|evs| - 1];
    if Runs(ev) && ev.t < |e'.pcs| && e'.pcs[ev.t].Idle? && e'.pcs[ev.t].last.Mail?
    then [e'.pcs[ev.t].last.value] else []
  }

  /** The values of the calls that returned RT_EOK, in the order in which they returned. */
  function Sent(s: State, evs: seq<Event>): seq<Word>
    requires Shape(s) && Runnable(s, evs)
    decreases |evs|
  {
    if evs == [] then []
    else
      LastStep(s, evs);
      Sent(s, evs[..|evs| - 1]) + SentBy(evs, Exec(s, evs))
  }

  /** The mails that receives returned, in the order in which they returned. */
  function Received(s: State, evs: seq<Event>): seq<Word>
    requires Shape(s) && Runnable(s, evs)
    decreases |evs|
  {
    if evs == [] then []
    else
      LastStep(s, evs);
      Received(s, evs[..|evs| - 1]) + ReceivedBy(evs, Exec(s, evs))
  }

  /** What an event sends and receives is what the call of its thread says. */
  lemma {:induction false} SentStep(s: State, evs: seq<Event>, ev: Event)
    requires Init(s) && Runnable(s, evs) && Enabled(Exec(s, evs), ev)
    ensures var e, h := Exec(s, evs), evs + [ev];
            var e' := Step(e, ev);
            && Accepted(e, ev) == SentBy(h, e') && Taken(e, ev) == ReceivedBy(h, e')
            && (!ev.Urgent? && !ev.Reset? ==> e.box + SentBy(h, e') == ReceivedBy(h, e') + e'.box)
  {
    EffectIsCall(s, evs, ev);
    if Runs(ev) { Answers(s, evs, ev); }
    if !ev.Urgent? && !ev.Reset? { FifoStep(Exec(s, evs), ev); }
  }

  /**
   * Without urgent mails and resets, the mails that receives returned and then those still in
   * the box are exactly the values of the sends that returned RT_EOK, in that order.
   */
  lemma {:induction false} SentInOrder(s: State, evs: seq<Event>)
    requires Init(s) && Runnable(s, evs)
    requires forall i :: 0 <= i < |evs| ==> !evs[i].Urgent? && !evs[i].Reset?
    ensures Sent(s, evs) == Received(s, evs) + Exec(s, evs).box
    decreases |evs|
  {
    if evs != [] {
      var front, ev := evs[..|evs| - 1], evs[|evs| - 1];
      LastStep(s, evs);
      assert front + [ev] == evs;
      SentInOrder(s, front);
      SentStep(s, front, ev);
      Concatenated(Sent(s, front), Received(s, front), Exec(s, front).box, SentBy(evs, Exec(s, evs)),
             ReceivedBy(evs, Exec(s, evs)), Exec(s, evs).box);
    }
  }

  lemma Concatenated(sent: seq<Word>, received: seq<Word>, box: seq<Word>, a: seq<Word>, t: seq<Word>, box1: seq<Word>)
    requires sent == received + box && box + a == t + box1
    ensures sent + a == received + t + box1
  {
    assert received + box + a == received + (box + a);
    assert received + (t + box1) == received + t + box1;
  }

  /** The mails that the box accepted are the values of the sends that returned RT_EOK. */
  lemma {:induction false} AcceptedIsSent(s: State, evs: seq<Event>)
    requires Init(s) && Runnable(s, evs)
    ensures AllAccepted(s, evs) == Sent(s, evs) && AllTaken(s, evs) == Received(s, evs)
    decreases |evs|
  {
    if evs != [] {
      var front, ev := evs[..|evs| - 1], evs[|evs| - 1];
      LastStep(s, evs);
      assert front + [ev] == evs;
      AcceptedIsSent(s, front);
      SentStep(s, front, ev);
      AcceptedAppend(s, front, ev);
      TakenAppend(s, front, ev);
    }
  }

  /** The operations of a run, each told from the call of its thread. */
  function CallOps(s: State, evs: seq<Event>): seq<Op>
    requires Shape(s) && Runnable(s, evs)
    decreases |evs|
  {
    if evs == [] then []
    else
      LastStep(s, evs);
      CallOps(s, evs[..|evs| - 1]) + [CallOp(evs, Exec(s, evs))]
  }

  /** The queue of a new mailbox; a thread may come with a mail of another one. */
  function NewDeque(s: State): Deque {
    Deque(s.size, [], seq(|s.pcs|, t requires 0 <= t < |s.pcs| =>
      if s.pcs[t].Idle? && s.pcs[t].last.Mail? then s.pcs[t].last.value else 0))
  }

  /**
   * Every run, with urgent mails, timeouts and resets, does to a bounded queue of words what its
   * calls say: the value of every send that returned RT_EOK was pushed, at the back or in front
   * as it asked, and nothing else was; the box holds the words of that queue, and a receive
   * returned the word that the queue gave its thread.
   */
  lemma {:induction false} CallsOnQueue(s: State, evs: seq<Event>)
    requires Init(s) && Runnable(s, evs)
    ensures Accepts(NewDeque(s), CallOps(s, evs))
    ensures Refines(Exec(s, evs), ApplyAll(NewDeque(s), CallOps(s, evs)))
  {
    OpsAreEffects(s, evs);
    RunRefines(s, NewDeque(s), evs);
  }

  lemma {:induction false} OpsAreEffects(s: State, evs: seq<Event>)
    requires Init(s) && Runnable(s, evs)
    ensures CallOps(s, evs) == Effects(s, evs)
    decreases |evs|
  {
    if evs != [] {
      LastOp(s, evs);
      OpsAreEffects(s, evs[..|evs| - 1]);
    }
  }

  lemma {:induction false} LastOp(s: State, evs: seq<Event>)
    requires Init(s) && Runnable(s, evs) && evs != []
    ensures Runnable(s, evs[..|evs| - 1])
    ensures Effects(s, evs) == Effects(s, evs[..|evs| - 1]) + [CallOp(evs, Exec(s, evs))]
  {
    var front, ev := evs[..|evs| - 1], evs[|evs| - 1];
    LastStep(s, evs);
    assert front + [ev] == evs;
    EffectIsCall(s, front, ev);
    EffectsAppend(s, front, ev);
  }

  lemma {:induction false} EffectsAppend(s: State, evs: seq<Event>, ev: Event)
    requires Shape(s) && Runnable(s, evs) && Enabled(Exec(s, evs), ev) && Runnable(s, evs + [ev])
    ensures Effects(s, evs + [ev]) == Effects(s, evs) + [Effect(Exec(s, evs), ev)]
    decreases |evs|
  {
    if evs == [] {
      assert evs + [ev] == [ev] && [ev][1..] == [];
      assert Effects(Step(s, ev), []) == [];
    } else {
      assert (evs + [ev])[0] == evs[0] && (evs + [ev])[1..] == evs[1..] + [ev];
      EffectsAppend(Step(s, evs[0]), evs[1..], ev);
    }
  }

  lemma {:induction false} AcceptedAppend(s: State, evs: seq<Event>, ev: Event)
    requires Shape(s) && Runnable(s, evs) && Enabled(Exec(s, evs), ev) && Runnable(s, evs + [ev])
    ensures AllAccepted(s, evs + [ev]) == AllAccepted(s, evs) + Accepted(Exec(s, evs), ev)
    decreases |evs|
  {
    if evs == [] {
      assert evs + [ev] == [ev] && [ev][1..] == [];
      assert AllAccepted(Step(s, ev), []) == [];
    } else {
      assert (evs + [ev])[0] == evs[0] && (evs + [ev])[1..] == evs[1..] + [ev];
      AcceptedAppend(Step(s, evs[0]), evs[1..], ev);
    }
  }

  lemma {:induction false} TakenAppend(s: State, evs: seq<Event>, ev: Event)
    requires Shape(s) && Runnable(s, evs) && Enabled(Exec(s, evs), ev) && Runnable(s, evs + [ev])
    ensures AllTaken(s, evs + [ev]) == AllTaken(s, evs) + Taken(Exec(s, evs), ev)
    decreases |evs|
  {
    if evs == [] {
      assert evs + [ev] == [ev] && [ev][1..] == [];
      assert AllTaken(Step(s, ev), []) == [];
    } else {
      assert (evs + [ev])[0] == evs[0] && (evs + [ev])[1..] == evs[1..] + [ev];
      TakenAppend(Step(s, evs[0]), evs[1..], ev);
    }
  }
}
