/**
 * What a thread gets from the event set of rt-thread/src/ipc.c, told from its own call and from
 * the order of the events.
 */
module EventCalls {
  import opened Kernel
  import opened WaitQueue
  import opened History
  import opened EventModel

  /** The thread an event is about, or -1. */
  function Who(ev: Event): int {
    if ev.Reset? then -1 else ev.t
  }

  /** The thread that makes a call with this event, or -1. */
  function Caller(ev: Event): int {
    if ev.Send? || ev.Recv? then ev.t else -1
  }

  /** The thread runs in this event. */
  predicate Runs(ev: Event) { !ev.Expire? && !ev.Reset? }

  predicate Fires(ev: Event) { ev.Expire? }

  /** The last that happened to the thread is that its timer fired. */
  predicate Expired(evs: seq<Event>, t: Tid) { EndsWith(evs, Who, Fires, t) }

  lemma {:induction false} Append(evs: seq<Event>, ev: Event, t: Tid)
    ensures InCall(evs + [ev], Caller, t) <==> Caller(ev) == t || InCall(evs, Caller, t)
    ensures InCall(evs + [ev], Caller, t) ==>
              Call(evs + [ev], Caller, t) == if Caller(ev) == t then ev else Call(evs, Caller, t)
    ensures Expired(evs + [ev], t) <==> if Who(ev) == t then ev.Expire? else Expired(evs, t)
  {
    CallAppend(evs, ev, Caller, t);
    EndsWithAppend(evs, ev, Who, Fires, t);
  }

  /** The bits a receiver may be given: all it wants under AND, some of them otherwise. */
  predicate Suits(got: Bits, want: Bits, option: Option) {
    if option.and then got == want else got <= want && got != {}
  }

  /** What a suspended or woken thread carries belongs to its last call. */
  predicate Remembered(pc: Pc, evs: seq<Event>, t: Tid) {
    match pc
    case Idle(_) => true
    case Waiting(want, option, timeout) =>
      && InCall(evs, Caller, t) && Call(evs, Caller, t) == Recv(t, want, option, timeout)
      && timeout != 0 && !Expired(evs, t)
    case Woken(err, got) =>
      && InCall(evs, Caller, t) && Call(evs, Caller, t).Recv? && Call(evs, Caller, t).timeout != 0
      && err != EFULL && (err == ETIMEOUT <==> Expired(evs, t))
      && (err == EOK ==> Suits(got, Call(evs, Caller, t).want, Call(evs, Caller, t).option))
  }

  /** The list is in its promised order, with arrival times read off the events. */
  predicate Remembers(s: State, evs: seq<Event>) {
    && |s.prio| == |s.pcs|
    && (forall t: Tid :: t < |s.pcs| ==> Remembered(s.pcs[t], evs, t))
    && InOrder(s.waiters, s.flag, s.prio, evs, Who)
  }

  /** A sweep leaves a thread as it is, or wakes it with bits that suit it. */
  lemma {:induction false} SweepSuits(events: Bits, q: seq<Tid>, pcs: seq<Pc>, t: Tid)
    requires Known(q, |pcs|) && t < |pcs|
    ensures var pc, pc' := pcs[t], Sweep(events, q, pcs).pcs[t];
            pc' == pc || (pc.Waiting? && t in q && pc'.Woken? && pc'.err == EOK && Suits(pc'.got, pc.want, pc.option))
    decreases |q|
  {
    if q != [] {
      var pc := pcs[q[0]];
      if pc.Waiting? && Satisfied(events, pc.want, pc.option) {
        SweepSuits(Cleared(events, pc.want, pc.option), q[1..], pcs[q[0] := Woken(EOK, events * pc.want)], t);
      } else {
        SweepSuits(events, q[1..], pcs, t);
      }
    }
  }

  /** A sweep keeps the order of the threads that stay. */
  lemma {:induction false} SweepOrdered(events: Bits, q: seq<Tid>, pcs: seq<Pc>, flag: Flag, prio: seq<nat>,
                                        arrival: seq<nat>)
    requires Ordered(q, flag, prio, arrival) && |prio| == |pcs|
    ensures Ordered(Sweep(events, q, pcs).waiters, flag, prio, arrival)
    ensures forall u :: u in Sweep(events, q, pcs).waiters ==> u in q
    decreases |q|
  {
    if q != [] {
      OrderedTail(q, flag, prio, arrival);
      var pc := pcs[q[0]];
      if pc.Waiting? && Satisfied(events, pc.want, pc.option) {
        SweepOrdered(Cleared(events, pc.want, pc.option), q[1..], pcs[q[0] := Woken(EOK, events * pc.want)],
                     flag, prio, arrival);
      } else {
        SweepOrdered(events, q[1..], pcs, flag, prio, arrival);
        OrderedCons(q[0], Sweep(events, q[1..], pcs).waiters, flag, prio, arrival);
      }
    }
  }

  /** What an event does to the threads that it is not about. */
  lemma {:induction false} OthersStep(s: State, ev: Event, t: Tid)
    requires Shape(s) && Enabled(s, ev) && t < |s.pcs| && Who(ev) != t
    ensures t < |Step(s, ev).pcs|
    ensures var pc, pc' := s.pcs[t], Step(s, ev).pcs[t];
            || pc' == pc
            || (pc.Waiting? && pc' == Woken(ERROR, pc.want))
            || (pc.Waiting? && pc'.Woken? && pc'.err == EOK && Suits(pc'.got, pc.want, pc.option))
  {
    if ev.Send? { SweepSuits(s.events + ev.bits, s.waiters, s.pcs, t); }
  }

  lemma {:induction false} PcsRemember(s: State, evs: seq<Event>, ev: Event, t: Tid)
    requires Shape(s) && Enabled(s, ev) && t < |s.pcs| && Remembered(s.pcs[t], evs, t)
    ensures t < |Step(s, ev).pcs| && Remembered(Step(s, ev).pcs[t], evs + [ev], t)
  {
    Append(evs, ev, t);
    if Who(ev) != t { OthersStep(s, ev, t); }
  }

  lemma {:induction false} ListInOrderStep(s: State, evs: seq<Event>, ev: Event)
    requires Inv(s) && InOrder(s.waiters, s.flag, s.prio, evs, Who) && Enabled(s, ev)
    ensures InOrder(Step(s, ev).waiters, s.flag, s.prio, evs + [ev], Who)
    ensures Step(s, ev).flag == s.flag && Step(s, ev).prio == s.prio
  {
    var q, q' := s.waiters, Step(s, ev).waiters;
    if !ev.Reset? { assert ev.t in q <==> s.pcs[ev.t].Waiting?; }
    if ev.Send? && ev.bits != {} {
      SweepOrdered(s.events + ev.bits, q, s.pcs, s.flag, s.prio, Arrivals(evs, Who, |s.prio|));
      forall i | 0 <= i < |q'| ensures q'[i] != Who(ev) { assert q'[i] in q'; }
      StayInOrder(q', s.flag, s.prio, evs, Who, ev);
    } else {
      ListInOrder(q, q', s.flag, s.prio, evs, Who, ev);
    }
  }

  lemma {:induction false} StepRemembers(s: State, evs: seq<Event>, ev: Event)
    requires Inv(s) && Remembers(s, evs) && Enabled(s, ev)
    ensures Remembers(Step(s, ev), evs + [ev])
  {
    forall t: Tid | t < |s.pcs| ensures t < |Step(s, ev).pcs| && Remembered(Step(s, ev).pcs[t], evs + [ev], t) {
      PcsRemember(s, evs, ev, t);
    }
    ListInOrderStep(s, evs, ev);
  }

  /** One event keeps the invariant and what is remembered. */
  lemma {:induction false} KeptBy(s: State, past: seq<Event>, ev: Event) returns (s1: State)
    requires Inv(s) && Remembers(s, past) && Enabled(s, ev)
    ensures s1 == Step(s, ev) && Inv(s1) && Remembers(s1, past + [ev])
  {
    StepKeepsInv(s, ev);
    StepRemembers(s, past, ev);
    s1 := Step(s, ev);
  }

  /** The first step of a run that `past` came before; `all` is what happened before and in it. */
  lemma {:induction false} FirstStep(s: State, past: seq<Event>, evs: seq<Event>, all: seq<Event>)
    returns (s1: State, past1: seq<Event>, rest: seq<Event>)
    requires Inv(s) && Remembers(s, past) && Runnable(s, evs) && evs != [] && all == past + evs
    ensures Inv(s1) && Remembers(s1, past1)
    ensures Runnable(s1, rest) && Exec(s, evs) == Exec(s1, rest)
    ensures all == past1 + rest && |rest| < |evs|
  {
    s1 := KeptBy(s, past, evs[0]);
    past1, rest := past + [evs[0]], evs[1..];
    Advance(past, evs, all);
  }

  lemma {:induction false} RunRemembers(s: State, past: seq<Event>, evs: seq<Event>, all: seq<Event>) returns (e: State)
    requires Inv(s) && Remembers(s, past) && Runnable(s, evs) && all == past + evs
    ensures e == Exec(s, evs) && Inv(e) && Remembers(e, all)
    decreases |evs|
  {
    if evs == [] {
      assert all == past;
      e := s;
    } else {
      var s1, past1, rest := FirstStep(s, past, evs, all);
      e := RunRemembers(s1, past1, rest, all);
    }
  }

  lemma {:induction false} Reached(s: State, evs: seq<Event>) returns (e: State)
    requires Init(s) && Runnable(s, evs)
    ensures e == Exec(s, evs) && Inv(e) && Remembers(e, evs)
  {
    CountNone(s.pcs, Never);
    e := RunRemembers(s, [], evs, evs);
  }

  /**
   * What event `ev`, in which a thread runs in its call, does to state `e`. A receive that asks
   * for nothing fails; otherwise it succeeds at once exactly when all the bits it wants are set,
   * under AND, or one of them, and waits exactly when it wants to. One that had to wait returns
   * bits that suit its own call, or fails for the time exactly when its timer fired. A send fails
   * exactly when it sends nothing.
   */
  predicate Answered(e: State, evs: seq<Event>, ev: Event)
    requires Shape(e) && Enabled(e, ev) && Runs(ev)
  {
    var h, t, e' := evs + [ev], ev.t, Step(e, ev);
    t < |e'.pcs| && InCall(h, Caller, t) &&
    var pc' := e'.pcs[t];
    match Call(h, Caller, t)
    case Recv(_, want, option, timeout) =>
      if ev.Resume? then
        && e'.events == e.events && pc'.Idle? && timeout != 0
        && (pc' == Idle(Done(ETIMEOUT)) <==> Expired(evs, t))
        && (pc'.last.Received? <==> e.pcs[t].err == EOK)
        && (pc'.last.Received? ==>
              if option.and then pc'.last.bits == want else pc'.last.bits <= want && pc'.last.bits != {})
      else
        var now := want != {} && if option.and then want <= e.events else exists b :: b in want && b in e.events;
        && (pc' == Idle(Done(ERROR)) <==> want == {})
        && (pc' == Idle(Received(e.events * want)) <==> now)
        && (pc' == Idle(Done(ETIMEOUT)) <==> want != {} && !now && timeout == 0)
        && (pc' == Waiting(want, option, timeout) <==> want != {} && !now && timeout != 0)
        && e'.events == if now && option.clear then e.events - want else e.events
    case Send(_, bits) => pc' == Idle(Done(if bits == {} then ERROR else EOK)) && (bits == {} ==> e'.events == e.events)
    case _ => true
  }

  /** In every reachable state a call does what its arguments say, whether or not it had to wait. */
  lemma {:induction false} Answers(s: State, evs: seq<Event>, ev: Event)
    requires Init(s) && Runnable(s, evs) && Enabled(Exec(s, evs), ev) && Runs(ev)
    ensures Answered(Exec(s, evs), evs, ev)
  {
    var e := Reached(s, evs);
    assert Remembered(e.pcs[ev.t], evs, ev.t);
    StepAnswered(e, evs, ev);
  }

  lemma {:induction false} StepAnswered(e: State, evs: seq<Event>, ev: Event)
    requires Shape(e) && Enabled(e, ev) && Runs(ev) && Remembered(e.pcs[ev.t], evs, ev.t)
    ensures Answered(e, evs, ev)
  {
    Append(evs, ev, ev.t);
    if ev.Recv? { SatisfiedIs(e.events, ev.want, ev.option); }
  }

  lemma SatisfiedIs(events: Bits, want: Bits, option: Option)
    ensures Satisfied(events, want, option) <==>
              if option.and then want <= events else exists b :: b in want && b in events
  {
    if want <= events { assert events * want == want; }
    if events * want == want { assert forall b :: b in want ==> b in events * want; }
    if b :| b in want && b in events { assert b in events * want; }
    if events * want != {} { var b :| b in events * want; }
  }

  /**
   * In every reachable state the suspended threads are listed in their promised order, with
   * arrival times read off the events, each with what its own receive wanted and how; so the
   * receives that a send runs are theirs, in that order. Nobody else is touched by an event that
   * is not its own, except that a timer and a reset wake with an error.
   */
  lemma {:induction false} WaitersAreCalls(s: State, evs: seq<Event>)
    requires Init(s) && Runnable(s, evs)
    ensures var e := Exec(s, evs);
            && |e.prio| == |e.pcs| && InOrder(e.waiters, e.flag, e.prio, evs, Who)
            && (forall u: Tid :: u < |e.pcs| ==> (u in e.waiters <==> e.pcs[u].Waiting?))
            && (forall u: Tid :: u < |e.pcs| && e.pcs[u].Waiting? ==>
                  var pc := e.pcs[u];
                  InCall(evs, Caller, u) && Call(evs, Caller, u) == Recv(u, pc.want, pc.option, pc.timeout))
  {
    var e := Reached(s, evs);
    forall u: Tid | u < |e.pcs| && e.pcs[u].Waiting?
      ensures InCall(evs, Caller, u)
      ensures Call(evs, Caller, u) == Recv(u, e.pcs[u].want, e.pcs[u].option, e.pcs[u].timeout)
    {
      assert Remembered(e.pcs[u], evs, u);
    }
  }

  /**
   * Except for sends, an event that is not its own touches a thread only by waking it with an
   * error. A reset clears all bits.
   */
  lemma {:induction false} WokenWithError(s: State, evs: seq<Event>, ev: Event, u: Tid)
    requires Init(s) && Runnable(s, evs) && Enabled(Exec(s, evs), ev) && !ev.Send?
    requires u < |Exec(s, evs).pcs| && !(Runs(ev) && ev.t == u)
    ensures var e := Exec(s, evs);
            var e', pc := Step(e, ev), e.pcs[u];
            && |e'.pcs| == |e.pcs|
            && e'.pcs[u] == (if ev.Expire? && ev.t == u then Woken(ETIMEOUT, pc.want)
                             else if ev.Reset? && pc.Waiting? then Woken(ERROR, pc.want)
                             else pc)
            && (ev.Reset? ==> e'.events == {} && e'.waiters == [])
  {
  }
}
