/**
 * What a thread gets from the mutex of rt-thread/src/ipc.c, told from its own call and from the
 * order of the events, and how far a priority is lent.
 */
module MutexCalls {
  import opened Kernel
  import opened WaitQueue
  import opened History
  import opened MutexModel

  /** The thread an event is about. */
  function Who(ev: Event): int { ev.t }

  /** The thread that makes a call with this event, or -1. */
  function Caller(ev: Event): int {
    if ev.Take? || ev.Release? then ev.t else -1
  }

  predicate Fires(ev: Event) { ev.Expire? }

  /** The last that happened to the thread is that its timer fired. */
  predicate Expired(evs: seq<Event>, t: Tid) { EndsWith(evs, Who, Fires, t) }

  lemma {:induction false} Append(evs: seq<Event>, ev: Event, t: Tid)
    ensures InCall(evs + [ev], Caller, t) <==> Caller(ev) == t || InCall(evs, Caller, t)
    ensures InCall(evs + [ev], Caller, t) ==>
              Call(evs + [ev], Caller, t) == if Caller(ev) == t then ev else Call(evs, Caller, t)
    ensures Expired(evs + [ev], t) <==> if Who(ev) == t then ev.Expire? else Expired(evs, t)
  {
    CallAppend(evs, ev, Caller, t);
    EndsWithAppend(evs, ev, Who, Fires, t);
  }

  /** What a suspended or woken thread carries belongs to its last call. */
  predicate Remembered(s: State, evs: seq<Event>, t: Tid)
    requires t < |s.pcs|
  {
    match s.pcs[t]
    case Idle(_) => true
    case Waiting(timeout) =>
      && InCall(evs, Caller, t) && Call(evs, Caller, t) == Take(t, timeout) && timeout != 0 && !Expired(evs, t)
      && s.owner != Owned(t)
    case Woken(err) =>
      && InCall(evs, Caller, t) && Call(evs, Caller, t).Take? && Call(evs, Caller, t).time != 0
      && err == (if Expired(evs, t) then ETIMEOUT else EOK) && (err == EOK <==> s.owner == Owned(t))
  }

  /** The list is in priority order with ties in the order of the events. */
  predicate Remembers(s: State, evs: seq<Event>) {
    && |s.prio| == |s.pcs|
    && (forall t: Tid :: t < |s.pcs| ==> Remembered(s, evs, t))
    && InOrder(s.waiters, Prio, s.prio, evs, Who)
  }

  lemma {:induction false} PcsRemember(s: State, evs: seq<Event>, ev: Event, t: Tid)
    requires Inv(s) && t < |s.pcs| && Remembered(s, evs, t) && Enabled(s, ev)
    ensures t < |Step(s, ev).pcs| && Remembered(Step(s, ev), evs + [ev], t)
  {
    assert t in s.waiters <==> s.pcs[t].Waiting?;
    assert ev.t in s.waiters <==> s.pcs[ev.t].Waiting?;
    Append(evs, ev, t);
    if ev.t != t { OthersStep(s, ev, t); }
  }

  /** What an event does to the threads that it is not about. */
  lemma {:induction false} OthersStep(s: State, ev: Event, t: Tid)
    requires Shape(s) && Enabled(s, ev) && t < |s.pcs| && ev.t != t
    requires t in s.waiters <==> s.pcs[t].Waiting?
    ensures var s' := Step(s, ev);
            && |s'.pcs| == |s.pcs|
            && if s'.pcs[t] == s.pcs[t] then s'.owner == Owned(t) ==> s.owner == Owned(t) && s'.hold == s.hold
               else s.pcs[t].Waiting? && s'.pcs[t] == Woken(EOK) && s'.owner == Owned(t)
    ensures s.owner == Owned(t) ==> Step(s, ev).owner == Owned(t)
  {
    if s.waiters != [] { assert s.waiters[0] in s.waiters; }
  }

  /** Only the priority of a thread outside the new list changes, before the list does. */
  lemma {:induction false} ListSteps(s: State, ev: Event)
    requires Inv(s) && Enabled(s, ev)
    ensures ListStep(s.waiters, Step(s, ev).waiters, ev.t, Prio, Step(s, ev).prio)
    ensures |Step(s, ev).prio| == |s.prio|
    ensures forall i :: 0 <= i < |s.waiters| ==> Step(s, ev).prio[s.waiters[i]] == s.prio[s.waiters[i]]
  {
    assert ev.t in s.waiters <==> s.pcs[ev.t].Waiting?;
    forall i | 0 <= i < |s.waiters| ensures s.pcs[s.waiters[i]].Waiting? { assert s.waiters[i] in s.waiters; }
    if ev.Take? { TakeList(s, ev.t, ev.time); } else if ev.Release? { ReleaseList(s, ev.t); }
  }

  lemma {:induction false} TakeList(s: State, t: Tid, time: int)
    requires Shape(s) && t < |s.pcs| && t !in s.waiters
    requires s.owner.Owned? ==> s.owner.t !in s.waiters
    ensures var s' := TakeStep(s, t, time);
            && ListStep(s.waiters, s'.waiters, t, Prio, s'.prio) && |s'.prio| == |s.prio|
            && forall i :: 0 <= i < |s.waiters| ==> s'.prio[s.waiters[i]] == s.prio[s.waiters[i]]
  {
    forall i | 0 <= i < |s.waiters| ensures TakeStep(s, t, time).prio[s.waiters[i]] == s.prio[s.waiters[i]] {
      assert s.waiters[i] in s.waiters;
    }
  }

  lemma {:induction false} ReleaseList(s: State, t: Tid)
    requires Shape(s) && t < |s.pcs| && t !in s.waiters
    ensures var s' := ReleaseStep(s, t);
            && ListStep(s.waiters, s'.waiters, t, Prio, s'.prio) && |s'.prio| == |s.prio|
            && forall i :: 0 <= i < |s.waiters| ==> s'.prio[s.waiters[i]] == s.prio[s.waiters[i]]
  {
    forall i | 0 <= i < |s.waiters| ensures ReleaseStep(s, t).prio[s.waiters[i]] == s.prio[s.waiters[i]] {
      assert s.waiters[i] in s.waiters;
    }
  }

  /** The order does not depend on the priority of threads outside the list. */
  lemma {:induction false} InOrderElsewhere(q: seq<Tid>, prio: seq<nat>, prio': seq<nat>, evs: seq<Event>)
    requires InOrder(q, Prio, prio, evs, Who) && |prio'| == |prio|
    requires forall i :: 0 <= i < |q| ==> prio'[q[i]] == prio[q[i]]
    ensures InOrder(q, Prio, prio', evs, Who)
  {
    var a := Arrivals(evs, Who, |prio|);
    forall i, j | 0 <= i < j < |q| ensures Before(q[i], q[j], Prio, prio', a) {
      assert Before(q[i], q[j], Prio, prio, a);
    }
  }

  lemma {:induction false} StepRemembers(s: State, evs: seq<Event>, ev: Event)
    requires Inv(s) && Remembers(s, evs) && Enabled(s, ev)
    ensures Remembers(Step(s, ev), evs + [ev])
  {
    forall t: Tid | t < |s.pcs| ensures t < |Step(s, ev).pcs| && Remembered(Step(s, ev), evs + [ev], t) {
      PcsRemember(s, evs, ev, t);
    }
    ListSteps(s, ev);
    InOrderElsewhere(s.waiters, s.prio, Step(s, ev).prio, evs);
    ListInOrder(s.waiters, Step(s, ev).waiters, Prio, Step(s, ev).prio, evs, Who, ev);
  }

  /** One event keeps the invariant and what is remembered. */
  lemma {:induction false} KeptBy(s: State, past: seq<Event>, ev: Event) returns (s1: State)
    requires Inv(s) && Remembers(s, past) && Enabled(s, ev)
    ensures s1 == Step(s, ev) && Inv(s1) && Remembers(s1, past + [ev]) && s1.base == s.base
  {
    StepKeepsInv(s, ev);
    StepRemembers(s, past, ev);
    s1 := Step(s, ev);
  }

  /** The first step of a run that `past` came before; `all` is what happened before and in it. */
  lemma {:induction false} FirstStep(s: State, past: seq<Event>, evs: seq<Event>, all: seq<Event>)
    returns (s1: State, past1: seq<Event>, rest: seq<Event>)
    requires Inv(s) && Remembers(s, past) && Runnable(s, evs) && evs != [] && all == past + evs
    ensures Inv(s1) && Remembers(s1, past1) && s1.base == s.base
    ensures Runnable(s1, rest) && Exec(s, evs) == Exec(s1, rest)
    ensures all == past1 + rest && |rest| < |evs|
  {
    s1 := KeptBy(s, past, evs[0]);
    past1, rest := past + [evs[0]], evs[1..];
    Advance(past, evs, all);
  }

  lemma {:induction false} RunRemembers(s: State, past: seq<Event>, evs: seq<Event>, all: seq<Event>) returns (e: State)
    requires Inv(s) && Remembers(s, past) && Runnable(s, evs) && all == past + evs
    ensures e == Exec(s, evs) && Inv(e) && Remembers(e, all) && e.base == s.base
    decreases |evs|
  {
    if evs == [] {
      assert all == past;
      e := s;
    } else {
      var s1, past1, rest := FirstStep(s, past, evs, all);
      e := RunRemembers(s1, past1, rest, all);
    }
  }

  lemma {:induction false} Reached(s: State, evs: seq<Event>) returns (e: State)
    requires Init(s) && Runnable(s, evs)
    ensures e == Exec(s, evs) && Inv(e) && Remembers(e, evs) && e.base == s.prio
  {
    e := RunRemembers(s, [], evs, evs);
  }

  /**
   * What event `ev`, in which a thread runs in its call, does to state `e`. A take succeeds at
   * once exactly when the thread owns the mutex afterwards with one hold more than before; it
   * fails for the time at once exactly when another thread owns it and no waiting is wanted, and
   * for the maximum exactly at 255 holds. A release succeeds exactly for the owner, which then
   * has one hold less. A take that had to wait succeeds exactly when its thread owns the mutex,
   * and fails for the time exactly when its timer fired.
   */
  predicate Answered(e: State, evs: seq<Event>, ev: Event)
    requires Shape(e) && Enabled(e, ev) && !ev.Expire?
  {
    var h, t, e' := evs + [ev], ev.t, Step(e, ev);
    var pc', mine := e'.pcs[t], e.owner == Owned(t);
    && InCall(h, Caller, t)
    && match Call(h, Caller, t)
       case Take(_, time) =>
         if ev.Resume? then
           && (pc' == Idle(Done(EOK)) <==> mine) && (pc' == Idle(Done(ETIMEOUT)) <==> Expired(evs, t))
           && pc'.Idle? && time != 0 && e'.owner == e.owner && Holds(e', t) == Holds(e, t)
         else
           && (pc' == Idle(Done(EOK)) <==> e'.owner == Owned(t) && Holds(e', t) == Holds(e, t) + 1)
           && (pc' == Idle(Done(ETIMEOUT)) <==> e.owner.Owned? && !mine && time == 0)
           && (pc' == Idle(Done(EFULL)) <==> mine && Holds(e, t) == 255)
           && (pc' == Waiting(time) <==> e.owner.Owned? && !mine && time != 0)
           && (pc'.Idle? ==> pc' in {Idle(Done(EOK)), Idle(Done(ETIMEOUT)), Idle(Done(EFULL))})
           && (pc' != Idle(Done(EOK)) ==> e'.owner == e.owner && e'.hold == e.hold)
       case Release(_) =>
         && pc' == Idle(Done(if mine then EOK else ERROR))
         && Holds(e', t) == (if mine then Holds(e, t) - 1 else 0)
         && (!mine ==> e'.owner == e.owner && e'.hold == e.hold)
  }

  /** In every reachable state a call does what its arguments say, whether or not it had to wait. */
  lemma {:induction false} Answers(s: State, evs: seq<Event>, ev: Event)
    requires Init(s) && Runnable(s, evs) && Enabled(Exec(s, evs), ev) && !ev.Expire?
    ensures Answered(Exec(s, evs), evs, ev)
  {
    var e := Reached(s, evs);
    assert Remembered(e, evs, ev.t) && (ev.t in e.waiters <==> e.pcs[ev.t].Waiting?);
    if e.waiters != [] { assert e.waiters[0] in e.waiters && e.waiters[0] != ev.t; }
    StepAnswered(e, evs, ev);
  }

  lemma {:induction false} StepAnswered(e: State, evs: seq<Event>, ev: Event)
    requires Shape(e) && Enabled(e, ev) && !ev.Expire? && Remembered(e, evs, ev.t)
    requires e.waiters != [] ==> e.waiters[0] != ev.t
    ensures Answered(e, evs, ev)
  {
    Append(evs, ev, ev.t);
  }

  /**
   * Who is woken in any reachable state. A suspended thread is woken with an error by its own
   * timer, and without one exactly when it comes before all others and the owner releases its
   * last hold; then it is the owner, with one hold. No other thread is touched by an event that
   * is not its own.
   */
  lemma {:induction false} WakesTheFirst(s: State, evs: seq<Event>, ev: Event, u: Tid)
    requires Init(s) && Runnable(s, evs) && Enabled(Exec(s, evs), ev)
    requires u < |Exec(s, evs).pcs| && (ev.t == u ==> ev.Expire?)
    ensures var e := Exec(s, evs);
            var e', pc := Step(e, ev), e.pcs[u];
            var final := ev.Release? && e.owner == Owned(ev.t) && e.hold == 1;
            && |e'.pcs| == |e.pcs|
            && e'.pcs[u] == (if ev.t == u then Woken(ETIMEOUT)
                             else if final && ComesFirst(u, e.pcs, Suspended, Prio, e.prio, evs, Who) then Woken(EOK)
                             else pc)
            && (final && ComesFirst(u, e.pcs, Suspended, Prio, e.prio, evs, Who) ==>
                  e'.owner == Owned(u) && e'.hold == 1)
  {
    var e := Reached(s, evs);
    FirstComesFirst(e.waiters, e.value, e.pcs, Suspended, Never, Prio, e.prio, evs, Who);
    assert e.owner.Owned? ==> !e.pcs[e.owner.t].Waiting?;
  }

  /** The event is a take that has to wait behind owner `u`. */
  predicate WaitsBehind(e: State, ev: Event, u: Tid)
    requires Shape(e) && Enabled(e, ev)
  {
    ev.Take? && e.owner == Owned(u) && ev.t != u && ev.time != 0
  }

  /**
   * How far a priority is lent, in any reachable state: a take that has to wait lends the owner
   * the priority that the taker has of its own when that is the more urgent one, the release of
   * the last hold gives the thread back the priority it started with, and nothing else changes
   * any priority.
   */
  lemma {:induction false} PriorityChanges(s: State, evs: seq<Event>, ev: Event, u: Tid)
    requires Init(s) && Runnable(s, evs) && Enabled(Exec(s, evs), ev) && u < |s.prio|
    ensures var e := Exec(s, evs);
            var e' := Step(e, ev);
            && |e.prio| == |e'.prio| == |s.prio| && ev.t < |s.prio|
            && e'.prio[u] ==
                 if WaitsBehind(e, ev, u) then (if s.prio[ev.t] < e.prio[u] then s.prio[ev.t] else e.prio[u])
                 else if ev == Release(u) && e.owner == Owned(u) && e.hold == 1 then s.prio[u]
                 else e.prio[u]
  {
    var e := Reached(s, evs);
    StepKeepsInv(e, ev);
  }
}
