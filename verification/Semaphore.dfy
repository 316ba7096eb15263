/** The counting semaphore of rt-thread/src/ipc.c as a transition system. */
module SemaphoreModel {
  import opened Kernel
  import opened WaitQueue

  datatype Outcome = Nothing | Done(err: Err)

  datatype Pc = Idle(last: Outcome) | Waiting(timeout: int) | Woken(err: Err)

  /** `arrival` and `clock` record when each waiting thread was suspended; nothing reads them. */
  datatype State = State(
    value: nat, flag: Flag, prio: seq<nat>,
    waiters: seq<Tid>, pcs: seq<Pc>,
    arrival: seq<nat>, clock: nat)

  datatype Event =
    | Take(t: Tid, time: int)
    | Release(t: Tid)
    | Resume(t: Tid)
    | Expire(t: Tid)
    | Reset(value: nat)

  predicate Suspended(pc: Pc) { pc.Waiting? }
  predicate Never(pc: Pc) { false }

  /** A thread that has been handed a unit and has not returned yet. */
  predicate Granted(pc: Pc) { pc == Woken(EOK) }

  predicate Shape(s: State) {
    && |s.prio| == |s.pcs| == |s.arrival|
    && Known(s.waiters, |s.pcs|)
    && s.value <= UINT16_MAX
  }

  predicate Enabled(s: State, ev: Event) {
    ev.Reset? || (ev.t < |s.pcs| &&
      match ev
      case Resume(t) => s.pcs[t].Woken?
      case Expire(t) => s.pcs[t].Waiting? && s.pcs[t].timeout > 0
      case _ => s.pcs[ev.t].Idle?)
  }

  function Return(s: State, t: Tid, err: Err): (s': State)
    requires Shape(s) && t < |s.pcs|
    ensures Shape(s')
  {
    s.(pcs := s.pcs[t := Idle(Done(err))])
  }

  function Step(s: State, ev: Event): (s': State)
    requires Shape(s) && Enabled(s, ev)
    ensures Shape(s')
  {
    match ev
    case Take(t, time) =>
      if s.value > 0 then Return(s, t, EOK).(value := s.value - 1)
      else if time == 0 then Return(s, t, ETIMEOUT)
      else s.(waiters := Enqueue(s.waiters, t, s.flag, s.prio), pcs := s.pcs[t := Waiting(time)],
              arrival := s.arrival[t := s.clock], clock := s.clock + 1)
    case Release(t) =>
      if s.waiters != [] then
        var w := s.waiters[0];
        s.(waiters := s.waiters[1..], pcs := s.pcs[t := Idle(Done(EOK))][w := Woken(EOK)])
      else if s.value < UINT16_MAX then Return(s, t, EOK).(value := s.value + 1)
      else Return(s, t, EFULL)
    case Resume(t) => Return(s, t, s.pcs[t].err)
    case Expire(t) =>
      s.(waiters := Remove(s.waiters, t), pcs := s.pcs[t := Woken(ETIMEOUT)])
    case Reset(value) =>
      s.(waiters := [], pcs := ReleaseAll(s.pcs), value := value % (UINT16_MAX + 1))
  }

  function ReleaseAll(pcs: seq<Pc>): (r: seq<Pc>)
    ensures |r| == |pcs|
    ensures forall t: Tid :: t < |pcs| ==> r[t] == if pcs[t].Waiting? then Woken(ERROR) else pcs[t]
  {
    seq(|pcs|, i requires 0 <= i < |pcs| => if pcs[i].Waiting? then Woken(ERROR) else pcs[i])
  }

  /** A positive value means that nobody waits, and the list is in the promised order. */
  predicate Inv(s: State) {
    && Shape(s)
    && Gate(s.waiters, s.value, s.pcs, Suspended, Never)
    && Ordered(s.waiters, s.flag, s.prio, s.arrival)
    && forall i :: 0 <= i < |s.waiters| ==> s.arrival[s.waiters[i]] < s.clock
  }

  predicate Init(s: State) {
    Shape(s) && s.waiters == [] && forall t: Tid :: t < |s.pcs| ==> s.pcs[t].Idle?
  }

  lemma LeaveKeepsInv(s: State, s': State, t: Tid, y: Pc)
    requires Inv(s) && t in s.waiters && t < |s.pcs| && !Suspended(y)
    requires s' == s.(waiters := Remove(s.waiters, t), pcs := s.pcs[t := y])
    ensures Inv(s')
  {
    GateExpire(s.waiters, s.value, s.pcs, Suspended, Never, t, y);
    RemoveOrdered(s.waiters, t, s.flag, s.prio, s.arrival);
    forall i | 0 <= i < |s'.waiters| ensures s.arrival[s'.waiters[i]] < s.clock {
      assert s'.waiters[i] in s.waiters;
    }
  }

  lemma StepKeepsInv(s: State, ev: Event)
    requires Inv(s) && Enabled(s, ev)
    ensures Inv(Step(s, ev))
  {
    match ev
    case Take(t, time) =>
      if s.value == 0 && time != 0 {
        GateSuspend(s.waiters, s.pcs, Suspended, Never, t, Waiting(time), s.flag, s.prio);
        EnqueueOrdered(s.waiters, t, s.flag, s.prio, s.arrival, s.clock);
        EnqueueMembers(s.waiters, t, s.flag, s.prio);
        var r := Enqueue(s.waiters, t, s.flag, s.prio);
        forall i | 0 <= i < |r| ensures s.arrival[t := s.clock][r[i]] < s.clock + 1 { assert r[i] in r; }
      } else {
        var x := Step(s, ev).pcs[t];
        GateProceed(s.waiters, s.value, s.pcs, Suspended, Never, t, x, Step(s, ev).value);
      }
    case Release(t) =>
      var x := Step(s, ev).pcs[t];
      GateProceed(s.waiters, s.value, s.pcs, Suspended, Never, t, x, s.value);
      if s.waiters != [] {
        var w := s.waiters[0];
        assert w in s.waiters;
        assert Remove(s.waiters, w) == s.waiters[1..];
        LeaveKeepsInv(s.(pcs := s.pcs[t := x]), Step(s, ev), w, Woken(EOK));
      }
    case Resume(t) =>
      GateProceed(s.waiters, s.value, s.pcs, Suspended, Never, t, Idle(Done(s.pcs[t].err)), s.value);
    case Expire(t) => LeaveKeepsInv(s, Step(s, ev), t, Woken(ETIMEOUT));
    case Reset(_) =>
  }

  predicate Runnable(s: State, evs: seq<Event>)
    requires Shape(s)
    decreases |evs|
  {
    evs == [] || (Enabled(s, evs[0]) && Runnable(Step(s, evs[0]), evs[1..]))
  }

  function Exec(s: State, evs: seq<Event>): (s': State)
    requires Shape(s) && Runnable(s, evs)
    ensures Shape(s')
    decreases |evs|
  {
    if evs == [] then s else Exec(Step(s, evs[0]), evs[1..])
  }

  lemma {:induction false} RunKeepsInv(s: State, evs: seq<Event>)
    requires Inv(s) && Runnable(s, evs)
    ensures Inv(Exec(s, evs))
    decreases |evs|
  {
    if evs != [] {
      StepKeepsInv(s, evs[0]);
      RunKeepsInv(Step(s, evs[0]), evs[1..]);
    }
  }

  /** 1 when the event is a release that returns RT_EOK. */
  function Released(s: State, ev: Event): nat
    requires Shape(s) && Enabled(s, ev)
  {
    if ev.Release? && Step(s, ev).pcs[ev.t] == Idle(Done(EOK)) then 1 else 0
  }

  /** 1 when the event makes a take return RT_EOK. */
  function Returned(s: State, ev: Event): nat
    requires Shape(s) && Enabled(s, ev)
  {
    if (ev.Take? || ev.Resume?) && Step(s, ev).pcs[ev.t] == Idle(Done(EOK)) then 1 else 0
  }

  function AllReleased(s: State, evs: seq<Event>): nat
    requires Shape(s) && Runnable(s, evs)
    decreases |evs|
  {
    if evs == [] then 0 else Released(s, evs[0]) + AllReleased(Step(s, evs[0]), evs[1..])
  }

  function AllReturned(s: State, evs: seq<Event>): nat
    requires Shape(s) && Runnable(s, evs)
    decreases |evs|
  {
    if evs == [] then 0 else Returned(s, evs[0]) + AllReturned(Step(s, evs[0]), evs[1..])
  }

  lemma StepConserves(s: State, ev: Event)
    requires Inv(s) && Enabled(s, ev) && !ev.Reset?
    ensures Step(s, ev).value + Count(Step(s, ev).pcs, Granted) + Returned(s, ev)
         == s.value + Count(s.pcs, Granted) + Released(s, ev)
  {
    var s' := Step(s, ev);
    CountUpdate(s.pcs, ev.t, s'.pcs[ev.t], Granted);
    if ev.Release? && s.waiters != [] {
      var w := s.waiters[0];
      assert w in s.waiters;
      CountUpdate(s.pcs[ev.t := Idle(Done(EOK))], w, Woken(EOK), Granted);
    }
  }

  /**
   * Conservation. Between resets the initial value plus the successful releases is the current
   * value plus the takes that returned RT_EOK plus the threads that were handed a unit and are
   * about to return; a take that timed out accounts for nothing.
   */
  lemma {:induction false} Conservation(s: State, evs: seq<Event>)
    requires Inv(s) && Runnable(s, evs)
    requires forall i :: 0 <= i < |evs| ==> !evs[i].Reset?
    ensures s.value + Count(s.pcs, Granted) + AllReleased(s, evs)
         == Exec(s, evs).value + Count(Exec(s, evs).pcs, Granted) + AllReturned(s, evs)
    decreases |evs|
  {
    if evs != [] {
      StepConserves(s, evs[0]);
      StepKeepsInv(s, evs[0]);
      Conservation(Step(s, evs[0]), evs[1..]);
    }
  }

  /** In every reachable state a positive value means that nobody is suspended. */
  lemma NoWaitersWhileAvailable(s: State, evs: seq<Event>)
    requires Init(s) && Runnable(s, evs)
    ensures Exec(s, evs).value > 0 ==>
              forall t: Tid :: t < |Exec(s, evs).pcs| ==> !Exec(s, evs).pcs[t].Waiting?
  {
    RunKeepsInv(s, evs);
    CountNone(Exec(s, evs).pcs, Never);
  }

  /**
   * Hand-off order. In every reachable state, a release that finds suspended threads wakes the
   * one that comes before all the others: the earliest under FIFO, the most urgent and among
   * equals the earliest under PRIO; the value stays zero, so nobody can take the unit instead.
   */
  lemma HandOffOrder(s: State, evs: seq<Event>, t: Tid)
    requires Init(s) && Runnable(s, evs)
    requires var e := Exec(s, evs); Enabled(e, Release(t)) && e.waiters != []
    ensures var e := Exec(s, evs);
            var e' := Step(e, Release(t));
            var w := e.waiters[0];
            && w < |e.pcs| && e.pcs[w].Waiting? && Granted(e'.pcs[w])
            && e.value == 0 == e'.value
            && |e.prio| == |e.arrival| == |e.pcs|
            && (forall u: Tid :: u < |e.pcs| && e.pcs[u].Waiting? && u != w ==>
                  Before(w, u, e.flag, e.prio, e.arrival))
  {
    RunKeepsInv(s, evs);
    var e := Exec(s, evs);
    var w := e.waiters[0];
    assert w in e.waiters;
    CountNone(e.pcs, Never);
    forall u: Tid | u < |e.pcs| && e.pcs[u].Waiting? && u != w
      ensures Before(w, u, e.flag, e.prio, e.arrival)
    {
      assert u in e.waiters;
      var k :| 0 <= k < |e.waiters| && e.waiters[k] == u;
      assert Before(e.waiters[0], e.waiters[k], e.flag, e.prio, e.arrival);
    }
  }
}

/** The semaphore as the kernel stores it. */
module SemaphoreObject {
  import opened Kernel
  import opened WaitQueue
  import opened SemaphoreModel

  class Semaphore {
    const flag: Flag
    const prio: seq<nat>
    var value: nat
    var waiters: seq<Tid>
    var pcs: seq<Pc>
    ghost var arrival: seq<nat>
    ghost var clock: nat

    ghost function Model(): State
      reads this
    {
      State(value, flag, prio, waiters, pcs, arrival, clock)
    }

    ghost predicate Valid()
      reads this
    {
      Inv(Model())
    }

    /** rt_sem_init; its assertion demands a value of at most sixteen bits. */
    constructor (value: nat, flag: Flag, prio: seq<nat>)
      requires value < 0x10000
      ensures Valid() && Init(Model())
      ensures this.value == value && this.flag == flag && this.prio == prio
    {
      this.value, this.flag, this.prio := value, flag, prio;
      waiters := [];
      pcs := seq(|prio|, _ => Idle(Nothing));
      arrival := seq(|prio|, _ => 0);
      clock := 0;
    }

    /** rt_sem_take up to its return or suspension. */
    method TakeOrWait(t: Tid, time: int)
      requires Valid() && Enabled(Model(), Take(t, time))
      modifies this
      ensures Model() == Step(old(Model()), Take(t, time))
      ensures Valid()
    {
      StepKeepsInv(Model(), Take(t, time));
      if value > 0 {
        value := value - 1;
        pcs := pcs[t := Idle(Done(EOK))];
      } else {
        if time == 0 {
          pcs := pcs[t := Idle(Done(ETIMEOUT))];
        } else {
          waiters := Enqueue(waiters, t, flag, prio);
          pcs := pcs[t := Waiting(time)];
          arrival, clock := arrival[t := clock], clock + 1;
        }
      }
    }

    /** rt_sem_release. */
    method Give(t: Tid)
      requires Valid() && Enabled(Model(), Release(t))
      modifies this
      ensures Model() == Step(old(Model()), Release(t))
      ensures Valid()
    {
      StepKeepsInv(Model(), Release(t));
      if waiters != [] {
        var w := waiters[0];
        waiters := waiters[1..];
        pcs := pcs[t := Idle(Done(EOK))][w := Woken(EOK)];
      } else {
        if value < UINT16_MAX {
          value := value + 1;
          pcs := pcs[t := Idle(Done(EOK))];
        } else {
          pcs := pcs[t := Idle(Done(EFULL))];
        }
      }
    }

    /** A woken thread returns from rt_sem_take. */
    method ReturnWoken(t: Tid)
      requires Valid() && Enabled(Model(), Resume(t))
      modifies this
      ensures Model() == Step(old(Model()), Resume(t))
      ensures Valid()
    {
      StepKeepsInv(Model(), Resume(t));
      pcs := pcs[t := Idle(Done(pcs[t].err))];
    }

    /** The timer of a suspended thread fires. */
    method TimerExpires(t: Tid)
      requires Valid() && Enabled(Model(), Expire(t))
      modifies this
      ensures Model() == Step(old(Model()), Expire(t))
      ensures Valid()
    {
      StepKeepsInv(Model(), Expire(t));
      waiters := Remove(waiters, t);
      pcs := pcs[t := Woken(ETIMEOUT)];
    }

    /** rt_sem_control with RT_IPC_CMD_RESET. */
    method ResetTo(newValue: nat)
      requires Valid()
      modifies this
      ensures Model() == Step(old(Model()), Reset(newValue))
      ensures Valid()
    {
      StepKeepsInv(Model(), Reset(newValue));
      ghost var before := pcs;
      while waiters != []
        invariant Known(waiters, |pcs|) && NoDup(waiters) && |pcs| == |before|
        invariant forall t: Tid :: t < |pcs| ==> (t in waiters ==> before[t].Waiting?)
        invariant forall t: Tid :: t < |pcs| ==>
          pcs[t] == if before[t].Waiting? && t !in waiters then Woken(ERROR) else before[t]
        invariant arrival == old(arrival) && clock == old(clock)
        decreases |waiters|
      {
        var w := waiters[0];
        assert w in waiters;
        waiters, pcs := waiters[1..], pcs[w := Woken(ERROR)];
      }
      assert pcs == ReleaseAll(before);
      value := newValue % (UINT16_MAX + 1);
    }
  }
}
