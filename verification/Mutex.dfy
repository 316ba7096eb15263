/**
 * The recursive mutex of rt-thread/src/ipc.c, with priority inheritance, as a transition system.
 * A smaller number is a more urgent priority.
 */
module MutexModel {
  import opened Kernel
  import opened WaitQueue

  datatype Outcome = Nothing | Done(err: Err)

  datatype Pc = Idle(last: Outcome) | Waiting(timeout: int) | Woken(err: Err)

  datatype Owner = Nobody | Owned(t: Tid)

  /**
   * `prio` is the current priority of every thread and `base` the one it was given; only the
   * mutex moves them apart. `base`, `arrival` and `clock` are a record that nothing reads.
   */
  datatype State = State(
    value: nat, hold: nat, owner: Owner, original: nat,
    waiters: seq<Tid>, pcs: seq<Pc>, prio: seq<nat>,
    base: seq<nat>, arrival: seq<nat>, clock: nat)

  datatype Event =
    | Take(t: Tid, time: int)
    | Release(t: Tid)
    | Resume(t: Tid)
    | Expire(t: Tid)

  predicate Suspended(pc: Pc) { pc.Waiting? }
  predicate Never(pc: Pc) { false }

  predicate Shape(s: State) {
    && |s.prio| == |s.base| == |s.arrival| == |s.pcs|
    && Known(s.waiters, |s.pcs|)
    && (s.owner.Owned? ==> s.owner.t < |s.pcs|)
    && (s.owner.Owned? <==> s.hold > 0)
    && (s.owner.Nobody? <==> s.value > 0)
    && s.value <= 1 && s.hold <= UINT8_MAX
  }

  predicate Enabled(s: State, ev: Event) {
    ev.t < |s.pcs| &&
    match ev
    case Resume(t) => s.pcs[t].Woken?
    case Expire(t) => s.pcs[t].Waiting? && s.pcs[t].timeout > 0
    case _ => s.pcs[ev.t].Idle?
  }

  function Return(s: State, t: Tid, err: Err): (s': State)
    requires Shape(s) && t < |s.pcs|
    ensures Shape(s')
  {
    s.(pcs := s.pcs[t := Idle(Done(err))])
  }

  /** A waiter that is more urgent than the owner lends it its priority. */
  function Boost(prio: seq<nat>, owner: Tid, t: Tid): (r: seq<nat>)
    requires owner < |prio| && t < |prio|
    ensures |r| == |prio|
  {
    if prio[t] < prio[owner] then prio[owner := prio[t]] else prio
  }

  function TakeStep(s: State, t: Tid, time: int): (s': State)
    requires Shape(s) && t < |s.pcs|
    ensures Shape(s')
  {
    if s.owner == Owned(t) then
      if s.hold < UINT8_MAX then Return(s, t, EOK).(hold := s.hold + 1) else Return(s, t, EFULL)
    else if s.value > 0 then
      Return(s, t, EOK).(value := 0, owner := Owned(t), original := s.prio[t], hold := 1)
    else if time == 0 then Return(s, t, ETIMEOUT)
    else
      var prio := Boost(s.prio, s.owner.t, t);
      s.(prio := prio, waiters := Enqueue(s.waiters, t, Prio, prio), pcs := s.pcs[t := Waiting(time)],
         arrival := s.arrival[t := s.clock], clock := s.clock + 1)
  }

  function ReleaseStep(s: State, t: Tid): (s': State)
    requires Shape(s) && t < |s.pcs|
    ensures Shape(s')
  {
    if s.owner != Owned(t) then Return(s, t, ERROR)
    else if s.hold > 1 then Return(s, t, EOK).(hold := s.hold - 1)
    else
      var prio := s.prio[t := s.original];
      if s.waiters == [] then
        Return(s, t, EOK).(prio := prio, value := 1, hold := 0, owner := Nobody, original := 0xFF)
      else
        var w := s.waiters[0];
        s.(prio := prio, owner := Owned(w), original := prio[w], hold := 1,
           waiters := s.waiters[1..], pcs := s.pcs[t := Idle(Done(EOK))][w := Woken(EOK)])
  }

  function Step(s: State, ev: Event): (s': State)
    requires Shape(s) && Enabled(s, ev)
    ensures Shape(s')
  {
    match ev
    case Take(t, time) => TakeStep(s, t, time)
    case Release(t) => ReleaseStep(s, t)
    case Resume(t) => Return(s, t, s.pcs[t].err)
    case Expire(t) =>
      s.(waiters := Remove(s.waiters, t), pcs := s.pcs[t := Woken(ETIMEOUT)])
  }

  /** The list holds the suspended threads, in priority order with ties in arrival order. */
  predicate Queued(s: State) {
    && Gate(s.waiters, s.value, s.pcs, Suspended, Never)
    && Ordered(s.waiters, Prio, s.prio, s.arrival)
    && forall i :: 0 <= i < |s.waiters| ==> s.arrival[s.waiters[i]] < s.clock
  }

  /** Every thread has its own priority, except an owner that has been lent a more urgent one. */
  predicate Inherits(s: State)
    requires Shape(s)
  {
    && (forall u: Tid :: u < |s.pcs| && s.owner != Owned(u) ==> s.prio[u] == s.base[u])
    && (s.owner.Owned? ==>
          && s.original == s.base[s.owner.t]
          && s.prio[s.owner.t] <= s.original
          && forall i :: 0 <= i < |s.waiters| ==> s.prio[s.owner.t] <= s.prio[s.waiters[i]])
  }

  /** The owner is not suspended, and a thread woken without an error is the owner. */
  predicate HandedOver(s: State)
    requires Shape(s)
  {
    && (s.owner.Owned? ==> !s.pcs[s.owner.t].Waiting?)
    && forall u: Tid :: u < |s.pcs| && s.pcs[u] == Woken(EOK) ==> s.owner == Owned(u) && s.hold == 1
  }

  predicate Inv(s: State) {
    Shape(s) && Queued(s) && Inherits(s) && HandedOver(s)
  }

  predicate Init(s: State) {
    && Shape(s) && s.owner.Nobody? && s.waiters == [] && s.prio == s.base
    && forall t: Tid :: t < |s.pcs| ==> s.pcs[t].Idle?
  }

  lemma ReturnKeepsInv(s: State, t: Tid, err: Err)
    requires Inv(s) && t < |s.pcs| && !s.pcs[t].Waiting?
    ensures Inv(Return(s, t, err))
  {
    GateProceed(s.waiters, s.value, s.pcs, Suspended, Never, t, Idle(Done(err)), s.value);
  }

  /** Suspending behind the owner, after it was lent the priority. */
  lemma WaitKeepsQueued(s: State, t: Tid, time: int)
    requires Inv(s) && t < |s.pcs| && s.pcs[t].Idle? && s.value == 0 && s.owner != Owned(t) && time != 0
    ensures Queued(TakeStep(s, t, time))
    ensures forall u :: u in TakeStep(s, t, time).waiters <==> u in s.waiters || u == t
  {
    var s' := TakeStep(s, t, time);
    var o := s.owner.t;
    assert t !in s.waiters && o !in s.waiters;
    OrderedElsewhere(s.waiters, Prio, s.prio, s.arrival, o, s'.prio[o]);
    assert s.prio[o := s'.prio[o]] == s'.prio;
    GateSuspend(s.waiters, s.pcs, Suspended, Never, t, Waiting(time), Prio, s'.prio);
    EnqueueOrdered(s.waiters, t, Prio, s'.prio, s.arrival, s.clock);
    EnqueueMembers(s.waiters, t, Prio, s'.prio);
    forall i | 0 <= i < |s'.waiters| ensures s'.arrival[s'.waiters[i]] < s'.clock {
      assert s'.waiters[i] in s'.waiters;
    }
  }

  lemma WaitKeepsInv(s: State, t: Tid, time: int)
    requires Inv(s) && t < |s.pcs| && s.pcs[t].Idle? && s.value == 0 && s.owner != Owned(t) && time != 0
    ensures Inv(TakeStep(s, t, time))
  {
    WaitKeepsQueued(s, t, time);
    var s' := TakeStep(s, t, time);
    var o := s.owner.t;
    forall i | 0 <= i < |s'.waiters| ensures s'.prio[o] <= s'.prio[s'.waiters[i]] {
      var u := s'.waiters[i];
      assert u in s'.waiters;
      if u in s.waiters {
        var k :| 0 <= k < |s.waiters| && s.waiters[k] == u;
        assert s.prio[o] <= s.prio[s.waiters[k]];
      }
    }
  }

  lemma TakeKeepsInv(s: State, t: Tid, time: int)
    requires Inv(s) && t < |s.pcs| && s.pcs[t].Idle?
    ensures Inv(TakeStep(s, t, time))
  {
    if s.owner == Owned(t) || s.value > 0 || time == 0 {
      CountNone(s.pcs, Never);
      GateProceed(s.waiters, s.value, s.pcs, Suspended, Never, t, TakeStep(s, t, time).pcs[t],
                  TakeStep(s, t, time).value);
    } else {
      WaitKeepsInv(s, t, time);
    }
  }

  /** A suspended thread leaves the list without an error or with one. */
  lemma LeaveKeepsQueued(s: State, t: Tid, y: Pc)
    requires Shape(s) && Queued(s) && t in s.waiters && t < |s.pcs| && !Suspended(y)
    ensures Queued(s.(waiters := Remove(s.waiters, t), pcs := s.pcs[t := y]))
    ensures forall u :: u in Remove(s.waiters, t) ==> u in s.waiters
  {
    GateExpire(s.waiters, s.value, s.pcs, Suspended, Never, t, y);
    RemoveOrdered(s.waiters, t, Prio, s.prio, s.arrival);
    RemoveMembers(s.waiters, t);
    var r := Remove(s.waiters, t);
    forall i | 0 <= i < |r| ensures s.arrival[r[i]] < s.clock { assert r[i] in s.waiters; }
  }

  lemma HandOverKeepsInv(s: State, t: Tid)
    requires Inv(s) && t < |s.pcs| && s.pcs[t].Idle?
    requires s.owner == Owned(t) && s.hold == 1 && s.waiters != []
    ensures Inv(ReleaseStep(s, t))
  {
    var s' := ReleaseStep(s, t);
    var w := s.waiters[0];
    assert w in s.waiters && t !in s.waiters;
    var pcs := s.pcs[t := Idle(Done(EOK))];
    GateProceed(s.waiters, 0, s.pcs, Suspended, Never, t, Idle(Done(EOK)), 0);
    OrderedElsewhere(s.waiters, Prio, s.prio, s.arrival, t, s.original);
    assert Remove(s.waiters, w) == s.waiters[1..];
    LeaveKeepsQueued(s.(prio := s'.prio, pcs := pcs), w, Woken(EOK));
    forall i | 0 <= i < |s'.waiters| ensures s'.prio[w] <= s'.prio[s'.waiters[i]] {
      assert Before(s.waiters[0], s.waiters[i + 1], Prio, s.prio, s.arrival);
      assert s.waiters[i + 1] in s.waiters;
    }
  }

  lemma FreeKeepsInv(s: State, t: Tid)
    requires Inv(s) && t < |s.pcs| && s.pcs[t].Idle?
    requires s.owner == Owned(t) && s.hold == 1 && s.waiters == []
    ensures Inv(ReleaseStep(s, t))
  {
  }

  lemma StepKeepsInv(s: State, ev: Event)
    requires Inv(s) && Enabled(s, ev)
    ensures Inv(Step(s, ev))
  {
    match ev
    case Take(t, time) => TakeKeepsInv(s, t, time);
    case Release(t) =>
      if s.owner != Owned(t) {
        ReturnKeepsInv(s, t, ERROR);
      } else if s.hold > 1 {
        ReturnKeepsInv(s, t, EOK);
      } else if s.waiters == [] {
        FreeKeepsInv(s, t);
      } else {
        HandOverKeepsInv(s, t);
      }
    case Resume(t) => ReturnKeepsInv(s, t, s.pcs[t].err);
    case Expire(t) =>
      LeaveKeepsQueued(s, t, Woken(ETIMEOUT));
      var s' := Step(s, ev);
      forall i | 0 <= i < |s'.waiters| && s.owner.Owned?
        ensures s.prio[s.owner.t] <= s.prio[s'.waiters[i]]
      {
        assert s'.waiters[i] in s.waiters;
        var k :| 0 <= k < |s.waiters| && s.waiters[k] == s'.waiters[i];
      }
  }

  predicate Runnable(s: State, evs: seq<Event>)
    requires Shape(s)
    decreases |evs|
  {
    evs == [] || (Enabled(s, evs[0]) && Runnable(Step(s, evs[0]), evs[1..]))
  }

  function Exec(s: State, evs: seq<Event>): (s': State)
    requires Shape(s) && Runnable(s, evs)
    ensures Shape(s')
    decreases |evs|
  {
    if evs == [] then s else Exec(Step(s, evs[0]), evs[1..])
  }

  lemma {:induction false} RunKeepsInv(s: State, evs: seq<Event>)
    requires Inv(s) && Runnable(s, evs)
    ensures Inv(Exec(s, evs)) && Exec(s, evs).base == s.base
    decreases |evs|
  {
    if evs != [] {
      StepKeepsInv(s, evs[0]);
      RunKeepsInv(Step(s, evs[0]), evs[1..]);
    }
  }

  /**
   * Priority inheritance with a single mutex, in every reachable state: the owner is at least as
   * urgent as it was when it acquired the mutex and as every suspended thread, every other
   * thread has the priority it started with, and the wait list is in priority order with ties
   * in arrival order.
   */
  lemma PriorityInheritance(s: State, evs: seq<Event>)
    requires Init(s) && Runnable(s, evs)
    ensures var e := Exec(s, evs);
            && |e.prio| == |s.prio|
            && (forall u: Tid :: u < |e.prio| && e.owner != Owned(u) ==> e.prio[u] == s.prio[u])
            && (e.owner.Owned? ==>
                  && e.original == s.prio[e.owner.t]
                  && e.prio[e.owner.t] <= e.original
                  && forall u: Tid :: u < |e.pcs| && e.pcs[u].Waiting? ==> e.prio[e.owner.t] <= e.prio[u])
            && Ordered(e.waiters, Prio, e.prio, e.arrival)
  {
    RunKeepsInv(s, evs);
    var e := Exec(s, evs);
    forall u: Tid | e.owner.Owned? && u < |e.pcs| && e.pcs[u].Waiting?
      ensures e.prio[e.owner.t] <= e.prio[u]
    {
      assert u in e.waiters;
      var k :| 0 <= k < |e.waiters| && e.waiters[k] == u;
    }
  }

  /** After the release that gives the mutex up, the thread is back at the priority it started with. */
  lemma ReleaseRestores(s: State, evs: seq<Event>, t: Tid)
    requires Init(s) && Runnable(s, evs) && Enabled(Exec(s, evs), Release(t))
    requires Exec(s, evs).owner == Owned(t) && Exec(s, evs).hold == 1
    ensures var e' := Step(Exec(s, evs), Release(t));
            e'.owner != Owned(t) && |e'.prio| == |s.prio| && e'.prio[t] == s.prio[t]
  {
    RunKeepsInv(s, evs);
    var e := Exec(s, evs);
    StepKeepsInv(e, Release(t));
    if e.waiters != [] { assert e.waiters[0] in e.waiters; }
  }

  /**
   * Ownership in every reachable state: the value is 1 exactly when nobody owns the mutex and
   * exactly when the hold count is 0, a free mutex has no suspended thread, and a thread that
   * was woken without an error already owns the mutex, once.
   */
  lemma Ownership(s: State, evs: seq<Event>)
    requires Init(s) && Runnable(s, evs)
    ensures var e := Exec(s, evs);
            && e.value <= 1
            && (e.value == 1 <==> e.owner.Nobody?) && (e.value == 1 <==> e.hold == 0)
            && (e.owner.Nobody? ==> forall u: Tid :: u < |e.pcs| ==> !e.pcs[u].Waiting?)
            && (forall u: Tid :: u < |e.pcs| && e.pcs[u] == Woken(EOK) ==> e.owner == Owned(u) && e.hold == 1)
  {
    RunKeepsInv(s, evs);
    CountNone(Exec(s, evs).pcs, Never);
  }

  /** How many times thread `t` holds the mutex. */
  function Holds(s: State, t: Tid): nat {
    if s.owner == Owned(t) then s.hold else 0
  }

  /** 1 when a take of thread `t` returns RT_EOK at once, or is woken with it. */
  function Acquired(s: State, ev: Event, t: Tid): nat
    requires Shape(s) && Enabled(s, ev)
  {
    var pcs' := Step(s, ev).pcs;
    if t >= |s.pcs| || t >= |pcs'| then 0
    else if ev.Take? && ev.t == t && pcs'[t] == Idle(Done(EOK)) then 1
    else if s.pcs[t].Waiting? && pcs'[t] == Woken(EOK) then 1
    else 0
  }

  /** 1 when the event is a release by `t` that returns RT_EOK. */
  function Released(s: State, ev: Event, t: Tid): nat
    requires Shape(s) && Enabled(s, ev)
  {
    var pcs' := Step(s, ev).pcs;
    if ev == Release(t) && t < |pcs'| && pcs'[t] == Idle(Done(EOK)) then 1 else 0
  }

  function AllAcquired(s: State, evs: seq<Event>, t: Tid): nat
    requires Shape(s) && Runnable(s, evs)
    decreases |evs|
  {
    if evs == [] then 0 else Acquired(s, evs[0], t) + AllAcquired(Step(s, evs[0]), evs[1..], t)
  }

  function AllReleased(s: State, evs: seq<Event>, t: Tid): nat
    requires Shape(s) && Runnable(s, evs)
    decreases |evs|
  {
    if evs == [] then 0 else Released(s, evs[0], t) + AllReleased(Step(s, evs[0]), evs[1..], t)
  }

  lemma StepCounts(s: State, ev: Event, t: Tid)
    requires Inv(s) && Enabled(s, ev)
    ensures Holds(Step(s, ev), t) + Released(s, ev, t) == Holds(s, t) + Acquired(s, ev, t)
  {
    if ev.Release? && s.waiters != [] {
      assert s.waiters[0] in s.waiters && s.pcs[s.waiters[0]].Waiting?;
    }
    assert s.owner.Owned? ==> !s.pcs[s.owner.t].Waiting?;
    StepCountsIn(s, ev, t);
  }

  lemma {:induction false} StepCountsIn(s: State, ev: Event, t: Tid)
    requires Shape(s) && Enabled(s, ev)
    requires s.owner.Owned? ==> !s.pcs[s.owner.t].Waiting?
    requires ev.Release? && s.waiters != [] ==> s.pcs[s.waiters[0]].Waiting?
    ensures Holds(Step(s, ev), t) + Released(s, ev, t) == Holds(s, t) + Acquired(s, ev, t)
  {
    match ev
    case Take(u, time) =>
    case Release(u) =>
    case _ =>
  }

  /** The hold count of a thread is the number of its takes that no release has matched yet. */
  lemma {:induction false} HoldCountsUnmatchedTakes(s: State, evs: seq<Event>, t: Tid)
    requires Inv(s) && Runnable(s, evs)
    ensures Holds(Exec(s, evs), t) + AllReleased(s, evs, t) == Holds(s, t) + AllAcquired(s, evs, t)
    decreases |evs|
  {
    if evs != [] {
      StepCounts(s, evs[0], t);
      StepKeepsInv(s, evs[0]);
      HoldCountsUnmatchedTakes(Step(s, evs[0]), evs[1..], t);
    }
  }
}

/** The mutex as the kernel stores it, and the priorities of the threads that use it. */
module MutexObject {
  import opened Kernel
  import opened WaitQueue
  import opened MutexModel

  class Mutex {
    var value: nat
    var hold: nat
    var owner: Owner
    var originalPriority: nat
    var waiters: seq<Tid>
    var pcs: seq<Pc>
    var prio: seq<nat>
    ghost const base: seq<nat>
    ghost var arrival: seq<nat>
    ghost var clock: nat

    ghost function Model(): State
      reads this
    {
      State(value, hold, owner, originalPriority, waiters, pcs, prio, base, arrival, clock)
    }

    ghost predicate Valid()
      reads this
    {
      Inv(Model())
    }

    /** rt_mutex_init; the flag argument is ignored, the list is always in priority order. */
    constructor (prio: seq<nat>)
      ensures Valid() && Init(Model()) && this.prio == prio
    {
      value, hold, owner, originalPriority := 1, 0, Nobody, 0xFF;
      waiters := [];
      pcs := seq(|prio|, _ => Idle(Nothing));
      this.prio, base := prio, prio;
      arrival := seq(|prio|, _ => 0);
      clock := 0;
    }

    /** rt_mutex_take up to its return or suspension. */
    method TakeOrWait(t: Tid, time: int)
      requires Valid() && Enabled(Model(), Take(t, time))
      modifies this
      ensures Model() == Step(old(Model()), Take(t, time))
      ensures t < |pcs| && (pcs[t] == Idle(Done(EOK)) <==> owner == Owned(t) && hold == old(Holds(Model(), t)) + 1)
      ensures pcs[t] == Idle(Done(ETIMEOUT)) <==> old(owner.Owned?) && old(owner) != Owned(t) && time == 0
      ensures Valid()
    {
      StepKeepsInv(Model(), Take(t, time));
      if owner == Owned(t) {
        if hold < UINT8_MAX {
          hold := hold + 1;
          pcs := pcs[t := Idle(Done(EOK))];
        } else {
          pcs := pcs[t := Idle(Done(EFULL))];
        }
      } else {
        if value > 0 {
          value := value - 1;
          owner := Owned(t);
          originalPriority := prio[t];
          if hold < UINT8_MAX {
            hold := hold + 1;
          } else {
            assert false;
          }
          pcs := pcs[t := Idle(Done(EOK))];
        } else {
          if time == 0 {
            pcs := pcs[t := Idle(Done(ETIMEOUT))];
          } else {
            BoostAndSuspend(t, time);
          }
        }
      }
    }

    /** Lending the owner the priority of a more urgent thread, and suspending that thread. */
    method BoostAndSuspend(t: Tid, time: int)
      requires Shape(Model()) && t < |pcs| && owner.Owned?
      modifies this`prio, this`waiters, this`pcs, this`arrival, this`clock
      ensures |prio| == |old(prio)| && prio == Boost(old(prio), owner.t, t)
      ensures waiters == Enqueue(old(waiters), t, Prio, prio) && pcs == old(pcs)[t := Waiting(time)]
      ensures arrival == old(arrival)[t := old(clock)] && clock == old(clock) + 1
    {
      if prio[t] < prio[owner.t] {
        prio := prio[owner.t := prio[t]];
      }
      waiters := Enqueue(waiters, t, Prio, prio);
      pcs := pcs[t := Waiting(time)];
      arrival, clock := arrival[t := clock], clock + 1;
    }

    /** rt_mutex_release. */
    method Give(t: Tid)
      requires Valid() && Enabled(Model(), Release(t))
      modifies this
      ensures Model() == Step(old(Model()), Release(t))
      ensures Valid()
    {
      StepKeepsInv(Model(), Release(t));
      if owner != Owned(t) {
        pcs := pcs[t := Idle(Done(ERROR))];
        return;
      }
      hold := hold - 1;
      pcs := pcs[t := Idle(Done(EOK))];
      if hold == 0 {
        if originalPriority != prio[owner.t] {
          prio := prio[owner.t := originalPriority];
        }
        PassOn();
      }
    }

    /** After the last release: the first suspended thread becomes the owner, or nobody does. */
    method PassOn()
      requires |pcs| == |prio| && Known(waiters, |prio|) && hold == 0 && value == 0
      modifies this`value, this`hold, this`owner, this`originalPriority, this`waiters, this`pcs
      ensures old(waiters) == [] ==>
        && value == 1 && hold == 0 && owner == Nobody && originalPriority == 0xFF
        && waiters == [] && pcs == old(pcs)
      ensures old(waiters) != [] ==>
        var w := old(waiters)[0];
        && value == 0 && hold == 1 && owner == Owned(w) && originalPriority == prio[w]
        && waiters == old(waiters)[1..] && pcs == old(pcs)[w := Woken(EOK)]
    {
      if waiters != [] {
        var w := waiters[0];
        owner := Owned(w);
        originalPriority := prio[w];
        if hold < UINT8_MAX {
          hold := hold + 1;
        } else {
          assert false;
        }
        waiters, pcs := waiters[1..], pcs[w := Woken(EOK)];
      } else {
        if value < UINT16_MAX {
          value := value + 1;
        } else {
          assert false;
        }
        owner := Nobody;
        originalPriority := 0xFF;
      }
    }

    /** A woken thread returns from rt_mutex_take; without an error it is the owner. */
    method ReturnWoken(t: Tid)
      requires Valid() && Enabled(Model(), Resume(t))
      modifies this`pcs
      ensures Model() == Step(old(Model()), Resume(t))
      ensures Valid()
      ensures pcs[t] == Idle(Done(EOK)) ==> owner == Owned(t)
    {
      StepKeepsInv(Model(), Resume(t));
      pcs := pcs[t := Idle(Done(pcs[t].err))];
    }

    /** The timer of a suspended thread fires. */
    method TimerExpires(t: Tid)
      requires Valid() && Enabled(Model(), Expire(t))
      modifies this
      ensures Model() == Step(old(Model()), Expire(t))
      ensures Valid()
    {
      StepKeepsInv(Model(), Expire(t));
      waiters := Remove(waiters, t);
      pcs := pcs[t := Woken(ETIMEOUT)];
    }
  }
}
