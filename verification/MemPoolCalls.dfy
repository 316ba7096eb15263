/**
 * What a thread gets from the memory pool of rt-thread/src/mempool.c, told from its own call and
 * from the order of the events.
 */
module MemPoolCalls {
  import opened Kernel
  import opened WaitQueue
  import opened History
  import opened MemPoolModel

  /** The thread an event is about. */
  function Who(ev: Event): int { ev.t }

  /** The thread that makes a call with this event, or -1. */
  function Caller(ev: Event): int {
    if ev.Alloc? || ev.Free? then ev.t else -1
  }

  function Ticks(ev: Event): nat {
    if ev.Resume? then ev.elapsed else 0
  }

  predicate Fires(ev: Event) { ev.Expire? }

  /** The last that happened to the thread is that its timer fired. */
  predicate Expired(evs: seq<Event>, t: Tid) { EndsWith(evs, Who, Fires, t) }

  /** What is left of the waiting time `timeout` of the last call. */
  function Left(evs: seq<Event>, t: Tid, timeout: int): int {
    TimeLeft(timeout, Elapsed(evs, Caller, Who, Ticks, t))
  }

  lemma {:induction false} Append(evs: seq<Event>, ev: Event, t: Tid)
    ensures InCall(evs + [ev], Caller, t) <==> Caller(ev) == t || InCall(evs, Caller, t)
    ensures InCall(evs + [ev], Caller, t) ==>
              Call(evs + [ev], Caller, t) == if Caller(ev) == t then ev else Call(evs, Caller, t)
    ensures forall timeout ::
              Left(evs + [ev], t, timeout) ==
                if Caller(ev) == t then timeout
                else if Who(ev) == t && ev.Resume? then Remaining(Left(evs, t, timeout), ev.elapsed)
                else Left(evs, t, timeout)
    ensures Expired(evs + [ev], t) <==> if Who(ev) == t then ev.Expire? else Expired(evs, t)
    ensures LastBy(evs + [ev], Who, t) == if Who(ev) == t then |evs| else LastBy(evs, Who, t)
  {
    CallAppend(evs, ev, Caller, t);
    EndsWithAppend(evs, ev, Who, Fires, t);
    ElapsedAppend(evs, ev, Caller, Who, Ticks, t);
    LastByAppend(evs, ev, Who, t);
  }

  /** The thread waits, or waited until it was woken, with so much time left of its allocation. */
  predicate InAlloc(evs: seq<Event>, t: Tid, timeout: int) {
    && InCall(evs, Caller, t) && Call(evs, Caller, t).Alloc?
    && timeout == Left(evs, t, Call(evs, Caller, t).time) != 0
  }

  /** What a suspended or woken thread carries belongs to its last call. */
  predicate Remembered(pc: Pc, evs: seq<Event>, t: Tid) {
    match pc
    case Idle(_) => true
    case Waiting(timeout) => InAlloc(evs, t, timeout) && !Expired(evs, t)
    case Woken(timeout, err) =>
      InAlloc(evs, t, timeout) && err == if Expired(evs, t) then ETIMEOUT else EOK
  }

  /** `t` was suspended after `u`. */
  predicate Newer(evs: seq<Event>, t: Tid, u: Tid) {
    LastBy(evs, Who, t) > LastBy(evs, Who, u)
  }

  predicate NewestFirst(q: seq<Tid>, evs: seq<Event>) {
    forall i, j :: 0 <= i < j < |q| ==> Newer(evs, q[i], q[j])
  }

  predicate Remembers(s: State, evs: seq<Event>) {
    && (forall t: Tid :: t < |s.pcs| ==> Remembered(s.pcs[t], evs, t))
    && NewestFirst(s.waiters, evs)
  }

  /** What an event does to the threads that it is not about. */
  lemma {:induction false} OthersStep(s: State, ev: Event, t: Tid)
    requires Shape(s) && Enabled(s, ev) && t < |s.pcs| && ev.t != t
    ensures var pc, pc' := s.pcs[t], Step(s, ev).pcs[t];
            pc' == pc || pc' == WokenPc(pc, EOK)
  {
  }

  lemma {:induction false} PcsRemember(s: State, evs: seq<Event>, ev: Event, t: Tid)
    requires Inv(s) && Remembers(s, evs) && Enabled(s, ev) && t < |s.pcs|
    ensures Remembered(Step(s, ev).pcs[t], evs + [ev], t)
  {
    assert Remembered(s.pcs[t], evs, t) && (t in s.waiters <==> s.pcs[t].Waiting?);
    Append(evs, ev, t);
    if ev.t != t { OthersStep(s, ev, t); }
  }

  lemma {:induction false} StayNewest(q: seq<Tid>, evs: seq<Event>, ev: Event)
    requires NewestFirst(q, evs) && ev.t !in q
    ensures NewestFirst(q, evs + [ev])
  {
    forall i, j | 0 <= i < j < |q| ensures Newer(evs + [ev], q[i], q[j]) {
      LastByAppend(evs, ev, Who, q[i]);
      LastByAppend(evs, ev, Who, q[j]);
    }
  }

  lemma {:induction false} JoinNewest(q: seq<Tid>, evs: seq<Event>, ev: Event)
    requires NewestFirst(q, evs) && ev.t !in q
    ensures NewestFirst([ev.t] + q, evs + [ev])
  {
    StayNewest(q, evs, ev);
    var r := [ev.t] + q;
    forall i, j | 0 <= i < j < |r| ensures Newer(evs + [ev], r[i], r[j]) {
      LastByAppend(evs, ev, Who, r[i]);
      LastByAppend(evs, ev, Who, r[j]);
      if i > 0 { assert Newer(evs + [ev], q[i - 1], q[j - 1]); }
    }
  }

  lemma {:induction false} LeaveNewest(q: seq<Tid>, evs: seq<Event>, ev: Event)
    requires NewestFirst(q, evs) && NoDup(q) && ev.t in q
    ensures NewestFirst(Remove(q, ev.t), evs + [ev])
  {
    var k := RemoveAt(q, ev.t);
    RemoveMembers(q, ev.t);
    var r := Remove(q, ev.t);
    forall i, j | 0 <= i < j < |r| ensures Newer(evs, r[i], r[j]) {
      assert Newer(evs, q[if i < k then i else i + 1], q[if j < k then j else j + 1]);
    }
    StayNewest(r, evs, ev);
  }

  lemma {:induction false} ListNewest(s: State, evs: seq<Event>, ev: Event)
    requires Inv(s) && NewestFirst(s.waiters, evs) && Enabled(s, ev)
    ensures NewestFirst(Step(s, ev).waiters, evs + [ev])
  {
    assert ev.t in s.waiters <==> s.pcs[ev.t].Waiting?;
    if ev.Expire? {
      LeaveNewest(s.waiters, evs, ev);
    } else {
      JoinNewest(s.waiters, evs, ev);
      StayNewest(s.waiters, evs, ev);
      if s.waiters != [] { StayNewest(s.waiters[1..], evs, ev); }
    }
  }

  lemma {:induction false} StepRemembers(s: State, evs: seq<Event>, ev: Event)
    requires Inv(s) && Remembers(s, evs) && Enabled(s, ev)
    ensures Remembers(Step(s, ev), evs + [ev])
  {
    forall t: Tid | t < |s.pcs| ensures Remembered(Step(s, ev).pcs[t], evs + [ev], t) {
      PcsRemember(s, evs, ev, t);
    }
    ListNewest(s, evs, ev);
  }

  /** One event keeps the invariant and what is remembered. */
  lemma {:induction false} KeptBy(s: State, past: seq<Event>, ev: Event) returns (s1: State)
    requires Inv(s) && Remembers(s, past) && Enabled(s, ev)
    ensures s1 == Step(s, ev) && Inv(s1) && Remembers(s1, past + [ev])
  {
    StepKeepsInv(s, ev);
    StepRemembers(s, past, ev);
    s1 := Step(s, ev);
  }

  /** The first step of a run that `past` came before; `all` is what happened before and in it. */
  lemma {:induction false} FirstStep(s: State, past: seq<Event>, evs: seq<Event>, all: seq<Event>)
    returns (s1: State, past1: seq<Event>, rest: seq<Event>)
    requires Inv(s) && Remembers(s, past) && Runnable(s, evs) && evs != [] && all == past + evs
    ensures Inv(s1) && Remembers(s1, past1)
    ensures Runnable(s1, rest) && Exec(s, evs) == Exec(s1, rest)
    ensures all == past1 + rest && |rest| < |evs|
  {
    s1 := KeptBy(s, past, evs[0]);
    past1, rest := past + [evs[0]], evs[1..];
    Advance(past, evs, all);
  }

  lemma {:induction false} RunRemembers(s: State, past: seq<Event>, evs: seq<Event>, all: seq<Event>) returns (e: State)
    requires Inv(s) && Remembers(s, past) && Runnable(s, evs) && all == past + evs
    ensures e == Exec(s, evs) && Inv(e) && Remembers(e, all)
    decreases |evs|
  {
    if evs == [] {
      assert all == past;
      e := s;
    } else {
      var s1, past1, rest := FirstStep(s, past, evs, all);
      e := RunRemembers(s1, past1, rest, all);
    }
  }

  lemma {:induction false} Reached(s: State, evs: seq<Event>) returns (e: State)
    requires Init(s) && Runnable(s, evs)
    ensures e == Exec(s, evs) && Inv(e) && Remembers(e, evs)
  {
    e := RunRemembers(s, [], evs, evs);
  }

  /**
   * What event `ev`, in which a thread runs in its call, does to state `e`. An allocation gets
   * the block that was freed last, exactly when there is one and its timer has not fired; it
   * fails exactly when its timer fired or no waiting time is left, and otherwise waits on.
   */
  predicate Answered(e: State, evs: seq<Event>, ev: Event)
    requires Shape(e) && Enabled(e, ev) && !ev.Expire?
  {
    var h, t, e' := evs + [ev], ev.t, Step(e, ev);
    var pc', fired := e'.pcs[t], ev.Resume? && Expired(evs, t);
    && InCall(h, Caller, t)
    && match Call(h, Caller, t)
       case Alloc(_, time) =>
         && (pc'.Idle? && pc'.last.Got? <==> !fired && e.free != [])
         && (!fired && e.free != [] ==>
               pc' == Idle(Got(e.free[0])) && e'.free == e.free[1..] && e'.used == e.used + {e.free[0]})
         && (fired || e.free == [] ==> e'.free == e.free && e'.used == e.used)
         && (pc' == Idle(Null) <==> fired || (e.free == [] && Left(h, t, time) == 0))
         && (pc'.Waiting? <==> !fired && e.free == [] && Left(h, t, time) != 0)
       case Free(_, block) =>
         pc' == Idle(Nothing) && e'.free == [block] + e.free && e'.used == e.used - {block}
  }

  /** In every reachable state a call does what its arguments say, whether or not it had to wait. */
  lemma {:induction false} Answers(s: State, evs: seq<Event>, ev: Event)
    requires Init(s) && Runnable(s, evs) && Enabled(Exec(s, evs), ev) && !ev.Expire?
    ensures Answered(Exec(s, evs), evs, ev)
  {
    var e := Reached(s, evs);
    assert Remembered(e.pcs[ev.t], evs, ev.t) && (ev.t in e.waiters <==> e.pcs[ev.t].Waiting?);
    StepAnswered(e, evs, ev);
  }

  lemma {:induction false} StepAnswered(e: State, evs: seq<Event>, ev: Event)
    requires Shape(e) && Enabled(e, ev) && !ev.Expire?
    requires Remembered(e.pcs[ev.t], evs, ev.t) && (ev.t in e.waiters ==> e.pcs[ev.t].Waiting?)
    ensures Answered(e, evs, ev)
  {
    Append(evs, ev, ev.t);
  }

  /** `t` is suspended and was suspended after all others. */
  predicate IsNewest(t: Tid, pcs: seq<Pc>, evs: seq<Event>) {
    && t < |pcs| && pcs[t].Waiting?
    && forall u: Tid :: u < |pcs| && u != t && pcs[u].Waiting? ==> Newer(evs, t, u)
  }

  /**
   * Who is woken in any reachable state. A suspended thread is woken with an error by its own
   * timer, and without one exactly when it is the newest and a block is freed. No other thread
   * is touched by an event that is not its own.
   */
  lemma {:induction false} WakesTheNewest(s: State, evs: seq<Event>, ev: Event, u: Tid)
    requires Init(s) && Runnable(s, evs) && Enabled(Exec(s, evs), ev)
    requires u < |Exec(s, evs).pcs| && (ev.t == u ==> ev.Expire?)
    ensures var e := Exec(s, evs);
            var e', pc := Step(e, ev), e.pcs[u];
            && |e'.pcs| == |e.pcs|
            && e'.pcs[u] ==
                 if ev.t == u then Woken(pc.timeout, ETIMEOUT)
                 else if ev.Free? && IsNewest(u, e.pcs, evs) then Woken(pc.timeout, EOK)
                 else pc
  {
    var e := Reached(s, evs);
    assert u in e.waiters <==> e.pcs[u].Waiting?;
    NewestIsFirst(e, evs, u);
  }

  lemma {:induction false} NewestIsFirst(e: State, evs: seq<Event>, u: Tid)
    requires Inv(e) && NewestFirst(e.waiters, evs)
    ensures IsNewest(u, e.pcs, evs) <==> e.waiters != [] && u == e.waiters[0]
  {
    if e.waiters != [] {
      var w := e.waiters[0];
      assert w in e.waiters && e.pcs[w].Waiting?;
      forall t: Tid | t < |e.pcs| && t != w && e.pcs[t].Waiting? ensures Newer(evs, w, t) {
        assert t in e.waiters;
        var j :| 0 <= j < |e.waiters| && e.waiters[j] == t;
      }
    } else if u < |e.pcs| {
      assert u !in e.waiters;
    }
  }

  /** In every reachable state the suspended threads are listed from the newest to the oldest. */
  lemma {:induction false} ListedNewestFirst(s: State, evs: seq<Event>)
    requires Init(s) && Runnable(s, evs)
    ensures NewestFirst(Exec(s, evs).waiters, evs)
  {
    var e := Reached(s, evs);
  }
}
