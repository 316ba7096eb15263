/**
 * What a thread gets from the semaphore of rt-thread/src/ipc.c, told from its own call and from
 * the order of the events.
 */
module SemaphoreCalls {
  import opened Kernel
  import opened WaitQueue
  import opened History
  import opened SemaphoreModel

  /** The thread an event is about, or -1. */
  function Who(ev: Event): int {
    if ev.Reset? then -1 else ev.t
  }

  /** The thread that makes a call with this event, or -1. */
  function Caller(ev: Event): int {
    if ev.Take? || ev.Release? then ev.t else -1
  }

  /** The thread runs in this event. */
  predicate Runs(ev: Event) { !ev.Expire? && !ev.Reset? }

  predicate Fires(ev: Event) { ev.Expire? }

  /** The last that happened to the thread is that its timer fired. */
  predicate Expired(evs: seq<Event>, t: Tid) { EndsWith(evs, Who, Fires, t) }

  lemma {:induction false} Append(evs: seq<Event>, ev: Event, t: Tid)
    ensures InCall(evs + [ev], Caller, t) <==> Caller(ev) == t || InCall(evs, Caller, t)
    ensures InCall(evs + [ev], Caller, t) ==>
              Call(evs + [ev], Caller, t) == if Caller(ev) == t then ev else Call(evs, Caller, t)
    ensures Expired(evs + [ev], t) <==> if Who(ev) == t then ev.Expire? else Expired(evs, t)
    ensures LastBy(evs + [ev], Who, t) == if Who(ev) == t then |evs| else LastBy(evs, Who, t)
  {
    CallAppend(evs, ev, Caller, t);
    EndsWithAppend(evs, ev, Who, Fires, t);
    LastByAppend(evs, ev, Who, t);
  }

  /** What a suspended or woken thread carries belongs to its last call. */
  predicate Remembered(pc: Pc, evs: seq<Event>, t: Tid) {
    match pc
    case Idle(_) => true
    case Waiting(timeout) =>
      InCall(evs, Caller, t) && Call(evs, Caller, t) == Take(t, timeout) && timeout != 0 && !Expired(evs, t)
    case Woken(err) =>
      && InCall(evs, Caller, t) && Call(evs, Caller, t).Take? && Call(evs, Caller, t).time != 0
      && err != EFULL && (err == ETIMEOUT <==> Expired(evs, t))
  }

  /** The list is in its promised order, with arrival times read off the events. */
  predicate Remembers(s: State, evs: seq<Event>) {
    && |s.prio| == |s.pcs|
    && (forall t: Tid :: t < |s.pcs| ==> Remembered(s.pcs[t], evs, t))
    && InOrder(s.waiters, s.flag, s.prio, evs, Who)
  }

  /** What an event does to the threads that it is not about. */
  lemma {:induction false} OthersStep(s: State, ev: Event, t: Tid)
    requires Shape(s) && Enabled(s, ev) && t < |s.pcs| && Who(ev) != t
    ensures var pc, pc' := s.pcs[t], Step(s, ev).pcs[t];
            pc' == pc || (ev.Release? && t in s.waiters && pc' == Woken(EOK)) || (pc.Waiting? && pc' == Woken(ERROR))
  {
  }

  lemma {:induction false} PcsRemember(s: State, evs: seq<Event>, ev: Event, t: Tid)
    requires Inv(s) && Remembers(s, evs) && Enabled(s, ev) && t < |s.pcs|
    ensures Remembered(Step(s, ev).pcs[t], evs + [ev], t)
  {
    assert Remembered(s.pcs[t], evs, t) && (t in s.waiters <==> s.pcs[t].Waiting?);
    Append(evs, ev, t);
    if Who(ev) != t { OthersStep(s, ev, t); }
  }

  lemma {:induction false} ListSteps(s: State, ev: Event)
    requires Inv(s) && Enabled(s, ev)
    ensures ListStep(s.waiters, Step(s, ev).waiters, Who(ev), s.flag, s.prio)
    ensures Step(s, ev).flag == s.flag && Step(s, ev).prio == s.prio
  {
    if !ev.Reset? { assert ev.t in s.waiters <==> s.pcs[ev.t].Waiting?; }
  }

  lemma {:induction false} StepRemembers(s: State, evs: seq<Event>, ev: Event)
    requires Inv(s) && Remembers(s, evs) && Enabled(s, ev)
    ensures Remembers(Step(s, ev), evs + [ev])
  {
    forall t: Tid | t < |s.pcs| ensures Remembered(Step(s, ev).pcs[t], evs + [ev], t) {
      PcsRemember(s, evs, ev, t);
    }
    ListSteps(s, ev);
    ListInOrder(s.waiters, Step(s, ev).waiters, s.flag, s.prio, evs, Who, ev);
  }

  /** One event keeps the invariant and what is remembered. */
  lemma {:induction false} KeptBy(s: State, past: seq<Event>, ev: Event) returns (s1: State)
    requires Inv(s) && Remembers(s, past) && Enabled(s, ev)
    ensures s1 == Step(s, ev) && Inv(s1) && Remembers(s1, past + [ev])
  {
    StepKeepsInv(s, ev);
    StepRemembers(s, past, ev);
    s1 := Step(s, ev);
  }

  /** The first step of a run that `past` came before; `all` is what happened before and in it. */
  lemma {:induction false} FirstStep(s: State, past: seq<Event>, evs: seq<Event>, all: seq<Event>)
    returns (s1: State, past1: seq<Event>, rest: seq<Event>)
    requires Inv(s) && Remembers(s, past) && Runnable(s, evs) && evs != [] && all == past + evs
    ensures Inv(s1) && Remembers(s1, past1)
    ensures Runnable(s1, rest) && Exec(s, evs) == Exec(s1, rest)
    ensures all == past1 + rest && |rest| < |evs|
  {
    s1 := KeptBy(s, past, evs[0]);
    past1, rest := past + [evs[0]], evs[1..];
    Advance(past, evs, all);
  }

  lemma {:induction false} RunRemembers(s: State, past: seq<Event>, evs: seq<Event>, all: seq<Event>) returns (e: State)
    requires Inv(s) && Remembers(s, past) && Runnable(s, evs) && all == past + evs
    ensures e == Exec(s, evs) && Inv(e) && Remembers(e, all)
    decreases |evs|
  {
    if evs == [] {
      assert all == past;
      e := s;
    } else {
      var s1, past1, rest := FirstStep(s, past, evs, all);
      e := RunRemembers(s1, past1, rest, all);
    }
  }

  lemma {:induction false} Reached(s: State, evs: seq<Event>) returns (e: State)
    requires Init(s) && Runnable(s, evs)
    ensures e == Exec(s, evs) && Inv(e) && Remembers(e, evs)
  {
    e := RunRemembers(s, [], evs, evs);
  }

  /** Somebody is suspended. */
  predicate SomebodyWaits(s: State) {
    exists u: Tid :: u < |s.pcs| && s.pcs[u].Waiting?
  }

  /**
   * What event `ev`, in which a thread runs in its call, does to state `e`. A take returns at
   * once exactly when there is a unit, which it takes, or when it does not want to wait. A
   * release adds a unit exactly when nobody waits, and fails exactly when the value then is at
   * its maximum. A take that had to wait fails for the time exactly when its timer fired.
   */
  predicate Answered(e: State, evs: seq<Event>, ev: Event)
    requires Shape(e) && Enabled(e, ev) && Runs(ev)
  {
    var h, t, e' := evs + [ev], ev.t, Step(e, ev);
    var pc' := e'.pcs[t];
    && InCall(h, Caller, t)
    && match Call(h, Caller, t)
       case Take(_, time) =>
         if ev.Resume? then
           && e'.value == e.value && pc' == Idle(Done(e.pcs[t].err)) && time != 0
           && (pc' == Idle(Done(ETIMEOUT)) <==> Expired(evs, t))
         else
           && (pc' == Idle(Done(EOK)) <==> e.value > 0)
           && e'.value == (if pc' == Idle(Done(EOK)) then e.value - 1 else e.value)
           && (pc' == Idle(Done(ETIMEOUT)) <==> e.value == 0 && time == 0)
           && (pc' == Waiting(time) <==> e.value == 0 && time != 0)
       case Release(_) =>
         && pc' == Idle(Done(if SomebodyWaits(e) || e.value < 0xFFFF then EOK else EFULL))
         && e'.value == if !SomebodyWaits(e) && e.value < 0xFFFF then e.value + 1 else e.value
  }

  /** In every reachable state a call does what its arguments say, whether or not it had to wait. */
  lemma {:induction false} Answers(s: State, evs: seq<Event>, ev: Event)
    requires Init(s) && Runnable(s, evs) && Enabled(Exec(s, evs), ev) && Runs(ev)
    ensures Answered(Exec(s, evs), evs, ev)
  {
    var e := Reached(s, evs);
    SomebodyListed(e);
    assert Remembered(e.pcs[ev.t], evs, ev.t) && (ev.t in e.waiters <==> e.pcs[ev.t].Waiting?);
    StepAnswered(e, evs, ev);
  }

  lemma {:induction false} StepAnswered(e: State, evs: seq<Event>, ev: Event)
    requires Shape(e) && Enabled(e, ev) && Runs(ev) && (SomebodyWaits(e) <==> e.waiters != [])
    requires Remembered(e.pcs[ev.t], evs, ev.t) && (ev.t in e.waiters ==> e.pcs[ev.t].Waiting?)
    ensures Answered(e, evs, ev)
  {
    Append(evs, ev, ev.t);
  }

  lemma {:induction false} SomebodyListed(e: State)
    requires Inv(e)
    ensures SomebodyWaits(e) <==> e.waiters != []
  {
    if e.waiters != [] { assert e.waiters[0] in e.waiters; }
  }

  /**
   * Who is woken in any reachable state. A suspended thread is woken with an error by its own
   * timer and by a reset, and without one exactly when it comes before all others and somebody
   * releases. No other thread is touched by an event that is not its own. A reset sets the value
   * to the low sixteen bits of the one given.
   */
  lemma {:induction false} WakesTheFirst(s: State, evs: seq<Event>, ev: Event, u: Tid)
    requires Init(s) && Runnable(s, evs) && Enabled(Exec(s, evs), ev)
    requires u < |Exec(s, evs).pcs| && !(Runs(ev) && ev.t == u)
    ensures var e := Exec(s, evs);
            var e', pc := Step(e, ev), e.pcs[u];
            && |e'.pcs| == |e.pcs|
            && e'.pcs[u] == (if ev.Expire? && ev.t == u then Woken(ETIMEOUT)
                             else if ev.Reset? && pc.Waiting? then Woken(ERROR)
                             else if ev.Release? && ComesFirst(u, e.pcs, Suspended, e.flag, e.prio, evs, Who)
                             then Woken(EOK)
                             else pc)
            && (ev.Reset? ==> e'.value == ev.value % 0x1_0000 && e'.waiters == [])
  {
    var e := Reached(s, evs);
    FirstComesFirst(e.waiters, e.value, e.pcs, Suspended, Never, e.flag, e.prio, evs, Who);
  }
}
