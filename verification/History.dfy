/** What the events of a run say by themselves, without looking at the state they lead to. */
module History {
  import opened Kernel
  import opened WaitQueue

  /** The place of the last event that `who` ascribes to `t`, or -1 when there is none. */
  function LastBy<E>(evs: seq<E>, who: E -> int, t: int): (k: int)
    ensures -1 <= k < |evs|
    ensures k >= 0 ==> who(evs[k]) == t
    ensures forall i :: k < i < |evs| ==> who(evs[i]) != t
  {
    if evs == [] then -1
    else if who(evs[|evs| - 1]) == t then |evs| - 1
    else LastBy(evs[..|evs| - 1], who, t)
  }

  lemma {:induction false} LastByAppend<E>(evs: seq<E>, ev: E, who: E -> int, t: int)
    ensures LastBy(evs + [ev], who, t) == if who(ev) == t then |evs| else LastBy(evs, who, t)
  {
    assert (evs + [ev])[..|evs|] == evs;
  }

  /** Thread `t` has made a call. */
  predicate InCall<E>(evs: seq<E>, caller: E -> int, t: Tid) {
    LastBy(evs, caller, t) >= 0
  }

  /** The last call of thread `t`. */
  function Call<E>(evs: seq<E>, caller: E -> int, t: Tid): (c: E)
    requires InCall(evs, caller, t)
    ensures caller(c) == t
  {
    evs[LastBy(evs, caller, t)]
  }

  /** The last event about thread `t` is of the given kind. */
  predicate EndsWith<E>(evs: seq<E>, who: E -> int, kind: E -> bool, t: Tid) {
    var k := LastBy(evs, who, t);
    k >= 0 && kind(evs[k])
  }

  /** The ticks that the events about thread `t` add up to since its last call. */
  function Elapsed<E>(evs: seq<E>, caller: E -> int, who: E -> int, ticks: E -> nat, t: Tid): nat {
    if evs == [] then 0
    else
      var ev := evs[|evs| - 1];
      if caller(ev) == t then 0
      else Elapsed(evs[..|evs| - 1], caller, who, ticks, t) + if who(ev) == t then ticks(ev) else 0
  }

  /** The waiting time that is left after all these ticks; a negative one never runs out. */
  function TimeLeft(timeout: int, elapsed: nat): int {
    if timeout > 0 && timeout > elapsed then timeout - elapsed else if timeout > 0 then 0 else timeout
  }

  lemma {:induction false} CallAppend<E>(evs: seq<E>, ev: E, caller: E -> int, t: Tid)
    ensures InCall(evs + [ev], caller, t) <==> caller(ev) == t || InCall(evs, caller, t)
    ensures InCall(evs + [ev], caller, t) ==>
              Call(evs + [ev], caller, t) == if caller(ev) == t then ev else Call(evs, caller, t)
  {
    LastByAppend(evs, ev, caller, t);
  }

  lemma {:induction false} EndsWithAppend<E>(evs: seq<E>, ev: E, who: E -> int, kind: E -> bool, t: Tid)
    ensures EndsWith(evs + [ev], who, kind, t) <==> if who(ev) == t then kind(ev) else EndsWith(evs, who, kind, t)
  {
    LastByAppend(evs, ev, who, t);
  }

  lemma {:induction false} ElapsedAppend<E>(evs: seq<E>, ev: E, caller: E -> int, who: E -> int, ticks: E -> nat,
                                            t: Tid)
    ensures Elapsed(evs + [ev], caller, who, ticks, t)
         == if caller(ev) == t then 0
            else Elapsed(evs, caller, who, ticks, t) + if who(ev) == t then ticks(ev) else 0
  {
    assert (evs + [ev])[..|evs|] == evs;
  }

  /** The first event of a run joins what happened before. */
  lemma Advance<E>(past: seq<E>, evs: seq<E>, all: seq<E>)
    requires all == past + evs && evs != []
    ensures all == (past + [evs[0]]) + evs[1..]
  {
  }

  /** When each thread last did something, or had something done to it, counted in events. */
  function Arrivals<E>(evs: seq<E>, who: E -> int, n: nat): (a: seq<nat>)
    ensures |a| == n && forall t: Tid :: t < n ==> a[t] == LastBy(evs, who, t) + 1 <= |evs|
  {
    seq(n, t => LastBy(evs, who, t) + 1)
  }

  lemma {:induction false} ArrivalsAppend<E>(evs: seq<E>, ev: E, who: E -> int, n: nat)
    ensures Arrivals(evs + [ev], who, n)
         == if 0 <= who(ev) < n then Arrivals(evs, who, n)[who(ev) := |evs| + 1] else Arrivals(evs, who, n)
  {
    forall t: Tid | t < n { LastByAppend(evs, ev, who, t); }
  }

  /** A list in its promised order, with the arrival times read off the events. */
  predicate InOrder<E>(q: seq<Tid>, flag: Flag, prio: seq<nat>, evs: seq<E>, who: E -> int) {
    Ordered(q, flag, prio, Arrivals(evs, who, |prio|))
  }

  /** The thread of an event joins a list in which it is not: it arrives last. */
  lemma {:induction false} JoinInOrder<E>(q: seq<Tid>, flag: Flag, prio: seq<nat>, evs: seq<E>, who: E -> int,
                                          ev: E, t: Tid)
    requires InOrder(q, flag, prio, evs, who) && who(ev) == t < |prio| && t !in q
    ensures InOrder(Enqueue(q, t, flag, prio), flag, prio, evs + [ev], who)
  {
    ArrivalsAppend(evs, ev, who, |prio|);
    EnqueueOrdered(q, t, flag, prio, Arrivals(evs, who, |prio|), |evs| + 1);
  }

  /** An event of no thread of the list leaves the list in order. */
  lemma {:induction false} StayInOrder<E>(q: seq<Tid>, flag: Flag, prio: seq<nat>, evs: seq<E>, who: E -> int, ev: E)
    requires InOrder(q, flag, prio, evs, who) && (forall i :: 0 <= i < |q| ==> q[i] != who(ev))
    ensures InOrder(q, flag, prio, evs + [ev], who)
  {
    ArrivalsAppend(evs, ev, who, |prio|);
    var a, a' := Arrivals(evs, who, |prio|), Arrivals(evs + [ev], who, |prio|);
    forall i, j | 0 <= i < j < |q| ensures Before(q[i], q[j], flag, prio, a') {
      assert Before(q[i], q[j], flag, prio, a);
    }
  }

  /** A thread leaves the list in any event. */
  lemma {:induction false} LeaveInOrder<E>(q: seq<Tid>, flag: Flag, prio: seq<nat>, evs: seq<E>, who: E -> int,
                                           ev: E, t: Tid)
    requires InOrder(q, flag, prio, evs, who) && NoDup(q) && t in q
    requires forall i :: 0 <= i < |q| && q[i] != t ==> q[i] != who(ev)
    ensures InOrder(Remove(q, t), flag, prio, evs + [ev], who)
  {
    RemoveMembers(q, t);
    RemoveOrdered(q, t, flag, prio, Arrivals(evs, who, |prio|));
    var r := Remove(q, t);
    forall i | 0 <= i < |r| ensures r[i] != who(ev) {
      assert r[i] in r;
      var j :| 0 <= j < |q| && q[j] == r[i];
    }
    StayInOrder(r, flag, prio, evs, who, ev);
  }

  /** How an event about thread `t`, or about none, may change a wait list. */
  predicate ListStep(q: seq<Tid>, q': seq<Tid>, t: int, flag: Flag, prio: seq<nat>) {
    || q' == []
    || (t !in q && (q' == q || (q != [] && q' == q[1..])))
    || (t !in q && 0 <= t < |prio| && Known(q, |prio|) && q' == Enqueue(q, t, flag, prio))
    || (t >= 0 && t in q && q' == Remove(q, t))
  }

  lemma {:induction false} ListInOrder<E>(q: seq<Tid>, q': seq<Tid>, flag: Flag, prio: seq<nat>, evs: seq<E>,
                                          who: E -> int, ev: E)
    requires InOrder(q, flag, prio, evs, who) && NoDup(q) && ListStep(q, q', who(ev), flag, prio)
    ensures InOrder(q', flag, prio, evs + [ev], who)
  {
    if q' == [] {
    } else if who(ev) in q {
      LeaveInOrder(q, flag, prio, evs, who, ev, who(ev));
    } else if q' == q {
      StayInOrder(q, flag, prio, evs, who, ev);
    } else if q != [] && q' == q[1..] {
      LeaveInOrder(q, flag, prio, evs, who, ev, q[0]);
    } else {
      JoinInOrder(q, flag, prio, evs, who, ev, who(ev));
    }
  }

  /** `t` comes before every other thread that is in the situation `waiting`. */
  predicate ComesFirst<P, E>(t: Tid, pcs: seq<P>, waiting: P -> bool, flag: Flag, prio: seq<nat>,
                             evs: seq<E>, who: E -> int)
  {
    && t < |pcs| == |prio| && waiting(pcs[t])
    && forall u: Tid :: u < |pcs| && u != t && waiting(pcs[u]) ==>
         Before(t, u, flag, prio, Arrivals(evs, who, |prio|))
  }

  /** The first thread of the list, and no other, comes before all the suspended threads. */
  lemma {:induction false} FirstComesFirst<P, E>(q: seq<Tid>, n: nat, pcs: seq<P>, waiting: P -> bool, ready: P -> bool,
                                                 flag: Flag, prio: seq<nat>, evs: seq<E>, who: E -> int)
    requires Gate(q, n, pcs, waiting, ready) && |prio| == |pcs| && InOrder(q, flag, prio, evs, who)
    ensures forall t: Tid :: ComesFirst(t, pcs, waiting, flag, prio, evs, who) <==> q != [] && t == q[0]
  {
    var a := Arrivals(evs, who, |prio|);
    forall t: Tid | t < |pcs| && waiting(pcs[t]) && t != q[0] ensures q != [] && Before(q[0], t, flag, prio, a) {
      assert t in q;
      var j :| 0 <= j < |q| && q[j] == t;
      assert j > 0;
    }
    if q != [] { assert q[0] in q; }
  }
}
