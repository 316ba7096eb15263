/** Values shared by every kernel object: thread numbers, error codes, queueing flags. */
module Kernel {

  /** A thread is named by its index into the per-thread sequences of an object's state. */
  type Tid = nat

  datatype Err = EOK | ERROR | ETIMEOUT | EFULL

  /** RT_IPC_FLAG_FIFO and RT_IPC_FLAG_PRIO. */
  datatype Flag = Fifo | Prio

  const UINT16_MAX: nat := 0xFFFF
  const UINT8_MAX: nat := 0xFF

  /** The waiting time left after `elapsed` ticks; a negative timeout waits forever. */
  function Remaining(timeout: int, elapsed: nat): int {
    if timeout <= 0 then timeout else if timeout < elapsed then 0 else timeout - elapsed
  }
}

/** The list of threads suspended on a kernel object, as a sequence from first to last. */
module WaitQueue {
  import opened Kernel

  predicate NoDup<T(==)>(q: seq<T>) {
    forall i, j :: 0 <= i < j < |q| ==> q[i] != q[j]
  }

  /** Every entry is one of the `n` threads. */
  predicate Known(q: seq<Tid>, n: nat) {
    forall i :: 0 <= i < |q| ==> q[i] < n
  }

  /** Where the priority walk stops: before the first strictly less urgent thread. */
  function InsertAt(q: seq<Tid>, t: Tid, prio: seq<nat>): (k: nat)
    requires t < |prio| && Known(q, |prio|)
    ensures k <= |q|
    ensures forall i :: 0 <= i < k ==> prio[q[i]] <= prio[t]
    ensures k < |q| ==> prio[t] < prio[q[k]]
  {
    if q == [] || prio[t] < prio[q[0]] then 0 else 1 + InsertAt(q[1..], t, prio)
  }

  /** What suspending thread `t` does to a wait list. */
  function Enqueue(q: seq<Tid>, t: Tid, flag: Flag, prio: seq<nat>): (r: seq<Tid>)
    requires t < |prio| && Known(q, |prio|)
    ensures Known(r, |prio|)
  {
    match flag
    case Fifo => q + [t]
    case Prio => var k := InsertAt(q, t, prio); q[..k] + [t] + q[k..]
  }

  lemma EnqueueMembers(q: seq<Tid>, t: Tid, flag: Flag, prio: seq<nat>)
    requires t < |prio| && Known(q, |prio|)
    requires NoDup(q) && t !in q
    ensures var r := Enqueue(q, t, flag, prio);
            NoDup(r) && |r| == |q| + 1 && forall u :: u in r <==> u in q || u == t
  {
    var r := Enqueue(q, t, flag, prio);
    var k := if flag.Fifo? then |q| else InsertAt(q, t, prio);
    assert r == q[..k] + [t] + q[k..];
    assert q == q[..k] + q[k..];
    assert r[k] == t;
  }

  /** Taking a thread out of the list, as resuming it does. */
  function Remove(q: seq<Tid>, t: Tid): (r: seq<Tid>)
    ensures forall i :: 0 <= i < |r| ==> r[i] in q
  {
    if q == [] then [] else if q[0] == t then q[1..] else [q[0]] + Remove(q[1..], t)
  }

  lemma {:induction false} RemoveAt(q: seq<Tid>, t: Tid) returns (k: nat)
    requires t in q
    ensures k < |q| && q[k] == t && t !in q[..k] && Remove(q, t) == q[..k] + q[k+1..]
  {
    if q[0] == t {
      k := 0;
    } else {
      var j := RemoveAt(q[1..], t);
      k := j + 1;
      assert q[..k] == [q[0]] + q[1..][..j];
      assert q[k+1..] == q[1..][j+1..];
      assert [q[0]] + (q[1..][..j] + q[k+1..]) == q[..k] + q[k+1..];
    }
  }

  lemma {:induction false} RemoveMembers(q: seq<Tid>, t: Tid)
    requires NoDup(q) && t in q
    ensures var r := Remove(q, t);
            NoDup(r) && |r| == |q| - 1 && forall u :: u in r <==> u in q && u != t
  {
    assert q == [q[0]] + q[1..];
    if q[0] != t {
      RemoveMembers(q[1..], t);
      var s := Remove(q[1..], t);
      forall i | 0 <= i < |s| ensures s[i] != q[0] { assert s[i] in s; }
    }
  }

  /** Distinct numbers below `n` are at most `n` many. */
  lemma {:induction false} Pigeonhole(q: seq<nat>, n: nat)
    requires NoDup(q) && Known(q, n)
    ensures |q| <= n
    decreases n
  {
    if n == 0 {
    } else if n - 1 in q {
      RemoveMembers(q, n - 1);
      var r := Remove(q, n - 1);
      forall i | 0 <= i < |r| ensures r[i] < n - 1 { assert r[i] in r; }
      Pigeonhole(r, n - 1);
    } else {
      forall i | 0 <= i < |q| ensures q[i] < n - 1 { assert q[i] in q; }
      Pigeonhole(q, n - 1);
    }
  }

  /** The order promised for a list: arrival order, or priority order with ties in arrival order. */
  predicate Before(t: Tid, u: Tid, flag: Flag, prio: seq<nat>, arrival: seq<nat>)
    requires t < |prio| == |arrival| && u < |prio|
  {
    match flag
    case Fifo => arrival[t] < arrival[u]
    case Prio => prio[t] < prio[u] || (prio[t] == prio[u] && arrival[t] < arrival[u])
  }

  predicate Ordered(q: seq<Tid>, flag: Flag, prio: seq<nat>, arrival: seq<nat>) {
    |prio| == |arrival| && Known(q, |prio|) &&
    forall i, j :: 0 <= i < j < |q| ==> Before(q[i], q[j], flag, prio, arrival)
  }

  /** The order does not depend on the priority or arrival time of threads outside the list. */
  lemma OrderedElsewhere(q: seq<Tid>, flag: Flag, prio: seq<nat>, arrival: seq<nat>, u: Tid, p: nat)
    requires Ordered(q, flag, prio, arrival) && u < |prio| && u !in q
    ensures Ordered(q, flag, prio[u := p], arrival)
  {
  }

  /** A thread that arrives later than all others is put where the promised order wants it. */
  lemma {:induction false} EnqueueOrdered(q: seq<Tid>, t: Tid, flag: Flag, prio: seq<nat>, arrival: seq<nat>, now: nat)
    requires Ordered(q, flag, prio, arrival) && t < |prio| && t !in q
    requires forall i :: 0 <= i < |q| ==> arrival[q[i]] < now
    ensures Ordered(Enqueue(q, t, flag, prio), flag, prio, arrival[t := now])
  {
    var arr := arrival[t := now];
    var r := Enqueue(q, t, flag, prio);
    var k := if flag.Fifo? then |q| else InsertAt(q, t, prio);
    assert forall i :: 0 <= i < |r| ==> r[i] == if i < k then q[i] else if i == k then t else q[i-1];
    forall i, j | 0 <= i < j < |r| ensures Before(r[i], r[j], flag, prio, arr) {
      if flag.Prio? && i == k && j > k + 1 {
        assert Before(q[k], q[j-1], flag, prio, arrival);
      }
    }
  }

  lemma OrderedTail(q: seq<Tid>, flag: Flag, prio: seq<nat>, arrival: seq<nat>)
    requires Ordered(q, flag, prio, arrival) && q != []
    ensures Ordered(q[1..], flag, prio, arrival)
    ensures forall u :: u in q[1..] ==> Before(q[0], u, flag, prio, arrival)
  {
  }

  lemma OrderedCons(t: Tid, s: seq<Tid>, flag: Flag, prio: seq<nat>, arrival: seq<nat>)
    requires Ordered(s, flag, prio, arrival) && t < |prio|
    requires forall u :: u in s ==> u < |prio| && Before(t, u, flag, prio, arrival)
    ensures Ordered([t] + s, flag, prio, arrival)
  {
  }

  lemma {:induction false} RemoveOrdered(q: seq<Tid>, t: Tid, flag: Flag, prio: seq<nat>, arrival: seq<nat>)
    requires Ordered(q, flag, prio, arrival)
    ensures Ordered(Remove(q, t), flag, prio, arrival)
  {
    if q != [] {
      OrderedTail(q, flag, prio, arrival);
      if q[0] != t {
        RemoveOrdered(q[1..], t, flag, prio, arrival);
        OrderedCons(q[0], Remove(q[1..], t), flag, prio, arrival);
      }
    }
  }

  /** How many entries satisfy a test: used to count threads in a given situation. */
  function Count<T>(s: seq<T>, p: T -> bool): nat {
    if s == [] then 0 else (if p(s[0]) then 1 else 0) + Count(s[1..], p)
  }

  lemma {:induction false} CountUpdate<T>(s: seq<T>, i: nat, x: T, p: T -> bool)
    requires i < |s|
    ensures Count(s[i := x], p)
         == Count(s, p) - (if p(s[i]) then 1 else 0) + (if p(x) then 1 else 0)
  {
    if i > 0 {
      assert s[i := x] == [s[0]] + s[1..][i-1 := x];
      CountUpdate(s[1..], i - 1, x, p);
    } else {
      assert s[0 := x][1..] == s[1..];
    }
  }

  lemma {:induction false} CountPositive<T>(s: seq<T>, i: nat, p: T -> bool)
    requires i < |s| && p(s[i])
    ensures Count(s, p) >= 1
  {
    if i > 0 { CountPositive(s[1..], i - 1, p); }
  }

  lemma {:induction false} CountTwice<T>(s: seq<T>, i: nat, j: nat, p: T -> bool)
    requires i < j < |s| && p(s[i]) && p(s[j])
    ensures Count(s, p) >= 2
  {
    if i == 0 { CountPositive(s[1..], j - 1, p); } else { CountTwice(s[1..], i - 1, j - 1, p); }
  }

  lemma {:induction false} CountSame<T>(s: seq<T>, s': seq<T>, p: T -> bool)
    requires |s| == |s'| && forall i :: 0 <= i < |s| ==> p(s[i]) == p(s'[i])
    ensures Count(s, p) == Count(s', p)
  {
    if s != [] { CountSame(s[1..], s'[1..], p); }
  }

  lemma {:induction false} CountNone<T>(s: seq<T>, p: T -> bool)
    requires forall i :: 0 <= i < |s| ==> !p(s[i])
    ensures Count(s, p) == 0
  {
    if s != [] { CountNone(s[1..], p); }
  }

  /** A sequence that holds every value at most once has no duplicates. */
  lemma SingleMeansNoDup<T>(q: seq<T>)
    requires forall i :: 0 <= i < |q| ==> multiset(q)[q[i]] <= 1
    ensures NoDup(q)
  {
    forall i, j | 0 <= i < j < |q| ensures q[i] != q[j] {
      assert q == q[..i] + [q[i]] + q[i+1..j] + [q[j]] + q[j+1..];
    }
  }

  lemma {:induction false} CountWitness<T>(s: seq<T>, p: T -> bool) returns (i: nat)
    requires Count(s, p) >= 1
    ensures i < |s| && p(s[i])
  {
    if p(s[0]) { i := 0; } else { var j := CountWitness(s[1..], p); i := j + 1; }
  }

  /**
   * A resource with `n` units available, the list `q` of threads suspended for it, and the
   * situation of every thread. The list holds exactly the threads that are waiting, and no
   * wake-up is lost: while threads are suspended, every available unit has a thread that was
   * woken for it and has not run yet.
   */
  predicate Gate<T>(q: seq<Tid>, n: nat, pcs: seq<T>, waiting: T -> bool, ready: T -> bool) {
    && NoDup(q)
    && Known(q, |pcs|)
    && (forall t: Tid :: t < |pcs| ==> (t in q <==> waiting(pcs[t])))
    && (q != [] ==> n <= Count(pcs, ready))
  }

  /** A thread that is neither suspended nor suspending moves on, perhaps taking units. */
  lemma GateProceed<T>(q: seq<Tid>, n: nat, pcs: seq<T>, waiting: T -> bool, ready: T -> bool,
                       t: Tid, x: T, n': nat)
    requires Gate(q, n, pcs, waiting, ready)
    requires t < |pcs| && !waiting(pcs[t]) && !waiting(x)
    requires n' <= n && (ready(pcs[t]) && !ready(x) ==> n' == 0 || n' < n)
    ensures Gate(q, n', pcs[t := x], waiting, ready)
  {
    CountUpdate(pcs, t, x, ready);
  }

  /** A thread suspends because nothing is available. */
  lemma GateSuspend<T>(q: seq<Tid>, pcs: seq<T>, waiting: T -> bool, ready: T -> bool,
                       t: Tid, x: T, flag: Flag, prio: seq<nat>)
    requires Gate(q, 0, pcs, waiting, ready)
    requires t < |pcs| == |prio| && !waiting(pcs[t]) && waiting(x)
    ensures Gate(Enqueue(q, t, flag, prio), 0, pcs[t := x], waiting, ready)
  {
    EnqueueMembers(q, t, flag, prio);
    GateJoin(q, Enqueue(q, t, flag, prio), pcs, waiting, ready, t, x);
  }

  /** The same for a list that the thread joins at any place. */
  lemma GateJoin<T>(q: seq<Tid>, r: seq<Tid>, pcs: seq<T>, waiting: T -> bool, ready: T -> bool, t: Tid, x: T)
    requires Gate(q, 0, pcs, waiting, ready)
    requires t < |pcs| && !waiting(pcs[t]) && waiting(x)
    requires NoDup(r) && forall u :: u in r <==> u in q || u == t
    ensures Gate(r, 0, pcs[t := x], waiting, ready)
  {
    forall i | 0 <= i < |r| ensures r[i] < |pcs| { assert r[i] in r; }
  }

  /** A unit is added and the first suspended thread, if any, is woken for it. */
  lemma GateWake<T>(q: seq<Tid>, n: nat, pcs: seq<T>, waiting: T -> bool, ready: T -> bool, y: T)
    requires Gate(q, n, pcs, waiting, ready)
    requires q != [] ==> !ready(pcs[q[0]]) && !waiting(y) && ready(y)
    ensures Gate(if q == [] then [] else q[1..], n + 1,
                 if q == [] then pcs else pcs[q[0] := y], waiting, ready)
  {
    if q != [] {
      CountUpdate(pcs, q[0], y, ready);
      forall t: Tid | t < |pcs| ensures t in q[1..] <==> t in q && t != q[0] {}
    }
  }

  /** A suspended thread leaves the list without any unit. */
  lemma GateExpire<T>(q: seq<Tid>, n: nat, pcs: seq<T>, waiting: T -> bool, ready: T -> bool, t: Tid, y: T)
    requires Gate(q, n, pcs, waiting, ready)
    requires t in q && t < |pcs| && !ready(pcs[t]) && !waiting(y)
    ensures Gate(Remove(q, t), n, pcs[t := y], waiting, ready)
  {
    CountUpdate(pcs, t, y, ready);
    RemoveMembers(q, t);
    var r := Remove(q, t);
    forall i | 0 <= i < |r| ensures r[i] < |pcs| { assert r[i] in r; }
  }
}
