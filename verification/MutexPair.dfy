/**
 * Two mutexes of rt-thread/src/ipc.c that share their threads: how far priority inheritance goes
 * when a thread uses both. Each mutex saves and restores the owner's priority on its own.
 */
module MutexPair {
  import opened Kernel
  import opened WaitQueue
  import opened MutexModel

  datatype Which = First | Second {
    function Other(): Which { if this.First? then Second else First }
  }

  datatype Pair = Pair(first: State, second: State) {
    function At(w: Which): State { if w.First? then first else second }
  }

  datatype PairEvent = On(which: Which, ev: Event)

  /** One table of priorities serves both mutexes. */
  predicate PairShape(p: Pair) {
    && Shape(p.first) && Shape(p.second)
    && p.first.prio == p.second.prio && p.first.base == p.second.base
  }

  /** A thread that is inside a call on one mutex is not in a call on the other. */
  predicate PairEnabled(p: Pair, e: PairEvent)
    requires PairShape(p)
  {
    Enabled(p.At(e.which), e.ev) && p.At(e.which.Other()).pcs[e.ev.t].Idle?
  }

  function PairStep(p: Pair, e: PairEvent): (p': Pair)
    requires PairShape(p) && PairEnabled(p, e)
    ensures PairShape(p') && p'.first.base == p.first.base
  {
    var s := Step(p.At(e.which), e.ev);
    var o := p.At(e.which.Other()).(prio := s.prio);
    if e.which.First? then Pair(s, o) else Pair(o, s)
  }

  predicate PairRunnable(p: Pair, evs: seq<PairEvent>)
    requires PairShape(p)
    decreases |evs|
  {
    evs == [] || (PairEnabled(p, evs[0]) && PairRunnable(PairStep(p, evs[0]), evs[1..]))
  }

  function PairExec(p: Pair, evs: seq<PairEvent>): (p': Pair)
    requires PairShape(p) && PairRunnable(p, evs)
    ensures PairShape(p') && p'.first.base == p.first.base
    decreases |evs|
  {
    if evs == [] then p else PairExec(PairStep(p, evs[0]), evs[1..])
  }

  predicate PairInit(p: Pair) {
    PairShape(p) && Init(p.first) && Init(p.second)
  }

  // A thread and its own priority.

  /** Thread `t` owns the mutex before the run, after it, and all the time between. */
  predicate OwnsThroughout(p: Pair, evs: seq<PairEvent>, w: Which, t: Tid)
    requires PairShape(p) && PairRunnable(p, evs)
    decreases |evs|
  {
    && p.At(w).owner == Owned(t)
    && (evs != [] ==> OwnsThroughout(PairStep(p, evs[0]), evs[1..], w, t))
  }

  /** The saved priority stays as long as the owner does. */
  lemma {:induction false} OriginalStays(p: Pair, evs: seq<PairEvent>, w: Which, t: Tid)
    requires PairShape(p) && PairRunnable(p, evs) && OwnsThroughout(p, evs, w, t)
    ensures PairExec(p, evs).At(w).original == p.At(w).original
    ensures PairExec(p, evs).At(w).owner == Owned(t)
    decreases |evs|
  {
    if evs != [] {
      var p1 := PairStep(p, evs[0]);
      assert p1.At(w).owner == Owned(t);
      OriginalStays(p1, evs[1..], w, t);
    }
  }

  /** However a mutex is acquired, the priority of that moment is saved with it. */
  lemma AcquireSaves(p: Pair, e: PairEvent, w: Which, t: Tid)
    requires PairShape(p) && PairEnabled(p, e)
    requires p.At(w).owner != Owned(t) && PairStep(p, e).At(w).owner == Owned(t)
    ensures t < |p.first.prio| && PairStep(p, e).At(w).original == p.first.prio[t]
  {
  }

  /**
   * A thread acquires a mutex, at once or by a hand-over, keeps it through any run on both
   * mutexes, and gives it up. It is then back at the priority it had just before it acquired it;
   * so it is at its own priority exactly when it had not been lent one at that moment. This holds
   * for either mutex, whichever of the two was acquired or given up first.
   */
  lemma BackToOwnPriority(p: Pair, e: PairEvent, evs: seq<PairEvent>, w: Which, t: Tid)
    requires PairShape(p) && PairEnabled(p, e)
    requires p.At(w).owner != Owned(t)
    requires PairRunnable(PairStep(p, e), evs) && OwnsThroughout(PairStep(p, e), evs, w, t)
    requires var q := PairExec(PairStep(p, e), evs);
             PairEnabled(q, On(w, Release(t))) && q.At(w).hold == 1
    ensures var q := PairStep(PairExec(PairStep(p, e), evs), On(w, Release(t)));
            && |q.first.prio| == |q.first.base| == |p.first.prio| && t < |p.first.prio|
            && q.first.prio[t] == p.first.prio[t]
            && (q.first.prio[t] == q.first.base[t] <==> p.first.prio[t] == p.first.base[t])
  {
    AcquireSaves(p, e, w, t);
    OriginalStays(PairStep(p, e), evs, w, t);
  }

  /** Which mutex each thread acquired first of those it owns, after an event. */
  function Outer(p: Pair, outer: seq<Which>, e: PairEvent): (r: seq<Which>)
    requires PairShape(p) && PairEnabled(p, e) && |outer| == |p.first.pcs|
    ensures |r| == |outer|
  {
    var now := PairStep(p, e).At(e.which).owner;
    if now.Owned? && p.At(e.which).owner != now && p.At(e.which.Other()).owner != now
    then outer[now.t := e.which] else outer
  }

  /** A thread that owns both mutexes gives up the one it acquired last. */
  predicate GivesUpLast(p: Pair, outer: seq<Which>, e: PairEvent)
    requires PairShape(p) && PairEnabled(p, e) && |outer| == |p.first.pcs|
  {
    e.ev.Release? && p.At(e.which).hold == 1
    && p.At(e.which).owner == p.At(e.which.Other()).owner == Owned(e.ev.t) ==>
      outer[e.ev.t] == e.which.Other()
  }

  /** Mutexes are given up in the reverse order of their acquisition. */
  predicate Nested(p: Pair, outer: seq<Which>, evs: seq<PairEvent>)
    requires PairShape(p) && PairRunnable(p, evs) && |outer| == |p.first.pcs|
    decreases |evs|
  {
    evs == [] || (&& GivesUpLast(p, outer, evs[0])
                  && Nested(PairStep(p, evs[0]), Outer(p, outer, evs[0]), evs[1..]))
  }

  predicate Owns(p: Pair, w: Which, u: Tid) {
    p.At(w).owner == Owned(u)
  }

  /** The mutex that a thread acquired first has the thread's own priority saved with it. */
  predicate Restorable(p: Pair, outer: seq<Which>)
    requires PairShape(p)
  {
    && |outer| == |p.first.pcs| == |p.second.pcs|
    && (forall u: Tid :: u < |outer| && !Owns(p, First, u) && !Owns(p, Second, u) ==>
          p.first.prio[u] == p.first.base[u])
    && (forall w: Which, u: Tid :: u < |outer| && Owns(p, w, u) ==>
          && (!Owns(p, w.Other(), u) ==> outer[u] == w)
          && (outer[u] == w ==> p.At(w).original == p.first.base[u]))
  }

  /**
   * What an event can do to the owner, the saved priority and the priorities: only the owner is
   * lent a priority, an acquisition saves the current one, and a final release restores it.
   */
  predicate Changes(s: State, s': State, t: Tid)
    requires Shape(s) && Shape(s')
  {
    && |s.prio| == |s'.prio|
    && if s'.owner == s.owner then
         && (s.owner.Owned? ==> s'.original == s.original)
         && forall u: Tid :: u < |s.prio| && s.owner != Owned(u) ==> s'.prio[u] == s.prio[u]
       else
         && (s'.owner.Owned? ==> s'.original == s.prio[s'.owner.t])
         && (s.owner.Owned? ==> s.owner == Owned(t) && s'.prio == s.prio[t := s.original])
         && (s.owner.Nobody? ==> s'.prio == s.prio)
  }

  lemma StepChanges(s: State, ev: Event)
    requires Shape(s) && Enabled(s, ev)
    ensures Changes(s, Step(s, ev), ev.t)
    ensures Step(s, ev).owner != s.owner && s.owner.Owned? ==> ev.Release? && s.hold == 1
  {
  }

  lemma RestorableChange(p: Pair, p': Pair, outer: seq<Which>, r: seq<Which>, w: Which, t: Tid)
    requires PairShape(p) && PairShape(p') && Restorable(p, outer)
    requires Changes(p.At(w), p'.At(w), t) && p'.first.base == p.first.base
    requires var o, o' := p.At(w.Other()), p'.At(w.Other()); o'.owner == o.owner && o'.original == o.original
    requires var s, s', o := p.At(w), p'.At(w), p.At(w.Other());
             && r == (if s'.owner.Owned? && s.owner != s'.owner && o.owner != s'.owner
                      then outer[s'.owner.t := w] else outer)
             && (s'.owner != s.owner == o.owner == Owned(t) ==> outer[t] == w.Other())
    ensures Restorable(p', r)
  {
    forall v: Which, u: Tid | u < |r| && Owns(p', v, u)
      ensures !Owns(p', v.Other(), u) ==> r[u] == v
      ensures r[u] == v ==> p'.At(v).original == p'.first.base[u]
    {
      var x := w.Other();
      assert x.Other() == w && (v == w || v == x);
      assert Owns(p', x, u) == Owns(p, x, u);
      if Owns(p, x, u) && !Owns(p, w, u) { assert outer[u] == x; }
      if !Owns(p, x, u) && !Owns(p, w, u) { assert p.first.prio[u] == p.first.base[u]; }
      if Owns(p, w, u) && !Owns(p, x, u) { assert outer[u] == w; }
    }
    forall u: Tid | u < |r| && !Owns(p', First, u) && !Owns(p', Second, u)
      ensures p'.first.prio[u] == p'.first.base[u]
    {
      var x := w.Other();
      assert !Owns(p', w, u) && !Owns(p', x, u) && !Owns(p, x, u);
      if Owns(p, w, u) {
        assert x.Other() == w && outer[u] == w;
      } else {
        assert p.first.prio[u] == p.first.base[u];
      }
    }
  }

  lemma RestorableStep(p: Pair, outer: seq<Which>, e: PairEvent)
    requires PairShape(p) && Restorable(p, outer) && PairEnabled(p, e) && GivesUpLast(p, outer, e)
    ensures Restorable(PairStep(p, e), Outer(p, outer, e))
  {
    StepChanges(p.At(e.which), e.ev);
    RestorableChange(p, PairStep(p, e), outer, Outer(p, outer, e), e.which, e.ev.t);
  }

  lemma {:induction false} RestorableRun(p: Pair, outer: seq<Which>, evs: seq<PairEvent>)
    returns (outer': seq<Which>)
    requires PairShape(p) && Restorable(p, outer) && PairRunnable(p, evs) && Nested(p, outer, evs)
    ensures Restorable(PairExec(p, evs), outer')
    decreases |evs|
  {
    outer' := outer;
    if evs != [] {
      RestorableStep(p, outer, evs[0]);
      outer' := RestorableRun(PairStep(p, evs[0]), Outer(p, outer, evs[0]), evs[1..]);
    }
  }

  /**
   * In every run in which mutexes are given up in the reverse order of their acquisition, every
   * thread that owns neither mutex is at its own priority. What `outer` says at the start does
   * not matter, because nobody owns anything.
   */
  lemma NestedRunsRestore(p: Pair, outer: seq<Which>, evs: seq<PairEvent>)
    requires PairInit(p) && |outer| == |p.first.pcs|
    requires PairRunnable(p, evs) && Nested(p, outer, evs)
    ensures var e := PairExec(p, evs);
            |e.first.prio| == |e.first.base| == |p.first.prio| &&
            forall u: Tid :: u < |e.first.prio| && !Owns(e, First, u) && !Owns(e, Second, u) ==>
              e.first.prio[u] == e.first.base[u]
  {
    var _ := RestorableRun(p, outer, evs);
  }

  // What every run keeps.

  /** The wait list holds exactly the suspended threads. */
  predicate Listed(s: State) {
    Gate(s.waiters, s.value, s.pcs, Suspended, Never)
  }

  lemma ListedStep(s: State, ev: Event)
    requires Shape(s) && Listed(s) && Enabled(s, ev)
    ensures Listed(Step(s, ev))
  {
    var t, s' := ev.t, Step(s, ev);
    CountNone(s.pcs, Never);
    match ev
    case Expire(_) => GateExpire(s.waiters, s.value, s.pcs, Suspended, Never, t, Woken(ETIMEOUT));
    case Take(_, time) =>
      if s'.pcs[t].Waiting? {
        GateSuspend(s.waiters, s.pcs, Suspended, Never, t, Waiting(time), Prio, s'.prio);
      } else {
        GateProceed(s.waiters, 0, s.pcs, Suspended, Never, t, s'.pcs[t], 0);
      }
    case Release(_) =>
      var x := s.pcs[t := Idle(Done(EOK))];
      if s.owner == Owned(t) && s.hold == 1 && s.waiters != [] {
        GateProceed(s.waiters, 0, s.pcs, Suspended, Never, t, Idle(Done(EOK)), 0);
        GateExpire(s.waiters, 0, x, Suspended, Never, s.waiters[0], Woken(EOK));
      } else {
        GateProceed(s.waiters, 0, s.pcs, Suspended, Never, t, s'.pcs[t], 0);
      }
    case Resume(_) => GateProceed(s.waiters, s.value, s.pcs, Suspended, Never, t, s'.pcs[t], s.value);
  }

  predicate PairListed(p: Pair) {
    Listed(p.first) && Listed(p.second)
  }

  lemma {:induction false} PairListedRun(p: Pair, evs: seq<PairEvent>)
    requires PairShape(p) && PairListed(p) && PairRunnable(p, evs)
    ensures PairListed(PairExec(p, evs))
    decreases |evs|
  {
    if evs != [] {
      ListedStep(p.At(evs[0].which), evs[0].ev);
      PairListedRun(PairStep(p, evs[0]), evs[1..]);
    }
  }

  // Runs in which no thread uses both at once.

  /** One mutex as if the owner of the other had its own priority. */
  function Alone(s: State, other: Owner): (r: State)
    requires Shape(s) && (other.Owned? ==> other.t < |s.prio|)
    ensures Shape(r)
  {
    if other.Owned? then s.(prio := s.prio[other.t := s.base[other.t]]) else s
  }

  /** No thread owns a mutex while it owns the other or waits for it. */
  predicate Apart(p: Pair)
    requires PairShape(p)
  {
    && |p.first.pcs| == |p.second.pcs|
    && (forall u: Tid :: u < |p.first.pcs| ==> p.first.pcs[u].Idle? || p.second.pcs[u].Idle?)
    && (p.first.owner.Owned? ==> p.first.owner != p.second.owner)
    && (forall w: Which, u: Tid :: u in p.At(w).waiters ==> !Owns(p, w.Other(), u))
  }

  predicate SeparateInv(p: Pair) {
    && PairShape(p) && Apart(p)
    && Inv(Alone(p.first, p.second.owner)) && Inv(Alone(p.second, p.first.owner))
  }

  /** A thread takes a mutex only when it does not own the other. */
  predicate TakesOne(p: Pair, e: PairEvent)
    requires PairShape(p)
  {
    e.ev.Take? ==> !Owns(p, e.which.Other(), e.ev.t)
  }

  predicate Separate(p: Pair, evs: seq<PairEvent>)
    requires PairShape(p) && PairRunnable(p, evs)
    decreases |evs|
  {
    evs == [] || (TakesOne(p, evs[0]) && Separate(PairStep(p, evs[0]), evs[1..]))
  }

  /** The place in a list does not depend on the priority of a thread that is not concerned. */
  lemma {:induction false} EnqueueElsewhere(q: seq<Tid>, t: Tid, prio: seq<nat>, u: Tid, x: nat)
    requires t < |prio| && Known(q, |prio|) && u < |prio| && u != t && u !in q
    ensures Enqueue(q, t, Prio, prio[u := x]) == Enqueue(q, t, Prio, prio)
    ensures InsertAt(q, t, prio[u := x]) == InsertAt(q, t, prio)
  {
    if q != [] { EnqueueElsewhere(q[1..], t, prio, u, x); }
  }

  /** A thread that is not concerned in an event. */
  predicate Uninvolved(s: State, x: Tid) {
    x < |s.prio| && s.owner != Owned(x) && x !in s.waiters
  }

  lemma AloneTake(s: State, t: Tid, time: int, x: Tid)
    requires Shape(s) && t < |s.pcs| && t != x && Uninvolved(s, x)
    ensures TakeStep(Alone(s, Owned(x)), t, time) == Alone(TakeStep(s, t, time), Owned(x))
  {
    if s.owner.Owned? {
      var o, b := s.owner.t, s.base[x];
      var prio := Boost(s.prio, o, t);
      assert Boost(s.prio[x := b], o, t) == prio[x := b];
      EnqueueElsewhere(s.waiters, t, prio, x, b);
    }
  }

  lemma AloneRelease(s: State, t: Tid, x: Tid)
    requires Shape(s) && t < |s.pcs| && Uninvolved(s, x)
    ensures ReleaseStep(Alone(s, Owned(x)), t) == Alone(ReleaseStep(s, t), Owned(x))
  {
    if s.owner == Owned(t) {
      var b := s.base[x];
      assert s.prio[x := b][t := s.original] == s.prio[t := s.original][x := b];
      if s.waiters != [] { assert s.waiters[0] in s.waiters; }
    }
  }

  /** An event sees nothing of the owner of the other mutex. */
  lemma AloneStep(s: State, ev: Event, other: Owner)
    requires Shape(s) && Enabled(s, ev)
    requires other.Owned? ==> Uninvolved(s, other.t) && !(ev.Take? && ev.t == other.t)
    ensures Enabled(Alone(s, other), ev)
    ensures Step(Alone(s, other), ev) == Alone(Step(s, ev), other)
  {
    if other.Owned? {
      match ev
      case Take(t, time) => AloneTake(s, t, time, other.t);
      case Release(t) => AloneRelease(s, t, other.t);
      case _ =>
    }
  }

  /** What an event on one mutex changes in the other: nothing but the priority of its own owner. */
  lemma AloneSame(s: State, s': State, o: State, t: Tid)
    requires Shape(s) && Shape(s') && Shape(o) && o.prio == s.prio && o.base == s.base == s'.base
    requires Changes(s, s', t)
    requires s.owner.Owned? ==> s.owner != o.owner
    requires s'.owner.Owned? ==> s'.owner != o.owner
    requires Inv(Alone(s, o.owner))
    ensures Alone(o.(prio := s'.prio), s'.owner) == Alone(o, s.owner)
  {
    var a, b := Alone(o, s.owner).prio, Alone(o.(prio := s'.prio), s'.owner).prio;
    assert Inherits(Alone(s, o.owner));
    forall u: Tid | u < |a| ensures b[u] == a[u] {
      if s.owner != Owned(u) && o.owner != Owned(u) { assert s.prio[u] == s.base[u]; }
    }
  }

  /** Which threads an event can suspend, wake or make the owner. */
  predicate Moves(s: State, s': State, ev: Event)
    requires Shape(s) && Shape(s') && |s.pcs| == |s'.pcs|
  {
    && (forall u: Tid :: u < |s.pcs| && u != ev.t && u !in s.waiters ==> s'.pcs[u] == s.pcs[u])
    && (forall u :: u in s'.waiters ==> u in s.waiters || (u == ev.t && ev.Take?))
    && (s'.owner.Owned? && s'.owner != s.owner ==>
          s'.owner.t in s.waiters || (s'.owner.t == ev.t && ev.Take?))
  }

  lemma StepMoves(s: State, ev: Event)
    requires Shape(s) && Listed(s) && Enabled(s, ev)
    ensures Moves(s, Step(s, ev), ev)
  {
    var t := ev.t;
    match ev
    case Take(_, _) =>
      if Step(s, ev).pcs[t].Waiting? {
        EnqueueMembers(s.waiters, t, Prio, Step(s, ev).prio);
      }
    case Release(_) =>
    case Resume(_) =>
    case Expire(_) => RemoveMembers(s.waiters, t);
  }

  lemma ApartChange(p: Pair, p': Pair, e: PairEvent)
    requires PairShape(p) && PairShape(p') && Apart(p) && PairEnabled(p, e) && TakesOne(p, e)
    requires PairListed(p)
    requires |p'.At(e.which).pcs| == |p.At(e.which).pcs| && Moves(p.At(e.which), p'.At(e.which), e.ev)
    requires var o, o' := p.At(e.which.Other()), p'.At(e.which.Other());
             o'.owner == o.owner && o'.waiters == o.waiters && o'.pcs == o.pcs
    ensures Apart(p')
  {
    var w, x := e.which, e.which.Other();
    assert x.Other() == w;
    var s, s', o := p.At(w), p'.At(w), p.At(x);
    forall u: Tid | u < |s.pcs| ensures s'.pcs[u].Idle? || o.pcs[u].Idle? {
      assert s.pcs[u].Idle? || o.pcs[u].Idle?;
    }
    forall v: Which, u: Tid | u in p'.At(v).waiters ensures !Owns(p', v.Other(), u) {
      assert v == w || v == x;
      if u in p.At(v).waiters { assert !Owns(p, v.Other(), u); }
    }
    assert s'.owner.Owned? && s'.owner.t in s.waiters ==> !Owns(p, x, s'.owner.t);
  }

  /** The mutex of the event takes a step of its own, and the other does not notice. */
  lemma AloneSteps(s: State, s': State, o: State, ev: Event)
    requires Shape(s) && Shape(s') && Shape(o) && |s'.prio| == |s.prio| == |o.prio|
    requires o.prio == s.prio && o.base == s.base && Enabled(s, ev) && s' == Step(s, ev)
    requires o.owner.Owned? ==> Uninvolved(s, o.owner.t) && !(ev.Take? && ev.t == o.owner.t)
    requires s'.owner.Owned? ==> s'.owner != o.owner
    requires Inv(Alone(s, o.owner)) && Inv(Alone(o, s.owner))
    ensures Inv(Alone(s', o.owner)) && Inv(Alone(o.(prio := s'.prio), s'.owner))
  {
    AloneStep(s, ev, o.owner);
    StepKeepsInv(Alone(s, o.owner), ev);
    StepChanges(s, ev);
    AloneSame(s, s', o, ev.t);
  }

  lemma SeparateApart(p: Pair, e: PairEvent)
    requires SeparateInv(p) && PairEnabled(p, e) && TakesOne(p, e)
    ensures Apart(PairStep(p, e))
  {
    assert PairListed(p);
    StepMoves(p.At(e.which), e.ev);
    ApartChange(p, PairStep(p, e), e);
  }

  lemma ApartUninvolved(p: Pair, w: Which)
    requires PairShape(p) && Apart(p)
    ensures var o := p.At(w.Other()).owner; o.Owned? ==> Uninvolved(p.At(w), o.t)
    ensures p.At(w).owner.Owned? ==> p.At(w).owner != p.At(w.Other()).owner
  {
    var o := p.At(w.Other()).owner;
    if o.Owned? { assert o.t in p.At(w).waiters ==> !Owns(p, w.Other(), o.t); }
  }

  lemma SeparateStep(p: Pair, e: PairEvent)
    requires SeparateInv(p) && PairEnabled(p, e) && TakesOne(p, e)
    ensures SeparateInv(PairStep(p, e))
  {
    SeparateApart(p, e);
    ApartUninvolved(p, e.which);
    ApartUninvolved(PairStep(p, e), e.which);
    AloneSteps(p.At(e.which), PairStep(p, e).At(e.which), p.At(e.which.Other()), e.ev);
  }

  lemma {:induction false} InitInv(s: State)
    requires Init(s)
    ensures Inv(s) && Listed(s)
  {
  }

  lemma {:induction false} InitSeparate(p: Pair)
    requires PairInit(p)
    ensures SeparateInv(p) && PairListed(p)
  {
    InitInv(p.first);
    InitInv(p.second);
  }

  lemma {:induction false} SeparateRun(p: Pair, evs: seq<PairEvent>)
    requires SeparateInv(p) && PairRunnable(p, evs) && Separate(p, evs)
    ensures SeparateInv(PairExec(p, evs))
    decreases |evs|
  {
    if evs != [] {
      SeparateStep(p, evs[0]);
      SeparateRun(PairStep(p, evs[0]), evs[1..]);
    }
  }

  /** The owner is at least as urgent as every suspended thread. */
  predicate OwnerUrgent(s: State)
    requires Shape(s)
  {
    s.owner.Owned? ==> forall i :: 0 <= i < |s.waiters| ==> s.prio[s.owner.t] <= s.prio[s.waiters[i]]
  }

  /** The owner has its own priority saved, is at least as urgent, and as every waiter too. */
  predicate Urgent(s: State)
    requires Shape(s)
  {
    && OwnerUrgent(s)
    && (s.owner.Owned? ==> s.original == s.base[s.owner.t] && s.prio[s.owner.t] <= s.original)
    && Ordered(s.waiters, Prio, s.prio, s.arrival)
  }

  lemma AloneUrgent(s: State, other: Owner)
    requires Shape(s) && (other.Owned? ==> Uninvolved(s, other.t)) && Inv(Alone(s, other))
    ensures Urgent(s)
    ensures forall u: Tid :: u < |s.prio| && s.owner != Owned(u) && other != Owned(u) ==> s.prio[u] == s.base[u]
  {
    var r := Alone(s, other);
    assert Inherits(r);
    if other.Owned? {
      OrderedElsewhere(s.waiters, Prio, r.prio, s.arrival, other.t, s.prio[other.t]);
      assert r.prio[other.t := s.prio[other.t]] == s.prio;
      forall i | 0 <= i < |s.waiters| ensures s.waiters[i] != other.t { assert s.waiters[i] in s.waiters; }
    }
  }

  /**
   * In every run in which no thread takes a mutex while it owns the other, priority inheritance
   * holds for both: each owner is at least as urgent as its own priority, which is saved, and as
   * every waiter; both lists are in priority order; and whoever owns nothing is at its own priority.
   */
  lemma SeparateRunsInherit(p: Pair, evs: seq<PairEvent>)
    requires PairInit(p) && PairRunnable(p, evs) && Separate(p, evs)
    ensures var e := PairExec(p, evs);
            && Urgent(e.first) && Urgent(e.second) && |e.first.prio| == |e.first.base|
            && forall u: Tid :: u < |e.first.prio| && !Owns(e, First, u) && !Owns(e, Second, u) ==>
                 e.first.prio[u] == e.first.base[u]
  {
    InitSeparate(p);
    SeparateRun(p, evs);
    var e := PairExec(p, evs);
    ApartUninvolved(e, First);
    ApartUninvolved(e, Second);
    AloneUrgent(e.first, e.second.owner);
    AloneUrgent(e.second, e.first.owner);
  }

  // A thread that uses both: exactly when a release breaks the promise of the other mutex.

  /**
   * In every run, the release that gives up one mutex keeps the promise of the other exactly
   * when the thread does not own the other, or the priority that it falls back to serves the
   * waiters of the other too.
   */
  lemma ReleaseKeepsOther(p: Pair, evs: seq<PairEvent>, w: Which, t: Tid)
    requires PairInit(p) && PairRunnable(p, evs)
    requires var e := PairExec(p, evs);
             && PairEnabled(e, On(w, Release(t))) && e.At(w).owner == Owned(t) && e.At(w).hold == 1
             && OwnerUrgent(e.At(w.Other()))
    ensures var e := PairExec(p, evs);
            var s, o := e.At(w), e.At(w.Other());
            OwnerUrgent(PairStep(e, On(w, Release(t))).At(w.Other())) <==>
              (o.owner == Owned(t) ==> forall i :: 0 <= i < |o.waiters| ==> s.original <= o.prio[o.waiters[i]])
  {
    InitSeparate(p);
    PairListedRun(p, evs);
    var e := PairExec(p, evs);
    OtherAfterRelease(e.At(w), e.At(w.Other()), t);
  }

  lemma OtherAfterRelease(s: State, o: State, t: Tid)
    requires Shape(s) && Shape(o) && o.prio == s.prio && Listed(o)
    requires t < |s.pcs| && o.pcs[t].Idle? && s.owner == Owned(t) && s.hold == 1 && OwnerUrgent(o)
    ensures OwnerUrgent(o.(prio := ReleaseStep(s, t).prio)) <==>
              (o.owner == Owned(t) ==> forall i :: 0 <= i < |o.waiters| ==> s.original <= o.prio[o.waiters[i]])
  {
    var prio := ReleaseStep(s, t).prio;
    assert prio == o.prio[t := s.original];
    forall i | 0 <= i < |o.waiters| ensures prio[o.waiters[i]] == o.prio[o.waiters[i]] {
      assert o.waiters[i] in o.waiters;
    }
  }

  // Two runs that break the promise.

  const OK: Pc := Idle(Done(EOK))

  /** A mutex used by two threads whose own priorities are 10 and 5. */
  function Two(value: nat, hold: nat, owner: Owner, original: nat, waiters: seq<Tid>,
               pc0: Pc, pc1: Pc, prio0: nat, clock: nat): State
  {
    State(value, hold, owner, original, waiters, [pc0, pc1], [prio0, 5], [10, 5], [0, 0], clock)
  }

  function Free(pc0: Pc, pc1: Pc, prio0: nat): State {
    Two(1, 0, Nobody, 0xFF, [], pc0, pc1, prio0, 0)
  }

  /** Owned by thread 0, with the given saved and current priority. */
  function Held(original: nat, prio0: nat): State {
    Two(0, 1, Owned(0), original, [], OK, Idle(Nothing), prio0, 0)
  }

  /** The same, and thread 1 waits for it. */
  function Contended(prio0: nat): State {
    Two(0, 1, Owned(0), 10, [1], OK, Waiting(-1), prio0, 1)
  }

  function Fresh(prio0: nat): State {
    Free(Idle(Nothing), Idle(Nothing), prio0)
  }

  /** Thread 0 takes a free mutex; the priority of the moment is saved. */
  lemma TakeFree(prio0: nat)
    ensures Shape(Fresh(prio0)) && Step(Fresh(prio0), Take(0, -1)) == Held(prio0, prio0)
  {
    assert Fresh(prio0).pcs[0 := OK] == Held(prio0, prio0).pcs;
  }

  /** Thread 1 waits for it and lends thread 0 its priority. */
  lemma TakeHeld()
    ensures Shape(Held(10, 10)) && Step(Held(10, 10), Take(1, -1)) == Contended(5)
  {
    var s := Held(10, 10);
    assert Boost(s.prio, 0, 1) == [5, 5];
    assert Enqueue([], 1, Prio, [5, 5]) == [1];
    assert s.pcs[1 := Waiting(-1)] == Contended(5).pcs && s.arrival[1 := 0] == [0, 0];
  }

  /** Thread 0 gives up a mutex that nobody waits for. */
  lemma ReleaseHeld(original: nat, prio0: nat)
    ensures Shape(Held(original, prio0))
    ensures Step(Held(original, prio0), Release(0)) == Free(OK, Idle(Nothing), original)
  {
    var s := Held(original, prio0);
    assert s.prio[0 := original] == [original, 5] && s.pcs[0 := OK] == s.pcs;
  }

  /** A run is taken one event at a time. */
  lemma RunStep(p: Pair, e: PairEvent, p1: Pair, rest: seq<PairEvent>)
    requires PairShape(p) && PairEnabled(p, e) && PairStep(p, e) == p1 && PairRunnable(p1, rest)
    ensures PairRunnable(p, [e] + rest)
    ensures PairExec(p, [e] + rest) == PairExec(p1, rest)
  {
    assert ([e] + rest)[1..] == rest;
  }

  /**
   * Thread 0 takes both mutexes, thread 1 waits for the second, and thread 0 releases the first:
   * it falls back to its own priority although the more urgent thread still waits for it.
   */
  lemma NestedReleaseLosesBoost() returns (p: Pair, evs: seq<PairEvent>)
    ensures PairInit(p) && PairRunnable(p, evs)
    ensures var o := PairExec(p, evs).second;
            o.owner == Owned(0) && o.waiters == [1] && o.prio == [10, 5] && o.base == [10, 5]
  {
    var e0, e1 := On(First, Take(0, -1)), On(Second, Take(0, -1));
    var e2, e3 := On(Second, Take(1, -1)), On(First, Release(0));
    TakeFree(10);
    TakeHeld();
    ReleaseHeld(10, 5);
    var p1, p2 := Pair(Held(10, 10), Fresh(10)), Pair(Held(10, 10), Held(10, 10));
    var p3, p4 := Pair(Held(10, 5), Contended(5)), Pair(Free(OK, Idle(Nothing), 10), Contended(10));
    p, evs := Pair(Fresh(10), Fresh(10)), [e0] + ([e1] + ([e2] + ([e3] + [])));
    RunStep(p3, e3, p4, []);
    RunStep(p2, e2, p3, [e3] + []);
    RunStep(p1, e1, p2, [e2] + ([e3] + []));
    RunStep(p, e0, p1, [e1] + ([e2] + ([e3] + [])));
  }

  /** Thread 0 has handed the mutex over to thread 1. */
  function HandedTo1(prio0: nat): State {
    Two(0, 1, Owned(1), 5, [], OK, Woken(EOK), prio0, 1)
  }

  lemma ReleaseContended()
    ensures Shape(Contended(5)) && Step(Contended(5), Release(0)) == HandedTo1(10)
  {
    var s := Contended(5);
    assert s.prio[0 := 10] == [10, 5] && s.waiters[1..] == [];
    assert s.pcs[0 := OK][1 := Woken(EOK)] == [OK, Woken(EOK)];
  }

  /** The second half of the next run: thread 0, with a lent priority, takes and gives up the second. */
  lemma TakesWhileBoosted(p: Pair) returns (evs: seq<PairEvent>)
    requires p == Pair(Contended(5), Fresh(5))
    ensures PairShape(p) && PairRunnable(p, evs)
    ensures PairExec(p, evs) == Pair(HandedTo1(5), Free(OK, Idle(Nothing), 5))
  {
    var e2, e3, e4 := On(Second, Take(0, -1)), On(First, Release(0)), On(Second, Release(0));
    TakeFree(5);
    ReleaseContended();
    ReleaseHeld(5, 10);
    var p3, p4 := Pair(Contended(5), Held(5, 5)), Pair(HandedTo1(10), Held(5, 10));
    var p5 := Pair(HandedTo1(5), Free(OK, Idle(Nothing), 5));
    evs := [e2] + ([e3] + ([e4] + []));
    RunStep(p4, e4, p5, []);
    RunStep(p3, e3, p4, [e4] + []);
    RunStep(p, e2, p3, [e3] + ([e4] + []));
  }

  /**
   * Thread 0 takes the second mutex while it is lent a priority by a waiter of the first: that
   * priority is saved as its own, and it keeps it after it has released both mutexes.
   */
  lemma NestedReleaseLeavesBoost() returns (p: Pair, evs: seq<PairEvent>)
    ensures PairInit(p) && PairRunnable(p, evs)
    ensures var e := PairExec(p, evs);
            && e.first.owner != Owned(0) && e.second.owner != Owned(0)
            && e.first.base == [10, 5] && e.first.prio == [5, 5]
  {
    var e0, e1 := On(First, Take(0, -1)), On(First, Take(1, -1));
    var p1, p2 := Pair(Held(10, 10), Fresh(10)), Pair(Contended(5), Fresh(5));
    TakeFree(10);
    TakeHeld();
    var rest := TakesWhileBoosted(p2);
    p, evs := Pair(Fresh(10), Fresh(10)), [e0] + ([e1] + rest);
    RunStep(p1, e1, p2, rest);
    RunStep(p, e0, p1, [e1] + rest);
  }
}
