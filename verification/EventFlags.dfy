/** The event set of rt-thread/src/ipc.c as a transition system. */
module EventModel {
  import opened Kernel
  import opened WaitQueue

  type Bit = b: nat | b < 32

  /** A 32-bit word as the set of its one bits: `+` is OR, `*` is AND, `-` is AND NOT. */
  type Bits = set<Bit>

  /** RT_EVENT_FLAG_AND, RT_EVENT_FLAG_OR and RT_EVENT_FLAG_CLEAR. */
  datatype Option = Option(and: bool, or: bool, clear: bool)

  datatype Outcome = Nothing | Done(err: Err) | Received(bits: Bits)

  datatype Pc =
    | Idle(last: Outcome)
    | Waiting(want: Bits, option: Option, timeout: int)
    | Woken(err: Err, got: Bits)

  datatype State = State(events: Bits, flag: Flag, prio: seq<nat>, waiters: seq<Tid>, pcs: seq<Pc>)

  datatype Event =
    | Send(t: Tid, bits: Bits)
    | Recv(t: Tid, want: Bits, option: Option, timeout: int)
    | Resume(t: Tid)
    | Expire(t: Tid)
    | Reset

  predicate Suspended(pc: Pc) { pc.Waiting? }
  predicate Never(pc: Pc) { false }

  /** The receive check: AND is looked at before OR. */
  predicate Satisfied(events: Bits, want: Bits, option: Option) {
    if option.and then events * want == want else events * want != {}
  }

  /** The event set after a satisfied receive. */
  function Cleared(events: Bits, want: Bits, option: Option): Bits {
    if option.clear then events - want else events
  }

  predicate Shape(s: State) {
    && |s.prio| == |s.pcs|
    && Known(s.waiters, |s.pcs|)
  }

  /** The source asserts that a receiver asks for AND or OR. */
  predicate Enabled(s: State, ev: Event) {
    ev.Reset? || (ev.t < |s.pcs| &&
      match ev
      case Send(t, _) => s.pcs[t].Idle?
      case Recv(t, _, option, _) => s.pcs[t].Idle? && (option.and || option.or)
      case Resume(t) => s.pcs[t].Woken?
      case Expire(t) => s.pcs[t].Waiting? && s.pcs[t].timeout > 0)
  }

  datatype Swept = Swept(events: Bits, waiters: seq<Tid>, pcs: seq<Pc>)

  /**
   * Running the receive check for each suspended thread in list order: a satisfied one is given
   * its bits, clears them if it asked to, and leaves the list before the next one is looked at.
   */
  function Sweep(events: Bits, q: seq<Tid>, pcs: seq<Pc>): (r: Swept)
    requires Known(q, |pcs|)
    ensures |r.pcs| == |pcs| && Known(r.waiters, |pcs|)
    decreases |q|
  {
    if q == [] then Swept(events, [], pcs)
    else
      var pc := pcs[q[0]];
      if pc.Waiting? && Satisfied(events, pc.want, pc.option) then
        Sweep(Cleared(events, pc.want, pc.option), q[1..], pcs[q[0] := Woken(EOK, events * pc.want)])
      else
        var r := Sweep(events, q[1..], pcs);
        r.(waiters := [q[0]] + r.waiters)
  }

  function Return(s: State, t: Tid, last: Outcome): (s': State)
    requires Shape(s) && t < |s.pcs|
    ensures Shape(s')
  {
    s.(pcs := s.pcs[t := Idle(last)])
  }

  function Step(s: State, ev: Event): (s': State)
    requires Shape(s) && Enabled(s, ev)
    ensures Shape(s')
  {
    match ev
    case Send(t, bits) =>
      if bits == {} then Return(s, t, Done(ERROR))
      else
        var r := Sweep(s.events + bits, s.waiters, s.pcs);
        Return(s.(events := r.events, waiters := r.waiters, pcs := r.pcs), t, Done(EOK))
    case Recv(t, want, option, timeout) =>
      if want == {} then Return(s, t, Done(ERROR))
      else if Satisfied(s.events, want, option) then
        Return(s, t, Received(s.events * want)).(events := Cleared(s.events, want, option))
      else if timeout == 0 then Return(s, t, Done(ETIMEOUT))
      else s.(waiters := Enqueue(s.waiters, t, s.flag, s.prio),
              pcs := s.pcs[t := Waiting(want, option, timeout)])
    case Resume(t) =>
      var pc := s.pcs[t];
      Return(s, t, if pc.err == EOK then Received(pc.got) else Done(pc.err))
    case Expire(t) =>
      s.(waiters := Remove(s.waiters, t), pcs := s.pcs[t := Woken(ETIMEOUT, s.pcs[t].want)])
    case Reset =>
      s.(events := {}, waiters := [], pcs := ReleaseAll(s.pcs))
  }

  function Abandoned(pc: Pc): Pc {
    if pc.Waiting? then Woken(ERROR, pc.want) else pc
  }

  function ReleaseAll(pcs: seq<Pc>): (r: seq<Pc>)
    ensures |r| == |pcs| && forall t: Tid :: t < |pcs| ==> r[t] == Abandoned(pcs[t])
  {
    seq(|pcs|, i requires 0 <= i < |pcs| => Abandoned(pcs[i]))
  }

  /** A suspended thread asked for something in one of the two ways. */
  predicate Asks(pc: Pc) {
    pc.Waiting? && pc.want != {} && (pc.option.and || pc.option.or)
  }

  /** No suspended thread is satisfied by the event set. */
  predicate Inv(s: State) {
    && Shape(s)
    && Gate(s.waiters, 0, s.pcs, Suspended, Never)
    && forall t: Tid :: t < |s.pcs| && s.pcs[t].Waiting? ==>
         && Asks(s.pcs[t])
         && !Satisfied(s.events, s.pcs[t].want, s.pcs[t].option)
  }

  predicate Init(s: State) {
    Shape(s) && s.events == {} && s.waiters == [] && forall t: Tid :: t < |s.pcs| ==> s.pcs[t].Idle?
  }

  /** Taking bits away never satisfies a thread that was not satisfied. */
  lemma SatisfiedMonotone(a: Bits, b: Bits, want: Bits, option: Option)
    requires a <= b && Satisfied(a, want, option)
    ensures Satisfied(b, want, option)
  {
  }

  /**
   * What a sweep does: bits are only taken away, threads outside the list are untouched, each
   * listed thread is either still suspended, and then not satisfied by what is left, or was
   * woken without an error.
   */
  lemma {:induction false} SweepEffect(events: Bits, q: seq<Tid>, pcs: seq<Pc>)
    requires Known(q, |pcs|) && NoDup(q)
    requires forall i :: 0 <= i < |q| ==> pcs[q[i]].Waiting?
    ensures var r := Sweep(events, q, pcs);
            && r.events <= events
            && NoDup(r.waiters)
            && (forall t: Tid :: t < |pcs| && t !in q ==> r.pcs[t] == pcs[t] && t !in r.waiters)
            && (forall t: Tid :: t < |pcs| && t in r.waiters ==>
                  t in q && r.pcs[t] == pcs[t] && pcs[t].Waiting?
                  && !Satisfied(r.events, pcs[t].want, pcs[t].option))
            && (forall t: Tid :: t < |pcs| && t in q && t !in r.waiters ==>
                  r.pcs[t].Woken? && r.pcs[t].err == EOK)
    decreases |q|
  {
    var r := Sweep(events, q, pcs);
    if q == [] {
    } else {
      var u, pc := q[0], pcs[q[0]];
      assert forall t: Tid :: t in q <==> t == u || t in q[1..];
      assert u !in q[1..];
      if Satisfied(events, pc.want, pc.option) {
        var set1 := Cleared(events, pc.want, pc.option);
        SweepEffect(set1, q[1..], pcs[u := Woken(EOK, events * pc.want)]);
      } else {
        SweepEffect(events, q[1..], pcs);
        if Satisfied(r.events, pc.want, pc.option) {
          SatisfiedMonotone(r.events, events, pc.want, pc.option);
        }
      }
    }
  }

  /**
   * No bit is lost in a sweep: a woken thread is given the wanted bits that were set, all of
   * them if it asked for all, and a bit that is gone was given to a thread that clears.
   */
  lemma {:induction false} SweepAccounts(events: Bits, q: seq<Tid>, pcs: seq<Pc>)
    requires Known(q, |pcs|) && NoDup(q)
    requires forall i :: 0 <= i < |q| ==> pcs[q[i]].Waiting?
    ensures var r := Sweep(events, q, pcs);
            && (forall t: Tid :: t < |pcs| && t in q && t !in r.waiters ==>
                  && r.pcs[t].Woken? && r.pcs[t].got <= pcs[t].want * events
                  && (if pcs[t].option.and then r.pcs[t].got == pcs[t].want else r.pcs[t].got != {}))
            && (forall x :: x in events && x !in r.events ==>
                  exists t: Tid :: t < |pcs| && t in q && t !in r.waiters
                    && r.pcs[t].Woken? && x in r.pcs[t].got && pcs[t].option.clear)
    decreases |q|
  {
    if q != [] {
      var r, u, pc := Sweep(events, q, pcs), q[0], pcs[q[0]];
      assert forall t: Tid :: t in q <==> t == u || t in q[1..];
      assert u !in q[1..];
      var woken := pcs[u := Woken(EOK, events * pc.want)];
      if Satisfied(events, pc.want, pc.option) {
        var events1 := Cleared(events, pc.want, pc.option);
        SweepEffect(events1, q[1..], woken);
        SweepAccounts(events1, q[1..], woken);
        assert r.pcs[u] == Woken(EOK, events * pc.want);
        forall x | x in events && x !in r.events
          ensures exists t: Tid :: t < |pcs| && t in q && t !in r.waiters
                    && r.pcs[t].Woken? && x in r.pcs[t].got && pcs[t].option.clear
        {
          if x in events1 {
            var t: Tid :| t < |pcs| && t in q[1..] && t !in r.waiters
              && r.pcs[t].Woken? && x in r.pcs[t].got && woken[t].option.clear;
            assert pcs[t] == woken[t];
          } else {
            assert x in r.pcs[u].got;
          }
        }
      } else {
        SweepEffect(events, q[1..], pcs);
        SweepAccounts(events, q[1..], pcs);
      }
    }
  }

  /**
   * A receive that succeeds at once is given exactly the wanted bits that were set, all of them
   * if it asked for all; with CLEAR these bits, and no others, are gone afterwards. One that
   * does not succeed takes no bit.
   */
  lemma ReceiveTakesBits(s: State, t: Tid, want: Bits, option: Option, timeout: int)
    requires Shape(s) && Enabled(s, Recv(t, want, option, timeout))
    ensures var s' := Step(s, Recv(t, want, option, timeout));
            match s'.pcs[t]
            case Idle(Received(bits)) =>
              && bits != {} && (option.and ==> bits == want)
              && (forall x :: x in bits <==> x in want && x in s.events)
              && (forall x :: x in s'.events <==> x in s.events && !(option.clear && x in bits))
            case _ => s'.events == s.events && !(want != {} && Satisfied(s.events, want, option))
  {
  }

  lemma SendKeepsInv(s: State, t: Tid, bits: Bits)
    requires Inv(s) && t < |s.pcs| && s.pcs[t].Idle? && bits != {}
    ensures Inv(Step(s, Send(t, bits)))
  {
    forall i | 0 <= i < |s.waiters| ensures s.pcs[s.waiters[i]].Waiting? {
      assert s.waiters[i] in s.waiters;
    }
    SweepEffect(s.events + bits, s.waiters, s.pcs);
    var r, s' := Sweep(s.events + bits, s.waiters, s.pcs), Step(s, Send(t, bits));
    forall u: Tid | u < |s.pcs|
      ensures u in s'.waiters <==> s'.pcs[u].Waiting?
      ensures s'.pcs[u].Waiting? ==> s'.pcs[u] == s.pcs[u]
      ensures s'.pcs[u].Waiting? ==> !Satisfied(s'.events, s'.pcs[u].want, s'.pcs[u].option)
    {
      assert u in s.waiters <==> s.pcs[u].Waiting?;
    }
    CountNone(s'.pcs, Never);
  }

  /** Receive: bits are only taken away, so the threads already suspended stay unsatisfied. */
  lemma RecvKeepsInv(s: State, t: Tid, want: Bits, option: Option, timeout: int)
    requires Inv(s) && Enabled(s, Recv(t, want, option, timeout))
    ensures Inv(Step(s, Recv(t, want, option, timeout)))
  {
    var s' := Step(s, Recv(t, want, option, timeout));
    if want != {} && !Satisfied(s.events, want, option) && timeout != 0 {
      GateSuspend(s.waiters, s.pcs, Suspended, Never, t, s'.pcs[t], s.flag, s.prio);
    } else {
      GateProceed(s.waiters, 0, s.pcs, Suspended, Never, t, s'.pcs[t], 0);
      forall u: Tid | u < |s.pcs| && s'.pcs[u].Waiting?
        ensures !Satisfied(s'.events, s'.pcs[u].want, s'.pcs[u].option)
      {
        if Satisfied(s'.events, s'.pcs[u].want, s'.pcs[u].option) {
          SatisfiedMonotone(s'.events, s.events, s'.pcs[u].want, s'.pcs[u].option);
        }
      }
    }
  }

  lemma StepKeepsInv(s: State, ev: Event)
    requires Inv(s) && Enabled(s, ev)
    ensures Inv(Step(s, ev))
  {
    match ev
    case Send(t, bits) =>
      if bits != {} {
        SendKeepsInv(s, t, bits);
      } else {
        GateProceed(s.waiters, 0, s.pcs, Suspended, Never, t, Idle(Done(ERROR)), 0);
      }
    case Recv(t, want, option, timeout) => RecvKeepsInv(s, t, want, option, timeout);
    case Resume(t) => GateProceed(s.waiters, 0, s.pcs, Suspended, Never, t, Step(s, ev).pcs[t], 0);
    case Expire(t) => GateExpire(s.waiters, 0, s.pcs, Suspended, Never, t, Step(s, ev).pcs[t]);
    case Reset => CountNone(Step(s, ev).pcs, Never);
  }

  predicate Runnable(s: State, evs: seq<Event>)
    requires Shape(s)
    decreases |evs|
  {
    evs == [] || (Enabled(s, evs[0]) && Runnable(Step(s, evs[0]), evs[1..]))
  }

  function Exec(s: State, evs: seq<Event>): (s': State)
    requires Shape(s) && Runnable(s, evs)
    ensures Shape(s')
    decreases |evs|
  {
    if evs == [] then s else Exec(Step(s, evs[0]), evs[1..])
  }

  lemma {:induction false} RunKeepsInv(s: State, evs: seq<Event>)
    requires Inv(s) && Runnable(s, evs)
    ensures Inv(Exec(s, evs))
    decreases |evs|
  {
    if evs != [] {
      StepKeepsInv(s, evs[0]);
      RunKeepsInv(Step(s, evs[0]), evs[1..]);
    }
  }

  /** A non-blocking receive by each listed thread, in list order. */
  function Receives(q: seq<Tid>, pcs: seq<Pc>): (evs: seq<Event>)
    requires Known(q, |pcs|) && forall i :: 0 <= i < |q| ==> pcs[q[i]].Waiting?
    ensures |evs| == |q|
  {
    if q == [] then []
    else [Recv(q[0], pcs[q[0]].want, pcs[q[0]].option, 0)] + Receives(q[1..], pcs)
  }

  /** The listed threads whose receive failed, in list order. */
  function Failed(q: seq<Tid>, pcs: seq<Pc>): seq<Tid>
    requires Known(q, |pcs|)
  {
    if q == [] then []
    else (if pcs[q[0]] == Idle(Done(ETIMEOUT)) then [q[0]] else []) + Failed(q[1..], pcs)
  }

  /** A thread that asked is now suspended as before or woken, as its receive failed or succeeded. */
  predicate Answered(asked: Pc, after: Pc, call: Pc) {
    if call == Idle(Done(ETIMEOUT)) then after == asked
    else after.Woken? && after.err == EOK && call == Idle(Received(after.got))
  }

  /** Every listed thread is answered, and every other one is left alone. */
  predicate AllAnswered(q: seq<Tid>, asked: seq<Pc>, after: seq<Pc>, before: seq<Pc>, calls: seq<Pc>) {
    && |asked| == |after| == |before| == |calls|
    && forall t: Tid :: t < |asked| ==>
         if t in q then Answered(asked[t], after[t], calls[t])
         else after[t] == asked[t] && calls[t] == before[t]
  }

  /**
   * A sweep is the receives of the listed threads, one after another: they can be run, they
   * leave the same bits, each woken thread has what its receive returned, and the threads that
   * stay suspended are those whose receive failed.
   */
  lemma {:induction false} SweepIsReceives(s: State, q: seq<Tid>, pcs: seq<Pc>)
    requires Shape(s) && Known(q, |pcs|) && NoDup(q) && |s.pcs| == |pcs|
    requires forall i :: 0 <= i < |q| ==> Asks(pcs[q[i]])
    requires forall i :: 0 <= i < |q| ==> s.pcs[q[i]].Idle?
    ensures forall i :: 0 <= i < |q| ==> pcs[q[i]].Waiting?
    ensures var evs, r := Receives(q, pcs), Sweep(s.events, q, pcs);
            Runnable(s, evs) &&
            var e := Exec(s, evs);
            && AllAnswered(q, pcs, r.pcs, s.pcs, e.pcs) && e.events == r.events && e.waiters == s.waiters
            && r.waiters == Failed(q, e.pcs)
    decreases |q|
  {
    if q != [] {
      var ev, s1, pcs1 := FirstReceive(s, q, pcs);
      SweepIsReceives(s1, q[1..], pcs1);
      ReceivesElsewhere(q[1..], pcs, pcs1);
      RunStep(s, ev, Receives(q[1..], pcs));
      AnsweredFirst(q, pcs, pcs1, Sweep(s.events, q, pcs).pcs, s.pcs, s1.pcs,
                    Exec(s1, Receives(q[1..], pcs1)).pcs);
    }
  }

  /** The first turn of a sweep against the receive of the first thread. */
  lemma {:induction false} FirstReceive(s: State, q: seq<Tid>, pcs: seq<Pc>)
    returns (ev: Event, s1: State, pcs1: seq<Pc>)
    requires Shape(s) && Known(q, |pcs|) && NoDup(q) && |s.pcs| == |pcs|
    requires q != [] && Asks(pcs[q[0]]) && s.pcs[q[0]].Idle?
    requires forall i :: 0 <= i < |q| ==> Asks(pcs[q[i]]) && s.pcs[q[i]].Idle?
    ensures |pcs1| == |pcs| == |s1.pcs|
    ensures forall i :: 0 <= i < |q| - 1 ==> Asks(pcs1[q[1..][i]]) && s1.pcs[q[1..][i]].Idle?
    ensures forall i :: 0 <= i < |q| - 1 ==> pcs1[q[1..][i]] == pcs[q[1..][i]]
    ensures ev == Recv(q[0], pcs[q[0]].want, pcs[q[0]].option, 0) && Enabled(s, ev) && s1 == Step(s, ev)
    ensures s1.waiters == s.waiters
    ensures pcs1 == pcs[q[0] := pcs1[q[0]]] && s1.pcs == s.pcs[q[0] := s1.pcs[q[0]]]
    ensures Answered(pcs[q[0]], pcs1[q[0]], s1.pcs[q[0]])
    ensures var r, r1 := Sweep(s.events, q, pcs), Sweep(s1.events, q[1..], pcs1);
            && r.events == r1.events && r.pcs == r1.pcs
            && r.waiters == (if s1.pcs[q[0]] == Idle(Done(ETIMEOUT)) then [q[0]] else []) + r1.waiters
  {
    var u, pc := q[0], pcs[q[0]];
    ev := Recv(u, pc.want, pc.option, 0);
    s1 := Step(s, ev);
    pcs1 := if Satisfied(s.events, pc.want, pc.option) then pcs[u := Woken(EOK, s.events * pc.want)] else pcs;
    forall i | 0 <= i < |q| - 1 ensures q[1..][i] != u && Asks(pcs[q[1..][i]]) && s.pcs[q[1..][i]].Idle? {
      assert q[1..][i] == q[i + 1];
    }
  }

  lemma RunStep(s: State, ev: Event, evs: seq<Event>)
    requires Shape(s) && Enabled(s, ev) && Runnable(Step(s, ev), evs)
    ensures Runnable(s, [ev] + evs) && Exec(s, [ev] + evs) == Exec(Step(s, ev), evs)
  {
    assert ([ev] + evs)[1..] == evs;
  }

  /** The first thread is answered by its own call and the others later. */
  lemma AnsweredFirst(q: seq<Tid>, asked: seq<Pc>, asked1: seq<Pc>, after: seq<Pc>,
                      before: seq<Pc>, before1: seq<Pc>, calls: seq<Pc>)
    requires q != [] && NoDup(q) && Known(q, |asked|) && |before| == |asked| == |asked1| == |before1|
    requires AllAnswered(q[1..], asked1, after, before1, calls)
    requires asked1 == asked[q[0] := asked1[q[0]]] && before1 == before[q[0] := before1[q[0]]]
    requires Answered(asked[q[0]], asked1[q[0]], before1[q[0]])
    ensures AllAnswered(q, asked, after, before, calls)
  {
    assert q[0] !in q[1..];
    assert forall t: Tid :: t in q <==> t == q[0] || t in q[1..];
  }

  lemma {:induction false} ReceivesElsewhere(q: seq<Tid>, pcs: seq<Pc>, pcs1: seq<Pc>)
    requires |pcs| == |pcs1| && Known(q, |pcs|)
    requires forall i :: 0 <= i < |q| ==> pcs[q[i]].Waiting? && pcs1[q[i]] == pcs[q[i]]
    ensures Receives(q, pcs) == Receives(q, pcs1)
  {
    if q != [] { ReceivesElsewhere(q[1..], pcs, pcs1); }
  }

  /** The situations as if the suspended threads had not called yet. */
  function BeforeCalls(pcs: seq<Pc>): (r: seq<Pc>)
    ensures |r| == |pcs|
    ensures forall t: Tid :: t < |pcs| ==> r[t] == if pcs[t].Waiting? then Idle(Nothing) else pcs[t]
  {
    seq(|pcs|, i requires 0 <= i < |pcs| => if pcs[i].Waiting? then Idle(Nothing) else pcs[i])
  }

  /**
   * In every reachable state a send equals OR-ing in the bits and then running the receive check
   * of every suspended thread in list order: the bits left are those the receives leave, a
   * thread is woken with the bits its receive returned, the threads whose receive failed stay
   * suspended in their order, and nobody else but the sender is affected.
   */
  lemma SendIsReceives(s: State, evs: seq<Event>, t: Tid, bits: Bits)
    requires Init(s) && Runnable(s, evs) && Enabled(Exec(s, evs), Send(t, bits)) && bits != {}
    ensures var e := Exec(s, evs);
            var e' := Step(e, Send(t, bits));
            var s0 := e.(events := e.events + bits, waiters := [], pcs := BeforeCalls(e.pcs));
            && Known(e.waiters, |e.pcs|) && (forall i :: 0 <= i < |e.waiters| ==> e.pcs[e.waiters[i]].Waiting?)
            && var calls := Receives(e.waiters, e.pcs);
            Runnable(s0, calls) &&
            var f := Exec(s0, calls);
            && |f.pcs| == |e'.pcs| == |e.pcs| && e'.events == f.events && e'.waiters == Failed(e.waiters, f.pcs)
            && e'.pcs[t] == Idle(Done(EOK))
            && (forall u: Tid :: u < |e.pcs| && u in e.waiters ==> Answered(e.pcs[u], e'.pcs[u], f.pcs[u]))
            && (forall u: Tid :: u < |e.pcs| && u !in e.waiters && u != t ==> e'.pcs[u] == e.pcs[u])
  {
    CountNone(s.pcs, Never);
    RunKeepsInv(s, evs);
    var e := Exec(s, evs);
    forall i | 0 <= i < |e.waiters| ensures Asks(e.pcs[e.waiters[i]]) && e.waiters[i] != t {
      assert e.waiters[i] in e.waiters;
    }
    var s0 := e.(events := e.events + bits, waiters := [], pcs := BeforeCalls(e.pcs));
    SweepIsReceives(s0, e.waiters, e.pcs);
  }

  /** In every reachable state, no suspended thread is satisfied by the event set. */
  lemma NobodyWaitsSatisfied(s: State, evs: seq<Event>)
    requires Init(s) && Runnable(s, evs)
    ensures var e := Exec(s, evs);
            forall t: Tid :: t < |e.pcs| && e.pcs[t].Waiting? ==>
              !Satisfied(e.events, e.pcs[t].want, e.pcs[t].option)
  {
    CountNone(s.pcs, Never);
    RunKeepsInv(s, evs);
  }
}

/** The event object as the kernel stores it, with the in-place walk of rt_event_send. */
module EventObject {
  import opened Kernel
  import opened WaitQueue
  import opened EventModel

  /** The walk, at position `i` of the list, is on its way to `goal`. */
  predicate Continues(goal: Swept, events: Bits, q: seq<Tid>, pcs: seq<Pc>, i: nat) {
    i <= |q| && Known(q, |pcs|) &&
    var r := Sweep(events, q[i..], pcs);
    goal == Swept(r.events, q[..i] + r.waiters, r.pcs)
  }

  lemma {:induction false} WalkSkips(goal: Swept, events: Bits, q: seq<Tid>, pcs: seq<Pc>, i: nat)
    requires Continues(goal, events, q, pcs, i) && i < |q|
    requires var pc := pcs[q[i]]; pc.Waiting? && !Satisfied(events, pc.want, pc.option)
    ensures Continues(goal, events, q, pcs, i + 1)
  {
    assert q[i..][0] == q[i] && q[i..][1..] == q[i + 1..];
    assert q[..i + 1] == q[..i] + [q[i]];
  }

  lemma {:induction false} WalkWakes(goal: Swept, events: Bits, q: seq<Tid>, pcs: seq<Pc>, i: nat)
    requires Continues(goal, events, q, pcs, i) && i < |q|
    requires var pc := pcs[q[i]]; pc.Waiting? && Satisfied(events, pc.want, pc.option)
    ensures var pc := pcs[q[i]];
            Continues(goal, Cleared(events, pc.want, pc.option), q[..i] + q[i + 1..],
                      pcs[q[i] := Woken(EOK, events * pc.want)], i)
  {
    var q' := q[..i] + q[i + 1..];
    assert q[i..][0] == q[i] && q[i..][1..] == q[i + 1..] == q'[i..];
    assert q'[..i] == q[..i];
  }

  class EventObj {
    const flag: Flag
    const prio: seq<nat>
    var events: Bits
    var waiters: seq<Tid>
    var pcs: seq<Pc>

    ghost function Model(): State
      reads this
    {
      State(events, flag, prio, waiters, pcs)
    }

    ghost predicate Valid()
      reads this
    {
      Inv(Model())
    }

    /** rt_event_init. */
    constructor (flag: Flag, prio: seq<nat>)
      ensures Valid() && Init(Model()) && this.flag == flag && this.prio == prio
    {
      this.flag, this.prio := flag, prio;
      events := {};
      waiters := [];
      pcs := seq(|prio|, _ => Idle(Nothing));
    }

    /** rt_event_send: the walk over the list, which loses the threads that are resumed. */
    method SendBits(t: Tid, bits: Bits)
      requires Valid() && Enabled(Model(), Send(t, bits))
      modifies this
      ensures Model() == Step(old(Model()), Send(t, bits))
      ensures Valid()
    {
      StepKeepsInv(Model(), Send(t, bits));
      if bits == {} {
        pcs := pcs[t := Idle(Done(ERROR))];
        return;
      }
      events := events + bits;
      Walk();
      pcs := pcs[t := Idle(Done(EOK))];
    }

    /** The check of one suspended thread, and the bits that it would be given. */
    method Check(want: Bits, option: Option) returns (status: bool, eventSet: Bits)
      requires option.and || option.or
      ensures status <==> Satisfied(events, want, option)
      ensures status ==> eventSet == events * want
    {
      eventSet, status := want, false;
      if option.and {
        if want * events == want { status := true; }
      } else if option.or {
        if want * events != {} {
          eventSet := want * events;
          status := true;
        }
      } else {
        assert false;
      }
      assert want * events == events * want;
    }

    method Walk()
      requires Known(waiters, |pcs|) && NoDup(waiters)
      requires forall i :: 0 <= i < |waiters| ==>
        pcs[waiters[i]].Waiting? && (pcs[waiters[i]].option.and || pcs[waiters[i]].option.or)
      modifies this`events, this`waiters, this`pcs
      ensures Swept(events, waiters, pcs) == Sweep(old(events), old(waiters), old(pcs))
    {
      ghost var goal := Sweep(events, waiters, pcs);
      var i := 0;
      while i < |waiters|
        invariant i <= |waiters| && |pcs| == |old(pcs)|
        invariant Known(waiters, |pcs|) && NoDup(waiters)
        invariant forall j :: i <= j < |waiters| ==>
          pcs[waiters[j]].Waiting? && (pcs[waiters[j]].option.and || pcs[waiters[j]].option.or)
        invariant Continues(goal, events, waiters, pcs, i)
        decreases |waiters| - i
      {
        var u := waiters[i];
        var option := pcs[u].option;
        var status, eventSet := Check(pcs[u].want, option);
        if status {
          WalkWakes(goal, events, waiters, pcs, i);
          ghost var was := events;
          assert was - eventSet == was - pcs[u].want;
          if option.clear { events := events - eventSet; }
          pcs := pcs[u := Woken(EOK, eventSet)];
          Drop(i);
          assert waiters == waiters[..i] + waiters[i..];
        } else {
          WalkSkips(goal, events, waiters, pcs, i);
          i := i + 1;
        }
      }
      assert waiters[..i] == waiters && waiters[i..] == [];
    }

    /** rt_thread_resume takes the thread at position `i` off the list. */
    method Drop(i: nat)
      requires i < |waiters| && NoDup(waiters) && Known(waiters, |pcs|)
      modifies this`waiters
      ensures |waiters| == |old(waiters)| - 1 && NoDup(waiters) && Known(waiters, |pcs|)
      ensures waiters[..i] == old(waiters)[..i] && waiters[i..] == old(waiters)[i+1..]
      ensures forall j :: i <= j < |waiters| ==> waiters[j] == old(waiters)[j+1]
    {
      waiters := waiters[..i] + waiters[i+1..];
    }

    /** rt_event_recv up to its return or suspension. */
    method ReceiveOrWait(t: Tid, want: Bits, option: Option, timeout: int)
      requires Valid() && Enabled(Model(), Recv(t, want, option, timeout))
      modifies this
      ensures Model() == Step(old(Model()), Recv(t, want, option, timeout))
      ensures Valid()
    {
      StepKeepsInv(Model(), Recv(t, want, option, timeout));
      if want == {} {
        pcs := pcs[t := Idle(Done(ERROR))];
        return;
      }
      var status := false;
      if option.and {
        if events * want == want { status := true; }
      } else if option.or {
        if events * want != {} { status := true; }
      } else {
        assert false;
      }
      if status {
        pcs := pcs[t := Idle(Received(events * want))];
        if option.clear { events := events - want; }
      } else if timeout == 0 {
        pcs := pcs[t := Idle(Done(ETIMEOUT))];
      } else {
        waiters := Enqueue(waiters, t, flag, prio);
        pcs := pcs[t := Waiting(want, option, timeout)];
      }
    }

    /** A woken thread returns from rt_event_recv. */
    method ReturnWoken(t: Tid)
      requires Valid() && Enabled(Model(), Resume(t))
      modifies this
      ensures Model() == Step(old(Model()), Resume(t))
      ensures Valid()
    {
      StepKeepsInv(Model(), Resume(t));
      var pc := pcs[t];
      if pc.err != EOK {
        pcs := pcs[t := Idle(Done(pc.err))];
      } else {
        pcs := pcs[t := Idle(Received(pc.got))];
      }
    }

    /** The timer of a suspended thread fires. */
    method TimerExpires(t: Tid)
      requires Valid() && Enabled(Model(), Expire(t))
      modifies this
      ensures Model() == Step(old(Model()), Expire(t))
      ensures Valid()
    {
      StepKeepsInv(Model(), Expire(t));
      waiters := Remove(waiters, t);
      pcs := pcs[t := Woken(ETIMEOUT, pcs[t].want)];
    }

    /** rt_event_control with RT_IPC_CMD_RESET. */
    method ResetEvent()
      requires Valid()
      modifies this
      ensures Model() == Step(old(Model()), Reset)
      ensures Valid()
    {
      StepKeepsInv(Model(), Reset);
      ghost var before := pcs;
      while waiters != []
        invariant Known(waiters, |pcs|) && NoDup(waiters) && |pcs| == |before|
        invariant forall t: Tid :: t < |pcs| ==> (t in waiters ==> before[t].Waiting?)
        invariant forall t: Tid :: t < |pcs| ==>
          pcs[t] == if t !in waiters then Abandoned(before[t]) else before[t]
        decreases |waiters|
      {
        var w := waiters[0];
        assert w in waiters;
        waiters, pcs := waiters[1..], pcs[w := Abandoned(pcs[w])];
      }
      assert pcs == ReleaseAll(before);
      events := {};
    }
  }
}
