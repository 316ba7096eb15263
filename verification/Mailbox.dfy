/**
 * The mailbox of rt-thread/src/ipc.c as a transition system. Every event is one section that
 * runs with interrupts disabled, so any interleaving of threads and interrupt handlers is a
 * sequence of these events.
 */
module MailboxModel {
  import opened Kernel
  import opened WaitQueue

  type Word = int

  datatype Outcome = Nothing | Done(err: Err) | Mail(value: Word)

  /** Where a thread is: outside the mailbox, suspended in a call, or woken and not yet run. */
  datatype Pc =
    | Idle(last: Outcome)
    | SendWait(value: Word, timeout: int)
    | SendWoken(value: Word, timeout: int, err: Err)
    | RecvWait(timeout: int)
    | RecvWoken(timeout: int, err: Err)

  datatype State = State(
    size: nat, flag: Flag, prio: seq<nat>,
    box: seq<Word>,
    receivers: seq<Tid>, senders: seq<Tid>,
    pcs: seq<Pc>)

  datatype Event =
    | Send(t: Tid, value: Word, timeout: int)
    | Urgent(t: Tid, value: Word)
    | Recv(t: Tid, timeout: int)
    | Resume(t: Tid, elapsed: nat)   // a woken thread runs again
    | Expire(t: Tid)                 // the timer of a suspended thread fires
    | Reset

  predicate Sending(pc: Pc) { pc.SendWait? }
  predicate Receiving(pc: Pc) { pc.RecvWait? }
  predicate MaySend(pc: Pc) { pc.SendWoken? && pc.err == EOK }
  predicate MayReceive(pc: Pc) { pc.RecvWoken? && pc.err == EOK }

  function Woken(pc: Pc, err: Err): Pc {
    match pc
    case SendWait(v, timeout) => SendWoken(v, timeout, err)
    case RecvWait(timeout) => RecvWoken(timeout, err)
    case _ => pc
  }

  predicate Shape(s: State) {
    && |s.prio| == |s.pcs|
    && Known(s.receivers, |s.pcs|) && Known(s.senders, |s.pcs|)
    && |s.box| <= s.size <= UINT16_MAX
  }

  predicate Enabled(s: State, ev: Event) {
    ev.Reset? || (ev.t < |s.pcs| &&
      var pc := s.pcs[ev.t];
      match ev
      case Resume(_, _) => pc.SendWoken? || pc.RecvWoken?
      case Expire(_) => (pc.SendWait? || pc.RecvWait?) && pc.timeout > 0
      case _ => pc.Idle?)
  }

  /** The first suspended receiver, if any, is resumed; `box` is the new content. */
  function Deliver(s: State, t: Tid, box: seq<Word>): (s': State)
    requires Shape(s) && t < |s.pcs| && |box| <= s.size
    ensures Shape(s') && |s'.pcs| == |s.pcs|
  {
    var pcs := s.pcs[t := Idle(Done(EOK))];
    if s.receivers == [] then s.(box := box, pcs := pcs)
    else
      var r := s.receivers[0];
      s.(box := box, receivers := s.receivers[1..], pcs := pcs[r := Woken(pcs[r], EOK)])
  }

  /** One pass of the loop in rt_mb_send_wait. */
  function TrySend(s: State, t: Tid, value: Word, timeout: int): (s': State)
    requires Shape(s) && t < |s.pcs|
    ensures Shape(s') && |s'.pcs| == |s.pcs|
  {
    if |s.box| < s.size then Deliver(s, t, s.box + [value])
    else if timeout == 0 then s.(pcs := s.pcs[t := Idle(Done(EFULL))])
    else s.(senders := Enqueue(s.senders, t, s.flag, s.prio),
            pcs := s.pcs[t := SendWait(value, timeout)])
  }

  /** One pass of the loop in rt_mb_recv. */
  function TryRecv(s: State, t: Tid, timeout: int): (s': State)
    requires Shape(s) && t < |s.pcs|
    ensures Shape(s') && |s'.pcs| == |s.pcs|
  {
    if s.box != [] then
      var pcs := s.pcs[t := Idle(Mail(s.box[0]))];
      if s.senders == [] then s.(box := s.box[1..], pcs := pcs)
      else
        var w := s.senders[0];
        s.(box := s.box[1..], senders := s.senders[1..], pcs := pcs[w := Woken(pcs[w], EOK)])
    else if timeout == 0 then s.(pcs := s.pcs[t := Idle(Done(ETIMEOUT))])
    else s.(receivers := Enqueue(s.receivers, t, s.flag, s.prio),
            pcs := s.pcs[t := RecvWait(timeout)])
  }

  function Step(s: State, ev: Event): (s': State)
    requires Shape(s) && Enabled(s, ev)
    ensures Shape(s') && |s'.pcs| == |s.pcs|
  {
    match ev
    case Send(t, value, timeout) => TrySend(s, t, value, timeout)
    case Urgent(t, value) =>
      if |s.box| < s.size then Deliver(s, t, [value] + s.box)
      else s.(pcs := s.pcs[t := Idle(Done(EFULL))])
    case Recv(t, timeout) => TryRecv(s, t, timeout)
    case Resume(t, elapsed) =>
      var pc := s.pcs[t];
      if pc.err != EOK then s.(pcs := s.pcs[t := Idle(Done(pc.err))])
      else if pc.SendWoken? then TrySend(s, t, pc.value, Remaining(pc.timeout, elapsed))
      else TryRecv(s, t, Remaining(pc.timeout, elapsed))
    case Expire(t) =>
      var s1 := if s.pcs[t].SendWait? then s.(senders := Remove(s.senders, t))
                else s.(receivers := Remove(s.receivers, t));
      s1.(pcs := s.pcs[t := Woken(s.pcs[t], ETIMEOUT)])
    case Reset =>
      s.(box := [], receivers := [], senders := [], pcs := ReleaseAll(s.pcs))
  }

  /** Resuming every suspended thread with an error, as a reset does. */
  function ReleaseAll(pcs: seq<Pc>): seq<Pc> {
    seq(|pcs|, i requires 0 <= i < |pcs| => Woken(pcs[i], ERROR))
  }

  /**
   * The wait lists hold exactly the suspended threads. While receivers are suspended there are
   * no more mails than receivers woken and not yet run; while senders are suspended there are
   * no more free slots than senders woken and not yet run.
   */
  predicate Inv(s: State) {
    && Shape(s)
    && Gate(s.receivers, |s.box|, s.pcs, Receiving, MayReceive)
    && Gate(s.senders, s.size - |s.box|, s.pcs, Sending, MaySend)
  }

  predicate Init(s: State) {
    && Shape(s) && s.box == [] && s.receivers == [] && s.senders == []
    && forall t: Tid :: t < |s.pcs| ==> s.pcs[t].Idle?
  }

  lemma DeliverKeepsInv(s: State, t: Tid, box: seq<Word>)
    requires Inv(s) && t < |s.pcs| && |s.box| < s.size && |box| == |s.box| + 1
    requires s.pcs[t].Idle? || MaySend(s.pcs[t])
    ensures Inv(Deliver(s, t, box))
  {
    var x := Idle(Done(EOK));
    var pcs := s.pcs[t := x];
    GateProceed(s.receivers, |s.box|, s.pcs, Receiving, MayReceive, t, x, |s.box|);
    GateProceed(s.senders, s.size - |s.box|, s.pcs, Sending, MaySend, t, x, s.size - |box|);
    if s.receivers != [] {
      var r := s.receivers[0];
      assert r in s.receivers;
      GateProceed(s.senders, s.size - |box|, pcs, Sending, MaySend, r, Woken(pcs[r], EOK), s.size - |box|);
      GateWake(s.receivers, |s.box|, pcs, Receiving, MayReceive, Woken(pcs[r], EOK));
    }
  }

  lemma TrySendKeepsInv(s: State, t: Tid, value: Word, timeout: int)
    requires Inv(s) && t < |s.pcs|
    requires s.pcs[t].Idle? || MaySend(s.pcs[t])
    ensures Inv(TrySend(s, t, value, timeout))
  {
    if |s.box| < s.size {
      DeliverKeepsInv(s, t, s.box + [value]);
    } else {
      var x := if timeout == 0 then Idle(Done(EFULL)) else SendWait(value, timeout);
      GateProceed(s.receivers, |s.box|, s.pcs, Receiving, MayReceive, t, x, |s.box|);
      if timeout == 0 {
        GateProceed(s.senders, 0, s.pcs, Sending, MaySend, t, x, 0);
      } else {
        GateSuspend(s.senders, s.pcs, Sending, MaySend, t, x, s.flag, s.prio);
      }
    }
  }

  lemma TryRecvKeepsInv(s: State, t: Tid, timeout: int)
    requires Inv(s) && t < |s.pcs|
    requires s.pcs[t].Idle? || MayReceive(s.pcs[t])
    ensures Inv(TryRecv(s, t, timeout))
  {
    var n, room := |s.box|, s.size - |s.box|;
    if s.box != [] {
      var x := Idle(Mail(s.box[0]));
      var pcs := s.pcs[t := x];
      GateProceed(s.receivers, n, s.pcs, Receiving, MayReceive, t, x, n - 1);
      GateProceed(s.senders, room, s.pcs, Sending, MaySend, t, x, room);
      if s.senders != [] {
        var w := s.senders[0];
        assert w in s.senders;
        GateProceed(s.receivers, n - 1, pcs, Receiving, MayReceive, w, Woken(pcs[w], EOK), n - 1);
        GateWake(s.senders, room, pcs, Sending, MaySend, Woken(pcs[w], EOK));
      }
    } else {
      var x := if timeout == 0 then Idle(Done(ETIMEOUT)) else RecvWait(timeout);
      GateProceed(s.senders, room, s.pcs, Sending, MaySend, t, x, room);
      if timeout == 0 {
        GateProceed(s.receivers, 0, s.pcs, Receiving, MayReceive, t, x, 0);
      } else {
        GateSuspend(s.receivers, s.pcs, Receiving, MayReceive, t, x, s.flag, s.prio);
      }
    }
  }

  lemma StepKeepsInv(s: State, ev: Event)
    requires Inv(s) && Enabled(s, ev)
    ensures Inv(Step(s, ev))
  {
    var n, room := |s.box|, s.size - |s.box|;
    match ev
    case Send(t, value, timeout) => TrySendKeepsInv(s, t, value, timeout);
    case Urgent(t, value) =>
      if n < s.size {
        DeliverKeepsInv(s, t, [value] + s.box);
      } else {
        TrySendKeepsInv(s, t, value, 0);
      }
    case Recv(t, timeout) => TryRecvKeepsInv(s, t, timeout);
    case Resume(t, elapsed) =>
      var pc := s.pcs[t];
      if pc.err != EOK {
        var x := Idle(Done(pc.err));
        GateProceed(s.receivers, n, s.pcs, Receiving, MayReceive, t, x, n);
        GateProceed(s.senders, room, s.pcs, Sending, MaySend, t, x, room);
      } else if pc.SendWoken? {
        TrySendKeepsInv(s, t, pc.value, Remaining(pc.timeout, elapsed));
      } else {
        TryRecvKeepsInv(s, t, Remaining(pc.timeout, elapsed));
      }
    case Expire(t) =>
      var y := Woken(s.pcs[t], ETIMEOUT);
      if s.pcs[t].SendWait? {
        GateExpire(s.senders, room, s.pcs, Sending, MaySend, t, y);
        GateProceed(s.receivers, n, s.pcs, Receiving, MayReceive, t, y, n);
      } else {
        GateExpire(s.receivers, n, s.pcs, Receiving, MayReceive, t, y);
        GateProceed(s.senders, room, s.pcs, Sending, MaySend, t, y, room);
      }
    case Reset =>
  }

  predicate Runnable(s: State, evs: seq<Event>)
    requires Shape(s)
    decreases |evs|
  {
    evs == [] || (Enabled(s, evs[0]) && Runnable(Step(s, evs[0]), evs[1..]))
  }

  function Exec(s: State, evs: seq<Event>): (s': State)
    requires Shape(s) && Runnable(s, evs)
    ensures Shape(s')
    decreases |evs|
  {
    if evs == [] then s else Exec(Step(s, evs[0]), evs[1..])
  }

  lemma {:induction false} RunKeepsInv(s: State, evs: seq<Event>)
    requires Inv(s) && Runnable(s, evs)
    ensures Inv(Exec(s, evs))
    decreases |evs|
  {
    if evs != [] {
      StepKeepsInv(s, evs[0]);
      RunKeepsInv(Step(s, evs[0]), evs[1..]);
    }
  }

  /**
   * No wake-up is lost in any run: while receivers are suspended there are at most as many
   * mails as receivers woken and about to run, so a mail facing a suspended receiver always
   * has a runner; dually for free slots and suspended senders.
   */
  lemma NoLostWakeup(s: State, evs: seq<Event>)
    requires Init(s) && Runnable(s, evs)
    ensures var e := Exec(s, evs);
            && (e.receivers != [] ==> |e.box| <= Count(e.pcs, MayReceive))
            && (e.senders != [] ==> e.size - |e.box| <= Count(e.pcs, MaySend))
            && (e.receivers != [] && e.box != [] ==>
                  exists t: Tid :: t < |e.pcs| && MayReceive(e.pcs[t]))
            && (e.senders != [] && |e.box| < e.size ==>
                  exists t: Tid :: t < |e.pcs| && MaySend(e.pcs[t]))
  {
    RunKeepsInv(s, evs);
    var e := Exec(s, evs);
    if e.receivers != [] && e.box != [] {
      var t := CountWitness(e.pcs, MayReceive);
    }
    if e.senders != [] && |e.box| < e.size {
      var t := CountWitness(e.pcs, MaySend);
    }
  }

  /** The mail an event puts into the box, as a sequence of length 0 or 1. */
  function Accepted(s: State, ev: Event): seq<Word>
    requires Shape(s) && Enabled(s, ev)
  {
    if |s.box| == s.size then []
    else match ev
      case Send(_, value, _) => [value]
      case Urgent(_, value) => [value]
      case Resume(t, _) => if MaySend(s.pcs[t]) then [s.pcs[t].value] else []
      case _ => []
  }

  /** The mail an event takes out of the box, as a sequence of length 0 or 1. */
  function Taken(s: State, ev: Event): seq<Word>
    requires Shape(s) && Enabled(s, ev)
  {
    if s.box != [] && (ev.Recv? || (ev.Resume? && MayReceive(s.pcs[ev.t]))) then [s.box[0]] else []
  }

  function AllAccepted(s: State, evs: seq<Event>): seq<Word>
    requires Shape(s) && Runnable(s, evs)
    decreases |evs|
  {
    if evs == [] then [] else Accepted(s, evs[0]) + AllAccepted(Step(s, evs[0]), evs[1..])
  }

  function AllTaken(s: State, evs: seq<Event>): seq<Word>
    requires Shape(s) && Runnable(s, evs)
    decreases |evs|
  {
    if evs == [] then [] else Taken(s, evs[0]) + AllTaken(Step(s, evs[0]), evs[1..])
  }

  lemma FifoStep(s: State, ev: Event)
    requires Shape(s) && Enabled(s, ev) && !ev.Urgent? && !ev.Reset?
    ensures s.box + Accepted(s, ev) == Taken(s, ev) + Step(s, ev).box
  {
  }

  /** Without urgent mails and resets, mails come out exactly in the order they went in. */
  lemma {:induction false} FirstInFirstOut(s: State, evs: seq<Event>)
    requires Shape(s) && Runnable(s, evs)
    requires forall i :: 0 <= i < |evs| ==> !evs[i].Urgent? && !evs[i].Reset?
    ensures s.box + AllAccepted(s, evs) == AllTaken(s, evs) + Exec(s, evs).box
    decreases |evs|
  {
    if evs != [] {
      var s1 := Step(s, evs[0]);
      FifoStep(s, evs[0]);
      FirstInFirstOut(s1, evs[1..]);
      Rearrange(s.box, Accepted(s, evs[0]), AllAccepted(s1, evs[1..]),
                Taken(s, evs[0]), s1.box, AllTaken(s1, evs[1..]), Exec(s, evs).box);
    }
  }

  lemma Rearrange(box: seq<Word>, a: seq<Word>, as': seq<Word>, t: seq<Word>, box1: seq<Word>,
                  ts: seq<Word>, end: seq<Word>)
    requires box + a == t + box1 && box1 + as' == ts + end
    ensures box + (a + as') == (t + ts) + end
  {
    calc {
      box + (a + as');
      (box + a) + as';
      t + (box1 + as');
      (t + ts) + end;
    }
  }
}

/** The mailbox is a bounded double-ended queue of words, whatever the interleaving. */
module MailboxDeque {
  import opened Kernel
  import opened WaitQueue
  import opened MailboxModel

  /** The bounded queue: the mails in it and, for each thread, the last mail it was given. */
  datatype Deque = Deque(size: nat, mails: seq<Word>, given: seq<Word>)

  datatype Op = Stutter | PushBack(w: Word) | PushFront(w: Word) | Pop(t: Tid) | Empty

  predicate CanApply(d: Deque, op: Op) {
    && (op.PushBack? || op.PushFront? ==> |d.mails| < d.size)
    && (op.Pop? ==> d.mails != [] && op.t < |d.given|)
  }

  function Apply(d: Deque, op: Op): Deque
    requires CanApply(d, op)
  {
    match op
    case Stutter => d
    case PushBack(w) => d.(mails := d.mails + [w])
    case PushFront(w) => d.(mails := [w] + d.mails)
    case Pop(t) => d.(mails := d.mails[1..], given := d.given[t := d.mails[0]])
    case Empty => d.(mails := [])
  }

  /** What each event does to the queue: a call takes effect in the section in which it succeeds. */
  function Effect(s: State, ev: Event): Op
    requires Shape(s) && Enabled(s, ev)
  {
    var room := |s.box| < s.size;
    match ev
    case Send(_, value, _) => if room then PushBack(value) else Stutter
    case Urgent(_, value) => if room then PushFront(value) else Stutter
    case Recv(t, _) => if s.box != [] then Pop(t) else Stutter
    case Resume(t, _) =>
      if MaySend(s.pcs[t]) && room then PushBack(s.pcs[t].value)
      else if MayReceive(s.pcs[t]) && s.box != [] then Pop(t)
      else Stutter
    case Expire(_) => Stutter
    case Reset => Empty
  }

  /** The box is the queue, and a thread that returned with a mail returned the one it was given. */
  predicate Refines(s: State, d: Deque)
    requires Shape(s)
  {
    && d.size == s.size && d.mails == s.box && |d.given| == |s.pcs|
    && forall t: Tid :: t < |s.pcs| && s.pcs[t].Idle? && s.pcs[t].last.Mail? ==> s.pcs[t].last.value == d.given[t]
  }

  lemma SendRefines(s: State, d: Deque, t: Tid, value: Word, timeout: int)
    requires Shape(s) && Refines(s, d) && t < |s.pcs|
    ensures var op := if |s.box| < s.size then PushBack(value) else Stutter;
            CanApply(d, op) && Refines(TrySend(s, t, value, timeout), Apply(d, op))
  {
  }

  lemma RecvRefines(s: State, d: Deque, t: Tid, timeout: int)
    requires Shape(s) && Refines(s, d) && t < |s.pcs|
    ensures var op := if s.box != [] then Pop(t) else Stutter;
            CanApply(d, op) && Refines(TryRecv(s, t, timeout), Apply(d, op))
  {
  }

  lemma StepRefines(s: State, d: Deque, ev: Event)
    requires Shape(s) && Refines(s, d) && Enabled(s, ev)
    ensures CanApply(d, Effect(s, ev))
    ensures Refines(Step(s, ev), Apply(d, Effect(s, ev)))
  {
    match ev
    case Send(t, value, timeout) => SendRefines(s, d, t, value, timeout);
    case Recv(t, timeout) => RecvRefines(s, d, t, timeout);
    case Resume(t, elapsed) =>
      var pc := s.pcs[t];
      if MaySend(pc) { SendRefines(s, d, t, pc.value, Remaining(pc.timeout, elapsed)); }
      if MayReceive(pc) { RecvRefines(s, d, t, Remaining(pc.timeout, elapsed)); }
    case _ =>
  }

  function Effects(s: State, evs: seq<Event>): seq<Op>
    requires Shape(s) && Runnable(s, evs)
    decreases |evs|
  {
    if evs == [] then [] else [Effect(s, evs[0])] + Effects(Step(s, evs[0]), evs[1..])
  }

  predicate Accepts(d: Deque, ops: seq<Op>)
    decreases |ops|
  {
    ops == [] || (CanApply(d, ops[0]) && Accepts(Apply(d, ops[0]), ops[1..]))
  }

  function ApplyAll(d: Deque, ops: seq<Op>): Deque
    requires Accepts(d, ops)
    decreases |ops|
  {
    if ops == [] then d else ApplyAll(Apply(d, ops[0]), ops[1..])
  }

  /**
   * Every run, with urgent mails, timeouts, barging and resets, is a run of the bounded queue: no
   * mail is pushed into a full one or taken from an empty one, the box holds exactly its mails,
   * and each receive returned the mail that the queue gave that thread.
   */
  lemma {:induction false} RunRefines(s: State, d: Deque, evs: seq<Event>)
    requires Shape(s) && Refines(s, d) && Runnable(s, evs)
    ensures Accepts(d, Effects(s, evs))
    ensures Refines(Exec(s, evs), ApplyAll(d, Effects(s, evs)))
    decreases |evs|
  {
    if evs != [] {
      StepRefines(s, d, evs[0]);
      RunRefines(Step(s, evs[0]), Apply(d, Effect(s, evs[0])), evs[1..]);
      assert Effects(s, evs)[1..] == Effects(Step(s, evs[0]), evs[1..]);
    }
  }
}

/** The mailbox as the kernel stores it: a ring of words with two offsets and a counter. */
module MailboxRing {
  import opened Kernel
  import opened WaitQueue
  import opened MailboxModel

  /** An offset that has moved at most one round ahead, brought back into the ring. */
  function Wrap(a: nat, size: nat): (r: nat)
    requires a < 2 * size
    ensures r < size
  {
    if a < size then a else a - size
  }

  lemma WrapIsMod(a: nat, size: nat)
    requires a < 2 * size
    ensures Wrap(a, size) == a % size
  {
  }

  /** The `n` words that start at offset `out`. */
  function View(pool: seq<Word>, out: nat, n: nat): (b: seq<Word>)
    requires n <= |pool| && (n > 0 ==> out < |pool|)
    ensures |b| == n && forall i :: 0 <= i < n ==> b[i] == pool[Wrap(out + i, |pool|)]
  {
    seq(n, i requires 0 <= i < n => pool[Wrap(out + i, |pool|)])
  }

  /** Writing at the input offset appends. */
  lemma ViewAppend(pool: seq<Word>, out: nat, n: nat, v: Word)
    requires n < |pool| && out < |pool|
    ensures var at := Wrap(out + n, |pool|);
            View(pool[at := v], out, n + 1) == View(pool, out, n) + [v]
            && Wrap(at + 1, |pool|) == Wrap(out + (n + 1), |pool|)
  {
  }

  /** Writing just before the output offset prepends. */
  lemma ViewPrepend(pool: seq<Word>, out: nat, n: nat, v: Word)
    requires n < |pool| && out < |pool|
    ensures var back := if out > 0 then out - 1 else |pool| - 1;
            View(pool[back := v], back, n + 1) == [v] + View(pool, out, n)
            && Wrap(back + (n + 1), |pool|) == Wrap(out + n, |pool|)
  {
  }

  /** Moving the output offset removes the first word. */
  lemma ViewPop(pool: seq<Word>, out: nat, n: nat)
    requires 0 < n <= |pool| && out < |pool|
    ensures View(pool, Wrap(out + 1, |pool|), n - 1) == View(pool, out, n)[1..]
            && Wrap(Wrap(out + 1, |pool|) + (n - 1), |pool|) == Wrap(out + n, |pool|)
  {
  }

  class Mailbox {
    const pool: array<Word>
    const size: nat
    const flag: Flag
    const prio: seq<nat>
    var entry: nat
    var inOffset: nat
    var outOffset: nat
    var receivers: seq<Tid>
    var senders: seq<Tid>
    var pcs: seq<Pc>

    ghost predicate Ring()
      reads this
    {
      && pool.Length == size <= UINT16_MAX
      && entry <= size
      && if size == 0 then inOffset == outOffset == 0
         else inOffset < size && outOffset < size && inOffset == Wrap(outOffset + entry, size)
    }

    /** The mails in the order they will be received. */
    ghost function Box(): (b: seq<Word>)
      requires Ring()
      reads this, pool
      ensures |b| == entry
      ensures forall i :: 0 <= i < entry ==> b[i] == pool[Wrap(outOffset + i, size)]
    {
      View(pool[..], outOffset, entry)
    }

    /** The input offset is always `entry` places after the output offset, modulo the size. */
    lemma OffsetEquation()
      requires Ring() && size > 0
      ensures inOffset == (outOffset + entry) % size
    {
      WrapIsMod(outOffset + entry, size);
    }

    ghost function Model(): State
      requires Ring()
      reads this, pool
    {
      State(size, flag, prio, Box(), receivers, senders, pcs)
    }

    ghost predicate Valid()
      reads this, pool
    {
      Ring() && Inv(Model())
    }

    /** rt_mb_init and rt_mb_create: the requested size is stored in sixteen bits. */
    constructor (requested: nat, flag: Flag, prio: seq<nat>)
      ensures Valid() && Init(Model()) && fresh(pool)
      ensures size == requested % (UINT16_MAX + 1) && this.flag == flag && this.prio == prio
    {
      size := requested % (UINT16_MAX + 1);
      pool := new Word[requested % (UINT16_MAX + 1)](_ => 0);
      this.flag, this.prio := flag, prio;
      entry, inOffset, outOffset := 0, 0, 0;
      receivers, senders := [], [];
      pcs := seq(|prio|, _ => Idle(Nothing));
    }

    /** _ipc_list_resume on the receivers, if any is suspended. */
    method WakeReceiver()
      requires |receivers| > 0 ==> receivers[0] < |pcs|
      modifies this`receivers, this`pcs
      ensures old(receivers) == [] ==> receivers == [] && pcs == old(pcs)
      ensures old(receivers) != [] ==>
        && receivers == old(receivers)[1..]
        && pcs == old(pcs)[old(receivers)[0] := Woken(old(pcs)[old(receivers)[0]], EOK)]
    {
      if receivers != [] {
        var r := receivers[0];
        receivers, pcs := receivers[1..], pcs[r := Woken(pcs[r], EOK)];
      }
    }

    /** _ipc_list_resume on the senders, if any is suspended. */
    method WakeSender()
      requires |senders| > 0 ==> senders[0] < |pcs|
      modifies this`senders, this`pcs
      ensures old(senders) == [] ==> senders == [] && pcs == old(pcs)
      ensures old(senders) != [] ==>
        && senders == old(senders)[1..]
        && pcs == old(pcs)[old(senders)[0] := Woken(old(pcs)[old(senders)[0]], EOK)]
    {
      if senders != [] {
        var w := senders[0];
        senders, pcs := senders[1..], pcs[w := Woken(pcs[w], EOK)];
      }
    }

    /** Storing at the input offset: the new mail is received last. */
    method Append(value: Word)
      requires Ring() && entry < size
      modifies this`inOffset, this`entry, pool
      ensures Ring() && Box() == old(Box()) + [value]
    {
      ViewAppend(pool[..], outOffset, entry, value);
      ghost var was := pool[..];
      pool[inOffset] := value;
      assert pool[..] == was[inOffset := value];
      inOffset := inOffset + 1;
      if inOffset >= size { inOffset := 0; }
      if entry < UINT16_MAX {
        entry := entry + 1;
      } else {
        assert false;
      }
    }

    /** Storing just before the output offset: the new mail is received first. */
    method Prepend(value: Word)
      requires Ring() && entry < size
      modifies this`outOffset, this`entry, pool
      ensures Ring() && Box() == [value] + old(Box())
    {
      ViewPrepend(pool[..], outOffset, entry, value);
      ghost var was := pool[..];
      if outOffset > 0 {
        outOffset := outOffset - 1;
      } else {
        outOffset := size - 1;
      }
      pool[outOffset] := value;
      assert pool[..] == was[outOffset := value];
      entry := entry + 1;
    }

    /** Taking the first mail at the output offset. */
    method Pop() returns (value: Word)
      requires Ring() && entry > 0
      modifies this`outOffset, this`entry
      ensures Ring() && [value] + Box() == old(Box())
    {
      ViewPop(pool[..], outOffset, entry);
      ghost var was := Box();
      value := pool[outOffset];
      assert value == was[0];
      outOffset := outOffset + 1;
      if outOffset >= size { outOffset := 0; }
      if entry > 0 { entry := entry - 1; }
      assert Box() == was[1..];
    }

    /** One pass of the loop of rt_mb_send_wait. */
    method PassSend(t: Tid, value: Word, timeout: int)
      requires Valid() && t < |pcs| && (pcs[t].Idle? || MaySend(pcs[t]))
      modifies this, pool
      ensures Ring() && Model() == TrySend(old(Model()), t, value, timeout)
      ensures t < |pcs| && (pcs[t].SendWait? ==> pcs[t].value == value && pcs[t].timeout == timeout)
      ensures Valid()
    {
      ghost var before := Model();
      TrySendKeepsInv(before, t, value, timeout);
      if entry == size {
        if timeout == 0 {
          pcs := pcs[t := Idle(Done(EFULL))];
          return;
        }
        senders := Enqueue(senders, t, flag, prio);
        pcs := pcs[t := SendWait(value, timeout)];
        return;
      }
      Append(value);
      pcs := pcs[t := Idle(Done(EOK))];
      WakeReceiver();
    }

    /** rt_mb_send_wait up to its first return or suspension. */
    method SendOrWait(t: Tid, value: Word, timeout: int)
      requires Valid() && Enabled(Model(), Event.Send(t, value, timeout))
      modifies this, pool
      ensures Ring() && Model() == Step(old(Model()), Event.Send(t, value, timeout))
      ensures t < |pcs| && (pcs[t].SendWait? ==> pcs[t].value == value && pcs[t].timeout == timeout)
      ensures Valid()
    {
      PassSend(t, value, timeout);
    }

    /** rt_mb_urgent. */
    method Urgent(t: Tid, value: Word)
      requires Valid() && Enabled(Model(), Event.Urgent(t, value))
      modifies this, pool
      ensures Ring() && Model() == Step(old(Model()), Event.Urgent(t, value))
      ensures Valid()
    {
      ghost var before := Model();
      StepKeepsInv(before, Event.Urgent(t, value));
      if entry == size {
        pcs := pcs[t := Idle(Done(EFULL))];
        return;
      }
      Prepend(value);
      pcs := pcs[t := Idle(Done(EOK))];
      WakeReceiver();
    }

    /** One pass of the loop of rt_mb_recv. */
    method PassRecv(t: Tid, timeout: int)
      requires Valid() && t < |pcs| && (pcs[t].Idle? || MayReceive(pcs[t]))
      modifies this
      ensures Ring() && Model() == TryRecv(old(Model()), t, timeout)
      ensures Valid()
    {
      ghost var before := Model();
      TryRecvKeepsInv(before, t, timeout);
      if entry == 0 {
        if timeout == 0 {
          pcs := pcs[t := Idle(Done(ETIMEOUT))];
          return;
        }
        receivers := Enqueue(receivers, t, flag, prio);
        pcs := pcs[t := RecvWait(timeout)];
        return;
      }
      var value := Pop();
      pcs := pcs[t := Idle(Mail(value))];
      WakeSender();
    }

    /** rt_mb_recv up to its first return or suspension. */
    method Receive(t: Tid, timeout: int)
      requires Valid() && Enabled(Model(), Event.Recv(t, timeout))
      modifies this
      ensures Ring() && Model() == Step(old(Model()), Event.Recv(t, timeout))
      ensures Valid()
    {
      PassRecv(t, timeout);
    }

    /** What a woken thread does when it runs again inside rt_mb_send_wait or rt_mb_recv. */
    method Continue(t: Tid, elapsed: nat)
      requires Valid() && Enabled(Model(), Event.Resume(t, elapsed))
      modifies this, pool
      ensures Ring() && Model() == Step(old(Model()), Event.Resume(t, elapsed))
      ensures Valid()
    {
      StepKeepsInv(Model(), Event.Resume(t, elapsed));
      var pc := pcs[t];
      if pc.err != EOK {
        pcs := pcs[t := Idle(Done(pc.err))];
      } else if pc.SendWoken? {
        PassSend(t, pc.value, Remaining(pc.timeout, elapsed));
      } else {
        PassRecv(t, Remaining(pc.timeout, elapsed));
      }
    }

    /** The timer of a suspended thread fires. */
    method TimerExpires(t: Tid)
      requires Valid() && Enabled(Model(), Event.Expire(t))
      modifies this
      ensures Ring() && Model() == Step(old(Model()), Event.Expire(t))
      ensures Valid()
    {
      StepKeepsInv(Model(), Event.Expire(t));
      if pcs[t].SendWait? {
        senders := Remove(senders, t);
      } else {
        receivers := Remove(receivers, t);
      }
      pcs := pcs[t := Woken(pcs[t], ETIMEOUT)];
    }

    /** _ipc_list_resume_all: every thread of a list is resumed with an error. */
    method ResumeAll(q: seq<Tid>) returns (rest: seq<Tid>)
      requires Known(q, |pcs|) && NoDup(q)
      modifies this`pcs
      ensures rest == [] && |pcs| == |old(pcs)|
      ensures forall t: Tid :: t < |pcs| ==>
        pcs[t] == if t in q then Woken(old(pcs)[t], ERROR) else old(pcs)[t]
    {
      rest := q;
      while rest != []
        invariant Known(rest, |pcs|) && NoDup(rest) && |pcs| == |old(pcs)|
        invariant forall t :: t in rest ==> t in q
        invariant forall t: Tid :: t < |pcs| ==>
          pcs[t] == if t in q && t !in rest then Woken(old(pcs)[t], ERROR) else old(pcs)[t]
        decreases |rest|
      {
        var r := rest[0];
        assert r in rest;
        pcs := pcs[r := Woken(pcs[r], ERROR)];
        rest := rest[1..];
      }
    }

    /** rt_mb_control with RT_IPC_CMD_RESET. */
    method Reset()
      requires Valid()
      modifies this
      ensures Ring() && Model() == Step(old(Model()), Event.Reset)
      ensures Valid()
    {
      StepKeepsInv(Model(), Event.Reset);
      ghost var before := pcs;
      receivers := ResumeAll(receivers);
      senders := ResumeAll(senders);
      assert forall t: Tid :: t < |pcs| ==> pcs[t] == ReleaseAll(before)[t];
      entry, inOffset, outOffset := 0, 0, 0;
    }
  }
}
