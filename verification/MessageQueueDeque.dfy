/** The message queue is a double-ended queue of whole messages, whatever the interleaving. */
module MessageQueueDeque {
  import opened Kernel
  import opened WaitQueue
  import opened MessageQueueModel

  type Message = seq<Byte>

  /** A message given to a thread, and for how many bytes the thread asked. */
  datatype Given = Given(m: Message, asked: nat)

  /** The atomic queue: the messages waiting and, for each thread, the last one it was given. */
  datatype Deque = Deque(messages: seq<Message>, given: seq<Given>)

  datatype Op = Stutter | PushBack(m: Message) | PushFront(m: Message) | Pop(t: Tid, asked: nat) | Empty

  predicate CanApply(d: Deque, op: Op) {
    op.Pop? ==> d.messages != [] && op.t < |d.given|
  }

  function Apply(d: Deque, op: Op): Deque
    requires CanApply(d, op)
  {
    match op
    case Stutter => d
    case PushBack(m) => d.(messages := d.messages + [m])
    case PushFront(m) => d.(messages := [m] + d.messages)
    case Pop(t, asked) => Deque(d.messages[1..], d.given[t := Given(d.messages[0], asked)])
    case Empty => d.(messages := [])
  }

  /**
   * The instant at which each call takes effect: send and urgent send when their second
   * section links the node, receive when its first section unlinks one. A receive asks for the
   * size of its buffer, but for no more than the size of a message.
   */
  function Effect(s: State, ev: Event): Op
    requires Shape(s) && Enabled(s, ev)
  {
    match ev
    case Finish(t) =>
      var pc := s.pcs[t];
      if pc.Draining? then Stutter else if pc.urgent then PushFront(pc.buf) else PushBack(pc.buf)
    case Recv(t, size, _) => if s.queue != [] then Pop(t, Min(size, s.msgSize)) else Stutter
    case Resume(t, _) =>
      if MayReceive(s.pcs[t]) && s.queue != [] then Pop(t, Min(s.pcs[t].size, s.msgSize)) else Stutter
    case Reset => Empty
    case _ => Stutter
  }

  /** Equal wherever both are defined. */
  predicate Agree(a: seq<Byte>, b: seq<Byte>) {
    forall i :: 0 <= i < |a| && i < |b| ==> a[i] == b[i]
  }

  /** What a thread may rely on when `g` is what the deque gave it last. */
  predicate ThreadRefines(pc: Pc, pool: seq<seq<Byte>>, g: Given) {
    match pc
    case Filling(node, buf, _, k) => node < |pool| && k <= |buf| && buf[..k] <= pool[node]
    case Draining(node, want, got) =>
      node < |pool| && got <= pool[node] && g.m <= pool[node] && want == g.asked
    case Idle(Got(bytes)) => Agree(bytes, g.m) && |bytes| == g.asked
    case _ => true
  }

  predicate Refines(s: State, d: Deque)
    requires Shape(s)
  {
    && |d.messages| == |s.queue| && |d.given| == |s.pcs|
    && (forall i :: 0 <= i < |s.queue| ==> d.messages[i] <= s.pool[s.queue[i]])
    && (forall t: Tid :: t < |s.pcs| ==> ThreadRefines(s.pcs[t], s.pool, d.given[t]))
  }

  /** Writing a byte into a held node disturbs no queued message and no other thread. */
  lemma CopyRefines(s: State, d: Deque, t: Tid)
    requires Inv(s) && Refines(s, d) && Enabled(s, Copy(t))
    ensures Refines(CopyByte(s, t), d)
  {
    var s' := CopyByte(s, t);
    Exclusive(s);
    var pc := s.pcs[t];
    assert ThreadRefines(pc, s.pool, d.given[t]);
    assert PcShape(pc, s.msgSize, s.nodes);
    forall i | 0 <= i < |s.queue| ensures d.messages[i] <= s'.pool[s.queue[i]] {
      assert s.queue[i] in s.queue;
    }
    forall u: Tid | u < |s.pcs| ensures ThreadRefines(s'.pcs[u], s'.pool, d.given[u]) {
      assert ThreadRefines(s.pcs[u], s.pool, d.given[u]);
      assert PcShape(s.pcs[u], s.msgSize, s.nodes);
      if u != t {
        assert Holds(s.pcs[u]) ==> s.pcs[u].node != pc.node;
      }
    }
  }

  lemma LinkRefines(s: State, d: Deque, t: Tid)
    requires Inv(s) && Refines(s, d) && Enabled(s, Finish(t)) && s.pcs[t].Filling?
    ensures Refines(Link(s, t), Apply(d, Effect(s, Finish(t))))
  {
    var s', d' := Link(s, t), Apply(d, Effect(s, Finish(t)));
    var pc := s.pcs[t];
    assert ThreadRefines(pc, s.pool, d.given[t]) && pc.buf[..pc.k] == pc.buf;
    forall u: Tid | u < |s.pcs| ensures ThreadRefines(s'.pcs[u], s'.pool, d'.given[u]) {
      assert ThreadRefines(s.pcs[u], s.pool, d.given[u]);
    }
  }

  lemma TryRecvRefines(s: State, d: Deque, t: Tid, size: nat, timeout: int)
    requires Inv(s) && Refines(s, d) && t < |s.pcs| && size > 0
    ensures Refines(TryRecv(s, t, size, timeout), if s.queue != [] then Apply(d, Pop(t, Min(size, s.msgSize))) else d)
  {
  }

  /** Each event of the message queue is one step, or no step, of the atomic deque. */
  lemma StepRefines(s: State, d: Deque, ev: Event)
    requires Inv(s) && Refines(s, d) && Enabled(s, ev)
    ensures CanApply(d, Effect(s, ev))
    ensures Refines(Step(s, ev), Apply(d, Effect(s, ev)))
  {
    match ev
    case Copy(t) => CopyRefines(s, d, t);
    case Finish(t) =>
      if s.pcs[t].Filling? {
        LinkRefines(s, d, t);
      } else {
        RecycleRefines(s, d, t);
      }
    case Recv(t, size, timeout) => TryRecvRefines(s, d, t, size, timeout);
    case Resume(t, elapsed) => ContinueRefines(s, d, t, elapsed);
    case Reset => ClearRefines(s, d);
    case _ => StartRefines(s, d, ev);
  }

  /** Starting a send, or timing out, does not show in the deque. */
  lemma StartRefines(s: State, d: Deque, ev: Event)
    requires Inv(s) && Refines(s, d) && Enabled(s, ev) && (ev.Send? || ev.Urgent? || ev.Expire?)
    ensures Refines(Step(s, ev), d)
  {
    QuietRefines(s, Step(s, ev), d, ev.t);
  }

  /** A thread that neither moves a queued message nor finishes a copy leaves the deque alone. */
  lemma QuietRefines(s: State, s': State, d: Deque, t: Tid)
    requires Shape(s) && Shape(s') && Refines(s, d) && t < |s.pcs|
    requires s'.queue == s.queue && s'.pool == s.pool
    requires |s'.pcs| == |s.pcs| && s'.pcs == s.pcs[t := s'.pcs[t]]
    requires var x := s'.pcs[t];
             x.SendWait? || x.RecvWait? || x.SendWoken? || x.RecvWoken?
             || (x.Filling? && x.k == 0) || (x.Idle? && x.last.Done?)
    ensures Refines(s', d)
  {
  }

  lemma RecycleRefines(s: State, d: Deque, t: Tid)
    requires Inv(s) && Refines(s, d) && Enabled(s, Finish(t)) && s.pcs[t].Draining?
    ensures Refines(Recycle(s, t), d)
  {
    var s' := Recycle(s, t);
    assert ThreadRefines(s.pcs[t], s.pool, d.given[t]);
    forall u: Tid | u < |s.pcs| ensures ThreadRefines(s'.pcs[u], s'.pool, d.given[u]) {
      assert ThreadRefines(s.pcs[u], s.pool, d.given[u]);
    }
  }

  lemma ContinueRefines(s: State, d: Deque, t: Tid, elapsed: nat)
    requires Inv(s) && Refines(s, d) && Enabled(s, Resume(t, elapsed))
    ensures CanApply(d, Effect(s, Resume(t, elapsed)))
    ensures Refines(Continue(s, t, elapsed), Apply(d, Effect(s, Resume(t, elapsed))))
  {
    var pc := s.pcs[t];
    assert PcShape(pc, s.msgSize, s.nodes);
    if MayReceive(pc) { TryRecvRefines(s, d, t, pc.size, Remaining(pc.timeout, elapsed)); }
  }

  lemma ClearRefines(s: State, d: Deque)
    requires Inv(s) && Refines(s, d)
    ensures Refines(Clear(s), d.(messages := []))
  {
    var s' := Clear(s);
    forall u: Tid | u < |s.pcs| ensures ThreadRefines(s'.pcs[u], s'.pool, d.given[u]) {
      assert ThreadRefines(s.pcs[u], s.pool, d.given[u]);
    }
  }

  function Effects(s: State, evs: seq<Event>): seq<Op>
    requires Shape(s) && Runnable(s, evs)
    decreases |evs|
  {
    if evs == [] then [] else [Effect(s, evs[0])] + Effects(Step(s, evs[0]), evs[1..])
  }

  predicate Accepts(d: Deque, ops: seq<Op>)
    decreases |ops|
  {
    ops == [] || (CanApply(d, ops[0]) && Accepts(Apply(d, ops[0]), ops[1..]))
  }

  function ApplyAll(d: Deque, ops: seq<Op>): Deque
    requires Accepts(d, ops)
    decreases |ops|
  {
    if ops == [] then d else ApplyAll(Apply(d, ops[0]), ops[1..])
  }

  lemma {:induction false} RunRefines(s: State, d: Deque, evs: seq<Event>)
    requires Inv(s) && Refines(s, d) && Runnable(s, evs)
    ensures Accepts(d, Effects(s, evs))
    ensures Refines(Exec(s, evs), ApplyAll(d, Effects(s, evs)))
    decreases |evs|
  {
    if evs != [] {
      StepKeepsInv(s, evs[0]);
      StepRefines(s, d, evs[0]);
      RunRefines(Step(s, evs[0]), Apply(d, Effect(s, evs[0])), evs[1..]);
      assert Effects(s, evs)[1..] == Effects(Step(s, evs[0]), evs[1..]);
    }
  }

  function NewDeque(s: State): Deque {
    Deque([], seq(|s.pcs|, _ => Given([], 0)))
  }

  predicate FreshThreads(s: State) {
    forall t: Tid :: t < |s.pcs| ==> s.pcs[t] == Idle(Nothing)
  }

  /**
   * Linearization. From a fresh queue, every interleaving of sends, urgent sends, receives,
   * byte copies, timeouts and resets is accepted by the atomic deque at the chosen instants:
   * the queue holds exactly the deque's messages, and a receive that has returned gives as many
   * bytes as were asked for, which agree with the message the deque gave that thread; when no
   * more bytes were asked for than were sent, they are exactly that prefix of it.
   */
  lemma Linearizable(s: State, evs: seq<Event>)
    requires Init(s) && FreshThreads(s) && Runnable(s, evs)
    ensures Accepts(NewDeque(s), Effects(s, evs))
    ensures var e, d := Exec(s, evs), ApplyAll(NewDeque(s), Effects(s, evs));
            && |e.queue| == |d.messages| && |d.given| == |e.pcs|
            && (forall i :: 0 <= i < |e.queue| ==> d.messages[i] <= e.pool[e.queue[i]])
            && (forall t: Tid :: t < |e.pcs| && e.pcs[t].Idle? && e.pcs[t].last.Got? ==>
                  var bytes, g := e.pcs[t].last.bytes, d.given[t];
                  && |bytes| == g.asked && Agree(bytes, g.m)
                  && (g.asked <= |g.m| ==> bytes == g.m[..g.asked]))
  {
    InitInv(s);
    RunRefines(s, NewDeque(s), evs);
    var e, d := Exec(s, evs), ApplyAll(NewDeque(s), Effects(s, evs));
    forall t: Tid | t < |e.pcs| && e.pcs[t].Idle? && e.pcs[t].last.Got?
      ensures var bytes, g := e.pcs[t].last.bytes, d.given[t];
              && |bytes| == g.asked && Agree(bytes, g.m)
              && (g.asked <= |g.m| ==> bytes == g.m[..g.asked])
    {
      assert ThreadRefines(e.pcs[t], e.pool, d.given[t]);
    }
  }

  /** In every run the nodes stay partitioned and both lists stay free of repetitions. */
  lemma NodesNeverLost(s: State, evs: seq<Event>)
    requires Init(s) && Runnable(s, evs)
    ensures var e := Exec(s, evs);
            && Partition(e)
            && NoDup(e.free) && NoDup(e.queue)
            && e.nodes == s.nodes && |e.free| + |e.queue| <= e.nodes <= UINT16_MAX
  {
    InitInv(s);
    RunKeepsInv(s, evs);
    var e := Exec(s, evs);
    Exclusive(e);
    var both := e.free + e.queue;
    forall i, j | 0 <= i < j < |both| ensures both[i] != both[j] {
      if i < |e.free| <= j { assert e.free[i] in e.free && e.queue[j - |e.free|] in e.queue; }
    }
    Pigeonhole(both, e.nodes);
  }

  /** No wake-up is lost in any run. */
  lemma NoLostWakeup(s: State, evs: seq<Event>)
    requires Init(s) && Runnable(s, evs)
    ensures var e := Exec(s, evs);
            && (e.receivers != [] ==> |e.queue| <= Count(e.pcs, MayReceive))
            && (e.senders != [] ==> |e.free| <= Count(e.pcs, MaySend))
            && (e.receivers != [] && e.queue != [] ==>
                  exists t: Tid :: t < |e.pcs| && MayReceive(e.pcs[t]))
            && (e.senders != [] && e.free != [] ==>
                  exists t: Tid :: t < |e.pcs| && MaySend(e.pcs[t]))
  {
    InitInv(s);
    RunKeepsInv(s, evs);
    var e := Exec(s, evs);
    if e.receivers != [] && e.queue != [] {
      var t := CountWitness(e.pcs, MayReceive);
    }
    if e.senders != [] && e.free != [] {
      var t := CountWitness(e.pcs, MaySend);
    }
  }
}
