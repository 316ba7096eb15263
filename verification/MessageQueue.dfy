/**
 * The message queue of rt-thread/src/ipc.c as a transition system. Each send, urgent send and
 * receive is two sections with interrupts disabled and, between them, a copy that runs with
 * interrupts enabled; the copy is modelled one byte at a time, so any other event can fall
 * between two bytes.
 */
module MessageQueueModel {
  import opened Kernel
  import opened WaitQueue

  type Byte = bv8
  type Node = nat

  datatype Outcome = Nothing | Done(err: Err) | Got(bytes: seq<Byte>)

  datatype Pc =
    | Idle(last: Outcome)
    | SendWait(buf: seq<Byte>, timeout: int)
    | SendWoken(buf: seq<Byte>, timeout: int, err: Err)
    | Filling(node: Node, buf: seq<Byte>, urgent: bool, k: nat)  // copied buf[..k] into the node
    | RecvWait(size: nat, timeout: int)
    | RecvWoken(size: nat, timeout: int, err: Err)
    | Draining(node: Node, want: nat, got: seq<Byte>)            // copied `got` out of the node

  datatype State = State(
    msgSize: nat, nodes: nat, flag: Flag, prio: seq<nat>,
    free: seq<Node>, queue: seq<Node>,
    pool: seq<seq<Byte>>,
    receivers: seq<Tid>, senders: seq<Tid>,
    pcs: seq<Pc>)

  datatype Event =
    | Send(t: Tid, buf: seq<Byte>, timeout: int)
    | Urgent(t: Tid, buf: seq<Byte>)
    | Recv(t: Tid, size: nat, timeout: int)
    | Resume(t: Tid, elapsed: nat)   // a woken thread runs again
    | Copy(t: Tid)                   // one byte of a memcpy
    | Finish(t: Tid)                 // the second section of a call
    | Expire(t: Tid)                 // the timer of a suspended thread fires
    | Reset

  predicate Sending(pc: Pc) { pc.SendWait? }
  predicate Receiving(pc: Pc) { pc.RecvWait? }
  predicate MaySend(pc: Pc) { pc.SendWoken? && pc.err == EOK }
  predicate MayReceive(pc: Pc) { pc.RecvWoken? && pc.err == EOK }
  predicate Holds(pc: Pc) { pc.Filling? || pc.Draining? }

  function Woken(pc: Pc, err: Err): Pc {
    match pc
    case SendWait(buf, timeout) => SendWoken(buf, timeout, err)
    case RecvWait(size, timeout) => RecvWoken(size, timeout, err)
    case _ => pc
  }

  function Min(a: nat, b: nat): nat { if a < b then a else b }

  predicate PcShape(pc: Pc, msgSize: nat, nodes: nat) {
    match pc
    case SendWait(buf, _) => 0 < |buf| <= msgSize
    case SendWoken(buf, _, _) => 0 < |buf| <= msgSize
    case Filling(node, buf, _, k) => node < nodes && 0 < |buf| <= msgSize && k <= |buf|
    case RecvWait(size, _) => size > 0
    case RecvWoken(size, _, _) => size > 0
    case Draining(node, want, got) => node < nodes && |got| <= want <= msgSize
    case Idle(_) => true
  }

  predicate Shape(s: State) {
    && |s.prio| == |s.pcs|
    && Known(s.receivers, |s.pcs|) && Known(s.senders, |s.pcs|)
    && Known(s.free, s.nodes) && Known(s.queue, s.nodes)
    && |s.pool| == s.nodes
    && (forall n: Node :: n < s.nodes ==> |s.pool[n]| == s.msgSize)
    && (forall t: Tid :: t < |s.pcs| ==> PcShape(s.pcs[t], s.msgSize, s.nodes))
  }

  /** The parts of the state that never change. */
  predicate Fixed(s: State, s': State) {
    && s'.msgSize == s.msgSize && s'.nodes == s.nodes
    && s'.flag == s.flag && s'.prio == s.prio && |s'.pcs| == |s.pcs|
  }

  predicate Enabled(s: State, ev: Event) {
    ev.Reset? || (ev.t < |s.pcs| &&
      var pc := s.pcs[ev.t];
      match ev
      case Send(_, buf, _) => pc.Idle? && buf != []
      case Urgent(_, buf) => pc.Idle? && buf != []
      case Recv(_, size, _) => pc.Idle? && size > 0
      case Resume(_, _) => pc.SendWoken? || pc.RecvWoken?
      case Copy(_) => (pc.Filling? && pc.k < |pc.buf|) || (pc.Draining? && |pc.got| < pc.want)
      case Finish(_) => (pc.Filling? && pc.k == |pc.buf|) || (pc.Draining? && |pc.got| == pc.want)
      case Expire(_) => (pc.SendWait? || pc.RecvWait?) && pc.timeout > 0)
  }

  /** One pass of the loop of rt_mq_send_wait: take a free node, fail or suspend. */
  function TrySend(s: State, t: Tid, buf: seq<Byte>, timeout: int): (s': State)
    requires Shape(s) && t < |s.pcs| && 0 < |buf| <= s.msgSize
    ensures Shape(s') && Fixed(s, s')
  {
    if s.free != [] then
      s.(free := s.free[1..], pcs := s.pcs[t := Filling(s.free[0], buf, false, 0)])
    else if timeout == 0 then Fail(s, t, EFULL)
    else s.(senders := Enqueue(s.senders, t, s.flag, s.prio),
            pcs := s.pcs[t := SendWait(buf, timeout)])
  }

  /** One pass of the loop of rt_mq_recv: unlink the first message, fail or suspend. */
  function TryRecv(s: State, t: Tid, size: nat, timeout: int): (s': State)
    requires Shape(s) && t < |s.pcs| && size > 0
    ensures Shape(s') && Fixed(s, s')
  {
    if s.queue != [] then
      s.(queue := s.queue[1..], pcs := s.pcs[t := Draining(s.queue[0], Min(size, s.msgSize), [])])
    else if timeout == 0 then Fail(s, t, ETIMEOUT)
    else s.(receivers := Enqueue(s.receivers, t, s.flag, s.prio),
            pcs := s.pcs[t := RecvWait(size, timeout)])
  }

  /** One byte of the memcpy into or out of the node a thread holds. */
  function CopyByte(s: State, t: Tid): (s': State)
    requires Shape(s) && Enabled(s, Copy(t))
    ensures Shape(s') && Fixed(s, s')
  {
    var pc := s.pcs[t];
    if pc.Filling? then
      s.(pool := s.pool[pc.node := s.pool[pc.node][pc.k := pc.buf[pc.k]]],
         pcs := s.pcs[t := pc.(k := pc.k + 1)])
    else
      s.(pcs := s.pcs[t := pc.(got := pc.got + [s.pool[pc.node][|pc.got|]])])
  }

  /** The second section of a send: link the filled node and resume one receiver. */
  function Link(s: State, t: Tid): (s': State)
    requires Shape(s) && t < |s.pcs| && s.pcs[t].Filling?
    ensures Shape(s') && Fixed(s, s')
  {
    var pc := s.pcs[t];
    assert PcShape(pc, s.msgSize, s.nodes);
    var queue := if pc.urgent then [pc.node] + s.queue else s.queue + [pc.node];
    var pcs := s.pcs[t := Idle(Done(EOK))];
    if s.receivers == [] then s.(queue := queue, pcs := pcs)
    else
      var r := s.receivers[0];
      s.(queue := queue, receivers := s.receivers[1..], pcs := pcs[r := Woken(pcs[r], EOK)])
  }

  /** The second section of a receive: free the drained node and resume one sender. */
  function Recycle(s: State, t: Tid): (s': State)
    requires Shape(s) && t < |s.pcs| && s.pcs[t].Draining?
    ensures Shape(s') && Fixed(s, s')
  {
    var pc := s.pcs[t];
    assert PcShape(pc, s.msgSize, s.nodes);
    var free := [pc.node] + s.free;
    var pcs := s.pcs[t := Idle(Got(pc.got))];
    if s.senders == [] then s.(free := free, pcs := pcs)
    else
      var w := s.senders[0];
      s.(free := free, senders := s.senders[1..], pcs := pcs[w := Woken(pcs[w], EOK)])
  }

  function Reverse(q: seq<Node>): (r: seq<Node>)
    ensures |r| == |q|
  {
    if q == [] then [] else Reverse(q[1..]) + [q[0]]
  }

  lemma {:induction false} ReverseSame(q: seq<Node>)
    ensures multiset(Reverse(q)) == multiset(q)
    ensures forall i :: 0 <= i < |q| ==> Reverse(q)[i] in q
  {
    if q != [] {
      assert q == [q[0]] + q[1..];
      ReverseSame(q[1..]);
    }
  }

  /** Resuming every suspended thread with an error, as a reset does. */
  function ReleaseAll(pcs: seq<Pc>): (r: seq<Pc>)
    ensures |r| == |pcs| && forall t: Tid :: t < |pcs| ==> r[t] == Woken(pcs[t], ERROR)
  {
    seq(|pcs|, i requires 0 <= i < |pcs| => Woken(pcs[i], ERROR))
  }

  /** The call ends with an error code and nothing else changes. */
  function Fail(s: State, t: Tid, err: Err): (s': State)
    requires Shape(s) && t < |s.pcs|
    ensures Shape(s') && Fixed(s, s')
  {
    s.(pcs := s.pcs[t := Idle(Done(err))])
  }

  /** A woken thread runs again: it returns its error or makes another pass of its loop. */
  function Continue(s: State, t: Tid, elapsed: nat): (s': State)
    requires Shape(s) && Enabled(s, Resume(t, elapsed))
    ensures Shape(s') && Fixed(s, s')
  {
    var pc := s.pcs[t];
    assert PcShape(pc, s.msgSize, s.nodes);
    if pc.err != EOK then Fail(s, t, pc.err)
    else if pc.SendWoken? then TrySend(s, t, pc.buf, Remaining(pc.timeout, elapsed))
    else TryRecv(s, t, pc.size, Remaining(pc.timeout, elapsed))
  }

  /** The timer takes a suspended thread off its list. */
  function TimeOut(s: State, t: Tid): (s': State)
    requires Shape(s) && Enabled(s, Expire(t))
    ensures Shape(s') && Fixed(s, s')
  {
    assert PcShape(s.pcs[t], s.msgSize, s.nodes);
    var pcs := s.pcs[t := Woken(s.pcs[t], ETIMEOUT)];
    if s.pcs[t].SendWait? then s.(senders := Remove(s.senders, t), pcs := pcs)
    else s.(receivers := Remove(s.receivers, t), pcs := pcs)
  }

  /** rt_mq_control: every suspended thread fails and every queued node is freed. */
  function Clear(s: State): (s': State)
    requires Shape(s)
    ensures Shape(s') && Fixed(s, s')
  {
    var back := Reverse(s.queue);
    ReverseSame(s.queue);
    var pcs := ReleaseAll(s.pcs);
    assert forall t: Tid :: t < |pcs| ==> PcShape(s.pcs[t], s.msgSize, s.nodes);
    s.(free := back + s.free, queue := [], receivers := [], senders := [], pcs := pcs)
  }

  function Step(s: State, ev: Event): (s': State)
    requires Shape(s) && Enabled(s, ev)
    ensures Shape(s') && Fixed(s, s')
  {
    match ev
    case Send(t, buf, timeout) =>
      if |buf| > s.msgSize then Fail(s, t, ERROR) else TrySend(s, t, buf, timeout)
    case Urgent(t, buf) =>
      if |buf| > s.msgSize then Fail(s, t, ERROR)
      else if s.free == [] then Fail(s, t, EFULL)
      else s.(free := s.free[1..], pcs := s.pcs[t := Filling(s.free[0], buf, true, 0)])
    case Recv(t, size, timeout) => TryRecv(s, t, size, timeout)
    case Resume(t, elapsed) => Continue(s, t, elapsed)
    case Copy(t) => CopyByte(s, t)
    case Finish(t) => if s.pcs[t].Filling? then Link(s, t) else Recycle(s, t)
    case Expire(t) => TimeOut(s, t)
    case Reset => Clear(s)
  }

  /** The test for "is copying into or out of node `n`". */
  function HolderOf(n: Node): Pc -> bool {
    pc => Holds(pc) && pc.node == n
  }

  /** How many times node `n` occurs among the free list, the queue and the copying threads. */
  function Places(s: State, n: Node): nat {
    multiset(s.free)[n] + multiset(s.queue)[n] + Count(s.pcs, HolderOf(n))
  }

  /** Every node is in exactly one place. */
  predicate Partition(s: State) {
    forall n: Node :: n < s.nodes ==> Places(s, n) == 1
  }

  predicate Inv(s: State) {
    && Shape(s) && s.nodes <= UINT16_MAX
    && Partition(s)
    && Gate(s.receivers, |s.queue|, s.pcs, Receiving, MayReceive)
    && Gate(s.senders, |s.free|, s.pcs, Sending, MaySend)
  }

  /** The order in which rt_mq_init pushes the nodes on the free list leaves the last on top. */
  function Countdown(n: nat): (r: seq<Node>)
    ensures |r| == n && Known(r, n)
    ensures forall k: nat :: multiset(r)[k] == if k < n then 1 else 0
  {
    if n == 0 then [] else [n - 1] + Countdown(n - 1)
  }

  predicate Init(s: State) {
    && Shape(s) && s.nodes <= UINT16_MAX
    && s.free == Countdown(s.nodes) && s.queue == [] && s.receivers == [] && s.senders == []
    && forall t: Tid :: t < |s.pcs| ==> s.pcs[t].Idle?
  }

  lemma InitInv(s: State)
    requires Init(s)
    ensures Inv(s)
  {
    forall n: Node | n < s.nodes ensures Places(s, n) == 1 { CountNone(s.pcs, HolderOf(n)); }
  }

  /** What the partition rules out: lists with repetitions or cycles, and shared nodes. */
  lemma Exclusive(s: State)
    requires Shape(s) && Partition(s)
    ensures NoDup(s.free) && NoDup(s.queue)
    ensures forall n: Node :: n in s.free ==> n !in s.queue
    ensures forall t: Tid :: t < |s.pcs| && Holds(s.pcs[t]) ==>
              s.pcs[t].node !in s.free && s.pcs[t].node !in s.queue
    ensures forall t: Tid, u: Tid :: t < u < |s.pcs| && Holds(s.pcs[t]) && Holds(s.pcs[u]) ==>
              s.pcs[t].node != s.pcs[u].node
    ensures forall n: Node :: n < s.nodes && n !in s.free && n !in s.queue ==>
              exists t: Tid :: t < |s.pcs| && Holds(s.pcs[t]) && s.pcs[t].node == n
  {
    forall i | 0 <= i < |s.free| ensures multiset(s.free)[s.free[i]] <= 1 && s.free[i] !in s.queue {
      assert Places(s, s.free[i]) == 1 && s.free[i] in multiset(s.free);
    }
    forall i | 0 <= i < |s.queue| ensures multiset(s.queue)[s.queue[i]] <= 1 {
      assert Places(s, s.queue[i]) == 1;
    }
    SingleMeansNoDup(s.free);
    SingleMeansNoDup(s.queue);
    forall t: Tid | t < |s.pcs| && Holds(s.pcs[t])
      ensures s.pcs[t].node !in s.free && s.pcs[t].node !in s.queue
    {
      var n := s.pcs[t].node;
      assert PcShape(s.pcs[t], s.msgSize, s.nodes);
      assert Places(s, n) == 1;
      CountPositive(s.pcs, t, HolderOf(n));
    }
    forall t: Tid, u: Tid | t < u < |s.pcs| && Holds(s.pcs[t]) && Holds(s.pcs[u])
      ensures s.pcs[t].node != s.pcs[u].node
    {
      var n := s.pcs[t].node;
      assert PcShape(s.pcs[t], s.msgSize, s.nodes);
      assert Places(s, n) == 1;
      if s.pcs[u].node == n { CountTwice(s.pcs, t, u, HolderOf(n)); }
    }
    forall n: Node | n < s.nodes && n !in s.free && n !in s.queue
      ensures exists t: Tid :: t < |s.pcs| && Holds(s.pcs[t]) && s.pcs[t].node == n
    {
      assert Places(s, n) == 1;
      var t := CountWitness(s.pcs, HolderOf(n));
    }
  }

  /** One thread changes its situation and nodes move between it and the lists. */
  lemma PartitionStep(s: State, s': State, t: Tid, x: Pc)
    requires Shape(s) && Partition(s) && s'.nodes == s.nodes
    requires t < |s.pcs| && s'.pcs == s.pcs[t := x]
    requires forall n: Node :: n < s.nodes ==>
      multiset(s'.free)[n] + multiset(s'.queue)[n] + (if HolderOf(n)(x) then 1 else 0)
      == multiset(s.free)[n] + multiset(s.queue)[n] + (if HolderOf(n)(s.pcs[t]) then 1 else 0)
    ensures Partition(s')
  {
    forall n: Node | n < s.nodes ensures Places(s', n) == 1 {
      assert Places(s, n) == 1;
      CountUpdate(s.pcs, t, x, HolderOf(n));
    }
  }

  lemma FailKeepsInv(s: State, t: Tid, err: Err)
    requires Inv(s) && t < |s.pcs| && !Sending(s.pcs[t]) && !Receiving(s.pcs[t]) && !Holds(s.pcs[t])
    requires MaySend(s.pcs[t]) ==> s.free == []
    requires MayReceive(s.pcs[t]) ==> s.queue == []
    ensures Inv(Fail(s, t, err))
  {
    var x := Idle(Done(err));
    PartitionStep(s, Fail(s, t, err), t, x);
    GateProceed(s.receivers, |s.queue|, s.pcs, Receiving, MayReceive, t, x, |s.queue|);
    GateProceed(s.senders, |s.free|, s.pcs, Sending, MaySend, t, x, |s.free|);
  }

  /** Taking the first free node, as send and urgent send do. */
  lemma TakeKeepsInv(s: State, t: Tid, buf: seq<Byte>, urgent: bool)
    requires Inv(s) && t < |s.pcs| && (s.pcs[t].Idle? || MaySend(s.pcs[t]))
    requires 0 < |buf| <= s.msgSize && s.free != []
    ensures Inv(s.(free := s.free[1..], pcs := s.pcs[t := Filling(s.free[0], buf, urgent, 0)]))
  {
    var x := Filling(s.free[0], buf, urgent, 0);
    var s' := s.(free := s.free[1..], pcs := s.pcs[t := x]);
    assert s.free == [s.free[0]] + s.free[1..];
    PartitionStep(s, s', t, x);
    GateProceed(s.receivers, |s.queue|, s.pcs, Receiving, MayReceive, t, x, |s.queue|);
    GateProceed(s.senders, |s.free|, s.pcs, Sending, MaySend, t, x, |s.free| - 1);
  }

  lemma TrySendKeepsInv(s: State, t: Tid, buf: seq<Byte>, timeout: int)
    requires Inv(s) && t < |s.pcs| && (s.pcs[t].Idle? || MaySend(s.pcs[t]))
    requires 0 < |buf| <= s.msgSize
    ensures Inv(TrySend(s, t, buf, timeout))
  {
    if s.free != [] {
      TakeKeepsInv(s, t, buf, false);
    } else if timeout == 0 {
      FailKeepsInv(s, t, EFULL);
    } else {
      var x := SendWait(buf, timeout);
      PartitionStep(s, TrySend(s, t, buf, timeout), t, x);
      GateProceed(s.receivers, |s.queue|, s.pcs, Receiving, MayReceive, t, x, |s.queue|);
      GateSuspend(s.senders, s.pcs, Sending, MaySend, t, x, s.flag, s.prio);
    }
  }

  /** Taking the first queued node, as receive does. */
  lemma UnlinkKeepsInv(s: State, t: Tid, x: Pc)
    requires Inv(s) && t < |s.pcs| && (s.pcs[t].Idle? || MayReceive(s.pcs[t])) && s.queue != []
    requires x.Draining? && x.node == s.queue[0] && PcShape(x, s.msgSize, s.nodes)
    ensures Inv(s.(queue := s.queue[1..], pcs := s.pcs[t := x]))
  {
    var s' := s.(queue := s.queue[1..], pcs := s.pcs[t := x]);
    assert s.queue == [s.queue[0]] + s.queue[1..];
    PartitionStep(s, s', t, x);
    GateProceed(s.receivers, |s.queue|, s.pcs, Receiving, MayReceive, t, x, |s.queue| - 1);
    GateProceed(s.senders, |s.free|, s.pcs, Sending, MaySend, t, x, |s.free|);
  }

  lemma TryRecvKeepsInv(s: State, t: Tid, size: nat, timeout: int)
    requires Inv(s) && t < |s.pcs| && (s.pcs[t].Idle? || MayReceive(s.pcs[t])) && size > 0
    ensures Inv(TryRecv(s, t, size, timeout))
  {
    var s' := TryRecv(s, t, size, timeout);
    if s.queue != [] {
      UnlinkKeepsInv(s, t, Draining(s.queue[0], Min(size, s.msgSize), []));
    } else if timeout == 0 {
      FailKeepsInv(s, t, ETIMEOUT);
    } else {
      var x := RecvWait(size, timeout);
      PartitionStep(s, s', t, x);
      GateSuspend(s.receivers, s.pcs, Receiving, MayReceive, t, x, s.flag, s.prio);
      GateProceed(s.senders, |s.free|, s.pcs, Sending, MaySend, t, x, |s.free|);
    }
  }

  lemma CopyKeepsInv(s: State, t: Tid)
    requires Inv(s) && Enabled(s, Copy(t))
    ensures Inv(CopyByte(s, t))
  {
    var s' := CopyByte(s, t);
    var x := s'.pcs[t];
    PartitionStep(s, s', t, x);
    GateProceed(s.receivers, |s.queue|, s.pcs, Receiving, MayReceive, t, x, |s.queue|);
    GateProceed(s.senders, |s.free|, s.pcs, Sending, MaySend, t, x, |s.free|);
  }

  /** Resuming the first thread of a list moves no node. */
  lemma PartitionWake(s: State, s': State, r: Tid, err: Err)
    requires Shape(s) && Partition(s) && r < |s.pcs| && !Holds(s.pcs[r])
    requires s'.nodes == s.nodes && s'.free == s.free && s'.queue == s.queue
    requires s'.pcs == s.pcs[r := Woken(s.pcs[r], err)]
    ensures Partition(s')
  {
    PartitionStep(s, s', r, Woken(s.pcs[r], err));
  }

  /** Attaching a filled node at either end, before any receiver is resumed for it. */
  lemma AttachKeeps(s: State, t: Tid, queue: seq<Node>)
    requires Inv(s) && t < |s.pcs| && s.pcs[t].Filling?
    requires var n := s.pcs[t].node; queue == [n] + s.queue || queue == s.queue + [n]
    ensures var s1 := s.(queue := queue, pcs := s.pcs[t := Idle(Done(EOK))]);
            && Partition(s1)
            && Gate(s.receivers, |s.queue|, s1.pcs, Receiving, MayReceive)
            && Gate(s.senders, |s.free|, s1.pcs, Sending, MaySend)
  {
    var x := Idle(Done(EOK));
    PartitionStep(s, s.(queue := queue, pcs := s.pcs[t := x]), t, x);
    GateProceed(s.receivers, |s.queue|, s.pcs, Receiving, MayReceive, t, x, |s.queue|);
    GateProceed(s.senders, |s.free|, s.pcs, Sending, MaySend, t, x, |s.free|);
  }

  lemma LinkKeepsInv(s: State, t: Tid)
    requires Inv(s) && t < |s.pcs| && s.pcs[t].Filling?
    ensures Inv(Link(s, t))
  {
    var pc, x := s.pcs[t], Idle(Done(EOK));
    var queue := if pc.urgent then [pc.node] + s.queue else s.queue + [pc.node];
    var s1 := s.(queue := queue, pcs := s.pcs[t := x]);
    AttachKeeps(s, t, queue);
    if s.receivers == [] {
      assert Link(s, t) == s1;
    } else {
      var r := s.receivers[0];
      assert r in s.receivers;
      var y := Woken(s1.pcs[r], EOK);
      PartitionWake(s1, Link(s, t), r, EOK);
      GateProceed(s.senders, |s.free|, s1.pcs, Sending, MaySend, r, y, |s.free|);
      GateWake(s.receivers, |s.queue|, s1.pcs, Receiving, MayReceive, y);
    }
  }

  lemma RecycleKeepsInv(s: State, t: Tid)
    requires Inv(s) && t < |s.pcs| && s.pcs[t].Draining?
    ensures Inv(Recycle(s, t))
  {
    var pc := s.pcs[t];
    var x := Idle(Got(pc.got));
    var s1 := s.(free := [pc.node] + s.free, pcs := s.pcs[t := x]);
    PartitionStep(s, s1, t, x);
    GateProceed(s.receivers, |s.queue|, s.pcs, Receiving, MayReceive, t, x, |s.queue|);
    GateProceed(s.senders, |s.free|, s.pcs, Sending, MaySend, t, x, |s.free|);
    if s.senders == [] {
      assert Recycle(s, t) == s1;
    } else {
      var w := s.senders[0];
      assert w in s.senders;
      var y := Woken(s1.pcs[w], EOK);
      PartitionWake(s1, Recycle(s, t), w, EOK);
      GateProceed(s.receivers, |s.queue|, s1.pcs, Receiving, MayReceive, w, y, |s.queue|);
      GateWake(s.senders, |s.free|, s1.pcs, Sending, MaySend, y);
    }
  }

  lemma TimeOutKeepsInv(s: State, t: Tid)
    requires Inv(s) && Enabled(s, Expire(t))
    ensures Inv(TimeOut(s, t))
  {
    var y := Woken(s.pcs[t], ETIMEOUT);
    PartitionStep(s, TimeOut(s, t), t, y);
    if s.pcs[t].SendWait? {
      GateExpire(s.senders, |s.free|, s.pcs, Sending, MaySend, t, y);
      GateProceed(s.receivers, |s.queue|, s.pcs, Receiving, MayReceive, t, y, |s.queue|);
    } else {
      GateExpire(s.receivers, |s.queue|, s.pcs, Receiving, MayReceive, t, y);
      GateProceed(s.senders, |s.free|, s.pcs, Sending, MaySend, t, y, |s.free|);
    }
  }

  lemma ClearKeepsInv(s: State)
    requires Inv(s)
    ensures Inv(Clear(s))
  {
    var s' := Clear(s);
    ReverseSame(s.queue);
    forall n: Node | n < s.nodes ensures Places(s', n) == 1 {
      assert Places(s, n) == 1;
      CountSame(s.pcs, s'.pcs, HolderOf(n));
    }
  }

  lemma StepKeepsInv(s: State, ev: Event)
    requires Inv(s) && Enabled(s, ev)
    ensures Inv(Step(s, ev))
  {
    match ev
    case Send(t, buf, timeout) =>
      if |buf| > s.msgSize { FailKeepsInv(s, t, ERROR); } else { TrySendKeepsInv(s, t, buf, timeout); }
    case Urgent(t, buf) =>
      if |buf| > s.msgSize {
        FailKeepsInv(s, t, ERROR);
      } else if s.free == [] {
        FailKeepsInv(s, t, EFULL);
      } else {
        TakeKeepsInv(s, t, buf, true);
      }
    case Recv(t, size, timeout) => TryRecvKeepsInv(s, t, size, timeout);
    case Resume(t, elapsed) =>
      var pc := s.pcs[t];
      assert PcShape(pc, s.msgSize, s.nodes);
      if pc.err != EOK {
        FailKeepsInv(s, t, pc.err);
      } else if pc.SendWoken? {
        TrySendKeepsInv(s, t, pc.buf, Remaining(pc.timeout, elapsed));
      } else {
        TryRecvKeepsInv(s, t, pc.size, Remaining(pc.timeout, elapsed));
      }
    case Copy(t) => CopyKeepsInv(s, t);
    case Finish(t) => if s.pcs[t].Filling? { LinkKeepsInv(s, t); } else { RecycleKeepsInv(s, t); }
    case Expire(t) => TimeOutKeepsInv(s, t);
    case Reset => ClearKeepsInv(s);
  }

  predicate Runnable(s: State, evs: seq<Event>)
    requires Shape(s)
    decreases |evs|
  {
    evs == [] || (Enabled(s, evs[0]) && Runnable(Step(s, evs[0]), evs[1..]))
  }

  function Exec(s: State, evs: seq<Event>): (s': State)
    requires Shape(s) && Runnable(s, evs)
    ensures Shape(s') && Fixed(s, s')
    decreases |evs|
  {
    if evs == [] then s else Exec(Step(s, evs[0]), evs[1..])
  }

  lemma {:induction false} RunKeepsInv(s: State, evs: seq<Event>)
    requires Inv(s) && Runnable(s, evs)
    ensures Inv(Exec(s, evs))
    decreases |evs|
  {
    if evs != [] {
      StepKeepsInv(s, evs[0]);
      RunKeepsInv(Step(s, evs[0]), evs[1..]);
    }
  }
}
