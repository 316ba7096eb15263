/** The message queue as the kernel stores it: nodes of one pool linked into two lists. */
module MessageQueueLinks {
  import opened Kernel
  import opened WaitQueue
  import opened MessageQueueModel

  /** RT_NULL as a link. */
  const NULL: int := -1

  /** What follows position `i` of a list. */
  function After(q: seq<Node>, i: nat): int {
    if i + 1 < |q| then q[i + 1] else NULL
  }

  /** Following `next` from `start` visits exactly `q` and ends at NULL. */
  predicate Linked(next: seq<int>, start: int, q: seq<Node>) {
    && start == (if q == [] then NULL else q[0])
    && Known(q, |next|)
    && forall i {:trigger After(q, i)} :: 0 <= i < |q| ==> next[q[i]] == After(q, i)
  }

  lemma LinkedTail(next: seq<int>, start: int, q: seq<Node>)
    requires Linked(next, start, q) && q != []
    ensures Linked(next, next[q[0]], q[1..])
  {
    assert next[q[0]] == After(q, 0);
    forall i | 0 <= i < |q| - 1 ensures next[q[1..][i]] == After(q[1..], i) {
      assert next[q[i + 1]] == After(q, i + 1);
    }
  }

  lemma LinkedOther(next: seq<int>, start: int, q: seq<Node>, n: Node, x: int)
    requires Linked(next, start, q) && n < |next| && n !in q
    ensures Linked(next[n := x], start, q)
  {
  }

  lemma LinkedPush(next: seq<int>, start: int, q: seq<Node>, n: Node)
    requires Linked(next, start, q) && n < |next| && n !in q
    ensures Linked(next[n := start], n, [n] + q)
  {
    var r, after := [n] + q, next[n := start];
    forall i | 0 <= i < |r| ensures after[r[i]] == After(r, i) {
      if i > 0 { assert next[q[i - 1]] == After(q, i - 1) && q[i - 1] in q; }
    }
  }

  lemma LinkedAppend(next: seq<int>, start: int, q: seq<Node>, n: Node)
    requires Linked(next, start, q) && q != [] && NoDup(q)
    requires n < |next| && n !in q && next[n] == NULL
    ensures Linked(next[q[|q| - 1] := n], start, q + [n])
  {
    var r, after := q + [n], next[q[|q| - 1] := n];
    forall i | 0 <= i < |r| ensures after[r[i]] == After(r, i) {
      assert q[|q| - 1] in q;
      if i < |q| { assert next[q[i]] == After(q, i); }
    }
  }

  /** What a copying thread may rely on: nothing else refers to its node. */
  lemma Alone(s: State, t: Tid)
    requires Inv(s) && t < |s.pcs| && Holds(s.pcs[t])
    ensures var n := s.pcs[t].node;
            && n < s.nodes && n !in s.free && n !in s.queue && |s.queue| < UINT16_MAX
            && forall u: Tid :: u < |s.pcs| && u != t && s.pcs[u].Filling? ==> s.pcs[u].node != n
    ensures forall u: Tid :: u < |s.pcs| && s.pcs[u].Filling? ==>
              s.pcs[u].node !in s.queue && s.pcs[u].node < s.nodes
  {
    Exclusive(s);
    EntryBelowMax(s, t);
    assert forall u: Tid :: u < |s.pcs| ==> PcShape(s.pcs[u], s.msgSize, s.nodes);
  }

  lemma ReadyToReset(s: State)
    requires Inv(s)
    ensures forall t: Tid :: t < |s.pcs| ==>
              (t in s.receivers <==> Receiving(s.pcs[t])) && (t in s.senders <==> Sending(s.pcs[t]))
    ensures forall u: Tid :: u < |s.pcs| && s.pcs[u].Filling? ==> s.pcs[u].node !in s.queue
  {
    Exclusive(s);
  }

  function NodeCount(poolSize: nat, msgSize: nat): (n: nat)
    ensures n <= UINT16_MAX
  {
    poolSize / (msgSize + 4) % (UINT16_MAX + 1)
  }

  /** RT_ALIGN with RT_ALIGN_SIZE 4, stored in a sixteen-bit field. */
  function AlignedSize(size: nat): nat {
    (size + 3) / 4 * 4 % (UINT16_MAX + 1)
  }

  class MessageQueue {
    const nodes: nat
    const msgSize: nat
    const flag: Flag
    const prio: seq<nat>
    const next: array<int>
    const bytes: array2<Byte>
    var head: int
    var tail: int
    var freeHead: int
    var entry: nat
    var receivers: seq<Tid>
    var senders: seq<Tid>
    var pcs: seq<Pc>

    /** The nodes on the two lists, in order. */
    ghost var free: seq<Node>
    ghost var queue: seq<Node>

    ghost function Pool(): (p: seq<seq<Byte>>)
      requires bytes.Length0 == nodes && bytes.Length1 == msgSize
      reads bytes
    {
      seq(nodes, n requires 0 <= n < nodes reads bytes =>
        seq(msgSize, k requires 0 <= k < msgSize reads bytes => bytes[n, k]))
    }

    /** Storing one byte of a node. */
    method Store(node: Node, k: nat, b: Byte)
      requires bytes.Length0 == nodes && bytes.Length1 == msgSize && node < nodes && k < msgSize
      modifies bytes
      ensures Pool() == old(Pool())[node := old(Pool())[node][k := b]]
    {
      bytes[node, k] := b;
      ghost var want := old(Pool())[node := old(Pool())[node][k := b]];
      forall n: Node | n < nodes ensures Pool()[n] == want[n] {
        assert forall j: nat :: j < msgSize ==> Pool()[n][j] == want[n][j];
      }
    }

    ghost function Model(): State
      requires bytes.Length0 == nodes && bytes.Length1 == msgSize
      reads this, bytes
    {
      State(msgSize, nodes, flag, prio, free, queue, Pool(), receivers, senders, pcs)
    }

    /** The pointers spell out two disjoint acyclic lists. */
    ghost predicate Chains()
      reads this`freeHead, this`free, this`head, this`tail, this`queue, next
    {
      && next.Length == nodes
      && NoDup(free) && NoDup(queue) && (forall n :: n in free ==> n !in queue)
      && Linked(next[..], freeHead, free)
      && Linked(next[..], head, queue)
      && tail == (if queue == [] then NULL else queue[|queue| - 1])
    }

    /** Both lists, and the counter is the length of the queue. */
    ghost predicate Lists()
      reads this`freeHead, this`free, this`head, this`tail, this`queue, this`entry, next
    {
      Chains() && entry == |queue|
    }

    /** A node that is being filled for the end of the queue has its link cleared. */
    ghost predicate Cleared()
      requires next.Length == nodes
      reads this`pcs, next
    {
      forall t: Tid :: t < |pcs| && pcs[t].Filling? && !pcs[t].urgent && pcs[t].k > 0 ==>
        pcs[t].node < nodes && next[pcs[t].node] == NULL
    }

    ghost predicate Valid()
      reads this, next, bytes
    {
      Lists() && Cleared() && bytes.Length0 == nodes && bytes.Length1 == msgSize && Inv(Model())
    }

    /** rt_mq_init: the pool of `poolSize` bytes is cut into nodes that are pushed on the free list. */
    constructor (size: nat, poolSize: nat, flag: Flag, prio: seq<nat>)
      ensures Valid() && Init(Model()) && fresh(next) && fresh(bytes)
      ensures msgSize == AlignedSize(size) && nodes == NodeCount(poolSize, msgSize)
      ensures this.flag == flag && this.prio == prio
      ensures forall t: Tid :: t < |pcs| ==> pcs[t] == Idle(Nothing)
    {
      var width := AlignedSize(size);
      var count := NodeCount(poolSize, width);
      msgSize, nodes := width, count;
      next := new int[count](_ => NULL);
      bytes := new Byte[count, width]((_, _) => 0);
      this.flag, this.prio := flag, prio;
      head, tail, entry := NULL, NULL, 0;
      receivers, senders := [], [];
      pcs := seq(|prio|, _ => Idle(Nothing));
      queue := [];
      new;
      freeHead := NULL;
      free := [];
      FreeAll();
      assert forall n: Node :: n < nodes ==> |Pool()[n]| == msgSize;
      assert Init(Model());
      InitInv(Model());
    }

    /** Moving the free list pointer past its first node. */
    method TakeFree() returns (msg: Node)
      requires Chains() && free != []
      modifies this`freeHead, this`free
      ensures Chains() && [msg] + free == old(free)
    {
      LinkedTail(next[..], freeHead, free);
      assert free[0] in free;
      msg := freeHead;
      freeHead := next[msg];
      free := free[1..];
    }

    /** Putting a node that is on neither list on top of the free list. */
    method PutFree(msg: Node)
      requires Chains() && msg < nodes && msg !in free && msg !in queue
      modifies this`freeHead, this`free, next
      ensures Chains() && free == [msg] + old(free)
      ensures forall n: Node :: n < nodes && n != msg ==> next[n] == old(next[n])
    {
      LinkedPush(next[..], freeHead, free, msg);
      LinkedOther(next[..], head, queue, msg, freeHead);
      ghost var was := next[..];
      next[msg] := freeHead;
      assert next[..] == was[msg := freeHead];
      freeHead := msg;
      free := [msg] + free;
    }

    /** Unlinking the first queued node. */
    method Unlink() returns (msg: Node)
      requires Chains() && queue != []
      modifies this`head, this`tail, this`queue
      ensures Chains() && [msg] + queue == old(queue)
    {
      LinkedTail(next[..], head, queue);
      assert queue[0] in queue;
      msg := head;
      head := next[msg];
      if tail == msg { tail := NULL; }
      queue := queue[1..];
    }

    /** Unlinking the first queued node and counting it out. */
    method Dequeue() returns (msg: Node)
      requires Lists() && queue != []
      modifies this`head, this`tail, this`queue, this`entry
      ensures Lists() && [msg] + queue == old(queue)
    {
      msg := Unlink();
      if entry > 0 { entry := entry - 1; }
    }

    /** Linking a node in front of the queue. */
    method LinkFirst(msg: Node)
      requires Lists() && msg < nodes && msg !in free && msg !in queue && entry < UINT16_MAX
      modifies this`head, this`tail, this`entry, this`queue, next
      ensures Lists() && queue == [msg] + old(queue)
      ensures forall n: Node :: n < nodes && n != msg ==> next[n] == old(next[n])
    {
      LinkedPush(next[..], head, queue, msg);
      LinkedOther(next[..], freeHead, free, msg, head);
      ghost var was := next[..];
      next[msg] := head;
      assert next[..] == was[msg := head];
      head := msg;
      if tail == NULL { tail := msg; }
      queue := [msg] + queue;
      if entry < UINT16_MAX { entry := entry + 1; } else { assert false; }
    }

    /** Linking a node whose link is cleared at the end of the queue. */
    method LinkLast(msg: Node)
      requires Lists() && msg < nodes && msg !in free && msg !in queue && entry < UINT16_MAX
      requires next[msg] == NULL
      modifies this`head, this`tail, this`entry, this`queue, next
      ensures Lists() && queue == old(queue) + [msg]
      ensures forall n: Node :: n < nodes && n !in old(queue) ==> next[n] == old(next[n])
    {
      ghost var was, last := next[..], tail;
      if queue != [] {
        assert queue[|queue| - 1] in queue;
        LinkedAppend(was, head, queue, msg);
        LinkedOther(was, freeHead, free, last, msg);
      }
      if tail != NULL { next[tail] := msg; }
      assert next[..] == if queue != [] then was[last := msg] else was;
      tail := msg;
      if head == NULL { head := msg; }
      queue := queue + [msg];
      if entry < UINT16_MAX { entry := entry + 1; } else { assert false; }
    }

    /** The loop of rt_mq_init that pushes every node on the free list. */
    method FreeAll()
      requires Lists() && free == [] && queue == []
      modifies this`freeHead, this`free, next
      ensures Lists() && free == Countdown(nodes)
    {
      for i := 0 to nodes
        invariant Lists() && free == Countdown(i) && queue == []
      {
        assert forall n :: n in free ==> n in multiset(free);
        PutFree(i);
      }
    }

    /** _ipc_list_resume on a list, if a thread is suspended on it. */
    method WakeFirst(q: seq<Tid>) returns (rest: seq<Tid>)
      requires next.Length == nodes && Cleared() && Known(q, |pcs|)
      modifies this`pcs
      ensures rest == if q == [] then [] else q[1..]
      ensures pcs == if q == [] then old(pcs) else old(pcs)[q[0] := Woken(old(pcs)[q[0]], EOK)]
      ensures Cleared()
    {
      rest := q;
      if q != [] {
        pcs := pcs[q[0] := Woken(pcs[q[0]], EOK)];
        rest := q[1..];
      }
    }

    /** One pass of the loop of rt_mq_send_wait. */
    method PassSend(t: Tid, buf: seq<Byte>, timeout: int)
      requires Valid() && t < |pcs| && (pcs[t].Idle? || MaySend(pcs[t])) && 0 < |buf| <= msgSize
      modifies this
      ensures Model() == TrySend(old(Model()), t, buf, timeout)
      ensures t < |pcs| && (pcs[t].SendWait? || pcs[t].Filling? ==> pcs[t].buf == buf)
      ensures Valid()
    {
      TrySendKeepsInv(Model(), t, buf, timeout);
      if freeHead == NULL {
        if timeout == 0 {
          pcs := pcs[t := Idle(Done(EFULL))];
          return;
        }
        senders := Enqueue(senders, t, flag, prio);
        pcs := pcs[t := SendWait(buf, timeout)];
        return;
      }
      var msg := TakeFree();
      pcs := pcs[t := Filling(msg, buf, false, 0)];
    }

    /** rt_mq_send_wait up to its copy, its return or its suspension. */
    method SendOrWait(t: Tid, buf: seq<Byte>, timeout: int)
      requires Valid() && Enabled(Model(), Send(t, buf, timeout))
      modifies this
      ensures Model() == Step(old(Model()), Send(t, buf, timeout))
      ensures t < |pcs| && (pcs[t].SendWait? || pcs[t].Filling? ==> pcs[t].buf == buf)
      ensures Valid()
    {
      if |buf| > msgSize {
        FailKeepsInv(Model(), t, ERROR);
        pcs := pcs[t := Idle(Done(ERROR))];
      } else {
        PassSend(t, buf, timeout);
      }
    }

    /** rt_mq_urgent up to its copy or its return. */
    method SendUrgent(t: Tid, buf: seq<Byte>)
      requires Valid() && Enabled(Model(), Urgent(t, buf))
      modifies this
      ensures Model() == Step(old(Model()), Urgent(t, buf))
      ensures Valid()
    {
      StepKeepsInv(Model(), Urgent(t, buf));
      if |buf| > msgSize {
        pcs := pcs[t := Idle(Done(ERROR))];
        return;
      }
      if freeHead == NULL {
        pcs := pcs[t := Idle(Done(EFULL))];
        return;
      }
      var msg := TakeFree();
      pcs := pcs[t := Filling(msg, buf, true, 0)];
    }

    /** One pass of the loop of rt_mq_recv. */
    method PassRecv(t: Tid, size: nat, timeout: int)
      requires Valid() && t < |pcs| && (pcs[t].Idle? || MayReceive(pcs[t])) && size > 0
      modifies this
      ensures Model() == TryRecv(old(Model()), t, size, timeout)
      ensures Valid()
    {
      TryRecvKeepsInv(Model(), t, size, timeout);
      if entry == 0 {
        if timeout == 0 {
          pcs := pcs[t := Idle(Done(ETIMEOUT))];
          return;
        }
        receivers := Enqueue(receivers, t, flag, prio);
        pcs := pcs[t := RecvWait(size, timeout)];
        return;
      }
      var msg := Dequeue();
      pcs := pcs[t := Draining(msg, if size > msgSize then msgSize else size, [])];
    }

    /** rt_mq_recv up to its copy, its return or its suspension. */
    method Receive(t: Tid, size: nat, timeout: int)
      requires Valid() && Enabled(Model(), Recv(t, size, timeout))
      modifies this
      ensures Model() == Step(old(Model()), Recv(t, size, timeout))
      ensures Valid()
    {
      PassRecv(t, size, timeout);
    }

    /** What a woken thread does when it runs again inside rt_mq_send_wait or rt_mq_recv. */
    method ContinueWoken(t: Tid, elapsed: nat)
      requires Valid() && Enabled(Model(), Resume(t, elapsed))
      modifies this
      ensures Model() == Step(old(Model()), Resume(t, elapsed))
      ensures Valid()
    {
      StepKeepsInv(Model(), Resume(t, elapsed));
      var pc := pcs[t];
      assert PcShape(pc, msgSize, nodes);
      if pc.err != EOK {
        pcs := pcs[t := Idle(Done(pc.err))];
      } else if pc.SendWoken? {
        PassSend(t, pc.buf, Remaining(pc.timeout, elapsed));
      } else {
        PassRecv(t, pc.size, Remaining(pc.timeout, elapsed));
      }
    }

    /**
     * One byte of the memcpy of a send or receive, with interrupts enabled. A send clears the
     * link of its node just before its first byte.
     */
    method CopyOne(t: Tid)
      requires Valid() && Enabled(Model(), Copy(t))
      modifies this, next, bytes
      ensures Model() == Step(old(Model()), Copy(t))
      ensures Valid()
    {
      StepKeepsInv(Model(), Copy(t));
      Alone(Model(), t);
      var pc := pcs[t];
      assert PcShape(pc, msgSize, nodes);
      if pc.Filling? {
        ClearLink(t);
        Store(pc.node, pc.k, pc.buf[pc.k]);
        pcs := pcs[t := pc.(k := pc.k + 1)];
      } else {
        pcs := pcs[t := pc.(got := pc.got + [bytes[pc.node, |pc.got|]])];
      }
    }

    /** Before its first byte, a send clears the link of its node. */
    method ClearLink(t: Tid)
      requires Lists() && Cleared() && t < |pcs| && pcs[t].Filling?
      requires pcs[t].node < nodes && pcs[t].node !in free && pcs[t].node !in queue
      modifies next
      ensures Lists() && Cleared()
      ensures !pcs[t].urgent ==> next[pcs[t].node] == NULL || pcs[t].k > 0
    {
      var node := pcs[t].node;
      if pcs[t].k == 0 && !pcs[t].urgent {
        LinkedOther(next[..], freeHead, free, node, NULL);
        LinkedOther(next[..], head, queue, node, NULL);
        ghost var was := next[..];
        next[node] := NULL;
        assert next[..] == was[node := NULL];
      }
    }

    /** The second section of rt_mq_send_wait and rt_mq_urgent. */
    method LinkMessage(t: Tid)
      requires Valid() && Enabled(Model(), Finish(t)) && pcs[t].Filling?
      modifies this, next
      ensures Model() == Step(old(Model()), Finish(t))
      ensures Valid()
    {
      StepKeepsInv(Model(), Finish(t));
      Alone(Model(), t);
      AttachAndWake(t);
    }

    method AttachAndWake(t: Tid)
      requires Lists() && Cleared() && Known(receivers, |pcs|)
      requires t < |pcs| && pcs[t].Filling? && pcs[t].k > 0
      requires pcs[t].node < nodes && pcs[t].node !in free && pcs[t].node !in queue
      requires entry < UINT16_MAX
      requires forall u: Tid :: u < |pcs| && pcs[u].Filling? ==>
        pcs[u].node !in queue && pcs[u].node < nodes && (u != t ==> pcs[u].node != pcs[t].node)
      modifies this`head, this`tail, this`entry, this`queue, this`pcs, this`receivers, next
      ensures Lists() && Cleared()
      ensures var pc := old(pcs)[t];
              queue == if pc.urgent then [pc.node] + old(queue) else old(queue) + [pc.node]
      ensures var q, r := old(receivers), old(pcs)[t := Idle(Done(EOK))];
              && receivers == (if q == [] then [] else q[1..])
              && pcs == if q == [] then r else r[q[0] := Woken(r[q[0]], EOK)]
    {
      Attach(t);
      receivers := WakeFirst(receivers);
    }

    /** Linking the filled node at its end of the queue. */
    method Attach(t: Tid)
      requires Lists() && Cleared() && t < |pcs| && pcs[t].Filling? && pcs[t].k > 0
      requires pcs[t].node < nodes && pcs[t].node !in free && pcs[t].node !in queue
      requires entry < UINT16_MAX
      requires forall u: Tid :: u < |pcs| && pcs[u].Filling? ==>
        pcs[u].node !in queue && pcs[u].node < nodes && (u != t ==> pcs[u].node != pcs[t].node)
      modifies this`head, this`tail, this`entry, this`queue, this`pcs, next
      ensures Lists() && Cleared()
      ensures var pc := old(pcs)[t];
              queue == if pc.urgent then [pc.node] + old(queue) else old(queue) + [pc.node]
      ensures pcs == old(pcs)[t := Idle(Done(EOK))]
    {
      var msg := pcs[t].node;
      if pcs[t].urgent {
        LinkFirst(msg);
      } else {
        LinkLast(msg);
      }
      pcs := pcs[t := Idle(Done(EOK))];
    }

    /** The second section of rt_mq_recv. */
    method RecycleNode(t: Tid)
      requires Valid() && Enabled(Model(), Finish(t)) && pcs[t].Draining?
      modifies this, next
      ensures Model() == Step(old(Model()), Finish(t))
      ensures Valid()
    {
      StepKeepsInv(Model(), Finish(t));
      Alone(Model(), t);
      DetachAndWake(t);
    }

    method DetachAndWake(t: Tid)
      requires Lists() && Cleared() && bytes.Length0 == nodes && bytes.Length1 == msgSize
      requires Shape(Model()) && t < |pcs| && pcs[t].Draining?
      requires pcs[t].node < nodes && pcs[t].node !in free && pcs[t].node !in queue
      requires forall u: Tid :: u < |pcs| && pcs[u].Filling? ==> pcs[u].node != pcs[t].node
      modifies this, next
      ensures Model() == Recycle(old(Model()), t)
      ensures Lists() && Cleared()
    {
      ghost var after := Recycle(Model(), t);
      Detach(t);
      senders := WakeFirst(senders);
      assert free == after.free && pcs == after.pcs && senders == after.senders;
      assert Pool() == after.pool;
    }

    /** Putting the drained node on the free list. */
    method Detach(t: Tid)
      requires Lists() && Cleared() && t < |pcs| && pcs[t].Draining?
      requires pcs[t].node < nodes && pcs[t].node !in free && pcs[t].node !in queue
      requires forall u: Tid :: u < |pcs| && pcs[u].Filling? ==> pcs[u].node != pcs[t].node
      modifies this`freeHead, this`free, this`pcs, next
      ensures Lists() && Cleared()
      ensures free == [old(pcs)[t].node] + old(free)
      ensures pcs == old(pcs)[t := Idle(Got(old(pcs)[t].got))]
    {
      PutFree(pcs[t].node);
      pcs := pcs[t := Idle(Got(pcs[t].got))];
    }

    /** _ipc_list_resume_all on a list. */
    method ResumeAll(q: seq<Tid>) returns (rest: seq<Tid>)
      requires next.Length == nodes && Cleared() && Known(q, |pcs|) && NoDup(q)
      modifies this`pcs
      ensures rest == [] && Cleared() && |pcs| == |old(pcs)|
      ensures forall t: Tid :: t < |pcs| ==>
        pcs[t] == if t in q then Woken(old(pcs)[t], ERROR) else old(pcs)[t]
    {
      rest := q;
      while rest != []
        invariant Cleared() && Known(rest, |pcs|) && NoDup(rest) && |pcs| == |old(pcs)|
        invariant forall t :: t in rest ==> t in q
        invariant forall t: Tid :: t < |pcs| ==>
          pcs[t] == if t in q && t !in rest then Woken(old(pcs)[t], ERROR) else old(pcs)[t]
        decreases |rest|
      {
        var r := rest[0];
        assert r in rest;
        pcs := pcs[r := Woken(pcs[r], ERROR)];
        rest := rest[1..];
      }
    }

    /** The loop of rt_mq_control that moves every queued node to the free list. */
    method FreeQueued()
      requires Chains() && Cleared() && Unqueued()
      modifies this`head, this`tail, this`queue, this`freeHead, this`free, next
      ensures Chains() && Cleared() && queue == [] && free == Reverse(old(queue)) + old(free)
    {
      while head != NULL
        invariant Chains() && Reverse(queue) + free == Reverse(old(queue)) + old(free)
        invariant forall n :: n in queue ==> n in old(queue)
        invariant forall n: Node :: n < nodes && n !in old(queue) ==> next[n] == old(next[n])
        decreases |queue|
      {
        assert Reverse(queue) + free == Reverse(queue[1..]) + ([queue[0]] + free);
        MoveFirst();
      }
    }

    /** No node that is being filled is queued. */
    ghost predicate Unqueued()
      reads this`pcs, this`queue
    {
      forall u: Tid :: u < |pcs| && pcs[u].Filling? ==> pcs[u].node !in queue
    }

    /** One turn of that loop. */
    method MoveFirst()
      requires Chains() && queue != []
      modifies this`head, this`tail, this`queue, this`freeHead, this`free, next
      ensures Chains() && queue == old(queue)[1..] && free == [old(queue)[0]] + old(free)
      ensures forall n: Node :: n < nodes && n != old(queue)[0] ==> next[n] == old(next[n])
    {
      ghost var q := queue;
      assert q[0] in q;
      var msg := Unlink();
      assert q[0] == msg && queue == q[1..];
      PutFree(msg);
    }

    /** Both lists of suspended threads are emptied. */
    method ResumeBoth()
      requires next.Length == nodes && Cleared()
      requires Known(receivers, |pcs|) && NoDup(receivers) && Known(senders, |pcs|) && NoDup(senders)
      requires forall t: Tid :: t < |pcs| ==>
        (t in receivers <==> Receiving(pcs[t])) && (t in senders <==> Sending(pcs[t]))
      modifies this`pcs, this`receivers, this`senders
      ensures Cleared() && receivers == [] && senders == [] && pcs == ReleaseAll(old(pcs))
      ensures old(Unqueued()) ==> Unqueued()
    {
      receivers := ResumeAll(receivers);
      senders := ResumeAll(senders);
      assert forall t: Tid :: t < |pcs| ==> pcs[t] == ReleaseAll(old(pcs))[t];
    }

    /** rt_mq_control with RT_IPC_CMD_RESET. */
    method ResetQueue()
      requires Valid()
      modifies this, next
      ensures Model() == Step(old(Model()), Reset)
      ensures Valid()
    {
      StepKeepsInv(Model(), Reset);
      ReadyToReset(Model());
      ResumeAndFree();
    }

    method ResumeAndFree()
      requires Lists() && Cleared() && bytes.Length0 == nodes && bytes.Length1 == msgSize
      requires Shape(Model()) && NoDup(receivers) && NoDup(senders)
      requires forall t: Tid :: t < |pcs| ==>
        (t in receivers <==> Receiving(pcs[t])) && (t in senders <==> Sending(pcs[t]))
      requires Unqueued()
      modifies this, next
      ensures Model() == Clear(old(Model()))
      ensures Lists() && Cleared()
    {
      ghost var s := Model();
      ResumeBoth();
      FreeQueued();
      entry := 0;
      assert Pool() == s.pool && pcs == Clear(s).pcs && free == Clear(s).free;
    }

    /** The timer of a suspended thread fires. */
    method TimerExpires(t: Tid)
      requires Valid() && Enabled(Model(), Expire(t))
      modifies this
      ensures Model() == Step(old(Model()), Expire(t))
      ensures Valid()
    {
      StepKeepsInv(Model(), Expire(t));
      if pcs[t].SendWait? {
        senders := Remove(senders, t);
      } else {
        receivers := Remove(receivers, t);
      }
      pcs := pcs[t := Woken(pcs[t], ETIMEOUT)];
    }
  }

  /** A message that is about to be linked always finds the counter below its maximum. */
  lemma EntryBelowMax(s: State, t: Tid)
    requires Inv(s) && t < |s.pcs| && Holds(s.pcs[t])
    ensures |s.queue| < UINT16_MAX
  {
    Exclusive(s);
    assert PcShape(s.pcs[t], s.msgSize, s.nodes);
    var all := s.queue + [s.pcs[t].node];
    forall i, j | 0 <= i < j < |all| ensures all[i] != all[j] { assert all[i] in s.queue; }
    Pigeonhole(all, s.nodes);
  }
}
