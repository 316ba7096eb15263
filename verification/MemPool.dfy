/** The memory pool of rt-thread/src/mempool.c as a transition system; a block is its header's address. */
module MemPoolModel {
  import opened Kernel
  import opened WaitQueue

  type Addr = nat

  datatype Outcome = Nothing | Null | Got(block: Addr)

  datatype Pc = Idle(last: Outcome) | Waiting(timeout: int) | Woken(timeout: int, err: Err)

  datatype State = State(
    blocks: seq<Addr>, free: seq<Addr>, used: set<Addr>,
    waiters: seq<Tid>, pcs: seq<Pc>)

  datatype Event =
    | Alloc(t: Tid, time: int)
    | Free(t: Tid, block: Addr)
    | Resume(t: Tid, elapsed: nat)
    | Expire(t: Tid)

  predicate Suspended(pc: Pc) { pc.Waiting? }
  predicate MayAlloc(pc: Pc) { pc.Woken? && pc.err == EOK }

  predicate Shape(s: State) {
    Known(s.waiters, |s.pcs|)
  }

  /** A block may be freed only if its header names the pool, that is, if it is allocated. */
  predicate Enabled(s: State, ev: Event) {
    ev.t < |s.pcs| &&
    match ev
    case Alloc(t, _) => s.pcs[t].Idle?
    case Free(t, block) => s.pcs[t].Idle? && block in s.used
    case Resume(t, _) => s.pcs[t].Woken?
    case Expire(t) => s.pcs[t].Waiting? && s.pcs[t].timeout > 0
  }

  /** One pass of the loop of rt_mp_alloc; a thread that must wait becomes the first waiter. */
  function TryAlloc(s: State, t: Tid, time: int): (s': State)
    requires Shape(s) && t < |s.pcs|
    ensures Shape(s')
  {
    if s.free != [] then
      var b := s.free[0];
      s.(free := s.free[1..], used := s.used + {b}, pcs := s.pcs[t := Idle(Got(b))])
    else if time == 0 then s.(pcs := s.pcs[t := Idle(Null)])
    else s.(waiters := [t] + s.waiters, pcs := s.pcs[t := Waiting(time)])
  }

  function Step(s: State, ev: Event): (s': State)
    requires Shape(s) && Enabled(s, ev)
    ensures Shape(s')
  {
    match ev
    case Alloc(t, time) => TryAlloc(s, t, time)
    case Free(t, block) =>
      var s1 := s.(free := [block] + s.free, used := s.used - {block}, pcs := s.pcs[t := Idle(Nothing)]);
      if s.waiters == [] then s1
      else
        var w := s.waiters[0];
        s1.(waiters := s.waiters[1..], pcs := s1.pcs[w := WokenPc(s1.pcs[w], EOK)])
    case Resume(t, elapsed) =>
      var pc := s.pcs[t];
      if pc.err != EOK then s.(pcs := s.pcs[t := Idle(Null)])
      else TryAlloc(s, t, Remaining(pc.timeout, elapsed))
    case Expire(t) =>
      s.(waiters := Remove(s.waiters, t), pcs := s.pcs[t := WokenPc(s.pcs[t], ETIMEOUT)])
  }

  function WokenPc(pc: Pc, err: Err): Pc {
    if pc.Waiting? then Woken(pc.timeout, err) else pc
  }

  /** Every block is either on the free list, once, or allocated. */
  ghost predicate Partition(s: State) {
    && NoDup(s.free)
    && (forall b :: b in s.free ==> b !in s.used)
    && (forall b :: b in s.blocks <==> b in s.free || b in s.used)
  }

  ghost predicate Inv(s: State) {
    && Shape(s)
    && Partition(s)
    && Gate(s.waiters, |s.free|, s.pcs, Suspended, MayAlloc)
  }

  ghost predicate Init(s: State) {
    && Shape(s) && Partition(s) && s.used == {} && s.waiters == []
    && forall t: Tid :: t < |s.pcs| ==> s.pcs[t].Idle?
  }

  lemma TryAllocKeepsInv(s: State, t: Tid, time: int)
    requires Inv(s) && t < |s.pcs| && (s.pcs[t].Idle? || MayAlloc(s.pcs[t]))
    ensures Inv(TryAlloc(s, t, time))
  {
    var x := TryAlloc(s, t, time).pcs[t];
    if s.free != [] {
      var b := s.free[0];
      assert s.free == [b] + s.free[1..];
      GateProceed(s.waiters, |s.free|, s.pcs, Suspended, MayAlloc, t, x, |s.free| - 1);
    } else if time == 0 {
      GateProceed(s.waiters, 0, s.pcs, Suspended, MayAlloc, t, x, 0);
    } else {
      var r := [t] + s.waiters;
      assert t !in s.waiters;
      forall i, j | 0 <= i < j < |r| ensures r[i] != r[j] { assert r[j] in s.waiters; }
      GateJoin(s.waiters, r, s.pcs, Suspended, MayAlloc, t, x);
    }
  }

  lemma FreeKeepsInv(s: State, t: Tid, block: Addr)
    requires Inv(s) && Enabled(s, Free(t, block))
    ensures Inv(Step(s, Free(t, block)))
  {
    var x := Idle(Nothing);
    var s' := Step(s, Free(t, block));
    forall i, j | 0 <= i < j < |s'.free| ensures s'.free[i] != s'.free[j] { assert s'.free[j] in s.free; }
    assert forall b :: b in s'.free <==> b == block || b in s.free;
    GateProceed(s.waiters, |s.free|, s.pcs, Suspended, MayAlloc, t, x, |s.free|);
    if s.waiters != [] {
      var w := s.waiters[0];
      assert w in s.waiters;
      GateWake(s.waiters, |s.free|, s.pcs[t := x], Suspended, MayAlloc, WokenPc(s.pcs[w], EOK));
    }
    CountUpdate(s.pcs, t, x, MayAlloc);
  }

  lemma StepKeepsInv(s: State, ev: Event)
    requires Inv(s) && Enabled(s, ev)
    ensures Inv(Step(s, ev)) && Step(s, ev).blocks == s.blocks
  {
    match ev
    case Alloc(t, time) => TryAllocKeepsInv(s, t, time);
    case Free(t, block) => FreeKeepsInv(s, t, block);
    case Resume(t, elapsed) =>
      if s.pcs[t].err != EOK {
        GateProceed(s.waiters, |s.free|, s.pcs, Suspended, MayAlloc, t, Idle(Null), |s.free|);
      } else {
        TryAllocKeepsInv(s, t, Remaining(s.pcs[t].timeout, elapsed));
      }
    case Expire(t) =>
      GateExpire(s.waiters, |s.free|, s.pcs, Suspended, MayAlloc, t, WokenPc(s.pcs[t], ETIMEOUT));
  }

  predicate Runnable(s: State, evs: seq<Event>)
    requires Shape(s)
    decreases |evs|
  {
    evs == [] || (Enabled(s, evs[0]) && Runnable(Step(s, evs[0]), evs[1..]))
  }

  function Exec(s: State, evs: seq<Event>): (s': State)
    requires Shape(s) && Runnable(s, evs)
    ensures Shape(s')
    decreases |evs|
  {
    if evs == [] then s else Exec(Step(s, evs[0]), evs[1..])
  }

  lemma {:induction false} RunKeepsInv(s: State, evs: seq<Event>)
    requires Inv(s) && Runnable(s, evs)
    ensures Inv(Exec(s, evs)) && Exec(s, evs).blocks == s.blocks
    decreases |evs|
  {
    if evs != [] {
      StepKeepsInv(s, evs[0]);
      RunKeepsInv(Step(s, evs[0]), evs[1..]);
    }
  }

  /**
   * In every reachable state the free list has no repetition, every block of the pool is either
   * on it or allocated, and no wake-up is lost: while threads are suspended there are at most
   * as many free blocks as threads woken and about to run.
   */
  lemma PoolNeverLeaks(s: State, evs: seq<Event>)
    requires Init(s) && Runnable(s, evs)
    ensures var e := Exec(s, evs);
            && Partition(e) && e.blocks == s.blocks
            && (e.waiters != [] ==> |e.free| <= Count(e.pcs, MayAlloc))
            && (e.waiters != [] && e.free != [] ==> exists t: Tid :: t < |e.pcs| && MayAlloc(e.pcs[t]))
  {
    RunKeepsInv(s, evs);
    var e := Exec(s, evs);
    if e.waiters != [] && e.free != [] {
      var t := CountWitness(e.pcs, MayAlloc);
    }
  }

  /** A block handed out belongs to the pool and was not allocated to anybody. */
  lemma FreshBlock(s: State, evs: seq<Event>, ev: Event)
    requires Init(s) && Runnable(s, evs) && Enabled(Exec(s, evs), ev) && (ev.Alloc? || ev.Resume?)
    ensures var e := Exec(s, evs);
            var e' := Step(e, ev);
            |e'.pcs| == |e.pcs| &&
            (e'.pcs[ev.t].Idle? && e'.pcs[ev.t].last.Got? ==>
               var b := e'.pcs[ev.t].last.block;
               b in s.blocks && b !in e.used && e'.used == e.used + {b})
  {
    RunKeepsInv(s, evs);
    var e := Exec(s, evs);
    if e.free != [] { assert e.free[0] in e.free; }
  }
}

/** The pool as the kernel stores it: the free list is threaded through the blocks' headers. */
module MemPoolMemory {
  import opened Kernel
  import opened WaitQueue
  import opened MemPoolModel

  const NULL: nat := 0

  function AlignUp(n: nat): (r: nat)
    ensures n <= r < n + 4 && r % 4 == 0
  {
    (n + 3) / 4 * 4
  }

  /** The address of block number `i`. */
  function At(start: nat, stride: nat, i: nat): nat {
    if i == 0 then start else At(start, stride, i - 1) + stride
  }

  /** Block addresses are a whole number of strides from the start. */
  lemma {:induction false} AtIs(start: nat, stride: nat, i: nat)
    ensures At(start, stride, i) == start + i * stride
  {
    if i > 0 {
      AtIs(start, stride, i - 1);
      assert i * stride == (i - 1) * stride + stride;
    }
  }

  /** Block addresses keep the alignment of the start. */
  lemma {:induction false} AtAligned(start: nat, stride: nat, i: nat)
    requires start % 4 == 0 && stride % 4 == 0
    ensures At(start, stride, i) % 4 == 0
  {
    if i > 0 { AtAligned(start, stride, i - 1); }
  }

  /** Different blocks do not overlap. */
  lemma {:induction false} BlocksApart(start: nat, stride: nat, i: nat, j: nat)
    requires i < j
    ensures At(start, stride, i) + stride <= At(start, stride, j)
  {
    if i < j - 1 { BlocksApart(start, stride, i, j - 1); }
  }

  /** Every block of the pool, header included, lies inside the memory given to it. */
  lemma BlocksFit(start: nat, size: nat, stride: nat, i: nat)
    requires stride > 0 && i < size / stride
    ensures start <= At(start, stride, i) && At(start, stride, i) + stride <= start + size
  {
    var total := size / stride;
    BlocksApart(start, stride, i, total);
    AtIs(start, stride, total);
    assert total * stride <= size;
    if i > 0 { BlocksApart(start, stride, 0, i); }
  }

  /** The write of rt_mp_init behind its loop goes to the memory of the pool exactly when it has a block. */
  lemma LastWriteInside(start: nat, size: nat, stride: nat)
    requires stride >= 4
    ensures var last := start + (size / stride - 1) * stride;
            start <= last && last + 4 <= start + size <==> size / stride > 0
  {
  }

  /**
   * The loop of rt_mp_init: every header is linked to the address one stride further, and then
   * the last one is cut.
   */
  method ThreadBlocks(start: Addr, stride: nat, total: nat) returns (m: map<Addr, Addr>)
    requires start > 0 && stride > 0 && total > 0
    ensures NoDup(Addresses(start, stride, total))
    ensures Chain(m, start, Addresses(start, stride, total))
  {
    m := map[];
    for i := 0 to total
      invariant forall k :: 0 <= k < i ==>
        At(start, stride, k) in m && m[At(start, stride, k)] == At(start, stride, k + 1)
    {
      forall k | 0 <= k < i ensures At(start, stride, k) != At(start, stride, i) {
        BlocksApart(start, stride, k, i);
      }
      m := m[At(start, stride, i) := At(start, stride, i + 1)];
    }
    m := m[At(start, stride, total - 1) := NULL];
    ghost var q := Addresses(start, stride, total);
    forall i, j | 0 <= i < j < total ensures q[i] != q[j] { BlocksApart(start, stride, i, j); }
    forall i | 0 <= i < total ensures q[i] in m && q[i] != NULL && m[q[i]] == After(q, i) {
      assert q[i] == At(start, stride, i) > 0 by { if i > 0 { BlocksApart(start, stride, 0, i); } }
      if i + 1 < total { assert q[i] != q[total - 1]; }
    }
  }

  /** The addresses of all the blocks of a pool. */
  function Addresses(start: nat, stride: nat, total: nat): (q: seq<Addr>)
    ensures |q| == total && forall i :: 0 <= i < total ==> q[i] == At(start, stride, i)
  {
    seq(total, i requires 0 <= i < total => At(start, stride, i))
  }

  /** What follows position `i` of the free list. */
  function After(q: seq<Addr>, i: nat): Addr {
    if i + 1 < |q| then q[i + 1] else NULL
  }

  /** Following the headers from `first` visits exactly `q` and ends at NULL. */
  predicate Chain(mem: map<Addr, Addr>, first: Addr, q: seq<Addr>) {
    && first == (if q == [] then NULL else q[0])
    && (forall i :: 0 <= i < |q| ==> q[i] in mem && q[i] != NULL)
    && forall i {:trigger After(q, i)} :: 0 <= i < |q| ==> mem[q[i]] == After(q, i)
  }

  lemma ChainPop(mem: map<Addr, Addr>, first: Addr, q: seq<Addr>, tag: Addr)
    requires Chain(mem, first, q) && q != [] && NoDup(q)
    ensures Chain(mem[q[0] := tag], mem[q[0]], q[1..])
  {
    assert mem[q[0]] == After(q, 0);
    forall i | 0 <= i < |q| - 1 ensures mem[q[0] := tag][q[1..][i]] == After(q[1..], i) {
      assert mem[q[i + 1]] == After(q, i + 1);
    }
  }

  lemma ChainPush(mem: map<Addr, Addr>, first: Addr, q: seq<Addr>, b: Addr)
    requires Chain(mem, first, q) && b !in q && b != NULL
    ensures Chain(mem[b := first], b, [b] + q)
  {
    var r := [b] + q;
    forall i | 0 <= i < |r| ensures mem[b := first][r[i]] == After(r, i) {
      if i > 0 { assert mem[q[i - 1]] == After(q, i - 1) && q[i - 1] in q; }
    }
  }

  class MemPool {
    const self: Addr
    const start: Addr
    const blockSize: nat
    const total: nat
    var mem: map<Addr, Addr>
    var blockList: Addr
    var freeCount: nat
    var waiters: seq<Tid>
    var pcs: seq<Pc>

    /** The blocks on the free list, in order, and the allocated ones. */
    ghost var free: seq<Addr>
    ghost var used: set<Addr>

    ghost function Model(): State
      reads this
    {
      State(Addresses(start, blockSize + 4, total), free, used, waiters, pcs)
    }

    /** The headers spell out the free list, and those of allocated blocks name the pool. */
    ghost predicate Headers()
      reads this
    {
      && Chain(mem, blockList, free)
      && freeCount == |free|
      && (forall b :: b in used ==> b in mem && mem[b] == self && b != NULL)
    }

    ghost predicate Valid()
      reads this
    {
      Headers() && Inv(Model())
    }

    /**
     * rt_mp_init. The source needs room for at least one block: its last write goes to the
     * header of block number `total - 1`.
     */
    constructor (self: Addr, start: Addr, size: nat, blockSize: nat, threads: nat)
      requires start != NULL && size > 0 && blockSize > 0
      requires size / 4 * 4 / (AlignUp(blockSize) + 4) > 0
      ensures Valid() && Init(Model())
      ensures this.self == self && this.start == start && this.blockSize == AlignUp(blockSize)
      ensures total == size / 4 * 4 / (AlignUp(blockSize) + 4)
      ensures free == Addresses(start, AlignUp(blockSize) + 4, total) && |pcs| == threads
    {
      var count := size / 4 * 4 / (AlignUp(blockSize) + 4);
      this.self, this.start, this.blockSize := self, start, AlignUp(blockSize);
      total, freeCount := count, count;
      waiters, used := [], {};
      pcs := seq(threads, _ => Idle(Nothing));
      blockList := start;
      var m := ThreadBlocks(start, AlignUp(blockSize) + 4, count);
      mem, free := m, Addresses(start, AlignUp(blockSize) + 4, count);
    }

    /** One pass of the loop of rt_mp_alloc. */
    method PassAlloc(t: Tid, time: int)
      requires Valid() && t < |pcs| && (pcs[t].Idle? || MayAlloc(pcs[t]))
      modifies this
      ensures Model() == TryAlloc(old(Model()), t, time)
      ensures Valid()
    {
      TryAllocKeepsInv(Model(), t, time);
      if freeCount == 0 {
        if time == 0 {
          pcs := pcs[t := Idle(Null)];
          return;
        }
        waiters := [t] + waiters;
        pcs := pcs[t := Waiting(time)];
        return;
      }
      var block := TakeBlock();
      pcs := pcs[t := Idle(Got(block))];
    }

    /** Unlinking the first free block and writing the pool's address into its header. */
    method TakeBlock() returns (block: Addr)
      requires Headers() && free != [] && NoDup(free) && forall b :: b in free ==> b !in used
      modifies this`freeCount, this`blockList, this`mem, this`free, this`used
      ensures Headers() && [block] + free == old(free) && used == old(used) + {block}
    {
      ChainPop(mem, blockList, free, self);
      assert free[0] in free;
      freeCount := freeCount - 1;
      block := blockList;
      blockList := mem[block];
      mem := mem[block := self];
      free, used := free[1..], used + {block};
    }

    /** rt_mp_alloc up to its return or suspension. */
    method AllocOrWait(t: Tid, time: int)
      requires Valid() && Enabled(Model(), Alloc(t, time))
      modifies this
      ensures Model() == Step(old(Model()), Alloc(t, time))
      ensures Valid()
    {
      PassAlloc(t, time);
    }

    /** What a woken thread does when it runs again inside rt_mp_alloc. */
    method ContinueWoken(t: Tid, elapsed: nat)
      requires Valid() && Enabled(Model(), Resume(t, elapsed))
      modifies this
      ensures Model() == Step(old(Model()), Resume(t, elapsed))
      ensures Valid()
    {
      StepKeepsInv(Model(), Resume(t, elapsed));
      if pcs[t].err != EOK {
        pcs := pcs[t := Idle(Null)];
      } else {
        PassAlloc(t, Remaining(pcs[t].timeout, elapsed));
      }
    }

    /** rt_mp_free; the argument is null or points just behind the header of an allocated block. */
    method Release(t: Tid, pointer: Addr)
      requires Valid() && (pointer == NULL || (pointer >= 4 && Enabled(Model(), Free(t, pointer - 4))))
      modifies this
      ensures Model() == if pointer == NULL then old(Model()) else Step(old(Model()), Free(t, pointer - 4))
      ensures Valid()
    {
      if pointer == NULL { return; }
      ghost var before := Model();
      StepKeepsInv(before, Free(t, pointer - 4));
      var block := pointer - 4;
      assert mem[block] == self;
      PutBlock(block);
      pcs := pcs[t := Idle(Nothing)];
      if waiters != [] {
        var w := waiters[0];
        assert w in before.waiters;
        waiters, pcs := waiters[1..], pcs[w := WokenPc(pcs[w], EOK)];
      }
    }

    /** Linking a block in front of the free list. */
    method PutBlock(block: Addr)
      requires Headers() && block in used && block !in free
      modifies this`freeCount, this`blockList, this`mem, this`free, this`used
      ensures Headers() && free == [block] + old(free) && used == old(used) - {block}
    {
      ChainPush(mem, blockList, free, block);
      freeCount := freeCount + 1;
      mem := mem[block := blockList];
      blockList := block;
      free, used := [block] + free, used - {block};
    }

    /** The timer of a suspended thread fires. */
    method TimerExpires(t: Tid)
      requires Valid() && Enabled(Model(), Expire(t))
      modifies this
      ensures Model() == Step(old(Model()), Expire(t))
      ensures Valid()
    {
      StepKeepsInv(Model(), Expire(t));
      waiters := Remove(waiters, t);
      pcs := pcs[t := WokenPc(pcs[t], ETIMEOUT)];
    }
  }
}
