/**
 * The heap of rt-thread/src/mem.c in memory: headers and data share one array of words, so a
 * header that strayed into somebody's data would show.
 */
module HeapMemory {
  import opened HeapModel

  /** RT_ALIGN of a byte count in 32-bit arithmetic, in words of four bytes. */
  function AlignedWords(bytes: nat): nat {
    (bytes + 3) % 0x1_0000_0000 / 4
  }

  /** The words an allocation asks for: at least MIN. */
  function Wanted(bytes: nat): nat {
    if AlignedWords(bytes) < MIN then MIN else AlignedWords(bytes)
  }

  function Raised(n: nat): nat { if n < MIN then MIN else n }

  /** The first `c` words behind `src` in the old memory are those behind `dst` in the new. */
  predicate KeptWords(m: seq<int>, m': seq<int>, src: nat, dst: nat, c: nat) {
    |m| == |m'| && src + c <= |m| && dst + c <= |m| && m'[dst..dst + c] == m[src..src + c]
  }

  /** `m2` is `m` with `c` words copied, up to writes off the data of the used blocks of `b`. */
  ghost predicate CopiedFrom(m: seq<int>, m2: seq<int>, b: seq<Block>, src: nat, dst: nat, c: nat) {
    && KeptWords(m, m2, src, dst, c)
    && forall i: nat, o: nat {:trigger InData(b, i, o)} ::
         InData(b, i, o) && o < |m| && !(dst <= o < dst + c) ==> m2[o] == m[o]
  }

  lemma WantedWords(n: nat)
    requires 4 * n < 0x1_0000_0000 - 3
    ensures AlignedWords(4 * n) == n && Wanted(4 * n) == Raised(n)
  {
  }

  /** The position of block `k` after an allocation in block `j`. */
  function Moved(b: seq<Block>, k: nat, j: nat, n: nat): nat
    requires j < |b|
  {
    if j < k && b[j].Data() >= n + HDR + MIN then k + 1 else k
  }

  /** The row after the used block `k` was moved to the free block `j`. */
  function Relocated(b: seq<Block>, k: nat, j: nat, n: nat): seq<Block>
    requires j < |b| && k < |b|
  {
    Freed(Take(b, j, n), Moved(b, k, j, n))
  }

  /** Where the block before position `i` starts; the first block is its own predecessor. */
  function PrevLo(b: seq<Block>, i: nat): nat
    requires i < |b|
  {
    if i == 0 then 0 else b[i - 1].lo
  }

  /** The header words of block `i`: tagged pool address, offset of the next block, of the previous. */
  predicate HeaderAt(m: seq<int>, b: seq<Block>, i: nat, pool: int)
    requires i < |b|
  {
    && b[i].lo + HDR <= |m|
    && m[b[i].lo] == (if b[i].used then pool + 1 else pool)
    && m[b[i].lo + 1] == b[i].hi
    && m[b[i].lo + 2] == PrevLo(b, i)
  }

  /** The memory holds the headers of the blocks `b` and the end stub, whose `prev` is not kept. */
  predicate Represents(m: seq<int>, b: seq<Block>, end: nat, pool: int) {
    && |m| == end + HDR && pool % 2 == 0
    && Tiled(b, end)
    && (forall i {:trigger HeaderAt(m, b, i, pool)} :: 0 <= i < |b| ==> HeaderAt(m, b, i, pool))
    && m[end] == pool + 1 && m[end + 1] == end
  }

  /** Word `o` belongs to the data of the used block `i`. */
  predicate InData(b: seq<Block>, i: nat, o: nat) {
    i < |b| && b[i].used && b[i].lo + HDR <= o < b[i].hi
  }

  /** The data of every block that is used in `b` is the same in both memories. */
  ghost predicate DataKept(m: seq<int>, m': seq<int>, b: seq<Block>) {
    |m| == |m'| &&
    forall i: nat, o: nat {:trigger InData(b, i, o)} :: InData(b, i, o) && o < |m| ==> m'[o] == m[o]
  }

  /** Both memories agree outside the words in `at`. */
  predicate SameBut(m: seq<int>, m': seq<int>, at: set<nat>) {
    |m| == |m'| && forall o: nat :: o < |m| && o !in at ==> m'[o] == m[o]
  }

  lemma MarkRepresents(m: seq<int>, m': seq<int>, b: seq<Block>, end: nat, pool: int, k: nat, used: bool)
    requires Represents(m, b, end, pool) && k < |b|
    requires SameBut(m, m', {b[k].lo}) && b[k].lo < |m'| && m'[b[k].lo] == if used then pool + 1 else pool
    ensures Represents(m', Mark(b, k, used), end, pool)
  {
    var r := Mark(b, k, used);
    MarkTiled(b, end, k, used);
    Bounded(b, end, k);
    forall i | 0 <= i < |r| ensures HeaderAt(m', r, i, pool) {
      assert HeaderAt(m, b, i, pool);
      if i < k { Ascending(b, end, i, k); }
      if k < i { Ascending(b, end, k, i); }
    }
  }

  /** Writing the header of the second part and the two neighbouring links splits block `k`. */
  lemma SplitRepresents(m: seq<int>, m': seq<int>, b: seq<Block>, end: nat, pool: int, k: nat, cut: nat)
    requires Represents(m, b, end, pool) && k < |b|
    requires b[k].lo + HDR <= cut && cut + HDR <= b[k].hi
    requires var lo, hi := b[k].lo, b[k].hi;
             && SameBut(m, m', {lo + 1, cut, cut + 1, cut + 2, hi + 2})
             && |m'| == end + HDR && hi <= end
             && m'[lo + 1] == cut && m'[cut] == pool && m'[cut + 1] == hi && m'[cut + 2] == lo
             && (hi != end ==> m'[hi + 2] == cut)
    ensures Represents(m', Split(b, k, cut), end, pool)
  {
    var r := Split(b, k, cut);
    SplitTiled(b, end, k, cut);
    forall i | 0 <= i < |r| ensures HeaderAt(m', r, i, pool) {
      SplitHeader(m, m', b, end, pool, k, cut, i);
    }
    assert b[k].hi == NextLo(b, k, end);
    if k + 1 < |b| { Bounded(b, end, k + 1); }
  }

  lemma SplitHeader(m: seq<int>, m': seq<int>, b: seq<Block>, end: nat, pool: int, k: nat, cut: nat, i: nat)
    requires Represents(m, b, end, pool) && k < |b| && i <= |b|
    requires b[k].lo + HDR <= cut && cut + HDR <= b[k].hi
    requires var lo, hi := b[k].lo, b[k].hi;
             && SameBut(m, m', {lo + 1, cut, cut + 1, cut + 2, hi + 2})
             && |m'| == end + HDR && hi <= end
             && m'[lo + 1] == cut && m'[cut] == pool && m'[cut + 1] == hi && m'[cut + 2] == lo
             && (hi != end ==> m'[hi + 2] == cut)
    ensures HeaderAt(m', Split(b, k, cut), i, pool)
  {
    var r := Split(b, k, cut);
    assert HeaderAt(m, b, k, pool) && b[k].hi == NextLo(b, k, end);
    if i == k {
      assert r[i] == b[k].(hi := cut) && PrevLo(r, i) == PrevLo(b, k);
    } else if i == k + 1 {
      assert r[i] == Block(cut, b[k].hi, false) && PrevLo(r, i) == b[k].lo;
    } else {
      var j := if i < k then i else i - 1;
      assert r[i] == b[j] && PrevLo(r, i) == if j == k + 1 then cut else PrevLo(b, j);
      SplitOther(m, m', b, end, pool, k, cut, j);
    }
  }

  /** The writes of a split leave the other headers alone, except for the link back to the new block. */
  lemma SplitOther(m: seq<int>, m': seq<int>, b: seq<Block>, end: nat, pool: int, k: nat, cut: nat, j: nat)
    requires Represents(m, b, end, pool) && k < |b| && j < |b| && j != k
    requires b[k].lo + HDR <= cut && cut + HDR <= b[k].hi
    requires SameBut(m, m', {b[k].lo + 1, cut, cut + 1, cut + 2, b[k].hi + 2})
    requires b[k].hi < end ==> b[k].hi + 2 < |m'| && m'[b[k].hi + 2] == cut
    ensures b[j].lo + HDR <= |m'| == |m|
    ensures m'[b[j].lo] == m[b[j].lo] && m'[b[j].lo + 1] == m[b[j].lo + 1]
    ensures m'[b[j].lo + 2] == if j == k + 1 then cut else m[b[j].lo + 2]
    ensures HeaderAt(m, b, j, pool)
  {
    assert HeaderAt(m, b, j, pool);
    Bounded(b, end, j);
    if j < k {
      Ascending(b, end, j, k);
    } else {
      Ascending(b, end, k, j);
      assert b[k].hi == NextLo(b, k, end) == b[k + 1].lo;
      if k + 1 < j { Ascending(b, end, k + 1, j); }
    }
  }

  /** Writing the two links around block `k + 1` merges it into block `k`. */
  lemma MergeRepresents(m: seq<int>, m': seq<int>, b: seq<Block>, end: nat, pool: int, k: nat)
    requires Represents(m, b, end, pool) && k + 1 < |b|
    requires var lo, mid, hi := b[k].lo, b[k + 1].lo, b[k + 1].hi;
             && SameBut(m, m', {lo + 1, mid, hi + 2})
             && |m'| == end + HDR && lo < mid < hi <= end
             && m'[lo + 1] == hi && m'[hi + 2] == lo
    ensures Represents(m', Merge(b, k), end, pool)
  {
    var r := Merge(b, k);
    MergeTiled(b, end, k);
    assert b[k].hi == NextLo(b, k, end) && b[k + 1].hi == NextLo(b, k + 1, end);
    if k + 2 < |b| { Bounded(b, end, k + 2); }
    forall i | 0 <= i < |r| ensures HeaderAt(m', r, i, pool) {
      var j := if i <= k then i else i + 1;
      assert HeaderAt(m, b, j, pool);
      Bounded(b, end, j);
      if j < k { Ascending(b, end, j, k); Ascending(b, end, j, k + 1); }
      if k + 1 < j { Ascending(b, end, k, j); Ascending(b, end, k + 1, j); }
      if k + 2 < j { Ascending(b, end, k + 2, j); }
    }
  }

  lemma SameButTrans(m0: seq<int>, m1: seq<int>, m2: seq<int>, a1: set<nat>, a2: set<nat>)
    requires SameBut(m0, m1, a1) && SameBut(m1, m2, a2)
    ensures SameBut(m0, m2, a1 + a2)
  {
  }

  /** Word `o` is in the header of block `j`, or anywhere in it when it is free. */
  predicate OffData(b: seq<Block>, j: nat, o: nat) {
    j < |b| && b[j].lo <= o < b[j].hi && (b[j].used ==> o < b[j].lo + HDR)
  }

  lemma OffDataApart(b: seq<Block>, end: nat, j: nat, o: nat, i: nat)
    requires Tiled(b, end) && OffData(b, j, o)
    ensures !InData(b, i, o)
  {
    if i < |b| && i != j { LiveDisjoint(b, end, i, j); }
  }

  /** Writes that stay off the data of used blocks keep all data. */
  lemma WritesKeepData(m: seq<int>, m': seq<int>, b: seq<Block>, end: nat, at: set<nat>)
    requires Tiled(b, end) && SameBut(m, m', at)
    requires forall o :: o in at && o < |m| ==> o >= end || exists j: nat :: OffData(b, j, o)
    ensures DataKept(m, m', b)
  {
    forall i: nat, o: nat | InData(b, i, o) && o < |m| ensures m'[o] == m[o] {
      if o in at {
        Bounded(b, end, i);
        var j: nat :| OffData(b, j, o);
        OffDataApart(b, end, j, o, i);
      }
    }
  }

  function Max(a: int, b: int): int { if a < b then b else a }

  /** Every used block of `b` is still in `b'`. */
  ghost predicate Kept(b: seq<Block>, b': seq<Block>) {
    forall x: Block :: x.used && x in b ==> x in b'
  }

  /** A used block with at least `n` words of data starts right before `p`. */
  ghost predicate LiveAt(b: seq<Block>, p: nat, n: nat) {
    exists i :: 0 <= i < |b| && b[i].used && b[i].lo + HDR == p && b[i].Data() >= n
  }

  class SmallMem {
    const size: nat
    const pool: int
    const mem: array<int>
    var lfree: nat
    var used: int
    var max: int
    ghost var blocks: seq<Block>

    ghost function End(): nat { size + HDR }

    ghost predicate Mapped()
      reads this, mem
    {
      Represents(mem[..], blocks, size + HDR, pool)
    }

    ghost predicate Valid()
      reads this, mem
    {
      && Mapped() && Coalesced(blocks)
      && lfree == LowestFree(blocks, size + HDR)
      && used == Used(blocks) && used <= max
      && size + 2 * HDR <= 0x4000_0000
    }

    /** MEM_ISUSED: the tag in the lowest bit of the pool address. */
    function IsUsed(o: nat): bool
      requires o < mem.Length
      reads mem
    {
      mem[o] % 2 == 1
    }

    /** The header of block `i` in memory. */
    lemma ReadHeader(i: nat)
      requires Mapped() && i < |blocks|
      ensures blocks[i].hi <= size + HDR && blocks[i].lo + 2 < mem.Length == size + 2 * HDR
      ensures IsUsed(blocks[i].lo) == blocks[i].used
      ensures mem[blocks[i].lo + 1] == blocks[i].hi == NextLo(blocks, i, size + HDR)
      ensures mem[blocks[i].lo + 2] == PrevLo(blocks, i)
    {
      assert HeaderAt(mem[..], blocks, i, pool);
      Bounded(blocks, size + HDR, i);
      assert blocks[i].hi == NextLo(blocks, i, size + HDR);
    }

    /** rt_smem_init, once it has found `size` words between the two headers. */
    constructor (size: nat, pool: int)
      requires pool % 2 == 0 && size + 2 * HDR <= 0x4000_0000
      ensures Valid() && fresh(mem) && this.size == size
      ensures blocks == [Block(0, size + HDR, false)] && used == 0 && max == 0 && lfree == 0
    {
      this.size, this.pool := size, pool;
      mem := new int[size + 2 * HDR](_ => 0);
      lfree, used, max := 0, 0, 0;
      blocks := [Block(0, size + HDR, false)];
      new;
      mem[0], mem[1], mem[2] := pool, size + HDR, 0;
      var heapEnd := size + HDR;
      mem[heapEnd], mem[heapEnd + 1], mem[heapEnd + 2] := pool + 1, size + HDR, size + HDR;
      assert blocks[0].hi == NextLo(blocks, 0, size + HDR);
      assert HeaderAt(mem[..], blocks, 0, pool);
    }

    /** The header and link writes that cut the block at `ptr` in two. */
    method SplitHeaders(ptr: nat, cut: nat)
      requires mem.Length == size + 2 * HDR && ptr + 1 < mem.Length
      requires ptr + HDR <= cut && cut + HDR <= mem[ptr + 1] <= size + HDR
      modifies mem
      ensures var hi := old(mem[ptr + 1]);
              && SameBut(old(mem[..]), mem[..], {ptr + 1, cut, cut + 1, cut + 2, hi + 2})
              && mem[ptr + 1] == cut && mem[cut] == pool && mem[cut + 1] == hi && mem[cut + 2] == ptr
              && (hi != size + HDR ==> mem[hi + 2] == cut)
    {
      mem[cut] := pool;
      mem[cut + 1] := mem[ptr + 1];
      mem[cut + 2] := ptr;
      mem[ptr + 1] := cut;
      if mem[cut + 1] != size + HDR {
        mem[mem[cut + 1] + 2] := cut;
      }
    }

    /** Creating a free block at `cut` out of the rest of the block at `ptr`. */
    method SplitBlock(ptr: nat, cut: nat, ghost k: nat)
      requires Mapped() && k < |blocks| && blocks[k].lo == ptr
      requires ptr + HDR <= cut && cut + HDR <= blocks[k].hi
      modifies mem, this`blocks
      ensures Mapped() && blocks == Split(old(blocks), k, cut)
      ensures var hi := old(blocks)[k].hi;
              SameBut(old(mem[..]), mem[..], {ptr + 1, cut, cut + 1, cut + 2, hi + 2})
    {
      ReadHeader(k);
      ghost var m := mem[..];
      SplitHeaders(ptr, cut);
      SplitRepresents(m, mem[..], blocks, size + HDR, pool, k, cut);
      blocks := Split(blocks, k, cut);
    }

    /** The link writes that join the block at `ptr` with the one behind it. */
    method MergeHeaders(ptr: nat)
      requires mem.Length == size + 2 * HDR && ptr + HDR < size + HDR
      requires ptr + HDR <= mem[ptr + 1] < size + HDR
      requires mem[ptr + 1] + HDR <= mem[mem[ptr + 1] + 1] <= size + HDR
      modifies mem
      ensures var mid := old(mem[ptr + 1]);
              var hi := old(mem[mid + 1]);
              && SameBut(old(mem[..]), mem[..], {ptr + 1, mid, hi + 2})
              && mem[ptr + 1] == hi && mem[hi + 2] == ptr
    {
      var nmem := mem[ptr + 1];
      mem[nmem] := 0;
      mem[ptr + 1] := mem[nmem + 1];
      mem[mem[nmem + 1] + 2] := ptr;
    }

    /** Joining the free block at `ptr` with the free block behind it. */
    method Absorb(ptr: nat, ghost k: nat)
      requires Mapped() && k + 1 < |blocks| && blocks[k].lo == ptr
      modifies mem, this`blocks
      ensures Mapped() && blocks == Merge(old(blocks), k)
      ensures SameBut(old(mem[..]), mem[..],
                      {ptr + 1, old(blocks)[k + 1].lo, old(blocks)[k + 1].hi + 2})
    {
      ReadHeader(k);
      ReadHeader(k + 1);
      ghost var m := mem[..];
      MergeHeaders(ptr);
      MergeRepresents(m, mem[..], blocks, size + HDR, pool, k);
      blocks := Merge(blocks, k);
    }

    /** Tagging the block at `ptr` as used or free. */
    method SetTag(ptr: nat, isUsed: bool, ghost k: nat)
      requires Mapped() && k < |blocks| && blocks[k].lo == ptr
      modifies mem, this`blocks
      ensures Mapped() && blocks == Mark(old(blocks), k, isUsed)
      ensures SameBut(old(mem[..]), mem[..], {ptr})
    {
      ReadHeader(k);
      ghost var m := mem[..];
      mem[ptr] := if isUsed then pool + 1 else pool;
      MarkRepresents(m, mem[..], blocks, size + HDR, pool, k, isUsed);
      blocks := Mark(blocks, k, isUsed);
    }

    /** Everything the caller can observe is as before. */
    twostate predicate Unchanged()
      reads this, mem
    {
      && mem[..] == old(mem[..]) && blocks == old(blocks)
      && lfree == old(lfree) && used == old(used) && max == old(max)
    }

    /** Taking the block at `ptr`, which has room for `n` words, and keeping the accounts. */
    method TakeBlock(ptr: nat, n: nat, ghost k: nat)
      requires Valid() && k < |blocks| && blocks[k].lo == ptr && Fits(blocks[k], n)
      modifies this, mem
      ensures Valid() && blocks == Take(old(blocks), k, n)
      ensures Grants(old(blocks), blocks, k, n, used - old(used))
      ensures DataKept(old(mem[..]), mem[..], old(blocks))
      ensures max == Max(old(max), used)
    {
      ghost var b, end := blocks, size + HDR;
      TakeHeap(b, end, k, n);
      UsedTake(b, k, n);
      TakeGrants(b, k, n);
      var taken := CutAndTag(ptr, n, k);
      used := used + taken;
      if max < used { max := used; }
      AdvanceLowestFree(ptr, b, k);
    }

    /** The header writes of an allocation; the result is what it adds to the used memory. */
    method CutAndTag(ptr: nat, n: nat, ghost k: nat) returns (taken: int)
      requires Mapped() && k < |blocks| && blocks[k].lo == ptr && Fits(blocks[k], n)
      modifies this`blocks, mem
      ensures Mapped() && blocks == Take(old(blocks), k, n)
      ensures DataKept(old(mem[..]), mem[..], old(blocks))
      ensures taken == TakenSpan(old(blocks)[k], n)
    {
      ghost var m, b, end := mem[..], blocks, size + HDR;
      ReadHeader(k);
      if mem[ptr + 1] - (ptr + HDR) >= n + HDR + MIN {
        SplitBlock(ptr, ptr + HDR + n, k);
        taken := n + HDR;
      } else {
        taken := mem[ptr + 1] - ptr;
      }
      ghost var m1 := mem[..];
      SetTag(ptr, true, k);
      assert blocks == Take(b, k, n);
      TakeWrites(b, end, k, n, m, m1, mem[..]);
    }

    /** If the lowest free block was taken, the cursor moves to the next free one or the end. */
    method AdvanceLowestFree(ptr: nat, ghost b: seq<Block>, ghost k: nat)
      requires Mapped() && k < |blocks| && k < |b| && blocks[k].lo == ptr == b[k].lo && blocks[k].used
      requires Tiled(b, size + HDR) && !b[k].used && lfree == LowestFree(b, size + HDR)
      requires blocks[..k] == b[..k]
      modifies this`lfree
      ensures lfree == LowestFree(blocks, size + HDR)
    {
      ghost var end := size + HDR;
      ghost var i := LowestFreeAt(b, end);
      forall j | 0 <= j < i && j < k ensures blocks[j].used { assert blocks[j] == blocks[..k][j] == b[..k][j]; }
      if i < k { assert blocks[i] == blocks[..k][i] == b[..k][i]; Ascending(b, end, i, k); }
      if ptr == lfree {
        assert i == k;
        ReadHeader(k);
        while IsUsed(lfree) && lfree != size + HDR
          invariant i <= |blocks| && lfree == (if i < |blocks| then blocks[i].lo else end)
          invariant lfree < mem.Length
          invariant forall j :: 0 <= j < i ==> blocks[j].used
          decreases |blocks| - i
        {
          if i < |blocks| { ReadHeader(i); }
          lfree := mem[lfree + 1];
          i := i + 1;
          if i < |blocks| { ReadHeader(i); }
        }
        if i < |blocks| { ReadHeader(i); }
      }
      LowestFreeIs(blocks, end, i);
    }

    /** The search of rt_smem_alloc: from the lowest free block to the last useful offset. */
    method Search(n: nat) returns (found: bool, ptr: nat, ghost k: nat)
      requires Valid() && n <= size
      ensures found <==> FirstFit(blocks, n).At?
      ensures found ==> k == FirstFit(blocks, n).k && ptr == blocks[k].lo
    {
      ghost var b, end := blocks, size + HDR;
      ptr := lfree;
      k := LowestFreeAt(b, end);
      while ptr <= size - n
        invariant 0 <= k <= |b| && ptr == (if k < |b| then b[k].lo else end)
        invariant forall j :: 0 <= j < k ==> !Fits(b[j], n)
        decreases |b| - k
      {
        ReadHeader(k);
        if !IsUsed(ptr) && mem[ptr + 1] - (ptr + HDR) >= n {
          FirstFitIs(b, n, k);
          return true, ptr, k;
        }
        ptr := mem[ptr + 1];
        k := k + 1;
      }
      forall j | 0 <= j < |b| ensures !Fits(b[j], n) {
        Bounded(b, end, j);
        if k < j { Ascending(b, end, k, j); }
      }
      return false, 0, 0;
    }

    /**
     * rt_smem_alloc: the offset of the data, or 0 for RT_NULL. A heap without room for a minimal
     * block answers only the requests that need no search.
     */
    method Alloc(bytes: nat) returns (p: nat)
      requires Valid() && bytes < 0x1_0000_0000
      requires size >= MIN || bytes == 0 || AlignedWords(bytes) > size
      modifies this, mem
      ensures Valid()
      ensures p == 0 <==> bytes == 0 || FirstFit(old(blocks), Wanted(bytes)).Nowhere?
      ensures p == 0 ==> Unchanged()
      ensures p != 0 ==>
        var k := FirstFit(old(blocks), Wanted(bytes)).k;
        && p == old(blocks)[k].lo + HDR
        && blocks == Take(old(blocks), k, Wanted(bytes))
        && LiveAt(blocks, p, Wanted(bytes))
      ensures p != 0 ==>
        var words := (bytes + 3) % 0x1_0000_0000 / 4;
        var r := if words < 3 then 3 else words;
        Grants(old(blocks), blocks, FirstFit(old(blocks), r).k, r, used - old(used))
      ensures DataKept(old(mem[..]), mem[..], old(blocks)) && Kept(old(blocks), blocks)
      ensures max == Max(old(max), used)
    {
      if bytes == 0 { return 0; }
      var n := AlignedWords(bytes);
      if n > size {
        forall i | 0 <= i < |blocks| ensures !Fits(blocks[i], Wanted(bytes)) {
          Bounded(blocks, size + HDR, i);
        }
        return 0;
      }
      if n < MIN { n := MIN; }
      var found, ptr, k := Search(n);
      if !found { return 0; }
      TakeLive(blocks, k, n);
      TakeBlock(ptr, n, k);
      assert blocks[k].used && blocks[k].lo == ptr && blocks[k].Data() >= n;
      return ptr + HDR;
    }

    /** The forward half of plug_holes. */
    method PlugForward(ptr: nat, ghost k: nat)
      requires Mapped() && k < |blocks| && blocks[k].lo == ptr && !blocks[k].used
      modifies this`lfree, this`blocks, mem
      ensures Mapped()
      ensures var b := old(blocks);
              if k + 1 < |b| && !b[k + 1].used
              then blocks == Merge(b, k)
                && lfree == (if old(lfree) == b[k + 1].lo then ptr else old(lfree))
                && SameBut(old(mem[..]), mem[..], {ptr + 1, b[k + 1].lo, b[k + 1].hi + 2})
              else blocks == b && mem[..] == old(mem[..]) && lfree == old(lfree)
    {
      ghost var b, end := blocks, size + HDR;
      ReadHeader(k);
      if k + 1 < |b| { ReadHeader(k + 1); Ascending(b, end, k, k + 1); }
      var nmem := mem[ptr + 1];
      if ptr != nmem && !IsUsed(nmem) && nmem != size + HDR {
        if lfree == nmem { lfree := ptr; }
        Absorb(ptr, k);
      }
    }

    /** The backward half of plug_holes. */
    method PlugBackward(ptr: nat, ghost k: nat)
      requires Mapped() && k < |blocks| && blocks[k].lo == ptr && !blocks[k].used
      modifies this`lfree, this`blocks, mem
      ensures Mapped()
      ensures var b := old(blocks);
              if k > 0 && !b[k - 1].used
              then blocks == Merge(b, k - 1)
                && lfree == (if old(lfree) == b[k].lo then b[k - 1].lo else old(lfree))
                && SameBut(old(mem[..]), mem[..], {b[k - 1].lo + 1, b[k].lo, b[k].hi + 2})
              else blocks == b && mem[..] == old(mem[..]) && lfree == old(lfree)
    {
      ghost var b, end := blocks, size + HDR;
      ReadHeader(k);
      if k > 0 { ReadHeader(k - 1); Ascending(b, end, k - 1, k); }
      var pmem := mem[ptr + 2];
      if pmem != ptr && !IsUsed(pmem) {
        if lfree == ptr { lfree := pmem; }
        Absorb(pmem, k - 1);
      }
    }

    /** plug_holes on the free block at `ptr`. */
    method PlugHoles(ptr: nat, ghost k: nat)
      requires Mapped() && k < |blocks| && blocks[k].lo == ptr && !blocks[k].used
      requires lfree == LowestFree(blocks, size + HDR)
      modifies this`lfree, this`blocks, mem
      ensures Mapped() && blocks == Plug(old(blocks), k)
      ensures lfree == LowestFree(blocks, size + HDR)
      ensures DataKept(old(mem[..]), mem[..], old(blocks))
    {
      ghost var m, b, end := mem[..], blocks, size + HDR;
      LowestFreePlug(b, end, k);
      LowestFreeAtMost(b, end, k);
      if k > 0 && !b[k - 1].used { LowestFreeAtMost2(b, end, k); }
      if k + 1 < |b| { Ascending(b, end, k, k + 1); }
      PlugForward(ptr, k);
      ghost var b1, m1 := blocks, mem[..];
      PlugBackward(ptr, k);
      PlugWrites(b, end, k, m, m1, mem[..]);
    }

    /** A pointer returned by the heap and not freed yet: the data of the used block `k`. */
    ghost predicate Live(p: nat, k: nat)
      reads this
    {
      k < |blocks| && blocks[k].used && p == blocks[k].lo + HDR
    }

    /** rt_smem_free; `k` is the block the pointer belongs to. */
    method Free(rmem: nat, ghost k: nat)
      requires Valid() && (rmem == 0 || Live(rmem, k))
      modifies this, mem
      ensures Valid() && max == old(max)
      ensures rmem == 0 ==> Unchanged()
      ensures rmem != 0 ==>
        && blocks == Freed(old(blocks), k)
        && used == old(used) - (old(blocks)[k].hi - old(blocks)[k].lo)
        && DataKept(old(mem[..]), mem[..], Mark(old(blocks), k, false))
    {
      if rmem == 0 { return; }
      ghost var m, b, end := mem[..], blocks, size + HDR;
      var ptr := rmem - HDR;
      ReadHeader(k);
      FreedHeap(b, end, k);
      UsedMark(b, k, false);
      LowestFreeMark(b, end, k);
      UsedNonNegative(Freed(b, k));
      SetTag(ptr, false, k);
      ghost var b1, m1 := blocks, mem[..];
      if ptr < lfree { lfree := ptr; }
      used := used - (mem[ptr + 1] - ptr);
      UsedPlug(b1, k);
      TagKeepsData(b1, end, k, m, m1);
      PlugHoles(ptr, k);
      assert DataKept(m, mem[..], b1);
    }

    /** The user writes a word of a live allocation. */
    method Write(o: nat, value: int, ghost k: nat)
      requires Valid() && InData(blocks, k, o) && o < mem.Length
      modifies mem
      ensures Valid() && mem[..] == old(mem[..])[o := value]
    {
      ghost var m := mem[..];
      mem[o] := value;
      assert mem[..] == m[o := value];
      DataWrite(m, blocks, size + HDR, pool, k, o, value);
    }

    /** rt_memcpy of `c` words between two allocations. */
    method CopyWords(dst: nat, src: nat, c: nat, ghost j: nat)
      requires Valid() && j < |blocks| && blocks[j].used && blocks[j].lo + HDR <= dst
      requires dst + c <= blocks[j].hi <= size + HDR && src + c <= mem.Length
      requires src + c <= dst || dst + c <= src
      modifies mem
      ensures Valid()
      ensures mem[dst..dst + c] == old(mem[src..src + c])
      ensures forall o: nat :: o < mem.Length && !(dst <= o < dst + c) ==> mem[o] == old(mem[o])
    {
      for x := 0 to c
        invariant Valid()
        invariant mem[dst..dst + x] == old(mem[..])[src..src + x]
        invariant forall o: nat :: o < mem.Length && !(dst <= o < dst + x) ==> mem[o] == old(mem[o])
      {
        ghost var m, v := mem[..], mem[src + x];
        assert v == old(mem[..])[src + x];
        mem[dst + x] := mem[src + x];
        assert mem[..] == m[dst + x := v];
        assert mem[dst..dst + x + 1] == m[dst..dst + x] + [v];
        DataWrite(m, blocks, size + HDR, pool, j, dst + x, v);
      }
    }

    /** The branch of rt_smem_realloc that cuts the block at `ptr` down to `n` words. */
    method ShrinkBlock(ptr: nat, n: nat, ghost k: nat)
      requires Valid() && Live(ptr + HDR, k) && n + HDR + MIN < blocks[k].Data()
      modifies this, mem
      ensures Valid() && max == old(max) && blocks == Shrunk(old(blocks), k, n)
      ensures LiveAt(blocks, ptr + HDR, n) && Kept(Mark(old(blocks), k, false), blocks)
      ensures DataKept(old(mem[..]), mem[..], Mark(old(blocks), k, false))
      ensures KeptWords(old(mem[..]), mem[..], ptr + HDR, ptr + HDR, n)
    {
      ghost var m, b := mem[..], blocks;
      ReadHeader(k);
      ShrinkFacts(b, size + HDR, k, n);
      ShrunkKept(b, size + HDR, k, n);
      used := used - (mem[ptr + 1] - ptr - HDR - n);
      CutAndPlug(ptr, n, k);
      assert used == Used(blocks);
      assert mem[..][ptr + HDR..ptr + HDR + n] == m[ptr + HDR..ptr + HDR + n];
    }

    /** The header writes of a cut; the part cut off becomes free and joins a free successor. */
    method CutAndPlug(ptr: nat, n: nat, ghost k: nat)
      requires Mapped() && Live(ptr + HDR, k) && n + HDR <= blocks[k].Data()
      requires lfree == LowestFree(blocks, size + HDR)
      modifies this`lfree, this`blocks, mem
      ensures blocks == Shrunk(old(blocks), k, n) && Mapped()
      ensures lfree == LowestFree(blocks, size + HDR)
      ensures DataKept(old(mem[..]), mem[..], Mark(old(blocks), k, false))
      ensures forall o: nat :: ptr + HDR <= o < ptr + HDR + n && o < mem.Length ==> mem[o] == old(mem[o])
    {
      ghost var m, b := mem[..], blocks;
      var cut := ptr + HDR + n;
      CutOff(ptr, cut, k);
      ghost var m1 := mem[..];
      PlugHoles(cut, k + 1);
      ShrinkKeeps(b, size + HDR, k, cut, m, m1, mem[..]);
    }

    /** Making the end of a used block a free block of its own. */
    method CutOff(ptr: nat, cut: nat, ghost k: nat)
      requires Mapped() && Live(ptr + HDR, k) && ptr + HDR <= cut && cut + HDR <= blocks[k].hi
      requires lfree == LowestFree(blocks, size + HDR)
      modifies this`lfree, this`blocks, mem
      ensures Mapped() && blocks == Split(old(blocks), k, cut)
      ensures blocks[k + 1] == Block(cut, old(blocks)[k].hi, false)
      ensures lfree == LowestFree(blocks, size + HDR)
      ensures SameBut(old(mem[..]), mem[..], {ptr + 1, cut, cut + 1, cut + 2, old(blocks)[k].hi + 2})
    {
      LowestFreeSplit(blocks, size + HDR, k, cut);
      SplitBlock(ptr, cut, k);
      if cut < lfree { lfree := cut; }
    }

    /** Allocating the new block of a rt_smem_realloc and copying the data into it. */
    method AllocAndCopy(rmem: nat, d: nat, n: nat, ghost k: nat) returns (p: nat)
      requires Valid() && size >= MIN && 0 < n <= size && Live(rmem, k) && d == blocks[k].Data()
      modifies this, mem
      ensures Valid()
      ensures p == 0 <==> FirstFit(old(blocks), Raised(n)).Nowhere?
      ensures p == 0 ==> Unchanged()
      ensures p != 0 ==>
        var b, j := old(blocks), FirstFit(old(blocks), Raised(n)).k;
        && p == b[j].lo + HDR
        && blocks == Take(b, j, Raised(n))
        && Live(rmem, Moved(b, k, j, Raised(n)))
        && max == Max(old(max), Used(Take(b, j, Raised(n))))
        && CopiedFrom(old(mem[..]), mem[..], b, rmem, p, if d < n then d else n)
    {
      WantedWords(n);
      ghost var m, b, f := mem[..], blocks, FirstFit(blocks, Raised(n));
      if f.At? { TakeFacts(b, size + HDR, f.k, k, Raised(n)); }
      p := Alloc(4 * n);
      if p != 0 {
        assert blocks == Take(b, f.k, Raised(n)) && max == Max(old(max), Used(Take(b, f.k, Raised(n))));
        CopyData(rmem, p, if d < n then d else n, m, b, k, f.k);
      }
    }

    /** The copy, from the memory `m` and the row `b` of before the allocation. */
    method CopyData(rmem: nat, p: nat, c: nat, ghost m: seq<int>, ghost b: seq<Block>,
                    ghost k: nat, ghost j: nat)
      requires Valid() && |m| == mem.Length && DataKept(m, mem[..], b)
      requires k < |b| && b[k].used && rmem == b[k].lo + HDR && rmem + c <= b[k].hi <= size + HDR
      requires j < |blocks| && blocks[j].used && p == blocks[j].lo + HDR && p + c <= blocks[j].hi <= size + HDR
      requires b[k].hi <= blocks[j].lo || blocks[j].hi <= b[k].lo
      modifies mem
      ensures Valid() && CopiedFrom(m, mem[..], b, rmem, p, c)
    {
      ghost var m1 := mem[..];
      CopyWords(p, rmem, c, j);
      KeptWordsFrom(m, m1, mem[..], b, k, p, c);
    }

    /** The branch of rt_smem_realloc that moves the data to a new block. */
    method MoveBlock(rmem: nat, d: nat, n: nat, ghost k: nat) returns (p: nat)
      requires Valid() && size >= MIN && 0 < n <= size && Live(rmem, k) && d == blocks[k].Data()
      modifies this, mem
      ensures Valid()
      ensures p == 0 <==> FirstFit(old(blocks), Raised(n)).Nowhere?
      ensures p == 0 ==> Unchanged()
      ensures p != 0 ==>
        var b, j := old(blocks), FirstFit(old(blocks), Raised(n)).k;
        && p == b[j].lo + HDR
        && blocks == Relocated(b, k, j, Raised(n))
        && max == Max(old(max), Used(Take(b, j, Raised(n))))
        && LiveAt(blocks, p, n) && Kept(Mark(b, k, false), blocks)
        && KeptWords(old(mem[..]), mem[..], rmem, p, if d < n then d else n)
        && DataKept(old(mem[..]), mem[..], Mark(b, k, false))
    {
      ghost var m, b, f := mem[..], blocks, FirstFit(blocks, Raised(n));
      if f.At? { MovedKept(b, size + HDR, k, f.k, Raised(n)); }
      p := AllocAndCopy(rmem, d, n, k);
      if p != 0 {
        FreeMoved(rmem, Raised(n), if d < n then d else n, m, b, k, f.k);
      }
    }

    /** Giving up the old block once its words are in the new block `j`. */
    method FreeMoved(rmem: nat, n: nat, c: nat, ghost m: seq<int>, ghost b: seq<Block>, ghost k: nat, ghost j: nat)
      requires Valid() && Heap(b, size + HDR) && |m| == mem.Length
      requires k < |b| && b[k].used && j < |b| && Fits(b[j], n) && c <= n
      requires rmem == b[k].lo + HDR && blocks == Take(b, j, n) && Live(rmem, Moved(b, k, j, n))
      requires CopiedFrom(m, mem[..], b, rmem, b[j].lo + HDR, c)
      modifies this, mem
      ensures blocks == Relocated(b, k, j, n) && max == old(max)
      ensures Valid()
      ensures KeptWords(m, mem[..], rmem, b[j].lo + HDR, c) && DataKept(m, mem[..], Mark(b, k, false))
    {
      ghost var m2, k1 := mem[..], Moved(b, k, j, n);
      Free(rmem, k1);
      MoveKeeps(b, size + HDR, k, j, n, m, m2, mem[..], c);
    }

    /** The part of rt_smem_realloc behind its argument checks: same size, cut down, or moved. */
    method Resize(rmem: nat, n: nat, ghost k: nat) returns (p: nat)
      requires Valid() && size >= MIN && 0 < n <= size && Live(rmem, k)
      modifies this, mem
      ensures Valid()
      ensures var b := old(blocks);
              if n == b[k].Data() then p == rmem && Unchanged()
              else if n + 6 < b[k].hi - b[k].lo - 3 then
                p == rmem && blocks == Shrunk(b, k, n) && max == old(max)
              else if FirstFit(b, Raised(n)).Nowhere? then p == 0 && Unchanged()
              else var j := FirstFit(b, Raised(n)).k;
                && p == b[j].lo + HDR && p != 0
                && blocks == Relocated(b, k, j, Raised(n))
                && max == Max(old(max), Used(Take(b, j, Raised(n))))
      ensures p != 0 ==>
        var d := old(blocks)[k].Data();
        && LiveAt(blocks, p, n)
        && KeptWords(old(mem[..]), mem[..], rmem, p, if d < n then d else n)
        && DataKept(old(mem[..]), mem[..], Mark(old(blocks), k, false))
      ensures Kept(Mark(old(blocks), k, false), blocks)
    {
      SameKept(blocks, size + HDR, k);
      var ptr := rmem - HDR;
      ReadHeader(k);
      var d := mem[ptr + 1] - ptr - HDR;
      if d == n {
        assert blocks[k].lo + HDR == rmem && LiveAt(blocks, rmem, n);
        return rmem;
      }
      if n + HDR + MIN < d {
        ShrinkBlock(ptr, n, k);
        return rmem;
      }
      p := MoveBlock(rmem, d, n, k);
    }

    /**
     * rt_smem_realloc; `k` is the block the old pointer belongs to. A result has room for the
     * words asked for and keeps the old words that fit. For a live pointer, a null result leaves
     * everything unchanged exactly when the rounded request is not for zero words. No other
     * allocation goes away or loses a word, and `max` is still the maximum of `used`, including
     * the moment at which both the old and the new block are allocated.
     */
    method Realloc(rmem: nat, bytes: nat, ghost k: nat) returns (p: nat)
      requires Valid() && bytes < 0x1_0000_0000
      requires size >= MIN || AlignedWords(bytes) == 0 || AlignedWords(bytes) > size
      requires rmem == 0 || Live(rmem, k)
      modifies this, mem
      ensures Valid()
      ensures var n, b := AlignedWords(bytes), old(blocks);
              if n > size then p == 0 && Unchanged()
              else if n == 0 then
                && p == 0 && max == old(max)
                && (if rmem == 0 then Unchanged() else blocks == Freed(b, k))
              else if rmem != 0 && n == b[k].Data() then p == rmem && Unchanged()
              else if rmem != 0 && n + 6 < b[k].hi - b[k].lo - 3 then
                p == rmem && blocks == Shrunk(b, k, n) && max == old(max)
              else if FirstFit(b, Raised(n)).Nowhere? then p == 0 && Unchanged()
              else var j := FirstFit(b, Raised(n)).k;
                && p == b[j].lo + HDR && p != 0
                && blocks == (if rmem == 0 then Take(b, j, Raised(n)) else Relocated(b, k, j, Raised(n)))
                && max == Max(old(max), Used(Take(b, j, Raised(n))))
      ensures p != 0 ==> LiveAt(blocks, p, AlignedWords(bytes))
      ensures rmem != 0 && p == 0 ==> (Unchanged() <==> AlignedWords(bytes) != 0)
      ensures p != 0 && rmem != 0 ==>
        var n, d := AlignedWords(bytes), old(blocks)[k].Data();
        KeptWords(old(mem[..]), mem[..], rmem, p, if d < n then d else n)
      ensures DataKept(old(mem[..]), mem[..], if rmem == 0 then old(blocks) else Mark(old(blocks), k, false))
      ensures Kept(if rmem == 0 then old(blocks) else Mark(old(blocks), k, false), blocks)
    {
      var n := AlignedWords(bytes);
      ghost var b := blocks;
      if rmem != 0 {
        SameKept(b, size + HDR, k);
        FreedKept(b, size + HDR, k);
      }
      if n > size { return 0; }
      if n == 0 {
        Free(rmem, k);
        return 0;
      }
      WantedWords(n);
      if rmem == 0 {
        p := Alloc(4 * n);
        return p;
      }
      p := Resize(rmem, n, k);
    }
  }

  /**
   * What a reallocation of block `k` (of nothing, when `rmem` is null) to `n` words adds to the
   * used memory, in plain numbers: a block that is freed gives back its span, one that is cut
   * down gives back the words cut off, and one that is moved or new costs what an allocation of
   * at least three words grants.
   */
  ghost predicate Accounted(b: seq<Block>, b': seq<Block>, rmem: nat, k: nat, p: nat, n: nat, added: int) {
    (rmem != 0 ==> k < |b|) &&
    var span := if rmem == 0 then 0 else b[k].hi - b[k].lo;
    if b' == b then added == 0
    else if p == 0 then added == 0 - span
    else if p == rmem then added == n + 3 - span
    else
      var r := if n < 3 then 3 else n;
      var f := FirstFit(b, r);
      f.At? && p == b[f.k].lo + 3 && Grants(b, Take(b, f.k, r), f.k, r, added + span)
  }

  lemma {:induction false} FreedAccounts(b: seq<Block>, end: nat, k: nat, rmem: nat, n: nat)
    requires Tiled(b, end) && k < |b| && b[k].used && rmem != 0
    ensures Accounted(b, Freed(b, k), rmem, k, 0, n, Used(Freed(b, k)) - Used(b))
  {
    FreedKept(b, end, k);
    UsedMark(b, k, false);
    UsedPlug(Mark(b, k, false), k);
  }

  lemma {:induction false} ShrunkAccounts(b: seq<Block>, end: nat, k: nat, rmem: nat, n: nat)
    requires Heap(b, end) && k < |b| && b[k].used && rmem != 0 && n + HDR <= b[k].Data()
    ensures Accounted(b, Shrunk(b, k, n), rmem, k, rmem, n, Used(Shrunk(b, k, n)) - Used(b))
  {
    ShrinkFacts(b, end, k, n);
    ShrunkOthers(b, end, k, n);
    assert b[k] in b && b[k] !in Shrunk(b, k, n);
  }

  lemma {:induction false} NewAccounts(b: seq<Block>, j: nat, k: nat, n: nat)
    requires FirstFit(b, Raised(n)) == At(j)
    ensures Accounted(b, Take(b, j, Raised(n)), 0, k, b[j].lo + HDR, n, Used(Take(b, j, Raised(n))) - Used(b))
  {
    TakeGrants(b, j, Raised(n));
    assert Take(b, j, Raised(n))[j].used && !b[j].used;
  }

  lemma {:induction false} MovedAccounts(b: seq<Block>, end: nat, k: nat, j: nat, n: nat)
    requires Heap(b, end) && FirstFit(b, Raised(n)) == At(j) && k < |b| && b[k].used
    ensures var b' := Relocated(b, k, j, Raised(n));
            Accounted(b, b', b[k].lo + HDR, k, b[j].lo + HDR, n, Used(b') - Used(b))
  {
    TakeGrants(b, j, Raised(n));
    UsedRelocated(b, end, k, j, Raised(n));
    RelocatedDiffers(b, end, k, j, Raised(n));
  }

  lemma {:induction false} UsedRelocated(b: seq<Block>, end: nat, k: nat, j: nat, n: nat)
    requires Heap(b, end) && j < |b| && Fits(b[j], n) && k < |b| && b[k].used
    ensures Used(Relocated(b, k, j, n)) == Used(Take(b, j, n)) - (b[k].hi - b[k].lo)
  {
    var t, k1 := Take(b, j, n), Moved(b, k, j, n);
    TakeFacts(b, end, j, k, n);
    UsedMark(t, k1, false);
    UsedPlug(Mark(t, k1, false), k1);
  }

  lemma {:induction false} RelocatedDiffers(b: seq<Block>, end: nat, k: nat, j: nat, n: nat)
    requires Heap(b, end) && j < |b| && Fits(b[j], n) && k < |b| && b[k].used
    ensures Relocated(b, k, j, n) != b && b[j].lo != b[k].lo
  {
    RelocatedOthers(b, end, k, j, n);
    LiveDisjoint(b, end, j, k);
    assert b[k] in b && b[k] !in Relocated(b, k, j, n);
  }

  /** The accounts of every outcome of a reallocation. */
  lemma {:induction false} ReallocAccounts(b: seq<Block>, end: nat, rmem: nat, k: nat, n: nat)
    requires Heap(b, end) && (rmem != 0 ==> k < |b| && b[k].used && rmem == b[k].lo + HDR)
    ensures rmem != 0 ==> Accounted(b, Freed(b, k), rmem, k, 0, n, Used(Freed(b, k)) - Used(b))
    ensures rmem != 0 && n + HDR <= b[k].Data() ==>
              Accounted(b, Shrunk(b, k, n), rmem, k, rmem, n, Used(Shrunk(b, k, n)) - Used(b))
    ensures FirstFit(b, Raised(n)).At? ==>
              var j := FirstFit(b, Raised(n)).k;
              var b' := if rmem == 0 then Take(b, j, Raised(n)) else Relocated(b, k, j, Raised(n));
              Accounted(b, b', rmem, k, b[j].lo + HDR, n, Used(b') - Used(b))
  {
    if rmem != 0 {
      FreedAccounts(b, end, k, rmem, n);
      if n + HDR <= b[k].Data() { ShrunkAccounts(b, end, k, rmem, n); }
    }
    if FirstFit(b, Raised(n)).At? {
      var j := FirstFit(b, Raised(n)).k;
      if rmem == 0 { NewAccounts(b, j, k, n); } else { MovedAccounts(b, end, k, j, n); }
    }
  }

  /** A request rounds to zero words exactly when it is zero or wraps around. */
  lemma RoundsToZero(bytes: nat)
    requires bytes < 0x1_0000_0000
    ensures AlignedWords(bytes) == 0 <==> bytes == 0 || bytes >= 0xFFFF_FFFD
  {
  }

  lemma OthersAreUsed(b: seq<Block>, end: nat, k: nat)
    requires Tiled(b, end) && k < |b| && b[k].used
    ensures forall x: Block :: x.used && x in Mark(b, k, false) ==> x in b && x != b[k]
  {
    var others := Mark(b, k, false);
    forall x: Block | x.used && x in others ensures x in b && x != b[k] {
      var i :| 0 <= i < |b| && others[i] == x;
      assert i != k && b[i] == x;
      LiveDisjoint(b, end, i, k);
    }
  }

  lemma SameKept(b: seq<Block>, end: nat, k: nat)
    requires Tiled(b, end) && k < |b| && b[k].used
    ensures Kept(Mark(b, k, false), b)
  {
    OthersAreUsed(b, end, k);
  }

  /** Freeing changes the row and keeps the used blocks other than `k`. */
  lemma FreedKept(b: seq<Block>, end: nat, k: nat)
    requires Tiled(b, end) && k < |b| && b[k].used
    ensures Kept(Mark(b, k, false), Freed(b, k)) && b != Freed(b, k)
  {
    OthersAreUsed(b, end, k);
    FreedLive(b, end, k);
    assert b[k] in b;
  }

  /** Shrinking leaves a live block with room for `n` words and keeps the used blocks other than `k`. */
  lemma ShrunkKept(b: seq<Block>, end: nat, k: nat, n: nat)
    requires Tiled(b, end) && k < |b| && b[k].used && n + HDR <= b[k].Data()
    ensures LiveAt(Shrunk(b, k, n), b[k].lo + HDR, n) && Kept(Mark(b, k, false), Shrunk(b, k, n))
  {
    OthersAreUsed(b, end, k);
    ShrunkOthers(b, end, k, n);
    assert b[k].(hi := b[k].lo + HDR + n) in Shrunk(b, k, n);
  }

  /** Moving makes a live block with room for `n` words and keeps the used blocks other than `k`. */
  lemma MovedKept(b: seq<Block>, end: nat, k: nat, j: nat, n: nat)
    requires Heap(b, end) && j < |b| && Fits(b[j], n) && k < |b| && b[k].used
    ensures LiveAt(Relocated(b, k, j, n), b[j].lo + HDR, n) && Kept(Mark(b, k, false), Relocated(b, k, j, n))
  {
    OthersAreUsed(b, end, k);
    RelocatedOthers(b, end, k, j, n);
    assert Allocated(b[j], n) in Relocated(b, k, j, n);
  }

  lemma DataWrite(m: seq<int>, b: seq<Block>, end: nat, pool: int, k: nat, o: nat, value: int)
    requires Represents(m, b, end, pool) && InData(b, k, o) && o < |m|
    ensures Represents(m[o := value], b, end, pool)
  {
    Bounded(b, end, k);
    var m' := m[o := value];
    forall i | 0 <= i < |b| ensures HeaderAt(m', b, i, pool) {
      assert HeaderAt(m, b, i, pool);
      if i != k { LiveDisjoint(b, end, i, k); }
    }
  }

  lemma {:induction false} UsedNonNegative(b: seq<Block>)
    requires forall i :: 0 <= i < |b| ==> b[i].lo <= b[i].hi
    ensures Used(b) >= 0
  {
    if b != [] { UsedNonNegative(b[1..]); }
  }

  lemma LowestFreeMark(b: seq<Block>, end: nat, k: nat)
    requires Tiled(b, end) && k < |b| && b[k].used
    ensures LowestFree(Mark(b, k, false), end)
         == if b[k].lo < LowestFree(b, end) then b[k].lo else LowestFree(b, end)
  {
    var i := LowestFreeAt(b, end);
    Bounded(b, end, k);
    if i < k {
      Ascending(b, end, i, k);
      LowestFreeIs(Mark(b, k, false), end, i);
    } else {
      if i < |b| { Ascending(b, end, k, i); }
      LowestFreeIs(Mark(b, k, false), end, k);
    }
  }

  lemma LowestFreeSplit(b: seq<Block>, end: nat, k: nat, cut: nat)
    requires Tiled(b, end) && k < |b| && b[k].used && b[k].lo < cut < b[k].hi
    ensures LowestFree(Split(b, k, cut), end)
         == if cut < LowestFree(b, end) then cut else LowestFree(b, end)
  {
    var i := LowestFreeAt(b, end);
    Bounded(b, end, k);
    if i < k {
      Ascending(b, end, i, k);
      LowestFreeIs(Split(b, k, cut), end, i);
    } else {
      if i < |b| { Ascending(b, end, k, i); }
      LowestFreeIs(Split(b, k, cut), end, k + 1);
    }
  }

  /** Shrinking, in the abstract: the invariant and the accounts. */
  lemma {:induction false} ShrinkFacts(b: seq<Block>, end: nat, k: nat, n: nat)
    requires Heap(b, end) && k < |b| && b[k].used && n + HDR <= b[k].Data()
    ensures var cut := b[k].lo + HDR + n;
            && Heap(Shrunk(b, k, n), end)
            && Used(Shrunk(b, k, n)) == Used(b) - (b[k].hi - cut)
  {
    var cut := b[k].lo + HDR + n;
    ShrunkHeap(b, end, k, n);
    UsedSplit(b, k, cut);
    UsedPlug(Split(b, k, cut), k + 1);
  }

  lemma TagKeepsData(b: seq<Block>, end: nat, k: nat, m: seq<int>, m': seq<int>)
    requires Tiled(b, end) && k < |b| && SameBut(m, m', {b[k].lo})
    ensures DataKept(m, m', b)
  {
    assert OffData(b, k, b[k].lo);
    WritesKeepData(m, m', b, end, {b[k].lo});
  }

  /** Splitting a used block keeps the data of the others and the part before the cut. */
  lemma SplitKeepsData(b: seq<Block>, end: nat, k: nat, cut: nat, m: seq<int>, m': seq<int>)
    requires Tiled(b, end) && k < |b| && |m| == end + HDR
    requires b[k].lo + HDR <= cut && cut + HDR <= b[k].hi
    requires SameBut(m, m', {b[k].lo + 1, cut, cut + 1, cut + 2, b[k].hi + 2})
    ensures DataKept(m, m', Split(b, k, cut))
  {
    var at := {b[k].lo + 1, cut, cut + 1, cut + 2, b[k].hi + 2};
    var s := Split(b, k, cut);
    SplitTiled(b, end, k, cut);
    assert b[k].hi == NextLo(b, k, end);
    if k + 1 < |b| { Bounded(b, end, k + 1); assert s[k + 2] == b[k + 1]; }
    forall o | o in at && o < |m| ensures o >= end || exists j: nat :: OffData(s, j, o) {
      if o == b[k].lo + 1 {
        assert OffData(s, k, o);
      } else if o != b[k].hi + 2 {
        assert OffData(s, k + 1, o);
      } else if k + 1 < |b| {
        assert OffData(s, k + 2, o);
      }
    }
    WritesKeepData(m, m', s, end, at);
  }

  lemma ShrinkKeeps(b: seq<Block>, end: nat, k: nat, cut: nat, m: seq<int>, m1: seq<int>, m': seq<int>)
    requires Tiled(b, end) && k < |b| && b[k].used && |m| == end + HDR
    requires b[k].lo + HDR <= cut && cut + HDR <= b[k].hi
    requires SameBut(m, m1, {b[k].lo + 1, cut, cut + 1, cut + 2, b[k].hi + 2})
    requires DataKept(m1, m', Split(b, k, cut))
    ensures DataKept(m, m', Mark(b, k, false))
    ensures forall o: nat :: b[k].lo + HDR <= o < cut && o < |m| ==> m'[o] == m[o]
  {
    SplitKeepsData(b, end, k, cut, m, m1);
    SplitKept(b, k, cut, m, m1, m');
  }

  /** What is kept for the two parts is kept for the other blocks and for the first part. */
  lemma SplitKept(b: seq<Block>, k: nat, cut: nat, m: seq<int>, m1: seq<int>, m': seq<int>)
    requires k < |b| && b[k].used && cut <= b[k].hi
    requires DataKept(m, m1, Split(b, k, cut)) && DataKept(m1, m', Split(b, k, cut))
    ensures DataKept(m, m', Mark(b, k, false))
    ensures forall o: nat :: b[k].lo + HDR <= o < cut && o < |m| ==> m'[o] == m[o]
  {
    var s := Split(b, k, cut);
    assert DataKept(m, m', s);
    forall i: nat, o: nat | InData(Mark(b, k, false), i, o) && o < |m| ensures m'[o] == m[o] {
      assert InData(s, if i < k then i else i + 1, o);
    }
    forall o: nat | b[k].lo + HDR <= o < cut && o < |m| ensures m'[o] == m[o] {
      assert InData(s, k, o);
    }
  }

  lemma {:induction false} FirstFitIs(b: seq<Block>, n: nat, k: nat)
    requires k < |b| && Fits(b[k], n) && forall i :: 0 <= i < k ==> !Fits(b[i], n)
    ensures FirstFit(b, n) == At(k)
  {
  }

  /** The lowest free block is not above a free block, and below it if its predecessor is free. */
  lemma LowestFreeAtMost(b: seq<Block>, end: nat, k: nat)
    requires Tiled(b, end) && k < |b| && !b[k].used
    ensures LowestFree(b, end) <= b[k].lo
  {
    var i := LowestFreeAt(b, end);
    if i < k { Ascending(b, end, i, k); }
  }

  lemma LowestFreeAtMost2(b: seq<Block>, end: nat, k: nat)
    requires Tiled(b, end) && 0 < k < |b| && !b[k - 1].used
    ensures LowestFree(b, end) < b[k].lo
  {
    LowestFreeAtMost(b, end, k - 1);
    Ascending(b, end, k - 1, k);
  }

  /** Allocation writes only into the block it takes and into the next header. */
  lemma TakeWrites(b: seq<Block>, end: nat, k: nat, n: nat, m: seq<int>, m1: seq<int>, m': seq<int>)
    requires Tiled(b, end) && k < |b| && Fits(b[k], n) && |m| == end + HDR
    requires var lo, hi, cut := b[k].lo, b[k].hi, b[k].lo + HDR + n;
             if b[k].Data() >= n + HDR + MIN
             then SameBut(m, m1, {lo + 1, cut, cut + 1, cut + 2, hi + 2})
             else m1 == m
    requires SameBut(m1, m', {b[k].lo})
    ensures DataKept(m, m', b)
  {
    var lo, hi, cut := b[k].lo, b[k].hi, b[k].lo + HDR + n;
    var at := if b[k].Data() >= n + HDR + MIN then {lo + 1, cut, cut + 1, cut + 2, hi + 2} + {lo} else {lo};
    assert b[k].hi == NextLo(b, k, end);
    if k + 1 < |b| { Bounded(b, end, k + 1); }
    assert SameBut(m, m', at);
    forall o | o in at && o < |m| ensures o >= end || exists j: nat :: OffData(b, j, o) {
      if o == hi + 2 {
        if k + 1 < |b| { assert OffData(b, k + 1, o); }
      } else {
        assert OffData(b, k, o);
      }
    }
    WritesKeepData(m, m', b, end, at);
  }

  /** What an allocation of `n` words adds to the used memory. */
  function TakenSpan(blk: Block, n: nat): int {
    if blk.Data() >= n + HDR + MIN then n + HDR else blk.hi - blk.lo
  }

  lemma {:induction false} UsedTake(b: seq<Block>, k: nat, n: nat)
    requires k < |b| && Fits(b[k], n)
    ensures Used(Take(b, k, n)) == Used(b) + TakenSpan(b[k], n)
  {
    if b[k].Data() >= n + HDR + MIN {
      UsedCut(b, k, b[k].lo + HDR + n);
    } else {
      UsedMark(b, k, true);
    }
  }

  lemma {:induction false} UsedCut(b: seq<Block>, k: nat, cut: nat)
    requires k < |b| && !b[k].used
    ensures Used(Mark(Split(b, k, cut), k, true)) == Used(b) + cut - b[k].lo
  {
    UsedSplit(b, k, cut);
    var s := Split(b, k, cut);
    assert s[k] == b[k].(hi := cut);
    UsedMark(s, k, true);
  }

  /** Coalescing writes only into the free block, its free neighbours and the next header. */
  lemma PlugWrites(b: seq<Block>, end: nat, k: nat, m: seq<int>, m1: seq<int>, m': seq<int>)
    requires Tiled(b, end) && k < |b| && !b[k].used && |m| == end + HDR
    requires if k + 1 < |b| && !b[k + 1].used
             then SameBut(m, m1, {b[k].lo + 1, b[k + 1].lo, b[k + 1].hi + 2})
             else m1 == m
    requires var hi := if k + 1 < |b| && !b[k + 1].used then b[k + 1].hi else b[k].hi;
             if k > 0 && !b[k - 1].used
             then SameBut(m1, m', {b[k - 1].lo + 1, b[k].lo, hi + 2})
             else m' == m1
    ensures DataKept(m, m', b)
  {
    var fwd := k + 1 < |b| && !b[k + 1].used;
    var at := if fwd then {b[k].lo + 1, b[k + 1].lo, b[k + 1].hi + 2} else {};
    var at2 := if k > 0 && !b[k - 1].used
               then {b[k - 1].lo + 1, b[k].lo, (if fwd then b[k + 1].hi else b[k].hi) + 2} else {};
    assert b[k].hi == NextLo(b, k, end);
    if k + 1 < |b| { assert b[k + 1].hi == NextLo(b, k + 1, end); Bounded(b, end, k + 1); }
    if k + 2 < |b| { Bounded(b, end, k + 2); }
    forall o | o in at + at2 && o < |m| ensures o >= end || exists j: nat :: OffData(b, j, o) {
      if k > 0 && o == b[k - 1].lo + 1 && !b[k - 1].used {
        assert OffData(b, k - 1, o);
      } else if o == b[k].lo || o == b[k].lo + 1 {
        assert OffData(b, k, o);
      } else if fwd && o == b[k + 1].lo {
        assert OffData(b, k + 1, o);
      } else if fwd && o == b[k + 1].hi + 2 {
        if k + 2 < |b| { assert OffData(b, k + 2, o); }
      } else if k + 1 < |b| {
        assert OffData(b, k + 1, o);
      }
    }
    SameButTrans(m, m1, m', at, at2);
    WritesKeepData(m, m', b, end, at + at2);
  }

  /** An allocation in block `j` leaves the used block `k` as it is, perhaps one position later. */
  lemma TakeFacts(b: seq<Block>, end: nat, j: nat, k: nat, n: nat)
    requires Heap(b, end) && j < |b| && Fits(b[j], n) && k < |b| && b[k].used
    ensures var t, k1 := Take(b, j, n), Moved(b, k, j, n);
            && k1 < |t| && t[k1] == b[k] && j < |t| && j != k1
            && t[j].used && t[j].lo == b[j].lo && t[j].lo + HDR + n <= t[j].hi <= b[j].hi <= end
            && b[k].hi <= end
            && (b[k].hi <= b[j].lo || t[j].hi <= b[k].lo)
  {
    TakeHeap(b, end, j, n);
    Bounded(b, end, j);
    var t, k1 := Take(b, j, n), Moved(b, k, j, n);
    LiveDisjoint(t, end, j, k1);
    LiveDisjoint(t, end, k1, j);
  }

  /** The copy reads words that the allocation did not change. */
  lemma KeptWordsFrom(m: seq<int>, m1: seq<int>, m2: seq<int>, b: seq<Block>, k: nat, p: nat, c: nat)
    requires DataKept(m, m1, b) && k < |b| && b[k].used && b[k].lo + HDR + c <= b[k].hi <= |m|
    requires p + c <= |m2| == |m1| && m2[p..p + c] == m1[b[k].lo + HDR..b[k].lo + HDR + c]
    requires forall o: nat :: o < |m1| && !(p <= o < p + c) ==> m2[o] == m1[o]
    ensures CopiedFrom(m, m2, b, b[k].lo + HDR, p, c)
  {
    var src := b[k].lo + HDR;
    var was, now := m[src..src + c], m1[src..src + c];
    forall x | 0 <= x < c ensures now[x] == was[x] {
      assert InData(b, k, src + x);
    }
  }

  /** Moving keeps the data of every other allocation and the words just copied. */
  lemma MoveKeeps(b: seq<Block>, end: nat, k: nat, j: nat, n: nat,
                  m: seq<int>, m2: seq<int>, m3: seq<int>, c: nat)
    requires Heap(b, end) && k < |b| && b[k].used && j < |b| && Fits(b[j], n) && c <= n
    requires |m| == end + HDR && CopiedFrom(m, m2, b, b[k].lo + HDR, b[j].lo + HDR, c)
    requires Moved(b, k, j, n) < |Take(b, j, n)|
    requires DataKept(m2, m3, Mark(Take(b, j, n), Moved(b, k, j, n), false))
    ensures DataKept(m, m3, Mark(b, k, false))
    ensures KeptWords(m, m3, b[k].lo + HDR, b[j].lo + HDR, c)
  {
    var p, k1 := b[j].lo + HDR, Moved(b, k, j, n);
    TakeFacts(b, end, j, k, n);
    var r := Mark(Take(b, j, n), k1, false);
    forall i: nat, o: nat | InData(Mark(b, k, false), i, o) && o < |m| ensures m3[o] == m[o] {
      assert InData(b, i, o);
      if p <= o < p + c {
        assert OffData(b, j, o);
        OffDataApart(b, end, j, o, i);
      }
      TakeFacts(b, end, j, i, n);
      assert InData(r, Moved(b, i, j, n), o);
    }
    var was, now := m2[p..p + c], m3[p..p + c];
    forall x | 0 <= x < c ensures now[x] == was[x] {
      assert InData(r, j, p + x);
    }
  }

  /** Moving is an allocation followed by a free, so what holds after every run holds after it. */
  lemma {:induction false} RelocatedIsTwoSteps(b: seq<Block>, end: nat, k: nat, j: nat, n: nat)
    requires Heap(b, end) && FirstFit(b, n) == At(j) && k < |b| && b[k].used
    ensures var ops := [Op.Alloc(n), Op.Free(Moved(b, k, j, n))];
            Runnable(b, ops) && Exec(b, ops) == Relocated(b, k, j, n)
  {
    var free := Op.Free(Moved(b, k, j, n));
    var ops := [Op.Alloc(n), free];
    TakeFacts(b, end, j, k, n);
    var t := Take(b, j, n);
    assert ops[1..] == [free] && [free][1..] == [];
    assert Step(b, ops[0]) == t && Step(t, free) == Relocated(b, k, j, n);
    assert Runnable(Step(t, free), []);
    assert Runnable(t, [free]) && Exec(t, [free]) == Step(t, free);
  }

  /** Moving replaces the old block by the new one and takes away no other. */
  lemma RelocatedOthers(b: seq<Block>, end: nat, k: nat, j: nat, n: nat)
    requires Heap(b, end) && j < |b| && Fits(b[j], n) && k < |b| && b[k].used
    ensures forall x: Block :: x.used ==>
              (x in Relocated(b, k, j, n) <==> x == Allocated(b[j], n) || (x in b && x != b[k]))
  {
    TakeFacts(b, end, j, k, n);
    TakeHeap(b, end, j, n);
    TakeLive(b, j, n);
    FreedLive(Take(b, j, n), end, Moved(b, k, j, n));
    Bounded(b, end, j);
    LiveDisjoint(b, end, j, k);
  }
}
