/**
 * The small-memory heap of rt-thread/src/mem.c, seen as a row of blocks. Offsets and sizes count
 * words of RT_ALIGN_SIZE (4) bytes: the source keeps every offset and size a multiple of it.
 */
module HeapModel {

  /** SIZEOF_STRUCT_MEM and MIN_SIZE_ALIGNED: 12 bytes each on the 32-bit target. */
  const HDR: nat := 3
  const MIN: nat := 3

  /** The words `lo..hi`: a header of HDR words and then the data. */
  datatype Block = Block(lo: nat, hi: nat, used: bool) {
    function Data(): int { hi - lo - HDR }
  }

  /** Where the block after position `i` starts, or the end of the row. */
  function NextLo(b: seq<Block>, i: nat, end: nat): nat {
    if i + 1 < |b| then b[i + 1].lo else end
  }

  /** The blocks cover `0..end` without gaps, and each has room for its header. */
  predicate Tiled(b: seq<Block>, end: nat) {
    && |b| > 0 && b[0].lo == 0
    && (forall i :: 0 <= i < |b| ==> b[i].lo + HDR <= b[i].hi)
    && forall i {:trigger NextLo(b, i, end)} :: 0 <= i < |b| ==> b[i].hi == NextLo(b, i, end)
  }

  /** No two neighbouring blocks are free. */
  predicate Coalesced(b: seq<Block>) {
    forall i, j :: 0 <= i < |b| && j == i + 1 && j < |b| ==> b[i].used || b[j].used
  }

  lemma {:induction false} Ascending(b: seq<Block>, end: nat, i: nat, j: nat)
    requires Tiled(b, end) && i < j < |b|
    ensures b[i].hi <= b[j].lo && b[j].hi <= end
    decreases j - i
  {
    assert b[i].hi == NextLo(b, i, end) && b[j].hi == NextLo(b, j, end);
    if j + 1 < |b| { Bounded(b, end, j); }
    if i + 1 < j { Ascending(b, end, i + 1, j); }
  }

  lemma {:induction false} Bounded(b: seq<Block>, end: nat, i: nat)
    requires Tiled(b, end) && i < |b|
    ensures b[i].hi <= end
    decreases |b| - i
  {
    assert b[i].hi == NextLo(b, i, end);
    if i + 1 < |b| { Bounded(b, end, i + 1); }
  }

  /** The span of a block that counts as used memory, header included. */
  function UsedSpan(blk: Block): int {
    if blk.used then blk.hi - blk.lo else 0
  }

  /** The sum of the spans of the used blocks. */
  function Used(b: seq<Block>): int {
    if b == [] then 0 else UsedSpan(b[0]) + Used(b[1..])
  }

  /** The start of the first free block, or `end` when there is none. */
  function LowestFree(b: seq<Block>, end: nat): nat {
    if b == [] then end else if !b[0].used then b[0].lo else LowestFree(b[1..], end)
  }

  function Mark(b: seq<Block>, k: nat, used: bool): seq<Block>
    requires k < |b|
  {
    b[k := b[k].(used := used)]
  }

  /** Cutting block `k` in two; the second part is free. */
  function Split(b: seq<Block>, k: nat, cut: nat): seq<Block>
    requires k < |b|
  {
    b[..k] + [b[k].(hi := cut), Block(cut, b[k].hi, false)] + b[k + 1..]
  }

  /** Joining blocks `k` and `k + 1`. */
  function Merge(b: seq<Block>, k: nat): seq<Block>
    requires k + 1 < |b|
  {
    b[..k] + [b[k].(hi := b[k + 1].hi)] + b[k + 2..]
  }

  predicate Fits(blk: Block, n: nat) {
    !blk.used && blk.Data() >= n
  }

  datatype Place = Nowhere | At(k: nat)

  /** The lowest free block with at least `n` words of data. */
  function FirstFit(b: seq<Block>, n: nat): (p: Place)
    ensures p.At? ==> p.k < |b| && Fits(b[p.k], n) && forall i :: 0 <= i < p.k ==> !Fits(b[i], n)
    ensures p.Nowhere? ==> forall i :: 0 <= i < |b| ==> !Fits(b[i], n)
  {
    if b == [] then Nowhere
    else if Fits(b[0], n) then At(0)
    else match FirstFit(b[1..], n)
      case Nowhere => Nowhere
      case At(k) =>
        assert forall i :: 1 <= i < k + 1 ==> b[i] == b[1..][i - 1];
        At(k + 1)
  }

  /** Allocating `n` words in block `k`: the rest is cut off if it can hold a block of its own. */
  function Take(b: seq<Block>, k: nat, n: nat): seq<Block>
    requires k < |b|
  {
    if b[k].Data() >= n + HDR + MIN then Mark(Split(b, k, b[k].lo + HDR + n), k, true)
    else Mark(b, k, true)
  }

  /** Joining the free block `k` with its free neighbours. */
  function Plug(b: seq<Block>, k: nat): seq<Block>
    requires k < |b|
  {
    var b1 := if k + 1 < |b| && !b[k + 1].used then Merge(b, k) else b;
    if k > 0 && !b[k - 1].used then Merge(b1, k - 1) else b1
  }

  function Freed(b: seq<Block>, k: nat): seq<Block>
    requires k < |b|
  {
    Plug(Mark(b, k, false), k)
  }

  /** Keeping only `n` words of data in the used block `k`. */
  function Shrunk(b: seq<Block>, k: nat, n: nat): seq<Block>
    requires k < |b|
  {
    Plug(Split(b, k, b[k].lo + HDR + n), k + 1)
  }

  /** What every operation keeps. */
  predicate Heap(b: seq<Block>, end: nat) {
    Tiled(b, end) && Coalesced(b)
  }

  lemma MarkTiled(b: seq<Block>, end: nat, k: nat, used: bool)
    requires Tiled(b, end) && k < |b|
    ensures Tiled(Mark(b, k, used), end)
  {
    var r := Mark(b, k, used);
    forall i | 0 <= i < |r| ensures r[i].hi == NextLo(r, i, end) {
      assert b[i].hi == NextLo(b, i, end);
    }
  }

  lemma SplitTiled(b: seq<Block>, end: nat, k: nat, cut: nat)
    requires Tiled(b, end) && k < |b| && b[k].lo + HDR <= cut && cut + HDR <= b[k].hi
    ensures Tiled(Split(b, k, cut), end)
  {
    var r := Split(b, k, cut);
    forall i | 0 <= i < |r| ensures r[i].hi == NextLo(r, i, end) {
      var j := if i <= k then i else i - 1;
      assert b[j].hi == NextLo(b, j, end);
    }
  }

  lemma MergeTiled(b: seq<Block>, end: nat, k: nat)
    requires Tiled(b, end) && k + 1 < |b|
    ensures Tiled(Merge(b, k), end)
  {
    var r := Merge(b, k);
    assert b[k].hi == NextLo(b, k, end);
    forall i | 0 <= i < |r| ensures r[i].hi == NextLo(r, i, end) {
      var j := if i < k then i else i + 1;
      assert b[j].hi == NextLo(b, j, end);
    }
  }

  /** No two neighbouring blocks are free, except perhaps those behind positions `p` and `q`. */
  predicate CoalescedBut(b: seq<Block>, p: int, q: int) {
    forall i, j :: 0 <= i < |b| && j == i + 1 && j < |b| && i != p && i != q ==> b[i].used || b[j].used
  }

  /** Merging block `k` with the next restores the rule between them. */
  lemma MergeCoalesced(b: seq<Block>, k: nat, p: int)
    requires k + 1 < |b| && !b[k].used && !b[k + 1].used
    requires CoalescedBut(b, p, k) && (p == -1 || p == k - 1)
    ensures CoalescedBut(Merge(b, k), p, -1)
  {
  }

  /** Plugging block `k` restores the rule broken there and nowhere else. */
  lemma PlugHeap(b: seq<Block>, end: nat, k: nat)
    requires Tiled(b, end) && k < |b| && !b[k].used && CoalescedBut(b, k - 1, k)
    ensures Heap(Plug(b, k), end)
  {
    var b1 := if k + 1 < |b| && !b[k + 1].used then Merge(b, k) else b;
    if k + 1 < |b| && !b[k + 1].used {
      MergeTiled(b, end, k);
      MergeCoalesced(b, k, k - 1);
    }
    if k > 0 && !b[k - 1].used {
      assert !b1[k - 1].used && !b1[k].used;
      MergeTiled(b1, end, k - 1);
      MergeCoalesced(b1, k - 1, -1);
    }
  }

  lemma TakeHeap(b: seq<Block>, end: nat, k: nat, n: nat)
    requires Heap(b, end) && k < |b| && Fits(b[k], n)
    ensures Heap(Take(b, k, n), end)
  {
    var cut := b[k].lo + HDR + n;
    if b[k].Data() >= n + HDR + MIN {
      SplitTiled(b, end, k, cut);
      var s := Split(b, k, cut);
      MarkTiled(s, end, k, true);
      var r := Mark(s, k, true);
      forall i, j | 0 <= i < |r| && j == i + 1 && j < |r| ensures r[i].used || r[j].used {
        if i == k + 1 { assert b[k].used || b[k + 1].used; }
        if i > k + 1 { assert b[i - 1].used || b[j - 1].used; }
      }
    } else {
      MarkTiled(b, end, k, true);
    }
  }

  lemma FreedHeap(b: seq<Block>, end: nat, k: nat)
    requires Heap(b, end) && k < |b|
    ensures Heap(Freed(b, k), end)
  {
    MarkTiled(b, end, k, false);
    PlugHeap(Mark(b, k, false), end, k);
  }

  lemma ShrunkHeap(b: seq<Block>, end: nat, k: nat, n: nat)
    requires Heap(b, end) && k < |b| && b[k].used && n + HDR <= b[k].Data()
    ensures Heap(Shrunk(b, k, n), end)
  {
    var cut := b[k].lo + HDR + n;
    SplitTiled(b, end, k, cut);
    var s := Split(b, k, cut);
    forall i, j | 0 <= i < |s| && j == i + 1 && j < |s| && i != k && i != k + 1
      ensures s[i].used || s[j].used
    {
      if i > k + 1 { assert b[i - 1].used || b[j - 1].used; }
    }
    PlugHeap(s, end, k + 1);
  }

  lemma {:induction false} UsedConcat(a: seq<Block>, b: seq<Block>)
    ensures Used(a + b) == Used(a) + Used(b)
  {
    if a == [] {
      assert a + b == b;
    } else {
      assert (a + b)[1..] == a[1..] + b;
      UsedConcat(a[1..], b);
    }
  }

  /** The sum around one block. */
  lemma UsedAround(a: seq<Block>, x: Block, c: seq<Block>)
    ensures Used(a + [x] + c) == Used(a) + UsedSpan(x) + Used(c)
  {
    UsedConcat(a, [x]);
    UsedConcat(a + [x], c);
    assert [x][1..] == [];
  }

  /** The sum around two neighbours. */
  lemma UsedAround2(a: seq<Block>, x: Block, y: Block, c: seq<Block>)
    ensures Used(a + [x, y] + c) == Used(a) + UsedSpan(x) + UsedSpan(y) + Used(c)
  {
    UsedAround(a, x, [y] + c);
    assert a + [x] + ([y] + c) == a + [x, y] + c;
    assert ([y] + c)[1..] == c;
  }

  /** The sum of a row, split at block `k`. */
  lemma UsedAt(b: seq<Block>, k: nat)
    requires k < |b|
    ensures Used(b) == Used(b[..k]) + UsedSpan(b[k]) + Used(b[k + 1..])
  {
    assert b == b[..k] + [b[k]] + b[k + 1..];
    UsedAround(b[..k], b[k], b[k + 1..]);
  }

  lemma UsedMark(b: seq<Block>, k: nat, used: bool)
    requires k < |b|
    ensures Used(Mark(b, k, used)) == Used(b) - UsedSpan(b[k]) + (if used then b[k].hi - b[k].lo else 0)
  {
    var r := Mark(b, k, used);
    UsedAt(b, k);
    UsedAt(r, k);
    assert r[..k] == b[..k] && r[k + 1..] == b[k + 1..];
  }

  lemma UsedSplit(b: seq<Block>, k: nat, cut: nat)
    requires k < |b|
    ensures Used(Split(b, k, cut)) == Used(b) - (if b[k].used then b[k].hi - cut else 0)
  {
    UsedAt(b, k);
    UsedAround2(b[..k], b[k].(hi := cut), Block(cut, b[k].hi, false), b[k + 1..]);
  }

  lemma UsedMerge(b: seq<Block>, k: nat)
    requires k + 1 < |b| && !b[k].used && !b[k + 1].used
    ensures Used(Merge(b, k)) == Used(b)
  {
    assert b == b[..k] + [b[k], b[k + 1]] + b[k + 2..];
    UsedAround2(b[..k], b[k], b[k + 1], b[k + 2..]);
    UsedAround(b[..k], b[k].(hi := b[k + 1].hi), b[k + 2..]);
  }

  lemma UsedPlug(b: seq<Block>, k: nat)
    requires k < |b| && !b[k].used
    ensures Used(Plug(b, k)) == Used(b)
  {
    var b1 := if k + 1 < |b| && !b[k + 1].used then Merge(b, k) else b;
    if k + 1 < |b| && !b[k + 1].used { UsedMerge(b, k); }
    if k > 0 && !b[k - 1].used {
      assert !b1[k - 1].used && !b1[k].used;
      UsedMerge(b1, k - 1);
    }
  }

  /** The used and the free spans together make up the whole row. */
  lemma {:induction false} SpansAddUp(b: seq<Block>, from: nat, end: nat)
    requires |b| > 0 && b[0].lo == from
    requires forall i {:trigger NextLo(b, i, end)} :: 0 <= i < |b| ==> b[i].hi == NextLo(b, i, end)
    ensures Used(b) + Used(Flip(b)) == end - from
  {
    assert b[0].hi == NextLo(b, 0, end);
    if |b| > 1 {
      forall i | 0 <= i < |b| - 1 ensures b[1..][i].hi == NextLo(b[1..], i, end) {
        assert b[i + 1].hi == NextLo(b, i + 1, end);
      }
      SpansAddUp(b[1..], b[0].hi, end);
      assert Flip(b)[1..] == Flip(b[1..]);
    } else {
      assert Used(b[1..]) == 0 && Used(Flip(b)[1..]) == 0;
    }
  }

  /** The same row with used and free exchanged. */
  function Flip(b: seq<Block>): (r: seq<Block>)
    ensures |r| == |b| && forall i :: 0 <= i < |b| ==> r[i] == b[i].(used := !b[i].used)
  {
    seq(|b|, i requires 0 <= i < |b| => b[i].(used := !b[i].used))
  }

  lemma {:induction false} LowestFreeIs(b: seq<Block>, end: nat, k: nat)
    requires k <= |b| && (k < |b| ==> !b[k].used)
    requires forall i :: 0 <= i < k ==> b[i].used
    ensures LowestFree(b, end) == if k < |b| then b[k].lo else end
  {
    if k > 0 { LowestFreeIs(b[1..], end, k - 1); }
  }

  lemma {:induction false} LowestFreeAt(b: seq<Block>, end: nat) returns (k: nat)
    ensures k <= |b| && (k < |b| ==> !b[k].used)
    ensures forall i :: 0 <= i < k ==> b[i].used
    ensures LowestFree(b, end) == if k < |b| then b[k].lo else end
  {
    if b == [] || !b[0].used {
      k := 0;
    } else {
      var j := LowestFreeAt(b[1..], end);
      k := j + 1;
    }
  }

  /** Merging two free blocks does not move the lowest free block. */
  lemma LowestFreeMerge(b: seq<Block>, end: nat, k: nat)
    requires k + 1 < |b| && !b[k].used && !b[k + 1].used
    ensures LowestFree(Merge(b, k), end) == LowestFree(b, end)
  {
    var l := LowestFreeAt(b, end);
    LowestFreeIs(Merge(b, k), end, l);
  }

  lemma LowestFreePlug(b: seq<Block>, end: nat, k: nat)
    requires k < |b| && !b[k].used
    ensures LowestFree(Plug(b, k), end) == LowestFree(b, end)
  {
    var b1 := if k + 1 < |b| && !b[k + 1].used then Merge(b, k) else b;
    if k + 1 < |b| && !b[k + 1].used { LowestFreeMerge(b, end, k); }
    if k > 0 && !b[k - 1].used {
      assert !b1[k - 1].used && !b1[k].used;
      LowestFreeMerge(b1, end, k - 1);
    }
  }

  /** Once every block is freed, the row is the single block of a new heap and nothing is used. */
  lemma AllFreedIsInitial(b: seq<Block>, end: nat)
    requires Heap(b, end) && forall i :: 0 <= i < |b| ==> !b[i].used
    ensures b == [Block(0, end, false)] && Used(b) == 0 && LowestFree(b, end) == 0
  {
    if |b| > 1 {
      assert false;
    }
    assert b[0].hi == NextLo(b, 0, end);
  }

  /** Live blocks are pairwise disjoint and inside the row. */
  lemma LiveDisjoint(b: seq<Block>, end: nat, i: nat, j: nat)
    requires Tiled(b, end) && i < |b| && j < |b| && i != j
    ensures b[i].hi <= b[j].lo || b[j].hi <= b[i].lo
    ensures b[i].hi <= end
  {
    Bounded(b, end, i);
    if i < j { Ascending(b, end, i, j); } else { Ascending(b, end, j, i); }
  }

  /** Merging or plugging free blocks leaves exactly the same used blocks. */
  lemma MergeLive(b: seq<Block>, k: nat)
    requires k + 1 < |b| && !b[k].used && !b[k + 1].used
    ensures forall x: Block :: x.used ==> (x in Merge(b, k) <==> x in b)
  {
  }

  lemma PlugLive(b: seq<Block>, k: nat)
    requires k < |b| && !b[k].used
    ensures forall x: Block :: x.used ==> (x in Plug(b, k) <==> x in b)
  {
    var b1 := if k + 1 < |b| && !b[k + 1].used then Merge(b, k) else b;
    if k + 1 < |b| && !b[k + 1].used { MergeLive(b, k); }
    if k > 0 && !b[k - 1].used {
      assert !b1[k - 1].used && !b1[k].used;
      MergeLive(b1, k - 1);
    }
  }

  /** Freeing takes away the freed block and no other. */
  lemma FreedLive(b: seq<Block>, end: nat, k: nat)
    requires Tiled(b, end) && k < |b| && b[k].used
    ensures forall x: Block :: x.used ==> (x in Freed(b, k) <==> x in b && x != b[k])
  {
    var r := Mark(b, k, false);
    PlugLive(r, k);
    forall x: Block | x.used ensures x in r <==> x in b && x != b[k] {
      if x in r {
        var i :| 0 <= i < |r| && r[i] == x;
        if i < k { Ascending(b, end, i, k); } else { Ascending(b, end, k, i); }
      }
      if x in b && x != b[k] { var i :| 0 <= i < |b| && b[i] == x; assert r[i] == x; }
    }
  }

  /** Shrinking replaces the block by its first part and takes away no other. */
  lemma ShrunkOthers(b: seq<Block>, end: nat, k: nat, n: nat)
    requires Tiled(b, end) && k < |b| && b[k].used && n + HDR <= b[k].Data()
    ensures var y := b[k].(hi := b[k].lo + HDR + n);
            forall x: Block :: x.used ==> (x in Shrunk(b, k, n) <==> x == y || (x in b && x != b[k]))
  {
    var s := Split(b, k, b[k].lo + HDR + n);
    PlugLive(s, k + 1);
    assert b == b[..k] + [b[k]] + b[k + 1..];
    forall i | 0 <= i < |b| && i != k ensures b[i] != b[k] { LiveDisjoint(b, end, i, k); }
    assert b[k] !in b[..k] && b[k] !in b[k + 1..];
  }

  /** The block that an allocation of `n` words makes out of the free block `blk`. */
  function Allocated(blk: Block, n: nat): Block {
    if blk.Data() >= n + HDR + MIN then Block(blk.lo, blk.lo + HDR + n, true) else blk.(used := true)
  }

  /** Allocating adds one block and disturbs no other. */
  lemma TakeLive(b: seq<Block>, k: nat, n: nat)
    requires k < |b| && Fits(b[k], n)
    ensures forall x: Block :: x.used ==> (x in Take(b, k, n) <==> x in b || x == Allocated(b[k], n))
    ensures Allocated(b[k], n).Data() >= n
  {
    var y := Allocated(b[k], n);
    assert b == b[..k] + [b[k]] + b[k + 1..];
    forall x: Block | x.used ensures x in Take(b, k, n) <==> x in b || x == y {
      assert x in b <==> x in b[..k] || x == b[k] || x in b[k + 1..];
      if b[k].Data() >= n + HDR + MIN {
        var z := Block(b[k].lo + HDR + n, b[k].hi, false);
        assert Take(b, k, n) == b[..k] + [y, z] + b[k + 1..];
      } else {
        assert Take(b, k, n) == b[..k] + [y] + b[k + 1..];
      }
    }
  }

  /**
   * What an allocation of `r` words makes of the row `b`, in plain numbers: the free block `k` is
   * cut exactly when at least six words more than `r` lie behind its header of three, and then
   * the allocation gets exactly `r` words of data and the rest is a free block; otherwise it gets
   * the whole block. The used memory grows by `added`.
   */
  ghost predicate Grants(b: seq<Block>, b': seq<Block>, k: nat, r: nat, added: int) {
    k < |b| &&
    var lo, hi := b[k].lo, b[k].hi;
    if hi - lo - 3 >= r + 6 then
      && b' == b[..k] + [Block(lo, lo + 3 + r, true), Block(lo + 3 + r, hi, false)] + b[k + 1..]
      && added == r + 3
    else
      && b' == b[..k] + [Block(lo, hi, true)] + b[k + 1..]
      && added == hi - lo
  }

  lemma {:induction false} TakeGrants(b: seq<Block>, k: nat, r: nat)
    requires k < |b| && Fits(b[k], r)
    ensures Grants(b, Take(b, k, r), k, r, Used(Take(b, k, r)) - Used(b))
  {
    var lo, hi := b[k].lo, b[k].hi;
    UsedAt(b, k);
    if hi - lo - 3 >= r + 6 {
      TakeCuts(b, k, r);
      UsedAround2(b[..k], Block(lo, lo + 3 + r, true), Block(lo + 3 + r, hi, false), b[k + 1..]);
    } else {
      TakesWhole(b, k, r);
      UsedAround(b[..k], Block(lo, hi, true), b[k + 1..]);
    }
  }

  lemma TakeCuts(b: seq<Block>, k: nat, r: nat)
    requires k < |b| && Fits(b[k], r) && b[k].hi - b[k].lo - 3 >= r + 6
    ensures var lo, hi := b[k].lo, b[k].hi;
            Take(b, k, r) == b[..k] + [Block(lo, lo + 3 + r, true), Block(lo + 3 + r, hi, false)] + b[k + 1..]
  {
    var cut := b[k].lo + 3 + r;
    var s := Split(b, k, cut);
    assert Take(b, k, r) == Mark(s, k, true) && s[k] == Block(b[k].lo, cut, false);
    assert s[k].(used := true) == Block(b[k].lo, cut, true);
  }

  lemma TakesWhole(b: seq<Block>, k: nat, r: nat)
    requires k < |b| && Fits(b[k], r) && b[k].hi - b[k].lo - 3 < r + 6
    ensures Take(b, k, r) == b[..k] + [Block(b[k].lo, b[k].hi, true)] + b[k + 1..]
  {
    var x := Block(b[k].lo, b[k].hi, true);
    assert Take(b, k, r) == Mark(b, k, true) == b[k := x];
    assert b[k := x] == b[..k] + [x] + b[k + 1..];
  }

  /** Every used block has the minimal data size. */
  predicate AtLeastMinimal(b: seq<Block>) {
    forall x :: x in b && x.used ==> x.Data() >= MIN
  }

  /**
   * Shrinking keeps the minimal size exactly when the new size is not below it: an allocation
   * raises a small request, the shrinking branch of a reallocation does not.
   */
  lemma ShrinkKeepsMinimum(b: seq<Block>, k: nat, n: nat)
    requires k < |b| && b[k].used && AtLeastMinimal(b)
    ensures AtLeastMinimal(Shrunk(b, k, n)) <==> n >= MIN
  {
  }

  datatype Op = Alloc(n: nat) | Free(k: nat) | Shrink(k: nat, n: nat)

  predicate Enabled(b: seq<Block>, op: Op) {
    match op
    case Alloc(_) => true
    case Free(k) => k < |b| && b[k].used
    case Shrink(k, n) => k < |b| && b[k].used && n + HDR + MIN < b[k].Data()
  }

  /** One call that reaches the heap; an allocation that finds no place changes nothing. */
  function Step(b: seq<Block>, op: Op): seq<Block>
    requires Enabled(b, op)
  {
    match op
    case Alloc(n) => var p := FirstFit(b, n); if p.At? then Take(b, p.k, n) else b
    case Free(k) => Freed(b, k)
    case Shrink(k, n) => Shrunk(b, k, n)
  }

  predicate Runnable(b: seq<Block>, ops: seq<Op>)
    decreases |ops|
  {
    ops == [] || (Enabled(b, ops[0]) && Runnable(Step(b, ops[0]), ops[1..]))
  }

  function Exec(b: seq<Block>, ops: seq<Op>): seq<Block>
    requires Runnable(b, ops)
    decreases |ops|
  {
    if ops == [] then b else Exec(Step(b, ops[0]), ops[1..])
  }

  lemma StepHeap(b: seq<Block>, end: nat, op: Op)
    requires Heap(b, end) && Enabled(b, op)
    ensures Heap(Step(b, op), end)
  {
    match op
    case Alloc(n) => var p := FirstFit(b, n); if p.At? { TakeHeap(b, end, p.k, n); }
    case Free(k) => FreedHeap(b, end, k);
    case Shrink(k, n) => ShrunkHeap(b, end, k, n);
  }

  /**
   * From a new heap, any sequence of allocations, frees and shrinks leaves the blocks tiling the
   * memory with no two free neighbours and with the spans adding up; and once nothing is used,
   * the heap is back to its initial single free block.
   */
  lemma {:induction false} RunHeap(b: seq<Block>, end: nat, ops: seq<Op>)
    requires Heap(b, end) && Runnable(b, ops)
    ensures var e := Exec(b, ops);
            && Heap(e, end)
            && Used(e) + Used(Flip(e)) == end
            && ((forall i :: 0 <= i < |e| ==> !e[i].used) ==>
                  e == [Block(0, end, false)] && Used(e) == 0 && LowestFree(e, end) == 0)
    decreases |ops|
  {
    if ops == [] {
      SpansAddUp(b, 0, end);
      if forall i :: 0 <= i < |b| ==> !b[i].used { AllFreedIsInitial(b, end); }
    } else {
      StepHeap(b, end, ops[0]);
      RunHeap(Step(b, ops[0]), end, ops[1..]);
    }
  }

  lemma InitialHeap(end: nat)
    requires end >= HDR
    ensures Heap([Block(0, end, false)], end)
  {
  }
}
