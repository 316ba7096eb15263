/** Where the 32-bit arithmetic of rt-thread/src/mem.c is safe and where it is not. */
module HeapLimits {
  import opened HeapModel
  import opened HeapMemory

  datatype Area = TooSmall | Area(heapStart: nat, words: nat)

  /** rt_smem_init: the part of a memory region that becomes the heap, behind its control object. */
  function InitArea(begin: nat, bytes: nat, objectBytes: nat): Area {
    var start := (begin + 3) / 4 * 4 + objectBytes;
    var heapStart := (start + 3) / 4 * 4;
    var heapLimit := (begin + bytes) / 4 * 4;
    if heapLimit > 8 * HDR && heapLimit - 8 * HDR >= start
    then Area(heapStart, (heapLimit - heapStart - 8 * HDR) / 4)
    else TooSmall
  }

  /**
   * The area found lies inside the region and behind the control object, with both headers, and
   * a region is refused exactly when not even an empty heap fits.
   */
  lemma InitAreaFits(begin: nat, bytes: nat, objectBytes: nat)
    requires begin + bytes + 3 < 0x1_0000_0000 && objectBytes > 0
    ensures var a := InitArea(begin, bytes, objectBytes);
            if a.Area? then
              && a.heapStart % 4 == 0 && a.heapStart >= begin + objectBytes
              && a.heapStart + 4 * (a.words + 2 * HDR) <= begin + bytes
              && begin + bytes < a.heapStart + 4 * (a.words + 2 * HDR) + 4
            else
              forall heapStart: nat :: heapStart % 4 == 0 && heapStart >= (begin + 3) / 4 * 4 + objectBytes ==>
                heapStart + 4 * (2 * HDR) > begin + bytes
  {
  }

  /**
   * A granted request has at least as many bytes as it asked for exactly when rounding it up to
   * a multiple of four does not wrap around in 32 bits.
   */
  lemma GrantedRequestFits(b: seq<Block>, end: nat, k: nat, bytes: nat)
    requires Heap(b, end) && end + HDR <= 0x4000_0000 && 0 < bytes < 0x1_0000_0000
    requires k < |b| && Fits(b[k], Wanted(bytes))
    ensures 4 * Allocated(b[k], Wanted(bytes)).Data() >= bytes <==> bytes <= 0xFFFF_FFFC
  {
  }

  /** The offset the search looks at after `i` turns. */
  function Visit(m: seq<int>, lfree: nat, i: nat): nat {
    if i == 0 then lfree
    else
      var ptr := Visit(m, lfree, i - 1);
      if ptr + 1 < |m| && m[ptr + 1] >= 0 then m[ptr + 1] else ptr
  }

  /** The search loop of rt_smem_alloc goes on: its guard, in 32 bits, holds and nothing is found. */
  predicate GoesOn(m: seq<int>, size: nat, n: nat, ptr: nat) {
    && ptr <= (size - n) % 0x4000_0000
    && ptr + 1 < |m|
    && !(m[ptr] % 2 == 0 && m[ptr + 1] - (ptr + HDR) >= n)
  }

  /** The search walks along the blocks and then stays on the end stub. */
  lemma {:induction false} VisitBlock(m: seq<int>, b: seq<Block>, end: nat, pool: int, k: nat, i: nat)
    requires Represents(m, b, end, pool) && k <= |b|
    ensures var lfree := if k < |b| then b[k].lo else end;
            Visit(m, lfree, i) == if k + i < |b| then b[k + i].lo else end
  {
    if i > 0 {
      VisitBlock(m, b, end, pool, k, i - 1);
      var j := k + i - 1;
      if j < |b| {
        assert HeaderAt(m, b, j, pool) && b[j].hi == NextLo(b, j, end);
      }
    }
  }

  /** What the search sees at a block or at the end stub. */
  lemma Seen(m: seq<int>, b: seq<Block>, end: nat, pool: int, j: nat)
    requires Represents(m, b, end, pool)
    ensures var ptr := if j < |b| then b[j].lo else end;
            && ptr <= end && ptr + 1 < |m| && m[ptr + 1] - (ptr + HDR) <= end - HDR
            && (j >= |b| ==> m[ptr] % 2 == 1)
  {
    if j < |b| {
      assert HeaderAt(m, b, j, pool);
      Bounded(b, end, j);
    }
  }

  /**
   * A request that passes the size check ends its search after finitely many turns exactly when
   * the heap has room for one minimal block: in a smaller heap the raised request exceeds the
   * heap, the loop bound wraps around, and the search stays on the end stub for ever.
   */
  lemma SearchEnds(m: seq<int>, b: seq<Block>, size: nat, pool: int, lfree: nat, asked: nat)
    requires Represents(m, b, size + HDR, pool) && size + 2 * HDR <= 0x4000_0000
    requires lfree == LowestFree(b, size + HDR)
    requires asked <= size
    ensures (exists i: nat :: !GoesOn(m, size, Raised(asked), Visit(m, lfree, i))) <==> size >= MIN
  {
    var n, end := Raised(asked), size + HDR;
    var k := LowestFreeAt(b, end);
    if size >= MIN {
      VisitBlock(m, b, end, pool, k, |b|);
      assert !GoesOn(m, size, n, Visit(m, lfree, |b|));
    } else {
      forall i: nat ensures GoesOn(m, size, n, Visit(m, lfree, i)) {
        VisitBlock(m, b, end, pool, k, i);
        Seen(m, b, end, pool, k + i);
      }
    }
  }
}
