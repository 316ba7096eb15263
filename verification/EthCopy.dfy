/**
 * The two copy loops of libraries/HAL_Drivers/drv_eth.c: a chain of packet buffers of any sizes
 * on one side, a ring of descriptors with buffers of one fixed size on the other.
 */
module EthStream {
  type Byte = bv8

  /** The payloads of a chain, end to end. */
  function Flat(chain: seq<seq<Byte>>): seq<Byte> {
    if chain == [] then [] else chain[0] + Flat(chain[1..])
  }

  lemma {:induction false} FlatAppend(a: seq<seq<Byte>>, x: seq<Byte>)
    ensures Flat(a + [x]) == Flat(a) + x
  {
    if a == [] {
      assert a + [x] == [x] && [x][1..] == [];
      assert Flat([x]) == x + Flat([]);
    } else {
      assert (a + [x])[1..] == a[1..] + [x];
      FlatAppend(a[1..], x);
      assert Flat(a + [x]) == a[0] + (Flat(a[1..]) + x);
    }
  }

  lemma FlatSplit(a: seq<seq<Byte>>, i: nat)
    requires i < |a|
    ensures Flat(a[..i + 1]) == Flat(a[..i]) + a[i]
  {
    assert a[..i + 1] == a[..i] + [a[i]];
    FlatAppend(a[..i], a[i]);
  }

  lemma {:induction false} FlatPrefix(a: seq<seq<Byte>>, i: nat)
    requires i <= |a|
    ensures |Flat(a[..i])| <= |Flat(a)|
    decreases |a| - i
  {
    if i < |a| {
      FlatSplit(a, i);
      FlatPrefix(a, i + 1);
    } else {
      assert a[..i] == a;
    }
  }

  /** The next payload follows the ones before it, and all of them are part of the whole. */
  lemma FlatNext(a: seq<seq<Byte>>, i: nat)
    requires i < |a|
    ensures Flat(a[..i + 1]) == Flat(a[..i]) + a[i]
    ensures |Flat(a[..i])| <= |Flat(a[..i + 1])| <= |Flat(a)|
  {
    FlatSplit(a, i);
    FlatPrefix(a, i + 1);
  }

  /** The descriptor reached from `start` after `k` moves around a ring of `n`. */
  function At(start: nat, k: nat, n: nat): (d: nat)
    requires start < n
    ensures d < n
  {
    if k == 0 then start else Next(At(start, k - 1, n), n)
  }

  function Next(d: nat, n: nat): nat
    requires d < n
  {
    if d + 1 < n then d + 1 else 0
  }

  lemma {:induction false} AtIs(start: nat, k: nat, n: nat)
    requires start < n && k < n
    ensures At(start, k, n) == if start + k < n then start + k else start + k - n
  {
    if k > 0 { AtIs(start, k - 1, n); }
  }

  /** The first moves around the ring reach different descriptors. */
  lemma AtDiffers(start: nat, j: nat, k: nat, n: nat)
    requires start < n && j < k < n
    ensures At(start, j, n) != At(start, k, n)
  {
    AtIs(start, j, n);
    AtIs(start, k, n);
  }

  /** The contents of `k` whole buffers from `start` on. */
  function Whole(rows: seq<seq<Byte>>, start: nat, k: nat): seq<Byte>
    requires start < |rows|
  {
    if k == 0 then [] else Whole(rows, start, k - 1) + rows[At(start, k - 1, |rows|)]
  }

  /** The contents of `k` whole buffers and the first `off` bytes of the next one. */
  function Gather(rows: seq<seq<Byte>>, start: nat, k: nat, off: nat): seq<Byte>
    requires start < |rows| && off <= |rows[At(start, k, |rows|)]|
  {
    Whole(rows, start, k) + rows[At(start, k, |rows|)][..off]
  }

  predicate Sized(rows: seq<seq<Byte>>, size: nat) {
    forall d :: 0 <= d < |rows| ==> |rows[d]| == size
  }

  lemma {:induction false} WholeLength(rows: seq<seq<Byte>>, start: nat, k: nat, size: nat)
    requires start < |rows| && Sized(rows, size)
    ensures |Whole(rows, start, k)| == k * size
  {
    if k > 0 {
      WholeLength(rows, start, k - 1, size);
      assert k * size == (k - 1) * size + size;
    }
  }

  /** Changing the buffer that is `k` moves away does not touch the ones before it. */
  lemma {:induction false} WholeElsewhere(rows: seq<seq<Byte>>, start: nat, j: nat, k: nat, x: seq<Byte>)
    requires start < |rows| && j <= k < |rows|
    ensures Whole(rows[At(start, k, |rows|) := x], start, j) == Whole(rows, start, j)
  {
    if j > 0 {
      AtDiffers(start, j - 1, k, |rows|);
      WholeElsewhere(rows, start, j - 1, k, x);
    }
  }

  /** `row` with `bytes` written at `off`. */
  function Overlay(row: seq<Byte>, off: nat, bytes: seq<Byte>): (r: seq<Byte>)
    requires off + |bytes| <= |row|
    ensures |r| == |row|
  {
    row[..off] + bytes + row[off + |bytes|..]
  }

  /** Writing at the end of what is gathered appends to it, as long as the ring has not wrapped. */
  lemma {:induction false} GatherWrite(rows: seq<seq<Byte>>, size: nat, start: nat, k: nat, off: nat, bytes: seq<Byte>)
    requires start < |rows| && Sized(rows, size) && k < |rows| && off + |bytes| <= size
    ensures var d := At(start, k, |rows|);
            var rows' := rows[d := Overlay(rows[d], off, bytes)];
            && Sized(rows', size)
            && Gather(rows', start, k, off + |bytes|) == Gather(rows, start, k, off) + bytes
  {
    var d := At(start, k, |rows|);
    WholeElsewhere(rows, start, k, k, Overlay(rows[d], off, bytes));
    assert Overlay(rows[d], off, bytes)[..off + |bytes|] == rows[d][..off] + bytes;
  }

  /** Reading on in the current buffer. */
  lemma {:induction false} GatherRead(rows: seq<seq<Byte>>, start: nat, k: nat, off: nat, off': nat)
    requires start < |rows| && off <= off' <= |rows[At(start, k, |rows|)]|
    ensures Gather(rows, start, k, off')
         == Gather(rows, start, k, off) + rows[At(start, k, |rows|)][off..off']
  {
  }

  /** A full buffer and an empty start of the next one are the same position. */
  lemma GatherMove(rows: seq<seq<Byte>>, size: nat, start: nat, k: nat)
    requires start < |rows| && Sized(rows, size)
    ensures Gather(rows, start, k + 1, 0) == Gather(rows, start, k, size)
  {
  }
}

module EthCopy {
  import opened EthStream

  /** The bytes in `k` buffers. */
  function Span(k: nat, size: nat): nat {
    if k == 0 then 0 else Span(k - 1, size) + size
  }

  lemma {:induction false} SpanIs(k: nat, size: nat)
    ensures Span(k, size) == k * size
  {
    if k > 0 {
      SpanIs(k - 1, size);
      assert k * size == (k - 1) * size + size;
    }
  }

  lemma {:induction false} SpanMonotone(j: nat, k: nat, size: nat)
    requires j <= k
    ensures Span(j, size) <= Span(k, size)
    decreases k - j
  {
    if j < k { SpanMonotone(j + 1, k, size); }
  }

  datatype TxStatus = ERR_OK | ERR_USE

  class Descriptors {
    const count: nat
    const size: nat
    const data: array2<Byte>
    const own: array<bool>

    ghost predicate Valid()
    {
      count > 0 && size > 0 && data.Length0 == count && data.Length1 == size && own.Length == count
    }

    /** The buffers of the descriptors. */
    ghost function Rows(): (r: seq<seq<Byte>>)
      requires Valid()
      reads data
      ensures |r| == count && Sized(r, size)
    {
      seq(count, d requires 0 <= d < count reads data =>
        seq(size, i requires 0 <= i < size reads data => data[d, i]))
    }

    /** Copying bytes into the buffer of one descriptor. */
    method CopyIn(d: nat, off: nat, bytes: seq<Byte>)
      requires Valid() && d < count && off + |bytes| <= size
      modifies data
      ensures Rows() == old(Rows())[d := Overlay(old(Rows())[d], off, bytes)]
    {
      for i := 0 to |bytes|
        invariant forall e, j :: 0 <= e < count && 0 <= j < size ==>
          data[e, j] == if e == d && off <= j < off + i then bytes[j - off] else old(data[e, j])
      {
        data[d, off + i] := bytes[i];
      }
      ghost var want := old(Rows())[d := Overlay(old(Rows())[d], off, bytes)];
      forall e | 0 <= e < count ensures Rows()[e] == want[e] {
        assert forall j :: 0 <= j < size ==> Rows()[e][j] == want[e][j];
      }
    }

    /** The first bytes of a buffer. */
    method CopyOut(d: nat, off: nat, n: nat) returns (bytes: seq<Byte>)
      requires Valid() && d < count && off + n <= size
      ensures bytes == Rows()[d][off..off + n]
    {
      bytes := [];
      for i := 0 to n
        invariant |bytes| == i && forall j :: 0 <= j < i ==> bytes[j] == data[d, off + j]
      {
        bytes := bytes + [data[d, off + i]];
      }
    }

    /** Descriptor number `k` from `start` on is needed for a frame of `total` bytes. */
    ghost predicate Needed(k: nat, total: nat) {
      k == 0 || Span(k, size) < total
    }

    /** No buffer that belongs to the DMA was changed. */
    twostate predicate OwnedKept()
      requires Valid()
      reads data, own
    {
      forall d :: 0 <= d < count && own[d] ==> Rows()[d] == old(Rows())[d]
    }

    /** The body of the outer loop of rt_stm32_eth_tx: one packet buffer into the ring. */
    method SendOne(payload: seq<Byte>, cur0: nat, off0: nat,
                   ghost start: nat, ghost k0: nat, ghost copied: seq<Byte>)
      returns (ok: bool, cur: nat, off: nat, ghost k: nat)
      requires Valid() && start < count && cur0 == At(start, k0, count) && off0 <= size && !own[cur0]
      requires k0 < count ==> Gather(Rows(), start, k0, off0) == copied
      modifies data
      ensures OwnedKept() && k0 <= k
      ensures forall j :: k0 <= j < k ==> !own[At(start, j, count)]
      ensures !ok ==> own[At(start, k, count)] && Span(k, size) < Span(k0, size) + off0 + |payload|
      ensures ok ==>
        && cur == At(start, k, count) && off <= size && !own[cur]
        && Span(k, size) + off == Span(k0, size) + off0 + |payload| && (k == k0 || off > 0)
        && (k < count ==> Gather(Rows(), start, k, off) == copied + payload)
    {
      cur, off, k := cur0, off0, k0;
      var left, payloadOffset := |payload|, 0;
      while left + off > size
        invariant 0 <= left && 0 <= payloadOffset && payloadOffset + left == |payload| && off <= size && k0 <= k
        invariant cur == At(start, k, count) && OwnedKept()
        invariant forall j :: k0 <= j <= k ==> !own[At(start, j, count)]
        invariant Span(k, size) + off == Span(k0, size) + off0 + payloadOffset
        invariant k == k0 || left > 0
        invariant k < count ==> Gather(Rows(), start, k, off) == copied + payload[..payloadOffset]
        decreases left + off
      {
        var room := size - off;
        cur := FillRest(payload, payloadOffset, room, cur, off, start, k, copied);
        k := k + 1;
        if own[cur] { return false, cur, off, k; }
        left := left - room;
        payloadOffset := payloadOffset + room;
        off := 0;
      }
      FillPart(payload, payloadOffset, left, cur, off, start, k, copied);
      off := off + left;
      ok := true;
      assert payload[..payloadOffset + left] == payload;
    }

    /** Copying `n` more bytes of a payload into the current buffer. */
    method FillPart(payload: seq<Byte>, from: nat, n: nat, cur: nat, off: nat,
                    ghost start: nat, ghost k: nat, ghost copied: seq<Byte>)
      requires Valid() && start < count && cur == At(start, k, count) && !own[cur]
      requires off + n <= size && from + n <= |payload|
      requires k < count ==> Gather(Rows(), start, k, off) == copied + payload[..from]
      modifies data
      ensures OwnedKept()
      ensures k < count ==> Gather(Rows(), start, k, off + n) == copied + payload[..from + n]
    {
      ghost var rows := Rows();
      CopyIn(cur, off, payload[from..from + n]);
      if k < count {
        GatherWrite(rows, size, start, k, off, payload[from..from + n]);
        assert payload[..from + n] == payload[..from] + payload[from..from + n];
      }
    }

    /** Filling the current buffer to its end, which is where the next buffer starts. */
    method FillRest(payload: seq<Byte>, from: nat, n: nat, cur: nat, off: nat,
                    ghost start: nat, ghost k: nat, ghost copied: seq<Byte>) returns (next: nat)
      requires Valid() && start < count && cur == At(start, k, count) && !own[cur]
      requires off + n == size && from + n <= |payload|
      requires k < count ==> Gather(Rows(), start, k, off) == copied + payload[..from]
      modifies data
      ensures OwnedKept() && next == At(start, k + 1, count)
      ensures k < count ==> Gather(Rows(), start, k + 1, 0) == copied + payload[..from + n]
    {
      FillPart(payload, from, n, cur, off, start, k, copied);
      GatherMove(Rows(), size, start, k);
      next := Next(cur, count);
    }

    /**
     * rt_stm32_eth_tx up to the hand-over of the frame. It succeeds exactly when no descriptor
     * it needs belongs to the DMA; then the frame length is the total length, and a frame that
     * fits the ring lies in the buffers in order. Buffers of the DMA are never written.
     */
    method Transmit(chain: seq<seq<Byte>>, start: nat)
      returns (ret: TxStatus, frameLength: nat, ghost k: nat, ghost off: nat)
      requires Valid() && start < count
      modifies data
      ensures OwnedKept()
      ensures ret == ERR_OK <==>
        chain == [] || forall j: nat :: Needed(j, |Flat(chain)|) ==> !own[At(start, j, count)]
      ensures ret == ERR_OK ==> frameLength == |Flat(chain)|
      ensures ret == ERR_OK ==>
        && (k < count <==> |Flat(chain)| <= count * size)
        && off <= size && (k < count ==> Gather(Rows(), start, k, off) == Flat(chain))
    {
      ret, frameLength, k, off := SendChain(chain, start);
      if ret == ERR_OK {
        forall j: nat | chain != [] && Needed(j, |Flat(chain)|) ensures !own[At(start, j, count)] {
          if j > k { SpanMonotone(k + 1, j, size); }
        }
        SpanIs(count, size);
        if k >= count { SpanMonotone(count, k, size); } else { SpanMonotone(k + 1, count, size); }
      }
    }

    /** The bytes sent so far fill `k` buffers and `off` bytes of the next, and lie there if they fit. */
    ghost predicate Placed(sent: seq<Byte>, start: nat, k: nat, off: nat)
      requires Valid() && start < count
      reads data
    {
      && off <= size && |sent| == Span(k, size) + off && (k == 0 || off > 0)
      && (k < count ==> Gather(Rows(), start, k, off) == sent)
    }

    /** No descriptor up to number `k` belongs to the DMA. */
    ghost predicate Ours(start: nat, k: nat)
      requires Valid() && start < count
      reads own
    {
      forall j :: 0 <= j <= k ==> !own[At(start, j, count)]
    }

    /** One packet buffer behind the bytes sent before. */
    method SendNext(payload: seq<Byte>, cur0: nat, off0: nat, ghost start: nat, ghost k0: nat, ghost sent: seq<Byte>)
      returns (ok: bool, cur: nat, off: nat, ghost k: nat)
      requires Valid() && start < count && cur0 == At(start, k0, count) && !own[cur0]
      requires Placed(sent, start, k0, off0) && (k0 > 0 ==> Ours(start, k0))
      modifies data
      ensures OwnedKept()
      ensures ok ==> cur == At(start, k, count) && Placed(sent + payload, start, k, off) && Ours(start, k)
      ensures !ok ==> own[At(start, k, count)] && Span(k, size) < |sent + payload|
    {
      ok, cur, off, k := SendOne(payload, cur0, off0, start, k0, sent);
    }

    /** The outer loop of rt_stm32_eth_tx; the last descriptor looked at is number `k`. */
    method SendChain(chain: seq<seq<Byte>>, start: nat)
      returns (ret: TxStatus, frameLength: nat, ghost k: nat, ghost off: nat)
      requires Valid() && start < count
      modifies data
      ensures OwnedKept()
      ensures ret == ERR_USE ==> chain != [] && Needed(k, |Flat(chain)|) && own[At(start, k, count)]
      ensures ret == ERR_OK ==>
        frameLength == |Flat(chain)| && Placed(Flat(chain), start, k, off) && (chain != [] ==> Ours(start, k))
    {
      var cur, bufferOffset := start, 0;
      frameLength, k, off := 0, 0, 0;
      ghost var sent: seq<Byte> := [];
      for i := 0 to |chain|
        invariant sent == Flat(chain[..i]) && frameLength == |sent|
        invariant cur == At(start, k, count) && bufferOffset == off && OwnedKept()
        invariant Placed(sent, start, k, off)
        invariant (i > 0 ==> Ours(start, k)) && (i == 0 ==> k == 0)
      {
        FlatNext(chain, i);
        if own[cur] {
          return ERR_USE, frameLength, k, off;
        }
        var ok, cur', off';
        ghost var k';
        ok, cur', off', k' := SendNext(chain[i], cur, bufferOffset, start, k, sent);
        if !ok { return ERR_USE, frameLength, k', off; }
        frameLength, sent := frameLength + |chain[i]|, sent + chain[i];
        cur, bufferOffset, k, off := cur', off', k', off';
      }
      assert chain[..|chain|] == chain;
      ret := ERR_OK;
    }

    /** Copying `n` more bytes out of the current buffer behind the bytes that are there. */
    method TakePart(payload: seq<Byte>, n: nat, cur: nat, off: nat,
                    ghost start: nat, ghost k: nat, ghost seen: seq<Byte>) returns (more: seq<Byte>)
      requires Valid() && start < count && cur == At(start, k, count) && off + n <= size
      requires Gather(Rows(), start, k, off) == seen + payload
      ensures |more| == |payload| + n
      ensures Gather(Rows(), start, k, off + n) == seen + more
    {
      var bytes := CopyOut(cur, off, n);
      GatherRead(Rows(), start, k, off, off + n);
      assert seen + payload + bytes == seen + (payload + bytes);
      more := payload + bytes;
    }

    /** Copying the rest of the current buffer. */
    method TakeRest(payload: seq<Byte>, n: nat, cur: nat, off: nat,
                    ghost start: nat, ghost k: nat, ghost seen: seq<Byte>) returns (more: seq<Byte>)
      requires Valid() && start < count && cur == At(start, k, count) && off + n == size
      requires Gather(Rows(), start, k, off) == seen + payload
      ensures |more| == |payload| + n
      ensures Gather(Rows(), start, k + 1, 0) == seen + more
    {
      more := TakePart(payload, n, cur, off, start, k, seen);
      GatherMove(Rows(), size, start, k);
    }

    /** The body of the outer loop of rt_stm32_eth_rx: `len` bytes out of the ring. */
    method ReceiveOne(len: nat, cur0: nat, off0: nat, ghost start: nat, ghost k0: nat)
      returns (payload: seq<Byte>, cur: nat, off: nat, ghost k: nat)
      requires Valid() && start < count && cur0 == At(start, k0, count) && off0 <= size
      ensures |payload| == len && cur == At(start, k, count) && off <= size && k0 <= k
      ensures Gather(Rows(), start, k, off) == Gather(Rows(), start, k0, off0) + payload
    {
      cur, off, k, payload := cur0, off0, k0, [];
      ghost var seen := Gather(Rows(), start, k, off);
      var left := len;
      while left + off > size
        invariant 0 <= left && |payload| + left == len && off <= size && k0 <= k
        invariant cur == At(start, k, count)
        invariant Gather(Rows(), start, k, off) == seen + payload
        decreases left + off
      {
        payload := TakeRest(payload, size - off, cur, off, start, k, seen);
        cur := Next(cur, count);
        k := k + 1;
        left := left - (size - off);
        off := 0;
      }
      payload := TakePart(payload, left, cur, off, start, k, seen);
      off := off + left;
    }

    /**
     * The copy loop of rt_stm32_eth_rx: a chain of packet buffers of the given lengths is filled
     * with exactly the bytes that lie in the ring, in order; nothing is lost at any boundary.
     */
    method Receive(lengths: seq<nat>, start: nat)
      returns (chain: seq<seq<Byte>>, ghost k: nat, ghost off: nat)
      requires Valid() && start < count
      ensures |chain| == |lengths| && forall i :: 0 <= i < |chain| ==> |chain[i]| == lengths[i]
      ensures off <= size && Flat(chain) == Gather(Rows(), start, k, off)
    {
      var cur, bufferOffset := start, 0;
      chain, k, off := [], 0, 0;
      for i := 0 to |lengths|
        invariant |chain| == i && forall j :: 0 <= j < i ==> |chain[j]| == lengths[j]
        invariant cur == At(start, k, count) && bufferOffset == off <= size
        invariant Flat(chain) == Gather(Rows(), start, k, off)
      {
        var payload, cur', off';
        ghost var k';
        payload, cur', off', k' := ReceiveOne(lengths[i], cur, bufferOffset, start, k);
        FlatAppend(chain, payload);
        chain := chain + [payload];
        cur, bufferOffset, k, off := cur', off', k', off';
      }
    }

    /** Giving `segments` descriptors back to the DMA after a receive. */
    method Release(start: nat, segments: nat)
      requires Valid() && start < count
      modifies own
      ensures forall d :: 0 <= d < count ==>
        (own[d] <==> old(own[d]) || exists j: nat :: j < segments && At(start, j, count) == d)
    {
      var cur := start;
      for i := 0 to segments
        invariant cur == At(start, i, count)
        invariant forall d :: 0 <= d < count ==>
          (own[d] <==> old(own[d]) || exists j: nat :: j < i && At(start, j, count) == d)
      {
        own[cur] := true;
        cur := Next(cur, count);
      }
    }
  }
}
