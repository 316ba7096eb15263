/**
 * The circular doubly linked list of rt-thread/include/rtservice.h, with the two operations of
 * rt-thread/src/ipc.c that turn it into a list of suspended threads.
 */
module RtList {
  import opened Kernel
  import opened WaitQueue

  /** A list head, or the list node inside a thread. */
  class Node {
    const thread: Tid
    var next: Node
    var prev: Node

    /** rt_list_init. */
    constructor (thread: Tid)
      ensures Ring([this]) && this.thread == thread
    {
      this.thread := thread;
      next, prev := this, this;
    }
  }

  /** The position after `i` in a ring of `n` nodes. */
  function Succ(i: nat, n: nat): nat {
    if i + 1 < n then i + 1 else 0
  }

  /** The nodes `r`, starting with the list head, are linked both ways in a circle. */
  ghost predicate Ring(r: seq<Node>)
    reads r
  {
    && |r| > 0
    && (forall i, j :: 0 <= i < j < |r| ==> r[i] != r[j])
    && forall i {:trigger Succ(i, |r|)} :: 0 <= i < |r| ==>
         r[i].next == r[Succ(i, |r|)] && r[Succ(i, |r|)].prev == r[i]
  }

  /** The threads on the list, first to last; the head is not one of them. */
  ghost function Threads(r: seq<Node>): (q: seq<Tid>)
    requires |r| > 0
    ensures |q| == |r| - 1 && forall i :: 0 <= i < |q| ==> q[i] == r[i + 1].thread
  {
    seq(|r| - 1, i requires 0 <= i < |r| - 1 => r[i + 1].thread)
  }

  ghost function Insert(r: seq<Node>, k: nat, n: Node): seq<Node>
    requires k <= |r|
  {
    r[..k] + [n] + r[k..]
  }

  /** rt_list_isempty. */
  method IsEmpty(l: Node, ghost r: seq<Node>) returns (empty: bool)
    requires Ring(r) && r[0] == l
    ensures empty <==> Threads(r) == []
  {
    assert Succ(0, |r|) == if |r| > 1 then 1 else 0;
    empty := l.next == l;
  }

  /** rt_list_insert_after: `n` comes right behind the node at position `k`. */
  method InsertAfter(l: Node, n: Node, ghost r: seq<Node>, ghost k: nat)
    requires Ring(r) && k < |r| && r[k] == l && n !in r
    modifies l, l.next, n
    ensures Ring(Insert(r, k + 1, n))
  {
    assert r[k].next == r[Succ(k, |r|)];
    l.next.prev := n;
    n.next := l.next;
    l.next := n;
    n.prev := l;
    RingAfterInsert(r, k, n);
  }

  /** The links of a ring, except perhaps the one from position `k` to the next. */
  ghost predicate RingBut(r: seq<Node>, k: nat)
    reads r
  {
    && k < |r|
    && (forall i, j :: 0 <= i < j < |r| ==> r[i] != r[j])
    && forall i {:trigger Succ(i, |r|)} :: 0 <= i < |r| && i != k ==>
         r[i].next == r[Succ(i, |r|)] && r[Succ(i, |r|)].prev == r[i]
  }

  /** A node that fills the gap behind position `k` closes the ring. */
  lemma RingAfterInsert(r: seq<Node>, k: nat, n: Node)
    requires RingBut(r, k) && n !in r
    requires var b := r[Succ(k, |r|)];
             r[k].next == n && n.next == b && n.prev == r[k] && b.prev == n
    ensures Ring(Insert(r, k + 1, n))
  {
    var s := Insert(r, k + 1, n);
    forall i | 0 <= i < |s|
      ensures s[i].next == s[Succ(i, |s|)] && s[Succ(i, |s|)].prev == s[i]
    {
      if i < k {
        assert r[i].next == r[Succ(i, |r|)];
      } else if i > k + 1 {
        assert r[i - 1].next == r[Succ(i - 1, |r|)];
      }
    }
  }

  /** rt_list_insert_before the head: `n` becomes the last node. */
  method InsertLast(l: Node, n: Node, ghost r: seq<Node>)
    requires Ring(r) && r[0] == l && n !in r
    modifies l, l.prev, n
    ensures Ring(r + [n])
  {
    assert Succ(|r| - 1, |r|) == 0;
    InsertBefore(l, n, r, 0);
    assert Insert(r, |r|, n) == r + [n];
  }

  /** rt_list_insert_before: `n` comes right in front of the node at position `k`. */
  method InsertBefore(l: Node, n: Node, ghost r: seq<Node>, ghost k: nat)
    requires Ring(r) && k < |r| && r[k] == l && n !in r
    modifies l, l.prev, n
    ensures Ring(Insert(r, if k == 0 then |r| else k, n))
  {
    ghost var p := if k == 0 then |r| - 1 else k - 1;
    assert Succ(p, |r|) == k && r[p].next == r[Succ(p, |r|)];
    l.prev.next := n;
    n.prev := l.prev;
    l.prev := n;
    n.next := l;
    RingAfterInsert(r, p, n);
  }

  /** rt_list_remove: the node at position `k` leaves the circle and is alone in its own. */
  method Unlink(n: Node, ghost r: seq<Node>, ghost k: nat)
    requires Ring(r) && 0 < k < |r| && r[k] == n
    modifies n, n.next, n.prev
    ensures Ring(r[..k] + r[k + 1..]) && Ring([n])
  {
    assert Succ(k - 1, |r|) == k && r[k].next == r[Succ(k, |r|)];
    n.next.prev := n.prev;
    n.prev.next := n.next;
    n.next, n.prev := n, n;
    RingAfterRemove(r, k);
  }

  /** The links of a ring, except those of the node at position `k` and into it. */
  ghost predicate RingWithout(r: seq<Node>, k: nat)
    reads r
  {
    && 0 < k < |r|
    && (forall i, j :: 0 <= i < j < |r| ==> r[i] != r[j])
    && r[k - 1].next == r[Succ(k, |r|)] && r[Succ(k, |r|)].prev == r[k - 1]
    && forall i {:trigger Succ(i, |r|)} :: 0 <= i < |r| && i != k && i != k - 1 ==>
         r[i].next == r[Succ(i, |r|)] && r[Succ(i, |r|)].prev == r[i]
  }

  lemma RingAfterRemove(r: seq<Node>, k: nat)
    requires RingWithout(r, k)
    ensures Ring(r[..k] + r[k + 1..])
  {
    var s := r[..k] + r[k + 1..];
    forall i, j | 0 <= i < j < |s| ensures s[i] != s[j] {
      var i', j' := if i < k then i else i + 1, if j < k then j else j + 1;
      assert s[i] == r[i'] && s[j] == r[j'];
    }
    forall i | 0 <= i < |s|
      ensures s[i].next == s[Succ(i, |s|)] && s[Succ(i, |s|)].prev == s[i]
    {
      var i' := if i < k then i else i + 1;
      assert s[i] == r[i'];
      assert s[Succ(i, |s|)] == r[if i == k - 1 then Succ(k, |r|) else Succ(i', |r|)];
    }
  }

  /** The walk of _ipc_list_suspend: the first strictly less urgent node, or the head if there is none. */
  method FindPlace(head: Node, t: Tid, prio: seq<nat>, ghost r: seq<Node>) returns (m: Node)
    requires Ring(r) && r[0] == head && t < |prio| && Known(Threads(r), |prio|)
    ensures m == r[Succ(InsertAt(Threads(r), t, prio), |r|)]
    ensures m == head <==> InsertAt(Threads(r), t, prio) == |Threads(r)|
  {
    ghost var q := Threads(r);
    m := head.next;
    ghost var seen, k := 0, Succ(0, |r|);
    while m != head
      invariant 0 <= seen < |r| && k == Succ(seen, |r|) && m == r[k]
      invariant forall i :: 0 <= i < seen ==> prio[q[i]] <= prio[t]
      decreases |r| - seen
    {
      assert q[k - 1] == m.thread;
      if prio[t] < prio[m.thread] {
        break;
      }
      seen, k := k, Succ(k, |r|);
      m := m.next;
    }
    InsertAtIs(q, t, prio, seen);
  }

  /** _ipc_list_suspend: the thread joins the list where Enqueue says. */
  method Suspend(head: Node, n: Node, flag: Flag, prio: seq<nat>, ghost r: seq<Node>)
    returns (ghost r': seq<Node>)
    requires Ring(r) && r[0] == head && n !in r
    requires n.thread < |prio| && Known(Threads(r), |prio|)
    modifies r, n
    ensures Ring(r') && r'[0] == head && forall x :: x in r' <==> x in r || x == n
    ensures Threads(r') == Enqueue(Threads(r), n.thread, flag, prio)
  {
    ghost var q := Threads(r);
    ghost var stop := |q|;
    if flag == Fifo {
      assert head.prev in r by { assert Succ(|r| - 1, |r|) == 0; }
      InsertLast(head, n, r);
    } else {
      var m := FindPlace(head, n.thread, prio, r);
      stop := InsertAt(q, n.thread, prio);
      if m != head {
        assert m.prev in r by { assert Succ(stop, |r|) == stop + 1; }
        InsertBefore(m, n, r, stop + 1);
      } else {
        assert head.prev in r by { assert Succ(|r| - 1, |r|) == 0; }
        InsertLast(head, n, r);
      }
    }
    r' := Insert(r, stop + 1, n);
    assert stop == |q| ==> r' == r + [n];
    ThreadsOfInsert(r, stop, n);
  }

  lemma ThreadsOfInsert(r: seq<Node>, k: nat, n: Node)
    requires k < |r|
    ensures var r', q := Insert(r, k + 1, n), Threads(r);
            && Threads(r') == q[..k] + [n.thread] + q[k..]
            && forall x :: x in r' <==> x in r || x == n
  {
    var r', q := Insert(r, k + 1, n), Threads(r);
    var want := q[..k] + [n.thread] + q[k..];
    forall i | 0 <= i < |want| ensures Threads(r')[i] == want[i] {}
    assert r == r[..k + 1] + r[k + 1..] && r'[k + 1] == n;
  }

  /** The place where the priority walk stops is determined by what it has seen. */
  lemma {:induction false} InsertAtIs(q: seq<Tid>, t: Tid, prio: seq<nat>, k: nat)
    requires t < |prio| && Known(q, |prio|) && k <= |q|
    requires forall i :: 0 <= i < k ==> prio[q[i]] <= prio[t]
    requires k < |q| ==> prio[t] < prio[q[k]]
    ensures InsertAt(q, t, prio) == k
  {
  }

  /** _ipc_list_resume: the first thread leaves the list. */
  method ResumeFirst(head: Node, ghost r: seq<Node>) returns (thread: Tid, ghost r': seq<Node>)
    requires Ring(r) && r[0] == head && Threads(r) != []
    modifies r
    ensures Ring(r') && r'[0] == head && r' == [head] + r[2..]
    ensures [thread] + Threads(r') == Threads(r)
  {
    assert Succ(0, |r|) == 1;
    var n := head.next;
    thread := n.thread;
    assert n.next == r[Succ(1, |r|)] && n.prev == r[0];
    Unlink(n, r, 1);
    r' := r[..1] + r[2..];
  }

  /** _ipc_list_resume_all: every thread leaves the list, in order. */
  method ResumeAll(head: Node, ghost r: seq<Node>) returns (resumed: seq<Tid>)
    requires Ring(r) && r[0] == head
    modifies r
    ensures Ring([head]) && resumed == Threads(r)
  {
    ghost var rest := r;
    resumed := [];
    var empty := IsEmpty(head, rest);
    while !empty
      invariant Ring(rest) && rest[0] == head && forall i :: 0 <= i < |rest| ==> rest[i] in r
      invariant resumed + Threads(rest) == Threads(r)
      invariant empty <==> Threads(rest) == []
      decreases |rest|
    {
      var thread;
      thread, rest := ResumeFirst(head, rest);
      resumed := resumed + [thread];
      empty := IsEmpty(head, rest);
    }
    assert rest == [head];
  }

  /** Unlinking the node of a thread removes that thread from the list. */
  lemma ThreadsOfRemove(r: seq<Node>, k: nat)
    requires 0 < k < |r| && NoDup(Threads(r))
    ensures Threads(r[..k] + r[k + 1..]) == Remove(Threads(r), r[k].thread)
  {
    var q, t := Threads(r), r[k].thread;
    assert q[k - 1] == t;
    var j := RemoveAt(q, t);
    assert j == k - 1;
    var left := r[..k] + r[k + 1..];
    assert forall i :: 0 <= i < |left| ==> left[i] == if i < k then r[i] else r[i + 1];
    assert Threads(left) == q[..k - 1] + q[k..];
  }
}
