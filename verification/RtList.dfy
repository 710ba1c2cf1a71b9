/** rtservice.h's circular doubly linked list, and the list of suspended threads that
    ipc.c keeps on it. */
module RtList {
  import opened WaitOrder

  /** A list node; `id` and `prio` are the number and current_priority of the thread that
      embeds it. */
  class ListNode {
    const id: nat
    var next: ListNode
    var prev: ListNode
    var prio: nat

    /** rt_list_init */
    constructor (prio: nat, id: nat)
      ensures Ring(this, []) && this.prio == prio && this.id == id
    {
      this.prio := prio;
      this.id := id;
      next := this;
      prev := this;
    }
  }

  /** The node at position i of the ring; positions -1 and |s| are the head. */
  function At(head: ListNode, s: seq<ListNode>, i: int): ListNode
    requires -1 <= i <= |s|
  {
    if 0 <= i < |s| then s[i] else head
  }

  ghost predicate Distinct(head: ListNode, s: seq<ListNode>) {
    && head !in s
    && forall i, j :: 0 <= i < j < |s| ==> s[i] != s[j]
  }

  ghost predicate LinkedAt(head: ListNode, s: seq<ListNode>, i: int)
    requires -1 <= i < |s|
    reads head, s
  {
    At(head, s, i).next == At(head, s, i + 1) && At(head, s, i + 1).prev == At(head, s, i)
  }

  /** Following `next` from the head visits exactly s, and `prev` is its inverse. */
  ghost predicate Ring(head: ListNode, s: seq<ListNode>)
    reads head, s
  {
    Distinct(head, s) && forall i :: -1 <= i < |s| ==> LinkedAt(head, s, i)
  }

  /** rt_list_insert_before: n goes to position k, in front of the node there. */
  method InsertBefore(l: ListNode, n: ListNode, ghost head: ListNode, ghost s: seq<ListNode>, ghost k: nat)
    requires Ring(head, s) && n != head && n !in s && k <= |s| && l == At(head, s, k)
    modifies head, s, n
    ensures Ring(head, InsertAt(s, k, n))
    ensures forall m :: m in s || m == n || m == head ==> m.prio == old(m.prio)
  {
    assert LinkedAt(head, s, k - 1);
    l.prev.next := n;
    n.prev := l.prev;
    l.prev := n;
    n.next := l;
    ghost var r := InsertAt(s, k, n);
    forall i | -1 <= i < |r| ensures LinkedAt(head, r, i) {
      if i < k - 1 { assert old(LinkedAt(head, s, i)); } else if i > k { assert old(LinkedAt(head, s, i - 1)); }
    }
  }

  /** rt_list_insert_after: n goes to position k, behind the node at k - 1. */
  method InsertAfter(l: ListNode, n: ListNode, ghost head: ListNode, ghost s: seq<ListNode>, ghost k: nat)
    requires Ring(head, s) && n != head && n !in s && k <= |s| && l == At(head, s, k - 1)
    modifies head, s, n
    ensures Ring(head, InsertAt(s, k, n))
    ensures forall m :: m in s || m == n || m == head ==> m.prio == old(m.prio)
  {
    assert LinkedAt(head, s, k - 1);
    l.next.prev := n;
    n.next := l.next;
    l.next := n;
    n.prev := l;
    ghost var r := InsertAt(s, k, n);
    forall i | -1 <= i < |r| ensures LinkedAt(head, r, i) {
      if i < k - 1 { assert old(LinkedAt(head, s, i)); } else if i > k { assert old(LinkedAt(head, s, i - 1)); }
    }
  }

  /** rt_list_remove, from any position: what resume and timeout do to a thread. */
  method Remove(n: ListNode, ghost head: ListNode, ghost s: seq<ListNode>, ghost k: nat)
    requires Ring(head, s) && k < |s| && n == s[k]
    modifies head, s
    ensures Ring(head, RemoveAt(s, k)) && Ring(n, [])
    ensures forall m :: m in s || m == head ==> m.prio == old(m.prio)
  {
    assert LinkedAt(head, s, k - 1) && LinkedAt(head, s, k);
    n.next.prev := n.prev;
    n.prev.next := n.next;
    n.next := n;
    n.prev := n;
    ghost var r := RemoveAt(s, k);
    forall i | -1 <= i < |r| ensures LinkedAt(head, r, i) {
      if i < k - 1 { assert old(LinkedAt(head, s, i)); } else if i > k - 1 { assert old(LinkedAt(head, s, i + 1)); }
    }
  }

  /** rt_list_isempty */
  method IsEmpty(l: ListNode, ghost s: seq<ListNode>) returns (r: bool)
    requires Ring(l, s)
    ensures r <==> s == []
  {
    assert LinkedAt(l, s, -1);
    r := l.next == l;
  }

  /** rt_list_len */
  method Len(l: ListNode, ghost s: seq<ListNode>) returns (len: nat)
    requires Ring(l, s)
    ensures len == |s|
  {
    len := 0;
    var p := l;
    assert LinkedAt(l, s, -1);
    while p.next != l
      invariant len <= |s| && p == At(l, s, len - 1)
      invariant LinkedAt(l, s, len - 1)
      decreases |s| - len
    {
      p := p.next;
      len := len + 1;
      assert LinkedAt(l, s, len - 1);
    }
  }

  function Prios(s: seq<ListNode>): (ps: seq<nat>)
    reads s
    ensures |ps| == |s| && forall i :: 0 <= i < |s| ==> ps[i] == s[i].prio
  {
    seq(|s|, i requires 0 <= i < |s| reads s => s[i].prio)
  }

  /** The list part of _ipc_list_suspend. */
  method Suspend(list: ListNode, thread: ListNode, flag: Flag, ghost s: seq<ListNode>)
    requires Ring(list, s) && thread != list && thread !in s
    modifies list, s, thread
    ensures Ring(list, InsertAt(s, Place(old(Prios(s)), thread.prio, flag), thread))
    ensures forall m :: m in s || m == thread || m == list ==> m.prio == old(m.prio)
  {
    ghost var ps := Prios(s);
    if flag == Fifo {
      InsertBefore(list, thread, list, s, |s|);
      return;
    }
    assert LinkedAt(list, s, -1);
    var n := list.next;
    ghost var k: nat := 0;
    while n != list
      invariant k <= |s| && n == At(list, s, k)
      invariant Place(ps, thread.prio, Prio) >= k
      decreases |s| - k
    {
      if thread.prio < n.prio {
        InsertBefore(n, thread, list, s, k);
        return;
      }
      assert LinkedAt(list, s, k);
      n := n.next;
      k := k + 1;
    }
    InsertBefore(list, thread, list, s, |s|);
  }

  /** The list part of _ipc_list_resume: the first thread leaves. */
  method Resume(list: ListNode, ghost s: seq<ListNode>) returns (thread: ListNode)
    requires Ring(list, s) && |s| > 0
    modifies list, s
    ensures thread == s[0] && Ring(list, s[1..]) && Ring(thread, [])
    ensures forall m :: m in s || m == list ==> m.prio == old(m.prio)
  {
    assert LinkedAt(list, s, -1);
    thread := list.next;
    Remove(thread, list, s, 0);
    assert RemoveAt(s, 0) == s[1..];
  }

  /** _ipc_list_resume_all: threads leave in list order until none is left. */
  method ResumeAll(list: ListNode, ghost s: seq<ListNode>) returns (woken: seq<ListNode>)
    requires Ring(list, s)
    modifies list, s
    ensures Ring(list, []) && woken == s
  {
    woken := [];
    ghost var k: nat := 0;
    var empty := IsEmpty(list, s);
    while !empty
      invariant k <= |s| && Ring(list, s[k..]) && woken == s[..k] && (empty <==> s[k..] == [])
      decreases |s| - k
    {
      var thread := Resume(list, s[k..]);
      assert s[k..][1..] == s[k + 1..];
      woken := woken + [thread];
      k := k + 1;
      empty := IsEmpty(list, s[k..]);
    }
  }
}
