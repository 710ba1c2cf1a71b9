/** The list of suspended threads of an IPC object, as a ring of the nodes embedded in the
    threads, refining the sequence of thread numbers that the state machines use. */
module WaitList {
  import opened Common
  import opened RtList
  import opened WaitOrder

  class WaitList {
    const head: ListNode
    const threads: seq<ListNode>   // the node in each thread of the system
    ghost var tids: seq<nat>

    ghost predicate Valid()
      reads this, head, threads
    {
      && head !in threads
      && (forall t, u :: 0 <= t < u < |threads| ==> threads[t] != threads[u])
      && (forall t :: 0 <= t < |threads| ==> threads[t].id == t)
      && NoDup(tids) && Known()
      && Ring(head, Nodes())
    }

    ghost predicate Known()
      reads this
    {
      forall i :: 0 <= i < |tids| ==> tids[i] < |threads|
    }

    ghost function Nodes(): (s: seq<ListNode>)
      requires Known()
      reads this
      ensures |s| == |tids| && forall i :: 0 <= i < |s| ==> s[i] == threads[tids[i]]
    {
      seq(|tids|, i requires 0 <= i < |tids| && Known() reads this => threads[tids[i]])
    }

    /** current_priority of every thread. */
    ghost function Cur(): (ps: seq<nat>)
      reads this, threads
      ensures |ps| == |threads| && forall t :: 0 <= t < |ps| ==> ps[t] == threads[t].prio
    {
      seq(|threads|, t requires 0 <= t < |threads| reads this, threads => threads[t].prio)
    }

    /** An empty list over threads with these priorities. */
    constructor (prios: seq<nat>)
      ensures Valid() && tids == [] && Cur() == prios && fresh(head) && forall n :: n in threads ==> fresh(n)
    {
      var l := new ListNode(0, 0);
      head := l;
      tids := [];
      var ts: seq<ListNode> := [];
      for i := 0 to |prios|
        invariant |ts| == i && fresh(l) && Ring(l, []) && l !in ts
        invariant forall n :: n in ts ==> fresh(n)
        invariant forall t :: 0 <= t < i ==> ts[t].id == t && ts[t].prio == prios[t]
        invariant forall t, u :: 0 <= t < u < i ==> ts[t] != ts[u]
      {
        var n := new ListNode(prios[i], i);
        ts := ts + [n];
      }
      threads := ts;
    }

    lemma NodesDistinct(t: nat)
      requires Valid() && t < |threads| && t !in tids
      ensures threads[t] !in Nodes() && threads[t] != head
    {
    }

    /** _ipc_list_suspend */
    method SuspendThread(t: nat, flag: Flag)
      requires Valid() && t < |threads| && t !in tids
      modifies this`tids, head, threads
      ensures Valid() && Cur() == old(Cur())
      ensures tids == InsertAt(old(tids), Place(PriosOf(old(tids), Cur()), Cur()[t], flag), t)
    {
      hide Place, Ring, LinkedAt, InsertAt, NoDup;
      ghost var s, ps := Nodes(), PriosOf(tids, Cur());
      NodesDistinct(t);
      assert Prios(s) == ps;
      RtList.Suspend(head, threads[t], flag, s);
      ghost var k := Place(ps, threads[t].prio, flag);
      InsertNoDup(tids, k, t);
      tids := InsertAt(tids, k, t);
      assert Nodes() == InsertAt(s, k, threads[t]);
    }

    /** The thread at the front of a list that is not empty. */
    method FirstThread() returns (t: nat)
      requires Valid() && tids != []
      ensures t == tids[0]
    {
      assert LinkedAt(head, Nodes(), -1);
      t := head.next.id;
    }

    /** _ipc_list_resume on a list that is not empty */
    method ResumeThread() returns (t: nat)
      requires Valid() && tids != []
      modifies this`tids, head, threads
      ensures Valid() && Cur() == old(Cur())
      ensures t == old(tids)[0] && tids == old(tids)[1..]
    {
      hide Ring, NoDup;
      ghost var s := Nodes();
      var n := RtList.Resume(head, s);
      t := n.id;
      TailOf(tids);
      tids := tids[1..];
      assert Nodes() == s[1..];
    }

    /** What a timeout does to the list. */
    method LeaveList(t: nat)
      requires Valid() && t in tids
      modifies this`tids, head, threads
      ensures Valid() && Cur() == old(Cur())
      ensures tids == Without(old(tids), t)
    {
      ghost var s, k := Nodes(), IndexFrom(tids, t, 0);
      RtList.Remove(threads[t], head, s, k);
      RemoveNoDup(tids, k);
      tids := RemoveAt(tids, k);
      assert Nodes() == RemoveAt(s, k);
    }

    /** rt_list_isempty */
    method IsEmptyList() returns (r: bool)
      requires Valid()
      ensures r <==> tids == []
    {
      r := RtList.IsEmpty(head, Nodes());
    }

    /** RT_THREAD_CTRL_CHANGE_PRIORITY */
    method ChangePriority(t: nat, prio: nat)
      requires Valid() && t < |threads|
      modifies threads
      ensures Valid() && Cur() == old(Cur())[t := prio]
    {
      hide Known, NoDup;
      ghost var s := Nodes();
      threads[t].prio := prio;
      forall i | -1 <= i < |s| ensures LinkedAt(head, s, i) {
        assert old(LinkedAt(head, s, i));
      }
      assert Nodes() == s;
    }
  }
}
