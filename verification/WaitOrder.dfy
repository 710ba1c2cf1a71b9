/** Where a thread goes in a list of suspended threads (ipc.c, _ipc_list_suspend).
    Smaller numbers are more urgent. */
module WaitOrder {
  import opened Common

  datatype Flag = Fifo | Prio

  /** Index at which a thread of priority p joins a list with priorities ps. */
  function Place(ps: seq<nat>, p: nat, flag: Flag): (k: nat)
    ensures k <= |ps|
    ensures flag == Fifo ==> k == |ps|
    ensures flag == Prio ==> (forall j :: 0 <= j < k ==> ps[j] <= p) && (k < |ps| ==> p < ps[k])
  {
    if flag == Fifo then |ps| else PlaceFrom(ps, p, 0)
  }

  function PlaceFrom(ps: seq<nat>, p: nat, i: nat): (k: nat)
    requires i <= |ps|
    ensures i <= k <= |ps|
    ensures forall j :: i <= j < k ==> ps[j] <= p
    ensures k < |ps| ==> p < ps[k]
    decreases |ps| - i
  {
    if i == |ps| || p < ps[i] then i else PlaceFrom(ps, p, i + 1)
  }

  /** The priorities of listed threads. */
  function PriosOf(waiters: seq<nat>, cur: seq<nat>): (ps: seq<nat>)
    ensures |ps| == |waiters|
    ensures forall i :: 0 <= i < |ps| && waiters[i] < |cur| ==> ps[i] == cur[waiters[i]]
  {
    seq(|waiters|, i requires 0 <= i < |waiters| => if waiters[i] < |cur| then cur[waiters[i]] else 0)
  }

  function InsertAt<T>(s: seq<T>, k: nat, x: T): (r: seq<T>)
    requires k <= |s|
    ensures |r| == |s| + 1 && r[k] == x
    ensures forall j :: 0 <= j < k ==> r[j] == s[j]
    ensures forall j :: k < j < |r| ==> r[j] == s[j - 1]
  {
    s[..k] + [x] + s[k..]
  }

  function RemoveAt<T>(s: seq<T>, k: nat): (r: seq<T>)
    requires k < |s|
    ensures |r| == |s| - 1
    ensures forall j :: 0 <= j < k ==> r[j] == s[j]
    ensures forall j :: k <= j < |r| ==> r[j] == s[j + 1]
  {
    s[..k] + s[k + 1..]
  }

  /** Position of t in the list from i on, or its length. */
  function IndexFrom(list: seq<nat>, t: nat, i: nat): (k: nat)
    requires i <= |list|
    ensures i <= k <= |list| && (k < |list| ==> list[k] == t)
    ensures forall j :: i <= j < k ==> list[j] != t
    decreases |list| - i
  {
    if i == |list| || list[i] == t then i else IndexFrom(list, t, i + 1)
  }

  /** The list after thread t left it. */
  function Without(list: seq<nat>, t: nat): seq<nat> {
    var k := IndexFrom(list, t, 0);
    if k < |list| then RemoveAt(list, k) else list
  }

  ghost predicate Sorted(ps: seq<nat>) {
    forall i, j :: 0 <= i < j < |ps| ==> ps[i] <= ps[j]
  }

  /** Priority insertion keeps the list sorted, and the newcomer stands behind every
      thread of its own priority: first come, first served among equals. */
  lemma PlaceSorted(ps: seq<nat>, p: nat)
    requires Sorted(ps)
    ensures Sorted(InsertAt(ps, Place(ps, p, Prio), p))
    ensures forall j :: 0 <= j < |ps| && ps[j] == p ==> j < Place(ps, p, Prio)
  {
    var k := Place(ps, p, Prio);
    if k < |ps| {
      forall j | k <= j < |ps| ensures p < ps[j] {
        assert ps[k] <= ps[j];
      }
    }
  }

  /** Leaving the list, from any position, keeps it sorted. */
  lemma RemoveSorted(ps: seq<nat>, k: nat)
    requires Sorted(ps) && k < |ps|
    ensures Sorted(RemoveAt(ps, k))
  {
  }

  lemma WithoutNoDup(list: seq<nat>, t: nat)
    requires NoDup(list)
    ensures NoDup(Without(list, t))
    ensures forall x :: x in Without(list, t) <==> x in list && x != t
    ensures |list| - 1 <= |Without(list, t)| <= |list|
  {
    var k := IndexFrom(list, t, 0);
    if k < |list| {
      RemoveNoDup(list, k);
    }
  }

  lemma RemoveNoDup(list: seq<nat>, k: nat)
    requires NoDup(list) && k < |list|
    ensures NoDup(RemoveAt(list, k))
    ensures forall x :: x in RemoveAt(list, k) <==> x in list && x != list[k]
  {
    var r := RemoveAt(list, k);
    forall x: nat | x in list && x != list[k] ensures x in r {
      var i :| 0 <= i < |list| && list[i] == x;
      assert r[if i < k then i else i - 1] == x;
    }
    forall x: nat | x in r ensures x in list && x != list[k] {
      var i :| 0 <= i < |r| && r[i] == x;
      assert list[if i < k then i else i + 1] == x;
    }
  }

  lemma InsertNoDup(list: seq<nat>, k: nat, t: nat)
    requires NoDup(list) && t !in list && k <= |list|
    ensures NoDup(InsertAt(list, k, t))
    ensures forall x :: x in InsertAt(list, k, t) <==> x == t || x in list
  {
    var r := InsertAt(list, k, t);
    assert r == list[..k] + [t] + list[k..] && list == list[..k] + list[k..];
    forall i, j | 0 <= i < j < |r| ensures r[i] != r[j] {
      var x, y := if i < k then i else i - 1, if j < k then j else j - 1;
      if i != k && j != k { assert list[x] != list[y]; }
    }
  }

  lemma TailOf(q: seq<nat>)
    requires NoDup(q) && |q| > 0
    ensures NoDup(q[1..]) && forall n :: n in q[1..] <==> n in q && n != q[0]
  {
    assert q == [q[0]] + q[1..];
  }
}
