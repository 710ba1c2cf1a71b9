/** The message queue's node lists (ipc.c): a pool of nodes linked by `next`, one list
    of free nodes and one of queued nodes.  Each method is one interrupt-disabled
    section, or the unlocked copy between two of them. */
module MessageQueue {
  import opened Common

  const ENTRY_MAX: nat := 0xffff   // RT_MQ_ENTRY_MAX
  const NULL: int := -1

  /** The lists as sequences of node numbers, and the entry counter. */
  datatype Pool = Pool(free: seq<nat>, queue: seq<nat>, entry: nat)

  function Counted(entry: nat): nat {
    if entry < ENTRY_MAX then entry + 1 else entry
  }

  /** A sender or an urgent sender takes the first free node. */
  function PopFree(p: Pool): Pool
    requires |p.free| > 0
  {
    p.(free := p.free[1..])
  }

  function LinkTail(p: Pool, n: nat): Pool {
    Pool(p.free, p.queue + [n], Counted(p.entry))
  }

  function LinkHead(p: Pool, n: nat): Pool {
    Pool(p.free, [n] + p.queue, Counted(p.entry))
  }

  /** A receiver takes the first queued node. */
  function PopQueue(p: Pool): Pool
    requires |p.queue| > 0
  {
    Pool(p.free, p.queue[1..], if p.entry > 0 then p.entry - 1 else 0)
  }

  function PushFree(p: Pool, n: nat): Pool {
    p.(free := [n] + p.free)
  }

  function Reverse(s: seq<nat>): (r: seq<nat>)
    ensures |r| == |s|
    ensures forall i :: 0 <= i < |s| ==> r[i] == s[|s| - 1 - i]
  {
    seq(|s|, i requires 0 <= i < |s| => s[|s| - 1 - i])
  }

  /** RT_IPC_CMD_RESET moves queued nodes to the free list one by one. */
  function Drain(p: Pool): Pool {
    Pool(Reverse(p.queue) + p.free, [], 0)
  }

  function First(s: seq<nat>): int {
    if |s| == 0 then NULL else s[0]
  }

  /** Node i of s is in the pool and links to its successor, or to NULL at the end. */
  ghost predicate LinkAt(next: seq<int>, s: seq<nat>, i: nat) {
    i < |s| ==> s[i] < |next| && next[s[i]] == (if i + 1 < |s| then s[i + 1] as int else NULL)
  }

  /** Following `next` from `head` visits exactly s and ends in NULL. */
  ghost predicate Chain(next: seq<int>, head: int, s: seq<nat>) {
    head == First(s) && forall i :: 0 <= i < |s| ==> LinkAt(next, s, i)
  }

  lemma ChainTail(next: seq<int>, s: seq<nat>)
    requires |s| > 0 && Chain(next, s[0], s)
    ensures s[0] < |next| && Chain(next, next[s[0]], s[1..])
  {
    assert LinkAt(next, s, 0);
    forall i | 0 <= i < |s[1..]| ensures LinkAt(next, s[1..], i) {
      assert LinkAt(next, s, i + 1);
    }
  }

  lemma ChainFrame(next: seq<int>, next': seq<int>, head: int, s: seq<nat>, n: nat)
    requires Chain(next, head, s) && |next| == |next'| && n !in s
    requires forall m :: 0 <= m < |next| && m != n ==> next'[m] == next[m]
    ensures Chain(next', head, s)
  {
    forall i | 0 <= i < |s| ensures LinkAt(next', s, i) {
      assert LinkAt(next, s, i);
    }
  }

  /** Pushing node n in front of a chain. */
  lemma ChainPush(next: seq<int>, next': seq<int>, head: int, s: seq<nat>, n: nat)
    requires Chain(next, head, s) && n !in s && n < |next|
    requires next' == next[n := head]
    ensures Chain(next', n, [n] + s)
  {
    forall i | 0 <= i < |[n] + s| ensures LinkAt(next', [n] + s, i) {
      if i > 0 { assert LinkAt(next, s, i - 1); }
    }
  }

  /** Appending node n, which already ends in NULL, behind the last node. */
  lemma ChainAppend(next: seq<int>, next': seq<int>, head: int, s: seq<nat>, n: nat)
    requires Chain(next, head, s) && NoDup(s) && n !in s && n < |next| && next[n] == NULL
    requires |s| > 0 ==> s[|s| - 1] < |next| && next' == next[s[|s| - 1] := n]
    requires |s| == 0 ==> next' == next
    ensures Chain(next', if |s| == 0 then n else head, s + [n])
  {
    forall i | 0 <= i < |s + [n]| ensures LinkAt(next', s + [n], i) {
      if i < |s| { assert LinkAt(next, s, i); }
    }
  }

  lemma ChainLast(next: seq<int>, head: int, s: seq<nat>)
    requires Chain(next, head, s) && |s| > 0
    ensures s[|s| - 1] < |next| && s[0] < |next|
  {
    assert LinkAt(next, s, |s| - 1) && LinkAt(next, s, 0);
  }

  class MessageQueue<Msg(0)> {
    const next: array<int>     // rt_mq_message.next of each node
    const data: array<Msg>     // the bytes after each node's header
    var head: int
    var tail: int
    var free: int
    var entry: nat
    ghost var pool: Pool

    /** The pointers represent the pool. */
    ghost predicate Valid()
      reads this, next, data
    {
      && data.Length == next.Length && next as object != data as object
      && Chain(next[..], free, pool.free)
      && Chain(next[..], head, pool.queue)
      && tail == (if |pool.queue| == 0 then NULL else pool.queue[|pool.queue| - 1])
      && entry == pool.entry
      && NoDup(pool.free) && NoDup(pool.queue)
      && (forall n :: n in pool.free ==> n !in pool.queue)
    }

    /** Node n is on neither list: some thread holds it. */
    ghost predicate Held(n: int)
      reads this
    {
      0 <= n < next.Length && n !in pool.free && n !in pool.queue
    }

    /** rt_mq_init: the free list is built by pushing nodes 0, 1, 2, ... */
    constructor (maxMsgs: nat, blank: Msg)
      ensures Valid() && fresh(next) && fresh(data) && next.Length == maxMsgs
      ensures pool.queue == [] && pool.entry == 0
      ensures |pool.free| == maxMsgs && forall i :: 0 <= i < maxMsgs ==> pool.free[i] == maxMsgs - 1 - i
    {
      next := new int[maxMsgs];
      data := new Msg[maxMsgs](_ => blank);
      head, tail, free, entry := NULL, NULL, NULL, 0;
      pool := Pool([], [], 0);
      new;
      for temp := 0 to maxMsgs
        modifies this`free, this`pool, next
        invariant Valid() && head == NULL
        invariant pool.queue == [] && pool.entry == 0 && |pool.free| == temp
        invariant forall i :: 0 <= i < temp ==> pool.free[i] == temp - 1 - i
      {
        ghost var was := next[..];
        next[temp] := free;
        free := temp;
        ChainPush(was, next[..], First(pool.free), pool.free, temp);
        pool := PushFree(pool, temp);
      }
    }

    /** First section of a send: the node, or NULL when the pool is used up. */
    method TakeFree() returns (msg: int)
      requires Valid()
      modifies this`free, this`pool
      ensures Valid()
      ensures |old(pool).free| == 0 ==> msg == NULL && pool == old(pool)
      ensures |old(pool).free| > 0 ==> msg == old(pool).free[0] && pool == PopFree(old(pool)) && Held(msg)
    {
      msg := free;
      if msg == NULL {
        return;
      }
      ChainTail(next[..], pool.free);
      free := next[msg];
      pool := PopFree(pool);
    }

    /** Between the sections of a send: terminate the node and copy the message in. */
    method Fill(msg: nat, buffer: Msg)
      requires Valid() && Held(msg)
      modifies next, data
      ensures Valid() && next[msg] == NULL
      ensures forall n :: old(Held(n)) && n != msg ==> next[n] == old(next[n])
      ensures data[..] == old(data[..])[msg := buffer]
    {
      ghost var was := next[..];
      next[msg] := NULL;
      data[msg] := buffer;
      ChainFrame(was, next[..], head, pool.queue, msg);
      ChainFrame(was, next[..], free, pool.free, msg);
    }

    /** Between the sections of an urgent send: copy only. */
    method FillUrgent(msg: nat, buffer: Msg)
      requires Valid() && Held(msg)
      modifies data
      ensures Valid() && data[..] == old(data[..])[msg := buffer]
    {
      data[msg] := buffer;
    }

    /** Second section of a send: append.  The result is false for -RT_EFULL. */
    method Link(msg: nat) returns (ok: bool)
      requires Valid() && Held(msg) && next[msg] == NULL
      modifies this`head, this`tail, this`entry, this`pool, next
      ensures Valid() && pool == LinkTail(old(pool), msg)
      ensures forall n :: old(Held(n)) ==> next[n] == old(next[n])
      ensures ok <==> old(pool).entry < ENTRY_MAX
    {
      ghost var was := next[..];
      if |pool.queue| > 0 { ChainLast(was, head, pool.queue); }
      if tail != NULL {
        next[tail] := msg;
      }
      tail := msg;
      if head == NULL {
        head := msg;
      }
      ChainAppend(was, next[..], First(pool.queue), pool.queue, msg);
      ChainFrame(was, next[..], free, pool.free, if |pool.queue| == 0 then msg else pool.queue[|pool.queue| - 1]);
      ok := entry < ENTRY_MAX;
      if ok {
        entry := entry + 1;
      }
      pool := LinkTail(pool, msg);
    }

    /** Second section of an urgent send: prepend. */
    method LinkUrgent(msg: nat) returns (ok: bool)
      requires Valid() && Held(msg)
      modifies this`head, this`tail, this`entry, this`pool, next
      ensures Valid() && pool == LinkHead(old(pool), msg)
      ensures forall n :: old(Held(n)) && n != msg ==> next[n] == old(next[n])
      ensures ok <==> old(pool).entry < ENTRY_MAX
    {
      ghost var was := next[..];
      next[msg] := head;
      head := msg;
      if tail == NULL {
        tail := msg;
      }
      ChainPush(was, next[..], First(pool.queue), pool.queue, msg);
      ChainFrame(was, next[..], free, pool.free, msg);
      ok := entry < ENTRY_MAX;
      if ok {
        entry := entry + 1;
      }
      pool := LinkHead(pool, msg);
    }

    /** First section of a receive, past the wait loop: unlink the head node. */
    method TakeHead() returns (msg: nat)
      requires Valid() && |pool.queue| > 0
      modifies this`head, this`tail, this`entry, this`pool
      ensures Valid() && msg == old(pool).queue[0] && pool == PopQueue(old(pool)) && Held(msg)
    {
      ChainTail(next[..], pool.queue);
      msg := head;
      head := next[msg];
      if tail == msg {
        tail := NULL;
      }
      if entry > 0 {
        entry := entry - 1;
      }
      pool := PopQueue(pool);
    }

    /** Second section of a receive: give the node back. */
    method PutFree(msg: nat)
      requires Valid() && Held(msg)
      modifies this`free, this`pool, next
      ensures Valid() && pool == PushFree(old(pool), msg)
      ensures forall n :: old(Held(n)) && n != msg ==> next[n] == old(next[n])
    {
      ghost var was := next[..];
      next[msg] := free;
      free := msg;
      ChainPush(was, next[..], First(pool.free), pool.free, msg);
      ChainFrame(was, next[..], head, pool.queue, msg);
      pool := PushFree(pool, msg);
    }

    /** One round of the loop in RT_IPC_CMD_RESET. */
    method MoveHead()
      requires Valid() && |pool.queue| > 0
      modifies this`head, this`tail, this`free, this`entry, this`pool, next
      ensures Valid() && head == First(pool.queue)
      ensures forall n :: old(Held(n)) ==> Held(n) && next[n] == old(next[n])
      ensures pool.queue == old(pool).queue[1..] && pool.free == [old(pool).queue[0]] + old(pool).free
    {
      var msg := TakeHead();
      PutFree(msg);
    }

    /** The node part of RT_IPC_CMD_RESET. */
    method Reset()
      requires Valid()
      modifies this, next
      ensures Valid() && pool == Drain(old(pool))
      ensures forall n :: old(Held(n)) ==> Held(n) && next[n] == old(next[n])
    {
      hide Chain, NoDup, PushFree, PopQueue, Reverse;
      ghost var q, f := pool.queue, pool.free;
      ghost var k: nat := 0;
      HeadFirst();
      while head != NULL
        invariant k <= |q| && Valid()
        invariant pool.queue == q[k..] && pool.free == Reverse(q[..k]) + f
        invariant head == First(pool.queue)
        invariant forall n :: old(Held(n)) ==> Held(n) && next[n] == old(next[n])
        decreases |q| - k
      {
        MoveHead();
        ReverseSnoc(q[..k], q[k], f);
        assert q[..k + 1] == q[..k] + [q[k]];
        k := k + 1;
      }
      assert q[..k] == q;
      entry := 0;
      pool := pool.(entry := 0);
    }

    lemma HeadFirst()
      requires Valid()
      ensures head == First(pool.queue)
    {
    }
  }

  lemma ReverseSnoc(s: seq<nat>, x: nat, f: seq<nat>)
    ensures Reverse(s + [x]) + f == [x] + (Reverse(s) + f)
  {
  }
}
