/** The pointer-level message queue under every interleaving: each section of ipc.c, on
    the real node lists, is the matching step of MessageQueueRuns, whatever the other
    threads have in flight. */
module MessageQueueMachine {
  import opened Common
  import opened MessageQueue
  import opened MessageQueueRuns
  import opened WaitOrder
  import opened Waiting

  /** A node filled for the tail ends in NULL until its sender links it. */
  ghost predicate Terminated(th: seq<Phase>, next: seq<int>) {
    forall t :: 0 <= t < |th| && th[t].Filled? && !th[t].urgent ==> th[t].node < |next| && next[th[t].node] == NULL
  }

  /** A node in flight is on no list and in nobody else's hands. */
  lemma InFlight(s: State, t: nat)
    requires Inv(s) && t < |s.th| && Node(s.th[t]) != NULL
    ensures 0 <= Node(s.th[t]) < |s.data|
    ensures Node(s.th[t]) !in s.pool.free && Node(s.th[t]) !in s.pool.queue
    ensures forall u :: 0 <= u < |s.th| && u != t ==> Node(s.th[u]) != Node(s.th[t])
  {
    forall u | 0 <= u < |s.th| && u != t ensures Node(s.th[u]) != Node(s.th[t]) {
      if u < t {
        assert Node(s.th[u]) != NULL ==> Node(s.th[u]) != Node(s.th[t]);
      }
    }
  }

  /** Only filling makes a thread ready to link. */
  lemma FilledFrom(s: State, a: Step, u: nat)
    requires Enabled(s, a) && u < |Apply(s, a).th| && Apply(s, a).th[u].Filled?
    ensures |Apply(s, a).th| == |s.th| && (Apply(s, a).th[u] == s.th[u] || a == MessageQueueRuns.Fill(u))
  {
    hide PopFree, LinkHead, LinkTail, PopQueue, PushFree, Drain, InsertAt, Without, LinkEnter, PutEnter;
    match a {
      case Link(t) => LinkFilled(s, t, u);
      case Put(t) => PutFilled(s, t, u);
      case _ =>
    }
  }

  lemma LinkFilled(s: State, t: nat, u: nat)
    requires t < |s.th| && s.th[t].Filled? && u < |LinkEnter(s, t).th| && LinkEnter(s, t).th[u].Filled?
    ensures |LinkEnter(s, t).th| == |s.th| && LinkEnter(s, t).th[u] == s.th[u]
  {
    hide LinkHead, LinkTail;
  }

  lemma PutFilled(s: State, t: nat, u: nat)
    requires t < |s.th| && s.th[t].Copied? && u < |PutEnter(s, t).th| && PutEnter(s, t).th[u].Filled?
    ensures |PutEnter(s, t).th| == |s.th| && PutEnter(s, t).th[u] == s.th[u]
  {
    hide PushFree;
  }

  /** Relinking list nodes, and the node `mine` of the acting thread t, leaves alone what
      the other threads have filled. */
  lemma StillTerminated(s: State, a: Step, next: seq<int>, next': seq<int>, t: nat, mine: int)
    requires Inv(s) && Enabled(s, a) && Terminated(s.th, next) && |next| == |next'| == |s.data|
    requires forall n :: 0 <= n < |next| && n !in s.pool.free && n !in s.pool.queue && n != mine ==> next'[n] == next[n]
    requires mine != NULL ==> t < |s.th| == |Apply(s, a).th| && Node(s.th[t]) == mine && !Apply(s, a).th[t].Filled?
    requires !a.Fill?
    ensures Terminated(Apply(s, a).th, next')
  {
    hide Inv, Apply, Enabled;
    var th' := Apply(s, a).th;
    forall u | 0 <= u < |th'| && th'[u].Filled? && !th'[u].urgent
      ensures th'[u].node < |next'| && next'[th'[u].node] == NULL
    {
      FilledFrom(s, a, u);
      InFlight(s, u);
    }
  }

  lemma FillTerminated(s: State, t: nat, next: seq<int>, next': seq<int>)
    requires Inv(s) && Enabled(s, MessageQueueRuns.Fill(t)) && Terminated(s.th, next) && |next| == |next'| == |s.data|
    requires forall n :: 0 <= n < |next| && n !in s.pool.free && n !in s.pool.queue && n != s.th[t].node
                         ==> next'[n] == next[n]
    requires s.th[t].urgent || (s.th[t].node < |next'| && next'[s.th[t].node] == NULL)
    ensures Terminated(Apply(s, MessageQueueRuns.Fill(t)).th, next')
  {
    hide Inv;
    var th' := Apply(s, MessageQueueRuns.Fill(t)).th;
    InFlight(s, t);
    forall u | 0 <= u < |th'| && th'[u].Filled? && !th'[u].urgent
      ensures th'[u].node < |next'| && next'[th'[u].node] == NULL
    {
      if u != t {
        InFlight(s, u);
      }
    }
  }

  class Machine {
    const q: MessageQueue<Msg>
    ghost var s: State

    ghost predicate Valid()
      reads this, q, q.next, q.data
    {
      && q.Valid() && q.pool == s.pool && q.data[..] == s.data
      && Inv(s) && Terminated(s.th, q.next[..])
    }

    /** rt_mq_init, with `threads` threads that have not used the queue yet. */
    constructor (maxMsgs: nat, blank: Msg, ghost threads: nat)
      requires maxMsgs <= ENTRY_MAX
      ensures Valid() && fresh(q) && fresh(q.next) && fresh(q.data)
      ensures Start(s) && |s.data| == maxMsgs && |s.th| == threads
    {
      q := new MessageQueue<Msg>(maxMsgs, blank);
      new;
      s := State(q.pool, q.data[..], [], [], seq(threads, _ => Idle), 0, [], false, false);
      StartInv(s);
    }

    /** First section of a send or urgent send: `msg` is the node, or NULL when the thread
        was suspended or refused.  A node will be queued in front by an urgent send only. */
    method EnterSend(ghost a: Step) returns (msg: int)
      requires Valid() && Enabled(s, a) && (a.SendTry? || a.SendRetry? || a.UrgentTry?)
      modifies this`s, q`free, q`pool
      ensures Valid() && s == Apply(old(s), a)
      ensures msg == Node(s.th[a.t]) == if |old(s).pool.free| > 0 then old(s).pool.free[0] else NULL
      ensures msg != NULL ==> s.th[a.t].Filling? && s.th[a.t].urgent == a.UrgentTry?
    {
      hide Inv, Terminated;
      ghost var next := q.next[..];
      msg := q.TakeFree();
      StillTerminated(s, a, next, q.next[..], a.t, NULL);
      StepAll(s, a);
      EnterSendPool(s, a);
      s := Apply(s, a);
    }

    /** First section of a receive: `msg` is the unlinked node, or NULL. */
    method EnterRecv(ghost a: Step) returns (msg: int)
      requires Valid() && Enabled(s, a) && (a.RecvTry? || a.RecvRetry?)
      modifies this`s, q`head, q`tail, q`entry, q`pool
      ensures Valid() && s == Apply(old(s), a)
      ensures Inv(old(s)) && msg == Node(s.th[a.t])
      ensures msg == NULL <==> Contents(old(s)) == []
      ensures msg != NULL ==> s.th[a.t] == Holding(msg, Contents(old(s))[0])
    {
      hide Inv, Terminated;
      ghost var next := q.next[..];
      EntryQueued(s);
      EnterRecvPool(s, a);
      msg := NULL;
      if q.entry > 0 {
        msg := q.TakeHead();
      }
      StillTerminated(s, a, next, q.next[..], a.t, NULL);
      StepAll(s, a);
      s := Apply(s, a);
    }

    /** The unlocked copy in; the arguments are the sender's own variables. */
    method FillNode(ghost t: nat, msg: nat, m: Msg, urgent: bool)
      requires Valid() && t < |s.th| && s.th[t] == Filling(m, msg, urgent)
      modifies this`s, q.next, q.data
      ensures Valid() && Enabled(old(s), MessageQueueRuns.Fill(t)) && s == Apply(old(s), MessageQueueRuns.Fill(t))
    {
      hide Inv, Terminated;
      ghost var next := q.next[..];
      InFlight(s, t);
      if urgent {
        q.FillUrgent(msg, m);
      } else {
        q.Fill(msg, m);
      }
      FillTerminated(s, t, next, q.next[..]);
      StepAll(s, MessageQueueRuns.Fill(t));
      s := Apply(s, MessageQueueRuns.Fill(t));
    }

    /** The linking section: it never reports -RT_EFULL. */
    method LinkNode(ghost t: nat, msg: nat, ghost m: Msg, urgent: bool) returns (ok: bool)
      requires Valid() && Enabled(s, MessageQueueRuns.Link(t)) && s.th[t] == Filled(m, msg, urgent)
      modifies this`s, q`head, q`tail, q`entry, q`pool, q.next
      ensures Valid() && s == Apply(old(s), MessageQueueRuns.Link(t)) && ok
      ensures Inv(old(s)) && Contents(s) == if urgent then [m] + Contents(old(s)) else Contents(old(s)) + [m]
    {
      hide Inv, Contents;
      ghost var next := q.next[..];
      InFlight(s, t);
      LinkRoom(s, t);
      LinkPool(s, t);
      if urgent {
        ok := q.LinkUrgent(msg);
      } else {
        ok := q.Link(msg);
      }
      StillTerminated(s, MessageQueueRuns.Link(t), next, q.next[..], t, msg);
      LinkOrder(s, t);
      s := Apply(s, MessageQueueRuns.Link(t));
    }

    /** The unlocked copy out. */
    method CopyNode(ghost t: nat, msg: nat, ghost want: Msg) returns (m: Msg)
      requires Valid() && t < |s.th| && s.th[t] == Holding(msg, want)
      modifies this`s
      ensures Valid() && Enabled(old(s), CopyOut(t)) && s == Apply(old(s), CopyOut(t)) && m == want
    {
      hide Inv, Terminated;
      InFlight(s, t);
      m := q.data[msg];
      StillTerminated(s, CopyOut(t), q.next[..], q.next[..], t, NULL);
      StepAll(s, CopyOut(t));
      CopiedRight(s, t);
      s := Apply(s, CopyOut(t));
    }

    /** Second section of a receive. */
    method PutNode(ghost t: nat, msg: nat)
      requires Valid() && Enabled(s, Put(t)) && s.th[t].node == msg
      modifies this`s, q`free, q`pool, q.next
      ensures Valid() && s == Apply(old(s), Put(t))
    {
      hide Inv, Terminated;
      ghost var next := q.next[..];
      InFlight(s, t);
      q.PutFree(msg);
      PutPool(s, t);
      StillTerminated(s, Put(t), next, q.next[..], t, msg);
      StepAll(s, Put(t));
      s := Apply(s, Put(t));
    }

    /** RT_IPC_CMD_RESET */
    method ResetQueue()
      requires Valid()
      modifies this`s, q, q.next
      ensures Valid() && s == Apply(old(s), MessageQueueRuns.Reset)
    {
      hide Inv, Terminated;
      ghost var next := q.next[..];
      q.Reset();
      StillTerminated(s, MessageQueueRuns.Reset, next, q.next[..], 0, NULL);
      StepAll(s, MessageQueueRuns.Reset);
      s := Apply(s, MessageQueueRuns.Reset);
    }

    /** A sleeping thread's timer fires; the nodes are not touched. */
    ghost method Expire(t: nat)
      requires Valid() && Enabled(s, Timeout(t))
      modifies this`s
      ensures Valid() && s == Apply(old(s), Timeout(t))
    {
      hide Inv, Terminated;
      StillTerminated(s, Timeout(t), q.next[..], q.next[..], t, NULL);
      StepAll(s, Timeout(t));
      s := Apply(s, Timeout(t));
    }

    /** Two senders interleaved: both nodes are taken and filled before either is linked,
        and they are queued in the order of the linking sections. */
    method TwoSenders(m: Msg, n: Msg)
      requires q.Valid() && |q.pool.free| >= 2 && q.pool.entry + 2 <= ENTRY_MAX
      modifies q, q.next, q.data
      ensures q.Valid() && q.pool.queue == old(q.pool.queue) + [old(q.pool.free)[1], old(q.pool.free)[0]]
      ensures q.pool.free == old(q.pool.free)[2..] && q.pool.entry == old(q.pool.entry) + 2
    {
      var a := q.TakeFree();
      q.Fill(a, m);
      var b := q.TakeFree();
      q.Fill(b, n);
      var ok := q.Link(b);
      ok := q.Link(a);
    }
  }

  lemma EnterSendPool(s: State, a: Step)
    requires Enabled(s, a) && (a.SendTry? || a.SendRetry? || a.UrgentTry?)
    ensures var z := Apply(s, a);
            && z.data == s.data && a.t < |z.th|
            && z.pool == (if |s.pool.free| > 0 then PopFree(s.pool) else s.pool)
            && Node(z.th[a.t]) == (if |s.pool.free| > 0 then s.pool.free[0] else NULL)
            && (|s.pool.free| > 0 ==> z.th[a.t].Filling? && z.th[a.t].urgent == a.UrgentTry?)
  {
  }

  lemma EntryQueued(s: State)
    requires Inv(s)
    ensures s.pool.entry == |s.pool.queue| == |Contents(s)|
    ensures |s.pool.queue| > 0 ==> s.pool.queue[0] < |s.data| && s.data[s.pool.queue[0]] == Contents(s)[0]
  {
  }

  lemma EnterRecvPool(s: State, a: Step)
    requires Enabled(s, a) && (a.RecvTry? || a.RecvRetry?)
    requires s.pool.entry == |s.pool.queue| && (|s.pool.queue| > 0 ==> s.pool.queue[0] < |s.data|)
    ensures var z := Apply(s, a);
            && z.data == s.data && a.t < |z.th|
            && z.pool == (if s.pool.entry > 0 then PopQueue(s.pool) else s.pool)
            && Node(z.th[a.t]) == (if s.pool.entry > 0 then s.pool.queue[0] else NULL)
            && (s.pool.entry > 0 ==> z.th[a.t] == Holding(s.pool.queue[0], s.data[s.pool.queue[0]]))
  {
  }

  /** The counter is below its limit whenever a node is linked. */
  lemma LinkRoom(s: State, t: nat)
    requires Inv(s) && t < |s.th| && s.th[t].Filled?
    ensures s.pool.entry < ENTRY_MAX
  {
    hide *;
    SoundOf(s);
    LinkSound(s, t);
  }

  lemma LinkOrder(s: State, t: nat)
    requires Inv(s) && t < |s.th| && s.th[t].Filled?
    ensures Inv(Apply(s, MessageQueueRuns.Link(t)))
    ensures Contents(Apply(s, MessageQueueRuns.Link(t)))
            == if s.th[t].urgent then [s.th[t].m] + Contents(s) else Contents(s) + [s.th[t].m]
  {
    hide Conserved, Waiters, Wakeups, Carried, AtMostOnce, Contents, Apply;
    StepAll(s, MessageQueueRuns.Link(t));
    StepQueue(s, MessageQueueRuns.Link(t));
  }

  lemma LinkPool(s: State, t: nat)
    requires t < |s.th| && s.th[t].Filled?
    ensures var z := LinkEnter(s, t);
            && z.data == s.data && |z.th| == |s.th| && !z.th[t].Filled?
            && z.pool == if s.th[t].urgent then LinkHead(s.pool, s.th[t].node) else LinkTail(s.pool, s.th[t].node)
  {
    hide LinkHead, LinkTail;
  }

  lemma SoundOf(s: State)
    requires Inv(s)
    ensures Sound(s) && Carried(s)
  {
  }

  lemma PutPool(s: State, t: nat)
    requires t < |s.th| && s.th[t].Copied?
    ensures var z := Apply(s, Put(t));
            z.data == s.data && z.pool == PushFree(s.pool, s.th[t].node) && |z.th| == |s.th| && !z.th[t].Filled?
  {
  }

  lemma CopiedRight(s: State, t: nat)
    requires Inv(s) && t < |s.th| && s.th[t].Holding? && s.th[t].node < |s.data|
    ensures s.data[s.th[t].node] == s.th[t].want
  {
    SoundOf(s);
    CarriedAt(s, t);
  }
}
