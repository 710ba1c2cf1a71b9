/** Every interleaving of threads (and interrupt handlers) using one message queue.
    A step is one interrupt-disabled section of ipc.c or one unlocked copy. */
module MessageQueueRuns {
  import opened Common
  import opened MessageQueue
  import opened WaitOrder
  import opened Waiting

  /** `nullHead` and `lateFull` record that a NULL head was dereferenced and that the
      -RT_EFULL branch behind a link was taken; `taken` lists tickets in the order
      their messages left the queue. */
  datatype State = State(pool: Pool, data: seq<Msg>, recvWait: seq<nat>, sendWait: seq<nat>, th: seq<Phase>,
                         nextTicket: nat, taken: seq<nat>, nullHead: bool, lateFull: bool)

  /** `block` is a non-zero timeout, `expired` one that has run down to zero, and k the
      place the wait list gives the thread. */
  datatype Step =
    | SendTry(t: nat, body: seq<int>, block: bool, k: nat)
    | SendRetry(t: nat, expired: bool, k: nat)
    | UrgentTry(t: nat, body: seq<int>)
    | Fill(t: nat)
    | Link(t: nat)
    | RecvTry(t: nat, block: bool, k: nat)
    | RecvRetry(t: nat, expired: bool, k: nat)
    | CopyOut(t: nat)
    | Put(t: nat)
    | Timeout(t: nat)
    | Reset

  ghost predicate Enabled(s: State, a: Step) {
    match a
    case SendTry(t, _, _, k) => t < |s.th| && s.th[t].Idle? && k <= |s.sendWait|
    case SendRetry(t, _, k) => t < |s.th| && s.th[t].SendWoken? && k <= |s.sendWait|
    case UrgentTry(t, _) => t < |s.th| && s.th[t].Idle?
    case Fill(t) => t < |s.th| && s.th[t].Filling? && s.th[t].node < |s.data|
    case Link(t) => t < |s.th| && s.th[t].Filled?
    case RecvTry(t, _, k) => t < |s.th| && s.th[t].Idle? && k <= |s.recvWait|
    case RecvRetry(t, _, k) => t < |s.th| && s.th[t].RecvWoken? && k <= |s.recvWait|
    case CopyOut(t) => t < |s.th| && s.th[t].Holding? && s.th[t].node < |s.data|
    case Put(t) => t < |s.th| && s.th[t].Copied?
    case Timeout(t) => t < |s.th| && (s.th[t].RecvWait? || s.th[t].SendWait?)
    case Reset => true
  }

  /** The wait loop and node grab of a send. */
  function SendEnter(s: State, t: nat, m: Msg, block: bool, k: nat): State
    requires t < |s.th| && k <= |s.sendWait|
  {
    if |s.pool.free| > 0 then
      s.(pool := PopFree(s.pool), th := s.th[t := Filling(m, s.pool.free[0], false)])
    else if block then
      s.(sendWait := InsertAt(s.sendWait, k, t), th := s.th[t := SendWait(m)])
    else
      s.(th := s.th[t := Idle])
  }

  function UrgentEnter(s: State, t: nat, m: Msg): State
    requires t < |s.th|
  {
    if |s.pool.free| > 0 then
      s.(pool := PopFree(s.pool), th := s.th[t := Filling(m, s.pool.free[0], true)])
    else
      s
  }

  /** The wait loop and unlinking of a receive; the loop tests `entry`, not the head. */
  function RecvEnter(s: State, t: nat, block: bool, k: nat): State
    requires t < |s.th| && k <= |s.recvWait|
  {
    if s.pool.entry > 0 then
      if |s.pool.queue| > 0 && s.pool.queue[0] < |s.data| then
        var m := s.data[s.pool.queue[0]];
        s.(pool := PopQueue(s.pool), th := s.th[t := Holding(s.pool.queue[0], m)], taken := s.taken + [m.ticket])
      else
        s.(nullHead := true)
    else if block then
      s.(recvWait := InsertAt(s.recvWait, k, t), th := s.th[t := RecvWait])
    else
      s.(th := s.th[t := Idle])
  }

  function ResumeReceiver(s: State): State {
    var r := WakeReceiver(Rooms(s.recvWait, s.sendWait, s.th));
    s.(recvWait := r.recvWait, th := r.th)
  }

  function ResumeSender(s: State): State {
    var r := WakeSender(Rooms(s.recvWait, s.sendWait, s.th));
    s.(sendWait := r.sendWait, th := r.th)
  }

  function LinkEnter(s: State, t: nat): State
    requires t < |s.th| && s.th[t].Filled?
  {
    var f := s.th[t];
    var linked := s.(pool := if f.urgent then LinkHead(s.pool, f.node) else LinkTail(s.pool, f.node),
                     th := s.th[t := Idle]);
    if s.pool.entry < ENTRY_MAX then ResumeReceiver(linked) else linked.(lateFull := true)
  }

  function PutEnter(s: State, t: nat): State
    requires t < |s.th| && s.th[t].Copied?
  {
    ResumeSender(s.(pool := PushFree(s.pool, s.th[t].node), th := s.th[t := Idle]))
  }

  function Apply(s: State, a: Step): State
    requires Enabled(s, a)
  {
    match a
    case SendTry(t, body, block, k) =>
      SendEnter(s, t, Msg(s.nextTicket, body), block, k).(nextTicket := s.nextTicket + 1)
    case SendRetry(t, expired, k) => SendEnter(s, t, s.th[t].m, !expired, k)
    case UrgentTry(t, body) =>
      UrgentEnter(s, t, Msg(s.nextTicket, body)).(nextTicket := s.nextTicket + 1)
    case Fill(t) =>
      var f := s.th[t];
      s.(data := s.data[f.node := f.m], th := s.th[t := Filled(f.m, f.node, f.urgent)])
    case Link(t) => LinkEnter(s, t)
    case RecvTry(t, block, k) => RecvEnter(s, t, block, k)
    case RecvRetry(t, expired, k) => RecvEnter(s, t, !expired, k)
    case CopyOut(t) =>
      var h := s.th[t];
      s.(th := s.th[t := Copied(h.node, h.want, s.data[h.node])])
    case Put(t) => PutEnter(s, t)
    case Timeout(t) =>
      s.(recvWait := Without(s.recvWait, t), sendWait := Without(s.sendWait, t), th := s.th[t := Idle])
    case Reset =>
      s.(pool := Drain(s.pool), recvWait := [], sendWait := [], th := Abandon(s.th))
  }

  // ------------------------------------------------------------ node conservation

  /** The node a thread has in flight, or NULL. */
  function Node(p: Phase): int {
    if p.Filling? || p.Filled? || p.Holding? || p.Copied? then p.node else NULL
  }

  ghost predicate HeldBy(th: seq<Phase>, n: nat) {
    exists t :: 0 <= t < |th| && Node(th[t]) == n
  }

  /** Every node is in exactly one place: free list, queue, or one thread's hands. */
  ghost predicate Partition(s: State) {
    && NoDup(s.pool.free) && NoDup(s.pool.queue)
    && (forall n :: n in s.pool.free ==> n < |s.data| && n !in s.pool.queue)
    && (forall n :: n in s.pool.queue ==> n < |s.data|)
    && (forall t :: 0 <= t < |s.th| && Node(s.th[t]) != NULL ==>
          Node(s.th[t]) < |s.data| && Node(s.th[t]) !in s.pool.free && Node(s.th[t]) !in s.pool.queue)
    && (forall t, u :: 0 <= t < u < |s.th| && Node(s.th[t]) != NULL ==> Node(s.th[t]) != Node(s.th[u]))
    && (forall n: nat :: n < |s.data| ==> n in s.pool.free || n in s.pool.queue || HeldBy(s.th, n))
  }

  /** The counter is the length of the queue, and no receiver can miss that. */
  ghost predicate Counts(s: State) {
    && s.pool.entry == |s.pool.queue|
    && |s.data| <= ENTRY_MAX
    && !s.nullHead && !s.lateFull
  }

  ghost predicate Conserved(s: State) {
    Partition(s) && Counts(s)
  }

  /** Moving node n between a list and thread t, seen from every other thread. */
  ghost predicate Others(th: seq<Phase>, th': seq<Phase>, t: nat) {
    |th'| == |th| && t < |th| && forall u :: 0 <= u < |th| && u != t ==> Node(th'[u]) == Node(th[u])
  }

  /** Threads other than t keep their nodes, so those stay where they were. */
  lemma StillHeld(th: seq<Phase>, th': seq<Phase>, t: nat, n: nat)
    requires Others(th, th', t) && HeldBy(th, n) && (Node(th[t]) != n || Node(th'[t]) == n)
    ensures HeldBy(th', n)
  {
    var u :| 0 <= u < |th| && Node(th[u]) == n;
    assert Node(th'[u]) == n;
  }

  lemma ReverseOf(q: seq<nat>, f: seq<nat>)
    requires NoDup(q) && NoDup(f) && forall n :: n in f ==> n !in q
    ensures NoDup(Reverse(q) + f) && forall n :: n in Reverse(q) + f <==> n in q || n in f
  {
    var r := Reverse(q);
    forall n: nat ensures n in r <==> n in q {
      if n in q {
        var i :| 0 <= i < |q| && q[i] == n;
        assert r[|q| - 1 - i] == n;
      }
    }
    forall i, j | 0 <= i < j < |r + f| ensures (r + f)[i] != (r + f)[j] {
      if j < |r| {
        assert q[|q| - 1 - j] != q[|q| - 1 - i];
      } else if i < |r| {
        assert (r + f)[i] in r && (r + f)[j] in f;
      }
    }
  }

  /** Only thread t's phase and possibly its node changed hands with the free list head. */
  lemma GrabFree(s: State, s': State, t: nat)
    requires Conserved(s) && |s.pool.free| > 0 && t < |s.th| && Node(s.th[t]) == NULL
    requires s'.pool == PopFree(s.pool) && s'.data == s.data && s'.nullHead == s.nullHead && s'.lateFull == s.lateFull
    requires Others(s.th, s'.th, t) && Node(s'.th[t]) == s.pool.free[0]
    ensures Conserved(s')
  {
    var x := s.pool.free[0];
    TailOf(s.pool.free);
    assert s'.pool.free == s.pool.free[1..] && s'.pool.queue == s.pool.queue;
    assert HeldBy(s'.th, x) && (x in s.pool.free || x in s.pool.queue);
    forall u | 0 <= u < |s.th| && Node(s'.th[u]) != NULL
      ensures Node(s'.th[u]) < |s.data| && Node(s'.th[u]) !in s'.pool.free && Node(s'.th[u]) !in s'.pool.queue
    {
      if u != t { assert Node(s.th[u]) !in s.pool.free && Node(s.th[u]) !in s.pool.queue; }
    }
    forall n: nat | n < |s.data| && HeldBy(s.th, n) ensures HeldBy(s'.th, n) {
      StillHeld(s.th, s'.th, t, n);
    }
  }

  /** Nothing but phases changed, and no thread's node did. */
  lemma SameNodes(s: State, s': State)
    requires Conserved(s)
    requires s'.pool == s.pool && |s'.data| == |s.data| && s'.nullHead == s.nullHead && s'.lateFull == s.lateFull
    requires |s'.th| == |s.th| && forall u :: 0 <= u < |s.th| ==> Node(s'.th[u]) == Node(s.th[u])
    ensures Conserved(s')
  {
    forall n: nat | n < |s.data| && HeldBy(s.th, n) ensures HeldBy(s'.th, n) {
      var u :| 0 <= u < |s.th| && Node(s.th[u]) == n;
      assert Node(s'.th[u]) == n;
    }
  }

  lemma GrabQueued(s: State, s': State, t: nat)
    requires Conserved(s) && |s.pool.queue| > 0 && t < |s.th| && Node(s.th[t]) == NULL
    requires s'.pool == PopQueue(s.pool) && s'.data == s.data && s'.nullHead == s.nullHead && s'.lateFull == s.lateFull
    requires Others(s.th, s'.th, t) && Node(s'.th[t]) == s.pool.queue[0]
    ensures Conserved(s')
  {
    var x := s.pool.queue[0];
    TailOf(s.pool.queue);
    assert s'.pool.queue == s.pool.queue[1..] && s'.pool.free == s.pool.free;
    assert HeldBy(s'.th, x) && (x in s.pool.free || x in s.pool.queue);
    forall u | 0 <= u < |s.th| && Node(s'.th[u]) != NULL
      ensures Node(s'.th[u]) < |s.data| && Node(s'.th[u]) !in s'.pool.free && Node(s'.th[u]) !in s'.pool.queue
    {
      if u != t { assert Node(s.th[u]) !in s.pool.free && Node(s.th[u]) !in s.pool.queue; }
    }
    forall n: nat | n < |s.data| && HeldBy(s.th, n) ensures HeldBy(s'.th, n) {
      StillHeld(s.th, s'.th, t, n);
    }
  }

  lemma GiveFree(s: State, s': State, t: nat)
    requires Conserved(s) && t < |s.th| && Node(s.th[t]) != NULL
    requires s'.pool == PushFree(s.pool, Node(s.th[t])) && s'.data == s.data
    requires s'.nullHead == s.nullHead && s'.lateFull == s.lateFull
    requires Others(s.th, s'.th, t) && Node(s'.th[t]) == NULL
    ensures Conserved(s')
  {
    var x := Node(s.th[t]);
    assert s'.pool.free == [x as nat] + s.pool.free;
    forall n: nat | n < |s.data| && n != x && HeldBy(s.th, n) ensures HeldBy(s'.th, n) {
      StillHeld(s.th, s'.th, t, n);
    }
  }

  /** Distinct numbers below n: there are at most n of them. */
  lemma {:induction false} Pigeonhole(q: seq<nat>, n: nat)
    requires NoDup(q) && forall x :: x in q ==> x < n
    ensures |q| <= n
    decreases n
  {
    hide Without;
    if |q| > 0 {
      assert q[0] in q;
      WithoutNoDup(q, n - 1);
      Pigeonhole(Without(q, n - 1), n - 1);
    }
  }

  lemma GiveQueued(s: State, s': State, t: nat, urgent: bool)
    requires Conserved(s) && t < |s.th| && Node(s.th[t]) != NULL
    requires s'.pool == (if urgent then LinkHead(s.pool, Node(s.th[t])) else LinkTail(s.pool, Node(s.th[t])))
    requires s'.data == s.data && s'.nullHead == s.nullHead && s'.lateFull == s.lateFull
    requires Others(s.th, s'.th, t) && Node(s'.th[t]) == NULL
    ensures s.pool.entry < ENTRY_MAX && Conserved(s')
  {
    var x: nat := Node(s.th[t]);
    assert s'.pool.queue == if urgent then [x] + s.pool.queue else s.pool.queue + [x];
    assert NoDup(s'.pool.queue);
    forall n | n in s'.pool.queue ensures n < |s.data| {
      if n != x { assert n in s.pool.queue; }
    }
    Pigeonhole(s'.pool.queue, |s.data|);
    forall n: nat | n < |s.data| && n != x && HeldBy(s.th, n) ensures HeldBy(s'.th, n) {
      StillHeld(s.th, s'.th, t, n);
    }
  }

  lemma DrainConserved(s: State, s': State)
    requires Conserved(s)
    requires s'.pool == Drain(s.pool) && s'.data == s.data && s'.nullHead == s.nullHead && s'.lateFull == s.lateFull
    requires |s'.th| == |s.th| && forall u :: 0 <= u < |s.th| ==> Node(s'.th[u]) == Node(s.th[u])
    ensures Conserved(s')
  {
    ReverseOf(s.pool.queue, s.pool.free);
    forall n: nat | n < |s.data| && HeldBy(s.th, n) ensures HeldBy(s'.th, n) {
      var u :| 0 <= u < |s.th| && Node(s.th[u]) == n;
      assert Node(s'.th[u]) == n;
    }
  }

  // ------------------------------------------------------------ suspended threads

  /** The wait lists hold exactly the suspended threads, each once. */
  ghost predicate Waiters(s: State) {
    Listed(Rooms(s.recvWait, s.sendWait, s.th))
  }

  /** No lost wakeup: while a receiver sleeps, every queued message has a woken
      receiver on its way to it; while a sender sleeps, every free node has a woken
      sender on its way. */
  ghost predicate Wakeups(s: State) {
    && (|s.recvWait| > 0 ==> s.pool.entry <= Count(s.th, Receivers))
    && (|s.sendWait| > 0 ==> |s.pool.free| <= Count(s.th, Senders))
  }

  /** What the counters, the wait lists and the woken threads always satisfy. */
  ghost predicate Sound(s: State) {
    Conserved(s) && Waiters(s) && Wakeups(s)
  }

  ghost predicate Attended(s: State) {
    Waiters(s) && Wakeups(s)
  }

  lemma SendWaiting(s: State, t: nat, m: Msg, block: bool, k: nat)
    requires Attended(s) && t < |s.th| && k <= |s.sendWait| && (s.th[t].Idle? || s.th[t].SendWoken?)
    ensures Attended(SendEnter(s, t, m, block, k))
  {
    hide PopFree;
    CountUpdate(s.th, t, SendEnter(s, t, m, block, k).th[t]);
    if |s.pool.free| == 0 {
      InsertNoDup(s.sendWait, k, t);
    } else {
      PopFreeIs(s.pool);
    }
  }

  lemma PopFreeIs(p: Pool)
    requires |p.free| > 0
    ensures |PopFree(p).free| == |p.free| - 1 && PopFree(p).entry == p.entry
  {
  }

  lemma SendSound(s: State, t: nat, m: Msg, block: bool, k: nat)
    requires Sound(s) && t < |s.th| && k <= |s.sendWait| && (s.th[t].Idle? || s.th[t].SendWoken?)
    ensures Sound(SendEnter(s, t, m, block, k))
  {
    hide Waiters, Wakeups, Partition;
    var s' := SendEnter(s, t, m, block, k);
    SendWaiting(s, t, m, block, k);
    if |s.pool.free| > 0 { GrabFree(s, s', t); } else { SameNodes(s, s'); }
  }

  lemma UrgentSound(s: State, t: nat, m: Msg)
    requires Sound(s) && t < |s.th| && s.th[t].Idle?
    ensures Sound(UrgentEnter(s, t, m))
  {
    hide Partition, Listed, Count, PopFree;
    var s' := UrgentEnter(s, t, m);
    if |s.pool.free| > 0 {
      var r := Rooms(s.recvWait, s.sendWait, s.th);
      CountUpdate(s.th, t, s'.th[t]);
      AwakeListed(r, t, s'.th[t]);
      PopFreeIs(s.pool);
      GrabFree(s, s', t);
    }
  }

  lemma RecvWaiting(s: State, t: nat, block: bool, k: nat)
    requires Attended(s) && t < |s.th| && k <= |s.recvWait| && (s.th[t].Idle? || s.th[t].RecvWoken?)
    requires s.pool.entry > 0 ==> |s.pool.queue| > 0 && s.pool.queue[0] < |s.data|
    ensures Attended(RecvEnter(s, t, block, k))
  {
    CountUpdate(s.th, t, RecvEnter(s, t, block, k).th[t]);
    if s.pool.entry == 0 { InsertNoDup(s.recvWait, k, t); }
  }

  lemma QueuedNode(s: State)
    requires Conserved(s) && s.pool.entry > 0
    ensures |s.pool.queue| > 0 && s.pool.queue[0] < |s.data|
  {
    assert s.pool.queue[0] in s.pool.queue;
  }

  lemma RecvSound(s: State, t: nat, block: bool, k: nat)
    requires Sound(s) && t < |s.th| && k <= |s.recvWait| && (s.th[t].Idle? || s.th[t].RecvWoken?)
    ensures Sound(RecvEnter(s, t, block, k))
  {
    hide Waiters, Wakeups, Partition;
    var s' := RecvEnter(s, t, block, k);
    if s.pool.entry > 0 {
      QueuedNode(s);
      GrabQueued(s, s', t);
    } else {
      SameNodes(s, s');
    }
    RecvWaiting(s, t, block, k);
  }

  lemma LinkGrows(p: Pool, n: nat)
    requires p.entry < ENTRY_MAX
    ensures LinkHead(p, n).entry == LinkTail(p, n).entry == p.entry + 1
    ensures LinkHead(p, n).free == LinkTail(p, n).free == p.free
  {
  }

  lemma LinkWaiting(s: State, t: nat)
    requires Attended(s) && t < |s.th| && s.th[t].Filled? && s.pool.entry < ENTRY_MAX
    ensures Attended(LinkEnter(s, t))
  {
    hide Listed, Count, WakeReceiver, LinkHead, LinkTail;
    LinkGrows(s.pool, s.th[t].node);
    var r := Rooms(s.recvWait, s.sendWait, s.th);
    CountUpdate(s.th, t, Idle);
    IdleListed(r, t);
    WakeReceiverKeeps(r.(th := s.th[t := Idle]));
  }

  lemma LinkSound(s: State, t: nat)
    requires Sound(s) && t < |s.th| && s.th[t].Filled?
    ensures Sound(LinkEnter(s, t)) && s.pool.entry < ENTRY_MAX
  {
    hide Wakeups, Partition;
    var s' := LinkEnter(s, t);
    var mid := s.(pool := s'.pool, th := s.th[t := Idle]);
    GiveQueued(s, mid, t, s.th[t].urgent);
    LinkWaiting(s, t);
    if |s.recvWait| > 0 { assert s.recvWait[0] in s.recvWait; }
    SameNodes(mid, s');
  }

  lemma PutWaiting(s: State, t: nat)
    requires Attended(s) && t < |s.th| && s.th[t].Copied?
    ensures Attended(PutEnter(s, t))
  {
    hide Listed, Count, WakeSender;
    var r := Rooms(s.recvWait, s.sendWait, s.th);
    CountUpdate(s.th, t, Idle);
    IdleListed(r, t);
    WakeSenderKeeps(r.(th := s.th[t := Idle]));
  }

  lemma PutSound(s: State, t: nat)
    requires Sound(s) && t < |s.th| && s.th[t].Copied?
    ensures Sound(PutEnter(s, t))
  {
    hide Wakeups, Partition;
    var s' := PutEnter(s, t);
    var mid := s.(pool := s'.pool, th := s.th[t := Idle]);
    GiveFree(s, mid, t);
    PutWaiting(s, t);
    if |s.sendWait| > 0 { assert s.sendWait[0] in s.sendWait; }
    SameNodes(mid, s');
  }

  lemma StepSound(s: State, a: Step)
    requires Sound(s) && Enabled(s, a)
    ensures Sound(Apply(s, a))
  {
    hide Conserved, Waiters, Wakeups, SendEnter, UrgentEnter, RecvEnter, LinkEnter, PutEnter;
    match a {
      case SendTry(t, body, block, k) => 
        SendSound(s, t, Msg(s.nextTicket, body), block, k);
        TicketSound(SendEnter(s, t, Msg(s.nextTicket, body), block, k), s.nextTicket + 1);
      case SendRetry(t, expired, k) => SendSound(s, t, s.th[t].m, !expired, k);
      case UrgentTry(t, body) =>
        UrgentSound(s, t, Msg(s.nextTicket, body));
        TicketSound(UrgentEnter(s, t, Msg(s.nextTicket, body)), s.nextTicket + 1);
      case RecvTry(t, block, k) => RecvSound(s, t, block, k);
      case RecvRetry(t, expired, k) => RecvSound(s, t, !expired, k);
      case Link(t) => LinkSound(s, t);
      case Put(t) => PutSound(s, t);
      case Fill(t) => CopySound(s, a, t);
      case CopyOut(t) => CopySound(s, a, t);
      case Timeout(t) => TimeoutSound(s, t);
      case Reset => ResetSound(s);
    }
  }

  lemma TicketSound(s: State, ticket: nat)
    requires Sound(s)
    ensures Sound(s.(nextTicket := ticket))
  {
  }

  lemma CopySound(s: State, a: Step, t: nat)
    requires Sound(s) && Enabled(s, a) && (a == Fill(t) || a == CopyOut(t))
    ensures Sound(Apply(s, a))
  {
    hide Partition;
    CountUpdate(s.th, t, Apply(s, a).th[t]);
    SameNodes(s, Apply(s, a));
  }

  lemma TimeoutSound(s: State, t: nat)
    requires Sound(s) && Enabled(s, Timeout(t))
    ensures Sound(Apply(s, Timeout(t)))
  {
    hide Without, Partition;
    WithoutNoDup(s.recvWait, t);
    WithoutNoDup(s.sendWait, t);
    CountUpdate(s.th, t, Idle);
    SameNodes(s, Apply(s, Timeout(t)));
  }

  lemma ResetSound(s: State)
    requires Sound(s)
    ensures Sound(Apply(s, Reset))
  {
    DrainConserved(s, Apply(s, Reset));
  }

  // ------------------------------------------------------------ contents and order

  /** The messages queued, front first. */
  ghost function Contents(s: State): (c: seq<Msg>)
    requires Conserved(s)
    ensures |c| == |s.pool.queue|
    ensures forall i :: 0 <= i < |c| ==> s.pool.queue[i] < |s.data| && c[i] == s.data[s.pool.queue[i]]
  {
    assert forall i :: 0 <= i < |s.pool.queue| ==> s.pool.queue[i] in s.pool.queue;
    seq(|s.pool.queue|, i requires 0 <= i < |s.pool.queue| => s.data[s.pool.queue[i]])
  }

  /** What a step does to a plain queue of messages. */
  datatype Act = Append(m: Msg) | Prepend(m: Msg) | Remove | Clear | Stutter

  function Effect(s: State, a: Step): Act
    requires Enabled(s, a)
  {
    match a
    case Link(t) => if s.th[t].urgent then Prepend(s.th[t].m) else Append(s.th[t].m)
    case RecvTry(_, _, _) => if s.pool.entry > 0 then Remove else Stutter
    case RecvRetry(_, _, _) => if s.pool.entry > 0 then Remove else Stutter
    case Reset => Clear
    case _ => Stutter
  }

  /** A plain queue of messages. */
  function Play(c: seq<Msg>, act: Act): seq<Msg> {
    match act
    case Append(m) => c + [m]
    case Prepend(m) => [m] + c
    case Remove => if |c| > 0 then c[1..] else c
    case Clear => []
    case Stutter => c
  }

  function PlayAll(c: seq<Msg>, acts: seq<Act>): seq<Msg>
    decreases |acts|
  {
    if |acts| == 0 then c else PlayAll(Play(c, acts[0]), acts[1..])
  }

  /** The messages a plain queue hands out, in order. */
  function Served(c: seq<Msg>, acts: seq<Act>): seq<Msg>
    decreases |acts|
  {
    if |acts| == 0 then []
    else (if acts[0].Remove? && |c| > 0 then [c[0]] else []) + Served(Play(c, acts[0]), acts[1..])
  }

  /** Bytes in flight are where their thread believes them to be. */
  ghost predicate CarriedBy(p: Phase, data: seq<Msg>) {
    && (p.Filled? ==> p.node < |data| && data[p.node] == p.m)
    && (p.Holding? ==> p.node < |data| && data[p.node] == p.want)
    && (p.Copied? ==> p.got == p.want)
  }

  ghost predicate Carried(s: State) {
    forall t :: 0 <= t < |s.th| ==> CarriedBy(s.th[t], s.data)
  }

  /** Filling an owned node changes neither the queue's contents nor anyone's bytes. */
  lemma FillCarried(s: State, t: nat)
    requires Conserved(s) && Carried(s) && Enabled(s, Fill(t)) && Conserved(Apply(s, Fill(t)))
    ensures Carried(Apply(s, Fill(t))) && Contents(Apply(s, Fill(t))) == Contents(s)
  {
    var s' := Apply(s, Fill(t));
    forall u | 0 <= u < |s.th| ensures CarriedBy(s'.th[u], s'.data) {
      assert CarriedBy(s.th[u], s.data);
      if u < t { assert Node(s.th[u]) != NULL ==> Node(s.th[u]) != Node(s.th[t]); }
      if u > t { assert Node(s.th[t]) != Node(s.th[u]); }
    }
    assert Node(s.th[t]) !in s.pool.queue;
    forall i | 0 <= i < |s.pool.queue| ensures Contents(s')[i] == Contents(s)[i] {
      assert s.pool.queue[i] in s.pool.queue;
    }
  }

  /** Steps that leave node bytes alone carry them on. */
  lemma SameCarried(s: State, s': State)
    requires Carried(s) && s'.data == s.data && |s'.th| == |s.th|
    requires forall u :: 0 <= u < |s.th| ==> s'.th[u] == s.th[u] || CarriedBy(s'.th[u], s.data)
    ensures Carried(s')
  {
    forall u | 0 <= u < |s'.th| ensures CarriedBy(s'.th[u], s'.data) {
      assert CarriedBy(s.th[u], s.data);
    }
  }

  /** Steps that neither link nor unlink keep the queue and every other thread. */
  lemma SendFrame(s: State, t: nat, m: Msg, block: bool, k: nat)
    requires t < |s.th| && k <= |s.sendWait|
    ensures var s' := SendEnter(s, t, m, block, k);
            s'.data == s.data && s'.pool.queue == s.pool.queue && |s'.th| == |s.th| && s'.taken == s.taken
            && (s'.th[t] == SendWait(m) || (s'.th[t].Filling? && s'.th[t].m == m) || s'.th[t] == Idle)
            && s'.th == s.th[t := s'.th[t]] && s'.nextTicket == s.nextTicket
  {
  }

  lemma UrgentFrame(s: State, t: nat, m: Msg)
    requires t < |s.th|
    ensures var s' := UrgentEnter(s, t, m);
            s'.data == s.data && s'.pool.queue == s.pool.queue && |s'.th| == |s.th| && s'.taken == s.taken
            && ((s'.th[t].Filling? && s'.th[t].m == m) || s'.th[t] == s.th[t])
            && s'.th == s.th[t := s'.th[t]] && s'.nextTicket == s.nextTicket
  {
  }

  lemma RecvFrame(s: State, t: nat, block: bool, k: nat)
    requires Conserved(s) && t < |s.th| && k <= |s.recvWait|
    ensures var s' := RecvEnter(s, t, block, k);
            && s'.data == s.data && |s'.th| == |s.th| && s'.th == s.th[t := s'.th[t]] && s'.nextTicket == s.nextTicket
            && if s.pool.entry > 0 then
                 && |s.pool.queue| > 0 && s'.pool.queue == s.pool.queue[1..] && s.pool.queue[0] < |s.data|
                 && s'.th[t] == Holding(s.pool.queue[0], s.data[s.pool.queue[0]])
                 && s'.taken == s.taken + [s.data[s.pool.queue[0]].ticket]
               else
                 && s'.pool.queue == s.pool.queue && (s'.th[t] == RecvWait || s'.th[t] == Idle) && s'.taken == s.taken
  {
    if s.pool.entry > 0 { QueuedNode(s); }
  }

  lemma LinkFrame(s: State, t: nat)
    requires t < |s.th| && s.th[t].Filled? && Waiters(s)
    ensures var s' := LinkEnter(s, t);
            && s'.data == s.data && |s'.th| == |s.th| && s'.th[t] == Idle && s'.taken == s.taken
            && s'.nextTicket == s.nextTicket
            && s'.pool.queue ==
               (if s.th[t].urgent then [s.th[t].node] + s.pool.queue else s.pool.queue + [s.th[t].node])
            && forall u :: 0 <= u < |s.th| && u != t ==>
                 s'.th[u] == s.th[u] || (s'.th[u] == RecvWoken && s.th[u] == RecvWait)
  {
    if |s.recvWait| > 0 { assert s.recvWait[0] in s.recvWait; }
  }

  lemma PutFrame(s: State, t: nat)
    requires t < |s.th| && s.th[t].Copied? && Waiters(s)
    ensures var s' := PutEnter(s, t);
            && s'.data == s.data && |s'.th| == |s.th| && s'.th[t] == Idle && s'.pool.queue == s.pool.queue
            && s'.taken == s.taken && s'.nextTicket == s.nextTicket
            && forall u :: 0 <= u < |s.th| && u != t ==>
                 s'.th[u] == s.th[u] || (s.th[u].SendWait? && s'.th[u] == SendWoken(s.th[u].m))
  {
    if |s.sendWait| > 0 { assert s.sendWait[0] in s.sendWait; }
  }

  lemma SendCarried(s: State, t: nat, m: Msg, block: bool, k: nat)
    requires Carried(s) && t < |s.th| && k <= |s.sendWait|
    ensures Carried(SendEnter(s, t, m, block, k))
  {
    hide Carried, SendEnter;
    SendFrame(s, t, m, block, k);
    SameCarried(s, SendEnter(s, t, m, block, k));
  }

  lemma RecvCarried(s: State, t: nat, block: bool, k: nat)
    requires Conserved(s) && Carried(s) && t < |s.th| && k <= |s.recvWait|
    ensures Carried(RecvEnter(s, t, block, k))
  {
    hide Conserved, Carried, RecvEnter;
    RecvFrame(s, t, block, k);
    SameCarried(s, RecvEnter(s, t, block, k));
  }

  lemma StepCarried(s: State, a: Step)
    requires Sound(s) && Carried(s) && Enabled(s, a)
    ensures Carried(Apply(s, a))
  {
    hide Conserved, Waiters, Wakeups, Carried, SendEnter, UrgentEnter, RecvEnter, LinkEnter, PutEnter, Drain;
    StepSound(s, a);
    match a {
      case Fill(t) => FillCarried(s, t);
      case CopyOut(t) => CopyCarried(s, t);
      case SendTry(t, body, block, k) =>
        SendCarried(s, t, Msg(s.nextTicket, body), block, k);
        SameCarried(SendEnter(s, t, Msg(s.nextTicket, body), block, k), Apply(s, a));
      case SendRetry(t, expired, k) => SendCarried(s, t, s.th[t].m, !expired, k);
      case UrgentTry(t, body) =>
        UrgentFrame(s, t, Msg(s.nextTicket, body));
        SameCarried(s, Apply(s, a));
      case RecvTry(t, block, k) => RecvCarried(s, t, block, k);
      case RecvRetry(t, expired, k) => RecvCarried(s, t, !expired, k);
      case Link(t) =>
        LinkFrame(s, t);
        SameCarried(s, Apply(s, a));
      case Put(t) =>
        PutFrame(s, t);
        SameCarried(s, Apply(s, a));
      case Timeout(t) => SameCarried(s, Apply(s, a));
      case Reset => SameCarried(s, Apply(s, a));
    }
  }

  lemma CopyCarried(s: State, t: nat)
    requires Carried(s) && Enabled(s, CopyOut(t))
    ensures Carried(Apply(s, CopyOut(t)))
  {
    assert CarriedBy(s.th[t], s.data);
    SameCarried(s, Apply(s, CopyOut(t)));
  }

  /** Each step does to the queued messages what a plain queue would do: ordinary
      messages are appended and urgent ones put in front when they are linked, a
      receive takes the front message, and nothing else changes contents or order. */
  lemma StepOrder(s: State, a: Step)
    requires Sound(s) && Carried(s) && Enabled(s, a)
    ensures Sound(Apply(s, a)) && Contents(Apply(s, a)) == Play(Contents(s), Effect(s, a))
  {
    hide Conserved, Waiters, Wakeups, Carried, SendEnter, UrgentEnter, RecvEnter, LinkEnter, PutEnter, Contents;
    StepSound(s, a);
    var s' := Apply(s, a);
    match a {
      case Fill(t) => FillCarried(s, t);
      case SendTry(t, body, block, k) =>
        SendFrame(s, t, Msg(s.nextTicket, body), block, k);
        QuietContents(s, s');
      case SendRetry(t, expired, k) =>
        SendFrame(s, t, s.th[t].m, !expired, k);
        QuietContents(s, s');
      case UrgentTry(t, body) =>
        UrgentFrame(s, t, Msg(s.nextTicket, body));
        QuietContents(s, s');
      case RecvTry(t, block, k) => RecvContents(s, t, block, k);
      case RecvRetry(t, expired, k) => RecvContents(s, t, !expired, k);
      case Link(t) => LinkContents(s, t);
      case Put(t) =>
        PutFrame(s, t);
        QuietContents(s, s');
      case CopyOut(_) => QuietContents(s, s');
      case Timeout(_) => QuietContents(s, s');
      case Reset => NoContents(s');
    }
  }

  lemma QuietContents(s: State, s': State)
    requires Conserved(s) && Conserved(s') && s'.data == s.data && s'.pool.queue == s.pool.queue
    ensures Contents(s') == Contents(s)
  {
  }

  lemma NoContents(s: State)
    requires Conserved(s) && s.pool.queue == []
    ensures Contents(s) == []
  {
  }

  lemma RecvContents(s: State, t: nat, block: bool, k: nat)
    requires Conserved(s) && t < |s.th| && k <= |s.recvWait| && Conserved(RecvEnter(s, t, block, k))
    ensures Contents(RecvEnter(s, t, block, k)) == Play(Contents(s), if s.pool.entry > 0 then Remove else Stutter)
  {
    hide Partition, RecvEnter;
    RecvFrame(s, t, block, k);
  }

  lemma LinkContents(s: State, t: nat)
    requires Conserved(s) && Waiters(s) && Carried(s) && t < |s.th| && s.th[t].Filled? && Conserved(LinkEnter(s, t))
    ensures Contents(LinkEnter(s, t)) == Play(Contents(s), Effect(s, Link(t)))
  {
    hide Partition, LinkEnter, Waiters, Carried;
    LinkFrame(s, t);
    CarriedAt(s, t);
  }

  /** The message of a receive is the front one. */
  lemma StepTaken(s: State, a: Step)
    requires Sound(s) && Enabled(s, a)
    ensures Effect(s, a).Remove? ==> |Contents(s)| > 0
    ensures Apply(s, a).taken == s.taken + if Effect(s, a).Remove? then [Contents(s)[0].ticket] else []
  {
    hide Waiters, Wakeups, Partition, SendEnter, UrgentEnter, RecvEnter, LinkEnter, PutEnter, Without;
    match a {
      case SendTry(t, body, block, k) => SendFrame(s, t, Msg(s.nextTicket, body), block, k);
      case SendRetry(t, expired, k) => SendFrame(s, t, s.th[t].m, !expired, k);
      case UrgentTry(t, body) => UrgentFrame(s, t, Msg(s.nextTicket, body));
      case RecvTry(t, block, k) => RecvFrame(s, t, block, k);
      case RecvRetry(t, expired, k) => RecvFrame(s, t, !expired, k);
      case Link(t) => LinkFrame(s, t);
      case Put(t) => PutFrame(s, t);
      case Fill(_) =>
      case CopyOut(_) =>
      case Timeout(_) =>
      case Reset =>
    }
  }

  lemma CarriedAt(s: State, t: nat)
    requires Carried(s) && t < |s.th|
    ensures CarriedBy(s.th[t], s.data)
  {
  }

  // ------------------------------------------------------------ at most once

  /** Ticket of a message its sender has not linked yet, or NULL. */
  function Pending(p: Phase): int {
    if p.SendWait? || p.SendWoken? || p.Filling? || p.Filled? then p.m.ticket else NULL
  }

  function Tickets(c: seq<Msg>): (r: seq<nat>)
    ensures |r| == |c| && forall i :: 0 <= i < |c| ==> r[i] == c[i].ticket
  {
    seq(|c|, i requires 0 <= i < |c| => c[i].ticket)
  }

  /** Every ticket is in at most one place: with its sender, in the queue, or taken;
      and never twice in any of them. */
  ghost predicate Unique(th: seq<Phase>, queued: seq<nat>, taken: seq<nat>, next: nat) {
    && NoDup(queued) && NoDup(taken)
    && (forall x :: x in queued ==> x < next && x !in taken)
    && (forall x :: x in taken ==> x < next)
    && (forall t :: 0 <= t < |th| && Pending(th[t]) != NULL ==>
          Pending(th[t]) < next && Pending(th[t]) !in queued && Pending(th[t]) !in taken)
    && (forall t, u :: 0 <= t < u < |th| && Pending(th[t]) != NULL ==> Pending(th[t]) != Pending(th[u]))
  }

  ghost predicate AtMostOnce(s: State)
    requires Conserved(s)
  {
    Unique(s.th, Tickets(Contents(s)), s.taken, s.nextTicket)
  }

  /** Pending tickets may be dropped. */
  lemma UniqueFewer(th: seq<Phase>, th': seq<Phase>, q: seq<nat>, taken: seq<nat>, next: nat)
    requires Unique(th, q, taken, next) && |th'| == |th|
    requires forall t :: 0 <= t < |th| ==> Pending(th'[t]) == Pending(th[t]) || Pending(th'[t]) == NULL
    ensures Unique(th', q, taken, next)
  {
  }

  /** A new ticket, handed to thread t. */
  lemma UniqueNew(th: seq<Phase>, th': seq<Phase>, t: nat, q: seq<nat>, taken: seq<nat>, next: nat)
    requires Unique(th, q, taken, next) && t < |th| == |th'|
    requires forall u :: 0 <= u < |th| && u != t ==> Pending(th'[u]) == Pending(th[u])
    requires Pending(th'[t]) == next || Pending(th'[t]) == NULL
    ensures Unique(th', q, taken, next + 1)
  {
  }

  /** Linking moves thread t's ticket into the queue. */
  lemma UniqueLink(th: seq<Phase>, th': seq<Phase>, t: nat, q: seq<nat>, q': seq<nat>, taken: seq<nat>, next: nat)
    requires Unique(th, q, taken, next) && t < |th| == |th'| && Pending(th[t]) != NULL && Pending(th'[t]) == NULL
    requires forall u :: 0 <= u < |th| && u != t ==> Pending(th'[u]) == Pending(th[u])
    requires q' == q + [Pending(th[t]) as nat] || q' == [Pending(th[t]) as nat] + q
    ensures Unique(th', q', taken, next)
  {
    assert NoDup(q');
    forall x ensures x in q' <==> x in q || x == Pending(th[t]) {}
    forall u | 0 <= u < |th| && Pending(th'[u]) != NULL ensures Pending(th'[u]) !in q' {
      if u < t { assert Pending(th[u]) != Pending(th[t]); } else { assert Pending(th[t]) != Pending(th[u]); }
    }
  }

  /** A receive moves the front ticket to the taken ones. */
  lemma UniqueTake(th: seq<Phase>, th': seq<Phase>, q: seq<nat>, taken: seq<nat>, next: nat)
    requires Unique(th, q, taken, next) && |th'| == |th| && |q| > 0
    requires forall t :: 0 <= t < |th| ==> Pending(th'[t]) == Pending(th[t]) || Pending(th'[t]) == NULL
    ensures Unique(th', q[1..], taken + [q[0]], next)
  {
    TailOf(q);
    assert q[0] in q;
    assert NoDup(taken + [q[0]]);
  }

  lemma UniqueClear(th: seq<Phase>, q: seq<nat>, taken: seq<nat>, next: nat)
    requires Unique(th, q, taken, next)
    ensures Unique(th, [], taken, next)
  {
  }

  /** A step that gives out no ticket and moves none. */
  lemma QuietAtMostOnce(s: State, s': State)
    requires Conserved(s) && Conserved(s') && AtMostOnce(s) && s'.taken == s.taken && s'.nextTicket == s.nextTicket
    requires Contents(s') == Contents(s) || Contents(s') == []
    requires |s'.th| == |s.th|
    requires forall t :: 0 <= t < |s.th| ==> Pending(s'.th[t]) == Pending(s.th[t]) || Pending(s'.th[t]) == NULL
    ensures AtMostOnce(s')
  {
    hide Unique, Conserved;
    var q := Tickets(Contents(s));
    UniqueFewer(s.th, s'.th, q, s.taken, s.nextTicket);
    UniqueClear(s'.th, q, s.taken, s.nextTicket);
    if Contents(s') == [] { assert Tickets(Contents(s')) == []; }
  }

  lemma NewAtMostOnce(s: State, s': State, t: nat)
    requires Conserved(s) && Conserved(s') && AtMostOnce(s) && s'.taken == s.taken && s'.nextTicket == s.nextTicket + 1
    requires Contents(s') == Contents(s) && t < |s.th| == |s'.th| && s'.th == s.th[t := s'.th[t]]
    requires Pending(s'.th[t]) == s.nextTicket || Pending(s'.th[t]) == NULL
    ensures AtMostOnce(s')
  {
    hide Unique, Conserved;
    UniqueNew(s.th, s'.th, t, Tickets(Contents(s)), s.taken, s.nextTicket);
  }

  lemma TicketsWith(c: seq<Msg>, m: Msg)
    ensures Tickets(c + [m]) == Tickets(c) + [m.ticket] && Tickets([m] + c) == [m.ticket] + Tickets(c)
  {
  }

  lemma LinkAtMostOnce(s: State, t: nat)
    requires Sound(s) && AtMostOnce(s) && t < |s.th| && s.th[t].Filled?
    requires Sound(LinkEnter(s, t))
    requires Contents(LinkEnter(s, t)) == Play(Contents(s), Effect(s, Link(t)))
    ensures AtMostOnce(LinkEnter(s, t))
  {
    hide Unique, Conserved, Waiters, Wakeups, LinkEnter, Contents, Tickets;
    var s' := LinkEnter(s, t);
    LinkFrame(s, t);
    TicketsWith(Contents(s), s.th[t].m);
    UniqueLink(s.th, s'.th, t, Tickets(Contents(s)), Tickets(Contents(s')), s.taken, s.nextTicket);
  }

  lemma StepAtMostOnce(s: State, a: Step)
    requires Sound(s) && Carried(s) && AtMostOnce(s) && Enabled(s, a)
    ensures Sound(Apply(s, a)) && AtMostOnce(Apply(s, a))
  {
    hide Conserved, Waiters, Wakeups, Carried, SendEnter, UrgentEnter, RecvEnter, LinkEnter, PutEnter, AtMostOnce,
      Without,
      Drain;
    StepOrder(s, a);
    var s' := Apply(s, a);
    match a {
      case SendTry(t, body, block, k) =>
        SendFrame(s, t, Msg(s.nextTicket, body), block, k);
        NewAtMostOnce(s, s', t);
      case UrgentTry(t, body) =>
        UrgentFrame(s, t, Msg(s.nextTicket, body));
        NewAtMostOnce(s, s', t);
      case SendRetry(t, expired, k) =>
        SendFrame(s, t, s.th[t].m, !expired, k);
        QuietAtMostOnce(s, s');
      case RecvTry(t, block, k) => TakeAtMostOnce(s, t, block, k);
      case RecvRetry(t, expired, k) => TakeAtMostOnce(s, t, !expired, k);
      case Link(t) => LinkAtMostOnce(s, t);
      case Put(t) =>
        PutFrame(s, t);
        QuietAtMostOnce(s, s');
      case Fill(t) => QuietAtMostOnce(s, s');
      case CopyOut(t) => QuietAtMostOnce(s, s');
      case Timeout(t) => QuietAtMostOnce(s, s');
      case Reset => QuietAtMostOnce(s, s');
    }
  }

  lemma TakeAtMostOnce(s: State, t: nat, block: bool, k: nat)
    requires Sound(s) && AtMostOnce(s) && t < |s.th| && k <= |s.recvWait| && (s.th[t].Idle? || s.th[t].RecvWoken?)
    requires Sound(RecvEnter(s, t, block, k))
    ensures AtMostOnce(RecvEnter(s, t, block, k))
  {
    hide Waiters, Wakeups, Partition, RecvEnter, Unique;
    var s', q := RecvEnter(s, t, block, k), Tickets(Contents(s));
    RecvFrame(s, t, block, k);
    if s.pool.entry > 0 {
      UniqueTake(s.th, s'.th, q, s.taken, s.nextTicket);
      assert Tickets(Contents(s')) == q[1..] && q[0] == s.data[s.pool.queue[0]].ticket;
    } else {
      assert Tickets(Contents(s')) == q;
      UniqueFewer(s.th, s'.th, q, s.taken, s.nextTicket);
    }
  }

  // ------------------------------------------------------------ all runs

  ghost predicate Inv(s: State) {
    Sound(s) && Carried(s) && AtMostOnce(s)
  }

  ghost predicate Start(s: State) {
    && |s.data| <= ENTRY_MAX
    && |s.pool.free| == |s.data| && (forall i :: 0 <= i < |s.data| ==> s.pool.free[i] == |s.data| - 1 - i)
    && s.pool.queue == [] && s.pool.entry == 0
    && s.recvWait == [] && s.sendWait == [] && s.taken == [] && s.nextTicket == 0
    && (forall t :: 0 <= t < |s.th| ==> s.th[t] == Idle)
    && !s.nullHead && !s.lateFull
  }

  lemma StartInv(s: State)
    requires Start(s)
    ensures Inv(s)
  {
    forall n: nat | n < |s.data| ensures n in s.pool.free {
      assert s.pool.free[|s.data| - 1 - n] == n;
    }
    assert Partition(s);
  }

  ghost predicate Legal(s: State, run: seq<Step>)
    decreases |run|
  {
    |run| > 0 ==> Enabled(s, run[0]) && Legal(Apply(s, run[0]), run[1..])
  }

  ghost function Run(s: State, run: seq<Step>): State
    requires Legal(s, run)
    decreases |run|
  {
    if |run| == 0 then s else Run(Apply(s, run[0]), run[1..])
  }

  lemma {:induction false} RunInv(s: State, run: seq<Step>)
    requires Inv(s) && Legal(s, run)
    ensures Inv(Run(s, run))
    decreases |run|
  {
    hide Sound, Carried, AtMostOnce;
    if |run| > 0 {
      StepAll(s, run[0]);
      RunInv(Apply(s, run[0]), run[1..]);
    }
  }

  lemma StepAll(s: State, a: Step)
    requires Inv(s) && Enabled(s, a)
    ensures Inv(Apply(s, a))
  {
    hide Sound, Carried;
    StepSound(s, a);
    StepCarried(s, a);
    StepAtMostOnce(s, a);
  }

  ghost function Effects(s: State, run: seq<Step>): seq<Act>
    requires Legal(s, run)
    decreases |run|
  {
    if |run| == 0 then [] else [Effect(s, run[0])] + Effects(Apply(s, run[0]), run[1..])
  }

  /** Over whole runs the queue is a plain queue fed by the linking sections: the
      messages left and the messages handed out are those a plain queue would have
      and give, in that order. */
  lemma {:induction false} RunOrder(s: State, run: seq<Step>)
    requires Inv(s) && Legal(s, run)
    ensures Inv(Run(s, run))
    ensures Contents(Run(s, run)) == PlayAll(Contents(s), Effects(s, run))
    ensures Run(s, run).taken == s.taken + Tickets(Served(Contents(s), Effects(s, run)))
    decreases |run|
  {
    hide Conserved, Waiters, Wakeups, Carried, AtMostOnce, Apply, Effect, Play, PlayAll, Served, Tickets, Contents,
      Enabled;
    if |run| == 0 {
      ServedNone(Contents(s));
    } else {
      var a, s' := run[0], Apply(s, run[0]);
      StepAll(s, a);
      StepQueue(s, a);
      RunOrder(s', run[1..]);
      assert Effects(s, run)[1..] == Effects(s', run[1..]);
      ServedFirst(Contents(s), Effects(s, run));
    }
  }

  lemma StepQueue(s: State, a: Step)
    requires Inv(s) && Enabled(s, a) && Inv(Apply(s, a))
    ensures Contents(Apply(s, a)) == Play(Contents(s), Effect(s, a))
    ensures Apply(s, a).taken ==
            s.taken + if Effect(s, a).Remove? && |Contents(s)| > 0 then [Contents(s)[0].ticket] else []
  {
    hide Conserved, Waiters, Wakeups, Carried, AtMostOnce, Apply, Play;
    StepOrder(s, a);
    StepTaken(s, a);
  }

  lemma ServedNone(c: seq<Msg>)
    ensures Tickets(Served(c, [])) == [] && PlayAll(c, []) == c
  {
  }

  lemma ServedFirst(c: seq<Msg>, acts: seq<Act>)
    requires |acts| > 0
    ensures Tickets(Served(c, acts)) ==
            (if acts[0].Remove? && |c| > 0 then [c[0].ticket] else []) + Tickets(Served(Play(c, acts[0]), acts[1..]))
    ensures PlayAll(c, acts) == PlayAll(Play(c, acts[0]), acts[1..])
  {
  }

  /** From start-up, along every interleaving: nodes are conserved, the counter is the
      queue's length, the NULL head and the late -RT_EFULL are never met; while a thread
      sleeps, every message (or free node) has a woken thread still to look; and no
      message is delivered twice or with other bytes than were linked. */
  lemma Safety(s: State, run: seq<Step>)
    requires Start(s) && Legal(s, run)
    ensures var z := Run(s, run);
            && Partition(z) && z.pool.entry == |z.pool.queue| && !z.nullHead && !z.lateFull
            && (|z.recvWait| > 0 ==> z.pool.entry <= Count(z.th, Receivers))
            && (|z.sendWait| > 0 ==> |z.pool.free| <= Count(z.th, Senders))
            && NoDup(z.taken)
            && (forall t :: 0 <= t < |z.th| && z.th[t].Copied? ==> z.th[t].got == z.th[t].want)
  {
    StartInv(s);
    RunInv(s, run);
    var z := Run(s, run);
    forall t | 0 <= t < |z.th| && z.th[t].Copied? ensures z.th[t].got == z.th[t].want {
      assert CarriedBy(z.th[t], z.data);
    }
  }
}
