/** The message queue as its callers see it.  The plain queue below is computed from the
    steps alone - who called what, who linked, who received - and never looks at nodes,
    lists or flags; every run of MessageQueueRuns is proved to agree with it. */
module MessageQueueCalls {
  import opened Common
  import opened MessageQueue
  import opened MessageQueueRuns
  import opened WaitOrder
  import opened Waiting

  /** A call of rt_mq_send or, when `urgent`, of rt_mq_urgent. */
  datatype Call = Call(m: Msg, urgent: bool)

  /** `calls[t]` is the send call thread t made last, `made` the number of calls so far,
      `linked` and `taken` the messages in the order of the sections that linked them and
      took them. */
  datatype Plain = Plain(calls: map<nat, Call>, made: nat, queue: seq<Msg>, linked: seq<Msg>, taken: seq<Msg>)

  const NOTHING: Plain := Plain(map[], 0, [], [], [])

  function Hear(p: Plain, t: nat, body: seq<int>, urgent: bool): Plain {
    p.(calls := p.calls[t := Call(Msg(p.made, body), urgent)], made := p.made + 1)
  }

  function Enqueue(p: Plain, c: Call): Plain {
    p.(queue := if c.urgent then [c.m] + p.queue else p.queue + [c.m], linked := p.linked + [c.m])
  }

  function Serve(p: Plain): Plain {
    if |p.queue| > 0 then p.(queue := p.queue[1..], taken := p.taken + [p.queue[0]]) else p
  }

  function Next(p: Plain, a: Step): Plain {
    match a
    case SendTry(t, body, _, _) => Hear(p, t, body, false)
    case UrgentTry(t, body) => Hear(p, t, body, true)
    case Link(t) => if t in p.calls then Enqueue(p, p.calls[t]) else p
    case RecvTry(_, _, _) => Serve(p)
    case RecvRetry(_, _, _) => Serve(p)
    case Reset => p.(queue := [])
    case _ => p
  }

  function Heard(p: Plain, run: seq<Step>): Plain
    decreases |run|
  {
    if |run| == 0 then p else Heard(Next(p, run[0]), run[1..])
  }

  // -------------------------------------------------------------- agreement

  /** Thread t sends what it called with and receives what was taken. */
  ghost predicate Honest(ph: Phase, t: nat, p: Plain) {
    && (ph.SendWait? || ph.SendWoken? ==> t in p.calls && p.calls[t] == Call(ph.m, false))
    && (ph.Filling? || ph.Filled? ==> t in p.calls && p.calls[t] == Call(ph.m, ph.urgent))
    && (ph.Holding? || ph.Copied? ==> ph.want in p.taken)
  }

  ghost predicate AllHonest(s: State, p: Plain) {
    forall t: nat :: t < |s.th| ==> Honest(s.th[t], t, p)
  }

  ghost predicate Agrees(s: State, p: Plain)
    requires Conserved(s)
  {
    && Contents(s) == p.queue && s.taken == Tickets(p.taken) && s.nextTicket == p.made
    && AllHonest(s, p)
  }

  /** Only thread t's phase or call changed, and nothing that was taken is forgotten. */
  lemma OthersHonest(s: State, s': State, p: Plain, p': Plain, t: nat)
    requires AllHonest(s, p) && t < |s.th| == |s'.th| && Honest(s'.th[t], t, p')
    requires forall u: nat :: u < |s.th| && u != t ==> Same(s.th[u], s'.th[u])
    requires forall u: nat :: u != t && u in p.calls ==> u in p'.calls && p'.calls[u] == p.calls[u]
    requires forall m :: m in p.taken ==> m in p'.taken
    ensures AllHonest(s', p')
  {
    forall u: nat | u < |s'.th| ensures Honest(s'.th[u], u, p') {
      assert u != t ==> Honest(s.th[u], u, p) && Same(s.th[u], s'.th[u]);
    }
  }

  /** A phase that another thread's section may turn into another. */
  ghost predicate Same(ph: Phase, ph': Phase) {
    || ph' == ph || ph' == Idle || ph' == RecvWoken
    || (ph.SendWait? && ph' == SendWoken(ph.m))
  }

  lemma SendHonest(s: State, p: Plain, a: Step)
    requires Enabled(s, a) && (a.SendTry? || a.SendRetry? || a.UrgentTry?)
    requires AllHonest(s, p) && s.nextTicket == p.made
    ensures AllHonest(Apply(s, a), Next(p, a)) && Apply(s, a).nextTicket == Next(p, a).made
  {
    hide AllHonest, InsertAt;
    var s', p' := Apply(s, a), Next(p, a);
    assert Honest(s.th[a.t], a.t, p) by { HonestAt(s, p, a.t); }
    OthersHonest(s, s', p, p', a.t);
  }

  lemma HonestAt(s: State, p: Plain, t: nat)
    requires AllHonest(s, p) && t < |s.th|
    ensures Honest(s.th[t], t, p)
  {
  }

  lemma RecvHonest(s: State, p: Plain, a: Step)
    requires Sound(s) && Enabled(s, a) && (a.RecvTry? || a.RecvRetry?) && Agrees(s, p)
    ensures AllHonest(Apply(s, a), Next(p, a))
  {
    hide AllHonest, Conserved, Waiters, Wakeups, RecvEnter;
    var s', p' := Apply(s, a), Next(p, a);
    RecvFrame(s, a.t, if a.RecvTry? then a.block else !a.expired, a.k);
    EntryIs(s);
    if s.pool.entry > 0 { assert p'.taken[|p.taken|] == Contents(s)[0]; }
    OthersHonest(s, s', p, p', a.t);
  }

  lemma EntryIs(s: State)
    requires Conserved(s)
    ensures s.pool.entry == |Contents(s)|
  {
  }

  lemma LinkHonest(s: State, p: Plain, t: nat)
    requires Sound(s) && Enabled(s, Link(t)) && AllHonest(s, p)
    ensures AllHonest(Apply(s, Link(t)), Next(p, Link(t)))
    ensures t in p.calls && p.calls[t] == Call(s.th[t].m, s.th[t].urgent)
  {
    hide AllHonest, Conserved, Waiters, Wakeups, LinkEnter;
    HonestAt(s, p, t);
    LinkFrame(s, t);
    OthersHonest(s, Apply(s, Link(t)), p, Next(p, Link(t)), t);
  }

  lemma PutHonest(s: State, p: Plain, t: nat)
    requires Sound(s) && Enabled(s, Put(t)) && AllHonest(s, p)
    ensures AllHonest(Apply(s, Put(t)), p)
  {
    hide AllHonest, Conserved, Waiters, Wakeups, PutEnter;
    PutFrame(s, t);
    OthersHonest(s, Apply(s, Put(t)), p, p, t);
  }

  lemma CopyHonest(s: State, p: Plain, a: Step)
    requires Enabled(s, a) && (a.Fill? || a.CopyOut? || a.Timeout?) && AllHonest(s, p)
    ensures AllHonest(Apply(s, a), p)
  {
    hide AllHonest, Without;
    HonestAt(s, p, a.t);
    OthersHonest(s, Apply(s, a), p, p, a.t);
  }

  lemma ResetHonest(s: State, p: Plain)
    requires Enabled(s, MessageQueueRuns.Reset) && AllHonest(s, p)
    ensures AllHonest(Apply(s, MessageQueueRuns.Reset), Next(p, MessageQueueRuns.Reset))
  {
    forall t: nat | t < |s.th| ensures Honest(Abandon(s.th)[t], t, p.(queue := [])) {
      assert Honest(s.th[t], t, p);
    }
  }

  lemma StepHonest(s: State, p: Plain, a: Step)
    requires Sound(s) && Enabled(s, a) && Agrees(s, p)
    ensures AllHonest(Apply(s, a), Next(p, a)) && Apply(s, a).nextTicket == Next(p, a).made
  {
    hide AllHonest, Conserved, Waiters, Wakeups, SendEnter, UrgentEnter, RecvEnter, LinkEnter, PutEnter;
    match a {
      case SendTry(_, _, _, _) => SendHonest(s, p, a);
      case SendRetry(_, _, _) => SendHonest(s, p, a);
      case UrgentTry(_, _) => SendHonest(s, p, a);
      case RecvTry(t, block, k) =>
        RecvHonest(s, p, a);
        RecvFrame(s, t, block, k);
      case RecvRetry(t, expired, k) =>
        RecvHonest(s, p, a);
        RecvFrame(s, t, !expired, k);
      case Link(t) =>
        LinkHonest(s, p, t);
        LinkFrame(s, t);
      case Put(t) =>
        PutHonest(s, p, t);
        PutFrame(s, t);
      case Fill(_) => CopyHonest(s, p, a);
      case CopyOut(_) => CopyHonest(s, p, a);
      case Timeout(_) => CopyHonest(s, p, a);
      case Reset => ResetHonest(s, p);
    }
  }

  /** One step of the nodes and flags is one step of the plain queue. */
  lemma StepAgrees(s: State, p: Plain, a: Step)
    requires Inv(s) && Enabled(s, a) && Agrees(s, p)
    ensures Inv(Apply(s, a)) && Agrees(Apply(s, a), Next(p, a))
  {
    hide AllHonest, Conserved, Waiters, Wakeups, Carried, AtMostOnce, Apply;
    StepAll(s, a);
    StepOrder(s, a);
    StepTaken(s, a);
    StepHonest(s, p, a);
    EntryIs(s);
    if a.Link? { LinkHonest(s, p, a.t); }
  }

  lemma {:induction false} RunAgrees(s: State, p: Plain, run: seq<Step>)
    requires Inv(s) && Agrees(s, p) && Legal(s, run)
    ensures Inv(Run(s, run)) && Agrees(Run(s, run), Heard(p, run))
    decreases |run|
  {
    hide Inv, Agrees, Apply, Next;
    if |run| > 0 {
      StepAgrees(s, p, run[0]);
      RunAgrees(Apply(s, run[0]), Next(p, run[0]), run[1..]);
    }
  }

  /** From start-up, along every interleaving, the queue is the plain queue that its calls
      make, and a receiver copies out a message that was taken. */
  lemma QueueOfCalls(s: State, run: seq<Step>)
    requires Start(s) && Legal(s, run)
    ensures var z, p := Run(s, run), Heard(NOTHING, run);
            && Conserved(z) && Contents(z) == p.queue && z.taken == Tickets(p.taken)
            && forall t :: 0 <= t < |z.th| && z.th[t].Copied? ==> z.th[t].got in p.taken
  {
    hide Partition, Legal;
    StartInv(s);
    assert Contents(s) == [];
    RunAgrees(s, NOTHING, run);
    Safety(s, run);
    assert AllHonest(Run(s, run), Heard(NOTHING, run));
  }

  // -------------------------------------------------------------- what follows

  /** No urgent sends and no resets. */
  ghost predicate Calm(run: seq<Step>) {
    forall a :: a in run ==> !a.UrgentTry? && !a.Reset?
  }

  lemma {:induction false} CalmOrder(p: Plain, run: seq<Step>)
    requires Calm(run) && p.taken + p.queue == p.linked && forall t :: t in p.calls ==> !p.calls[t].urgent
    ensures var z := Heard(p, run); z.taken + z.queue == z.linked
    decreases |run|
  {
    if |run| > 0 {
      assert run[0] in run;
      CalmOrder(Next(p, run[0]), run[1..]);
    }
  }

  /** Ordinary messages are taken in the order in which they were linked, and what is not
      taken yet is still queued, in that order. */
  lemma FirstInFirstOut(s: State, run: seq<Step>)
    requires Start(s) && Legal(s, run) && Calm(run)
    ensures Conserved(Run(s, run))
    ensures Run(s, run).taken + Tickets(Contents(Run(s, run))) == Tickets(Heard(NOTHING, run).linked)
  {
    hide Partition, Legal, Calm, Heard, Start;
    QueueOfCalls(s, run);
    CalmOrder(NOTHING, run);
  }

  lemma {:induction false} NothingLostPlain(p: Plain, run: seq<Step>)
    requires (forall a :: a in run ==> !a.Reset?) && Accounted(p)
    ensures Accounted(Heard(p, run))
    decreases |run|
  {
    hide Next, Accounted;
    if |run| > 0 {
      assert run[0] in run;
      NextKeeps(p, run[0]);
      NothingLostPlain(Next(p, run[0]), run[1..]);
    }
  }

  /** As many of each message were linked as were taken or are queued. */
  ghost predicate Accounted(p: Plain) {
    multiset(p.taken) + multiset(p.queue) == multiset(p.linked)
  }

  lemma EnqueueKeeps(p: Plain, c: Call)
    requires Accounted(p)
    ensures Accounted(Enqueue(p, c))
  {
  }

  lemma ServeKeeps(p: Plain)
    requires Accounted(p)
    ensures Accounted(Serve(p))
  {
    if |p.queue| > 0 { assert p.queue == [p.queue[0]] + p.queue[1..]; }
  }

  lemma NextKeeps(p: Plain, a: Step)
    requires !a.Reset? && Accounted(p)
    ensures Accounted(Next(p, a))
  {
    hide Enqueue, Serve;
    match a {
      case Link(t) => if t in p.calls { EnqueueKeeps(p, p.calls[t]); }
      case RecvTry(_, _, _) => ServeKeeps(p);
      case RecvRetry(_, _, _) => ServeKeeps(p);
      case _ =>
    }
  }

  /** Without resets, every linked message, urgent or not, was taken or is still queued. */
  lemma NothingLost(s: State, run: seq<Step>)
    requires Start(s) && Legal(s, run) && (forall a :: a in run ==> !a.Reset?)
    ensures Conserved(Run(s, run))
    ensures multiset(Heard(NOTHING, run).taken) + multiset(Contents(Run(s, run)))
            == multiset(Heard(NOTHING, run).linked)
    ensures Run(s, run).taken == Tickets(Heard(NOTHING, run).taken)
  {
    hide Partition, Legal, Heard, Start;
    QueueOfCalls(s, run);
    NothingLostPlain(NOTHING, run);
  }

  /** The first section of a send: it grabs a node when there is one; otherwise it sleeps
      when it may wait and is refused when it may not.  The queue is not touched. */
  lemma SendOutcome(s: State, a: Step)
    requires Inv(s) && Enabled(s, a) && (a.SendTry? || a.SendRetry? || a.UrgentTry?)
    ensures var z := Apply(s, a); var ph := z.th[a.t];
            var mayWait := (a.SendTry? && a.block) || (a.SendRetry? && !a.expired);
            && Inv(z) && Contents(z) == Contents(s)
            && (ph.Filling? <==> |s.pool.free| > 0)
            && (ph.SendWait? <==> |s.pool.free| == 0 && mayWait) && (ph.SendWait? <==> a.t in z.sendWait)
            && (ph.Idle? <==> |s.pool.free| == 0 && !mayWait)
            && (ph.Filling? ==> ph.urgent == a.UrgentTry?)
            && (!ph.Idle? ==> ph.m == if a.SendRetry? then s.th[a.t].m else Msg(s.nextTicket, a.body))
  {
    hide Conserved, Wakeups, Carried, AtMostOnce, Contents, PopFree, InsertAt;
    StepAll(s, a);
    StepQueue(s, a);
    assert Waiters(Apply(s, a));
  }

  /** The first section of a receive: it takes the front message when there is one;
      otherwise it sleeps when it may wait and is refused when it may not. */
  lemma RecvOutcome(s: State, a: Step)
    requires Inv(s) && Enabled(s, a) && (a.RecvTry? || a.RecvRetry?)
    ensures var z := Apply(s, a); var ph := z.th[a.t];
            var mayWait := if a.RecvTry? then a.block else !a.expired;
            && Inv(z)
            && (|Contents(s)| > 0 ==> ph.Holding? && ph.want == Contents(s)[0] && Contents(z) == Contents(s)[1..])
            && (|Contents(s)| == 0 ==> Contents(z) == [])
            && (ph.RecvWait? <==> |Contents(s)| == 0 && mayWait) && (ph.RecvWait? <==> a.t in z.recvWait)
            && (ph.Idle? <==> |Contents(s)| == 0 && !mayWait)
  {
    hide Conserved, Wakeups, Carried, AtMostOnce, PopQueue, InsertAt;
    StepAll(s, a);
    StepQueue(s, a);
    EntryIs(s);
    RecvWho(s, a);
    assert Waiters(Apply(s, a));
  }

  lemma RecvWho(s: State, a: Step)
    requires Conserved(s) && Enabled(s, a) && (a.RecvTry? || a.RecvRetry?)
    ensures var z := Apply(s, a); var ph := z.th[a.t];
            var mayWait := if a.RecvTry? then a.block else !a.expired;
            if s.pool.entry > 0 then |Contents(s)| > 0 && ph.Holding? && ph.want == Contents(s)[0]
            else ph == if mayWait then RecvWait else Idle
  {
    if s.pool.entry > 0 { QueuedNode(s); }
  }

  /** From any reachable state with a free node, one thread's send ends with its message
      behind all others, and its urgent send with its message in front of them. */
  lemma SendLands(s: State, t: nat, body: seq<int>, urgent: bool, block: bool, k: nat)
    requires Inv(s) && t < |s.th| && s.th[t].Idle? && |s.pool.free| > 0 && k <= |s.sendWait|
    ensures var m := Msg(s.nextTicket, body);
            var run := [if urgent then UrgentTry(t, body) else SendTry(t, body, block, k), MessageQueueRuns.Fill(t),
                        MessageQueueRuns.Link(t)];
            && Legal(s, run) && Inv(Run(s, run))
            && Contents(Run(s, run)) == if urgent then [m] + Contents(s) else Contents(s) + [m]
  {
    hide Conserved, Waiters, Wakeups, Carried, AtMostOnce, Contents, PopFree, LinkEnter, InsertAt, Legal, Run;
    var a := if urgent then UrgentTry(t, body) else SendTry(t, body, block, k);
    var s1 := Apply(s, a);
    SendOutcome(s, a);
    InFlightNode(s1, t);
    var s2 := Apply(s1, MessageQueueRuns.Fill(t));
    StepAll(s1, MessageQueueRuns.Fill(t));
    StepQueue(s1, MessageQueueRuns.Fill(t));
    StepAll(s2, MessageQueueRuns.Link(t));
    StepQueue(s2, MessageQueueRuns.Link(t));
    ThreeSteps(s, a, MessageQueueRuns.Fill(t), MessageQueueRuns.Link(t));
  }

  lemma InFlightNode(s: State, t: nat)
    requires Inv(s) && t < |s.th| && s.th[t].Filling?
    ensures s.th[t].node < |s.data|
  {
    assert Node(s.th[t]) != NULL;
  }

  lemma RunCons(s: State, a: Step, rest: seq<Step>)
    requires Enabled(s, a) && Legal(Apply(s, a), rest)
    ensures Legal(s, [a] + rest) && Run(s, [a] + rest) == Run(Apply(s, a), rest)
  {
    assert ([a] + rest)[1..] == rest;
  }

  lemma ThreeSteps(s: State, a: Step, b: Step, c: Step)
    requires Enabled(s, a) && Enabled(Apply(s, a), b) && Enabled(Apply(Apply(s, a), b), c)
    ensures Legal(s, [a, b, c]) && Run(s, [a, b, c]) == Apply(Apply(Apply(s, a), b), c)
  {
    hide Enabled, Apply;
    var s1, s2 := Apply(s, a), Apply(Apply(s, a), b);
    RunCons(s2, c, []);
    RunCons(s1, b, [c]);
    RunCons(s, a, [b, c]);
    assert [a, b, c] == [a] + [b, c] && [b, c] == [b] + [c] && [c] == [c] + [];
  }
}
