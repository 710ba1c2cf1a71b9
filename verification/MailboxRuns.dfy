/** Every interleaving of threads (and interrupt handlers) using one mailbox.  A step is
    one interrupt-disabled section of ipc.c; a woken thread looks again in a loop. */
module MailboxRuns {
  import opened Common
  import opened Mailbox
  import opened Waiting
  import opened WaitOrder

  datatype State = State(size: nat, mails: seq<Msg>, rooms: Rooms)

  /** `block` is a non-zero timeout, `expired` one that has run down to zero, and k the
      place the wait list gives the thread. */
  datatype Step =
    | SendTry(t: nat, value: Msg, block: bool, k: nat)
    | SendRetry(t: nat, expired: bool, k: nat)
    | UrgentTry(t: nat, value: Msg)
    | RecvTry(t: nat, block: bool, k: nat)
    | RecvRetry(t: nat, expired: bool, k: nat)
    | Timeout(t: nat)
    | Reset

  ghost predicate Enabled(s: State, a: Step) {
    var th := s.rooms.th;
    match a
    case SendTry(t, _, _, k) => t < |th| && th[t].Idle? && k <= |s.rooms.sendWait|
    case SendRetry(t, _, k) => t < |th| && th[t].SendWoken? && k <= |s.rooms.sendWait|
    case UrgentTry(t, _) => t < |th| && th[t].Idle?
    case RecvTry(t, _, k) => t < |th| && th[t].Idle? && k <= |s.rooms.recvWait|
    case RecvRetry(t, _, k) => t < |th| && th[t].RecvWoken? && k <= |s.rooms.recvWait|
    case Timeout(t) => t < |th| && (th[t].RecvWait? || th[t].SendWait?)
    case Reset => true
  }

  /** Thread t is back from its call. */
  function Leave(r: Rooms, t: nat): Rooms
    requires t < |r.th|
  {
    r.(th := r.th[t := Idle])
  }

  function SendEnter(s: State, t: nat, value: Msg, block: bool, k: nat): State
    requires t < |s.rooms.th| && k <= |s.rooms.sendWait|
  {
    var r := s.rooms;
    if |s.mails| < s.size then s.(mails := s.mails + [value], rooms := WakeReceiver(Leave(r, t)))
    else if block then s.(rooms := Rooms(r.recvWait, InsertAt(r.sendWait, k, t), r.th[t := SendWait(value)]))
    else s.(rooms := Leave(r, t))
  }

  function UrgentEnter(s: State, value: Msg): State {
    if |s.mails| < s.size then s.(mails := [value] + s.mails, rooms := WakeReceiver(s.rooms)) else s
  }

  function RecvEnter(s: State, t: nat, block: bool, k: nat): State
    requires t < |s.rooms.th| && k <= |s.rooms.recvWait|
  {
    var r := s.rooms;
    if |s.mails| > 0 then s.(mails := s.mails[1..], rooms := WakeSender(Leave(r, t)))
    else if block then s.(rooms := Rooms(InsertAt(r.recvWait, k, t), r.sendWait, r.th[t := RecvWait]))
    else s.(rooms := Leave(r, t))
  }

  function Apply(s: State, a: Step): State
    requires Enabled(s, a)
  {
    match a
    case SendTry(t, value, block, k) => SendEnter(s, t, value, block, k)
    case SendRetry(t, expired, k) => SendEnter(s, t, s.rooms.th[t].m, !expired, k)
    case UrgentTry(_, value) => UrgentEnter(s, value)
    case RecvTry(t, block, k) => RecvEnter(s, t, block, k)
    case RecvRetry(t, expired, k) => RecvEnter(s, t, !expired, k)
    case Timeout(t) =>
      var r := s.rooms;
      s.(rooms := Rooms(Without(r.recvWait, t), Without(r.sendWait, t), r.th[t := Idle]))
    case Reset => s.(mails := [], rooms := Rooms([], [], Abandon(s.rooms.th)))
  }

  /** While a receiver sleeps, every mail has a woken receiver still to look; while a
      sender sleeps, every free place has a woken sender. */
  ghost predicate Wakeups(s: State) {
    && (|s.rooms.recvWait| > 0 ==> |s.mails| <= Count(s.rooms.th, Receivers))
    && (|s.rooms.sendWait| > 0 ==> s.size - |s.mails| <= Count(s.rooms.th, Senders))
  }

  ghost predicate Inv(s: State) {
    |s.mails| <= s.size && Listed(s.rooms) && Wakeups(s)
  }

  lemma SendInv(s: State, t: nat, value: Msg, block: bool, k: nat)
    requires Inv(s) && t < |s.rooms.th| && k <= |s.rooms.sendWait|
    requires s.rooms.th[t].Idle? || s.rooms.th[t].SendWoken?
    ensures Inv(SendEnter(s, t, value, block, k))
  {
    hide Listed, InsertAt, Count, WakeReceiver;
    CountUpdate(s.rooms.th, t, Idle);
    IdleListed(s.rooms, t);
    if |s.mails| < s.size {
      WakeReceiverKeeps(Leave(s.rooms, t));
    } else if block {
      CountUpdate(s.rooms.th, t, SendWait(value));
      JoinSenders(s.rooms, t, value, k);
    }
  }

  lemma UrgentInv(s: State, value: Msg)
    requires Inv(s)
    ensures Inv(UrgentEnter(s, value))
  {
    hide Listed, Count, WakeReceiver;
    WakeReceiverKeeps(s.rooms);
  }

  lemma RecvInv(s: State, t: nat, block: bool, k: nat)
    requires Inv(s) && t < |s.rooms.th| && k <= |s.rooms.recvWait|
    requires s.rooms.th[t].Idle? || s.rooms.th[t].RecvWoken?
    ensures Inv(RecvEnter(s, t, block, k))
  {
    hide Listed, InsertAt, Count, WakeSender;
    CountUpdate(s.rooms.th, t, Idle);
    IdleListed(s.rooms, t);
    if |s.mails| > 0 {
      WakeSenderKeeps(Leave(s.rooms, t));
    } else if block {
      CountUpdate(s.rooms.th, t, RecvWait);
      JoinReceivers(s.rooms, t, k);
    }
  }

  /** A pass through the send loop: the mail goes in behind the others when there is room;
      otherwise the thread sleeps with it when it may wait and is refused when it may not. */
  lemma SendOutcome(s: State, a: Step)
    requires Inv(s) && Enabled(s, a) && (a.SendTry? || a.SendRetry?)
    ensures var z := Apply(s, a); var ph := z.rooms.th[a.t];
            var value := if a.SendTry? then a.value else s.rooms.th[a.t].m;
            var mayWait := if a.SendTry? then a.block else !a.expired;
            && (|s.mails| < s.size ==> z.mails == s.mails + [value] && ph.Idle?)
            && (|s.mails| == s.size ==> z.mails == s.mails && ph == if mayWait then SendWait(value) else Idle)
            && (ph.SendWait? <==> a.t in z.rooms.sendWait)
  {
    hide Wakeups, InsertAt, WakeReceiver;
    StepInv(s, a);
    SendWho(s, a);
    assert Inv(Apply(s, a));
  }

  lemma SendWho(s: State, a: Step)
    requires Inv(s) && Enabled(s, a) && (a.SendTry? || a.SendRetry?)
    ensures var z := Apply(s, a); var ph := z.rooms.th[a.t];
            var value := if a.SendTry? then a.value else s.rooms.th[a.t].m;
            var mayWait := if a.SendTry? then a.block else !a.expired;
            && |s.mails| <= s.size && a.t < |z.rooms.th|
            && (|s.mails| < s.size ==> z.mails == s.mails + [value] && ph.Idle?)
            && (|s.mails| == s.size ==> z.mails == s.mails && ph == if mayWait then SendWait(value) else Idle)
  {
    if |s.rooms.recvWait| > 0 { assert s.rooms.recvWait[0] in s.rooms.recvWait; }
  }

  /** A pass through the receive loop: the front mail is taken when there is one; otherwise
      the thread sleeps when it may wait and is refused when it may not. */
  lemma RecvOutcome(s: State, a: Step)
    requires Inv(s) && Enabled(s, a) && (a.RecvTry? || a.RecvRetry?)
    ensures var z := Apply(s, a); var ph := z.rooms.th[a.t];
            var mayWait := if a.RecvTry? then a.block else !a.expired;
            && (|s.mails| > 0 ==> s.mails == [s.mails[0]] + z.mails && ph.Idle?)
            && (|s.mails| == 0 ==> z.mails == [] && ph == if mayWait then RecvWait else Idle)
            && (ph.RecvWait? <==> a.t in z.rooms.recvWait)
  {
    hide Wakeups, InsertAt, WakeSender;
    StepInv(s, a);
    RecvWho(s, a);
    assert Inv(Apply(s, a));
  }

  lemma RecvWho(s: State, a: Step)
    requires Inv(s) && Enabled(s, a) && (a.RecvTry? || a.RecvRetry?)
    ensures var z := Apply(s, a); var ph := z.rooms.th[a.t];
            var mayWait := if a.RecvTry? then a.block else !a.expired;
            && a.t < |z.rooms.th|
            && (|s.mails| > 0 ==> s.mails == [s.mails[0]] + z.mails && ph.Idle?)
            && (|s.mails| == 0 ==> z.mails == [] && ph == if mayWait then RecvWait else Idle)
  {
    if |s.rooms.sendWait| > 0 { assert s.rooms.sendWait[0] in s.rooms.sendWait; }
  }

  lemma TimeoutInv(s: State, t: nat)
    requires Inv(s) && Enabled(s, Timeout(t))
    ensures Inv(Apply(s, Timeout(t)))
  {
    hide Count, Without, Listed;
    CountUpdate(s.rooms.th, t, Idle);
    LeaveListed(s.rooms, t);
  }

  lemma StepInv(s: State, a: Step)
    requires Inv(s) && Enabled(s, a)
    ensures Inv(Apply(s, a))
  {
    hide Inv, SendEnter, UrgentEnter, RecvEnter;
    match a {
      case SendTry(t, value, block, k) => SendInv(s, t, value, block, k);
      case SendRetry(t, expired, k) => SendInv(s, t, s.rooms.th[t].m, !expired, k);
      case UrgentTry(_, value) => UrgentInv(s, value);
      case RecvTry(t, block, k) => RecvInv(s, t, block, k);
      case RecvRetry(t, expired, k) => RecvInv(s, t, !expired, k);
      case Timeout(t) => TimeoutInv(s, t);
      case Reset => ResetInv(s);
    }
  }

  lemma ResetInv(s: State)
    ensures Inv(Apply(s, Reset))
  {
  }

  ghost predicate Legal(s: State, run: seq<Step>)
    decreases |run|
  {
    |run| > 0 ==> Enabled(s, run[0]) && Legal(Apply(s, run[0]), run[1..])
  }

  ghost function Run(s: State, run: seq<Step>): State
    requires Legal(s, run)
    decreases |run|
  {
    if |run| == 0 then s else Run(Apply(s, run[0]), run[1..])
  }

  /** rt_mb_init */
  ghost predicate Start(s: State) {
    && s.mails == [] && s.rooms.recvWait == [] && s.rooms.sendWait == []
    && forall t :: 0 <= t < |s.rooms.th| ==> s.rooms.th[t] == Idle
  }

  lemma {:induction false} RunInv(s: State, run: seq<Step>)
    requires Inv(s) && Legal(s, run)
    ensures Inv(Run(s, run))
    decreases |run|
  {
    hide Inv, Apply, Enabled;
    if |run| > 0 {
      StepInv(s, run[0]);
      RunInv(Apply(s, run[0]), run[1..]);
    }
  }

  /** Along every interleaving of sends, urgent sends, receives, timeouts and resets, the
      wait lists hold exactly the sleeping threads, and nobody sleeps on a mail or a free
      place that no woken thread is on its way to. */
  lemma Safety(s: State, run: seq<Step>)
    requires Start(s) && Legal(s, run)
    ensures var z := Run(s, run);
            && |z.mails| <= z.size && Listed(z.rooms)
            && (|z.rooms.recvWait| > 0 ==> |z.mails| <= Count(z.rooms.th, Receivers))
            && (|z.rooms.sendWait| > 0 ==> z.size - |z.mails| <= Count(z.rooms.th, Senders))
  {
    hide Apply, Enabled, Run, Legal;
    RunInv(s, run);
  }

  /** The mailbox ring with its waiting threads: each section on the ring is the step. */
  class Machine {
    const mb: Mailbox<Msg>
    ghost var s: State

    ghost predicate Valid()
      reads this, mb, mb.msgPool
    {
      && mb.Valid() && mb.Contents() == s.mails && mb.msgPool.Length == s.size && Inv(s)
    }

    /** rt_mb_init, with `threads` threads that have not used the mailbox yet. */
    constructor (size: nat, ghost threads: nat)
      requires size <= ENTRY_MAX
      ensures Valid() && Start(s) && s.size == size && |s.rooms.th| == threads && fresh(mb) && fresh(mb.msgPool)
    {
      mb := new Mailbox<Msg>(size);
      new;
      s := State(size, [], Rooms([], [], seq(threads, _ => Idle)));
    }

    /** A pass through the loop of rt_mb_send_wait: it sends, sleeps or gives up, and never
        reports the overflow. */
    method SendSection(value: Msg, ghost a: Step) returns (r: Result)
      requires Valid() && Enabled(s, a)
      requires (a.SendTry? && a.value == value) || (a.SendRetry? && s.rooms.th[a.t].m == value)
      modifies this`s, mb, mb.msgPool
      ensures Valid() && s == Apply(old(s), a)
      ensures r == if |old(s).mails| < s.size then Ok else Full
    {
      hide Inv;
      MailsOfSend(s, a);
      StepInv(s, a);
      r := mb.SendMail(value);
      s := Apply(s, a);
    }

    /** rt_mb_urgent */
    method UrgentSection(value: Msg, ghost a: Step) returns (r: Result)
      requires Valid() && Enabled(s, a) && a.UrgentTry? && a.value == value
      modifies this`s, mb, mb.msgPool
      ensures Valid() && s == Apply(old(s), a)
      ensures r == if |old(s).mails| < s.size then Ok else Full
    {
      hide Inv;
      MailsOfUrgent(s, value);
      StepInv(s, a);
      r := mb.SendUrgent(value);
      s := Apply(s, a);
    }

    /** A pass through the loop of rt_mb_recv: it takes the front mail, sleeps or gives up. */
    method RecvSection(ghost a: Step) returns (r: Result, value: Msg)
      requires Valid() && Enabled(s, a) && (a.RecvTry? || a.RecvRetry?)
      modifies this`s, mb
      ensures Valid() && s == Apply(old(s), a)
      ensures r == if |old(s).mails| == 0 then Empty else Ok
      ensures r == Ok ==> value == old(s).mails[0]
    {
      hide Inv;
      StepInv(s, a);
      MailsOfRecv(s, a);
      r, value := mb.RecvMail();
      s := Apply(s, a);
    }

    /** RT_IPC_CMD_RESET */
    method ResetSection()
      requires Valid()
      modifies this`s, mb
      ensures Valid() && s == Apply(old(s), Reset)
    {
      hide Inv;
      StepInv(s, Reset);
      mb.ResetMail();
      s := Apply(s, Reset);
    }
  }

  lemma MailsOfUrgent(s: State, value: Msg)
    requires Inv(s)
    ensures |s.mails| <= s.size && UrgentEnter(s, value).size == s.size
    ensures UrgentEnter(s, value).mails == if |s.mails| < s.size then [value] + s.mails else s.mails
  {
    hide Listed, Wakeups;
  }

  lemma MailsOfSend(s: State, a: Step)
    requires Inv(s) && Enabled(s, a) && (a.SendTry? || a.SendRetry?)
    ensures var value := if a.SendTry? then a.value else s.rooms.th[a.t].m;
            && |s.mails| <= s.size && Apply(s, a).size == s.size
            && Apply(s, a).mails == if |s.mails| < s.size then s.mails + [value] else s.mails
  {
    hide Listed, Wakeups;
  }

  lemma MailsOfRecv(s: State, a: Step)
    requires Enabled(s, a) && (a.RecvTry? || a.RecvRetry?)
    ensures Apply(s, a).size == s.size
    ensures Apply(s, a).mails == if |s.mails| > 0 then s.mails[1..] else []
  {
  }
}
