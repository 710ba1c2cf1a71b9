/** Threads that use a queue of messages or mails, and the two lists of ipc.c on which they
    sleep: receivers on suspend_thread, senders on suspend_sender_thread. */
module Waiting {
  import opened Common
  import opened WaitOrder

  /** A message or mail; the ticket tells apart messages with equal bytes. */
  datatype Msg = Msg(ticket: nat, body: seq<int>)

  /** Where a thread is in a send or a receive; the phases with a node are the message
      queue's. */
  datatype Phase =
    | Idle
    | SendWait(m: Msg)                                // on suspend_sender_thread
    | SendWoken(m: Msg)                               // resumed, not yet re-checked
    | Filling(m: Msg, node: nat, urgent: bool)        // owns a node, copy not done
    | Filled(m: Msg, node: nat, urgent: bool)
    | RecvWait                                        // on suspend_thread
    | RecvWoken
    | Holding(node: nat, want: Msg)                   // unlinked a node, copy not done
    | Copied(node: nat, want: Msg, got: Msg)

  /** The two wait lists and every thread's phase. */
  datatype Rooms = Rooms(recvWait: seq<nat>, sendWait: seq<nat>, th: seq<Phase>)

  /** _ipc_list_resume on the receivers, when there are any. */
  function WakeReceiver(r: Rooms): Rooms {
    if |r.recvWait| > 0 && r.recvWait[0] < |r.th| then
      Rooms(r.recvWait[1..], r.sendWait, r.th[r.recvWait[0] := RecvWoken])
    else r
  }

  function WakeSender(r: Rooms): Rooms {
    if |r.sendWait| > 0 && r.sendWait[0] < |r.th| && r.th[r.sendWait[0]].SendWait? then
      Rooms(r.recvWait, r.sendWait[1..], r.th[r.sendWait[0] := SendWoken(r.th[r.sendWait[0]].m)])
    else r
  }

  /** Every suspended thread returns with -RT_ERROR. */
  function Abandon(th: seq<Phase>): (r: seq<Phase>)
    ensures |r| == |th|
    ensures forall t :: 0 <= t < |th| ==> r[t] == if th[t].SendWait? || th[t].RecvWait? then Idle else th[t]
  {
    seq(|th|, t requires 0 <= t < |th| => if th[t].SendWait? || th[t].RecvWait? then Idle else th[t])
  }

  /** The wait lists hold exactly the sleeping threads, once each. */
  ghost predicate Listed(r: Rooms) {
    && NoDup(r.recvWait) && NoDup(r.sendWait)
    && (forall t :: t in r.recvWait ==> t < |r.th| && r.th[t].RecvWait?)
    && (forall t :: t in r.sendWait ==> t < |r.th| && r.th[t].SendWait?)
    && (forall t: nat :: t < |r.th| && r.th[t].RecvWait? ==> t in r.recvWait)
    && (forall t: nat :: t < |r.th| && r.th[t].SendWait? ==> t in r.sendWait)
  }

  /** Threads resumed by a link, or by a returned node, that have not re-checked yet. */
  datatype Woken = Receivers | Senders

  function Is(p: Phase, w: Woken): nat {
    if (if w == Receivers then p.RecvWoken? else p.SendWoken?) then 1 else 0
  }

  function CountTo(th: seq<Phase>, k: nat, w: Woken): nat
    requires k <= |th|
  {
    if k == 0 then 0 else CountTo(th, k - 1, w) + Is(th[k - 1], w)
  }

  function Count(th: seq<Phase>, w: Woken): nat {
    CountTo(th, |th|, w)
  }

  lemma {:induction false} CountUpdateTo(th: seq<Phase>, t: nat, p: Phase, k: nat, w: Woken)
    requires t < |th| && k <= |th|
    ensures CountTo(th[t := p], k, w) + (if t < k then Is(th[t], w) else 0)
            == CountTo(th, k, w) + (if t < k then Is(p, w) else 0)
  {
    if k > 0 {
      CountUpdateTo(th, t, p, k - 1, w);
    }
  }

  lemma CountUpdate(th: seq<Phase>, t: nat, p: Phase)
    requires t < |th|
    ensures Count(th[t := p], Receivers) + Is(th[t], Receivers) == Count(th, Receivers) + Is(p, Receivers)
    ensures Count(th[t := p], Senders) + Is(th[t], Senders) == Count(th, Senders) + Is(p, Senders)
  {
    CountUpdateTo(th, t, p, |th|, Receivers);
    CountUpdateTo(th, t, p, |th|, Senders);
  }

  /** A thread off the lists goes on, or goes idle. */
  lemma AwakeListed(r: Rooms, t: nat, p: Phase)
    requires Listed(r) && t < |r.th| && !r.th[t].RecvWait? && !r.th[t].SendWait? && !p.RecvWait? && !p.SendWait?
    ensures Listed(r.(th := r.th[t := p]))
  {
  }

  lemma IdleListed(r: Rooms, t: nat)
    requires Listed(r) && t < |r.th| && !r.th[t].RecvWait? && !r.th[t].SendWait?
    ensures Listed(r.(th := r.th[t := Idle]))
  {
    AwakeListed(r, t, Idle);
  }

  lemma JoinSenders(r: Rooms, t: nat, m: Msg, k: nat)
    requires Listed(r) && t < |r.th| && k <= |r.sendWait| && !r.th[t].RecvWait? && !r.th[t].SendWait?
    ensures Listed(Rooms(r.recvWait, InsertAt(r.sendWait, k, t), r.th[t := SendWait(m)]))
  {
    InsertNoDup(r.sendWait, k, t);
  }

  lemma JoinReceivers(r: Rooms, t: nat, k: nat)
    requires Listed(r) && t < |r.th| && k <= |r.recvWait| && !r.th[t].RecvWait? && !r.th[t].SendWait?
    ensures Listed(Rooms(InsertAt(r.recvWait, k, t), r.sendWait, r.th[t := RecvWait]))
  {
    InsertNoDup(r.recvWait, k, t);
  }

  /** A timeout. */
  lemma LeaveListed(r: Rooms, t: nat)
    requires Listed(r) && t < |r.th|
    ensures Listed(Rooms(Without(r.recvWait, t), Without(r.sendWait, t), r.th[t := Idle]))
    ensures |Without(r.recvWait, t)| <= |r.recvWait| && |Without(r.sendWait, t)| <= |r.sendWait|
  {
    hide Without;
    WithoutNoDup(r.recvWait, t);
    WithoutNoDup(r.sendWait, t);
  }

  /** The first receiver, if there is one, is woken; nothing else changes. */
  lemma WakeReceiverKeeps(r: Rooms)
    requires Listed(r)
    ensures var z := WakeReceiver(r);
            && Listed(z) && z.sendWait == r.sendWait && |z.th| == |r.th|
            && Count(z.th, Senders) == Count(r.th, Senders)
            && Count(z.th, Receivers) == Count(r.th, Receivers) + (if |r.recvWait| > 0 then 1 else 0)
            && (|z.recvWait| > 0 ==> |r.recvWait| > 0)
  {
    hide Count;
    if |r.recvWait| > 0 {
      TailOf(r.recvWait);
      assert r.recvWait[0] in r.recvWait;
      CountUpdate(r.th, r.recvWait[0], RecvWoken);
    }
  }

  lemma WakeSenderKeeps(r: Rooms)
    requires Listed(r)
    ensures var z := WakeSender(r);
            && Listed(z) && z.recvWait == r.recvWait && |z.th| == |r.th|
            && Count(z.th, Receivers) == Count(r.th, Receivers)
            && Count(z.th, Senders) == Count(r.th, Senders) + (if |r.sendWait| > 0 then 1 else 0)
            && (|z.sendWait| > 0 ==> |r.sendWait| > 0)
  {
    hide Count;
    if |r.sendWait| > 0 {
      TailOf(r.sendWait);
      assert r.sendWait[0] in r.sendWait;
      CountUpdate(r.th, r.sendWait[0], SendWoken(r.th[r.sendWait[0]].m));
    }
  }
}
