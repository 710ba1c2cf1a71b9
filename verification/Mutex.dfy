/** The priority-inheritance mutex (ipc.c).  Priorities: smaller is more urgent. */
module Mutex {
  import opened Common
  import opened RtList
  import opened WaitList
  import opened WaitOrder

  const HOLD_MAX: nat := 255      // RT_MUTEX_HOLD_MAX
  const VALUE_MAX: nat := 0xffff  // RT_MUTEX_VALUE_MAX
  const NOBODY: int := -1
  const NO_PRIORITY: nat := 0xff

  /** The mutex fields, its list of suspended threads, and every thread's
      current_priority. */
  datatype State = State(value: nat, hold: nat, owner: int, original: nat, waiters: seq<nat>, cur: seq<nat>)

  datatype Result = Ok | Full | TimedOut | NotOwner | Suspended

  /** The section of rt_mutex_take; `wait` is a non-zero time. */
  function Take(s: State, t: nat, wait: bool): State
    requires t < |s.cur| && (s.owner == NOBODY || 0 <= s.owner < |s.cur|)
  {
    if s.owner == t then
      if s.hold < HOLD_MAX then s.(hold := s.hold + 1) else s
    else if s.value > 0 then
      s.(value := s.value - 1, owner := t, original := s.cur[t],
         hold := if s.hold < HOLD_MAX then s.hold + 1 else s.hold)
    else if !wait || s.owner == NOBODY then s
    else
      var cur := if s.cur[t] < s.cur[s.owner] then s.cur[s.owner := s.cur[t]] else s.cur;
      s.(cur := cur, waiters := InsertAt(s.waiters, Place(PriosOf(s.waiters, cur), cur[t], Prio), t))
  }

  function TakeResult(s: State, t: nat, wait: bool): Result {
    if s.owner == t then
      if s.hold < HOLD_MAX then Ok else Full
    else if s.value > 0 then
      if s.hold < HOLD_MAX then Ok else Full
    else if !wait then TimedOut else Suspended
  }

  /** The section of rt_mutex_release. */
  function Release(s: State, t: nat): State
    requires (s.owner == t ==> 0 < s.hold) && (s.owner == NOBODY || 0 <= s.owner < |s.cur|)
  {
    if s.owner != t then s
    else if s.hold > 1 then s.(hold := s.hold - 1)
    else
      var restored := s.(hold := 0, cur := s.cur[t := s.original]);
      if |s.waiters| > 0 then
        var next := s.waiters[0];
        restored.(owner := next, original := if next < |s.cur| then restored.cur[next] else 0, hold := 1,
                  waiters := s.waiters[1..])
      else if s.value < VALUE_MAX then
        restored.(value := s.value + 1, owner := NOBODY, original := NO_PRIORITY)
      else
        restored
  }

  /** A waiter's timer fires: it leaves the list, and nobody's priority changes. */
  function Expire(s: State, t: nat): State {
    s.(waiters := Without(s.waiters, t))
  }

  /** The mutex over the real ring of suspended threads; a thread's current_priority is
      in its node. */
  class Mutex {
    var value: nat
    var hold: nat
    var owner: int
    var original: nat
    const list: WaitList

    /** rt_mutex_init, over threads with these priorities */
    constructor (prios: seq<nat>)
      ensures Valid() && Abs() == State(1, 0, NOBODY, NO_PRIORITY, [], prios)
      ensures fresh(list) && fresh(list.head) && forall n :: n in list.threads ==> fresh(n)
    {
      value, hold, owner, original := 1, 0, NOBODY, NO_PRIORITY;
      list := new WaitList(prios);
    }

    ghost function Abs(): State
      reads this, list, list.threads
    {
      State(value, hold, owner, original, list.tids, list.Cur())
    }

    /** The list is a ring; the owner is a thread, and the mutex is free or owned. */
    ghost predicate Valid()
      reads this, list, list.head, list.threads
    {
      && list.Valid()
      && (owner == NOBODY || 0 <= owner < |list.threads|)
      && (owner == NOBODY ==> value > 0)
    }

    /** The section of rt_mutex_take, called by a thread that is running. */
    method TakeSection(thread: nat, time: int) returns (r: Result)
      requires Valid() && thread < |list.threads| && thread !in list.tids
      modifies this, list, list.head, list.threads
      ensures list.Valid() && Abs() == Take(old(Abs()), thread, time != 0)
      ensures r == TakeResult(old(Abs()), thread, time != 0)
      ensures r == Ok ==> owner == thread && hold == old(hold) + 1 && list.tids == old(list.tids)
      ensures r == Ok <==> old(hold) < HOLD_MAX && (old(owner) == thread || old(value) > 0)
      ensures r == Full ==> old(hold) >= HOLD_MAX && hold == old(hold)
      ensures r == TimedOut ==> time == 0 && old(owner) != thread && old(value) == 0 && Abs() == old(Abs())
      ensures r == Suspended ==> time != 0 && owner == old(owner) != thread && thread in list.tids
    {
      hide Place, InsertAt, Ring, LinkedAt, NoDup;
      if owner == thread {
        if hold < HOLD_MAX {
          hold := hold + 1;
        } else {
          return Full;
        }
      } else {
        if value > 0 {
          value := value - 1;
          owner := thread;
          original := list.threads[thread].prio;
          if hold < HOLD_MAX {
            hold := hold + 1;
          } else {
            return Full;
          }
        } else {
          if time == 0 {
            return TimedOut;
          } else {
            if list.threads[thread].prio < list.threads[owner].prio {
              list.ChangePriority(owner, list.threads[thread].prio);
            }
            list.SuspendThread(thread, Prio);
            return Suspended;
          }
        }
      }
      return Ok;
    }

    /** The first waiter becomes the owner and leaves the list.  As `hold` is 0 its
        overflow test cannot fail here. */
    method HandOver()
      requires list.Valid() && list.tids != [] && hold == 0
      modifies this`owner, this`original, this`hold, list`tids, list.head, list.threads
      ensures list.Valid() && list.Cur() == old(list.Cur())
      ensures owner == old(list.tids)[0] < |list.threads| && list.tids == old(list.tids)[1..]
      ensures original == list.Cur()[old(list.tids)[0]] && hold == 1
    {
      hide Ring, LinkedAt, NoDup;
      var next := list.FirstThread();
      owner := next;
      original := list.threads[next].prio;
      hold := hold + 1;
      var _ := list.ResumeThread();
    }

    /** The owner gets its own priority back. */
    method RestorePriority()
      requires list.Valid() && 0 <= owner < |list.threads|
      modifies list.threads
      ensures list.Valid() && list.Cur() == old(list.Cur())[owner := original]
    {
      if original != list.threads[owner].prio {
        list.ChangePriority(owner, original);
      }
    }

    /** The section of rt_mutex_release. */
    method ReleaseSection(thread: nat) returns (r: Result)
      requires Valid() && (owner == thread ==> 0 < hold)
      modifies this, list, list.head, list.threads
      ensures list.Valid() && Abs() == Release(old(Abs()), thread)
      ensures r == if old(owner) != thread then NotOwner
                   else if old(hold) == 1 && |old(list.tids)| == 0 && old(value) >= VALUE_MAX then Full else Ok
    {
      if thread != owner {
        return NotOwner;
      }
      r := Ok;
      hold := hold - 1;
      if hold == 0 {
        r := LastRelease(thread);
      }
    }

    method LastRelease(thread: nat) returns (r: Result)
      requires Valid() && owner == thread && hold == 0
      modifies this, list, list.head, list.threads
      ensures list.Valid() && Abs() == Release(old(Abs()).(hold := 1), thread)
      ensures r == if |old(list.tids)| == 0 && old(value) >= VALUE_MAX then Full else Ok
    {
      hide Ring, LinkedAt, NoDup;
      r := Ok;
      RestorePriority();
      var empty := list.IsEmptyList();
      if !empty {
        HandOver();
      } else {
        if value < VALUE_MAX {
          value := value + 1;
        } else {
          return Full;
        }
        owner := NOBODY;
        original := NO_PRIORITY;
      }
    }

    /** A waiter's timer fires: the thread unlinks itself. */
    method ExpireSection(thread: nat)
      requires Valid() && thread in list.tids
      modifies list, list.head, list.threads
      ensures list.Valid() && Abs() == Expire(old(Abs()), thread)
    {
      list.LeaveList(thread);
    }
  }
}
