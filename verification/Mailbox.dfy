/** The mailbox (ipc.c): a ring of words behaving as a bounded double-ended queue. */
module Mailbox {

  const ENTRY_MAX: nat := 0xffff   // RT_MB_ENTRY_MAX

  datatype Result = Ok | Full | Empty | Overflow

  /** Ring position i places behind `from`. */
  function Slot(from: nat, i: nat, size: nat): nat
    requires from < size && i <= size
  {
    if from + i < size then from + i else from + i - size
  }

  /** The mails in a ring, oldest first. */
  ghost function Mails<T>(pool: seq<T>, from: nat, entry: nat): (r: seq<T>)
    requires from < |pool| && entry <= |pool|
    ensures |r| == entry && forall i :: 0 <= i < entry ==> r[i] == pool[Slot(from, i, |pool|)]
  {
    seq(entry, i requires 0 <= i < entry => pool[Slot(from, i, |pool|)])
  }

  /** The next ring position. */
  function Ahead(at: nat, size: nat): nat {
    if at + 1 >= size then 0 else at + 1
  }

  /** Different places hold different mails. */
  lemma SlotsDiffer(from: nat, i: nat, j: nat, size: nat)
    requires from < size && i < size && j < size && i != j
    ensures Slot(from, i, size) != Slot(from, j, size)
  {
  }

  lemma MailsAppend<T>(pool: seq<T>, from: nat, entry: nat, x: T)
    requires from < |pool| && entry < |pool|
    ensures Mails(pool[Slot(from, entry, |pool|) := x], from, entry + 1) == Mails(pool, from, entry) + [x]
    ensures Slot(from, entry, |pool|) < |pool|
    ensures Slot(from, entry + 1, |pool|) == Ahead(Slot(from, entry, |pool|), |pool|)
  {
    forall i | 0 <= i < entry ensures Slot(from, i, |pool|) != Slot(from, entry, |pool|) {
      SlotsDiffer(from, i, entry, |pool|);
    }
  }

  lemma MailsPrepend<T>(pool: seq<T>, from: nat, entry: nat, x: T)
    requires from < |pool| && entry < |pool|
    ensures var back := if from > 0 then from - 1 else |pool| - 1;
            && Mails(pool[back := x], back, entry + 1) == [x] + Mails(pool, from, entry)
            && Slot(back, entry + 1, |pool|) == Slot(from, entry, |pool|)
  {
    hide Slot, Mails;
    var back := if from > 0 then from - 1 else |pool| - 1;
    var before, after := [x] + Mails(pool, from, entry), Mails(pool[back := x], back, entry + 1);
    SlotBack(from, 0, |pool|);
    SlotBack(from, entry, |pool|);
    forall j | 0 <= j < entry + 1 ensures after[j] == before[j] {
      if j > 0 {
        SlotBack(from, j - 1, |pool|);
      }
    }
    assert after == before;
  }

  /** Seen from one position back, every place is one further away. */
  lemma SlotBack(from: nat, i: nat, size: nat)
    requires from < size && i <= size
    ensures var back := if from > 0 then from - 1 else size - 1;
            && Slot(back, 0, size) == back
            && Slot(from, i, size) < size && (i < size ==> Slot(back, i + 1, size) == Slot(from, i, size))
            && (i + 1 < size ==> Slot(from, i, size) != back)
  {
  }

  lemma MailsTake<T>(pool: seq<T>, from: nat, entry: nat)
    requires from < |pool| && 0 < entry <= |pool|
    ensures Mails(pool, from, entry)[0] == pool[from]
    ensures Mails(pool, Ahead(from, |pool|), entry - 1) == Mails(pool, from, entry)[1..]
    ensures Slot(Ahead(from, |pool|), entry - 1, |pool|) == Slot(from, entry, |pool|)
  {
  }

  /** A mail is a word in the source; here any value. */
  class Mailbox<T(0)> {
    const msgPool: array<T>
    var entry: nat
    var inOffset: nat
    var outOffset: nat

    /** rt_mb_init; sizes are 16 bits. */
    constructor (size: nat)
      requires size <= ENTRY_MAX
      ensures Valid() && msgPool.Length == size && Contents() == [] && fresh(msgPool)
    {
      msgPool := new T[size];
      entry, inOffset, outOffset := 0, 0, 0;
    }

    /** The writing end is `entry` places ahead of the reading end, modulo the size. */
    ghost predicate Valid()
      reads this
    {
      && entry <= msgPool.Length <= ENTRY_MAX
      && (msgPool.Length > 0 ==> outOffset < msgPool.Length && inOffset == Slot(outOffset, entry, msgPool.Length))
    }

    ghost function Contents(): (c: seq<T>)
      requires Valid()
      reads this, msgPool
      ensures |c| == entry
    {
      if msgPool.Length == 0 then [] else Mails(msgPool[..], outOffset, entry)
    }

    /** The section of rt_mb_send_wait that finds room or gives up. */
    method SendMail(value: T) returns (r: Result)
      requires Valid()
      modifies this, msgPool
      ensures Valid()
      ensures r == if |old(Contents())| == msgPool.Length then Full else Ok
      ensures Contents() == if r == Ok then old(Contents()) + [value] else old(Contents())
    {
      hide Slot, Mails;
      if entry == msgPool.Length {
        return Full;
      }
      MailsAppend(msgPool[..], outOffset, entry, value);
      msgPool[inOffset] := value;
      inOffset := inOffset + 1;
      if inOffset >= msgPool.Length {
        inOffset := 0;
      }
      if entry < ENTRY_MAX {
        entry := entry + 1;
      } else {
        return Overflow;
      }
      return Ok;
    }

    /** rt_mb_urgent */
    method SendUrgent(value: T) returns (r: Result)
      requires Valid()
      modifies this, msgPool
      ensures Valid()
      ensures r == if |old(Contents())| == msgPool.Length then Full else Ok
      ensures Contents() == if r == Ok then [value] + old(Contents()) else old(Contents())
    {
      hide Slot, Mails;
      if entry == msgPool.Length {
        return Full;
      }
      MailsPrepend(msgPool[..], outOffset, entry, value);
      if outOffset > 0 {
        outOffset := outOffset - 1;
      } else {
        outOffset := msgPool.Length - 1;
      }
      msgPool[outOffset] := value;
      entry := entry + 1;
      return Ok;
    }

    /** The section of rt_mb_recv that takes a mail or gives up. */
    method RecvMail() returns (r: Result, value: T)
      requires Valid()
      modifies this
      ensures Valid()
      ensures r == if |old(Contents())| == 0 then Empty else Ok
      ensures r == Ok ==> value == old(Contents())[0] && Contents() == old(Contents())[1..]
      ensures r == Empty ==> Contents() == old(Contents())
    {
      hide Slot, Mails;
      if entry == 0 {
        value := *;
        return Empty, value;
      }
      MailsTake(msgPool[..], outOffset, entry);
      value := msgPool[outOffset];
      outOffset := outOffset + 1;
      if outOffset >= msgPool.Length {
        outOffset := 0;
      }
      if entry > 0 {
        entry := entry - 1;
      }
      return Ok, value;
    }

    /** The mail part of RT_IPC_CMD_RESET. */
    method ResetMail()
      requires Valid()
      modifies this
      ensures Valid() && Contents() == []
    {
      entry, inOffset, outOffset := 0, 0, 0;
    }
  }
}
