/** The vehicle's mission and report protocol (hcics_app.c).  The UDP thread reserves a
    mission and queues it; the mission thread runs it and reports; a report that could
    not be sent waits in one slot until the UDP thread flushes it. */
module MissionReport {
  import opened Common
  import opened FaultText

  const QUEUE_DEPTH: nat := 12   // HCICS_EVENT_DEPTH

  datatype Cmd = Done | Error

  /** `ticket` numbers accepted faults; the program does not store it. */
  datatype Msg = Msg(fault: Fault, peer: int, ticket: nat)
  datatype Report = Report(cmd: Cmd, param: nat, peer: int, ticket: nat)

  /** What hcics_clear_pending_report_if_current compares. */
  predicate SameReport(a: Report, b: Report) {
    a.cmd == b.cmd && a.param == b.param && a.peer == b.peer
  }

  /** Where the UDP thread is. */
  datatype Udp =
    | Listening
    | FlushSend(r: Report)            // slot copied, lock dropped
    | FlushClear(r: Report)           // sendto succeeded
    | Parsed(f: Fault, peer: int)     // first look at the slot still to come
    | Enqueue(f: Fault, peer: int)    // second look at the slot still to come
    | Reserve(f: Fault, peer: int)    // about to take state_lock
    | NotBusy(f: Fault, peer: int)    // has state_lock, saw busy clear
    | NoReport(f: Fault, peer: int)   // has state_lock, saw the slot empty
    | Reserved(m: Msg)                // busy set, not queued yet
    | RollBack                        // queue was full

  /** Where the mission thread is. */
  datatype Mission =
    | Idle
    | Receiving(m: Msg)               // node unlinked, still in use
    | Starting(m: Msg)
    | Running(m: Msg)
    | Reporting(m: Msg, cmd: Cmd)     // about to send the final report
    | Storing(m: Msg, cmd: Cmd)       // send failed
    | Releasing

  /** `accepted` counts reservations, `sent` lists the tickets of final reports that
      left and `reports` the reports themselves; the flags record the branches claimed to be unreachable. */
  datatype State = State(busy: bool, pending: Option<Report>, queue: seq<Msg>, udp: Udp, mission: Mission,
                         accepted: nat, sent: seq<nat>, reports: seq<Report>,
                         occupied: bool, rolledBack: bool, invalid: bool)

  datatype Step =
    | StartFlush                      // lock section of hcics_flush_pending_report
    | FlushResult(ok: bool)
    | Clear
    | Receive(f: Fault, peer: int)    // a FAULT text was parsed
    | FirstLook
    | SecondLook
    | TakeStateLock
    | LookAtSlot
    | SetBusy
    | Send                            // rt_mq_send
    | UndoReservation
    | Take                            // first section of rt_mq_recv
    | Taken
    | Begin                           // entry of hcics_run_mission
    | Finish(cmd: Cmd)
    | ReportResult(ok: bool)
    | Store
    | Release

  /** The UDP thread holds state_lock. */
  predicate StateLocked(s: State) {
    s.udp.NotBusy? || s.udp.NoReport?
  }

  predicate Enabled(s: State, a: Step) {
    match a
    case StartFlush => s.udp == Listening
    case FlushResult(_) => s.udp.FlushSend?
    case Clear => s.udp.FlushClear?
    case Receive(_, _) => s.udp == Listening
    case FirstLook => s.udp.Parsed?
    case SecondLook => s.udp.Enqueue?
    case TakeStateLock => s.udp.Reserve?
    case LookAtSlot => s.udp.NotBusy?
    case SetBusy => s.udp.NoReport?
    case Send => s.udp.Reserved?
    case UndoReservation => s.udp == RollBack
    case Take => s.mission == Idle && |s.queue| > 0
    case Taken => s.mission.Receiving?
    case Begin => s.mission.Starting?
    case Finish(_) => s.mission.Running?
    case ReportResult(_) => s.mission.Reporting?
    case Store => s.mission.Storing?
    case Release => s.mission == Releasing && !StateLocked(s)
  }

  function Final(m: Msg, cmd: Cmd): Report {
    Report(cmd, m.fault.id, m.peer, m.ticket)
  }

  /** Nodes of the message queue in use. */
  function InUse(s: State): nat {
    |s.queue| + if s.mission.Receiving? then 1 else 0
  }

  function Apply(s: State, a: Step): State
    requires Enabled(s, a)
  {
    match a
    case StartFlush => if s.pending.Some? then s.(udp := FlushSend(s.pending.value)) else s
    case FlushResult(ok) =>
      if ok then s.(udp := FlushClear(s.udp.r), sent := s.sent + [s.udp.r.ticket], reports := s.reports + [s.udp.r])
      else s.(udp := Listening)
    case Clear =>
      s.(udp := Listening,
         pending := if s.pending.Some? && SameReport(s.pending.value, s.udp.r) then None else s.pending)
    case Receive(f, peer) => s.(udp := Parsed(f, peer))
    case FirstLook => s.(udp := if s.pending.Some? then Listening else Enqueue(s.udp.f, s.udp.peer))
    case SecondLook =>
      s.(udp := if !ValidFault(s.udp.f) || s.pending.Some? then Listening else Reserve(s.udp.f, s.udp.peer))
    case TakeStateLock => s.(udp := if s.busy then Listening else NotBusy(s.udp.f, s.udp.peer))
    case LookAtSlot => s.(udp := if s.pending.Some? then Listening else NoReport(s.udp.f, s.udp.peer))
    case SetBusy =>
      s.(busy := true, accepted := s.accepted + 1, udp := Reserved(Msg(s.udp.f, s.udp.peer, s.accepted)))
    case Send =>
      if InUse(s) >= QUEUE_DEPTH then s.(udp := RollBack, rolledBack := true)
      else s.(udp := Listening, queue := s.queue + [s.udp.m])
    case UndoReservation => s.(udp := Listening, busy := false)
    case Take => s.(mission := Receiving(s.queue[0]), queue := s.queue[1..])
    case Taken => s.(mission := Starting(s.mission.m))
    case Begin =>
      if ValidFault(s.mission.m.fault) then s.(mission := Running(s.mission.m))
      else s.(mission := Idle, invalid := true)
    case Finish(cmd) => s.(mission := Reporting(s.mission.m, cmd))
    case ReportResult(ok) =>
      if ok then s.(mission := Releasing, sent := s.sent + [s.mission.m.ticket],
                    reports := s.reports + [Final(s.mission.m, s.mission.cmd)])
      else s.(mission := Storing(s.mission.m, s.mission.cmd))
    case Store =>
      if s.pending.Some? then s.(mission := Releasing, occupied := true)
      else s.(mission := Releasing, pending := Some(Final(s.mission.m, s.mission.cmd)))
    case Release => s.(mission := Idle, busy := false)
  }

  /** The missions reserved, queued or running whose report has not gone out. */
  function Open(s: State): seq<Msg> {
    (if s.udp.Reserved? then [s.udp.m] else [])
    + s.queue
    + (if s.mission == Idle || s.mission == Releasing then [] else [s.mission.m])
  }

  /** At most one mission is under way, and `busy` says so. */
  ghost predicate OneMission(s: State) {
    Single(s) && OpenUnsent(s) && Looked(s)
  }

  ghost predicate Single(s: State) {
    |Open(s)| + (if s.mission == Releasing then 1 else 0) == (if s.busy then 1 else 0)
  }

  ghost predicate OpenUnsent(s: State) {
    forall m :: m in Open(s) ==> ValidFault(m.fault) && m.ticket < s.accepted && m.ticket !in s.sent
  }

  /** What the UDP thread has looked at still holds. */
  ghost predicate Looked(s: State) {
    && (s.pending.Some? ==> Open(s) == [])
    && ((s.udp.NotBusy? || s.udp.NoReport?) ==> !s.busy)
    && ((s.udp.Reserve? || s.udp.NotBusy? || s.udp.NoReport?) ==> ValidFault(s.udp.f))
    && (s.udp.NoReport? ==> s.pending.None?)
    && s.udp != RollBack
    && !s.occupied && !s.rolledBack && !s.invalid
  }

  /** Reports go out once; the slot holds an unsent report unless the UDP thread is
      about to clear it. */
  ghost predicate ExactlyOnce(s: State) {
    && NoDup(s.sent)
    && (forall x :: x in s.sent ==> x < s.accepted)
    && (s.udp.FlushSend? ==> s.pending == Some(s.udp.r))
    && (s.udp.FlushClear? ==> s.pending == Some(s.udp.r) && s.udp.r.ticket in s.sent)
    && (s.pending.Some? ==> s.pending.value.ticket < s.accepted
                            && (s.pending.value.ticket in s.sent ==> s.udp.FlushClear?))
  }

  /** Each accepted fault is still open, or its report was sent or waits in the slot. */
  ghost predicate Covered(s: State) {
    forall t: nat :: t < s.accepted ==> t in s.sent || IsOpen(s, t) || IsPending(s, t)
  }

  ghost predicate IsOpen(s: State, t: nat) {
    exists m :: m in Open(s) && m.ticket == t
  }

  ghost predicate IsPending(s: State, t: nat) {
    s.pending.Some? && s.pending.value.ticket == t
  }

  ghost predicate Inv(s: State) {
    OneMission(s) && ExactlyOnce(s) && Covered(s)
  }

  /** A reserved mission is the only one, so the queue has room for it. */
  lemma RoomForReserved(s: State)
    requires Single(s) && s.udp.Reserved?
    ensures InUse(s) == 0
  {
  }

  lemma StepSingle(s: State, a: Step)
    requires OneMission(s) && Enabled(s, a)
    ensures Single(Apply(s, a))
  {
    hide ValidFault, SameReport, Final, InUse;
    if a.Begin? {
      OpenMember(s, s.mission.m);
    } else if a.Send? {
      RoomForReserved(s);
    }
  }

  ghost predicate InOpen(s: State, m: Msg) {
    || s.udp == Reserved(m)
    || m in s.queue
    || (s.mission != Idle && s.mission != Releasing && s.mission.m == m)
  }

  lemma OpenMember(s: State, m: Msg)
    ensures m in Open(s) <==> InOpen(s, m)
  {
    var u := if s.udp.Reserved? then [s.udp.m] else [];
    var w := if s.mission == Idle || s.mission == Releasing then [] else [s.mission.m];
    assert Open(s) == u + s.queue + w;
    if m in s.queue {
      var i :| 0 <= i < |s.queue| && s.queue[i] == m;
      assert Open(s)[|u| + i] == m;
    }
    if m in w {
      assert Open(s)[|u| + |s.queue|] == m;
    }
    if m in u {
      assert Open(s)[0] == m;
    }
  }

  /** Missions open after a step were open before, but for the one just reserved. */
  lemma OpenComes(s: State, a: Step, m: Msg)
    requires Enabled(s, a) && InOpen(Apply(s, a), m)
    ensures InOpen(s, m) || (a == SetBusy && m == Msg(s.udp.f, s.udp.peer, s.accepted))
  {
    hide ValidFault, SameReport, Final, Open, InUse;
    var s' := Apply(s, a);
    if a.Take? {
      assert s.queue == [s.queue[0]] + s'.queue;
    }
  }

  /** A report goes out only when no mission is left open. */
  lemma SendsLast(s: State, a: Step)
    requires Single(s) && Looked(s) && ExactlyOnce(s) && Enabled(s, a)
    ensures Apply(s, a).sent == s.sent || Open(Apply(s, a)) == []
  {
    hide ValidFault, SameReport, Final, NoDup;
  }

  lemma StepOpenUnsent(s: State, a: Step)
    requires Inv(s) && Enabled(s, a)
    ensures OpenUnsent(Apply(s, a))
  {
    hide ValidFault, SameReport, Final, Covered, NoDup, Open, InOpen;
    var s' := Apply(s, a);
    SendsLast(s, a);
    forall m | m in Open(s') ensures ValidFault(m.fault) && m.ticket < s'.accepted && m.ticket !in s'.sent {
      OpenMember(s', m);
      OpenMember(s, m);
      OpenComes(s, a, m);
    }
  }

  lemma StepLooked(s: State, a: Step)
    requires OneMission(s) && Enabled(s, a)
    ensures Looked(Apply(s, a))
  {
    hide SameReport, Final, ValidFault, InUse;
    if a.Begin? {
      OpenMember(s, s.mission.m);
    } else if a.Send? {
      RoomForReserved(s);
    }
  }

  lemma StepOne(s: State, a: Step)
    requires Inv(s) && Enabled(s, a)
    ensures OneMission(Apply(s, a))
  {
    hide Apply, Enabled, Single, OpenUnsent, Looked, ExactlyOnce, Covered;
    StepSingle(s, a);
    StepOpenUnsent(s, a);
    StepLooked(s, a);
  }

  lemma StepOnce(s: State, a: Step)
    requires OneMission(s) && ExactlyOnce(s) && Enabled(s, a)
    ensures ExactlyOnce(Apply(s, a))
  {
    hide Open;
    var s' := Apply(s, a);
    match a {
      case ReportResult(_) => ReportingIsOpen(s);
      case Store => StoringIsOpen(s);
      case _ =>
    }
  }

  lemma ReportingIsOpen(s: State)
    requires s.mission.Reporting?
    ensures s.mission.m in Open(s)
  {
  }

  lemma StoringIsOpen(s: State)
    requires s.mission.Storing?
    ensures s.mission.m in Open(s)
  {
  }

  /** Open missions and the slot only pass tickets on to each other or to `sent`. */
  lemma StepCovered(s: State, a: Step)
    requires Inv(s) && Enabled(s, a)
    ensures Covered(Apply(s, a))
  {
    hide Covered, OneMission, ExactlyOnce;
    var s' := Apply(s, a);
    forall t: nat | t < s'.accepted ensures t in s'.sent || IsOpen(s', t) || IsPending(s', t) {
      PassesOn(s, a, t);
    }
    CoveredIntro(s');
  }

  lemma CoveredIntro(s: State)
    requires forall t: nat :: t < s.accepted ==> t in s.sent || IsOpen(s, t) || IsPending(s, t)
    ensures Covered(s)
  {
  }

  /** An open mission stays open until its report is sent or stored. */
  lemma OpenPasses(s: State, a: Step, m: Msg)
    requires OneMission(s) && Enabled(s, a) && m in Open(s)
    ensures m in Open(Apply(s, a)) || m.ticket in Apply(s, a).sent || IsPending(Apply(s, a), m.ticket)
  {
    assert a.Take? ==> s.queue == [s.queue[0]] + Apply(s, a).queue;
  }

  /** A ticket sent, or waiting in the slot, stays so. */
  lemma SettledPasses(s: State, a: Step, t: nat)
    requires ExactlyOnce(s) && Enabled(s, a) && (t in s.sent || IsPending(s, t))
    ensures t in Apply(s, a).sent || IsPending(Apply(s, a), t)
  {
    hide Apply, Enabled, ExactlyOnce, IsPending;
    if t in s.sent {
      SentGrows(s, a);
    } else {
      SlotPasses(s, a, t);
    }
  }

  lemma SentGrows(s: State, a: Step)
    requires Enabled(s, a)
    ensures forall x :: x in s.sent ==> x in Apply(s, a).sent
  {
    hide ValidFault, SameReport, Final, InUse;
  }

  lemma SlotPasses(s: State, a: Step, t: nat)
    requires ExactlyOnce(s) && Enabled(s, a) && t !in s.sent && IsPending(s, t)
    ensures IsPending(Apply(s, a), t)
  {
    hide ValidFault, NoDup, SameReport, Final, InUse;
  }

  lemma PassesOn(s: State, a: Step, t: nat)
    requires Inv(s) && Enabled(s, a) && t < Apply(s, a).accepted
    ensures t in Apply(s, a).sent || IsOpen(Apply(s, a), t) || IsPending(Apply(s, a), t)
  {
    hide Open, OneMission, ExactlyOnce, ValidFault, IsPending;
    var s' := Apply(s, a);
    if a == SetBusy && t == s.accepted {
      ReservedIsOpen(s');
    } else if IsOpen(s, t) {
      var m :| m in Open(s) && m.ticket == t;
      OpenPasses(s, a, m);
    } else {
      SettledPasses(s, a, t);
    }
  }

  lemma ReservedIsOpen(s: State)
    requires s.udp.Reserved?
    ensures s.udp.m in Open(s)
  {
  }

  lemma StepInv(s: State, a: Step)
    requires Inv(s) && Enabled(s, a)
    ensures Inv(Apply(s, a))
  {
    hide OneMission, ExactlyOnce, Covered, Apply;
    StepOne(s, a);
    StepOnce(s, a);
    StepCovered(s, a);
  }

  ghost predicate Legal(s: State, run: seq<Step>)
    decreases |run|
  {
    |run| > 0 ==> Enabled(s, run[0]) && Legal(Apply(s, run[0]), run[1..])
  }

  ghost function Run(s: State, run: seq<Step>): State
    requires Legal(s, run)
    decreases |run|
  {
    if |run| == 0 then s else Run(Apply(s, run[0]), run[1..])
  }

  lemma {:induction false} RunInv(s: State, run: seq<Step>)
    requires Inv(s) && Legal(s, run)
    ensures Inv(Run(s, run))
    decreases |run|
  {
    hide Inv, Apply, Enabled;
    if |run| > 0 {
      StepInv(s, run[0]);
      RunInv(Apply(s, run[0]), run[1..]);
    }
  }

  /** hcics_app_init */
  const START: State := State(false, None, [], Listening, Idle, 0, [], [], false, false, false)

  lemma StartInv()
    ensures Inv(START)
  {
    assert Open(START) == [];
  }

  lemma FlagsClear(s: State)
    requires Looked(s)
    ensures !s.occupied && !s.rolledBack && !s.invalid
  {
  }

  /** Along every interleaving of the two threads and every pattern of failing sends:
      at most one mission is under way; no report finds the slot occupied, no
      reservation is rolled back and no mission returns early; no fault's final report
      is sent twice; and once nothing is under way every accepted fault's report was
      sent, or is the one in the slot. */
  lemma Safety(run: seq<Step>)
    requires Legal(START, run)
    ensures var z := Run(START, run);
            && |Open(z)| <= 1 && (Open(z) != [] ==> z.busy)
            && !z.occupied && !z.rolledBack && !z.invalid
            && NoDup(z.sent) && (forall t :: t in z.sent ==> t < z.accepted)
            && (!z.busy ==> forall t: nat :: t < z.accepted ==> t in z.sent || IsPending(z, t))
  {
    hide Legal, Run, Apply, Enabled, Looked;
    StartInv();
    RunInv(START, run);
    var z := Run(START, run);
    FlagsClear(z);
    if !z.busy {
      forall t: nat | t < z.accepted ensures t in z.sent || IsPending(z, t) {
        assert t in z.sent || IsOpen(z, t) || IsPending(z, t);
      }
    }
  }

  /** The slot's report is unsent except in the instant between its send and its
      clearing, so a second flush never repeats it. */
  lemma SlotUnsent(s: State)
    requires Inv(s) && s.pending.Some? && !s.udp.FlushClear?
    ensures s.pending.value.ticket !in s.sent
    ensures forall m :: m in Open(s) ==> m.ticket != s.pending.value.ticket
  {
  }
}
