/** hcics_app.c's functions over the shared context.  Each is proved to be, when the
    other thread does not come between, a run of the interleaving model MissionReport:
    `run` lists the steps taken, whatever the other thread is in the middle of. */
module MissionContext {
  import opened Common
  import opened FaultText
  import opened MissionReport

  datatype Result = Accepted | BusyError | Invalid | QueueFull

  ghost predicate Reaches(s: State, run: seq<Step>, z: State) {
    Legal(s, run) && Run(s, run) == z
  }

  lemma ReachOne(s: State, a: Step)
    requires Enabled(s, a)
    ensures Reaches(s, [a], Apply(s, a))
  {
    assert [a][1..] == [];
  }

  lemma {:induction false} ReachJoin(s: State, first: seq<Step>, mid: State, rest: seq<Step>, z: State)
    requires Reaches(s, first, mid) && Reaches(mid, rest, z)
    ensures Reaches(s, first + rest, z)
    decreases |first|
  {
    hide Apply, Enabled;
    if |first| == 0 {
      assert first + rest == rest;
    } else {
      ReachJoin(Apply(s, first[0]), first[1..], mid, rest, z);
      assert (first + rest)[1..] == first[1..] + rest;
    }
  }

  lemma ReachMore(s: State, run: seq<Step>, mid: State, a: Step)
    requires Reaches(s, run, mid) && Enabled(mid, a)
    ensures Reaches(s, run + [a], Apply(mid, a))
  {
    hide *;
    ReachOne(mid, a);
    ReachJoin(s, run, mid, [a], Apply(mid, a));
  }

  class Context {
    var busy: bool
    var pending: Option<Report>
    var queue: seq<Msg>
    ghost var accepted: nat
    ghost var sent: seq<nat>
    ghost var reports: seq<Report>
    ghost var occupied: bool
    ghost var rolledBack: bool
    ghost var invalid: bool

    /** hcics_app_init */
    constructor ()
      ensures Abs(Listening, Idle) == START
    {
      busy, pending, queue := false, None, [];
      accepted, sent, reports := 0, [], [];
      occupied, rolledBack, invalid := false, false, false;
    }

    ghost function Abs(udp: Udp, mission: Mission): State
      reads this
    {
      State(busy, pending, queue, udp, mission, accepted, sent, reports, occupied, rolledBack, invalid)
    }

    /** hcics_reserve_mission */
    method ReserveMission(fault: Fault, peer: int, ghost mission: Mission)
      returns (r: Result, ghost ticket: nat, ghost run: seq<Step>)
      requires ValidFault(fault)
      modifies this
      ensures r == if old(busy) || old(pending).Some? then BusyError else Accepted
      ensures r == BusyError ==> busy == old(busy)
      ensures r == Accepted ==> busy && ticket == old(accepted)
      ensures pending == old(pending) && queue == old(queue)
      ensures Reaches(old(Abs(Reserve(fault, peer), mission)), run,
                      Abs(if r == Accepted then Reserved(Msg(fault, peer, ticket)) else Listening, mission))
    {
      hide Reaches;
      ghost var s0 := Abs(Reserve(fault, peer), mission);
      ticket := accepted;
      run := [TakeStateLock];
      ReachOne(s0, TakeStateLock);
      ghost var s1 := Apply(s0, TakeStateLock);
      if busy {
        return BusyError, ticket, run;
      }
      ReachMore(s0, run, s1, LookAtSlot);
      run := run + [LookAtSlot];
      ghost var s2 := Apply(s1, LookAtSlot);
      if pending.Some? {
        return BusyError, ticket, run;
      }
      ReachMore(s0, run, s2, SetBusy);
      run := run + [SetBusy];
      busy := true;
      accepted := accepted + 1;
      r := Accepted;
    }

    /** The locked section of hcics_release_mission. */
    method ReleaseMission()
      modifies this`busy
      ensures !busy
    {
      busy := false;
    }

    /** rt_mq_send without waiting; `inFlight` is the node the mission thread has taken
        off the list but not yet given back. */
    method SendToQueue(m: Msg, inFlight: bool) returns (ok: bool)
      modifies this`queue
      ensures ok <==> |old(queue)| + (if inFlight then 1 else 0) < QUEUE_DEPTH
      ensures queue == if ok then old(queue) + [m] else old(queue)
    {
      ok := |queue| + (if inFlight then 1 else 0) < QUEUE_DEPTH;
      if ok {
        queue := queue + [m];
      }
    }

    /** The end of hcics_enqueue_fault: queue the message, or take the reservation back. */
    method QueueReserved(m: Msg, inFlight: bool, ghost mission: Mission) returns (r: Result, ghost run: seq<Step>)
      requires inFlight <==> mission.Receiving?
      modifies this
      ensures r == if old(InUse(Abs(Listening, mission))) >= QUEUE_DEPTH then QueueFull else Accepted
      ensures Reaches(old(Abs(Reserved(m), mission)), run, Abs(Listening, mission))
    {
      hide Reaches;
      ghost var s0 := Abs(Reserved(m), mission);
      ReachOne(s0, Step.Send);
      run := [Step.Send];
      var ok := SendToQueue(m, inFlight);
      r := Accepted;
      if !ok {
        rolledBack := true;
        ReachMore(s0, run, Apply(s0, Step.Send), UndoReservation);
        run := run + [UndoReservation];
        ReleaseMission();
        r := QueueFull;
      }
    }

    /** hcics_enqueue_fault; the peer is always known here. */
    method EnqueueFault(fault: Fault, peer: int, inFlight: bool, ghost mission: Mission, ticket: nat)
      returns (r: Result, ghost run: seq<Step>)
      requires inFlight <==> mission.Receiving?
      requires ticket == accepted
      modifies this
      ensures r == if !ValidFault(fault) then Invalid
                   else if old(pending).Some? || old(busy) then BusyError
                   else if old(InUse(Abs(Listening, mission))) >= QUEUE_DEPTH then QueueFull else Accepted
      ensures Reaches(old(Abs(Enqueue(fault, peer), mission)), run, Abs(Listening, mission))
    {
      hide Reaches, ValidFault;
      ghost var s0 := Abs(Enqueue(fault, peer), mission);
      ReachOne(s0, SecondLook);
      run := [SecondLook];
      if !ValidFault(fault) {
        return Invalid, run;
      }
      if pending.Some? {
        return BusyError, run;
      }
      ghost var t, more;
      r, t, more := ReserveMission(fault, peer, mission);
      ghost var s1 := Abs(if r == Accepted then Reserved(Msg(fault, peer, t)) else Listening, mission);
      ReachJoin(s0, run, Apply(s0, SecondLook), more, s1);
      run := run + more;
      if r == Accepted {
        r, more := QueueReserved(Msg(fault, peer, ticket), inFlight, mission);
        ReachJoin(s0, run, s1, more, Abs(Listening, mission));
        run := run + more;
      }
    }

    /** hcics_clear_pending_report_if_current */
    method ClearPendingIfCurrent(r: Report, ghost mission: Mission)
      modifies this`pending
      ensures Abs(Listening, mission) == Apply(old(Abs(FlushClear(r), mission)), Clear)
    {
      if pending.Some? && SameReport(pending.value, r) {
        pending := None;
      }
    }

    /** hcics_flush_pending_report, past its socket and link checks; `delivered` is what
        sendto reports. */
    method FlushPending(delivered: bool, ghost mission: Mission) returns (ghost run: seq<Step>)
      modifies this
      ensures pending == if delivered then None else old(pending)
      ensures busy == old(busy) && queue == old(queue)
      ensures Reaches(old(Abs(Listening, mission)), run, Abs(Listening, mission))
    {
      hide Reaches;
      ghost var s0 := Abs(Listening, mission);
      ReachOne(s0, StartFlush);
      run := [StartFlush];
      if pending.None? {
        return;
      }
      var r := pending.value;
      ghost var s1 := Apply(s0, StartFlush);
      ReachMore(s0, run, s1, FlushResult(delivered));
      run := run + [FlushResult(delivered)];
      if delivered {
        sent, reports := sent + [r.ticket], reports + [r];
        ghost var s2 := Apply(s1, FlushResult(true));
        ReachMore(s0, run, s2, Clear);
        run := run + [Clear];
        ClearPendingIfCurrent(r, mission);
      }
    }

    /** hcics_store_pending_report_locked */
    method StorePendingLocked(r: Report) returns (ok: bool)
      modifies this`pending
      ensures ok <==> old(pending).None?
      ensures pending == if ok then Some(r) else old(pending)
    {
      if pending.Some? {
        return false;
      }
      pending := Some(r);
      ok := true;
    }

    /** hcics_report_esp_final */
    method ReportFinal(m: Msg, cmd: Cmd, delivered: bool, ghost udp: Udp) returns (ghost run: seq<Step>)
      modifies this
      ensures pending == if delivered || old(pending).Some? then old(pending) else Some(Final(m, cmd))
      ensures busy == old(busy)
      ensures Reaches(old(Abs(udp, Reporting(m, cmd))), run, Abs(udp, Releasing))
    {
      hide Reaches;
      ghost var s0 := Abs(udp, Reporting(m, cmd));
      ReachOne(s0, ReportResult(delivered));
      run := [ReportResult(delivered)];
      if delivered {
        sent, reports := sent + [m.ticket], reports + [Final(m, cmd)];
      } else {
        ghost var s1 := Apply(s0, ReportResult(false));
        ReachMore(s0, run, s1, Store);
        run := run + [Store];
        var ok := StorePendingLocked(Final(m, cmd));
        if !ok {
          occupied := true;
        }
      }
    }

    /** hcics_run_mission from its entry to its return: `cmd` is how the drive ended and
        `delivered` whether the report's send succeeded. */
    method RunMission(m: Msg, cmd: Cmd, delivered: bool, ghost udp: Udp) returns (ghost run: seq<Step>)
      requires !udp.NotBusy? && !udp.NoReport?
      modifies this
      ensures ValidFault(m.fault) ==> !busy
      ensures !ValidFault(m.fault) ==> busy == old(busy) && pending == old(pending)
      ensures Reaches(old(Abs(udp, Starting(m))), run, Abs(udp, Idle))
    {
      hide Reaches, ValidFault, SameReport, InUse;
      ghost var s0 := Abs(udp, Starting(m));
      ReachOne(s0, Begin);
      run := [Begin];
      if !ValidFault(m.fault) {
        invalid := true;
        return;
      }
      ghost var s1 := Abs(udp, Running(m));
      ReachMore(s0, run, s1, Finish(cmd));
      run := run + [Finish(cmd)];
      ghost var s2 := Abs(udp, Reporting(m, cmd));
      ghost var more := ReportFinal(m, cmd, delivered, udp);
      ghost var s3 := Abs(udp, Releasing);
      ReachJoin(s0, run, s2, more, s3);
      run := run + more;
      ReachMore(s0, run, s3, Release);
      run := run + [Release];
      ReleaseMission();
    }
  }
}
