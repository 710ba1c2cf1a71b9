/** What the vehicle's final reports say.  The story below is told by the steps alone: which
    fault was received, which was accepted, how its mission ended.  Every report that leaves
    is proved to say just that. */
module MissionStory {
  import opened Common
  import opened FaultText
  import opened MissionReport

  /** `heard` is the fault received last and who sent it, `accepted` the faults accepted, in
      order, and `ended` how the mission of each ended. */
  datatype Story = Story(heard: Option<Msg>, accepted: seq<Msg>, ended: map<nat, Cmd>)

  const BLANK: Story := Story(None, [], map[])

  function Note(h: Story, a: Step): Story {
    match a
    case Receive(f, peer) => h.(heard := Some(Msg(f, peer, |h.accepted|)))
    case SetBusy =>
      if h.heard.None? then h
      else h.(accepted := h.accepted + [Msg(h.heard.value.fault, h.heard.value.peer, |h.accepted|)])
    case Finish(cmd) => if |h.accepted| == 0 then h else h.(ended := h.ended[|h.accepted| - 1 := cmd])
    case _ => h
  }

  function Told(h: Story, run: seq<Step>): Story
    decreases |run|
  {
    if |run| == 0 then h else Told(Note(h, run[0]), run[1..])
  }

  /** The report names the command, the panel and the addressee of the fault it answers. */
  ghost predicate Truthful(r: Report, h: Story) {
    && r.ticket < |h.accepted| && r.ticket in h.ended
    && r.cmd == h.ended[r.ticket]
    && r.param == h.accepted[r.ticket].fault.id
    && r.peer == h.accepted[r.ticket].peer
  }

  /** The fault on its way to being accepted, and who sent it. */
  function Carried(u: Udp): Option<(Fault, int)> {
    if u.Parsed? || u.Enqueue? || u.Reserve? || u.NotBusy? || u.NoReport? then Some((u.f, u.peer)) else None
  }

  /** A fault on its way to being accepted is the one received last. */
  ghost predicate Hears(u: Udp, h: Story) {
    Carried(u).Some? ==> h.heard.Some? && Carried(u).value == (h.heard.value.fault, h.heard.value.peer)
  }

  /** The mission under way is for the fault accepted last. */
  ghost predicate Latest(s: State, h: Story) {
    forall m :: m in Open(s) ==> |h.accepted| > 0 && m == h.accepted[|h.accepted| - 1]
  }

  ghost predicate Ends(s: State, h: Story) {
    s.mission.Reporting? || s.mission.Storing? ==>
      s.mission.m.ticket in h.ended && h.ended[s.mission.m.ticket] == s.mission.cmd
  }

  ghost predicate Numbered(s: State, h: Story) {
    && s.accepted == |h.accepted| && (forall i :: 0 <= i < |h.accepted| ==> h.accepted[i].ticket == i)
    && |s.reports| == |s.sent| && (forall i :: 0 <= i < |s.sent| ==> s.reports[i].ticket == s.sent[i])
  }

  ghost predicate AllTruthful(s: State, h: Story) {
    (s.pending.Some? ==> Truthful(s.pending.value, h)) && (forall r :: r in s.reports ==> Truthful(r, h))
  }

  ghost predicate Agrees(s: State, h: Story) {
    Hears(s.udp, h) && Latest(s, h) && Ends(s, h) && Numbered(s, h) && AllTruthful(s, h)
  }

  lemma StepHears(s: State, h: Story, a: Step)
    requires Enabled(s, a) && Hears(s.udp, h)
    ensures Hears(Apply(s, a).udp, Note(h, a))
  {
    hide Apply, Carried;
    CarriedOn(s, a);
  }

  lemma CarriedOn(s: State, a: Step)
    requires Enabled(s, a)
    ensures var u := Apply(s, a).udp;
            if a.Receive? then Carried(u) == Some((a.f, a.peer)) else Carried(u) == None || Carried(u) == Carried(s.udp)
  {
    hide ValidFault, SameReport, InUse, Final;
  }

  lemma StepNumbered(s: State, h: Story, a: Step)
    requires Enabled(s, a) && Agrees(s, h)
    ensures Numbered(Apply(s, a), Note(h, a))
  {
    hide ValidFault, SameReport, Open, InUse, Truthful, Latest, Ends, AllTruthful, Numbered, Apply;
    var s', h' := Apply(s, a), Note(h, a);
    if a == SetBusy { HeardThere(s, h); }
    StepCounts(s, a);
    NumberedAfter(s, h, s', h');
  }

  /** At most one report leaves, and its ticket with it. */
  ghost predicate Reports(s: State, s': State) {
    || (s'.sent == s.sent && s'.reports == s.reports)
    || (exists r: Report :: s'.sent == s.sent + [r.ticket] && s'.reports == s.reports + [r])
  }

  lemma StepCounts(s: State, a: Step)
    requires Enabled(s, a)
    ensures var s' := Apply(s, a);
            && s'.accepted == s.accepted + (if a == SetBusy then 1 else 0)
            && Reports(s, s')
  {
    hide ValidFault, SameReport, InUse;
    match a {
      case FlushResult(true) => assert Apply(s, a).sent == s.sent + [s.udp.r.ticket];
      case ReportResult(true) =>
        assert Apply(s, a).sent == s.sent + [Final(s.mission.m, s.mission.cmd).ticket];
      case _ =>
    }
  }

  lemma NumberedAfter(s: State, h: Story, s': State, h': Story)
    requires Numbered(s, h)
    requires Reports(s, s')
    requires s'.accepted - s.accepted == |h'.accepted| - |h.accepted|
    requires h'.accepted == h.accepted
             || exists f: Fault, peer: int :: h'.accepted == h.accepted + [Msg(f, peer, |h.accepted|)]
    ensures Numbered(s', h')
  {
  }

  lemma StepLatest(s: State, h: Story, a: Step)
    requires Inv(s) && Enabled(s, a) && Agrees(s, h)
    ensures Latest(Apply(s, a), Note(h, a))
  {
    hide ValidFault, SameReport, Final, Open, InOpen, InUse, Apply, Truthful, ExactlyOnce, Covered, Single;
    var s', h' := Apply(s, a), Note(h, a);
    if a == SetBusy { NoneOpen(s); }
    if a == SetBusy { HeardThere(s, h); }
    forall m | m in Open(s') ensures |h'.accepted| > 0 && m == h'.accepted[|h'.accepted| - 1] {
      OpenMember(s', m);
      OpenMember(s, m);
      OpenComes(s, a, m);
    }
  }

  /** Nothing is under way when a reservation is made. */
  lemma NoneOpen(s: State)
    requires OneMission(s) && s.udp.NoReport?
    ensures Open(s) == []
  {
  }

  lemma HeardThere(s: State, h: Story)
    requires Agrees(s, h) && s.udp.NoReport?
    ensures h.heard.Some? && h.heard.value.fault == s.udp.f && h.heard.value.peer == s.udp.peer
    ensures s.accepted == |h.accepted|
  {
  }

  lemma StepEnds(s: State, h: Story, a: Step)
    requires Inv(s) && Enabled(s, a) && Agrees(s, h)
    ensures Ends(Apply(s, a), Note(h, a))
  {
    hide ValidFault, SameReport, Open, InUse, Truthful, ExactlyOnce, Covered, OneMission;
    if a.Finish? {
      RunningLatest(s, h);
    }
  }

  lemma RunningLatest(s: State, h: Story)
    requires Agrees(s, h) && !s.mission.Idle? && !s.mission.Releasing?
    ensures |h.accepted| > 0 && s.mission.m == h.accepted[|h.accepted| - 1]
    ensures s.mission.m.ticket == |h.accepted| - 1
  {
    OpenMember(s, s.mission.m);
  }

  /** A report is told of a mission that has ended, so the story of it is finished. */
  lemma StillTruthful(r: Report, h: Story, a: Step)
    requires Truthful(r, h) && (a.Finish? ==> r.ticket < |h.accepted| - 1)
    ensures Truthful(r, Note(h, a))
  {
  }

  /** What a mission reports when it has ended. */
  lemma FinalTruthful(s: State, h: Story)
    requires Agrees(s, h) && (s.mission.Reporting? || s.mission.Storing?)
    ensures Truthful(Final(s.mission.m, s.mission.cmd), h)
  {
    hide Open;
    RunningLatest(s, h);
  }

  /** While a mission runs no report of it is in the slot or has left. */
  lemma EarlierReports(s: State, h: Story, r: Report)
    requires Inv(s) && Agrees(s, h) && s.mission.Running? && (r in s.reports || s.pending == Some(r))
    ensures s.pending.None? && r.ticket < |h.accepted| - 1
  {
    hide Open, ValidFault, SameReport, Covered, NoDup;
    OpenMember(s, s.mission.m);
    RunningLatest(s, h);
    if r in s.reports {
      var i :| 0 <= i < |s.reports| && s.reports[i] == r;
      assert s.sent[i] in s.sent;
    }
  }

  ghost predicate Ending(s: State, r: Report) {
    (s.mission.Reporting? || s.mission.Storing?) && r == Final(s.mission.m, s.mission.cmd)
  }

  /** A report that leaves was in the slot, or is what the mission reports. */
  lemma ReportLeaves(s: State, a: Step, r: Report)
    requires Enabled(s, a) && ExactlyOnce(s) && r in Apply(s, a).reports
    ensures r in s.reports || s.pending == Some(r) || Ending(s, r)
    ensures a.Finish? ==> r in s.reports
  {
    hide ValidFault, SameReport, InUse, NoDup, Final;
  }

  /** A report in the slot was there before, or is what the mission reports. */
  lemma ReportStored(s: State, a: Step, r: Report)
    requires Enabled(s, a) && Apply(s, a).pending == Some(r)
    ensures s.pending == Some(r) || Ending(s, r)
    ensures a.Finish? ==> s.pending == Some(r)
  {
    hide ValidFault, SameReport, InUse, Final;
  }

  lemma StepTruthful(s: State, h: Story, a: Step)
    requires Inv(s) && Enabled(s, a) && Agrees(s, h)
    ensures AllTruthful(Apply(s, a), Note(h, a))
  {
    hide ValidFault, Open, Truthful, Covered, OneMission, Latest, Note, Apply, Numbered, Hears, Ends;
    var s', h' := Apply(s, a), Note(h, a);
    forall r | r in s'.reports || s'.pending == Some(r) ensures Truthful(r, h') {
      if r in s'.reports { ReportLeaves(s, a, r); } else { ReportStored(s, a, r); }
      if s.mission.Reporting? || s.mission.Storing? { FinalTruthful(s, h); }
      assert Truthful(r, h);
      if a.Finish? { EarlierReports(s, h, r); }
      StillTruthful(r, h, a);
    }
  }

  lemma AgreesParts(s: State, h: Story)
    requires Agrees(s, h)
    ensures Hears(s.udp, h) && Latest(s, h) && Ends(s, h) && Numbered(s, h) && AllTruthful(s, h)
  {
  }

  lemma StepAgrees(s: State, h: Story, a: Step)
    requires Inv(s) && Enabled(s, a) && Agrees(s, h)
    ensures Inv(Apply(s, a)) && Agrees(Apply(s, a), Note(h, a))
  {
    hide *;
    AgreesParts(s, h);
    StepInv(s, a);
    StepHears(s, h, a);
    StepNumbered(s, h, a);
    StepLatest(s, h, a);
    StepEnds(s, h, a);
    StepTruthful(s, h, a);
    AgreesIntro(Apply(s, a), Note(h, a));
  }

  lemma AgreesIntro(s: State, h: Story)
    requires Hears(s.udp, h) && Latest(s, h) && Ends(s, h) && Numbered(s, h) && AllTruthful(s, h)
    ensures Agrees(s, h)
  {
  }

  lemma {:induction false} RunAgrees(s: State, h: Story, run: seq<Step>)
    requires Inv(s) && Agrees(s, h) && Legal(s, run)
    ensures Inv(Run(s, run)) && Agrees(Run(s, run), Told(h, run))
    decreases |run|
  {
    hide Inv, Agrees, Apply, Note, Enabled;
    if |run| > 0 {
      StepAgrees(s, h, run[0]);
      RunAgrees(Apply(s, run[0]), Note(h, run[0]), run[1..]);
    }
  }

  /** Along every interleaving and every pattern of failing sends, each final report that
      left, and the one in the slot, names how the mission ended, the panel of the fault it
      was for, and the peer that sent the fault. */
  lemma Truth(run: seq<Step>)
    requires Legal(START, run)
    ensures var z, h := Run(START, run), Told(BLANK, run);
            && |z.reports| == |z.sent| && (forall i :: 0 <= i < |z.sent| ==> z.reports[i].ticket == z.sent[i])
            && z.accepted == |h.accepted|
            && (forall r :: r in z.reports || z.pending == Some(r) ==>
                  && r.ticket < |h.accepted| && r.ticket in h.ended
                  && r.cmd == h.ended[r.ticket]
                  && r.param == h.accepted[r.ticket].fault.id && r.peer == h.accepted[r.ticket].peer)
  {
    hide Legal, Inv, Run, Told;
    StartAgrees();
    RunAgrees(START, BLANK, run);
  }

  lemma StartAgrees()
    ensures Inv(START) && Agrees(START, BLANK)
  {
    assert Open(START) == [];
  }
}
