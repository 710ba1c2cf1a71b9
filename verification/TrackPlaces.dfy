/** Where the tracker's paths lead (hcics_track.c): the place a plan ends at from any
    place and heading, and when that is the place the tracker then records. */
module TrackPlaces {
  import opened Common
  import opened TrackSpec
  import FaultText

  /** One of the four directions of the grid. */
  ghost predicate Heading(p: Pose) {
    (p.dx == 0 && (p.dy == 1 || p.dy == -1)) || (p.dy == 0 && (p.dx == 1 || p.dx == -1))
  }

  /** From the dock, the plan for a valid fault leads to the fault's own row and column. */
  lemma FaultLeads(f: FaultText.Fault)
    requires FaultText.ValidFault(f)
    ensures Drive(DOCK, ToTarget(f.id)) == Pose(f.col - 1, f.row, 1, 0)
  {
    hide Drive, ToTarget;
    OutwardLands(f.id);
  }

  /** Where the plan from `from` to `goal` leads a vehicle that sets out at p.  A plan to a
      panel does not depend on `from`, nor any plan on the heading. */
  ghost function Leads(p: Pose, from: nat, goal: nat): Pose
    requires from <= TARGET_MAX && goal <= TARGET_MAX
  {
    if goal != HOME then
      var r, c := Row(goal), Col(goal) - 1;
      Pose(p.x + Along(r, p.dx) + Along(c, p.dy), p.y + Along(r, p.dy) - Along(c, p.dx), p.dy, -p.dx)
    else if from == HOME then p
    else
      var r, c := Row(from), Col(from) - 1;
      Pose(p.x - Along(c, p.dx) + Along(r, p.dy), p.y - Along(c, p.dy) - Along(r, p.dx), p.dy, -p.dx)
  }

  lemma TargetLeads(p: Pose, goal: nat)
    requires Heading(p) && 1 <= goal <= TARGET_MAX
    ensures Drive(p, ToTarget(goal)) == Leads(p, HOME, goal)
  {
    hide Drive, Row, Col, Forwards;
    var r, c := Row(goal), Col(goal) - 1;
    var a := Forwards(r);
    var b := a + [TurnRight];
    var d := b + Forwards(c);
    DriveForwards(p, r);
    var p1 := Pose(p.x + Along(r, p.dx), p.y + Along(r, p.dy), p.dx, p.dy);
    DriveOne(p1, TurnRight);
    DriveJoin(p, a, [TurnRight]);
    var p2 := Pose(p1.x, p1.y, p.dy, -p.dx);
    assert Drive(p, b) == p2;
    DriveForwards(p2, c);
    DriveJoin(p, b, Forwards(c));
    assert Drive(p, d) == Leads(p, HOME, goal);
    DriveOne(Leads(p, HOME, goal), StopAtTarget);
    DriveJoin(p, d, [StopAtTarget]);
    assert ToTarget(goal) == d + [StopAtTarget];
  }

  lemma HomeLeads(p: Pose, from: nat)
    requires Heading(p) && 1 <= from <= TARGET_MAX
    ensures Drive(p, ToHome(from)) == Leads(p, from, HOME)
  {
    hide Drive, Row, Col, Forwards;
    var r, c := Row(from), Col(from) - 1;
    var a := [UTurn] + Forwards(c);
    var b := a + [TurnLeft];
    var d := b + Forwards(r);
    DriveOne(p, UTurn);
    var p0 := Pose(p.x, p.y, -p.dx, -p.dy);
    DriveForwards(p0, c);
    DriveJoin(p, [UTurn], Forwards(c));
    var p1 := Pose(p.x - Along(c, p.dx), p.y - Along(c, p.dy), -p.dx, -p.dy);
    assert Drive(p, a) == p1;
    DriveOne(p1, TurnLeft);
    DriveJoin(p, a, [TurnLeft]);
    var p2 := Pose(p1.x, p1.y, p.dy, -p.dx);
    assert Drive(p, b) == p2;
    DriveForwards(p2, r);
    DriveJoin(p, b, Forwards(r));
    assert Drive(p, d) == Leads(p, from, HOME);
    DriveOne(Leads(p, from, HOME), FinishDelay);
    DriveJoin(p, d, [FinishDelay]);
    assert ToHome(from) == d + [FinishDelay];
  }

  /** Every plan, from every place and heading. */
  lemma PlanLeads(p: Pose, from: nat, goal: nat)
    requires Heading(p) && from <= TARGET_MAX && goal <= TARGET_MAX
    ensures Drive(p, PlanFor(from, goal)) == Leads(p, from, goal) && Heading(Leads(p, from, goal))
  {
    hide Drive, ToTarget, Row, Col;
    if goal != HOME {
      TargetLeads(p, goal);
    } else if from == HOME {
      DriveOne(p, FinishDelay);
    } else {
      HomeLeads(p, from);
    }
  }

  /** The vehicle is where the tracker's `location` means it to be. */
  ghost predicate Stands(p: Pose, location: nat)
    requires location <= TARGET_MAX
  {
    if location == HOME then p.x == 0 && p.y == 0
    else p.x == Col(location) - 1 && p.y == Row(location)
  }

  /** The headings and targets for which a plan made at the right place ends at the right
      place: nowhere to go; out of the dock the way it faces; home from a panel entered
      from the main lane; and six pairs of neighbouring panels, by coincidence. */
  ghost predicate Fits(p: Pose, from: nat, goal: nat) {
    if from == HOME then goal == HOME || p.dy == 1
    else if goal == HOME then p.dx == 1
    else if p.dx == 1 then (from == 4 && goal == 2) || (from == 8 && goal == 3)
    else if p.dx == -1 then (from == 2 && goal == 1) || (from == 6 && goal == 4)
    else p.dy == -1 && ((from == 4 && goal == 1) || (from == 6 && goal == 2))
  }

  lemma Grid(id: nat)
    requires 1 <= id <= TARGET_MAX
    ensures id == 3 * (Row(id) - 1) + Col(id)
  {
  }

  /** From one panel straight to another, by rows and columns. */
  lemma PanelPairs(f: nat, g: nat, rf: nat, cf: nat, r: nat, c: nat)
    requires 1 <= rf <= 3 && 1 <= cf <= 3 && 1 <= r <= 3 && 1 <= c <= 3
    requires f == 3 * (rf - 1) + cf && g == 3 * (r - 1) + c
    ensures cf - 1 + r == c - 1 && rf - (c - 1) == r <==> (f == 4 && g == 2) || (f == 8 && g == 3)
    ensures cf - 1 - r == c - 1 && rf + (c - 1) == r <==> (f == 2 && g == 1) || (f == 6 && g == 4)
    ensures cf - 1 + (c - 1) == c - 1 && rf + r == r <==> false
    ensures cf - 1 - (c - 1) == c - 1 && rf - r == r <==> (f == 4 && g == 1) || (f == 6 && g == 2)
  {
  }

  lemma PanelToPanel(p: Pose, from: nat, goal: nat)
    requires Heading(p) && 1 <= from <= TARGET_MAX && 1 <= goal <= TARGET_MAX && Stands(p, from)
    ensures Stands(Leads(p, from, goal), goal) <==> Fits(p, from, goal)
  {
    hide Row, Col;
    Grid(from);
    Grid(goal);
    PanelPairs(from, goal, Row(from), Col(from), Row(goal), Col(goal));
  }

  lemma PanelToHome(p: Pose, from: nat)
    requires Heading(p) && 1 <= from <= TARGET_MAX && Stands(p, from)
    ensures Stands(Leads(p, from, HOME), HOME) <==> p.dx == 1
  {
    hide Row, Col;
  }

  lemma HomeToPanel(p: Pose, goal: nat)
    requires Heading(p) && 1 <= goal <= TARGET_MAX && Stands(p, HOME)
    ensures Stands(Leads(p, HOME, goal), goal) <==> p.dy == 1
  {
    hide Row, Col;
  }

  /** A plan made where the tracker takes the vehicle to be ends at its goal's place if and
      only if heading and targets fit. */
  lemma PlaceExact(p: Pose, from: nat, goal: nat)
    requires Heading(p) && from <= TARGET_MAX && goal <= TARGET_MAX && Stands(p, from)
    ensures Stands(Drive(p, PlanFor(from, goal)), goal) <==> Fits(p, from, goal)
  {
    hide Drive, PlanFor, Row, Col, Heading, Along, Stands;
    PlanLeads(p, from, goal);
    if from == HOME && goal != HOME {
      HomeToPanel(p, goal);
    } else if from != HOME && goal == HOME {
      PanelToHome(p, from);
    } else if from != HOME {
      PanelToPanel(p, from, goal);
    }
  }

  /** The one place from which, with the heading of p, the plan ends at its goal's place. */
  ghost function Launch(p: Pose, from: nat, goal: nat): Pose
    requires from <= TARGET_MAX && goal <= TARGET_MAX
  {
    var l := Leads(Pose(0, 0, p.dx, p.dy), from, goal);
    if goal == HOME then Pose(0 - l.x, 0 - l.y, p.dx, p.dy)
    else Pose(Col(goal) - 1 - l.x, Row(goal) - l.y, p.dx, p.dy)
  }

  lemma LeadsShift(p: Pose, from: nat, goal: nat)
    requires from <= TARGET_MAX && goal <= TARGET_MAX
    ensures var l, z := Leads(Pose(0, 0, p.dx, p.dy), from, goal), Leads(p, from, goal);
            z.x == p.x + l.x && z.y == p.y + l.y
  {
    hide Row, Col;
  }

  /** A plan made anywhere, whatever the tracker takes the location to be, ends at its
      goal's place if and only if the vehicle sets out at that one place. */
  lemma LaunchExact(p: Pose, from: nat, goal: nat)
    requires Heading(p) && from <= TARGET_MAX && goal <= TARGET_MAX
    ensures Stands(Drive(p, PlanFor(from, goal)), goal) <==> p == Launch(p, from, goal)
  {
    hide Drive, PlanFor, Row, Col, Leads;
    PlanLeads(p, from, goal);
    LeadsShift(p, from, goal);
  }

  // ------------------------------------------------------------ out and home, again and again

  /** Where out-and-home missions to the panels ts leave the vehicle. */
  ghost function RoundTrips(ts: seq<nat>): Pose
    requires forall i :: 0 <= i < |ts| ==> 1 <= ts[i] <= TARGET_MAX
    decreases |ts|
  {
    if |ts| == 0 then DOCK
    else
      var t := ts[|ts| - 1];
      Drive(RoundTrips(ts[..|ts| - 1]), ToTarget(t) + ToHome(t))
  }

  /** Each round trip leads back to the dock and turns the vehicle round. */
  lemma {:induction false} RoundTripsTurn(ts: seq<nat>)
    requires forall i :: 0 <= i < |ts| ==> 1 <= ts[i] <= TARGET_MAX
    ensures RoundTrips(ts) == Pose(0, 0, 0, if |ts| % 2 == 0 then 1 else -1)
    decreases |ts|
  {
    hide Drive, ToTarget, ToHome, Row, Col;
    if |ts| > 0 {
      var t, p := ts[|ts| - 1], RoundTrips(ts[..|ts| - 1]);
      RoundTripsTurn(ts[..|ts| - 1]);
      TargetLeads(p, t);
      HomeLeads(Leads(p, HOME, t), t);
      DriveJoin(p, ToTarget(t), ToHome(t));
    }
  }

  /** Of missions flown one after the other, out and home, those that reach their panel are
      exactly the first, the third, the fifth, and so on; the others end at the mirror
      image of the panel's place. */
  lemma EverySecondMisses(ts: seq<nat>, u: nat)
    requires (forall i :: 0 <= i < |ts| ==> 1 <= ts[i] <= TARGET_MAX) && 1 <= u <= TARGET_MAX
    ensures var z := Drive(RoundTrips(ts), ToTarget(u));
            && (Stands(z, u) <==> |ts| % 2 == 0)
            && (|ts| % 2 == 1 ==> z == Pose(1 - Col(u), 0 - Row(u), -1, 0))
  {
    hide Drive, ToTarget, RoundTrips, Row, Col;
    RoundTripsTurn(ts);
    TargetLeads(RoundTrips(ts), u);
  }

  // ------------------------------------------------------------ runs of the tracker

  /** The tracker with the vehicle's pose, and the pose at which its path set out. */
  datatype Journey = Journey(s: State, pose: Pose, origin: Pose)

  /** A step of the tracker; an accepted node is a move of the vehicle. */
  ghost function Go(j: Journey, a: Step): Journey {
    var s' := Apply(j.s, a);
    if a.StartPath? && Fresh(j.s.camera, a.now) && a.target <= TARGET_MAX && j.s.location <= TARGET_MAX then
      Journey(s', j.pose, j.pose)
    else if |s'.log| == |j.s.log| + 1 then Journey(s', Move(j.pose, s'.log[|j.s.log|].action), j.origin)
    else Journey(s', j.pose, j.origin)
  }

  ghost function Travel(j: Journey, run: seq<Step>): Journey
    decreases |run|
  {
    if |run| == 0 then j else Travel(Go(j, run[0]), run[1..])
  }

  ghost predicate Sound(j: Journey) {
    Inv(j.s) && Heading(j.origin) && Heading(j.pose) && j.pose == Drive(j.origin, Actions(j.s.log))
  }

  lemma {:induction false} TravelState(j: Journey, run: seq<Step>)
    ensures Travel(j, run).s == Run(j.s, run)
    decreases |run|
  {
    hide Apply;
    if |run| > 0 {
      TravelState(Go(j, run[0]), run[1..]);
    }
  }

  /** A step leaves the log, clears it, or adds a node. */
  lemma LogStep(s: State, a: Step)
    ensures var s' := Apply(s, a);
            var started := a.StartPath? && Fresh(s.camera, a.now) && a.target <= TARGET_MAX && s.location <= TARGET_MAX;
            && (started ==> s'.log == [] && s'.from == s.location && s'.goal == a.target)
            && (!started ==> s'.from == s.from && s'.goal == s.goal
                             && (s'.log == s.log || (|s'.log| == |s.log| + 1 && s'.log[..|s.log|] == s.log)))
  {
    hide Fresh, PlanFor, Before;
  }

  lemma GoSound(j: Journey, a: Step)
    requires Sound(j) && Harmless(j.s, a)
    ensures Sound(Go(j, a))
  {
    hide Inv, Apply, Harmless, Fresh;
    StepInv(j.s, a);
    LogStep(j.s, a);
    var s' := Apply(j.s, a);
    if |s'.log| == |j.s.log| + 1 && s'.log[..|j.s.log|] == j.s.log {
      var n := |j.s.log|;
      assert Actions(s'.log)[..n] == Actions(j.s.log);
      assert Drive(j.origin, Actions(s'.log)) == Move(Drive(j.origin, Actions(j.s.log)), s'.log[n].action);
    }
    assert Actions([]) == [];
  }

  lemma {:induction false} TravelSound(j: Journey, run: seq<Step>)
    requires Sound(j) && Legal(j.s, run)
    ensures Sound(Travel(j, run))
    decreases |run|
  {
    hide Sound, Apply, Harmless;
    if |run| > 0 {
      GoSound(j, run[0]);
      TravelSound(Go(j, run[0]), run[1..]);
    }
  }

  /** The vehicle at the dock when the tracker is initialised. */
  const SETOUT: Journey := Journey(START, DOCK, DOCK)

  lemma SetoutSound()
    ensures Sound(SETOUT)
  {
    assert Actions([]) == [];
  }

  /** Along every run without a harmful start: when a path has finished, the vehicle is
      where the path's plan leads from where it set out; and if it set out where the
      tracker took it to be, then it is where the tracker now takes it to be if and only if
      heading and targets fitted. */
  lemma JourneyExact(run: seq<Step>)
    requires Legal(START, run)
    ensures var z := Travel(SETOUT, run);
            && OnGrid(z.s)
            && (z.s.finished ==>
                  && z.pose == Leads(z.origin, z.s.from, z.s.goal)
                  && (Stands(z.origin, z.s.from) ==>
                        (Stands(z.pose, z.s.location) <==> Fits(z.origin, z.s.from, z.s.goal))))
  {
    hide Travel, Apply, Harmless, Drive, PlanFor, Leads, Stands, Fits, Legal, Heading;
    SetoutSound();
    TravelSound(SETOUT, run);
    var z := Travel(SETOUT, run);
    if z.s.finished {
      PlanLeads(z.origin, z.s.from, z.s.goal);
      if Stands(z.origin, z.s.from) {
        PlaceExact(z.origin, z.s.from, z.s.goal);
      }
    }
  }

  // ------------------------------------------------------------ missions that do run

  /** The clock goes forward, never by more than half its range at once, and no path is
      asked for off the grid. */
  ghost predicate Flows(now: nat, run: seq<Step>)
    decreases |run|
  {
    |run| > 0 ==>
      && (run[0].Clock? || run[0].StartPath? ==> run[0].now < WORD && Sub32(run[0].now, now) <= HALF)
      && (run[0].StartPath? ==> run[0].target <= TARGET_MAX)
      && Flows(At(run[0], now), run[1..])
  }

  ghost function Until(now: nat, run: seq<Step>): nat
    decreases |run|
  {
    if |run| == 0 then now else Until(At(run[0], now), run[1..])
  }

  /** No caller inside the application asks for a target above 9, and then no start is
      harmful. */
  lemma {:induction false} OnGridLegal(s: State, run: seq<Step>)
    requires forall i :: 0 <= i < |run| && run[i].StartPath? ==> run[i].target <= TARGET_MAX
    ensures Legal(s, run)
    decreases |run|
  {
    hide Apply;
    if |run| > 0 {
      assert run[0].StartPath? ==> run[0].target <= TARGET_MAX;
      OnGridLegal(Apply(s, run[0]), run[1..]);
    }
  }

  lemma {:induction false} FlowsLegal(s: State, now: nat, run: seq<Step>)
    requires Flows(now, run)
    ensures Legal(s, run)
    decreases |run|
  {
    hide Apply;
    if |run| > 0 {
      FlowsLegal(Apply(s, run[0]), At(run[0], now), run[1..]);
    }
  }

  lemma {:induction false} Join(j: Journey, now: nat, a: seq<Step>, b: seq<Step>)
    requires Flows(now, a) && Flows(Until(now, a), b)
    ensures Flows(now, a + b) && Until(now, a + b) == Until(Until(now, a), b)
    ensures Travel(j, a + b) == Travel(Travel(j, a), b)
    decreases |a|
  {
    hide Apply;
    if |a| == 0 {
      assert a + b == b;
    } else {
      assert (a + b)[0] == a[0] && (a + b)[1..] == a[1..] + b;
      Join(Go(j, a[0]), At(a[0], now), a[1..], b);
    }
  }

  lemma One(j: Journey, now: nat, a: Step)
    requires a.Clock? || a.StartPath? ==> a.now < WORD && Sub32(a.now, now) <= HALF
    requires a.StartPath? ==> a.target <= TARGET_MAX
    ensures Flows(now, [a]) && Until(now, [a]) == At(a, now) && Travel(j, [a]) == Go(j, a)
  {
    hide Apply;
    assert [a][1..] == [];
  }

  /** A path being driven, with the vehicle between two actions. */
  ghost predicate Underway(j: Journey, from: nat, goal: nat) {
    Sound(j) && j.s.running && !j.s.active && j.s.from == from && j.s.goal == goal
  }

  ghost predicate Done(j: Journey, from: nat, goal: nat, origin: Pose) {
    Sound(j) && j.s.finished && j.s.from == from && j.s.goal == goal == j.s.location && j.origin == origin
  }

  /** The next node is seen and its step accepted; a turn or delay is waited out. */
  lemma NextNode(j: Journey, now: nat) returns (run: seq<Step>)
    requires Underway(j, j.s.from, j.s.goal) && now < WORD
    ensures Flows(now, run) && Until(now, run) < WORD
    ensures var z := Travel(j, run);
            || Done(z, j.s.from, j.s.goal, j.origin)
            || (Underway(z, j.s.from, j.s.goal) && z.origin == j.origin && |z.s.log| == |j.s.log| + 1)
  {
    hide Sound, Travel, Flows, Until, Sub32, Add32, Before, Go, Apply;
    var t := if Sub32(now, j.s.lastNode) >= COOLDOWN_MS then now else Add32(j.s.lastNode, COOLDOWN_MS);
    NextNodeTime(now, j.s.lastNode, t);
    var look := Look(Camera(1, 80, 3, if t == 0 then WORD - 1 else t));
    var j1 := Go(j, look);
    LookStep(j, t, look.camera);
    One(j, now, look);
    var j2 := Go(j1, Clock(t));
    AcceptStep(j1, t);
    One(j1, now, Clock(t));
    Join(j, now, [look], [Clock(t)]);
    run := [look] + [Clock(t)];
    if j2.s.active {
      var e := j2.s.actionEnd;
      var j3 := Go(j2, Clock(e));
      WaitStep(j2, t, e);
      One(j2, t, Clock(e));
      Join(j, now, run, [Clock(e)]);
      run := run + [Clock(e)];
    }
  }

  lemma LookStep(j: Journey, t: nat, c: Camera)
    requires Sound(j) && j.s.running && !j.s.active && c == Camera(1, 80, 3, if t == 0 then WORD - 1 else t)
    requires t < WORD && Sub32(t, j.s.lastNode) >= COOLDOWN_MS
    ensures var z := Go(j, Look(c));
            && Sound(z) && z.s == j.s.(camera := c) && z.origin == j.origin && NodeSeen(z.s, t)
  {
    hide Drive, Inv;
    GoSound(j, Look(c));
  }

  /** What accepting a node leads to. */
  lemma AcceptStep(j: Journey, t: nat)
    requires Sound(j) && j.s.running && !j.s.active && NodeSeen(j.s, t)
    ensures var z := Go(j, Clock(t));
            && Sound(z) && z.origin == j.origin && z.s.from == j.s.from && z.s.goal == j.s.goal
            && |z.s.log| == |j.s.log| + 1
            && (z.s.running || (z.s.finished && z.s.location == z.s.goal))
            && (z.s.active ==> z.s.running && z.s.action !in {Forward, StopAtTarget}
                               && z.s.actionEnd == Add32(t, Duration(z.s.action)))
  {
    hide Drive, NodeSeen, PlanFor, Fresh, Add32;
    GoSound(j, Clock(t));
    var z := Go(j, Clock(t));
    assert z.s == Accept(j.s, t);
    assert Inv(z.s) && Inv(j.s);
  }

  /** An action is over when its time is up, and the vehicle goes on or has arrived. */
  lemma WaitStep(j: Journey, t: nat, e: nat)
    requires Sound(j) && j.s.running && j.s.active && j.s.action !in {Forward, StopAtTarget}
    requires e == j.s.actionEnd == Add32(t, Duration(j.s.action)) && t < WORD
    ensures e < WORD && Sub32(e, t) <= HALF
    ensures var z := Go(j, Clock(e));
            && Sound(z) && z.origin == j.origin && z.s.from == j.s.from && z.s.goal == j.s.goal
            && z.s.log == j.s.log
            && if z.s.running then !z.s.active else z.s.finished && z.s.location == z.s.goal
  {
    hide Drive, PlanFor, Inv;
    GoSound(j, Clock(e));
    var z := Go(j, Clock(e));
    assert !Before(e, j.s.actionEnd);
    assert z.s == Complete(j.s, e);
    InvKept(z.s);
  }

  /** From any place between two nodes the path can be driven to its end. */
  lemma {:induction false} DriveOn(j: Journey, now: nat) returns (run: seq<Step>)
    requires Underway(j, j.s.from, j.s.goal) && now < WORD
    ensures Flows(now, run) && Until(now, run) < WORD
    ensures Done(Travel(j, run), j.s.from, j.s.goal, j.origin)
    decreases MAX_PATH_STEPS - |j.s.log|
  {
    hide Sound, Travel, Flows, Until;
    LogShort(j);
    run := NextNode(j, now);
    var z := Travel(j, run);
    if !Done(z, j.s.from, j.s.goal, j.origin) {
      var rest := DriveOn(z, Until(now, run));
      Join(j, now, run, rest);
      run := run + rest;
    }
  }

  lemma LogShort(j: Journey)
    requires Underway(j, j.s.from, j.s.goal)
    ensures |j.s.log| < MAX_PATH_STEPS
  {
    hide PlanFor, Drive;
    PlanShape(j.s.from, j.s.goal);
    assert |Actions(j.s.log)| == |j.s.log|;
  }

  /** A mission from wherever the tracker takes the vehicle to be. */
  lemma Mission(j: Journey, goal: nat, now: nat) returns (run: seq<Step>)
    requires Sound(j) && goal <= TARGET_MAX && now < WORD
    ensures Flows(now, run) && Until(now, run) < WORD
    ensures Done(Travel(j, run), j.s.location, goal, j.pose)
  {
    hide Sound, Travel, Flows, Until, Go;
    var look := Look(Camera(1, 80, 3, if now == 0 then WORD - 1 else now));
    var j1 := Go(j, look);
    var j2 := Go(j1, StartPath(goal, now));
    One(j, now, look);
    One(j1, now, StartPath(goal, now));
    Join(j, now, [look], [StartPath(goal, now)]);
    var setOff := [look] + [StartPath(goal, now)];
    SetOff(j, goal, now, look.camera);
    var rest := DriveOn(j2, now);
    Join(j, now, setOff, rest);
    run := setOff + rest;
  }

  lemma SetOff(j: Journey, goal: nat, now: nat, c: Camera)
    requires Sound(j) && goal <= TARGET_MAX && now < WORD
    requires c == Camera(1, 80, 3, if now == 0 then WORD - 1 else now)
    ensures Sub32(now, now) == 0
    ensures var z := Go(Go(j, Look(c)), StartPath(goal, now));
            Underway(z, j.s.location, goal) && z.origin == j.pose
  {
    hide Drive, PlanFor, Inv;
    GoSound(j, Look(c));
    GoSound(Go(j, Look(c)), StartPath(goal, now));
    InvKept(j.s);
  }

  /** Where paths to the goals, one after the other, leave a vehicle that sets out at p
      with the tracker taking it to be at `from`. */
  ghost function LeadsAll(p: Pose, from: nat, goals: seq<nat>): Pose
    requires from <= TARGET_MAX && forall i :: 0 <= i < |goals| ==> goals[i] <= TARGET_MAX
    decreases |goals|
  {
    if |goals| == 0 then p else LeadsAll(Leads(p, from, goals[0]), goals[0], goals[1..])
  }

  /** Any goals can be driven to one after the other, each path finishing before the next
      is asked for; the last goal is recorded as the location, wherever they lead. */
  lemma {:induction false} Missions(j: Journey, goals: seq<nat>, now: nat) returns (run: seq<Step>)
    requires Sound(j) && now < WORD
    requires forall i :: 0 <= i < |goals| ==> goals[i] <= TARGET_MAX
    ensures Flows(now, run) && Sound(Travel(j, run)) && OnGrid(j.s)
    ensures Travel(j, run).pose == LeadsAll(j.pose, j.s.location, goals)
    ensures |goals| == 0 ==> Travel(j, run) == j
    ensures |goals| > 0 ==> Travel(j, run).s.finished && Travel(j, run).s.location == goals[|goals| - 1]
    decreases |goals|
  {
    hide Travel, Flows, Until, Leads, Drive, PlanFor;
    if |goals| == 0 {
      run := [];
      NoSteps(j, now);
    } else {
      run := Mission(j, goals[0], now);
      var z := Travel(j, run);
      PlanLeads(j.pose, j.s.location, goals[0]);
      var rest := Missions(z, goals[1..], Until(now, run));
      Join(j, now, run, rest);
      run := run + rest;
    }
  }

  lemma NoSteps(j: Journey, now: nat)
    ensures Flows(now, []) && Travel(j, []) == j
  {
  }

  /** Two missions from start-up, out and home and out: the second path to a panel finishes,
      with the panel recorded, at the mirror image of its place. */
  lemma SecondMissionMisses(t: nat, u: nat) returns (run: seq<Step>)
    requires 1 <= t <= TARGET_MAX && 1 <= u <= TARGET_MAX
    ensures Flows(0, run) && Legal(START, run)
    ensures var z := Travel(SETOUT, run);
            && z.s.finished && z.s.location == u
            && z.pose == Pose(1 - Col(u), 0 - Row(u), -1, 0) && !Stands(z.pose, u)
  {
    hide Travel, Flows, Legal, Row, Col, Sound;
    SetoutSound();
    run := Missions(SETOUT, [t, HOME, u], 0);
    FlowsLegal(START, 0, run);
    assert [t, HOME, u][1..] == [HOME, u] && [HOME, u][1..] == [u] && [u][1..] == [];
    var p := Leads(DOCK, HOME, t);
    assert Leads(p, t, HOME) == Pose(0, 0, 0, -1);
    var q := Pose(0, 0, 0, -1);
    assert Leads(q, HOME, u) == Pose(1 - Col(u), 0 - Row(u), -1, 0);
    assert LeadsAll(q, HOME, [u]) == LeadsAll(Leads(q, HOME, u), u, []) == Leads(q, HOME, u);
    assert LeadsAll(p, t, [HOME, u]) == LeadsAll(q, HOME, [u]);
    assert LeadsAll(DOCK, HOME, [t, HOME, u]) == LeadsAll(p, t, [HOME, u]);
  }

  /** A mission given up at panel 5 and followed at once by one to panel 7. */
  lemma NextPanelMisses() returns (run: seq<Step>)
    ensures Flows(0, run) && Legal(START, run)
    ensures var z := Travel(SETOUT, run);
            z.s.finished && z.s.location == 7 && z.pose == Pose(4, 2, 0, -1) && !Stands(z.pose, 7)
  {
    hide Travel, Flows, Legal, Sound;
    SetoutSound();
    run := Missions(SETOUT, [5, 7], 0);
    FlowsLegal(START, 0, run);
    assert [5, 7][1..] == [7] && [7][1..] == [];
    assert Leads(DOCK, HOME, 5) == Pose(1, 2, 1, 0);
    assert Leads(Pose(1, 2, 1, 0), 5, 7) == Pose(4, 2, 0, -1);
    var q := Pose(1, 2, 1, 0);
    assert LeadsAll(q, 5, [7]) == LeadsAll(Leads(q, 5, 7), 7, []) == Leads(q, 5, 7);
    assert LeadsAll(DOCK, HOME, [5, 7]) == LeadsAll(Pose(1, 2, 1, 0), 5, [7]);
  }
}
