/** The path tracker (hcics_track.c) as a timed state machine: what it plans, how it
    accepts line nodes, and what its runs keep. */
module TrackSpec {
  import opened Common

  const HOME: nat := 0
  const TARGET_MAX: nat := 9
  const GRID_COLS: nat := 3
  const MAX_PATH_STEPS: nat := 16
  const COOLDOWN_MS: nat := 500
  const TARGET_STALE_MS: nat := 1500
  const HALF: nat := 0x8000_0000

  datatype Action = Forward | TurnLeft | TurnRight | UTurn | FinishDelay | StopAtTarget

  function Row(target: nat): (r: nat)
    requires 1 <= target <= TARGET_MAX
    ensures 1 <= r <= GRID_COLS
  {
    (target - 1) / GRID_COLS + 1
  }

  function Col(target: nat): (c: nat)
    requires 1 <= target <= TARGET_MAX
    ensures 1 <= c <= GRID_COLS
  {
    (target - 1) % GRID_COLS + 1
  }

  function Forwards(n: nat): seq<Action> {
    seq(n, _ => Forward)
  }

  function ToTarget(target: nat): seq<Action>
    requires 1 <= target <= TARGET_MAX
  {
    Forwards(Row(target)) + [TurnRight] + Forwards(Col(target) - 1) + [StopAtTarget]
  }

  function ToHome(from: nat): seq<Action>
    requires from <= TARGET_MAX
  {
    if from == HOME then [FinishDelay]
    else [UTurn] + Forwards(Col(from) - 1) + [TurnLeft] + Forwards(Row(from)) + [FinishDelay]
  }

  function PlanFor(from: nat, goal: nat): seq<Action>
    requires from <= TARGET_MAX && goal <= TARGET_MAX
  {
    if goal == HOME then ToHome(from) else ToTarget(goal)
  }

  /** What ends a path. */
  predicate Terminal(a: Action) {
    a == FinishDelay || a == StopAtTarget
  }

  /** Only its last step ends a plan, and every plan fits the table. */
  lemma PlanShape(from: nat, goal: nat)
    requires from <= TARGET_MAX && goal <= TARGET_MAX
    ensures var p := PlanFor(from, goal);
            && 1 <= |p| <= MAX_PATH_STEPS
            && forall i :: 0 <= i < |p| ==> (Terminal(p[i]) <==> i == |p| - 1)
  {
  }

  /** A vehicle on the plane: `x` and `y` count lane segments, `dx`, `dy` is the heading. */
  datatype Pose = Pose(x: int, y: int, dx: int, dy: int)

  ghost function Move(p: Pose, a: Action): Pose {
    match a
    case Forward => Pose(p.x + p.dx, p.y + p.dy, p.dx, p.dy)
    case TurnLeft => Pose(p.x, p.y, -p.dy, p.dx)
    case TurnRight => Pose(p.x, p.y, p.dy, -p.dx)
    case UTurn => Pose(p.x, p.y, -p.dx, -p.dy)
    case _ => p
  }

  ghost function Drive(p: Pose, plan: seq<Action>): Pose
    decreases |plan|
  {
    if |plan| == 0 then p else Move(Drive(p, plan[..|plan| - 1]), plan[|plan| - 1])
  }

  lemma {:induction false} DriveJoin(p: Pose, a: seq<Action>, b: seq<Action>)
    ensures Drive(p, a + b) == Drive(Drive(p, a), b)
    decreases |b|
  {
    if |b| == 0 {
      assert a + b == a;
    } else {
      DriveJoin(p, a, b[..|b| - 1]);
      assert (a + b)[..|a + b| - 1] == a + b[..|b| - 1];
    }
  }

  lemma DriveOne(p: Pose, a: Action)
    ensures Drive(p, [a]) == Move(p, a)
  {
    assert [a][..0] == [];
  }

  /** `n` segments in direction -1, 0 or 1. */
  ghost function Along(n: nat, d: int): int {
    if d == 0 then 0 else if d > 0 then n else 0 - n
  }

  lemma {:induction false} DriveForwards(p: Pose, n: nat)
    requires -1 <= p.dx <= 1 && -1 <= p.dy <= 1
    ensures Drive(p, Forwards(n)) == Pose(p.x + Along(n, p.dx), p.y + Along(n, p.dy), p.dx, p.dy)
    decreases n
  {
    if n > 0 {
      DriveForwards(p, n - 1);
      assert Forwards(n)[..n - 1] == Forwards(n - 1);
    }
  }

  const DOCK: Pose := Pose(0, 0, 0, 1)

  /** From the dock, facing the main lane, the outward plan leads to the target's own place
      on the grid.  TrackPlaces says where it leads from elsewhere. */
  lemma OutwardLands(target: nat)
    requires 1 <= target <= TARGET_MAX
    ensures Drive(DOCK, ToTarget(target)) == Pose(Col(target) - 1, Row(target), 1, 0)
  {
    hide Drive, Row, Col, Forwards;
    var r, c := Row(target), Col(target);
    var a := Forwards(r);
    var b := a + [TurnRight];
    var d := b + Forwards(c - 1);
    DriveForwards(DOCK, r);
    assert Drive(DOCK, a) == Pose(0, r, 0, 1);
    DriveOne(Pose(0, r, 0, 1), TurnRight);
    DriveJoin(DOCK, a, [TurnRight]);
    assert Drive(DOCK, b) == Pose(0, r, 1, 0);
    DriveForwards(Pose(0, r, 1, 0), c - 1);
    DriveJoin(DOCK, b, Forwards(c - 1));
    assert Drive(DOCK, d) == Pose(c - 1, r, 1, 0);
    DriveOne(Pose(c - 1, r, 1, 0), StopAtTarget);
    DriveJoin(DOCK, d, [StopAtTarget]);
    assert ToTarget(target) == d + [StopAtTarget];
  }

  /** No two targets share a place. */
  lemma TargetsDistinct(a: nat, b: nat)
    requires 1 <= a <= TARGET_MAX && 1 <= b <= TARGET_MAX
    requires Drive(DOCK, ToTarget(a)) == Drive(DOCK, ToTarget(b))
    ensures a == b
  {
    hide Drive, Forwards, ToTarget;
    OutwardLands(a);
    OutwardLands(b);
  }

  lemma HomewardLands(from: nat)
    requires 1 <= from <= TARGET_MAX
    ensures Drive(Pose(Col(from) - 1, Row(from), 1, 0), ToHome(from)) == Pose(0, 0, 0, -1)
  {
    hide Drive, Row, Col, Forwards;
    var r, c := Row(from), Col(from);
    var p := Pose(c - 1, r, 1, 0);
    var a := [UTurn] + Forwards(c - 1);
    var b := a + [TurnLeft];
    var d := b + Forwards(r);
    DriveOne(p, UTurn);
    DriveForwards(Pose(c - 1, r, -1, 0), c - 1);
    DriveJoin(p, [UTurn], Forwards(c - 1));
    assert Drive(p, a) == Pose(0, r, -1, 0);
    DriveOne(Pose(0, r, -1, 0), TurnLeft);
    DriveJoin(p, a, [TurnLeft]);
    assert Drive(p, b) == Pose(0, r, 0, -1);
    DriveForwards(Pose(0, r, 0, -1), r);
    DriveJoin(p, b, Forwards(r));
    assert Drive(p, d) == Pose(0, 0, 0, -1);
    DriveOne(Pose(0, 0, 0, -1), FinishDelay);
    DriveJoin(p, d, [FinishDelay]);
    assert ToHome(from) == d + [FinishDelay];
  }

  /** Out from the dock and home again leads back to the dock, facing the other way. */
  lemma OutAndHome(target: nat)
    requires 1 <= target <= TARGET_MAX
    ensures Drive(DOCK, ToTarget(target) + ToHome(target)) == Pose(0, 0, 0, -1)
  {
    hide Drive, Row, Col, Forwards, ToTarget, ToHome;
    OutwardLands(target);
    HomewardLands(target);
    DriveJoin(DOCK, ToTarget(target), ToHome(target));
  }

  /** The sign test on a wrapped difference. */
  predicate Before(now: nat, end: nat) {
    Sub32(now, end) >= HALF
  }

  /** How long an action keeps the tracker from looking for nodes. */
  function Duration(a: Action): nat {
    match a
    case TurnLeft => 900
    case TurnRight => 750
    case UTurn => 1200
    case FinishDelay => 400
    case _ => 0
  }

  datatype Camera = Camera(mode: nat, width: nat, kind: nat, tick: nat)

  /** hcics_track_target_recent; a tick is a millisecond. */
  predicate Fresh(c: Camera, now: nat) {
    c.mode == 1 && c.tick != 0 && c.width >= 3 && Sub32(now, c.tick) <= TARGET_STALE_MS
  }

  /** A step of the path accepted at a node. */
  datatype Node = Node(time: nat, action: Action)

  /** `from`, `goal` and `log` record the path being driven: where it set out, where to,
      and the nodes accepted; `overrun` that a path ended by running past its end. */
  datatype State = State(running: bool, finished: bool, active: bool, hasPath: bool,
                         plan: seq<Action>, destination: nat, index: nat, action: Action,
                         lastNode: nat, actionEnd: nat, location: nat, camera: Camera,
                         from: nat, goal: nat, log: seq<Node>, overrun: bool)

  predicate NodeSeen(s: State, now: nat) {
    && Fresh(s.camera, now)
    && Sub32(now, s.lastNode) >= COOLDOWN_MS
    && (((s.camera.kind == 3 || s.camera.kind == 4 || s.camera.kind == 7) && s.camera.width >= 80)
        || (s.camera.kind == 0 && s.camera.width >= 100))
  }

  function Finish(s: State, now: nat): State {
    s.(running := false, finished := true, active := false,
       location := if s.hasPath then s.destination else HOME, lastNode := now)
  }

  function Begin(s: State, a: Action, now: nat): State {
    match a
    case Forward => s.(action := a, active := false, lastNode := now)
    case StopAtTarget => Finish(s.(action := a, active := false), now)
    case _ => s.(action := a, active := true, actionEnd := Add32(now, Duration(a)))
  }

  function Complete(s: State, now: nat): State {
    if Before(now, s.actionEnd) then s
    else if s.action == FinishDelay then Finish(s, now)
    else s.(active := false, lastNode := now)
  }

  function Accept(s: State, now: nat): State {
    if !s.hasPath || s.index >= |s.plan| then Finish(s, now).(overrun := true)
    else Begin(s.(index := s.index + 1, log := s.log + [Node(now, s.plan[s.index])]), s.plan[s.index], now)
  }

  function Tick(s: State, now: nat): State {
    if !s.running then s
    else if s.active then Complete(s, now)
    else if NodeSeen(s, now) then Accept(s, now)
    else s
  }

  function Start(s: State, target: nat, now: nat): State {
    if !Fresh(s.camera, now) then s
    else if target > TARGET_MAX || s.location > TARGET_MAX then s.(plan := [], destination := HOME)
    else s.(running := true, finished := false, active := false, hasPath := true,
            plan := PlanFor(s.location, target), destination := target, index := 0,
            lastNode := Sub32(now, COOLDOWN_MS),
            from := s.location, goal := target, log := [])
  }

  datatype Step = StartPath(target: nat, now: nat) | Stop | Look(camera: Camera) | Clock(now: nat)

  function Apply(s: State, a: Step): State {
    match a
    case StartPath(target, now) => Start(s, target, now)
    case Stop => s.(running := false, finished := false, active := false)
    case Look(c) => if c.mode == 1 then s.(camera := c) else s
    case Clock(now) => Tick(s, now)
  }

  ghost function Actions(log: seq<Node>): seq<Action> {
    seq(|log|, i requires 0 <= i < |log| => log[i].action)
  }

  ghost predicate OnGrid(s: State) {
    s.location <= TARGET_MAX && s.from <= TARGET_MAX && s.goal <= TARGET_MAX
  }

  /** The path being driven is the one planned; its steps so far were accepted in order,
      and its last step is still to come. */
  ghost predicate Driving(s: State)
    requires OnGrid(s)
  {
    && s.hasPath && s.destination == s.goal && s.plan == PlanFor(s.from, s.goal)
    && s.index < |s.plan| && Actions(s.log) == s.plan[..s.index]
    && (s.active ==> s.index > 0 && s.action == s.plan[s.index - 1])
  }

  /** The closing delay of a path home: every step was accepted. */
  ghost predicate Closing(s: State)
    requires OnGrid(s)
  {
    && s.active && s.action == FinishDelay && s.hasPath
    && s.destination == s.goal == HOME && Actions(s.log) == PlanFor(s.from, s.goal)
  }

  ghost predicate Arrived(s: State)
    requires OnGrid(s)
  {
    s.finished ==> !s.running && s.location == s.goal && Actions(s.log) == PlanFor(s.from, s.goal)
  }

  ghost predicate Inv(s: State) {
    OnGrid(s) && (s.running ==> Driving(s) || Closing(s)) && Arrived(s) && !s.overrun
  }

  /** Not a start for a target off the grid, made while a path is driven with the camera
      in sight of the line, unless the path is already in its closing delay. */
  predicate Harmless(s: State, a: Step) {
    !(a.StartPath? && s.running && a.target > TARGET_MAX && Fresh(s.camera, a.now)
      && !(s.active && s.action == FinishDelay))
  }

  lemma AcceptInv(s: State, now: nat)
    requires Inv(s) && s.running && !s.active
    ensures Inv(Accept(s, now))
  {
    hide PlanFor;
    PlanShape(s.from, s.goal);
    EndsHome(s.from, s.goal);
    var s' := Accept(s, now);
    assert s'.log == s.log + [Node(now, s.plan[s.index])];
    assert Actions(s'.log) == Actions(s.log) + [s.plan[s.index]];
    assert s.plan[..s.index + 1] == s.plan[..s.index] + [s.plan[s.index]];
    assert s.plan[..|s.plan|] == s.plan;
  }

  /** Only a plan home ends in a delay. */
  lemma EndsHome(from: nat, goal: nat)
    requires from <= TARGET_MAX && goal <= TARGET_MAX
    ensures var p := PlanFor(from, goal); p != [] && (p[|p| - 1] == FinishDelay <==> goal == HOME)
  {
  }

  /** While steps are left, a delay is not what the vehicle is doing. */
  lemma DrivingNoDelay(s: State)
    requires Inv(s) && s.running && Driving(s) && s.active
    ensures s.action != FinishDelay && s.action != StopAtTarget
  {
    PlanShape(s.from, s.goal);
  }

  lemma CompleteInv(s: State, now: nat)
    requires Inv(s) && s.running && s.active
    ensures Inv(Complete(s, now))
  {
    hide PlanFor, Before;
    if Driving(s) {
      DrivingNoDelay(s);
    }
  }

  lemma StartInv(s: State, target: nat, now: nat)
    requires Inv(s) && Harmless(s, StartPath(target, now))
    ensures Inv(Start(s, target, now))
  {
    hide PlanFor, Fresh;
    if target <= TARGET_MAX {
      PlanShape(s.location, target);
      assert Actions([]) == PlanFor(s.location, target)[..0];
    } else if s.running && Driving(s) && s.active {
      DrivingNoDelay(s);
    }
  }

  lemma StepInv(s: State, a: Step)
    requires Inv(s) && Harmless(s, a)
    ensures Inv(Apply(s, a))
  {
    hide Accept, Complete, PlanFor, Start, Fresh, NodeSeen;
    match a {
      case StartPath(target, now) => StartInv(s, target, now);
      case Clock(now) =>
        if s.running && s.active {
          CompleteInv(s, now);
        } else if s.running {
          AcceptInv(s, now);
        }
      case _ =>
    }
  }

  ghost predicate Legal(s: State, run: seq<Step>)
    decreases |run|
  {
    |run| > 0 ==> Harmless(s, run[0]) && Legal(Apply(s, run[0]), run[1..])
  }

  ghost function Run(s: State, run: seq<Step>): State
    decreases |run|
  {
    if |run| == 0 then s else Run(Apply(s, run[0]), run[1..])
  }

  lemma {:induction false} RunInv(s: State, run: seq<Step>)
    requires Inv(s) && Legal(s, run)
    ensures Inv(Run(s, run))
    decreases |run|
  {
    hide Inv, Apply, Harmless;
    if |run| > 0 {
      StepInv(s, run[0]);
      RunInv(Apply(s, run[0]), run[1..]);
    }
  }

  /** hcics_track_init */
  const START: State := State(false, false, false, false, [], HOME, 0, Forward, 0, 0, HOME,
                              Camera(0, 0, 0, 0), HOME, HOME, [], false)

  /** A path that finished was planned for the location recorded when it was asked for and
      for the target given (a plan to a panel looks at the target only); every step of it
      was accepted, in order; and that target is now the location recorded.  No path ends
      by running past its last step.  Where the vehicle then is, TrackPlaces says. */
  lemma FinishMeansDone(run: seq<Step>)
    requires Legal(START, run)
    ensures var z := Run(START, run);
            && !z.overrun && z.from <= TARGET_MAX && z.goal <= TARGET_MAX
            && (z.finished ==> z.location == z.goal && Actions(z.log) == PlanFor(z.from, z.goal))
            && (z.running ==> Actions(z.log) <= PlanFor(z.from, z.goal))
  {
    hide Apply, Harmless, PlanFor, Legal;
    RunInv(START, run);
  }

  /** The time a step happens at; steps without a clock happen at no particular time. */
  /** No start is asked for. */
  predicate NoStart(run: seq<Step>) {
    forall i :: 0 <= i < |run| ==> !run[i].StartPath?
  }

  /** A stopped tracker stays stopped until it is started again: it accepts no node and
      reports no finish, whatever the camera sees and however long it takes. */
  lemma {:induction false} StoppedStays(s: State, run: seq<Step>)
    requires NoStart(run)
    ensures var z := Run(Apply(s, Stop), run);
            !z.running && !z.finished && z.log == s.log && z.location == s.location
    decreases |run|
  {
    if |run| > 0 {
      assert !run[0].StartPath?;
      var t := Apply(Apply(s, Stop), run[0]);
      assert t == Apply(t, Stop);
      StoppedStays(t, run[1..]);
    }
  }

  function At(a: Step, now: nat): nat {
    match a
    case StartPath(_, t) => t
    case Clock(t) => t
    case _ => now
  }

  /** The promise: a path finishes only when every step was accepted, and its target is
      then the location recorded. */
  ghost predicate Kept(s: State) {
    && OnGrid(s) && !s.overrun
    && (s.finished ==> s.location == s.goal && Actions(s.log) == PlanFor(s.from, s.goal))
  }

  /** The vehicle drives on after time `now`: camera frames, ticks of a clock that goes
      forward (never by more than half its range at once), a stop; no new path. */
  ghost predicate Onward(now: nat, run: seq<Step>)
    decreases |run|
  {
    |run| > 0 ==>
      && !run[0].StartPath?
      && (run[0].Clock? ==> run[0].now < WORD && Sub32(run[0].now, now) <= HALF)
      && Onward(At(run[0], now), run[1..])
  }

  lemma {:induction false} OnwardLegal(s: State, now: nat, run: seq<Step>)
    requires Onward(now, run)
    ensures Legal(s, run)
    decreases |run|
  {
    hide Apply;
    if |run| > 0 {
      OnwardLegal(Apply(s, run[0]), At(run[0], now), run[1..]);
    }
  }

  lemma RunCons(s: State, a: Step, rest: seq<Step>, now: nat)
    requires Onward(now, [a]) && Onward(At(a, now), rest)
    ensures Onward(now, [a] + rest) && Run(s, [a] + rest) == Run(Apply(s, a), rest)
  {
    hide Apply;
    assert ([a] + rest)[1..] == rest;
  }

  /** With the plan gone, a vehicle between two nodes overruns at the next one. */
  lemma LostBetweenNodes(s: State, now: nat) returns (run: seq<Step>)
    requires s.running && !s.active && s.plan == [] && now < WORD
    ensures Onward(now, run) && Run(s, run).overrun
  {
    var t := if Sub32(now, s.lastNode) >= COOLDOWN_MS then now else Add32(s.lastNode, COOLDOWN_MS);
    NextNodeTime(now, s.lastNode, t);
    var frame := Camera(1, 80, 3, if t == 0 then WORD - 1 else t);
    var s1 := Apply(s, Look(frame));
    assert NodeSeen(s1, t);
    var s2 := Apply(s1, Clock(t));
    assert s2.overrun && Run(s2, []) == s2;
    RunCons(s1, Clock(t), [], now);
    RunCons(s, Look(frame), [Clock(t)] + [], now);
    run := [Look(frame)] + ([Clock(t)] + []);
  }

  lemma NextNodeTime(now: nat, last: nat, t: nat)
    requires now < WORD
    requires t == if Sub32(now, last) >= COOLDOWN_MS then now else Add32(last, COOLDOWN_MS)
    ensures t < WORD && Sub32(t, last) >= COOLDOWN_MS && Sub32(t, now) <= HALF
  {
  }

  /** The time an action ends, or the present if that is past. */
  lemma EndTime(now: nat, end: nat, t: nat)
    requires now < WORD && t == if Before(now, end) then end % WORD else now
    ensures t < WORD && !Before(t, end) && Sub32(t, now) <= HALF
  {
    hide Before, Sub32;
    var e := end % WORD;
    SubWrapped(now, end);
    SubWrapped(t, end);
    SubNear(now, e);
    SubNear(t, e);
    SubNear(t, now);
  }

  /** Differences do not see whole turns of the clock. */
  lemma SubWrapped(a: nat, b: nat)
    ensures Sub32(a, b) == Sub32(a, b % WORD) && (Before(a, b) <==> Before(a, b % WORD))
  {
    var q := b / WORD;
    assert a - b == a - b % WORD - WORD * q;
  }

  lemma SubNear(a: nat, b: nat)
    requires a < WORD && b < WORD
    ensures Sub32(a, b) == if a >= b then a - b else a - b + WORD
    ensures Before(a, b) <==> Sub32(a, b) >= HALF
  {
  }

  lemma HarmfulRun(s: State, a: Step) returns (run: seq<Step>)
    requires Inv(s) && !Harmless(s, a) && a.now < WORD
    ensures Onward(a.now, run) && !Kept(Run(Apply(s, a), run))
  {
    hide Before, Fresh, PlanFor, Add32, Sub32, Onward, Run;
    var s0 := Apply(s, a);
    if s.active {
      var t := if Before(a.now, s.actionEnd) then s.actionEnd % WORD else a.now;
      EndTime(a.now, s.actionEnd, t);
      var s1 := Apply(s0, Clock(t));
      assert s1 == s0.(active := false, lastNode := t);
      var rest := LostBetweenNodes(s1, t);
      OneTick(a.now, t);
      RunCons(s0, Clock(t), rest, a.now);
      run := [Clock(t)] + rest;
    } else {
      run := LostBetweenNodes(s0, a.now);
    }
  }

  lemma OneTick(now: nat, t: nat)
    requires t < WORD && Sub32(t, now) <= HALF
    ensures Onward(now, [Clock(t)])
  {
  }

  /** The promise is kept however the vehicle drives on after a step if and only if the
      step is harmless. */
  lemma StepExact(s: State, a: Step, now: nat)
    requires Inv(s) && At(a, now) < WORD
    ensures (forall run: seq<Step> :: Onward(At(a, now), run) ==> Kept(Run(Apply(s, a), run))) <==> Harmless(s, a)
  {
    hide Inv, Apply, Harmless, Kept, Onward, Run;
    if Harmless(s, a) {
      StepInv(s, a);
      forall run: seq<Step> | Onward(At(a, now), run) ensures Kept(Run(Apply(s, a), run)) {
        OnwardLegal(Apply(s, a), At(a, now), run);
        RunInv(Apply(s, a), run);
        InvKept(Run(Apply(s, a), run));
      }
    } else {
      HarmfulIsStart(s, a);
      var run := HarmfulRun(s, a);
    }
  }

  lemma HarmfulIsStart(s: State, a: Step)
    requires !Harmless(s, a)
    ensures a.StartPath?
  {
  }

  lemma InvKept(s: State)
    requires Inv(s)
    ensures Kept(s)
  {
  }

  /** After a harmful start between two nodes, the next node seen ends the run: the
      tracker takes itself to be home, whatever steps were left. */
  lemma HarmfulStartMislocates(s: State, a: Step, now: nat)
    requires Inv(s) && !Harmless(s, a) && !s.active && NodeSeen(s, now)
    ensures var z := Tick(Apply(s, a), now);
            z.finished && z.location == HOME && z.overrun && Actions(z.log) != PlanFor(s.from, s.goal)
  {
    var z := Tick(Apply(s, a), now);
    assert z.log == s.log;
    assert |Actions(z.log)| == s.index;
  }

  /** A run from start-up that mislocates the vehicle: it sets out for panel 5 and accepts
      one node; a start for target 10 is refused; at the next node the path is finished,
      with the vehicle taken to be home. */
  lemma MislocatingRun()
    ensures var z := Run(START, [Look(Camera(1, 80, 3, 1000)), StartPath(5, 1000), Clock(1000),
                                 StartPath(10, 1200), Clock(1500)]);
            z.finished && z.goal == 5 && z.location == HOME && z.overrun && Actions(z.log) == [Forward] && !Kept(z)
  {
    hide PlanFor;
    var c := Camera(1, 80, 3, 1000);
    var run := [Look(c), StartPath(5, 1000), Clock(1000), StartPath(10, 1200), Clock(1500)];
    var s1 := Apply(START, run[0]);
    var s2 := Apply(s1, run[1]);
    FirstForward();
    var s3 := Apply(s2, run[2]);
    assert s3.running && !s3.active && s3.lastNode == 1000 && s3.log == [Node(1000, Forward)];
    var s4 := Apply(s3, run[3]);
    assert s4.plan == [] && s4.running;
    var s5 := Apply(s4, run[4]);
    assert s5.finished && s5.overrun;
    assert run[1..][1..] == run[2..] && run[2..][1..] == run[3..] && run[3..][1..] == run[4..] && run[4..][1..] == [];
    assert Run(s4, run[4..]) == s5;
    assert Run(s3, run[3..]) == s5;
    assert Run(s2, run[2..]) == s5;
    assert Run(s1, run[1..]) == s5;
    assert Run(START, run) == s5;
  }

  lemma FirstForward()
    ensures |PlanFor(HOME, 5)| > 1 && PlanFor(HOME, 5)[0] == Forward
  {
    assert Row(5) == 2;
  }

  /** A tick accepts a node exactly when a path is driven with no action under way, the last
      node is 500 ms past, and the camera's latest line frame is at most 1500 ms old and
      shows a crossing 80 wide or a bare line 100 wide; it accepts the next planned step. */
  lemma TickAccepts(s: State, now: nat)
    requires Inv(s)
    ensures var log, c := Tick(s, now).log, s.camera;
            && (log != s.log <==>
                  && s.running && !s.active && Sub32(now, s.lastNode) >= 500
                  && c.mode == 1 && c.tick != 0 && Sub32(now, c.tick) <= 1500
                  && ((c.kind in {3, 4, 7} && c.width >= 80) || (c.kind == 0 && c.width >= 100)))
            && (log != s.log ==>
                  |s.log| < |PlanFor(s.from, s.goal)| && log == s.log + [Node(now, PlanFor(s.from, s.goal)[|s.log|])])
  {
    hide PlanFor;
    if s.running && !s.active && NodeSeen(s, now) { LogIndex(s); }
  }

  lemma LogIndex(s: State)
    requires Inv(s) && s.running && !s.active
    ensures s.index == |s.log| < |s.plan| && s.hasPath
  {
    assert |Actions(s.log)| == |s.log|;
  }

  /** Every node was accepted a turn and a cooldown after the one before it. */
  ghost predicate Spaced(log: seq<Node>) {
    forall i :: 0 < i < |log| ==> log[i].time >= log[i - 1].time + Duration(log[i - 1].action) + COOLDOWN_MS
  }

  /** Up to time `now`: how long the tracker still keeps its eyes shut. */
  ghost predicate Waits(s: State, now: nat) {
    s.running && s.log != [] ==>
      var last := s.log[|s.log| - 1];
      && last.time <= now
      && s.action == last.action
      && if s.active then s.actionEnd == last.time + Duration(last.action)
         else last.time + Duration(last.action) <= s.lastNode <= now
  }

  lemma AcceptWaits(s: State, before: nat, now: nat)
    requires s.running && !s.active && Waits(s, before) && before <= now < HALF - 1200
    requires Sub32(now, s.lastNode) >= COOLDOWN_MS
    ensures Waits(Accept(s, now), now)
    ensures s.log != [] && Accept(s, now).log != s.log ==>
              now >= s.log[|s.log| - 1].time + Duration(s.log[|s.log| - 1].action) + COOLDOWN_MS
  {
  }

  lemma AcceptLog(s: State, now: nat)
    ensures Accept(s, now).log == s.log || exists a :: Accept(s, now).log == s.log + [Node(now, a)]
  {
  }

  lemma CompleteWaits(s: State, before: nat, now: nat)
    requires s.running && s.active && Waits(s, before) && before <= now < HALF - 1200
    ensures Waits(Complete(s, now), now) && Complete(s, now).log == s.log
  {
  }

  lemma TickWaits(s: State, before: nat, now: nat)
    requires Spaced(s.log) && Waits(s, before) && before <= now < HALF - 1200
    ensures Spaced(Tick(s, now).log) && Waits(Tick(s, now), now)
  {
    hide Fresh, Accept, Complete;
    if s.running && s.active {
      CompleteWaits(s, before, now);
    } else if s.running && NodeSeen(s, now) {
      AcceptWaits(s, before, now);
      AcceptLog(s, now);
    }
  }

  lemma StepWaits(s: State, a: Step, now: nat)
    requires Spaced(s.log) && Waits(s, now) && now <= At(a, now) < HALF - 1200
    ensures Spaced(Apply(s, a).log) && Waits(Apply(s, a), At(a, now))
  {
    hide Tick, Fresh, PlanFor, Spaced;
    match a {
      case Clock(t) => TickWaits(s, now, t);
      case StartPath(_, t) => EmptySpaced();
      case _ =>
    }
  }

  lemma EmptySpaced()
    ensures Spaced([])
  {
  }

  /** The clock does not run backwards, and stays clear of the sign bit. */
  ghost predicate Timed(now: nat, run: seq<Step>)
    decreases |run|
  {
    |run| > 0 ==> now <= At(run[0], now) < HALF - 1200 && Timed(At(run[0], now), run[1..])
  }

  lemma {:induction false} RunWaits(s: State, run: seq<Step>, now: nat)
    requires Spaced(s.log) && Waits(s, now) && Timed(now, run)
    ensures Spaced(Run(s, run).log)
    decreases |run|
  {
    hide Spaced, Waits, Apply;
    if |run| > 0 {
      StepWaits(s, run[0], now);
      RunWaits(Apply(s, run[0]), run[1..], At(run[0], now));
    }
  }

  /** Two nodes accepted one after the other are at least the first one's turn time (900 ms
      to the left, 750 to the right, 1200 about) and 500 ms apart; harmful starts change
      nothing about this. */
  lemma NodesSpaced(run: seq<Step>, i: nat)
    requires Timed(0, run) && 0 < i < |Run(START, run).log|
    ensures var log := Run(START, run).log;
            log[i].time - log[i - 1].time >= match log[i - 1].action
                                             case TurnLeft => 1400
                                             case TurnRight => 1250
                                             case UTurn => 1700
                                             case FinishDelay => 900
                                             case _ => 500
  {
    hide Apply;
    RunWaits(START, run, 0);
    SpacedAt(Run(START, run).log, i);
  }

  lemma SpacedAt(log: seq<Node>, i: nat)
    requires Spaced(log) && 0 < i < |log|
    ensures log[i].time - log[i - 1].time >= Duration(log[i - 1].action) + 500
  {
  }
}
