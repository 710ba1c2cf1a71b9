/** hcics_track.c over its own context: the planner that fills the step table and the
    tick machine.  Each entry point is one step of TrackSpec. */
module Track {
  import opened Common
  import opened TrackSpec

  datatype Err = Ok | Full | Invalid | Timeout

  /** What is recorded of the path being driven. */
  datatype Trip = Trip(from: nat, goal: nat, log: seq<Node>)

  class Tracker {
    var running: bool
    var finished: bool
    var active: bool
    var hasPath: bool
    const plannedSteps: array<Action>
    var planLen: nat
    var destination: nat
    var pathIndex: nat
    var action: Action
    var lastNode: nat
    var actionEnd: nat
    var location: nat
    var camera: Camera
    ghost var trip: Trip
    ghost var overrun: bool

    ghost predicate Valid()
      reads this
    {
      plannedSteps.Length == MAX_PATH_STEPS && planLen <= MAX_PATH_STEPS && location <= TARGET_MAX
      && destination <= TARGET_MAX
    }

    ghost function Planned(): seq<Action>
      reads this, plannedSteps
      requires Valid()
    {
      plannedSteps[..planLen]
    }

    ghost function Abs(): State
      reads this, plannedSteps
      requires Valid()
    {
      State(running, finished, active, hasPath, Planned(), destination, pathIndex, action,
            lastNode, actionEnd, location, camera, trip.from, trip.goal, trip.log, overrun)
    }

    /** hcics_track_init, first call */
    constructor ()
      ensures Valid() && fresh(plannedSteps) && Abs() == START
    {
      running, finished, active, hasPath := false, false, false, false;
      plannedSteps := new Action[MAX_PATH_STEPS](_ => Forward);
      planLen, destination, pathIndex, action := 0, HOME, 0, Forward;
      lastNode, actionEnd, location, camera := 0, 0, HOME, Camera(0, 0, 0, 0);
      trip, overrun := Trip(HOME, HOME, []), false;
    }

    /** hcics_track_add_step */
    method AddStep(a: Action) returns (r: Err)
      requires Valid()
      modifies this`planLen, plannedSteps
      ensures Valid()
      ensures r == if |old(Planned())| < MAX_PATH_STEPS then Ok else Full
      ensures Planned() == if r == Ok then old(Planned()) + [a] else old(Planned())
    {
      if planLen >= MAX_PATH_STEPS {
        return Full;
      }
      plannedSteps[planLen] := a;
      planLen := planLen + 1;
      r := Ok;
    }

    /** One of the planner's loops: `n` forward steps, or a full table. */
    method AddForwards(n: nat) returns (r: Err)
      requires Valid()
      modifies this`planLen, plannedSteps
      ensures Valid()
      ensures r == if |old(Planned())| + n <= MAX_PATH_STEPS then Ok else Full
      ensures r == Ok ==> Planned() == old(Planned()) + Forwards(n)
    {
      ghost var was := Planned();
      var i := 0;
      while i < n
        invariant i <= n && Valid()
        invariant |was| + i <= MAX_PATH_STEPS
        invariant Planned() == was + Forwards(i)
      {
        r := AddStep(Forward);
        if r != Ok {
          return;
        }
        assert Forwards(i + 1) == Forwards(i) + [Forward];
        i := i + 1;
      }
      r := Ok;
    }

    /** hcics_track_build_to_target */
    method BuildToTarget(target: nat) returns (r: Err)
      requires Valid() && Planned() == []
      modifies this`planLen, this`destination, plannedSteps
      ensures Valid()
      ensures r == if 1 <= target <= TARGET_MAX then Ok else Invalid
      ensures r == Ok ==> Planned() == ToTarget(target) && destination == target
      ensures r != Ok ==> Planned() == [] && destination == old(destination)
    {
      hide Row, Col, Forwards;
      if !(1 <= target <= TARGET_MAX) {
        return Invalid;
      }
      var row, col := Row(target), Col(target);
      ForwardsLength(row);
      ForwardsLength(col - 1);
      destination := target;
      r := AddForwards(row);
      assert Planned() == Forwards(row);
      r := AddStep(TurnRight);
      r := AddForwards(col - 1);
      assert Planned() == Forwards(row) + [TurnRight] + Forwards(col - 1);
      r := AddStep(StopAtTarget);
    }

    /** hcics_track_build_return_home */
    method BuildReturnHome() returns (r: Err)
      requires Valid() && Planned() == []
      modifies this`planLen, this`destination, plannedSteps
      ensures Valid() && r == Ok && Planned() == ToHome(location) && destination == HOME
    {
      hide Row, Col, Forwards;
      destination := HOME;
      if location == HOME {
        r := AddStep(FinishDelay);
        assert Planned() == [FinishDelay];
        return;
      }
      var row, col := Row(location), Col(location);
      ForwardsLength(row);
      ForwardsLength(col - 1);
      r := AddStep(UTurn);
      assert Planned() == [UTurn];
      r := AddForwards(col - 1);
      assert Planned() == [UTurn] + Forwards(col - 1);
      r := AddStep(TurnLeft);
      assert Planned() == [UTurn] + Forwards(col - 1) + [TurnLeft];
      r := AddForwards(row);
      assert Planned() == [UTurn] + Forwards(col - 1) + [TurnLeft] + Forwards(row);
      r := AddStep(FinishDelay);
    }

    /** hcics_track_plan_path */
    method PlanPath(target: nat) returns (r: Err)
      requires Valid()
      modifies this`planLen, this`destination, plannedSteps
      ensures Valid()
      ensures r == if target <= TARGET_MAX then Ok else Invalid
      ensures r == Ok ==> Planned() == PlanFor(location, target) && destination == target
      ensures r != Ok ==> Planned() == [] && destination == HOME
    {
      hide ToHome, ToTarget;
      forall i | 0 <= i < plannedSteps.Length {
        plannedSteps[i] := Forward;
      }
      planLen, destination := 0, HOME;
      if target == HOME {
        r := BuildReturnHome();
      } else {
        r := BuildToTarget(target);
      }
    }

    /** The end of hcics_track_start_path, once the plan is made. */
    method SetOff(target: nat, now: nat)
      requires Valid() && target <= TARGET_MAX
      modifies this`hasPath, this`pathIndex, this`running, this`finished, this`active, this`lastNode, this`trip
      ensures Valid()
      ensures Abs() == old(Abs()).(running := true, finished := false, active := false, hasPath := true,
                                   index := 0, lastNode := Sub32(now, COOLDOWN_MS),
                                   from := location, goal := target, log := [])
    {
      hasPath, pathIndex, running, finished, active := true, 0, true, false, false;
      lastNode := Sub32(now, COOLDOWN_MS);
      trip := Trip(location, target, []);
    }

    /** hcics_track_start_path, past its check that the motors are configured */
    method StartPath(target: nat, now: nat) returns (r: Err)
      requires Valid()
      modifies this, plannedSteps
      ensures Valid()
      ensures Abs() == Start(old(Abs()), target, now)
      ensures r == if !Fresh(old(camera), now) then Timeout else if target <= TARGET_MAX then Ok else Invalid
    {
      hide PlanFor, Fresh, Sub32;
      if !Fresh(camera, now) {
        return Timeout;
      }
      r := PlanPath(target);
      if r == Ok {
        SetOff(target, now);
      }
    }

    /** hcics_track_stop */
    method StopTracking()
      requires Valid()
      modifies this`running, this`finished, this`active
      ensures Valid() && Abs() == Apply(old(Abs()), Step.Stop)
    {
      running, finished, active := false, false, false;
    }

    /** hcics_track_update_camera */
    method UpdateCamera(c: Camera)
      requires Valid()
      modifies this`camera
      ensures Valid() && Abs() == Apply(old(Abs()), Look(c))
    {
      if c.mode != 1 {
        return;
      }
      camera := c;
    }

    /** hcics_track_finish_path */
    method FinishPath(now: nat)
      requires Valid()
      modifies this`running, this`finished, this`active, this`location, this`lastNode
      ensures Valid() && Abs() == Finish(old(Abs()), now)
    {
      var dest := HOME;
      if hasPath {
        dest := destination;
      }
      running, finished, active := false, true, false;
      location := dest;
      lastNode := now;
    }

    /** hcics_track_begin_action */
    method BeginAction(a: Action, now: nat)
      requires Valid()
      modifies this`running, this`finished, this`active, this`location, this`lastNode, this`action, this`actionEnd
      ensures Valid() && Abs() == Begin(old(Abs()), a, now)
    {
      action := a;
      active := false;
      match a {
        case Forward =>
          lastNode := now;
        case TurnLeft =>
          active := true;
          actionEnd := Add32(now, 900);
        case TurnRight =>
          active := true;
          actionEnd := Add32(now, 750);
        case UTurn =>
          active := true;
          actionEnd := Add32(now, 1200);
        case FinishDelay =>
          active := true;
          actionEnd := Add32(now, 400);
        case StopAtTarget =>
          FinishPath(now);
      }
    }

    /** hcics_track_complete_action, called with an action active */
    method CompleteAction(now: nat)
      requires Valid() && active
      modifies this`running, this`finished, this`active, this`location, this`lastNode
      ensures Valid() && Abs() == Complete(old(Abs()), now)
    {
      if Before(now, actionEnd) {
        return;
      }
      if action == FinishDelay {
        FinishPath(now);
        return;
      }
      active := false;
      lastNode := now;
    }

    /** hcics_track_accept_node */
    method AcceptNode(now: nat)
      requires Valid()
      modifies this
      ensures Valid() && Abs() == Accept(old(Abs()), now)
    {
      hide Begin;
      if !hasPath || pathIndex >= planLen {
        FinishPath(now);
        overrun := true;
        return;
      }
      var step := plannedSteps[pathIndex];
      pathIndex := pathIndex + 1;
      trip := trip.(log := trip.log + [Node(now, step)]);
      BeginAction(step, now);
    }

    /** hcics_track_tick, without the line following that only steers */
    method TrackTick(now: nat)
      requires Valid()
      modifies this
      ensures Valid() && Abs() == Tick(old(Abs()), now)
    {
      hide Complete, Accept, Fresh;
      if !running {
        return;
      }
      if active {
        CompleteAction(now);
        return;
      }
      var seen := SeesNode(now);
      if seen {
        AcceptNode(now);
      }
    }

    /** hcics_track_node_seen */
    method SeesNode(now: nat) returns (seen: bool)
      requires Valid()
      ensures seen == NodeSeen(Abs(), now)
    {
      hide Fresh;
      if !Fresh(camera, now) {
        return false;
      }
      if Sub32(now, lastNode) < COOLDOWN_MS {
        return false;
      }
      var typedNode := camera.kind == 3 || camera.kind == 4 || camera.kind == 7;
      var fallback := camera.kind == 0 && camera.width >= 100;
      seen := (typedNode && camera.width >= 80) || fallback;
    }
  }

  lemma ForwardsLength(n: nat)
    ensures |Forwards(n)| == n
  {
  }
}
