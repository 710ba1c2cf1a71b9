/** The chassis motion adapter (hcics_motion.c): ramping, encoder polling, stall boost and
    the emergency stop, over an initialised device. */
module Motion {
  import opened Common
  import opened StallDetector

  const SPEED_MAX: int := 250
  const RAMP_STEP: int := 15
  const MIN_NONZERO_CMD: int := 25
  const STUCK_MIN_CMD: int := 35
  const STUCK_BOOST_CMD: int := 90
  const STUCK_ACTUAL_MAX: int := 3
  const ENCODER_SANITY_LIMIT: int := 1200
  const ENCODER_FAIL_LIMIT: nat := 20

  /** The 16-bit absolute value, which has no answer for -32768. */
  function Abs16(v: int): int {
    if v >= 0 || v == -0x8000 then v else -v
  }

  function ClampRaw(v: int): int {
    if v > SPEED_MAX then SPEED_MAX else if v < -SPEED_MAX then -SPEED_MAX else v
  }

  function NormalizeTarget(v: int): int {
    var c := ClampRaw(v);
    if c == 0 then 0
    else if Abs16(c) < MIN_NONZERO_CMD then if c > 0 then MIN_NONZERO_CMD else -MIN_NONZERO_CMD
    else c
  }

  function RampToward(current: int, target: int): int {
    if target > current then
      if current + RAMP_STEP > target then target else current + RAMP_STEP
    else if target < current then
      if current - RAMP_STEP < target then target else current - RAMP_STEP
    else current
  }

  function PreserveDirection(v: int, least: int): int {
    if v == 0 || Abs16(v) >= least then v else if v > 0 then least else -least
  }

  function Magnitude(v: int): nat {
    if v < 0 then -v else v
  }

  /** A step from `from` to `to` straight towards `goal`: 15 at most, and less only to
      arrive. */
  predicate Approaches(from: int, to: int, goal: int) {
    && (from <= to <= goal || goal <= to <= from)
    && Magnitude(to - from) <= RAMP_STEP
    && (to == goal || Magnitude(to - from) == RAMP_STEP)
  }

  /** A boosted command goes the same way, and is as strong as the command or the boost,
      whichever is stronger. */
  predicate Boosted(v: int, out: int) {
    && (out == 0 <==> v == 0) && (out > 0 <==> v > 0)
    && (v != 0 ==> Magnitude(out) == if Magnitude(v) > STUCK_BOOST_CMD then Magnitude(v) else STUCK_BOOST_CMD)
  }

  /** Of the speeds the vehicle can be given in the direction asked for, the nearest. */
  ghost predicate Nearest(asked: int, target: int) {
    && Usable(target) && (target == 0 <==> asked == 0) && (target > 0 <==> asked > 0)
    && forall u: int :: Usable(u) && (u == 0 <==> asked == 0) && (u > 0 <==> asked > 0) ==>
         Magnitude(target - asked) <= Magnitude(u - asked)
  }

  lemma RampApproaches(current: Wheels, target: Wheels)
    ensures Approaches(current.left, Ramp(current, target).left, target.left)
    ensures Approaches(current.right, Ramp(current, target).right, target.right)
  {
  }

  lemma BoostMeaning(v: Wheels)
    requires Within(v)
    ensures Boosted(v.left, Boost(v).left) && Boosted(v.right, Boost(v).right)
  {
  }

  lemma NormalizeNearest(v: Wheels)
    ensures Nearest(v.left, Normalize(v).left) && Nearest(v.right, Normalize(v).right)
  {
  }

  lemma NormalizeUsable(v: Wheels)
    ensures Usable(Normalize(v).left) && Usable(Normalize(v).right)
    ensures Clamp(Normalize(v)) == Normalize(v)
  {
  }

  /** A target is zero or strong enough to move, and keeps the sign asked for. */
  lemma NormalizeMeaning(v: int)
    ensures var t := NormalizeTarget(v);
            && (t == 0 <==> v == 0) && (t > 0 <==> v > 0)
            && (t != 0 ==> MIN_NONZERO_CMD <= Abs16(t) <= SPEED_MAX)
            && (MIN_NONZERO_CMD <= Abs16(v) <= SPEED_MAX ==> t == v)
            && NormalizeTarget(t) == t
  {
  }

  ghost function RampTimes(current: int, target: int, n: nat): int {
    if n == 0 then current else RampToward(RampTimes(current, target, n - 1), target)
  }

  /** The ramp moves 15 a step straight to its target, arrives after exactly
      ceil(distance / 15) steps and stays. */
  lemma {:induction false} RampClosedForm(current: int, target: int, n: nat)
    ensures RampTimes(current, target, n) ==
            if target >= current then (if target <= current + RAMP_STEP * n then target else current + RAMP_STEP * n)
            else if target >= current - RAMP_STEP * n then target else current - RAMP_STEP * n
  {
    if n > 0 {
      RampClosedForm(current, target, n - 1);
    }
  }

  /** hcics_motion_read_encoder_delta */
  function Delta(count: Option<int>, last: int): Option<int> {
    if count.Some? && -ENCODER_SANITY_LIMIT <= count.value - last <= ENCODER_SANITY_LIMIT
    then Some(count.value - last) else None
  }

  function NextFails(n: nat, ok: bool, requested: bool): nat {
    if ok then 0 else if requested && n < 255 then n + 1 else n
  }

  /** A poll of one encoder: whether it could be read, and whether motion was requested. */
  datatype Poll = Poll(ok: bool, requested: bool)

  ghost function FailsAfter(n: nat, polls: seq<Poll>): nat
    decreases |polls|
  {
    if |polls| == 0 then n
    else
      var last := polls[|polls| - 1];
      NextFails(FailsAfter(n, polls[..|polls| - 1]), last.ok, last.requested)
  }

  ghost function Asked(polls: seq<Poll>): nat
    decreases |polls|
  {
    if |polls| == 0 then 0
    else Asked(polls[..|polls| - 1]) + if polls[|polls| - 1].requested then 1 else 0
  }

  /** Whatever went before a good poll, the counter is the number of polls since then that
      failed while motion was requested, and stops at 255; so the limit is reached with the
      twentieth of them, and with none before it. */
  lemma {:induction false} FailStreak(n: nat, polls: seq<Poll>, good: nat)
    requires good < |polls| && polls[good].ok && forall i :: good < i < |polls| ==> !polls[i].ok
    ensures var failed := Asked(polls[good + 1..]);
            && FailsAfter(n, polls) == (if failed <= 255 then failed else 255)
            && (FailsAfter(n, polls) >= ENCODER_FAIL_LIMIT <==> failed >= 20)
    decreases |polls|
  {
    var before, since := polls[..|polls| - 1], polls[good + 1..];
    if good < |before| {
      FailStreak(n, before, good);
      assert since[..|since| - 1] == before[good + 1..];
    }
  }

  predicate Usable(target: int) {
    target == 0 || MIN_NONZERO_CMD <= target <= SPEED_MAX || -SPEED_MAX <= target <= -MIN_NONZERO_CMD
  }

  /** A value for each side of the chassis. */
  datatype Wheels = Wheels(left: int, right: int)

  const ZERO: Wheels := Wheels(0, 0)

  predicate Within(v: Wheels) {
    -SPEED_MAX <= v.left <= SPEED_MAX && -SPEED_MAX <= v.right <= SPEED_MAX
  }

  function Clamp(v: Wheels): Wheels {
    Wheels(ClampRaw(v.left), ClampRaw(v.right))
  }

  function Ramp(current: Wheels, target: Wheels): Wheels {
    Wheels(RampToward(current.left, target.left), RampToward(current.right, target.right))
  }

  function Normalize(v: Wheels): Wheels {
    Wheels(NormalizeTarget(v.left), NormalizeTarget(v.right))
  }

  function Boost(v: Wheels): Wheels {
    Wheels(PreserveDirection(v.left, STUCK_BOOST_CMD), PreserveDirection(v.right, STUCK_BOOST_CMD))
  }

  lemma RampWithin(current: Wheels, target: Wheels)
    requires Within(current) && Usable(target.left) && Usable(target.right)
    ensures Within(Ramp(current, target)) && Clamp(Ramp(current, target)) == Ramp(current, target)
    ensures Within(Boost(Ramp(current, target)))
            && Clamp(Boost(Ramp(current, target))) == Boost(Ramp(current, target))
  {
  }

  /** Commanded to move, yet standing still. */
  predicate Stands(command: Wheels, actual: Wheels) {
    && (Abs16(command.left) >= STUCK_MIN_CMD || Abs16(command.right) >= STUCK_MIN_CMD)
    && Abs16(actual.left) <= STUCK_ACTUAL_MAX && Abs16(actual.right) <= STUCK_ACTUAL_MAX
  }

  /** The stronger of the two sides. */
  function Strongest(v: Wheels): nat {
    if Magnitude(v.left) > Magnitude(v.right) then Magnitude(v.left) else Magnitude(v.right)
  }

  /** The vehicle stands when either side is told to move and neither does. */
  lemma StandsMeaning(command: Wheels, actual: Wheels)
    requires Within(command) && Strongest(actual) <= ENCODER_SANITY_LIMIT
    ensures Stands(command, actual) <==> Strongest(command) >= STUCK_MIN_CMD && Strongest(actual) <= STUCK_ACTUAL_MAX
  {
  }

  /** Two encoder counts, or what could not be read, and what the drivers answer. */
  datatype World = World(now: nat, left: Option<int>, right: Option<int>, callbackOk: bool, pwmOk: bool)

  class Chassis {
    var emergencyStop: bool
    var stopReason: nat
    var available: bool            // actual_source is not NONE
    var target: Wheels
    var command: Wheels
    var actual: Wheels
    var output: Wheels
    var encoderLast: Wheels
    var leftFails: nat
    var rightFails: nat
    var stuckStart: nat
    var boostUntil: nat
    var boostCount: nat
    /** What the motor bridge is really driven with. */
    var drive: Wheels

    ghost predicate Valid()
      reads this
    {
      && Usable(target.left) && Usable(target.right) && Within(command) && Within(drive)
      && (emergencyStop ==> drive == ZERO)
    }

    ghost predicate Still()
      reads this
    {
      target == ZERO && command == ZERO && drive == ZERO
    }

    ghost function Stall(): Stuck
      reads this
    {
      Stuck(stuckStart, boostUntil, boostCount)
    }

    predicate Requested()
      reads this
    {
      target.left != 0 || target.right != 0 || command.left != 0 || command.right != 0
    }

    ghost function LeftDelta(w: World): Option<int>
      reads this
    {
      Delta(w.left, encoderLast.left)
    }

    ghost function RightDelta(w: World): Option<int>
      reads this
    {
      Delta(w.right, encoderLast.right)
    }

    /** The poll about to come finds an encoder dead, motion being requested or not. */
    ghost predicate FindsDead(w: World, requested: bool)
      reads this
    {
      && requested
      && (NextFails(leftFails, LeftDelta(w).Some?, true) >= ENCODER_FAIL_LIMIT
          || NextFails(rightFails, RightDelta(w).Some?, true) >= ENCODER_FAIL_LIMIT)
    }

    ghost predicate PollFails(w: World)
      reads this
    {
      FindsDead(w, Requested())
    }

    /** hcics_motion_output */
    method Output(v: Wheels, w: World) returns (ok: bool)
      modifies this`output, this`drive, this`emergencyStop, this`stopReason
      ensures output == v
      ensures drive == if w.pwmOk then v else ZERO
      ensures emergencyStop <==> old(emergencyStop) || !w.pwmOk
      ensures stopReason == if w.pwmOk then old(stopReason) else 0xE1
      ensures ok <==> w.callbackOk && w.pwmOk
    {
      output := v;
      ok := w.callbackOk;
      if w.pwmOk {
        drive := v;
      } else {
        drive := ZERO;
        emergencyStop, stopReason := true, 0xE1;
        ok := false;
      }
    }

    /** hcics_motion_poll_actual_speed */
    method PollActualSpeed(w: World) returns (ok: bool)
      modifies this`encoderLast, this`leftFails, this`rightFails, this`emergencyStop, this`stopReason,
               this`available, this`actual, this`target, this`command
      ensures ok <==> !old(PollFails(w))
      ensures !ok ==> emergencyStop && stopReason == 0xE2 && target == ZERO && command == ZERO
      ensures ok ==> emergencyStop == old(emergencyStop) && stopReason == old(stopReason)
                     && target == old(target) && command == old(command)
      ensures encoderLast.left == if w.left.Some? then w.left.value else old(encoderLast.left)
      ensures encoderLast.right == if w.right.Some? then w.right.value else old(encoderLast.right)
      ensures leftFails == NextFails(old(leftFails), old(LeftDelta(w)).Some?, old(Requested()))
      ensures rightFails == NextFails(old(rightFails), old(RightDelta(w)).Some?, old(Requested()))
      ensures var l, r := old(LeftDelta(w)), old(RightDelta(w));
              if !ok || (l.None? && r.None?) then available == old(available) && actual == old(actual)
              else available && actual == Wheels(if l.Some? then l.value else 0, if r.Some? then r.value else 0)
      ensures ok && w.left.Some? && Magnitude(w.left.value - old(encoderLast.left)) <= ENCODER_SANITY_LIMIT ==>
                actual.left == w.left.value - old(encoderLast.left)
      ensures ok && w.right.Some? && Magnitude(w.right.value - old(encoderLast.right)) <= ENCODER_SANITY_LIMIT ==>
                actual.right == w.right.value - old(encoderLast.right)
    {
      var l, r := Delta(w.left, encoderLast.left), Delta(w.right, encoderLast.right);
      var requested := Requested();
      encoderLast := Wheels(if w.left.Some? then w.left.value else encoderLast.left,
                            if w.right.Some? then w.right.value else encoderLast.right);
      leftFails := NextFails(leftFails, l.Some?, requested);
      rightFails := NextFails(rightFails, r.Some?, requested);
      if requested && (leftFails >= ENCODER_FAIL_LIMIT || rightFails >= ENCODER_FAIL_LIMIT) {
        emergencyStop, stopReason := true, 0xE2;
        target, command := ZERO, ZERO;
        return false;
      }
      if l.Some? || r.Some? {
        actual := Wheels(if l.Some? then l.value else 0, if r.Some? then r.value else 0);
        available := true;
      }
      ok := true;
    }

    method LatchStall()
      modifies this`emergencyStop, this`stopReason, this`target, this`command, this`boostUntil
      ensures emergencyStop && stopReason == 0xE3 && target == ZERO && command == ZERO && boostUntil == 0
    {
      emergencyStop, stopReason := true, 0xE3;
      target, command := ZERO, ZERO;
      boostUntil := 0;
    }

    /** hcics_motion_apply_stuck_boost */
    method ApplyStuckBoost(v: Wheels, now: nat) returns (ok: bool, out: Wheels)
      modifies this`emergencyStop, this`stopReason, this`target, this`command,
               this`stuckStart, this`boostUntil, this`boostCount
      ensures var o := Advance(old(Stall()), Sample(now, available, Stands(v, actual)));
              && Stall() == o.k
              && ok == (o.verdict != Fault)
              && (ok ==> out == if o.verdict == Boosting then Boost(v) else v)
              && (o.verdict == Boosting && Within(v) ==> Boosted(v.left, out.left) && Boosted(v.right, out.right))
      ensures !ok ==> emergencyStop && stopReason == 0xE3 && target == ZERO && command == ZERO
      ensures ok ==> emergencyStop == old(emergencyStop) && stopReason == old(stopReason)
                     && target == old(target) && command == old(command)
    {
      hide Boost, Boosted, Stands;
      if Within(v) { BoostMeaning(v); }
      ok, out := true, v;
      if !available {
        stuckStart, boostUntil, boostCount := 0, 0, 0;
        return;
      }
      var stands := Stands(v, actual);
      if stands {
        if stuckStart == 0 {
          stuckStart := now;
        } else if Sub32(now, stuckStart) >= TRIGGER_MS && boostUntil == 0 {
          if boostCount >= MAX_BOOSTS {
            LatchStall();
            return false, v;
          }
          boostUntil := Add32(now, HOLD_MS);
          boostCount := boostCount + 1;
        }
      } else {
        stuckStart, boostCount := 0, 0;
      }
      if stands && Sub32(now, stuckStart) >= FAIL_MS {
        LatchStall();
        return false, v;
      }
      if boostUntil != 0 && now < boostUntil {
        out := Boost(v);
        return;
      }
      if boostUntil != 0 && now >= boostUntil {
        boostUntil, stuckStart := 0, 0;
      }
    }

    /** hcics_motion_update: the service without `direct`. */
    method UpdateMotion(w: World) returns (ok: bool)
      requires Valid()
      modifies this
      ensures Valid()
      ensures ok <==> w.callbackOk && w.pwmOk
      ensures old(emergencyStop || PollFails(w)) ==>
                && emergencyStop && Still()
                && Stall() == if old(PollFails(w)) then old(Stall()) else Next(old(Stall()), Direct).k
      ensures !old(emergencyStop || PollFails(w)) ==>
                var v := Ramp(old(command), old(target));
                var o := Advance(old(Stall()), Sample(w.now, available, Stands(v, actual)));
                && Stall() == o.k
                && (if o.verdict == Fault
                    then emergencyStop && Still() && stopReason == (if w.pwmOk then 0xE3 else 0xE1)
                    else && command == v && target == old(target) && emergencyStop == !w.pwmOk
                         && Approaches(old(command).left, v.left, target.left)
                         && Approaches(old(command).right, v.right, target.right)
                         && (if o.verdict == Boosting
                             then Boosted(v.left, output.left) && Boosted(v.right, output.right)
                             else output == v)
                         && drive == (if w.pwmOk then output else ZERO))
    {
      hide Advance, Ramp, Boost, Boosted, Approaches, Stands, Clamp, Delta, NextFails;
      RampWithin(command, target);
      RampApproaches(command, target);
      ok := PollActualSpeed(w);
      if !ok {
        ok := Output(ZERO, w);
        return;
      }
      if emergencyStop {
        target, command := ZERO, ZERO;
        stuckStart, boostUntil := 0, 0;
        ok := Output(ZERO, w);
        return;
      }
      command := Ramp(command, target);
      var out;
      ok, out := ApplyStuckBoost(Clamp(command), w.now);
      if !ok {
        ok := Output(ZERO, w);
        return;
      }
      ok := Output(Clamp(out), w);
    }

    /** hcics_motion_set_target_direct: new targets and the service with `direct`. */
    method SetTargetDirect(v: Wheels, w: World) returns (ok: bool)
      requires Valid()
      modifies this
      ensures Valid()
      ensures ok <==> !old(emergencyStop) && w.callbackOk && w.pwmOk
      ensures old(emergencyStop) ==>
                && emergencyStop && stopReason == old(stopReason) && Stall() == old(Stall())
                && target == old(target) && command == old(command) && drive == old(drive) && output == old(output)
      ensures !old(emergencyStop) && old(FindsDead(w, Normalize(v) != ZERO || command != ZERO)) ==>
                && emergencyStop && Still() && output == ZERO && Stall() == old(Stall())
                && stopReason == if w.pwmOk then 0xE2 else 0xE1
      ensures !old(emergencyStop) && !old(FindsDead(w, Normalize(v) != ZERO || command != ZERO)) ==>
                && Stall() == Next(old(Stall()), Direct).k
                && target == Normalize(v) && command == target && output == target
                && Nearest(v.left, target.left) && Nearest(v.right, target.right)
                && drive == (if w.pwmOk then target else ZERO)
                && emergencyStop == !w.pwmOk && stopReason == (if w.pwmOk then old(stopReason) else 0xE1)
    {
      hide Delta, NextFails, Nearest, Normalize;
      NormalizeNearest(v);
      NormalizeUsable(v);
      if emergencyStop {
        return false;
      }
      target := Normalize(v);
      assert Requested() <==> target != ZERO || command != ZERO;
      ok := PollActualSpeed(w);
      if !ok {
        ok := Output(ZERO, w);
        return;
      }
      command := target;
      stuckStart, boostUntil := 0, 0;
      ok := Output(Clamp(command), w);
    }

    /** hcics_motion_set_target */
    method SetTarget(v: Wheels) returns (ok: bool)
      requires Valid()
      modifies this`target
      ensures Valid()
      ensures ok <==> !emergencyStop
      ensures target == if ok then Normalize(v) else old(target)
      ensures ok ==> Nearest(v.left, target.left) && Nearest(v.right, target.right)
    {
      NormalizeNearest(v);
      if emergencyStop {
        return false;
      }
      target := Normalize(v);
      ok := true;
    }

    /** hcics_motion_emergency_stop */
    method EmergencyStop(reason: nat, w: World)
      requires Valid()
      modifies this
      ensures Valid() && emergencyStop && Still()
      ensures stopReason == if w.pwmOk then reason else 0xE1
      ensures Stall() == Next(old(Stall()), Direct).k
    {
      emergencyStop, stopReason := true, reason;
      target, command := ZERO, ZERO;
      stuckStart, boostUntil := 0, 0;
      var _ := Output(ZERO, w);
    }

    /** hcics_motion_clear_emergency_stop */
    method ClearEmergencyStop()
      requires Valid()
      modifies this`emergencyStop, this`stopReason
      ensures Valid() && !emergencyStop && stopReason == 0
    {
      emergencyStop, stopReason := false, 0;
    }

    /** hcics_motion_reset: leaves a stop in force, but forgets what stall detection saw. */
    method ResetMotion(w: World)
      requires Valid()
      modifies this
      ensures Valid() && Still() && Stall() == Stuck(0, 0, 0) && !available
      ensures emergencyStop <==> old(emergencyStop) || !w.pwmOk
    {
      target, command, actual, output := ZERO, ZERO, ZERO, ZERO;
      leftFails, rightFails := 0, 0;
      stuckStart, boostUntil, boostCount := 0, 0, 0;
      available := false;
      var _ := Output(ZERO, w);
    }
  }
}
