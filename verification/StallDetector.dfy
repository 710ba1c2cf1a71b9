/** Stall detection of the chassis (hcics_motion_apply_stuck_boost) as a timed state
    machine: what one update does, and how soon and how late a stall is latched. */
module StallDetector {
  import opened Common

  const TRIGGER_MS: nat := 220
  const HOLD_MS: nat := 450
  const FAIL_MS: nat := 1800
  const MAX_BOOSTS: nat := 2

  /** stuck_start_ms, boost_until_ms and stuck_boost_count; 0 means "not set". */
  datatype Stuck = Stuck(start: nat, boost: nat, count: nat)

  datatype Verdict = Normal | Boosting | Fault

  datatype Outcome = Outcome(k: Stuck, verdict: Verdict)

  /** What an update sees: the clock, whether any speed feedback has arrived, and
      whether the wheels are commanded but stand still. */
  datatype Sample = Sample(now: nat, available: bool, stalled: bool)

  /** The end of an update: a boost goes on, or is over and the stall clock restarts. */
  function Expire(k: Stuck, now: nat): Outcome {
    if k.boost != 0 && now < k.boost then Outcome(k, Boosting)
    else if k.boost != 0 then Outcome(Stuck(0, 0, k.count), Normal)
    else Outcome(k, Normal)
  }

  function Timeout(k: Stuck, now: nat): Outcome {
    if Sub32(now, k.start) >= FAIL_MS then Outcome(k.(boost := 0), Fault) else Expire(k, now)
  }

  /** One non-direct update. */
  function Advance(k: Stuck, s: Sample): Outcome {
    if !s.available then Outcome(Stuck(0, 0, 0), Normal)
    else if !s.stalled then Expire(Stuck(0, k.boost, 0), s.now)
    else if k.start != 0 && Sub32(s.now, k.start) >= TRIGGER_MS && k.boost == 0 then
      if k.count >= MAX_BOOSTS then Outcome(k, Fault)
      else Timeout(Stuck(k.start, Add32(s.now, HOLD_MS), k.count + 1), s.now)
    else Timeout(k.(start := if k.start == 0 then s.now else k.start), s.now)
  }

  /** hcics_motion_update, or the direct service, which drops the stall clock and the
      boost but not the count. */
  datatype Step = Update(s: Sample) | Direct

  function Next(k: Stuck, a: Step): Outcome {
    match a
    case Update(s) => Advance(k, s)
    case Direct => Outcome(Stuck(0, 0, k.count), Normal)
  }

  ghost function Run(k: Stuck, run: seq<Step>): Outcome
    decreases |run|
  {
    if |run| == 0 then Outcome(k, Normal) else Next(Run(k, run[..|run| - 1]).k, run[|run| - 1])
  }

  /** The time of the latest update, 0 before the first. */
  ghost function Latest(run: seq<Step>): nat
    decreases |run|
  {
    if |run| == 0 then 0
    else if run[|run| - 1].Update? then run[|run| - 1].s.now
    else Latest(run[..|run| - 1])
  }

  /** The clock is positive, does not run backwards and does not wrap. */
  ghost predicate Clocked(run: seq<Step>)
    decreases |run|
  {
    |run| > 0 ==>
      && Clocked(run[..|run| - 1])
      && (run[|run| - 1].Update? ==>
            && 0 < run[|run| - 1].s.now < WORD - HOLD_MS
            && Latest(run[..|run| - 1]) <= run[|run| - 1].s.now)
  }

  /** No update before the last one faulted: a fault stops the vehicle. */
  ghost predicate Unfaulted(k: Stuck, run: seq<Step>)
    decreases |run|
  {
    |run| > 0 ==> Run(k, run[..|run| - 1]).verdict != Fault && Unfaulted(k, run[..|run| - 1])
  }

  /** No direct service cuts a boost short. */
  ghost predicate BoostsRunOut(k: Stuck, run: seq<Step>)
    decreases |run|
  {
    |run| > 0 ==>
      && BoostsRunOut(k, run[..|run| - 1])
      && (run[|run| - 1].Direct? ==> Run(k, run[..|run| - 1]).k.boost == 0)
  }

  /** When the stall that lasts to the end of the run began; 0 if there is none. */
  ghost function StallStart(run: seq<Step>): nat
    decreases |run|
  {
    if |run| == 0 then 0
    else
      var before := StallStart(run[..|run| - 1]);
      match run[|run| - 1]
      case Direct => before
      case Update(s) => if !s.available || !s.stalled then 0 else if before != 0 then before else s.now
  }

  ghost predicate StalledFrom(run: seq<Step>, i: nat) {
    forall j :: i <= j < |run| && run[j].Update? ==> run[j].s.available && run[j].s.stalled
  }

  /** The stall clock measures an unbroken stall. */
  lemma {:induction false} StallUnbroken(run: seq<Step>) returns (i: nat)
    requires StallStart(run) != 0
    ensures i < |run| && run[i].Update? && run[i].s.now == StallStart(run) && StalledFrom(run, i)
    decreases |run|
  {
    var before := run[..|run| - 1];
    if StallStart(before) != 0 {
      i := StallUnbroken(before);
    } else {
      i := |run| - 1;
    }
  }

  const CYCLE_MS: nat := TRIGGER_MS + HOLD_MS

  /** What has been waited so far: each boost beyond the first `base` cost a whole cycle
      of the present stall, which began at `since`. */
  ghost predicate Paid(k: Stuck, base: nat, since: nat, last: nat) {
    && k.count <= MAX_BOOSTS
    && base <= MAX_BOOSTS
    && (since == 0 ==> k.start == 0 && k.count <= base)
    && k.start <= last
    && since <= last
    && (k.start != 0 ==> since <= k.start)
    && (k.start != 0 && k.boost == 0 ==> k.start >= since + CYCLE_MS * (k.count - base))
    && (since != 0 && k.boost != 0 ==> k.boost >= since + CYCLE_MS * (k.count - base))
    && (since != 0 && k.start == 0 && k.boost == 0 ==> last >= since + CYCLE_MS * (k.count - base))
    && (k.boost != 0 ==> last < k.boost)
  }

  lemma PaidStep(k: Stuck, base: nat, since: nat, last: nat, s: Sample)
    requires Paid(k, base, since, last) && last <= s.now && 0 < s.now < WORD - HOLD_MS
    requires Advance(k, s).verdict != Fault
    ensures Paid(Advance(k, s).k, base,
                 if !s.available || !s.stalled then 0 else if since != 0 then since else s.now, s.now)
  {
    hide Sub32, Add32;
    SubForward(k.start, s.now);
    SubForward(s.now, s.now);
    AddForward(s.now);
  }

  lemma SubForward(a: nat, b: nat)
    requires a <= b < WORD
    ensures Sub32(b, a) == b - a
  {
  }

  lemma AddForward(now: nat)
    requires now < WORD - HOLD_MS
    ensures Add32(now, HOLD_MS) == now + HOLD_MS
  {
  }

  lemma {:induction false} PaidRun(k: Stuck, run: seq<Step>)
    requires k.start == 0 && k.boost == 0 && k.count <= MAX_BOOSTS
    requires Clocked(run) && Unfaulted(k, run) && BoostsRunOut(k, run) && Run(k, run).verdict != Fault
    ensures Paid(Run(k, run).k, k.count, StallStart(run), Latest(run))
    decreases |run|
  {
    if |run| > 0 {
      var before := run[..|run| - 1];
      PaidRun(k, before);
      if run[|run| - 1].Update? {
        PaidStep(Run(k, before).k, k.count, StallStart(before), Latest(before), run[|run| - 1].s);
      }
    }
  }

  lemma PaidFault(k: Stuck, base: nat, since: nat, last: nat, s: Sample)
    requires Paid(k, base, since, last) && last <= s.now && 0 < s.now < WORD - HOLD_MS
    requires Advance(k, s).verdict == Fault
    ensures s.available && s.stalled && since != 0
    ensures s.now >= since + TRIGGER_MS + CYCLE_MS * (MAX_BOOSTS - base)
  {
  }

  /** A fault comes only after an unbroken stall under command of a trigger time, plus a
      full boost cycle for each boost that was still allowed at the start: 1560 ms when
      the count starts at zero. */
  lemma NoEarlyFault(k: Stuck, run: seq<Step>)
    requires k.start == 0 && k.boost == 0 && k.count <= MAX_BOOSTS
    requires Clocked(run) && Unfaulted(k, run) && BoostsRunOut(k, run)
    requires Run(k, run).verdict == Fault
    ensures StallStart(run) != 0
    ensures Latest(run) - StallStart(run) >= TRIGGER_MS + CYCLE_MS * (MAX_BOOSTS - k.count)
    ensures k.count == 0 ==> Latest(run) - StallStart(run) >= 1560
  {
    hide Advance, Paid;
    var before := run[..|run| - 1];
    PaidRun(k, before);
    PaidFault(Run(k, before).k, k.count, StallStart(before), Latest(before), run[|run| - 1].s);
  }

  /** Updates `d` ms apart at most, all of them stalled. */
  ghost predicate SteadyStall(us: seq<Sample>, d: nat) {
    && (forall i :: 0 <= i < |us| ==> us[i].available && us[i].stalled && 0 < us[i].now < WORD - HOLD_MS)
    && (forall i :: 0 < i < |us| ==> us[i - 1].now <= us[i].now <= us[i - 1].now + d)
  }

  ghost function RunUpdates(k: Stuck, us: seq<Sample>): Outcome
    decreases |us|
  {
    if |us| == 0 then Outcome(k, Normal) else Advance(RunUpdates(k, us[..|us| - 1]).k, us[|us| - 1])
  }

  /** The latest time by which a state reached at `last` must fault. */
  ghost function Deadline(k: Stuck, last: nat, d: nat): int {
    (if k.boost != 0 then k.boost + 2 * d else if k.start != 0 then k.start else last + d)
    + TRIGGER_MS + d
    + if k.count >= 2 then 0 else if k.count == 1 then CYCLE_MS + 3 * d else 2 * CYCLE_MS + 6 * d
  }

  /** No state outstays its time. */
  ghost predicate Live(k: Stuck, last: nat) {
    && k.count <= MAX_BOOSTS
    && k.start <= last
    && (k.boost != 0 ==> last < k.boost && k.start != 0)
    && (k.start != 0 && k.boost == 0 ==> last < k.start + TRIGGER_MS)
  }

  lemma DeadlineStep(k: Stuck, last: nat, s: Sample, d: nat)
    requires Live(k, last) && s.available && s.stalled
    requires last <= s.now <= last + d && 0 < s.now < WORD - HOLD_MS
    ensures s.now <= Deadline(k, last, d)
    ensures Advance(k, s).verdict != Fault ==>
              Live(Advance(k, s).k, s.now) && Deadline(Advance(k, s).k, s.now, d) <= Deadline(k, last, d)
  {
  }

  lemma {:induction false} DeadlineRun(us: seq<Sample>, d: nat)
    requires |us| > 0 && SteadyStall(us, d)
    requires forall n :: 0 <= n <= |us| ==> RunUpdates(Stuck(0, 0, 0), us[..n]).verdict != Fault
    ensures var k := RunUpdates(Stuck(0, 0, 0), us).k;
            Live(k, us[|us| - 1].now) && Deadline(k, us[|us| - 1].now, d) <= us[0].now + 1560 + 7 * d
    decreases |us|
  {
    var before := us[..|us| - 1];
    assert us[..|us|] == us;
    if |us| > 1 {
      assert forall n :: 0 <= n <= |before| ==> before[..n] == us[..n];
      DeadlineRun(before, d);
      DeadlineStep(RunUpdates(Stuck(0, 0, 0), before).k, before[|before| - 1].now, us[|us| - 1], d);
    } else {
      assert before == [];
    }
  }

  /** A stall that lasts is latched in time: as long as no update before the last has
      faulted, no more than 1560 + 7 d ms have passed since the first stalled one. */
  lemma FaultInTime(us: seq<Sample>, d: nat)
    requires |us| > 0 && SteadyStall(us, d)
    requires forall n :: 0 <= n < |us| ==> RunUpdates(Stuck(0, 0, 0), us[..n]).verdict != Fault
    ensures us[|us| - 1].now - us[0].now <= 1560 + 7 * d
  {
    var before := us[..|us| - 1];
    if |us| > 1 {
      assert forall n :: 0 <= n <= |before| ==> before[..n] == us[..n];
      DeadlineRun(before, d);
      DeadlineStep(RunUpdates(Stuck(0, 0, 0), before).k, before[|before| - 1].now, us[|us| - 1], d);
    }
  }

  /** How long the stall clock has been running when an update sees a stall. */
  function Age(k: Stuck, now: nat): nat {
    if k.start == 0 then 0 else Sub32(now, k.start)
  }

  /** A fault is latched exactly by a stalled update that finds the clock past the trigger
      time with every boost used and none on, or past the failure time in any case. */
  lemma FaultExact(k: Stuck, s: Sample)
    requires s.now > 0
    ensures Advance(k, s).verdict == Fault <==>
              && s.available && s.stalled
              && ((k.boost == 0 && k.count >= MAX_BOOSTS && Age(k, s.now) >= TRIGGER_MS) || Age(k, s.now) >= FAIL_MS)
  {
    assert Sub32(s.now, s.now) == 0;
  }

  // ------------------------------------------------------------ when boosts are on

  /** Update i begins a boost. */
  ghost predicate Begins(k: Stuck, us: seq<Sample>, i: nat) {
    i < |us| && RunUpdates(k, us[..i + 1]).k.count > RunUpdates(k, us[..i]).k.count
  }

  /** From update i on there was speed feedback, and less than the hold time has passed. */
  ghost predicate Window(us: seq<Sample>, i: nat) {
    i < |us| && forall j :: i <= j < |us| ==> us[j].available && us[j].now < us[i].now + HOLD_MS
  }

  ghost predicate Quiet(k: Stuck, us: seq<Sample>) {
    && k.boost == 0
    && (forall i :: 0 <= i < |us| ==> 0 < us[i].now < WORD - HOLD_MS)
    && (forall n :: 0 <= n <= |us| ==> RunUpdates(k, us[..n]).verdict != Fault)
  }

  lemma BoostStep(k: Stuck, s: Sample)
    requires 0 < s.now < WORD - HOLD_MS && Advance(k, s).verdict != Fault
    ensures var o := Advance(k, s);
            && (o.verdict == Boosting <==> o.k.boost != 0)
            && (if o.k.count > k.count then k.boost == 0 && o.k.boost == s.now + HOLD_MS && s.available
                else o.k.boost == if s.available && s.now < k.boost then k.boost else 0)
  {
  }

  lemma QuietBefore(k: Stuck, us: seq<Sample>)
    requires Quiet(k, us) && |us| > 0
    ensures us[..|us|] == us && Quiet(k, us[..|us| - 1])
    ensures RunUpdates(k, us).verdict != Fault
    ensures forall i :: 0 <= i < |us| - 1 ==> (Begins(k, us[..|us| - 1], i) <==> Begins(k, us, i))
  {
    var before := us[..|us| - 1];
    assert us[..|us|] == us;
    assert forall n :: 0 <= n <= |before| ==> before[..n] == us[..n];
  }

  lemma {:induction false} InWindow(k: Stuck, us: seq<Sample>, i: nat)
    requires Quiet(k, us) && Begins(k, us, i) && Window(us, i)
    ensures RunUpdates(k, us).k.boost == us[i].now + HOLD_MS && RunUpdates(k, us).verdict == Boosting
    decreases |us|
  {
    hide Advance;
    var before := us[..|us| - 1];
    QuietBefore(k, us);
    if i < |us| - 1 {
      InWindow(k, before, i);
    }
    BoostStep(RunUpdates(k, before).k, us[|us| - 1]);
  }

  lemma {:induction false} WindowOf(k: Stuck, us: seq<Sample>) returns (i: nat)
    requires Quiet(k, us) && RunUpdates(k, us).k.boost != 0
    ensures Begins(k, us, i) && Window(us, i) && RunUpdates(k, us).k.boost == us[i].now + HOLD_MS
    decreases |us|
  {
    hide Advance;
    if |us| > 0 {
      var before := us[..|us| - 1];
      QuietBefore(k, us);
      BoostStep(RunUpdates(k, before).k, us[|us| - 1]);
      if RunUpdates(k, us).k.count > RunUpdates(k, before).k.count {
        i := |us| - 1;
      } else {
        i := WindowOf(k, before);
      }
    }
  }

  /** The commands are boosted at an update exactly when a boost began at it or before it,
      less than the hold time ago, and there was speed feedback ever since. */
  lemma BoostsExactly(k: Stuck, us: seq<Sample>)
    requires Quiet(k, us) && |us| > 0
    ensures RunUpdates(k, us).verdict == Boosting <==> exists i: nat :: Begins(k, us, i) && Window(us, i)
  {
    hide Begins, Window, Advance, RunUpdates;
    if i: nat :| Begins(k, us, i) && Window(us, i) {
      InWindow(k, us, i);
    }
    if RunUpdates(k, us).verdict == Boosting {
      LastBoost(k, us);
      var i := WindowOf(k, us);
    }
  }

  lemma LastBoost(k: Stuck, us: seq<Sample>)
    requires Quiet(k, us) && |us| > 0 && RunUpdates(k, us).verdict == Boosting
    ensures RunUpdates(k, us).k.boost != 0
  {
    hide Advance;
    QuietBefore(k, us);
    BoostStep(RunUpdates(k, us[..|us| - 1]).k, us[|us| - 1]);
  }

  /** The rest of a stall, from time `t` on. */
  ghost predicate Continues(us: seq<Sample>, t: nat) {
    && |us| > 0 && us[0].now >= t
    && (forall i :: 0 <= i < |us| ==> us[i].available && us[i].stalled && 0 < us[i].now < WORD - HOLD_MS)
    && (forall i :: 0 < i < |us| ==> us[i - 1].now <= us[i].now)
  }

  /** The last update is the first to fault. */
  ghost predicate FaultsLast(k: Stuck, us: seq<Sample>) {
    && |us| > 0
    && (forall n :: 0 <= n < |us| ==> RunUpdates(k, us[..n]).verdict != Fault)
    && RunUpdates(k, us).verdict == Fault
  }

  lemma {:induction false} PaidUpdates(k: Stuck, us: seq<Sample>)
    requires k.start == 0 && k.boost == 0 && k.count <= MAX_BOOSTS
    requires |us| > 0 && Continues(us, us[0].now)
    requires forall n :: 0 <= n <= |us| ==> RunUpdates(k, us[..n]).verdict != Fault
    ensures Paid(RunUpdates(k, us).k, k.count, us[0].now, us[|us| - 1].now)
    decreases |us|
  {
    var before := us[..|us| - 1];
    assert us[..|us|] == us;
    if |us| > 1 {
      assert forall n :: 0 <= n <= |before| ==> before[..n] == us[..n];
      PaidUpdates(k, before);
      PaidStep(RunUpdates(k, before).k, k.count, us[0].now, before[|before| - 1].now, us[|us| - 1]);
    } else {
      assert before == [];
    }
  }

  lemma NoEarlyContinuation(k: Stuck, us: seq<Sample>)
    requires k.start == 0 && k.boost == 0 && k.count <= MAX_BOOSTS
    requires |us| > 0 && Continues(us, us[0].now) && FaultsLast(k, us)
    ensures us[|us| - 1].now >= us[0].now + TRIGGER_MS + CYCLE_MS * (MAX_BOOSTS - k.count)
  {
    hide Paid, Advance;
    var before := us[..|us| - 1];
    if |us| > 1 {
      assert forall n :: 0 <= n <= |before| ==> before[..n] == us[..n];
      PaidUpdates(k, before);
      PaidFault(RunUpdates(k, before).k, k.count, us[0].now, before[|before| - 1].now, us[|us| - 1]);
    } else {
      assert before == [];
      FirstNeverFaults(k, us[0]);
    }
  }

  lemma FirstNeverFaults(k: Stuck, s: Sample)
    requires k.start == 0
    ensures Advance(k, s).verdict != Fault
  {
  }

  function Stalled(now: nat): Sample {
    Sample(now, true, true)
  }

  /** The shortest way from a dropped stall clock to a fault. */
  ghost function Shortest(count: nat, t: nat): seq<Sample> {
    if count >= MAX_BOOSTS then [Stalled(t), Stalled(t + TRIGGER_MS)]
    else [Stalled(t), Stalled(t + TRIGGER_MS), Stalled(t + CYCLE_MS),
          Stalled(t + CYCLE_MS), Stalled(t + CYCLE_MS + TRIGGER_MS)]
  }

  lemma ShortestFaults(count: nat, t: nat)
    requires 1 <= count <= MAX_BOOSTS && 0 < t < WORD - 2 * FAIL_MS
    ensures Continues(Shortest(count, t), t) && FaultsLast(Stuck(0, 0, count), Shortest(count, t))
  {
    var us := Shortest(count, t);
    var k := Stuck(0, 0, count);
    assert us[..0] == [];
    assert us[..1] == [us[0]] && [us[0]][..0] == [];
    assert us[..2][..1] == us[..1];
    if count == 1 {
      assert us[..3][..2] == us[..2];
      assert us[..4][..3] == us[..3];
      assert us[..5] == us && us[..5][..4] == us[..4];
      assert RunUpdates(k, us[..1]).k == Stuck(t, 0, 1);
      assert RunUpdates(k, us[..2]).k == Stuck(t, t + CYCLE_MS, 2);
      assert RunUpdates(k, us[..3]).k == Stuck(0, 0, 2);
      assert RunUpdates(k, us[..4]).k == Stuck(t + CYCLE_MS, 0, 2);
    } else {
      assert us[..2] == us;
    }
  }

  /** A direct service drops the clock and the boost but keeps the count, so the 1560 ms
      are promised after it if and only if the stall had already lasted one full cycle
      for every boost counted; `since` is when the stall began, `t` when it goes on. */
  lemma DirectExact(count: nat, since: nat, t: nat)
    requires count <= MAX_BOOSTS && since <= t && 0 < t < WORD - 2 * FAIL_MS
    ensures (forall us: seq<Sample> ::
               Continues(us, t) && FaultsLast(Stuck(0, 0, count), us) ==> us[|us| - 1].now - since >= 1560)
            <==> t - since >= CYCLE_MS * count
  {
    hide RunUpdates, FaultsLast, Advance;
    var k := Stuck(0, 0, count);
    if t - since >= CYCLE_MS * count {
      forall us: seq<Sample> | Continues(us, t) && FaultsLast(k, us) ensures us[|us| - 1].now - since >= 1560 {
        NoEarlyContinuation(k, us);
      }
    } else {
      ShortestFaults(count, t);
      var us := Shortest(count, t);
      assert us[|us| - 1].now - since < 1560;
    }
  }

  /** The bound is false of runs in which a direct service cuts a boost short: here a
      fault is latched 662 ms into the stall. */
  lemma DirectBreaksBound()
    ensures var run := [Update(Stalled(1)), Update(Stalled(221)), Direct, Update(Stalled(222)),
                        Update(Stalled(442)), Direct, Update(Stalled(443)), Update(Stalled(663))];
            && Run(Stuck(0, 0, 0), run).verdict == Fault
            && Latest(run) - StallStart(run) == 662
  {
    var a := [Update(Stalled(1))];
    var b := a + [Update(Stalled(221))];
    var c := b + [Direct];
    var d := c + [Update(Stalled(222))];
    var e := d + [Update(Stalled(442))];
    var f := e + [Direct];
    var g := f + [Update(Stalled(443))];
    var h := g + [Update(Stalled(663))];
    assert a[..0] == [] && b[..1] == a && c[..2] == b && d[..3] == c && e[..4] == d;
    assert f[..5] == e && g[..6] == f && h[..7] == g;
    var k := Stuck(0, 0, 0);
    assert Run(k, b).k == Stuck(1, 671, 1);
    assert Run(k, d).k == Stuck(222, 0, 1);
    assert Run(k, e).k == Stuck(222, 892, 2);
    assert Run(k, g).k == Stuck(443, 0, 2);
    assert Run(k, h).verdict == Fault;
    assert Latest(h) == 663;
    assert StallStart(b) == 1 && StallStart(d) == 1 && StallStart(f) == 1 && StallStart(h) == 1;
    assert h == [Update(Stalled(1)), Update(Stalled(221)), Direct, Update(Stalled(222)),
                 Update(Stalled(442)), Direct, Update(Stalled(443)), Update(Stalled(663))];
  }
}
