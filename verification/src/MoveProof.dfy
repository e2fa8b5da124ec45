/** The closed loop of `MoveAction` and the plant: every accepted move succeeds.

    Distance `d` and heading error `e` to the goal obey d' = d - dt * min(d / tau, v) and
    |e|' = |e| - dt * min(|e| / tau, w); whole runs follow from that.
 */
module MoveProof {
  import opened RealMath
  import opened Kinematics
  import opened Controllable
  import opened Wrappers
  import opened BaseMotion
  import opened ActionStates

  // ---------- the two errors ----------

  ghost function Gap(m: Libm, g: Pose2D, p: Pose2D): real {
    Hypot(m, g.x - p.x, g.y - p.y)
  }

  ghost function Turn(g: Pose2D, p: Pose2D): real {
    g.theta - p.theta
  }

  lemma GapNonNegative(m: Libm, g: Pose2D, p: Pose2D)
    requires m.Lawful()
    ensures Gap(m, g, p) >= 0.0
  {
    HypotSquare(m, g.x - p.x, g.y - p.y);
  }

  /** Seen from the robot the goal is as far as it is, and turned by the heading error. */
  lemma ErrorsSeenFromRobot(m: Libm, g: Pose2D, p: Pose2D)
    requires m.Lawful()
    ensures g.RelativeTo(m, p).Distance(m) == Gap(m, g, p)
    ensures g.RelativeTo(m, p).theta == Turn(g, p)
  {
    var a, b := g.x - p.x, g.y - p.y;
    RelativeToOffset(m, g, p);
    RotateBack(m, a, b, p.theta);
    HypotSquare(m, a, b);
    HypotUnique(m, g.RelativeTo(m, p).x, g.RelativeTo(m, p).y, Hypot(m, a, b));
  }

  // ---------- one step of the plant under the controller's command ----------

  ghost predicate ShareLeft(d: real, d': real, q: real) {
    d' == (1.0 - q) * d
  }

  /** Moving the fraction `q` of the way to the goal leaves the rest of the gap. */
  lemma GapShrinks(m: Libm, g: Pose2D, p: Pose2D, p': Pose2D, q: real)
    requires m.Lawful() && 0.0 <= q <= 1.0
    requires p'.x == p.x + q * (g.x - p.x) && p'.y == p.y + q * (g.y - p.y)
    ensures ShareLeft(Gap(m, g, p), Gap(m, g, p'), q)
  {
    var a, b, k := g.x - p.x, g.y - p.y, 1.0 - q;
    HypotScaled(m, a, b, k);
    assert g.x - p'.x == k * a && g.y - p'.y == k * b;
  }

  /** The recurrence of the distance to the goal. */
  ghost predicate GapShrunk(d: real, d': real, v: real, dt: real) {
    d >= 0.0 && d' == d - dt * Min(d / TAU, v)
  }

  /** The recurrence of the size of the heading error. */
  ghost predicate TurnShrunk(x: real, x': real, w: real, dt: real) {
    x >= 0.0 && x' == x - dt * Min(x / TAU, w)
  }

  lemma FactorRange(d: real, v: real) returns (f: real)
    requires d >= 0.0 && v > 0.0
    ensures f == SpeedFactor(d, v) && 0.0 <= f <= 1.0
    ensures f * (2.0 * d) == Min(2.0 * d, v)
  {
    f := SpeedFactor(d, v);
    if d != 0.0 {
      var r := v / (2.0 * d);
      assert d / TAU == 2.0 * d && r * (2.0 * d) == v;
      if r <= 0.0 {
        ProductNonNegative(-r, 2.0 * d);
        assert (-r) * (2.0 * d) == -v;
      }
      FactorTimesDistance(d, v, r);
    }
  }

  /** The share `dt * k` of the gap covered in one step, and the gap that remains. */
  lemma CoveredShare(d: real, d': real, v: real, dt: real, k: real)
    requires d >= 0.0 && v > 0.0 && 0.0 < dt <= TAU
    requires k == SpeedFactor(d, v) / TAU
    ensures 0.0 <= dt * k <= 1.0
    ensures ShareLeft(d, d', dt * k) ==> GapShrunk(d, d', v, dt)
  {
    var f := FactorRange(d, v);
    assert k == 2.0 * f && d / TAU == 2.0 * d;
    Regroup(dt, f, d);
    ShareBounds(dt, f);
  }

  lemma FactorTimesDistance(d: real, v: real, r: real)
    requires d > 0.0 && r * (2.0 * d) == v
    ensures Min(1.0, r) * (2.0 * d) == Min(2.0 * d, v)
  {
    if r > 1.0 {
      ProductPositive(r - 1.0, 2.0 * d);
      assert (r - 1.0) * (2.0 * d) == v - 2.0 * d;
    } else if r < 1.0 {
      ProductPositive(1.0 - r, 2.0 * d);
      assert (1.0 - r) * (2.0 * d) == 2.0 * d - v;
    }
  }

  lemma Regroup(dt: real, f: real, d: real)
    ensures (1.0 - dt * (2.0 * f)) * d == d - dt * (f * (2.0 * d))
  {}

  lemma ShareBounds(dt: real, f: real)
    requires 0.0 < dt <= TAU && 0.0 <= f <= 1.0
    ensures 0.0 <= dt * (f / TAU) <= 1.0
  {
    assert dt * (f / TAU) == (2.0 * dt) * f;
    assert (1.0 - 2.0 * dt) * f >= 0.0;
  }

  lemma HeadingShrinks(e: real, e': real, w: real, dt: real)
    requires w > 0.0 && 0.0 < dt <= TAU
    requires e' == e - dt * Clamp(e / TAU, -w, w)
    ensures TurnShrunk(Abs(e), Abs(e'), w, dt)
  {
    var a := Min(2.0 * Abs(e), w);
    var c := Clamp(e / TAU, -w, w);
    assert e / TAU == 2.0 * e && Abs(e) / TAU == 2.0 * Abs(e);
    assert c == if e < 0.0 then -a else a;
    assert dt * (-a) == -(dt * a);
    ProductNonNegative(1.0 - 2.0 * dt, Abs(e));
    ProductNonNegative(dt, 2.0 * Abs(e) - a);
    ProductNonNegative(dt, a);
    assert (1.0 - 2.0 * dt) * Abs(e) == Abs(e) - dt * (2.0 * Abs(e));
    assert dt * (2.0 * Abs(e) - a) == dt * (2.0 * Abs(e)) - dt * a;
  }

  /** Where the wheels, turning as commanded from pose `p`, take the robot in `dt`. */
  ghost function Driven(m: Libm, p: Pose2D, t: Twist2D, dt: real): Pose2D {
    Pose2D(p.x + RotateX(m, t.x, t.y, p.theta) * dt, p.y + RotateY(m, t.x, t.y, p.theta) * dt, p.theta + t.theta * dt)
  }

  lemma DrivenIsReading(m: Libm, c: ChassisState, t: Twist2D, dt: real)
    requires c.yaw == c.pose.theta && c.wheelSpeeds.current == WheelSpeedsFromTwist(t)
    ensures AfterReadChassis(m, c, dt).pose == Driven(m, c.pose, t, dt)
    ensures AfterReadChassis(m, c, dt).yaw == AfterReadChassis(m, c, dt).pose.theta
  {
    TwistOfWheels(t);
    var moved := AfterUpdateOdometry(m, c, dt);
    assert moved.bodyTwist == t;
    assert moved.pose.x == Driven(m, c.pose, t, dt).x && moved.pose.y == Driven(m, c.pose, t, dt).y;
    assert dt * t.theta == t.theta * dt;
  }

  lemma CommandScaled(m: Libm, r: Pose2D, v: real, w: real, alpha: real) returns (k: real)
    requires w > 0.0
    ensures k == SpeedFactor(r.Distance(m), v) / TAU
    ensures var t := Command(m, r, v, w);
            && RotateX(m, t.x, t.y, alpha) == k * RotateX(m, r.x, r.y, alpha)
            && RotateY(m, t.x, t.y, alpha) == k * RotateY(m, r.x, r.y, alpha)
  {
    var f := SpeedFactor(r.Distance(m), v);
    k := f / TAU;
    assert f * r.x / TAU == k * r.x && f * r.y / TAU == k * r.y;
    RotateScaled(m, r.x, r.y, k, alpha);
  }

  /** The command turned back into the odometry frame points straight at the goal. */
  lemma CommandTowardsGoal(m: Libm, g: Pose2D, p: Pose2D, v: real, w: real) returns (t: Twist2D, k: real)
    requires m.Lawful() && w > 0.0
    ensures t == Command(m, g.RelativeTo(m, p), v, w)
    ensures k == SpeedFactor(Gap(m, g, p), v) / TAU
    ensures RotateX(m, t.x, t.y, p.theta) == k * (g.x - p.x)
    ensures RotateY(m, t.x, t.y, p.theta) == k * (g.y - p.y)
    ensures t.theta == Clamp(Turn(g, p) / TAU, -w, w)
  {
    var r := g.RelativeTo(m, p);
    t := Command(m, r, v, w);
    k := CommandScaled(m, r, v, w, p.theta);
    ErrorsSeenFromRobot(m, g, p);
    RelativeToOffset(m, g, p);
    RotateBack(m, g.x - p.x, g.y - p.y, p.theta);
  }

  lemma Swap(k: real, a: real, dt: real)
    ensures (k * a) * dt == (dt * k) * a
  {}

  lemma DrivenTowardsGoal(m: Libm, g: Pose2D, p: Pose2D, t: Twist2D, k: real, dt: real)
    requires RotateX(m, t.x, t.y, p.theta) == k * (g.x - p.x)
    requires RotateY(m, t.x, t.y, p.theta) == k * (g.y - p.y)
    ensures var p' := Driven(m, p, t, dt);
            && p'.x == p.x + (dt * k) * (g.x - p.x) && p'.y == p.y + (dt * k) * (g.y - p.y)
            && Turn(g, p') == Turn(g, p) - dt * t.theta
  {
    Swap(k, g.x - p.x, dt);
    Swap(k, g.y - p.y, dt);
  }

  lemma GapStep(m: Libm, g: Pose2D, p: Pose2D, p': Pose2D, k: real, v: real, dt: real)
    requires m.Lawful() && v > 0.0 && 0.0 < dt <= TAU
    requires k == SpeedFactor(Gap(m, g, p), v) / TAU
    requires p'.x == p.x + (dt * k) * (g.x - p.x) && p'.y == p.y + (dt * k) * (g.y - p.y)
    ensures GapShrunk(Gap(m, g, p), Gap(m, g, p'), v, dt)
  {
    GapNonNegative(m, g, p);
    CoveredShare(Gap(m, g, p), Gap(m, g, p'), v, dt, k);
    GapShrinks(m, g, p, p', dt * k);
  }

  /** One step: both errors shrink as announced. */
  ghost predicate ErrorsShrunk(m: Libm, g: Pose2D, p: Pose2D, p': Pose2D, v: real, w: real, dt: real) {
    && GapShrunk(Gap(m, g, p), Gap(m, g, p'), v, dt)
    && TurnShrunk(Abs(Turn(g, p)), Abs(Turn(g, p')), w, dt)
  }

  lemma StepShrinksErrors(m: Libm, g: Pose2D, p: Pose2D, v: real, w: real, dt: real) returns (t: Twist2D, p': Pose2D)
    requires m.Lawful() && v > 0.0 && w > 0.0 && 0.0 < dt <= TAU
    ensures t == Command(m, g.RelativeTo(m, p), v, w) && p' == Driven(m, p, t, dt)
    ensures ErrorsShrunk(m, g, p, p', v, w, dt)
  {
    var k;
    t, k := CommandTowardsGoal(m, g, p, v, w);
    p' := Driven(m, p, t, dt);
    DrivenTowardsGoal(m, g, p, t, k, dt);
    GapStep(m, g, p, p', k, v, dt);
    HeadingShrinks(Turn(g, p), Turn(g, p'), w, dt);
  }

  // ---------- the loop ----------

  /** A running move whose last command is on the wheels, not yet at its goal. */
  ghost predicate Tracking(m: Libm, s: BaseState, g: Pose2D, v: real, w: real)
    requires m.pi > 0.0
  {
    && v > 0.0 && w > 0.0
    && s.chassis.engaged && s.chassis.yaw == s.chassis.pose.theta
    && s.move.Some?
    && s.move.value.state == Running
    && s.move.value.goalOdom == g
    && s.move.value.linearSpeed == v && s.move.value.angularSpeed == w
    && s.chassis.wheelSpeeds.target == WheelSpeedsFromTwist(Command(m, g.RelativeTo(m, s.chassis.pose), v, w))
    && TOLERANCE <= g.RelativeTo(m, s.chassis.pose).Norm(m)
  }

  /** The move has succeeded, its goal is within tolerance, and the wheels are at rest. */
  ghost predicate Arrived(m: Libm, s: BaseState, g: Pose2D)
    requires m.pi > 0.0
  {
    && s.chassis.engaged && s.chassis.yaw == s.chassis.pose.theta
    && s.move == None && s.previous == Some(Succeed)
    && s.chassis.wheelSpeeds.target == WheelSpeedsFromTwist(NO_TWIST)
    && s.chassis.wheelSpeeds.desired == WheelSpeedsFromTwist(NO_TWIST)
    && g.RelativeTo(m, s.chassis.pose).Norm(m) < TOLERANCE
  }

  /** What the action makes of a fresh reading: it has either arrived or goes on tracking. */
  lemma ControlStep(m: Libm, a: MoveState, c: ChassisState, s': BaseState, previous: Option<ActionState>, g: Pose2D)
    requires m.Lawful() && a.Valid()
    requires c.engaged && c.yaw == c.pose.theta
    requires (a.state == Running && a.goalOdom == g) || (a.state == Started && c.pose.Compose(m, a.goal) == g)
    requires var (b, d) := AfterMoveStep(m, a, c);
             s' == BaseState(AfterControlChassis(d), if b.Done() then None else Some(b),
                             if b.Done() then Some(b.state) else previous)
    ensures s'.chassis.pose == c.pose
    ensures if g.RelativeTo(m, c.pose).Norm(m) < TOLERANCE then Arrived(m, s', g)
            else Tracking(m, s', g, a.linearSpeed, a.angularSpeed)
  {}

  ghost function Remaining(m: Libm, g: Pose2D, p: Pose2D): real {
    Gap(m, g, p) + Abs(Turn(g, p))
  }

  /** The least error that any step of a move removes, per unit of time. */
  ghost function Rate(v: real, w: real): real {
    Min(0.02, Min(v, w))
  }

  lemma ShrinkTogether(d: real, x: real, d': real, x': real, v: real, w: real, dt: real)
    requires d + x >= TOLERANCE && v > 0.0 && w > 0.0 && dt > 0.0
    requires GapShrunk(d, d', v, dt) && TurnShrunk(x, x', w, dt)
    ensures d' + x' <= d + x - dt * Rate(v, w)
  {
    var a, b, r := Min(d / TAU, v), Min(x / TAU, w), Rate(v, w);
    ProductNonNegative(dt, a + b - r);
    assert dt * (a + b - r) == dt * a + dt * b - dt * r;
  }

  ghost predicate RemainingShrunk(m: Libm, g: Pose2D, p: Pose2D, p': Pose2D, v: real, w: real, dt: real) {
    Remaining(m, g, p') <= Remaining(m, g, p) - dt * Rate(v, w)
  }

  lemma ShrinkAtLeast(m: Libm, g: Pose2D, p: Pose2D, p': Pose2D, v: real, w: real, dt: real)
    requires Remaining(m, g, p) >= TOLERANCE && v > 0.0 && w > 0.0 && dt > 0.0
    requires ErrorsShrunk(m, g, p, p', v, w, dt)
    ensures RemainingShrunk(m, g, p, p', v, w, dt)
  {
    ShrinkTogether(Gap(m, g, p), Abs(Turn(g, p)), Gap(m, g, p'), Abs(Turn(g, p')), v, w, dt);
  }

  lemma NormBelowRemaining(m: Libm, g: Pose2D, p: Pose2D)
    requires m.Lawful()
    ensures g.RelativeTo(m, p).Norm(m) <= Remaining(m, g, p)
    ensures Gap(m, g, p) >= 0.0
  {
    ErrorsSeenFromRobot(m, g, p);
    GapNonNegative(m, g, p);
    NormalizeShrinks(m.pi, Turn(g, p));
  }

  /** One pass through the loop while tracking. */
  lemma LoopStep(m: Libm, s: BaseState, g: Pose2D, v: real, w: real, dt: real)
    requires m.Lawful() && Tracking(m, s, g, v, w)
    ensures var s' := AfterBaseStep(m, s, dt);
            && (Arrived(m, s', g) || Tracking(m, s', g, v, w))
            && s'.chassis.pose == Driven(m, s.chassis.pose, Command(m, g.RelativeTo(m, s.chassis.pose), v, w), dt)
  {
    var t := Command(m, g.RelativeTo(m, s.chassis.pose), v, w);
    var driven := s.chassis.(wheelSpeeds := s.chassis.wheelSpeeds.(current := s.chassis.wheelSpeeds.target));
    DrivenIsReading(m, driven, t, dt);
    ControlStep(m, s.move.value, AfterReadChassis(m, driven, dt), AfterBaseStep(m, s, dt), s.previous, g);
  }

  /** One step of the loop: the move arrives or goes on, and the errors obey their recurrences. */
  lemma TrackingStep(m: Libm, s: BaseState, g: Pose2D, v: real, w: real, dt: real) returns (s': BaseState)
    requires m.Lawful() && Tracking(m, s, g, v, w) && 0.0 < dt <= TAU
    ensures s' == AfterBaseStep(m, s, dt)
    ensures Arrived(m, s', g) || Tracking(m, s', g, v, w)
    ensures ErrorsShrunk(m, g, s.chassis.pose, s'.chassis.pose, v, w, dt)
  {
    s' := AfterBaseStep(m, s, dt);
    LoopStep(m, s, g, v, w, dt);
    var t, p' := StepShrinksErrors(m, g, s.chassis.pose, v, w, dt);
  }

  /** Once arrived the robot stays where it is, whatever the step sizes. */
  lemma {:induction false} ArrivedStays(m: Libm, s: BaseState, g: Pose2D, dts: seq<real>)
    requires m.Lawful() && Arrived(m, s, g)
    ensures Arrived(m, Run(m, s, dts), g)
    ensures Run(m, s, dts).chassis.pose == s.chassis.pose
    decreases |dts|
  {
    if dts != [] {
      var driven := s.chassis.(wheelSpeeds := s.chassis.wheelSpeeds.(current := s.chassis.wheelSpeeds.target));
      DrivenIsReading(m, driven, NO_TWIST, dts[0]);
      ArrivedStays(m, AfterBaseStep(m, s, dts[0]), g, dts[1..]);
    }
  }

  ghost predicate StepSizes(dts: seq<real>) {
    forall i | 0 <= i < |dts| :: 0.0 < dts[i] <= TAU
  }

  /** The steps last long enough to remove the error. */
  ghost predicate Enough(m: Libm, g: Pose2D, p: Pose2D, v: real, w: real, dts: seq<real>) {
    Total(dts) * Rate(v, w) > Remaining(m, g, p)
  }

  lemma EnoughLeft(total: real, dt: real, rest: real, r: real, before: real, after: real)
    requires total == dt + rest && total * r > before && after <= before - dt * r
    ensures rest * r > after
  {
    assert (dt + rest) * r == dt * r + rest * r;
  }

  lemma EnoughAfter(m: Libm, g: Pose2D, p: Pose2D, p': Pose2D, v: real, w: real, dts: seq<real>)
    requires dts != [] && Enough(m, g, p, v, w, dts) && RemainingShrunk(m, g, p, p', v, w, dts[0])
    ensures Enough(m, g, p', v, w, dts[1..])
  {
    EnoughLeft(Total(dts), dts[0], Total(dts[1..]), Rate(v, w), Remaining(m, g, p), Remaining(m, g, p'));
  }

  lemma EnoughStep(m: Libm, g: Pose2D, p: Pose2D, p': Pose2D, v: real, w: real, dts: seq<real>)
    requires m.Lawful() && v > 0.0 && w > 0.0 && StepSizes(dts) && dts != []
    requires Enough(m, g, p, v, w, dts) && ErrorsShrunk(m, g, p, p', v, w, dts[0])
    requires TOLERANCE <= g.RelativeTo(m, p).Norm(m)
    ensures Enough(m, g, p', v, w, dts[1..])
  {
    NormBelowRemaining(m, g, p);
    ShrinkAtLeast(m, g, p, p', v, w, dts[0]);
    EnoughAfter(m, g, p, p', v, w, dts);
  }

  lemma EnoughMeansSteps(m: Libm, g: Pose2D, p: Pose2D, v: real, w: real, dts: seq<real>)
    requires m.Lawful() && Enough(m, g, p, v, w, dts)
    ensures dts != []
  {
    NormBelowRemaining(m, g, p);
  }

  /** From any tracking state the goal is reached once the steps have lasted long enough. */
  lemma {:induction false} TrackingArrives(m: Libm, s: BaseState, g: Pose2D, v: real, w: real, dts: seq<real>)
    requires m.Lawful() && Tracking(m, s, g, v, w) && StepSizes(dts)
    requires Enough(m, g, s.chassis.pose, v, w, dts)
    ensures Arrived(m, Run(m, s, dts), g)
    decreases |dts|
  {
    EnoughMeansSteps(m, g, s.chassis.pose, v, w, dts);
    var s' := TrackingStep(m, s, g, v, w, dts[0]);
    EnoughStep(m, g, s.chassis.pose, s'.chassis.pose, v, w, dts);
    if Arrived(m, s', g) {
      ArrivedStays(m, s', g, dts[1..]);
    } else {
      TrackingArrives(m, s', g, v, w, dts[1..]);
    }
  }

  /** The state just after a move was accepted. */
  ghost predicate Accepted(m: Libm, s: BaseState, goal: Pose2D, v: real, w: real)
    requires m.pi > 0.0
  {
    && v > 0.0 && w > 0.0
    && s.chassis.engaged && s.chassis.yaw == s.chassis.pose.theta
    && s.move == Some(NewMove(m, goal, v, w).(state := Started))
  }

  /** Where the first step takes the robot before the action looks at it. */
  ghost function FirstReading(m: Libm, s: BaseState, dt: real): Pose2D {
    var driven := s.chassis.(wheelSpeeds := s.chassis.wheelSpeeds.(current := s.chassis.wheelSpeeds.target));
    AfterReadChassis(m, driven, dt).pose
  }

  /** The steps last long enough to cover the distance and the turn asked for. */
  ghost predicate LongEnough(m: Libm, goal: Pose2D, v: real, w: real, dts: seq<real>) {
    Total(dts) * Rate(v, w) > goal.Distance(m) + Abs(goal.theta)
  }

  lemma FirstEnough(m: Libm, p: Pose2D, goal: Pose2D, v: real, w: real, dts: seq<real>)
    requires m.Lawful() && LongEnough(m, goal, v, w, dts)
    ensures Enough(m, p.Compose(m, goal), p, v, w, dts)
  {
    RelativeToCompose(m, p, goal);
    ErrorsSeenFromRobot(m, p.Compose(m, goal), p);
  }

  lemma FirstStep(m: Libm, s: BaseState, goal: Pose2D, v: real, w: real, dt: real) returns (s': BaseState, g: Pose2D)
    requires m.Lawful() && Accepted(m, s, goal, v, w)
    ensures s' == AfterBaseStep(m, s, dt)
    ensures s'.chassis.pose == FirstReading(m, s, dt)
    ensures g == s'.chassis.pose.Compose(m, goal)
    ensures Arrived(m, s', g) || Tracking(m, s', g, v, w)
  {
    var p := FirstReading(m, s, dt);
    g, s' := p.Compose(m, goal), AfterBaseStep(m, s, dt);
    var driven := s.chassis.(wheelSpeeds := s.chassis.wheelSpeeds.(current := s.chassis.wheelSpeeds.target));
    ControlStep(m, s.move.value, AfterReadChassis(m, driven, dt), s', s.previous, g);
  }

  /** An accepted move succeeds, for every initial motion of the wheels, every goal, positive
      speeds and step sizes up to tau: after a first step that fixes the goal in the odometry
      frame, steps lasting more than (d0 + |e0|) / min(0.02, v, w) suffice, where d0 and e0 are
      the distance and the turn asked for. The robot then stands within tolerance of the goal. */
  lemma MoveSucceeds(m: Libm, s: BaseState, goal: Pose2D, v: real, w: real, dts: seq<real>)
    requires m.Lawful() && Accepted(m, s, goal, v, w) && StepSizes(dts) && dts != []
    requires LongEnough(m, goal, v, w, dts[1..])
    ensures Arrived(m, Run(m, s, dts), FirstReading(m, s, dts[0]).Compose(m, goal))
  {
    var s', g := FirstStep(m, s, goal, v, w, dts[0]);
    if Arrived(m, s', g) {
      ArrivedStays(m, s', g, dts[1..]);
    } else {
      FirstEnough(m, s'.chassis.pose, goal, v, w, dts[1..]);
      TrackingArrives(m, s', g, v, w, dts[1..]);
    }
  }
}
