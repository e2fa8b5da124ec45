/** What the chassis reports about its motion: the twist in the odometry frame is the velocity of the
    pose, and the twist of the body is what the wheels were told to realise. */
module Odometry {
  import opened RealMath
  import opened Kinematics
  import opened Controllable
  import opened Wrappers
  import opened BaseMotion

  /** In every step the pose moves by the reported odometry twist times the duration, the heading
      included if it agrees with the attitude, as it does from the first step on. */
  lemma TwistIsVelocity(m: Libm, s: BaseState, dt: real)
    requires m.pi > 0.0 && ValidBase(s)
    ensures var c, c' := s.chassis, AfterBaseStep(m, s, dt).chassis;
            && c'.pose.x == c.pose.x + c'.twist.x * dt
            && c'.pose.y == c.pose.y + c'.twist.y * dt
            && (c.yaw == c.pose.theta ==> c'.pose.theta == c.pose.theta + c'.twist.theta * dt)
            && c'.yaw == c'.pose.theta
  {
    var driven := s.chassis.(wheelSpeeds := s.chassis.wheelSpeeds.(current := s.chassis.wheelSpeeds.target));
    ReadingMoves(m, driven, dt);
  }

  lemma ReadingMoves(m: Libm, c: ChassisState, dt: real)
    ensures var r := AfterReadChassis(m, c, dt);
            && r.pose.x == c.pose.x + r.twist.x * dt && r.pose.y == c.pose.y + r.twist.y * dt
            && r.yaw == r.pose.theta == c.yaw + r.twist.theta * dt
  {
    assert dt * AfterUpdateOdometry(m, c, dt).bodyTwist.theta == AfterUpdateOdometry(m, c, dt).bodyTwist.theta * dt;
  }

  function Sum(a: Twist2D, b: Twist2D): Twist2D {
    Twist2D(a.x + b.x, a.y + b.y, a.theta + b.theta)
  }

  /** The reported twists of a run, each times the duration of its step. */
  ghost function Travelled(m: Libm, s: BaseState, dts: seq<real>): Twist2D
    requires m.pi > 0.0 && ValidBase(s)
    decreases |dts|
  {
    if dts == [] then NO_TWIST else
    var s' := AfterBaseStep(m, s, dts[0]);
    Sum(s'.chassis.twist.Scale(dts[0]), Travelled(m, s', dts[1..]))
  }

  /** Over every run the reported twists add up to the displacement. */
  lemma {:induction false} RunTravels(m: Libm, s: BaseState, dts: seq<real>)
    requires m.pi > 0.0 && ValidBase(s) && s.chassis.yaw == s.chassis.pose.theta
    ensures Run(m, s, dts).chassis.pose == s.chassis.pose.Plus(Travelled(m, s, dts))
    decreases |dts|
  {
    if dts != [] {
      var s' := StepTravels(m, s, dts[0]);
      RunTravels(m, s', dts[1..]);
      PlusSum(s.chassis.pose, s'.chassis.twist.Scale(dts[0]), Travelled(m, s', dts[1..]));
    } else {
      PlusNothing(s.chassis.pose);
    }
  }

  lemma StepTravels(m: Libm, s: BaseState, dt: real) returns (s': BaseState)
    requires m.pi > 0.0 && ValidBase(s) && s.chassis.yaw == s.chassis.pose.theta
    ensures s' == AfterBaseStep(m, s, dt) && s'.chassis.yaw == s'.chassis.pose.theta
    ensures s'.chassis.pose == s.chassis.pose.Plus(s'.chassis.twist.Scale(dt))
  {
    s' := AfterBaseStep(m, s, dt);
    TwistIsVelocity(m, s, dt);
  }

  lemma PlusSum(p: Pose2D, a: Twist2D, b: Twist2D)
    ensures p.Plus(a).Plus(b) == p.Plus(Sum(a, b))
  {}

  lemma PlusNothing(p: Pose2D)
    ensures p.Plus(NO_TWIST) == p
  {}

  /** Seen from the robot, as it was turned before the step, the odometry twist is the body twist,
      and this is what the wheels were last told. */
  lemma TwistSeenFromRobot(m: Libm, s: BaseState, dt: real)
    requires m.Lawful() && ValidBase(s)
    ensures var heading, c' := s.chassis.pose.theta, AfterBaseStep(m, s, dt).chassis;
            && RotateX(m, c'.twist.x, c'.twist.y, -heading) == c'.bodyTwist.x
            && RotateY(m, c'.twist.x, c'.twist.y, -heading) == c'.bodyTwist.y
            && c'.twist.theta == c'.bodyTwist.theta
            && c'.bodyTwist == TwistFromWheelSpeeds(s.chassis.wheelSpeeds.target)
  {
    var heading, body := s.chassis.pose.theta, TwistFromWheelSpeeds(s.chassis.wheelSpeeds.target);
    RotateBack(m, body.x, body.y, -heading);
    assert -(-heading) == heading;
  }

  /** The wheels are told, or about to be told, to drive `t`. */
  ghost predicate Asked(s: BaseState, t: Twist2D) {
    s.move == None && s.chassis.engaged && s.chassis.wheelSpeeds.desired == WheelSpeedsFromTwist(t)
  }

  lemma AskedStep(m: Libm, s: BaseState, t: Twist2D, dt: real) returns (s': BaseState)
    requires m.pi > 0.0 && Asked(s, t)
    ensures s' == AfterBaseStep(m, s, dt) && Asked(s', t)
    ensures s'.chassis.wheelSpeeds.target == WheelSpeedsFromTwist(t)
    ensures s.chassis.wheelSpeeds.target == WheelSpeedsFromTwist(t) ==> s'.chassis.bodyTwist == t
  {
    s' := AfterBaseStep(m, s, dt);
    TwistOfWheels(t);
  }

  lemma {:induction false} AskedRun(m: Libm, s: BaseState, t: Twist2D, dts: seq<real>)
    requires m.pi > 0.0 && Asked(s, t) && s.chassis.wheelSpeeds.target == WheelSpeedsFromTwist(t) && dts != []
    ensures Run(m, s, dts).chassis.bodyTwist == t
    decreases |dts|
  {
    var s' := AskedStep(m, s, t, dts[0]);
    if |dts| == 1 {
      assert dts[1..] == [];
    } else {
      AskedRun(m, s', t, dts[1..]);
    }
  }

  /** A velocity asked for is driven from the second step on, as long as the motors are engaged. */
  lemma DrivesAsAsked(m: Libm, s: BaseState, c: ChassisState, t: Twist2D, dts: seq<real>)
    requires m.pi > 0.0 && s.move == None && c.engaged && s.chassis == AfterSetTargetVelocity(c, t)
    requires |dts| >= 2
    ensures Run(m, s, dts).chassis.bodyTwist == t
  {
    var s' := AskedStep(m, s, t, dts[0]);
    AskedRun(m, s', t, dts[1..]);
  }

  /** Without the motors the wheels go on as they were last told, whatever is asked for. */
  lemma {:induction false} DisengagedCoasts(m: Libm, s: BaseState, dts: seq<real>)
    requires m.pi > 0.0 && ValidBase(s) && !s.chassis.engaged
    ensures Run(m, s, dts).chassis.wheelSpeeds.target == s.chassis.wheelSpeeds.target
    decreases |dts|
  {
    if dts != [] {
      DisengagedCoasts(m, AfterBaseStep(m, s, dts[0]), dts[1..]);
    }
  }
}
