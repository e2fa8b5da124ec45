/** The moving base: chassis odometry, the position controller of `MoveAction`, and the loop
    that `DummyRobot::do_step` closes around them.

    The classes follow the source object by object; each method is tied to a function on
    values, and the whole-run results in `MoveProof` are about these functions.
 */
module BaseMotion {
  import opened RealMath
  import opened Kinematics
  import opened Controllable
  import opened Wrappers
  import opened ActionStates

  const TAU: real := 0.5
  const TOLERANCE: real := 0.01
  const NO_TWIST: Twist2D := Twist2D(0.0, 0.0, 0.0)
  const STILL: WheelSpeeds := WheelSpeeds(0.0, 0.0, 0.0, 0.0)

  // ---------- states as values ----------

  /** The chassis as far as motion is concerned; `yaw` and `yawRate` come from the IMU. */
  datatype ChassisState = ChassisState(
    wheelSpeeds: ControllableValue<WheelSpeeds>, pose: Pose2D, twist: Twist2D, bodyTwist: Twist2D,
    yaw: real, yawRate: real, engaged: bool)

  datatype MoveState = MoveState(
    state: ActionState, goal: Pose2D, goalOdom: Pose2D, linearSpeed: real, angularSpeed: real,
    predicted: real, remaining: real)
  {
    predicate Valid() {
      linearSpeed > 0.0 && angularSpeed > 0.0
    }

    predicate Done() {
      IsDone(state)
    }
  }

  datatype BaseState = BaseState(chassis: ChassisState, move: Option<MoveState>, previous: Option<ActionState>)

  // ---------- one step as functions ----------

  function TimeToGoal(m: Libm, g: Pose2D, linearSpeed: real, angularSpeed: real): real
    requires m.pi > 0.0 && linearSpeed > 0.0 && angularSpeed > 0.0
  {
    Max(Abs(Normalize(m.pi, g.theta)) / angularSpeed, g.Distance(m) / linearSpeed)
  }

  /** The share of the goal offset covered per time constant; a float division by a zero
      distance gives infinity, and the minimum is then 1. */
  function SpeedFactor(distance: real, linearSpeed: real): real {
    if distance == 0.0 then 1.0 else Min(1.0, linearSpeed / (distance / TAU))
  }

  /** The twist towards `g`, the goal as seen from the robot. */
  function Command(m: Libm, g: Pose2D, linearSpeed: real, angularSpeed: real): Twist2D
    requires angularSpeed > 0.0
  {
    var f := SpeedFactor(g.Distance(m), linearSpeed);
    Twist2D(f * g.x / TAU, f * g.y / TAU, Clamp(g.theta / TAU, -angularSpeed, angularSpeed))
  }

  function AfterSetTargetVelocity(c: ChassisState, t: Twist2D): ChassisState {
    c.(wheelSpeeds := c.wheelSpeeds.(desired := WheelSpeedsFromTwist(t)))
  }

  function AfterUpdateOdometry(m: Libm, c: ChassisState, dt: real): ChassisState {
    var body := TwistFromWheelSpeeds(c.wheelSpeeds.current);
    var twist := body.RotateAroundZ(m, c.pose.theta);
    c.(bodyTwist := body, twist := twist, pose := c.pose.Plus(twist.Scale(dt)))
  }

  function AfterUpdateAttitude(c: ChassisState, dt: real): ChassisState {
    var yaw := c.yaw + dt * c.yawRate;
    c.(yaw := yaw, twist := c.twist.(theta := c.yawRate), pose := c.pose.(theta := yaw))
  }

  function AfterReadChassis(m: Libm, c: ChassisState, dt: real): ChassisState {
    var moved := AfterUpdateOdometry(m, c, dt);
    AfterUpdateAttitude(moved.(yawRate := moved.bodyTwist.theta), dt)
  }

  function AfterControlChassis(c: ChassisState): ChassisState {
    if c.engaged && c.wheelSpeeds.NeedsUpdate() then c.(wheelSpeeds := c.wheelSpeeds.Checked()) else c
  }

  /** `MoveAction::do_step`: the action and the chassis afterwards. */
  function AfterMoveStep(m: Libm, a: MoveState, c: ChassisState): (MoveState, ChassisState)
    requires m.pi > 0.0 && a.Valid()
  {
    var first := a.state == Started;
    var b := if first then a.(goalOdom := c.pose.Compose(m, a.goal), state := Running) else a;
    if b.state != Running then (b, c) else
    var g := b.goalOdom.RelativeTo(m, c.pose);
    if g.Norm(m) < TOLERANCE then
      (b.(state := Succeed, remaining := 0.0), AfterSetTargetVelocity(c, NO_TWIST))
    else
      var left := TimeToGoal(m, g, b.linearSpeed, b.angularSpeed);
      (b.(remaining := left, predicted := if first then left else b.predicted),
       AfterSetTargetVelocity(c, Command(m, g, b.linearSpeed, b.angularSpeed)))
  }

  predicate ValidBase(s: BaseState) {
    s.move.Some? ==> s.move.value.Valid()
  }

  /** `DummyRobot::do_step`, and in it `Robot::do_step`, for the base. */
  function AfterBaseStep(m: Libm, s: BaseState, dt: real): (s': BaseState)
    requires m.pi > 0.0 && ValidBase(s)
    ensures ValidBase(s')
  {
    var driven := s.chassis.(wheelSpeeds := s.chassis.wheelSpeeds.(current := s.chassis.wheelSpeeds.target));
    var read := AfterReadChassis(m, driven, dt);
    match s.move
    case None => s.(chassis := AfterControlChassis(read))
    case Some(a) =>
      var (b, c) := AfterMoveStep(m, a, read);
      BaseState(AfterControlChassis(c), if b.Done() then None else Some(b),
                if b.Done() then Some(b.state) else s.previous)
  }

  /** A run of steps of the given sizes. */
  function Run(m: Libm, s: BaseState, dts: seq<real>): (s': BaseState)
    requires m.pi > 0.0 && ValidBase(s)
    ensures ValidBase(s')
    decreases |dts|
  {
    if dts == [] then s else Run(m, AfterBaseStep(m, s, dts[0]), dts[1..])
  }

  /** A new action, as the constructor leaves it. */
  function NewMove(m: Libm, goal: Pose2D, linearSpeed: real, angularSpeed: real): (a: MoveState)
    requires m.pi > 0.0 && linearSpeed > 0.0 && angularSpeed > 0.0
    ensures a.Valid()
  {
    var t := TimeToGoal(m, goal, linearSpeed, angularSpeed);
    MoveState(Undefined, goal, goal, linearSpeed, angularSpeed, t, 0.0)
  }

  // ---------- the objects ----------

  class Chassis {
    const libm: Libm
    var wheelSpeeds: ControllableValue<WheelSpeeds>
    var pose: Pose2D
    var twist: Twist2D
    var bodyTwist: Twist2D
    var yaw: real
    var yawRate: real
    var engaged: bool

    constructor (libm: Libm)
      ensures this.libm == libm
      ensures View() == ChassisState(Initial(STILL), Pose2D(0.0, 0.0, 0.0), NO_TWIST, NO_TWIST, 0.0, 0.0, true)
    {
      this.libm := libm;
      wheelSpeeds := Initial(STILL);
      pose, twist, bodyTwist := Pose2D(0.0, 0.0, 0.0), NO_TWIST, NO_TWIST;
      yaw, yawRate, engaged := 0.0, 0.0, true;
    }

    function View(): ChassisState
      reads this
    {
      ChassisState(wheelSpeeds, pose, twist, bodyTwist, yaw, yawRate, engaged)
    }

    method SetTargetVelocity(t: Twist2D)
      modifies this
      ensures View() == AfterSetTargetVelocity(old(View()), t)
    {
      wheelSpeeds := wheelSpeeds.(desired := WheelSpeedsFromTwist(t));
    }

    /** `engage_wheel_motors`: switching the motors on also stops the wheels. */
    method EngageWheelMotors(value: bool)
      modifies this
      ensures View() == if value == old(engaged) then old(View()) else
                          var c := old(View()).(engaged := value);
                          if value then AfterSetTargetVelocity(c, NO_TWIST) else c
    {
      if value != engaged {
        engaged := value;
        if value {
          wheelSpeeds := wheelSpeeds.(desired := STILL);
        }
      }
    }

    method UpdateOdometry(dt: real)
      modifies this
      ensures View() == AfterUpdateOdometry(libm, old(View()), dt)
    {
      bodyTwist := TwistFromWheelSpeeds(wheelSpeeds.current);
      twist := bodyTwist.RotateAroundZ(libm, pose.theta);
      pose := pose.Plus(twist.Scale(dt));
    }

    method UpdateAttitude(dt: real)
      modifies this
      ensures View() == AfterUpdateAttitude(old(View()), dt)
    {
      yaw := yaw + dt * yawRate;
      twist := twist.(theta := yawRate);
      pose := pose.(theta := yaw);
    }
  }

  class MoveAction {
    const libm: Libm
    var state: ActionState
    var goal: Pose2D
    var goalOdom: Pose2D
    var linearSpeed: real
    var angularSpeed: real
    var predicted: real
    var remaining: real

    constructor (libm: Libm, goal: Pose2D, linearSpeed: real, angularSpeed: real)
      requires libm.pi > 0.0 && linearSpeed > 0.0 && angularSpeed > 0.0
      ensures this.libm == libm
      ensures View() == NewMove(libm, goal, linearSpeed, angularSpeed)
    {
      this.libm := libm;
      this.state, this.goal, this.goalOdom := Undefined, goal, goal;
      this.linearSpeed, this.angularSpeed := linearSpeed, angularSpeed;
      this.predicted := TimeToGoal(libm, goal, linearSpeed, angularSpeed);
      this.remaining := 0.0;
    }

    function View(): MoveState
      reads this
    {
      MoveState(state, goal, goalOdom, linearSpeed, angularSpeed, predicted, remaining)
    }

    method DoStep(chassis: Chassis)
      requires libm.pi > 0.0 && View().Valid() && chassis.libm == libm
      modifies this, chassis
      ensures (View(), chassis.View()) == AfterMoveStep(libm, old(View()), old(chassis.View()))
    {
      var first := false;
      if state == Started {
        first := true;
        goalOdom := chassis.pose.Compose(libm, goal);
        state := Running;
      }
      if state == Running {
        var g := goalOdom.RelativeTo(libm, chassis.pose);
        var twist;
        if g.Norm(libm) < 0.01 {
          twist := Twist2D(0.0, 0.0, 0.0);
          state := Succeed;
          remaining := 0.0;
        } else {
          twist := Command(libm, g, linearSpeed, angularSpeed);
          remaining := TimeToGoal(libm, g, linearSpeed, angularSpeed);
          if first {
            predicted := remaining;
          }
        }
        chassis.SetTargetVelocity(twist);
      }
    }
  }

  /** The base of a `DummyRobot`: the chassis and the entry "move" of the action map. */
  class MobileBase {
    const libm: Libm
    const chassis: Chassis
    var move: MoveAction?
    var previous: Option<ActionState>

    ghost predicate Valid()
      reads this, chassis, move
    {
      && libm.pi > 0.0 && chassis.libm == libm
      && (move != null ==> move.libm == libm && move.View().Valid())
    }

    ghost function View(): BaseState
      reads this, chassis, move
    {
      BaseState(chassis.View(), if move == null then None else Some(move.View()), previous)
    }

    constructor (libm: Libm)
      requires libm.pi > 0.0
      ensures Valid() && fresh(chassis) && move == null && previous == None
      ensures chassis.View() == ChassisState(Initial(STILL), Pose2D(0.0, 0.0, 0.0), NO_TWIST, NO_TWIST, 0.0, 0.0, true)
      ensures this.libm == libm
    {
      this.libm := libm;
      chassis := new Chassis(libm);
      move, previous := null, None;
    }

    /** `move_base`: rejected while a move is active. */
    method SubmitMove(goal: Pose2D, linearSpeed: real, angularSpeed: real) returns (r: ActionState)
      requires Valid() && linearSpeed > 0.0 && angularSpeed > 0.0
      modifies this
      ensures Valid()
      ensures r == if old(move) != null then Rejected else Started
      ensures View() == if old(move) != null then old(View()) else
                          old(View()).(move := Some(NewMove(libm, goal, linearSpeed, angularSpeed).(state := Started)))
    {
      if move != null {
        return Rejected;
      }
      var action := new MoveAction(libm, goal, linearSpeed, angularSpeed);
      action.state := Started;
      move := action;
      return action.state;
    }

    method ReadChassis(dt: real)
      requires Valid()
      modifies chassis
      ensures Valid() && chassis.View() == AfterReadChassis(libm, old(chassis.View()), dt)
    {
      chassis.UpdateOdometry(dt);
      chassis.yawRate := chassis.bodyTwist.theta;
      chassis.UpdateAttitude(dt);
    }

    method ControlChassis()
      requires Valid()
      modifies chassis
      ensures Valid() && chassis.View() == AfterControlChassis(old(chassis.View()))
    {
      if chassis.engaged && chassis.wheelSpeeds.NeedsUpdate() {
        chassis.wheelSpeeds := chassis.wheelSpeeds.Checked();
      }
    }

    method DoStep(dt: real)
      requires Valid()
      modifies this, chassis, move
      ensures Valid() && View() == AfterBaseStep(libm, old(View()), dt)
    {
      chassis.wheelSpeeds := chassis.wheelSpeeds.(current := chassis.wheelSpeeds.target);
      ReadChassis(dt);
      if move != null {
        move.DoStep(chassis);
        if move.View().Done() {
          previous := Some(move.state);
          move := null;
        }
      }
      ControlChassis();
    }
  }
}
