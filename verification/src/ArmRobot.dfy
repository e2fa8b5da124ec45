/** The servos, the arm, its action and the robot as objects; their methods are the functions of `Arm`,
    `ArmKinematics` and `ArmAction` on the values of their fields. */
module ArmRobot {
  import opened ActionStates
  import opened RealMath
  import opened Controllable
  import opened Wrappers
  import opened Arm
  import opened ArmProof
  import AA = ArmAction
  import K = ArmKinematics

  class Servo {
    var minAngle: real
    var maxAngle: real
    const maxSpeed: real
    var angle: real
    var angleTarget: Option<real>
    var angleDesired: real
    var angleInitialized: bool
    var speed: ControllableValue<real>
    var mode: ControllableValue<Mode>
    var enabled: ControllableValue<bool>

    constructor (libm: Libm)
      ensures View() == InitialServo(libm)
    {
      minAngle, maxAngle, maxSpeed := -10.0 * libm.pi, 10.0 * libm.pi, 4.0 * libm.pi / 3.0;
      angle, angleTarget, angleDesired, angleInitialized := 0.0, Some(0.0), 0.0, false;
      speed, mode, enabled := Initial(0.0), Initial(ANGLE), Initial(true);
    }

    function View(): ServoState
      reads this
    {
      ServoState(minAngle, maxAngle, maxSpeed, angle, angleTarget, angleDesired, angleInitialized, speed, mode, enabled)
    }

    method Integrate(dt: real)
      requires View().Valid()
      modifies this
      ensures View() == old(View()).(angle := old(View()).Integrated(dt))
    {
      angle := Clamp(angle + speed.target * dt, minAngle, maxAngle);
    }

    method WillPassLimits(dt: real) returns (passes: bool, value: real)
      requires dt > 0.0
      ensures View().SpeedToLimit(dt) == if passes then Some(value) else None
    {
      var next := speed.desired * dt + angle;
      if next < minAngle && speed.desired <= 0.0 {
        return true, (minAngle - angle) / dt;
      }
      if next > maxAngle && speed.desired >= 0.0 {
        return true, (maxAngle - angle) / dt;
      }
      return false, 0.0;
    }

    method DesiredSpeed(dt: real) returns (value: real)
      requires dt > 0.0 && View().Valid()
      ensures value == View().DesiredSpeed(dt)
    {
      if enabled.target {
        var passes, limited := WillPassLimits(dt);
        if !passes {
          limited := speed.desired;
        }
        return Clamp(limited, -maxSpeed, maxSpeed);
      }
      return 0.0;
    }

    method ForwardTargetSpeed(value: real)
      requires View().Valid()
      modifies this
      ensures View() == old(View()).ForwardSpeed(value)
    {
      speed := speed.(target := Clamp(value, -maxSpeed, maxSpeed));
    }

    method ForwardTargetAngle(value: real)
      requires View().Valid()
      modifies this
      ensures View() == old(View()).ForwardAngle(value)
    {
      ForwardTargetSpeed((value - angle) / TAU);
      angleTarget := None;
    }

    method Control(dt: real)
      requires dt > 0.0 && View().Valid()
      modifies this
      ensures View() == old(View()).Controlled(dt)
    {
      if enabled.NeedsUpdate() {
        enabled := enabled.Checked();
      }
      if !enabled.target {
        return;
      }
      if mode.NeedsUpdate() {
        mode := mode.Checked();
      }
      if mode.target == SPEED {
        var desired := DesiredSpeed(dt);
        if speed.target != desired {
          speed := speed.(target := desired);
          ForwardTargetSpeed(desired);
        }
      } else if angleTarget != Some(angleDesired) || !angleInitialized {
        angleTarget, angleInitialized := Some(angleDesired), true;
        ForwardTargetAngle(angleDesired);
      }
    }

    /** `set_target_servo_angle` and its siblings, all at once. */
    method Wish(w: Arm.Wish)
      modifies this
      ensures View() == Wished(old(View()), w)
    {
      angleDesired := w.angle;
      speed := speed.(desired := w.speed);
      mode := mode.(desired := w.mode);
      enabled := enabled.(desired := w.enabled);
    }
  }

  class MoveArmAction {
    var state: ActionState
    var goal: K.Vector2
    const absolute: bool
    var predicted: real
    var remaining: real

    constructor (goal: K.Vector2, absolute: bool)
      ensures state == Undefined && this.goal == goal && this.absolute == absolute
    {
      state, this.goal, this.absolute := Undefined, goal, absolute;
    }

    function View(): AA.MoveState
      reads this
    {
      AA.MoveState(state, goal, absolute, predicted, remaining)
    }

    method Begin(position: K.Vector2)
      modifies this
      ensures View() == AA.Begun(old(View()), position)
    {
      if state == Started {
        if !absolute {
          goal := position.Plus(goal);
        }
        state := Running;
      }
    }

    method Measure(first: bool, distance: real)
      modifies this
      ensures View() == AA.Measured(old(View()), first, distance)
    {
      remaining := distance;
      if first {
        predicted := remaining;
      }
      if remaining < 0.005 {
        state := Succeed;
        remaining := 0.0;
      }
    }

    method DoStep(arm: ArmRobot)
      requires arm.Known()
      modifies this, arm.right, arm.left
      ensures (View(), arm.View()) == AA.AfterMoveStep(arm.libm, old(View()), old(arm.View()), arm.position)
    {
      var first := state == Started;
      Begin(arm.position);
      if state == Running {
        arm.UpdateControl(goal);
        var distance := arm.Distance();
        Measure(first, distance);
      }
    }
  }

  /** The arm of a `DummyRobot`, its two motors, and the entry "move_arm" of the action map. */
  class ArmRobot {
    const libm: Libm
    const right: Servo
    const left: Servo
    var position: K.Vector2
    var move: MoveArmAction?

    ghost predicate Valid()
      reads this, right, left
    {
      libm.Lawful() && right != left && Invariant(View())
    }

    /** The Jacobian is regular, and the square root of two is positive. */
    ghost predicate Known()
      reads right, left
    {
      libm.pi > 0.0 && libm.sqrt(2.0) > 0.0 && right != left && K.Jacobian(libm, View().Current()).Det() != 0.0
    }

    function View(): ArmState
      reads right, left
    {
      ArmState(right.View(), left.View())
    }

    ghost function TipView(): AA.TipState
      reads this, right, left, move
    {
      AA.TipState(View(), position, if move == null then None else Some(move.View()))
    }

    /** The position is not set before the first step. */
    constructor (libm: Libm)
      requires libm.Lawful()
      ensures Valid() && fresh(right) && fresh(left) && move == null
      ensures View() == InitialArm(libm) && this.libm == libm
    {
      this.libm := libm;
      right := new Servo(libm);
      left := new Servo(libm);
      move := null;
      InitialInvariant(libm);
    }

    /** `move_arm`: rejected while a move of the arm is active. */
    method SubmitMove(goal: K.Vector2, absolute: bool) returns (r: ActionState)
      requires Valid()
      modifies this`move
      ensures Valid()
      ensures r == if old(move) != null then Rejected else Started
      ensures if old(move) != null then move == old(move) else
                fresh(move) && move.state == Started && move.goal == goal && move.absolute == absolute
    {
      if move != null {
        return Rejected;
      }
      var action := new MoveArmAction(goal, absolute);
      action.state := Started;
      move := action;
      return action.state;
    }

    /** `limit_motor_angles(CURRENT)`. */
    method LimitCurrentAngles()
      requires libm.sqrt(2.0) > 0.0 && right != left
      modifies right, left
      ensures var a := SafeMotorAngles(libm, old(View()).Current());
              View() == ArmState(old(right.View()).(angle := a.right), old(left.View()).(angle := a.left))
    {
      var a := SafeMotorAngles(libm, Angles(right.angle, left.angle));
      left.angle := a.left;
      right.angle := a.right;
    }

    /** The servo part of `DummyRobot::do_step`. */
    method MoveServos(dt: real)
      requires libm.sqrt(2.0) > 0.0 && right != left && View().Valid() && dt > 0.0
      modifies right, left
      ensures View() == AfterPlant(libm, old(View()), dt)
    {
      var rightBefore, leftBefore := right.angle, left.angle;
      left.Integrate(dt);
      right.Integrate(dt);
      LimitCurrentAngles();
      left.speed := left.speed.(current := (left.angle - leftBefore) / dt);
      right.speed := right.speed.(current := (right.angle - rightBefore) / dt);
    }

    /** `Arm::limit_motors`. */
    method LimitMotors()
      requires libm.sqrt(2.0) > 0.0 && right != left
      modifies right, left
      ensures View() == AfterLimitMotors(libm, old(View()))
    {
      right.minAngle := Max(left.angle + BAND_MIN, RIGHT_MIN);
      right.maxAngle := Min(left.angle + BAND_MAX, RIGHT_MAX);
      left.minAngle := Max(right.angle - BAND_MAX, LEFT_MIN);
      left.maxAngle := right.angle - BAND_MIN;
      var d := SafeMotorAngles(libm, Angles(right.angleDesired, left.angleDesired));
      left.angleDesired := d.left;
      right.angleDesired := d.right;
    }

    /** `Arm::update_position`. */
    method UpdatePosition()
      modifies this`position
      ensures position == K.Forward(libm, View().Current())
    {
      position := K.Forward(libm, Angles(right.angle, left.angle));
    }

    /** `Arm::update_control`: the desired angles of one step towards a position of the tip. */
    method UpdateControl(target: K.Vector2)
      requires Known()
      modifies right, left
      ensures View() == AA.AfterUpdateControl(libm, old(View()), position, target)
    {
      var goal := K.Inverse(libm, target, position, Angles(right.angle, left.angle), 0.2);
      left.angleDesired := goal.left;
      right.angleDesired := goal.right;
      var d := SafeMotorAngles(libm, Angles(right.angleDesired, left.angleDesired));
      left.angleDesired := d.left;
      right.angleDesired := d.right;
    }

    /** `Arm::distance`. */
    function Distance(): (d: real)
      requires libm.pi > 0.0
      reads right, left
      ensures d == AA.Distance(libm, View())
    {
      Abs(Normalize(libm.pi, right.angle - right.angleDesired)) + Abs(Normalize(libm.pi, left.angle - left.angleDesired))
    }

    method Wish(w: Wishes)
      requires right != left
      modifies right, left
      ensures View() == AfterWishes(old(View()), w)
    {
      left.Wish(w.left);
      right.Wish(w.right);
    }

    /** `Robot::control_servos`. */
    method ControlServos(dt: real)
      requires libm.sqrt(2.0) > 0.0 && right != left && dt > 0.0 && AfterLimitMotors(libm, View()).Valid()
      modifies right, left
      ensures View() == AA.AfterControl(libm, old(View()), dt)
    {
      LimitMotors();
      left.Control(dt);
      right.Control(dt);
    }

    /** The plant moves, the position is updated, and clients ask for `w`. */
    method Sense(w: Wishes, dt: real)
      requires Valid() && dt > 0.0
      modifies this`position, right, left
      ensures View() == AA.Sensed(libm, old(View()), w, dt)
      ensures position == K.Forward(libm, View().Current())
    {
      SqrtTwo(libm);
      MoveServos(dt);
      UpdatePosition();
      Wish(w);
    }

    /** The arm's part of the loop over the actions. */
    method StepAction()
      requires Known()
      modifies this`move, move, right, left
      ensures position == old(position)
      ensures if old(move) == null then move == null && View() == old(View()) else
                var (b, t) := AA.AfterMoveStep(libm, old(move.View()), old(View()), position);
                View() == t && if IsDone(b.state) then move == null else move == old(move) && move.View() == b
    {
      if move != null {
        move.DoStep(this);
        if IsDone(move.state) {
          move := null;
        }
      }
    }

    /** `DummyRobot::do_step` for the arm; `w` is what clients ask for meanwhile. */
    method DoStep(w: Wishes, dt: real)
      requires Valid() && dt > 0.0
      modifies this, right, left, move
      ensures Valid() && TipView() == AA.AfterTipStep(libm, old(TipView()), w, dt)
    {
      ghost var s := TipView();
      AA.PositionIsTip(libm, s, w, dt);
      Sense(w, dt);
      StepAction();
      AA.StepParts(libm, s, w, dt);
      ControlServos(dt);
    }
  }
}
