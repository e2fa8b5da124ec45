/** The action that moves the tip of the arm: `MoveArmAction`, the controller `Arm::update_control`, and
    the step of the robot around them. */
module ArmAction {
  import opened ActionStates
  import opened ArmKinematics
  import opened ArmProof
  import opened Arm
  import opened RealMath
  import opened Wrappers

  /** The default of the parameter `k` of `inverse_arm_kinematics`. */
  const GAIN: real := 0.2
  const TOLERANCE: real := 0.005

  datatype MoveState = MoveState(state: ActionState, goal: Vector2, absolute: bool, predicted: real, remaining: real)

  /** The arm, where it takes its tip to be, and its action if there is one. */
  datatype TipState = TipState(arm: ArmState, position: Vector2, move: Option<MoveState>)

  // ---------- one step as functions ----------

  /** `Arm::distance`. */
  function Distance(m: Libm, s: ArmState): real
    requires m.pi > 0.0
  {
    Abs(Normalize(m.pi, s.right.angle - s.right.angleDesired)) + Abs(Normalize(m.pi, s.left.angle - s.left.angleDesired))
  }

  /** `Arm::update_control`. */
  function AfterUpdateControl(m: Libm, s: ArmState, position: Vector2, target: Vector2): ArmState
    requires m.sqrt(2.0) > 0.0 && Jacobian(m, s.Current()).Det() != 0.0
  {
    var d := SafeMotorAngles(m, Inverse(m, target, position, s.Current(), GAIN));
    ArmState(s.right.(angleDesired := d.right), s.left.(angleDesired := d.left))
  }

  /** The first step fixes the goal. */
  function Begun(a: MoveState, position: Vector2): MoveState {
    if a.state != Started then a else
    a.(goal := if a.absolute then a.goal else position.Plus(a.goal), state := Running)
  }

  /** The rest of the step, when the arm has been told to go on. */
  function Measured(b: MoveState, first: bool, left: real): MoveState {
    var c := b.(remaining := left, predicted := if first then left else b.predicted);
    if left < TOLERANCE then c.(state := Succeed, remaining := 0.0) else c
  }

  /** `MoveArmAction::do_step`: the action and the arm afterwards. */
  function AfterMoveStep(m: Libm, a: MoveState, s: ArmState, position: Vector2): (MoveState, ArmState)
    requires m.pi > 0.0 && m.sqrt(2.0) > 0.0 && Jacobian(m, s.Current()).Det() != 0.0
  {
    var b := Begun(a, position);
    if b.state != Running then (b, s) else
    var t := AfterUpdateControl(m, s, position, b.goal);
    (Measured(b, a.state == Started, Distance(m, t)), t)
  }

  /** The arm after the plant has moved and the clients have asked for `w`. */
  function Sensed(m: Libm, s: ArmState, w: Wishes, dt: real): (t: ArmState)
    requires m.Lawful() && Invariant(s) && dt > 0.0
    ensures m.sqrt(2.0) > 0.0 && Jacobian(m, t.Current()).Det() != 0.0
  {
    SqrtTwo(m);
    PlantSafe(m, s, dt);
    DeterminantNegative(m, AfterPlant(m, s, dt).Current());
    AfterWishes(AfterPlant(m, s, dt), w)
  }

  /** What the servos are asked for once the action, if any, has done its step. */
  function Directed(m: Libm, s: TipState, w: Wishes, dt: real): Wishes
    requires m.Lawful() && Invariant(s.arm) && dt > 0.0
  {
    var t := Sensed(m, s.arm, w, dt);
    if s.move == None then w else
    var d := AfterMoveStep(m, s.move.value, t, Forward(m, t.Current())).1.Desired();
    Wishes(w.right.(angle := d.right), w.left.(angle := d.left))
  }

  function MoveAfter(m: Libm, s: TipState, w: Wishes, dt: real): Option<MoveState>
    requires m.Lawful() && Invariant(s.arm) && dt > 0.0
  {
    var t := Sensed(m, s.arm, w, dt);
    if s.move == None then None else
    var b := AfterMoveStep(m, s.move.value, t, Forward(m, t.Current())).0;
    if IsDone(b.state) then None else Some(b)
  }

  /** `DummyRobot::do_step`, and in it `Robot::do_step`, for the arm. */
  function AfterTipStep(m: Libm, s: TipState, w: Wishes, dt: real): TipState
    requires m.Lawful() && Invariant(s.arm) && dt > 0.0
  {
    TipState(AfterArmStep(m, s.arm, Directed(m, s, w, dt), dt), Forward(m, Sensed(m, s.arm, w, dt).Current()),
             MoveAfter(m, s, w, dt))
  }

  /** `Robot::control_servos`. */
  function AfterControl(m: Libm, s: ArmState, dt: real): ArmState
    requires m.sqrt(2.0) > 0.0 && AfterLimitMotors(m, s).Valid() && dt > 0.0
  {
    var limited := AfterLimitMotors(m, s);
    ArmState(limited.right.Controlled(dt), limited.left.Controlled(dt))
  }

  /** The step in the order of the source: sense, act, control. */
  lemma StepParts(m: Libm, s: TipState, w: Wishes, dt: real)
    requires m.Lawful() && Invariant(s.arm) && dt > 0.0
    ensures var t := Sensed(m, s.arm, w, dt);
            var u := if s.move == None then t else AfterMoveStep(m, s.move.value, t, Forward(m, t.Current())).1;
            AfterLimitMotors(m, u).Valid() && AfterTipStep(m, s, w, dt).arm == AfterControl(m, u, dt)
  {
    SqrtTwo(m);
    PlantSafe(m, s.arm, dt);
    var t := Sensed(m, s.arm, w, dt);
    if s.move.Some? {
      AskedInstead(m, s.move.value, AfterPlant(m, s.arm, dt), w);
    }
  }

  /** The action changes the desired angles only, as if clients had asked for them. */
  lemma AskedInstead(m: Libm, a: MoveState, p: ArmState, w: Wishes)
    requires m.pi > 0.0 && m.sqrt(2.0) > 0.0 && Jacobian(m, p.Current()).Det() != 0.0
    ensures var t := AfterWishes(p, w);
            var u := AfterMoveStep(m, a, t, Forward(m, t.Current())).1;
            u == AfterWishes(p, Wishes(w.right.(angle := u.right.angleDesired), w.left.(angle := u.left.angleDesired)))
  {}

  // ---------- what holds after every step ----------

  /** The robot knows where its tip is: after every step the position is the forward map of the angles
      that the motors then have; and the arm has done one of the steps of `ArmProof`. */
  lemma PositionIsTip(m: Libm, s: TipState, w: Wishes, dt: real)
    requires m.Lawful() && Invariant(s.arm) && dt > 0.0
    ensures var s' := AfterTipStep(m, s, w, dt);
            && s'.position == Forward(m, s'.arm.Current())
            && Invariant(s'.arm)
  {
    var asked := Directed(m, s, w, dt);
    StepKeepsInvariant(m, s.arm, asked, dt);
    AnglesOfPlant(m, s.arm, asked, dt);
  }

  predicate Active(a: MoveState) {
    a.state == Started || a.state == Running
  }

  /** Where the action is going when it does its step with the tip at `tip`. */
  function TargetOf(a: MoveState, tip: Vector2): Vector2 {
    if a.state == Started && !a.absolute then tip.Plus(a.goal) else a.goal
  }

  /** The law of the controller: the linearised motion of the tip from the angles `a` to `b` is a fifth
      of the way to the target. */
  ghost predicate Steers(m: Libm, a: Angles, b: Angles, target: Vector2) {
    Jacobian(m, a).Times(Vector2(b.right - a.right, b.left - a.left))
      == Vector2(GAIN * (target.x - Forward(m, a).x), GAIN * (target.z - Forward(m, a).z))
  }

  /** The desired angles of the motors that a step of the action leads to. */
  lemma MoveStepSteers(m: Libm, a: MoveState, t: ArmState) returns (step: Angles)
    requires m.Lawful() && Safe(t.Current()) && Active(a)
    requires m.sqrt(2.0) > 0.0 && Jacobian(m, t.Current()).Det() != 0.0
    ensures var tip := Forward(m, t.Current());
            Steers(m, t.Current(), step, TargetOf(a, tip))
            && AfterMoveStep(m, a, t, tip).1.Desired() == SafeMotorAngles(m, step)
  {
    var tip := Forward(m, t.Current());
    step := Inverse(m, TargetOf(a, tip), tip, t.Current(), GAIN);
    InverseStepExact(m, TargetOf(a, tip), tip, t.Current(), GAIN);
  }

  lemma DesiredOfStep(m: Libm, s: ArmState, w: Wishes, dt: real)
    requires m.Lawful() && Invariant(s) && dt > 0.0
    requires m.sqrt(2.0) > 0.0 && Safe(Angles(w.right.angle, w.left.angle))
    ensures AfterArmStep(m, s, w, dt).Desired() == Angles(w.right.angle, w.left.angle)
  {
    SqrtTwo(m);
    PlantSafe(m, s, dt);
    var limited := AfterLimitMotors(m, AfterWishes(AfterPlant(m, s, dt), w));
    ProjectionIdentity(m, Angles(w.right.angle, w.left.angle));
    ControlledDesired(limited.right, dt);
    ControlledDesired(limited.left, dt);
  }

  lemma ControlledDesired(s: ServoState, dt: real)
    requires s.Valid() && dt > 0.0
    ensures s.Controlled(dt).angleDesired == s.angleDesired
  {}

  /** The whole pass, for every state of the arm and everything asked for besides: while the action is
      active, each step leaves the motors told to go to the projection of angles that lead the tip,
      from where it really is, a fifth of the way to the target. */
  lemma ControlLaw(m: Libm, s: TipState, w: Wishes, dt: real) returns (step: Angles)
    requires m.Lawful() && Invariant(s.arm) && dt > 0.0 && s.move.Some? && Active(s.move.value)
    ensures m.sqrt(2.0) > 0.0
    ensures var s' := AfterTipStep(m, s, w, dt);
            var a := s'.arm.Current();
            && Steers(m, a, step, TargetOf(s.move.value, Forward(m, a)))
            && s'.arm.Desired() == SafeMotorAngles(m, step)
  {
    SqrtTwo(m);
    var t, asked := Sensed(m, s.arm, w, dt), Directed(m, s, w, dt);
    PlantSafe(m, s.arm, dt);
    AnglesOfPlant(m, s.arm, asked, dt);
    step := MoveStepSteers(m, s.move.value, t);
    ProjectionCorrect(m, step);
    DesiredOfStep(m, s.arm, asked, dt);
  }

  /** The target is fixed by the first step and stays the same. */
  lemma TargetStays(m: Libm, s: TipState, w: Wishes, dt: real)
    requires m.Lawful() && Invariant(s.arm) && dt > 0.0 && s.move.Some? && Active(s.move.value)
    requires AfterTipStep(m, s, w, dt).move.Some?
    ensures var s' := AfterTipStep(m, s, w, dt);
            && s'.move.value.state == Running
            && forall tip :: TargetOf(s'.move.value, tip) == TargetOf(s.move.value, s'.position)
  {}

  /** While the action goes on it reports the distance of the motors from their desired angles, which is
      not below the tolerance; what it announces is the first distance reported. */
  lemma DistanceReported(m: Libm, s: TipState, w: Wishes, dt: real) returns (s': TipState)
    requires m.Lawful() && Invariant(s.arm) && dt > 0.0 && s.move.Some? && Active(s.move.value)
    ensures s' == AfterTipStep(m, s, w, dt)
    ensures s'.move.Some? ==>
              && s'.move.value.remaining == Distance(m, s'.arm) >= TOLERANCE
              && s'.move.value.predicted == if s.move.value.state == Started then s'.move.value.remaining else s.move.value.predicted
  {
    s' := AfterTipStep(m, s, w, dt);
    var t, asked, a := Sensed(m, s.arm, w, dt), Directed(m, s, w, dt), s.move.value;
    SqrtTwo(m);
    PlantSafe(m, s.arm, dt);
    AnglesOfPlant(m, s.arm, asked, dt);
    var step := MoveStepSteers(m, a, t);
    ProjectionCorrect(m, step);
    DesiredOfStep(m, s.arm, asked, dt);
    Reports(m, a, t, Forward(m, t.Current()));
    SameDistance(m, AfterMoveStep(m, a, t, Forward(m, t.Current())).1, s'.arm);
  }

  lemma SameDistance(m: Libm, s: ArmState, t: ArmState)
    requires m.pi > 0.0 && s.Current() == t.Current() && s.Desired() == t.Desired()
    ensures Distance(m, s) == Distance(m, t)
  {}

  /** The same about the step of the action alone, and nothing remains when it has succeeded. */
  lemma Reports(m: Libm, a: MoveState, t: ArmState, tip: Vector2)
    requires m.pi > 0.0 && m.sqrt(2.0) > 0.0 && Jacobian(m, t.Current()).Det() != 0.0 && Active(a)
    ensures var (b, u) := AfterMoveStep(m, a, t, tip);
            && u.Current() == t.Current()
            && (if IsDone(b.state) then b.remaining == 0.0 else b.remaining == Distance(m, u) >= TOLERANCE)
            && b.predicted == if a.state == Started then Distance(m, u) else a.predicted
  {}

  // ---------- what success means ----------

  lemma SmallTurn(pi: real, x: real)
    requires pi > 3.14 && -3.0 <= x <= 3.0
    ensures Normalize(pi, x) == x
  {
    NormalizeUnique(pi, x, x, 0);
  }

  lemma SineBound(s: real, c: real)
    requires s * s + c * c == 1.0
    ensures -1.0 <= s <= 1.0 && -1.0 <= c <= 1.0
  {
    AtMostOne(s, c);
    AtMostOne(c, s);
  }

  lemma AtMostOne(s: real, c: real)
    requires s * s + c * c == 1.0
    ensures -1.0 <= s <= 1.0
  {
    SquareNonNegative(c);
    SquareMonotone(1.0, Abs(s));
    assert Abs(s) * Abs(s) == s * s;
  }

  lemma ProductAtMost(a: real, b: real, bound: real)
    requires -bound <= a <= bound
    ensures Abs(a * b) <= bound * Abs(b)
  {
    ProductNonNegative(bound - a, Abs(b));
    ProductNonNegative(bound + a, Abs(b));
    assert (bound - a) * Abs(b) == bound * Abs(b) - a * Abs(b);
    assert (bound + a) * Abs(b) == bound * Abs(b) + a * Abs(b);
  }

  lemma RowMovesLittle(a: real, b: real, x: real, z: real, e: real)
    requires -LENGTH <= a <= LENGTH && -LENGTH <= b <= LENGTH
    requires x * a + z * b == GAIN * e && Abs(x) + Abs(z) < TOLERANCE
    ensures Abs(e) < 0.003
  {
    ProductAtMost(a, x, LENGTH);
    ProductAtMost(b, z, LENGTH);
    SmallSum(a * x, b * z, Abs(x), Abs(z), e);
  }

  lemma SmallSum(u: real, v: real, x: real, z: real, e: real)
    requires Abs(u) <= LENGTH * x && Abs(v) <= LENGTH * z && x + z < TOLERANCE && u + v == GAIN * e
    ensures Abs(e) < 0.003
  {}

  /** Small steps of the motors move the tip little. */
  lemma TipMovesLittle(j: Matrix2, v: Vector2, e: Vector2)
    requires -LENGTH <= j.xr <= LENGTH && -LENGTH <= j.xl <= LENGTH
    requires -LENGTH <= j.zr <= LENGTH && -LENGTH <= j.zl <= LENGTH
    requires j.Times(v) == Vector2(GAIN * e.x, GAIN * e.z) && Abs(v.x) + Abs(v.z) < TOLERANCE
    ensures Abs(e.x) < 0.003 && Abs(e.z) < 0.003
  {
    RowMovesLittle(j.xr, j.xl, v.x, v.z, e.x);
    RowMovesLittle(j.zr, j.zl, v.x, v.z, e.z);
  }

  lemma JacobianBound(m: Libm, a: Angles)
    requires m.Lawful()
    ensures var j := Jacobian(m, a);
            && -LENGTH <= j.xr <= LENGTH && -LENGTH <= j.xl <= LENGTH
            && -LENGTH <= j.zr <= LENGTH && -LENGTH <= j.zl <= LENGTH
  {
    var r, l := ZERO.right - a.right, ZERO.left - a.left;
    assert m.Circle(r) && m.Circle(l);
    SineBound(m.sin(r), m.cos(r));
    SineBound(m.sin(l), m.cos(l));
  }

  lemma ShortDistance(m: Libm, a: Angles, step: Angles, target: Vector2)
    requires m.Lawful() && Safe(a) && Safe(step) && Steers(m, a, step, target)
    requires Abs(Normalize(m.pi, a.right - step.right)) + Abs(Normalize(m.pi, a.left - step.left)) < TOLERANCE
    ensures Abs(target.x - Forward(m, a).x) < 0.003 && Abs(target.z - Forward(m, a).z) < 0.003
  {
    SmallTurn(m.pi, a.right - step.right);
    SmallTurn(m.pi, a.left - step.left);
    JacobianBound(m, a);
    var tip := Forward(m, a);
    TipMovesLittle(Jacobian(m, a), Vector2(step.right - a.right, step.left - a.left), target.Minus(tip));
  }

  ghost predicate Close(p: Vector2, q: Vector2) {
    Abs(p.x - q.x) < 0.003 && Abs(p.z - q.z) < 0.003
  }

  lemma SucceededClose(m: Libm, a: MoveState, t: ArmState, step: Angles)
    requires m.Lawful() && Safe(t.Current()) && Active(a)
    requires m.sqrt(2.0) > 0.0 && Jacobian(m, t.Current()).Det() != 0.0
    requires var tip := Forward(m, t.Current());
             && Steers(m, t.Current(), step, TargetOf(a, tip)) && Safe(step)
             && AfterMoveStep(m, a, t, tip).1.Desired() == SafeMotorAngles(m, step)
             && IsDone(AfterMoveStep(m, a, t, tip).0.state)
    ensures Close(TargetOf(a, Forward(m, t.Current())), Forward(m, t.Current()))
  {
    var tip := Forward(m, t.Current());
    EndsByDistance(m, a, t, tip);
    ProjectionCorrect(m, step);
    ShortDistance(m, t.Current(), step, TargetOf(a, tip));
  }

  /** If the action succeeds in a step, and the angles it steers to are within the coupled limits, then
      the tip is within 3 mm of the target in both coordinates. */
  lemma SuccessIsAccurate(m: Libm, s: TipState, w: Wishes, dt: real) returns (step: Angles)
    requires m.Lawful() && Invariant(s.arm) && dt > 0.0 && s.move.Some? && Active(s.move.value)
    requires AfterTipStep(m, s, w, dt).move == None
    ensures var s' := AfterTipStep(m, s, w, dt);
            && Steers(m, s'.arm.Current(), step, TargetOf(s.move.value, s'.position))
            && (Safe(step) ==> Close(TargetOf(s.move.value, s'.position), s'.position))
  {
    var t := Sensed(m, s.arm, w, dt);
    PlantSafe(m, s.arm, dt);
    AnglesOfPlant(m, s.arm, Directed(m, s, w, dt), dt);
    step := MoveStepSteers(m, s.move.value, t);
    if Safe(step) {
      SucceededClose(m, s.move.value, t, step);
    }
  }

  /** The action succeeds exactly when the motors are told to turn by less than the tolerance. */
  lemma EndsByDistance(m: Libm, a: MoveState, t: ArmState, tip: Vector2)
    requires m.pi > 0.0 && m.sqrt(2.0) > 0.0 && Jacobian(m, t.Current()).Det() != 0.0 && Active(a)
    ensures var (b, u) := AfterMoveStep(m, a, t, tip);
            && u.Current() == t.Current() && (b.state == Succeed || b.state == Running)
            && (b.state == Succeed <==> Distance(m, u) < TOLERANCE)
  {}

  // ---------- targets out of reach ----------

  lemma TimesInjective(j: Matrix2, u: Vector2, v: Vector2)
    requires j.Det() != 0.0 && j.Times(u) == j.Times(v)
    ensures u == v
  {
    var x, z := u.x - v.x, u.z - v.z;
    assert x * j.xr + z * j.xl == 0.0 && x * j.zr + z * j.zl == 0.0;
    assert x * j.Det() == (x * j.xr + z * j.xl) * j.zl - (x * j.zr + z * j.zl) * j.xl;
    assert z * j.Det() == (x * j.zr + z * j.zl) * j.xr - (x * j.xr + z * j.xl) * j.zr;
    ProductZero(x, j.Det());
    ProductZero(z, j.Det());
  }

  /** A target to which the right motor would have to turn by one radian. */
  ghost function Beyond(m: Libm, a: Angles): Vector2 {
    var j := Jacobian(m, a);
    Forward(m, a).Plus(Vector2(j.xr / GAIN, j.zr / GAIN))
  }

  lemma BeyondSteers(m: Libm, a: Angles, step: Angles)
    requires m.Lawful() && Safe(a) && Steers(m, a, step, Beyond(m, a))
    ensures step == Angles(a.right + 1.0, a.left)
  {
    DeterminantNegative(m, a);
    TimesInjective(Jacobian(m, a), Vector2(step.right - a.right, step.left - a.left), Vector2(1.0, 0.0));
  }

  /** Its distance is 60 cm. */
  lemma BeyondIsFar(m: Libm, a: Angles)
    requires m.Lawful()
    ensures Hypot(m, Beyond(m, a).x - Forward(m, a).x, Beyond(m, a).z - Forward(m, a).z) == 0.6
  {
    var r := ZERO.right - a.right;
    assert m.Circle(r);
    var x, z := Beyond(m, a).x - Forward(m, a).x, Beyond(m, a).z - Forward(m, a).z;
    assert x == 0.6 * m.sin(r) && z == -0.6 * m.cos(r);
    FarSquare(x, z, m.sin(r), m.cos(r));
    HypotUnique(m, x, z, 0.6);
  }

  lemma FarSquare(x: real, z: real, s: real, c: real)
    requires s * s + c * c == 1.0 && x == 0.6 * s && z == -0.6 * c
    ensures 0.6 * 0.6 == x * x + z * z
  {
    assert x * x == 0.36 * (s * s) && z * z == 0.36 * (c * c);
  }

  /** Where the right motor is at its limit, the projection takes it back to where it is. */
  lemma ProjectedBack(m: Libm, a: Angles)
    requires m.Lawful() && Safe(a) && a.right == RIGHT_MAX
    ensures m.sqrt(2.0) > 0.0 && SafeMotorAngles(m, Angles(a.right + 1.0, a.left)) == a
  {
    SqrtTwo(m);
    ProjectionIdentity(m, a);
    assert ClampToBox(Angles(a.right + 1.0, a.left)) == ClampToBox(a);
  }

  /** The condition of `SuccessIsAccurate` is needed: with the right motor at its upper limit the action
      succeeds at once for a target that is 60 cm away. */
  lemma UnreachableSucceeds(m: Libm, s: TipState, w: Wishes, dt: real) returns (s': TipState)
    requires m.Lawful() && Invariant(s.arm) && dt > 0.0 && s.move.Some? && Active(s.move.value) && s.move.value.absolute
    requires Integrated(s.arm, dt).right == RIGHT_MAX && Safe(Integrated(s.arm, dt))
    requires s.move.value.goal == Beyond(m, Integrated(s.arm, dt))
    ensures s' == AfterTipStep(m, s, w, dt) && s'.move == None && s'.arm.Current() == Integrated(s.arm, dt)
    ensures Hypot(m, s.move.value.goal.x - s'.position.x, s.move.value.goal.z - s'.position.z) == 0.6
  {
    s' := AfterTipStep(m, s, w, dt);
    var t, a := Sensed(m, s.arm, w, dt), Integrated(s.arm, dt);
    PlantUnprojected(m, s.arm, dt);
    AnglesOfPlant(m, s.arm, Directed(m, s, w, dt), dt);
    BeyondSucceeds(m, s.move.value, t);
    BeyondIsFar(m, a);
  }

  lemma PlantUnprojected(m: Libm, s: ArmState, dt: real)
    requires m.Lawful() && s.Valid() && Safe(Integrated(s, dt)) && dt > 0.0
    ensures m.sqrt(2.0) > 0.0 && AfterPlant(m, s, dt).Current() == Integrated(s, dt)
  {
    SqrtTwo(m);
    ProjectionIdentity(m, Integrated(s, dt));
  }

  lemma BeyondSucceeds(m: Libm, a: MoveState, t: ArmState)
    requires m.Lawful() && Safe(t.Current()) && Active(a) && a.absolute && t.Current().right == RIGHT_MAX
    requires m.sqrt(2.0) > 0.0 && Jacobian(m, t.Current()).Det() != 0.0 && a.goal == Beyond(m, t.Current())
    ensures IsDone(AfterMoveStep(m, a, t, Forward(m, t.Current())).0.state)
  {
    var step := MoveStepSteers(m, a, t);
    BeyondSteers(m, t.Current(), step);
    ProjectedBack(m, t.Current());
    SmallTurn(m.pi, 0.0);
    EndsByDistance(m, a, t, Forward(m, t.Current()));
  }

  /** The limit is reached from the initial state. */
  lemma LimitReached(m: Libm) returns (one: ArmState, two: ArmState)
    requires m.Lawful()
    ensures Invariant(InitialArm(m)) && one == AfterArmStep(m, InitialArm(m), AngleTick(0.9, 0.3, Arm.TAU).wishes, Arm.TAU)
    ensures Invariant(one) && two == AfterArmStep(m, one, AngleTick(RIGHT_MAX, 0.3, Arm.TAU).wishes, Arm.TAU)
    ensures Invariant(two) && Integrated(two, Arm.TAU) == Angles(RIGHT_MAX, 0.3)
  {
    InitialInvariant(m);
    one := StepTowards(m, InitialArm(m), Angles(0.9, 0.3), Arm.TAU);
    assert Integrated(InitialArm(m), Arm.TAU) == Angles(0.0, 0.0);
    FullStep(one.right, 0.9);
    FullStep(one.left, 0.3);
    two := StepTowards(m, one, Angles(RIGHT_MAX, 0.3), Arm.TAU);
    FullStep(two.right, RIGHT_MAX);
    FullStep(two.left, 0.3);
  }

  /** So the action can report success 60 cm away from its target, three steps after construction. */
  lemma SuccessFarAway(m: Libm, w: Wishes, position: Vector2) returns (one: ArmState, two: ArmState, s: TipState, s': TipState)
    requires m.Lawful()
    ensures Invariant(InitialArm(m)) && one == AfterArmStep(m, InitialArm(m), AngleTick(0.9, 0.3, Arm.TAU).wishes, Arm.TAU)
    ensures Invariant(one) && two == AfterArmStep(m, one, AngleTick(RIGHT_MAX, 0.3, Arm.TAU).wishes, Arm.TAU)
    ensures s == TipState(two, position, s.move) && s.move.Some? && s.move.value.state == Started
    ensures Invariant(two) && s' == AfterTipStep(m, s, w, Arm.TAU) && s'.move == None
    ensures Hypot(m, s.move.value.goal.x - s'.position.x, s.move.value.goal.z - s'.position.z) == 0.6
  {
    one, two := LimitReached(m);
    s := TipState(two, position, Some(MoveState(Started, Beyond(m, Angles(RIGHT_MAX, 0.3)), true, 0.0, 0.0)));
    s' := UnreachableSucceeds(m, s, w, Arm.TAU);
  }

  // ---------- whole runs ----------

  function TipRun(m: Libm, s: TipState, ticks: seq<Tick>): TipState
    requires m.Lawful() && Invariant(s.arm)
    requires forall t <- ticks :: t.dt > 0.0
    decreases |ticks|
  {
    if ticks == [] then s else
    PositionIsTip(m, s, ticks[0].wishes, ticks[0].dt);
    TipRun(m, AfterTipStep(m, s, ticks[0].wishes, ticks[0].dt), ticks[1..])
  }

  /** Over every run the motors stay within their coupled limits, the position is that of the tip from
      the first step on, and an action that is still active has the target that its first step fixed,
      relative to where the tip then was. */
  lemma {:induction false} TipRunCorrect(m: Libm, s: TipState, ticks: seq<Tick>) returns (first: TipState)
    requires m.Lawful() && Invariant(s.arm) && ticks != []
    requires forall t <- ticks :: t.dt > 0.0
    requires s.move.Some? ==> Active(s.move.value)
    ensures first == AfterTipStep(m, s, ticks[0].wishes, ticks[0].dt) && first.position == Forward(m, first.arm.Current())
    ensures var end := TipRun(m, s, ticks);
            && Invariant(end.arm) && end.position == Forward(m, end.arm.Current())
            && (end.move.Some? ==>
                  && s.move.Some? && end.move.value.state == Running
                  && forall tip :: TargetOf(end.move.value, tip) == TargetOf(s.move.value, first.position))
    decreases |ticks|
  {
    first := AfterTipStep(m, s, ticks[0].wishes, ticks[0].dt);
    PositionIsTip(m, s, ticks[0].wishes, ticks[0].dt);
    if first.move.Some? {
      TargetStays(m, s, ticks[0].wishes, ticks[0].dt);
    }
    if |ticks| == 1 {
      assert ticks[1..] == [];
    } else {
      var second := TipRunCorrect(m, first, ticks[1..]);
    }
  }
}
