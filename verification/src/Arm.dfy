/** The robot arm: two coupled servo motors, their limits, and the loop that `Robot::do_step`
    and `DummyRobot::do_step` close around them.

    The other servos of the robot touch none of these fields and are left out. A float NaN,
    which the plant stores to force the next update, is `None`.
 */
module Arm {
  import opened RealMath
  import opened Controllable
  import opened Wrappers

  /** One value for each of the two motors. */
  datatype Angles = Angles(right: real, left: real)

  const RIGHT_MIN: real := -0.2740
  const RIGHT_MAX: real := 1.3840
  const LEFT_MIN: real := -0.7993
  const LEFT_MAX: real := 1.7313
  const BAND_MIN: real := -0.3473
  const BAND_MAX: real := 1.2147

  predicate InBox(a: Angles) {
    RIGHT_MIN <= a.right <= RIGHT_MAX && LEFT_MIN <= a.left <= LEFT_MAX
  }

  predicate InBand(a: Angles) {
    BAND_MIN <= a.right - a.left <= BAND_MAX
  }

  /** The coupled limits of the mechanism. */
  predicate Safe(a: Angles) {
    InBox(a) && InBand(a)
  }

  // ---------- Arm::safe_motor_angles ----------

  function ClampToBox(a: Angles): Angles {
    Angles(Clamp(a.right, RIGHT_MIN, RIGHT_MAX), Clamp(a.left, LEFT_MIN, LEFT_MAX))
  }

  function Shift(a: Angles, dist: real): Angles {
    Angles(a.right - dist, a.left + dist)
  }

  function UpperExcess(m: Libm, a: Angles): real
    requires m.sqrt(2.0) > 0.0
  {
    (a.right - a.left - BAND_MAX) / m.sqrt(2.0)
  }

  function LowerExcess(m: Libm, a: Angles): real
    requires m.sqrt(2.0) > 0.0
  {
    (a.right - a.left - BAND_MIN) / m.sqrt(2.0)
  }

  function SafeMotorAngles(m: Libm, target: Angles): Angles
    requires m.sqrt(2.0) > 0.0
  {
    var boxed := ClampToBox(target);
    var above := UpperExcess(m, boxed);
    var lowered := if above > 0.0 then Shift(boxed, above) else boxed;
    var below := LowerExcess(m, lowered);
    if below < 0.0 then Shift(lowered, below) else lowered
  }

  // ---------- one servo ----------

  datatype Mode = SPEED | ANGLE

  const TAU: real := 0.25

  datatype ServoState = ServoState(
    minAngle: real, maxAngle: real, maxSpeed: real,
    angle: real, angleTarget: Option<real>, angleDesired: real, angleInitialized: bool,
    speed: ControllableValue<real>, mode: ControllableValue<Mode>, enabled: ControllableValue<bool>)
  {
    predicate Valid() {
      minAngle <= maxAngle && maxSpeed >= 0.0
    }

    /** `will_pass_limits`: the speed that ends exactly at the limit, if the wanted one passes it. */
    function SpeedToLimit(dt: real): Option<real>
      requires dt > 0.0
    {
      var next := speed.desired * dt + angle;
      if next < minAngle && speed.desired <= 0.0 then Some((minAngle - angle) / dt)
      else if next > maxAngle && speed.desired >= 0.0 then Some((maxAngle - angle) / dt)
      else None
    }

    function DesiredSpeed(dt: real): real
      requires dt > 0.0 && Valid()
    {
      if !enabled.target then 0.0 else
      var limited := SpeedToLimit(dt);
      Clamp(if limited.Some? then limited.value else speed.desired, -maxSpeed, maxSpeed)
    }

    /** `DummyRobot::forward_target_servo_speed`. */
    function ForwardSpeed(value: real): ServoState
      requires Valid()
    {
      this.(speed := speed.(target := Clamp(value, -maxSpeed, maxSpeed)))
    }

    /** `DummyRobot::forward_target_servo_angle`. */
    function ForwardAngle(value: real): ServoState
      requires Valid()
    {
      ForwardSpeed((value - angle) / TAU).(angleTarget := None)
    }

    predicate AngleNeedsUpdate() {
      angleTarget != Some(angleDesired) || !angleInitialized
    }

    /** The body of the loop of `Robot::control_servos`. */
    function Controlled(dt: real): (s: ServoState)
      requires dt > 0.0 && Valid()
      ensures s.Valid()
    {
      var e := if enabled.NeedsUpdate() then this.(enabled := enabled.Checked()) else this;
      if !e.enabled.target then e else
      var c := if e.mode.NeedsUpdate() then e.(mode := e.mode.Checked()) else e;
      if c.mode.target == SPEED then
        var desired := c.DesiredSpeed(dt);
        if c.speed.target != desired then c.(speed := c.speed.(target := desired)).ForwardSpeed(desired) else c
      else if c.AngleNeedsUpdate() then
        c.(angleTarget := Some(c.angleDesired), angleInitialized := true).ForwardAngle(c.angleDesired)
      else c
    }

    /** The motion of the plant: the servo turns at its target speed and stops at its limits. */
    function Integrated(dt: real): real
      requires Valid()
    {
      Clamp(angle + speed.target * dt, minAngle, maxAngle)
    }
  }

  /** What actions and API calls may ask of a servo between two control passes. */
  datatype Wish = Wish(angle: real, speed: real, mode: Mode, enabled: bool)

  function Wished(s: ServoState, w: Wish): ServoState {
    s.(angleDesired := w.angle, speed := s.speed.(desired := w.speed),
       mode := s.mode.(desired := w.mode), enabled := s.enabled.(desired := w.enabled))
  }

  // ---------- the two motors ----------

  datatype ArmState = ArmState(right: ServoState, left: ServoState) {
    predicate Valid() {
      right.Valid() && left.Valid()
    }

    function Current(): Angles {
      Angles(right.angle, left.angle)
    }

    function Desired(): Angles {
      Angles(right.angleDesired, left.angleDesired)
    }
  }

  function Integrated(s: ArmState, dt: real): Angles
    requires s.Valid()
  {
    Angles(s.right.Integrated(dt), s.left.Integrated(dt))
  }

  /** The servo part of `DummyRobot::do_step`: move, project, and report the speeds. */
  function AfterPlant(m: Libm, s: ArmState, dt: real): (s': ArmState)
    requires m.sqrt(2.0) > 0.0 && s.Valid() && dt > 0.0
    ensures s'.Valid()
  {
    var a := SafeMotorAngles(m, Integrated(s, dt));
    ArmState(s.right.(angle := a.right, speed := s.right.speed.(current := (a.right - s.right.angle) / dt)),
             s.left.(angle := a.left, speed := s.left.speed.(current := (a.left - s.left.angle) / dt)))
  }

  /** `Arm::limit_motors`: each motor is limited by where the other one is, and the desired
      angles are made safe. The mode that decides which desired value is meant is never read
      back from the devices, so it is always the angle. */
  function AfterLimitMotors(m: Libm, s: ArmState): ArmState
    requires m.sqrt(2.0) > 0.0
  {
    var d := SafeMotorAngles(m, s.Desired());
    ArmState(s.right.(minAngle := Max(s.left.angle + BAND_MIN, RIGHT_MIN),
                      maxAngle := Min(s.left.angle + BAND_MAX, RIGHT_MAX), angleDesired := d.right),
             s.left.(minAngle := Max(s.right.angle - BAND_MAX, LEFT_MIN),
                     maxAngle := s.right.angle - BAND_MIN, angleDesired := d.left))
  }

  datatype Wishes = Wishes(right: Wish, left: Wish)

  function AfterWishes(s: ArmState, w: Wishes): ArmState {
    ArmState(Wished(s.right, w.right), Wished(s.left, w.left))
  }

  /** One step of the robot, with the wishes that its actions and clients wrote before control. */
  function AfterArmStep(m: Libm, s: ArmState, w: Wishes, dt: real): ArmState
    requires m.Lawful() && s.Valid() && dt > 0.0
  {
    SqrtTwo(m);
    var limited := AfterLimitMotors(m, AfterWishes(AfterPlant(m, s, dt), w));
    PlantSafe(m, s, dt);
    ArmState(limited.right.Controlled(dt), limited.left.Controlled(dt))
  }

  lemma SqrtTwo(m: Libm)
    requires m.Lawful()
    ensures 1.41 < m.sqrt(2.0) < 1.42 && m.sqrt(2.0) * m.sqrt(2.0) == 2.0
  {
    assert m.Root(2.0);
    SquareMonotone(1.41, m.sqrt(2.0));
    SquareMonotone(m.sqrt(2.0), 1.42);
  }

  // ---------- the projection ----------

  /** A quotient by sqrt(2), bounded by rational factors. */
  lemma QuotientBounds(x: real, s: real)
    requires 1.41 < s < 1.42
    ensures x > 0.0 ==> 0.70 * x < x / s < 0.71 * x
    ensures x < 0.0 ==> 0.71 * x < x / s < 0.70 * x
    ensures x == 0.0 ==> x / s == 0.0
  {
    var q := x / s;
    assert q * s == x;
    if x > 0.0 {
      QuotientPositive(x, s, q);
      PositiveQuotient(x, s, q);
    } else if x < 0.0 {
      QuotientPositive(-x, s, -q);
      PositiveQuotient(-x, s, -q);
    }
  }

  lemma QuotientPositive(x: real, s: real, q: real)
    requires x > 0.0 && s > 0.0 && q * s == x
    ensures q > 0.0
  {
    if q <= 0.0 {
      ProductNonNegative(-q, s);
    }
  }

  lemma ProductBetween(q: real, lo: real, s: real, hi: real, x: real)
    requires q > 0.0 && lo < s < hi && q * s == x
    ensures q * lo < x < q * hi
  {
    ProductPositive(q, s - lo);
    ProductPositive(q, hi - s);
    assert q * (s - lo) == q * s - q * lo && q * (hi - s) == q * hi - q * s;
  }

  lemma PositiveQuotient(x: real, s: real, q: real)
    requires x > 0.0 && 1.41 < s < 1.42 && q * s == x && q > 0.0
    ensures 0.70 * x < q < 0.71 * x
  {
    ProductBetween(q, 1.41, s, 1.42, x);
  }

  /** `safe_motor_angles` returns a safe point for every input, and leaves exactly the safe
      points where they are; hence it is idempotent. */
  lemma ProjectionCorrect(m: Libm, target: Angles)
    requires m.Lawful()
    ensures m.sqrt(2.0) > 0.0
    ensures Safe(SafeMotorAngles(m, target))
    ensures SafeMotorAngles(m, target) == target <==> Safe(target)
    ensures SafeMotorAngles(m, SafeMotorAngles(m, target)) == SafeMotorAngles(m, target)
  {
    SqrtTwo(m);
    ProjectionSafe(m, target);
    if Safe(target) {
      ProjectionIdentity(m, target);
    }
    ProjectionIdentity(m, SafeMotorAngles(m, target));
  }

  lemma ProjectionSafe(m: Libm, target: Angles)
    requires 1.41 < m.sqrt(2.0) < 1.42
    ensures Safe(SafeMotorAngles(m, target))
  {
    var b := ClampToBox(target);
    QuotientBounds(b.right - b.left - BAND_MAX, m.sqrt(2.0));
    var above := UpperExcess(m, b);
    var l := if above > 0.0 then Shift(b, above) else b;
    QuotientBounds(l.right - l.left - BAND_MIN, m.sqrt(2.0));
  }

  lemma ProjectionIdentity(m: Libm, target: Angles)
    requires 1.41 < m.sqrt(2.0) < 1.42 && Safe(target)
    ensures SafeMotorAngles(m, target) == target
  {
    QuotientBounds(target.right - target.left - BAND_MAX, m.sqrt(2.0));
    QuotientBounds(target.right - target.left - BAND_MIN, m.sqrt(2.0));
  }

  /** Of a target outside the box only its nearest point in the box matters. */
  lemma ProjectionOfOutside(m: Libm, target: Angles, other: Angles) returns (boxed: Angles)
    requires m.Lawful() && InBox(other)
    ensures m.sqrt(2.0) > 0.0
    ensures InBox(boxed) && SafeMotorAngles(m, target) == SafeMotorAngles(m, boxed)
    ensures Abs(boxed.right - target.right) <= Abs(other.right - target.right)
    ensures Abs(boxed.left - target.left) <= Abs(other.left - target.left)
  {
    SqrtTwo(m);
    boxed := ClampToBox(target);
    assert ClampToBox(boxed) == boxed;
  }

  /** Outside the band the correction does not stop at the band's edge, as the nearest point
      would: it overshoots into the band by sqrt(2) - 1 times the excess. */
  lemma ProjectionOvershoots(m: Libm, target: Angles)
    requires m.Lawful() && InBox(target)
    ensures m.sqrt(2.0) > 1.41
    ensures var d, p := target.right - target.left, SafeMotorAngles(m, target);
            && p.right + p.left == target.right + target.left
            && (d >= BAND_MAX ==> Overshoot(d - BAND_MAX, BAND_MAX - (p.right - p.left), m.sqrt(2.0)))
            && (d <= BAND_MIN ==> Overshoot(BAND_MIN - d, (p.right - p.left) - BAND_MIN, m.sqrt(2.0)))
  {
    SqrtTwo(m);
    var s, d := m.sqrt(2.0), target.right - target.left;
    TwiceQuotient(d - BAND_MAX, s);
    TwiceQuotient(BAND_MIN - d, s);
    QuotientBounds(d - BAND_MAX, s);
    QuotientBounds(d - BAND_MIN, s);
    var q := UpperExcess(m, target);
    if d > BAND_MAX {
      QuotientBounds(d - 2.0 * q - BAND_MIN, s);
    }
  }

  /** Beyond the edge by `x` before, inside by `y` after. */
  ghost predicate Overshoot(x: real, y: real, s: real) {
    y == (s - 1.0) * x
  }

  lemma TwiceQuotient(x: real, s: real)
    requires s > 0.0 && s * s == 2.0
    ensures Overshoot(x, 2.0 * (x / s) - x, s)
    ensures (-x) / s == -(x / s)
  {
    var q := x / s;
    assert q * s == x;
    assert (q * s) * s == q * (s * s);
    assert (s - 1.0) * x == x * s - x;
  }

  /** After a plant step the motors are where the mechanism allows, whatever they were told. */
  lemma PlantSafe(m: Libm, s: ArmState, dt: real)
    requires m.Lawful() && m.sqrt(2.0) > 0.0 && s.Valid() && dt > 0.0
    ensures Safe(AfterPlant(m, s, dt).Current())
    ensures forall w :: AfterLimitMotors(m, AfterWishes(AfterPlant(m, s, dt), w)).Valid()
  {
    ProjectionCorrect(m, Integrated(s, dt));
  }
}
