/** Whole runs of the arm loop: the motors are always inside their coupled limits, and in angle
    mode the controller keeps them there by itself, without the projection of the plant. */
module ArmProof {
  import opened RealMath
  import opened Controllable
  import opened Wrappers
  import opened Arm

  /** No update of the angle is ever held back: its target is NaN or was never set. */
  predicate Fresh(s: ServoState) {
    s.angleTarget == None || !s.angleInitialized
  }

  predicate Invariant(s: ArmState) {
    s.Valid() && Safe(s.Current()) && Fresh(s.right) && Fresh(s.left)
  }

  /** One step of a run: what was asked for, and how long it lasted. */
  datatype Tick = Tick(wishes: Wishes, dt: real)

  predicate AngleWish(w: Wish) {
    w.mode == ANGLE && w.enabled
  }

  /** Both motors enabled and in angle mode. */
  predicate AngleWishes(w: Wishes) {
    AngleWish(w.right) && AngleWish(w.left)
  }

  // ---------- single steps ----------

  lemma StepKeepsInvariant(m: Libm, s: ArmState, w: Wishes, dt: real)
    requires m.Lawful() && Invariant(s) && dt > 0.0
    ensures Invariant(AfterArmStep(m, s, w, dt))
  {
    SqrtTwo(m);
    PlantSafe(m, s, dt);
    var limited := AfterLimitMotors(m, AfterWishes(AfterPlant(m, s, dt), w));
    ControlledKeeps(limited.right, dt);
    ControlledKeeps(limited.left, dt);
  }

  lemma ControlledKeeps(s: ServoState, dt: real)
    requires s.Valid() && Fresh(s) && dt > 0.0
    ensures var c := s.Controlled(dt);
            c.Valid() && Fresh(c) && c.angle == s.angle
  {}

  /** The servo is on its way to `goal`, no faster than allowed. */
  predicate Heading(s: ServoState, goal: real) {
    s.maxSpeed >= 0.0 && s.speed.target == Clamp((goal - s.angle) / TAU, -s.maxSpeed, s.maxSpeed)
  }

  /** Each motor is limited by where the other one is now. */
  predicate Coupled(s: ArmState) {
    && s.right.minAngle == Max(s.left.angle + BAND_MIN, RIGHT_MIN)
    && s.right.maxAngle == Min(s.left.angle + BAND_MAX, RIGHT_MAX)
    && s.left.minAngle == Max(s.right.angle - BAND_MAX, LEFT_MIN)
    && s.left.maxAngle == s.right.angle - BAND_MIN
  }

  /** The state that a control pass in angle mode leaves behind. */
  predicate Commanded(s: ArmState) {
    && Safe(s.Current()) && Safe(s.Desired()) && Coupled(s)
    && Heading(s.right, s.right.angleDesired) && Heading(s.left, s.left.angleDesired)
  }

  lemma ControlledHeads(s: ServoState, dt: real)
    requires s.Valid() && Fresh(s) && s.mode.desired == ANGLE && s.enabled.desired && dt > 0.0
    ensures var c := s.Controlled(dt);
            && Heading(c, s.angleDesired) && c.angleDesired == s.angleDesired && c.angle == s.angle && c.maxSpeed == s.maxSpeed
            && c.minAngle == s.minAngle && c.maxAngle == s.maxAngle
  {}

  lemma StepCommands(m: Libm, s: ArmState, w: Wishes, dt: real)
    requires m.Lawful() && Invariant(s) && dt > 0.0 && AngleWishes(w)
    ensures Commanded(AfterArmStep(m, s, w, dt))
  {
    SqrtTwo(m);
    PlantSafe(m, s, dt);
    var asked := AfterWishes(AfterPlant(m, s, dt), w);
    ProjectionCorrect(m, asked.Desired());
    var limited := AfterLimitMotors(m, asked);
    ControlledHeads(limited.right, dt);
    ControlledHeads(limited.left, dt);
  }

  /** In a step no longer than the time constant a servo never passes its goal. */
  predicate Approach(angle: real, goal: real, next: real) {
    if angle <= goal then angle <= next <= goal else goal <= next <= angle
  }

  predicate NoFaster(angle: real, next: real, maxSpeed: real, dt: real) {
    Abs(next - angle) <= maxSpeed * dt
  }

  lemma NoOvershoot(angle: real, goal: real, maxSpeed: real, dt: real, c: real, next: real)
    requires 0.0 < dt <= TAU && maxSpeed >= 0.0
    requires c == Clamp((goal - angle) / TAU, -maxSpeed, maxSpeed) && next == angle + c * dt
    ensures Approach(angle, goal, next) && NoFaster(angle, next, maxSpeed, dt)
  {
    var e := goal - angle;
    assert e / TAU == 4.0 * e;
    assert Abs(c) <= 4.0 * Abs(e) && Abs(c) <= maxSpeed && (c >= 0.0 <==> e >= 0.0 || maxSpeed == 0.0);
    ProductNonNegative(Abs(c), dt);
    ProductNonNegative(4.0 * Abs(e) - Abs(c), dt);
    ProductNonNegative(Abs(e), 1.0 - 4.0 * dt);
    ProductNonNegative(maxSpeed - Abs(c), dt);
    assert (4.0 * Abs(e) - Abs(c)) * dt == 4.0 * Abs(e) * dt - Abs(c) * dt;
    assert (maxSpeed - Abs(c)) * dt == maxSpeed * dt - Abs(c) * dt;
    assert Abs(e) * (1.0 - 4.0 * dt) == Abs(e) - 4.0 * Abs(e) * dt;
    assert c * dt == if c >= 0.0 then Abs(c) * dt else -(Abs(c) * dt);
  }

  /** Two motors that each approach their part of a safe goal, within limits set by where the
      other one was, meet the coupled limits again: if they turn the same way the cross limits
      see to it, and if they turn opposite ways the goal does. */
  lemma LimitsCouple(a: Angles, goal: Angles, next: Angles, end: Angles)
    requires Safe(a) && Safe(goal)
    requires Approach(a.right, goal.right, next.right) && Approach(a.left, goal.left, next.left)
    requires end.right == Clamp(next.right, Max(a.left + BAND_MIN, RIGHT_MIN), Min(a.left + BAND_MAX, RIGHT_MAX))
    requires end.left == Clamp(next.left, Max(a.right - BAND_MAX, LEFT_MIN), a.right - BAND_MIN)
    ensures Safe(end)
  {}

  /** Stopping at a limit that the servo has not passed makes it no faster. */
  lemma StopNoFaster(angle: real, lo: real, hi: real, next: real, maxSpeed: real, dt: real)
    requires lo <= angle <= hi && NoFaster(angle, next, maxSpeed, dt)
    ensures NoFaster(angle, Clamp(next, lo, hi), maxSpeed, dt)
  {}

  lemma MotorApproaches(angle: real, goal: real, maxSpeed: real, dt: real, c: real, lo: real, hi: real) returns (next: real)
    requires 0.0 < dt <= TAU && maxSpeed >= 0.0 && c == Clamp((goal - angle) / TAU, -maxSpeed, maxSpeed)
    requires lo <= angle <= hi
    ensures next == angle + c * dt
    ensures Approach(angle, goal, next) && NoFaster(angle, Clamp(next, lo, hi), maxSpeed, dt)
  {
    next := angle + c * dt;
    NoOvershoot(angle, goal, maxSpeed, dt, c, next);
    StopNoFaster(angle, lo, hi, next, maxSpeed, dt);
  }

  lemma ServoApproaches(s: ServoState, dt: real) returns (next: real)
    requires s.Valid() && Heading(s, s.angleDesired) && 0.0 < dt <= TAU
    requires s.minAngle <= s.angle <= s.maxAngle
    ensures s.Integrated(dt) == Clamp(next, s.minAngle, s.maxAngle)
    ensures Approach(s.angle, s.angleDesired, next)
    ensures NoFaster(s.angle, s.Integrated(dt), s.maxSpeed, dt)
  {
    next := MotorApproaches(s.angle, s.angleDesired, s.maxSpeed, dt, s.speed.target, s.minAngle, s.maxAngle);
  }

  /** In angle mode, with steps up to the time constant, the motors stay safe without the
      projection, and none of them moves faster than its maximal speed. */
  lemma NoProjectionNeeded(m: Libm, s: ArmState, dt: real)
    requires m.Lawful() && s.Valid() && Commanded(s) && 0.0 < dt <= TAU
    ensures Safe(Integrated(s, dt))
    ensures m.sqrt(2.0) > 0.0 && AfterPlant(m, s, dt).Current() == Integrated(s, dt)
    ensures NoFaster(s.right.angle, Integrated(s, dt).right, s.right.maxSpeed, dt)
    ensures NoFaster(s.left.angle, Integrated(s, dt).left, s.left.maxSpeed, dt)
  {
    var right := ServoApproaches(s.right, dt);
    var left := ServoApproaches(s.left, dt);
    LimitsCouple(s.Current(), s.Desired(), Angles(right, left), Integrated(s, dt));
    SqrtTwo(m);
    ProjectionIdentity(m, Integrated(s, dt));
  }

  // ---------- reported speeds ----------

  ghost predicate Turned(angle: real, next: real, speed: real, dt: real) {
    next == angle + speed * dt
  }

  lemma Quotient(angle: real, next: real, dt: real)
    requires dt > 0.0
    ensures Turned(angle, next, (next - angle) / dt, dt)
  {
    assert ((next - angle) / dt) * dt == next - angle;
  }

  lemma PlantReports(m: Libm, s: ArmState, dt: real) returns (s': ArmState)
    requires m.Lawful() && m.sqrt(2.0) > 0.0 && s.Valid() && dt > 0.0
    ensures s' == AfterPlant(m, s, dt)
    ensures Turned(s.right.angle, s'.right.angle, s'.right.speed.current, dt)
    ensures Turned(s.left.angle, s'.left.angle, s'.left.speed.current, dt)
  {
    s' := AfterPlant(m, s, dt);
    Quotient(s.right.angle, s'.right.angle, dt);
    Quotient(s.left.angle, s'.left.angle, dt);
  }

  /** A control pass moves no motor and leaves the reported speeds. */
  lemma PassReports(m: Libm, s: ArmState, w: Wishes, dt: real) returns (p: ArmState, s': ArmState)
    requires m.Lawful() && Invariant(s) && dt > 0.0
    ensures m.sqrt(2.0) > 0.0 && p == AfterPlant(m, s, dt) && s' == AfterArmStep(m, s, w, dt)
    ensures s'.right.angle == p.right.angle && s'.right.speed.current == p.right.speed.current
    ensures s'.left.angle == p.left.angle && s'.left.speed.current == p.left.speed.current
  {
    SqrtTwo(m);
    PlantSafe(m, s, dt);
    p := AfterPlant(m, s, dt);
    s' := AfterArmStep(m, s, w, dt);
    var limited := AfterLimitMotors(m, AfterWishes(p, w));
    ReportedKept(limited.right, dt);
    ReportedKept(limited.left, dt);
  }

  lemma ReportedKept(s: ServoState, dt: real)
    requires s.Valid() && dt > 0.0
    ensures s.Controlled(dt).angle == s.angle && s.Controlled(dt).speed.current == s.speed.current
  {}

  /** Over a step of the robot each motor turns by its reported speed times the duration. */
  lemma SpeedIsVelocity(m: Libm, s: ArmState, w: Wishes, dt: real) returns (s': ArmState)
    requires m.Lawful() && Invariant(s) && dt > 0.0
    ensures s' == AfterArmStep(m, s, w, dt)
    ensures Turned(s.right.angle, s'.right.angle, s'.right.speed.current, dt)
    ensures Turned(s.left.angle, s'.left.angle, s'.left.speed.current, dt)
  {
    var p;
    p, s' := PassReports(m, s, w, dt);
    p := PlantReports(m, s, dt);
  }

  lemma SlowEnough(angle: real, next: real, speed: real, maxSpeed: real, dt: real)
    requires dt > 0.0 && Turned(angle, next, speed, dt) && NoFaster(angle, next, maxSpeed, dt)
    ensures Abs(speed) <= maxSpeed
  {
    if speed > maxSpeed {
      ProductPositive(speed - maxSpeed, dt);
      assert (speed - maxSpeed) * dt == speed * dt - maxSpeed * dt;
    } else if -speed > maxSpeed {
      ProductPositive(-speed - maxSpeed, dt);
      assert (-speed - maxSpeed) * dt == -(speed * dt) - maxSpeed * dt;
    }
  }

  /** With both motors enabled and in angle mode, and steps up to the time constant, no reported speed
      exceeds the maximal one. */
  lemma SpeedWithinMaximum(m: Libm, s: ArmState, w: Wishes, dt: real) returns (s': ArmState)
    requires m.Lawful() && Invariant(s) && Commanded(s) && 0.0 < dt <= TAU
    ensures s' == AfterArmStep(m, s, w, dt)
    ensures Abs(s'.right.speed.current) <= s.right.maxSpeed && Abs(s'.left.speed.current) <= s.left.maxSpeed
  {
    s' := SpeedIsVelocity(m, s, w, dt);
    NoFasterStep(m, s, w, dt);
    SlowEnough(s.right.angle, s'.right.angle, s'.right.speed.current, s.right.maxSpeed, dt);
    SlowEnough(s.left.angle, s'.left.angle, s'.left.speed.current, s.left.maxSpeed, dt);
  }

  lemma NoFasterStep(m: Libm, s: ArmState, w: Wishes, dt: real)
    requires m.Lawful() && Invariant(s) && Commanded(s) && 0.0 < dt <= TAU
    ensures NoFaster(s.right.angle, AfterArmStep(m, s, w, dt).right.angle, s.right.maxSpeed, dt)
    ensures NoFaster(s.left.angle, AfterArmStep(m, s, w, dt).left.angle, s.left.maxSpeed, dt)
  {
    NoProjectionNeeded(m, s, dt);
    AnglesOfPlant(m, s, w, dt);
  }

  /** A control pass moves no motor. */
  lemma AnglesOfPlant(m: Libm, s: ArmState, w: Wishes, dt: real)
    requires m.Lawful() && Invariant(s) && dt > 0.0
    ensures m.sqrt(2.0) > 0.0 && AfterArmStep(m, s, w, dt).Current() == AfterPlant(m, s, dt).Current()
  {
    SqrtTwo(m);
    PlantSafe(m, s, dt);
    var limited := AfterLimitMotors(m, AfterWishes(AfterPlant(m, s, dt), w));
    ControlledKeeps(limited.right, dt);
    ControlledKeeps(limited.left, dt);
  }

  // ---------- whole runs ----------

  function Run(m: Libm, s: ArmState, ticks: seq<Tick>): ArmState
    requires m.Lawful() && Invariant(s)
    requires forall t <- ticks :: t.dt > 0.0
    decreases |ticks|
  {
    if ticks == [] then s else
    StepKeepsInvariant(m, s, ticks[0].wishes, ticks[0].dt);
    Run(m, AfterArmStep(m, s, ticks[0].wishes, ticks[0].dt), ticks[1..])
  }

  /** In every reachable state the motors satisfy the coupled limits: whatever modes, speeds,
      goals and step sizes the run went through. */
  lemma {:induction false} RunSafe(m: Libm, s: ArmState, ticks: seq<Tick>)
    requires m.Lawful() && Invariant(s)
    requires forall t <- ticks :: t.dt > 0.0
    ensures Invariant(Run(m, s, ticks))
    decreases |ticks|
  {
    if ticks != [] {
      StepKeepsInvariant(m, s, ticks[0].wishes, ticks[0].dt);
      RunSafe(m, AfterArmStep(m, s, ticks[0].wishes, ticks[0].dt), ticks[1..]);
    }
  }

  predicate AtRest(s: ArmState) {
    && s.right.speed.target == 0.0 && s.left.speed.target == 0.0
    && s.right.minAngle <= s.right.angle <= s.right.maxAngle
    && s.left.minAngle <= s.left.angle <= s.left.maxAngle
  }

  /** No step of the run lets the projection change anything. */
  predicate NeverProjected(m: Libm, s: ArmState, ticks: seq<Tick>)
    requires m.Lawful() && Invariant(s)
    requires forall t <- ticks :: t.dt > 0.0
    decreases |ticks|
  {
    ticks == [] ||
    (SqrtTwo(m);
     StepKeepsInvariant(m, s, ticks[0].wishes, ticks[0].dt);
     && Safe(Integrated(s, ticks[0].dt))
     && AfterPlant(m, s, ticks[0].dt).Current() == Integrated(s, ticks[0].dt)
     && NeverProjected(m, AfterArmStep(m, s, ticks[0].wishes, ticks[0].dt), ticks[1..]))
  }

  lemma RestStays(s: ArmState, dt: real)
    requires s.Valid() && AtRest(s)
    ensures Integrated(s, dt) == s.Current()
  {
    assert 0.0 * dt == 0.0;
  }

  lemma RestUnprojected(m: Libm, s: ArmState, dt: real)
    requires m.Lawful() && Invariant(s) && AtRest(s) && dt > 0.0
    ensures m.sqrt(2.0) > 0.0
    ensures Safe(Integrated(s, dt)) && AfterPlant(m, s, dt).Current() == Integrated(s, dt)
  {
    RestStays(s, dt);
    SqrtTwo(m);
    ProjectionIdentity(m, s.Current());
  }

  /** Runs in angle mode with steps up to the time constant never need the projection. */
  lemma {:induction false} AngleRunsNeverProject(m: Libm, s: ArmState, ticks: seq<Tick>)
    requires m.Lawful() && Invariant(s) && (Commanded(s) || AtRest(s))
    requires forall t <- ticks :: AngleWishes(t.wishes) && 0.0 < t.dt <= TAU
    ensures NeverProjected(m, s, ticks)
    decreases |ticks|
  {
    if ticks != [] {
      var w, dt := ticks[0].wishes, ticks[0].dt;
      assert ticks[0] in ticks;
      if Commanded(s) {
        NoProjectionNeeded(m, s, dt);
      } else {
        RestUnprojected(m, s, dt);
      }
      StepKeepsInvariant(m, s, w, dt);
      StepCommands(m, s, w, dt);
      AngleRunsNeverProject(m, AfterArmStep(m, s, w, dt), ticks[1..]);
    }
  }

  // ---------- a single servo in speed mode ----------

  /** At the commanded speed a servo within its limits stays within them for the whole step, and
      it turns as asked unless that passes a limit or is too fast. */
  lemma SpeedKeepsLimits(s: ServoState, dt: real)
    requires s.Valid() && dt > 0.0 && s.minAngle <= s.angle <= s.maxAngle
    ensures s.minAngle <= s.angle + s.DesiredSpeed(dt) * dt <= s.maxAngle
    ensures s.enabled.target && s.minAngle <= s.angle + s.speed.desired * dt <= s.maxAngle
        ==> s.DesiredSpeed(dt) == Clamp(s.speed.desired, -s.maxSpeed, s.maxSpeed)
  {
    var limited := s.SpeedToLimit(dt);
    var wanted := if limited.Some? then limited.value else s.speed.desired;
    WantedStaysInside(s.angle, s.minAngle, s.maxAngle, s.speed.desired, wanted, dt);
    if s.enabled.target {
      ClampStaysInside(s.angle, s.minAngle, s.maxAngle, wanted, s.maxSpeed, dt, s.DesiredSpeed(dt));
    } else {
      assert 0.0 * dt == 0.0;
    }
  }

  /** A servo outside its limits that is not told to go further out is brought back to the limit, if it
      is fast enough. */
  lemma SpeedReturns(s: ServoState, dt: real)
    requires s.Valid() && dt > 0.0 && s.enabled.target
    ensures s.angle < s.minAngle && s.speed.desired * dt + s.angle < s.minAngle && s.speed.desired <= 0.0
              && (s.minAngle - s.angle) / dt <= s.maxSpeed
        ==> s.angle + s.DesiredSpeed(dt) * dt == s.minAngle
    ensures s.angle > s.maxAngle && s.speed.desired * dt + s.angle > s.maxAngle && s.speed.desired >= 0.0
              && (s.angle - s.maxAngle) / dt <= s.maxSpeed
        ==> s.angle + s.DesiredSpeed(dt) * dt == s.maxAngle
  {
    BackTo(s.angle, s.minAngle, s.maxSpeed, dt);
    BackTo(s.angle, s.maxAngle, s.maxSpeed, dt);
  }

  lemma BackTo(angle: real, limit: real, maxSpeed: real, dt: real)
    requires dt > 0.0 && maxSpeed >= 0.0
    ensures angle + ((limit - angle) / dt) * dt == limit
    ensures (limit - angle) / dt == -((angle - limit) / dt)
    ensures limit >= angle ==> (limit - angle) / dt >= 0.0
    ensures limit <= angle ==> (limit - angle) / dt <= 0.0
  {
    var q := (limit - angle) / dt;
    assert q * dt == limit - angle;
    if q > 0.0 {
      ProductPositive(q, dt);
    } else if q < 0.0 {
      ProductPositive(-q, dt);
      assert -q * dt == -(q * dt);
    }
  }

  lemma WantedStaysInside(angle: real, lo: real, hi: real, desired: real, wanted: real, dt: real)
    requires dt > 0.0 && lo <= angle <= hi
    requires wanted == if desired * dt + angle < lo && desired <= 0.0 then (lo - angle) / dt
                       else if desired * dt + angle > hi && desired >= 0.0 then (hi - angle) / dt else desired
    ensures lo <= angle + wanted * dt <= hi
  {
    assert ((lo - angle) / dt) * dt == lo - angle && ((hi - angle) / dt) * dt == hi - angle;
    if desired >= 0.0 {
      ProductNonNegative(desired, dt);
    } else {
      ProductNonNegative(-desired, dt);
      assert (-desired) * dt == -(desired * dt);
    }
  }

  lemma ClampStaysInside(angle: real, lo: real, hi: real, wanted: real, maxSpeed: real, dt: real, c: real)
    requires dt > 0.0 && maxSpeed >= 0.0 && lo <= angle <= hi && lo <= angle + wanted * dt <= hi
    requires c == Clamp(wanted, -maxSpeed, maxSpeed)
    ensures lo <= angle + c * dt <= hi
  {
    if wanted >= 0.0 {
      ProductNonNegative(wanted - c, dt);
      ProductNonNegative(c, dt);
      assert (wanted - c) * dt == wanted * dt - c * dt;
    } else {
      ProductNonNegative(c - wanted, dt);
      ProductNonNegative(-c, dt);
      assert (c - wanted) * dt == c * dt - wanted * dt && (-c) * dt == -(c * dt);
    }
  }

  // ---------- both conditions are needed ----------

  function InitialServo(m: Libm): ServoState {
    ServoState(-10.0 * m.pi, 10.0 * m.pi, 4.0 * m.pi / 3.0, 0.0, Some(0.0), 0.0, false,
               Initial(0.0), Initial(ANGLE), Initial(true))
  }

  /** The state of the two connected servos after construction. */
  function InitialArm(m: Libm): ArmState {
    ArmState(InitialServo(m), InitialServo(m))
  }

  lemma InitialInvariant(m: Libm)
    requires m.Lawful()
    ensures Invariant(InitialArm(m)) && AtRest(InitialArm(m))
  {}

  /** Every state that the arm ever reaches. */
  lemma ReachableSafe(m: Libm, ticks: seq<Tick>)
    requires m.Lawful()
    requires forall t <- ticks :: t.dt > 0.0
    ensures Invariant(InitialArm(m)) && Safe(Run(m, InitialArm(m), ticks).Current())
  {
    InitialInvariant(m);
    RunSafe(m, InitialArm(m), ticks);
  }

  function AngleTick(right: real, left: real, dt: real): Tick {
    Tick(Wishes(Wish(right, 0.0, ANGLE, true), Wish(left, 0.0, ANGLE, true)), dt)
  }

  /** What a motor brings into a control pass: its position, its wish, and the rest unchanged. */
  ghost predicate Asked(l: ServoState, s: ServoState, angle: real, w: Wish) {
    && l.Valid() && Fresh(l) && l.angle == angle && l.angleDesired == w.angle
    && l.mode.desired == w.mode && l.enabled.desired == w.enabled && l.speed.desired == w.speed
    && l.speed.target == s.speed.target && l.maxSpeed == s.maxSpeed
  }

  /** The arm just before its control pass, if the projection had nothing to change. */
  lemma Prepared(m: Libm, s: ArmState, w: Wishes, dt: real) returns (l: ArmState)
    requires m.Lawful() && Invariant(s) && dt > 0.0
    requires m.sqrt(2.0) > 0.0 && AfterPlant(m, s, dt).Current() == Integrated(s, dt)
    requires Safe(Angles(w.right.angle, w.left.angle))
    ensures l.Valid() && Coupled(l)
    ensures AfterArmStep(m, s, w, dt) == ArmState(l.right.Controlled(dt), l.left.Controlled(dt))
    ensures Asked(l.right, s.right, Integrated(s, dt).right, w.right)
    ensures Asked(l.left, s.left, Integrated(s, dt).left, w.left)
  {
    SqrtTwo(m);
    PlantSafe(m, s, dt);
    l := AfterLimitMotors(m, AfterWishes(AfterPlant(m, s, dt), w));
    ProjectionIdentity(m, Angles(w.right.angle, w.left.angle));
  }

  lemma Unprojected(m: Libm, s: ArmState, dt: real)
    requires m.Lawful() && Invariant(s) && (Commanded(s) || AtRest(s)) && 0.0 < dt <= TAU
    ensures m.sqrt(2.0) > 0.0 && AfterPlant(m, s, dt).Current() == Integrated(s, dt)
  {
    if Commanded(s) {
      NoProjectionNeeded(m, s, dt);
    } else {
      RestUnprojected(m, s, dt);
    }
  }

  /** A step towards safe goals, as far as it matters here. */
  lemma StepTowards(m: Libm, s: ArmState, goal: Angles, dt: real) returns (s': ArmState)
    requires m.Lawful() && Invariant(s) && (Commanded(s) || AtRest(s)) && 0.0 < dt <= TAU && Safe(goal)
    ensures s' == AfterArmStep(m, s, AngleTick(goal.right, goal.left, dt).wishes, dt)
    ensures Invariant(s') && Commanded(s') && s'.Desired() == goal && s'.Current() == Integrated(s, dt)
    ensures s'.right.maxSpeed == s.right.maxSpeed && s'.left.maxSpeed == s.left.maxSpeed
  {
    var w := AngleTick(goal.right, goal.left, dt).wishes;
    s' := AfterArmStep(m, s, w, dt);
    Unprojected(m, s, dt);
    StepKeepsInvariant(m, s, w, dt);
    StepCommands(m, s, w, dt);
    var l := Prepared(m, s, w, dt);
    ControlledHeads(l.right, dt);
    ControlledHeads(l.left, dt);
  }

  /** Both motors near the edge of the band, and told to go right to it. */
  ghost predicate AtTheEdge(s: ArmState) {
    && s.Valid() && Commanded(s) && s.right.maxSpeed > 4.0 && s.left.maxSpeed > 4.0
    && s.Current() == Angles(0.6, -0.6) && s.Desired() == Angles(0.60735, -0.60735)
  }

  lemma EdgeOvershoots(s: ArmState, dt: real)
    requires AtTheEdge(s) && dt > TAU
    ensures !Safe(Integrated(s, dt))
  {
    assert s.right.speed.target == 0.0294 && s.left.speed.target == -0.0294;
  }

  const EDGE: seq<Tick> := [AngleTick(0.6, -0.6, TAU), AngleTick(0.60735, -0.60735, TAU)]

  /** The edge is reached from the initial state in two steps of the time constant. */
  lemma EdgeReached(m: Libm) returns (one: ArmState, two: ArmState)
    requires m.Lawful()
    ensures Invariant(InitialArm(m)) && one == AfterArmStep(m, InitialArm(m), EDGE[0].wishes, TAU)
    ensures Invariant(one) && two == AfterArmStep(m, one, EDGE[1].wishes, TAU)
    ensures Invariant(two) && AtTheEdge(two)
  {
    InitialInvariant(m);
    one := StepTowards(m, InitialArm(m), Angles(0.6, -0.6), TAU);
    assert Integrated(InitialArm(m), TAU) == Angles(0.0, 0.0);
    FullStep(one.right, 0.6);
    FullStep(one.left, -0.6);
    two := StepTowards(m, one, Angles(0.60735, -0.60735), TAU);
  }

  /** A goal within reach is met in one step of the time constant. */
  lemma FullStep(s: ServoState, goal: real)
    requires s.Valid() && Heading(s, goal) && s.maxSpeed > 4.0 && -1.0 <= goal - s.angle <= 1.0
    requires s.minAngle <= goal <= s.maxAngle
    ensures s.Integrated(TAU) == goal
  {}

  /** From commanded states the motors stay safe without the projection, for a step of size dt,
      exactly if dt is at most the time constant. */
  lemma StepSafeExactly(m: Libm, dt: real)
    requires m.Lawful() && dt > 0.0
    ensures (forall s: ArmState | s.Valid() && Commanded(s) :: Safe(Integrated(s, dt))) <==> dt <= TAU
  {
    if dt <= TAU {
      forall s: ArmState | s.Valid() && Commanded(s) ensures Safe(Integrated(s, dt)) {
        NoProjectionNeeded(m, s, dt);
      }
    } else {
      var one, two := EdgeReached(m);
      EdgeOvershoots(two, dt);
    }
  }

  /** A run with both motors enabled and in angle mode, and steps of at most `longest`. */
  ghost predicate AngleRun(ticks: seq<Tick>, longest: real) {
    forall t <- ticks :: AngleWishes(t.wishes) && 0.0 < t.dt <= longest
  }

  /** Over whole runs from the initial state, too: with both motors enabled and in angle mode, the
      projection never changes anything in any run with steps up to `longest`, exactly if
      `longest` is at most the time constant. */
  lemma RunsNeverProjectExactly(m: Libm, longest: real)
    requires m.Lawful() && longest > 0.0
    ensures Invariant(InitialArm(m))
    ensures (forall ticks | AngleRun(ticks, longest) :: NeverProjected(m, InitialArm(m), ticks)) <==> longest <= TAU
  {
    InitialInvariant(m);
    if longest <= TAU {
      forall ticks | AngleRun(ticks, longest) ensures NeverProjected(m, InitialArm(m), ticks) {
        AngleRunsNeverProject(m, InitialArm(m), ticks);
      }
    } else {
      var ticks := LongStepNeedsProjection(m, longest);
    }
  }

  /** Every step longer than the time constant leaves the band in some run that reaches it by
      short steps. */
  lemma LongStepNeedsProjection(m: Libm, dt: real) returns (ticks: seq<Tick>)
    requires m.Lawful() && dt > TAU
    ensures ticks == EDGE + [AngleTick(0.0, 0.0, dt)] && AngleRun(ticks, dt)
    ensures Invariant(InitialArm(m)) && !NeverProjected(m, InitialArm(m), ticks)
  {
    ticks := EDGE + [AngleTick(0.0, 0.0, dt)];
    var one, two := EdgeReached(m);
    EdgeOvershoots(two, dt);
    ProjectedLater(m, two, ticks[2..]);
    assert ticks[1..][1..] == ticks[2..] && ticks[2] == ticks[2..][0];
  }

  lemma ProjectedLater(m: Libm, s: ArmState, ticks: seq<Tick>)
    requires m.Lawful() && Invariant(s) && ticks != []
    requires forall t <- ticks :: t.dt > 0.0
    requires !Safe(Integrated(s, ticks[0].dt))
    ensures !NeverProjected(m, s, ticks)
  {}

  /** In speed mode a motor that is told to turn past its upper limit ends the step there. */
  lemma TurnsUpToLimit(s: ServoState, dt: real, gap: real)
    requires s.Valid() && s.mode.desired == SPEED && s.enabled.desired && s.maxSpeed > 4.0
    requires s.speed.desired == 1.0 && s.maxAngle == s.angle + gap && 0.0 < gap <= dt && s.minAngle <= s.angle
    ensures var c := s.Controlled(dt);
            c.Valid() && c.Integrated(dt) == s.angle + gap
  {
    assert (gap / dt) * dt == gap;
    QuotientSmall(gap, dt);
  }

  lemma TurnsDownToLimit(s: ServoState, dt: real, gap: real)
    requires s.Valid() && s.mode.desired == SPEED && s.enabled.desired && s.maxSpeed > 4.0
    requires s.speed.desired == -1.0 && s.minAngle == s.angle - gap && 0.0 < gap <= dt && s.angle <= s.maxAngle
    ensures var c := s.Controlled(dt);
            c.Valid() && c.Integrated(dt) == s.angle - gap
  {
    assert (-gap / dt) * dt == -gap && -gap / dt == -(gap / dt);
    QuotientSmall(gap, dt);
  }

  lemma QuotientSmall(gap: real, dt: real)
    requires 0.0 < gap <= dt
    ensures 0.0 < gap / dt <= 1.0
  {
    var q := gap / dt;
    assert q * dt == gap;
    if q > 1.0 {
      ProductPositive(q - 1.0, dt);
    } else if q <= 0.0 {
      ProductNonNegative(-q, dt);
    }
  }

  function NearEdge(gap: real): Wishes {
    AngleTick(0.6147 - gap, -0.6, TAU).wishes
  }

  /** Speed mode, in opposite directions. */
  function Apart(gap: real): Wishes {
    Wishes(Wish(0.6147 - gap, 1.0, SPEED, true), Wish(-0.6, -1.0, SPEED, true))
  }

  /** Both motors at rest, a distance of `gap` inside the edge of the band. */
  lemma RestingNearEdge(m: Libm, gap: real) returns (one: ArmState, two: ArmState)
    requires m.Lawful() && 0.0 < gap <= 0.01
    ensures Invariant(InitialArm(m)) && one == AfterArmStep(m, InitialArm(m), NearEdge(gap), TAU)
    ensures Invariant(one) && two == AfterArmStep(m, one, NearEdge(gap), TAU)
    ensures Invariant(two) && AtRest(two) && two.Current() == Angles(0.6147 - gap, -0.6)
    ensures two.right.maxSpeed > 4.0 && two.left.maxSpeed > 4.0
  {
    InitialInvariant(m);
    one := StepTowards(m, InitialArm(m), Angles(0.6147 - gap, -0.6), TAU);
    assert Integrated(InitialArm(m), TAU) == Angles(0.0, 0.0);
    FullStep(one.right, 0.6147 - gap);
    FullStep(one.left, -0.6);
    two := StepTowards(m, one, Angles(0.6147 - gap, -0.6), TAU);
  }

  /** In speed mode the limits of the single motors never suffice: for every step size, two motors
      driven apart leave the band in a run from the initial state. Each may turn up to where the
      other one was, and both do. */
  lemma SpeedModeNeedsProjection(m: Libm, dt: real) returns (gap: real, one: ArmState, two: ArmState, three: ArmState)
    requires m.Lawful() && dt > 0.0
    ensures Invariant(InitialArm(m)) && one == AfterArmStep(m, InitialArm(m), NearEdge(gap), TAU)
    ensures Invariant(one) && two == AfterArmStep(m, one, NearEdge(gap), TAU)
    ensures Invariant(two) && three == AfterArmStep(m, two, Apart(gap), dt)
    ensures three.Valid() && !Safe(Integrated(three, dt))
  {
    gap := Min(dt, 0.01);
    one, two := RestingNearEdge(m, gap);
    three := DrivenApart(m, two, dt, gap);
  }

  lemma DrivenApart(m: Libm, s: ArmState, dt: real, gap: real) returns (s': ArmState)
    requires m.Lawful() && Invariant(s) && AtRest(s) && 0.0 < gap <= dt && gap <= 0.01
    requires s.Current() == Angles(0.6147 - gap, -0.6) && s.right.maxSpeed > 4.0 && s.left.maxSpeed > 4.0
    ensures s' == AfterArmStep(m, s, Apart(gap), dt)
    ensures s'.Valid() && !Safe(Integrated(s', dt))
  {
    RestUnprojected(m, s, dt);
    RestStays(s, dt);
    var l := Prepared(m, s, Apart(gap), dt);
    s' := ArmState(l.right.Controlled(dt), l.left.Controlled(dt));
    ApartFromEdge(l, dt, gap);
  }

  lemma ApartFromEdge(l: ArmState, dt: real, gap: real)
    requires l.Valid() && Coupled(l) && 0.0 < gap <= dt && gap <= 0.01
    requires l.Current() == Angles(0.6147 - gap, -0.6)
    requires l.right.maxSpeed > 4.0 && l.right.mode.desired == SPEED && l.right.enabled.desired && l.right.speed.desired == 1.0
    requires l.left.maxSpeed > 4.0 && l.left.mode.desired == SPEED && l.left.enabled.desired && l.left.speed.desired == -1.0
    ensures var s := ArmState(l.right.Controlled(dt), l.left.Controlled(dt));
            s.Valid() && Integrated(s, dt) == Angles(0.6147, -0.6 - gap)
  {
    TurnsUpToLimit(l.right, dt, gap);
    TurnsDownToLimit(l.left, dt, gap);
  }

  lemma DisabledTurnsOn(s: ServoState, dt: real)
    requires s.Valid() && !s.enabled.desired && dt > 0.0
    ensures var c := s.Controlled(dt);
            && c.Valid() && c.speed.target == s.speed.target && c.angle == s.angle
            && c.minAngle == s.minAngle && c.maxAngle == s.maxAngle
  {}

  /** The right motor turns at 2 rad/s towards 0.5. */
  lemma TurningRight(m: Libm) returns (one: ArmState)
    requires m.Lawful()
    ensures Invariant(InitialArm(m)) && one == AfterArmStep(m, InitialArm(m), AngleTick(0.5, 0.0, 0.01).wishes, 0.01)
    ensures Invariant(one) && Commanded(one) && Integrated(one, 0.01) == Angles(0.02, 0.0)
    ensures one.right.speed.target == 2.0 && one.left.maxSpeed > 4.0
  {
    InitialInvariant(m);
    one := StepTowards(m, InitialArm(m), Angles(0.5, 0.0), 0.01);
    assert Integrated(InitialArm(m), 0.01) == Angles(0.0, 0.0);
  }

  /** A motor that is disabled while it turns keeps turning, out of the control of its limits: in
      angle mode and with short steps, but not enabled throughout, the band is left as well. */
  lemma DisabledMotorNeedsProjection(m: Libm) returns (one: ArmState, two: ArmState)
    requires m.Lawful()
    ensures Invariant(InitialArm(m)) && one == AfterArmStep(m, InitialArm(m), AngleTick(0.5, 0.0, 0.01).wishes, 0.01)
    ensures var w := Wishes(Wish(0.3, 0.0, ANGLE, false), Wish(-0.7, 0.0, ANGLE, true));
            one.Valid() && two == AfterArmStep(m, one, w, 0.01)
    ensures two.Valid() && !Safe(Integrated(two, TAU))
  {
    var w := Wishes(Wish(0.3, 0.0, ANGLE, false), Wish(-0.7, 0.0, ANGLE, true));
    one := TurningRight(m);
    two := AfterArmStep(m, one, w, 0.01);
    Unprojected(m, one, 0.01);
    StepKeepsInvariant(m, one, w, 0.01);
    var l := Prepared(m, one, w, 0.01);
    DisabledTurnsOn(l.right, 0.01);
    ControlledHeads(l.left, 0.01);
    assert two.right.speed.target == 2.0 && two.left.speed.target == -2.8;
  }
}
