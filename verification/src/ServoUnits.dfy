/** The units of the servo messages: the simulator encodes the angle of an arm motor as an
    integer, and `RMServo` on the ROS side decodes it.

    Index 0 is the left motor and index 1 the right one, which turns the other way. On the ROS
    side the references and directions are those of its default configuration.
 */
module ServoUnits {
  import opened RealMath
  import opened Arm
  import AP = ArmProof

  type Index = i: nat | i < 2

  const UNIT_180_DEG: int := 1024

  function Direction(i: Index): int {
    if i == 0 then 1 else -1
  }

  function ResetAngle(i: Index): real {
    if i == 0 then 0.073304 else -0.274016
  }

  const RESET_VALUE: int := 1024

  function Of(a: Angles, i: Index): real {
    if i == 0 then a.left else a.right
  }

  /** C's `round`: halves go away from zero. */
  function Round(x: real): int {
    if x >= 0.0 then (x + 0.5).Floor else -(0.5 - x).Floor
  }

  // ---------- the simulator ----------

  function RadToUnit(pi: real): real
    requires pi > 0.0
  {
    1024.0 / pi
  }

  function Bias(pi: real, i: Index): real
    requires pi > 0.0
  {
    RESET_VALUE as real - Direction(i) as real * RadToUnit(pi) * ResetAngle(i)
  }

  /** `servo_angle_value`. */
  function AngleValue(pi: real, i: Index, angle: real): int
    requires pi > 0.0
  {
    Round(Direction(i) as real * RadToUnit(pi) * angle + Bias(pi, i))
  }

  /** `servo_speed_value`. */
  function SpeedValue(pi: real, i: Index, speed: real): int
    requires pi > 0.0
  {
    Round(RadToUnit(pi) * 5.0 * speed * Direction(i) as real)
  }

  /** `servo_angle`: from absolute radians to degrees of the servo. */
  function ServoAngle(pi: real, i: Index, angle: real): real
    requires pi > 0.0
  {
    180.0 * (Direction(i) as real * (angle - ResetAngle(i))) / pi
  }

  /** `angle_to_servo` of the simulator: from degrees of the servo to absolute radians. */
  function FromServoAngle(pi: real, i: Index, degrees: real): real {
    Direction(i) as real * (pi * degrees / 180.0) + ResetAngle(i)
  }

  // ---------- the ROS side ----------

  function DecodedAngle(pi: real, referenceAngle: real, referenceValue: int, direction: int, value: int): real {
    referenceAngle + direction as real * (value - referenceValue) as real * pi / UNIT_180_DEG as real
  }

  function DecodedSpeed(pi: real, direction: int, value: int): real {
    direction as real * value as real * pi / UNIT_180_DEG as real / 5.0
  }

  class RMServo {
    const direction: int
    const referenceAngle: real
    const referenceValue: int
    var valid: bool
    var value: int
    var speedValue: int

    constructor (referenceAngle: real, referenceValue: int, direction: int)
      ensures this.referenceAngle == referenceAngle && this.referenceValue == referenceValue && !valid
      ensures this.direction == if direction > 0 then 1 else -1
    {
      this.direction := if direction > 0 then 1 else -1;
      this.referenceAngle, this.referenceValue := referenceAngle, referenceValue;
      valid := false;
    }

    function Angle(pi: real): real
      reads this
    {
      DecodedAngle(pi, referenceAngle, referenceValue, direction, value)
    }

    /** The body of the first loop of `updated_servo`: data that is not valid is ignored. */
    method Update(valid: bool, speed: int, value: int)
      modifies this
      ensures this.valid == valid
      ensures this.value == (if valid then value else old(this.value))
      ensures this.speedValue == (if valid then speed else old(this.speedValue))
    {
      this.valid := valid;
      if this.valid {
        this.speedValue := speed;
        this.value := value;
      }
    }

    /** `angle_to_servo`. */
    function AngleToServo(angle: real): real {
      direction as real * (angle - referenceAngle)
    }

    /** `angle_from_servo`. */
    function AngleFromServo(zeroAngle: real): real {
      direction as real * zeroAngle + referenceAngle
    }

    lemma AngleRoundTrip(angle: real)
      requires direction == 1 || direction == -1
      ensures AngleFromServo(AngleToServo(angle)) == angle && AngleToServo(AngleFromServo(angle)) == angle
    {}
  }

  /** An angle as the ROS side decodes it with its default configuration. */
  function Decoded(pi: real, i: Index, value: int): real {
    DecodedAngle(pi, ResetAngle(i), RESET_VALUE, Direction(i), value)
  }

  // ---------- encoding and decoding ----------

  lemma RoundWithinHalf(x: real)
    ensures -0.5 <= Round(x) as real - x <= 0.5
  {}

  /** No integer is closer than one within a half. */
  lemma Nearest(x: real, v: int, w: int)
    requires -0.5 <= v as real - x <= 0.5
    ensures Abs(v as real - x) <= Abs(w as real - x)
  {
    if w > v {
      assert w as real >= v as real + 1.0;
    } else if w < v {
      assert w as real <= v as real - 1.0;
    }
  }

  /** The exact position of an angle on the scale of the integers. */
  ghost function Position(pi: real, i: Index, angle: real): real
    requires pi > 0.0
  {
    Direction(i) as real * RadToUnit(pi) * angle + Bias(pi, i)
  }

  /** One unit of the scale, in radians. */
  ghost function Unit(pi: real): real {
    pi / 1024.0
  }

  lemma UnitInverse(pi: real)
    requires pi > 0.0
    ensures RadToUnit(pi) * Unit(pi) == 1.0
  {
    assert (1024.0 / pi) * pi == 1024.0;
    assert (1024.0 / pi) * (pi / 1024.0) == ((1024.0 / pi) * pi) / 1024.0;
  }

  lemma PositionOfAngle(pi: real, i: Index, angle: real)
    requires pi > 0.0
    ensures Position(pi, i, angle) == 1024.0 + Direction(i) as real * (RadToUnit(pi) * (angle - ResetAngle(i)))
  {}

  lemma DecodedByUnits(pi: real, i: Index, w: int)
    ensures Decoded(pi, i, w) == ResetAngle(i) + Direction(i) as real * ((w as real - 1024.0) * Unit(pi))
  {}

  lemma Offset(d: real, u: real, unit: real, a: real, w: real, x: real)
    requires u * unit == 1.0 && (d == 1.0 || d == -1.0)
    requires x == 1024.0 + d * (u * a)
    ensures d * ((w - 1024.0) * unit) - a == d * ((w - x) * unit)
  {
    assert (u * a) * unit == a by {
      assert (u * a) * unit == (u * unit) * a;
    }
    assert (w - 1024.0) * unit == (w - x) * unit + (d * (u * a)) * unit;
    assert (d * (u * a)) * unit == d * ((u * a) * unit);
  }

  /** The distance of a decoded value from the angle is its distance on the scale. */
  lemma DecodedDistance(pi: real, i: Index, angle: real, w: int)
    requires pi > 0.0
    ensures Abs(Decoded(pi, i, w) - angle) == Abs(w as real - Position(pi, i, angle)) * Unit(pi)
  {
    var x, a := Position(pi, i, angle), angle - ResetAngle(i);
    PositionOfAngle(pi, i, angle);
    UnitInverse(pi);
    DecodedByUnits(pi, i, w);
    Offset(Direction(i) as real, RadToUnit(pi), Unit(pi), a, w as real, x);
    ProductSign(w as real - x, Unit(pi));
  }

  lemma ProductSign(a: real, b: real)
    requires b >= 0.0
    ensures Abs(a * b) == Abs(a) * b
  {
    if a >= 0.0 {
      ProductNonNegative(a, b);
    } else {
      ProductNonNegative(-a, b);
      assert (-a) * b == -(a * b);
    }
  }

  lemma ProductMonotone(a: real, b: real, c: real)
    requires a <= b && c >= 0.0
    ensures a * c <= b * c
  {
    ProductNonNegative(b - a, c);
    assert (b - a) * c == b * c - a * c;
  }

  /** How far a decoded angle is off. */
  ghost function Miss(pi: real, i: Index, angle: real, w: int): real {
    Abs(Decoded(pi, i, w) - angle)
  }

  lemma Misses(near: real, far: real, x: real, v: int, w: int, pi: real)
    requires pi > 0.0 && -0.5 <= v as real - x <= 0.5
    requires near == Abs(v as real - x) * Unit(pi) && far == Abs(w as real - x) * Unit(pi)
    ensures near <= far && near <= pi / 2048.0
  {
    Nearest(x, v, w);
    Compare(Abs(v as real - x), Abs(w as real - x), pi);
  }

  lemma CloseToPosition(pi: real, i: Index, angle: real, v: int, w: int)
    requires pi > 0.0 && -0.5 <= v as real - Position(pi, i, angle) <= 0.5
    ensures Miss(pi, i, angle, v) <= pi / 2048.0 && Miss(pi, i, angle, v) <= Miss(pi, i, angle, w)
  {
    DecodedDistance(pi, i, angle, v);
    DecodedDistance(pi, i, angle, w);
    Misses(Miss(pi, i, angle, v), Miss(pi, i, angle, w), Position(pi, i, angle), v, w, pi);
  }

  /** A motor angle survives encoding and decoding up to half a unit, pi / 2048, and no other
      integer would be decoded closer to it. */
  lemma AngleRoundTrip(pi: real, i: Index, angle: real, w: int)
    requires pi > 0.0
    ensures Miss(pi, i, angle, AngleValue(pi, i, angle)) <= pi / 2048.0
    ensures Miss(pi, i, angle, AngleValue(pi, i, angle)) <= Miss(pi, i, angle, w)
  {
    RoundWithinHalf(Position(pi, i, angle));
    CloseToPosition(pi, i, angle, AngleValue(pi, i, angle), w);
  }

  lemma Compare(near: real, far: real, pi: real)
    requires near <= far && near <= 0.5 && pi > 0.0
    ensures near * Unit(pi) <= far * Unit(pi) && near * Unit(pi) <= pi / 2048.0
  {
    ProductMonotone(near, far, Unit(pi));
    ProductMonotone(near, 0.5, Unit(pi));
  }

  /** Values decode to themselves: encoding is onto. */
  lemma ValueRoundTrip(pi: real, i: Index, value: int)
    requires pi > 0.0
    ensures AngleValue(pi, i, Decoded(pi, i, value)) == value
  {
    var angle := Decoded(pi, i, value);
    DecodedDistance(pi, i, angle, value);
    ProductZero(Abs(value as real - Position(pi, i, angle)), Unit(pi));
    assert Position(pi, i, angle) == value as real;
  }

  lemma ServoAngleRoundTrip(pi: real, i: Index, angle: real)
    requires pi > 0.0
    ensures FromServoAngle(pi, i, ServoAngle(pi, i, angle)) == angle
    ensures ServoAngle(pi, i, FromServoAngle(pi, i, angle)) == angle
  {
    var d, a := Direction(i) as real, angle - ResetAngle(i);
    assert pi * (180.0 * (d * a) / pi) == 180.0 * (d * a);
    assert d * (d * a) == a;
    assert d * (d * (pi * angle / 180.0)) == pi * angle / 180.0;
    assert 180.0 * (pi * angle / 180.0) / pi == angle;
  }

  /** Over the safe polytope the encoded angles of the left motor stay within 739 and 1565, and those of
      the right one, which turns the other way, within 483 and 1024. */
  lemma SafeAnglesFit(m: Libm, a: Angles, i: Index)
    requires m.Lawful() && Safe(a)
    ensures if i == 0 then 739 <= AngleValue(m.pi, i, Of(a, i)) <= 1565 else 483 <= AngleValue(m.pi, i, Of(a, i)) <= 1024
  {
    var u, angle := RadToUnit(m.pi), Of(a, i) - ResetAngle(i);
    PositionOfAngle(m.pi, i, Of(a, i));
    assert u * m.pi == 1024.0;
    UnitBounds(u, m.pi);
    if i == 0 {
      ScaledRange(u, angle, 326.2, -0.872604, 1.657996);
      RoundedFits(Position(m.pi, i, a.left), 739, 1565);
    } else {
      ScaledRange(u, angle, 326.2, 0.0, 1.658016);
      RoundedFits(Position(m.pi, i, a.right), 483, 1024);
    }
  }

  /** A product with a positive factor below `b`. */
  lemma ScaledUp(u: real, a: real, b: real, hi: real)
    requires 0.0 < u < b && 0.0 <= a <= hi
    ensures 0.0 <= u * a <= b * hi
  {
    var p, q := u * a, b * a;
    ProductNonNegative(u, a);
    ProductNonNegative(b - u, a);
    ProductNonNegative(b, hi - a);
    assert (b - u) * a == q - p;
    assert b * (hi - a) == b * hi - q;
  }

  /** And for the other factor between `lo` and `hi`. */
  lemma ScaledRange(u: real, a: real, b: real, lo: real, hi: real)
    requires 0.0 < u < b && lo <= a <= hi && lo <= 0.0 <= hi
    ensures b * lo <= u * a <= b * hi
  {
    ScaledUp(u, Max(a, 0.0), b, hi);
    ScaledUp(u, Max(-a, 0.0), b, -lo);
    assert b * -lo == -(b * lo) && u * -a == -(u * a);
  }

  lemma RoundedFits(x: real, lo: int, hi: int)
    requires lo as real - 0.5 < x < hi as real + 0.5
    ensures lo <= Round(x) <= hi
  {
    RoundWithinHalf(x);
  }

  lemma UnitBounds(u: real, pi: real)
    requires u * pi == 1024.0 && 3.14 < pi < 3.15
    ensures 325.0 < u < 326.2
  {
    if u <= 325.0 {
      ProductMonotone(u, 325.0, pi);
    } else if u >= 326.2 {
      ProductMonotone(326.2, u, pi);
    }
  }

  /** The two-byte field of the servo message. */
  function Field(value: int): int {
    value % 65536
  }

  /** In every reachable state of the arm, what the client reads off the message is within half
      a unit of the angles the motors really have. */
  lemma ReportedAngles(m: Libm, s: ArmState, ticks: seq<AP.Tick>, i: Index)
    requires m.Lawful() && AP.Invariant(s)
    requires forall t <- ticks :: t.dt > 0.0
    ensures var angle := Of(AP.Run(m, s, ticks).Current(), i);
            Miss(m.pi, i, angle, Field(AngleValue(m.pi, i, angle))) <= m.pi / 2048.0
  {
    var a := AP.Run(m, s, ticks).Current();
    AP.RunSafe(m, s, ticks);
    SafeAnglesFit(m, a, i);
    AngleRoundTrip(m.pi, i, Of(a, i), 0);
  }

  lemma SpeedOffset(d: real, u: real, unit: real, speed: real, v: real, e: real)
    requires u * unit == 1.0 && (d == 1.0 || d == -1.0) && e == v - u * 5.0 * speed * d
    ensures d * (v * unit) - 5.0 * speed == d * (e * unit)
  {
    assert u * 5.0 * speed * d == d * (u * (5.0 * speed));
    Offset(d, u, unit, 5.0 * speed, v + 1024.0, v - e + 1024.0);
  }

  lemma SpeedMiss(pi: real, i: Index, speed: real, v: int, e: real)
    requires pi > 0.0 && e == v as real - RadToUnit(pi) * 5.0 * speed * Direction(i) as real
    ensures Abs(DecodedSpeed(pi, Direction(i), v) - speed) == Abs(e) * Unit(pi) / 5.0
  {
    var d := Direction(i) as real;
    UnitInverse(pi);
    SpeedOffset(d, RadToUnit(pi), Unit(pi), speed, v as real, e);
    DecodedSpeedByUnits(pi, i, v);
    ProductSign(e, Unit(pi));
  }

  lemma DecodedSpeedByUnits(pi: real, i: Index, v: int)
    ensures DecodedSpeed(pi, Direction(i), v) * 5.0 == Direction(i) as real * (v as real * Unit(pi))
  {}

  /** A speed survives up to a tenth of a unit. */
  lemma SpeedRoundTrip(pi: real, i: Index, speed: real)
    requires pi > 0.0
    ensures Abs(DecodedSpeed(pi, Direction(i), SpeedValue(pi, i, speed)) - speed) <= pi / 10240.0
  {
    var v, x := SpeedValue(pi, i, speed), RadToUnit(pi) * 5.0 * speed * Direction(i) as real;
    RoundWithinHalf(x);
    SpeedMiss(pi, i, speed, v, v as real - x);
    Compare(Abs(v as real - x), 0.5, pi);
  }
}
