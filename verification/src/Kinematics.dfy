/** Planar poses and twists, and the mecanum wheel maps of the chassis. */
module Kinematics {
  import opened RealMath

  datatype Twist2D = Twist2D(x: real, y: real, theta: real) {
    function Scale(f: real): Twist2D {
      Twist2D(x * f, y * f, theta * f)
    }

    function RotateAroundZ(m: Libm, alpha: real): Twist2D {
      Twist2D(RotateX(m, x, y, alpha), RotateY(m, x, y, alpha), theta)
    }
  }

  datatype Pose2D = Pose2D(x: real, y: real, theta: real) {
    function Plus(v: Twist2D): Pose2D {
      Pose2D(x + v.x, y + v.y, theta + v.theta)
    }

    function RotateAroundZ(m: Libm, alpha: real): Pose2D {
      Pose2D(RotateX(m, x, y, alpha), RotateY(m, x, y, alpha), theta + alpha)
    }

    /** Interpret `p` in the frame of this pose. */
    function Compose(m: Libm, p: Pose2D): Pose2D {
      var q := p.RotateAroundZ(m, theta);
      Pose2D(q.x + x, q.y + y, p.theta + theta)
    }

    function Inverse(m: Libm): Pose2D {
      var q := RotateAroundZ(m, -theta);
      Pose2D(-q.x, -q.y, -theta)
    }

    function RelativeTo(m: Libm, pose: Pose2D): Pose2D {
      pose.Inverse(m).Compose(m, this)
    }

    function Distance(m: Libm): real {
      Hypot(m, x, y)
    }

    function Norm(m: Libm): real
      requires m.pi > 0.0
    {
      Distance(m) + Abs(Normalize(m.pi, theta))
    }
  }

  /** The coordinates of a point turned around the origin. */
  function RotateX(m: Libm, x: real, y: real, alpha: real): real {
    x * m.cos(alpha) - y * m.sin(alpha)
  }

  function RotateY(m: Libm, x: real, y: real, alpha: real): real {
    x * m.sin(alpha) + y * m.cos(alpha)
  }

  // ---------- rotations ----------

  lemma RotationAlgebra(c: real, s: real, x: real, y: real, u: real, v: real)
    requires s * s + c * c == 1.0
    requires u == x * c + y * s && v == y * c - x * s
    ensures u * c - v * s == x && u * s + v * c == y
    ensures u * u + v * v == x * x + y * y
  {
    assert u * c - v * s == x * (s * s + c * c);
    assert u * s + v * c == y * (s * s + c * c);
    assert u * u + v * v == (x * x + y * y) * (s * s + c * c);
  }

  /** Rotating by -alpha and then by alpha changes nothing, and rotations keep lengths. */
  lemma RotateBack(m: Libm, x: real, y: real, alpha: real)
    requires m.Lawful()
    ensures var u, v := RotateX(m, x, y, -alpha), RotateY(m, x, y, -alpha);
            && RotateX(m, u, v, alpha) == x && RotateY(m, u, v, alpha) == y
            && u * u + v * v == x * x + y * y
  {
    assert m.Circle(alpha) && m.Parity(alpha);
    RotationAlgebra(m.cos(alpha), m.sin(alpha), x, y,
                    RotateX(m, x, y, -alpha), RotateY(m, x, y, -alpha));
  }

  /** A rotation adds its angle to the direction of a vector. */
  lemma RotationTurns(m: Libm, r: real, phi: real, alpha: real)
    requires m.Lawful()
    ensures RotateX(m, r * m.cos(phi), r * m.sin(phi), alpha) == r * m.cos(phi + alpha)
    ensures RotateY(m, r * m.cos(phi), r * m.sin(phi), alpha) == r * m.sin(phi + alpha)
  {
    assert m.Sum(phi, alpha);
    ScaledSum(r, m.cos(phi), m.sin(phi), m.cos(alpha), m.sin(alpha));
    ScaledSum(r, m.cos(phi), m.sin(phi), m.sin(alpha), m.cos(alpha));
  }

  lemma ScaledSum(k: real, x: real, y: real, a: real, b: real)
    ensures (k * x) * a + (k * y) * b == k * (x * a + y * b)
    ensures (k * x) * a - (k * y) * b == k * (x * a - y * b)
  {}

  lemma RotateScaled(m: Libm, x: real, y: real, k: real, alpha: real)
    ensures RotateX(m, k * x, k * y, alpha) == k * RotateX(m, x, y, alpha)
    ensures RotateY(m, k * x, k * y, alpha) == k * RotateY(m, x, y, alpha)
  {
    ScaledSum(k, x, y, m.cos(alpha), m.sin(alpha));
    ScaledSum(k, x, y, m.sin(alpha), m.cos(alpha));
  }

  lemma DifferenceTimes(a: real, b: real, c: real)
    ensures (a - b) * c == a * c - b * c
  {}

  /** A pose seen from another one: the offset turned back by the other's heading. */
  lemma RelativeToOffset(m: Libm, g: Pose2D, p: Pose2D)
    requires m.Lawful()
    ensures var r := g.RelativeTo(m, p);
            && r.x == RotateX(m, g.x - p.x, g.y - p.y, -p.theta)
            && r.y == RotateY(m, g.x - p.x, g.y - p.y, -p.theta)
            && r.theta == g.theta - p.theta
  {
    var c, s := m.cos(-p.theta), m.sin(-p.theta);
    DifferenceTimes(g.x, p.x, c);
    DifferenceTimes(g.x, p.x, s);
    DifferenceTimes(g.y, p.y, c);
    DifferenceTimes(g.y, p.y, s);
  }

  /** `relative_to` undoes the composition. */
  lemma RelativeToCompose(m: Libm, p: Pose2D, g: Pose2D)
    requires m.Lawful()
    ensures p.Compose(m, g).RelativeTo(m, p) == g
  {
    var h := p.Compose(m, g);
    RelativeToOffset(m, h, p);
    assert m.Parity(p.theta);
    RotateBack(m, g.x, g.y, -p.theta);
    assert -(-p.theta) == p.theta;
  }

  /** Poses compose associatively, so a chain of frames has one meaning. */
  lemma ComposeAssociative(m: Libm, a: Pose2D, b: Pose2D, c: Pose2D)
    requires m.Lawful()
    ensures a.Compose(m, b).Compose(m, c) == a.Compose(m, b.Compose(m, c))
  {
    assert m.Sum(b.theta, a.theta);
    RotationsAdd(m.cos(a.theta), m.sin(a.theta), m.cos(b.theta), m.sin(b.theta), c.x, c.y, b.x, b.y);
  }

  lemma RotationsAdd(ca: real, sa: real, cb: real, sb: real, x: real, y: real, u: real, v: real)
    ensures x * (cb * ca - sb * sa) - y * (sb * ca + cb * sa) + (u * ca - v * sa)
         == (x * cb - y * sb + u) * ca - (x * sb + y * cb + v) * sa
    ensures x * (sb * ca + cb * sa) + y * (cb * ca - sb * sa) + (u * sa + v * ca)
         == (x * cb - y * sb + u) * sa + (x * sb + y * cb + v) * ca
  {}

  // ---------- wheels ----------

  datatype WheelSpeeds = WheelSpeeds(frontLeft: real, frontRight: real, rearLeft: real, rearRight: real)

  /** The distances of the wheels from the center of the chassis. */
  const AXIS_X: real := 0.1
  const AXIS_Y: real := 0.1
  const AXIS_SUM: real := AXIS_X + AXIS_Y
  const WHEEL_RADIUS: real := 0.05

  function WheelSpeedsFromTwist(t: Twist2D): WheelSpeeds {
    WheelSpeeds((t.x - t.y - AXIS_SUM * t.theta) / WHEEL_RADIUS,
                (t.x + t.y + AXIS_SUM * t.theta) / WHEEL_RADIUS,
                (t.x + t.y - AXIS_SUM * t.theta) / WHEEL_RADIUS,
                (t.x - t.y + AXIS_SUM * t.theta) / WHEEL_RADIUS)
  }

  function TwistFromWheelSpeeds(s: WheelSpeeds): Twist2D {
    Twist2D(0.25 * (s.frontLeft + s.frontRight + s.rearLeft + s.rearRight) * WHEEL_RADIUS,
            0.25 * (-s.frontLeft + s.frontRight + s.rearLeft - s.rearRight) * WHEEL_RADIUS,
            0.25 * (-s.frontLeft + s.frontRight - s.rearLeft + s.rearRight) * WHEEL_RADIUS / AXIS_SUM)
  }

  /** The wheels realise every twist exactly. */
  lemma TwistOfWheels(t: Twist2D)
    ensures TwistFromWheelSpeeds(WheelSpeedsFromTwist(t)) == t
  {}

  /** The other way round only wheel speeds without slip come back. */
  lemma WheelsOfTwist(s: WheelSpeeds)
    ensures WheelSpeedsFromTwist(TwistFromWheelSpeeds(s)) == s
       <==> s.frontLeft + s.frontRight == s.rearLeft + s.rearRight
  {}

  /** The wheel at (px, py) turns at `speed`. Where it touches the ground, its rollers let it slide
      across their axis (1, axis), but not along it. The x axis points forward, and y to the left. */
  ghost predicate Rolls(t: Twist2D, px: real, py: real, axis: real, speed: real) {
    (t.x - t.theta * py - WHEEL_RADIUS * speed) + (t.y + t.theta * px) * axis == 0.0
  }

  ghost predicate AllRoll(t: Twist2D, s: WheelSpeeds) {
    && Rolls(t, AXIS_X, AXIS_Y, -1.0, s.frontLeft) && Rolls(t, AXIS_X, -AXIS_Y, 1.0, s.frontRight)
    && Rolls(t, -AXIS_X, AXIS_Y, 1.0, s.rearLeft) && Rolls(t, -AXIS_X, -AXIS_Y, -1.0, s.rearRight)
  }

  /** The wheel speeds of a twist are the only ones at which all four mecanum wheels roll. */
  lemma WheelsRoll(t: Twist2D, s: WheelSpeeds)
    ensures AllRoll(t, s) <==> s == WheelSpeedsFromTwist(t)
  {
    RollsAt(t, AXIS_X, AXIS_Y, -1.0, s.frontLeft);
    RollsAt(t, AXIS_X, -AXIS_Y, 1.0, s.frontRight);
    RollsAt(t, -AXIS_X, AXIS_Y, 1.0, s.rearLeft);
    RollsAt(t, -AXIS_X, -AXIS_Y, -1.0, s.rearRight);
  }

  lemma RollsAt(t: Twist2D, px: real, py: real, axis: real, speed: real)
    ensures Rolls(t, px, py, axis, speed)
       <==> speed == (t.x + t.y * axis + (px * axis - py) * t.theta) / WHEEL_RADIUS
  {
    assert (t.y + t.theta * px) * axis == t.y * axis + (px * axis) * t.theta;
  }

  ghost function Square(x: real): real {
    x * x
  }

  /** How far the wheels are from rolling. */
  ghost function Slip(t: Twist2D, s: WheelSpeeds): real {
    var r := WheelSpeedsFromTwist(t);
    Square(s.frontLeft - r.frontLeft) + Square(s.frontRight - r.frontRight)
    + Square(s.rearLeft - r.rearLeft) + Square(s.rearRight - r.rearRight)
  }

  /** When the wheels cannot all roll, the twist read off them is the one with the least slip. */
  lemma LeastSlip(s: WheelSpeeds, t: Twist2D)
    ensures Slip(TwistFromWheelSpeeds(s), s) <= Slip(t, s)
    ensures Slip(TwistFromWheelSpeeds(s), s) == Slip(t, s) ==> t == TwistFromWheelSpeeds(s)
  {
    var o := TwistFromWheelSpeeds(s);
    var e := (s.frontLeft + s.frontRight - s.rearLeft - s.rearRight) / 4.0;
    var x, y, z := (o.x - t.x) / WHEEL_RADIUS, (o.y - t.y) / WHEEL_RADIUS, AXIS_SUM * (o.theta - t.theta) / WHEEL_RADIUS;
    var p, q := WheelSpeedsFromTwist(o), WheelSpeedsFromTwist(t);
    assert s.frontLeft - p.frontLeft == e && s.frontRight - p.frontRight == e;
    assert s.rearLeft - p.rearLeft == -e && s.rearRight - p.rearRight == -e;
    assert p.frontLeft - q.frontLeft == x - y - z && p.frontRight - q.frontRight == x + y + z;
    assert p.rearLeft - q.rearLeft == x + y - z && p.rearRight - q.rearRight == x - y + z;
    SlipGrows(e, x, y, z);
  }

  lemma SlipGrows(e: real, x: real, y: real, z: real)
    ensures Square(e + x - y - z) + Square(e + x + y + z) + Square(-e + x + y - z) + Square(-e + x - y + z)
         == Square(e) + Square(e) + Square(-e) + Square(-e) + 4.0 * (Square(x) + Square(y) + Square(z))
    ensures Square(x) >= 0.0 && Square(y) >= 0.0 && Square(z) >= 0.0
    ensures Square(x) + Square(y) + Square(z) == 0.0 ==> x == 0.0 && y == 0.0 && z == 0.0
  {
    SquareSign(x);
    SquareSign(y);
    SquareSign(z);
  }

  lemma SquareSign(x: real)
    ensures Square(x) >= 0.0 && (Square(x) == 0.0 ==> x == 0.0)
  {
    if x * x == 0.0 {
      ProductZero(x, x);
    }
  }
}
