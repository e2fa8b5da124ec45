/** Forward kinematics of the arm, its Jacobian, and the inverse step of the controller. */
module ArmKinematics {
  import opened RealMath
  import opened Arm
  import opened ArmProof

  datatype Vector2 = Vector2(x: real, z: real) {
    function Minus(v: Vector2): Vector2 {
      Vector2(x - v.x, z - v.z)
    }

    function Plus(v: Vector2): Vector2 {
      Vector2(x + v.x, z + v.z)
    }
  }

  datatype Matrix2 = Matrix2(xr: real, xl: real, zr: real, zl: real) {
    function Det(): real {
      xr * zl - xl * zr
    }

    /** The adjugate over `d`. */
    function Over(d: real): Matrix2
      requires d != 0.0
    {
      Matrix2(zl / d, -xl / d, -zr / d, xr / d)
    }

    function Inverse(): Matrix2
      requires Det() != 0.0
    {
      Over(Det())
    }

    function Times(v: Vector2): Vector2 {
      Vector2(v.x * xr + v.z * xl, v.x * zr + v.z * zl)
    }
  }

  const LENGTH: real := 0.12
  const ZERO: Angles := Angles(1.5359, 2.6442)
  const OFFSET: Vector2 := Vector2(-0.00157, 0.00523)

  /** `forward_arm_kinematics`, in the plane of the arm. */
  function Forward(m: Libm, a: Angles): Vector2 {
    var r, l := ZERO.right - a.right, ZERO.left - a.left;
    Vector2((m.cos(r) - m.cos(l)) * LENGTH + OFFSET.x, (m.sin(r) - m.sin(l)) * LENGTH + OFFSET.z)
  }

  function Jacobian(m: Libm, a: Angles): Matrix2 {
    Matrix2(LENGTH * m.sin(ZERO.right - a.right), -LENGTH * m.sin(ZERO.left - a.left),
            -LENGTH * m.cos(ZERO.right - a.right), LENGTH * m.cos(ZERO.left - a.left))
  }

  /** `inverse_arm_kinematics`: a share `k` of the step that would cancel the error. */
  function Inverse(m: Libm, position: Vector2, armPosition: Vector2, a: Angles, k: real): Angles
    requires Jacobian(m, a).Det() != 0.0
  {
    var delta := Jacobian(m, a).Inverse().Times(position.Minus(armPosition));
    Angles(a.right + k * delta.x, a.left + k * delta.z)
  }

  /** The arm as two links of equal length, each turned by its own motor; the second one points back. */
  ghost function Link(m: Libm, alpha: real): Vector2 {
    Vector2(LENGTH * m.cos(alpha), LENGTH * m.sin(alpha))
  }

  /** The tip is where the links end, their length is the same at all angles, and the distance of the
      tip from the offset depends on the angle between the links only. */
  lemma TipOfLinks(m: Libm, a: Angles)
    requires m.Lawful()
    ensures var right, left, tip := Link(m, ZERO.right - a.right), Link(m, ZERO.left - a.left), Forward(m, a);
            && tip == OFFSET.Plus(right.Minus(left))
            && Hypot(m, right.x, right.z) == LENGTH && Hypot(m, left.x, left.z) == LENGTH
            && SquaredLength(tip.Minus(OFFSET)) == 2.0 * LENGTH * LENGTH * (1.0 - m.cos((ZERO.right - a.right) - (ZERO.left - a.left)))
  {
    var r, l := ZERO.right - a.right, ZERO.left - a.left;
    assert m.Circle(r) && m.Circle(l) && m.Sum(r, -l) && m.Parity(l);
    assert r - l == r + -l;
    LinkLength(m, r);
    LinkLength(m, l);
    Chord(m.cos(r), m.sin(r), m.cos(l), m.sin(l));
  }

  function SquaredLength(v: Vector2): real {
    v.x * v.x + v.z * v.z
  }

  lemma LinkLength(m: Libm, alpha: real)
    requires m.Lawful()
    ensures Hypot(m, Link(m, alpha).x, Link(m, alpha).z) == LENGTH
  {
    assert m.Circle(alpha);
    var c, s := m.cos(alpha), m.sin(alpha);
    assert (LENGTH * c) * (LENGTH * c) + (LENGTH * s) * (LENGTH * s) == LENGTH * LENGTH * (s * s + c * c);
    HypotUnique(m, LENGTH * c, LENGTH * s, LENGTH);
  }

  lemma Chord(c: real, s: real, c': real, s': real)
    requires s * s + c * c == 1.0 && s' * s' + c' * c' == 1.0
    ensures ((c - c') * LENGTH) * ((c - c') * LENGTH) + ((s - s') * LENGTH) * ((s - s') * LENGTH)
         == 2.0 * LENGTH * LENGTH * (1.0 - (c * c' + s * s'))
  {
    assert (c - c') * (c - c') + (s - s') * (s - s') == 2.0 * (1.0 - (c * c' + s * s'));
    Regrouped(c - c', s - s', LENGTH);
  }

  lemma Regrouped(x: real, z: real, k: real)
    ensures (x * k) * (x * k) + (z * k) * (z * k) == k * k * (x * x + z * z)
  {}

  // ---------- the Jacobian is regular where the arm can be ----------

  lemma DeterminantIsSine(m: Libm, a: Angles)
    requires m.Lawful()
    ensures Jacobian(m, a).Det() == LENGTH * LENGTH * m.sin((ZERO.right - a.right) - (ZERO.left - a.left))
  {
    var r, l := ZERO.right - a.right, ZERO.left - a.left;
    assert m.Sum(r, -l) && m.Parity(l);
    assert r - l == r + -l;
  }

  /** On the whole safe polytope the determinant is strictly negative. */
  lemma DeterminantNegative(m: Libm, a: Angles)
    requires m.Lawful() && Safe(a)
    ensures Jacobian(m, a).Det() < 0.0
  {
    var d := (ZERO.left - a.left) - (ZERO.right - a.right);
    DeterminantIsSine(m, a);
    assert m.UpperHalf(d) && m.Parity(d);
    assert (ZERO.right - a.right) - (ZERO.left - a.left) == -d;
  }

  /** Hence in every reachable state the controller's inverse is defined. */
  lemma ReachableRegular(m: Libm, s: ArmState, ticks: seq<Tick>)
    requires m.Lawful() && Invariant(s)
    requires forall t <- ticks :: t.dt > 0.0
    ensures Jacobian(m, Run(m, s, ticks).Current()).Det() < 0.0
  {
    RunSafe(m, s, ticks);
    DeterminantNegative(m, Run(m, s, ticks).Current());
  }

  lemma Quotients(a: real, b: real, u: real, v: real, d: real, p: real)
    requires d != 0.0 && p == u * (a / d) + v * (b / d)
    ensures p * d == u * a + v * b
  {
    assert (a / d) * d == a && (b / d) * d == b;
    assert p * d == u * ((a / d) * d) + v * ((b / d) * d);
  }

  lemma CramersRule(j: Matrix2, v: Vector2, d: real, p: real, q: real)
    requires d == j.Det() != 0.0
    requires p * d == v.x * j.zl - v.z * j.xl && q * d == v.z * j.xr - v.x * j.zr
    ensures p * j.xr + q * j.xl == v.x && p * j.zr + q * j.zl == v.z
  {
    assert (p * j.xr + q * j.xl) * d == (p * d) * j.xr + (q * d) * j.xl == v.x * d;
    assert (p * j.zr + q * j.zl) * d == (p * d) * j.zr + (q * d) * j.zl == v.z * d;
    CancelFactor(p * j.xr + q * j.xl, v.x, d);
    CancelFactor(p * j.zr + q * j.zl, v.z, d);
  }

  lemma OverTimes(j: Matrix2, v: Vector2, d: real) returns (w: Vector2)
    requires d != 0.0
    ensures w == j.Over(d).Times(v)
    ensures w.x * d == v.x * j.zl - v.z * j.xl && w.z * d == v.z * j.xr - v.x * j.zr
  {
    w := j.Over(d).Times(v);
    Quotients(j.zl, -j.xl, v.x, v.z, d, w.x);
    Quotients(-j.zr, j.xr, v.x, v.z, d, w.z);
  }

  lemma InverseCancels(j: Matrix2, v: Vector2, d: real)
    requires d == j.Det() != 0.0
    ensures j.Times(j.Inverse().Times(v)) == v
  {
    var w := OverTimes(j, v, d);
    CramersRule(j, v, d, w.x, w.z);
  }

  lemma CancelFactor(a: real, b: real, d: real)
    requires d != 0.0
    ensures a * d == b * d ==> a == b
  {
    if a * d == b * d {
      assert (a - b) * d == 0.0;
      ProductZero(a - b, d);
    }
  }

  /** The linearised arm moves by exactly the share `k` of the position error. */
  lemma InverseStepExact(m: Libm, position: Vector2, armPosition: Vector2, a: Angles, k: real)
    requires m.Lawful() && Safe(a)
    ensures Jacobian(m, a).Det() != 0.0
    ensures var b, e := Inverse(m, position, armPosition, a, k), position.Minus(armPosition);
            Jacobian(m, a).Times(Vector2(b.right - a.right, b.left - a.left)) == Vector2(k * e.x, k * e.z)
  {
    DeterminantNegative(m, a);
    ScaledStep(Jacobian(m, a), position.Minus(armPosition), a, k);
  }

  lemma ScaledStep(j: Matrix2, e: Vector2, a: Angles, k: real)
    requires j.Det() != 0.0
    ensures var d := j.Inverse().Times(e);
            j.Times(Vector2((a.right + k * d.x) - a.right, (a.left + k * d.z) - a.left)) == Vector2(k * e.x, k * e.z)
  {
    var d := j.Inverse().Times(e);
    InverseCancels(j, e, j.Det());
    TimesScaled(j, d, k);
    assert (a.right + k * d.x) - a.right == k * d.x && (a.left + k * d.z) - a.left == k * d.z;
  }

  lemma TimesScaled(j: Matrix2, v: Vector2, k: real)
    ensures j.Times(Vector2(k * v.x, k * v.z)) == Vector2(k * j.Times(v).x, k * j.Times(v).z)
  {
    assert (k * v.x) * j.xr + (k * v.z) * j.xl == k * (v.x * j.xr + v.z * j.xl);
    assert (k * v.x) * j.zr + (k * v.z) * j.zl == k * (v.x * j.zr + v.z * j.zl);
  }

  // ---------- the Jacobian is the derivative of the forward map ----------

  /** Turning the right motor by `h` moves the tip by its Jacobian column times sin h, up to
      terms with the factor 1 - cos h. */
  lemma RightColumn(m: Libm, a: Angles, h: real)
    requires m.Lawful()
    ensures var p, q, j := Forward(m, a), Forward(m, a.(right := a.right + h)), Jacobian(m, a);
            var r := ZERO.right - a.right;
            && q.x - p.x == j.xr * m.sin(h) - LENGTH * m.cos(r) * (1.0 - m.cos(h))
            && q.z - p.z == j.zr * m.sin(h) - LENGTH * m.sin(r) * (1.0 - m.cos(h))
  {
    var r := ZERO.right - a.right;
    assert m.Sum(r, -h) && m.Parity(h);
    assert ZERO.right - (a.right + h) == r + -h;
  }

  lemma LeftColumn(m: Libm, a: Angles, h: real)
    requires m.Lawful()
    ensures var p, q, j := Forward(m, a), Forward(m, a.(left := a.left + h)), Jacobian(m, a);
            var l := ZERO.left - a.left;
            && q.x - p.x == j.xl * m.sin(h) + LENGTH * m.cos(l) * (1.0 - m.cos(h))
            && q.z - p.z == j.zl * m.sin(h) + LENGTH * m.sin(l) * (1.0 - m.cos(h))
  {
    var l := ZERO.left - a.left;
    assert m.Sum(l, -h) && m.Parity(h);
    assert ZERO.left - (a.left + h) == l + -h;
  }
}
