/** Real arithmetic in the role of the source's floats, and the part of the C math library
    that the robot uses. */
module RealMath {

  function Min(a: real, b: real): real {
    if a < b then a else b
  }

  function Max(a: real, b: real): real {
    if a < b then b else a
  }

  function Abs(a: real): real {
    if a < 0.0 then -a else a
  }

  /** `std::clamp`. */
  function Clamp(v: real, lo: real, hi: real): real
    requires lo <= hi
  {
    if v < lo then lo else if hi < v then hi else v
  }

  ghost function Total(xs: seq<real>): real
    decreases |xs|
  {
    if xs == [] then 0.0 else xs[0] + Total(xs[1..])
  }

  /** sin, cos, sqrt and pi. Reals have no such functions built in, so they are a parameter; a
      library is lawful if it obeys the identities that sine, cosine and square root are known
      by. Each law is a predicate of its arguments, instantiated where it is needed. */
  datatype Libm = Libm(sin: real -> real, cos: real -> real, sqrt: real -> real, pi: real) {

    ghost predicate Circle(x: real) {
      sin(x) * sin(x) + cos(x) * cos(x) == 1.0
    }

    ghost predicate Parity(x: real) {
      sin(-x) == -sin(x) && cos(-x) == cos(x)
    }

    ghost predicate Sum(x: real, y: real) {
      && sin(x + y) == sin(x) * cos(y) + cos(x) * sin(y)
      && cos(x + y) == cos(x) * cos(y) - sin(x) * sin(y)
    }

    ghost predicate UpperHalf(x: real) {
      0.0 < x < pi ==> sin(x) > 0.0
    }

    ghost predicate Root(x: real) {
      0.0 <= x ==> sqrt(x) >= 0.0 && sqrt(x) * sqrt(x) == x
    }

    ghost predicate Lawful() {
      && 3.14 < pi < 3.15
      && (forall x :: Circle(x))
      && (forall x :: Parity(x))
      && (forall x, y :: Sum(x, y))
      && (forall x :: UpperHalf(x))
      && (forall x :: Root(x))
    }
  }

  lemma ProductZero(a: real, b: real)
    requires a * b == 0.0
    ensures a == 0.0 || b == 0.0
  {}

  /** Nonnegative numbers with equal squares are equal. */
  lemma SquareInjective(a: real, b: real)
    requires a >= 0.0 && b >= 0.0 && a * a == b * b
    ensures a == b
  {
    assert (a - b) * (a + b) == a * a - b * b;
    ProductZero(a - b, a + b);
  }

  lemma SquareMonotone(a: real, b: real)
    requires a >= 0.0 && b >= 0.0
    ensures a < b <==> a * a < b * b
  {
    assert a * a - b * b == (a - b) * (a + b);
    if a < b {
      ProductPositive(b - a, a + b);
      assert (b - a) * (a + b) == b * b - a * a;
    } else if b < a {
      ProductPositive(a - b, a + b);
    }
  }

  lemma SquareNonNegative(a: real)
    ensures a * a >= 0.0
  {}

  /** The length of a vector. */
  function Hypot(m: Libm, x: real, y: real): real {
    m.sqrt(x * x + y * y)
  }

  lemma HypotSquare(m: Libm, x: real, y: real)
    requires m.Lawful()
    ensures Hypot(m, x, y) >= 0.0
    ensures Hypot(m, x, y) * Hypot(m, x, y) == x * x + y * y
  {
    var s := x * x + y * y;
    SquareNonNegative(x);
    SquareNonNegative(y);
    assert m.Root(s);
  }

  lemma HypotUnique(m: Libm, x: real, y: real, d: real)
    requires m.Lawful() && d >= 0.0 && d * d == x * x + y * y
    ensures Hypot(m, x, y) == d
  {
    HypotSquare(m, x, y);
    SquareInjective(Hypot(m, x, y), d);
  }

  lemma SquareScaled(k: real, a: real, b: real, d: real)
    requires d * d == a * a + b * b
    ensures (k * d) * (k * d) == (k * a) * (k * a) + (k * b) * (k * b)
  {
    assert (k * d) * (k * d) == (k * k) * (d * d);
    assert (k * a) * (k * a) == (k * k) * (a * a) && (k * b) * (k * b) == (k * k) * (b * b);
  }

  lemma HypotScaled(m: Libm, x: real, y: real, k: real)
    requires m.Lawful() && k >= 0.0
    ensures Hypot(m, k * x, k * y) == k * Hypot(m, x, y)
  {
    var d := Hypot(m, x, y);
    HypotSquare(m, x, y);
    SquareScaled(k, x, y, d);
    ProductNonNegative(k, d);
    HypotUnique(m, k * x, k * y, k * d);
  }

  lemma ProductPositive(a: real, b: real)
    requires a > 0.0 && b > 0.0
    ensures a * b > 0.0
  {}

  lemma ProductNonNegative(a: real, b: real)
    requires a >= 0.0 && b >= 0.0
    ensures a * b >= 0.0
  {}

  // ---------- angles ----------

  /** `fmod`: the remainder of a division truncated towards zero. */
  function Fmod(x: real, m: real): real
    requires m > 0.0
  {
    if x >= 0.0 then x - m * (x / m).Floor as real else x + m * (-x / m).Floor as real
  }

  /** `normalize` of utils.hpp. */
  function Normalize(pi: real, value: real): real
    requires pi > 0.0
  {
    var v := Fmod(value + pi, 2.0 * pi);
    (if v < 0.0 then v + 2.0 * pi else v) - pi
  }

  ghost function Turns(pi: real, k: int): real {
    2.0 * pi * k as real
  }

  ghost predicate Congruent(pi: real, a: real, b: real) {
    exists k: int :: a == b + Turns(pi, k)
  }

  lemma FmodBounds(x: real, m: real) returns (k: int)
    requires m > 0.0
    ensures Fmod(x, m) == x + m * k as real
    ensures if x >= 0.0 then 0.0 <= Fmod(x, m) < m else -m < Fmod(x, m) <= 0.0
  {
    if x >= 0.0 {
      FloorBounds(x / m);
      ScaleBounds(x, m, (x / m).Floor as real, x / m - (x / m).Floor as real);
      k := -(x / m).Floor;
    } else {
      FloorBounds(-x / m);
      ScaleBounds(-x, m, (-x / m).Floor as real, -x / m - (-x / m).Floor as real);
      k := (-x / m).Floor;
    }
  }

  lemma FloorBounds(q: real)
    ensures 0.0 <= q - q.Floor as real < 1.0
  {}

  lemma ScaleBounds(x: real, m: real, y: real, a: real)
    requires m > 0.0 && 0.0 <= a < 1.0 && x == m * (y + a)
    ensures 0.0 <= x - m * y < m
  {
    assert x == m * y + m * a;
    ProductNonNegative(m, a);
    ProductPositive(m, 1.0 - a);
    assert m * (1.0 - a) == m - m * a;
  }

  /** The angle is brought into [-pi, pi) by whole turns. */
  lemma NormalizeCorrect(pi: real, value: real) returns (k: int)
    requires pi > 0.0
    ensures -pi <= Normalize(pi, value) < pi
    ensures Normalize(pi, value) == value + Turns(pi, k)
  {
    var j := FmodBounds(value + pi, 2.0 * pi);
    var v := Fmod(value + pi, 2.0 * pi);
    k := if v < 0.0 then j + 1 else j;
    assert 2.0 * pi * (j + 1) as real == 2.0 * pi * j as real + 2.0 * pi;
  }

  lemma ScaleAtLeastOne(a: real, d: real)
    requires a > 0.0
    ensures d >= 1.0 ==> a * d >= a
    ensures d <= -1.0 ==> a * d <= -a
  {
    assert a * (d - 1.0) == a * d - a && a * (d + 1.0) == a * d + a;
  }

  lemma TurnsApart(pi: real, j: int, k: int)
    requires pi > 0.0 && -2.0 * pi < Turns(pi, j) - Turns(pi, k) < 2.0 * pi
    ensures j == k
  {
    var d := (j - k) as real;
    assert Turns(pi, j) - Turns(pi, k) == 2.0 * pi * d;
    ScaleAtLeastOne(2.0 * pi, d);
  }

  /** `normalize` is the only representative of its angle in [-pi, pi). */
  lemma NormalizeUnique(pi: real, value: real, w: real, j: int)
    requires pi > 0.0 && -pi <= w < pi && w == value + Turns(pi, j)
    ensures w == Normalize(pi, value)
  {
    var k := NormalizeCorrect(pi, value);
    TurnsApart(pi, j, k);
  }

  /** Whole turns do not matter. */
  lemma NormalizeTurned(pi: real, value: real, turned: real, n: int)
    requires pi > 0.0 && turned == value + Turns(pi, n)
    ensures Normalize(pi, turned) == Normalize(pi, value)
  {
    var j := NormalizeCorrect(pi, value);
    assert Turns(pi, j) == Turns(pi, n) + Turns(pi, j - n);
    NormalizeUnique(pi, turned, Normalize(pi, value), j - n);
  }

  lemma NormalizeShrinks(pi: real, value: real)
    requires pi > 0.0
    ensures Abs(Normalize(pi, value)) <= Abs(value)
  {
    var k := NormalizeCorrect(pi, value);
    if -pi <= value < pi {
      NormalizeUnique(pi, value, value, 0);
    }
  }
}
