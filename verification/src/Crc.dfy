/** The bit-serial shift register of Appendix C of RFC 1662, for any width.

    A register is a sequence of bits, lowest first; `f` is the reflected feedback polynomial.
    Every step takes one message bit. The checksums of the protocol are tied to this register
    in `CrcTables`; here is what the register promises for messages of every length.
 */
module Crc {

  /** A polynomial whose highest bit is set, which makes every step invertible. */
  ghost predicate Polynomial(f: seq<bool>) {
    f != [] && f[|f| - 1]
  }

  ghost function Step(f: seq<bool>, x: seq<bool>): (y: seq<bool>)
    requires 0 < |x| == |f|
    ensures |y| == |f|
  {
    seq(|f|, i requires 0 <= i < |f| => (i + 1 < |f| && x[i + 1]) != (x[0] && f[i]))
  }

  /** Xor the bits of `u` into the low end of the register. */
  ghost function Inject(x: seq<bool>, u: seq<bool>): (y: seq<bool>)
    ensures |y| == |x|
  {
    seq(|x|, i requires 0 <= i < |x| => x[i] != (i < |u| && u[i]))
  }

  /** The register after the message bits, starting from `c`. */
  ghost function Serial(f: seq<bool>, c: seq<bool>, bits: seq<bool>): (y: seq<bool>)
    requires 0 < |c| == |f|
    ensures |y| == |f|
    decreases |bits|
  {
    if bits == [] then c else Serial(f, Step(f, Inject(c, bits[..1])), bits[1..])
  }

  /** `n` steps without input. */
  ghost function Iter(f: seq<bool>, n: nat, x: seq<bool>): (y: seq<bool>)
    requires 0 < |x| == |f|
    ensures |y| == |f|
  {
    if n == 0 then x else Iter(f, n - 1, Step(f, x))
  }

  /** The top bit of the new register tells whether the feedback was taken. */
  lemma StepInjective(f: seq<bool>, a: seq<bool>, b: seq<bool>)
    requires Polynomial(f) && |a| == |b| == |f|
    requires Step(f, a) == Step(f, b)
    ensures a == b
  {
    var n := |f|;
    assert Step(f, a)[n - 1] == a[0] && Step(f, b)[n - 1] == b[0];
    forall i | 0 < i < n
      ensures a[i] == b[i]
    {
      assert Step(f, a)[i - 1] == Step(f, b)[i - 1];
    }
  }

  lemma InjectInjective(a: seq<bool>, b: seq<bool>, u: seq<bool>, v: seq<bool>)
    requires |a| == |b| && |u| == |v| <= |a|
    requires Inject(a, u) == Inject(b, v)
    ensures a == b <==> u == v
  {
    forall i | 0 <= i < |a|
      ensures a[i] == b[i] <==> (i < |u| ==> u[i] == v[i])
    {
      assert Inject(a, u)[i] == Inject(b, v)[i];
    }
    if a == b {
      forall i | 0 <= i < |u|
        ensures u[i] == v[i]
      {
        assert a[i] == b[i];
      }
    }
  }

  lemma {:induction false} IterInjective(f: seq<bool>, n: nat, a: seq<bool>, b: seq<bool>)
    requires Polynomial(f) && |a| == |b| == |f|
    requires Iter(f, n, a) == Iter(f, n, b)
    ensures a == b
  {
    if n > 0 {
      IterInjective(f, n - 1, Step(f, a), Step(f, b));
      StepInjective(f, a, b);
    }
  }

  /** Feeding up to a register width of bits one at a time is xoring them in at once and
      then stepping. */
  lemma {:induction false} SerialIsIter(f: seq<bool>, c: seq<bool>, bits: seq<bool>)
    requires 0 < |c| == |f| && |bits| <= |f|
    ensures Serial(f, c, bits) == Iter(f, |bits|, Inject(c, bits))
    decreases |bits|
  {
    if bits == [] {
      assert Inject(c, bits) == c;
    } else {
      var d := Step(f, Inject(c, bits[..1]));
      SerialIsIter(f, d, bits[1..]);
      assert Inject(d, bits[1..]) == Step(f, Inject(c, bits));
    }
  }

  lemma {:induction false} SerialAppend(f: seq<bool>, c: seq<bool>, u: seq<bool>, v: seq<bool>)
    requires 0 < |c| == |f|
    ensures Serial(f, c, u + v) == Serial(f, Serial(f, c, u), v)
    decreases |u|
  {
    if u == [] {
      assert u + v == v;
    } else {
      assert (u + v)[1..] == u[1..] + v && (u + v)[..1] == u[..1];
      SerialAppend(f, Step(f, Inject(c, u[..1])), u[1..], v);
    }
  }

  /** A difference in the register is never forgotten. */
  lemma {:induction false} SerialInjective(f: seq<bool>, a: seq<bool>, b: seq<bool>, bits: seq<bool>)
    requires Polynomial(f) && |a| == |b| == |f|
    requires Serial(f, a, bits) == Serial(f, b, bits)
    ensures a == b
    decreases |bits|
  {
    if bits != [] {
      var x, y := Inject(a, bits[..1]), Inject(b, bits[..1]);
      SerialInjective(f, Step(f, x), Step(f, y), bits[1..]);
      StepInjective(f, x, y);
      InjectInjective(a, b, bits[..1], bits[..1]);
    }
  }

  /** Within one register width the register determines the message. */
  lemma WindowDetected(f: seq<bool>, c: seq<bool>, u: seq<bool>, v: seq<bool>)
    requires Polynomial(f) && |c| == |f|
    requires |u| == |v| <= |f|
    ensures Serial(f, c, u) == Serial(f, c, v) <==> u == v
  {
    if Serial(f, c, u) == Serial(f, c, v) {
      SerialIsIter(f, c, u);
      SerialIsIter(f, c, v);
      IterInjective(f, |u|, Inject(c, u), Inject(c, v));
      InjectInjective(c, c, u, v);
    }
  }

  lemma SerialThrough(f: seq<bool>, c: seq<bool>, pre: seq<bool>, u: seq<bool>, post: seq<bool>)
    requires 0 < |c| == |f|
    ensures Serial(f, c, pre + u + post) == Serial(f, Serial(f, Serial(f, c, pre), u), post)
  {
    SerialAppend(f, c, pre + u, post);
    SerialAppend(f, c, pre, u);
  }

  lemma DifferenceKept(f: seq<bool>, s: seq<bool>, u: seq<bool>, v: seq<bool>, post: seq<bool>)
    requires Polynomial(f) && |s| == |f|
    requires |u| == |v| <= |f|
    ensures Serial(f, Serial(f, s, u), post) == Serial(f, Serial(f, s, v), post) <==> u == v
  {
    WindowDetected(f, s, u, v);
    if Serial(f, Serial(f, s, u), post) == Serial(f, Serial(f, s, v), post) {
      SerialInjective(f, Serial(f, s, u), Serial(f, s, v), post);
    }
  }

  /** Burst detection, for every message length: two bit strings of equal length that agree
      outside a window no wider than the register have equal checksums only if they are equal. */
  lemma BurstDetected(f: seq<bool>, c: seq<bool>, pre: seq<bool>, u: seq<bool>, v: seq<bool>, post: seq<bool>)
    requires Polynomial(f) && |c| == |f|
    requires |u| == |v| <= |f|
    ensures Serial(f, c, pre + u + post) == Serial(f, c, pre + v + post) <==> u == v
  {
    SerialThrough(f, c, pre, u, post);
    SerialThrough(f, c, pre, v, post);
    DifferenceKept(f, Serial(f, c, pre), u, v, post);
  }

  // ---------- linearity ----------

  ghost function Xor(x: seq<bool>, y: seq<bool>): (z: seq<bool>)
    requires |x| == |y|
    ensures |z| == |x|
  {
    seq(|x|, i requires 0 <= i < |x| => x[i] != y[i])
  }

  lemma {:induction false} IterLinear(f: seq<bool>, n: nat, x: seq<bool>, y: seq<bool>)
    requires 0 < |x| == |y| == |f|
    ensures Iter(f, n, Xor(x, y)) == Xor(Iter(f, n, x), Iter(f, n, y))
  {
    if n > 0 {
      assert Step(f, Xor(x, y)) == Xor(Step(f, x), Step(f, y));
      IterLinear(f, n - 1, Step(f, x), Step(f, y));
    }
  }

  ghost function Drop(x: seq<bool>, n: nat): (y: seq<bool>)
    ensures |y| == |x|
  {
    seq(|x|, i requires 0 <= i < |x| => i + n < |x| && x[i + n])
  }

  /** As long as only zeros leave the register, a step is a shift. */
  lemma {:induction false} IterDrops(f: seq<bool>, n: nat, x: seq<bool>)
    requires 0 < |x| == |f| && n <= |f|
    requires forall i | 0 <= i < n :: !x[i]
    ensures Iter(f, n, x) == Drop(x, n)
  {
    if n == 0 {
      assert Drop(x, 0) == x;
    } else {
      assert Step(f, x) == Drop(x, 1);
      IterDrops(f, n - 1, Drop(x, 1));
      assert Drop(Drop(x, 1), n - 1) == Drop(x, n);
    }
  }

  ghost function Low(x: seq<bool>, n: nat): (y: seq<bool>)
    ensures |y| == |x|
  {
    seq(|x|, i requires 0 <= i < |x| => i < n && x[i])
  }

  ghost function High(x: seq<bool>, n: nat): (y: seq<bool>)
    ensures |y| == |x|
  {
    seq(|x|, i requires 0 <= i < |x| => i >= n && x[i])
  }

  lemma SplitAt(x: seq<bool>, n: nat)
    ensures x == Xor(High(x, n), Low(x, n))
    ensures Drop(High(x, n), n) == Drop(x, n)
  {}

  /** The byte-wise update of a register: shift the low bits out, and xor in what they alone
      would have become. */
  lemma IterByPart(f: seq<bool>, n: nat, x: seq<bool>)
    requires 0 < |x| == |f| && n <= |f|
    ensures Iter(f, n, x) == Xor(Drop(x, n), Iter(f, n, Low(x, n)))
  {
    SplitAt(x, n);
    IterLinear(f, n, High(x, n), Low(x, n));
    IterDrops(f, n, High(x, n));
  }

  lemma InjectPadded(x: seq<bool>, u: seq<bool>, z: seq<bool>)
    requires |u| <= |x|
    requires z == u + Zeros(|x| - |u|)
    ensures Inject(x, u) == Xor(x, z)
  {}

  /** A register that equals the next bits of the message is emptied by them. */
  lemma OwnBitsClear(f: seq<bool>, c: seq<bool>)
    requires Polynomial(f) && |c| == |f|
    ensures Serial(f, c, c) == Zeros(|f|)
  {
    SerialIsIter(f, c, c);
    assert Inject(c, c) == Zeros(|f|);
    IterZero(f, |f|);
  }

  ghost function Zeros(n: nat): (z: seq<bool>)
    ensures |z| == n
  {
    seq(n, _ => false)
  }

  lemma {:induction false} IterZero(f: seq<bool>, n: nat)
    requires f != []
    ensures Iter(f, n, Zeros(|f|)) == Zeros(|f|)
  {
    if n > 0 {
      assert Step(f, Zeros(|f|)) == Zeros(|f|);
      IterZero(f, n - 1);
    }
  }

  /** A full register of bits empties the register exactly when they equal its contents. */
  lemma ResidueZero(f: seq<bool>, c: seq<bool>, u: seq<bool>)
    requires Polynomial(f) && |c| == |u| == |f|
    ensures Serial(f, c, u) == Zeros(|f|) <==> u == c
  {
    OwnBitsClear(f, c);
    WindowDetected(f, c, u, c);
  }
}
