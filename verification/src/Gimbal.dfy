/** Gimbal targets: how a requested angle becomes one that the gimbal can reach. */
module Gimbal {
  import opened RealMath

  datatype Frame = Chassis | Fixed | Gimbal

  datatype Pair<T> = Pair(yaw: T, pitch: T) {
    function At(i: nat): T
      requires i < 2
    {
      if i == 0 then yaw else pitch
    }

    function With(i: nat, value: T): Pair<T>
      requires i < 2
    {
      if i == 0 then this.(yaw := value) else this.(pitch := value)
    }
  }

  function Deg2Rad(pi: real, value: real): real {
    pi * value / 180.0
  }

  function MinAngle(pi: real, i: nat): real {
    if i == 0 then Deg2Rad(pi, -250.0) else Deg2Rad(pi, -30.0)
  }

  function MaxAngle(pi: real, i: nat): real {
    if i == 0 then Deg2Rad(pi, 250.0) else Deg2Rad(pi, 25.0)
  }

  /** The turn of a servo now at `servo` that brings it to `request` in the fixed frame. */
  function Turn(pi: real, request: real, chassis: real, servo: real, lo: real, hi: real): real
    requires pi > 0.0
  {
    Unwound(pi, Normalize(pi, request - chassis - servo), servo, lo, hi)
  }

  /** A turn by `delta`, or the other way round if that would leave the limits. */
  function Unwound(pi: real, delta: real, servo: real, lo: real, hi: real): real {
    if servo + delta < lo then delta + 2.0 * pi
    else if servo + delta > hi then delta - 2.0 * pi
    else delta
  }

  /** One coordinate of `fixed_angles`. The gimbal frame is looked up in the frame of the yaw,
      whatever the coordinate. */
  function FixedAngle(pi: real, i: nat, request: real, frames: Pair<Frame>, chassis: real, servo: real): real
    requires pi > 0.0 && i < 2
  {
    if frames.At(i) == Chassis then request + chassis
    else if frames.yaw == Gimbal then request + chassis + servo
    else Turn(pi, request, chassis, servo, MinAngle(pi, i), MaxAngle(pi, i)) + chassis + servo
  }

  /** `Gimbal::fixed_angles`. */
  method FixedAngles(pi: real, request: Pair<real>, frames: Pair<Frame>, chassis: Pair<real>, servo: Pair<real>)
    returns (value: Pair<real>)
    requires pi > 0.0
    ensures value.yaw == FixedAngle(pi, 0, request.yaw, frames, chassis.yaw, servo.yaw)
    ensures value.pitch == FixedAngle(pi, 1, request.pitch, frames, chassis.pitch, servo.pitch)
  {
    value := request;
    for i := 0 to 2
      invariant i <= 0 ==> value.yaw == request.yaw
      invariant i <= 1 ==> value.pitch == request.pitch
      invariant i > 0 ==> value.yaw == FixedAngle(pi, 0, request.yaw, frames, chassis.yaw, servo.yaw)
      invariant i > 1 ==> value.pitch == FixedAngle(pi, 1, request.pitch, frames, chassis.pitch, servo.pitch)
    {
      if frames.At(i) == Chassis {
        value := value.With(i, value.At(i) + chassis.At(i));
      } else if frames.yaw == Gimbal {
        value := value.With(i, value.At(i) + chassis.At(i) + servo.At(i));
      } else {
        var delta := Normalize(pi, value.At(i) - chassis.At(i) - servo.At(i));
        if servo.At(i) + delta < MinAngle(pi, i) {
          delta := delta + 2.0 * pi;
        } else if servo.At(i) + delta > MaxAngle(pi, i) {
          delta := delta - 2.0 * pi;
        }
        value := value.With(i, delta + chassis.At(i) + servo.At(i));
      }
    }
  }

  // ---------- requests in the fixed frame ----------

  /** A servo angle that shows the gimbal at `request` in the fixed frame. */
  ghost predicate Shows(pi: real, angle: real, request: real, chassis: real) {
    Congruent(pi, angle + chassis, request)
  }

  /** The turn leads to the requested direction. */
  lemma TurnShows(pi: real, request: real, chassis: real, servo: real, lo: real, hi: real) returns (k: int)
    requires pi > 0.0
    ensures servo + Turn(pi, request, chassis, servo, lo, hi) + chassis == request + Turns(pi, k)
  {
    var j := NormalizeCorrect(pi, request - chassis - servo);
    k := UnwoundByTurns(pi, Normalize(pi, request - chassis - servo), j, servo, lo, hi);
  }

  lemma UnwoundByTurns(pi: real, delta: real, j: int, servo: real, lo: real, hi: real) returns (k: int)
    ensures Unwound(pi, delta, servo, lo, hi) == delta + Turns(pi, k) - Turns(pi, j)
  {
    k := if servo + delta < lo then j + 1 else if servo + delta > hi then j - 1 else j;
    assert (j + 1) as real == j as real + 1.0 && (j - 1) as real == j as real - 1.0;
  }

  /** For every request, chassis yaw and reachable servo yaw, the target in the fixed frame is the
      requested direction, and the servo reaches it within its 250 degrees to either side. */
  lemma FixedYawReachable(pi: real, request: real, frames: Pair<Frame>, chassis: real, servo: real)
    requires pi > 0.0 && frames.yaw == Fixed
    requires MinAngle(pi, 0) <= servo <= MaxAngle(pi, 0)
    ensures var target := FixedAngle(pi, 0, request, frames, chassis, servo);
            && Congruent(pi, target, request)
            && -250.0 * pi / 180.0 <= target - chassis <= 250.0 * pi / 180.0
  {
    var k := TurnShows(pi, request, chassis, servo, MinAngle(pi, 0), MaxAngle(pi, 0));
    var j := NormalizeCorrect(pi, request - chassis - servo);
  }

  /** Of all reachable servo angles that show the requested direction, the one chosen is reached
      by the shortest turn. */
  lemma FixedYawShortest(pi: real, request: real, frames: Pair<Frame>, chassis: real, servo: real, angle: real, n: int)
    requires pi > 0.0 && frames.yaw == Fixed
    requires MinAngle(pi, 0) <= servo <= MaxAngle(pi, 0)
    requires MinAngle(pi, 0) <= angle <= MaxAngle(pi, 0)
    requires angle + chassis == request + Turns(pi, n)
    ensures var target := FixedAngle(pi, 0, request, frames, chassis, servo);
            Abs(target - chassis - servo) <= Abs(angle - servo)
  {
    var j := NormalizeCorrect(pi, request - chassis - servo);
    var delta := Normalize(pi, request - chassis - servo);
    TurnsOrdered(pi, j, n);
  }

  lemma TurnsOrdered(pi: real, j: int, n: int)
    requires pi > 0.0
    ensures n == j ==> Turns(pi, n) == Turns(pi, j)
    ensures n == j + 1 ==> Turns(pi, n) == Turns(pi, j) + 2.0 * pi
    ensures n == j - 1 ==> Turns(pi, n) == Turns(pi, j) - 2.0 * pi
    ensures n >= j + 2 ==> Turns(pi, n) >= Turns(pi, j) + 4.0 * pi
    ensures n <= j - 2 ==> Turns(pi, n) <= Turns(pi, j) - 4.0 * pi
  {
    var d := (n - j) as real;
    assert Turns(pi, n) == Turns(pi, j) + 2.0 * pi * d;
    ProductNonNegative(2.0 * pi, Abs(d - 2.0));
    ProductNonNegative(2.0 * pi, Abs(d + 2.0));
  }

  /** The pitch servo has less than a full turn, so some directions are out of reach: the target
      lies within its limits exactly if any angle within them shows the request. */
  lemma FixedPitchReachable(pi: real, request: real, frames: Pair<Frame>, chassis: real, servo: real)
    requires pi > 0.0 && frames.pitch == Fixed && frames.yaw != Gimbal
    requires MinAngle(pi, 1) <= servo <= MaxAngle(pi, 1)
    ensures var target := FixedAngle(pi, 1, request, frames, chassis, servo);
            && Congruent(pi, target, request)
            && (-30.0 * pi / 180.0 <= target - chassis <= 25.0 * pi / 180.0
                <==> exists angle :: MinAngle(pi, 1) <= angle <= MaxAngle(pi, 1) && Shows(pi, angle, request, chassis))
  {
    var lo, hi := MinAngle(pi, 1), MaxAngle(pi, 1);
    var k := TurnShows(pi, request, chassis, servo, lo, hi);
    var target := FixedAngle(pi, 1, request, frames, chassis, servo);
    if lo <= target - chassis <= hi {
      assert Shows(pi, target - chassis, request, chassis);
    }
    if angle :| lo <= angle <= hi && Shows(pi, angle, request, chassis) {
      var n :| angle + chassis == request + Turns(pi, n);
      NormalizeUnique(pi, request - chassis - servo, angle - servo, n);
    }
  }

  /** The target depends on the requested direction only, not on how many turns it was given with. */
  lemma FixedDependsOnDirection(pi: real, request: real, n: int, chassis: real, servo: real, lo: real, hi: real)
    requires pi > 0.0
    ensures Turn(pi, request + Turns(pi, n), chassis, servo, lo, hi) == Turn(pi, request, chassis, servo, lo, hi)
  {
    NormalizeTurned(pi, request - chassis - servo, request + Turns(pi, n) - chassis - servo, n);
  }

  // ---------- frames ----------

  /** The frames agree: a request relative to the chassis, or to the gimbal itself, leads to the
      same direction as the request that says the same in the fixed frame. */
  lemma FramesAgree(pi: real, request: real, chassis: real, servo: real)
    requires pi > 0.0
    ensures Congruent(pi, FixedAngle(pi, 0, request, Pair(Chassis, Chassis), chassis, servo),
                      FixedAngle(pi, 0, request + chassis, Pair(Fixed, Fixed), chassis, servo))
    ensures Congruent(pi, FixedAngle(pi, 0, request, Pair(Gimbal, Gimbal), chassis, servo),
                      FixedAngle(pi, 0, request + chassis + servo, Pair(Fixed, Fixed), chassis, servo))
  {
    var j := TurnShows(pi, request + chassis, chassis, servo, MinAngle(pi, 0), MaxAngle(pi, 0));
    var k := TurnShows(pi, request + chassis + servo, chassis, servo, MinAngle(pi, 0), MaxAngle(pi, 0));
    TurnedBack(pi, request + chassis, FixedAngle(pi, 0, request + chassis, Pair(Fixed, Fixed), chassis, servo), j);
    TurnedBack(pi, request + chassis + servo,
               FixedAngle(pi, 0, request + chassis + servo, Pair(Fixed, Fixed), chassis, servo), k);
  }

  lemma TurnedBack(pi: real, a: real, b: real, k: int)
    requires b == a + Turns(pi, k)
    ensures Congruent(pi, a, b)
  {
    OppositeTurns(pi, k);
    assert a == b + Turns(pi, -k);
  }

  lemma OppositeTurns(pi: real, k: int)
    ensures Turns(pi, -k) == -Turns(pi, k)
  {
    assert (-k) as real == -(k as real);
  }

  /** What the target means, for every coordinate and all frames: the angle of the servo is the request
      if its frame is the chassis; it differs from the present one by the request if the yaw frame is
      the gimbal; and otherwise it shows the gimbal in the requested direction. */
  lemma TargetMeans(pi: real, i: nat, request: real, frames: Pair<Frame>, chassis: real, servo: real)
    requires pi > 0.0 && i < 2
    ensures var angle := FixedAngle(pi, i, request, frames, chassis, servo) - chassis;
            && (frames.At(i) == Chassis ==> angle == request)
            && (frames.At(i) != Chassis && frames.yaw == Gimbal ==> angle - servo == request)
            && (frames.At(i) != Chassis && frames.yaw != Gimbal ==> Shows(pi, angle, request, chassis))
  {
    var k := TurnShows(pi, request, chassis, servo, MinAngle(pi, i), MaxAngle(pi, i));
  }

  /** What the coordinate would be if its own frame were looked up. */
  function OwnFrameAngle(pi: real, i: nat, request: real, frame: Frame, chassis: real, servo: real): real
    requires pi > 0.0 && i < 2
  {
    FixedAngle(pi, i, request, Pair(frame, frame), chassis, servo)
  }

  /** Every coordinate is interpreted in its own frame, whatever the angles, exactly if the pitch
      frame is the chassis, or both frames agree on being the gimbal. */
  lemma OwnFrames(pi: real, frames: Pair<Frame>)
    requires 3.14 < pi < 3.15
    ensures (forall request, chassis, servo ::
               FixedAngle(pi, 1, request, frames, chassis, servo)
               == OwnFrameAngle(pi, 1, request, frames.pitch, chassis, servo))
       <==> frames.pitch == Chassis || (frames.yaw == Gimbal <==> frames.pitch == Gimbal)
    ensures forall request, chassis, servo ::
              FixedAngle(pi, 0, request, frames, chassis, servo)
              == OwnFrameAngle(pi, 0, request, frames.yaw, chassis, servo)
  {
    if frames.pitch != Chassis && (frames.yaw == Gimbal) != (frames.pitch == Gimbal) {
      // A request of 0 with the servo at 0.1: the gimbal frame gives 0.1, the fixed frame 0.
      NormalizeUnique(pi, -0.1, -0.1, 0);
      assert FixedAngle(pi, 1, 0.0, frames, 0.0, 0.1) != OwnFrameAngle(pi, 1, 0.0, frames.pitch, 0.0, 0.1);
    }
  }
}
