/** The times that a move of the base reports: how long it takes at full speed, which is never longer
    than it really takes. */
module MoveTimes {
  import opened RealMath
  import opened Kinematics
  import opened Controllable
  import opened Wrappers
  import opened BaseMotion
  import opened MoveProof
  import opened ActionStates

  /** The longer one of the times for a distance and for a turn. */
  ghost function LongerTime(d: real, e: real, v: real, w: real): real
    requires v > 0.0 && w > 0.0
  {
    Max(e / w, d / v)
  }

  lemma LongerTimeLeast(d: real, e: real, v: real, w: real, time: real)
    requires v > 0.0 && w > 0.0
    ensures LongerTime(d, e, v, w) <= time <==> d <= v * time && e <= w * time
  {
    QuotientAtMost(d, v, time);
    QuotientAtMost(e, w, time);
  }

  /** The least time in which the distance and the turn can be covered at the two speeds. */
  lemma TimeToGoalLeast(m: Libm, g: Pose2D, v: real, w: real, time: real)
    requires m.pi > 0.0 && v > 0.0 && w > 0.0
    ensures TimeToGoal(m, g, v, w) <= time <==> g.Distance(m) <= v * time && Abs(Normalize(m.pi, g.theta)) <= w * time
  {
    LongerTimeLeast(g.Distance(m), Abs(Normalize(m.pi, g.theta)), v, w, time);
  }

  lemma QuotientAtMost(a: real, b: real, q: real)
    requires b > 0.0
    ensures a / b <= q <==> a <= b * q
  {
    var d := q - a / b;
    assert b * d == b * q - a by {
      assert (a / b) * b == a;
    }
    if d >= 0.0 {
      ProductNonNegative(b, d);
    } else {
      ProductPositive(b, -d);
      assert b * -d == -(b * d);
    }
  }

  // ---------- no move is faster than announced ----------

  /** Normalising gives the smallest turn that leads to the same heading. */
  lemma NormalizeSmallest(pi: real, value: real, n: int)
    requires pi > 0.0
    ensures Abs(Normalize(pi, value)) <= Abs(value + Turns(pi, n))
  {
    NormalizeTurned(pi, value, value + Turns(pi, n), n);
    NormalizeShrinks(pi, value + Turns(pi, n));
  }

  /** A turn changes the normalised error by no more than itself. */
  lemma NormalizeLipschitz(pi: real, a: real, b: real)
    requires pi > 0.0
    ensures Abs(Normalize(pi, a)) <= Abs(Normalize(pi, b)) + Abs(a - b)
  {
    var k := NormalizeCorrect(pi, b);
    NormalizeSmallest(pi, a, k);
  }

  lemma AtMostSpeed(dt: real, x: real, v: real)
    requires dt > 0.0 && x >= 0.0 && v > 0.0
    ensures 0.0 <= dt * Min(x / TAU, v) <= v * dt
  {
    ProductNonNegative(dt, Min(x / TAU, v));
    ProductNonNegative(dt, v - Min(x / TAU, v));
    assert dt * (v - Min(x / TAU, v)) == v * dt - dt * Min(x / TAU, v);
  }

  lemma TurnAtMost(e: real, dt: real, w: real)
    requires dt > 0.0 && w > 0.0
    ensures Abs(dt * Clamp(e / TAU, -w, w)) <= w * dt
  {
    var c := Clamp(e / TAU, -w, w);
    ProductNonNegative(dt, w - c);
    ProductNonNegative(dt, w + c);
    assert dt * (w - c) == w * dt - dt * c && dt * (w + c) == w * dt + dt * c;
  }

  /** The time to the goal `g` from pose `p`. */
  ghost function TimeLeft(m: Libm, g: Pose2D, p: Pose2D, v: real, w: real): real
    requires m.pi > 0.0 && v > 0.0 && w > 0.0
  {
    TimeToGoal(m, g.RelativeTo(m, p), v, w)
  }

  lemma MoreTime(a: real, a': real, v: real, t: real, dt: real)
    requires a <= a' + v * dt && a' <= v * t
    ensures a <= v * (t + dt)
  {}

  lemma LongerBound(d: real, e: real, d': real, e': real, v: real, w: real, dt: real)
    requires v > 0.0 && w > 0.0 && d <= d' + v * dt && e <= e' + w * dt
    ensures LongerTime(d, e, v, w) <= LongerTime(d', e', v, w) + dt
  {
    var t := LongerTime(d', e', v, w);
    LongerTimeLeast(d', e', v, w, t);
    MoreTime(d, d', v, t, dt);
    MoreTime(e, e', w, t, dt);
    LongerTimeLeast(d, e, v, w, t + dt);
  }

  lemma LowerBound(m: Libm, g: Pose2D, g': Pose2D, v: real, w: real, dt: real)
    requires m.pi > 0.0 && v > 0.0 && w > 0.0
    requires g.Distance(m) <= g'.Distance(m) + v * dt
    requires Abs(Normalize(m.pi, g.theta)) <= Abs(Normalize(m.pi, g'.theta)) + w * dt
    ensures TimeToGoal(m, g, v, w) <= TimeToGoal(m, g', v, w) + dt
  {
    LongerBound(g.Distance(m), Abs(Normalize(m.pi, g.theta)), g'.Distance(m), Abs(Normalize(m.pi, g'.theta)), v, w, dt);
  }

  lemma GapFell(d: real, d': real, v: real, dt: real)
    requires dt > 0.0 && v > 0.0 && GapShrunk(d, d', v, dt)
    ensures d <= d' + v * dt
  {
    AtMostSpeed(dt, d, v);
  }

  /** In one step the heading changes by no more than the angular speed allows. */
  lemma TurnDriven(m: Libm, g: Pose2D, p: Pose2D, v: real, w: real, dt: real)
    requires dt > 0.0 && w > 0.0
    ensures var p' := Driven(m, p, Command(m, g.RelativeTo(m, p), v, w), dt);
            Abs(Turn(g, p) - Turn(g, p')) <= w * dt
  {
    var e := g.RelativeTo(m, p).theta;
    TurnAtMost(e, dt, w);
    assert Command(m, g.RelativeTo(m, p), v, w).theta == Clamp(e / TAU, -w, w);
  }

  lemma DrivenTimeLeft(m: Libm, g: Pose2D, p: Pose2D, p': Pose2D, v: real, w: real, dt: real)
    requires m.Lawful() && v > 0.0 && w > 0.0 && dt > 0.0
    requires Gap(m, g, p) <= Gap(m, g, p') + v * dt && Abs(Turn(g, p) - Turn(g, p')) <= w * dt
    ensures TimeLeft(m, g, p, v, w) <= TimeLeft(m, g, p', v, w) + dt
  {
    ErrorsSeenFromRobot(m, g, p);
    ErrorsSeenFromRobot(m, g, p');
    NormalizeLipschitz(m.pi, Turn(g, p), Turn(g, p'));
    LowerBound(m, g.RelativeTo(m, p), g.RelativeTo(m, p'), v, w, dt);
  }

  /** The time to the goal never falls faster than time goes by. */
  lemma StepTimeLeft(m: Libm, s: BaseState, g: Pose2D, v: real, w: real, dt: real)
    requires m.Lawful() && Tracking(m, s, g, v, w) && 0.0 < dt <= TAU
    ensures TimeLeft(m, g, s.chassis.pose, v, w) <= TimeLeft(m, g, AfterBaseStep(m, s, dt).chassis.pose, v, w) + dt
  {
    var p := s.chassis.pose;
    var s' := TrackingStep(m, s, g, v, w, dt);
    LoopStep(m, s, g, v, w, dt);
    GapFell(Gap(m, g, p), Gap(m, g, s'.chassis.pose), v, dt);
    TurnDriven(m, g, p, v, w, dt);
    DrivenTimeLeft(m, g, p, s'.chassis.pose, v, w, dt);
  }

  lemma {:induction false} RunTimeLeft(m: Libm, s: BaseState, g: Pose2D, v: real, w: real, dts: seq<real>)
    requires m.Lawful() && Tracking(m, s, g, v, w) && StepSizes(dts)
    ensures TimeLeft(m, g, s.chassis.pose, v, w) <= TimeLeft(m, g, Run(m, s, dts).chassis.pose, v, w) + Total(dts)
    decreases |dts|
  {
    if dts != [] {
      var s' := TrackingStep(m, s, g, v, w, dts[0]);
      StepTimeLeft(m, s, g, v, w, dts[0]);
      if Arrived(m, s', g) {
        ArrivedStays(m, s', g, dts[1..]);
        TotalNonNegative(dts[1..]);
      } else {
        RunTimeLeft(m, s', g, v, w, dts[1..]);
      }
    }
  }

  lemma {:induction false} TotalNonNegative(dts: seq<real>)
    requires StepSizes(dts)
    ensures Total(dts) >= 0.0
    decreases |dts|
  {
    if dts != [] {
      TotalNonNegative(dts[1..]);
    }
  }

  lemma Slack(a: real, v: real, u: real)
    requires 0.0 < u <= v && a <= TOLERANCE
    ensures a <= v * (TOLERANCE / u)
  {
    var q := TOLERANCE / u;
    assert q * u == TOLERANCE;
    PositiveQuotient(q, u);
    ProductNonNegative(v - u, q);
    assert (v - u) * q == v * q - u * q;
  }

  lemma PositiveQuotient(q: real, u: real)
    requires u > 0.0 && q * u == TOLERANCE
    ensures q > 0.0
  {
    if q <= 0.0 {
      ProductNonNegative(-q, u);
    }
  }

  lemma LongerSlack(d: real, e: real, v: real, w: real)
    requires v > 0.0 && w > 0.0 && d <= TOLERANCE && e <= TOLERANCE
    ensures LongerTime(d, e, v, w) <= TOLERANCE / Min(v, w)
  {
    Slack(d, v, Min(v, w));
    Slack(e, w, Min(v, w));
    LongerTimeLeast(d, e, v, w, TOLERANCE / Min(v, w));
  }

  lemma ArrivedTimeLeft(m: Libm, g: Pose2D, p: Pose2D, v: real, w: real)
    requires m.Lawful() && v > 0.0 && w > 0.0 && g.RelativeTo(m, p).Norm(m) < TOLERANCE
    ensures TimeLeft(m, g, p, v, w) <= TOLERANCE / Min(v, w)
  {
    var r := g.RelativeTo(m, p);
    HypotSquare(m, r.x, r.y);
    LongerSlack(r.Distance(m), Abs(Normalize(m.pi, r.theta)), v, w);
  }

  // ---------- what the action reports ----------

  /** Any step that goes on reports the time left from where the robot then is; the announced
      duration is the first one reported, and is not touched again. */
  lemma TimesReported(m: Libm, s: BaseState, dt: real)
    requires m.Lawful() && ValidBase(s) && s.move.Some? && (s.move.value.state == Started || s.move.value.state == Running)
    ensures var a, s' := s.move.value, AfterBaseStep(m, s, dt);
            s'.move.Some? ==>
              var b := s'.move.value;
              && b.remaining == TimeLeft(m, b.goalOdom, s'.chassis.pose, a.linearSpeed, a.angularSpeed)
              && b.predicted == if a.state == Started then b.remaining else a.predicted
  {}

  /** An action that succeeds has no time left. */
  lemma SuccessHasNoTimeLeft(m: Libm, a: MoveState, c: ChassisState)
    requires m.pi > 0.0 && a.Valid() && !a.Done() && AfterMoveStep(m, a, c).0.Done()
    ensures AfterMoveStep(m, a, c).0.remaining == 0.0
  {}

  lemma {:induction false} PredictedStays(m: Libm, s: BaseState, g: Pose2D, v: real, w: real, dts: seq<real>)
    requires m.Lawful() && Tracking(m, s, g, v, w) && StepSizes(dts)
    ensures var s' := Run(m, s, dts);
            s'.move.Some? ==> s'.move.value.predicted == s.move.value.predicted
    decreases |dts|
  {
    if dts != [] {
      var s' := TrackingStep(m, s, g, v, w, dts[0]);
      TimesReported(m, s, dts[0]);
      if Arrived(m, s', g) {
        ArrivedStays(m, s', g, dts[1..]);
      } else {
        PredictedStays(m, s', g, v, w, dts[1..]);
      }
    }
  }

  /** The announced duration of a move is a lower bound up to the tolerance: an accepted move that
      does not arrive in its first step announces a duration, keeps to it, and the steps after which
      it has arrived last at least as long, less the time that the tolerance takes. */
  lemma NeverEarly(m: Libm, s: BaseState, goal: Pose2D, v: real, w: real, dts: seq<real>) returns (first: BaseState, end: BaseState)
    requires m.Lawful() && Accepted(m, s, goal, v, w) && StepSizes(dts) && dts != []
    requires AfterBaseStep(m, s, dts[0]).move.Some?
    ensures first == AfterBaseStep(m, s, dts[0]) && first.move.Some? && end == Run(m, s, dts)
    ensures end.move.Some? ==> end.move.value.predicted == first.move.value.predicted
    ensures end.move == None ==> Total(dts[1..]) >= first.move.value.predicted - TOLERANCE / Min(v, w)
  {
    var g;
    first, g := FirstStep(m, s, goal, v, w, dts[0]);
    end := Run(m, first, dts[1..]);
    TimesReported(m, s, dts[0]);
    PredictedStays(m, first, g, v, w, dts[1..]);
    RunTimeLeft(m, first, g, v, w, dts[1..]);
    RunTracksOrArrives(m, first, g, v, w, dts[1..]);
    if end.move == None {
      ArrivedTimeLeft(m, g, end.chassis.pose, v, w);
    }
  }

  lemma {:induction false} RunTracksOrArrives(m: Libm, s: BaseState, g: Pose2D, v: real, w: real, dts: seq<real>)
    requires m.Lawful() && Tracking(m, s, g, v, w) && StepSizes(dts)
    ensures Tracking(m, Run(m, s, dts), g, v, w) || Arrived(m, Run(m, s, dts), g)
    decreases |dts|
  {
    if dts != [] {
      var s' := TrackingStep(m, s, g, v, w, dts[0]);
      if Arrived(m, s', g) {
        ArrivedStays(m, s', g, dts[1..]);
      } else {
        RunTracksOrArrives(m, s', g, v, w, dts[1..]);
      }
    }
  }
}
