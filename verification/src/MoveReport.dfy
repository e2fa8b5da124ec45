/** The move of the base seen from both sides: the position controller of `BaseMotion` is the action
    "move" of the scheduler in `Actions`, with the measured norm of the goal as its goal test. */
module MoveReport {
  import opened ActionStates
  import opened Kinematics
  import opened RealMath
  import opened Wrappers
  import A = Actions
  import AA = ArmAction
  import AP = ActionsProof
  import B = BaseMotion
  import Arm
  import K = ArmKinematics
  import M = MoveProof

  /** The goal test of `MoveAction::do_step`. */
  predicate GoalReached(m: Libm, a: B.MoveState, c: B.ChassisState)
    requires m.pi > 0.0
  {
    var goal := if a.state == Started then c.pose.Compose(m, a.goal) else a.goalOdom;
    goal.RelativeTo(m, c.pose).Norm(m) < B.TOLERANCE
  }

  /** The controller changes its state as the scheduler's model of it says. */
  lemma MoveStateTowards(m: Libm, a: B.MoveState, c: B.ChassisState)
    requires m.pi > 0.0 && a.Valid()
    ensures B.AfterMoveStep(m, a, c).0.state == A.StateTowards(a.state, GoalReached(m, a, c))
  {}

  /** So does the action of the arm; its goal test is the distance of the motors from their goals. */
  lemma ArmStateTowards(m: Libm, a: AA.MoveState, t: Arm.ArmState, tip: K.Vector2)
    requires m.pi > 0.0 && m.sqrt(2.0) > 0.0 && K.Jacobian(m, t.Current()).Det() != 0.0
    ensures var (b, u) := AA.AfterMoveStep(m, a, t, tip);
            b.state == A.StateTowards(a.state, AA.Distance(m, u) < AA.TOLERANCE)
  {}

  /** What the action sees in a step of the base. */
  function Reading(m: Libm, s: B.BaseState, dt: real): B.ChassisState {
    var driven := s.chassis.(wheelSpeeds := s.chassis.wheelSpeeds.(current := s.chassis.wheelSpeeds.target));
    B.AfterReadChassis(m, driven, dt)
  }

  predicate ReachedIn(m: Libm, s: B.BaseState, dt: real)
    requires m.pi > 0.0
  {
    s.move.Some? && GoalReached(m, s.move.value, Reading(m, s, dt))
  }

  /** The steps of the base as the scheduler's action sees them. */
  function MoveTicks(m: Libm, s: B.BaseState, dts: seq<real>): (ticks: seq<A.Tick>)
    requires m.pi > 0.0 && B.ValidBase(s)
    ensures |ticks| == |dts|
    decreases |dts|
  {
    if dts == [] then [] else
    [A.Tick(dts[0], ReachedIn(m, s, dts[0]))] + MoveTicks(m, B.AfterBaseStep(m, s, dts[0]), dts[1..])
  }

  /** The base runs the move that the scheduler has in its map. */
  ghost predicate Same(s: B.BaseState, task: A.Task) {
    && s.move.Some? && s.move.value.Valid() && task.name == A.Move
    && AP.Alive(task.state) && s.move.value.state == task.state
  }

  lemma StepTogether(m: Libm, s: B.BaseState, task: A.Task, dt: real)
    requires m.pi > 0.0 && Same(s, task)
    ensures var s', f := B.AfterBaseStep(m, s, dt), AP.NextFate(task, A.Tick(dt, ReachedIn(m, s, dt)));
            if f.Active? then Same(s', f.task) else s'.move == None && s'.previous == Some(f.task.state)
  {
    MoveStateTowards(m, s.move.value, Reading(m, s, dt));
  }

  lemma {:induction false} NoMoveStays(m: Libm, s: B.BaseState, dts: seq<real>)
    requires m.pi > 0.0 && s.move == None
    ensures B.Run(m, s, dts).move == None
    decreases |dts|
  {
    if dts != [] {
      NoMoveStays(m, B.AfterBaseStep(m, s, dts[0]), dts[1..]);
    }
  }

  // ---------- fates from the first step on ----------

  lemma {:induction false} FateFirst(a: A.Task, ticks: seq<A.Tick>)
    requires ticks != []
    ensures var f := AP.NextFate(a, ticks[0]);
            AP.FateAfter(a, ticks) == if f.Ended? then f else AP.FateAfter(f.task, ticks[1..])
    decreases |ticks|
  {
    var n := |ticks| - 1;
    if n == 0 {
      assert ticks[..0] == [] && ticks[1..] == [];
    } else {
      FateFirst(a, ticks[..n]);
      assert ticks[..n][1..] == ticks[1..][..n - 1] && ticks[..n][0] == ticks[0];
    }
  }

  lemma {:induction false} EndedStays(a: A.Task, ticks: seq<A.Tick>, k: nat)
    requires k <= |ticks| && AP.FateAfter(a, ticks[..k]).Ended?
    ensures AP.FateAfter(a, ticks) == AP.FateAfter(a, ticks[..k])
    decreases |ticks|
  {
    if k == |ticks| {
      assert ticks[..k] == ticks;
    } else {
      var n := |ticks| - 1;
      assert ticks[..n][..k] == ticks[..k];
      EndedStays(a, ticks[..n], k);
    }
  }

  // ---------- whole runs ----------

  /** Over every run of steps the action of the scheduler ends exactly when the base has no move
      any more. */
  lemma {:induction false} RunTogether(m: Libm, s: B.BaseState, task: A.Task, dts: seq<real>)
    requires m.pi > 0.0 && Same(s, task)
    ensures var s', f := B.Run(m, s, dts), AP.FateAfter(task, MoveTicks(m, s, dts));
            if f.Active? then Same(s', f.task) else s'.move == None
    decreases |dts|
  {
    if dts != [] {
      var t, s' := A.Tick(dts[0], ReachedIn(m, s, dts[0])), B.AfterBaseStep(m, s, dts[0]);
      StepTogether(m, s, task, dts[0]);
      FateFirst(task, MoveTicks(m, s, dts));
      assert MoveTicks(m, s, dts)[0] == t && MoveTicks(m, s, dts)[1..] == MoveTicks(m, s', dts[1..]);
      if AP.NextFate(task, t).Active? {
        RunTogether(m, s', AP.NextFate(task, t).task, dts[1..]);
      } else {
        NoMoveStays(m, s', dts[1..]);
      }
    }
  }

  lemma AcceptedSame(m: Libm, s: B.BaseState, goal: Pose2D, v: real, w: real, a: A.Task)
    requires m.Lawful() && M.Accepted(m, s, goal, v, w) && a.name == A.Move && a.state == Started
    ensures Same(s, a)
  {}

  lemma ArrivedHasNoMove(m: Libm, s: B.BaseState, g: Pose2D)
    requires m.Lawful() && M.Arrived(m, s, g)
    ensures s.move == None
  {}

  lemma GoneMeansEnded(m: Libm, s: B.BaseState, a: A.Task, dts: seq<real>, ticks: seq<A.Tick>)
    requires m.pi > 0.0 && Same(s, a) && B.Run(m, s, dts).move == None
    requires MoveTicks(m, s, dts) <= ticks
    ensures AP.FateAfter(a, ticks).Ended?
  {
    RunTogether(m, s, a, dts);
    assert ticks[..|dts|] == MoveTicks(m, s, dts);
    EndedStays(a, ticks, |dts|);
  }

  lemma MoveEnds(m: Libm, s: B.BaseState, goal: Pose2D, v: real, w: real, dts: seq<real>, a: A.Task, ticks: seq<A.Tick>)
    requires m.Lawful() && M.Accepted(m, s, goal, v, w) && M.StepSizes(dts) && dts != []
    requires M.LongEnough(m, goal, v, w, dts[1..])
    requires a.name == A.Move && a.state == Started && MoveTicks(m, s, dts) <= ticks
    ensures M.Arrived(m, B.Run(m, s, dts), M.FirstReading(m, s, dts[0]).Compose(m, goal))
    ensures AP.FateAfter(a, ticks).Ended?
  {
    M.MoveSucceeds(m, s, goal, v, w, dts);
    AcceptedSame(m, s, goal, v, w, a);
    ArrivedHasNoMove(m, B.Run(m, s, dts), M.FirstReading(m, s, dts[0]).Compose(m, goal));
    GoneMeansEnded(m, s, a, dts, ticks);
  }

  /** The action was erased having succeeded, and its messages say so once, at their end. */
  ghost predicate EndReported(end: A.Robot, a: A.Task) {
    && a.ticket in end.ended && end.ended[a.ticket].state == Succeed
    && AP.ReportedWell(AP.PushesOf(end.pushed, a.ticket), a, true)
  }

  lemma EndIsReported(r: A.Robot, before: seq<A.Event>, q: A.Request, after: seq<A.Event>, a: A.Task)
    returns (end: A.Robot)
    requires AP.Invariant(r) && A.Answer(A.Run(r, before), q) == Started && a == A.NewTask(q, A.Run(r, before).accepted)
    requires AP.FateAfter(a, AP.Ticks(after, q.name)).Ended?
    ensures end == A.Run(A.AfterSubmit(A.Run(r, before), q), after) && EndReported(end, a)
  {
    var task, fate;
    task, end, fate := AP.AcceptedAction(r, before, q, after);
    AP.ActionForward(a, AP.Ticks(after, q.name));
  }

  /** An accepted move of the base reaches its goal within the time bound of `MoveSucceeds`, and its
      client is told so exactly once, by the last message of the action, whatever else is submitted
      to the robot and runs on it. */
  lemma MoveReportsOnce(m: Libm, s: B.BaseState, goal: Pose2D, v: real, w: real, dts: seq<real>,
                        r: A.Robot, before: seq<A.Event>, q: A.Request, after: seq<A.Event>)
    returns (a: A.Task, end: A.Robot)
    requires m.Lawful() && M.Accepted(m, s, goal, v, w) && M.StepSizes(dts) && dts != []
    requires M.LongEnough(m, goal, v, w, dts[1..])
    requires AP.Invariant(r) && q.name == A.Move && A.Answer(A.Run(r, before), q) == Started
    requires MoveTicks(m, s, dts) <= AP.Ticks(after, A.Move)
    ensures a == A.NewTask(q, A.Run(r, before).accepted)
    ensures end == A.Run(A.AfterSubmit(A.Run(r, before), q), after) && EndReported(end, a)
    ensures M.Arrived(m, B.Run(m, s, dts), M.FirstReading(m, s, dts[0]).Compose(m, goal))
  {
    a := A.NewTask(q, A.Run(r, before).accepted);
    MoveEnds(m, s, goal, v, w, dts, a, AP.Ticks(after, A.Move));
    end := EndIsReported(r, before, q, after, a);
  }
}
