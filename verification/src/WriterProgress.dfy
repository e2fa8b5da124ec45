/** What an interruption of the writer does when it goes by the book, and what can be counted over
    every run. */
module WriterProgress {
  import opened RealMath
  import opened Wrappers
  import opened Writer
  import opened WriterProof
  import opened WriterReturns

  // ---------- sightings ----------

  /** The distances that the source computes with square roots: squares compare alike. */
  lemma SquaresCompare(m: Libm, a: Point, b: Point)
    requires m.Lawful()
    ensures Hypot(m, a.x - b.x, a.y - b.y) < 2.0 <==> SquaredDistance(a, b) < CHASE_SQUARED
    ensures Hypot(m, a.x - b.x, a.y - b.y) < 0.5 <==> SquaredDistance(a, b) < KILL_SQUARED
  {
    var d := Hypot(m, a.x - b.x, a.y - b.y);
    HypotSquare(m, a.x - b.x, a.y - b.y);
    SquareMonotone(d, 2.0);
    SquareMonotone(d, 0.5);
    assert d * d == SquaredDistance(a, b) && 0.5 * 0.5 == KILL_SQUARED;
  }

  lemma LastReportedKnown(path: seq<Entry>, pen: Pen, events: seq<Event>)
    ensures Run(path, pen, events).currentPose == LastReported(events)
  {
    RunRemembers(path, pen, events);
  }

  /** The pose reported last is closer than `limit` to `p`. */
  predicate Near(m: Libm, events: seq<Event>, p: Point, limit: real) {
    var here := LastReported(events);
    here.Some? && Hypot(m, here.value.x - p.x, here.value.y - p.y) < limit
  }

  lemma SightingOf(w: Node, p: Point)
    ensures var w' := OnTurtle2Pose(w, p);
            && ((w'.pending.cancels > w.pending.cancels || (w.state == WRITING && w'.state == ANGRY))
                <==> (w.state == WRITING && w.currentPose.Some? && SquaredDistance(w.currentPose.value, p) < CHASE_SQUARED))
            && ((w'.pending.chaseCancels > w.pending.chaseCancels || w'.pending.kills > w.pending.kills)
                <==> (w.state == ANGRY && w.currentPose.Some? && SquaredDistance(w.currentPose.value, p) < KILL_SQUARED))
  {}

  /** A sighting interrupts exactly when the node is writing and turtle2 is closer than 2; it kills
      exactly when the node is angry and turtle2 is closer than 0.5. */
  lemma SightingExactly(m: Libm, path: seq<Entry>, pen: Pen, events: seq<Event>, p: Point)
    requires m.Lawful()
    ensures var w, w' := Run(path, pen, events), On(Run(path, pen, events), Turtle2Msg(p));
            && ((w'.pending.cancels > w.pending.cancels || (w.state == WRITING && w'.state == ANGRY))
                <==> (w.state == WRITING && Near(m, events, p, 2.0)))
            && ((w'.pending.chaseCancels > w.pending.chaseCancels || w'.pending.kills > w.pending.kills)
                <==> (w.state == ANGRY && Near(m, events, p, 0.5)))
  {
    var w := Run(path, pen, events);
    LastReportedKnown(path, pen, events);
    SightingOf(w, p);
    if w.currentPose.Some? {
      SquaresCompare(m, w.currentPose.value, p);
    }
  }

  // ---------- prompt confirmations ----------

  /** No goal succeeds between a sighting and the confirmation of its cancellation. */
  predicate Prompt(path: seq<Entry>, pen: Pen, events: seq<Event>)
    decreases |events|
  {
    events == [] ||
    (var n := |events| - 1;
     && Prompt(path, pen, events[..n])
     && (Run(path, pen, events[..n]).pending.cancels > 0 ==> events[n] != Result(true)))
  }

  predicate PenOffWhileCancelling(w: Node) {
    w.pending.cancels > 0 ==> w.pen == PenOff
  }

  lemma PromptKeepsPenOff(w: Node, e: Event)
    requires PenOffWhileCancelling(w) && (w.pending.cancels > 0 ==> e != Result(true))
    ensures PenOffWhileCancelling(On(w, e))
  {
    match e
    case Result(success) => ResultKeepsCancels(w, success);
    case _ =>
  }

  lemma ResultKeepsCancels(w: Node, success: bool)
    ensures OnResult(w, success).pending.cancels == w.pending.cancels
    ensures !success ==> OnResult(w, success).pen == w.pen
  {}

  lemma {:induction false} PromptPenOff(path: seq<Entry>, pen: Pen, events: seq<Event>)
    requires Prompt(path, pen, events)
    ensures PenOffWhileCancelling(Run(path, pen, events))
    decreases |events|
  {
    if events != [] {
      var n := |events| - 1;
      PromptPenOff(path, pen, events[..n]);
      PromptKeepsPenOff(Run(path, pen, events[..n]), events[n]);
    }
  }

  /** Sightings put the pen up: if no goal succeeds before a cancellation is confirmed, every
      confirmation finds it off, and nothing is drawn during the chases. */
  lemma {:induction false} PromptIsTimely(path: seq<Entry>, pen: Pen, events: seq<Event>)
    requires PossibleRun(path, pen, events) && Prompt(path, pen, events)
    ensures TimelyCancels(path, pen, events)
    decreases |events|
  {
    if events != [] {
      var n := |events| - 1;
      PromptIsTimely(path, pen, events[..n]);
      PromptPenOff(path, pen, events[..n]);
    }
  }

  // ---------- every request has its answer ----------

  function Count(events: seq<Event>, kind: Event -> bool): nat {
    if events == [] then 0 else
    var n := |events| - 1;
    Count(events[..n], kind) + if kind(events[n]) then 1 else 0
  }

  predicate Answer(e: Event) { e.GoalResponse? }
  predicate Acceptance(e: Event) { e == GoalResponse(true) }
  predicate Outcome(e: Event) { e.Result? }
  predicate Kill(e: Event) { e.KillDone? }
  predicate Killed(e: Event) { e == KillDone(true) }
  predicate Respawn(e: Event) { e.SpawnDone? }
  predicate Cancellation(e: Event) { e.CancelDone? }
  predicate CallOff(e: Event) { e.CancelChasingDone? }

  /** The goals sent are those answered and those still to be answered; each accepted goal has a result
      or waits for it; each confirmed kill is followed by a respawn, or waits for it. A goal in progress
      waits for its result, and the timer runs only after a confirmed cancellation. */
  ghost predicate Balanced(w: Node, events: seq<Event>) {
    && |w.sent| == w.pending.goals + Count(events, Answer)
    && Count(events, Acceptance) == w.pending.results + Count(events, Outcome)
    && Count(events, Killed) == w.pending.spawns + Count(events, Respawn)
    && (w.goalInProgress ==> w.pending.results > 0)
    && (w.chaseTimer ==> Count(events, Cancellation) > 0)
    && (w.hasHandle ==> Count(events, Acceptance) > 0)
  }

  /** A sighting close enough to end the chase. */
  predicate Caught(w: Node, e: Event) {
    e.Turtle2Msg? && w.state == ANGRY && w.currentPose.Some? && SquaredDistance(w.currentPose.value, e.pose2) < KILL_SQUARED
  }

  /** The cancellations asked for: at sightings while a goal that was accepted is written. */
  function Cancels(path: seq<Entry>, pen: Pen, events: seq<Event>): nat
    decreases |events|
  {
    if events == [] then 0 else
    var n := |events| - 1;
    var w, e := Run(path, pen, events[..n]), events[n];
    Cancels(path, pen, events[..n])
    + if e.Turtle2Msg? && w.state == WRITING && w.hasHandle && w.currentPose.Some?
         && SquaredDistance(w.currentPose.value, e.pose2) < CHASE_SQUARED then 1 else 0
  }

  /** The chases called off: at a catch with a goal in progress. */
  function CallOffs(path: seq<Entry>, pen: Pen, events: seq<Event>): nat
    decreases |events|
  {
    if events == [] then 0 else
    var n := |events| - 1;
    var w, e := Run(path, pen, events[..n]), events[n];
    CallOffs(path, pen, events[..n]) + if Caught(w, e) && w.hasHandle && w.goalInProgress then 1 else 0
  }

  /** The kills: at a catch without one, and when a chase has been called off. */
  function Kills(path: seq<Entry>, pen: Pen, events: seq<Event>): nat
    decreases |events|
  {
    if events == [] then 0 else
    var n := |events| - 1;
    var w, e := Run(path, pen, events[..n]), events[n];
    Kills(path, pen, events[..n])
    + if e.CancelChasingDone? || (Caught(w, e) && !(w.hasHandle && w.goalInProgress)) then 1 else 0
  }

  lemma CancelsPending(w: Node, e: Event)
    requires Possible(w, e)
    ensures On(w, e).pending.cancels + (if e.CancelDone? then 1 else 0)
         == w.pending.cancels + if e.Turtle2Msg? && w.state == WRITING && w.hasHandle && w.currentPose.Some?
                                   && SquaredDistance(w.currentPose.value, e.pose2) < CHASE_SQUARED then 1 else 0
    ensures On(w, e).pending.chaseCancels + (if e.CancelChasingDone? then 1 else 0)
         == w.pending.chaseCancels + if Caught(w, e) && w.hasHandle && w.goalInProgress then 1 else 0
    ensures On(w, e).pending.kills + (if e.KillDone? then 1 else 0)
         == w.pending.kills + if e.CancelChasingDone? || (Caught(w, e) && !(w.hasHandle && w.goalInProgress)) then 1 else 0
  {
    match e
    case Result(success) => ResultCancelsPending(w, success);
    case _ =>
  }

  lemma ResultCancelsPending(w: Node, success: bool)
    ensures OnResult(w, success).pending.cancels == w.pending.cancels
    ensures OnResult(w, success).pending.chaseCancels == w.pending.chaseCancels
    ensures OnResult(w, success).pending.kills == w.pending.kills
  {}

  /** Over every possible run each cancellation and each kill that was asked for is confirmed once, or
      waits for that. */
  lemma {:induction false} RequestsBalanced(path: seq<Entry>, pen: Pen, events: seq<Event>)
    requires PossibleRun(path, pen, events)
    ensures var w := Run(path, pen, events);
            && Cancels(path, pen, events) == w.pending.cancels + Count(events, Cancellation)
            && CallOffs(path, pen, events) == w.pending.chaseCancels + Count(events, CallOff)
            && Kills(path, pen, events) == w.pending.kills + Count(events, Kill)
    decreases |events|
  {
    if events != [] {
      var n := |events| - 1;
      RequestsBalanced(path, pen, events[..n]);
      CancelsPending(Run(path, pen, events[..n]), events[n]);
    }
  }

  lemma CountNext(events: seq<Event>, e: Event, kind: Event -> bool)
    ensures Count(events + [e], kind) == Count(events, kind) + if kind(e) then 1 else 0
  {
    assert (events + [e])[..|events|] == events;
  }

  lemma SendingIsPending(w: Node, e: Event)
    requires Possible(w, e)
    ensures |On(w, e).sent| - |w.sent| == On(w, e).pending.goals - w.pending.goals + if e.GoalResponse? then 1 else 0
    ensures On(w, e).pending.results - w.pending.results
         == (if e == GoalResponse(true) then 1 else 0) - (if e.Result? then 1 else 0)
    ensures On(w, e).pending.spawns - w.pending.spawns
         == (if Killed(e) then 1 else 0) - (if e.SpawnDone? then 1 else 0)
  {
    match e
    case Result(success) => ResultSendsPending(w, success);
    case _ =>
  }

  lemma FlagsAfter(w: Node, e: Event)
    requires Possible(w, e) && (w.goalInProgress ==> w.pending.results > 0)
    ensures On(w, e).goalInProgress ==> On(w, e).pending.results > 0
    ensures On(w, e).chaseTimer ==> w.chaseTimer || e.CancelDone?
    ensures On(w, e).hasHandle ==> w.hasHandle || Acceptance(e)
  {
    match e
    case Result(success) => ResultFlags(w, success);
    case _ =>
  }

  lemma ResultFlags(w: Node, success: bool)
    ensures !OnResult(w, success).goalInProgress && OnResult(w, success).chaseTimer == w.chaseTimer
    ensures OnResult(w, success).hasHandle == w.hasHandle
  {}

  lemma ResultSendsPending(w: Node, success: bool)
    requires w.pending.results > 0
    ensures var w' := OnResult(w, success);
            && |w'.sent| - |w.sent| == w'.pending.goals - w.pending.goals
            && w'.pending.results == w.pending.results - 1 && w'.pending.spawns == w.pending.spawns
  {}

  lemma InitBalanced(path: seq<Entry>, pen: Pen)
    ensures Balanced(Init(path, pen), [])
  {}

  /** Over every possible run the books balance. */
  lemma {:induction false} RunBalanced(path: seq<Entry>, pen: Pen, events: seq<Event>)
    requires PossibleRun(path, pen, events)
    ensures Balanced(Run(path, pen, events), events)
    decreases |events|
  {
    if events == [] {
      InitBalanced(path, pen);
    } else {
      var n := |events| - 1;
      RunBalanced(path, pen, events[..n]);
      SendingIsPending(Run(path, pen, events[..n]), events[n]);
      FlagsAfter(Run(path, pen, events[..n]), events[n]);
    }
  }

  // ---------- an interruption by the book ----------

  /** What a whole interruption leaves alone. */
  ghost predicate Resumes(v: Node, w: Node) {
    && w.state == WRITING && w.goalType == WritingGoal && w.queue == v.queue && w.lastEntry == v.lastEntry
    && w.pending.cancels == v.pending.cancels && w.pending.chaseCancels == v.pending.chaseCancels
    && w.pending.kills == v.pending.kills && w.pending.spawns == v.pending.spawns
  }

  /** The node is writing, its goal was accepted, and it knows where it is. */
  ghost predicate Underway(v: Node) {
    v.state == WRITING && v.hasHandle && v.lastEntry.Some? && v.currentPose.Some?
  }

  /** Turtle2 is seen at `p`, the goal is cancelled, and a chase begins. */
  lemma Interrupted(v: Node, p: Point) returns (w: Node)
    requires Underway(v) && SquaredDistance(v.currentPose.value, p) < CHASE_SQUARED
    ensures Possible(OnTurtle2Pose(v, p), CancelDone(true))
    ensures w == OnCancelDone(OnTurtle2Pose(v, p), true)
    ensures w == v.(turtle2Pose := Some(p), pen := PenOff, goalType := ChasingGoal, state := ANGRY, goalInProgress := false,
                    chaseTimer := true, queue := [v.lastEntry.value] + v.queue, requeued := v.requeued + 1)
  {
    w := OnCancelDone(OnTurtle2Pose(v, p), true);
  }

  lemma Chased(v: Node) returns (w: Node)
    requires v.state == ANGRY && !v.goalInProgress && v.chaseTimer && v.turtle2Pose.Some? && v.currentPose.Some?
    ensures Possible(v, ChaseTimer) && Possible(OnChaseTimer(v), GoalResponse(true))
    ensures w == OnGoalResponse(OnChaseTimer(v), true)
    ensures w == v.(goalType := ChasingGoal, sent := v.sent + [Sent(Chase, v.pen)], hasHandle := true, goalInProgress := true,
                    pending := v.pending.(results := v.pending.results + 1))
  {
    w := OnGoalResponse(OnChaseTimer(v), true);
  }

  /** The turtle comes to `here` and sees turtle2 at `p`, close enough; the chase is called off. */
  lemma CaughtUp(v: Node, here: Point, p: Point) returns (w: Node)
    requires v.state == ANGRY && v.hasHandle && v.goalInProgress && SquaredDistance(here, p) < KILL_SQUARED
    ensures Possible(OnTurtle2Pose(OnPose(v, here), p), CancelChasingDone)
    ensures w == OnCancelChasingDone(OnTurtle2Pose(OnPose(v, here), p))
    ensures w == v.(currentPose := Some(here), turtle2Pose := Some(p), chaseTimer := false, goalInProgress := false,
                    state := RETURNING, goalType := ReturningGoal, pen := PenOff,
                    pending := v.pending.(kills := v.pending.kills + 1))
  {
    w := OnCancelChasingDone(OnTurtle2Pose(OnPose(v, here), p));
  }

  /** Turtle2 is killed and spawned anew, and the returning goal accepted. */
  lemma SentBack(v: Node) returns (w: Node)
    requires v.pending.kills > 0 && v.lastWritingPosition.Some?
    ensures Possible(v, KillDone(true)) && Possible(OnKillDone(v, true), SpawnDone(true))
    ensures Possible(OnSpawnDone(OnKillDone(v, true), true), GoalResponse(true))
    ensures w == OnGoalResponse(OnSpawnDone(OnKillDone(v, true), true), true)
    ensures w == v.(sent := v.sent + [Sent(Return(v.lastWritingPosition.value), v.pen)], hasHandle := true, goalInProgress := true,
                    pending := v.pending.(kills := v.pending.kills - 1, results := v.pending.results + 1))
  {
    w := OnGoalResponse(OnSpawnDone(OnKillDone(v, true), true), true);
  }

  /** Back where it was interrupted, the node sends the first waypoint of its queue. */
  lemma WritesOn(v: Node) returns (w: Node)
    requires v.state == RETURNING && v.goalType == ReturningGoal && v.queue != [] && v.pending.results > 0
    ensures Possible(v, Result(true)) && w == OnResult(v, true)
    ensures w.state == WRITING && w.goalType == WritingGoal && w.queue == v.queue[1..] && w.lastEntry == Some(v.queue[0])
    ensures var pen := if v.queue[0].pen.Some? then v.queue[0].pen.value else PenOn;
            w.sent == v.sent + [Sent(Waypoint(v.queue[0]), pen)]
    ensures w.pending == v.pending.(results := v.pending.results - 1, goals := v.pending.goals + 1)
  {
    w := OnResult(v, true);
  }

  /** The callbacks of an interruption in which nothing goes wrong: up to the chase, and from the catch. */
  function Alert(p: Point): seq<Event> {
    [Turtle2Msg(p), CancelDone(true), ChaseTimer, GoalResponse(true)]
  }

  function Catch(here: Point, q: Point): seq<Event> {
    [PoseMsg(here), Turtle2Msg(q), CancelChasingDone]
  }

  function WayBack(): seq<Event> {
    [KillDone(true), SpawnDone(true), GoalResponse(true), Result(true)]
  }

  lemma RunAlert(path: seq<Entry>, pen: Pen, before: seq<Event>, v: Node, p: Point) returns (events: seq<Event>, w: Node)
    requires PossibleRun(path, pen, before) && v == Run(path, pen, before) && Underway(v)
    requires SquaredDistance(v.currentPose.value, p) < CHASE_SQUARED
    ensures events == before + Alert(p) && PossibleRun(path, pen, events) && w == Run(path, pen, events)
    ensures w.state == ANGRY && w.hasHandle && w.goalInProgress && w.lastWritingPosition == v.lastWritingPosition
    ensures w.queue == [v.lastEntry.value] + v.queue && w.sent == v.sent + [Sent(Chase, PenOff)]
    ensures w.pending == v.pending.(results := v.pending.results + 1)
  {
    var a := Interrupted(v, p);
    var b := Chased(a);
    events, w := Extend(path, pen, before, Turtle2Msg(p));
    events, w := Extend(path, pen, events, CancelDone(true));
    events, w := Extend(path, pen, events, ChaseTimer);
    events, w := Extend(path, pen, events, GoalResponse(true));
  }

  lemma RunCatch(path: seq<Entry>, pen: Pen, before: seq<Event>, v: Node, here: Point, q: Point)
    returns (events: seq<Event>, w: Node)
    requires PossibleRun(path, pen, before) && v == Run(path, pen, before)
    requires v.state == ANGRY && v.hasHandle && v.goalInProgress && SquaredDistance(here, q) < KILL_SQUARED
    ensures events == before + Catch(here, q) && PossibleRun(path, pen, events) && w == Run(path, pen, events)
    ensures w.state == RETURNING && w.goalType == ReturningGoal && w.pen == PenOff
    ensures w.queue == v.queue && w.sent == v.sent && w.lastWritingPosition == v.lastWritingPosition
    ensures w.pending == v.pending.(kills := v.pending.kills + 1)
  {
    var c := CaughtUp(v, here, q);
    events, w := Extend(path, pen, before, PoseMsg(here));
    events, w := Extend(path, pen, events, Turtle2Msg(q));
    events, w := Extend(path, pen, events, CancelChasingDone);
  }

  lemma RunWayBack(path: seq<Entry>, pen: Pen, before: seq<Event>, v: Node) returns (events: seq<Event>, w: Node)
    requires PossibleRun(path, pen, before) && v == Run(path, pen, before)
    requires v.state == RETURNING && v.goalType == ReturningGoal && v.pen == PenOff
    requires v.pending.kills > 0 && v.lastWritingPosition.Some? && v.queue != []
    ensures events == before + WayBack() && PossibleRun(path, pen, events) && w == Run(path, pen, events)
    ensures w.state == WRITING && w.goalType == WritingGoal && w.queue == v.queue[1..] && w.lastEntry == Some(v.queue[0])
    ensures w.pending == v.pending.(kills := v.pending.kills - 1, goals := v.pending.goals + 1)
    ensures var pen := if v.queue[0].pen.Some? then v.queue[0].pen.value else PenOn;
            w.sent == v.sent + [Sent(Return(v.lastWritingPosition.value), PenOff)] + [Sent(Waypoint(v.queue[0]), pen)]
  {
    var d := SentBack(v);
    var e := WritesOn(d);
    events, w := Extend(path, pen, before, KillDone(true));
    events, w := Extend(path, pen, events, SpawnDone(true));
    events, w := Extend(path, pen, events, GoalResponse(true));
    events, w := Extend(path, pen, events, Result(true));
  }

  /** An interruption that goes by the book is possible whenever a goal is under way, and undoes
      itself: the node goes on writing with the same queue and the same waypoint, which it sends again
      after a single chasing goal, undrawn, and a return to where it had sent it from. */
  lemma InterruptionUndone(path: seq<Entry>, pen: Pen, before: seq<Event>, p: Point, here: Point, q: Point, origin: Point)
    returns (events: seq<Event>, v: Node, w: Node)
    requires PossibleRun(path, pen, before) && Underway(Run(path, pen, before))
    requires WrittenFrom(path, pen, before, |Run(path, pen, before).sent|, origin)
    requires SquaredDistance(Run(path, pen, before).currentPose.value, p) < CHASE_SQUARED
    requires SquaredDistance(here, q) < KILL_SQUARED
    ensures v == Run(path, pen, before) && events == before + Alert(p) + Catch(here, q) + WayBack()
    ensures PossibleRun(path, pen, events) && w == Run(path, pen, events) && Resumes(v, w)
    ensures var last := v.lastEntry.value;
            w.sent == v.sent + [Sent(Chase, PenOff)] + [Sent(Return(origin), PenOff)]
                    + [Sent(Waypoint(last), if last.pen.Some? then last.pen.value else PenOn)]
  {
    v := Run(path, pen, before);
    RunRemembers(path, pen, before);
    events, w := RunAlert(path, pen, before, v, p);
    events, w := RunCatch(path, pen, events, w, here, q);
    events, w := RunWayBack(path, pen, events, w);
  }
}
