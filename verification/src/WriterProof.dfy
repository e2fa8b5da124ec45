/** What holds for every interleaving of the writer's callbacks. */
module WriterProof {
  import opened Wrappers
  import opened Writer

  // ---------- the waypoints sent ----------

  /** The waypoints among the goals sent, with their pens, in order. */
  function Written(sent: seq<Sent>): seq<(Entry, Pen)> {
    if sent == [] then [] else
    var before, last := Written(sent[..|sent| - 1]), sent[|sent| - 1];
    if last.goal.Waypoint? then before + [(last.goal.entry, last.pen)] else before
  }

  lemma WrittenAppend(sent: seq<Sent>, s: Sent)
    ensures Written(sent + [s]) == if s.goal.Waypoint? then Written(sent) + [(s.goal.entry, s.pen)] else Written(sent)
  {
    assert (sent + [s])[..|sent|] == sent;
  }

  /** The pen of an uninterrupted run at waypoint `i`: the last one set on the way there. */
  function PenAt(path: seq<Entry>, pen: Pen, i: nat): Pen
    requires i < |path|
  {
    if path[i].pen.Some? then path[i].pen.value else if i == 0 then pen else PenAt(path, pen, i - 1)
  }

  /** Waypoints that do not say otherwise are drawn with the pen on. */
  ghost predicate DrawsByDefault(path: seq<Entry>, pen: Pen) {
    forall i | 0 <= i < |path| :: path[i].pen == None ==> PenAt(path, pen, i) == PenOn
  }

  /** A walk along the path: it starts at the beginning and each step stays or goes on by one. */
  ghost predicate Walk(at: seq<nat>) {
    && at != [] && at[0] == 0
    && forall j | 0 <= j < |at| - 1 :: at[j + 1] == at[j] || at[j + 1] == at[j] + 1
  }

  /** `at` says which waypoint each writing goal was, and with which pen it was sent. */
  ghost predicate Follows(path: seq<Entry>, pen: Pen, written: seq<(Entry, Pen)>, at: seq<nat>) {
    && |written| == |at|
    && forall j | 0 <= j < |at| :: at[j] < |path| && written[j] == (path[at[j]], PenAt(path, pen, at[j]))
  }

  /** `copies` of the last waypoint to be repeated, then the rest of the path. */
  ghost predicate QueueShape(path: seq<Entry>, w: Node, next: nat, copies: nat) {
    && 1 <= next <= |path|
    && w.lastEntry == Some(path[next - 1])
    && copies <= |w.queue| && w.queue[copies..] == path[next..]
    && (forall i | 0 <= i < copies :: w.queue[i] == path[next - 1])
  }

  /** The pen that writing goes on with. */
  ghost predicate PenReady(path: seq<Entry>, pen: Pen, w: Node, next: nat)
    requires 1 <= next <= |path|
  {
    w.goalType == WritingGoal ==> w.pen == PenOn || w.pen == PenAt(path, pen, next - 1)
  }

  /** The invariant of every run: `next` waypoints of the path have been sent, `copies` are to be
      repeated, and `at` is the walk made so far. */
  ghost predicate Invariant(path: seq<Entry>, pen: Pen, w: Node, next: nat, copies: nat, at: seq<nat>) {
    && QueueShape(path, w, next, copies)
    && PenReady(path, pen, w, next)
    && Walk(at) && at[|at| - 1] == next - 1
    && Follows(path, pen, Written(w.sent), at)
    && |at| + copies == next + w.requeued
  }

  // ---------- sending the next waypoint ----------

  lemma PopKeepsShape(path: seq<Entry>, w: Node, next: nat, copies: nat) returns (next': nat, copies': nat)
    requires QueueShape(path, w, next, copies) && w.queue != []
    ensures QueueShape(path, SendNext(w), next', copies')
    ensures w.queue[0] == path[next' - 1]
    ensures if copies > 0 then next' == next && copies' == copies - 1 else next' == next + 1 && copies' == 0
  {
    if copies > 0 {
      next', copies' := next, copies - 1;
      assert w.queue[1..][copies'..] == w.queue[copies..];
    } else {
      next', copies' := next + 1, 0;
      assert w.queue[0..] == w.queue && w.queue[1..] == path[next + 1..];
    }
  }

  lemma WalkExtends(at: seq<nat>, i: nat)
    requires Walk(at) && (i == at[|at| - 1] || i == at[|at| - 1] + 1)
    ensures Walk(at + [i])
  {}

  lemma FollowsExtends(path: seq<Entry>, pen: Pen, written: seq<(Entry, Pen)>, at: seq<nat>, i: nat)
    requires Follows(path, pen, written, at) && i < |path|
    ensures Follows(path, pen, written + [(path[i], PenAt(path, pen, i))], at + [i])
  {}

  /** The waypoint sent gets the pen of an uninterrupted run. */
  lemma SendWrites(path: seq<Entry>, pen: Pen, w: Node, next: nat, next': nat)
    requires DrawsByDefault(path, pen) && 1 <= next <= next' <= next + 1 && next' <= |path|
    requires w.queue != [] && w.queue[0] == path[next' - 1]
    requires w.goalType == WritingGoal && PenReady(path, pen, w, next)
    ensures SendNext(w).pen == PenAt(path, pen, next' - 1)
    ensures Written(SendNext(w).sent) == Written(w.sent) + [(path[next' - 1], PenAt(path, pen, next' - 1))]
    ensures SendNext(w).requeued == w.requeued
  {
    var s := SendNext(w);
    assert s.sent == w.sent + [Sent(Waypoint(w.queue[0]), s.pen)];
    WrittenAppend(w.sent, Sent(Waypoint(w.queue[0]), s.pen));
  }

  lemma SentInvariant(path: seq<Entry>, pen: Pen, s: Node, next': nat, copies': nat,
                      written: seq<(Entry, Pen)>, at: seq<nat>)
    requires QueueShape(path, s, next', copies') && s.pen == PenAt(path, pen, next' - 1)
    requires Walk(at) && (next' - 1 == at[|at| - 1] || next' - 1 == at[|at| - 1] + 1)
    requires Follows(path, pen, written, at)
    requires Written(s.sent) == written + [(path[next' - 1], PenAt(path, pen, next' - 1))]
    requires |at| + 1 + copies' == next' + s.requeued
    ensures Invariant(path, pen, s, next', copies', at + [next' - 1])
  {
    WalkExtends(at, next' - 1);
    FollowsExtends(path, pen, written, at, next' - 1);
  }

  lemma SendKeepsInvariant(path: seq<Entry>, pen: Pen, w: Node, next: nat, copies: nat, at: seq<nat>)
    returns (next': nat, copies': nat, at': seq<nat>)
    requires DrawsByDefault(path, pen) && Invariant(path, pen, w, next, copies, at)
    requires w.goalType == WritingGoal
    ensures Invariant(path, pen, SendNext(w), next', copies', at')
  {
    if w.queue == [] {
      next', copies', at' := next, copies, at;
    } else {
      next', copies' := PopKeepsShape(path, w, next, copies);
      at' := at + [next' - 1];
      SendWrites(path, pen, w, next, next');
      SentInvariant(path, pen, SendNext(w), next', copies', Written(w.sent), at);
    }
  }

  lemma InitInvariant(path: seq<Entry>, pen: Pen)
    requires path != [] && DrawsByDefault(path, pen)
    ensures Invariant(path, pen, Init(path, pen), 1, 0, [0])
  {
    var w := Init(path, pen);
    assert w.queue == path[1..];
    WrittenAppend([], w.sent[0]);
    assert w.sent == [] + [w.sent[0]];
  }

  // ---------- every callback ----------

  lemma RequeueKeepsShape(path: seq<Entry>, w: Node, queue: seq<Entry>, next: nat, copies: nat)
    requires QueueShape(path, w, next, copies) && queue == [path[next - 1]] + w.queue
    ensures queue[copies + 1..] == path[next..]
    ensures forall i | 0 <= i < copies + 1 :: queue[i] == path[next - 1]
  {}

  /** Callbacks that leave the path, the waypoints sent and the writing pen alone. */
  lemma OthersKeepInvariant(path: seq<Entry>, pen: Pen, w: Node, w': Node, next: nat, copies: nat, at: seq<nat>)
    requires Invariant(path, pen, w, next, copies, at)
    requires w'.queue == w.queue && w'.lastEntry == w.lastEntry && w'.requeued == w.requeued
    requires Written(w'.sent) == Written(w.sent)
    requires w'.goalType == WritingGoal ==> w.goalType == WritingGoal && w'.pen == w.pen
    ensures Invariant(path, pen, w', next, copies, at)
  {}

  lemma OtherEventsKeepPath(w: Node, e: Event)
    requires !e.Result? && !e.CancelDone?
    ensures On(w, e).queue == w.queue && On(w, e).lastEntry == w.lastEntry && On(w, e).requeued == w.requeued
    ensures On(w, e).goalType == WritingGoal ==> w.goalType == WritingGoal && On(w, e).pen == w.pen
  {}

  lemma OtherEventsUnwritten(w: Node, e: Event)
    requires !e.Result? && !e.CancelDone?
    ensures Written(On(w, e).sent) == Written(w.sent)
  {
    if e.ChaseTimer? {
      WrittenAppend(w.sent, Sent(Chase, w.pen));
    } else if e.SpawnDone? && w.lastWritingPosition.Some? {
      WrittenAppend(w.sent, Sent(Return(w.lastWritingPosition.value), w.pen));
    } else {
      assert On(w, e).sent == w.sent;
    }
  }

  lemma ResultKeepsInvariant(path: seq<Entry>, pen: Pen, w: Node, success: bool, next: nat, copies: nat, at: seq<nat>)
    returns (next': nat, copies': nat, at': seq<nat>)
    requires DrawsByDefault(path, pen) && Invariant(path, pen, w, next, copies, at)
    ensures Invariant(path, pen, OnResult(w, success), next', copies', at')
  {
    var done := w.(goalInProgress := false, pending := w.pending.(results := Pred(w.pending.results)));
    OthersKeepInvariant(path, pen, w, done, next, copies, at);
    if w.goalType == WritingGoal && w.state == WRITING && success {
      next', copies', at' := SendKeepsInvariant(path, pen, done, next, copies, at);
    } else if w.goalType == ReturningGoal && w.state == RETURNING && success {
      var back := done.(state := WRITING, goalType := WritingGoal, pen := PenOn);
      next', copies', at' := SendKeepsInvariant(path, pen, back, next, copies, at);
    } else {
      next', copies', at' := next, copies, at;
    }
  }

  lemma CancelKeepsInvariant(path: seq<Entry>, pen: Pen, w: Node, ok: bool, next: nat, copies: nat, at: seq<nat>)
    requires Invariant(path, pen, w, next, copies, at)
    ensures Invariant(path, pen, OnCancelDone(w, ok), next, if ok then copies + 1 else copies, at)
  {
    RequeueKeepsShape(path, w, [path[next - 1]] + w.queue, next, copies);
  }

  lemma OnKeepsInvariant(path: seq<Entry>, pen: Pen, w: Node, e: Event, next: nat, copies: nat, at: seq<nat>)
    returns (next': nat, copies': nat, at': seq<nat>)
    requires DrawsByDefault(path, pen) && Invariant(path, pen, w, next, copies, at)
    ensures Invariant(path, pen, On(w, e), next', copies', at')
  {
    next', copies', at' := next, copies, at;
    if e.Result? {
      next', copies', at' := ResultKeepsInvariant(path, pen, w, e.success, next, copies, at);
    } else if e.CancelDone? {
      CancelKeepsInvariant(path, pen, w, e.cancelled, next, copies, at);
      copies' := if e.cancelled then copies + 1 else copies;
    } else {
      OtherEventsKeepPath(w, e);
      OtherEventsUnwritten(w, e);
      OthersKeepInvariant(path, pen, w, On(w, e), next, copies, at);
    }
  }

  /** For every sequence of callbacks, in any order: the queue is some copies of the last waypoint
      and then the rest of the path; the waypoints sent walk along the path without skipping or
      reordering any; each of them was sent with the pen of an uninterrupted run; and there are
      as many repetitions, made or still queued, as waypoints were queued again. */
  lemma {:induction false} RunInvariant(path: seq<Entry>, pen: Pen, events: seq<Event>)
    returns (next: nat, copies: nat, at: seq<nat>)
    requires path != [] && DrawsByDefault(path, pen)
    ensures Invariant(path, pen, Run(path, pen, events), next, copies, at)
  {
    if events == [] {
      InitInvariant(path, pen);
      next, copies, at := 1, 0, [0];
    } else {
      var n := |events| - 1;
      next, copies, at := RunInvariant(path, pen, events[..n]);
      next, copies, at := OnKeepsInvariant(path, pen, Run(path, pen, events[..n]), events[n], next, copies, at);
    }
  }

  /** A walk visits every waypoint up to its last. */
  lemma {:induction false} WalkVisits(at: seq<nat>, i: nat) returns (j: nat)
    requires Walk(at) && i <= at[|at| - 1]
    ensures j < |at| && at[j] == i
    decreases |at|
  {
    if i == at[|at| - 1] {
      j := |at| - 1;
    } else {
      j := WalkVisits(at[..|at| - 1], i);
    }
  }

  /** Once the queue is empty every waypoint of the path has been sent, however often the writing
      was interrupted. */
  lemma EmptyQueueMeansAllSent(path: seq<Entry>, pen: Pen, events: seq<Event>, i: nat) returns (j: nat)
    requires path != [] && DrawsByDefault(path, pen) && i < |path|
    requires Run(path, pen, events).queue == []
    ensures j < |Written(Run(path, pen, events).sent)|
    ensures Written(Run(path, pen, events).sent)[j] == (path[i], PenAt(path, pen, i))
  {
    var next, copies, at := RunInvariant(path, pen, events);
    assert |path[next..]| == 0;
    j := WalkVisits(at, i);
  }

  /** The path of the three letters draws by default, whatever the pen was at the start. */
  lemma UsiDrawsByDefault(pen: Pen)
    ensures UsiPath() != [] && DrawsByDefault(UsiPath(), pen)
  {
    var p := UsiPath();
    assert PenAt(p, pen, 1) == PenOn && PenAt(p, pen, 2) == PenOn && PenAt(p, pen, 3) == PenOn;
    assert PenAt(p, pen, 5) == PenOn && PenAt(p, pen, 6) == PenOn && PenAt(p, pen, 7) == PenOn;
  }

  /** The waypoints of the three letters, with their pens. */
  lemma UsiWaypoints()
    ensures UsiPath() ==
      [Entry(1.0, 9.0, Some(PenOff)), Entry(1.0, 5.0, Some(PenOn)), Entry(3.0, 5.0, None), Entry(3.0, 9.0, None),
       Entry(8.2, 9.0, Some(PenOff)), Entry(4.2, 8.6, Some(PenOn)), Entry(9.0, 6.6, None), Entry(4.2, 5.0, None),
       Entry(9.8, 5.0, Some(PenOff)), Entry(9.8, 9.0, Some(PenOn))]
  {}

  // ---------- the way back ----------

  /** The pose was reported for the writing turtle by one of the events. */
  ghost predicate Reported(events: seq<Event>, p: Point) {
    exists i :: 0 <= i < |events| && events[i] == PoseMsg(p)
  }

  ghost predicate AllReported(w: Node, events: seq<Event>) {
    && (w.currentPose.Some? ==> Reported(events, w.currentPose.value))
    && (w.lastWritingPosition.Some? ==> Reported(events, w.lastWritingPosition.value))
    && (forall i | 0 <= i < |w.sent| :: w.sent[i].goal.Return? ==> Reported(events, w.sent[i].goal.to))
  }

  lemma ReportedLater(events: seq<Event>, e: Event, p: Point)
    requires Reported(events, p) || e == PoseMsg(p)
    ensures Reported(events + [e], p)
  {
    if Reported(events, p) {
      var i :| 0 <= i < |events| && events[i] == PoseMsg(p);
      assert (events + [e])[i] == PoseMsg(p);
    } else {
      assert (events + [e])[|events|] == PoseMsg(p);
    }
  }

  /** The robot is only ever sent back to where its writing turtle has been. */
  lemma {:induction false} ReturnsToReportedPose(path: seq<Entry>, pen: Pen, events: seq<Event>)
    ensures AllReported(Run(path, pen, events), events)
  {
    if events != [] {
      var n := |events| - 1;
      assert events == events[..n] + [events[n]];
      ReturnsToReportedPose(path, pen, events[..n]);
      OnUsesReported(Run(path, pen, events[..n]), events[n], events[..n]);
    }
  }

  lemma OnUsesReported(w: Node, e: Event, before: seq<Event>)
    requires AllReported(w, before)
    ensures AllReported(On(w, e), before + [e])
  {
    var after := before + [e];
    forall p | Reported(before, p) || e == PoseMsg(p) ensures Reported(after, p) {
      ReportedLater(before, e, p);
    }
    assert AllReported(w, after);
    match e
    case Result(success) => ResultUsesReported(w, success, after);
    case SpawnDone(_) =>
    case ChaseTimer =>
    case _ => assert On(w, e).sent == w.sent;
  }

  lemma ResultUsesReported(w: Node, success: bool, events: seq<Event>)
    requires AllReported(w, events)
    ensures AllReported(OnResult(w, success), events)
  {}

  // ---------- the pen during a chase ----------

  predicate PenUp(w: Node) {
    w.state != WRITING ==> w.pen == PenOff
  }

  /** At no point of the run is the pen on while the node is not writing. */
  predicate PenUpThroughout(path: seq<Entry>, pen: Pen, events: seq<Event>)
    decreases |events|
  {
    && PenUp(Run(path, pen, events))
    && (events == [] || PenUpThroughout(path, pen, events[..|events| - 1]))
  }

  lemma {:induction false} PenUpAt(path: seq<Entry>, pen: Pen, events: seq<Event>, n: nat)
    requires PenUpThroughout(path, pen, events) && n <= |events|
    ensures PenUp(Run(path, pen, events[..n]))
    decreases |events|
  {
    if n == |events| {
      assert events[..n] == events;
    } else {
      PenUpAt(path, pen, events[..|events| - 1], n);
      assert events[..|events| - 1][..n] == events[..n];
    }
  }

  /** Every confirmation of a cancellation finds the pen off. */
  predicate TimelyCancels(path: seq<Entry>, pen: Pen, events: seq<Event>)
    decreases |events|
  {
    events == [] ||
    (var n := |events| - 1;
     && TimelyCancels(path, pen, events[..n])
     && (events[n].CancelDone? ==> Run(path, pen, events[..n]).pen == PenOff))
  }

  lemma PenUpNext(w: Node, e: Event)
    requires PenUp(w)
    ensures PenUp(On(w, e)) <==> e.CancelDone? ==> w.pen == PenOff
  {}

  /** Nothing is drawn while the node is not writing, exactly if every cancellation is confirmed
      while the pen is off. */
  lemma {:induction false} PenUpExactly(path: seq<Entry>, pen: Pen, events: seq<Event>)
    ensures PenUpThroughout(path, pen, events) <==> TimelyCancels(path, pen, events)
    decreases |events|
  {
    if events == [] {
      assert PenUp(Init(path, pen));
    } else {
      var n := |events| - 1;
      PenUpExactly(path, pen, events[..n]);
      if PenUpThroughout(path, pen, events[..n]) {
        PenUpNext(Run(path, pen, events[..n]), events[n]);
      }
    }
  }

  ghost predicate ChasesPenOff(sent: seq<Sent>) {
    forall i | 0 <= i < |sent| :: sent[i].goal == Chase ==> sent[i].pen == PenOff
  }

  lemma ChasesKeepPenOff(w: Node, e: Event)
    requires PenUp(w) && ChasesPenOff(w.sent)
    ensures ChasesPenOff(On(w, e).sent)
  {
    match e
    case Result(success) => ResultSendsNoChase(w, success);
    case _ =>
  }

  lemma ResultSendsNoChase(w: Node, success: bool)
    requires ChasesPenOff(w.sent)
    ensures ChasesPenOff(OnResult(w, success).sent)
  {}

  /** Then, too, every chasing goal is sent with the pen off. */
  lemma {:induction false} ChasesUndrawn(path: seq<Entry>, pen: Pen, events: seq<Event>)
    requires TimelyCancels(path, pen, events)
    ensures ChasesPenOff(Run(path, pen, events).sent)
    decreases |events|
  {
    if events != [] {
      var n := |events| - 1;
      ChasesUndrawn(path, pen, events[..n]);
      PenUpExactly(path, pen, events[..n]);
      ChasesKeepPenOff(Run(path, pen, events[..n]), events[n]);
    }
  }

  lemma {:induction false} CancelsKnowPoses(path: seq<Entry>, pen: Pen, events: seq<Event>)
    ensures var w := Run(path, pen, events);
            w.pending.cancels > 0 ==> w.currentPose.Some? && w.turtle2Pose.Some?
  {
    if events != [] {
      var n := |events| - 1;
      CancelsKnowPoses(path, pen, events[..n]);
      PosesStayKnown(Run(path, pen, events[..n]), events[n]);
    }
  }

  lemma PosesStayKnown(w: Node, e: Event)
    requires w.pending.cancels > 0 ==> w.currentPose.Some? && w.turtle2Pose.Some?
    ensures On(w, e).pending.cancels > 0 ==> On(w, e).currentPose.Some? && On(w, e).turtle2Pose.Some?
  {
    match e
    case Result(success) => ResultKeepsPoses(w, success);
    case _ =>
  }

  lemma ResultKeepsPoses(w: Node, success: bool)
    ensures OnResult(w, success).currentPose == w.currentPose && OnResult(w, success).turtle2Pose == w.turtle2Pose
    ensures OnResult(w, success).pending.cancels == w.pending.cancels
  {}

  // ---------- the cycle of states ----------

  /** Writing, then angry, then returning, then writing again. */
  predicate InCycle(a: State, b: State) {
    b == a || (a, b) in {(WRITING, ANGRY), (ANGRY, RETURNING), (RETURNING, WRITING)}
  }

  /** The state leaves its cycle exactly when a cancellation is confirmed late: one of a writing
      goal while already returning, or one of a chase while writing again. */
  lemma CycleExactly(w: Node, e: Event)
    ensures InCycle(w.state, On(w, e).state)
       <==> !(e.CancelDone? && w.state == RETURNING) && !(e.CancelChasingDone? && w.state == WRITING)
  {}

  predicate PossibleRun(path: seq<Entry>, pen: Pen, events: seq<Event>)
    decreases |events|
  {
    events == [] ||
    (var n := |events| - 1;
     PossibleRun(path, pen, events[..n]) && Possible(Run(path, pen, events[..n]), events[n]))
  }

  lemma Extend(path: seq<Entry>, pen: Pen, events: seq<Event>, e: Event) returns (longer: seq<Event>, w: Node)
    requires PossibleRun(path, pen, events) && Possible(Run(path, pen, events), e)
    ensures longer == events + [e] && PossibleRun(path, pen, longer)
    ensures w == Run(path, pen, longer) == On(Run(path, pen, events), e)
  {
    longer := events + [e];
    assert longer[..|events|] == events;
    w := Run(path, pen, longer);
  }

  lemma SeenTwice(path: seq<Entry>, pen: Pen, here: Point) returns (events: seq<Event>, w: Node)
    requires path != []
    ensures PossibleRun(path, pen, events) && w == Run(path, pen, events)
    ensures w.state == WRITING && w.pending.cancels == 2 && w.currentPose == Some(here) && w.hasHandle
  {
    events := [];
    events, w := Extend(path, pen, events, PoseMsg(here));
    events, w := Extend(path, pen, events, GoalResponse(true));
    events, w := Extend(path, pen, events, Turtle2Msg(here));
    events, w := Extend(path, pen, events, Turtle2Msg(here));
  }

  /** A single late confirmation suffices: the run can go on with a chasing goal that draws. */
  lemma LateCancelCanDraw(path: seq<Entry>, pen: Pen, events: seq<Event>, ok: bool) returns (longer: seq<Event>, w: Node)
    requires PossibleRun(path, pen, events) && Possible(Run(path, pen, events), CancelDone(ok))
    requires Run(path, pen, events).pen == PenOn
    ensures longer == events + [CancelDone(ok), ChaseTimer]
    ensures PossibleRun(path, pen, longer) && w == Run(path, pen, longer)
    ensures w.sent == Run(path, pen, events).sent + [Sent(Chase, PenOn)]
  {
    CancelsKnowPoses(path, pen, events);
    longer, w := Extend(path, pen, events, CancelDone(ok));
    longer, w := Extend(path, pen, longer, ChaseTimer);
    assert events + [CancelDone(ok), ChaseTimer] == events + [CancelDone(ok)] + [ChaseTimer];
  }

  /** The second waypoint of the letters is under way, with the pen on. */
  lemma UsiSecondWaypoint(pen: Pen, here: Point) returns (events: seq<Event>, w: Node)
    ensures PossibleRun(UsiPath(), pen, events) && w == Run(UsiPath(), pen, events)
    ensures w.state == WRITING && w.currentPose == Some(here) && w.hasHandle
    ensures w.lastEntry == Some(UsiPath()[1]) && w.pending.results == 1 && w.pending.cancels == 0
  {
    events := [];
    events, w := Extend(UsiPath(), pen, events, PoseMsg(here));
    events, w := Extend(UsiPath(), pen, events, GoalResponse(true));
    events, w := Extend(UsiPath(), pen, events, Result(true));
    events, w := Extend(UsiPath(), pen, events, GoalResponse(true));
  }

  lemma Noticed(v: Node, here: Point) returns (w: Node)
    requires v.state == WRITING && v.currentPose == Some(here) && v.hasHandle
    ensures w == OnTurtle2Pose(v, here)
    ensures w.state == WRITING && w.currentPose == v.currentPose && w.hasHandle && w.lastEntry == v.lastEntry
    ensures w.pending == v.pending.(cancels := v.pending.cancels + 1)
  {
    w := OnTurtle2Pose(v, here);
    assert SquaredDistance(here, here) == 0.0;
  }

  /** Turtle2 is seen twice, so the goal is cancelled twice. */
  lemma CancelledTwice(path: seq<Entry>, pen: Pen, before: seq<Event>, v: Node, here: Point)
    returns (events: seq<Event>, w: Node)
    requires PossibleRun(path, pen, before) && v == Run(path, pen, before)
    requires v.state == WRITING && v.currentPose == Some(here) && v.hasHandle
    ensures PossibleRun(path, pen, events) && w == Run(path, pen, events)
    ensures w.state == WRITING && w.currentPose == Some(here) && w.lastEntry == v.lastEntry
    ensures w.pending.cancels == v.pending.cancels + 2 && w.pending.results == v.pending.results
  {
    var x := Noticed(v, here);
    var y := Noticed(x, here);
    events, w := Extend(path, pen, before, Turtle2Msg(here));
    events, w := Extend(path, pen, events, Turtle2Msg(here));
  }

  lemma Confirmed(v: Node) returns (w: Node)
    requires v.lastEntry.Some?
    ensures w == OnCancelDone(v, true)
    ensures w.state == ANGRY && !w.goalInProgress && w.queue == [v.lastEntry.value] + v.queue
    ensures w.currentPose == v.currentPose
    ensures w.pending == v.pending.(cancels := Pred(v.pending.cancels))
  {
    w := OnCancelDone(v, true);
  }

  lemma Caught(v: Node, here: Point) returns (w: Node)
    requires v.state == ANGRY && v.currentPose == Some(here) && !v.goalInProgress
    ensures w == OnTurtle2Pose(v, here)
    ensures w.state == RETURNING && w.goalType == ReturningGoal && w.queue == v.queue
    ensures w.pending.cancels == v.pending.cancels && w.pending.results == v.pending.results
  {
    w := OnTurtle2Pose(v, here);
    assert SquaredDistance(here, here) == 0.0;
  }

  lemma Resumed(v: Node) returns (w: Node)
    requires v.state == RETURNING && v.goalType == ReturningGoal
    requires v.queue != [] && v.queue[0].pen == Some(PenOn)
    ensures w == OnResult(v, true)
    ensures w.state == WRITING && w.pen == PenOn && w.pending.cancels == v.pending.cancels
  {
    w := OnResult(v, true);
  }

  /** The first confirmation starts the chase, turtle2 is caught, and writing goes on. */
  lemma BackToWriting(path: seq<Entry>, pen: Pen, before: seq<Event>, v: Node, here: Point)
    returns (events: seq<Event>, w: Node)
    requires PossibleRun(path, pen, before) && v == Run(path, pen, before)
    requires v.currentPose == Some(here) && v.pending.cancels > 0 && v.pending.results > 0
    requires v.lastEntry.Some? && v.lastEntry.value.pen == Some(PenOn)
    ensures PossibleRun(path, pen, events) && w == Run(path, pen, events)
    ensures w.state == WRITING && w.pen == PenOn && w.pending.cancels == v.pending.cancels - 1
  {
    var x := Confirmed(v);
    var y := Caught(x, here);
    var z := Resumed(y);
    events, w := Extend(path, pen, before, CancelDone(true));
    events, w := Extend(path, pen, events, Turtle2Msg(here));
    events, w := Extend(path, pen, events, Result(true));
  }

  /** The chase draws once a goal with the pen on has been cancelled twice. */
  lemma CancelledTwiceDraws(path: seq<Entry>, pen: Pen, before: seq<Event>, v: Node, here: Point)
    returns (events: seq<Event>, w: Node)
    requires PossibleRun(path, pen, before) && v == Run(path, pen, before)
    requires v.currentPose == Some(here) && v.pending.cancels > 1 && v.pending.results > 0
    requires v.lastEntry.Some? && v.lastEntry.value.pen == Some(PenOn)
    ensures PossibleRun(path, pen, events) && w == Run(path, pen, events)
    ensures !TimelyCancels(path, pen, events)
    ensures w.sent != [] && w.sent[|w.sent| - 1] == Sent(Chase, PenOn)
  {
    events, w := BackToWriting(path, pen, before, v, here);
    events, w := LateCancelCanDraw(path, pen, events, false);
    DrawingIsUntimely(path, pen, events, w);
  }

  lemma DrawingIsUntimely(path: seq<Entry>, pen: Pen, events: seq<Event>, w: Node)
    requires w == Run(path, pen, events) && w.sent != [] && w.sent[|w.sent| - 1] == Sent(Chase, PenOn)
    ensures !TimelyCancels(path, pen, events)
  {
    if TimelyCancels(path, pen, events) {
      ChasesUndrawn(path, pen, events);
    }
  }

  /** On the node's own path, too: the second confirmation comes when the pen is on again, and the
      next chasing goal is sent with it. */
  lemma LateCancelDrawsChase(pen: Pen) returns (events: seq<Event>, w: Node)
    ensures PossibleRun(UsiPath(), pen, events) && w == Run(UsiPath(), pen, events)
    ensures !TimelyCancels(UsiPath(), pen, events)
    ensures w.sent != [] && w.sent[|w.sent| - 1] == Sent(Chase, PenOn)
  {
    var here := Point(1.0, 9.0);
    events, w := UsiSecondWaypoint(pen, here);
    events, w := CancelledTwice(UsiPath(), pen, events, w, here);
    events, w := CancelledTwiceDraws(UsiPath(), pen, events, w, here);
  }

  /** Late confirmations do happen. Turtle2 is seen twice before the first cancellation is
      confirmed, so two confirmations are due; the second one comes during the return and makes
      the node angry again. */
  lemma LateCancelLeavesCycle(path: seq<Entry>, pen: Pen) returns (events: seq<Event>, e: Event)
    requires path != []
    ensures PossibleRun(path, pen, events) && Possible(Run(path, pen, events), e)
    ensures !InCycle(Run(path, pen, events).state, On(Run(path, pen, events), e).state)
  {
    var here, w := Point(1.0, 1.0), Init(path, pen);
    events, w := SeenTwice(path, pen, here);
    events, w := Extend(path, pen, events, CancelDone(true));
    events, w := Extend(path, pen, events, Turtle2Msg(here));
    e := CancelDone(true);
  }
}
