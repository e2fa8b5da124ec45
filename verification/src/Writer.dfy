/** The turtle writer: an event-driven state machine over asynchronous goals.

    Every callback of the node is a function on the node's state. Callbacks come in any order;
    which ones can come at all is recorded in `Pending`, the requests still without an answer.
    Setting the pen takes effect at once, positions are rounded already, and distances are
    compared by their squares.
 */
module Writer {
  import opened Wrappers

  datatype Pen = PenOn | PenOff

  /** A waypoint of the path; without a pen the current one is kept. */
  datatype Entry = Entry(x: real, y: real, pen: Option<Pen>)

  datatype Point = Point(x: real, y: real)

  datatype State = WRITING | ANGRY | RETURNING

  datatype GoalType = WritingGoal | ChasingGoal | ReturningGoal

  datatype Pending = Pending(cancels: nat, chaseCancels: nat, goals: nat, results: nat, kills: nat, spawns: nat)

  /** A goal as it was sent, and the pen at that moment. */
  datatype Goal = Waypoint(entry: Entry) | Chase | Return(to: Point)
  datatype Sent = Sent(goal: Goal, pen: Pen)

  datatype Node = Node(
    state: State, goalType: GoalType, queue: seq<Entry>, lastEntry: Option<Entry>,
    currentPose: Option<Point>, lastWritingPosition: Option<Point>, turtle2Pose: Option<Point>,
    hasHandle: bool, goalInProgress: bool, chaseTimer: bool,
    pen: Pen, sent: seq<Sent>, requeued: nat, pending: Pending)

  const CHASE_SQUARED: real := 4.0
  const KILL_SQUARED: real := 0.25

  function SquaredDistance(a: Point, b: Point): real {
    (a.x - b.x) * (a.x - b.x) + (a.y - b.y) * (a.y - b.y)
  }

  // ---------- the steps the callbacks share ----------

  function Send(w: Node, goal: Goal): Node {
    w.(sent := w.sent + [Sent(goal, w.pen)], pending := w.pending.(goals := w.pending.goals + 1))
  }

  /** `_send_next_goal`. */
  function SendNext(w: Node): Node {
    if w.queue == [] then w else
    var entry := w.queue[0];
    var pen := if entry.pen.Some? then entry.pen.value else w.pen;
    w.(queue := w.queue[1..], lastEntry := Some(entry),
       lastWritingPosition := if w.currentPose.Some? then w.currentPose else w.lastWritingPosition,
       pen := pen, goalType := WritingGoal,
       sent := w.sent + [Sent(Waypoint(entry), pen)], pending := w.pending.(goals := w.pending.goals + 1))
  }

  /** `_start_returning_after_kill`. */
  function StartReturning(w: Node): Node {
    w.(pending := w.pending.(kills := w.pending.kills + 1), state := RETURNING, goalType := ReturningGoal, pen := PenOff)
  }

  // ---------- the callbacks ----------

  function OnPose(w: Node, p: Point): Node {
    w.(currentPose := Some(p))
  }

  function OnTurtle2Pose(w: Node, p: Point): Node {
    var seen := w.(turtle2Pose := Some(p));
    if seen.currentPose == None then seen else
    var d := SquaredDistance(seen.currentPose.value, p);
    if seen.state == WRITING then
      if d >= CHASE_SQUARED then seen else
      var alert := seen.(pen := PenOff, goalType := ChasingGoal);
      if alert.hasHandle then alert.(pending := alert.pending.(cancels := alert.pending.cancels + 1))
      else alert.(state := ANGRY)
    else if seen.state == ANGRY && d < KILL_SQUARED then
      var calm := seen.(chaseTimer := false);
      if calm.hasHandle && calm.goalInProgress
      then calm.(pending := calm.pending.(chaseCancels := calm.pending.chaseCancels + 1))
      else StartReturning(calm)
    else seen
  }

  function Pred(n: nat): nat {
    if n == 0 then 0 else n - 1
  }

  function OnCancelChasingDone(w: Node): Node {
    StartReturning(w.(goalInProgress := false, pending := w.pending.(chaseCancels := Pred(w.pending.chaseCancels))))
  }

  function OnCancelDone(w: Node, ok: bool): Node {
    var again := ok && w.lastEntry.Some?;
    w.(pending := w.pending.(cancels := Pred(w.pending.cancels)),
       queue := if again then [w.lastEntry.value] + w.queue else w.queue,
       requeued := if again then w.requeued + 1 else w.requeued,
       goalInProgress := false, state := ANGRY, chaseTimer := true)
  }

  function OnChaseTimer(w: Node): Node {
    if w.turtle2Pose == None || w.currentPose == None || w.goalInProgress || w.state != ANGRY then w else
    Send(w.(goalType := ChasingGoal), Chase)
  }

  function OnGoalResponse(w: Node, accepted: bool): Node {
    var answered := w.(pending := w.pending.(goals := Pred(w.pending.goals)));
    if !accepted then answered else
    answered.(hasHandle := true, goalInProgress := true,
              pending := answered.pending.(results := answered.pending.results + 1))
  }

  function OnResult(w: Node, success: bool): Node {
    var done := w.(goalInProgress := false, pending := w.pending.(results := Pred(w.pending.results)));
    match done.goalType
    case WritingGoal => if done.state == WRITING && success then SendNext(done) else done
    case ChasingGoal => done
    case ReturningGoal =>
      if done.state == RETURNING && success
      then SendNext(done.(state := WRITING, goalType := WritingGoal, pen := PenOn))
      else done
  }

  function OnKillDone(w: Node, ok: bool): Node {
    w.(pending := w.pending.(kills := Pred(w.pending.kills), spawns := w.pending.spawns + if ok then 1 else 0))
  }

  function OnSpawnDone(w: Node, ok: bool): Node {
    var answered := w.(pending := w.pending.(spawns := Pred(w.pending.spawns)));
    if ok && answered.lastWritingPosition.Some? then Send(answered, Return(answered.lastWritingPosition.value))
    else answered
  }

  datatype Event =
    | PoseMsg(pose: Point)
    | Turtle2Msg(pose2: Point)
    | CancelDone(cancelled: bool)
    | CancelChasingDone
    | ChaseTimer
    | GoalResponse(accepted: bool)
    | Result(success: bool)
    | KillDone(killed: bool)
    | SpawnDone(spawned: bool)

  function On(w: Node, e: Event): Node {
    match e
    case PoseMsg(p) => OnPose(w, p)
    case Turtle2Msg(p) => OnTurtle2Pose(w, p)
    case CancelDone(ok) => OnCancelDone(w, ok)
    case CancelChasingDone => OnCancelChasingDone(w)
    case ChaseTimer => OnChaseTimer(w)
    case GoalResponse(accepted) => OnGoalResponse(w, accepted)
    case Result(success) => OnResult(w, success)
    case KillDone(ok) => OnKillDone(w, ok)
    case SpawnDone(ok) => OnSpawnDone(w, ok)
  }

  /** An answer can only come to a request, and the timer only while it runs. */
  predicate Possible(w: Node, e: Event) {
    match e
    case PoseMsg(_) => true
    case Turtle2Msg(_) => true
    case CancelDone(_) => w.pending.cancels > 0
    case CancelChasingDone => w.pending.chaseCancels > 0
    case ChaseTimer => w.chaseTimer
    case GoalResponse(_) => w.pending.goals > 0
    case Result(_) => w.pending.results > 0
    case KillDone(_) => w.pending.kills > 0
    case SpawnDone(_) => w.pending.spawns > 0
  }

  /** The node after construction with the given path: the first waypoint is under way. */
  function Init(path: seq<Entry>, pen: Pen): Node {
    SendNext(Node(WRITING, WritingGoal, path, None, None, None, None, false, false, false,
                  pen, [], 0, Pending(0, 0, 0, 0, 0, 0)))
  }

  function Run(path: seq<Entry>, pen: Pen, events: seq<Event>): Node {
    if events == [] then Init(path, pen) else
    On(Run(path, pen, events[..|events| - 1]), events[|events| - 1])
  }

  // ---------- the path of the node ----------

  function LetterU(x: real, y: real, size: real): seq<Entry> {
    [Entry(x, y - 0.5 * size, Some(PenOn)), Entry(x + 0.25 * size, y - 0.5 * size, None), Entry(x + 0.25 * size, y, None)]
  }

  function LetterS(x: real, y: real, size: real): seq<Entry> {
    [Entry(x + 0.9 * size, y, Some(PenOff)), Entry(x + 0.4 * size, y - 0.05 * size, Some(PenOn)),
     Entry(x + 1.0 * size, y - 0.3 * size, None), Entry(x + 0.4 * size, y - 0.5 * size, None)]
  }

  function LetterI(x: real, y: real, size: real): seq<Entry> {
    [Entry(x + 1.1 * size, y - 0.5 * size, Some(PenOff)), Entry(x + 1.1 * size, y, Some(PenOn))]
  }

  function UsiPath(): seq<Entry> {
    [Entry(1.0, 9.0, Some(PenOff))] + LetterU(1.0, 9.0, 8.0) + LetterS(1.0, 9.0, 8.0) + LetterI(1.0, 9.0, 8.0)
  }
}
