/** The scheduler of robot actions: the action map of `Robot`, the timed actions, and the SDK
    wrapper that reports the progress of an action to the client.

    What an action does to the rest of the robot is not part of this module. The measurement
    that an action ends on, its distance to the goal being below its tolerance, comes in with
    each step as the set of names whose goal is reached.
 */
module Actions {
  import opened ActionStates
  import opened Wrappers

  /** The keys of the action map, in its order. */
  datatype Name = Move | MoveArm | MoveGimbal | MoveServo | PlaySound

  const NAMES: seq<Name> := [Move, MoveArm, MoveGimbal, MoveServo, PlaySound]

  const SOUND_DURATION: real := 3.0
  const SERVO_MAX_DURATION: real := 5.0

  /** `push_freq`: the code of a push frequency, in Hz. */
  function PushFrequency(code: nat): nat {
    match code
    case 1 => 5
    case 2 => 10
    case _ => 1
  }

  /** The SDK part of an action: the frequency code of the request, and the time to the next push. */
  datatype Sdk = Sdk(id: nat, freqCode: nat, deadline: real)

  /** What a request says about it. */
  datatype Order = Order(id: nat, freqCode: nat)

  /** The constructor of the SDK part: the first message is due at once. */
  function NewSdk(order: Option<Order>): Option<Sdk> {
    match order
    case None => None
    case Some(o) => Some(Sdk(o.id, o.freqCode, 0.0))
  }

  /** The source tests the index of a servo with `>` against the number of servos, and then
      reads past the end of the array for the index 3. */
  type ServoIndex = i: nat | i != 3

  /** An action of the map. `ticket` numbers the accepted actions; `servo` is only meaningful for
      actions that move a servo. */
  datatype Task = Task(name: Name, ticket: nat, servo: ServoIndex, state: ActionState, remaining: real, playTimes: nat,
                       timeLeft: real, sdk: Option<Sdk>)

  /** A progress message to the client; the action's percentage and position are left out. */
  datatype Push = Push(ticket: nat, id: nat, state: ActionState)

  datatype Tick = Tick(dt: real, reached: bool)

  // ---------- one action ----------

  /** The `do_step` of the five kinds of action. */
  function AfterDoStep(a: Task, t: Tick): Task {
    match a.name
    case PlaySound =>
      var left := a.remaining - t.dt;
      if left >= 0.0 then a.(remaining := left, state := Running)
      else if a.playTimes == 0 then a.(remaining := left, state := Succeed)
      else a.(remaining := SOUND_DURATION, playTimes := a.playTimes - 1, state := Running)
    case MoveServo =>
      a.(state := StateTowards(a.state, t.reached || a.timeLeft < 0.0), timeLeft := a.timeLeft - t.dt)
    case _ =>
      a.(state := StateTowards(a.state, t.reached))
  }

  /** A started action runs at once, and ends as soon as its goal is reached. */
  function StateTowards(s: ActionState, reached: bool): ActionState {
    if s != Started && s != Running then s else if reached then Succeed else Running
  }

  /** `ActionSDK::publish`: pushes when the action is done or the deadline has come. */
  predicate Publishes(a: Task, dt: real) {
    a.sdk.Some? && (IsDone(a.state) || a.sdk.value.deadline - dt <= 0.0)
  }

  function AfterPublish(a: Task, dt: real): Task {
    if a.sdk == None then a else
    var k := a.sdk.value;
    var late := k.deadline - dt;
    a.(sdk := Some(k.(deadline := if Publishes(a, dt) then late + 1.0 / PushFrequency(k.freqCode) as real else late)))
  }

  /** `do_step_cb`. */
  function AfterTick(a: Task, t: Tick): Task {
    AfterPublish(AfterDoStep(a, t), t.dt)
  }

  function PushesOfTick(a: Task, t: Tick): seq<Push> {
    var b := AfterDoStep(a, t);
    if Publishes(b, t.dt) then [Push(b.ticket, b.sdk.value.id, b.state)] else []
  }

  // ---------- the robot ----------

  /** What the robot has, what it runs, and the last final state by name; then two logs, the
      actions that were removed and the messages that were pushed. */
  datatype Robot = Robot(
    hasArm: bool, hasGimbal: bool, hasServo: seq<bool>, active: map<Name, Task>, previous: map<Name, ActionState>,
    accepted: nat, ended: map<nat, Task>, pushed: seq<Push>)

  datatype Request = Request(name: Name, servo: ServoIndex, playTimes: nat, sdk: Option<Order>)

  predicate Available(r: Robot, q: Request)
    requires |r.hasServo| == 3
  {
    match q.name
    case MoveArm => r.hasArm
    case MoveGimbal => r.hasGimbal
    case MoveServo => q.servo < 3 && r.hasServo[q.servo]
    case _ => true
  }

  /** The constructor of the action; only accepted actions get a ticket. */
  function NewTask(q: Request, ticket: nat): Task {
    Task(q.name, ticket, q.servo, Started, 0.0, q.playTimes, SERVO_MAX_DURATION, NewSdk(q.sdk))
  }

  function Answer(r: Robot, q: Request): ActionState
    requires |r.hasServo| == 3
  {
    if !Available(r, q) || q.name in r.active then Rejected else Started
  }

  function AfterSubmit(r: Robot, q: Request): (r': Robot)
    requires |r.hasServo| == 3
    ensures |r'.hasServo| == 3
  {
    if Answer(r, q) == Rejected then r else
    r.(active := r.active[q.name := NewTask(q, r.accepted)], accepted := r.accepted + 1)
  }

  /** The action under `n` has done its step and has sent its messages. */
  function Stepped(r: Robot, n: Name, a: Task, sent: seq<Push>): Robot {
    r.(active := r.active[n := a], pushed := r.pushed + sent)
  }

  /** The action under `n` is erased, and its state recorded. */
  function Erased(r: Robot, n: Name): Robot
    requires n in r.active
  {
    var a := r.active[n];
    r.(active := r.active - {n}, previous := r.previous[n := a.state], ended := r.ended[a.ticket := a])
  }

  /** The turn of one key in the loop of `Robot::do_step`. */
  function AfterTurn(r: Robot, n: Name, dt: real, reached: set<Name>): (r': Robot)
    ensures r'.hasServo == r.hasServo
  {
    if n !in r.active then r else
    var t := Tick(dt, n in reached);
    var s := Stepped(r, n, AfterTick(r.active[n], t), PushesOfTick(r.active[n], t));
    if IsDone(s.active[n].state) then Erased(s, n) else s
  }

  function AfterTurns(r: Robot, count: nat, dt: real, reached: set<Name>): (r': Robot)
    requires count <= |NAMES|
    ensures r'.hasServo == r.hasServo
  {
    if count == 0 then r else AfterTurn(AfterTurns(r, count - 1, dt, reached), NAMES[count - 1], dt, reached)
  }

  function AfterStep(r: Robot, dt: real, reached: set<Name>): (r': Robot)
    ensures r'.hasServo == r.hasServo
  {
    AfterTurns(r, |NAMES|, dt, reached)
  }

  datatype Event = Submit(request: Request) | Step(dt: real, reached: set<Name>)

  function After(r: Robot, e: Event): (r': Robot)
    requires |r.hasServo| == 3
    ensures |r'.hasServo| == 3
  {
    match e
    case Submit(q) => AfterSubmit(r, q)
    case Step(dt, reached) => AfterStep(r, dt, reached)
  }

  function Run(r: Robot, events: seq<Event>): (r': Robot)
    requires |r.hasServo| == 3
    ensures |r'.hasServo| == 3
  {
    if events == [] then r else After(Run(r, events[..|events| - 1]), events[|events| - 1])
  }

  function NewRobot(hasArm: bool, hasGimbal: bool, hasServo: seq<bool>): Robot
    requires |hasServo| == 3
  {
    Robot(hasArm && hasServo[0] && hasServo[1], hasGimbal, hasServo, map[], map[], 0, map[], [])
  }
}
