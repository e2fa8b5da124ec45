/** The command server's subscriptions and its heartbeat watchdog.

    Events are present or absent; what they push, video, sockets and the robot behind the server
    are left out.
 */
module Commands {
  import opened RealMath
  import opened Topic
  import T = Topic

  const MAX_HEARTBEAT_DELAY: real := 3.0

  /** The uids of the registered subjects. */
  type Subjects = set<nat>

  datatype CommandsState = CommandsState(
    publishers: map<nat, TopicState>, armorHitEvent: bool, irHitEvent: bool, visionEvent: bool,
    streaming: bool, connected: bool, lastHeartbeat: real, time: real)

  datatype Config = Config(subjects: Subjects, enableArmorHits: bool, enableIrHits: bool)

  /** The state after construction. */
  function NewCommands(): CommandsState {
    CommandsState(map[], false, false, false, false, false, 0.0, 0.0)
  }

  // ---------- the operations as functions ----------

  function AfterAddNode(c: Config, s: CommandsState): CommandsState {
    s.(armorHitEvent := s.armorHitEvent || c.enableArmorHits, irHitEvent := s.irHitEvent || c.enableIrHits,
       lastHeartbeat := s.time, connected := true)
  }

  function AfterHeartbeat(s: CommandsState): CommandsState {
    s.(lastHeartbeat := s.time)
  }

  function AfterUnconnect(s: CommandsState): CommandsState {
    s.(streaming := false, armorHitEvent := false, irHitEvent := false, visionEvent := false,
       publishers := map[], connected := false)
  }

  function AfterEnableSdk(s: CommandsState, value: bool): CommandsState {
    if value then s else s.(armorHitEvent := false, irHitEvent := false, visionEvent := false, publishers := map[])
  }

  function Emplaced(s: CommandsState, key: nat, freq: nat): CommandsState {
    if key in s.publishers then s else s.(publishers := s.publishers[key := TopicState(freq, Never, false, 0)])
  }

  function AfterCreate(c: Config, s: CommandsState, uid: nat, key: nat, freq: nat): CommandsState {
    if uid !in c.subjects then s else
    var e := Emplaced(s, key, freq);
    e.(publishers := e.publishers[key := Started(e.publishers[key])])
  }

  function AfterStop(s: CommandsState, key: nat): CommandsState {
    s.(publishers := s.publishers - {key})
  }

  function StepAll(publishers: map<nat, TopicState>, dt: real): map<nat, TopicState> {
    map k | k in publishers :: AfterTopicStep(publishers[k], dt)
  }

  /** The check of the heartbeat after `dt` has gone by. */
  function Watched(s: CommandsState, dt: real): CommandsState {
    var late := s.(time := s.time + dt);
    if late.connected && late.time - late.lastHeartbeat > MAX_HEARTBEAT_DELAY then AfterUnconnect(late) else late
  }

  function AfterStep(s: CommandsState, dt: real): CommandsState {
    Watched(s.(publishers := StepAll(s.publishers, dt)), dt)
  }

  // ---------- the server ----------

  class Commands {
    const config: Config
    var publishers: map<nat, Topic>
    var armorHitEvent: bool
    var irHitEvent: bool
    var visionEvent: bool
    var streaming: bool
    var connected: bool
    var lastHeartbeat: real
    var time: real

    ghost function Topics(): set<Topic>
      reads this
    {
      publishers.Values
    }

    /** Every key has its own topic. */
    ghost predicate Valid()
      reads this
    {
      forall j, k :: j in publishers && k in publishers && j != k ==> publishers[j] != publishers[k]
    }

    ghost function View(): CommandsState
      reads this, Topics()
    {
      CommandsState(map k | k in publishers :: publishers[k].View(), armorHitEvent, irHitEvent, visionEvent,
                    streaming, connected, lastHeartbeat, time)
    }

    constructor (config: Config)
      ensures Valid() && this.config == config
      ensures View() == NewCommands()
    {
      this.config := config;
      publishers := map[];
      armorHitEvent, irHitEvent, visionEvent, streaming := false, false, false, false;
      connected, lastHeartbeat, time := false, 0.0, 0.0;
    }

    method AddSubscriberNode()
      requires Valid()
      modifies this
      ensures Valid() && View() == AfterAddNode(config, old(View()))
    {
      if config.enableArmorHits {
        armorHitEvent := true;
      }
      if config.enableIrHits {
        irHitEvent := true;
      }
      lastHeartbeat := time;
      connected := true;
    }

    method GotHeartbeat()
      requires Valid()
      modifies this
      ensures Valid() && View() == AfterHeartbeat(old(View()))
    {
      lastHeartbeat := time;
    }

    /** `reset_subscriber_node` and the watchdog both end here. */
    method Unconnect()
      requires Valid()
      modifies this
      ensures Valid() && View() == AfterUnconnect(old(View()))
    {
      streaming := false;
      armorHitEvent, irHitEvent, visionEvent := false, false, false;
      publishers := map[];
      connected := false;
    }

    method SetEnableSdk(value: bool)
      requires Valid()
      modifies this
      ensures Valid() && View() == AfterEnableSdk(old(View()), value)
    {
      if !value {
        armorHitEvent, irHitEvent, visionEvent := false, false, false;
        publishers := map[];
      }
    }

    method SetVisionRequest()
      requires Valid()
      modifies this
      ensures Valid() && View() == old(View()).(visionEvent := true)
    {
      visionEvent := true;
    }

    /** `publishers.emplace`: an existing topic is not replaced. */
    method Emplace(key: nat, freq: nat)
      requires Valid()
      modifies this`publishers
      ensures Valid() && key in publishers && fresh(Topics() - old(Topics()))
      ensures View() == Emplaced(old(View()), key, freq)
    {
      if key !in publishers {
        var topic := new Topic(freq);
        publishers := publishers[key := topic];
      }
    }

    method StartTopic(key: nat)
      requires Valid() && key in publishers
      modifies publishers[key]
      ensures Valid() && View() == old(View()).(publishers := old(View()).publishers[key := Started(old(publishers[key].View()))])
    {
      publishers[key].Start();
    }

    /** An existing topic is only started again, at its old frequency. */
    method CreatePublisher(uid: nat, key: nat, freq: nat)
      requires Valid()
      modifies this, Topics()
      ensures Valid() && View() == AfterCreate(config, old(View()), uid, key, freq)
    {
      if uid !in config.subjects {
        return;
      }
      Emplace(key, freq);
      StartTopic(key);
    }

    method StopPublisher(key: nat)
      requires Valid()
      modifies this
      ensures Valid() && View() == AfterStop(old(View()), key)
    {
      publishers := publishers - {key};
    }

    method StepPublishers(dt: real)
      requires Valid()
      modifies Topics()
      ensures Valid() && View() == old(View()).(publishers := StepAll(old(View()).publishers, dt))
    {
      var todo := publishers.Keys;
      while todo != {}
        invariant todo <= publishers.Keys
        invariant forall k | k in todo :: publishers[k].View() == old(publishers[k].View())
        invariant forall k | k in publishers.Keys - todo :: publishers[k].View() == AfterTopicStep(old(publishers[k].View()), dt)
        decreases todo
      {
        var key :| key in todo;
        publishers[key].DoStep(dt);
        todo := todo - {key};
      }
    }

    method CheckHeartbeat(dt: real)
      requires Valid()
      modifies this
      ensures Valid() && View() == Watched(old(View()), dt)
    {
      time := time + dt;
      if connected && time - lastHeartbeat > MAX_HEARTBEAT_DELAY {
        Unconnect();
      }
    }

    method DoStep(dt: real)
      requires Valid()
      modifies this, Topics()
      ensures Valid() && View() == AfterStep(old(View()), dt)
    {
      StepPublishers(dt);
      CheckHeartbeat(dt);
    }
  }

  // ---------- every reachable state ----------

  datatype Operation =
    | AddNode
    | Heartbeat
    | ResetNode
    | EnableSdk(value: bool)
    | VisionRequest
    | Create(uid: nat, key: nat, freq: nat)
    | Stop(stopped: nat)
    | Step(dt: real)

  function Apply(c: Config, s: CommandsState, op: Operation): CommandsState {
    match op
    case AddNode => AfterAddNode(c, s)
    case Heartbeat => AfterHeartbeat(s)
    case ResetNode => AfterUnconnect(s)
    case EnableSdk(value) => AfterEnableSdk(s, value)
    case VisionRequest => s.(visionEvent := true)
    case Create(uid, key, freq) => AfterCreate(c, s, uid, key, freq)
    case Stop(key) => AfterStop(s, key)
    case Step(dt) => AfterStep(s, dt)
  }

  predicate Possible(op: Operation) {
    op.Step? ==> op.dt >= 0.0
  }

  function Run(c: Config, s: CommandsState, ops: seq<Operation>): CommandsState
    decreases |ops|
  {
    if ops == [] then s else Run(c, Apply(c, s, ops[0]), ops[1..])
  }

  /** A connected client was heard of not too long ago, and no topic is overdue. */
  ghost predicate Invariant(s: CommandsState) {
    && (s.connected ==> 0.0 <= s.time - s.lastHeartbeat <= MAX_HEARTBEAT_DELAY)
    && (forall k <- s.publishers :: s.publishers[k].Live())
  }

  lemma TopicStepLive(s: TopicState, dt: real)
    requires s.Live() && dt >= 0.0
    ensures AfterTopicStep(s, dt).Live()
  {
    if s.freq > 0 {
      StepBounds(s.deadline.time, dt, s.freq as real, Emitted(s, dt));
    }
  }

  lemma StepKeeps(s: CommandsState, dt: real)
    requires Invariant(s) && dt >= 0.0
    ensures Invariant(AfterStep(s, dt))
  {
    forall k | k in s.publishers
      ensures AfterTopicStep(s.publishers[k], dt).Live()
    {
      TopicStepLive(s.publishers[k], dt);
    }
  }

  lemma StartedLive(t: TopicState)
    ensures Started(t).Live()
  {
    assert 0.0 * t.freq as real == 0.0;
  }

  lemma CreateKeeps(c: Config, s: CommandsState, uid: nat, key: nat, freq: nat)
    requires Invariant(s)
    ensures Invariant(AfterCreate(c, s, uid, key, freq))
  {
    StartedLive(Emplaced(s, key, freq).publishers[key]);
  }

  lemma ApplyKeeps(c: Config, s: CommandsState, op: Operation)
    requires Invariant(s) && Possible(op)
    ensures Invariant(Apply(c, s, op))
  {
    match op {
      case Step(dt) => StepKeeps(s, dt);
      case Create(uid, key, freq) => CreateKeeps(c, s, uid, key, freq);
      case _ =>
    }
  }

  /** The invariant holds after every run of operations. */
  lemma {:induction false} RunKeeps(c: Config, s: CommandsState, ops: seq<Operation>)
    requires Invariant(s)
    requires forall op <- ops :: Possible(op)
    ensures Invariant(Run(c, s, ops))
    decreases |ops|
  {
    if ops != [] {
      ApplyKeeps(c, s, ops[0]);
      RunKeeps(c, Apply(c, s, ops[0]), ops[1..]);
    }
  }

  /** So it does in every state that the server ever reaches. */
  lemma ReachableKeeps(c: Config, ops: seq<Operation>)
    requires forall op <- ops :: Possible(op)
    ensures Invariant(Run(c, NewCommands(), ops))
  {
    RunKeeps(c, NewCommands(), ops);
  }

  /** A step drops the client exactly when it is connected and overdue; then no publisher and no
      event survives, and otherwise none is lost. */
  lemma DroppedExactlyWhenOverdue(s: CommandsState, dt: real)
    ensures var s', overdue := AfterStep(s, dt), s.connected && s.time + dt - s.lastHeartbeat > MAX_HEARTBEAT_DELAY;
            && (overdue ==> !s'.connected && !s'.streaming && !s'.armorHitEvent && !s'.irHitEvent && !s'.visionEvent)
            && (!overdue ==> s' == s.(time := s.time + dt, publishers := s'.publishers))
            && s'.publishers.Keys == (if overdue then {} else s.publishers.Keys)
  {}

  /** Topics are never replaced: as long as a key is subscribed, it keeps the frequency of its
      first subscription, and its frames are counted on. */
  lemma {:induction false} FirstFrequencyStays(c: Config, s: CommandsState, ops: seq<Operation>, key: nat)
    requires forall i | 0 <= i <= |ops| :: key in Run(c, s, ops[..i]).publishers
    ensures key in s.publishers && key in Run(c, s, ops).publishers
    ensures Run(c, s, ops).publishers[key].freq == s.publishers[key].freq
    ensures Run(c, s, ops).publishers[key].published >= s.publishers[key].published
    decreases |ops|
  {
    assert ops[..0] == [] && ops[..|ops|] == ops;
    if ops != [] {
      var s', rest := Apply(c, s, ops[0]), ops[1..];
      forall i | 0 <= i <= |rest| ensures key in Run(c, s', rest[..i]).publishers {
        assert ops[..i + 1][1..] == rest[..i];
        assert key in Run(c, s, ops[..i + 1]).publishers;
      }
      assert key in s'.publishers by {
        assert rest[..0] == [] && Run(c, s', []) == s';
      }
      ApplyKeepsTopic(c, s, ops[0], key);
      FirstFrequencyStays(c, s', rest, key);
    }
  }

  lemma ApplyKeepsTopic(c: Config, s: CommandsState, op: Operation, key: nat)
    requires key in s.publishers && key in Apply(c, s, op).publishers
    ensures var t, t' := s.publishers[key], Apply(c, s, op).publishers[key];
            t'.freq == t.freq && t'.published >= t.published
  {
    match op
    case Create(uid, k, freq) => CreateKeepsTopic(c, s, uid, k, freq, key);
    case _ =>
  }

  lemma CreateKeepsTopic(c: Config, s: CommandsState, uid: nat, k: nat, freq: nat, key: nat)
    requires key in s.publishers
    ensures var s' := AfterCreate(c, s, uid, k, freq);
            && key in s'.publishers && s'.publishers[key].freq == s.publishers[key].freq
            && s'.publishers[key].published == s.publishers[key].published
  {}

  // ---------- a silent client ----------

  /** The client does not announce itself any more; whatever else it does is free. */
  predicate Silent(ops: seq<Operation>) {
    forall op <- ops :: Possible(op) && !op.AddNode? && !op.Heartbeat?
  }

  /** It does not subscribe under the key again either. */
  predicate SilentOn(ops: seq<Operation>, key: nat) {
    Silent(ops) && forall op <- ops :: op.Create? ==> op.key != key
  }

  /** The time that goes by during the operations. */
  function Elapsed(ops: seq<Operation>): real
    decreases |ops|
  {
    if ops == [] then 0.0 else (if ops[0].Step? then ops[0].dt else 0.0) + Elapsed(ops[1..])
  }

  predicate StepsUpTo(ops: seq<Operation>, longest: real) {
    forall op <- ops :: op.Step? ==> op.dt <= longest
  }

  /** The frames that the topic under `key` sends during one operation. */
  function SentBy(s: CommandsState, op: Operation, key: nat): nat {
    if op.Step? && key in s.publishers then Emitted(s.publishers[key], op.dt) else 0
  }

  function SentDuring(c: Config, s: CommandsState, key: nat, ops: seq<Operation>): nat
    decreases |ops|
  {
    if ops == [] then 0 else SentBy(s, ops[0], key) + SentDuring(c, Apply(c, s, ops[0]), key, ops[1..])
  }

  /** A key that is gone stays away. */
  lemma StaysAway(c: Config, s: CommandsState, op: Operation, key: nat)
    requires key !in s.publishers && (op.Create? ==> op.key != key)
    ensures key !in Apply(c, s, op).publishers
  {
    match op
    case Create(uid, k, freq) => OtherKeys(c, s, uid, k, freq, key);
    case _ =>
  }

  /** A subscription concerns its own key only. */
  lemma OtherKeys(c: Config, s: CommandsState, uid: nat, key: nat, freq: nat, other: nat)
    requires other != key
    ensures var s' := AfterCreate(c, s, uid, key, freq);
            && (other in s'.publishers <==> other in s.publishers)
            && (other in s.publishers ==> s'.publishers[other] == s.publishers[other])
  {}

  lemma {:induction false} NoTopicNothingSent(c: Config, s: CommandsState, key: nat, ops: seq<Operation>)
    requires key !in s.publishers && SilentOn(ops, key)
    ensures SentDuring(c, s, key, ops) == 0
    decreases |ops|
  {
    if ops != [] {
      StaysAway(c, s, ops[0], key);
      NoTopicNothingSent(c, Apply(c, s, ops[0]), key, ops[1..]);
    }
  }

  /** A topic that is never early sends at most one frame per period, and one more. */
  ghost predicate WithinBudget(topic: TopicState, sent: int, time: real) {
    topic.deadline == Never || topic.freq == 0
    || sent as real <= (time - topic.deadline.time) * topic.freq as real + 1.0
  }

  lemma EmittedWithinBudget(s: TopicState, dt: real)
    requires s.Live() && s.freq > 0 && dt >= 0.0
    ensures WithinBudget(s, Emitted(s, dt), dt)
  {
    var f, d, n := s.freq as real, s.deadline.time - dt, Emitted(s, dt) as real;
    assert -d * f == (dt - s.deadline.time) * f;
    if n == 0.0 {
      assert (dt - s.deadline.time) * f + 1.0 >= 0.0 by {
        ProductNonNegative(dt, f);
        assert (dt - s.deadline.time) * f == dt * f - s.deadline.time * f;
      }
    }
  }

  lemma NothingWithinBudget(s: TopicState)
    requires s.Live() && s.freq > 0
    ensures WithinBudget(s, 0, 0.0)
  {
    assert (0.0 - s.deadline.time) * s.freq as real == -(s.deadline.time * s.freq as real);
  }

  lemma BudgetStep(s: TopicState, dt: real, rest: int, time: real)
    requires s.Live() && s.freq > 0 && dt >= 0.0
    requires WithinBudget(AfterTopicStep(s, dt), rest, time)
    ensures WithinBudget(s, Emitted(s, dt) + rest, dt + time)
  {
    var f, x, n := s.freq as real, s.deadline.time, Emitted(s, dt) as real;
    var y := AfterTopicStep(s, dt).deadline.time;
    assert (n / f) * f == n;
    assert y == x - dt + n / f by {
      assert 0.0 / f == 0.0;
    }
    assert (time - y) * f == (dt + time - x) * f - (n / f) * f;
  }

  /** One operation of a silent client: it loses the topic, or the topic goes on and the client is
      as far from its last heartbeat as the time that has gone by. */
  lemma SilentOperation(c: Config, s: CommandsState, op: Operation, key: nat)
    requires Invariant(s) && s.connected && key in s.publishers && SilentOn([op], key)
    ensures var s', dt := Apply(c, s, op), Elapsed([op]);
            key in s'.publishers ==>
              && s'.connected && s'.lastHeartbeat == s.lastHeartbeat && s'.time == s.time + dt
              && s'.publishers[key] == if op.Step? then AfterTopicStep(s.publishers[key], dt) else s.publishers[key]
  {
    assert op in [op];
  }

  /** While the client stays silent a topic sends no more than its share of the time that is left
      before the watchdog, plus one step, plus one frame. */
  lemma {:induction false} SilentBudget(c: Config, s: CommandsState, key: nat, ops: seq<Operation>, longest: real)
    returns (time: real)
    requires Invariant(s) && s.connected && key in s.publishers && s.publishers[key].freq > 0
    requires SilentOn(ops, key) && longest >= 0.0 && StepsUpTo(ops, longest)
    ensures 0.0 <= time <= MAX_HEARTBEAT_DELAY - (s.time - s.lastHeartbeat) + longest
    ensures WithinBudget(s.publishers[key], SentDuring(c, s, key, ops), time)
    decreases |ops|
  {
    var topic := s.publishers[key];
    if ops == [] {
      time := 0.0;
      NothingWithinBudget(topic);
    } else {
      var s', op, rest := Apply(c, s, ops[0]), ops[0], ops[1..];
      assert op in ops;
      SilentOperation(c, s, op, key);
      ApplyKeeps(c, s, op);
      if key in s'.publishers {
        time := SilentBudget(c, s', key, rest, longest);
        if op.Step? {
          BudgetStep(topic, op.dt, SentDuring(c, s', key, rest), time);
          time := op.dt + time;
        }
      } else {
        NoTopicNothingSent(c, s', key, rest);
        time := if op.Step? then op.dt else 0.0;
        LastOperation(s, op, key);
      }
    }
  }

  lemma LastOperation(s: CommandsState, op: Operation, key: nat)
    requires key in s.publishers && s.publishers[key].Live() && s.publishers[key].freq > 0 && Possible(op)
    ensures WithinBudget(s.publishers[key], SentBy(s, op, key), if op.Step? then op.dt else 0.0)
  {
    if op.Step? {
      EmittedWithinBudget(s.publishers[key], op.dt);
    } else {
      NothingWithinBudget(s.publishers[key]);
    }
  }

  /** One frame per period of the time limit, and one more. */
  function FrameBudget(freq: nat, limit: real): int {
    (limit * freq as real).Floor + 1
  }

  lemma BudgetFloor(topic: TopicState, sent: int, time: real, limit: real)
    requires topic.Live() && topic.freq > 0 && time <= limit
    requires WithinBudget(topic, sent, time)
    ensures sent <= FrameBudget(topic.freq, limit)
  {
    var f, x := topic.freq as real, topic.deadline.time;
    ProductNonNegative(limit - time + x, f);
    assert (limit - time + x) * f == limit * f - (time - x) * f;
  }

  /** After its last heartbeat a client that keeps silent gets at most floor((3 + dt) * f) + 1
      frames of any topic of frequency f that it does not subscribe to again, where dt is the
      longest step; whatever it subscribes to, unsubscribes from, enables or resets meanwhile. */
  lemma SilentClientBound(c: Config, s: CommandsState, key: nat, ops: seq<Operation>, longest: real)
    requires Invariant(s) && s.connected && s.time == s.lastHeartbeat
    requires key in s.publishers && s.publishers[key].freq > 0
    requires SilentOn(ops, key) && longest >= 0.0 && StepsUpTo(ops, longest)
    ensures SentDuring(c, s, key, ops) <= FrameBudget(s.publishers[key].freq, MAX_HEARTBEAT_DELAY + longest)
  {
    var time := SilentBudget(c, s, key, ops, longest);
    BudgetFloor(s.publishers[key], SentDuring(c, s, key, ops), time, MAX_HEARTBEAT_DELAY + longest);
  }

  /** Disconnected, with nothing left of the client. */
  ghost predicate Dropped(s: CommandsState) {
    && !s.connected && !s.streaming && s.publishers == map[]
    && !s.armorHitEvent && !s.irHitEvent && !s.visionEvent
  }

  lemma {:induction false} UnconnectedStays(c: Config, s: CommandsState, ops: seq<Operation>)
    requires !s.connected && Silent(ops)
    ensures !Run(c, s, ops).connected
    decreases |ops|
  {
    if ops != [] {
      assert ops[0] in ops;
      UnconnectedStays(c, Apply(c, s, ops[0]), ops[1..]);
    }
  }

  lemma SilentStep(c: Config, s: CommandsState, op: Operation)
    requires s.connected && Silent([op])
    ensures var s', dt := Apply(c, s, op), Elapsed([op]);
            if s'.connected then s'.lastHeartbeat == s.lastHeartbeat && s'.time == s.time + dt else Dropped(s')
  {
    assert op in [op];
  }

  /** Silence for more than three seconds always ends the connection, whatever else the client does:
      after the first `at` operations nothing is left of it, and it stays unconnected. */
  lemma {:induction false} SilentClientDropped(c: Config, s: CommandsState, ops: seq<Operation>) returns (at: nat)
    requires Invariant(s) && s.connected && Silent(ops)
    requires s.time - s.lastHeartbeat + Elapsed(ops) > MAX_HEARTBEAT_DELAY
    ensures at <= |ops| && Dropped(Run(c, s, ops[..at]))
    ensures !Run(c, s, ops).connected
    decreases |ops|
  {
    assert ops != [];
    var s', rest := Apply(c, s, ops[0]), ops[1..];
    assert ops[0] in ops && Elapsed([ops[0]]) + Elapsed(rest) == Elapsed(ops) by {
      assert [ops[0]][1..] == [];
    }
    SilentStep(c, s, ops[0]);
    ApplyKeeps(c, s, ops[0]);
    if s'.connected {
      at := SilentClientDropped(c, s', rest);
      at := at + 1;
    } else {
      UnconnectedStays(c, s', rest);
      at := 1;
      assert rest[..0] == [];
    }
    assert ops[..at][1..] == rest[..at - 1] && ops[..at][0] == ops[0];
  }

  // ---------- a client that never connects ----------

  /** The operation neither connects nor disconnects, and leaves the key alone. */
  predicate Aside(op: Operation, key: nat) {
    match op
    case AddNode => false
    case ResetNode => false
    case EnableSdk(value) => value
    case Create(_, k, _) => k != key
    case Stop(k) => k != key
    case _ => true
  }

  /** The sizes of the steps among the operations. */
  function StepSizes(ops: seq<Operation>): seq<real>
    decreases |ops|
  {
    if ops == [] then [] else (if ops[0].Step? then [ops[0].dt] else []) + StepSizes(ops[1..])
  }

  /** The watchdog guards connected clients only: the topic of a client that is not connected goes
      on publishing at its frequency for ever, as if there were no watchdog. */
  lemma {:induction false} UnconnectedKeepsTopic(c: Config, s: CommandsState, key: nat, ops: seq<Operation>)
    requires !s.connected && key in s.publishers
    requires forall op <- ops :: Aside(op, key)
    ensures var s' := Run(c, s, ops);
            !s'.connected && key in s'.publishers && s'.publishers[key] == T.Run(s.publishers[key], StepSizes(ops))
    decreases |ops|
  {
    if ops != [] {
      assert ops[0] in ops;
      AsideKeepsTopic(c, s, ops[0], key);
      UnconnectedKeepsTopic(c, Apply(c, s, ops[0]), key, ops[1..]);
      TopicRunFirst(s.publishers[key], ops);
    }
  }

  lemma AsideKeepsTopic(c: Config, s: CommandsState, op: Operation, key: nat)
    requires !s.connected && key in s.publishers && Aside(op, key)
    ensures var s' := Apply(c, s, op);
            && !s'.connected && key in s'.publishers
            && s'.publishers[key] == if op.Step? then AfterTopicStep(s.publishers[key], op.dt) else s.publishers[key]
  {}

  lemma TopicRunFirst(t: TopicState, ops: seq<Operation>)
    requires ops != []
    ensures T.Run(t, StepSizes(ops))
         == T.Run(if ops[0].Step? then AfterTopicStep(t, ops[0].dt) else t, StepSizes(ops[1..]))
  {
    if ops[0].Step? {
      assert StepSizes(ops)[0] == ops[0].dt && StepSizes(ops)[1..] == StepSizes(ops[1..]);
    } else {
      assert StepSizes(ops) == StepSizes(ops[1..]);
    }
  }

  /** So a client that subscribes without ever connecting gets floor(T * f) + 1 frames in the time
      T, from the start of the server on and without end. */
  lemma NeverConnectedKeepsPublishing(c: Config, uid: nat, key: nat, freq: nat, ops: seq<Operation>) returns (s: CommandsState)
    requires uid in c.subjects && freq > 0
    requires StepSizes(ops) != [] && forall op <- ops :: Aside(op, key) && Possible(op)
    ensures s == Run(c, NewCommands(), [Create(uid, key, freq)] + ops)
    ensures !s.connected && key in s.publishers
    ensures Punctual(s.publishers[key], s.publishers[key].published, Total(StepSizes(ops)))
  {
    var all, first := [Create(uid, key, freq)] + ops, Apply(c, NewCommands(), Create(uid, key, freq));
    s := Run(c, NewCommands(), all);
    assert all[0] == Create(uid, key, freq) && all[1..] == ops;
    UnconnectedKeepsTopic(c, first, key, ops);
    StepSizesPossible(ops);
    var t, n := NoDrift(TopicState(freq, Never, false, 0), StepSizes(ops));
  }

  lemma {:induction false} StepSizesPossible(ops: seq<Operation>)
    requires forall op <- ops :: Possible(op)
    ensures forall i | 0 <= i < |StepSizes(ops)| :: StepSizes(ops)[i] >= 0.0
    decreases |ops|
  {
    if ops != [] {
      assert ops[0] in ops;
      StepSizesPossible(ops[1..]);
    }
  }
}
