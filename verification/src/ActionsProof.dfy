/** Whole runs of the action scheduler: every action lives as if it were alone, reports its end
    once, and the timed ones end on time. */
module ActionsProof {
  import opened ActionStates
  import opened Wrappers
  import opened RealMath
  import opened Actions

  // ---------- one action on its own ----------

  /** Where an action has got to: still in the map, or removed. */
  datatype Fate = Active(task: Task) | Ended(task: Task)

  function NextFate(a: Task, t: Tick): Fate {
    var b := AfterTick(a, t);
    if IsDone(b.state) then Ended(b) else Active(b)
  }

  function FateAfter(a: Task, ticks: seq<Tick>): Fate {
    if ticks == [] then Active(a) else
    var f := FateAfter(a, ticks[..|ticks| - 1]);
    if f.Ended? then f else NextFate(f.task, ticks[|ticks| - 1])
  }

  function PushesAfter(a: Task, ticks: seq<Tick>): seq<Push> {
    if ticks == [] then [] else
    var f, p := FateAfter(a, ticks[..|ticks| - 1]), PushesAfter(a, ticks[..|ticks| - 1]);
    if f.Ended? then p else p + PushesOfTick(f.task, ticks[|ticks| - 1])
  }

  predicate Alive(s: ActionState) {
    s == Started || s == Running
  }

  ghost predicate SameAction(a: Task, b: Task) {
    b.name == a.name && b.ticket == a.ticket && b.servo == a.servo && b.sdk.Some? == a.sdk.Some?
    && (a.sdk.Some? ==> b.sdk.value.id == a.sdk.value.id)
  }

  /** Message `i` of an action that was told `total` times in all. */
  ghost predicate Reports(p: Push, a: Task, final: bool) {
    p.ticket == a.ticket && a.sdk.Some? && p.id == a.sdk.value.id && p.state == if final then Succeed else Running
  }

  /** Without an SDK part nothing is pushed. With one, all messages say that the action is
      running, but for the last one of an ended action: that one says that it succeeded. */
  ghost predicate ReportedWell(pushes: seq<Push>, a: Task, ended: bool) {
    && (forall i | 0 <= i < |pushes| :: Reports(pushes[i], a, ended && i == |pushes| - 1))
    && (ended && a.sdk.Some? ==> pushes != [])
  }

  lemma TickForward(a: Task, t: Tick)
    requires Alive(a.state)
    ensures SameAction(a, AfterTick(a, t))
    ensures AfterTick(a, t).state == Running || AfterTick(a, t).state == Succeed
  {}

  /** An action moves only forward: it runs from its first step on until it succeeds. */
  lemma {:induction false} ActionForward(a: Task, ticks: seq<Tick>)
    requires Alive(a.state)
    ensures var f := FateAfter(a, ticks);
            && SameAction(a, f.task)
            && f.task.state == if f.Ended? then Succeed else if ticks == [] then a.state else Running
  {
    if ticks != [] {
      var before := ticks[..|ticks| - 1];
      ActionForward(a, before);
      var f := FateAfter(a, before);
      if f.Active? {
        TickForward(f.task, ticks[|ticks| - 1]);
      }
    }
  }

  /** It sends exactly one message saying that it succeeded, as its last one. */
  lemma {:induction false} ActionReports(a: Task, ticks: seq<Tick>)
    requires Alive(a.state)
    ensures ReportedWell(PushesAfter(a, ticks), a, FateAfter(a, ticks).Ended?)
  {
    if ticks != [] {
      var before := ticks[..|ticks| - 1];
      ActionReports(a, before);
      ActionForward(a, before);
      var f := FateAfter(a, before);
      if f.Active? {
        TickForward(f.task, ticks[|ticks| - 1]);
      }
    }
  }

  // ---------- the scheduler runs every action as if it were alone ----------

  ghost predicate Invariant(r: Robot) {
    && |r.hasServo| == 3
    && (forall n <- r.active :: r.active[n].name == n && r.active[n].ticket < r.accepted && Alive(r.active[n].state))
    && (forall m <- r.active, n <- r.active :: m != n ==> r.active[m].ticket != r.active[n].ticket)
    && (forall n <- r.active :: r.active[n].ticket !in r.ended)
    && (forall t <- r.ended :: t < r.accepted && r.ended[t].ticket == t)
    && (forall i | 0 <= i < |r.pushed| :: r.pushed[i].ticket < r.accepted)
  }

  /** The messages of one action, in the order they were sent. */
  function PushesOf(pushed: seq<Push>, ticket: nat): seq<Push> {
    if pushed == [] then [] else
    var before, last := PushesOf(pushed[..|pushed| - 1], ticket), pushed[|pushed| - 1];
    if last.ticket == ticket then before + [last] else before
  }

  /** The action has come as far as `fate` says. */
  ghost predicate Has(r: Robot, fate: Fate) {
    var a := fate.task;
    if fate.Active? then a.name in r.active && r.active[a.name] == a
    else a.ticket in r.ended && r.ended[a.ticket] == a
  }

  lemma PushesOfMore(pushed: seq<Push>, more: seq<Push>, ticket: nat)
    requires |more| <= 1
    ensures PushesOf(pushed + more, ticket)
         == if |more| == 1 && more[0].ticket == ticket then PushesOf(pushed, ticket) + more else PushesOf(pushed, ticket)
  {
    if |more| == 1 {
      assert (pushed + more)[..|pushed|] == pushed;
    } else {
      assert pushed + more == pushed;
    }
  }

  lemma {:induction false} NoPushesYet(pushed: seq<Push>, ticket: nat)
    requires forall i | 0 <= i < |pushed| :: pushed[i].ticket < ticket
    ensures PushesOf(pushed, ticket) == []
  {
    if pushed != [] {
      NoPushesYet(pushed[..|pushed| - 1], ticket);
    }
  }

  lemma SteppedKeepsInvariant(r: Robot, n: Name, a: Task, sent: seq<Push>)
    requires Invariant(r) && n in r.active && a.name == n && a.ticket == r.active[n].ticket
    requires forall i | 0 <= i < |sent| :: sent[i].ticket == a.ticket
    ensures var s := Stepped(r, n, a, sent);
            if Alive(a.state) then Invariant(s) else Invariant(Erased(s, n))
  {}

  lemma TurnKeepsInvariant(r: Robot, n: Name, dt: real, reached: set<Name>)
    requires Invariant(r)
    ensures Invariant(AfterTurn(r, n, dt, reached))
    ensures AfterTurn(r, n, dt, reached).accepted == r.accepted
  {
    if n in r.active {
      var t := Tick(dt, n in reached);
      var a := AfterTick(r.active[n], t);
      TickForward(r.active[n], t);
      SteppedKeepsInvariant(r, n, a, PushesOfTick(r.active[n], t));
    }
  }

  /** The state of the robot when an action has come to `fate` and has sent `pushes`. */
  ghost predicate Came(r: Robot, fate: Fate, pushes: seq<Push>) {
    Has(r, fate) && PushesOf(r.pushed, fate.task.ticket) == pushes
  }

  /** The turn of `n` moves the action of that name on. */
  lemma TurnMoves(r: Robot, n: Name, dt: real, reached: set<Name>, f: Fate, pushes: seq<Push>)
    requires Invariant(r) && Came(r, f, pushes) && f.Active? && n == f.task.name
    ensures var t := Tick(dt, n in reached);
            Came(AfterTurn(r, n, dt, reached), NextFate(f.task, t), pushes + PushesOfTick(f.task, t))
  {
    var t := Tick(dt, n in reached);
    TickForward(f.task, t);
    PushesOfMore(r.pushed, PushesOfTick(f.task, t), f.task.ticket);
  }

  /** And it leaves every other action alone. */
  lemma TurnLeaves(r: Robot, n: Name, dt: real, reached: set<Name>, f: Fate, pushes: seq<Push>)
    requires Invariant(r) && Came(r, f, pushes) && (f.Active? ==> n != f.task.name)
    ensures Came(AfterTurn(r, n, dt, reached), f, pushes)
  {
    if n in r.active {
      var t := Tick(dt, n in reached);
      TickForward(r.active[n], t);
      PushesOfMore(r.pushed, PushesOfTick(r.active[n], t), f.task.ticket);
    }
  }

  function IndexOf(n: Name): (i: nat)
    ensures i < |NAMES| && NAMES[i] == n
  {
    match n
    case Move => 0
    case MoveArm => 1
    case MoveGimbal => 2
    case MoveServo => 3
    case PlaySound => 4
  }

  lemma {:induction false} TurnsKeepInvariant(r: Robot, count: nat, dt: real, reached: set<Name>)
    requires Invariant(r) && count <= |NAMES|
    ensures Invariant(AfterTurns(r, count, dt, reached)) && AfterTurns(r, count, dt, reached).accepted == r.accepted
  {
    if count > 0 {
      TurnsKeepInvariant(r, count - 1, dt, reached);
      TurnKeepsInvariant(AfterTurns(r, count - 1, dt, reached), NAMES[count - 1], dt, reached);
    }
  }

  /** An ended action stays as it is. */
  lemma {:induction false} TurnsLeaveEnded(r: Robot, count: nat, dt: real, reached: set<Name>, f: Fate, pushes: seq<Push>)
    requires Invariant(r) && Came(r, f, pushes) && f.Ended? && count <= |NAMES|
    ensures Came(AfterTurns(r, count, dt, reached), f, pushes)
  {
    if count > 0 {
      TurnsLeaveEnded(r, count - 1, dt, reached, f, pushes);
      TurnsKeepInvariant(r, count - 1, dt, reached);
      TurnLeaves(AfterTurns(r, count - 1, dt, reached), NAMES[count - 1], dt, reached, f, pushes);
    }
  }

  /** Action `a` after the turns of the first `count` names. */
  ghost predicate CameBy(r: Robot, count: nat, dt: real, reached: set<Name>, a: Task, pushes: seq<Push>) {
    var t := Tick(dt, a.name in reached);
    if count <= IndexOf(a.name) then Came(r, Active(a), pushes)
    else Came(r, NextFate(a, t), pushes + PushesOfTick(a, t))
  }

  lemma TurnOfActive(r: Robot, i: nat, dt: real, reached: set<Name>, a: Task, pushes: seq<Push>)
    requires Invariant(r) && i < |NAMES| && CameBy(r, i, dt, reached, a, pushes)
    ensures CameBy(AfterTurn(r, NAMES[i], dt, reached), i + 1, dt, reached, a, pushes)
  {
    var t := Tick(dt, a.name in reached);
    NamesDistinct(i, a.name);
    SameName(a, t);
    if i == IndexOf(a.name) {
      TurnMoves(r, NAMES[i], dt, reached, Active(a), pushes);
    } else if i < IndexOf(a.name) {
      TurnLeaves(r, NAMES[i], dt, reached, Active(a), pushes);
    } else {
      TurnLeaves(r, NAMES[i], dt, reached, NextFate(a, t), pushes + PushesOfTick(a, t));
    }
  }

  /** An active action has its one turn among the five. */
  lemma {:induction false} TurnsMoveActive(r: Robot, count: nat, dt: real, reached: set<Name>, a: Task, pushes: seq<Push>)
    requires Invariant(r) && Came(r, Active(a), pushes) && count <= |NAMES|
    ensures CameBy(AfterTurns(r, count, dt, reached), count, dt, reached, a, pushes)
  {
    if count > 0 {
      TurnsMoveActive(r, count - 1, dt, reached, a, pushes);
      TurnsKeepInvariant(r, count - 1, dt, reached);
      TurnOfActive(AfterTurns(r, count - 1, dt, reached), count - 1, dt, reached, a, pushes);
    }
  }

  lemma SameName(a: Task, t: Tick)
    ensures NextFate(a, t).task.name == a.name
  {}

  lemma NamesDistinct(i: nat, n: Name)
    requires i < |NAMES|
    ensures NAMES[i] == n <==> i == IndexOf(n)
  {}

  // ---------- whole runs ----------

  /** The steps among the events, as the action `n` sees them. */
  function Ticks(events: seq<Event>, n: Name): seq<Tick> {
    if events == [] then [] else
    var before, last := Ticks(events[..|events| - 1], n), events[|events| - 1];
    if last.Step? then before + [Tick(last.dt, n in last.reached)] else before
  }

  lemma SubmitKeepsInvariant(r: Robot, q: Request)
    requires Invariant(r)
    ensures Invariant(AfterSubmit(r, q))
  {}

  lemma SubmitLeaves(r: Robot, q: Request, f: Fate, pushes: seq<Push>)
    requires Invariant(r) && Came(r, f, pushes)
    ensures Came(AfterSubmit(r, q), f, pushes)
  {}

  lemma {:induction false} RunKeepsInvariant(r: Robot, events: seq<Event>)
    requires Invariant(r)
    ensures Invariant(Run(r, events))
  {
    if events != [] {
      var n := |events| - 1;
      RunKeepsInvariant(r, events[..n]);
      match events[n]
      case Submit(q) => SubmitKeepsInvariant(Run(r, events[..n]), q);
      case Step(dt, reached) => TurnsKeepInvariant(Run(r, events[..n]), |NAMES|, dt, reached);
    }
  }

  /** Isolation: whatever else is submitted and runs, an active action gets to where it would
      have got by itself, and sends the messages it would have sent. */
  lemma {:induction false} Isolation(r: Robot, events: seq<Event>, a: Task, pushes: seq<Push>)
    requires Invariant(r) && Came(r, Active(a), pushes)
    ensures Came(Run(r, events), FateAfter(a, Ticks(events, a.name)), pushes + PushesAfter(a, Ticks(events, a.name)))
  {
    if events == [] {
      assert pushes + [] == pushes;
    } else {
      var n := |events| - 1;
      var before, ticks := Run(r, events[..n]), Ticks(events[..n], a.name);
      Isolation(r, events[..n], a, pushes);
      RunKeepsInvariant(r, events[..n]);
      ActionForward(a, ticks);
      IsolatedEvent(before, events[n], a, ticks, pushes);
    }
  }

  lemma IsolatedEvent(r: Robot, e: Event, a: Task, ticks: seq<Tick>, pushes: seq<Push>)
    requires Invariant(r) && Came(r, FateAfter(a, ticks), pushes + PushesAfter(a, ticks))
    requires FateAfter(a, ticks).task.name == a.name
    ensures var ticks' := if e.Step? then ticks + [Tick(e.dt, a.name in e.reached)] else ticks;
            Came(After(r, e), FateAfter(a, ticks'), pushes + PushesAfter(a, ticks'))
  {
    var f, sent := FateAfter(a, ticks), pushes + PushesAfter(a, ticks);
    match e
    case Submit(q) =>
      SubmitLeaves(r, q, f, sent);
    case Step(dt, reached) =>
      var t := Tick(dt, a.name in reached);
      assert (ticks + [t])[..|ticks|] == ticks;
      if f.Active? {
        TurnsMoveActive(r, |NAMES|, dt, reached, f.task, sent);
        assert sent + PushesOfTick(f.task, t) == pushes + (PushesAfter(a, ticks) + PushesOfTick(f.task, t));
      } else {
        TurnsLeaveEnded(r, |NAMES|, dt, reached, f, sent);
      }
  }

  /** What becomes of an action that is accepted at some point of a run. As long as it is active
      its name is refused to others; it runs from its first step on until it succeeds; and its
      client hears of that exactly once, by the last of its messages. */
  lemma AcceptedAction(r: Robot, before: seq<Event>, q: Request, after: seq<Event>) returns (a: Task, end: Robot, fate: Fate)
    requires Invariant(r) && Answer(Run(r, before), q) == Started
    ensures a == NewTask(q, Run(r, before).accepted)
    ensures end == Run(AfterSubmit(Run(r, before), q), after)
    ensures fate == FateAfter(a, Ticks(after, q.name)) && Has(end, fate)
    ensures fate.task.state == if fate.Ended? then Succeed else if Ticks(after, q.name) == [] then Started else Running
    ensures fate.Active? ==> forall other: Request | other.name == q.name :: Answer(end, other) == Rejected
    ensures ReportedWell(PushesOf(end.pushed, a.ticket), a, fate.Ended?)
  {
    var here, ticks := Run(r, before), Ticks(after, q.name);
    a := NewTask(q, here.accepted);
    end := Run(AfterSubmit(here, q), after);
    fate := FateAfter(a, ticks);
    RunKeepsInvariant(r, before);
    SubmitKeepsInvariant(here, q);
    NoPushesYet(here.pushed, a.ticket);
    Isolation(AfterSubmit(here, q), after, a, []);
    ActionForward(a, ticks);
    ActionReports(a, ticks);
    assert [] + PushesAfter(a, ticks) == PushesAfter(a, ticks);
  }

  lemma NewRobotInvariant(hasArm: bool, hasGimbal: bool, hasServo: seq<bool>)
    requires |hasServo| == 3
    ensures Invariant(NewRobot(hasArm, hasGimbal, hasServo))
  {}

  /** Every state that a robot ever reaches. */
  lemma ReachableRobot(hasArm: bool, hasGimbal: bool, hasServo: seq<bool>, events: seq<Event>)
    requires |hasServo| == 3
    ensures Invariant(Run(NewRobot(hasArm, hasGimbal, hasServo), events))
  {
    NewRobotInvariant(hasArm, hasGimbal, hasServo);
    RunKeepsInvariant(NewRobot(hasArm, hasGimbal, hasServo), events);
  }

  /** Only the hardware that the robot was built with is ever in use: the arm needs both of its
      servos, and a servo action the servo that it moves. */
  ghost predicate UsesOnlyParts(r: Robot, hasArm: bool, hasGimbal: bool, hasServo: seq<bool>) {
    && (MoveArm in r.active ==> hasArm && |hasServo| == 3 && hasServo[0] && hasServo[1])
    && (MoveGimbal in r.active ==> hasGimbal)
    && (MoveServo in r.active ==> r.active[MoveServo].servo < |hasServo| && hasServo[r.active[MoveServo].servo])
  }

  lemma {:induction false} RunUsesOnlyParts(hasArm: bool, hasGimbal: bool, hasServo: seq<bool>, events: seq<Event>)
    requires |hasServo| == 3
    ensures var r := Run(NewRobot(hasArm, hasGimbal, hasServo), events);
            && UsesOnlyParts(r, hasArm, hasGimbal, hasServo)
            && r.hasArm == (hasArm && hasServo[0] && hasServo[1]) && r.hasGimbal == hasGimbal && r.hasServo == hasServo
  {
    if events != [] {
      var n := |events| - 1;
      RunUsesOnlyParts(hasArm, hasGimbal, hasServo, events[..n]);
      var r := Run(NewRobot(hasArm, hasGimbal, hasServo), events[..n]);
      match events[n]
      case Submit(q) =>
      case Step(dt, reached) => TurnsAddNothing(r, |NAMES|, dt, reached);
    }
  }

  /** No action came in, and the parts are the same. */
  ghost predicate AddedNothing(r: Robot, r': Robot) {
    && r'.active.Keys <= r.active.Keys && r'.hasArm == r.hasArm && r'.hasGimbal == r.hasGimbal
    && forall n <- r'.active :: r'.active[n].servo == r.active[n].servo && r'.active[n].ticket == r.active[n].ticket
  }

  lemma TickSame(a: Task, t: Tick)
    ensures AfterTick(a, t).servo == a.servo && AfterTick(a, t).ticket == a.ticket
  {}

  lemma SteppedAddsNothing(r: Robot, n: Name, a: Task, sent: seq<Push>)
    requires n in r.active && a.servo == r.active[n].servo && a.ticket == r.active[n].ticket
    ensures AddedNothing(r, Stepped(r, n, a, sent)) && AddedNothing(r, Erased(Stepped(r, n, a, sent), n))
  {}

  lemma TurnAddsNothing(r: Robot, n: Name, dt: real, reached: set<Name>)
    ensures AddedNothing(r, AfterTurn(r, n, dt, reached))
  {
    if n in r.active {
      var t := Tick(dt, n in reached);
      TickSame(r.active[n], t);
      SteppedAddsNothing(r, n, AfterTick(r.active[n], t), PushesOfTick(r.active[n], t));
    }
  }

  lemma AddedNothingTwice(r: Robot, s: Robot, t: Robot)
    requires AddedNothing(r, s) && AddedNothing(s, t)
    ensures AddedNothing(r, t)
  {}

  lemma {:induction false} TurnsAddNothing(r: Robot, count: nat, dt: real, reached: set<Name>)
    requires count <= |NAMES|
    ensures AddedNothing(r, AfterTurns(r, count, dt, reached))
  {
    if count > 0 {
      var before := AfterTurns(r, count - 1, dt, reached);
      TurnsAddNothing(r, count - 1, dt, reached);
      TurnAddsNothing(before, NAMES[count - 1], dt, reached);
      AddedNothingTwice(r, before, AfterTurns(r, count, dt, reached));
    }
  }

  // ---------- how often clients hear of an action ----------

  function TimeOf(ticks: seq<Tick>): real {
    if ticks == [] then 0.0 else TimeOf(ticks[..|ticks| - 1]) + ticks[|ticks| - 1].dt
  }

  /** The time between two messages. */
  function Period(sdk: Sdk): real {
    1.0 / PushFrequency(sdk.freqCode) as real
  }

  /** `n` periods. */
  ghost function Periods(n: nat, p: real): real {
    if n == 0 then 0.0 else Periods(n - 1, p) + p
  }

  /** The deadline of an action that has sent `n` messages in the time `time`. */
  ghost predicate OnSchedule(a: Task, p: real, n: nat, time: real) {
    && a.sdk.Some? && p == Period(a.sdk.value)
    && a.sdk.value.deadline == Periods(n, p) - time && 0.0 <= a.sdk.value.deadline <= p
  }

  lemma TickOnSchedule(b: Task, t: Tick, p: real, n: nat, time: real)
    requires OnSchedule(b, p, n, time) && 0.0 <= t.dt <= p
    requires NextFate(b, t).Active?
    ensures OnSchedule(NextFate(b, t).task, p, n + |PushesOfTick(b, t)|, time + t.dt)
  {}

  lemma LastTick(a: Task, ticks: seq<Tick>) returns (before: seq<Tick>, t: Tick, b: Task)
    requires ticks != [] && FateAfter(a, ticks).Active?
    ensures before == ticks[..|ticks| - 1] && t == ticks[|ticks| - 1]
    ensures FateAfter(a, before) == Active(b) && FateAfter(a, ticks) == NextFate(b, t)
    ensures |PushesAfter(a, ticks)| == |PushesAfter(a, before)| + |PushesOfTick(b, t)|
    ensures TimeOf(ticks) == TimeOf(before) + t.dt
  {
    before, t := ticks[..|ticks| - 1], ticks[|ticks| - 1];
    b := FateAfter(a, before).task;
  }

  ghost predicate ShortTicks(ticks: seq<Tick>, p: real) {
    forall i | 0 <= i < |ticks| :: 0.0 <= ticks[i].dt <= p
  }

  lemma LastTickOnSchedule(a: Task, ticks: seq<Tick>, p: real)
    requires ticks != [] && ShortTicks(ticks, p) && FateAfter(a, ticks).Active?
    requires var before := ticks[..|ticks| - 1];
             OnSchedule(FateAfter(a, before).task, p, |PushesAfter(a, before)|, TimeOf(before))
    ensures OnSchedule(FateAfter(a, ticks).task, p, |PushesAfter(a, ticks)|, TimeOf(ticks))
  {
    var before, t, b := LastTick(a, ticks);
    TickOnSchedule(b, t, p, |PushesAfter(a, before)|, TimeOf(before));
  }

  lemma {:induction false} StaysOnSchedule(a: Task, ticks: seq<Tick>, p: real)
    requires OnSchedule(a, p, 0, 0.0) && ShortTicks(ticks, p) && FateAfter(a, ticks).Active?
    ensures OnSchedule(FateAfter(a, ticks).task, p, |PushesAfter(a, ticks)|, TimeOf(ticks))
    decreases |ticks|
  {
    if ticks != [] {
      StaysOnSchedule(a, ticks[..|ticks| - 1], p);
      LastTickOnSchedule(a, ticks, p);
    }
  }

  /** With steps no longer than the period, an action that has been running for the time T has sent
      as many messages as periods fit into T, give or take one: their periods add up to at least
      T, and to at most a period more. */
  lemma PushRate(a: Task, ticks: seq<Tick>, p: real)
    requires a.sdk.Some? && a.sdk.value.deadline == 0.0 && p == Period(a.sdk.value)
    requires ShortTicks(ticks, p) && FateAfter(a, ticks).Active?
    ensures 0.0 <= Periods(|PushesAfter(a, ticks)|, p) - TimeOf(ticks) <= p
  {
    assert Periods(0, p) == 0.0;
    StaysOnSchedule(a, ticks, p);
  }

  // ---------- how long actions last ----------

  ghost predicate SomeReached(ticks: seq<Tick>) {
    exists i :: 0 <= i < |ticks| && ticks[i].reached
  }

  ghost predicate SteadyTicks(ticks: seq<Tick>, dt: real) {
    forall i | 0 <= i < |ticks| :: ticks[i].dt == dt
  }

  lemma LastReached(ticks: seq<Tick>)
    requires ticks != []
    ensures SomeReached(ticks) <==> SomeReached(ticks[..|ticks| - 1]) || ticks[|ticks| - 1].reached
  {
    var before := ticks[..|ticks| - 1];
    if SomeReached(ticks) && !ticks[|ticks| - 1].reached {
      var i :| 0 <= i < |ticks| && ticks[i].reached;
      assert before[i].reached;
    } else if SomeReached(before) {
      var i :| 0 <= i < |before| && before[i].reached;
      assert ticks[i].reached;
    }
  }

  /** A base, arm or gimbal action ends exactly when its goal is first reached. */
  lemma {:induction false} GoalActionEnds(a: Task, ticks: seq<Tick>)
    requires Alive(a.state) && a.name != PlaySound && a.name != MoveServo
    ensures FateAfter(a, ticks).Ended? <==> SomeReached(ticks)
  {
    if ticks != [] {
      var before := ticks[..|ticks| - 1];
      GoalActionEnds(a, before);
      ActionForward(a, before);
      LastReached(ticks);
    }
  }

  /** The first step at which more than `total` has gone by in steps of `dt`. */
  lemma Expired(total: real, dt: real, k: nat)
    requires total >= 0.0 && dt > 0.0
    ensures total - k as real * dt < 0.0 <==> k >= (total / dt).Floor + 1
  {
    var q, c := total / dt, k as real;
    assert total == q * dt;
    assert total - c * dt == (q - c) * dt;
    if c > q {
      ProductPositive(c - q, dt);
      assert (c - q) * dt == -((q - c) * dt);
    } else {
      ProductNonNegative(q - c, dt);
    }
  }

  lemma ServoTick(b: Task, t: Tick)
    requires b.name == MoveServo
    ensures NextFate(b, t).task.name == MoveServo && NextFate(b, t).task.timeLeft == b.timeLeft - t.dt
  {}

  lemma {:induction false} ServoTimeLeft(a: Task, ticks: seq<Tick>, dt: real)
    requires a.name == MoveServo && SteadyTicks(ticks, dt) && FateAfter(a, ticks).Active?
    ensures FateAfter(a, ticks).task.name == MoveServo
    ensures FateAfter(a, ticks).task.timeLeft == a.timeLeft - Periods(|ticks|, dt)
    decreases |ticks|
  {
    if ticks != [] {
      var before, t, b := LastTick(a, ticks);
      ServoTimeLeft(a, before, dt);
      ServoTick(b, t);
    }
  }

  lemma {:induction false} PeriodsAreProduct(n: nat, p: real)
    ensures Periods(n, p) == n as real * p
  {
    if n == 0 {
      assert 0.0 * p == 0.0;
    } else {
      PeriodsAreProduct(n - 1, p);
      OneMore(n - 1, p);
    }
  }

  lemma OneMore(k: nat, dt: real)
    ensures (k + 1) as real * dt == k as real * dt + dt
  {}

  /** A servo action ends at the first step that finds the goal reached, and otherwise when its
      five seconds are over, whatever the servo does. */
  lemma {:induction false} ServoActionEnds(a: Task, ticks: seq<Tick>, dt: real)
    requires Alive(a.state) && a.name == MoveServo && a.timeLeft == SERVO_MAX_DURATION
    requires dt > 0.0 && SteadyTicks(ticks, dt)
    ensures FateAfter(a, ticks).Ended? <==> SomeReached(ticks) || |ticks| >= (SERVO_MAX_DURATION / dt).Floor + 2
  {
    if ticks == [] {
      Expired(SERVO_MAX_DURATION, dt, 0);
    } else {
      var before := ticks[..|ticks| - 1];
      ServoActionEnds(a, before, dt);
      LastReached(ticks);
      if FateAfter(a, before).Active? {
        ActionForward(a, before);
        ServoTimeLeft(a, before, dt);
        ServoStep(FateAfter(a, before).task, ticks[|ticks| - 1], |before|);
      }
    }
  }

  lemma ServoStep(b: Task, t: Tick, k: nat)
    requires Alive(b.state) && b.name == MoveServo && t.dt > 0.0
    requires b.timeLeft == SERVO_MAX_DURATION - Periods(k, t.dt)
    ensures NextFate(b, t).Ended? <==> t.reached || k + 1 >= (SERVO_MAX_DURATION / t.dt).Floor + 2
  {
    PeriodsAreProduct(k, t.dt);
    Expired(SERVO_MAX_DURATION, t.dt, k);
  }

  /** The number of steps that one play of the sound takes. */
  function StepsPerPlay(dt: real): (m: int)
    requires dt > 0.0
    ensures m > 0
  {
    (SOUND_DURATION / dt).Floor + 1
  }

  /** Play number `play`, counted from zero, has been running for `steps` steps. */
  ghost predicate Playing(b: Task, times: nat, play: nat, steps: nat, dt: real) {
    && b.state == Running && b.name == PlaySound && play < times && b.playTimes == times - 1 - play
    && b.remaining == SOUND_DURATION - steps as real * dt
  }

  lemma PlayOn(b: Task, t: Tick, times: nat, play: nat, steps: nat)
    requires t.dt > 0.0 && Playing(b, times, play, steps, t.dt) && steps < StepsPerPlay(t.dt)
    ensures var f := NextFate(b, t);
            if steps + 1 < StepsPerPlay(t.dt) then f.Active? && Playing(f.task, times, play, steps + 1, t.dt)
            else if play + 1 < times then f.Active? && Playing(f.task, times, play + 1, 0, t.dt)
            else f.Ended? && f.task.playTimes == 0
  {
    Expired(SOUND_DURATION, t.dt, steps + 1);
    OneMore(steps, t.dt);
  }

  lemma {:induction false} SoundPlays(a: Task, ticks: seq<Tick>, dt: real) returns (play: nat, steps: nat)
    requires Alive(a.state) && a.name == PlaySound && a.remaining == 0.0
    requires dt > 0.0 && SteadyTicks(ticks, dt) && 1 <= |ticks| < 1 + a.playTimes * StepsPerPlay(dt)
    ensures |ticks| == 1 + play * StepsPerPlay(dt) + steps && steps < StepsPerPlay(dt)
    ensures FateAfter(a, ticks).Active? && Playing(FateAfter(a, ticks).task, a.playTimes, play, steps, dt)
  {
    var before, t, m := ticks[..|ticks| - 1], ticks[|ticks| - 1], StepsPerPlay(dt);
    if before == [] {
      play, steps := 0, 0;
      NotZero(a.playTimes, m);
    } else {
      play, steps := SoundPlays(a, before, dt);
      play, steps := SoundGoesOn(FateAfter(a, before).task, t, a.playTimes, play, steps);
    }
  }

  /** Unless it was the last step of the last play, the sound goes on. */
  lemma SoundGoesOn(b: Task, t: Tick, times: nat, play: nat, steps: nat) returns (play': nat, steps': nat)
    requires t.dt > 0.0 && Playing(b, times, play, steps, t.dt) && steps < StepsPerPlay(t.dt)
    requires 1 + play * StepsPerPlay(t.dt) + steps < times * StepsPerPlay(t.dt)
    ensures play' * StepsPerPlay(t.dt) + steps' == play * StepsPerPlay(t.dt) + steps + 1 && steps' < StepsPerPlay(t.dt)
    ensures NextFate(b, t).Active? && Playing(NextFate(b, t).task, times, play', steps', t.dt)
  {
    var m := StepsPerPlay(t.dt);
    PlayOn(b, t, times, play, steps);
    LastPlay(times, m, play, steps);
    if steps + 1 < m {
      play', steps' := play, steps + 1;
    } else {
      play', steps' := play + 1, 0;
      assert play' * m == play * m + m;
    }
  }

  lemma NotZero(n: nat, m: int)
    requires m > 0 && 0 < n * m
    ensures n > 0
  {}

  /** The last step of the last play is step number `n * m`, for `n` plays of `m` steps. */
  lemma LastPlay(n: nat, m: int, play: nat, steps: nat)
    requires play < n && steps < m
    ensures 1 + play * m + steps == n * m <==> play + 1 == n && steps + 1 == m
    ensures 1 + play * m + steps <= n * m
  {
    var rest := n - 1 - play;
    assert n * m == play * m + m + rest * m;
    if rest > 0 {
      assert rest * m >= m by {
        assert (rest - 1) * m >= 0;
      }
    }
  }

  /** With `n` plays and steps of equal size, a sound action ends at step number
      1 + n * (floor(3 / dt) + 1) exactly, having started the sound `n` times. */
  lemma {:induction false} SoundActionEnds(a: Task, ticks: seq<Tick>, dt: real)
    requires Alive(a.state) && a.name == PlaySound && a.remaining == 0.0
    requires dt > 0.0 && SteadyTicks(ticks, dt)
    ensures FateAfter(a, ticks).Ended? <==> |ticks| >= 1 + a.playTimes * StepsPerPlay(dt)
    ensures FateAfter(a, ticks).Ended? ==> FateAfter(a, ticks).task.playTimes == 0
  {
    var m := StepsPerPlay(dt);
    assert a.playTimes * m >= 0;
    if ticks != [] {
      var before := ticks[..|ticks| - 1];
      if |ticks| < 1 + a.playTimes * m {
        var play, steps := SoundPlays(a, ticks, dt);
      } else if |ticks| > 1 + a.playTimes * m {
        SoundActionEnds(a, before, dt);
      } else if before != [] {
        var play, steps := SoundPlays(a, before, dt);
        LastPlay(a.playTimes, m, play, steps);
        PlayOn(FateAfter(a, before).task, ticks[|ticks| - 1], a.playTimes, play, steps);
      } else {
        NoPlays(a.playTimes, m);
      }
    }
  }

  lemma NoPlays(n: nat, m: int)
    requires m > 0 && n * m == 0
    ensures n == 0
  {}
}
