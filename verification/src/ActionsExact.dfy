/** What the scheduler answers, and when the actions that it accepts end, told from the requests and the
    parts the robot was built with alone. */
module ActionsExact {
  import opened ActionStates
  import opened Wrappers
  import opened Actions
  import opened ActionsProof
  import opened RealMath

  /** The arguments of the constructor. */
  datatype Parts = Parts(hasArm: bool, hasGimbal: bool, hasServo: seq<bool>) {
    predicate Valid() {
      |hasServo| == 3
    }
  }

  function Built(p: Parts): Robot
    requires p.Valid()
  {
    NewRobot(p.hasArm, p.hasGimbal, p.hasServo)
  }

  /** The robot was built with what the request needs: an arm moves by the servos 0 and 1. */
  predicate HasPart(p: Parts, q: Request)
    requires p.Valid()
  {
    && (q.name == MoveArm ==> p.hasArm && p.hasServo[0] && p.hasServo[1])
    && (q.name == MoveGimbal ==> p.hasGimbal)
    && (q.name == MoveServo ==> q.servo < 3 && p.hasServo[q.servo])
  }

  /** The action that request `i` asks for is still active at the end of the events. */
  predicate StillActive(events: seq<Event>, i: nat)
    requires i < |events| && events[i].Submit?
  {
    var q := events[i].request;
    FateAfter(NewTask(q, 0), Ticks(events[i + 1..], q.name)).Active?
  }

  /** Request `i` is accepted: the part is there, and every request of the same name that was accepted
      before has led to an action that has ended. */
  predicate Accepted(p: Parts, events: seq<Event>, i: nat)
    requires p.Valid()
    decreases i
  {
    && i < |events| && events[i].Submit? && HasPart(p, events[i].request)
    && forall j: nat | j < i ::
         Accepted(p, events, j) && events[j].request.name == events[i].request.name ==> !StillActive(events[..i], j)
  }

  /** An accepted request keeps the name busy. */
  ghost predicate Busy(p: Parts, events: seq<Event>, n: Name)
    requires p.Valid()
  {
    exists j: nat :: j < |events| && Accepted(p, events, j) && events[j].request.name == n && StillActive(events, j)
  }

  // ---------- the ticket does not matter ----------

  function Renumbered(f: Fate, ticket: nat): Fate {
    match f
    case Active(a) => Active(a.(ticket := ticket))
    case Ended(a) => Ended(a.(ticket := ticket))
  }

  lemma TickRenumbered(a: Task, ticket: nat, t: Tick)
    ensures NextFate(a.(ticket := ticket), t) == Renumbered(NextFate(a, t), ticket)
  {}

  lemma {:induction false} TicketIrrelevant(a: Task, ticket: nat, ticks: seq<Tick>)
    ensures FateAfter(a.(ticket := ticket), ticks) == Renumbered(FateAfter(a, ticks), ticket)
  {
    if ticks != [] {
      var before := ticks[..|ticks| - 1];
      TicketIrrelevant(a, ticket, before);
      var f := FateAfter(a, before);
      if f.Active? {
        TickRenumbered(f.task, ticket, ticks[|ticks| - 1]);
      }
    }
  }

  // ---------- prefixes ----------

  lemma {:induction false} AcceptedPrefix(p: Parts, events: seq<Event>, k: nat, i: nat)
    requires p.Valid() && i < k <= |events|
    ensures Accepted(p, events[..k], i) <==> Accepted(p, events, i)
    decreases i
  {
    forall j: nat | j < i ensures Accepted(p, events[..k], j) <==> Accepted(p, events, j) {
      AcceptedPrefix(p, events, k, j);
    }
    assert events[..k][..i] == events[..i];
  }

  lemma {:induction false} RunSplit(r: Robot, before: seq<Event>, after: seq<Event>)
    requires |r.hasServo| == 3
    ensures Run(Run(r, before), after) == Run(r, before + after)
  {
    if after == [] {
      assert before + after == before;
    } else {
      var n := |after| - 1;
      RunSplit(r, before, after[..n]);
      assert (before + after)[..|before| + n] == before + after[..n];
    }
  }

  // ---------- the map holds exactly the accepted actions that are still active ----------

  /** What `StartedExactly` says about a run. */
  ghost predicate Exact(p: Parts, events: seq<Event>)
    requires p.Valid()
  {
    && (forall n: Name :: n in Run(Built(p), events).active <==> Busy(p, events, n))
    && Run(Built(p), events).hasArm == (p.hasArm && p.hasServo[0] && p.hasServo[1])
    && Run(Built(p), events).hasGimbal == p.hasGimbal && Run(Built(p), events).hasServo == p.hasServo
  }

  /** The same about the first `k` events. */
  ghost predicate ExactAt(p: Parts, events: seq<Event>, k: nat)
    requires p.Valid()
  {
    k <= |events| && Exact(p, events[..k])
  }

  lemma BusyMeans(p: Parts, events: seq<Event>, q: Request)
    requires p.Valid()
    ensures Accepted(p, events + [Submit(q)], |events|) <==> HasPart(p, q) && !Busy(p, events, q.name)
  {
    var more, k := events + [Submit(q)], |events|;
    assert more[..k] == events;
    forall j: nat | j < k ensures Accepted(p, events, j) <==> Accepted(p, more, j) {
      AcceptedPrefix(p, more, k, j);
    }
  }

  lemma AnswerOfExact(p: Parts, events: seq<Event>, q: Request)
    requires p.Valid() && Exact(p, events)
    ensures Answer(Run(Built(p), events), q) == Started <==> HasPart(p, q) && !Busy(p, events, q.name)
  {}

  lemma AcceptedStarted(p: Parts, events: seq<Event>, j: nat)
    requires p.Valid() && j < |events| && Accepted(p, events, j) && Exact(p, events[..j])
    ensures Answer(Run(Built(p), events[..j]), events[j].request) == Started
  {
    AcceptedPrefix(p, events, j + 1, j);
    assert events[..j] + [Submit(events[j].request)] == events[..j + 1];
    BusyMeans(p, events[..j], events[j].request);
    AnswerOfExact(p, events[..j], events[j].request);
  }

  lemma RunAround(p: Parts, events: seq<Event>, j: nat)
    requires p.Valid() && j < |events| && events[j].Submit?
    ensures Run(Built(p), events) == Run(AfterSubmit(Run(Built(p), events[..j]), events[j].request), events[j + 1..])
  {
    RunSplit(Built(p), events[..j + 1], events[j + 1..]);
    assert events[..j + 1] + events[j + 1..] == events && events[..j + 1][..j] == events[..j];
  }

  /** Where the action of an accepted request has got to. */
  lemma AcceptedFate(p: Parts, events: seq<Event>, j: nat) returns (a: Task, f: Fate)
    requires p.Valid() && j < |events| && Accepted(p, events, j) && Exact(p, events[..j])
    ensures a == NewTask(events[j].request, Run(Built(p), events[..j]).accepted)
    ensures Has(Run(Built(p), events), f) && f.task.name == a.name && f.task.ticket == a.ticket
    ensures f.Active? <==> StillActive(events, j)
  {
    var q := events[j].request;
    AcceptedStarted(p, events, j);
    NewRobotInvariant(p.hasArm, p.hasGimbal, p.hasServo);
    var end;
    a, end, f := AcceptedAction(Built(p), events[..j], q, events[j + 1..]);
    RunAround(p, events, j);
    ActionForward(a, Ticks(events[j + 1..], q.name));
    TicketIrrelevant(NewTask(q, 0), a.ticket, Ticks(events[j + 1..], q.name));
  }

  lemma BusyIsActive(p: Parts, events: seq<Event>, n: Name)
    requires p.Valid() && Busy(p, events, n) && forall k: nat | k < |events| :: ExactAt(p, events, k)
    ensures n in Run(Built(p), events).active
  {
    var j: nat :| j < |events| && Accepted(p, events, j) && events[j].request.name == n && StillActive(events, j);
    assert ExactAt(p, events, j);
    var a, f := AcceptedFate(p, events, j);
  }

  lemma SubmitActiveIsBusy(p: Parts, before: seq<Event>, q: Request, n: Name)
    requires p.Valid() && Exact(p, before) && n in Run(Built(p), before + [Submit(q)]).active
    ensures Busy(p, before + [Submit(q)], n)
  {
    var events, k := before + [Submit(q)], |before|;
    assert events[..k] == before;
    if n in Run(Built(p), before).active {
      var j: nat :| j < k && Accepted(p, before, j) && before[j].request.name == n && StillActive(before, j);
      StaysBusy(p, before, Submit(q), j);
    } else {
      AnswerOfExact(p, before, q);
      BusyMeans(p, before, q);
      assert events[k + 1..] == [];
      assert StillActive(events, k);
    }
  }

  lemma StaysBusy(p: Parts, before: seq<Event>, e: Event, j: nat)
    requires p.Valid() && j < |before| && Accepted(p, before, j) && e.Submit? && StillActive(before, j)
    ensures Busy(p, before + [e], before[j].request.name)
  {
    var events, k := before + [e], |before|;
    assert events[..k] == before;
    AcceptedPrefix(p, events, k, j);
    assert events[j + 1..][..k - j - 1] == before[j + 1..];
    assert StillActive(events, j);
  }

  /** An action that was active before a step and whose name is in use after it is active still. */
  lemma StepKeepsActive(r: Robot, r': Robot, n: Name, ticket: nat, f: Fate)
    requires AddedNothing(r, r') && Invariant(r') && n in r'.active && r.active[n].ticket == ticket
    requires Has(r', f) && f.task.name == n && f.task.ticket == ticket
    ensures f.Active?
  {}

  lemma StepActiveIsBusy(p: Parts, before: seq<Event>, e: Event, n: Name)
    requires p.Valid() && e.Step? && Exact(p, before)
    requires forall k: nat | k < |before| :: ExactAt(p, before, k)
    requires n in Run(Built(p), before + [e]).active
    ensures Busy(p, before + [e], n)
  {
    var events, k, r := before + [e], |before|, Run(Built(p), before);
    assert events[..k] == before;
    TurnsAddNothing(r, |NAMES|, e.dt, e.reached);
    var j: nat :| j < k && Accepted(p, before, j) && before[j].request.name == n && StillActive(before, j);
    assert ExactAt(p, before, j);
    StaysActive(p, before, e, j);
  }

  lemma StaysActive(p: Parts, before: seq<Event>, e: Event, j: nat)
    requires p.Valid() && e.Step? && j < |before| && Accepted(p, before, j) && StillActive(before, j)
    requires Exact(p, before[..j]) && before[j].request.name in Run(Built(p), before + [e]).active
    requires AddedNothing(Run(Built(p), before), Run(Built(p), before + [e]))
    ensures Busy(p, before + [e], before[j].request.name)
  {
    var events := before + [e];
    assert events[..|before|] == before && events[..j] == before[..j];
    AcceptedPrefix(p, events, |before|, j);
    var a, f := AcceptedFate(p, before, j);
    var b, g := AcceptedFate(p, events, j);
    ReachableRobot(p.hasArm, p.hasGimbal, p.hasServo, events);
    StepKeepsActive(Run(Built(p), before), Run(Built(p), events), a.name, a.ticket, g);
  }

  lemma {:induction false} RunExact(p: Parts, events: seq<Event>)
    requires p.Valid()
    ensures Exact(p, events)
    decreases |events|
  {
    RunUsesOnlyParts(p.hasArm, p.hasGimbal, p.hasServo, events);
    forall k: nat | k < |events| ensures ExactAt(p, events, k) {
      RunExact(p, events[..k]);
    }
    if events != [] {
      var k := |events| - 1;
      LastApart(events);
      assert ExactAt(p, events, k);
      ExactPrefixes(p, events, k);
      ActiveIsBusy(p, events, events[..k], events[k]);
    }
    forall n: Name | Busy(p, events, n) ensures n in Run(Built(p), events).active {
      BusyIsActive(p, events, n);
    }
  }

  lemma EventActiveIsBusy(p: Parts, events: seq<Event>, before: seq<Event>, e: Event, n: Name)
    requires p.Valid() && events == before + [e] && Exact(p, before)
    requires forall k: nat | k < |before| :: ExactAt(p, before, k)
    requires n in Run(Built(p), events).active
    ensures Busy(p, events, n)
  {
    match e
    case Submit(q) => SubmitActiveIsBusy(p, before, q, n);
    case Step(_, _) => StepActiveIsBusy(p, before, e, n);
  }

  lemma LastApart(events: seq<Event>)
    requires events != []
    ensures events == events[..|events| - 1] + [events[|events| - 1]]
  {}

  lemma ExactPrefixes(p: Parts, events: seq<Event>, n: nat)
    requires p.Valid() && n <= |events| && forall k: nat | k < |events| :: ExactAt(p, events, k)
    ensures forall k: nat | k < n :: ExactAt(p, events[..n], k)
  {
    forall k: nat | k < n ensures ExactAt(p, events[..n], k) {
      assert ExactAt(p, events, k) && events[..n][..k] == events[..k];
    }
  }

  lemma ActiveIsBusy(p: Parts, events: seq<Event>, before: seq<Event>, e: Event)
    requires p.Valid() && events == before + [e] && Exact(p, before)
    requires forall k: nat | k < |before| :: ExactAt(p, before, k)
    ensures forall n: Name | n in Run(Built(p), events).active :: Busy(p, events, n)
  {
    forall n: Name | n in Run(Built(p), events).active ensures Busy(p, events, n) {
      EventActiveIsBusy(p, events, before, e, n);
    }
  }

  /** For every robot, every run and every request: it is started exactly if the robot was built with
      its part, and every action that was accepted under its name before has ended. */
  lemma StartedExactly(p: Parts, events: seq<Event>, q: Request)
    requires p.Valid()
    ensures Answer(Run(Built(p), events), q) == Started
       <==> && HasPart(p, q)
            && (forall j: nat | j < |events| ::
                  Accepted(p, events, j) && events[j].request.name == q.name ==> !StillActive(events, j))
    ensures Answer(Run(Built(p), events), q) == Rejected || Answer(Run(Built(p), events), q) == Started
    ensures Accepted(p, events + [Submit(q)], |events|) <==> Answer(Run(Built(p), events), q) == Started
  {
    RunExact(p, events);
    AnswerOfExact(p, events, q);
    BusyMeans(p, events, q);
  }

  // ---------- when accepted actions end ----------

  /** A sound action accepted at any point of a run ends exactly at step 1 + n * (floor(3 / dt) + 1)
      after that, for `n` plays and steps of size dt. */
  lemma SoundEnds(p: Parts, events: seq<Event>, i: nat, dt: real)
    requires p.Valid() && Accepted(p, events, i) && events[i].request.name == PlaySound && dt > 0.0
    requires SteadyTicks(Ticks(events[i + 1..], PlaySound), dt)
    ensures StillActive(events, i)
       <==> |Ticks(events[i + 1..], PlaySound)| < 1 + events[i].request.playTimes * ((3.0 / dt).Floor + 1)
  {
    SoundActionEnds(NewTask(events[i].request, 0), Ticks(events[i + 1..], PlaySound), dt);
  }

  /** A servo action accepted at any point of a run ends exactly when a step after that finds its goal
      reached, or at step floor(5 / dt) + 2 after that. */
  lemma ServoEnds(p: Parts, events: seq<Event>, i: nat, dt: real)
    requires p.Valid() && Accepted(p, events, i) && events[i].request.name == MoveServo && dt > 0.0
    requires SteadyTicks(Ticks(events[i + 1..], MoveServo), dt)
    ensures var ticks := Ticks(events[i + 1..], MoveServo);
            StillActive(events, i) <==> !SomeReached(ticks) && |ticks| < (5.0 / dt).Floor + 2
  {
    ServoActionEnds(NewTask(events[i].request, 0), Ticks(events[i + 1..], MoveServo), dt);
  }

  /** While an accepted action is active, and with steps up to the period of 1, 0.2 or 0.1 seconds that
      its request asked for, its messages keep pace with the time since it was accepted. */
  lemma SubmittedPushRate(events: seq<Event>, i: nat, ticket: nat) returns (period: real)
    requires i < |events| && events[i].Submit? && events[i].request.sdk.Some? && StillActive(events, i)
    ensures var code := events[i].request.sdk.value.freqCode;
            period == if code == 1 then 0.2 else if code == 2 then 0.1 else 1.0
    ensures var ticks := Ticks(events[i + 1..], events[i].request.name);
            ShortTicks(ticks, period) ==>
              0.0 <= |PushesAfter(NewTask(events[i].request, ticket), ticks)| as real * period - TimeOf(ticks) <= period
  {
    var q := events[i].request;
    var a, ticks := NewTask(q, ticket), Ticks(events[i + 1..], q.name);
    period := Period(a.sdk.value);
    TicketIrrelevant(NewTask(q, 0), ticket, ticks);
    if ShortTicks(ticks, period) {
      PushRate(a, ticks, period);
      PaceOf(|PushesAfter(a, ticks)|, period, TimeOf(ticks));
    }
  }

  /** After at least one step shorter than the period the next message is due later, but no later than
      in a period. */
  ghost predicate Ahead(a: Task, p: real, n: nat, time: real) {
    && a.sdk.Some? && p == Period(a.sdk.value) && p > 0.0
    && a.sdk.value.deadline == Periods(n, p) - time && 0.0 < a.sdk.value.deadline <= p
  }

  lemma TickAhead(b: Task, t: Tick, p: real, n: nat, time: real)
    requires Ahead(b, p, n, time) || (OnSchedule(b, p, n, time) && n == 0 && time == 0.0 && p > 0.0)
    requires 0.0 <= t.dt < p && NextFate(b, t).Active?
    ensures Ahead(NextFate(b, t).task, p, n + |PushesOfTick(b, t)|, time + t.dt)
  {}

  lemma {:induction false} StaysAhead(a: Task, ticks: seq<Tick>, p: real)
    requires OnSchedule(a, p, 0, 0.0) && p > 0.0 && a.sdk.value.deadline == 0.0 && ticks != []
    requires forall i | 0 <= i < |ticks| :: 0.0 <= ticks[i].dt < p
    requires FateAfter(a, ticks).Active?
    ensures Ahead(FateAfter(a, ticks).task, p, |PushesAfter(a, ticks)|, TimeOf(ticks))
    decreases |ticks|
  {
    var before, t, b := LastTick(a, ticks);
    if before != [] {
      StaysAhead(a, before, p);
    }
    TickAhead(b, t, p, |PushesAfter(a, before)|, TimeOf(before));
  }

  /** With steps shorter than the period, an action that is still active after the time T, and at least
      one step, has sent exactly floor(T / p) + 1 messages. */
  lemma PushesExactly(a: Task, ticks: seq<Tick>, p: real)
    requires a.sdk.Some? && a.sdk.value.deadline == 0.0 && p == Period(a.sdk.value) && ticks != []
    requires forall i | 0 <= i < |ticks| :: 0.0 <= ticks[i].dt < p
    requires FateAfter(a, ticks).Active?
    ensures p > 0.0 && |PushesAfter(a, ticks)| == (TimeOf(ticks) / p).Floor + 1
  {
    PeriodPositive(a.sdk.value);
    assert Periods(0, p) == 0.0;
    StaysAhead(a, ticks, p);
    FloorOfPeriods(|PushesAfter(a, ticks)|, p, TimeOf(ticks));
  }

  /** So a submitted action that is still active after the time T sends exactly floor(T * f) + 1
      messages, for the 1, 5 or 10 Hz f that its request asked for. */
  lemma SubmittedPushCount(q: Request, ticket: nat, ticks: seq<Tick>, f: real)
    requires q.sdk.Some? && f == (if q.sdk.value.freqCode == 1 then 5.0 else if q.sdk.value.freqCode == 2 then 10.0 else 1.0)
    requires ticks != [] && FateAfter(NewTask(q, ticket), ticks).Active?
    requires forall i | 0 <= i < |ticks| :: 0.0 <= ticks[i].dt < 1.0 / f
    ensures |PushesAfter(NewTask(q, ticket), ticks)| == (TimeOf(ticks) * f).Floor + 1
  {
    PushesExactly(NewTask(q, ticket), ticks, 1.0 / f);
    OverInverse(TimeOf(ticks), f);
  }

  lemma OverInverse(t: real, f: real)
    requires f == 1.0 || f == 5.0 || f == 10.0
    ensures t / (1.0 / f) == t * f
  {}

  lemma PeriodPositive(sdk: Sdk)
    ensures Period(sdk) > 0.0
  {}

  lemma FloorOfPeriods(n: nat, p: real, t: real)
    requires p > 0.0 && 0.0 < Periods(n, p) - t <= p
    ensures n == (t / p).Floor + 1
  {
    PeriodsAreProduct(n, p);
    RatioBounds(n as real, p, t, t / p);
  }

  lemma RatioBounds(k: real, p: real, t: real, q: real)
    requires p > 0.0 && 0.0 < k * p - t <= p && q * p == t
    ensures k - 1.0 <= q < k
  {
    var d := k - q;
    assert d * p == k * p - t;
    if d <= 0.0 {
      NonPositiveFactor(d, p);
    } else if d > 1.0 {
      LargeFactor(d, p);
    }
  }

  lemma NonPositiveFactor(d: real, p: real)
    requires p > 0.0 && d <= 0.0
    ensures d * p <= 0.0
  {
    ProductNonNegative(-d, p);
  }

  lemma LargeFactor(d: real, p: real)
    requires p > 0.0 && d > 1.0
    ensures d * p > p
  {
    ProductPositive(d - 1.0, p);
    assert (d - 1.0) * p == d * p - p;
  }

  lemma PaceOf(n: nat, p: real, time: real)
    requires 0.0 <= Periods(n, p) - time <= p
    ensures 0.0 <= n as real * p - time <= p
  {
    PeriodsAreProduct(n, p);
  }

  // ---------- the record of final states ----------

  /** Exactly the names of which an action has ended have a final state, and it is success. */
  ghost predicate Recorded(r: Robot) {
    && (forall n: Name :: n in r.previous <==> exists t: nat :: t in r.ended && r.ended[t].name == n)
    && (forall n: Name | n in r.previous :: r.previous[n] == Succeed)
  }

  lemma TurnRecords(r: Robot, n: Name, dt: real, reached: set<Name>)
    requires Invariant(r) && Recorded(r)
    ensures Recorded(AfterTurn(r, n, dt, reached))
  {
    if n in r.active {
      var t := Tick(dt, n in reached);
      TickForward(r.active[n], t);
      var s := Stepped(r, n, AfterTick(r.active[n], t), PushesOfTick(r.active[n], t));
      if IsDone(s.active[n].state) {
        EraseRecords(s, n);
      }
    }
  }

  lemma EraseRecords(r: Robot, n: Name)
    requires Recorded(r) && n in r.active && r.active[n].name == n && r.active[n].state == Succeed
    requires r.active[n].ticket !in r.ended
    ensures Recorded(Erased(r, n))
  {
    var r', a := Erased(r, n), r.active[n];
    assert a.ticket in r'.ended && r'.ended[a.ticket].name == n;
    forall m: Name | m in r.previous ensures exists t: nat :: t in r'.ended && r'.ended[t].name == m {
      var t: nat :| t in r.ended && r.ended[t].name == m;
      assert t in r'.ended && r'.ended[t].name == m;
    }
  }

  lemma {:induction false} TurnsRecord(r: Robot, count: nat, dt: real, reached: set<Name>)
    requires Invariant(r) && Recorded(r) && count <= |NAMES|
    ensures Recorded(AfterTurns(r, count, dt, reached))
  {
    if count > 0 {
      TurnsRecord(r, count - 1, dt, reached);
      TurnsKeepInvariant(r, count - 1, dt, reached);
      TurnRecords(AfterTurns(r, count - 1, dt, reached), NAMES[count - 1], dt, reached);
    }
  }

  lemma {:induction false} RunRecords(p: Parts, events: seq<Event>)
    requires p.Valid()
    ensures Recorded(Run(Built(p), events))
    decreases |events|
  {
    if events != [] {
      var k := |events| - 1;
      RunRecords(p, events[..k]);
      ReachableRobot(p.hasArm, p.hasGimbal, p.hasServo, events[..k]);
      match events[k]
      case Submit(q) =>
      case Step(dt, reached) => TurnsRecord(Run(Built(p), events[..k]), |NAMES|, dt, reached);
    }
  }

  // ---------- the order of messages ----------

  function TurnPushes(r: Robot, n: Name, dt: real, reached: set<Name>): seq<Push> {
    if n in r.active then PushesOfTick(r.active[n], Tick(dt, n in reached)) else []
  }

  ghost predicate SameLater(r: Robot, r': Robot, count: nat) {
    forall n: Name | IndexOf(n) >= count :: (n in r'.active <==> n in r.active) && (n in r.active ==> r'.active[n] == r.active[n])
  }

  lemma TurnLeavesOthers(r: Robot, n: Name, dt: real, reached: set<Name>, m: Name)
    requires m != n
    ensures var r' := AfterTurn(r, n, dt, reached);
            (m in r'.active <==> m in r.active) && (m in r.active ==> r'.active[m] == r.active[m])
  {
    if n in r.active {
      var t := Tick(dt, n in reached);
      SteppedLeavesOthers(r, n, AfterTick(r.active[n], t), PushesOfTick(r.active[n], t), m);
    }
  }

  lemma SteppedLeavesOthers(r: Robot, n: Name, a: Task, sent: seq<Push>, m: Name)
    requires m != n
    ensures var s := Stepped(r, n, a, sent);
            && (m in s.active <==> m in r.active) && (m in r.active ==> s.active[m] == r.active[m])
            && (m in Erased(s, n).active <==> m in r.active) && (m in r.active ==> Erased(s, n).active[m] == r.active[m])
  {}

  lemma {:induction false} TurnsLeaveLater(r: Robot, count: nat, dt: real, reached: set<Name>)
    requires count <= |NAMES|
    ensures SameLater(r, AfterTurns(r, count, dt, reached), count)
  {
    if count > 0 {
      TurnsLeaveLater(r, count - 1, dt, reached);
      forall m: Name | IndexOf(m) >= count
        ensures var s, s' := AfterTurns(r, count - 1, dt, reached), AfterTurns(r, count, dt, reached);
                (m in s'.active <==> m in s.active) && (m in s.active ==> s'.active[m] == s.active[m])
      {
        NamesDistinct(count - 1, m);
        TurnLeavesOthers(AfterTurns(r, count - 1, dt, reached), NAMES[count - 1], dt, reached, m);
      }
    }
  }

  lemma TurnSends(r: Robot, n: Name, dt: real, reached: set<Name>)
    ensures AfterTurn(r, n, dt, reached).pushed == r.pushed + TurnPushes(r, n, dt, reached)
  {}

  lemma NextTurnSends(r: Robot, count: nat, dt: real, reached: set<Name>)
    requires count < |NAMES|
    ensures AfterTurns(r, count + 1, dt, reached).pushed
         == AfterTurns(r, count, dt, reached).pushed + TurnPushes(r, NAMES[count], dt, reached)
  {
    TurnsLeaveLater(r, count, dt, reached);
    NamesDistinct(count, NAMES[count]);
    TurnSends(AfterTurns(r, count, dt, reached), NAMES[count], dt, reached);
  }

  /** The messages of one step are those of the actions that were active before it, base first, then
      arm, gimbal, servo and sound. */
  lemma StepSends(r: Robot, dt: real, reached: set<Name>)
    ensures AfterStep(r, dt, reached).pushed
         == r.pushed + TurnPushes(r, Move, dt, reached) + TurnPushes(r, MoveArm, dt, reached)
            + TurnPushes(r, MoveGimbal, dt, reached) + TurnPushes(r, MoveServo, dt, reached) + TurnPushes(r, PlaySound, dt, reached)
  {
    NextTurnSends(r, 0, dt, reached);
    NextTurnSends(r, 1, dt, reached);
    NextTurnSends(r, 2, dt, reached);
    NextTurnSends(r, 3, dt, reached);
    NextTurnSends(r, 4, dt, reached);
  }
}
