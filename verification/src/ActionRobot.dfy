/** The actions and their robot as objects; their methods are the functions of `Actions`. */
module ActionRobot {
  import opened ActionStates
  import opened Wrappers
  import opened Actions

  class Action {
    const name: Name
    var ticket: nat
    const servo: ServoIndex
    var state: ActionState
    var remaining: real
    var playTimes: nat
    var timeLeft: real
    var sdk: Option<Sdk>

    constructor (q: Request, ticket: nat)
      ensures View() == NewTask(q, ticket).(state := Undefined)
    {
      name, this.ticket, servo, state := q.name, ticket, q.servo, Undefined;
      remaining, playTimes, timeLeft := 0.0, q.playTimes, 5.0;
      sdk := NewSdk(q.sdk);
    }

    function View(): Task
      reads this
    {
      Task(name, ticket, servo, state, remaining, playTimes, timeLeft, sdk)
    }

    method DoStepTowards(reached: bool)
      modifies this`state
      ensures state == StateTowards(old(state), reached)
    {
      if state == Started {
        state := Running;
      }
      if state == Running && reached {
        state := Succeed;
      }
    }

    method DoStepSound(dt: real)
      requires name == PlaySound
      modifies this
      ensures forall reached :: View() == AfterDoStep(old(View()), Tick(dt, reached))
    {
      remaining := remaining - dt;
      state := Running;
      if remaining < 0.0 {
        if playTimes == 0 {
          state := Succeed;
        } else {
          remaining := 3.0;
          playTimes := playTimes - 1;
        }
      }
    }

    method DoStep(t: Tick)
      modifies this
      ensures View() == AfterDoStep(old(View()), t)
    {
      match name {
        case PlaySound =>
          DoStepSound(t.dt);
        case MoveServo =>
          DoStepTowards(t.reached || timeLeft < 0.0);
          timeLeft := timeLeft - t.dt;
        case _ =>
          DoStepTowards(t.reached);
      }
    }

    method Publish(dt: real) returns (sent: seq<Push>)
      modifies this
      ensures View() == AfterPublish(old(View()), dt)
      ensures sent == if Publishes(old(View()), dt) then [Push(ticket, old(sdk).value.id, state)] else []
    {
      sent := [];
      if sdk != None {
        var k := sdk.value;
        k := k.(deadline := k.deadline - dt);
        if IsDone(state) || k.deadline <= 0.0 {
          k := k.(deadline := k.deadline + 1.0 / PushFrequency(k.freqCode) as real);
          sent := [Push(ticket, k.id, state)];
        }
        sdk := Some(k);
      }
    }

    method DoStepCb(t: Tick) returns (sent: seq<Push>)
      modifies this
      ensures View() == AfterTick(old(View()), t)
      ensures sent == PushesOfTick(old(View()), t)
    {
      DoStep(t);
      sent := Publish(t.dt);
    }
  }

  class ActionRobot {
    const hasArm: bool
    const hasGimbal: bool
    const hasServo: seq<bool>
    var actions: map<Name, Action>
    var previous: map<Name, ActionState>
    var accepted: nat
    var pushed: seq<Push>
    ghost var ended: map<nat, Task>

    ghost predicate Valid()
      reads this
    {
      |hasServo| == 3 && forall m <- actions, n <- actions :: m != n ==> actions[m] != actions[n]
    }

    ghost function Tasks(): map<Name, Task>
      reads this, actions.Values
    {
      map n | n in actions :: actions[n].View()
    }

    ghost function View(): Robot
      reads this, actions.Values
    {
      Robot(hasArm, hasGimbal, hasServo, Tasks(), previous, accepted, ended, pushed)
    }

    constructor (hasArm: bool, hasGimbal: bool, hasServo: seq<bool>)
      requires |hasServo| == 3
      ensures Valid() && View() == NewRobot(hasArm, hasGimbal, hasServo)
    {
      this.hasArm := hasArm && hasServo[0] && hasServo[1];
      this.hasGimbal, this.hasServo := hasGimbal, hasServo;
      actions, previous, accepted, pushed, ended := map[], map[], 0, [], map[];
    }

    /** The `submit_action` overloads. */
    method Submit(q: Request) returns (answer: ActionState)
      requires Valid()
      modifies this
      ensures Valid()
      ensures answer == Answer(old(View()), q)
      ensures View() == AfterSubmit(old(View()), q)
    {
      match q.name {
        case MoveArm => if !hasArm { return Rejected; }
        case MoveGimbal => if !hasGimbal { return Rejected; }
        case MoveServo => if q.servo > 3 || !hasServo[q.servo] { return Rejected; }
        case _ =>
      }
      if q.name in actions {
        return Rejected;
      }
      Emplace(q);
      return Started;
    }

    method Emplace(q: Request)
      requires Valid() && q.name !in actions
      modifies this`actions, this`accepted
      ensures Valid() && accepted == old(accepted) + 1
      ensures Tasks() == old(Tasks())[q.name := NewTask(q, old(accepted))]
    {
      var action := new Action(q, accepted);
      action.state := Started;
      actions := actions[q.name := action];
      accepted := accepted + 1;
    }

    /** `do_step_cb` of one action of the map. */
    method StepAction(n: Name, t: Tick)
      requires Valid() && n in actions
      modifies this`pushed, actions[n]
      ensures View() == Stepped(old(View()), n, AfterTick(old(View()).active[n], t), PushesOfTick(old(View()).active[n], t))
    {
      var sent := actions[n].DoStepCb(t);
      pushed := pushed + sent;
      assert Tasks() == old(Tasks())[n := actions[n].View()];
    }

    /** An action that is done is erased, and its state recorded. */
    method Erase(n: Name)
      requires Valid() && n in actions
      modifies this`actions, this`previous, this`ended
      ensures Valid() && actions.Values <= old(actions.Values)
      ensures View() == Erased(old(View()), n)
    {
      ghost var r, a := View(), Tasks()[n];
      previous := previous[n := actions[n].state];
      ended := ended[a.ticket := a];
      actions := actions - {n};
      assert Tasks() == r.active - {n};
    }

    /** The loop body for one key of the map. */
    method Turn(n: Name, dt: real, reached: set<Name>)
      requires Valid()
      modifies this, actions.Values
      ensures Valid() && actions.Values <= old(actions.Values)
      ensures View() == AfterTurn(old(View()), n, dt, reached)
    {
      if n in actions {
        StepAction(n, Tick(dt, n in reached));
        if IsDone(actions[n].state) {
          Erase(n);
        }
      }
    }

    /** The actions run in the order of their names. */
    method DoStep(dt: real, reached: set<Name>)
      requires Valid()
      modifies this, actions.Values
      ensures Valid()
      ensures View() == AfterStep(old(View()), dt, reached)
    {
      for i := 0 to |NAMES|
        invariant Valid() && actions.Values <= old(actions.Values)
        invariant View() == AfterTurns(old(View()), i, dt, reached)
      {
        Turn(NAMES[i], dt, reached);
      }
    }
  }
}
