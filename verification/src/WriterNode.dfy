/** The writer node as an object: each callback updates the fields as its function says. */
module WriterNode {
  import opened Wrappers
  import opened Writer

  class WriterNode {
    var state: State
    var goalType: GoalType
    var queue: seq<Entry>
    var lastEntry: Option<Entry>
    var currentPose: Option<Point>
    var lastWritingPosition: Option<Point>
    var turtle2Pose: Option<Point>
    var hasHandle: bool
    var goalInProgress: bool
    var chaseTimer: bool
    /** What the node has done to its surroundings. */
    var pen: Pen
    var sent: seq<Sent>
    ghost var requeued: nat
    ghost var pending: Pending

    ghost function View(): Node
      reads this
    {
      Node(state, goalType, queue, lastEntry, currentPose, lastWritingPosition, turtle2Pose,
           hasHandle, goalInProgress, chaseTimer, pen, sent, requeued, pending)
    }

    constructor (pen: Pen)
      ensures View() == Init(UsiPath(), pen)
    {
      state, goalType := WRITING, WritingGoal;
      queue := [Entry(1.0, 9.0, Some(PenOff))] + LetterU(1.0, 9.0, 8.0) + LetterS(1.0, 9.0, 8.0) + LetterI(1.0, 9.0, 8.0);
      lastEntry, currentPose, lastWritingPosition, turtle2Pose := None, None, None, None;
      hasHandle, goalInProgress, chaseTimer := false, false, false;
      this.pen, sent, requeued, pending := pen, [], 0, Pending(0, 0, 0, 0, 0, 0);
      new;
      SendNextGoal();
    }

    method SetPen(pen: Pen)
      modifies this`pen
      ensures this.pen == pen
    {
      this.pen := pen;
    }

    method SendGoal(goal: Goal)
      modifies this`sent, this`pending
      ensures sent == old(sent) + [Sent(goal, pen)]
      ensures pending == old(pending).(goals := old(pending.goals) + 1)
    {
      sent := sent + [Sent(goal, pen)];
      pending := pending.(goals := pending.goals + 1);
    }

    method SendNextGoal()
      modifies this
      ensures View() == SendNext(old(View()))
    {
      if queue == [] {
        return;
      }
      var entry := queue[0];
      queue := queue[1..];
      lastEntry := Some(entry);
      if currentPose != None {
        lastWritingPosition := currentPose;
      }
      if entry.pen != None {
        SetPen(entry.pen.value);
      }
      goalType := WritingGoal;
      SendGoal(Waypoint(entry));
    }

    method StartReturningAfterKill()
      modifies this`pending, this`state, this`goalType, this`pen
      ensures pending == old(pending).(kills := old(pending.kills) + 1)
      ensures state == RETURNING && goalType == ReturningGoal && pen == PenOff
    {
      pending := pending.(kills := pending.kills + 1);
      state := RETURNING;
      goalType := ReturningGoal;
      SetPen(PenOff);
    }

    method PoseCallback(p: Point)
      modifies this
      ensures View() == OnPose(old(View()), p)
    {
      currentPose := Some(p);
    }

    method Turtle2PoseCallback(p: Point)
      modifies this
      ensures View() == OnTurtle2Pose(old(View()), p)
    {
      turtle2Pose := Some(p);
      if currentPose != None {
        var distance := SquaredDistance(currentPose.value, p);
        if state == WRITING {
          if distance < CHASE_SQUARED {
            SetPen(PenOff);
            goalType := ChasingGoal;
            if hasHandle {
              pending := pending.(cancels := pending.cancels + 1);
            } else {
              state := ANGRY;
            }
          }
        } else if state == ANGRY && distance < KILL_SQUARED {
          chaseTimer := false;
          if hasHandle && goalInProgress {
            pending := pending.(chaseCancels := pending.chaseCancels + 1);
          } else {
            StartReturningAfterKill();
          }
        }
      }
    }

    method CancelChasingDoneCallback()
      modifies this
      ensures View() == OnCancelChasingDone(old(View()))
    {
      pending := pending.(chaseCancels := Pred(pending.chaseCancels));
      goalInProgress := false;
      StartReturningAfterKill();
    }

    method CancelDoneCallback(ok: bool)
      modifies this
      ensures View() == OnCancelDone(old(View()), ok)
    {
      pending := pending.(cancels := Pred(pending.cancels));
      if ok {
        if lastEntry != None {
          queue := [lastEntry.value] + queue;
          requeued := requeued + 1;
        }
      }
      goalInProgress := false;
      state := ANGRY;
      if !chaseTimer {
        chaseTimer := true;
      }
    }

    method ChaseTurtle2()
      modifies this
      ensures View() == OnChaseTimer(old(View()))
    {
      if turtle2Pose == None || currentPose == None || goalInProgress || state != ANGRY {
        return;
      }
      goalType := ChasingGoal;
      SendGoal(Chase);
    }

    method GoalResponseCallback(accepted: bool)
      modifies this
      ensures View() == OnGoalResponse(old(View()), accepted)
    {
      pending := pending.(goals := Pred(pending.goals));
      if !accepted {
        return;
      }
      hasHandle := true;
      goalInProgress := true;
      pending := pending.(results := pending.results + 1);
    }

    method ResultCallback(success: bool)
      modifies this
      ensures View() == OnResult(old(View()), success)
    {
      pending := pending.(results := Pred(pending.results));
      goalInProgress := false;
      ghost var done := View();
      if goalType == WritingGoal {
        if state == WRITING && success {
          SendNextGoal();
        }
      } else if goalType == ReturningGoal {
        if state == RETURNING && success {
          state := WRITING;
          goalType := WritingGoal;
          SetPen(PenOn);
          assert View() == done.(state := WRITING, goalType := WritingGoal, pen := PenOn);
          SendNextGoal();
        }
      }
    }

    method KillDoneCallback(ok: bool)
      modifies this
      ensures View() == OnKillDone(old(View()), ok)
    {
      pending := pending.(kills := Pred(pending.kills));
      if ok {
        pending := pending.(spawns := pending.spawns + 1);
      }
    }

    method SpawnDoneCallback(ok: bool)
      modifies this
      ensures View() == OnSpawnDone(old(View()), ok)
    {
      pending := pending.(spawns := Pred(pending.spawns));
      if ok && lastWritingPosition != None {
        SendGoal(Return(lastWritingPosition.value));
      }
    }
  }
}
