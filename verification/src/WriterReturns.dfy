/** Where the writer returns to after an interruption, told from the events of a run alone. */
module WriterReturns {
  import opened Wrappers
  import opened Writer
  import opened WriterProof

  /** The pose of the writing turtle that was reported last. */
  function LastReported(events: seq<Event>): Option<Point> {
    if events == [] then None else
    var n := |events| - 1;
    if events[n].PoseMsg? then Some(events[n].pose) else LastReported(events[..n])
  }

  /** Goal number `k` was sent by event number `n`. */
  predicate SentBy(path: seq<Entry>, pen: Pen, events: seq<Event>, k: nat, n: nat) {
    n < |events| && |Run(path, pen, events[..n]).sent| <= k < |Run(path, pen, events[..n + 1]).sent|
  }

  /** Of the first `i` goals, the last waypoint is number `k`. */
  predicate LastWaypoint(sent: seq<Sent>, i: nat, k: nat) {
    k < i <= |sent| && sent[k].goal.Waypoint? && forall j | k < j < i :: !sent[j].goal.Waypoint?
  }

  /** Before the last waypoint among the first `i` goals was sent, the pose `p` was reported last. */
  ghost predicate WrittenFrom(path: seq<Entry>, pen: Pen, events: seq<Event>, i: nat, p: Point) {
    exists k: nat, n: nat ::
      && LastWaypoint(Run(path, pen, events).sent, i, k)
      && SentBy(path, pen, events, k, n) && LastReported(events[..n]) == Some(p)
  }

  /** A pose had been reported before the last waypoint was sent. */
  ghost predicate KnowsOrigin(path: seq<Entry>, pen: Pen, events: seq<Event>) {
    exists p :: WrittenFrom(path, pen, events, |Run(path, pen, events).sent|, p)
  }

  // ---------- goals are only ever added ----------

  /** The goal that a callback sends, if it sends one. */
  lemma SentGrows(w: Node, e: Event) returns (more: seq<Sent>)
    ensures |more| <= 1 && On(w, e).sent == w.sent + more && more == On(w, e).sent[|w.sent|..]
  {
    more := On(w, e).sent[|w.sent|..];
    match e {
      case Result(success) => ResultSentGrows(w, success);
      case SpawnDone(_) =>
      case ChaseTimer =>
      case _ => OthersSendNothing(w, e);
    }
  }

  lemma OthersSendNothing(w: Node, e: Event)
    requires !e.Result? && !e.SpawnDone? && !e.ChaseTimer?
    ensures On(w, e).sent == w.sent
  {}

  lemma ResultSentGrows(w: Node, success: bool)
    ensures var sent := OnResult(w, success).sent;
            |w.sent| <= |sent| <= |w.sent| + 1 && sent[..|w.sent|] == w.sent
  {}

  /** Goals sent during a prefix of a run keep their number. */
  lemma {:induction false} SentPrefix(path: seq<Entry>, pen: Pen, events: seq<Event>, n: nat)
    requires n <= |events|
    ensures Run(path, pen, events[..n]).sent <= Run(path, pen, events).sent
    decreases |events|
  {
    if n == |events| {
      assert events[..n] == events;
    } else {
      var m := |events| - 1;
      SentPrefix(path, pen, events[..m], n);
      assert events[..m][..n] == events[..n];
      var more := SentGrows(Run(path, pen, events[..m]), events[m]);
    }
  }

  lemma WrittenFromLater(path: seq<Entry>, pen: Pen, events: seq<Event>, e: Event, i: nat, p: Point)
    requires WrittenFrom(path, pen, events, i, p)
    ensures WrittenFrom(path, pen, events + [e], i, p)
  {
    var k: nat, n: nat :|
      && LastWaypoint(Run(path, pen, events).sent, i, k)
      && SentBy(path, pen, events, k, n) && LastReported(events[..n]) == Some(p);
    var after := events + [e];
    assert after[..n] == events[..n] && after[..n + 1] == events[..n + 1] && after[..|events|] == events;
    SentPrefix(path, pen, after, |events|);
    assert LastWaypoint(Run(path, pen, after).sent, i, k) && SentBy(path, pen, after, k, n);
  }

  // ---------- what the node remembers ----------

  /** The node's own record agrees with the events. */
  ghost predicate Remembers(path: seq<Entry>, pen: Pen, events: seq<Event>) {
    var w := Run(path, pen, events);
    && w.currentPose == LastReported(events)
    && (w.currentPose == None ==> w.lastWritingPosition == None)
    && (forall p :: w.lastWritingPosition == Some(p) <==> WrittenFrom(path, pen, events, |w.sent|, p))
  }

  /** A waypoint is sent from where the turtle was last reported. */
  lemma WaypointFrom(path: seq<Entry>, pen: Pen, events: seq<Event>, e: Event, more: Sent)
    requires var w := Run(path, pen, events);
             On(w, e).sent == w.sent + [more] && more.goal.Waypoint?
    ensures var after := events + [e];
            forall p :: WrittenFrom(path, pen, after, |Run(path, pen, after).sent|, p) <==> LastReported(events) == Some(p)
  {
    var after, n := events + [e], |events|;
    assert after[..n] == events && after[..n + 1] == after;
    var sent := Run(path, pen, after).sent;
    var k := |sent| - 1;
    assert LastWaypoint(sent, |sent|, k) && SentBy(path, pen, after, k, n);
    forall p ensures WrittenFrom(path, pen, after, |sent|, p) <==> LastReported(events) == Some(p) {
      if LastReported(events) == Some(p) {
        assert WrittenFrom(path, pen, after, |sent|, p);
      }
      if WrittenFrom(path, pen, after, |sent|, p) {
        var l: nat, m: nat :| LastWaypoint(sent, |sent|, l) && SentBy(path, pen, after, l, m) && LastReported(after[..m]) == Some(p);
        if m < n {
          assert after[..n][..m + 1] == after[..m + 1];
          SentPrefix(path, pen, events, m + 1);
        }
      }
    }
  }

  lemma LastWaypointKept(sent: seq<Sent>, more: seq<Sent>, k: nat)
    requires |more| <= 1 && (more != [] ==> !more[0].goal.Waypoint?)
    ensures LastWaypoint(sent + more, |sent + more|, k) <==> LastWaypoint(sent, |sent|, k)
  {
    var all := sent + more;
    assert forall j | 0 <= j < |sent| :: all[j] == sent[j];
    if LastWaypoint(all, |all|, k) {
      assert LastWaypoint(sent, |sent|, k) by {
        assert forall j | k < j < |sent| :: !all[j].goal.Waypoint?;
      }
    }
  }

  lemma SentByKept(path: seq<Entry>, pen: Pen, events: seq<Event>, e: Event, k: nat, n: nat)
    requires k < |Run(path, pen, events).sent|
    ensures SentBy(path, pen, events + [e], k, n) <==> SentBy(path, pen, events, k, n)
    ensures SentBy(path, pen, events, k, n) ==> (events + [e])[..n] == events[..n]
  {
    var after := events + [e];
    assert after[..|events|] == events;
    if n < |events| {
      assert after[..n] == events[..n] && after[..n + 1] == events[..n + 1];
    }
  }

  /** Number `k`, sent by event `n`, is the last waypoint, and `p` was reported last before. */
  ghost predicate Origin(path: seq<Entry>, pen: Pen, events: seq<Event>, p: Point, k: nat, n: nat) {
    var sent := Run(path, pen, events).sent;
    LastWaypoint(sent, |sent|, k) && SentBy(path, pen, events, k, n) && LastReported(events[..n]) == Some(p)
  }

  lemma OriginKept(path: seq<Entry>, pen: Pen, events: seq<Event>, e: Event, more: seq<Sent>, p: Point, k: nat, n: nat)
    requires Run(path, pen, events + [e]).sent == Run(path, pen, events).sent + more
    requires |more| <= 1 && (more != [] ==> !more[0].goal.Waypoint?)
    ensures Origin(path, pen, events + [e], p, k, n) <==> Origin(path, pen, events, p, k, n)
  {
    LastWaypointKept(Run(path, pen, events).sent, more, k);
    if k < |Run(path, pen, events).sent| {
      SentByKept(path, pen, events, e, k, n);
    }
  }

  lemma WrittenFromOrigin(path: seq<Entry>, pen: Pen, events: seq<Event>, p: Point)
    ensures WrittenFrom(path, pen, events, |Run(path, pen, events).sent|, p)
       <==> exists k: nat, n: nat :: Origin(path, pen, events, p, k, n)
  {
    var i := |Run(path, pen, events).sent|;
    if WrittenFrom(path, pen, events, i, p) {
      var k: nat, n: nat :|
        && LastWaypoint(Run(path, pen, events).sent, i, k)
        && SentBy(path, pen, events, k, n) && LastReported(events[..n]) == Some(p);
      assert Origin(path, pen, events, p, k, n);
    }
    if k: nat, n: nat :| Origin(path, pen, events, p, k, n) {
      assert LastWaypoint(Run(path, pen, events).sent, i, k) && SentBy(path, pen, events, k, n);
    }
  }

  /** Other callbacks do not change where the last waypoint was sent from. */
  lemma OthersKeepOrigin(path: seq<Entry>, pen: Pen, events: seq<Event>, e: Event, more: seq<Sent>, p: Point)
    requires Run(path, pen, events + [e]).sent == Run(path, pen, events).sent + more
    requires |more| <= 1 && (more != [] ==> !more[0].goal.Waypoint?)
    ensures WrittenFrom(path, pen, events + [e], |Run(path, pen, events + [e]).sent|, p)
       <==> WrittenFrom(path, pen, events, |Run(path, pen, events).sent|, p)
  {
    WrittenFromOrigin(path, pen, events, p);
    WrittenFromOrigin(path, pen, events + [e], p);
    forall k: nat, n: nat ensures Origin(path, pen, events + [e], p, k, n) <==> Origin(path, pen, events, p, k, n) {
      OriginKept(path, pen, events, e, more, p, k, n);
    }
  }

  lemma InitRemembers(path: seq<Entry>, pen: Pen)
    ensures Remembers(path, pen, [])
  {}

  /** What a callback makes of the two poses. */
  lemma PosesAfter(w: Node, e: Event)
    ensures On(w, e).currentPose == if e.PoseMsg? then Some(e.pose) else w.currentPose
    ensures var more := On(w, e).sent[|w.sent|..];
            On(w, e).lastWritingPosition
              == if more != [] && more[0].goal.Waypoint? && w.currentPose.Some? then w.currentPose else w.lastWritingPosition
  {
    if e.Result? {
      ResultPoses(w, e.success);
    }
  }

  lemma ResultPoses(w: Node, success: bool)
    ensures OnResult(w, success).currentPose == w.currentPose
    ensures var sent := OnResult(w, success).sent;
            && (sent == w.sent || (|sent| == |w.sent| + 1 && sent[|w.sent|].goal.Waypoint?))
            && OnResult(w, success).lastWritingPosition
                 == if sent != w.sent && w.currentPose.Some? then w.currentPose else w.lastWritingPosition
  {}

  lemma LastReportedNext(events: seq<Event>, e: Event)
    ensures LastReported(events + [e]) == if e.PoseMsg? then Some(e.pose) else LastReported(events)
  {
    assert (events + [e])[..|events|] == events;
  }

  lemma EventRemembers(path: seq<Entry>, pen: Pen, events: seq<Event>, e: Event)
    requires Remembers(path, pen, events)
    ensures Remembers(path, pen, events + [e])
  {
    var w, after := Run(path, pen, events), events + [e];
    assert after[..|events|] == events;
    var more := SentGrows(w, e);
    assert On(w, e).sent[|w.sent|..] == more;
    PosesAfter(w, e);
    LastReportedNext(events, e);
    if more != [] && more[0].goal.Waypoint? {
      assert more == [more[0]];
      WaypointFrom(path, pen, events, e, more[0]);
    } else {
      forall p ensures WrittenFrom(path, pen, after, |Run(path, pen, after).sent|, p)
                  <==> WrittenFrom(path, pen, events, |w.sent|, p) {
        OthersKeepOrigin(path, pen, events, e, more, p);
      }
    }
  }

  lemma {:induction false} RunRemembers(path: seq<Entry>, pen: Pen, events: seq<Event>)
    ensures Remembers(path, pen, events)
  {
    if events == [] {
      InitRemembers(path, pen);
    } else {
      var n := |events| - 1;
      RunRemembers(path, pen, events[..n]);
      EventRemembers(path, pen, events[..n], events[n]);
      assert events[..n] + [events[n]] == events;
    }
  }

  // ---------- every return ----------

  /** Only a confirmed respawn sends the robot back. */
  lemma ReturnSent(w: Node, e: Event) returns (more: seq<Sent>)
    ensures |more| <= 1 && On(w, e).sent == w.sent + more
    ensures (more != [] && more[0].goal.Return?) <==> e == SpawnDone(true) && w.lastWritingPosition.Some?
    ensures more != [] && more[0].goal.Return? ==> more[0].goal.to == w.lastWritingPosition.value
  {
    more := SentGrows(w, e);
    if e.Result? {
      ResultPoses(w, e.success);
    } else if e == SpawnDone(true) && w.lastWritingPosition.Some? {
      assert more == [Sent(Return(w.lastWritingPosition.value), w.pen)];
    } else {
      assert On(w, e).sent == w.sent || On(w, e).sent == w.sent + [Sent(Chase, w.pen)];
    }
  }

  /** A returning goal is sent exactly when a respawn is confirmed and a pose had been reported before
      the last waypoint was sent; it leads to the pose reported last before that. */
  lemma ReturnSentExactly(path: seq<Entry>, pen: Pen, events: seq<Event>, e: Event) returns (more: seq<Sent>)
    ensures Run(path, pen, events + [e]).sent == Run(path, pen, events).sent + more && |more| <= 1
    ensures (more != [] && more[0].goal.Return?) <==> e == SpawnDone(true) && KnowsOrigin(path, pen, events)
    ensures more != [] && more[0].goal.Return? ==>
              WrittenFrom(path, pen, events, |Run(path, pen, events).sent|, more[0].goal.to)
  {
    var w := Run(path, pen, events);
    assert (events + [e])[..|events|] == events;
    more := ReturnSent(w, e);
    RunRemembers(path, pen, events);
    if w.lastWritingPosition.Some? {
      assert WrittenFrom(path, pen, events, |w.sent|, w.lastWritingPosition.value);
    }
  }

  lemma ReturnOfEvent(path: seq<Entry>, pen: Pen, before: seq<Event>, e: Event, i: nat) returns (sent: seq<Sent>)
    ensures sent == Run(path, pen, before + [e]).sent
    ensures i < |Run(path, pen, before).sent| ==> i < |sent| && sent[i] == Run(path, pen, before).sent[i]
    ensures |Run(path, pen, before).sent| <= i < |sent| && sent[i].goal.Return? ==>
              WrittenFrom(path, pen, before, i, sent[i].goal.to)
  {
    sent := Run(path, pen, before + [e]).sent;
    var more := ReturnSentExactly(path, pen, before, e);
  }

  /** Over every sequence of events: each returning goal leads to the pose that was reported last
      before the last waypoint ahead of it was sent. */
  lemma {:induction false} ReturnsToWriting(path: seq<Entry>, pen: Pen, events: seq<Event>, i: nat)
    requires i < |Run(path, pen, events).sent| && Run(path, pen, events).sent[i].goal.Return?
    ensures WrittenFrom(path, pen, events, i, Run(path, pen, events).sent[i].goal.to)
  {
    if events != [] {
      var n := |events| - 1;
      var before, e := events[..n], events[n];
      assert before + [e] == events;
      var sent := ReturnOfEvent(path, pen, before, e, i);
      if i < |Run(path, pen, before).sent| {
        ReturnsToWriting(path, pen, before, i);
      }
      WrittenFromLater(path, pen, before, e, i, sent[i].goal.to);
    }
  }
}
