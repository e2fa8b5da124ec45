/** What a client can rely on: as long as it is heard of in time it stays connected and is served, and
    it is served nothing that it has not asked for. */
module Subscriptions {
  import opened RealMath
  import opened Commands
  import T = Topic

  // ---------- clients that are heard of in time ----------

  /** A client that was heard of `since` ago survives the operation. */
  predicate InTime(since: real, op: Operation) {
    match op
    case ResetNode => false
    case Step(dt) => since + dt <= 3.0
    case _ => true
  }

  function SinceAfter(since: real, op: Operation): real {
    match op
    case AddNode => 0.0
    case Heartbeat => 0.0
    case Step(dt) => since + dt
    case _ => since
  }

  /** Told from the operations alone: a client that was last heard of `since` ago is heard of again
      before more than three seconds of steps have gone by, every time, and is never reset. */
  predicate HeardInTime(since: real, ops: seq<Operation>)
    decreases |ops|
  {
    ops == [] || (InTime(since, ops[0]) && HeardInTime(SinceAfter(since, ops[0]), ops[1..]))
  }

  /** Connected after every prefix of the operations. */
  predicate ConnectedThroughout(c: Config, s: CommandsState, ops: seq<Operation>)
    decreases |ops|
  {
    s.connected && (ops == [] || ConnectedThroughout(c, Apply(c, s, ops[0]), ops[1..]))
  }

  /** How long ago the client was heard of. */
  function Since(s: CommandsState): real {
    s.time - s.lastHeartbeat
  }

  lemma HeardOperation(c: Config, s: CommandsState, op: Operation) returns (s': CommandsState)
    requires s.connected
    ensures s' == Apply(c, s, op)
    ensures s'.connected <==> InTime(Since(s), op)
    ensures s'.connected ==> Since(s') == SinceAfter(Since(s), op)
  {
    s' := Apply(c, s, op);
  }

  lemma HeardStep(c: Config, s: CommandsState, ops: seq<Operation>) returns (s': CommandsState)
    requires s.connected && ops != []
    ensures s' == Apply(c, s, ops[0])
    ensures HeardInTime(Since(s), ops) <==> s'.connected && HeardInTime(Since(s'), ops[1..])
  {
    s' := HeardOperation(c, s, ops[0]);
  }

  /** A connected client stays connected, throughout any operations, exactly if it is heard of in time. */
  lemma {:induction false} ConnectedExactly(c: Config, s: CommandsState, ops: seq<Operation>)
    requires s.connected
    ensures ConnectedThroughout(c, s, ops) <==> HeardInTime(Since(s), ops)
    decreases |ops|
  {
    if ops != [] {
      var s' := HeardStep(c, s, ops);
      if s'.connected {
        ConnectedExactly(c, s', ops[1..]);
      } else {
        NotThroughout(c, s', ops[1..]);
      }
    }
  }

  lemma NotThroughout(c: Config, s: CommandsState, ops: seq<Operation>)
    requires !s.connected
    ensures !ConnectedThroughout(c, s, ops)
  {}

  /** From construction on: a client that registers at any time is connected from then on exactly as
      long as no more than three seconds pass without a heartbeat or another registration. */
  lemma RegisteredStays(c: Config, before: seq<Operation>, ops: seq<Operation>)
    ensures ConnectedThroughout(c, Apply(c, Run(c, NewCommands(), before), AddNode), ops) <==> HeardInTime(0.0, ops)
  {
    ConnectedExactly(c, Apply(c, Run(c, NewCommands(), before), AddNode), ops);
  }

  // ---------- what they are served ----------

  /** The operation neither ends the subscription under `key` nor starts it again. */
  predicate LeavesTopic(op: Operation, key: nat) {
    match op
    case EnableSdk(value) => value
    case Create(_, k, _) => k != key
    case Stop(k) => k != key
    case _ => true
  }

  lemma HeardStepKeepsTopic(c: Config, s: CommandsState, key: nat, op: Operation)
    requires s.connected && key in s.publishers && LeavesTopic(op, key) && Apply(c, s, op).connected
    ensures var s' := Apply(c, s, op);
            && key in s'.publishers
            && s'.publishers[key] == if op.Step? then T.AfterTopicStep(s.publishers[key], op.dt) else s.publishers[key]
  {}

  /** The topic of a client that is heard of in time stays, and sends what it would send by itself. */
  lemma {:induction false} HeardKeepsTopic(c: Config, s: CommandsState, key: nat, ops: seq<Operation>)
    requires s.connected && key in s.publishers
    requires HeardInTime(Since(s), ops)
    requires forall op <- ops :: LeavesTopic(op, key)
    ensures var s' := Run(c, s, ops);
            s'.connected && key in s'.publishers && s'.publishers[key] == T.Run(s.publishers[key], StepSizes(ops))
    decreases |ops|
  {
    if ops != [] {
      assert ops[0] in ops;
      var s' := HeardStep(c, s, ops);
      HeardStepKeepsTopic(c, s, key, ops[0]);
      HeardKeepsTopic(c, s', key, ops[1..]);
      TopicRunFirst(s.publishers[key], ops);
    }
  }

  lemma CreateStartsTopic(c: Config, s: CommandsState, uid: nat, key: nat, freq: nat) returns (t: T.TopicState)
    requires uid in c.subjects
    ensures t == if key in s.publishers then s.publishers[key] else T.TopicState(freq, T.Never, false, 0)
    ensures var s' := AfterCreate(c, s, uid, key, freq);
            && key in s'.publishers && s'.publishers[key] == T.Started(t)
            && s'.connected == s.connected && s'.time == s.time && s'.lastHeartbeat == s.lastHeartbeat
  {
    t := if key in s.publishers then s.publishers[key] else T.TopicState(freq, T.Never, false, 0);
  }

  /** A connected client that subscribes to a known subject, and is heard of in time from then on, gets
      floor(T * f) + 1 frames in the time T, where f is the frequency it asked for when it first
      subscribed under the key. */
  lemma SubscriberServed(c: Config, s: CommandsState, uid: nat, key: nat, freq: nat, ops: seq<Operation>)
    returns (s': CommandsState, t: T.TopicState, n: nat)
    requires s.connected && uid in c.subjects && HeardInTime(Since(s), ops)
    requires (if key in s.publishers then s.publishers[key].freq else freq) > 0
    requires StepSizes(ops) != [] && forall op <- ops :: LeavesTopic(op, key) && Possible(op)
    ensures s' == Run(c, s, [Create(uid, key, freq)] + ops) && s'.connected
    ensures t == if key in s.publishers then s.publishers[key] else T.TopicState(freq, T.Never, false, 0)
    ensures key in s'.publishers && s'.publishers[key].freq == t.freq
    ensures s'.publishers[key].published == t.published + n && T.Punctual(s'.publishers[key], n, Total(StepSizes(ops)))
  {
    var all := [Create(uid, key, freq)] + ops;
    assert all[0] == Create(uid, key, freq) && all[1..] == ops;
    s' := Run(c, s, all);
    t := CreateStartsTopic(c, s, uid, key, freq);
    HeardKeepsTopic(c, Apply(c, s, all[0]), key, ops);
    StepSizesPossible(ops);
    var end;
    end, n := T.NoDrift(t, StepSizes(ops));
    SameFrequency(T.Started(t), StepSizes(ops));
  }

  lemma {:induction false} SameFrequency(t: T.TopicState, dts: seq<real>)
    ensures T.Run(t, dts).freq == t.freq
    decreases |dts|
  {
    if dts != [] {
      SameFrequency(T.AfterTopicStep(t, dts[0]), dts[1..]);
    }
  }

  /** What a single operation does to the events of a client that is heard of in time. */
  lemma HeardStepKeepsEvents(c: Config, s: CommandsState, op: Operation)
    requires s.connected && Apply(c, s, op).connected && op != EnableSdk(false)
    ensures var s' := Apply(c, s, op);
            && (s'.armorHitEvent <==> s.armorHitEvent || (c.enableArmorHits && op == AddNode))
            && (s'.irHitEvent <==> s.irHitEvent || (c.enableIrHits && op == AddNode))
            && (s'.visionEvent <==> s.visionEvent || op == VisionRequest)
  {}

  /** Nor does it lose its events, unless it disables the SDK; it has those that its registrations and
      requests have brought. */
  lemma {:induction false} HeardKeepsEvents(c: Config, s: CommandsState, ops: seq<Operation>)
    requires s.connected && HeardInTime(Since(s), ops) && EnableSdk(false) !in ops
    ensures var s' := Run(c, s, ops);
            && (s'.armorHitEvent <==> s.armorHitEvent || (c.enableArmorHits && AddNode in ops))
            && (s'.irHitEvent <==> s.irHitEvent || (c.enableIrHits && AddNode in ops))
            && (s'.visionEvent <==> s.visionEvent || VisionRequest in ops)
    decreases |ops|
  {
    if ops != [] {
      var s' := HeardStep(c, s, ops);
      assert ops[0] in ops && ops == [ops[0]] + ops[1..];
      HeardStepKeepsEvents(c, s, ops[0]);
      HeardKeepsEvents(c, s', ops[1..]);
    }
  }

  // ---------- nothing unasked ----------

  lemma {:induction false} RunLast(c: Config, s: CommandsState, ops: seq<Operation>, op: Operation)
    ensures Run(c, s, ops + [op]) == Apply(c, Run(c, s, ops), op)
    decreases |ops|
  {
    if ops == [] {
      assert [] + [op] == [op] && [op][1..] == [];
    } else {
      assert (ops + [op])[0] == ops[0] && (ops + [op])[1..] == ops[1..] + [op];
      RunLast(c, Apply(c, s, ops[0]), ops[1..], op);
    }
  }

  /** The operation ends the subscription under `key`. */
  predicate Removes(op: Operation, key: nat) {
    op == Stop(key) || op == EnableSdk(false) || op == ResetNode
  }

  /** Operation `i` asked for a known subject under `key` at `freq`, and nothing has ended that since. */
  predicate AskedFor(c: Config, ops: seq<Operation>, key: nat, freq: nat, i: nat) {
    && i < |ops| && ops[i].Create? && ops[i].uid in c.subjects && ops[i].key == key && ops[i].freq == freq
    && forall j | i < j < |ops| :: !Removes(ops[j], key)
  }

  lemma StillAskedFor(c: Config, ops: seq<Operation>, op: Operation, key: nat, freq: nat, i: nat)
    requires AskedFor(c, ops, key, freq, i) && !Removes(op, key)
    ensures AskedFor(c, ops + [op], key, freq, i)
  {}

  /** Every topic of a reachable state was asked for: a subscription to a known subject under its key
      and at its frequency, which has not been ended since. */
  lemma {:induction false} TopicsAskedFor(c: Config, ops: seq<Operation>, key: nat) returns (i: nat)
    requires key in Run(c, NewCommands(), ops).publishers
    ensures AskedFor(c, ops, key, Run(c, NewCommands(), ops).publishers[key].freq, i)
    decreases |ops|
  {
    var n := |ops| - 1;
    assert ops != [];
    var before, op, s := ops[..n], ops[n], Run(c, NewCommands(), ops[..n]);
    assert ops == before + [op];
    RunLast(c, NewCommands(), before, op);
    if key in s.publishers {
      i := TopicsAskedFor(c, before, key);
      StaysAsked(c, s, op, key);
      StillAskedFor(c, before, op, key, s.publishers[key].freq, i);
    } else {
      i := n;
      NewlyAsked(c, s, op, key);
    }
  }

  lemma StaysAsked(c: Config, s: CommandsState, op: Operation, key: nat)
    requires key in s.publishers && key in Apply(c, s, op).publishers
    ensures !Removes(op, key) && Apply(c, s, op).publishers[key].freq == s.publishers[key].freq
  {
    ApplyKeepsTopic(c, s, op, key);
  }

  lemma NewlyAsked(c: Config, s: CommandsState, op: Operation, key: nat)
    requires key !in s.publishers && key in Apply(c, s, op).publishers
    ensures op.Create? && op.uid in c.subjects && op.key == key && Apply(c, s, op).publishers[key].freq == op.freq
  {
    if !(op.Create? && op.key == key) {
      StaysAway(c, s, op, key);
    }
  }

  /** After a subscription has ended not a single frame is sent under its key until it is asked for
      again, whatever else happens. */
  lemma EndedSendsNothing(c: Config, s: CommandsState, op: Operation, key: nat, ops: seq<Operation>)
    requires Removes(op, key) && forall other <- ops :: other.Create? ==> other.key != key
    ensures SentDuring(c, Apply(c, s, op), key, ops) == 0
  {
    AwaySendsNothing(c, Apply(c, s, op), key, ops);
  }

  lemma {:induction false} AwaySendsNothing(c: Config, s: CommandsState, key: nat, ops: seq<Operation>)
    requires key !in s.publishers && forall other <- ops :: other.Create? ==> other.key != key
    ensures SentDuring(c, s, key, ops) == 0
    decreases |ops|
  {
    if ops != [] {
      assert ops[0] in ops;
      StaysAway(c, s, ops[0], key);
      AwaySendsNothing(c, Apply(c, s, ops[0]), key, ops[1..]);
    }
  }

  /** An operation of kind `k` that has not been undone since. */
  ghost predicate Brought(ops: seq<Operation>, k: Operation) {
    exists i :: 0 <= i < |ops| && ops[i] == k && forall j | i < j < |ops| :: ops[j] != EnableSdk(false) && ops[j] != ResetNode
  }

  lemma BroughtNext(ops: seq<Operation>, op: Operation, k: Operation)
    requires op == k || (Brought(ops, k) && op != EnableSdk(false) && op != ResetNode)
    ensures Brought(ops + [op], k)
  {
    var all := ops + [op];
    if op == k {
      assert all[|ops|] == k;
    } else {
      var i :| 0 <= i < |ops| && ops[i] == k && forall j | i < j < |ops| :: ops[j] != EnableSdk(false) && ops[j] != ResetNode;
      assert all[i] == k;
    }
  }

  /** Every event of a reachable state was asked for: by a registration, if it is enabled, or by a
      request; and nothing has ended it since. Nothing streams. */
  lemma {:induction false} EventsAskedFor(c: Config, ops: seq<Operation>)
    ensures var s := Run(c, NewCommands(), ops);
            && (s.armorHitEvent ==> c.enableArmorHits && Brought(ops, AddNode))
            && (s.irHitEvent ==> c.enableIrHits && Brought(ops, AddNode))
            && (s.visionEvent ==> Brought(ops, VisionRequest))
            && !s.streaming
    decreases |ops|
  {
    if ops != [] {
      var n := |ops| - 1;
      var before, op := ops[..n], ops[n];
      assert ops == before + [op];
      EventsAskedFor(c, before);
      RunLast(c, NewCommands(), before, op);
      var s := Run(c, NewCommands(), before);
      var s' := EventsNext(c, s, op);
      if s'.armorHitEvent || s'.irHitEvent {
        BroughtNext(before, op, AddNode);
      }
      if s'.visionEvent {
        BroughtNext(before, op, VisionRequest);
      }
    }
  }

  lemma EventsNext(c: Config, s: CommandsState, op: Operation) returns (s': CommandsState)
    ensures s' == Apply(c, s, op) && (s'.streaming ==> s.streaming)
    ensures s'.armorHitEvent ==> (op == AddNode && c.enableArmorHits) || (s.armorHitEvent && op != EnableSdk(false) && op != ResetNode)
    ensures s'.irHitEvent ==> (op == AddNode && c.enableIrHits) || (s.irHitEvent && op != EnableSdk(false) && op != ResetNode)
    ensures s'.visionEvent ==> op == VisionRequest || (s.visionEvent && op != EnableSdk(false) && op != ResetNode)
  {
    s' := Apply(c, s, op);
  }
}
