/** Periodic publication of a subject: `Topic`. */
module Topic {
  import opened RealMath

  /** The float deadline; a subscription at 0 Hz has an infinite period, and after its first
      frame a deadline that never comes. */
  datatype Deadline = At(time: real) | Never

  /** A topic as a value: its frequency in Hz and the number of frames it has sent. */
  datatype TopicState = TopicState(freq: nat, deadline: Deadline, active: bool, published: nat) {
    /** Between two steps a started topic is never overdue, nor more than a period early. */
    ghost predicate Live() {
      active && match deadline
                case Never => freq == 0
                case At(d) => 0.0 <= d && (freq > 0 ==> d * freq as real <= 1.0)
    }
  }

  /** The number of frames sent by a step that leaves the deadline at `d` before publishing. */
  function Overdue(freq: nat, d: real): nat {
    if d > 0.0 then 0 else if freq == 0 then 1 else (-d * freq as real).Floor + 1
  }

  function Emitted(s: TopicState, dt: real): nat {
    if !s.active || s.deadline == Never then 0 else Overdue(s.freq, s.deadline.time - dt)
  }

  function AfterTopicStep(s: TopicState, dt: real): TopicState {
    if !s.active || s.deadline == Never then s else
    var d, n := s.deadline.time - dt, Emitted(s, dt);
    s.(published := s.published + n,
       deadline := if n == 0 then At(d) else if s.freq == 0 then Never else At(d + n as real / s.freq as real))
  }

  function Started(s: TopicState): TopicState {
    s.(active := true, deadline := At(0.0))
  }

  class Topic {
    const freq: nat
    var deadline: Deadline
    var active: bool
    var published: nat

    function View(): TopicState
      reads this
    {
      TopicState(freq, deadline, active, published)
    }

    constructor (freq: nat)
      ensures View() == TopicState(freq, Never, false, 0)
    {
      this.freq := freq;
      deadline, active, published := Never, false, 0;
    }

    method Start()
      modifies this
      ensures View() == Started(old(View()))
    {
      active := true;
      deadline := At(0.0);
    }

    method Stop()
      modifies this
      ensures View() == old(View()).(active := false)
    {
      active := false;
    }

    method Publish()
      modifies this
      ensures View() == old(View()).(published := old(published) + 1)
    {
      published := published + 1;
    }

    /** The catch-up loop ends, and has then sent one frame for every period that was due. */
    method DoStep(dt: real)
      modifies this
      ensures View() == AfterTopicStep(old(View()), dt)
    {
      if !active {
        return;
      }
      deadline := match deadline case At(d) => At(d - dt) case Never => Never;
      ghost var start := deadline;
      ghost var n: nat := 0;
      while deadline != Never && deadline.time <= 0.0
        invariant active && published == old(published) + n
        invariant CaughtUp(freq, start, n, deadline)
        decreases Lag(freq, deadline)
      {
        CatchUp(freq, start, n, deadline);
        deadline := NextDeadline(freq, deadline.time);
        Publish();
        n := n + 1;
      }
      if start != Never {
        FramesDue(freq, start.time, n, deadline);
      }
    }
  }

  /** `deadline += 1.0f / sub_freq`. */
  function NextDeadline(freq: nat, d: real): Deadline {
    if freq == 0 then Never else At(d + 1.0 / freq as real)
  }

  /** The loop state after `n` frames: each frame was due, and moved the deadline by a period. */
  ghost predicate CaughtUp(freq: nat, start: Deadline, n: nat, now: Deadline) {
    if start == Never then n == 0 && now == Never
    else if freq == 0 then (n == 0 && now == start) || (n == 1 && now == Never && start.time <= 0.0)
    else
      var d, f := start.time, freq as real;
      now == At(d + n as real / f) && (n == 0 || d + n as real / f - 1.0 / f <= 0.0)
  }

  ghost function Lag(freq: nat, now: Deadline): nat {
    if now == Never || now.time > 0.0 then 0 else
    if freq == 0 then 1 else
    var lag := -now.time * freq as real;
    assert lag >= 0.0 by {
      ProductNonNegative(-now.time, freq as real);
    }
    lag.Floor + 1
  }

  lemma CatchUp(freq: nat, start: Deadline, n: nat, now: Deadline)
    requires CaughtUp(freq, start, n, now) && now != Never && now.time <= 0.0
    ensures CaughtUp(freq, start, n + 1, NextDeadline(freq, now.time))
    ensures Lag(freq, NextDeadline(freq, now.time)) < Lag(freq, now)
  {
    if freq > 0 {
      var f, x := freq as real, now.time;
      assert (n + 1) as real / f == n as real / f + 1.0 / f;
      assert -(x + 1.0 / f) * f == -x * f - 1.0;
      ProductNonNegative(-x, f);
    }
  }

  /** `n` periods bring the deadline `d` from the past just into the future. */
  lemma FramesDue(freq: nat, d: real, n: nat, now: Deadline)
    requires CaughtUp(freq, At(d), n, now) && (now == Never || now.time > 0.0)
    ensures n == Overdue(freq, d)
    ensures n > 0 && freq > 0 ==> now == At(d + n as real / freq as real)
  {
    if freq > 0 {
      PeriodsDue(d, freq as real, n);
    }
  }

  lemma PeriodsDue(d: real, f: real, n: nat)
    requires f > 0.0 && d + n as real / f > 0.0
    requires n == 0 || d + n as real / f - 1.0 / f <= 0.0
    ensures n == if d > 0.0 then 0 else (-d * f).Floor + 1
  {
    var k, s := n as real, d * f;
    assert d > 0.0 ==> s > 0.0;
    assert (k / f) * f == k;
    assert (d + k / f) * f == s + k > 0.0;
    if n > 0 {
      assert (d + k / f - 1.0 / f) * f == s + k - 1.0;
      assert (d + k / f - 1.0 / f) * f <= 0.0;
    }
  }

  // ---------- no drift ----------

  function Run(s: TopicState, dts: seq<real>): TopicState
    decreases |dts|
  {
    if dts == [] then s else Run(AfterTopicStep(s, dts[0]), dts[1..])
  }

  /** The deadline is where it must be after `n` frames in time `t` since the start. */
  ghost predicate OnTime(s: TopicState, n: nat, t: real) {
    && s.active && s.freq > 0
    && s.deadline == At(n as real / s.freq as real - t)
    && 0.0 < s.deadline.time && s.deadline.time * s.freq as real <= 1.0
  }

  /** One step from a deadline that is not in the past. */
  lemma StepOnTime(s: TopicState, n: nat, t: real, dt: real)
    requires s.active && s.freq > 0 && dt >= 0.0
    requires s.deadline == At(n as real / s.freq as real - t)
    requires 0.0 <= s.deadline.time && s.deadline.time * s.freq as real <= 1.0
    ensures OnTime(AfterTopicStep(s, dt), n + Emitted(s, dt), t + dt)
    ensures AfterTopicStep(s, dt).published == s.published + Emitted(s, dt)
  {
    var f, d, e := s.freq as real, s.deadline.time - dt, Emitted(s, dt);
    assert (n + e) as real / f == n as real / f + e as real / f;
    StepBounds(s.deadline.time, dt, f, e);
  }

  lemma StepBounds(x: real, dt: real, f: real, e: nat)
    requires f > 0.0 && 0.0 <= x && x * f <= 1.0 && dt >= 0.0
    requires e == if x - dt > 0.0 then 0 else (-(x - dt) * f).Floor + 1
    ensures var y := if e == 0 then x - dt else x - dt + e as real / f;
            0.0 < y && y * f <= 1.0
  {
    var d, k := x - dt, e as real;
    if e == 0 {
      ProductNonNegative(dt, f);
      assert d * f == x * f - dt * f;
    } else {
      assert (k / f) * f == k;
      assert (d + k / f) * f == d * f + k;
      assert -d * f == -(d * f);
      assert (d + k / f) * f > 0.0;
      PositiveFactor(d + k / f, f);
    }
  }

  lemma PositiveFactor(a: real, f: real)
    requires f > 0.0 && a * f > 0.0
    ensures a > 0.0
  {
    if a <= 0.0 {
      ProductNonNegative(-a, f);
    }
  }

  lemma {:induction false} RunOnTime(s: TopicState, n: nat, t: real, dts: seq<real>)
    requires s.active && s.freq > 0 && dts != []
    requires s.deadline == At(n as real / s.freq as real - t)
    requires 0.0 <= s.deadline.time && s.deadline.time * s.freq as real <= 1.0
    requires forall i | 0 <= i < |dts| :: dts[i] >= 0.0
    ensures var s' := Run(s, dts);
            s'.freq == s.freq && s'.published >= s.published
            && OnTime(s', n + (s'.published - s.published), t + Total(dts))
    decreases |dts|
  {
    StepOnTime(s, n, t, dts[0]);
    if |dts| > 1 {
      RunOnTime(AfterTopicStep(s, dts[0]), n + Emitted(s, dts[0]), t + dts[0], dts[1..]);
    } else {
      assert dts[1..] == [];
    }
  }

  /** The number of frames sent in time `t`, and the next one less than a period away. */
  ghost predicate Punctual(s: TopicState, n: nat, t: real) {
    && s.freq > 0 && n == (t * s.freq as real).Floor + 1
    && s.deadline != Never && 0.0 < s.deadline.time <= 1.0 / s.freq as real
  }

  lemma OnTimeIsPunctual(s: TopicState, n: nat, t: real)
    requires OnTime(s, n, t)
    ensures Punctual(s, n, t)
  {
    var f, k := s.freq as real, n as real;
    assert (k / f) * f == k;
    assert (k / f - t) * f == k - t * f;
    assert (k / f - t) * f > 0.0;
    AtMostPeriod(s.deadline.time, f);
  }

  /** No drift: after steps of any sizes that sum up to T, a started topic of frequency f has sent
      exactly floor(T * f) + 1 frames, and its next frame is at most a period away. */
  lemma NoDrift(s: TopicState, dts: seq<real>) returns (s': TopicState, n: nat)
    requires s.freq > 0 && dts != []
    requires forall i | 0 <= i < |dts| :: dts[i] >= 0.0
    ensures s' == Run(Started(s), dts) && s'.published == s.published + n
    ensures Punctual(s', n, Total(dts))
  {
    s', n := RunFromStart(s, dts);
    OnTimeIsPunctual(s', n, Total(dts));
  }

  lemma RunFromStart(s: TopicState, dts: seq<real>) returns (s': TopicState, n: nat)
    requires s.freq > 0 && dts != []
    requires forall i | 0 <= i < |dts| :: dts[i] >= 0.0
    ensures s' == Run(Started(s), dts) && s'.freq == s.freq && s'.published == s.published + n
    ensures OnTime(s', n, Total(dts))
  {
    assert 0 as real / s.freq as real == 0.0;
    RunOnTime(Started(s), 0, 0.0, dts);
    s' := Run(Started(s), dts);
    n := s'.published - s.published;
  }

  lemma AtMostPeriod(x: real, f: real)
    requires f > 0.0 && x * f <= 1.0
    ensures x <= 1.0 / f
  {
    var p := 1.0 / f;
    assert p * f == 1.0;
    if x > p {
      assert (x - p) * f > 0.0;
    }
  }

  /** A subscription at 0 Hz is answered by a single frame, however long the topic runs. */
  lemma {:induction false} ZeroFrequencyOnce(s: TopicState, dts: seq<real>)
    requires s.freq == 0 && s.active && s.deadline == Never
    ensures Run(s, dts) == s
    decreases |dts|
  {
    if dts != [] {
      ZeroFrequencyOnce(s, dts[1..]);
    }
  }

  lemma ZeroFrequencySendsOne(s: TopicState, dts: seq<real>)
    requires s.freq == 0 && dts != [] && dts[0] >= 0.0
    ensures Run(Started(s), dts).published == s.published + 1
  {
    ZeroFrequencyOnce(AfterTopicStep(Started(s), dts[0]), dts[1..]);
  }
}
