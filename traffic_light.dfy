/** The traffic light: its current phase, the blocking wait for green, and
    the phase-toggling loop, one iteration at a time. Threads, locks and the
    clock are replaced by explicit state and integer clock readings (ms). */
module Lights {
  import opened Phases
  import opened Messages

  // ---------------------------------------------------------------------
  // Waiting for green

  /** What a waiter leaves in the buffer: it receives from the back until it
      sees a green, so it stops at the LAST green and everything it took
      before that was red. */
  function DrainToGreen(q: seq<Phase>): (r: seq<Phase>)
    requires Green in q
    ensures |r| < |q| && q[|r|] == Green && r == q[..|r|]
    ensures forall k :: |r| < k < |q| ==> q[k] == Red
  {
    var rest := q[..|q| - 1];
    if q[|q| - 1] == Green then rest
    else
      assert Green in rest by {
        var i :| 0 <= i < |q| && q[i] == Green;
        assert rest[i] == Green;
      }
      DrainToGreen(rest)
  }

  /** A buffer `a + [Green] + r` with only reds in `r` is drained back to `a`. */
  lemma {:induction false} DrainToGreenOfSplit(a: seq<Phase>, r: seq<Phase>)
    requires forall k :: 0 <= k < |r| ==> r[k] == Red
    ensures Green in a + [Green] + r
    ensures DrainToGreen(a + [Green] + r) == a
  {
    var q := a + [Green] + r;
    assert q[|a|] == Green;
    if r != [] {
      var n := |r| - 1;
      assert q[..|q| - 1] == a + [Green] + r[..n];
      DrainToGreenOfSplit(a, r[..n]);
    }
  }

  // ---------------------------------------------------------------------
  // One iteration of the toggling loop, as a function of its inputs

  /** The random cycle duration, drawn once from [4000, 6000] ms. */
  type CycleDuration = d: int | 4000 <= d <= 6000 witness 4000

  /** The state the toggling loop carries from one iteration to the next:
      the light's phase and the time origin of the current cycle. */
  datatype CycleState = CycleState(phase: Phase, t1: int)

  /** The two clock readings of one iteration: the one the elapsed time is
      computed from, and the one taken as the new origin after a flip. */
  datatype Tick = Tick(now: int, resetAt: int)

  /** The loop state after one iteration. The phase changes exactly when the
      elapsed time has reached the duration, and the origin is reset exactly
      then. */
  function Advance(s: CycleState, d: CycleDuration, tick: Tick): (r: CycleState)
    ensures r.phase != s.phase <==> tick.now - s.t1 >= d
    ensures r.t1 == if tick.now - s.t1 >= d then tick.resetAt else s.t1
  {
    if tick.now - s.t1 >= d then CycleState(Toggle(s.phase), tick.resetAt) else s
  }

  /** A finite prefix of the infinite loop: the state after the iterations of
      `ticks`, and the phases they send, one per iteration. */
  function Run(s: CycleState, d: CycleDuration, ticks: seq<Tick>): (r: (CycleState, seq<Phase>))
    ensures |r.1| == |ticks|
    ensures ticks != [] ==> r.1[|ticks| - 1] == r.0.phase
    ensures ticks == [] ==> r.0 == s
    decreases |ticks|
  {
    if ticks == [] then (s, [])
    else
      var before := Run(s, d, ticks[..|ticks| - 1]);
      var after := Advance(before.0, d, ticks[|ticks| - 1]);
      (after, before.1 + [after.phase])
  }

  /** While no reading reaches the duration, nothing flips: the state is kept
      and every message sent is the starting phase. */
  lemma {:induction false} QuietRun(s: CycleState, d: CycleDuration, ticks: seq<Tick>)
    requires forall i :: 0 <= i < |ticks| ==> ticks[i].now - s.t1 < d
    ensures Run(s, d, ticks).0 == s
    ensures forall k :: 0 <= k < |ticks| ==> Run(s, d, ticks).1[k] == s.phase
    decreases |ticks|
  {
    if ticks != [] {
      var n := |ticks| - 1;
      QuietRun(s, d, ticks[..n]);
    }
  }

  /** The last message of any non-empty run is the light's current phase, so a
      run that leaves the light green releases a waiter after it takes one
      message, whatever was queued before. */
  lemma GreenRunReleasesWaiter(q: seq<Phase>, s: CycleState, d: CycleDuration, ticks: seq<Tick>)
    requires ticks != [] && Run(s, d, ticks).0.phase == Green
    ensures Green in q + Run(s, d, ticks).1
    ensures DrainToGreen(q + Run(s, d, ticks).1) == q + Run(s, d, ticks).1[..|ticks| - 1]
  {
  }

  // ---------------------------------------------------------------------
  // The objects

  /** A traffic light: its current phase and its message buffer. */
  class TrafficLight {
    var currentPhase: Phase
    const messages: MessageQueue

    /** A new light is red and has an empty buffer. */
    constructor ()
      ensures currentPhase == Red
      ensures fresh(messages) && messages.queue == []
    {
      currentPhase := Red;
      messages := new MessageQueue();
    }

    /** Reads the current phase; changes nothing. */
    method GetCurrentPhase() returns (p: Phase)
      ensures p == currentPhase
    {
      p := currentPhase;
    }

    /** Stores a new phase. */
    method SetCurrentPhase(p: Phase)
      modifies this
      ensures currentPhase == p
    {
      currentPhase := p;
    }

    /** Receives until a green arrives. The source blocks on an empty buffer,
        so this returns only if a green is pending: that is the precondition.
        `consumed` lists the values taken, in the order they were received. */
    method WaitForGreen() returns (ghost consumed: seq<Phase>)
      requires Green in messages.queue
      modifies messages
      ensures messages.queue == DrainToGreen(old(messages.queue))
      ensures |consumed| == |old(messages.queue)| - |messages.queue|
      ensures forall k :: 0 <= k < |consumed| ==> consumed[k] == old(messages.queue)[|old(messages.queue)| - 1 - k]
      ensures consumed[|consumed| - 1] == Green
      ensures forall k :: 0 <= k < |consumed| - 1 ==> consumed[k] == Red
      ensures currentPhase == old(currentPhase)
    {
      consumed := [];
      ghost var q0 := messages.queue;
      while true
        invariant Green in messages.queue
        invariant DrainToGreen(messages.queue) == DrainToGreen(q0)
        invariant |consumed| <= |q0|
        invariant messages.queue == q0[..|q0| - |consumed|]
        invariant forall k :: 0 <= k < |consumed| ==> consumed[k] == q0[|q0| - 1 - k] && consumed[k] == Red
        decreases |messages.queue|
      {
        var state := messages.Receive();
        consumed := consumed + [state];
        if state == Green {
          return;
        }
        assert Green in messages.queue by {
          var i :| 0 <= i < |q0| - |consumed| + 1 && q0[i] == Green;
          assert messages.queue[i] == Green;
        }
      }
    }
  }

  /** One activation of the toggling loop: the light it drives, the time
      origin of the current cycle, and the cycle duration, drawn once when
      the loop starts and fixed for its whole life. */
  class PhaseCycle {
    const light: TrafficLight
    var t1: int
    const durationOfCycle: CycleDuration

    /** Starts the loop: the origin is the first clock reading `start`, and
        `drawn` stands for the random draw from [4000, 6000]. */
    constructor (light: TrafficLight, start: int, drawn: CycleDuration)
      ensures this.light == light && t1 == start && durationOfCycle == drawn
    {
      this.light := light;
      t1 := start;
      durationOfCycle := drawn;
    }

    /** The loop state as a value. */
    ghost function State(): CycleState
      reads this, light
    {
      CycleState(light.currentPhase, t1)
    }

    /** One iteration: flip the phase and reset the origin when the elapsed
        time has reached the duration, then always send the current phase. */
    method Step(now: int, resetAt: int)
      modifies this, light, light.messages
      ensures old(now - t1) >= durationOfCycle ==> light.currentPhase == Toggle(old(light.currentPhase)) && t1 == resetAt
      ensures old(now - t1) < durationOfCycle ==> light.currentPhase == old(light.currentPhase) && t1 == old(t1)
      ensures light.messages.queue == Sent(old(light.messages.queue), light.currentPhase)
      ensures State() == Advance(old(State()), durationOfCycle, Tick(now, resetAt))
    {
      var timeDiff := now - t1;
      if timeDiff >= durationOfCycle {
        var p := light.GetCurrentPhase();
        if p == Red {
          light.SetCurrentPhase(Green);
        } else {
          light.SetCurrentPhase(Red);
        }
        t1 := resetAt;
      }
      var p := light.GetCurrentPhase();
      light.messages.Send(p);
    }

    /** The loop run for the finitely many iterations whose clock readings are
        `ticks`: the state follows `Run` and the buffer grows by its messages. */
    method Cycle(ticks: seq<Tick>)
      modifies this, light, light.messages
      ensures State() == Run(old(State()), durationOfCycle, ticks).0
      ensures light.messages.queue == old(light.messages.queue) + Run(old(State()), durationOfCycle, ticks).1
    {
      ghost var s0 := State();
      ghost var q0 := light.messages.queue;
      var i := 0;
      while i < |ticks|
        invariant 0 <= i <= |ticks|
        invariant State() == Run(s0, durationOfCycle, ticks[..i]).0
        invariant light.messages.queue == q0 + Run(s0, durationOfCycle, ticks[..i]).1
      {
        Step(ticks[i].now, ticks[i].resetAt);
        assert ticks[..i + 1][..i] == ticks[..i];
        i := i + 1;
      }
      assert ticks[..i] == ticks;
    }
  }

  /** A waiter that starts after an iteration that left the light green takes
      exactly that iteration's message and returns. */
  method StepThenWait(c: PhaseCycle, now: int, resetAt: int)
    requires c.light.currentPhase == Red && now - c.t1 >= c.durationOfCycle
    modifies c, c.light, c.light.messages
    ensures c.light.currentPhase == Green
    ensures c.light.messages.queue == old(c.light.messages.queue)
  {
    c.Step(now, resetAt);
    DrainToGreenOfSplit(old(c.light.messages.queue), []);
    assert c.light.messages.queue == old(c.light.messages.queue) + [Green] + [];
    ghost var consumed := c.light.WaitForGreen();
  }
}
