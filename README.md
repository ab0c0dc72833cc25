# Traffic light phase channel and toggler, modelled in Dafny

This project models the sequential core of `src/TrafficLight.cpp` from a
concurrent traffic simulation. The file has two parts.

- `MessageQueue` is the buffer through which a traffic light publishes its
  phase. `send` appends at the back. `receive` waits until the buffer is
  non-empty and then removes the **back** element, so the most recently sent
  phase comes out first (LIFO, not FIFO).
- `TrafficLight` holds the current phase, which starts red. `waitForGreen`
  receives until it gets a green. `cycleThroughPhases` is an endless loop. It
  draws a cycle duration once from [4000, 6000] ms. On every iteration it flips
  the phase when the elapsed time has reached that duration, resets the time
  origin, and then sends the current phase.

Files:

- `phase.dfy` (module `Phases`): the two-valued `Phase` and `Toggle`.
- `message_queue.dfy` (module `Messages`): the buffer as a class over a
  `seq<Phase>`. Its methods are specified by the value functions `Sent`,
  `Received` and `SentAll`, and the lemmas prove the round trip and the LIFO
  order on those functions.
- `traffic_light.dfy` (module `Lights`): the `TrafficLight` class and the
  `PhaseCycle` class. `PhaseCycle` stands for one running activation of
  `cycleThroughPhases`: its loop-local `t1` becomes a field and its
  `duration_of_cycle` a `const`. `DrainToGreen` specifies `waitForGreen`.
  `Advance` specifies one loop iteration and `Run` a finite number of them.

Blocking is replaced by preconditions. `receive` requires a non-empty buffer.
`waitForGreen` requires a green somewhere in the buffer, because otherwise the
real code blocks for ever. Clock readings are integer parameters in
milliseconds. The random draw is a constructor argument of subset type
`CycleDuration`, the integers 4000 to 6000.

The code draws the cycle duration once, before the loop (line 80), and never
redraws it, not even after a transition. The model keeps this:
`durationOfCycle` is a `const` field, so no method can change it.

## Model

| member | source | states |
|---|---|---|
| `Phases.Toggle` | src/TrafficLight.cpp:89-97 | a transition always moves to the other phase (red to green, green to red) |
| `Messages.Sent` | src/TrafficLight.cpp:30 | sending grows the buffer by exactly one, puts the value at the back and leaves every earlier element unchanged |
| `Messages.Received` | src/TrafficLight.cpp:19-20 | a receive on a non-empty buffer returns the back element and leaves the buffer one shorter; sending that value back onto the remainder rebuilds the original buffer |
| `Messages.SentAll` | src/TrafficLight.cpp:30 | sending `v1 … vn` one after another leaves the old buffer followed by `v1 … vn` |
| `Messages.SendReceiveRoundTrip` | src/TrafficLight.cpp:19-30 | a send followed by a receive returns the sent value and restores the buffer |
| `Messages.LastSentIsReceivedFirst` | src/TrafficLight.cpp:19-30 | after sends `v1 … vn` onto any buffer, the next receive returns `vn` and leaves the buffer as it was before `vn` was sent (LIFO) |
| `Messages.MessageQueue.Send` | src/TrafficLight.cpp:24-32 | the buffer field becomes the old buffer with the message appended at the back |
| `Messages.MessageQueue.Receive` | src/TrafficLight.cpp:11-22 | requires a non-empty buffer (the condition-variable wait); returns the old back element and removes it |
| `Messages.SendThenReceive` | src/TrafficLight.cpp:19-31 | on a real queue object, a send followed by a receive yields the sent value and leaves the buffer as it was |
| `Lights.DrainToGreen` | src/TrafficLight.cpp:48-55 | a waiter stops at the last green of the buffer: the remaining buffer is the prefix before that green, and everything after it (what the waiter took first) is red |
| `Lights.DrainToGreenOfSplit` | src/TrafficLight.cpp:48-55 | a buffer `a + [green] + r` with only reds in `r` is drained to exactly `a` |
| `Lights.TrafficLight.WaitForGreen` | src/TrafficLight.cpp:43-56 | given a pending green, the loop terminates, leaves the buffer as `DrainToGreen` says, and the values it consumed are the buffer's tail in back-to-front order: all red except the final green |
| `Lights.TrafficLight.constructor` | src/TrafficLight.cpp:38-41 | a new light is red and its buffer is empty |
| `Lights.TrafficLight.GetCurrentPhase` | src/TrafficLight.cpp:58-61 | returns the current phase and changes no state |
| `Lights.PhaseCycle.constructor` | src/TrafficLight.cpp:77-80 | the loop starts with the origin at the first clock reading and a duration drawn once from [4000, 6000] |
| `Lights.Advance` | src/TrafficLight.cpp:84-99 | in one iteration the phase changes if and only if the elapsed time has reached the duration, and the origin is reset exactly then, to the second clock reading |
| `Lights.PhaseCycle.Step` | src/TrafficLight.cpp:84-100 | when the elapsed time reaches the duration, red becomes green, green becomes red and `t1` becomes the reset reading; otherwise phase and `t1` stay; in both cases exactly one message, the current phase, is appended; the duration is a constant for the whole loop |
| `Lights.Run` | src/TrafficLight.cpp:82-101 | `n` iterations send exactly `n` messages, and the last one sent is the light's final phase |
| `Lights.PhaseCycle.Cycle` | src/TrafficLight.cpp:82-102 | running the loop over finitely many clock readings moves the state as `Run` says and appends exactly the messages `Run` lists |
| `Lights.QuietRun` | src/TrafficLight.cpp:87-99 | while no reading reaches the duration, the phase and origin never change and every message sent is the starting phase |
| `Lights.GreenRunReleasesWaiter` | src/TrafficLight.cpp:48-100 | after any run that leaves the light green, whatever was queued before, a waiter takes only the last message and returns |
| `Lights.StepThenWait` | src/TrafficLight.cpp:48-100 | an iteration that flips red to green, followed by a wait for green, leaves the light green and the buffer as it was before the iteration |

## Left out

- Threads, `simulate` and the base class's `threads` container (line 67): concurrency plumbing with no sequential meaning.
- The mutex, the lock guards and `notify_one` (lines 16-17, 29-31). The condition-variable wait becomes the `Receive` precondition. Blocking and wake-up are not modelled.
- `Lights.TrafficLight.WaitForGreen`: requires a green in the buffer. Without one, the real code drains the buffer and then blocks until the producer sends more, which a sequential model cannot express.
- The unsynchronised race between the toggler's writes of the phase and `getCurrentPhase`: the phase is an ordinary field.
- `setCurrentPhase`, the `TrafficLightPhase` enumeration and the container type of `_queue` are declared in `TrafficLight.h` and its base class, which are not part of this model. `SetCurrentPhase` is modelled as a plain store, `Phase` has exactly two values and the buffer is a sequence.
- `high_resolution_clock`: each iteration's two clock readings (line 84 and line 98) are the integer parameters `now` and `resetAt`, already in milliseconds. The truncation of `duration_cast` from the clock's own ticks to whole milliseconds is not modelled.
- `std::random_device` and `uniform_int_distribution`: the drawn duration is a constructor argument in [4000, 6000].
- `sleep_for` (line 101) and console output (lines 91, 96): timing and logging only.
- The endless outer loop: `Cycle` runs it over a finite sequence of clock readings.
- Move semantics (`std::move`, lines 19, 30, 100): have no effect on an enumeration value.
- Integer widths: the elapsed-time count and the `double` duration only ever hold small integers, so unbounded integers are used.
