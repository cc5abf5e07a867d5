/**
 The blocking supervisor as a state machine over its atomic steps, interleaved in any order with wakes,
 cancellation, timeouts and spurious wake-ups. The generation counter is unbounded.
 */
module Supervisor {
  datatype Outcome = Ready | Cancelled | DeadlineElapsed

  /** Where the supervising thread is; `observed` is the generation it read at the top of the loop. */
  datatype Point =
    | Top
    | Timing(observed: nat)
    | Polling(observed: nat)
    | Polled(observed: nat)
    | Sleeping(observed: nat)
    | Woken
    | Done(outcome: Outcome)

  datatype State = State(generation: nat, cancelled: bool, point: Point)

  datatype Step =
    | Observe
    | Time(late: bool)
    | Poll(ready: bool)
    | Decide(late: bool)
    | Resume
    | TimeOut
    | Wake
    | Cancel

  predicate Enabled(s: State, step: Step) {
    match step
    case Observe => s.point.Top?
    case Time(_) => s.point.Timing?
    case Poll(_) => s.point.Polling?
    case Decide(_) => s.point.Polled?
    case Resume => s.point.Woken?
    case TimeOut => s.point.Sleeping?
    case Wake | Cancel => true
  }

  /** `notify_all` wakes a sleeping supervisor. */
  function Notified(p: Point): Point {
    if p.Sleeping? then Woken else p
  }

  function Next(s: State, step: Step): State
    requires Enabled(s, step)
  {
    match step
    case Observe => s.(point := if s.cancelled then Done(Cancelled) else Timing(s.generation))
    case Time(late) => s.(point := if late then Done(DeadlineElapsed) else Polling(s.point.observed))
    case Poll(ready) => s.(point := if ready then Done(Ready) else Polled(s.point.observed))
    case Decide(late) =>
      s.(point := if s.cancelled then Done(Cancelled)
                  else if s.generation != s.point.observed then Top
                  else if late then Done(DeadlineElapsed)
                  else Sleeping(s.point.observed))
    case Resume => s.(point := if s.cancelled then Done(Cancelled) else Top)
    case TimeOut => s.(point := Woken)
    case Wake => s.(generation := s.generation + 1, point := Notified(s.point))
    case Cancel =>
      if s.cancelled then s else State(s.generation + 1, true, Notified(s.point))
  }

  predicate AllEnabled(s: State, steps: seq<Step>)
    decreases |steps|
  {
    steps == [] || (Enabled(s, steps[0]) && AllEnabled(Next(s, steps[0]), steps[1..]))
  }

  function Run(s: State, steps: seq<Step>): State
    requires AllEnabled(s, steps)
    decreases |steps|
  {
    if steps == [] then s else Run(Next(s, steps[0]), steps[1..])
  }

  const START: State := State(0, false, Top)

  predicate Observing(p: Point) {
    p.Timing? || p.Polling? || p.Polled? || p.Sleeping?
  }

  /** What was observed is never ahead of the counter, and nobody sleeps once it moved or cancellation came. */
  predicate Sound(s: State) {
    && (Observing(s.point) ==> s.point.observed <= s.generation)
    && (s.point.Sleeping? ==> s.point.observed == s.generation && !s.cancelled)
  }

  lemma {:induction false} RunKeepsSound(s: State, steps: seq<Step>)
    requires Sound(s) && AllEnabled(s, steps)
    ensures Sound(Run(s, steps))
    decreases |steps|
  {
    if steps != [] {
      RunKeepsSound(Next(s, steps[0]), steps[1..]);
    }
  }

  /** A wake or a first cancellation. */
  predicate Signals(s: State, step: Step) {
    step.Wake? || (step.Cancel? && !s.cancelled)
  }

  /** Some step of the run signals. */
  predicate SignalledIn(s: State, steps: seq<Step>)
    requires AllEnabled(s, steps)
    decreases |steps|
  {
    steps != [] && (Signals(s, steps[0]) || SignalledIn(Next(s, steps[0]), steps[1..]))
  }

  /** Some step of the run begins a poll. */
  predicate PollsIn(s: State, steps: seq<Step>)
    requires AllEnabled(s, steps)
    decreases |steps|
  {
    steps != [] && (steps[0].Poll? || PollsIn(Next(s, steps[0]), steps[1..]))
  }

  lemma {:induction false} GenerationCounts(s: State, steps: seq<Step>)
    requires AllEnabled(s, steps)
    ensures s.generation <= Run(s, steps).generation
    ensures SignalledIn(s, steps) ==> s.generation < Run(s, steps).generation
    decreases |steps|
  {
    if steps != [] {
      GenerationCounts(Next(s, steps[0]), steps[1..]);
    }
  }

  /** Until the next poll, whoever falls asleep does so under the observation the last poll was made with. */
  lemma {:induction false} ObservationHolds(s: State, steps: seq<Step>, observed: nat)
    requires AllEnabled(s, steps) && Sound(s) && !PollsIn(s, steps)
    requires s.point.Polled? || s.point.Sleeping? ==> s.point.observed == observed
    ensures Run(s, steps).point.Sleeping? ==> Run(s, steps).point.observed == observed
    decreases |steps|
  {
    if steps != [] {
      ObservationHolds(Next(s, steps[0]), steps[1..], observed);
    }
  }

  /**
   No lost wake-up: in every interleaving, if a wake or cancellation comes at any moment after a poll began
   and the future was not polled again since, the supervisor is not asleep.
   */
  lemma NoLostWakeup(before: seq<Step>, ready: bool, after: seq<Step>)
    requires AllEnabled(START, before) && Run(START, before).point.Polling?
    requires AllEnabled(Next(Run(START, before), Poll(ready)), after)
    requires !PollsIn(Next(Run(START, before), Poll(ready)), after)
    requires SignalledIn(Next(Run(START, before), Poll(ready)), after)
    ensures !Run(Next(Run(START, before), Poll(ready)), after).point.Sleeping?
  {
    RunKeepsSound(START, before);
    var polling := Run(START, before);
    var polled := Next(polling, Poll(ready));
    RunKeepsSound(polled, after);
    GenerationCounts(polled, after);
    ObservationHolds(polled, after, polling.point.observed);
  }

  function Polls(steps: seq<Step>): nat {
    if steps == [] then 0 else (if steps[0].Poll? then 1 else 0) + Polls(steps[1..])
  }

  /** After cancellation the future is polled at most once more, and the supervisor never sleeps again. */
  lemma {:induction false} CancellationEndsPolling(s: State, steps: seq<Step>)
    requires Sound(s) && s.cancelled && AllEnabled(s, steps)
    ensures Polls(steps) <= (if s.point.Timing? || s.point.Polling? then 1 else 0)
    ensures !Run(s, steps).point.Sleeping? && Run(s, steps).cancelled
    decreases |steps|
  {
    if steps != [] {
      CancellationEndsPolling(Next(s, steps[0]), steps[1..]);
    }
  }
}
