/**
 The unlock work limiter as a state machine over the atomic steps of its callers: a load, a
 compare-and-swap that may fail spuriously, and the release of a permit.
 */
module Limiter {
  /** `loads` holds, for each caller inside `try_reserve`, the counter value it last saw. */
  datatype State = State(maximum: nat, inFlight: int, loads: map<nat, int>, permits: set<nat>)

  datatype Step =
    | Load(caller: nat)
    | Refuse(caller: nat)
    | Swap(caller: nat, spurious: bool, permit: nat)
    | Release(permit: nat)

  /** What a caller at that point may do next. Permits are objects: a new one is not among the live ones. */
  predicate Enabled(s: State, step: Step) {
    match step
    case Load(caller) => caller !in s.loads
    case Refuse(caller) => caller in s.loads && s.loads[caller] >= s.maximum
    case Swap(caller, _, permit) => caller in s.loads && s.loads[caller] < s.maximum && permit !in s.permits
    case Release(permit) => permit in s.permits
  }

  function Next(s: State, step: Step): State
    requires Enabled(s, step)
  {
    match step
    case Load(caller) => s.(loads := s.loads[caller := s.inFlight])
    case Refuse(caller) => s.(loads := s.loads - {caller})
    case Swap(caller, spurious, permit) =>
      if !spurious && s.inFlight == s.loads[caller] then
        s.(inFlight := s.loads[caller] + 1, loads := s.loads - {caller}, permits := s.permits + {permit})
      else s.(loads := s.loads[caller := s.inFlight])
    case Release(permit) => s.(inFlight := s.inFlight - 1, permits := s.permits - {permit})
  }

  predicate AllEnabled(s: State, steps: seq<Step>)
    decreases |steps|
  {
    steps == [] || (Enabled(s, steps[0]) && AllEnabled(Next(s, steps[0]), steps[1..]))
  }

  function Run(s: State, steps: seq<Step>): State
    requires AllEnabled(s, steps)
    decreases |steps|
  {
    if steps == [] then s else Run(Next(s, steps[0]), steps[1..])
  }

  /** The counter is the number of live permits, within the maximum. */
  predicate Exact(s: State) {
    s.inFlight == |s.permits| && s.inFlight <= s.maximum
  }

  /** In every interleaving the counter equals the live permits, never exceeds the maximum and never underflows. */
  lemma {:induction false} CounterIsExact(s: State, steps: seq<Step>)
    requires Exact(s) && AllEnabled(s, steps)
    ensures Exact(Run(s, steps)) && 0 <= Run(s, steps).inFlight <= s.maximum
    decreases |steps|
  {
    if steps != [] {
      var next := Next(s, steps[0]);
      assert next.maximum == s.maximum;
      CounterIsExact(next, steps[1..]);
    }
  }

  /** After `i` steps of the run every permit was in use. */
  predicate FullAt(s: State, steps: seq<Step>, i: nat)
    requires AllEnabled(s, steps) && i <= |steps|
  {
    AllEnabled(s, steps[..i]) && |Run(s, steps[..i]).permits| == s.maximum
  }

  lemma {:induction false} PrefixEnabled(s: State, steps: seq<Step>, i: nat)
    requires AllEnabled(s, steps) && i <= |steps|
    ensures AllEnabled(s, steps[..i])
    decreases |steps|
  {
    if i > 0 {
      PrefixEnabled(Next(s, steps[0]), steps[1..], i - 1);
      assert steps[..i][1..] == steps[1..][..i - 1];
    }
  }

  /** Whoever comes to be refused saw every permit in use at some step of the run. */
  lemma {:induction false} RefusalSawFull(s: State, steps: seq<Step>, caller: nat) returns (i: nat)
    requires Exact(s) && AllEnabled(s, steps) && (caller in s.loads ==> s.loads[caller] < s.maximum)
    requires caller in Run(s, steps).loads && Run(s, steps).loads[caller] >= s.maximum
    ensures i <= |steps| && FullAt(s, steps, i)
    decreases |steps|
  {
    var next := Next(s, steps[0]);
    assert next.maximum == s.maximum;
    assert Exact(next);
    if caller in next.loads && next.loads[caller] >= s.maximum {
      assert steps[..0] == [];
      i := 0;
    } else {
      i := RefusalSawFull(next, steps[1..], caller);
      PrefixEnabled(s, steps, i + 1);
      assert steps[..i + 1][1..] == steps[1..][..i];
      i := i + 1;
    }
  }
}
