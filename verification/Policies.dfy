/** The retry policies that validation lets through, and what they can do. */
module Policies {
  import opened Rows
  import opened Dags
  import opened Cycles
  import opened Dsl
  import opened Backoff

  predicate HasPolicy(s: NewStep) {
    Policy(s.initialBackoffMS as real, s.backoffMultiplier, s.maxBackoffMS as real)
  }

  /** Every step of a validated definition has a positive first delay, multiplier and cap. */
  lemma ValidatedPolicy(steps: seq<StepSpec>, n: Name)
    requires n in DagOf(Defaulted(steps))
    ensures HasPolicy(DagOf(Defaulted(steps))[n])
  {
    DagRows(Defaulted(steps), n);
  }

  /** A definition of one step with the given policy. */
  function Single(initial: int, multiplier: real, cap: int): seq<StepSpec> {
    [StepSpec("a", "task", [], "", "", 3, initial, multiplier, cap, 30)]
  }

  lemma SingleIsWellFormed(initial: int, multiplier: real, cap: int)
    ensures WellFormed("w", Single(initial, multiplier, cap))
  {
    var steps := Single(initial, multiplier, cap);
    assert steps[..0] == [];
    assert GraphOf(steps) == map["a" := []];
    var rank: map<Name, nat> := map["a" := 0];
    assert Ranked(GraphOf(steps), rank);
    RankedIsAcyclic(GraphOf(steps), rank);
    assert !IsSpace("w"[0]) && !IsSpace("a"[0]) && !IsSpace("task"[0]);
  }

  function SingleRow(initial: int, multiplier: real, cap: int): NewStep {
    ToNewStep(WithDefaults(Single(initial, multiplier, cap)[0]))
  }

  lemma SingleDag(initial: int, multiplier: real, cap: int)
    ensures DagOf(Defaulted(Single(initial, multiplier, cap))) == map["a" := SingleRow(initial, multiplier, cap)]
  {
    var steps := Defaulted(Single(initial, multiplier, cap));
    assert steps[..0] == [];
  }

  /** Validation accepts a multiplier below 1, and with it delays fall. */
  lemma AcceptedDelaysMayFall() returns (s: NewStep, k: nat)
    ensures WellFormed("w", Single(1000, 0.5, 60_000)) && DagOf(Defaulted(Single(1000, 0.5, 60_000))) == map["a" := s]
    ensures k >= 1
    ensures Base(s.initialBackoffMS as real, s.backoffMultiplier, s.maxBackoffMS as real, k + 1)
            < Base(s.initialBackoffMS as real, s.backoffMultiplier, s.maxBackoffMS as real, k)
  {
    hide Base, WellFormed, DagOf, Defaulted;
    SingleIsWellFormed(1000, 0.5, 60_000);
    SingleDag(1000, 0.5, 60_000);
    s := SingleRow(1000, 0.5, 60_000);
    k := ShrinkingFalls(s.initialBackoffMS as real, s.backoffMultiplier, s.maxBackoffMS as real);
  }

  /** Validation accepts a first delay equal to the cap, and with it a delay may pass the cap. */
  lemma AcceptedDelayMayPassCap() returns (s: NewStep, u: real)
    ensures WellFormed("w", Single(1000, 2.0, 1000)) && DagOf(Defaulted(Single(1000, 2.0, 1000))) == map["a" := s]
    ensures 0.0 <= u < 1.0 && ComputeBackoff(s, 1, u) > s.maxBackoffMS
  {
    hide WellFormed, DagOf, Defaulted, Pow, Uncapped;
    SingleIsWellFormed(1000, 2.0, 1000);
    SingleDag(1000, 2.0, 1000);
    s := SingleRow(1000, 2.0, 1000);
    DelayMayPassCapIff(s, 1);
    UncappedFirst(1000.0, 2.0);
    hide ComputeBackoff;
    u :| 0.0 <= u < 1.0 && ComputeBackoff(s, 1, u) > s.maxBackoffMS;
  }
}
