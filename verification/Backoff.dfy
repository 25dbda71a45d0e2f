/** Retry delays, over the reals: exponential growth, a cap, and 20% of jitter. */
module Backoff {
  import opened Rows

  function Pow(x: real, k: nat): real {
    if k == 0 then 1.0 else x * Pow(x, k - 1)
  }

  /** The uncapped delay after k + 1 attempts. */
  function Uncapped(initial: real, multiplier: real, k: nat): real {
    initial * Pow(multiplier, k)
  }

  function Grow(x: real, multiplier: real): real {
    x * multiplier
  }

  function Min(x: real, y: real): real {
    if x > y then y else x
  }

  /** What the policy of a validated step satisfies. */
  predicate Policy(initial: real, multiplier: real, cap: real) {
    initial > 0.0 && multiplier > 0.0 && cap > 0.0
  }

  /** The delay before jitter, after the given number of attempts. */
  function Base(initial: real, multiplier: real, cap: real, attempts: nat): real
    requires attempts >= 1
  {
    Min(Uncapped(initial, multiplier, attempts - 1), cap)
  }

  function Spread(base: real, u: real): real {
    base * (0.8 + 0.4 * u)
  }

  function Jittered(base: real, u: real): int {
    Spread(base, u).Floor
  }

  /** The delay in whole milliseconds; `u` is the random number drawn from [0, 1). */
  function ComputeBackoff(s: NewStep, attempts: nat, u: real): int
    requires attempts >= 1
  {
    var base := Base(s.initialBackoffMS as real, s.backoffMultiplier, s.maxBackoffMS as real, attempts);
    Jittered(base, u)
  }

  // -------------------------------------------------------------------- powers

  lemma {:induction false} PowPositive(x: real, k: nat)
    requires x > 0.0
    ensures Pow(x, k) > 0.0
    decreases k
  {
    if k > 0 {
      PowPositive(x, k - 1);
    }
  }

  lemma Scale(a: real, x: real, y: real)
    requires a >= 0.0 && x <= y
    ensures a * x <= a * y
  {
  }

  lemma ScaleStrictly(a: real, x: real, y: real)
    requires a > 0.0 && x < y
    ensures a * x < a * y
  {
  }

  lemma UncappedFirst(initial: real, multiplier: real)
    ensures Uncapped(initial, multiplier, 0) == initial
  {
  }

  lemma UncappedNext(initial: real, multiplier: real, k: nat)
    ensures Uncapped(initial, multiplier, k + 1) == Grow(Uncapped(initial, multiplier, k), multiplier)
  {
    var p := Pow(multiplier, k);
    assert initial * (multiplier * p) == (initial * p) * multiplier;
  }

  lemma UncappedPositive(initial: real, multiplier: real, k: nat)
    requires initial > 0.0 && multiplier > 0.0
    ensures Uncapped(initial, multiplier, k) > 0.0
  {
    PowPositive(multiplier, k);
    PositiveProduct(initial, Pow(multiplier, k));
  }

  // ------------------------------------------------------------ iterated capping

  /** The simple form: multiply and cap, attempt by attempt. */
  function Iterated(initial: real, multiplier: real, cap: real, attempts: nat): real
    requires attempts >= 1
  {
    if attempts == 1 then Min(initial, cap) else Min(Grow(Iterated(initial, multiplier, cap, attempts - 1), multiplier), cap)
  }

  /** Capping before or after a multiplication by at least 1 makes no difference. */
  lemma CapTwice(x: real, multiplier: real, cap: real)
    requires multiplier >= 1.0 && cap > 0.0
    ensures Min(Grow(Min(x, cap), multiplier), cap) == Min(Grow(x, multiplier), cap)
  {
    if x > cap {
      Scale(cap, 1.0, multiplier);
      Scale(multiplier, cap, x);
    }
  }

  lemma {:induction false} GrowingMatches(initial: real, multiplier: real, cap: real, attempts: nat)
    requires Policy(initial, multiplier, cap) && multiplier >= 1.0 && attempts >= 1
    ensures Base(initial, multiplier, cap, attempts) == Iterated(initial, multiplier, cap, attempts)
    decreases attempts
  {
    hide Pow, Uncapped, Grow, Min;
    if attempts == 1 {
      UncappedFirst(initial, multiplier);
    } else {
      var k := attempts - 2;
      GrowingMatches(initial, multiplier, cap, attempts - 1);
      UncappedNext(initial, multiplier, k);
      CapTwice(Uncapped(initial, multiplier, k), multiplier, cap);
      assert Base(initial, multiplier, cap, attempts) == Min(Uncapped(initial, multiplier, k + 1), cap);
      assert Base(initial, multiplier, cap, attempts - 1) == Min(Uncapped(initial, multiplier, k), cap);
    }
  }

  lemma {:induction false} ShrinkingStaysUnder(initial: real, multiplier: real, cap: real, k: nat)
    requires Policy(initial, multiplier, cap) && multiplier < 1.0 && initial <= cap
    ensures Uncapped(initial, multiplier, k) <= cap
    decreases k
  {
    hide Pow, Uncapped;
    if k == 0 {
      UncappedFirst(initial, multiplier);
    } else {
      var before := Uncapped(initial, multiplier, k - 1);
      ShrinkingStaysUnder(initial, multiplier, cap, k - 1);
      UncappedPositive(initial, multiplier, k - 1);
      Scale(before, multiplier, 1.0);
      assert before * multiplier <= cap;
      UncappedNext(initial, multiplier, k - 1);
    }
  }

  lemma {:induction false} ShrinkingMatches(initial: real, multiplier: real, cap: real, attempts: nat)
    requires Policy(initial, multiplier, cap) && multiplier < 1.0 && initial <= cap && attempts >= 1
    ensures Base(initial, multiplier, cap, attempts) == Iterated(initial, multiplier, cap, attempts)
    decreases attempts
  {
    hide Pow, Uncapped, Grow;
    ShrinkingStaysUnder(initial, multiplier, cap, attempts - 1);
    if attempts == 1 {
      UncappedFirst(initial, multiplier);
    } else {
      ShrinkingMatches(initial, multiplier, cap, attempts - 1);
      ShrinkingStaysUnder(initial, multiplier, cap, attempts - 2);
      UncappedNext(initial, multiplier, attempts - 2);
    }
  }

  lemma ShrinkingFromAboveDiffers(initial: real, multiplier: real, cap: real)
    requires Policy(initial, multiplier, cap) && multiplier < 1.0 && initial > cap
    ensures Base(initial, multiplier, cap, 2) != Iterated(initial, multiplier, cap, 2)
  {
    hide Pow, Uncapped;
    UncappedFirst(initial, multiplier);
    UncappedNext(initial, multiplier, 0);
    ScaleStrictly(multiplier, cap, initial);
    ScaleStrictly(cap, multiplier, 1.0);
    assert Iterated(initial, multiplier, cap, 1) == cap;
  }

  /** The closed form equals capping attempt by attempt, at every attempt, exactly when
      the multiplier does not shrink delays or the first delay is within the cap. */
  lemma ClosedFormMatchesIff(initial: real, multiplier: real, cap: real)
    requires Policy(initial, multiplier, cap)
    ensures (forall k: nat :: k >= 1 ==> Base(initial, multiplier, cap, k) == Iterated(initial, multiplier, cap, k))
            <==> multiplier >= 1.0 || initial <= cap
  {
    if multiplier >= 1.0 || initial <= cap {
      forall k: nat | k >= 1 ensures Base(initial, multiplier, cap, k) == Iterated(initial, multiplier, cap, k) {
        if multiplier >= 1.0 {
          GrowingMatches(initial, multiplier, cap, k);
        } else {
          ShrinkingMatches(initial, multiplier, cap, k);
        }
      }
    } else {
      ShrinkingFromAboveDiffers(initial, multiplier, cap);
    }
  }

  // ------------------------------------------------------------------ monotonicity

  lemma GrowingIsMonotone(initial: real, multiplier: real, cap: real, attempts: nat)
    requires Policy(initial, multiplier, cap) && multiplier >= 1.0 && attempts >= 1
    ensures Base(initial, multiplier, cap, attempts) <= Base(initial, multiplier, cap, attempts + 1)
  {
    hide Pow, Uncapped;
    UncappedNext(initial, multiplier, attempts - 1);
    UncappedPositive(initial, multiplier, attempts - 1);
    Scale(Uncapped(initial, multiplier, attempts - 1), 1.0, multiplier);
  }

  /** (1 + x)^k grows at least linearly. */
  lemma {:induction false} Bernoulli(x: real, k: nat)
    requires x > 0.0
    ensures Pow(1.0 + x, k) >= 1.0 + k as real * x
    decreases k
  {
    if k > 0 {
      var j := (k - 1) as real;
      Bernoulli(x, k - 1);
      Scale(1.0 + x, 1.0 + j * x, Pow(1.0 + x, k - 1));
      assert (1.0 + x) * (1.0 + j * x) == 1.0 + (j + 1.0) * x + j * (x * x);
      Scale(j, 0.0, x * x);
      assert j + 1.0 == k as real;
    }
  }

  lemma {:induction false} InversePowers(x: real, y: real, k: nat)
    requires x * y == 1.0
    ensures Pow(x, k) * Pow(y, k) == 1.0
    decreases k
  {
    if k > 0 {
      InversePowers(x, y, k - 1);
      var p, q := Pow(x, k - 1), Pow(y, k - 1);
      assert (x * p) * (y * q) == (x * y) * (p * q);
    }
  }

  /** A multiplier below 1 brings every first delay under every bound. */
  lemma ShrinksBelow(initial: real, multiplier: real, bound: real) returns (k: nat)
    requires initial > 0.0 && 0.0 < multiplier < 1.0 && bound > 0.0
    ensures Uncapped(initial, multiplier, k) < bound
  {
    var inverse := 1.0 / multiplier;
    assert multiplier * inverse == 1.0;
    ScaleStrictly(inverse, multiplier, 1.0);
    var x := inverse - 1.0;
    assert x > 0.0;
    var need := initial / (bound * x);
    PositiveProduct(bound, x);
    PositiveQuotient(initial, bound * x);
    k := need.Floor + 1;
    Bernoulli(x, k);
    assert 1.0 + x == inverse;
    InversePowers(multiplier, inverse, k);
    PowPositive(multiplier, k);
    Shrunk(initial, bound, x, k, Pow(multiplier, k), Pow(inverse, k));
  }

  lemma PositiveProduct(a: real, b: real)
    requires a > 0.0 && b > 0.0
    ensures a * b > 0.0
  {
  }

  lemma PositiveQuotient(a: real, b: real)
    requires a > 0.0 && b > 0.0
    ensures a / b > 0.0
  {
    assert (a / b) * b == a;
  }

  lemma Shrunk(initial: real, bound: real, x: real, k: nat, p: real, q: real)
    requires initial > 0.0 && bound > 0.0 && x > 0.0 && p > 0.0 && p * q == 1.0
    requires q >= 1.0 + k as real * x && bound * x > 0.0 && k as real > initial / (bound * x)
    ensures initial * p < bound
  {
    var c := bound * x;
    ScaleStrictly(c, initial / c, k as real);
    assert c * (initial / c) == initial;
    assert initial < bound * (k as real * x);
    ScaleStrictly(bound, k as real * x, q);
    assert initial < bound * q;
    ScaleStrictly(p, initial, bound * q);
    assert p * (bound * q) == bound * (p * q);
  }

  /** Somewhere on its way from an attempt at or above `bound` to one below it, the delay falls. */
  lemma {:induction false} FallsSomewhere(initial: real, multiplier: real, cap: real, k: nat) returns (j: nat)
    requires k >= 1 && Base(initial, multiplier, cap, k) < Base(initial, multiplier, cap, 1)
    ensures j >= 1 && Base(initial, multiplier, cap, j + 1) < Base(initial, multiplier, cap, j)
    decreases k
  {
    if Base(initial, multiplier, cap, k) < Base(initial, multiplier, cap, k - 1) {
      j := k - 1;
    } else {
      j := FallsSomewhere(initial, multiplier, cap, k - 1);
    }
  }

  /** Delays never fall from one attempt to the next exactly when the multiplier is at least 1. */
  lemma MonotoneIff(initial: real, multiplier: real, cap: real)
    requires Policy(initial, multiplier, cap)
    ensures (forall k: nat :: k >= 1 ==> Base(initial, multiplier, cap, k) <= Base(initial, multiplier, cap, k + 1))
            <==> multiplier >= 1.0
  {
    if multiplier >= 1.0 {
      forall k: nat | k >= 1 ensures Base(initial, multiplier, cap, k) <= Base(initial, multiplier, cap, k + 1) {
        GrowingIsMonotone(initial, multiplier, cap, k);
      }
    } else {
      var k := ShrinksBelow(initial, multiplier, Min(initial, cap));
      UncappedFirst(initial, multiplier);
      assert Base(initial, multiplier, cap, k + 1) < Base(initial, multiplier, cap, 1);
      var j := FallsSomewhere(initial, multiplier, cap, k + 1);
    }
  }

  /** A multiplier below 1 makes the delay fall somewhere. */
  lemma ShrinkingFalls(initial: real, multiplier: real, cap: real) returns (k: nat)
    requires Policy(initial, multiplier, cap) && multiplier < 1.0
    ensures k >= 1 && Base(initial, multiplier, cap, k + 1) < Base(initial, multiplier, cap, k)
  {
    hide Base;
    MonotoneIff(initial, multiplier, cap);
    k :| k >= 1 && !(Base(initial, multiplier, cap, k) <= Base(initial, multiplier, cap, k + 1));
  }

  // ------------------------------------------------------------------------ bounds

  lemma SpreadBounds(base: real, u: real)
    requires base > 0.0 && 0.0 <= u < 1.0
    ensures 0.8 * base <= Spread(base, u) < 1.2 * base
  {
    Scale(base, 0.8, 0.8 + 0.4 * u);
    ScaleStrictly(base, 0.8 + 0.4 * u, 1.2);
  }

  lemma JitterBounds(base: real, u: real)
    requires base > 0.0 && 0.0 <= u < 1.0
    ensures 0.8 * base - 1.0 < Jittered(base, u) as real < 1.2 * base
  {
    hide Spread;
    SpreadBounds(base, u);
  }

  /** The delay before jitter is positive and within the cap; after it, within 20% of
      that, up to the millisecond that is cut off. */
  lemma DelayBounds(s: NewStep, attempts: nat, u: real)
    requires attempts >= 1 && 0.0 <= u < 1.0
    requires Policy(s.initialBackoffMS as real, s.backoffMultiplier, s.maxBackoffMS as real)
    ensures
      var base := Base(s.initialBackoffMS as real, s.backoffMultiplier, s.maxBackoffMS as real, attempts);
      var delay := ComputeBackoff(s, attempts, u) as real;
      && 0.0 < base <= s.maxBackoffMS as real
      && 0.8 * base - 1.0 < delay < 1.2 * base
  {
    hide Pow, Uncapped, Jittered;
    var base := Base(s.initialBackoffMS as real, s.backoffMultiplier, s.maxBackoffMS as real, attempts);
    UncappedPositive(s.initialBackoffMS as real, s.backoffMultiplier, attempts - 1);
    JitterBounds(base, u);
  }

  /** The delay before jitter as a reader would work it out: attempt by attempt wherever
      that gives the same, and otherwise as the capped power. */
  function PlannedDelay(s: NewStep, attempts: nat): real
    requires attempts >= 1
  {
    var initial, multiplier, cap := s.initialBackoffMS as real, s.backoffMultiplier, s.maxBackoffMS as real;
    var power := initial * Pow(multiplier, attempts - 1);
    if multiplier >= 1.0 || initial <= cap then Iterated(initial, multiplier, cap, attempts)
    else if power > cap then cap else power
  }

  /** Within 20% of the planned delay, up to the millisecond that is cut off. */
  predicate NearPlanned(s: NewStep, attempts: nat, delay: int)
    requires attempts >= 1
  {
    0.8 * PlannedDelay(s, attempts) - 1.0 < delay as real < 1.2 * PlannedDelay(s, attempts)
  }

  lemma DelayIsNearPlanned(s: NewStep, attempts: nat, u: real)
    requires attempts >= 1 && 0.0 <= u < 1.0
    requires Policy(s.initialBackoffMS as real, s.backoffMultiplier, s.maxBackoffMS as real)
    ensures NearPlanned(s, attempts, ComputeBackoff(s, attempts, u))
  {
    hide Pow, Iterated, ComputeBackoff;
    var initial, multiplier, cap := s.initialBackoffMS as real, s.backoffMultiplier, s.maxBackoffMS as real;
    DelayBounds(s, attempts, u);
    ClosedFormMatchesIff(initial, multiplier, cap);
  }

  /** The draw that jitters `base` to exactly `target`. */
  lemma DrawFor(base: real, target: real) returns (u: real)
    requires base > 0.0 && 0.8 * base <= target < 1.2 * base
    ensures 0.0 <= u < 1.0 && Spread(base, u) == target
  {
    var ratio := target / base;
    assert ratio * base == target;
    if ratio < 0.8 {
      ScaleStrictly(base, ratio, 0.8);
    } else if ratio >= 1.2 {
      Scale(base, 1.2, ratio);
    }
    u := (ratio - 0.8) / 0.4;
    assert 0.8 + 0.4 * u == ratio;
  }

  /** The cap holds before jitter only: some draw takes the delay past it exactly when
      20% on top of the capped delay makes more than one whole millisecond. */
  lemma DelayMayPassCapIff(s: NewStep, attempts: nat)
    requires attempts >= 1
    requires Policy(s.initialBackoffMS as real, s.backoffMultiplier, s.maxBackoffMS as real)
    ensures (exists u :: 0.0 <= u < 1.0 && ComputeBackoff(s, attempts, u) > s.maxBackoffMS)
      <==> 1.2 * Base(s.initialBackoffMS as real, s.backoffMultiplier, s.maxBackoffMS as real, attempts)
           > (s.maxBackoffMS + 1) as real
  {
    hide Pow, Uncapped;
    var base := Base(s.initialBackoffMS as real, s.backoffMultiplier, s.maxBackoffMS as real, attempts);
    var target := (s.maxBackoffMS + 1) as real;
    DelayBounds(s, attempts, 0.0);
    if 1.2 * base > target {
      var u := DrawFor(base, target);
      assert ComputeBackoff(s, attempts, u) == target.Floor;
    } else {
      forall u | 0.0 <= u < 1.0 ensures ComputeBackoff(s, attempts, u) <= s.maxBackoffMS {
        DelayBounds(s, attempts, u);
      }
    }
  }
}
