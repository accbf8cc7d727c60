/** Back-off of the outbox: exponential, capped, with up to a quarter of jitter. */
module RetryDelay {
  // The limits the environment schema puts on the settings.
  predicate Settings(base: nat, max: nat) { base >= 1 && max >= 30 }

  predicate Jitter(j: real) { 0.0 <= j <= 0.25 }

  function Power(n: nat): nat { if n == 0 then 1 else 2 * Power(n - 1) }

  function Min(a: int, b: int): int { if a < b then a else b }

  function Exponential(attempt: nat, base: nat, max: nat): int {
    Min(max, base * Power(if attempt == 0 then 0 else attempt - 1))
  }

  function Round(x: real): int { (x + 0.5).Floor }

  function Delay(attempt: nat, jitter: real, base: nat, max: nat): int {
    var jittered := Round(Exponential(attempt, base, max) as real * (1.0 + jitter));
    Min(max, if jittered < 1 then 1 else jittered)
  }

  lemma {:induction false} PowerPositive(n: nat)
    ensures Power(n) >= 1
  {
    if n > 0 {
      PowerPositive(n - 1);
    }
  }

  lemma ExponentialAtLeastOne(attempt: nat, base: nat, max: nat)
    requires Settings(base, max)
    ensures 1 <= Exponential(attempt, base, max) <= max
  {
    var n := if attempt == 0 then 0 else attempt - 1;
    PowerPositive(n);
    Product(base, Power(n));
  }

  lemma Product(a: nat, b: nat)
    requires a >= 1 && b >= 1
    ensures a * b >= 1
  {}

  lemma Doubling(attempt: nat, base: nat, max: nat)
    requires attempt >= 1
    ensures Exponential(attempt + 1, base, max) == Min(max, 2 * Exponential(attempt, base, max))
  {
    Rearranged(base, Power(attempt - 1));
    CapDoubled(base * Power(attempt - 1), max);
  }

  lemma Rearranged(base: nat, p: nat)
    ensures base * (2 * p) == 2 * (base * p) && base * p >= 0
  {}

  lemma CapDoubled(x: int, max: nat)
    requires x >= 0
    ensures Min(max, 2 * x) == Min(max, 2 * Min(max, x))
  {}

  lemma Scaled(x: real, jitter: real)
    requires x >= 1.0 && Jitter(jitter)
    ensures x <= x * (1.0 + jitter) <= 1.25 * x
  {
    assert x * (1.0 + jitter) - x == x * jitter;
  }

  lemma JitterIsSmall(x: int, jitter: real)
    requires x >= 1 && Jitter(jitter)
    ensures x <= Round(x as real * (1.0 + jitter)) <= 2 * x
  {
    Scaled(x as real, jitter);
    Rounded(x, x as real * (1.0 + jitter));
  }

  lemma Rounded(x: int, y: real)
    requires x >= 1 && x as real <= y <= 1.25 * x as real
    ensures x <= Round(y) <= 2 * x
  {}

  // At least the capped exponential, at most the cap, for any jitter.
  lemma DelayIsBounded(attempt: nat, jitter: real, base: nat, max: nat)
    requires Settings(base, max) && Jitter(jitter)
    ensures Exponential(attempt, base, max) <= Delay(attempt, jitter, base, max) <= max
  {
    ExponentialAtLeastOne(attempt, base, max);
    JitterIsSmall(Exponential(attempt, base, max), jitter);
  }

  lemma DelayAtMostDoubles(attempt: nat, jitter: real, base: nat, max: nat)
    requires Settings(base, max) && Jitter(jitter)
    ensures Delay(attempt, jitter, base, max) <= Min(max, 2 * Exponential(attempt, base, max))
  {
    ExponentialAtLeastOne(attempt, base, max);
    JitterIsSmall(Exponential(attempt, base, max), jitter);
  }

  // However the jitter falls, the next delay is never shorter.
  lemma DelayNeverShrinks(attempt: nat, jitter: real, next: real, base: nat, max: nat)
    requires Settings(base, max) && Jitter(jitter) && Jitter(next) && attempt >= 1
    ensures Delay(attempt, jitter, base, max) <= Delay(attempt + 1, next, base, max)
  {
    DelayAtMostDoubles(attempt, jitter, base, max);
    Doubling(attempt, base, max);
    DelayIsBounded(attempt + 1, next, base, max);
  }

  // The first two tries wait the base, each later one twice as long, and none
  // longer than the cap.
  lemma DelaysDouble(attempt: nat, base: nat, max: nat)
    ensures Exponential(0, base, max) == Exponential(1, base, max) == if base < max then base else max
    ensures attempt >= 1 ==>
              var twice := 2 * Exponential(attempt, base, max);
              Exponential(attempt + 1, base, max) == if twice < max then twice else max
  {
    if attempt >= 1 {
      Doubling(attempt, base, max);
    }
  }

  // The delay is the exponential with its jitter to half a second, up to the cap.
  lemma DelayIsNearest(attempt: nat, jitter: real, base: nat, max: nat)
    requires Settings(base, max) && Jitter(jitter)
    ensures var x := Exponential(attempt, base, max) as real * (1.0 + jitter);
            var delay := Delay(attempt, jitter, base, max);
            && delay as real <= x + 0.5
            && (delay == max || x - 0.5 < delay as real)
  {
    ExponentialAtLeastOne(attempt, base, max);
    JitterIsSmall(Exponential(attempt, base, max), jitter);
  }
}
