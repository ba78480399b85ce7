/** The retry delay of the audit worker: doubled per attempt, kept under a ceiling. */
module Backoff {

  const MILLISECOND := 1_000_000

  predicate ValidDelays(base: int, ceiling: int) {
    MILLISECOND <= base <= ceiling
  }

  /** base * 2^(attempt - 1), without a ceiling. */
  function Doubled(base: int, attempt: int): int
    decreases attempt
  {
    if attempt <= 1 then base else 2 * Doubled(base, attempt - 1)
  }

  function Min(a: int, b: int): int {
    if a < b then a else b
  }

  /** The delay before the given attempt: the doubled base until it comes within half of the ceiling. */
  function Delay(base: int, ceiling: int, attempt: int): int {
    DelayAfter(base, ceiling, 1, attempt)
  }

  function DelayAfter(delay: int, ceiling: int, index: int, attempt: int): int
    decreases attempt - index
  {
    if index >= attempt then Min(delay, ceiling)
    else if delay >= ceiling / 2 then ceiling
    else DelayAfter(2 * delay, ceiling, index + 1, attempt)
  }

  /** No value computed on the way exceeds the ceiling, so none overflows where the ceiling does not. */
  method ComputeBackoff(base: int, ceiling: int, attempt: int) returns (delay: int)
    requires ValidDelays(base, ceiling)
    ensures delay == Delay(base, ceiling, attempt)
    ensures base <= delay <= ceiling
  {
    delay := base;
    var index := 1;
    while index < attempt
      invariant 1 <= index
      invariant base <= delay <= ceiling
      invariant Delay(base, ceiling, attempt) == DelayAfter(delay, ceiling, index, attempt)
      decreases attempt - index
    {
      if delay >= ceiling / 2 { return ceiling; }
      delay := delay * 2;
      index := index + 1;
    }
    if delay > ceiling { return ceiling; }
  }

  lemma {:induction false} DoubledAfter(base: int, delay: int, ceiling: int, index: int, attempt: int)
    requires 1 <= base && 1 <= index && delay == Doubled(base, index) <= ceiling
    ensures DelayAfter(delay, ceiling, index, attempt) ==
            if index < attempt && Doubled(base, attempt) >= ceiling - 1 then ceiling
            else if index < attempt then Doubled(base, attempt) else delay
    decreases attempt - index
  {
    if index < attempt {
      DoubledGrows(base, index + 1, attempt);
      if delay < ceiling / 2 {
        DoubledAfter(base, 2 * delay, ceiling, index + 1, attempt);
      }
    }
  }

  lemma {:induction false} DoubledGrows(base: int, earlier: int, later: int)
    requires 1 <= base && earlier <= later
    ensures 1 <= Doubled(base, earlier) <= Doubled(base, later)
    decreases later - earlier, earlier
  {
    if earlier < later {
      DoubledGrows(base, earlier, later - 1);
    } else if earlier > 1 {
      DoubledGrows(base, earlier - 1, earlier - 1);
    }
  }

  /**
   The delay is the doubled base under the ceiling, except at exactly one spot: where the
   doubled base is one nanosecond below an odd ceiling, the ceiling itself is used.
   */
  lemma DelayIsDoubledUnderCeiling(base: int, ceiling: int, attempt: int)
    requires ValidDelays(base, ceiling)
    ensures Delay(base, ceiling, attempt) == Min(Doubled(base, attempt), ceiling)
            <==> !(attempt >= 2 && Doubled(base, attempt) == ceiling - 1)
    ensures attempt >= 2 && Doubled(base, attempt) == ceiling - 1 ==>
            ceiling % 2 == 1 && Delay(base, ceiling, attempt) == ceiling
  {
    DoubledAfter(base, base, ceiling, 1, attempt);
    DoubledGrows(base, 1, if attempt < 1 then 1 else attempt);
  }

  /** A later attempt never waits less. */
  lemma DelayIsMonotone(base: int, ceiling: int, earlier: int, later: int)
    requires ValidDelays(base, ceiling) && earlier <= later
    ensures base <= Delay(base, ceiling, earlier) <= Delay(base, ceiling, later) <= ceiling
  {
    DoubledAfter(base, base, ceiling, 1, earlier);
    DoubledAfter(base, base, ceiling, 1, later);
    DoubledGrows(base, earlier, later);
    DoubledGrows(base, 1, if earlier < 1 then 1 else earlier);
    DoubledGrows(base, 1, if later < 1 then 1 else later);
  }

  /** The second attempt from one millisecond under a ceiling of 2000001 nanoseconds waits one too long. */
  lemma OddCeilingIsReached()
    ensures ValidDelays(MILLISECOND, 2 * MILLISECOND + 1)
    ensures Doubled(MILLISECOND, 2) == 2 * MILLISECOND
    ensures Delay(MILLISECOND, 2 * MILLISECOND + 1, 2) == 2 * MILLISECOND + 1
  {
    assert Doubled(MILLISECOND, 1) == MILLISECOND;
  }
}
