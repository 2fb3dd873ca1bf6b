/** How many commands may run in parallel, and whether that number moves: the policy that sizes
    both the session pool and the async worker pool. */
module Options {

  datatype Option<+T> = None | Some(value: T)

  const MIN_COUNT: nat := 1
  const MAX_COUNT: nat := 256
  const NANOS_PER_MILLI: nat := 1_000_000
  const U32_MAX: nat := 0xFFFF_FFFF

  /** Durations are counts of nanoseconds. */
  datatype Concurrency = Concurrency(min: nat, max: nat, idleTimeout: Option<nat>) {

    /** What every policy built by a constructor satisfies, and all that the pools rely on. */
    predicate Valid() {
      && MIN_COUNT <= min <= max <= MAX_COUNT
      && (idleTimeout.Some? <==> min < max)
      && (idleTimeout.Some? ==> idleTimeout.value >= NANOS_PER_MILLI)
    }

    static function Preallocated(count: nat): Concurrency {
      Concurrency(count, count, None)
    }

    static function FromCount(count: nat): Option<Concurrency> {
      if InRange(count, MIN_COUNT, MAX_COUNT) then Some(Preallocated(count)) else None
    }

    static function Dynamic(min: nat, max: nat, idleTimeout: nat): Option<Concurrency> {
      if !InRange(max, MIN_COUNT, MAX_COUNT) then None
      else if !InRange(min, MIN_COUNT, max) then None
      else
        var millis := if idleTimeout / NANOS_PER_MILLI <= U32_MAX then idleTimeout / NANOS_PER_MILLI else U32_MAX;
        if !InRange(millis, 1, U32_MAX) then None
        else if min == max then Some(Preallocated(min))
        else Some(Concurrency(min, max, Some(idleTimeout)))
    }
  }

  predicate InRange(value: nat, low: nat, high: nat) {
    low <= value <= high
  }

  /** `Valid` is exactly the range of the two public constructors. */
  lemma ConstructorsCoverValid(c: Concurrency)
    ensures c.Valid() <==>
            || (exists count: nat :: Concurrency.FromCount(count) == Some(c))
            || (exists min: nat, max: nat, idle: nat :: Concurrency.Dynamic(min, max, idle) == Some(c))
  {
    if c.Valid() {
      if c.min == c.max {
        assert Concurrency.FromCount(c.min) == Some(c);
      } else {
        assert Concurrency.Dynamic(c.min, c.max, c.idleTimeout.value) == Some(c);
      }
    }
  }
}
