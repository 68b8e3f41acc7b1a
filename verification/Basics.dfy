/** Shared vocabulary: optional values, integer arithmetic, and the cancellation
    a caller may observe through its context.

    Strings stand for Go strings, which are byte sequences: one `char` is one byte.
    Time is an unbounded integer number of nanoseconds. */
module Basics {

  datatype Option<+T> = None | Some(value: T)

  /** One millisecond, in nanoseconds. */
  const MS: int := 1_000_000

  function Min(a: int, b: int): int { if a <= b then a else b }

  function Max(a: int, b: int): int { if a >= b then a else b }

  function Abs(a: int): nat { if a < 0 then -a else a }

  /** How often something was counted under a name; never counted is 0. */
  function Count(counts: map<string, nat>, name: string): nat { if name in counts then counts[name] else 0 }

  /** A context as its holder can observe it. `CancelledIn(n)` answers "still live" to the
      next n checks and "cancelled" to every later one, so choosing n places the
      cancellation between any two checks. */
  datatype Ctx = Never | CancelledIn(checks: nat) {
    predicate Done() { this == CancelledIn(0) }

    /** The context after one more check. */
    function Checked(): Ctx {
      if CancelledIn? && checks > 0 then CancelledIn(checks - 1) else this
    }
  }
}
