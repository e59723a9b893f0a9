/** Decision counters (backend/app/observability.py). */
module Observability {
  datatype Counter =
    | ASSESSED | DECLINED | SIMULATED_OK | SIMULATED_FAIL | SUBMITTED | RESTORED | REVERTED
    | DOUBLE_SUBMIT_BLOCKED | BREAKER_TRIPPED | BREAKER_BLOCKED | ERRORS

  /** One field per stable counter name; a name never bumped reads zero. */
  datatype Counts = Counts(
    assessed: int, declined: int, simulatedOk: int, simulatedFail: int, submitted: int, restored: int,
    reverted: int, doubleSubmitBlocked: int, breakerTripped: int, breakerBlocked: int, errors: int)

  const ZERO := Counts(0, 0, 0, 0, 0, 0, 0, 0, 0, 0, 0)

  function Inc(m: Counts, c: Counter): Counts {
    match c
    case ASSESSED => m.(assessed := m.assessed + 1)
    case DECLINED => m.(declined := m.declined + 1)
    case SIMULATED_OK => m.(simulatedOk := m.simulatedOk + 1)
    case SIMULATED_FAIL => m.(simulatedFail := m.simulatedFail + 1)
    case SUBMITTED => m.(submitted := m.submitted + 1)
    case RESTORED => m.(restored := m.restored + 1)
    case REVERTED => m.(reverted := m.reverted + 1)
    case DOUBLE_SUBMIT_BLOCKED => m.(doubleSubmitBlocked := m.doubleSubmitBlocked + 1)
    case BREAKER_TRIPPED => m.(breakerTripped := m.breakerTripped + 1)
    case BREAKER_BLOCKED => m.(breakerBlocked := m.breakerBlocked + 1)
    case ERRORS => m.(errors := m.errors + 1)
  }

  /** What the table shows under one name. */
  function Value(m: Counts, c: Counter): int {
    match c
    case ASSESSED => m.assessed
    case DECLINED => m.declined
    case SIMULATED_OK => m.simulatedOk
    case SIMULATED_FAIL => m.simulatedFail
    case SUBMITTED => m.submitted
    case RESTORED => m.restored
    case REVERTED => m.reverted
    case DOUBLE_SUBMIT_BLOCKED => m.doubleSubmitBlocked
    case BREAKER_TRIPPED => m.breakerTripped
    case BREAKER_BLOCKED => m.breakerBlocked
    case ERRORS => m.errors
  }

  class Counters {
    var counts: Counts

    constructor ()
      ensures counts == ZERO
    {
      counts := ZERO;
    }

    /** The named counter is one more and every other one is unchanged. */
    method Add(c: Counter)
      modifies this
      ensures Value(counts, c) == Value(old(counts), c) + 1
      ensures forall k :: k != c ==> Value(counts, k) == Value(old(counts), k)
      ensures counts == Inc(old(counts), c)
    {
      counts := Inc(counts, c);
    }
  }
}
