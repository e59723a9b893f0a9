/** The circuit breaker (backend/app/core/breaker.py). */
module Breaker {
  import opened Arithmetic

  datatype TripReason =
    ConsecutiveFailures | StaleOracle | RpcInconsistent | InvalidQuote | GasSpike | Manual

  datatype State = State(max: int, consecutive: nat, paused: bool, reason: Option<TripReason>)

  function Success(s: State): State {
    s.(consecutive := 0)
  }

  function Failure(s: State): State {
    var t := s.(consecutive := s.consecutive + 1);
    if t.consecutive >= t.max && !t.paused then Trip(t, ConsecutiveFailures) else t
  }

  function Trip(s: State, reason: TripReason): State {
    s.(paused := true, reason := Some(reason))
  }

  function Reset(s: State): State {
    State(s.max, 0, false, None)
  }

  class CircuitBreaker {
    var max: int
    var consecutive: nat
    var paused: bool
    var reason: Option<TripReason>

    function Abs(): State
      reads this
    {
      State(max, consecutive, paused, reason)
    }

    /** Thresholds below one are refused by `Create` and by the setter. */
    constructor (max: int)
      ensures Abs() == State(max, 0, false, None)
    {
      this.max, consecutive, paused, reason := max, 0, false, None;
    }

    static method Create(max: int) returns (b: CircuitBreaker?)
      ensures b == null <==> max < 1
      ensures b != null ==> fresh(b) && b.Abs() == State(max, 0, false, None)
    {
      if max < 1 { return null; }
      b := new CircuitBreaker(max);
    }

    method SetMax(value: int) returns (ok: bool)
      modifies this
      ensures ok <==> value >= 1
      ensures Abs() == if ok then old(Abs()).(max := value) else old(Abs())
    {
      ok := value >= 1;
      if ok { max := value; }
    }

    predicate Allow()
      reads this
    {
      !paused
    }

    method RecordSuccess()
      modifies this
      ensures Abs() == Success(old(Abs()))
    {
      consecutive := 0;
    }

    method RecordFailure()
      modifies this
      ensures Abs() == Failure(old(Abs()))
    {
      consecutive := consecutive + 1;
      if consecutive >= max && !paused {
        paused, reason := true, Some(ConsecutiveFailures);
      }
    }

    method TripNow(reason: TripReason)
      modifies this
      ensures Abs() == Trip(old(Abs()), reason)
    {
      this.paused, this.reason := true, Some(reason);
    }

    method ResetNow()
      modifies this
      ensures Abs() == Reset(old(Abs()))
    {
      paused, reason, consecutive := false, None, 0;
    }
  }
}
