/** The per-borrower in-flight lock and cooldown (backend/app/core/inflight.py).
    The injected clock is read once per operation and arrives as `now`. */
module InFlight {
  import opened Models

  datatype State = State(locked: map<Address, real>, cooldownUntil: map<Address, real>, cooldown: real)

  predicate InCooldown(s: State, b: Address, now: real) {
    b in s.cooldownUntil && now < s.cooldownUntil[b]
  }

  predicate CanStart(s: State, b: Address, now: real) {
    b !in s.locked && !InCooldown(s, b, now)
  }

  function Lock(s: State, b: Address, now: real): State {
    s.(locked := s.locked[b := now])
  }

  function Release(s: State, b: Address, now: real): State {
    s.(locked := s.locked - {b}, cooldownUntil := s.cooldownUntil[b := now + s.cooldown])
  }

  function SetCooldown(s: State, seconds: real): State {
    s.(cooldown := if seconds > 0.0 then seconds else 0.0)
  }

  class InFlightRegistry {
    var locked: map<Address, real>
    var cooldownUntil: map<Address, real>
    var cooldown: real

    function Abs(): State
      reads this
    {
      State(locked, cooldownUntil, cooldown)
    }

    constructor (cooldown: real)
      ensures Abs() == State(map[], map[], cooldown)
    {
      locked, cooldownUntil, this.cooldown := map[], map[], cooldown;
    }

    method Configure(seconds: real)
      modifies this
      ensures Abs() == SetCooldown(old(Abs()), seconds)
    {
      cooldown := if seconds > 0.0 then seconds else 0.0;
    }

    method Startable(b: Address, now: real) returns (ok: bool)
      ensures ok <==> CanStart(Abs(), b, now)
    {
      ok := b !in locked;
      if ok && b in cooldownUntil { ok := now >= cooldownUntil[b]; }
    }

    method Acquire(b: Address, now: real) returns (ok: bool)
      modifies this
      ensures ok <==> old(CanStart(Abs(), b, now))
      ensures Abs() == if ok then Lock(old(Abs()), b, now) else old(Abs())
    {
      ok := Startable(b, now);
      if ok { locked := locked[b := now]; }
    }

    method ReleaseNow(b: Address, now: real)
      modifies this
      ensures Abs() == Release(old(Abs()), b, now)
    {
      locked := locked - {b};
      cooldownUntil := cooldownUntil[b := now + cooldown];
    }
  }
}
