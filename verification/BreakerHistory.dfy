/** What a history of answers, hard signals and resets makes of the circuit breaker
    (backend/app/core/breaker.py). */
module BreakerHistory {
  import opened Arithmetic
  import opened Observability
  import Breaker

  /** What the chain answered about a submission, a failure with the threshold live at that moment; a hard
      signal; or an operator's reset. */
  datatype Verdict = Good | Bad(limit: int) | Unknown | Hard(reason: Breaker.TripReason) | Reset

  function One(b: bool): nat { if b then 1 else 0 }

  /** The failures since the last success or reset. */
  function Streak(v: seq<Verdict>): nat
    decreases |v|
  {
    if v == [] || v[|v| - 1].Good? || v[|v| - 1].Reset? then 0
    else Streak(v[..|v| - 1]) + One(v[|v| - 1].Bad?)
  }

  function Goods(v: seq<Verdict>): nat
    decreases |v|
  {
    if v == [] then 0 else Goods(v[..|v| - 1]) + One(v[|v| - 1].Good?)
  }

  function Bads(v: seq<Verdict>): nat
    decreases |v|
  {
    if v == [] then 0 else Bads(v[..|v| - 1]) + One(v[|v| - 1].Bad?)
  }

  /** Event `k` came after the last reset. */
  predicate SinceReset(v: seq<Verdict>, k: int) {
    0 <= k < |v| && forall j :: k <= j < |v| ==> !v[j].Reset?
  }

  /** A hard signal, or a failure that finds the streak at the threshold then live. */
  predicate Halts(v: seq<Verdict>, k: int)
    requires 0 <= k < |v|
  {
    v[k].Hard? || (v[k].Bad? && Streak(v[..k + 1]) >= v[k].limit)
  }

  ghost predicate Halted(v: seq<Verdict>) {
    exists k :: SinceReset(v, k) && Halts(v, k)
  }

  ghost predicate LastHard(v: seq<Verdict>, k: int) {
    SinceReset(v, k) && v[k].Hard? && forall j :: k < j < |v| ==> !v[j].Hard?
  }

  ghost predicate NoHard(v: seq<Verdict>) {
    forall k :: SinceReset(v, k) ==> !v[k].Hard?
  }

  /** The reason shown: the last hard signal's; without one, the streak's if it halted; else none. */
  ghost predicate Shows(v: seq<Verdict>, reason: Option<Breaker.TripReason>) {
    && (forall k :: LastHard(v, k) ==> reason == Some(v[k].reason))
    && (NoHard(v) ==> reason == if Halted(v) then Some(Breaker.ConsecutiveFailures) else None)
  }

  /** The failures after which the breaker was paused. */
  ghost function Trips(v: seq<Verdict>): nat
    decreases |v|
  {
    if v == [] then 0 else Trips(v[..|v| - 1]) + One(v[|v| - 1].Bad? && Halted(v))
  }

  lemma SinceAdds(v: seq<Verdict>, x: Verdict)
    ensures forall k :: SinceReset(v + [x], k) <==> !x.Reset? && (SinceReset(v, k) || k == |v|)
  {
    forall k
      ensures SinceReset(v + [x], k) <==> !x.Reset? && (SinceReset(v, k) || k == |v|)
    {
      SinceAdds1(v, x, k);
    }
  }

  lemma SinceAdds1(v: seq<Verdict>, x: Verdict, k: int)
    ensures SinceReset(v + [x], k) <==> !x.Reset? && (SinceReset(v, k) || k == |v|)
  {
    var u := v + [x];
    assert u[|v|] == x && forall j :: 0 <= j < |v| ==> u[j] == v[j];
    if SinceReset(u, k) {
      assert !u[|v|].Reset?;
      if k < |v| {
        forall j | k <= j < |v|
          ensures !v[j].Reset?
        {
          assert !u[j].Reset?;
        }
      }
    }
  }

  lemma HaltsAdds(v: seq<Verdict>, x: Verdict, k: int)
    requires 0 <= k < |v|
    ensures Halts(v + [x], k) <==> Halts(v, k)
  {
    assert (v + [x])[..k + 1] == v[..k + 1];
  }

  lemma HaltedAdds(v: seq<Verdict>, x: Verdict)
    ensures Halted(v + [x]) <==> !x.Reset? && (Halted(v) || x.Hard? || (x.Bad? && Streak(v + [x]) >= x.limit))
  {
    var u := v + [x];
    SinceAdds(v, x);
    assert u[..|v| + 1] == u;
    if Halted(u) {
      var k :| SinceReset(u, k) && Halts(u, k);
      if k < |v| { HaltsAdds(v, x, k); }
    }
    if !x.Reset? && Halted(v) {
      var k :| SinceReset(v, k) && Halts(v, k);
      HaltsAdds(v, x, k);
      assert SinceReset(u, k) && Halts(u, k);
    }
    if x.Hard? || (x.Bad? && Streak(u) >= x.limit) {
      assert SinceReset(u, |v|) && Halts(u, |v|);
    }
  }

  lemma ShowsAdds(v: seq<Verdict>, x: Verdict, was: Option<Breaker.TripReason>, now: Option<Breaker.TripReason>)
    requires Shows(v, was) && (was.Some? <==> Halted(v))
    requires now == match x
                    case Hard(r) => Some(r)
                    case Reset => None
                    case Bad(_) => if Halted(v + [x]) && !Halted(v) then Some(Breaker.ConsecutiveFailures) else was
                    case _ => was
    ensures Shows(v + [x], now)
  {
    var u := v + [x];
    SinceAdds(v, x);
    HaltedAdds(v, x);
    forall k | LastHard(u, k)
      ensures now == Some(u[k].reason)
    {
      if k < |v| {
        assert u[k] == v[k] && u[|v|] == x;
        assert forall j :: k < j < |v| ==> u[j] == v[j];
        assert LastHard(v, k);
        HardHalts(v, k);
      }
    }
    if NoHard(u) && !x.Reset? {
      forall k | SinceReset(v, k)
        ensures !v[k].Hard?
      {
        assert SinceReset(u, k) && u[k] == v[k];
      }
      assert SinceReset(u, |v|) && u[|v|] == x;
    }
  }

  lemma HardHalts(v: seq<Verdict>, k: int)
    requires SinceReset(v, k) && v[k].Hard?
    ensures Halted(v)
  {
    assert Halts(v, k);
  }

  /** What the event does to the breaker. */
  function Judge(b: Breaker.State, x: Verdict): Breaker.State {
    match x
    case Good => Breaker.Success(b)
    case Bad(_) => Breaker.Failure(b)
    case Unknown => b
    case Hard(reason) => Breaker.Trip(b, reason)
    case Reset => Breaker.Reset(b)
  }

  /** Breaker and counters are what the history amounts to. */
  ghost predicate Tallies(v: seq<Verdict>, b: Breaker.State, c: Counts) {
    && b.consecutive == Streak(v) && c.restored == Goods(v) && c.reverted == Bads(v) && c.breakerTripped == Trips(v)
    && (b.paused <==> Halted(v)) && (b.reason.Some? <==> Halted(v)) && Shows(v, b.reason)
  }

  /** In the events' own words. */
  lemma TalliesMean(v: seq<Verdict>, b: Breaker.State, c: Counts)
    requires Tallies(v, b, c)
    ensures b.paused <==> exists k :: SinceReset(v, k) && (v[k].Hard? || (v[k].Bad? && Streak(v[..k + 1]) >= v[k].limit))
    ensures forall k :: LastHard(v, k) ==> b.reason == Some(v[k].reason)
    ensures b.paused && NoHard(v) ==> b.reason == Some(Breaker.ConsecutiveFailures)
    ensures !b.paused ==> b.reason.None?
  {
    if k :| SinceReset(v, k) && Halts(v, k) {
      assert v[k].Hard? || (v[k].Bad? && Streak(v[..k + 1]) >= v[k].limit);
    }
    if k :| SinceReset(v, k) && (v[k].Hard? || (v[k].Bad? && Streak(v[..k + 1]) >= v[k].limit)) {
      assert Halts(v, k);
    }
  }

  lemma NothingTallied(v: seq<Verdict>, b: Breaker.State, c: Counts)
    requires |v| == 0 && b.consecutive == 0 && !b.paused && b.reason.None?
    requires c.restored == 0 && c.reverted == 0 && c.breakerTripped == 0
    ensures Tallies(v, b, c)
  {
  }

  lemma PrefixOf(v: seq<Verdict>, x: Verdict)
    ensures Streak(v + [x]) == if x.Good? || x.Reset? then 0 else Streak(v) + One(x.Bad?)
    ensures Goods(v + [x]) == Goods(v) + One(x.Good?) && Bads(v + [x]) == Bads(v) + One(x.Bad?)
    ensures Trips(v + [x]) == Trips(v) + One(x.Bad? && Halted(v + [x]))
  {
    assert (v + [x])[..|v|] == v;
  }

  lemma TallyAdds(v: seq<Verdict>, x: Verdict, b: Breaker.State, c: Counts, d: Counts)
    requires Tallies(v, b, c) && (x.Bad? ==> x.limit == b.max)
    requires d.restored == c.restored + One(x.Good?) && d.reverted == c.reverted + One(x.Bad?)
    requires d.breakerTripped == c.breakerTripped + One(x.Bad? && Judge(b, x).paused)
    ensures Tallies(v + [x], Judge(b, x), d)
  {
    PrefixOf(v, x);
    HaltedAdds(v, x);
    ShowsAdds(v, x, b.reason, Judge(b, x).reason);
  }

  /** A changed threshold is no event: only later failures meet it. */
  lemma ThresholdTallies(v: seq<Verdict>, b: Breaker.State, c: Counts, max: int)
    requires Tallies(v, b, c)
    ensures Tallies(v, b.(max := max), c)
  {
  }
}
