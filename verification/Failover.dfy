/** RPC retry and failover (backend/app/chain/client.py). */
module Failover {
  import opened Arithmetic

  /** One attempt: an answer, a transport fault worth retrying, or any other exception. */
  datatype Attempt<T> = Answered(value: T) | Retryable | Raised

  datatype CallResult<T> = Success(value: T) | CallRaised | AllFailed

  /** The endpoint tried at the given offset: cyclically, from the active one. */
  function Endpoint(active: nat, offset: nat, count: nat): (e: nat)
    requires active < count && offset < count
    ensures e < count
  {
    (active + offset) % count
  }

  /** The cyclic order visits every endpoint, and none twice. */
  lemma EndpointsDistinct(active: nat, count: nat, a: nat, b: nat)
    requires active < count && a < b < count
    ensures Endpoint(active, a, count) != Endpoint(active, b, count)
  {
    EndpointIs(active, a, count);
    EndpointIs(active, b, count);
  }

  lemma EndpointIs(active: nat, offset: nat, count: nat)
    requires active < count && offset < count
    ensures Endpoint(active, offset, count) == if active + offset < count then active + offset else active + offset - count
  {
    DivIs(active + offset, count, if active + offset < count then 0 else 1);
  }

  lemma EndpointsCover(active: nat, count: nat, e: nat)
    requires active < count && e < count
    ensures exists offset :: 0 <= offset < count && Endpoint(active, offset, count) == e
  {
    var offset := if e >= active then e - active else e + count - active;
    EndpointIs(active, offset, count);
  }

  // ---- What a call visits when others move the preference meanwhile ------------------------------

  /** The endpoint visited at an offset: the preference is read anew at each, after awaits during which
      other calls may have moved it. `read(offset)` is what is found. */
  function Visit(read: nat -> nat, offset: nat, count: nat): (e: nat)
    requires offset < count && read(offset) < count
    ensures e < count
  {
    Endpoint(read(offset), offset, count)
  }

  ghost predicate Preferences(read: nat -> nat, count: nat) {
    forall o: nat :: o < count ==> read(o) < count
  }

  /** The endpoints visited, offset by offset. */
  function Visits(read: nat -> nat, count: nat): (es: seq<nat>)
    requires Preferences(read, count)
    ensures |es| == count && forall o :: 0 <= o < count ==> es[o] == Visit(read, o, count) < count
  {
    seq(count, o requires 0 <= o < count && read(o) < count => Visit(read, o, count))
  }

  ghost predicate Distinct(es: seq<nat>) {
    forall a, b :: 0 <= a < b < |es| ==> es[a] != es[b]
  }

  ghost predicate Covers(es: seq<nat>, count: nat) {
    forall e: nat :: e < count ==> e in es
  }

  function Elements(es: seq<nat>): (r: set<nat>)
    ensures forall e :: e in r <==> e in es
  {
    if es == [] then {} else
    var n := |es| - 1;
    assert es == es[..n] + [es[n]];
    Elements(es[..n]) + {es[n]}
  }

  lemma {:induction false} ElementCount(es: seq<nat>)
    ensures |Elements(es)| <= |es|
    ensures |Elements(es)| == |es| <==> Distinct(es)
  {
    if es != [] {
      var n := |es| - 1;
      ElementCount(es[..n]);
      LastDistinct(es);
    }
  }

  lemma LastDistinct(es: seq<nat>)
    requires es != []
    ensures Distinct(es) <==> Distinct(es[..|es| - 1]) && es[|es| - 1] !in es[..|es| - 1]
  {
    var before, last := es[..|es| - 1], es[|es| - 1];
    assert forall a :: 0 <= a < |before| ==> before[a] == es[a];
    if Distinct(es) {
      assert Distinct(before);
    }
  }

  lemma {:induction false} Numbers(n: nat) returns (all: set<nat>)
    ensures |all| == n && forall i: nat :: i in all <==> i < n
  {
    all := {};
    if n > 0 {
      var fewer := Numbers(n - 1);
      all := fewer + {n - 1};
    }
  }

  lemma {:induction false} Included(a: set<nat>, b: set<nat>)
    requires a <= b
    ensures |a| <= |b| && (|a| == |b| ==> a == b)
  {
    assert b == a + (b - a);
  }

  lemma {:induction false} CoversIffDistinct(es: seq<nat>)
    requires forall e :: e in es ==> e < |es|
    ensures Covers(es, |es|) <==> Distinct(es)
  {
    var all := Numbers(|es|);
    Included(Elements(es), all);
    ElementCount(es);
    if Covers(es, |es|) { assert Elements(es) == all; }
  }

  /** However the preference moves, a call that goes through all offsets visits every endpoint exactly
      when it visits none twice: when the preferences it reads, each moved on by its offset, differ. */
  lemma VisitsAllIffDistinct(read: nat -> nat, count: nat)
    requires Preferences(read, count)
    ensures Covers(Visits(read, count), count) <==> Distinct(Visits(read, count))
  {
    CoversIffDistinct(Visits(read, count));
  }

  /** A preference nobody moves is such a case. */
  lemma UndisturbedVisitsAll(read: nat -> nat, count: nat)
    requires Preferences(read, count) && forall o: nat :: o < count ==> read(o) == read(0)
    ensures Covers(Visits(read, count), count) && Distinct(Visits(read, count))
  {
    var es := Visits(read, count);
    forall a, b | 0 <= a < b < count
      ensures es[a] != es[b]
    {
      EndpointsDistinct(read(0), count, a, b);
    }
    VisitsAllIffDistinct(read, count);
  }

  /** With two endpoints, another call that succeeds on the second one while this one exhausts the first
      sends this one back to the first: it fails without ever having tried the second. */
  lemma EndpointCanBeMissed()
    ensures var read := (o: nat) => if o == 0 then 0 else 1;
            Preferences(read, 2) && Visits(read, 2) == [0, 0] && !Covers(Visits(read, 2), 2)
  {
    var read := (o: nat) => if o == 0 then 0 else 1;
    assert Visit(read, 0, 2) == Visit(read, 1, 2) == 0;
    assert 1 !in Visits(read, 2);
  }

  class ChainClient {
    const count: nat
    const maxRetries: int
    var active: nat

    predicate Valid()
      reads this
    {
      active < count
    }

    /** At least one URL is configured, or construction raises. */
    constructor (count: nat, maxRetries: int)
      requires count > 0
      ensures Valid() && active == 0 && this.count == count && this.maxRetries == maxRetries
    {
      this.count, this.maxRetries, active := count, maxRetries, 0;
    }

    /** Every attempt made at the given offset is answered by a transport fault. */
    ghost predicate Exhausted<T>(fn: (nat, nat, int) -> Attempt<T>, read: nat -> nat, o: nat)
      requires o < count && read(o) < count
    {
      forall k :: 1 <= k <= maxRetries ==> fn(o, Visit(read, o, count), k).Retryable?
    }

    /** The first `k` attempts at an offset, one endpoint throughout. */
    function Round(read: nat -> nat, o: nat, k: nat): (ts: seq<(nat, int)>)
      requires o < count && read(o) < count
      ensures |ts| == k && forall i :: 0 <= i < k ==> ts[i] == (Visit(read, o, count), i + 1)
    {
      if k == 0 then [] else Round(read, o, k - 1) + [(Visit(read, o, count), k)]
    }

    /** All attempts at the first `o` offsets. */
    function Rounds(read: nat -> nat, o: nat): seq<(nat, int)>
      requires Preferences(read, count) && o <= count
    {
      if o == 0 then [] else Rounds(read, o - 1) + Round(read, o - 1, Max(maxRetries, 0))
    }

    lemma {:induction false} RoundsCount(read: nat -> nat, o: nat)
      requires Preferences(read, count) && o <= count
      ensures |Rounds(read, o)| == o * Max(maxRetries, 0)
    {
      if o > 0 {
        RoundsCount(read, o - 1);
        assert o * Max(maxRetries, 0) == (o - 1) * Max(maxRetries, 0) + Max(maxRetries, 0);
      }
    }

    /** `fn(o, e, k)` is what attempt `k` at offset `o`, on endpoint `e`, does; `read` is what the
        preference is found to be at each offset, as other calls leave it. The call succeeds or raises at
        the first attempt, `maxRetries` consecutive ones an offset, that is not a transport fault; total
        failure tried every offset. A success sticks to its endpoint, and nothing else this call does
        moves the preference. `tries` lists the attempts made. */
    method Call<T>(fn: (nat, nat, int) -> Attempt<T>, read: nat -> nat)
      returns (r: CallResult<T>, tries: seq<(nat, int)>)
      requires Valid() && Preferences(read, count) && read(0) == active
      modifies this
      ensures Valid()
      ensures r.AllFailed? ==>
                && active == read(count - 1) && tries == Rounds(read, count)
                && |tries| == count * Max(maxRetries, 0)
                && forall o: nat :: o < count ==> Exhausted(fn, read, o)
      ensures !r.AllFailed? ==>
                exists o: nat, k: nat :: o < count && 1 <= k <= maxRetries &&
                  Stops(fn, read, o, k, r, active) && tries == Rounds(read, o) + Round(read, o, k)
    {
      tries := [];
      var offset := 0;
      while offset < count
        invariant 0 <= offset <= count && active == read(if offset == 0 then 0 else offset - 1)
        invariant forall o: nat :: o < offset ==> Exhausted(fn, read, o)
        invariant tries == Rounds(read, offset)
      {
        active := read(offset);
        var k;
        r, k := TryEndpoint(fn, read, offset, (active + offset) % count);
        tries := tries + Round(read, offset, k);
        if r.Success? { active := (active + offset) % count; }
        if !r.AllFailed? {
          assert Stops(fn, read, offset, k, r, active);
          return;
        }
        offset := offset + 1;
      }
      RoundsCount(read, count);
      r := AllFailed;
    }

    /** The attempts at one offset: `AllFailed` here means that this endpoint is exhausted. */
    method TryEndpoint<T>(fn: (nat, nat, int) -> Attempt<T>, read: nat -> nat, o: nat, e: nat)
      returns (r: CallResult<T>, k: nat)
      requires o < count && read(o) < count && e == Visit(read, o, count)
      ensures r.AllFailed? ==> Exhausted(fn, read, o) && k == Max(maxRetries, 0)
      ensures !r.AllFailed? ==>
                && 1 <= k <= maxRetries && (forall j :: 1 <= j < k ==> fn(o, e, j).Retryable?)
                && match fn(o, e, k)
                   case Answered(value) => r == Success(value)
                   case Raised => r.CallRaised?
                   case Retryable => false
    {
      var attempt := 1;
      while attempt <= maxRetries
        invariant 1 <= attempt <= Max(maxRetries, 0) + 1
        invariant forall j :: 1 <= j < attempt ==> fn(o, e, j).Retryable?
      {
        match fn(o, e, attempt)
        case Answered(value) => return Success(value), attempt;
        case Raised => return CallRaised, attempt;
        case Retryable =>
        attempt := attempt + 1;
      }
      return AllFailed, attempt - 1;
    }

    /** The attempt where the call stops, and what it leaves behind. */
    ghost predicate Stops<T>(fn: (nat, nat, int) -> Attempt<T>, read: nat -> nat, o: nat, k: int, r: CallResult<T>, now: nat)
      requires Preferences(read, count) && o < count
    {
      var e := Visit(read, o, count);
      && (forall p: nat :: p < o ==> Exhausted(fn, read, p))
      && (forall j :: 1 <= j < k ==> fn(o, e, j).Retryable?)
      && (match fn(o, e, k)
          case Answered(value) => r == Success(value) && now == e
          case Raised => r.CallRaised? && now == read(o)
          case Retryable => false)
    }
  }
}
