/** The bounds on streaks and on proposals an hour are reached, at every threshold and overlap. */
module Tightness {
  import opened Arithmetic
  import opened Models
  import opened Service
  import KeeperSystem
  import Breaker
  import InFlight
  import RateLimit
  import Store

  /** Distinct names. */
  function Name(k: nat): (s: string)
    ensures |s| == k
  {
    seq(k, i => 'b')
  }

  function Names(lo: nat, hi: nat): (names: set<string>)
    requires lo <= hi
    ensures forall s :: s in names <==> exists k: nat :: lo <= k < hi && s == Name(k)
    ensures |names| == hi - lo
    decreases hi - lo
  {
    if lo == hi then {} else
    var rest := Names(lo, hi - 1);
    assert Name(hi - 1) !in rest by {
      forall k: nat | lo <= k < hi - 1
        ensures Name(k) != Name(hi - 1)
      {
        assert |Name(k)| != |Name(hi - 1)|;
      }
    }
    rest + {Name(hi - 1)}
  }

  lemma {:induction false} Included<T>(a: set<T>, b: set<T>)
    requires a <= b
    ensures |a| <= |b|
  {
    assert b == a + (b - a);
  }

  // ---- The streak ------------------------------------------------------------------------------

  /** What every call of the run is given and answered. */
  datatype Script = Script(params: RiskParams, response: AssessmentResponse, plan: RescuePlan, sim: SimulationResult,
                           sub: SubmissionResult, m: nat, n: nat)
  {
    predicate Fails() {
      response.viable && sim.success && sub.status != 1 && m >= 1 && n >= 1
    }
  }

  const WIRED := Wiring(true, true)

  function Mandate(x: Script, k: nat): RiskParams { x.params.(borrower := Name(k)) }

  function Outstanding(x: Script, k: nat): KeeperSystem.Frame {
    KeeperSystem.Api(Submitting(Mandate(x, k), "", x.response, x.plan, x.sim))
  }

  /** Calls 0 to lo - 1 have failed, calls lo to hi - 1 are outstanding, and later names are unused. */
  ghost predicate Stage(x: Script, t: KeeperSystem.System, lo: nat, hi: nat) {
    && lo <= hi
    && (forall id: nat :: id in t.frames <==> lo <= id < hi)
    && (forall id: nat :: lo <= id < hi ==> t.frames[id] == Outstanding(x, id))
    && (forall k: nat :: k >= hi ==> Name(k) !in t.shared.inflight.locked && Name(k) !in t.shared.inflight.cooldownUntil)
    && t.shared.breaker.max == x.m && t.shared.breaker.consecutive == lo
    && (lo < x.m ==> !t.shared.breaker.paused)
  }

  /** A run from `s` to `t` that keeps within the overlap. */
  ghost predicate Leads(x: Script, s: KeeperSystem.System, acts: seq<KeeperSystem.Action>, t: KeeperSystem.System) {
    KeeperSystem.Run(WIRED, s, acts) == t && KeeperSystem.Within(WIRED, s, acts, x.m, x.n)
  }

  lemma {:induction false} RunningAtMost(frames: map<nat, KeeperSystem.Frame>, lo: nat, hi: nat)
    requires lo <= hi && forall id: nat :: id in frames ==> lo <= id < hi
    ensures KeeperSystem.Running(frames) <= hi - lo
    decreases hi - lo
  {
    if lo == hi {
      assert forall st :: KeeperSystem.Ids(frames, st) == {};
    } else {
      var rest := frames - {lo};
      RunningAtMost(rest, lo + 1, hi);
      KeeperSystem.CountAll(frames, lo, None);
      assert KeeperSystem.Put(frames, lo, None) == rest;
    }
  }

  lemma {:induction false} Further(x: Script, s: KeeperSystem.System, acts: seq<KeeperSystem.Action>,
                                   t: KeeperSystem.System, a: KeeperSystem.Action)
    requires Leads(x, s, acts, t) && !a.SetMax? && KeeperSystem.Running(KeeperSystem.Step(WIRED, t, a).frames) <= x.n
    ensures Leads(x, s, acts + [a], KeeperSystem.Step(WIRED, t, a))
    decreases |acts|
  {
    if acts == [] {
      assert acts + [a] == [a] && [a][1..] == [];
    } else {
      assert (acts + [a])[0] == acts[0] && (acts + [a])[1..] == acts[1..] + [a];
      Further(x, KeeperSystem.Step(WIRED, s, acts[0]), acts[1..], t, a);
    }
  }

  function Enter(x: Script, k: nat): KeeperSystem.Action { KeeperSystem.CallProtect(k, Mandate(x, k), "") }

  function Assess(x: Script, k: nat): KeeperSystem.Action {
    KeeperSystem.AnswerProtect(k, Evaluated(x.response, Some(x.plan)))
  }

  function DryRun(x: Script, k: nat): KeeperSystem.Action { KeeperSystem.AnswerProtect(k, Simulated(x.sim, x.plan)) }

  /** A call enters, clears the pipeline and the dry-run, and waits for its submission. */
  lemma Submits(x: Script, t: KeeperSystem.System, k: nat)
    returns (t1: KeeperSystem.System, t2: KeeperSystem.System, u: KeeperSystem.System)
    requires x.Fails() && k !in t.frames && !t.shared.breaker.paused
    requires Name(k) !in t.shared.inflight.locked && Name(k) !in t.shared.inflight.cooldownUntil
    ensures t1 == KeeperSystem.Step(WIRED, t, Enter(x, k)) && t2 == KeeperSystem.Step(WIRED, t1, Assess(x, k))
    ensures u == KeeperSystem.Step(WIRED, t2, DryRun(x, k))
    ensures t1.frames.Keys == t2.frames.Keys == t.frames.Keys + {k} && u.frames == t.frames[k := Outstanding(x, k)]
    ensures u.shared.breaker == t.shared.breaker && u.shared.inflight.locked.Keys == t.shared.inflight.locked.Keys + {Name(k)}
    ensures u.shared.inflight.cooldownUntil == t.shared.inflight.cooldownUntil
  {
    var p := Mandate(x, k);
    t1 := KeeperSystem.Step(WIRED, t, Enter(x, k));
    KeeperSystem.Admit(WIRED, t, k, p);
    t2 := KeeperSystem.Step(WIRED, t1, Assess(x, k));
    KeeperSystem.ClearsPipeline(WIRED, t1, k, p, x.response, x.plan);
    u := KeeperSystem.Step(WIRED, t2, DryRun(x, k));
    KeeperSystem.ClearsDryRun(WIRED, t2, k, p, x.response, x.plan, x.sim);
  }

  lemma Further3(x: Script, s: KeeperSystem.System, acts: seq<KeeperSystem.Action>, t: KeeperSystem.System,
                 a1: KeeperSystem.Action, a2: KeeperSystem.Action, a3: KeeperSystem.Action,
                 t1: KeeperSystem.System, t2: KeeperSystem.System, u: KeeperSystem.System)
    requires Leads(x, s, acts, t) && !a1.SetMax? && !a2.SetMax? && !a3.SetMax?
    requires t1 == KeeperSystem.Step(WIRED, t, a1) && t2 == KeeperSystem.Step(WIRED, t1, a2)
    requires u == KeeperSystem.Step(WIRED, t2, a3) && KeeperSystem.Running(t1.frames) <= x.n
    requires KeeperSystem.Running(t2.frames) <= x.n && KeeperSystem.Running(u.frames) <= x.n
    ensures Leads(x, s, acts + [a1] + [a2] + [a3], u)
  {
    Further(x, s, acts, t, a1);
    Further(x, s, acts + [a1], t1, a2);
    Further(x, s, acts + [a1] + [a2], t2, a3);
  }

  lemma Joined(x: Script, t: KeeperSystem.System, u: KeeperSystem.System, lo: nat, hi: nat)
    requires Stage(x, t, lo, hi) && u.frames == t.frames[hi := Outstanding(x, hi)]
    requires u.shared.breaker == t.shared.breaker && u.shared.inflight.locked.Keys == t.shared.inflight.locked.Keys + {Name(hi)}
    requires u.shared.inflight.cooldownUntil == t.shared.inflight.cooldownUntil
    ensures Stage(x, u, lo, hi + 1)
  {
    NamesDiffer(hi);
  }

  lemma Opens(x: Script, s: KeeperSystem.System, acts: seq<KeeperSystem.Action>, t: KeeperSystem.System, lo: nat, hi: nat)
    returns (longer: seq<KeeperSystem.Action>, u: KeeperSystem.System)
    requires x.Fails() && Leads(x, s, acts, t) && Stage(x, t, lo, hi) && lo < x.m && hi + 1 - lo <= x.n
    ensures Leads(x, s, longer, u) && Stage(x, u, lo, hi + 1)
  {
    var t1, t2;
    t1, t2, u := Submits(x, t, hi);
    RunningAtMost(t1.frames, lo, hi + 1);
    RunningAtMost(t2.frames, lo, hi + 1);
    RunningAtMost(u.frames, lo, hi + 1);
    longer := acts + [Enter(x, hi)] + [Assess(x, hi)] + [DryRun(x, hi)];
    Further3(x, s, acts, t, Enter(x, hi), Assess(x, hi), DryRun(x, hi), t1, t2, u);
    Joined(x, t, u, lo, hi);
  }

  lemma NamesDiffer(k: nat)
    ensures forall j: nat :: j != k ==> Name(j) != Name(k)
  {
    forall j: nat | j != k
      ensures Name(j) != Name(k)
    {
      assert |Name(j)| != |Name(k)|;
    }
  }

  /** The oldest outstanding submission is reverted. */
  lemma Closes(x: Script, s: KeeperSystem.System, acts: seq<KeeperSystem.Action>, t: KeeperSystem.System, lo: nat, hi: nat)
    returns (longer: seq<KeeperSystem.Action>, u: KeeperSystem.System)
    requires x.Fails() && Leads(x, s, acts, t) && Stage(x, t, lo, hi) && lo < hi <= lo + x.n
    ensures Leads(x, s, longer, u) && Stage(x, u, lo + 1, hi)
  {
    var a := KeeperSystem.AnswerProtect(lo, Receipt(x.sub));
    u := KeeperSystem.Step(WIRED, t, a);
    KeeperSystem.ComesBackReverted(WIRED, t, lo, Mandate(x, lo), x.response, x.plan, x.sim, x.sub);
    RunningAtMost(u.frames, lo + 1, hi);
    Further(x, s, acts, t, a);
    longer := acts + [a];
    NamesDiffer(lo);
  }

  lemma {:induction false} FailsAlone(x: Script, s: KeeperSystem.System, k: nat)
    returns (acts: seq<KeeperSystem.Action>, t: KeeperSystem.System)
    requires x.Fails() && KeeperSystem.Initial(s) && s.shared.breaker.max == x.m && k < x.m
    ensures Leads(x, s, acts, t) && Stage(x, t, k, k)
    decreases k
  {
    acts, t := [], s;
    if k == 0 {
      RunningAtMost(s.frames, 0, 0);
    } else {
      acts, t := FailsAlone(x, s, k - 1);
      acts, t := Opens(x, s, acts, t, k - 1, k - 1);
      acts, t := Closes(x, s, acts, t, k - 1, k);
    }
  }

  lemma {:induction false} OpensMany(x: Script, s: KeeperSystem.System, k: nat)
    returns (acts: seq<KeeperSystem.Action>, t: KeeperSystem.System)
    requires x.Fails() && KeeperSystem.Initial(s) && s.shared.breaker.max == x.m && k <= x.n
    ensures Leads(x, s, acts, t) && Stage(x, t, x.m - 1, x.m - 1 + k)
    decreases k
  {
    if k == 0 {
      acts, t := FailsAlone(x, s, x.m - 1);
    } else {
      acts, t := OpensMany(x, s, k - 1);
      acts, t := Opens(x, s, acts, t, x.m - 1, x.m - 2 + k);
    }
  }

  lemma {:induction false} ClosesMany(x: Script, s: KeeperSystem.System, k: nat)
    returns (acts: seq<KeeperSystem.Action>, t: KeeperSystem.System)
    requires x.Fails() && KeeperSystem.Initial(s) && s.shared.breaker.max == x.m && k <= x.n
    ensures Leads(x, s, acts, t) && Stage(x, t, x.m - 1 + k, x.m - 1 + x.n)
    decreases k
  {
    if k == 0 {
      acts, t := OpensMany(x, s, x.n);
    } else {
      acts, t := ClosesMany(x, s, k - 1);
      acts, t := Closes(x, s, acts, t, x.m - 2 + k, x.m - 1 + x.n);
    }
  }

  /** At every threshold `m` and every overlap `n`, some run within them drives the streak to
      `m - 1 + n`. */
  lemma {:induction false} StreakIsReached(x: Script, s: KeeperSystem.System)
    requires x.Fails() && KeeperSystem.Initial(s) && s.shared.breaker.max == x.m
    ensures exists acts :: KeeperSystem.Within(WIRED, s, acts, x.m, x.n)
                           && KeeperSystem.Run(WIRED, s, acts).shared.breaker.consecutive == x.m - 1 + x.n
  {
    var acts, t := ClosesMany(x, s, x.n);
  }

  // ---- The hour ----------------------------------------------------------------------------------

  /** Runs 0 to lo - 1 have inserted, runs lo to hi - 1 have counted and been allowed. */
  ghost predicate Queue(b: Address, t: RateLimit.System, lo: nat, hi: nat) {
    && lo <= hi && |t.rows| == lo
    && (forall i :: 0 <= i < lo ==> t.rows[i].borrower == b && t.rows[i].createdAt == t.now)
    && (forall k: nat :: k < hi ==> Name(k) in t.runs)
    && (forall s :: s in t.runs ==> |s| < hi && s == Name(|s|) && InQueue(b, t.runs[s], |s| < lo))
  }

  predicate InQueue(b: Address, r: RateLimit.Crew, inserted: bool) {
    r.borrower == b && if inserted then r.phase.Inserted? else r.phase.Allowed?
  }

  ghost predicate Reaches(l: RateLimit.Limits, s: RateLimit.System, acts: seq<RateLimit.Action>, t: RateLimit.System,
                          scope: Store.Scope, n: nat)
  {
    RateLimit.Run(l, s, acts) == t && RateLimit.Within(l, s, acts, scope, n)
  }

  lemma {:induction false} Onward(l: RateLimit.Limits, s: RateLimit.System, acts: seq<RateLimit.Action>,
                                  t: RateLimit.System, scope: Store.Scope, n: nat, a: RateLimit.Action)
    requires Reaches(l, s, acts, t, scope, n) && |RateLimit.Overlapping(RateLimit.Step(l, t, a), scope)| <= n
    ensures Reaches(l, s, acts + [a], RateLimit.Step(l, t, a), scope, n)
    decreases |acts|
  {
    if acts == [] {
      assert acts + [a] == [a] && [a][1..] == [];
    } else {
      assert (acts + [a])[0] == acts[0] && (acts + [a])[1..] == acts[1..] + [a];
      Onward(l, RateLimit.Step(l, s, acts[0]), acts[1..], t, scope, n, a);
    }
  }

  /** Only runs lo to hi - 1 can overlap. */
  lemma OverlapAtMost(t: RateLimit.System, scope: Store.Scope, lo: nat, hi: nat)
    requires lo <= hi
    requires forall s :: s in t.runs && !RateLimit.Finished(t.runs[s]) ==> s in Names(lo, hi)
    ensures |RateLimit.Overlapping(t, scope)| <= hi - lo
  {
    Included(RateLimit.Overlapping(t, scope), Names(lo, hi));
  }

  lemma {:induction false} AllRecent(rows: Store.Table, scope: Store.Scope, since: real, b: Address)
    requires forall i :: 0 <= i < |rows| ==> rows[i].borrower == b && rows[i].createdAt >= since
    requires Store.InScope(scope, b)
    ensures |Store.Recent(rows, scope, since)| == |rows|
  {
    Positions(Store.Recent(rows, scope, since), |rows|);
  }

  lemma {:induction false} Positions(p: set<nat>, n: nat)
    requires forall i: nat :: i in p <==> i < n
    ensures |p| == n
  {
    if n == 0 {
      assert p == {};
    } else {
      Positions(p - {n - 1}, n - 1);
    }
  }

  /** `u` differs from `t` in the runs by `Name(k)` alone. */
  predicate OneMore(t: RateLimit.System, u: RateLimit.System, k: nat) {
    Name(k) in u.runs && u.runs == t.runs[Name(k) := u.runs[Name(k)]]
  }

  /** A run starts, counts twice and is allowed: fewer than the limit are in the table. */
  lemma Counts(l: RateLimit.Limits, t: RateLimit.System, b: Address, lo: nat, hi: nat)
    returns (t1: RateLimit.System, t2: RateLimit.System, u: RateLimit.System)
    requires Queue(b, t, lo, hi) && lo < l.perBorrower && lo < l.global
    ensures t1 == RateLimit.Step(l, t, RateLimit.Start(Name(hi), b)) && t2 == RateLimit.Step(l, t1, RateLimit.CountOwn(Name(hi)))
    ensures u == RateLimit.Step(l, t2, RateLimit.CountAll(Name(hi), true))
    ensures t1.rows == t2.rows == u.rows == t.rows && t1.now == t2.now == u.now == t.now
    ensures OneMore(t, t1, hi) && OneMore(t, t2, hi) && OneMore(t, u, hi)
    ensures u.runs[Name(hi)].borrower == b && u.runs[Name(hi)].phase.Allowed?
  {
    t1 := RateLimit.Step(l, t, RateLimit.Start(Name(hi), b));
    t2 := RateLimit.Step(l, t1, RateLimit.CountOwn(Name(hi)));
    u := RateLimit.Step(l, t2, RateLimit.CountAll(Name(hi), true));
    AllRecent(t.rows, Store.Only(b), t.now - RateLimit.HOUR, b);
    AllRecent(t.rows, Store.Everyone, t.now - RateLimit.HOUR, b);
  }

  lemma OthersKept(b: Address, t: RateLimit.System, u: RateLimit.System, lo: nat, hi: nat, scope: Store.Scope)
    requires Queue(b, t, lo, hi) && OneMore(t, u, hi)
    ensures |RateLimit.Overlapping(u, scope)| <= hi + 1 - lo
  {
    forall s | s in u.runs && !RateLimit.Finished(u.runs[s])
      ensures s in Names(lo, hi + 1)
    {
      assert s == Name(|s|) && lo <= |s| < hi + 1;
    }
    OverlapAtMost(u, scope, lo, hi + 1);
  }

  lemma Queued(b: Address, t: RateLimit.System, u: RateLimit.System, lo: nat, hi: nat)
    requires Queue(b, t, lo, hi) && OneMore(t, u, hi) && u.rows == t.rows && u.now == t.now
    requires u.runs[Name(hi)].borrower == b && u.runs[Name(hi)].phase.Allowed?
    ensures Queue(b, u, lo, hi + 1)
  {
    NamesDiffer(hi);
  }

  lemma Onward3(l: RateLimit.Limits, s: RateLimit.System, acts: seq<RateLimit.Action>, t: RateLimit.System,
                scope: Store.Scope, n: nat, a1: RateLimit.Action, a2: RateLimit.Action, a3: RateLimit.Action,
                t1: RateLimit.System, t2: RateLimit.System, u: RateLimit.System)
    requires Reaches(l, s, acts, t, scope, n)
    requires t1 == RateLimit.Step(l, t, a1) && t2 == RateLimit.Step(l, t1, a2) && u == RateLimit.Step(l, t2, a3)
    requires |RateLimit.Overlapping(t1, scope)| <= n && |RateLimit.Overlapping(t2, scope)| <= n
    requires |RateLimit.Overlapping(u, scope)| <= n
    ensures Reaches(l, s, acts + [a1] + [a2] + [a3], u, scope, n)
  {
    Onward(l, s, acts, t, scope, n, a1);
    Onward(l, s, acts + [a1], t1, scope, n, a2);
    Onward(l, s, acts + [a1] + [a2], t2, scope, n, a3);
  }

  lemma Enqueues(l: RateLimit.Limits, s: RateLimit.System, acts: seq<RateLimit.Action>, t: RateLimit.System,
                 b: Address, scope: Store.Scope, n: nat, lo: nat, hi: nat)
    returns (longer: seq<RateLimit.Action>, u: RateLimit.System)
    requires Reaches(l, s, acts, t, scope, n) && Queue(b, t, lo, hi)
    requires lo < l.perBorrower && lo < l.global && hi + 1 - lo <= n
    ensures Reaches(l, s, longer, u, scope, n) && Queue(b, u, lo, hi + 1) && u.now == t.now
  {
    var t1, t2;
    t1, t2, u := Counts(l, t, b, lo, hi);
    OthersKept(b, t, t1, lo, hi, scope);
    OthersKept(b, t, t2, lo, hi, scope);
    OthersKept(b, t, u, lo, hi, scope);
    var a1, a2, a3 := RateLimit.Start(Name(hi), b), RateLimit.CountOwn(Name(hi)), RateLimit.CountAll(Name(hi), true);
    Onward3(l, s, acts, t, scope, n, a1, a2, a3, t1, t2, u);
    longer := acts + [a1] + [a2] + [a3];
    Queued(b, t, u, lo, hi);
  }

  /** The run that was allowed first stamps and inserts its row. */
  lemma Inserts(l: RateLimit.Limits, t: RateLimit.System, b: Address, lo: nat, hi: nat)
    returns (t1: RateLimit.System, u: RateLimit.System)
    requires Queue(b, t, lo, hi) && lo < hi
    ensures t1 == RateLimit.Step(l, t, RateLimit.Stamp(Name(lo))) && u == RateLimit.Step(l, t1, RateLimit.Write(Name(lo), 900.0))
    ensures OneMore(t, t1, lo) && OneMore(t, u, lo) && u.now == t.now && u.runs[Name(lo)].phase.Inserted?
    ensures u.runs[Name(lo)].borrower == b && |u.rows| == |t.rows| + 1 && u.rows[..|t.rows|] == t.rows
    ensures u.rows[|t.rows|].borrower == b && u.rows[|t.rows|].createdAt == t.now
  {
    t1 := RateLimit.Step(l, t, RateLimit.Stamp(Name(lo)));
    u := RateLimit.Step(l, t1, RateLimit.Write(Name(lo), 900.0));
    assert Name(lo) in t.runs && t.runs[Name(lo)].phase.Allowed? && t.runs[Name(lo)].borrower == b;
  }

  lemma Dequeued(b: Address, t: RateLimit.System, u: RateLimit.System, lo: nat, hi: nat)
    requires Queue(b, t, lo, hi) && lo < hi && OneMore(t, u, lo) && u.now == t.now
    requires u.runs[Name(lo)].phase.Inserted? && u.runs[Name(lo)].borrower == b
    requires |u.rows| == |t.rows| + 1 && u.rows[..|t.rows|] == t.rows
    requires u.rows[|t.rows|].borrower == b && u.rows[|t.rows|].createdAt == t.now
    ensures Queue(b, u, lo + 1, hi)
  {
    NamesDiffer(lo);
    assert Name(lo) in t.runs;
    assert forall i :: 0 <= i < |t.rows| ==> u.rows[i] == u.rows[..|t.rows|][i];
  }

  lemma Dequeues(l: RateLimit.Limits, s: RateLimit.System, acts: seq<RateLimit.Action>, t: RateLimit.System,
                 b: Address, scope: Store.Scope, n: nat, lo: nat, hi: nat)
    returns (longer: seq<RateLimit.Action>, u: RateLimit.System)
    requires Reaches(l, s, acts, t, scope, n) && Queue(b, t, lo, hi) && lo < hi <= lo + n
    ensures Reaches(l, s, longer, u, scope, n) && Queue(b, u, lo + 1, hi) && u.now == t.now
  {
    var t1;
    t1, u := Inserts(l, t, b, lo, hi);
    Unfinished(b, t, t1, lo, hi, scope);
    Unfinished(b, t, u, lo, hi, scope);
    longer := acts + [RateLimit.Stamp(Name(lo))] + [RateLimit.Write(Name(lo), 900.0)];
    Onward2(l, s, acts, t, scope, n, RateLimit.Stamp(Name(lo)), RateLimit.Write(Name(lo), 900.0), t1, u);
    Dequeued(b, t, u, lo, hi);
  }

  lemma Onward2(l: RateLimit.Limits, s: RateLimit.System, acts: seq<RateLimit.Action>, t: RateLimit.System,
                scope: Store.Scope, n: nat, a1: RateLimit.Action, a2: RateLimit.Action, t1: RateLimit.System, u: RateLimit.System)
    requires Reaches(l, s, acts, t, scope, n) && t1 == RateLimit.Step(l, t, a1) && u == RateLimit.Step(l, t1, a2)
    requires |RateLimit.Overlapping(t1, scope)| <= n && |RateLimit.Overlapping(u, scope)| <= n
    ensures Reaches(l, s, acts + [a1] + [a2], u, scope, n)
  {
    Onward(l, s, acts, t, scope, n, a1);
    Onward(l, s, acts + [a1], t1, scope, n, a2);
  }

  lemma Unfinished(b: Address, t: RateLimit.System, u: RateLimit.System, lo: nat, hi: nat, scope: Store.Scope)
    requires Queue(b, t, lo, hi) && lo < hi && OneMore(t, u, lo)
    ensures |RateLimit.Overlapping(u, scope)| <= hi - lo
  {
    forall s | s in u.runs && !RateLimit.Finished(u.runs[s])
      ensures s in Names(lo, hi)
    {
      assert s == Name(|s|) && lo <= |s| < hi;
    }
    OverlapAtMost(u, scope, lo, hi);
  }

  lemma {:induction false} Serial(l: RateLimit.Limits, s: RateLimit.System, b: Address, scope: Store.Scope, n: nat, k: nat)
    returns (acts: seq<RateLimit.Action>, t: RateLimit.System)
    requires RateLimit.Initial(s) && s.rows == [] && n >= 1 && k < l.perBorrower && k < l.global
    ensures Reaches(l, s, acts, t, scope, n) && Queue(b, t, k, k) && t.now == s.now
    decreases k
  {
    acts, t := [], s;
    if k == 0 {
      OverlapAtMost(s, scope, 0, 0);
    } else {
      acts, t := Serial(l, s, b, scope, n, k - 1);
      acts, t := Enqueues(l, s, acts, t, b, scope, n, k - 1, k - 1);
      acts, t := Dequeues(l, s, acts, t, b, scope, n, k - 1, k);
    }
  }

  lemma {:induction false} Overlapped(l: RateLimit.Limits, s: RateLimit.System, b: Address, scope: Store.Scope, n: nat,
                                      lo: nat, k: nat)
    returns (acts: seq<RateLimit.Action>, t: RateLimit.System)
    requires RateLimit.Initial(s) && s.rows == [] && n >= 1 && lo < l.perBorrower && lo < l.global && k <= n
    ensures Reaches(l, s, acts, t, scope, n) && Queue(b, t, lo, lo + k) && t.now == s.now
    decreases k
  {
    if k == 0 {
      acts, t := Serial(l, s, b, scope, n, lo);
    } else {
      acts, t := Overlapped(l, s, b, scope, n, lo, k - 1);
      acts, t := Enqueues(l, s, acts, t, b, scope, n, lo, lo + (k - 1));
    }
  }

  lemma {:induction false} Drained(l: RateLimit.Limits, s: RateLimit.System, b: Address, scope: Store.Scope, n: nat,
                                   lo: nat, k: nat)
    returns (acts: seq<RateLimit.Action>, t: RateLimit.System)
    requires RateLimit.Initial(s) && s.rows == [] && n >= 1 && lo < l.perBorrower && lo < l.global && k <= n
    ensures Reaches(l, s, acts, t, scope, n) && Queue(b, t, lo + k, lo + n) && t.now == s.now
    decreases k
  {
    if k == 0 {
      acts, t := Overlapped(l, s, b, scope, n, lo, n);
    } else {
      acts, t := Drained(l, s, b, scope, n, lo, k - 1);
      acts, t := Dequeues(l, s, acts, t, b, scope, n, lo + (k - 1), lo + n);
    }
  }

  /** At every limit and every overlap, some run within them puts `limit - 1 + n` proposals into one hour,
      for one borrower or overall: overlapping runs do pass the limit. */
  lemma {:induction false} HourIsReached(l: RateLimit.Limits, s: RateLimit.System, b: Address, scope: Store.Scope, n: nat)
    requires RateLimit.Initial(s) && s.rows == [] && n >= 1 && l.perBorrower == l.global >= 1
    requires Store.InScope(scope, b)
    ensures exists acts :: RateLimit.Within(l, s, acts, scope, n)
                           && |RateLimit.Window(RateLimit.Run(l, s, acts).rows, scope, s.now)| == RateLimit.Most(l, scope, n)
  {
    var acts, t := Drained(l, s, b, scope, n, l.global - 1, n);
    Positions(RateLimit.Window(t.rows, scope, s.now), |t.rows|);
  }
}
