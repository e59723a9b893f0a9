/** Proposals per hour, over every interleaving of crew runs (backend/app/agent/graph.py,
    backend/app/agent/policy.py, backend/app/agent/store.py).

    A run fixes `since`, counts its borrower's recent proposals, counts everybody's, is judged, and
    only later stamps and inserts its own row; other runs move in between. */
module RateLimit {
  import opened Arithmetic
  import opened Models
  import opened Store

  const HOUR := 3600.0

  /** What the table held when a run counted it, and which runs had counted but not yet inserted. */
  datatype Mark = Mark(rank: nat, length: nat, pending: set<string>)

  datatype Phase =
    | CountingOwn
    | CountingAll(own: nat)
    | Allowed
    | Stamped(at: real)
    | Inserted(position: nat)
    | Dropped

  datatype Crew = Crew(borrower: Address, since: real, own: Option<Mark>, all: Option<Mark>, phase: Phase)

  datatype Limits = Limits(perBorrower: nat, global: nat)

  /** The first `inherited` rows were there before the process started. */
  datatype System = System(rows: Table, now: real, runs: map<string, Crew>, clock: nat, inherited: nat)

  datatype Action =
    | Start(run: string, borrower: Address)
    | CountOwn(run: string)
    | CountAll(run: string, otherChecks: bool)
    | Stamp(run: string)
    | Write(run: string, ttl: real)
    | Drop(run: string)
    | Touch(table: Table)
    | Advance(to: real)

  function Limit(l: Limits, scope: Scope): nat {
    if scope.Everyone? then l.global else l.perBorrower
  }

  function MarkOf(r: Crew, scope: Scope): Option<Mark> {
    if scope.Everyone? then r.all else r.own
  }

  /** The run has counted for this scope. */
  predicate Counted(r: Crew, scope: Scope) {
    InScope(scope, r.borrower) && MarkOf(r, scope).Some?
  }

  predicate Finished(r: Crew) {
    r.phase.Inserted? || r.phase.Dropped?
  }

  /** Runs between their count and their insert. */
  function Overlapping(s: System, scope: Scope): set<string> {
    set k | k in s.runs && Counted(s.runs[k], scope) && !Finished(s.runs[k])
  }

  /** Whatever else writes the table, creation data stays as inserted. */
  predicate SameOrigin(t: Table, u: Table) {
    && |t| == |u|
    && forall i :: 0 <= i < |t| ==>
         u[i].runId == t[i].runId && u[i].borrower == t[i].borrower && u[i].createdAt == t[i].createdAt
  }

  predicate Enabled(s: System, a: Action) {
    match a
    case Start(k, _) => k !in s.runs
    case CountOwn(k) => k in s.runs && s.runs[k].phase.CountingOwn?
    case CountAll(k, _) => k in s.runs && s.runs[k].phase.CountingAll?
    case Stamp(k) => k in s.runs && s.runs[k].phase.Allowed?
    case Write(k, _) => k in s.runs && s.runs[k].phase.Stamped?
    case Drop(k) => k in s.runs && !Finished(s.runs[k])
    case Touch(u) => SameOrigin(s.rows, u)
    case Advance(to) => to >= s.now
  }

  function Marked(s: System, k: string, scope: Scope): Option<Mark> {
    Some(Mark(s.clock, |s.rows|, Overlapping(s, scope) - {k}))
  }

  function Step(l: Limits, s: System, a: Action): System {
    if !Enabled(s, a) then s else
    match a
    case Start(k, b) => s.(runs := s.runs[k := Crew(b, s.now - HOUR, None, None, CountingOwn)])
    case CountOwn(k) =>
      var r := s.runs[k];
      var own := |Recent(s.rows, Only(r.borrower), r.since)|;
      s.(runs := s.runs[k := r.(own := Marked(s, k, Only(r.borrower)), phase := CountingAll(own))], clock := s.clock + 1)
    case CountAll(k, otherChecks) =>
      var r := s.runs[k];
      var all := |Recent(s.rows, Everyone, r.since)|;
      var ok := otherChecks && r.phase.own < l.perBorrower && all < l.global;
      s.(runs := s.runs[k := r.(all := Marked(s, k, Everyone), phase := if ok then Allowed else Dropped)],
         clock := s.clock + 1)
    case Stamp(k) => s.(runs := s.runs[k := s.runs[k].(phase := Stamped(s.now))])
    case Write(k, ttl) =>
      var r := s.runs[k];
      s.(rows := Insert(s.rows, k, r.borrower, ttl, r.phase.at),
         runs := s.runs[k := r.(phase := Inserted(|s.rows|))])
    case Drop(k) => s.(runs := s.runs[k := s.runs[k].(phase := Dropped)])
    case Touch(u) => s.(rows := u)
    case Advance(to) => s.(now := to)
  }

  function Run(l: Limits, s: System, acts: seq<Action>): System
    decreases |acts|
  {
    if acts == [] then s else Run(l, Step(l, s, acts[0]), acts[1..])
  }

  predicate Initial(s: System) {
    s.runs == map[] && s.clock == 0 && s.inherited == |s.rows|
  }

  // ---- What counting establishes -----------------------------------------------------------

  /** Every row not inherited is some run's, in time order with that run's `since`. */
  ghost predicate Sourced(s: System) {
    && s.inherited <= |s.rows|
    && (forall i :: s.inherited <= i < |s.rows| ==>
          var k := s.rows[i].runId;
          && k in s.runs && s.runs[k].phase == Inserted(i) && s.runs[k].borrower == s.rows[i].borrower
          && s.rows[i].createdAt >= s.runs[k].since + HOUR)
    && (forall k :: k in s.runs ==>
          && s.runs[k].since + HOUR <= s.now
          && (s.runs[k].phase.Stamped? ==> s.runs[k].phase.at >= s.runs[k].since + HOUR)
          && (s.runs[k].phase.Inserted? ==> s.runs[k].phase.position < |s.rows|))
  }

  /** The rows the run saw when it counted. */
  function Seen(rows: Table, m: Mark, scope: Scope, since: real): set<nat> {
    set i: nat | i < |rows| && i < m.length && rows[i].createdAt >= since && InScope(scope, rows[i].borrower)
  }

  /** A run that passed the gate saw fewer than the limit. */
  predicate UnderLimit(l: Limits, s: System, r: Crew, scope: Scope) {
    match r.phase
    case CountingOwn => r.own.None? && r.all.None?
    case CountingAll(own) =>
      && r.own.Some? && r.all.None?
      && (scope == Only(r.borrower) ==> own == |Seen(s.rows, r.own.value, scope, r.since)|)
    case Dropped => true
    case _ =>
      && r.own.Some? && r.all.Some?
      && (InScope(scope, r.borrower) ==> |Seen(s.rows, MarkOf(r, scope).value, scope, r.since)| < Limit(l, scope))
  }

  /** A run that counted earlier was then either still pending, or in the table, or never to be. */
  predicate Before(s: System, k: string, m: Mark)
    requires k in s.runs
  {
    var p := s.runs[k].phase;
    p.Dropped? || k in m.pending || (p.Inserted? && p.position < m.length)
  }

  ghost predicate AllUnder(l: Limits, s: System, scope: Scope) {
    forall k :: k in s.runs ==> UnderLimit(l, s, s.runs[k], scope)
  }

  /** Marks lie in the past and name fewer than `n` other runs. */
  ghost predicate Bounded(s: System, scope: Scope, n: nat) {
    forall k :: k in s.runs && Counted(s.runs[k], scope) ==>
      var m := MarkOf(s.runs[k], scope).value;
      m.rank < s.clock && s.inherited <= m.length <= |s.rows| && (s.runs[k].phase.Dropped? || |m.pending| < n)
  }

  ghost predicate Ordered(s: System, scope: Scope) {
    forall j, k :: j in s.runs && k in s.runs && j != k && Counted(s.runs[j], scope) && Counted(s.runs[k], scope) ==>
      var mj, mk := MarkOf(s.runs[j], scope).value, MarkOf(s.runs[k], scope).value;
      mj.rank != mk.rank && (mj.rank < mk.rank ==> Before(s, j, mk))
  }

  lemma StepSourced(l: Limits, s: System, a: Action)
    requires Sourced(s)
    ensures Sourced(Step(l, s, a))
  {
  }

  /** Counting marks exactly the rows of the prefix it read. */
  lemma SeenIsRecent(rows: Table, m: Mark, scope: Scope, since: real)
    requires m.length == |rows|
    ensures Seen(rows, m, scope, since) == Recent(rows, scope, since)
  {
  }

  lemma SeenStays(t: Table, u: Table, m: Mark, scope: Scope, since: real)
    requires m.length <= |t| <= |u|
    requires forall i :: 0 <= i < |t| ==> u[i].borrower == t[i].borrower && u[i].createdAt == t[i].createdAt
    ensures Seen(u, m, scope, since) == Seen(t, m, scope, since)
  {
  }

  /** How a run can change in a step that counts nothing for this scope. */
  predicate Moved(r: Crew, q: Crew, scope: Scope) {
    && q.borrower == r.borrower && q.since == r.since && MarkOf(q, scope) == MarkOf(r, scope)
    && (Finished(r) ==> q.phase == r.phase)
  }

  /** The step counts for this scope. */
  predicate Counts(s: System, a: Action, scope: Scope) {
    match a
    case CountOwn(k) => Enabled(s, a) && scope == Only(s.runs[k].borrower)
    case CountAll(k, _) => Enabled(s, a) && scope == Everyone
    case _ => false
  }

  lemma QuietMoves(l: Limits, s: System, a: Action, scope: Scope)
    requires !Counts(s, a, scope)
    ensures var t := Step(l, s, a);
            && |s.rows| <= |t.rows| && t.clock >= s.clock
            && (forall i :: 0 <= i < |s.rows| ==>
                  t.rows[i].borrower == s.rows[i].borrower && t.rows[i].createdAt == s.rows[i].createdAt)
            && (forall k :: k in s.runs ==> k in t.runs && (Moved(s.runs[k], t.runs[k], scope)
                                                           || !InScope(scope, t.runs[k].borrower)))
            && (forall k :: k in t.runs && k !in s.runs ==> !Counted(t.runs[k], scope))
  {
  }

  lemma QuietCounted(l: Limits, s: System, a: Action, scope: Scope, k: string)
    requires !Counts(s, a, scope) && k in Step(l, s, a).runs && Counted(Step(l, s, a).runs[k], scope)
    ensures k in s.runs && Moved(s.runs[k], Step(l, s, a).runs[k], scope) && Counted(s.runs[k], scope)
  {
  }

  lemma QuietBounded(l: Limits, s: System, a: Action, scope: Scope, n: nat)
    requires Bounded(s, scope, n) && !Counts(s, a, scope)
    ensures Bounded(Step(l, s, a), scope, n)
  {
  }

  lemma QuietOrdered(l: Limits, s: System, a: Action, scope: Scope, n: nat)
    requires Bounded(s, scope, n) && Ordered(s, scope) && !Counts(s, a, scope)
    ensures Ordered(Step(l, s, a), scope)
  {
    QuietMoves(l, s, a, scope);
    forall k | k in Step(l, s, a).runs && Counted(Step(l, s, a).runs[k], scope)
      ensures k in s.runs && Moved(s.runs[k], Step(l, s, a).runs[k], scope) && Counted(s.runs[k], scope)
    {
      QuietCounted(l, s, a, scope, k);
    }
  }

  /** A counting step gives its run the latest rank, and that run names everyone that had counted and
      not inserted. */
  lemma CountMarks(l: Limits, s: System, a: Action, scope: Scope)
    requires AllUnder(l, s, scope) && Counts(s, a, scope)
    ensures var t, k := Step(l, s, a), a.run;
            && k in s.runs && !Counted(s.runs[k], scope)
            && k in t.runs && t.runs == s.runs[k := t.runs[k]] && t.rows == s.rows && t.clock == s.clock + 1
            && InScope(scope, t.runs[k].borrower) && !t.runs[k].phase.Inserted?
            && MarkOf(t.runs[k], scope) == Some(Mark(s.clock, |s.rows|, Overlapping(s, scope)))
  {
    assert UnderLimit(l, s, s.runs[a.run], scope);
    assert Overlapping(s, scope) - {a.run} == Overlapping(s, scope);
  }

  lemma CountBounded(l: Limits, s: System, a: Action, scope: Scope, n: nat)
    requires s.inherited <= |s.rows| && AllUnder(l, s, scope) && Bounded(s, scope, n)
    requires Counts(s, a, scope) && |Overlapping(Step(l, s, a), scope)| <= n
    ensures Bounded(Step(l, s, a), scope, n)
  {
    var t, k := Step(l, s, a), a.run;
    CountMarks(l, s, a, scope);
    if !t.runs[k].phase.Dropped? {
      assert Overlapping(t, scope) == Overlapping(s, scope) + {k};
    }
  }

  lemma CountOrdered(l: Limits, s: System, a: Action, scope: Scope, n: nat)
    requires Sourced(s) && AllUnder(l, s, scope) && Bounded(s, scope, n) && Ordered(s, scope) && Counts(s, a, scope)
    ensures Ordered(Step(l, s, a), scope)
  {
    var t, n := Step(l, s, a), a.run;
    CountMarks(l, s, a, scope);
    forall j, k | j in t.runs && k in t.runs && j != k && Counted(t.runs[j], scope) && Counted(t.runs[k], scope)
      ensures var mj, mk := MarkOf(t.runs[j], scope).value, MarkOf(t.runs[k], scope).value;
              mj.rank != mk.rank && (mj.rank < mk.rank ==> Before(t, j, mk))
    {
      if k == n {
        assert j in Overlapping(s, scope) || Finished(s.runs[j]);
      } else if j != n {
        assert t.runs[j] == s.runs[j] && t.runs[k] == s.runs[k];
      }
    }
  }

  lemma StepUnder(l: Limits, s: System, a: Action, scope: Scope, n: nat)
    requires AllUnder(l, s, scope) && Bounded(s, scope, n)
    ensures AllUnder(l, Step(l, s, a), scope)
  {
    var t := Step(l, s, a);
    forall k | k in t.runs
      ensures UnderLimit(l, t, t.runs[k], scope)
    {
      if k in s.runs {
        var r, q := s.runs[k], t.runs[k];
        assert UnderLimit(l, s, r, scope);
        if Counted(r, scope) {
          SeenStays(s.rows, t.rows, MarkOf(r, scope).value, scope, r.since);
        } else if Counted(q, scope) {
          SeenIsRecent(s.rows, MarkOf(q, scope).value, scope, r.since);
        }
      }
    }
  }

  ghost predicate Inv(l: Limits, s: System, scope: Scope, n: nat) {
    Sourced(s) && AllUnder(l, s, scope) && Bounded(s, scope, n) && Ordered(s, scope)
  }

  /** Throughout the run at most `n` crew runs of this scope lie between their count and their insert. */
  predicate Within(l: Limits, s: System, acts: seq<Action>, scope: Scope, n: nat)
    decreases |acts|
  {
    && |Overlapping(s, scope)| <= n
    && (acts != [] ==> Within(l, Step(l, s, acts[0]), acts[1..], scope, n))
  }

  lemma StepInv(l: Limits, s: System, a: Action, scope: Scope, n: nat)
    requires Inv(l, s, scope, n) && |Overlapping(Step(l, s, a), scope)| <= n
    ensures Inv(l, Step(l, s, a), scope, n)
  {
    StepSourced(l, s, a);
    StepUnder(l, s, a, scope, n);
    if Counts(s, a, scope) {
      CountBounded(l, s, a, scope, n);
      CountOrdered(l, s, a, scope, n);
    } else {
      QuietBounded(l, s, a, scope, n);
      QuietOrdered(l, s, a, scope, n);
    }
  }

  lemma {:induction false} RunInv(l: Limits, s: System, acts: seq<Action>, scope: Scope, n: nat)
    requires Inv(l, s, scope, n) && Within(l, s, acts, scope, n)
    ensures Inv(l, Run(l, s, acts), scope, n)
    decreases |acts|
  {
    if acts != [] {
      assert |Overlapping(Step(l, s, acts[0]), scope)| <= n;
      StepInv(l, s, acts[0], scope, n);
      RunInv(l, Step(l, s, acts[0]), acts[1..], scope, n);
    }
  }

  // ---- The window ----------------------------------------------------------------------------

  /** Positions of the rows of a scope created within the hour that starts at `from`, ends included. */
  function Window(rows: Table, scope: Scope, from: real): set<nat> {
    set i: nat | i < |rows| && from <= rows[i].createdAt <= from + HOUR && InScope(scope, rows[i].borrower)
  }

  function RankAt(s: System, scope: Scope, i: nat): nat
    requires Sourced(s) && s.inherited <= i < |s.rows|
  {
    var m := MarkOf(s.runs[s.rows[i].runId], scope);
    if m.Some? then m.value.rank else 0
  }

  /** The row whose run counted last. */
  lemma {:induction false} Latest(s: System, scope: Scope, w: set<nat>) returns (i: nat)
    requires Sourced(s) && w != {} && forall j :: j in w ==> s.inherited <= j < |s.rows|
    ensures i in w && forall j :: j in w ==> RankAt(s, scope, j) <= RankAt(s, scope, i)
    decreases |w|
  {
    i :| i in w;
    if w != {i} {
      var k := Latest(s, scope, w - {i});
      if RankAt(s, scope, i) < RankAt(s, scope, k) { i := k; }
    }
  }

  /** Distinct rows come from distinct runs. */
  lemma {:induction false} RowsOfRuns(s: System, p: set<nat>, runs: set<string>)
    requires Sourced(s) && forall j :: j in p ==> s.inherited <= j < |s.rows| && s.rows[j].runId in runs
    ensures |p| <= |runs|
    decreases |p|
  {
    if p != {} {
      var j :| j in p;
      RowsOfRuns(s, p - {j}, runs - {s.rows[j].runId});
    }
  }

  /** The run of the hour's last-counted new row had seen any other row of that hour, inherited or new,
      unless that row's run was still on its way to insert it. */
  lemma EarlierIsSeenOrPending(l: Limits, t: System, scope: Scope, n: nat, from: real, i: nat, j: nat)
    requires Inv(l, t, scope, n)
    requires i in Window(t.rows, scope, from) && j in Window(t.rows, scope, from) && i != j && t.inherited <= i
    requires t.inherited <= j ==> RankAt(t, scope, j) <= RankAt(t, scope, i)
    ensures var r := t.runs[t.rows[i].runId];
            && Counted(r, scope)
            && (j in Seen(t.rows, MarkOf(r, scope).value, scope, r.since)
                || (t.inherited <= j && t.rows[j].runId in MarkOf(r, scope).value.pending))
  {
  }

  /** An hour with a new row in it: what the last-counted run of it saw, what was pending then, itself. */
  lemma {:induction false} NewWindow(l: Limits, t: System, scope: Scope, n: nat, from: real, added: nat)
    requires Inv(l, t, scope, n) && added in Window(t.rows, scope, from) && t.inherited <= added
    ensures |Window(t.rows, scope, from)| <= Limit(l, scope) - 1 + n && Limit(l, scope) > 0
  {
    var w := Window(t.rows, scope, from);
    var recent := set j | j in w && t.inherited <= j;
    assert added in recent;
    var i := Latest(t, scope, recent);
    var r := t.runs[t.rows[i].runId];
    assert UnderLimit(l, t, r, scope);
    var m := MarkOf(r, scope).value;
    var seen := Seen(t.rows, m, scope, r.since);
    var rest := set j | j in recent && j != i && t.rows[j].runId in m.pending;
    forall j | j in w && j != i
      ensures j in seen || j in rest
    {
      EarlierIsSeenOrPending(l, t, scope, n, from, i, j);
    }
    assert w <= seen + rest + {i};
    RowsOfRuns(t, rest, m.pending);
    Larger(w, seen, rest, i);
  }

  /** Inherited rows stay where they are, as old as they were. */
  ghost predicate Inherits(s: System, t: System) {
    && t.inherited == s.inherited <= |s.rows| <= |t.rows|
    && forall i :: 0 <= i < s.inherited ==>
         t.rows[i].borrower == s.rows[i].borrower && t.rows[i].createdAt == s.rows[i].createdAt
  }

  lemma {:induction false} RunInherits(l: Limits, s: System, acts: seq<Action>)
    requires s.inherited <= |s.rows|
    ensures Inherits(s, Run(l, s, acts))
    decreases |acts|
  {
    if acts != [] {
      assert Inherits(s, Step(l, s, acts[0]));
      RunInherits(l, Step(l, s, acts[0]), acts[1..]);
    }
  }

  /** How many proposals an hour may hold: the limit, and one more for each further overlapping run. */
  function Most(l: Limits, scope: Scope, n: nat): int {
    if Limit(l, scope) == 0 then 0 else Limit(l, scope) - 1 + n
  }

  /** Whatever table the process starts from: an hour that did not hold too many proposals then never
      comes to hold more than the limit plus the overlap, per borrower and overall; exactly the limit
      when runs do not overlap. */
  lemma {:induction false} WindowBound(l: Limits, s: System, acts: seq<Action>, scope: Scope, n: nat, from: real)
    requires Initial(s) && n >= 1 && Within(l, s, acts, scope, n)
    requires |Window(s.rows, scope, from)| <= Most(l, scope, n)
    ensures |Window(Run(l, s, acts).rows, scope, from)| <= Most(l, scope, n)
  {
    RunInv(l, s, acts, scope, n);
    RunInherits(l, s, acts);
    var t := Run(l, s, acts);
    var w := Window(t.rows, scope, from);
    if i :| i in w && t.inherited <= i {
      NewWindow(l, t, scope, n, from, i);
    } else {
      assert w == Window(s.rows, scope, from);
    }
  }

  /** From an empty table the bound holds of every hour. */
  lemma {:induction false} FreshWindowBound(l: Limits, s: System, acts: seq<Action>, scope: Scope, n: nat, from: real)
    requires Initial(s) && s.rows == [] && n >= 1 && Within(l, s, acts, scope, n)
    ensures |Window(Run(l, s, acts).rows, scope, from)| <= Most(l, scope, n)
  {
    assert Window(s.rows, scope, from) == {};
    WindowBound(l, s, acts, scope, n, from);
  }

  lemma Larger(w: set<nat>, a: set<nat>, b: set<nat>, i: nat)
    requires w <= a + b + {i}
    ensures |w| <= |a| + |b| + 1
  {
    var all := a + b + {i};
    assert |all| <= |a| + |b| + 1;
    Subset(w, all);
  }

  lemma {:induction false} Subset(a: set<nat>, b: set<nat>)
    requires a <= b
    ensures |a| <= |b|
  {
    assert b == a + (b - a);
  }
}
