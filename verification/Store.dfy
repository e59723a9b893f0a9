/** The proposal table (backend/app/agent/store.py). Each statement is one atomic step under the
    write lock; ids count up from 1 and rows are never deleted. */
module Store {
  import opened Arithmetic
  import opened Models

  datatype Status = Pending | Approved | Rejected | Executed | Failed | Stale | Expired

  datatype Row = Row(
    runId: string, borrower: Address, createdAt: real, expiresAt: real, status: Status,
    decidedAt: Option<real>, decidedBy: Option<string>, note: Option<string>, txHash: Option<string>)

  type Table = seq<Row>

  predicate Has(t: Table, id: nat) {
    1 <= id <= |t|
  }

  function At(t: Table, id: nat): Row
    requires Has(t, id)
  {
    t[id - 1]
  }

  function Insert(t: Table, runId: string, borrower: Address, ttl: real, now: real): Table {
    t + [Row(runId, borrower, now, now + ttl, Pending, None, None, None, None)]
  }

  /** `UPDATE ... WHERE id = ? AND status = 'PENDING'`: the row count says who won. */
  function Claim(t: Table, id: nat, status: Status): (Table, bool) {
    if Has(t, id) && At(t, id).status == Pending
    then (t[id - 1 := At(t, id).(status := status)], true)
    else (t, false)
  }

  /** `COALESCE(?, column)` */
  function Coalesce<T>(given: Option<T>, kept: Option<T>): Option<T> {
    if given.Some? then given else kept
  }

  /** The unconditional write: whatever the row's status was, it is replaced. */
  function Finish(t: Table, id: nat, status: Status, who: Option<string>, note: Option<string>,
                  txHash: Option<string>, now: real): Table
  {
    if !Has(t, id) then t else
    var r := At(t, id);
    t[id - 1 := r.(status := status, decidedAt := Some(now), decidedBy := Coalesce(who, r.decidedBy),
                   note := Coalesce(note, r.note), txHash := Coalesce(txHash, r.txHash))]
  }

  function Lapsed(r: Row, now: real): Row {
    if r.status == Pending && r.expiresAt < now then r.(status := Expired) else r
  }

  function ExpireStale(t: Table, now: real): (u: Table)
    ensures |u| == |t| && forall i :: 0 <= i < |t| ==> u[i] == Lapsed(t[i], now)
  {
    seq(|t|, i requires 0 <= i < |t| => Lapsed(t[i], now))
  }

  /** A proposal lives for its time to live from its creation: an expiry pass moves it, still pending, to
      EXPIRED exactly when it comes later than that. */
  lemma InsertedExpires(t: Table, runId: string, borrower: Address, ttl: real, now: real, later: real)
    ensures var u := Insert(t, runId, borrower, ttl, now);
            var id := |t| + 1;
            var row := At(ExpireStale(u, later), id);
            && Has(u, id) && At(u, id).status == Pending
            && row.runId == runId && row.borrower == borrower && row.createdAt == now && row.expiresAt == now + ttl
            && row.decidedAt.None? && row.decidedBy.None? && row.note.None? && row.txHash.None?
            && row.status == (if later > now + ttl then Expired else Pending)
  {
  }

  /** An expiry pass touches nothing but the status of pending rows past their expiry. */
  lemma ExpiryIs(t: Table, id: nat, now: real)
    requires Has(t, id)
    ensures var row, after := At(t, id), At(ExpireStale(t, now), id);
            && after == row.(status := after.status)
            && (after.status != row.status <==> row.status == Pending && now > row.expiresAt)
            && (after.status != row.status ==> after.status == Expired)
  {
  }

  /** A final write replaces status and time, keeps what it is not given, and touches no other row. */
  lemma FinishIs(t: Table, id: nat, other: nat, status: Status, who: Option<string>, note: Option<string>,
                 txHash: Option<string>, now: real)
    requires Has(t, id) && Has(t, other)
    ensures var u := Finish(t, id, status, who, note, txHash, now);
            var was, row := At(t, id), At(u, id);
            && |u| == |t| && (other != id ==> At(u, other) == At(t, other))
            && row.status == status && row.decidedAt == Some(now)
            && (who.Some? ==> row.decidedBy == who) && (who.None? ==> row.decidedBy == was.decidedBy)
            && (note.Some? ==> row.note == note) && (note.None? ==> row.note == was.note)
            && (txHash.Some? ==> row.txHash == txHash) && (txHash.None? ==> row.txHash == was.txHash)
            && row.runId == was.runId && row.borrower == was.borrower
            && row.createdAt == was.createdAt && row.expiresAt == was.expiresAt
  {
  }

  /** A rate limit looks at one borrower's proposals, or at everybody's. */
  datatype Scope = Everyone | Only(borrower: Address)

  predicate InScope(scope: Scope, borrower: Address) {
    scope.Everyone? || scope.borrower == borrower
  }

  /** Positions of the rows created at or after `since`. */
  function Recent(t: Table, scope: Scope, since: real): set<nat> {
    set i: nat | i < |t| && t[i].createdAt >= since && InScope(scope, t[i].borrower)
  }

  lemma RecentGrows(t: Table, scope: Scope, since: real, i: nat)
    requires i < |t|
    ensures var more := t[i].createdAt >= since && InScope(scope, t[i].borrower);
            |Recent(t[..i + 1], scope, since)| == |Recent(t[..i], scope, since)| + (if more then 1 else 0)
  {
    var before := Recent(t[..i], scope, since);
    if t[i].createdAt >= since && InScope(scope, t[i].borrower) {
      assert Recent(t[..i + 1], scope, since) == before + {i};
    } else {
      assert Recent(t[..i + 1], scope, since) == before;
    }
  }

  class AgentStore {
    var rows: Table

    constructor ()
      ensures rows == []
    {
      rows := [];
    }

    method InsertProposal(runId: string, borrower: Address, ttl: real, now: real) returns (id: nat)
      modifies this
      ensures rows == Insert(old(rows), runId, borrower, ttl, now)
      ensures id == |rows| && Has(rows, id) && !Has(old(rows), id)
    {
      rows := rows + [Row(runId, borrower, now, now + ttl, Pending, None, None, None, None)];
      id := |rows|;
    }

    method GetProposal(id: nat) returns (r: Option<Row>)
      ensures r == if Has(rows, id) then Some(At(rows, id)) else None
    {
      if 1 <= id <= |rows| { return Some(rows[id - 1]); }
      return None;
    }

    method ClaimProposal(id: nat, status: Status) returns (won: bool)
      modifies this
      ensures (rows, won) == Claim(old(rows), id, status)
    {
      won := 1 <= id <= |rows| && rows[id - 1].status == Pending;
      if won { rows := rows[id - 1 := rows[id - 1].(status := status)]; }
    }

    method FinishProposal(id: nat, status: Status, who: Option<string>, note: Option<string>,
                          txHash: Option<string>, now: real)
      modifies this
      ensures rows == Finish(old(rows), id, status, who, note, txHash, now)
    {
      if 1 <= id <= |rows| {
        var r := rows[id - 1].(status := status, decidedAt := Some(now));
        if who.Some? { r := r.(decidedBy := who); }
        if note.Some? { r := r.(note := note); }
        if txHash.Some? { r := r.(txHash := txHash); }
        rows := rows[id - 1 := r];
      }
    }

    method ExpireStaleProposals(now: real) returns (moved: nat)
      modifies this
      ensures rows == ExpireStale(old(rows), now)
      ensures moved == |set i: nat | i < |old(rows)| && old(rows)[i] != rows[i]|
    {
      moved := |set i: nat | i < |rows| && Lapsed(rows[i], now) != rows[i]|;
      ghost var was := rows;
      rows := ExpireStale(rows, now);
      assert (set i: nat | i < |was| && was[i] != rows[i]) == set i: nat | i < |was| && Lapsed(was[i], now) != was[i];
    }

    method CountRecentProposals(since: real, scope: Scope) returns (n: nat)
      ensures n == |Recent(rows, scope, since)|
    {
      n := 0;
      for i := 0 to |rows|
        invariant n == |Recent(rows[..i], scope, since)|
      {
        RecentGrows(rows, scope, since, i);
        if rows[i].createdAt >= since && (scope == Everyone || scope == Only(rows[i].borrower)) { n := n + 1; }
      }
      assert rows[..|rows|] == rows;
    }
  }
}
