/** Every interleaving of approvals, rejections, insertions and expiry over the proposal table
    (backend/app/api/routes_agent.py).

    A handler is suspended before each store statement or service call it awaits; one step performs
    that statement and runs the handler to its next await. What the service answers is arbitrary. */
module Approval {
  import opened Arithmetic
  import opened Models
  import opened Store

  datatype Pc =
    | Reading                             // get_proposal
    | Revalidating(expiresAt: real)       // the fresh gate
    | WritingStale(noted: bool)           // finish STALE, with the note only after a gate refusal
    | WritingExpired                      // finish EXPIRED
    | Claiming                            // claim APPROVED
    | WritingApproved                     // finish APPROVED
    | Auditing                            // audit APPROVED; `protect` starts when it returns
    | Protecting                          // service.protect
    | WritingFailed                       // finish FAILED
    | WritingResult(submitted: bool, txHash: Option<string>)  // finish EXECUTED or FAILED
    | RejectReading | RejectClaiming | RejectWriting
    | Done

  datatype Handler = Handler(id: nat, who: string, note: Option<string>, acknowledge: bool, pc: Pc)

  /** What the awaited call answered, for the awaits whose answer matters. */
  datatype Reply =
    | Plain
    | Mandate(registered: bool)
    | Gate(allowed: bool)
    | Protected(submitted: bool, tx: Option<string>)
    | ProtectThrew

  /** What happened, in order. `h` is the handler, `id` the proposal. */
  datatype Event =
    | MandateSaid(h: nat, id: nat, registered: bool)
    | GateSaid(h: nat, id: nat, allowed: bool)
    | TtlPassed(h: nat, id: nat, at: real, expiresAt: real, acknowledged: bool)
    | Claimed(h: nat, id: nat, status: Status)
    | ProtectStarted(h: nat, id: nat)
    | ProtectEnded(h: nat, id: nat, submitted: bool)

  datatype System = System(rows: Table, now: real, handlers: map<nat, Handler>, log: seq<Event>)

  datatype Action =
    | Approve(h: nat, id: nat, who: string, note: Option<string>, acknowledge: bool)
    | Reject(h: nat, id: nat, who: string, note: Option<string>)
    | Go(h: nat, reply: Reply)
    | Die(h: nat)
    | Propose(runId: string, borrower: Address, ttl: real)
    | Expire
    | Advance(to: real)

  predicate Fits(pc: Pc, r: Reply) {
    match pc
    case Reading => r.Mandate?
    case Revalidating(_) => r.Gate?
    case Protecting => r.Protected? || r.ProtectThrew?
    case Done => false
    case _ => r.Plain?
  }

  predicate Enabled(s: System, a: Action) {
    match a
    case Approve(h, _, _, _, _) => h !in s.handlers
    case Reject(h, _, _, _) => h !in s.handlers
    case Go(h, reply) => h in s.handlers && Fits(s.handlers[h].pc, reply)
    case Die(h) => h in s.handlers
    case Advance(to) => to >= s.now
    case _ => true
  }

  /** One handler step: the table after it, where the handler goes, and what it did. */
  function Move(rows: Table, now: real, h: nat, f: Handler, r: Reply): (Table, Pc, seq<Event>)
    requires Fits(f.pc, r)
  {
    var id, who := f.id, Some(f.who);
    match f.pc
    case Reading =>
      if !Has(rows, id) || At(rows, id).status != Pending then (rows, Done, [])
      else if !r.registered then (rows, WritingStale(false), [MandateSaid(h, id, r.registered)])
      else (rows, Revalidating(At(rows, id).expiresAt), [MandateSaid(h, id, r.registered)])
    case WritingStale(noted) => (Finish(rows, id, Stale, who, if noted then f.note else None, None, now), Done, [])
    case Revalidating(expiresAt) =>
      if !r.allowed then (rows, WritingStale(true), [GateSaid(h, id, r.allowed)])
      else if now > expiresAt && !f.acknowledge then (rows, WritingExpired, [GateSaid(h, id, r.allowed)])
      else (rows, Claiming, [GateSaid(h, id, r.allowed), TtlPassed(h, id, now, expiresAt, f.acknowledge)])
    case WritingExpired => (Finish(rows, id, Expired, who, None, None, now), Done, [])
    case Claiming =>
      var (rows, won) := Claim(rows, id, Approved);
      if won then (rows, WritingApproved, [Claimed(h, id, Approved)]) else (rows, Done, [])
    case WritingApproved => (Finish(rows, id, Approved, who, f.note, None, now), Auditing, [])
    case Auditing => (rows, Protecting, [ProtectStarted(h, id)])
    case Protecting =>
      (match r
       case Protected(submitted, tx) => (rows, WritingResult(submitted, tx), [ProtectEnded(h, id, submitted)])
       case _ => (rows, WritingFailed, [ProtectEnded(h, id, false)]))
    case WritingFailed => (Finish(rows, id, Failed, None, Some("execution error"), None, now), Done, [])
    case WritingResult(submitted, tx) =>
      (Finish(rows, id, if submitted then Executed else Failed, None, None, tx, now), Done, [])
    case RejectReading => (rows, if Has(rows, id) then RejectClaiming else Done, [])
    case RejectClaiming =>
      var (rows, won) := Claim(rows, id, Rejected);
      if won then (rows, RejectWriting, [Claimed(h, id, Rejected)]) else (rows, Done, [])
    case RejectWriting => (Finish(rows, id, Rejected, who, f.note, None, now), Done, [])
  }

  function Step(s: System, a: Action): System {
    if !Enabled(s, a) then s else
    match a
    case Approve(h, id, who, note, ack) => s.(handlers := s.handlers[h := Handler(id, who, note, ack, Reading)])
    case Reject(h, id, who, note) => s.(handlers := s.handlers[h := Handler(id, who, note, false, RejectReading)])
    case Go(h, reply) =>
      var (rows, pc, events) := Move(s.rows, s.now, h, s.handlers[h], reply);
      s.(rows := rows, handlers := s.handlers[h := s.handlers[h].(pc := pc)], log := s.log + events)
    case Die(h) => s.(handlers := s.handlers[h := s.handlers[h].(pc := Done)])
    case Propose(runId, borrower, ttl) => s.(rows := Insert(s.rows, runId, borrower, ttl, s.now))
    case Expire => s.(rows := ExpireStale(s.rows, s.now))
    case Advance(to) => s.(now := to)
  }

  function Run(s: System, acts: seq<Action>): System
    decreases |acts|
  {
    if acts == [] then s else Run(Step(s, acts[0]), acts[1..])
  }

  predicate Initial(s: System) {
    s.handlers == map[] && s.log == []
  }

  // ---- PENDING is left once and for all ----------------------------------------------------

  /** Rows are only added, their creation data never changes, and no row becomes pending again. */
  ghost predicate Forward(t: Table, u: Table) {
    && |t| <= |u|
    && forall i :: 0 <= i < |t| ==>
         && (u[i].status == Pending ==> t[i].status == Pending)
         && u[i].borrower == t[i].borrower && u[i].createdAt == t[i].createdAt && u[i].expiresAt == t[i].expiresAt
  }

  lemma MoveForward(rows: Table, now: real, h: nat, f: Handler, r: Reply)
    requires Fits(f.pc, r)
    ensures Forward(rows, Move(rows, now, h, f, r).0)
  {
  }

  lemma StepForward(s: System, a: Action)
    ensures Forward(s.rows, Step(s, a).rows)
  {
    if a.Go? && Enabled(s, a) {
      MoveForward(s.rows, s.now, a.h, s.handlers[a.h], a.reply);
    }
  }

  lemma {:induction false} NeverPendingAgain(s: System, acts: seq<Action>)
    ensures Forward(s.rows, Run(s, acts).rows)
    decreases |acts|
  {
    if acts != [] {
      StepForward(s, acts[0]);
      NeverPendingAgain(Step(s, acts[0]), acts[1..]);
    }
  }

  // ---- One claim, one execution ------------------------------------------------------------

  /** The handler has won the claim and has not yet started, or has started, the execution. */
  predicate Won(pc: Pc) {
    pc.WritingApproved? || pc.Auditing?
  }

  /** Before position `n`, handler `h` heard its own gate allow `id`, then passed the age check. */
  ghost predicate Vetted(log: seq<Event>, n: nat, h: nat, id: nat) {
    exists i, j :: 0 <= i < j < n <= |log| && log[i] == GateSaid(h, id, true) && Passed(log[j], h, id)
  }

  predicate Passed(e: Event, h: nat, id: nat) {
    e.TtlPassed? && e.h == h && e.id == id && (e.at <= e.expiresAt || e.acknowledged)
  }

  /** Before position `n`, handler `h` won the claim on `id`, having been vetted before that. */
  ghost predicate Entitled(log: seq<Event>, n: nat, h: nat, id: nat) {
    exists k: nat :: k < n <= |log| && log[k] == Claimed(h, id, Approved) && Vetted(log, k, h, id)
  }

  /** A claimed proposal is no longer pending, so it is claimed once. */
  ghost predicate ClaimedOnce(s: System) {
    && (forall k :: 0 <= k < |s.log| && s.log[k].Claimed? ==>
          Has(s.rows, s.log[k].id) && At(s.rows, s.log[k].id).status != Pending)
    && (forall k, l :: 0 <= k < l < |s.log| && s.log[k].Claimed? && s.log[l].Claimed? ==> s.log[k].id != s.log[l].id)
  }

  /** Who is about to claim was vetted, who has won is entitled, and so was whoever started. */
  ghost predicate InOrder(s: System) {
    && (forall h :: h in s.handlers && s.handlers[h].pc.Claiming? ==> Vetted(s.log, |s.log|, h, s.handlers[h].id))
    && (forall h :: h in s.handlers && Won(s.handlers[h].pc) ==> Entitled(s.log, |s.log|, h, s.handlers[h].id))
    && (forall k: nat :: k < |s.log| && s.log[k].ProtectStarted? ==> Entitled(s.log, k, s.log[k].h, s.log[k].id))
  }

  /** A handler starts `protect` once. */
  ghost predicate StartedOnce(s: System) {
    && (forall k :: 0 <= k < |s.log| && s.log[k].ProtectStarted? ==>
          s.log[k].h in s.handlers && After(s.handlers[s.log[k].h].pc))
    && (forall k, l :: 0 <= k < l < |s.log| && s.log[k].ProtectStarted? && s.log[l].ProtectStarted? ==>
          s.log[k].h != s.log[l].h)
  }

  ghost predicate Inv(s: System) {
    ClaimedOnce(s) && InOrder(s) && StartedOnce(s)
  }

  /** Where a handler that has started `protect` can be. */
  predicate After(pc: Pc) {
    pc.Protecting? || pc.WritingFailed? || pc.WritingResult? || pc.Done?
  }

  lemma VettedGrows(log: seq<Event>, n: nat, more: seq<Event>, m: nat, h: nat, id: nat)
    requires Vetted(log, n, h, id) && n <= m <= |log + more|
    ensures Vetted(log + more, m, h, id)
  {
    var i, j :| 0 <= i < j < n <= |log| && log[i] == GateSaid(h, id, true) && Passed(log[j], h, id);
    assert (log + more)[i] == log[i] && (log + more)[j] == log[j];
  }

  lemma EntitledGrows(log: seq<Event>, n: nat, more: seq<Event>, m: nat, h: nat, id: nat)
    requires Entitled(log, n, h, id) && n <= m <= |log + more|
    ensures Entitled(log + more, m, h, id)
  {
    var k: nat :| k < n <= |log| && log[k] == Claimed(h, id, Approved) && Vetted(log, k, h, id);
    VettedGrows(log, k, more, k, h, id);
    assert (log + more)[k] == log[k];
  }

  /** The shared half of the step: everything known before still holds over a longer log. */
  ghost predicate Kept(s: System, t: System, h: nat) {
    && s.log <= t.log
    && (forall k: nat :: k < |s.log| && s.log[k].ProtectStarted? ==> Entitled(t.log, k, s.log[k].h, s.log[k].id))
    && (forall i :: i != h && i in s.handlers && s.handlers[i].pc.Claiming? ==> Vetted(t.log, |t.log|, i, s.handlers[i].id))
    && (forall i :: i != h && i in s.handlers && Won(s.handlers[i].pc) ==> Entitled(t.log, |t.log|, i, s.handlers[i].id))
  }

  lemma GoKeeps(s: System, h: nat, reply: Reply)
    requires InOrder(s) && Enabled(s, Go(h, reply))
    ensures Kept(s, Step(s, Go(h, reply)), h)
  {
  }

  lemma GoInOrder(s: System, h: nat, reply: Reply)
    requires InOrder(s) && Enabled(s, Go(h, reply))
    ensures InOrder(Step(s, Go(h, reply)))
  {
    var t, f := Step(s, Go(h, reply)), s.handlers[h];
    var (rows, pc, more) := Move(s.rows, s.now, h, f, reply);
    assert t.log == s.log + more;
    GoKeeps(s, h, reply);
    match f.pc {
      case Revalidating(_) =>
        if pc.Claiming? {
          assert t.log[|s.log|] == GateSaid(h, f.id, true) && Passed(t.log[|s.log| + 1], h, f.id);
        }
      case Claiming =>
        if pc.WritingApproved? {
          VettedGrows(s.log, |s.log|, more, |s.log|, h, f.id);
          assert t.log[|s.log|] == Claimed(h, f.id, Approved);
        }
      case WritingApproved => EntitledGrows(s.log, |s.log|, more, |t.log|, h, f.id);
      case Auditing => EntitledGrows(s.log, |s.log|, more, |s.log|, h, f.id);
      case _ =>
    }
  }

  lemma GoClaimedOnce(s: System, h: nat, reply: Reply)
    requires ClaimedOnce(s) && Enabled(s, Go(h, reply))
    ensures ClaimedOnce(Step(s, Go(h, reply)))
  {
    var t, f := Step(s, Go(h, reply)), s.handlers[h];
    StepForward(s, Go(h, reply));
    ClaimOrNot(s.rows, s.now, h, f, reply);
  }

  lemma ClaimOrNot(rows: Table, now: real, h: nat, f: Handler, r: Reply)
    requires Fits(f.pc, r)
    ensures var (rows', _, events) := Move(rows, now, h, f, r);
            (forall k :: 0 <= k < |events| ==> !events[k].Claimed?)
            || (|events| == 1 && events[0].Claimed? && events[0].id == f.id
                && Has(rows, f.id) && At(rows, f.id).status == Pending && At(rows', f.id).status != Pending)
    ensures |Move(rows, now, h, f, r).0| == |rows|
  {
  }

  lemma GoStartedOnce(s: System, h: nat, reply: Reply)
    requires StartedOnce(s) && Enabled(s, Go(h, reply))
    ensures StartedOnce(Step(s, Go(h, reply)))
  {
  }

  lemma StepInv(s: System, a: Action)
    requires Inv(s)
    ensures Inv(Step(s, a))
  {
    if a.Go? && Enabled(s, a) {
      GoInOrder(s, a.h, a.reply);
      GoClaimedOnce(s, a.h, a.reply);
      GoStartedOnce(s, a.h, a.reply);
    } else {
      StepForward(s, a);
    }
  }

  lemma {:induction false} RunInv(s: System, acts: seq<Action>)
    requires Inv(s)
    ensures Inv(Run(s, acts))
    decreases |acts|
  {
    if acts != [] {
      StepInv(s, acts[0]);
      RunInv(Step(s, acts[0]), acts[1..]);
    }
  }

  /** In every run: a proposal is claimed at most once, across approvers and rejecters; it is executed
      at most once; whoever executed it had won that claim as an approver, after its own gate verdict
      allowed the proposal and its age was in time or knowingly overridden; and so no executed proposal
      was ever rejected by a claim. */
  lemma OneExecution(s: System, acts: seq<Action>)
    requires Initial(s)
    ensures var log := Run(s, acts).log;
            && (forall k, l :: 0 <= k < l < |log| && log[k].Claimed? && log[l].Claimed? ==> log[k].id != log[l].id)
            && (forall k, l :: 0 <= k < l < |log| && log[k].ProtectStarted? && log[l].ProtectStarted? ==>
                  log[k].id != log[l].id)
            && (forall k: nat :: k < |log| && log[k].ProtectStarted? ==> Entitled(log, k, log[k].h, log[k].id))
            && (forall k, l | 0 <= k < |log| && 0 <= l < |log| && log[k].ProtectStarted? && log[l].Claimed?
                              && log[l].id == log[k].id :: log[l].status == Approved && log[l].h == log[k].h)
  {
    RunInv(s, acts);
    var log := Run(s, acts).log;
    forall k: nat, l | k < |log| && 0 <= l < |log| && log[k].ProtectStarted? && log[l].Claimed? && log[l].id == log[k].id
      ensures log[l].status == Approved && log[l].h == log[k].h
    {
      var c: nat :| c < k <= |log| && log[c] == Claimed(log[k].h, log[k].id, Approved);
      assert c == l;
    }
  }

  // ---- What the log says of the table --------------------------------------------------------

  /** The age a handler checks is its proposal's own. */
  ghost predicate TrueAge(s: System) {
    && (forall h :: h in s.handlers && s.handlers[h].pc.Revalidating? ==>
          Has(s.rows, s.handlers[h].id) && s.handlers[h].pc.expiresAt == At(s.rows, s.handlers[h].id).expiresAt)
    && (forall k :: 0 <= k < |s.log| && s.log[k].TtlPassed? ==>
          Has(s.rows, s.log[k].id) && s.log[k].expiresAt == At(s.rows, s.log[k].id).expiresAt && s.log[k].at <= s.now)
  }

  predicate Started(log: seq<Event>, h: nat, id: nat) {
    exists k :: 0 <= k < |log| && log[k] == ProtectStarted(h, id)
  }

  ghost predicate SomeoneStarted(log: seq<Event>, id: nat) {
    exists h :: Started(log, h, id)
  }

  /** Who is executing has started, and nothing is EXECUTED that nobody started. */
  ghost predicate Backed(first: Table, s: System) {
    && (forall h :: h in s.handlers && (s.handlers[h].pc.Protecting? || s.handlers[h].pc.WritingResult?) ==>
          Started(s.log, h, s.handlers[h].id))
    && (forall id: nat :: Has(s.rows, id) && At(s.rows, id).status == Executed ==>
          (Has(first, id) && At(first, id).status == Executed) || SomeoneStarted(s.log, id))
  }

  lemma StarterClaimed(s: System, h: nat, id: nat) returns (c: nat)
    requires InOrder(s) && Started(s.log, h, id)
    ensures c < |s.log| && s.log[c] == Claimed(h, id, Approved)
  {
    var k: nat :| k < |s.log| && s.log[k] == ProtectStarted(h, id);
    assert Entitled(s.log, k, h, id);
    c :| c < k && s.log[c] == Claimed(h, id, Approved);
  }

  /** One approver starts a proposal. */
  lemma StartersAgree(s: System, h: nat, i: nat, id: nat)
    requires Inv(s) && Started(s.log, h, id) && Started(s.log, i, id)
    ensures h == i
  {
    var c := StarterClaimed(s, h, id);
    var d := StarterClaimed(s, i, id);
    assert !(c < d) && !(d < c);
  }

  lemma StepTrueAge(s: System, a: Action)
    requires TrueAge(s)
    ensures TrueAge(Step(s, a))
  {
    StepForward(s, a);
  }

  lemma StartedGrows(log: seq<Event>, more: seq<Event>, h: nat, id: nat)
    requires Started(log, h, id)
    ensures Started(log + more, h, id)
  {
    var k :| 0 <= k < |log| && log[k] == ProtectStarted(h, id);
    assert (log + more)[k] == log[k];
  }

  lemma GoBacked(first: Table, s: System, h: nat, reply: Reply)
    requires Backed(first, s) && Enabled(s, Go(h, reply))
    ensures Backed(first, Step(s, Go(h, reply)))
  {
    var t, f := Step(s, Go(h, reply)), s.handlers[h];
    var (rows, pc, more) := Move(s.rows, s.now, h, f, reply);
    forall i, id | Started(s.log, i, id)
      ensures Started(t.log, i, id)
    {
      StartedGrows(s.log, more, i, id);
    }
    if pc.Protecting? { assert t.log[|s.log|] == ProtectStarted(h, f.id); }
    forall id: nat | Has(t.rows, id) && At(t.rows, id).status == Executed
      ensures (Has(first, id) && At(first, id).status == Executed) || SomeoneStarted(t.log, id)
    {
      if Has(s.rows, id) && At(s.rows, id).status == Executed {
        if SomeoneStarted(s.log, id) {
          var i :| Started(s.log, i, id);
          assert Started(t.log, i, id);
        }
      } else {
        assert id == f.id && f.pc.WritingResult?;
        assert Started(t.log, h, id);
      }
    }
  }

  lemma StepBacked(first: Table, s: System, a: Action)
    requires Backed(first, s)
    ensures Backed(first, Step(s, a))
  {
    if a.Go? && Enabled(s, a) {
      GoBacked(first, s, a.h, a.reply);
    }
  }

  lemma {:induction false} RunBacked(first: Table, s: System, acts: seq<Action>)
    requires Backed(first, s) && TrueAge(s)
    ensures Backed(first, Run(s, acts)) && TrueAge(Run(s, acts))
    decreases |acts|
  {
    if acts != [] {
      StepBacked(first, s, acts[0]);
      StepTrueAge(s, acts[0]);
      RunBacked(first, Step(s, acts[0]), acts[1..]);
    }
  }

  /** In every run, a proposal that has become EXECUTED was started by a handler entitled to, and the
      age that handler passed is the proposal's own. */
  lemma ExecutedWasEntitled(s: System, acts: seq<Action>, id: nat)
    requires Initial(s) && (Has(s.rows, id) ==> At(s.rows, id).status != Executed)
    requires Has(Run(s, acts).rows, id) && At(Run(s, acts).rows, id).status == Executed
    ensures var t := Run(s, acts);
            && (exists h, k: nat :: k < |t.log| && t.log[k] == ProtectStarted(h, id) && Entitled(t.log, k, h, id))
            && (forall k :: 0 <= k < |t.log| && t.log[k].TtlPassed? && t.log[k].id == id ==>
                  t.log[k].expiresAt == At(t.rows, id).expiresAt)
  {
    RunBacked(s.rows, s, acts);
    RunInv(s, acts);
    var log := Run(s, acts).log;
    var h :| Started(log, h, id);
    var k :| 0 <= k < |log| && log[k] == ProtectStarted(h, id);
    assert Entitled(log, k, h, id);
  }

  // ---- Why a row has the status it has ----------------------------------------------------------

  /** What must have happened for a proposal to be given this status. */
  ghost predicate Warranted(log: seq<Event>, id: nat, status: Status, expiresAt: real, now: real) {
    match status
    case Pending => true
    case Approved => exists h :: Claimed(h, id, Approved) in log
    case Rejected => exists h :: Claimed(h, id, Rejected) in log
    case Executed => exists h :: ProtectEnded(h, id, true) in log
    case Failed => exists h :: ProtectEnded(h, id, false) in log
    case Stale => exists h :: GateSaid(h, id, false) in log || MandateSaid(h, id, false) in log
    case Expired => now > expiresAt
  }

  /** A handler about to write has its warrant. */
  ghost predicate Prepared(s: System, h: nat)
    requires h in s.handlers
  {
    var id, log := s.handlers[h].id, s.log;
    match s.handlers[h].pc
    case WritingStale(noted) => if noted then GateSaid(h, id, false) in log else MandateSaid(h, id, false) in log
    case WritingExpired => Has(s.rows, id) && s.now > At(s.rows, id).expiresAt
    case WritingApproved => Claimed(h, id, Approved) in log
    case WritingFailed => ProtectEnded(h, id, false) in log
    case WritingResult(submitted, _) => ProtectEnded(h, id, submitted) in log
    case RejectWriting => Claimed(h, id, Rejected) in log
    case _ => true
  }

  ghost predicate Explained(first: Table, s: System) {
    && (forall h :: h in s.handlers ==> Prepared(s, h))
    && (forall id: nat :: Has(s.rows, id) ==> RowExplained(first, s, id))
  }

  /** The row's status is warranted, or as it was at the start. */
  ghost predicate RowExplained(first: Table, s: System, id: nat)
    requires Has(s.rows, id)
  {
    var row := At(s.rows, id);
    Warranted(s.log, id, row.status, row.expiresAt, s.now) || (Has(first, id) && At(first, id).status == row.status)
  }

  lemma WarrantStays(log: seq<Event>, more: seq<Event>, id: nat, status: Status, expiresAt: real, now: real, later: real)
    requires Warranted(log, id, status, expiresAt, now) && now <= later
    ensures Warranted(log + more, id, status, expiresAt, later)
  {
  }

  /** What one handler step does to a row: nothing, or its own write with a warrant. */
  lemma MoveWarranted(s: System, h: nat, reply: Reply, id: nat)
    requires Enabled(s, Go(h, reply)) && Prepared(s, h) && Has(s.rows, id)
    ensures var t := Step(s, Go(h, reply));
            var row := At(t.rows, id);
            row.status == At(s.rows, id).status || Warranted(t.log, id, row.status, row.expiresAt, t.now)
  {
    var t, f := Step(s, Go(h, reply)), s.handlers[h];
    var more := Move(s.rows, s.now, h, f, reply).2;
    assert t.log == s.log + more;
    if f.pc.Claiming? || f.pc.RejectClaiming? {
      assert more != [] ==> more[0] in t.log;
    }
  }

  lemma GoPrepared(s: System, h: nat, reply: Reply, i: nat)
    requires Enabled(s, Go(h, reply)) && TrueAge(s) && i in s.handlers && Prepared(s, i)
    ensures Prepared(Step(s, Go(h, reply)), i)
  {
    var t, f := Step(s, Go(h, reply)), s.handlers[h];
    var more := Move(s.rows, s.now, h, f, reply).2;
    StepForward(s, Go(h, reply));
    assert t.log == s.log + more;
    if i == h {
      assert forall k :: 0 <= k < |more| ==> more[k] in t.log;
    } else {
      assert t.handlers[i] == s.handlers[i];
      assert forall e :: e in s.log ==> e in t.log;
    }
  }

  lemma GoExplained(first: Table, s: System, h: nat, reply: Reply)
    requires Explained(first, s) && TrueAge(s) && Enabled(s, Go(h, reply))
    ensures Explained(first, Step(s, Go(h, reply)))
  {
    var t := Step(s, Go(h, reply));
    var more := Move(s.rows, s.now, h, s.handlers[h], reply).2;
    StepForward(s, Go(h, reply));
    forall i | i in t.handlers
      ensures Prepared(t, i)
    {
      GoPrepared(s, h, reply, i);
    }
    ClaimOrNot(s.rows, s.now, h, s.handlers[h], reply);
    forall id: nat | Has(t.rows, id)
      ensures RowExplained(first, t, id)
    {
      assert RowExplained(first, s, id);
      MoveWarranted(s, h, reply, id);
      var row := At(s.rows, id);
      if Warranted(s.log, id, row.status, row.expiresAt, s.now) {
        WarrantStays(s.log, more, id, row.status, row.expiresAt, s.now, t.now);
      }
    }
  }

  lemma OtherPrepared(s: System, a: Action, i: nat)
    requires !a.Go? && i in s.handlers && Prepared(s, i)
    ensures i in Step(s, a).handlers && Prepared(Step(s, a), i)
  {
    StepForward(s, a);
  }

  lemma OtherExplained(first: Table, s: System, a: Action)
    requires Explained(first, s) && !a.Go?
    ensures Explained(first, Step(s, a))
  {
    var t := Step(s, a);
    StepForward(s, a);
    forall i | i in t.handlers
      ensures Prepared(t, i)
    {
      if i in s.handlers { OtherPrepared(s, a, i); }
    }
    forall id: nat | Has(t.rows, id)
      ensures RowExplained(first, t, id)
    {
      if Has(s.rows, id) {
        var row := At(s.rows, id);
        assert RowExplained(first, s, id);
        if Warranted(s.log, id, row.status, row.expiresAt, s.now) {
          assert s.log + [] == s.log;
          WarrantStays(s.log, [], id, row.status, row.expiresAt, s.now, t.now);
        }
      }
    }
  }

  lemma {:induction false} RunExplained(first: Table, s: System, acts: seq<Action>)
    requires Explained(first, s) && TrueAge(s)
    ensures Explained(first, Run(s, acts)) && TrueAge(Run(s, acts))
    decreases |acts|
  {
    if acts != [] {
      var a := acts[0];
      if a.Go? && Enabled(s, a) {
        GoExplained(first, s, a.h, a.reply);
      } else if !a.Go? {
        OtherExplained(first, s, a);
      }
      StepTrueAge(s, a);
      RunExplained(first, Step(s, a), acts[1..]);
    }
  }

  /** In every run, every status a row has been given has its warrant at that very moment: EXPIRED comes
      after the row's own expiry; STALE after some approver's gate refused it or found no mandate; EXECUTED
      and FAILED after a `protect` for it that did or did not submit; APPROVED and REJECTED after a claim. */
  lemma StatusIsWarranted(s: System, acts: seq<Action>, id: nat)
    requires Initial(s) && Has(Run(s, acts).rows, id)
    ensures var t := Run(s, acts);
            var row := At(t.rows, id);
            || Warranted(t.log, id, row.status, row.expiresAt, t.now)
            || (Has(s.rows, id) && At(s.rows, id).status == row.status)
  {
    RunExplained(s.rows, s, acts);
    assert RowExplained(s.rows, Run(s, acts), id);
  }

  // ---- Where a handler goes ---------------------------------------------------------------------

  /** After its gate's answer an approver goes on to claim exactly when the gate allowed the proposal and it
      is in time or knowingly overridden; it is about to write EXPIRED exactly when it was allowed but late,
      and STALE exactly when it was refused. */
  lemma {:induction false} ClaimsWhen(s: System, acts: seq<Action>, h: nat, allowed: bool)
    requires Initial(s)
    requires var t := Run(s, acts); h in t.handlers && t.handlers[h].pc.Revalidating?
    ensures var t := Run(s, acts);
            var f, pc := t.handlers[h], Step(t, Go(h, Gate(allowed))).handlers[h].pc;
            && Has(t.rows, f.id)
            && var inTime := t.now <= At(t.rows, f.id).expiresAt || f.acknowledge;
               && (pc == Claiming <==> allowed && inTime)
               && (pc == WritingExpired <==> allowed && !inTime)
               && (pc == WritingStale(true) <==> !allowed)
  {
    RunExplained(s.rows, s, acts);
  }

  /** An approver that reads the proposal goes to its gate exactly when it is pending under a registered
      mandate; about to write STALE exactly when it is pending under none; otherwise it is turned away. */
  lemma ReadsWhen(s: System, h: nat, registered: bool)
    requires h in s.handlers && s.handlers[h].pc == Reading
    ensures var t := Step(s, Go(h, Mandate(registered)));
            var pending := Has(s.rows, s.handlers[h].id) && At(s.rows, s.handlers[h].id).status == Pending;
            && t.rows == s.rows
            && (t.handlers[h].pc.Revalidating? <==> pending && registered)
            && (t.handlers[h].pc == WritingStale(false) <==> pending && !registered)
            && (t.handlers[h].pc == Done <==> !pending)
  {
  }

  // ---- When a decision is final ------------------------------------------------------------

  /** A handler that read the proposal as pending and may still write its verdict. */
  predicate Writer(pc: Pc) {
    match pc
    case Reading => false
    case Claiming => false
    case RejectReading => false
    case RejectClaiming => false
    case Done => false
    case _ => true
  }

  /** The proposal left PENDING and no such handler is still alive for it. */
  predicate Settled(s: System, id: nat) {
    && Has(s.rows, id) && At(s.rows, id).status != Pending
    && forall h :: h in s.handlers && s.handlers[h].id == id ==> !Writer(s.handlers[h].pc)
  }

  lemma StepSettled(s: System, a: Action, id: nat)
    requires Settled(s, id)
    ensures Settled(Step(s, a), id) && At(Step(s, a).rows, id) == At(s.rows, id)
  {
  }

  lemma {:induction false} SettledIsFinal(s: System, acts: seq<Action>, id: nat)
    requires Settled(s, id)
    ensures var t := Run(s, acts); Has(t.rows, id) && At(t.rows, id) == At(s.rows, id)
    decreases |acts|
  {
    if acts != [] {
      StepSettled(s, acts[0], id);
      SettledIsFinal(Step(s, acts[0]), acts[1..], id);
    }
  }

  ghost predicate CanChange(s: System, id: nat)
    requires Has(s.rows, id)
  {
    exists acts :: Has(Run(s, acts).rows, id) && At(Run(s, acts).rows, id) != At(s.rows, id)
  }

  lemma {:induction false} RunTwo(s: System, a: Action, b: Action)
    ensures Run(s, [a, b]) == Step(Step(s, a), b)
  {
    assert [a, b][1..] == [b];
    assert [b][1..] == [];
    assert Run(Step(s, a), [b]) == Run(Step(Step(s, a), b), []);
  }

  lemma {:induction false} StepCanChange(s: System, a: Action, id: nat)
    requires Has(s.rows, id) && Step(s, a).rows == s.rows && CanChange(Step(s, a), id)
    ensures CanChange(s, id)
  {
    var acts :| Has(Run(Step(s, a), acts).rows, id) && At(Run(Step(s, a), acts).rows, id) != At(s.rows, id);
    assert ([a] + acts)[1..] == acts;
    assert Run(s, [a] + acts) == Run(Step(s, a), acts);
  }

  /** Steps until the handler can write. */
  function Rank(pc: Pc): nat {
    if pc.Auditing? then 2 else if pc.Protecting? || pc.Revalidating? then 1 else 0
  }

  lemma {:induction false} WriterCanChange(s: System, h: nat)
    requires h in s.handlers && Writer(s.handlers[h].pc) && Has(s.rows, s.handlers[h].id)
    ensures CanChange(s, s.handlers[h].id)
    decreases Rank(s.handlers[h].pc), 1
  {
    var f := s.handlers[h];
    if f.pc.Revalidating? {
      ReplyCanChange(s, h, Gate(false));
    } else if f.pc.Auditing? {
      ReplyCanChange(s, h, Plain);
    } else if f.pc.Protecting? {
      ReplyCanChange(s, h, ProtectThrew);
    } else {
      var later := if At(s.rows, f.id).decidedAt == Some(s.now + 1.0) then s.now + 2.0 else s.now + 1.0;
      var t := Step(Step(s, Advance(later)), Go(h, Plain));
      assert At(t.rows, f.id).decidedAt == Some(later);
      RunTwo(s, Advance(later), Go(h, Plain));
    }
  }

  lemma {:induction false} ReplyCanChange(s: System, h: nat, r: Reply)
    requires h in s.handlers && Has(s.rows, s.handlers[h].id)
    requires var pc := s.handlers[h].pc; (pc.Revalidating? && r == Gate(false)) || (pc.Auditing? && r == Plain)
                                         || (pc.Protecting? && r == ProtectThrew)
    ensures CanChange(s, s.handlers[h].id)
    decreases Rank(s.handlers[h].pc), 0
  {
    WriterCanChange(Step(s, Go(h, r)), h);
    StepCanChange(s, Go(h, r), s.handlers[h].id);
  }

  lemma {:induction false} PendingCanChange(s: System, id: nat)
    requires Has(s.rows, id) && At(s.rows, id).status == Pending
    ensures CanChange(s, id)
  {
    var e := At(s.rows, id).expiresAt;
    var later := if e < s.now then s.now else e + 1.0;
    var t := Step(Step(s, Advance(later)), Expire);
    assert At(t.rows, id).status == Expired;
    RunTwo(s, Advance(later), Expire);
  }

  /** `finish_proposal` has no status guard, so EXECUTED, REJECTED and the rest are not final by
      themselves: a row's decision can still be overwritten in some run exactly when it is pending or a
      handler that once read it as pending is still alive. */
  lemma FinalIffSettled(s: System, id: nat)
    requires Has(s.rows, id)
    ensures CanChange(s, id) <==> !Settled(s, id)
  {
    if Settled(s, id) {
      forall acts
        ensures Has(Run(s, acts).rows, id) && At(Run(s, acts).rows, id) == At(s.rows, id)
      {
        SettledIsFinal(s, acts, id);
      }
    } else if At(s.rows, id).status == Pending {
      PendingCanChange(s, id);
    } else {
      var h :| h in s.handlers && s.handlers[h].id == id && Writer(s.handlers[h].pc);
      WriterCanChange(s, h);
    }
  }

  lemma {:induction false} RunSnoc(s: System, acts: seq<Action>, a: Action)
    ensures Run(s, acts + [a]) == Step(Run(s, acts), a)
    decreases |acts|
  {
    if acts == [] {
      RunOne(s, a);
    } else {
      assert (acts + [a])[1..] == acts[1..] + [a];
      RunSnoc(Step(s, acts[0]), acts[1..], a);
    }
  }

  lemma {:induction false} RunOne(s: System, a: Action)
    ensures Run(s, [] + [a]) == Step(s, a)
  {
  }

  /** One more action of a run that stands at `t`. */
  lemma Then(s: System, acts: seq<Action>, t: System, a: Action) returns (longer: seq<Action>, u: System)
    requires Run(s, acts) == t
    ensures longer == acts + [a] && u == Step(t, a) && Run(s, longer) == u
  {
    RunSnoc(s, acts, a);
    longer, u := acts + [a], Step(t, a);
  }

  lemma ReadsPending(s: System, acts: seq<Action>, t: System, h: nat, id: nat) returns (longer: seq<Action>, u: System)
    requires Run(s, acts) == t && h !in t.handlers
    requires Has(t.rows, id) && At(t.rows, id).status == Pending
    ensures Run(s, longer) == u && u.rows == t.rows && u.now == t.now
    ensures u.handlers == t.handlers[h := Handler(id, "", None, true, Revalidating(At(t.rows, id).expiresAt))]
  {
    var mid;
    longer, mid := Then(s, acts, t, Approve(h, id, "", None, true));
    longer, u := Then(s, longer, mid, Go(h, Mandate(true)));
  }

  lemma ClaimsAndStarts(s: System, acts: seq<Action>, t: System, h: nat, id: nat) returns (longer: seq<Action>, u: System)
    requires Run(s, acts) == t && Has(t.rows, id) && At(t.rows, id).status == Pending
    requires h in t.handlers && t.handlers[h] == Handler(id, "", None, true, Revalidating(At(t.rows, id).expiresAt))
    ensures Run(s, longer) == u && Has(u.rows, id)
    ensures u.handlers == t.handlers[h := t.handlers[h].(pc := Auditing)]
  {
    var a, b;
    longer, a := Then(s, acts, t, Go(h, Gate(true)));
    longer, b := Then(s, longer, a, Go(h, Plain));
    longer, u := Then(s, longer, b, Go(h, Plain));
  }

  lemma Executes(s: System, acts: seq<Action>, t: System, h: nat, id: nat) returns (longer: seq<Action>, u: System)
    requires Run(s, acts) == t && Has(t.rows, id)
    requires h in t.handlers && t.handlers[h].id == id && t.handlers[h].pc == Auditing
    ensures Run(s, longer) == u && Has(u.rows, id) && At(u.rows, id).status == Executed
    ensures u.handlers == t.handlers[h := t.handlers[h].(pc := Done)]
  {
    var a, b;
    longer, a := Then(s, acts, t, Go(h, Plain));
    longer, b := Then(s, longer, a, Go(h, Protected(true, None)));
    longer, u := Then(s, longer, b, Go(h, Plain));
  }

  lemma Overwrites(s: System, acts: seq<Action>, t: System, h: nat, id: nat)
    requires Run(s, acts) == t && Has(t.rows, id)
    requires h in t.handlers && t.handlers[h].id == id && t.handlers[h].pc.Revalidating?
    ensures exists more :: Has(Run(s, acts + more).rows, id) && At(Run(s, acts + more).rows, id).status == Stale
  {
    var all, u := Then(s, acts, t, Go(h, Gate(false)));
    all, u := Then(s, all, u, Go(h, Plain));
    assert all == acts + [Go(h, Gate(false)), Go(h, Plain)];
  }

  /** Such an overwrite does happen: two approvers read the same pending proposal, one executes it,
      and the other, refused by its own later gate, then marks the executed proposal STALE. */
  lemma ExecutedIsNotFinal(s: System, id: nat)
    requires Initial(s) && Has(s.rows, id) && At(s.rows, id).status == Pending
    ensures exists acts, more ::
              && Has(Run(s, acts).rows, id) && At(Run(s, acts).rows, id).status == Executed
              && Has(Run(s, acts + more).rows, id) && At(Run(s, acts + more).rows, id).status == Stale
  {
    var acts, t := ReadsPending(s, [], s, 0, id);
    acts, t := ReadsPending(s, acts, t, 1, id);
    acts, t := ClaimsAndStarts(s, acts, t, 0, id);
    acts, t := Executes(s, acts, t, 0, id);
    Overwrites(s, acts, t, 1, id);
  }

  // ---- Undisturbed handlers, from request to answer -----------------------------------------------

  /** Two actions more. */
  lemma Then2(s: System, acts: seq<Action>, t: System, a: Action, b: Action) returns (longer: seq<Action>, u: System)
    requires Run(s, acts) == t
    ensures longer == acts + [a, b] && u == Step(Step(t, a), b) && Run(s, longer) == u
  {
    RunSnoc(s, acts, a);
    RunSnoc(s, acts + [a], b);
    longer, u := acts + [a, b], Step(Step(t, a), b);
    assert acts + [a] + [b] == longer;
  }

  lemma Asks(s: System, h: nat, id: nat, who: string, note: Option<string>, acknowledge: bool, registered: bool)
    returns (t: System)
    requires h !in s.handlers && Has(s.rows, id) && At(s.rows, id).status == Pending
    ensures Run(s, [Approve(h, id, who, note, acknowledge), Go(h, Mandate(registered))]) == t
    ensures t.rows == s.rows && t.now == s.now
    ensures t.handlers == s.handlers[h := Handler(id, who, note, acknowledge,
                                                  if registered then Revalidating(At(s.rows, id).expiresAt) else WritingStale(false))]
  {
    var acts;
    acts, t := Then2(s, [], s, Approve(h, id, who, note, acknowledge), Go(h, Mandate(registered)));
    assert acts == [Approve(h, id, who, note, acknowledge), Go(h, Mandate(registered))];
  }

  function Decided(r: Row, status: Status, now: real, who: string, note: Option<string>, tx: Option<string>): Row {
    r.(status := status, decidedAt := Some(now), decidedBy := Some(who),
       note := if note.Some? then note else r.note, txHash := if tx.Some? then tx else r.txHash)
  }

  /** Nothing but this row changed. */
  ghost predicate Only1(t: Table, u: Table, id: nat, row: Row)
    requires Has(t, id)
  {
    u == t[id - 1 := row]
  }

  /** A pending proposal whose borrower's mandate is gone becomes STALE. */
  lemma UnregisteredGoesStale(s: System, h: nat, id: nat, who: string, note: Option<string>, acknowledge: bool)
    requires h !in s.handlers && Has(s.rows, id) && At(s.rows, id).status == Pending
    ensures var acts := [Approve(h, id, who, note, acknowledge), Go(h, Mandate(false)), Go(h, Plain)];
            Only1(s.rows, Run(s, acts).rows, id, Decided(At(s.rows, id), Stale, s.now, who, None, None))
  {
    var t := Asks(s, h, id, who, note, acknowledge, false);
    var acts, u := Then(s, [Approve(h, id, who, note, acknowledge), Go(h, Mandate(false))], t, Go(h, Plain));
    assert acts == [Approve(h, id, who, note, acknowledge), Go(h, Mandate(false)), Go(h, Plain)];
  }

  /** A refusal of its gate makes a pending proposal STALE, with the approver's note. */
  lemma RefusedGoesStale(s: System, h: nat, id: nat, who: string, note: Option<string>, acknowledge: bool)
    requires h !in s.handlers && Has(s.rows, id) && At(s.rows, id).status == Pending
    ensures var acts := [Approve(h, id, who, note, acknowledge), Go(h, Mandate(true)), Go(h, Gate(false)), Go(h, Plain)];
            Only1(s.rows, Run(s, acts).rows, id, Decided(At(s.rows, id), Stale, s.now, who, note, None))
  {
    var t := Asks(s, h, id, who, note, acknowledge, true);
    var asked := [Approve(h, id, who, note, acknowledge), Go(h, Mandate(true))];
    var acts, u := Then2(s, asked, t, Go(h, Gate(false)), Go(h, Plain));
    assert acts == [Approve(h, id, who, note, acknowledge), Go(h, Mandate(true)), Go(h, Gate(false)), Go(h, Plain)];
  }

  /** An allowed approval that comes late, without acknowledgement, makes the proposal EXPIRED. */
  lemma LateGoesExpired(s: System, h: nat, id: nat, who: string, note: Option<string>)
    requires h !in s.handlers && Has(s.rows, id) && At(s.rows, id).status == Pending && s.now > At(s.rows, id).expiresAt
    ensures var acts := [Approve(h, id, who, note, false), Go(h, Mandate(true)), Go(h, Gate(true)), Go(h, Plain)];
            Only1(s.rows, Run(s, acts).rows, id, Decided(At(s.rows, id), Expired, s.now, who, None, None))
  {
    var t := Asks(s, h, id, who, note, false, true);
    var asked := [Approve(h, id, who, note, false), Go(h, Mandate(true))];
    var acts, u := Then2(s, asked, t, Go(h, Gate(true)), Go(h, Plain));
    assert acts == [Approve(h, id, who, note, false), Go(h, Mandate(true)), Go(h, Gate(true)), Go(h, Plain)];
  }

  /** The claim and the decision of an approver in time, up to the audit. */
  lemma Claims(s: System, acts: seq<Action>, t: System, h: nat) returns (longer: seq<Action>, u: System)
    requires Run(s, acts) == t && h in t.handlers && t.handlers[h].pc.Revalidating?
    requires var f := t.handlers[h];
             && Has(t.rows, f.id) && At(t.rows, f.id).status == Pending
             && (t.now <= f.pc.expiresAt || f.acknowledge)
    ensures longer == acts + [Go(h, Gate(true)), Go(h, Plain)] + [Go(h, Plain), Go(h, Plain)] && Run(s, longer) == u
    ensures u.now == t.now && u.handlers == t.handlers[h := t.handlers[h].(pc := Protecting)]
    ensures var f := t.handlers[h];
            Only1(t.rows, u.rows, f.id, Decided(At(t.rows, f.id), Approved, t.now, f.who, f.note, None))
  {
    longer, u := Then2(s, acts, t, Go(h, Gate(true)), Go(h, Plain));
    longer, u := Then2(s, longer, u, Go(h, Plain), Go(h, Plain));
  }

  /** From any pending proposal in time, or knowingly overridden, an approver that nobody disturbs claims it,
      executes it once and records how that ended: EXECUTED with its transaction if submitted, else FAILED. */
  lemma ApprovalGoesThrough(s: System, h: nat, id: nat, who: string, note: Option<string>, acknowledge: bool,
                            submitted: bool, tx: Option<string>)
    requires h !in s.handlers && Has(s.rows, id) && At(s.rows, id).status == Pending
    requires s.now <= At(s.rows, id).expiresAt || acknowledge
    ensures var acts := [Approve(h, id, who, note, acknowledge), Go(h, Mandate(true))]
                        + [Go(h, Gate(true)), Go(h, Plain)] + [Go(h, Plain), Go(h, Plain)]
                        + [Go(h, Protected(submitted, tx)), Go(h, Plain)];
            Only1(s.rows, Run(s, acts).rows, id,
                  Decided(At(s.rows, id), if submitted then Executed else Failed, s.now, who, note, tx))
  {
    var t := Asks(s, h, id, who, note, acknowledge, true);
    var acts, u := Claims(s, [Approve(h, id, who, note, acknowledge), Go(h, Mandate(true))], t, h);
    acts, u := Then2(s, acts, u, Go(h, Protected(submitted, tx)), Go(h, Plain));
  }

  /** The same when `protect` raises: FAILED, with the error noted. */
  lemma ApprovalCanFail(s: System, h: nat, id: nat, who: string, note: Option<string>, acknowledge: bool)
    requires h !in s.handlers && Has(s.rows, id) && At(s.rows, id).status == Pending
    requires s.now <= At(s.rows, id).expiresAt || acknowledge
    ensures var acts := [Approve(h, id, who, note, acknowledge), Go(h, Mandate(true))]
                        + [Go(h, Gate(true)), Go(h, Plain)] + [Go(h, Plain), Go(h, Plain)]
                        + [Go(h, ProtectThrew), Go(h, Plain)];
            Only1(s.rows, Run(s, acts).rows, id,
                  Decided(At(s.rows, id), Failed, s.now, who, Some("execution error"), None))
  {
    var t := Asks(s, h, id, who, note, acknowledge, true);
    var acts, u := Claims(s, [Approve(h, id, who, note, acknowledge), Go(h, Mandate(true))], t, h);
    acts, u := Then2(s, acts, u, Go(h, ProtectThrew), Go(h, Plain));
  }

  /** A rejecter that nobody disturbs makes a pending proposal REJECTED, in its name and with its note. */
  lemma RejectionGoesThrough(s: System, h: nat, id: nat, who: string, note: Option<string>)
    requires h !in s.handlers && Has(s.rows, id) && At(s.rows, id).status == Pending
    ensures var acts := [Reject(h, id, who, note), Go(h, Plain)] + [Go(h, Plain), Go(h, Plain)];
            Only1(s.rows, Run(s, acts).rows, id, Decided(At(s.rows, id), Rejected, s.now, who, note, None))
  {
    var acts, t := Then2(s, [], s, Reject(h, id, who, note), Go(h, Plain));
    assert acts == [Reject(h, id, who, note), Go(h, Plain)];
    acts, t := Then2(s, acts, t, Go(h, Plain), Go(h, Plain));
  }

  /** Whoever comes to a decided proposal changes nothing. */
  lemma DecidedTurnsAway(s: System, h: nat, reply: Reply)
    requires Enabled(s, Go(h, reply)) && Has(s.rows, s.handlers[h].id) && At(s.rows, s.handlers[h].id).status != Pending
    requires s.handlers[h].pc == Reading || s.handlers[h].pc == Claiming || s.handlers[h].pc == RejectClaiming
    ensures Step(s, Go(h, reply)).rows == s.rows && Step(s, Go(h, reply)).handlers[h].pc == Done
  {
  }
}
