/** Approvals that execute through the protection service: the two systems run together
    (backend/app/api/routes_agent.py, backend/app/core/protection_service.py).

    An approver that has audited its decision awaits `protect`, a coroutine like any other. When that
    returns or raises, the approver goes on within the same step; when it is cancelled, so is the
    approver. Everything else interleaves freely. */
module Execution {
  import opened Arithmetic
  import opened Models
  import opened Service
  import Store
  import Approval
  import KeeperSystem

  /** A receipt that arrived for the call an approver was awaiting. */
  datatype Entry = Entry(h: nat, proposal: nat, receipt: KeeperSystem.Report)

  /** `running` maps an approver to the call it awaits. */
  datatype System = System(office: Approval.System, keeper: KeeperSystem.System, running: map<nat, nat>, log: seq<Entry>)

  datatype Action =
    | Office(office: Approval.Action)
    | Keeper(keeper: KeeperSystem.Action)
    | Start(h: nat, call: nat, params: RiskParams, signature: string)
    | Resume(h: nat, answer: Answer)

  predicate Awaits(office: Approval.System, h: nat) {
    h in office.handlers && office.handlers[h].pc.Protecting?
  }

  predicate MayStart(office: Approval.System, h: nat) {
    h in office.handlers && office.handlers[h].pc.Auditing? && Store.Has(office.rows, office.handlers[h].id)
  }

  function BorrowerOf(office: Approval.System, id: nat): Address
    requires Store.Has(office.rows, id)
  {
    Store.At(office.rows, id).borrower
  }

  predicate Enabled(s: System, a: Action) {
    match a
    case Office(oa) =>
      && Approval.Enabled(s.office, oa)
      && (oa.Go? ==> !s.office.handlers[oa.h].pc.Auditing? && !s.office.handlers[oa.h].pc.Protecting?)
      && (oa.Die? ==> !s.office.handlers[oa.h].pc.Protecting?)
    case Keeper(ka) => KeeperSystem.Enabled(s.keeper, ka) && (ka.AnswerProtect? ==> ka.id !in s.running.Values)
    case Start(h, call, params, _) =>
      && MayStart(s.office, h) && call !in s.keeper.frames
      && params.borrower == BorrowerOf(s.office, s.office.handlers[h].id)
    case Resume(h, answer) =>
      h in s.running && KeeperSystem.Enabled(s.keeper, KeeperSystem.AnswerProtect(s.running[h], answer))
  }

  /** How the approver goes on when the call it awaits is left. */
  function Next(h: nat, o: Outcome): Approval.Action
    requires !o.Suspended?
  {
    match o
    case Returned(r) => Approval.Go(h, Approval.Protected(r.submitted, r.txHash))
    case Escaped(cancelled) => if cancelled then Approval.Die(h) else Approval.Go(h, Approval.ProtectThrew)
  }

  function Settled(office: Approval.System, h: nat, o: Outcome): Approval.System {
    if o.Suspended? then office else Approval.Step(office, Next(h, o))
  }

  /** The call of an approver, as the service suspended it. */
  function PcOf(s: System, h: nat): Pc
    requires h in s.running && s.running[h] in s.keeper.frames && KeeperSystem.PcOf(s.keeper.frames[s.running[h]]).Some?
  {
    KeeperSystem.PcOf(s.keeper.frames[s.running[h]]).value
  }

  function Heard(s: System, h: nat, answer: Answer): seq<Entry>
    requires Enabled(s, Resume(h, answer))
  {
    if answer.Receipt? && h in s.office.handlers then
      [Entry(h, s.office.handlers[h].id,
             KeeperSystem.Report(PcOf(s, h).params.borrower, answer.sub.txHash, answer.sub.status == 1))]
    else []
  }

  /** How the resumed call is left. */
  function OutcomeOf(w: Wiring, s: System, h: nat, answer: Answer): Outcome
    requires Enabled(s, Resume(h, answer))
  {
    Service.Resume(w, s.keeper.shared, PcOf(s, h), answer, s.keeper.now).1
  }

  function Step(w: Wiring, s: System, a: Action): System {
    if !Enabled(s, a) then s else
    match a
    case Office(oa) => s.(office := Approval.Step(s.office, oa))
    case Keeper(ka) => s.(keeper := KeeperSystem.Step(w, s.keeper, ka))
    case Start(h, call, params, signature) =>
      var o := Begin(s.keeper.shared, params, signature, s.keeper.now).1;
      System(Settled(Approval.Step(s.office, Approval.Go(h, Approval.Plain)), h, o),
             KeeperSystem.Step(w, s.keeper, KeeperSystem.CallProtect(call, params, signature)),
             if o.Suspended? then s.running[h := call] else s.running, s.log)
    case Resume(h, answer) =>
      var o := OutcomeOf(w, s, h, answer);
      System(Settled(s.office, h, o),
             KeeperSystem.Step(w, s.keeper, KeeperSystem.AnswerProtect(s.running[h], answer)),
             if o.Suspended? then s.running else s.running - {h}, s.log + Heard(s, h, answer))
  }

  function Run(w: Wiring, s: System, acts: seq<Action>): System
    decreases |acts|
  {
    if acts == [] then s else Run(w, Step(w, s, acts[0]), acts[1..])
  }

  predicate Initial(s: System) {
    Approval.Initial(s.office) && KeeperSystem.Initial(s.keeper) && s.running == map[] && s.log == []
  }

  // ---- Receipts behind EXECUTED rows ----------------------------------------------------------

  /** A successful receipt for this proposal, its borrower and this transaction is in the log. */
  ghost predicate Evidence(log: seq<Entry>, id: nat, borrower: Address, tx: Option<string>) {
    exists k :: 0 <= k < |log| && Proves(log[k], id, borrower, tx)
  }

  predicate Proves(e: Entry, id: nat, borrower: Address, tx: Option<string>) {
    e.proposal == id && e.receipt.ok && e.receipt.borrower == borrower && tx == Some(e.receipt.txHash)
  }

  lemma EvidenceStays(log: seq<Entry>, more: seq<Entry>, id: nat, borrower: Address, tx: Option<string>)
    requires Evidence(log, id, borrower, tx)
    ensures Evidence(log + more, id, borrower, tx)
  {
    var k :| 0 <= k < |log| && Proves(log[k], id, borrower, tx);
    assert (log + more)[k] == log[k];
  }

  /** About to write EXECUTED, or EXECUTED since the start. */
  predicate Writes(office: Approval.System, h: nat) {
    h in office.handlers && office.handlers[h].pc.WritingResult? && office.handlers[h].pc.submitted
  }

  predicate Executed(t: Store.Table, id: nat) {
    Store.Has(t, id) && Store.At(t, id).status == Store.Executed
  }

  ghost predicate Proven(first: Store.Table, office: Approval.System, log: seq<Entry>) {
    && (forall h :: Writes(office, h) ==>
          var f := office.handlers[h];
          Store.Has(office.rows, f.id) && Evidence(log, f.id, BorrowerOf(office, f.id), f.pc.txHash))
    && (forall id: nat :: Executed(office.rows, id) && !Executed(first, id) ==>
          Evidence(log, id, BorrowerOf(office, id), Store.At(office.rows, id).txHash))
  }

  /** EXECUTED is written from a reported submission alone, with its transaction. */
  lemma MoveExecutes(rows: Store.Table, now: real, h: nat, f: Approval.Handler, r: Approval.Reply, id: nat)
    requires Approval.Fits(f.pc, r) && Executed(Approval.Move(rows, now, h, f, r).0, id)
    ensures var after := Approval.Move(rows, now, h, f, r).0;
            || (Executed(rows, id) && Store.At(after, id).txHash == Store.At(rows, id).txHash)
            || (id == f.id && f.pc.WritingResult? && f.pc.submitted
                && Store.At(after, id).txHash == Store.Coalesce(f.pc.txHash, Store.At(rows, id).txHash))
  {
  }

  /** The reply that would make approver `h` write EXECUTED. */
  predicate Reports(office: Approval.System, a: Approval.Action) {
    a.Go? && Awaits(office, a.h) && a.reply.Protected? && a.reply.submitted
  }

  lemma ProvenRows(first: Store.Table, office: Approval.System, log: seq<Entry>, a: Approval.Action, id: nat)
    requires Proven(first, office, log) && Executed(Approval.Step(office, a).rows, id) && !Executed(first, id)
    ensures Evidence(log, id, BorrowerOf(Approval.Step(office, a), id), Store.At(Approval.Step(office, a).rows, id).txHash)
  {
    Approval.StepForward(office, a);
    if a.Go? && Approval.Enabled(office, a) {
      MoveExecutes(office.rows, office.now, a.h, office.handlers[a.h], a.reply, id);
      if !Executed(office.rows, id) { assert Writes(office, a.h); }
    }
  }

  lemma ProvenStep(first: Store.Table, office: Approval.System, log: seq<Entry>, a: Approval.Action)
    requires Proven(first, office, log)
    requires Approval.Enabled(office, a) && Reports(office, a) ==>
               var id := office.handlers[a.h].id;
               Store.Has(office.rows, id) && Evidence(log, id, BorrowerOf(office, id), a.reply.tx)
    ensures Proven(first, Approval.Step(office, a), log)
  {
    var after := Approval.Step(office, a);
    Approval.StepForward(office, a);
    forall h | Writes(after, h)
      ensures var f := after.handlers[h];
              Store.Has(after.rows, f.id) && Evidence(log, f.id, BorrowerOf(after, f.id), f.pc.txHash)
    {
      if Writes(office, h) {
        assert after.handlers[h] == office.handlers[h];
      } else {
        assert Reports(office, a) && a.h == h;
      }
    }
    forall id: nat | Executed(after.rows, id) && !Executed(first, id)
      ensures Evidence(log, id, BorrowerOf(after, id), Store.At(after.rows, id).txHash)
    {
      ProvenRows(first, office, log, a, id);
    }
  }

  lemma ProvenGrows(first: Store.Table, office: Approval.System, log: seq<Entry>, more: seq<Entry>)
    requires Proven(first, office, log)
    ensures Proven(first, office, log + more)
  {
    forall h | Writes(office, h)
      ensures var f := office.handlers[h]; Evidence(log + more, f.id, BorrowerOf(office, f.id), f.pc.txHash)
    {
      var f := office.handlers[h];
      EvidenceStays(log, more, f.id, BorrowerOf(office, f.id), f.pc.txHash);
    }
    forall id: nat | Executed(office.rows, id) && !Executed(first, id)
      ensures Evidence(log + more, id, BorrowerOf(office, id), Store.At(office.rows, id).txHash)
    {
      EvidenceStays(log, more, id, BorrowerOf(office, id), Store.At(office.rows, id).txHash);
    }
  }

  // ---- Approvers and their calls ---------------------------------------------------------------

  /** The approver awaits the call that `running` says, for its proposal's borrower. */
  predicate Linked(s: System, h: nat)
    requires h in s.running
  {
    && Awaits(s.office, h) && s.running[h] in s.keeper.frames && s.keeper.frames[s.running[h]].Api?
    && Store.Has(s.office.rows, s.office.handlers[h].id)
    && s.keeper.frames[s.running[h]].pc.params.borrower == BorrowerOf(s.office, s.office.handlers[h].id)
  }

  ghost predicate AllLinked(s: System) {
    && (forall h :: h in s.running ==> Linked(s, h))
    && (forall h, i :: h in s.running && i in s.running && h != i ==> s.running[h] != s.running[i])
  }

  /** Receipts belong to approvers that started, have been answered, and were answered once. */
  predicate Owned(s: System, e: Entry) {
    && e.h in s.office.handlers && s.office.handlers[e.h].id == e.proposal && e.h !in s.running
    && !s.office.handlers[e.h].pc.Auditing? && Approval.After(s.office.handlers[e.h].pc)
    && Approval.Started(s.office.log, e.h, e.proposal)
  }

  ghost predicate AllOwned(s: System) {
    && (forall k :: 0 <= k < |s.log| ==> Owned(s, s.log[k]))
    && (forall k, l :: 0 <= k < l < |s.log| ==> s.log[k].h != s.log[l].h)
  }

  /** An office step: handlers keep their proposals, and nobody who has started goes back. */
  lemma OfficeMoves(office: Approval.System, a: Approval.Action, h: nat)
    requires h in office.handlers
    ensures var after := Approval.Step(office, a);
            && h in after.handlers && after.handlers[h].id == office.handlers[h].id
            && (Approval.After(office.handlers[h].pc) ==> Approval.After(after.handlers[h].pc))
            && (!((a.Go? || a.Die?) && a.h == h) ==> after.handlers[h] == office.handlers[h])
  {
  }

  lemma OfficeStarted(office: Approval.System, a: Approval.Action, h: nat, id: nat)
    requires Approval.Started(office.log, h, id)
    ensures Approval.Started(Approval.Step(office, a).log, h, id)
  {
    if a.Go? && Approval.Enabled(office, a) {
      Approval.StartedGrows(office.log, Approval.Move(office.rows, office.now, a.h, office.handlers[a.h], a.reply).2, h, id);
    }
  }

  /** What an office step by anyone but the awaiting approvers leaves alone. */
  lemma OfficeKeepsLinks(s: System, a: Approval.Action)
    requires AllLinked(s) && ((a.Go? || a.Die?) ==> a.h !in s.running)
    ensures AllLinked(s.(office := Approval.Step(s.office, a)))
  {
    var t := s.(office := Approval.Step(s.office, a));
    Approval.StepForward(s.office, a);
    forall h | h in t.running
      ensures Linked(t, h)
    {
      assert Linked(s, h);
      OfficeMoves(s.office, a, h);
    }
  }

  lemma OfficeKeepsOwned(s: System, a: Approval.Action)
    requires AllOwned(s)
    ensures AllOwned(s.(office := Approval.Step(s.office, a)))
  {
    var t := s.(office := Approval.Step(s.office, a));
    forall k | 0 <= k < |t.log|
      ensures Owned(t, t.log[k])
    {
      assert Owned(s, s.log[k]);
      OfficeMoves(s.office, a, s.log[k].h);
      OfficeStarted(s.office, a, s.log[k].h, s.log[k].proposal);
    }
  }

  ghost predicate Inv(first: Store.Table, s: System) {
    && Approval.Inv(s.office) && Approval.Backed(first, s.office)
    && Proven(first, s.office, s.log) && AllLinked(s) && AllOwned(s)
  }

  /** An office step that reports no submission keeps everything. */
  lemma OfficeInv(first: Store.Table, s: System, a: Approval.Action)
    requires Inv(first, s) && ((a.Go? || a.Die?) ==> a.h !in s.running)
    requires Approval.Enabled(s.office, a) && Reports(s.office, a) ==>
               var id := s.office.handlers[a.h].id;
               Store.Has(s.office.rows, id) && Evidence(s.log, id, BorrowerOf(s.office, id), a.reply.tx)
    ensures Inv(first, s.(office := Approval.Step(s.office, a)))
  {
    Approval.StepInv(s.office, a);
    Approval.StepBacked(first, s.office, a);
    ProvenStep(first, s.office, s.log, a);
    OfficeKeepsLinks(s, a);
    OfficeKeepsOwned(s, a);
  }

  /** A keeper step that resumes none of the awaited calls keeps everything. */
  lemma KeeperInv(first: Store.Table, w: Wiring, s: System, a: KeeperSystem.Action)
    requires Inv(first, s) && KeeperSystem.Enabled(s.keeper, a) && (a.AnswerProtect? ==> a.id !in s.running.Values)
    ensures Inv(first, s.(keeper := KeeperSystem.Step(w, s.keeper, a)))
  {
    var t := s.(keeper := KeeperSystem.Step(w, s.keeper, a));
    forall h | h in t.running
      ensures Linked(t, h)
    {
      assert Linked(s, h);
      FrameKept(w, s.keeper, a, s.running[h]);
    }
    SameOwned(s, t);
  }

  lemma FrameKept(w: Wiring, s: KeeperSystem.System, a: KeeperSystem.Action, id: nat)
    requires KeeperSystem.Enabled(s, a) && id in s.frames && s.frames[id].Api? && (a.AnswerProtect? ==> a.id != id)
    ensures id in KeeperSystem.Step(w, s, a).frames && KeeperSystem.Step(w, s, a).frames[id] == s.frames[id]
  {
  }

  // ---- Starting --------------------------------------------------------------------------------

  /** The call an approver enters is suspended in its frame, or was refused without a submission. */
  lemma StartShape(w: Wiring, s: KeeperSystem.System, call: nat, params: RiskParams, signature: string)
    requires call !in s.frames
    ensures var o := Begin(s.shared, params, signature, s.now).1;
            var t := KeeperSystem.Step(w, s, KeeperSystem.CallProtect(call, params, signature));
            && (o.Suspended? ==> call in t.frames && t.frames[call] == KeeperSystem.Api(o.pc) && o.pc.params == params)
            && (o.Suspended? || (o.Returned? && !o.response.submitted))
  {
  }

  /** The approver has gone to await its call, and the call has entered. */
  function Entering(w: Wiring, s: System, h: nat, call: nat, params: RiskParams, signature: string): System {
    s.(office := Approval.Step(s.office, Approval.Go(h, Approval.Plain)),
       keeper := KeeperSystem.Step(w, s.keeper, KeeperSystem.CallProtect(call, params, signature)))
  }

  lemma NotRunning(s: System, h: nat)
    requires AllLinked(s) && h in s.office.handlers && s.office.handlers[h].pc.Auditing?
    ensures h !in s.running
  {
  }

  lemma EnteringInv(first: Store.Table, w: Wiring, s: System, h: nat, call: nat, params: RiskParams, signature: string)
    requires Inv(first, s) && MayStart(s.office, h) && call !in s.keeper.frames
    ensures Inv(first, Entering(w, s, h, call, params, signature))
  {
    var go := Approval.Go(h, Approval.Plain);
    NotRunning(s, h);
    OfficeInv(first, s, go);
    KeeperInv(first, w, s.(office := Approval.Step(s.office, go)), KeeperSystem.CallProtect(call, params, signature));
  }

  lemma EnteringAwaits(w: Wiring, s: System, h: nat, call: nat, params: RiskParams, signature: string)
    requires Enabled(s, Start(h, call, params, signature))
    ensures var t := Entering(w, s, h, call, params, signature).office;
            && Awaits(t, h) && t.handlers[h].id == s.office.handlers[h].id
            && Store.Has(t.rows, t.handlers[h].id) && params.borrower == BorrowerOf(t, t.handlers[h].id)
  {
    Approval.StepForward(s.office, Approval.Go(h, Approval.Plain));
  }

  lemma Unanswered(s: System, h: nat)
    requires AllOwned(s) && h in s.office.handlers && s.office.handlers[h].pc.Auditing?
    ensures forall k :: 0 <= k < |s.log| ==> s.log[k].h != h
  {
    forall k | 0 <= k < |s.log|
      ensures s.log[k].h != h
    {
      assert Owned(s, s.log[k]);
    }
  }

  lemma StartInv(first: Store.Table, w: Wiring, s: System, h: nat, call: nat, params: RiskParams, signature: string)
    requires Inv(first, s) && Enabled(s, Start(h, call, params, signature))
    ensures Inv(first, Step(w, s, Start(h, call, params, signature)))
  {
    var o := Begin(s.keeper.shared, params, signature, s.keeper.now).1;
    var entered := Entering(w, s, h, call, params, signature);
    StartShape(w, s.keeper, call, params, signature);
    EnteringInv(first, w, s, h, call, params, signature);
    EnteringAwaits(w, s, h, call, params, signature);
    NotRunning(s, h);
    if o.Suspended? {
      Unanswered(s, h);
      Links(first, s, entered, h, call);
    } else {
      OfficeInv(first, entered, Next(h, o));
    }
  }

  /** The approver is linked to the call it has just begun to await. */
  lemma Links(first: Store.Table, s: System, s2: System, h: nat, call: nat)
    requires Inv(first, s2) && AllLinked(s) && call !in s.keeper.frames && h !in s.running && s2.running == s.running
    requires Linked(s2.(running := s2.running[h := call]), h)
    requires forall k :: 0 <= k < |s2.log| ==> s2.log[k].h != h
    ensures Inv(first, s2.(running := s2.running[h := call]))
  {
    var t := s2.(running := s2.running[h := call]);
    forall i | i in t.running
      ensures Linked(t, i)
    {
      if i != h { assert Linked(s2, i); }
    }
    forall i | i in s.running
      ensures s.running[i] != call
    {
      assert Linked(s, i);
    }
    forall k | 0 <= k < |t.log|
      ensures Owned(t, t.log[k])
    {
      assert Owned(s2, s2.log[k]);
    }
  }

  // ---- Resuming --------------------------------------------------------------------------------

  lemma ResumedFrame(w: Wiring, s: KeeperSystem.System, id: nat, answer: Answer)
    requires KeeperSystem.Enabled(s, KeeperSystem.AnswerProtect(id, answer)) && s.frames[id].Api?
    ensures var pc := s.frames[id].pc;
            var o := Service.Resume(w, s.shared, pc, answer, s.now).1;
            var t := KeeperSystem.Step(w, s, KeeperSystem.AnswerProtect(id, answer));
            && (forall i :: i != id ==> (i in t.frames <==> i in s.frames) && (i in s.frames ==> t.frames[i] == s.frames[i]))
            && (o.Suspended? ==> id in t.frames && t.frames[id] == KeeperSystem.Api(o.pc) && o.pc.params == pc.params)
            && (answer.Receipt? ==> o.Returned?)
  {
    var pc := s.frames[id].pc;
    KeeperSystem.ResumeProgress(w, s.shared, pc, answer, s.now);
    if answer.Receipt? { KeeperSystem.ReceiptReturns(w, s.shared, pc, answer, s.now); }
  }

  lemma GoesOnLinks(w: Wiring, s: System, h: nat, answer: Answer)
    requires AllLinked(s) && Enabled(s, Resume(h, answer)) && OutcomeOf(w, s, h, answer).Suspended?
    ensures AllLinked(Step(w, s, Resume(h, answer)))
  {
    var t := Step(w, s, Resume(h, answer));
    assert Linked(s, h);
    ResumedFrame(w, s.keeper, s.running[h], answer);
    forall i | i in t.running
      ensures Linked(t, i)
    {
      assert Linked(s, i);
    }
  }

  lemma NothingHeard(w: Wiring, s: System, h: nat, answer: Answer)
    requires AllLinked(s) && Enabled(s, Resume(h, answer)) && OutcomeOf(w, s, h, answer).Suspended?
    ensures Heard(s, h, answer) == []
  {
    assert Linked(s, h);
    ResumedFrame(w, s.keeper, s.running[h], answer);
  }

  lemma SameOwned(s: System, t: System)
    requires AllOwned(s) && t.office == s.office && t.running == s.running && t.log == s.log
    ensures AllOwned(t)
  {
    forall k | 0 <= k < |t.log|
      ensures Owned(t, t.log[k])
    {
      assert Owned(s, s.log[k]);
    }
  }

  /** The call goes on: everybody stays linked. */
  lemma GoesOn(first: Store.Table, w: Wiring, s: System, h: nat, answer: Answer)
    requires Inv(first, s) && Enabled(s, Resume(h, answer)) && OutcomeOf(w, s, h, answer).Suspended?
    ensures Inv(first, Step(w, s, Resume(h, answer)))
  {
    var t := Step(w, s, Resume(h, answer));
    GoesOnLinks(w, s, h, answer);
    NothingHeard(w, s, h, answer);
    assert t.log == s.log + [] == s.log;
    SameOwned(s, t);
  }

  /** The service after the call has been left, before its approver goes on. */
  function Left(w: Wiring, s: System, h: nat, answer: Answer): System
    requires Enabled(s, Resume(h, answer))
  {
    System(s.office, KeeperSystem.Step(w, s.keeper, KeeperSystem.AnswerProtect(s.running[h], answer)),
           s.running - {h}, s.log + Heard(s, h, answer))
  }

  lemma LeftLinks(w: Wiring, s: System, h: nat, answer: Answer)
    requires AllLinked(s) && Enabled(s, Resume(h, answer))
    ensures AllLinked(Left(w, s, h, answer))
  {
    var t := Left(w, s, h, answer);
    assert Linked(s, h);
    ResumedFrame(w, s.keeper, s.running[h], answer);
    forall i | i in t.running
      ensures Linked(t, i)
    {
      assert Linked(s, i);
    }
  }

  lemma LeftOwned(first: Store.Table, w: Wiring, s: System, h: nat, answer: Answer)
    requires AllOwned(s) && AllLinked(s) && Approval.Backed(first, s.office) && Enabled(s, Resume(h, answer))
    ensures AllOwned(Left(w, s, h, answer))
  {
    var t := Left(w, s, h, answer);
    assert Linked(s, h);
    forall k | 0 <= k < |t.log|
      ensures Owned(t, t.log[k])
    {
      if k < |s.log| { assert Owned(s, s.log[k]) && t.log[k] == s.log[k]; }
    }
    forall k, l | 0 <= k < l < |t.log|
      ensures t.log[k].h != t.log[l].h
    {
      assert Owned(s, s.log[k]) && t.log[k] == s.log[k];
      if l < |s.log| { assert t.log[l] == s.log[l]; }
    }
  }

  lemma LeftInv(first: Store.Table, w: Wiring, s: System, h: nat, answer: Answer)
    requires Inv(first, s) && Enabled(s, Resume(h, answer))
    ensures Inv(first, Left(w, s, h, answer))
  {
    ProvenGrows(first, s.office, s.log, Heard(s, h, answer));
    LeftLinks(w, s, h, answer);
    LeftOwned(first, w, s, h, answer);
  }

  /** A call that answers with a submission has its receipt in the log. */
  lemma ReportIsProven(w: Wiring, s: System, h: nat, answer: Answer)
    requires Enabled(s, Resume(h, answer)) && Linked(s, h)
    requires var o := OutcomeOf(w, s, h, answer);
             o.Returned? && o.response.submitted
    ensures var o := OutcomeOf(w, s, h, answer);
            var id := s.office.handlers[h].id;
            Evidence(s.log + Heard(s, h, answer), id, BorrowerOf(s.office, id), o.response.txHash)
  {
    var o := OutcomeOf(w, s, h, answer);
    KeeperSystem.AnswersAreTrue(w, s.keeper.shared, PcOf(s, h), answer, s.keeper.now);
    var id := s.office.handlers[h].id;
    var log := s.log + Heard(s, h, answer);
    assert Proves(log[|s.log|], id, BorrowerOf(s.office, id), o.response.txHash);
  }

  /** The call is left: its approver goes on with what it answered. */
  lemma LeavesCall(first: Store.Table, w: Wiring, s: System, h: nat, answer: Answer)
    requires Inv(first, s) && Enabled(s, Resume(h, answer)) && !OutcomeOf(w, s, h, answer).Suspended?
    ensures Inv(first, Step(w, s, Resume(h, answer)))
  {
    var o, left := OutcomeOf(w, s, h, answer), Left(w, s, h, answer);
    assert Linked(s, h);
    LeftInv(first, w, s, h, answer);
    if o.Returned? && o.response.submitted { ReportIsProven(w, s, h, answer); }
    NextReports(left.office, h, o);
    OfficeInv(first, left, Next(h, o));
    StepLeaves(w, s, h, answer);
  }

  lemma NextReports(office: Approval.System, h: nat, o: Outcome)
    requires !o.Suspended?
    ensures Reports(office, Next(h, o)) ==> o.Returned? && o.response.submitted && Next(h, o).reply.tx == o.response.txHash
    ensures (Next(h, o).Go? || Next(h, o).Die?) && Next(h, o).h == h
  {
  }

  lemma StepLeaves(w: Wiring, s: System, h: nat, answer: Answer)
    requires Enabled(s, Resume(h, answer)) && !OutcomeOf(w, s, h, answer).Suspended?
    ensures var left := Left(w, s, h, answer);
            Step(w, s, Resume(h, answer))
            == left.(office := Approval.Step(left.office, Next(h, OutcomeOf(w, s, h, answer))))
  {
  }

  lemma ResumeInv(first: Store.Table, w: Wiring, s: System, h: nat, answer: Answer)
    requires Inv(first, s) && Enabled(s, Resume(h, answer))
    ensures Inv(first, Step(w, s, Resume(h, answer)))
  {
    if OutcomeOf(w, s, h, answer).Suspended? {
      GoesOn(first, w, s, h, answer);
    } else {
      LeavesCall(first, w, s, h, answer);
    }
  }

  // ---- Every run -------------------------------------------------------------------------------

  lemma StepInv(first: Store.Table, w: Wiring, s: System, a: Action)
    requires Inv(first, s)
    ensures Inv(first, Step(w, s, a))
  {
    if Enabled(s, a) {
      match a
      case Office(oa) =>
        OfficeInv(first, s, oa);
      case Keeper(ka) => KeeperInv(first, w, s, ka);
      case Start(h, call, params, signature) => StartInv(first, w, s, h, call, params, signature);
      case Resume(h, answer) => ResumeInv(first, w, s, h, answer);
    }
  }

  lemma {:induction false} RunInv(first: Store.Table, w: Wiring, s: System, acts: seq<Action>)
    requires Inv(first, s)
    ensures Inv(first, Run(w, s, acts))
    decreases |acts|
  {
    if acts != [] {
      StepInv(first, w, s, acts[0]);
      RunInv(first, w, Step(w, s, acts[0]), acts[1..]);
    }
  }

  /** Receipts of one proposal are receipts of one approver, hence one. */
  lemma OneReceipt(s: System, k: int, l: int)
    requires Approval.Inv(s.office) && AllOwned(s) && 0 <= k < l < |s.log|
    ensures s.log[k].proposal != s.log[l].proposal
  {
    assert Owned(s, s.log[k]) && Owned(s, s.log[l]);
    if s.log[k].proposal == s.log[l].proposal {
      Approval.StartersAgree(s.office, s.log[k].h, s.log[l].h, s.log[k].proposal);
    }
  }

  /** In every run, a proposal that has become EXECUTED stems from a successful receipt for its own
      borrower, whose transaction is the one recorded; and each receipt an approver awaited is the only
      one of its proposal, so no two proposals rest on one execution. */
  lemma ExecutedHasReceipt(w: Wiring, s: System, acts: seq<Action>, id: nat)
    requires Initial(s) && !Executed(s.office.rows, id) && Executed(Run(w, s, acts).office.rows, id)
    ensures var t := Run(w, s, acts);
            var row := Store.At(t.office.rows, id);
            && Evidence(t.log, id, row.borrower, row.txHash)
            && forall k, l :: 0 <= k < l < |t.log| ==> t.log[k].proposal != t.log[l].proposal
  {
    RunInv(s.office.rows, w, s, acts);
    var t := Run(w, s, acts);
    forall k, l | 0 <= k < l < |t.log|
      ensures t.log[k].proposal != t.log[l].proposal
    {
      OneReceipt(t, k, l);
    }
  }
}
