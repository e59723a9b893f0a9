/** The recorded lifecycle of a borrower against the lock and the transition table
    (backend/app/core/state.py, backend/app/core/protection_service.py). */
module Lifecycle {
  import opened Arithmetic
  import opened Models
  import opened Service
  import opened KeeperSystem
  import InFlight

  type Writes = map<Address, PositionState>

  // ---- What each step writes -----------------------------------------------------------------

  function Enters(s: Shared, params: RiskParams, now: real): Writes {
    if !s.breaker.paused && InFlight.CanStart(s.inflight, params.borrower, now)
    then map[params.borrower := Assessing] else map[]
  }

  function Refreshes(s: Shared, b: Address, st: Observation): Writes {
    if b in s.inflight.locked then map[] else map[b := st]
  }

  function Acts(s: Shared, item: Item, st: Observation, now: real): Writes {
    Refreshes(s, item.0, st)
    + if st == Assessing && InFlight.CanStart(s.inflight, item.0, now) then Enters(s, item.1, now) else map[]
  }

  function Resumes(w: Wiring, s: Shared, pc: Pc, a: Answer, now: real): Writes {
    var b := pc.params.borrower;
    match pc
    case Evaluating(_, _) =>
      if !a.Evaluated? then map[]
      else if a.plan.None? || !a.response.viable then map[b := Declined]
      else if !w.simulator then map[b := Ready] else map[]
    case Simulating(_, _, _, _) =>
      if !a.Simulated? then map[]
      else if !a.sim.success then map[b := Declined]
      else if !w.submitter then map[b := Ready]
      else if InFlight.CanStart(s.inflight, b, now) then map[b := Submitted] else map[]
    case Submitting(_, _, _, _, _) =>
      if a.Cancel? then map[]
      else if a.Receipt? && a.sub.status == 1 then map[b := Restored] else map[b := Reverted]
  }

  /** The states a step records, read off the state before it. A borrower without a state reads as
      HEALTHY, so forgetting one is a write of HEALTHY and registering one is none. */
  function WritesOf(w: Wiring, s: System, a: Action): Writes {
    if !Enabled(s, a) then map[] else
    match a
    case CallProtect(_, params, _) => Enters(s.shared, params, s.now)
    case AnswerProtect(id, answer) => Resumes(w, s.shared, PcOf(s.frames[id]).value, answer, s.now)
    case AnswerPoll(id, poll) =>
      if !poll.Polls? then map[] else
      (match s.frames[id]
       case Snapping(b) => Refreshes(s.shared, b, poll.state)
       case Ticking(Polling(item, _)) =>
         if item.1.allowedCollaterals != [] then map[] else Acts(s.shared, item, poll.state, s.now)
       case Ticking(Sampling(item, st, _)) => Acts(s.shared, item, st, s.now))
    case DoUnregister(b) => map[b := Healthy]
    case _ => map[]
  }

  /** The state recorded for a borrower, as `state_of` reads it. */
  function Shown(s: System, b: Address): PositionState {
    StateOf(s.shared, b)
  }

  /** What a step leaves recorded for a borrower: its write if it makes one. */
  function After(s: Shared, ws: Writes, b: Address): PositionState {
    if b in ws then ws[b] else StateOf(s, b)
  }

  lemma BeginRecords(s: Shared, params: RiskParams, signature: string, now: real, b: Address)
    ensures StateOf(Begin(s, params, signature, now).0, b) == After(s, Enters(s, params, now), b)
  {
  }

  lemma ActRecords(s: Shared, item: Item, st: Observation, rest: seq<Item>, now: real, b: Address)
    ensures StateOf(Act(s, item, st, rest, now).0, b) == After(s, Acts(s, item, st, now), b)
  {
    var p := Polled(s, item.0, st);
    assert StateOf(p, b) == After(s, Refreshes(s, item.0, st), b);
    BeginRecords(p, item.1, item.2, now, b);
    assert p.breaker == s.breaker && p.inflight == s.inflight;
    if st == Assessing && InFlight.CanStart(s.inflight, item.0, now) && !s.breaker.paused {
    } else {
    }
  }

  lemma EvaluateRecords(w: Wiring, s: Shared, pc: Pc, a: Answer, now: real, b: Address)
    requires Fits(pc, a) && pc.Evaluating?
    ensures StateOf(Resume(w, s, pc, a, now).0, b) == After(s, Resumes(w, s, pc, a, now), b)
  {
  }

  lemma SimulateRecords(w: Wiring, s: Shared, pc: Pc, a: Answer, now: real, b: Address)
    requires Fits(pc, a) && pc.Simulating?
    ensures StateOf(Resume(w, s, pc, a, now).0, b) == After(s, Resumes(w, s, pc, a, now), b)
  {
    if !a.Simulated? {
    } else if !a.sim.success {
    } else if !w.submitter {
    } else {
    }
  }

  lemma SubmitRecords(w: Wiring, s: Shared, pc: Pc, a: Answer, now: real, b: Address)
    requires Fits(pc, a) && pc.Submitting?
    ensures StateOf(Resume(w, s, pc, a, now).0, b) == After(s, Resumes(w, s, pc, a, now), b)
  {
    if a.Cancel? {
    } else if a.Receipt? && a.sub.status == 1 {
    } else {
    }
  }

  lemma ResumeRecords(w: Wiring, s: Shared, pc: Pc, a: Answer, now: real, b: Address)
    requires Fits(pc, a)
    ensures StateOf(Resume(w, s, pc, a, now).0, b) == After(s, Resumes(w, s, pc, a, now), b)
  {
    if pc.Evaluating? {
      EvaluateRecords(w, s, pc, a, now, b);
    } else if pc.Simulating? {
      SimulateRecords(w, s, pc, a, now, b);
    } else {
      SubmitRecords(w, s, pc, a, now, b);
    }
  }

  lemma PollRecords(w: Wiring, s: System, a: Action, b: Address)
    requires Enabled(s, a) && a.AnswerPoll?
    ensures StateOf(Segment(w, s, a).0, b) == After(s.shared, WritesOf(w, s, a), b)
  {
    match s.frames[a.id]
    case Ticking(Polling(item, rest)) =>
      if a.poll.Polls? && item.1.allowedCollaterals == [] { ActRecords(s.shared, item, a.poll.state, rest, s.now, b); }
    case Ticking(Sampling(item, st, rest)) =>
      if a.poll.Polls? { ActRecords(s.shared, item, st, rest, s.now, b); }
    case Snapping(_) =>
  }

  /** Every step records exactly these writes. */
  lemma StepRecords(w: Wiring, s: System, a: Action, b: Address)
    ensures Shown(Step(w, s, a), b) == After(s.shared, WritesOf(w, s, a), b)
  {
    if Enabled(s, a) {
      match a
      case CallProtect(_, params, signature) => BeginRecords(s.shared, params, signature, s.now, b);
      case AnswerProtect(id, answer) =>
        ResumeShape(w, s, a);
        ResumeRecords(w, s.shared, PcOf(s.frames[id]).value, answer, s.now, b);
      case AnswerPoll(_, _) => PollRecords(w, s, a, b);
      case _ =>
    }
  }

  // ---- The lock ------------------------------------------------------------------------------

  /** The step resumes the submission of this borrower. */
  predicate Releases(s: System, a: Action, b: Address) {
    Enabled(s, a) && a.AnswerProtect? && Holds(s.frames, a.id, b)
  }

  /** The step starts a submission for this borrower. */
  predicate Takes(w: Wiring, s: System, a: Action, b: Address) {
    && Enabled(s, a) && a.AnswerProtect? && PcOf(s.frames[a.id]).value.params.borrower == b
    && Submits(w, s.shared, PcOf(s.frames[a.id]).value, a.answer, s.now)
  }

  lemma StepLocks(w: Wiring, s: System, a: Action, b: Address)
    ensures b in Step(w, s, a).shared.inflight.locked
            <==> Takes(w, s, a, b) || (b in s.shared.inflight.locked && !Releases(s, a, b))
  {
    if Enabled(s, a) && a.AnswerProtect? {
      var pc := PcOf(s.frames[a.id]).value;
      ResumeShape(w, s, a);
      ResumeProgress(w, s.shared, pc, a.answer, s.now);
      ResumeSubmits(w, s.shared, pc, a.answer, s.now);
    } else if Enabled(s, a) && FrameAction(a) {
      OtherShape(w, s, a);
    }
  }

  /** SUBMITTED is written together with taking the lock, and never otherwise. */
  lemma SubmittedIsTaken(w: Wiring, s: System, a: Action, b: Address)
    ensures var ws := WritesOf(w, s, a); b in ws && ws[b] == Submitted <==> Takes(w, s, a, b)
  {
  }

  /** A submission's end writes RESTORED or REVERTED, unless it was cancelled. */
  lemma ReleaseWrites(w: Wiring, s: System, a: Action, b: Address)
    requires Releases(s, a, b)
    ensures var ws := WritesOf(w, s, a);
            if a.answer.Cancel? then b !in ws else b in ws && (ws[b] == Restored || ws[b] == Reverted)
  {
  }

  // ---- SUBMITTED without the lock ------------------------------------------------------------

  predicate Locked(s: System, b: Address) {
    b in s.shared.inflight.locked
  }

  predicate Stranded(s: System, b: Address) {
    Shown(s, b) == Submitted && !Locked(s, b)
  }

  /** The submission of a borrower recorded as SUBMITTED is cancelled: `finally` releases the lock, and
      no state is written. */
  predicate Strands(s: System, a: Action, b: Address) {
    Releases(s, a, b) && a.answer.Cancel? && Shown(s, b) == Submitted
  }

  /** Exactly a cancelled submission strands a borrower in SUBMITTED. */
  lemma StrandedWhen(w: Wiring, s: System, a: Action, b: Address)
    requires !Stranded(s, b)
    ensures Stranded(Step(w, s, a), b) <==> Strands(s, a, b)
  {
    StepRecords(w, s, a, b);
    StepLocks(w, s, a, b);
    SubmittedIsTaken(w, s, a, b);
    if Releases(s, a, b) { ReleaseWrites(w, s, a, b); }
  }

  /** No state along the run has this borrower stranded. */
  predicate NeverStranded(w: Wiring, s: System, acts: seq<Action>, b: Address)
    decreases |acts|
  {
    !Stranded(s, b) && (acts != [] ==> NeverStranded(w, Step(w, s, acts[0]), acts[1..], b))
  }

  predicate NeverStrands(w: Wiring, s: System, acts: seq<Action>, b: Address)
    decreases |acts|
  {
    acts != [] ==> !Strands(s, acts[0], b) && NeverStrands(w, Step(w, s, acts[0]), acts[1..], b)
  }

  /** Throughout a run SUBMITTED means that the lock is held, exactly when no step of the run cancels the
      submission of a borrower recorded as SUBMITTED; in particular when nothing is cancelled. */
  lemma {:induction false} SubmittedIsLocked(w: Wiring, s: System, acts: seq<Action>, b: Address)
    requires !Stranded(s, b)
    ensures NeverStranded(w, s, acts, b) <==> NeverStrands(w, s, acts, b)
    ensures (forall a :: a in acts ==> !(a.AnswerProtect? && a.answer.Cancel?)) ==> NeverStranded(w, s, acts, b)
    decreases |acts|
  {
    if acts != [] {
      StrandedWhen(w, s, acts[0], b);
      if !Strands(s, acts[0], b) { SubmittedIsLocked(w, Step(w, s, acts[0]), acts[1..], b); }
    }
  }

  // ---- The lock without SUBMITTED ------------------------------------------------------------

  predicate OutOfStep(s: System, b: Address) {
    Locked(s, b) && Shown(s, b) != Submitted
  }

  /** A racing call for the same borrower declines. */
  predicate Declines(s: System, a: Action, b: Address) {
    && Enabled(s, a) && a.AnswerProtect?
    && var pc := PcOf(s.frames[a.id]).value;
       && pc.params.borrower == b
       && if pc.Evaluating? then a.answer.Evaluated? && (a.answer.plan.None? || !a.answer.response.viable)
          else pc.Simulating? && a.answer.Simulated? && !a.answer.sim.success
  }

  /** Something else writes over SUBMITTED while the submission is outstanding. */
  predicate Overwrites(s: System, a: Action, b: Address) {
    Locked(s, b) && (a == DoUnregister(b) || Declines(s, a, b))
  }

  lemma WritesWhileLocked(w: Wiring, s: System, a: Action, b: Address)
    requires w.simulator && w.submitter && Locked(s, b) && !Releases(s, a, b)
    ensures b in WritesOf(w, s, a) <==> Overwrites(s, a, b)
    ensures b in WritesOf(w, s, a) ==> WritesOf(w, s, a)[b] != Submitted
  {
  }

  /** A borrower's submission leaves SUBMITTED before it ends exactly when the borrower is unregistered
      or a racing call declines. */
  lemma OutOfStepWhen(w: Wiring, s: System, a: Action, b: Address)
    requires Exclusive(s) && Wired(w, s) && !OutOfStep(s, b)
    ensures OutOfStep(Step(w, s, a), b) <==> Overwrites(s, a, b)
  {
    StepRecords(w, s, a, b);
    StepLocks(w, s, a, b);
    SubmittedIsTaken(w, s, a, b);
    if Locked(s, b) {
      var id :| Holds(s.frames, id, b);
      if !Releases(s, a, b) { WritesWhileLocked(w, s, a, b); }
    }
  }

  /** At every state along the run, SUBMITTED is recorded for the borrower exactly while it is locked. */
  predicate InStep(w: Wiring, s: System, acts: seq<Action>, b: Address)
    decreases |acts|
  {
    && (Locked(s, b) <==> Shown(s, b) == Submitted)
    && (acts != [] ==> InStep(w, Step(w, s, acts[0]), acts[1..], b))
  }

  predicate Undisturbed(w: Wiring, s: System, acts: seq<Action>, b: Address)
    decreases |acts|
  {
    acts != [] ==>
      && !Strands(s, acts[0], b) && !Overwrites(s, acts[0], b)
      && Undisturbed(w, Step(w, s, acts[0]), acts[1..], b)
  }

  lemma {:induction false} StaysInStep(w: Wiring, s: System, acts: seq<Action>, b: Address)
    requires Exclusive(s) && Wired(w, s) && (Locked(s, b) <==> Shown(s, b) == Submitted)
    ensures InStep(w, s, acts, b) <==> Undisturbed(w, s, acts, b)
    decreases |acts|
  {
    if acts != [] {
      StrandedWhen(w, s, acts[0], b);
      OutOfStepWhen(w, s, acts[0], b);
      StepExclusive(w, s, acts[0]);
      if !Strands(s, acts[0], b) && !Overwrites(s, acts[0], b) {
        StaysInStep(w, Step(w, s, acts[0]), acts[1..], b);
      }
    }
  }

  /** SUBMITTED and the lock coincide all along a run exactly when, along it, no submission of the
      borrower is cancelled while SUBMITTED, and it is neither unregistered nor declined while locked. */
  lemma {:induction false} SubmittedIffLocked(w: Wiring, s: System, acts: seq<Action>, b: Address)
    requires Initial(s) && Shown(s, b) != Submitted
    ensures InStep(w, s, acts, b) <==> Undisturbed(w, s, acts, b)
  {
    NothingHeld(s);
    StaysInStep(w, s, acts, b);
  }

  // ---- All three happen ------------------------------------------------------------------------

  /** A call on its way from entry to an outstanding submission. */
  lemma SubmitsAlone(w: Wiring, s: System, id: nat, p: RiskParams, r: AssessmentResponse, plan: RescuePlan,
                     sim: SimulationResult) returns (t: System)
    requires id !in s.frames && !s.shared.breaker.paused && w == Wiring(true, true) && r.viable && sim.success
    requires p.borrower !in s.shared.inflight.locked && p.borrower !in s.shared.inflight.cooldownUntil
    ensures t == Run(w, s, [CallProtect(id, p, ""), AnswerProtect(id, Evaluated(r, Some(plan))),
                            AnswerProtect(id, Simulated(sim, plan))])
    ensures t.frames == s.frames[id := Api(Submitting(p, "", r, plan, sim))]
    ensures Locked(t, p.borrower) && Shown(t, p.borrower) == Submitted && t.shared.breaker == s.shared.breaker
  {
    var a1, a2 := CallProtect(id, p, ""), AnswerProtect(id, Evaluated(r, Some(plan)));
    var a3 := AnswerProtect(id, Simulated(sim, plan));
    var s1 := Step(w, s, a1);
    Admit(w, s, id, p);
    var s2 := Step(w, s1, a2);
    ClearsPipeline(w, s1, id, p, r, plan);
    t := Step(w, s2, a3);
    ClearsDryRun(w, s2, id, p, r, plan, sim);
    StepRecords(w, s2, a3, p.borrower);
    RunCons(w, s, a1, [a2, a3]);
    RunCons(w, s1, a2, [a3]);
    RunCons(w, s2, a3, []);
  }

  /** A cancelled submission leaves its borrower SUBMITTED and unlocked. */
  lemma CancelledIsStranded(w: Wiring, s: System, p: RiskParams, r: AssessmentResponse, plan: RescuePlan,
                            sim: SimulationResult)
    requires Initial(s) && w == Wiring(true, true) && r.viable && sim.success
    ensures var t := Run(w, s, [CallProtect(0, p, ""), AnswerProtect(0, Evaluated(r, Some(plan))),
                                AnswerProtect(0, Simulated(sim, plan))]);
            !Stranded(t, p.borrower) && Stranded(Step(w, t, AnswerProtect(0, Cancel)), p.borrower)
  {
    var t := SubmitsAlone(w, s, 0, p, r, plan, sim);
    StrandedWhen(w, t, AnswerProtect(0, Cancel), p.borrower);
  }

  /** A second call for the borrower, waiting for the pipeline when the first submits, can decline and
      so leave the borrower locked and DECLINED. */
  lemma LockedIsDeclined(w: Wiring, s: System, p: RiskParams, r: AssessmentResponse, no: AssessmentResponse,
                         plan: RescuePlan, sim: SimulationResult)
    requires Initial(s) && w == Wiring(true, true) && r.viable && !no.viable && sim.success
    ensures var s1 := Step(w, s, CallProtect(1, p, ""));
            var t := Run(w, s1, [CallProtect(0, p, ""), AnswerProtect(0, Evaluated(r, Some(plan))),
                                 AnswerProtect(0, Simulated(sim, plan))]);
            var u := Step(w, t, AnswerProtect(1, Evaluated(no, None)));
            Locked(u, p.borrower) && Shown(u, p.borrower) == Declined
  {
    var s1 := Step(w, s, CallProtect(1, p, ""));
    Admit(w, s, 1, p);
    var t := SubmitsAlone(w, s1, 0, p, r, plan, sim);
    var a := AnswerProtect(1, Evaluated(no, None));
    StepRecords(w, t, a, p.borrower);
    StepLocks(w, t, a, p.borrower);
  }

  /** Unregistering and registering again while the submission is outstanding leaves the borrower locked
      and HEALTHY; registering alone changes nobody's state. */
  lemma LockedIsHealthy(w: Wiring, s: System, p: RiskParams, r: AssessmentResponse, plan: RescuePlan,
                        sim: SimulationResult)
    requires Initial(s) && w == Wiring(true, true) && r.viable && sim.success
    ensures var t := Run(w, s, [CallProtect(0, p, ""), AnswerProtect(0, Evaluated(r, Some(plan))),
                                AnswerProtect(0, Simulated(sim, plan))]);
            var u := Step(w, t, DoRegister(p, ""));
            var v := Step(w, Step(w, t, DoUnregister(p.borrower)), DoRegister(p, ""));
            && Locked(u, p.borrower) && Shown(u, p.borrower) == Submitted
            && Locked(v, p.borrower) && p.borrower in v.shared.states && Shown(v, p.borrower) == Healthy
  {
    var t := SubmitsAlone(w, s, 0, p, r, plan, sim);
  }

  // ---- The transition table -------------------------------------------------------------------

  /** `VALID_TRANSITIONS`; staying is always allowed. */
  predicate CanTransition(src: PositionState, dst: PositionState) {
    src == dst ||
    match src
    case Healthy => dst == Watch
    case Watch => dst == Healthy || dst == Assessing
    case Assessing => dst == Declined || dst == Watch || dst == Ready
    case Declined => dst == Watch
    case Ready => dst == Submitted || dst == Watch
    case Submitted => dst == Restored || dst == Reverted
    case Restored => dst == Healthy
    case Reverted => dst == Watch
  }

  ghost predicate Jumps(s: System, t: System) {
    exists b :: !CanTransition(Shown(s, b), Shown(t, b))
  }

  predicate MayEnter(st: PositionState) { st == Watch || st == Assessing }

  predicate MayDecline(st: PositionState) { st == Assessing || st == Declined }

  predicate MayBeReady(st: PositionState) { st == Assessing || st == Ready }

  predicate MaySubmit(st: PositionState) { st == Ready || st == Submitted }

  predicate MayRestore(st: PositionState) { st == Submitted || st == Restored }

  predicate MayRevert(st: PositionState) { st == Submitted || st == Reverted }

  predicate MayBeHealthy(st: PositionState) { st == Healthy || st == Watch || st == Restored }

  predicate MayWatch(st: PositionState) { st != Submitted && st != Restored }

  predicate MayObserve(st: PositionState, seen: Observation) {
    if seen == Healthy then MayBeHealthy(st) else if seen == Watch then MayWatch(st) else MayEnter(st)
  }

  /** A poll that finds the borrower unlocked overwrites a state it may not. */
  predicate PollJumps(s: Shared, b: Address, seen: Observation) {
    b !in s.inflight.locked && !MayObserve(StateOf(s, b), seen)
  }

  predicate EntryJumps(s: Shared, params: RiskParams, now: real) {
    && !s.breaker.paused && InFlight.CanStart(s.inflight, params.borrower, now)
    && !MayEnter(StateOf(s, params.borrower))
  }

  predicate ActJumps(s: Shared, item: Item, seen: Observation, now: real) {
    || PollJumps(s, item.0, seen)
    || (seen == Assessing && InFlight.CanStart(s.inflight, item.0, now) && EntryJumps(s, item.1, now))
  }

  predicate ResumeJumps(w: Wiring, s: Shared, pc: Pc, a: Answer, now: real) {
    var st := StateOf(s, pc.params.borrower);
    match pc
    case Evaluating(_, _) =>
      a.Evaluated? && if a.plan.None? || !a.response.viable then !MayDecline(st) else !w.simulator && !MayBeReady(st)
    case Simulating(_, _, _, _) =>
      a.Simulated? && if !a.sim.success then !MayDecline(st)
                      else if !w.submitter then !MayBeReady(st)
                      else InFlight.CanStart(s.inflight, pc.params.borrower, now) && !MaySubmit(st)
    case Submitting(_, _, _, _, _) =>
      !a.Cancel? && if a.Receipt? && a.sub.status == 1 then !MayRestore(st) else !MayRevert(st)
  }

  /** The guard of the branch taken, and the recorded state it may not be taken from. */
  predicate Forbidden(w: Wiring, s: System, a: Action) {
    Enabled(s, a) &&
    match a
    case CallProtect(_, params, _) => EntryJumps(s.shared, params, s.now)
    case AnswerProtect(id, answer) => ResumeJumps(w, s.shared, PcOf(s.frames[id]).value, answer, s.now)
    case AnswerPoll(id, poll) =>
      poll.Polls? &&
      (match s.frames[id]
       case Snapping(b) => PollJumps(s.shared, b, poll.state)
       case Ticking(Polling(item, _)) =>
         item.1.allowedCollaterals == [] && ActJumps(s.shared, item, poll.state, s.now)
       case Ticking(Sampling(item, st, _)) => ActJumps(s.shared, item, st, s.now))
    case DoUnregister(b) => !MayBeHealthy(Shown(s, b))
    case _ => false
  }

  /** Some of these writes is no edge from the state recorded before it. */
  ghost predicate Illegal(s: Shared, ws: Writes) {
    exists b :: b in ws && !CanTransition(StateOf(s, b), ws[b])
  }

  lemma EntryIllegal(s: Shared, params: RiskParams, now: real)
    ensures Illegal(s, Enters(s, params, now)) <==> EntryJumps(s, params, now)
  {
    if EntryJumps(s, params, now) { assert params.borrower in Enters(s, params, now); }
  }

  lemma PollIllegal(s: Shared, b: Address, seen: Observation)
    ensures Illegal(s, Refreshes(s, b, seen)) <==> PollJumps(s, b, seen)
  {
    if PollJumps(s, b, seen) { assert b in Refreshes(s, b, seen); }
  }

  lemma ActIllegal(s: Shared, item: Item, seen: Observation, now: real)
    ensures Illegal(s, Acts(s, item, seen, now)) <==> ActJumps(s, item, seen, now)
  {
    var ws := Acts(s, item, seen, now);
    if PollJumps(s, item.0, seen) { assert item.0 in ws; }
    if EntryJumps(s, item.1, now) && seen == Assessing && InFlight.CanStart(s.inflight, item.0, now) {
      assert item.1.borrower in ws;
    }
  }

  lemma ResumeIllegal(w: Wiring, s: Shared, pc: Pc, a: Answer, now: real)
    ensures Illegal(s, Resumes(w, s, pc, a, now)) <==> ResumeJumps(w, s, pc, a, now)
  {
    if ResumeJumps(w, s, pc, a, now) { assert pc.params.borrower in Resumes(w, s, pc, a, now); }
  }

  lemma WritesIllegal(w: Wiring, s: System, a: Action)
    ensures Illegal(s.shared, WritesOf(w, s, a)) <==> Forbidden(w, s, a)
  {
    if Enabled(s, a) {
      match a
      case CallProtect(_, params, _) => EntryIllegal(s.shared, params, s.now);
      case AnswerProtect(id, answer) => ResumeIllegal(w, s.shared, PcOf(s.frames[id]).value, answer, s.now);
      case AnswerPoll(id, poll) =>
        if poll.Polls? {
          match s.frames[id] {
            case Snapping(b) => PollIllegal(s.shared, b, poll.state);
            case Ticking(Polling(item, _)) => ActIllegal(s.shared, item, poll.state, s.now);
            case Ticking(Sampling(item, st, _)) => ActIllegal(s.shared, item, st, s.now);
          }
        }
      case DoUnregister(b) =>
        if Forbidden(w, s, a) { assert b in WritesOf(w, s, a); }
      case _ =>
    }
  }

  /** No check stands between a branch and the table: a step makes a forbidden move exactly when the
      branch it takes is entered from a recorded state other than those the table allows it. Entering
      asks for WATCH or ASSESSING, declining for ASSESSING or DECLINED, submitting for READY or
      SUBMITTED, resolving for SUBMITTED or the same outcome; and so on for every branch. */
  lemma JumpsWhen(w: Wiring, s: System, a: Action)
    ensures Jumps(s, Step(w, s, a)) <==> Forbidden(w, s, a)
  {
    var t, ws := Step(w, s, a), WritesOf(w, s, a);
    if Jumps(s, t) {
      var b :| !CanTransition(Shown(s, b), Shown(t, b));
      StepRecords(w, s, a, b);
    }
    if b :| b in ws && !CanTransition(StateOf(s.shared, b), ws[b]) {
      StepRecords(w, s, a, b);
    }
    WritesIllegal(w, s, a);
  }

  /** Entering `protect` is a legal move exactly for a borrower recorded as WATCH or already ASSESSING. */
  lemma EnteringJumps(w: Wiring, s: System, id: nat, p: RiskParams, signature: string)
    requires id !in s.frames && !s.shared.breaker.paused && InFlight.CanStart(s.shared.inflight, p.borrower, s.now)
    ensures Jumps(s, Step(w, s, CallProtect(id, p, signature)))
            <==> Shown(s, p.borrower) != Watch && Shown(s, p.borrower) != Assessing
  {
    JumpsWhen(w, s, CallProtect(id, p, signature));
  }

  lemma NeverWritesReady(w: Wiring, s: System, a: Action, b: Address)
    requires w == Wiring(true, true)
    ensures b in WritesOf(w, s, a) ==> WritesOf(w, s, a)[b] != Ready
  {
  }

  lemma {:induction false} NobodyIsReady(w: Wiring, s: System, acts: seq<Action>)
    requires w == Wiring(true, true) && forall b :: Shown(s, b) != Ready
    ensures forall b :: Shown(Run(w, s, acts), b) != Ready
    decreases |acts|
  {
    if acts != [] {
      forall b
        ensures Shown(Step(w, s, acts[0]), b) != Ready
      {
        assert Shown(s, b) != Ready;
        StepRecords(w, s, acts[0], b);
        NeverWritesReady(w, s, acts[0], b);
      }
      NobodyIsReady(w, Step(w, s, acts[0]), acts[1..]);
    }
  }

  /** The table reaches SUBMITTED only from READY, which a keeper that can submit never records: every
      submission it starts is a jump, unless the borrower was recorded as SUBMITTED already. */
  lemma {:induction false} EverySubmissionJumps(w: Wiring, s: System, acts: seq<Action>, a: Action, b: Address)
    requires w == Wiring(true, true) && forall c :: Shown(s, c) != Ready
    requires Takes(w, Run(w, s, acts), a, b)
    ensures var t := Run(w, s, acts);
            && Shown(Step(w, t, a), b) == Submitted
            && (Jumps(t, Step(w, t, a)) <==> Shown(t, b) != Submitted)
  {
    var t := Run(w, s, acts);
    NobodyIsReady(w, s, acts);
    JumpsWhen(w, t, a);
    StepRecords(w, t, a, b);
    SubmittedIsTaken(w, t, a, b);
  }
}
