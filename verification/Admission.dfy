/** Who is let in, what is carried through and who is visited, over every run
    (backend/app/core/protection_service.py, backend/app/core/inflight.py). */
module Admission {
  import opened Arithmetic
  import opened Models
  import opened Observability
  import opened Service
  import opened BreakerHistory
  import opened KeeperSystem
  import Breaker
  import InFlight

  // ---- Exactly when a borrower is startable ------------------------------------------------------

  /** No submission for the borrower is outstanding. */
  ghost predicate Idle(s: System, b: Address) {
    forall id :: !Holds(s.frames, id, b)
  }

  /** The cooldown in force when the borrower's last submission ended is over, if there was one. */
  predicate Rested(s: System, b: Address) {
    var r := Of(s.history, b);
    r == [] || r[|r| - 1].end + r[|r| - 1].cooldown <= s.now
  }

  lemma StartableWhen(w: Wiring, s: System, b: Address)
    requires Inv(w, s)
    ensures InFlight.CanStart(s.shared.inflight, b, s.now) <==> Idle(s, b) && Rested(s, b)
  {
    assert CoolsDown(s, b);
    if b in s.shared.inflight.locked {
      var id :| Holds(s.frames, id, b);
    }
  }

  lemma EntersWhen(w: Wiring, s: System, id: nat, p: RiskParams, signature: string)
    requires id !in s.frames
    ensures var t := Step(w, s, CallProtect(id, p, signature));
            && (id in t.frames <==> !s.shared.breaker.paused && InFlight.CanStart(s.shared.inflight, p.borrower, s.now))
            && (id in t.frames ==> t.frames[id] == Api(Evaluating(p, signature)))
  {
  }

  /** In every run, a call is admitted exactly when the breaker is closed, no submission for its borrower is
      outstanding, and the cooldown of the last one, if any, is over. */
  lemma {:induction false} AdmittedWhen(w: Wiring, s: System, acts: seq<Action>, id: nat, p: RiskParams, signature: string)
    requires Initial(s) && id !in Run(w, s, acts).frames
    ensures var t := Run(w, s, acts);
            var u := Step(w, t, CallProtect(id, p, signature));
            id in u.frames <==> !t.shared.breaker.paused && Idle(t, p.borrower) && Rested(t, p.borrower)
  {
    Reachable(w, s, acts);
    var t := Run(w, s, acts);
    StartableWhen(w, t, p.borrower);
    EntersWhen(w, t, id, p, signature);
  }

  /** In every run, a call back from a successful dry-run submits exactly when the keeper can submit, no
      submission for its borrower is outstanding, and the cooldown of the last one, if any, is over. */
  lemma {:induction false} SubmitsWhen(w: Wiring, s: System, acts: seq<Action>, id: nat, sim: SimulationResult, plan: RescuePlan)
    requires Initial(s)
    requires var t := Run(w, s, acts); id in t.frames && t.frames[id].Api? && t.frames[id].pc.Simulating?
    ensures var t := Run(w, s, acts);
            var b := t.frames[id].pc.params.borrower;
            Holds(Step(w, t, AnswerProtect(id, Simulated(sim, plan))).frames, id, b)
            <==> sim.success && w.submitter && Idle(t, b) && Rested(t, b)
  {
    Reachable(w, s, acts);
    var t := Run(w, s, acts);
    StartableWhen(w, t, t.frames[id].pc.params.borrower);
    DryRunEnds(w, t, id, sim, plan);
  }

  lemma DryRunEnds(w: Wiring, t: System, id: nat, sim: SimulationResult, plan: RescuePlan)
    requires id in t.frames && t.frames[id].Api? && t.frames[id].pc.Simulating?
    ensures var b := t.frames[id].pc.params.borrower;
            Holds(Step(w, t, AnswerProtect(id, Simulated(sim, plan))).frames, id, b)
            <==> sim.success && w.submitter && InFlight.CanStart(t.shared.inflight, b, t.now)
  {
  }

  /** The worker is about to act on this entry, its poll having said `st`. */
  predicate Deciding(f: Frame, poll: PollAnswer, item: Item, st: Observation) {
    poll.Polls? && match f
                   case Ticking(Polling(i, _)) => i == item && i.1.allowedCollaterals == [] && st == poll.state
                   case Ticking(Sampling(i, found, _)) => i == item && st == found
                   case _ => false
  }

  lemma WorkerEntersWhen(w: Wiring, s: System, id: nat, poll: PollAnswer, item: Item, st: Observation)
    requires Enabled(s, AnswerPoll(id, poll)) && Deciding(s.frames[id], poll, item, st)
    ensures Step(w, s, AnswerPoll(id, poll)).entered
         == s.entered + One(st == Assessing && !s.shared.breaker.paused && InFlight.CanStart(s.shared.inflight, item.0, s.now))
  {
  }

  /** In every run, the worker calls `protect` exactly when the poll says ASSESSING, the breaker is closed, no
      submission for the borrower is outstanding and its last cooldown is over. */
  lemma {:induction false} WorkerActsWhen(w: Wiring, s: System, acts: seq<Action>, id: nat, poll: PollAnswer, item: Item, st: Observation)
    requires Initial(s)
    requires var t := Run(w, s, acts); Enabled(t, AnswerPoll(id, poll)) && Deciding(t.frames[id], poll, item, st)
    ensures var t := Run(w, s, acts);
            Step(w, t, AnswerPoll(id, poll)).entered
            == t.entered + One(st == Assessing && !t.shared.breaker.paused && Idle(t, item.0) && Rested(t, item.0))
  {
    Reachable(w, s, acts);
    StartableWhen(w, Run(w, s, acts), item.0);
    WorkerEntersWhen(w, Run(w, s, acts), id, poll, item, st);
  }

  lemma {:induction false} RunSnoc(w: Wiring, s: System, acts: seq<Action>, a: Action)
    ensures Run(w, s, acts + [a]) == Step(w, Run(w, s, acts), a)
    decreases |acts|
  {
    if acts == [] {
      RunCons(w, s, a, []);
      assert [] + [a] == [a] + [];
    } else {
      assert (acts + [a])[1..] == acts[1..] + [a];
      RunSnoc(w, Step(w, s, acts[0]), acts[1..], a);
    }
  }

  /** Right after a reset every call for an idle, rested borrower is admitted; right after a hard signal none
      is, and the refusal names that signal. */
  lemma {:induction false} ResetAdmits(w: Wiring, s: System, acts: seq<Action>, id: nat, p: RiskParams, signature: string)
    requires Initial(s) && id !in Run(w, s, acts).frames
    ensures var t := Run(w, s, acts + [ResetBreaker]);
            id in Step(w, t, CallProtect(id, p, signature)).frames <==> Idle(t, p.borrower) && Rested(t, p.borrower)
  {
    RunSnoc(w, s, acts, ResetBreaker);
    var t := Run(w, s, acts + [ResetBreaker]);
    PausedExactlyWhen(w, s, acts + [ResetBreaker]);
    assert t.verdicts[|t.verdicts| - 1].Reset?;
    AdmittedWhen(w, s, acts + [ResetBreaker], id, p, signature);
  }

  lemma {:induction false} HardSignalRefuses(w: Wiring, s: System, acts: seq<Action>, reason: Breaker.TripReason, p: RiskParams,
                                             signature: string)
    requires Initial(s)
    ensures var t := Run(w, s, acts + [TripBreaker(reason)]);
            var o := Begin(t.shared, p, signature, t.now).1;
            o.Returned? && o.response.reason == BreakerPaused(Some(reason))
  {
    RunSnoc(w, s, acts, TripBreaker(reason));
    var t := Run(w, s, acts + [TripBreaker(reason)]);
    PausedExactlyWhen(w, s, acts + [TripBreaker(reason)]);
    var k := |t.verdicts| - 1;
    assert t.verdicts[k] == Hard(reason);
    assert LastHard(t.verdicts, k);
  }

  /** What a refused call is told: its borrower and the state recorded, no submission, and why. */
  lemma RefusalsAreTrue(s: Shared, p: RiskParams, signature: string, now: real)
    requires Begin(s, p, signature, now).1.Returned?
    ensures var (t, o) := Begin(s, p, signature, now);
            var r := o.response;
            && r.borrower == p.borrower && r.state == StateOf(t, p.borrower) == StateOf(s, p.borrower)
            && !r.submitted && r.txHash.None? && r.assessment.None? && !r.viaFallback
            && r.reason == if s.breaker.paused then BreakerPaused(s.breaker.reason) else InFlightOrCooling
  {
  }

  // ---- Configuration in force --------------------------------------------------------------------

  function MaxAfter(max: int, acts: seq<Action>): int
    decreases |acts|
  {
    if acts == [] then max
    else MaxAfter(if acts[0].SetMax? && acts[0].max >= 1 then acts[0].max else max, acts[1..])
  }

  function CooldownAfter(c: real, acts: seq<Action>): real
    decreases |acts|
  {
    if acts == [] then c
    else CooldownAfter(if acts[0].SetCooldown? then (if acts[0].seconds < 0.0 then 0.0 else acts[0].seconds) else c, acts[1..])
  }

  function SwitchAfter(on: bool, acts: seq<Action>): bool
    decreases |acts|
  {
    if acts == [] then on else SwitchAfter(if acts[0].SetAutonomous? then acts[0].on else on, acts[1..])
  }

  lemma StepConfigured(w: Wiring, s: System, a: Action)
    ensures var t := Step(w, s, a).shared;
            && t.breaker.max == (if a.SetMax? && a.max >= 1 then a.max else s.shared.breaker.max)
            && t.inflight.cooldown == (if a.SetCooldown? then (if a.seconds < 0.0 then 0.0 else a.seconds)
                                       else s.shared.inflight.cooldown)
            && t.autonomous == (if a.SetAutonomous? then a.on else s.shared.autonomous)
  {
    if Enabled(s, a) && a.AnswerProtect? {
      ResumeShape(w, s, a);
      ResumeConfigured(w, s.shared, PcOf(s.frames[a.id]).value, a.answer, s.now);
    } else if Enabled(s, a) && FrameAction(a) {
      OtherConfigured(w, s, a);
    }
  }

  lemma ResumeConfigured(w: Wiring, s: Shared, pc: Pc, a: Answer, now: real)
    requires Fits(pc, a)
    ensures var t := Resume(w, s, pc, a, now).0;
            t.breaker.max == s.breaker.max && t.inflight.cooldown == s.inflight.cooldown && t.autonomous == s.autonomous
            && t.registry == s.registry
  {
  }

  lemma OtherConfigured(w: Wiring, s: System, a: Action)
    requires Enabled(s, a) && FrameAction(a) && !a.AnswerProtect?
    ensures var t := Step(w, s, a).shared;
            t.breaker == s.shared.breaker && t.inflight == s.shared.inflight && t.autonomous == s.shared.autonomous
  {
    OtherShape(w, s, a);
    OtherSwitch(w, s, a);
  }

  lemma OtherSwitch(w: Wiring, s: System, a: Action)
    requires Enabled(s, a) && FrameAction(a) && !a.AnswerProtect?
    ensures Segment(w, s, a).0.autonomous == s.shared.autonomous
  {
    if a.AnswerPoll? && a.poll.Polls? {
      match s.frames[a.id]
      case Ticking(Polling(item, rest)) => ActRegisters(s.shared, item, a.poll.state, rest, s.now);
      case Ticking(Sampling(item, st, rest)) => ActRegisters(s.shared, item, st, rest, s.now);
      case Snapping(_) =>
    }
  }

  /** In every run the threshold, the cooldown and the switch in force are those last set, a negative cooldown
      counting as zero; nothing else moves them. */
  lemma {:induction false} ConfigInForce(w: Wiring, s: System, acts: seq<Action>)
    ensures var t := Run(w, s, acts).shared;
            && t.breaker.max == MaxAfter(s.shared.breaker.max, acts)
            && t.inflight.cooldown == CooldownAfter(s.shared.inflight.cooldown, acts)
            && t.autonomous == SwitchAfter(s.shared.autonomous, acts)
    decreases |acts|
  {
    if acts != [] {
      StepConfigured(w, s, acts[0]);
      ConfigInForce(w, Step(w, s, acts[0]), acts[1..]);
    }
  }

  // ---- Errors counted -----------------------------------------------------------------------------

  /** An exception the service counts: a submitter's, and whatever fails an iteration of the worker. */
  function ErrorIn(s: System, a: Action): nat {
    if !Enabled(s, a) then 0
    else if a.AnswerProtect? then One(a.answer.Threw? && (StageAt(s, a.id) == Some(Sub) || s.frames[a.id].Ticking?))
    else if a.AnswerPoll? then One(a.poll.PollThrew? && s.frames[a.id].Ticking?)
    else 0
  }

  function ErrorsIn(w: Wiring, s: System, acts: seq<Action>): nat
    decreases |acts|
  {
    if acts == [] then 0 else ErrorIn(s, acts[0]) + ErrorsIn(w, Step(w, s, acts[0]), acts[1..])
  }

  lemma ResumeErrs(w: Wiring, s: Shared, pc: Pc, a: Answer, now: real)
    requires Fits(pc, a)
    ensures var (t, o) := Resume(w, s, pc, a, now);
            && t.counts.errors == s.counts.errors + One(pc.Submitting? && a.Threw?)
            && (o == Escaped(false) <==> a.Threw? && !pc.Submitting?)
  {
    if pc.Evaluating? {
    } else if pc.Simulating? {
    } else if a.Receipt? {
    } else {
    }
  }

  lemma AnswerErrs(w: Wiring, s: System, a: Action)
    requires Enabled(s, a) && a.AnswerProtect?
    ensures Step(w, s, a).shared.counts.errors == s.shared.counts.errors + ErrorIn(s, a)
  {
    ResumeErrs(w, s.shared, PcOf(s.frames[a.id]).value, a.answer, s.now);
  }

  lemma ActErrs(s: Shared, item: Item, st: Observation, rest: seq<Item>, now: real)
    ensures Act(s, item, st, rest, now).0.counts.errors == s.counts.errors
  {
  }

  lemma PollErrs(w: Wiring, s: System, a: Action)
    requires Enabled(s, a) && a.AnswerPoll?
    ensures Step(w, s, a).shared.counts.errors == s.shared.counts.errors + ErrorIn(s, a)
  {
    match s.frames[a.id]
    case Ticking(Polling(item, rest)) => if a.poll.Polls? { ActErrs(s.shared, item, a.poll.state, rest, s.now); }
    case Ticking(Sampling(item, st, rest)) => ActErrs(s.shared, item, st, rest, s.now);
    case Snapping(_) =>
  }

  lemma StepErrs(w: Wiring, s: System, a: Action)
    ensures Step(w, s, a).shared.counts.errors == s.shared.counts.errors + ErrorIn(s, a)
  {
    if Enabled(s, a) && a.AnswerProtect? {
      AnswerErrs(w, s, a);
    } else if Enabled(s, a) && a.AnswerPoll? {
      PollErrs(w, s, a);
    }
  }

  /** In every run the error counter is the exceptions of submitters and of worker iterations, one each. */
  lemma {:induction false} ErrorsAreCounted(w: Wiring, s: System, acts: seq<Action>)
    ensures Run(w, s, acts).shared.counts.errors == s.shared.counts.errors + ErrorsIn(w, s, acts)
    decreases |acts|
  {
    if acts != [] {
      StepErrs(w, s, acts[0]);
      ErrorsAreCounted(w, Step(w, s, acts[0]), acts[1..]);
    }
  }

  // ---- The registry --------------------------------------------------------------------------------

  /** The entries a step registers: the caller's pair, also when the call is then refused; the worker's own
      when it calls `protect`. */
  function Registers(s: System, a: Action): map<Address, (RiskParams, string)> {
    if !Enabled(s, a) then map[] else
    match a
    case CallProtect(_, params, signature) => map[params.borrower := (params, signature)]
    case DoRegister(params, signature) => map[params.borrower := (params, signature)]
    case AnswerPoll(id, poll) =>
      if !poll.Polls? then map[] else
      (match s.frames[id]
       case Ticking(Polling(item, _)) => if item.1.allowedCollaterals != [] then map[] else Reenters(s.shared, item, poll.state, s.now)
       case Ticking(Sampling(item, st, _)) => Reenters(s.shared, item, st, s.now)
       case _ => map[])
    case _ => map[]
  }

  function Reenters(s: Shared, item: Item, st: Observation, now: real): map<Address, (RiskParams, string)> {
    if st == Assessing && !s.breaker.paused && InFlight.CanStart(s.inflight, item.0, now)
    then map[item.1.borrower := (item.1, item.2)] else map[]
  }

  lemma ActRegisters(s: Shared, item: Item, st: Observation, rest: seq<Item>, now: real)
    ensures var t := Act(s, item, st, rest, now).0;
            t.registry == s.registry + Reenters(s, item, st, now) && t.autonomous == s.autonomous
  {
    var p := Polled(s, item.0, st);
    assert p.registry == s.registry && p.breaker == s.breaker && p.inflight == s.inflight && p.autonomous == s.autonomous;
    if st == Assessing && !s.breaker.paused && InFlight.CanStart(s.inflight, item.0, now) {
      BeginRegisters(p, item.1, item.2, now);
    }
  }

  lemma BeginRegisters(s: Shared, params: RiskParams, signature: string, now: real)
    ensures var t := Begin(s, params, signature, now).0;
            t.registry == s.registry + map[params.borrower := (params, signature)] && t.autonomous == s.autonomous
  {
  }

  /** Every step registers those entries, the newest replacing the borrower's last, and removes only a
      borrower that is unregistered. */
  lemma StepRegisters(w: Wiring, s: System, a: Action)
    ensures var t := Step(w, s, a).shared.registry;
            t == (s.shared.registry - (if a.DoUnregister? then {a.borrower} else {})) + Registers(s, a)
  {
    if !Enabled(s, a) || !FrameAction(a) {
    } else if a.AnswerProtect? {
      ResumeShape(w, s, a);
      ResumeConfigured(w, s.shared, PcOf(s.frames[a.id]).value, a.answer, s.now);
    } else {
      OtherRegisters(w, s, a);
    }
  }

  lemma OtherRegisters(w: Wiring, s: System, a: Action)
    requires Enabled(s, a) && FrameAction(a) && !a.AnswerProtect?
    ensures Segment(w, s, a).0.registry == s.shared.registry + Registers(s, a)
  {
    if a.CallProtect? {
      BeginRegisters(s.shared, a.params, a.signature, s.now);
    } else if a.AnswerPoll? && a.poll.Polls? {
      match s.frames[a.id]
      case Ticking(Polling(item, rest)) => ActRegisters(s.shared, item, a.poll.state, rest, s.now);
      case Ticking(Sampling(item, st, rest)) => ActRegisters(s.shared, item, st, rest, s.now);
      case Snapping(_) =>
    }
  }

  // ---- What a call carries ---------------------------------------------------------------------------

  /** Call `id` was given this mandate and signature: by its caller, or by the pass that made it. */
  ghost predicate Given(acts: seq<Action>, id: nat, params: RiskParams, signature: string) {
    || CallProtect(id, params, signature) in acts
    || exists i :: 0 <= i < |acts| && Lists(acts[i], id, params, signature)
  }

  predicate Lists(a: Action, id: nat, params: RiskParams, signature: string) {
    a.StartTick? && a.id == id && exists k :: 0 <= k < |a.items| && a.items[k].1 == params && a.items[k].2 == signature
  }

  /** What is left of a pass, the current entry included. */
  function Remaining(f: Frame): seq<Item> {
    match f
    case Ticking(Polling(item, rest)) => [item] + rest
    case Ticking(Sampling(item, _, rest)) => [item] + rest
    case Ticking(Protecting(_, rest)) => rest
    case _ => []
  }

  ghost predicate FrameGiven(acts: seq<Action>, id: nat, f: Frame) {
    && (PcOf(f).Some? ==> Given(acts, id, PcOf(f).value.params, PcOf(f).value.signature))
    && (forall k :: 0 <= k < |Remaining(f)| ==> Given(acts, id, Remaining(f)[k].1, Remaining(f)[k].2))
  }

  lemma GivenStays(acts: seq<Action>, a: Action, id: nat, params: RiskParams, signature: string)
    requires Given(acts, id, params, signature)
    ensures Given(acts + [a], id, params, signature)
  {
    if i :| 0 <= i < |acts| && Lists(acts[i], id, params, signature) {
      assert (acts + [a])[i] == acts[i];
    }
  }

  lemma FrameGivenStays(acts: seq<Action>, a: Action, id: nat, f: Frame)
    requires FrameGiven(acts, id, f)
    ensures FrameGiven(acts + [a], id, f)
  {
    if PcOf(f).Some? { GivenStays(acts, a, id, PcOf(f).value.params, PcOf(f).value.signature); }
    forall k | 0 <= k < |Remaining(f)|
      ensures Given(acts + [a], id, Remaining(f)[k].1, Remaining(f)[k].2)
    {
      GivenStays(acts, a, id, Remaining(f)[k].1, Remaining(f)[k].2);
    }
  }

  /** A call keeps its mandate and signature from await to await, and submits what its dry-run accepted. */
  lemma ResumeCarries(w: Wiring, s: Shared, pc: Pc, a: Answer, now: real)
    requires Fits(pc, a) && Resume(w, s, pc, a, now).1.Suspended?
    ensures var pc' := Resume(w, s, pc, a, now).1.pc;
            && pc'.params == pc.params && pc'.signature == pc.signature
            && (if pc.Evaluating? then
                  a.Evaluated? && a.response.viable && a.plan.Some?
                  && pc' == Simulating(pc.params, pc.signature, a.response, a.plan.value)
                else
                  pc.Simulating? && a.Simulated? && a.sim.success
                  && pc' == Submitting(pc.params, pc.signature, pc.response, a.simPlan, a.sim))
  {
  }

  /** Where a frame that keeps running comes from. */
  lemma StepFrame(w: Wiring, s: System, a: Action, acts: seq<Action>, id: nat)
    requires id in Step(w, s, a).frames && (id in s.frames ==> FrameGiven(acts, id, s.frames[id]))
    ensures FrameGiven(acts + [a], id, Step(w, s, a).frames[id])
  {
    if !Enabled(s, a) || !FrameAction(a) || a.id != id {
      FrameGivenStays(acts, a, id, s.frames[id]);
    } else if a.AnswerProtect? {
      AnswerFrame(w, s, a, acts, id);
    } else if a.AnswerPoll? {
      PollFrame(w, s, a, acts, id);
    } else {
      assert (acts + [a])[|acts|] == a;
      NewFrame(w, s, a, acts, id);
    }
  }

  lemma NewFrame(w: Wiring, s: System, a: Action, acts: seq<Action>, id: nat)
    requires Enabled(s, a) && (a.CallProtect? || a.CallSnapshot? || a.StartTick?) && a.id == id
    requires id in Step(w, s, a).frames
    ensures FrameGiven(acts + [a], id, Step(w, s, a).frames[id])
  {
    var f := Step(w, s, a).frames[id];
    assert (acts + [a])[|acts|] == a;
    if a.StartTick? {
      assert Remaining(f) == a.items;
      forall k | 0 <= k < |a.items|
        ensures Given(acts + [a], id, a.items[k].1, a.items[k].2)
      {
        assert Lists(a, id, a.items[k].1, a.items[k].2);
      }
    }
  }

  /** Whoever goes on after `protect` goes on with the rest of the pass. */
  lemma AnswerRemains(w: Wiring, s: System, a: Action, id: nat)
    requires Enabled(s, a) && a.AnswerProtect? && a.id == id && id in Step(w, s, a).frames
    ensures Remaining(Step(w, s, a).frames[id]) == Remaining(s.frames[id])
  {
    if s.frames[id].Ticking? {
      var rest := s.frames[id].tick.rest;
      assert NextItem(rest).Polling? ==> [rest[0]] + rest[1..] == rest;
    }
  }

  lemma AnswerFrame(w: Wiring, s: System, a: Action, acts: seq<Action>, id: nat)
    requires Enabled(s, a) && a.AnswerProtect? && a.id == id && id in Step(w, s, a).frames
    requires FrameGiven(acts, id, s.frames[id])
    ensures FrameGiven(acts + [a], id, Step(w, s, a).frames[id])
  {
    var pc, f := PcOf(s.frames[id]).value, Step(w, s, a).frames[id];
    FrameGivenStays(acts, a, id, s.frames[id]);
    if Resume(w, s.shared, pc, a.answer, s.now).1.Suspended? { ResumeCarries(w, s.shared, pc, a.answer, s.now); }
    AnswerRemains(w, s, a, id);
  }

  lemma PollFrame(w: Wiring, s: System, a: Action, acts: seq<Action>, id: nat)
    requires Enabled(s, a) && a.AnswerPoll? && a.id == id && id in Step(w, s, a).frames
    requires FrameGiven(acts, id, s.frames[id])
    ensures FrameGiven(acts + [a], id, Step(w, s, a).frames[id])
  {
    var f, was := Step(w, s, a).frames[id], s.frames[id];
    FrameGivenStays(acts, a, id, was);
    PollRemains(w, s, a, id);
    assert Given(acts + [a], id, Remaining(was)[0].1, Remaining(was)[0].2);
  }

  /** After a poll or a sample a pass stays with its entry, or goes on with the rest. */
  lemma PollRemains(w: Wiring, s: System, a: Action, id: nat)
    requires Enabled(s, a) && a.AnswerPoll? && a.id == id && id in Step(w, s, a).frames
    ensures var f, was := Step(w, s, a).frames[id], s.frames[id];
            && Remaining(was) != []
            && (Remaining(f) == Remaining(was) || Remaining(f) == Remaining(was)[1..])
            && (PcOf(f).Some? ==>
                  PcOf(f).value.params == Remaining(was)[0].1 && PcOf(f).value.signature == Remaining(was)[0].2)
  {
    match s.frames[id]
    case Ticking(Polling(item, rest)) =>
      ItemFirst(item, rest);
      if a.poll.Polls? { ActRemains(s.shared, item, a.poll.state, rest, s.now); }
    case Ticking(Sampling(item, st, rest)) =>
      ItemFirst(item, rest);
      ActRemains(s.shared, item, st, rest, s.now);
    case Snapping(_) =>
  }

  lemma ItemFirst(item: Item, rest: seq<Item>)
    ensures ([item] + rest)[0] == item && ([item] + rest)[1..] == rest
    ensures rest != [] ==> Remaining(Ticking(NextItem(rest))) == rest
  {
  }

  lemma ActRemains(s: Shared, item: Item, st: Observation, rest: seq<Item>, now: real)
    ensures var t := Act(s, item, st, rest, now).1;
            || t == NextItem(rest)
            || (t.Protecting? && t.rest == rest && t.pc.params == item.1 && t.pc.signature == item.2)
  {
  }

  lemma {:induction false} RunGiven(w: Wiring, s: System, acts: seq<Action>)
    requires Initial(s)
    ensures forall id :: id in Run(w, s, acts).frames ==> FrameGiven(acts, id, Run(w, s, acts).frames[id])
    decreases |acts|
  {
    if acts != [] {
      var n := |acts| - 1;
      RunGiven(w, s, acts[..n]);
      assert acts == acts[..n] + [acts[n]];
      RunSnoc(w, s, acts[..n], acts[n]);
      var t := Run(w, s, acts[..n]);
      forall id | id in Run(w, s, acts).frames
        ensures FrameGiven(acts, id, Run(w, s, acts).frames[id])
      {
        StepFrame(w, t, acts[n], acts[..n], id);
      }
    }
  }

  /** In every run, every submission outstanding goes out under the very mandate and signature its caller
      gave, or that stood in the registry copy of the pass that made it. */
  lemma {:induction false} CarriesMandate(w: Wiring, s: System, acts: seq<Action>, id: nat)
    requires Initial(s)
    requires var t := Run(w, s, acts); id in t.frames && PcOf(t.frames[id]).Some?
    ensures var pc := PcOf(Run(w, s, acts).frames[id]).value; Given(acts, id, pc.params, pc.signature)
  {
    RunGiven(w, s, acts);
  }

  // ---- No pass when switched off -------------------------------------------------------------------

  /** Switched off, the worker does not start a pass. */
  lemma {:induction false} OffMeansOff(w: Wiring, s: System, acts: seq<Action>, id: nat, items: seq<Item>)
    requires !SwitchAfter(s.shared.autonomous, acts)
    ensures Step(w, Run(w, s, acts), StartTick(id, items)) == Run(w, s, acts)
  {
    ConfigInForce(w, s, acts);
  }

  // ---- A pass visits everybody ----------------------------------------------------------------------

  /** This entry's poll is answered, well or by an exception, in this step. */
  function PolledIn(s: System, a: Action, id: nat): seq<Item> {
    if Enabled(s, a) && a.AnswerPoll? && a.id == id && s.frames[id].Ticking? && s.frames[id].tick.Polling?
    then [s.frames[id].tick.item] else []
  }

  function PolledAlong(w: Wiring, s: System, acts: seq<Action>, id: nat): seq<Item>
    decreases |acts|
  {
    if acts == [] then [] else PolledIn(s, acts[0], id) + PolledAlong(w, Step(w, s, acts[0]), acts[1..], id)
  }

  /** Entries whose poll is not answered yet. */
  function Unpolled(s: System, id: nat): seq<Item> {
    if id !in s.frames then []
    else match s.frames[id]
         case Ticking(Polling(item, rest)) => [item] + rest
         case Ticking(Sampling(_, _, rest)) => rest
         case Ticking(Protecting(_, rest)) => rest
         case _ => []
  }

  /** The step neither cancels frame `id` nor begins another in its place. */
  predicate Leaves(a: Action, id: nat) {
    match a
    case CallProtect(i, _, _) => i != id
    case CallSnapshot(i, _) => i != id
    case StartTick(i, _) => i != id
    case AnswerProtect(i, answer) => i == id ==> !answer.Cancel?
    case AnswerPoll(i, poll) => i == id ==> !poll.PollCancel?
    case _ => true
  }

  lemma PollAdvances(w: Wiring, s: System, a: Action, id: nat)
    requires Enabled(s, a) && a.AnswerPoll? && a.id == id && Leaves(a, id)
    ensures PolledIn(s, a, id) + Unpolled(Step(w, s, a), id) == Unpolled(s, id)
  {
    var t := Step(w, s, a);
    match s.frames[id]
    case Ticking(Polling(item, rest)) => assert Unpolled(t, id) == rest;
    case Ticking(Sampling(item, st, rest)) => assert Unpolled(t, id) == rest;
    case Snapping(_) =>
  }

  lemma StepAdvances(w: Wiring, s: System, a: Action, id: nat)
    requires Leaves(a, id)
    ensures PolledIn(s, a, id) + Unpolled(Step(w, s, a), id) == Unpolled(s, id)
  {
    var t := Step(w, s, a);
    if !Enabled(s, a) || !FrameAction(a) || a.id != id {
      assert Unpolled(t, id) == Unpolled(s, id);
    } else if a.AnswerPoll? {
      PollAdvances(w, s, a, id);
    } else {
      assert Unpolled(t, id) == Unpolled(s, id);
    }
  }

  lemma {:induction false} RunAdvances(w: Wiring, s: System, acts: seq<Action>, id: nat)
    requires forall a :: a in acts ==> Leaves(a, id)
    ensures PolledAlong(w, s, acts, id) + Unpolled(Run(w, s, acts), id) == Unpolled(s, id)
    decreases |acts|
  {
    if acts != [] {
      StepAdvances(w, s, acts[0], id);
      RunAdvances(w, Step(w, s, acts[0]), acts[1..], id);
      assert forall a :: a in acts[1..] ==> a in acts;
    }
  }

  /** A pass that is not cancelled polls the entries of its registry copy in order, each once, going on to the
      next after a poll, a sample or a `protect` that raised; when it is over it has polled them all. */
  lemma {:induction false} PassVisitsAll(w: Wiring, s: System, id: nat, items: seq<Item>, acts: seq<Action>)
    requires Enabled(s, StartTick(id, items)) && forall a :: a in acts ==> Leaves(a, id)
    ensures var t := Step(w, s, StartTick(id, items));
            var u := Run(w, t, acts);
            && PolledAlong(w, t, acts, id) <= items
            && (id !in u.frames ==> PolledAlong(w, t, acts, id) == items)
  {
    var t := Step(w, s, StartTick(id, items));
    RunAdvances(w, t, acts, id);
    assert Unpolled(t, id) == items;
    if id !in Run(w, t, acts).frames { assert PolledAlong(w, t, acts, id) + [] == PolledAlong(w, t, acts, id); }
  }
}
