/** The dry-run loop with its bounded bumps (backend/app/core/simulator.py). */
module Simulator {
  import opened Arithmetic
  import opened Models
  import Sizing

  const BUMP_BPS := 200

  /** How one dry-run ends: accepted; reverted with a message; or any other fault. */
  datatype DryRun = Accepted | Reverted(reason: string) | Faulted(error: string)

  /** A swap quote, or the exception the quoter raised. */
  datatype Quote = Quoted(amountIn: int) | QuoteThrew

  /** What the call meets: the n-th dry-run of a given pair, the quote before bump n, and the bump limit,
      which a configuration update may change meanwhile, as read before attempt n and after its revert. */
  datatype World = World(dryRun: (nat, int, int) -> DryRun, quote: (nat, int) -> Quote, enter: nat -> int, retry: nat -> int)

  /** No limit above `top` is ever configured. */
  ghost predicate Capped(world: World, top: int) {
    forall n: nat :: world.enter(n) <= top && world.retry(n) <= top
  }

  /** The limit stays as it is during the call. */
  ghost predicate Fixed(world: World, maxBumps: int) {
    forall n: nat :: world.enter(n) == maxBumps && world.retry(n) == maxBumps
  }

  /** The plan object, which a successful simulation after a bump updates in place. */
  class PlanCell {
    var plan: RescuePlan

    constructor (plan: RescuePlan)
      ensures this.plan == plan
    {
      this.plan := plan;
    }
  }

  function AmountInMaximum(amountIn: int, maxSlippageBps: int): int {
    amountIn * (BPS + maxSlippageBps) / BPS
  }

  predicate Contains(text: string, part: string) {
    exists i :: 0 <= i <= |text| && part <= text[i..]
  }

  predicate Bumpable(reason: string) {
    Contains(reason, "HealthBelowTarget") || Contains(reason, "DebtNotReduced")
  }

  /** A revert with no data: the call got as far as the flash loan on a fork that cannot run it. */
  predicate EmptyRevert(reason: string) {
    Contains(reason, "'0x'") || Contains(reason, "execution reverted', '0x'") || reason == "execution reverted"
  }

  function Bump(repay: int): int {
    repay * (BPS + BUMP_BPS) / BPS
  }

  /** The repayment after `n` bumps. */
  function Bumped(repay: int, n: nat): int {
    if n == 0 then repay else Bump(Bumped(repay, n - 1))
  }

  /** The input quoted for the `n`-th repayment: the plan's own before any bump. */
  function InputFor(plan: RescuePlan, world: World, n: nat): Option<int> {
    if n == 0 then Some(plan.amountIn)
    else match world.quote(n, WithFlashPremium(Bumped(plan.repayAmount, n)))
         case Quoted(amount) => Some(amount)
         case QuoteThrew => None
  }

  /** The pair submitted to the `n`-th dry-run. */
  function PairAt(plan: RescuePlan, world: World, n: nat): (int, int)
    requires InputFor(plan, world, n).Some?
  {
    (Bumped(plan.repayAmount, n), AmountInMaximum(InputFor(plan, world, n).value, plan.maxSlippageBps))
  }

  function Answer(plan: RescuePlan, world: World, n: nat): DryRun
    requires InputFor(plan, world, n).Some?
  {
    var (repay, most) := PairAt(plan, world, n);
    world.dryRun(n, repay, most)
  }

  /** The loop goes on past attempt `n`: an under-sizing revert, under the limit, and the new size can be
      quoted. */
  predicate GoesOn(plan: RescuePlan, world: World, n: nat)
    requires InputFor(plan, world, n).Some?
  {
    var d := Answer(plan, world, n);
    && n <= world.enter(n) && d.Reverted? && !EmptyRevert(d.reason) && Bumpable(d.reason)
    && n < world.retry(n) && InputFor(plan, world, n + 1).Some?
  }

  /** Attempts 0 to n - 1 each asked for another. */
  ghost predicate Reaches(plan: RescuePlan, world: World, n: nat) {
    && (forall i: nat :: i <= n ==> InputFor(plan, world, i).Some?)
    && (forall i: nat :: i < n ==> GoesOn(plan, world, i))
  }

  /** The pairs handed to dry-runs are those of attempts 0 to n - 1, in order, and no others. */
  ghost predicate Tried(plan: RescuePlan, world: World, tries: seq<(int, int)>, n: nat)
    requires Reaches(plan, world, n)
  {
    |tries| == n && forall i :: 0 <= i < n ==> tries[i] == PairAt(plan, world, i)
  }

  datatype Result = Finished(result: SimulationResult) | QuoteEscaped

  /** What is known when attempt `n` is not even begun: why the one before it was reverted, if any. */
  function LastReason(plan: RescuePlan, world: World, n: nat): Option<string>
    requires n > 0 ==> InputFor(plan, world, n - 1).Some?
  {
    if n > 0 && Answer(plan, world, n - 1).Reverted? then Some(Answer(plan, world, n - 1).reason) else None
  }

  /** What step `n`, the last, makes of the call: the limit forbids the attempt, or the attempt decides. */
  ghost predicate Decides(plan: RescuePlan, world: World, n: nat, r: Result, after: RescuePlan)
    requires Reaches(plan, world, n)
  {
    var (repay, most) := PairAt(plan, world, n);
    if n > world.enter(n) then
      after == plan && r == Finished(SimulationResult(false, repay, most, n, LastReason(plan, world, n)))
    else
      match Answer(plan, world, n)
      case Accepted =>
        && r == Finished(SimulationResult(true, repay, most, n, None))
        && after == (if n > 0 then plan.(repayAmount := repay, amountIn := InputFor(plan, world, n).value) else plan)
      case Reverted(reason) =>
        && after == plan
        && if EmptyRevert(reason) then r == Finished(SimulationResult(true, repay, most, n, None))
           else if Bumpable(reason) && n < world.retry(n) then r.QuoteEscaped? && InputFor(plan, world, n + 1).None?
           else r == Finished(SimulationResult(false, repay, most, n, Some(reason)))
      case Faulted(error) =>
        after == plan && r == Finished(SimulationResult(false, repay, most, n, Some("simulation error: " + error)))
  }

  /** Some attempt that asks for a larger size, and is allowed one, cannot have it quoted. */
  ghost predicate Escapes(plan: RescuePlan, world: World) {
    exists n: nat :: Reaches(plan, world, n) && Unquotable(plan, world, n)
  }

  predicate Unquotable(plan: RescuePlan, world: World, n: nat)
    requires InputFor(plan, world, n).Some?
  {
    var d := Answer(plan, world, n);
    && n <= world.enter(n) && d.Reverted? && !EmptyRevert(d.reason) && Bumpable(d.reason)
    && n < world.retry(n) && InputFor(plan, world, n + 1).None?
  }

  /** Some bumped attempt, at other amounts than the plan's, ends in an empty revert. */
  ghost predicate LeavesPlanBehind(plan: RescuePlan, world: World) {
    exists n: nat :: n > 0 && Reaches(plan, world, n) && EmptyAt(plan, world, n)
                     && PairAt(plan, world, n) != PairAt(plan, world, 0)
  }

  predicate EmptyAt(plan: RescuePlan, world: World, n: nat)
    requires InputFor(plan, world, n).Some?
  {
    var d := Answer(plan, world, n);
    n <= world.enter(n) && d.Reverted? && EmptyRevert(d.reason)
  }

  /** The limit is under the next attempt once everything for it is ready. */
  ghost predicate CutOff(plan: RescuePlan, world: World) {
    exists n: nat :: Reaches(plan, world, n) && n > world.enter(n)
  }

  /** The pair the plan object asks for. */
  function PairOf(plan: RescuePlan): (int, int) {
    (plan.repayAmount, AmountInMaximum(plan.amountIn, plan.maxSlippageBps))
  }

  /** A success reports another pair than the plan it leaves. */
  predicate Disagrees(r: Result, after: RescuePlan) {
    r.Finished? && r.result.success && (r.result.repayAmount, r.result.amountInMaximum) != PairOf(after)
  }

  /** A step that another one follows goes on. */
  lemma Earlier(plan: RescuePlan, world: World, m: nat, n: nat)
    requires Reaches(plan, world, m) && Reaches(plan, world, n)
    ensures m < n ==> GoesOn(plan, world, m)
    ensures n < m ==> GoesOn(plan, world, n)
  {
  }

  lemma EscapesWhen(plan: RescuePlan, world: World, n: nat, r: Result, after: RescuePlan)
    requires Reaches(plan, world, n) && Decides(plan, world, n, r, after)
    ensures r.QuoteEscaped? <==> Escapes(plan, world)
  {
    if Escapes(plan, world) {
      var m: nat :| Reaches(plan, world, m) && Unquotable(plan, world, m);
      Earlier(plan, world, m, n);
    }
    if r.QuoteEscaped? { assert Unquotable(plan, world, n); }
  }

  lemma DisagreesWhen(plan: RescuePlan, world: World, n: nat, r: Result, after: RescuePlan)
    requires Reaches(plan, world, n) && Decides(plan, world, n, r, after)
    ensures Disagrees(r, after) <==> LeavesPlanBehind(plan, world)
  {
    assert PairAt(plan, world, 0) == PairOf(plan);
    if LeavesPlanBehind(plan, world) {
      var m: nat :| m > 0 && Reaches(plan, world, m) && EmptyAt(plan, world, m)
                    && PairAt(plan, world, m) != PairAt(plan, world, 0);
      Earlier(plan, world, m, n);
    }
    if Disagrees(r, after) {
      assert EmptyAt(plan, world, n);
      assert PairAt(plan, world, n) != PairAt(plan, world, 0);
    }
  }

  lemma CutOffWhen(plan: RescuePlan, world: World, n: nat, r: Result, after: RescuePlan)
    requires Reaches(plan, world, n) && Decides(plan, world, n, r, after)
    ensures n > world.enter(n) <==> CutOff(plan, world)
  {
    if CutOff(plan, world) {
      var m: nat :| Reaches(plan, world, m) && m > world.enter(m);
      Earlier(plan, world, m, n);
    }
  }

  lemma FixedIsKept(plan: RescuePlan, world: World, maxBumps: int, n: nat)
    requires Fixed(world, maxBumps) && maxBumps >= 0 && Reaches(plan, world, n)
    ensures n <= maxBumps && n <= world.enter(n)
  {
    if n > 0 {
      assert GoesOn(plan, world, n - 1);
      assert world.retry(n - 1) == maxBumps;
    }
  }

  /** Under a fixed limit of at least zero the loop's own test never fails: only lowering the limit while
      a call is under way makes it report a pair it has not tried. */
  lemma FixedIsNotCutOff(plan: RescuePlan, world: World, maxBumps: int)
    requires Fixed(world, maxBumps)
    ensures CutOff(plan, world) <==> maxBumps < 0
  {
    if maxBumps < 0 {
      assert Reaches(plan, world, 0) && 0 > world.enter(0);
    } else {
      forall n: nat | Reaches(plan, world, n)
        ensures n <= world.enter(n)
      {
        FixedIsKept(plan, world, maxBumps, n);
      }
    }
  }

  /** At most `top + 1` dry-runs, of the pairs listed. Step `n`, the first that does not ask for another,
      decides; a success returns exactly its pair, which is the last one tried.
      A quote that raises is not caught by the loop's own handlers: the call escapes exactly when some
      attempt wants a larger size that cannot be quoted. The plan is rewritten only by an accepted
      dry-run after a bump: a success disagrees with the plan it leaves exactly when a bumped attempt
      ends in an empty revert. The pair reported has not been tried exactly when the limit cuts the loop
      off. */
  method Simulate(cell: PlanCell, world: World, ghost top: int) returns (r: Result, tries: seq<(int, int)>, n: nat)
    requires Capped(world, top)
    modifies cell
    ensures |tries| <= Max(top + 1, 0)
    ensures Reaches(old(cell.plan), world, n) && Decides(old(cell.plan), world, n, r, cell.plan)
    ensures |tries| == if CutOff(old(cell.plan), world) then n else n + 1
    ensures Tried(old(cell.plan), world, tries[..n], n)
    ensures |tries| == n + 1 ==> tries[n] == PairAt(old(cell.plan), world, n)
    ensures r.QuoteEscaped? <==> Escapes(old(cell.plan), world)
    ensures Disagrees(r, cell.plan) <==> LeavesPlanBehind(old(cell.plan), world)
  {
    r, tries, n := Attempts(cell, world, top);
    EscapesWhen(old(cell.plan), world, n, r, cell.plan);
    DisagreesWhen(old(cell.plan), world, n, r, cell.plan);
    CutOffWhen(old(cell.plan), world, n, r, cell.plan);
  }

  /** The loop. */
  method Attempts(cell: PlanCell, world: World, ghost top: int) returns (r: Result, tries: seq<(int, int)>, n: nat)
    requires Capped(world, top)
    modifies cell
    ensures Reaches(old(cell.plan), world, n) && Decides(old(cell.plan), world, n, r, cell.plan)
    ensures n <= Max(top + 1, 0) && |tries| == if n > world.enter(n) then n else n + 1
    ensures Tried(old(cell.plan), world, tries[..n], n)
    ensures |tries| == n + 1 ==> n <= top && tries[n] == PairAt(old(cell.plan), world, n)
  {
    var plan := cell.plan;
    var repay, amountIn := plan.repayAmount, plan.amountIn;
    var lastReason: Option<string> := None;
    n, tries := 0, [];
    while n <= world.enter(n)
      invariant cell.plan == plan && n <= Max(top + 1, 0)
      invariant Reaches(plan, world, n) && Tried(plan, world, tries, n)
      invariant repay == Bumped(plan.repayAmount, n) && InputFor(plan, world, n) == Some(amountIn)
      invariant lastReason == LastReason(plan, world, n)
      decreases top - n
    {
      var most := AmountInMaximum(amountIn, plan.maxSlippageBps);
      assert PairAt(plan, world, n) == (repay, most);
      tries := tries + [(repay, most)];
      match world.dryRun(n, repay, most)
      case Accepted =>
        if n != 0 { cell.plan := cell.plan.(repayAmount := repay, amountIn := amountIn); }
        return Finished(SimulationResult(true, repay, most, n, None)), tries, n;
      case Reverted(reason) =>
        lastReason := Some(reason);
        if EmptyRevert(reason) {
          return Finished(SimulationResult(true, repay, most, n, None)), tries, n;
        }
        if !Bumpable(reason) || n >= world.retry(n) {
          return Finished(SimulationResult(false, repay, most, n, lastReason)), tries, n;
        }
        repay := repay * (BPS + BUMP_BPS) / BPS;
        var needed := repay + repay * FLASH_PREMIUM_BPS / BPS;
        assert Answer(plan, world, n) == DryRun.Reverted(reason);
        match world.quote(n + 1, needed) {
          case QuoteThrew => return QuoteEscaped, tries, n;
          case Quoted(amount) => amountIn := amount;
        }
        assert GoesOn(plan, world, n);
        n := n + 1;
      case Faulted(error) =>
        return Finished(SimulationResult(false, repay, most, n, Some("simulation error: " + error))), tries, n;
    }
    assert tries[..n] == tries;
    r := Finished(SimulationResult(false, repay, AmountInMaximum(amountIn, plan.maxSlippageBps), n, lastReason));
  }

  // ---- The amounts and the messages ----------------------------------------------------------------

  /** The input allowed is the greatest whole amount within the slippage. */
  lemma AmountIs(amountIn: int, maxSlippageBps: int, most: int)
    ensures AmountInMaximum(amountIn, maxSlippageBps) == most
            <==> BPS * most <= amountIn * (BPS + maxSlippageBps) < BPS * (most + 1)
  {
    DivIs(amountIn * (BPS + maxSlippageBps), BPS, most);
  }

  /** A bump is the greatest whole amount within two percent more. */
  lemma BumpIs(repay: int, bumped: int)
    ensures Bump(repay) == bumped <==> 100 * bumped <= 102 * repay < 100 * (bumped + 1)
  {
    DivIs(repay * 10_200, BPS, bumped);
  }

  predicate PartAt(text: string, part: string, i: nat) {
    i + |part| <= |text| && text[i..i + |part|] == part
  }

  /** A text contains a part exactly when the part stands somewhere in it. */
  lemma ContainsIs(text: string, part: string)
    ensures Contains(text, part) <==> exists i: nat :: PartAt(text, part, i)
  {
    if Contains(text, part) {
      var i :| 0 <= i <= |text| && part <= text[i..];
      assert text[i..i + |part|] == text[i..][..|part|] == part;
      assert PartAt(text, part, i);
    }
    if i: nat :| PartAt(text, part, i) {
      assert text[i..][..|part|] == text[i..i + |part|];
      assert part <= text[i..];
    }
  }

  lemma ContainsWithin(text: string, part: string, inner: string)
    requires Contains(text, part) && Contains(part, inner)
    ensures Contains(text, inner)
  {
    var i :| 0 <= i <= |text| && part <= text[i..];
    var j :| 0 <= j <= |part| && inner <= part[j..];
    assert text[i..][..|part|] == part;
    assert text[i..][j..][..|part| - j] == part[j..];
    assert text[i + j..] == text[i..][j..];
    assert inner <= text[i + j..];
  }

  /** An empty revert is told by the bare message or by a quoted `0x`; the longer form the code also looks
      for is a case of the latter. */
  lemma EmptyRevertWhen(reason: string)
    ensures EmptyRevert(reason) <==> reason == "execution reverted" || Contains(reason, "'0x'")
  {
    var long := "execution reverted', '0x'";
    if Contains(reason, long) {
      assert long[21..] == "'0x'";
      ContainsWithin(reason, long, "'0x'");
    }
  }

  /** Exactly the two under-sizing errors, anywhere in the message, ask for a larger size. */
  lemma BumpableWhen(before: string, after: string, reason: string)
    ensures Bumpable(before + "HealthBelowTarget" + after) && Bumpable(before + "DebtNotReduced" + after)
    ensures !Contains(reason, "HealthBelowTarget") && !Contains(reason, "DebtNotReduced") ==> !Bumpable(reason)
  {
    Within(before, "HealthBelowTarget", after);
    Within(before, "DebtNotReduced", after);
  }

  lemma Within(before: string, part: string, after: string)
    ensures Contains(before + part + after, part)
  {
    var text := before + part + after;
    assert text[|before|..] == part + after;
  }

  // ---- Both can happen -----------------------------------------------------------------------

  const TOO_SMALL := "HealthBelowTarget"

  lemma TooSmallIsBumpable()
    ensures Bumpable(TOO_SMALL) && !EmptyRevert(TOO_SMALL)
  {
    assert TOO_SMALL <= TOO_SMALL[0..];
    assert forall i :: 0 <= i < |TOO_SMALL| ==> TOO_SMALL[i] != '\'';
    NeedsFirst(TOO_SMALL, "'0x'");
    var long := "execution reverted', '0x'";
    NeedsLength(TOO_SMALL, long);
  }

  lemma NeedsFirst(text: string, part: string)
    requires part != "" && forall i :: 0 <= i < |text| ==> text[i] != part[0]
    ensures !Contains(text, part)
  {
    forall i | 0 <= i <= |text|
      ensures !(part <= text[i..])
    {
      if i < |text| { assert text[i..][0] == text[i]; }
    }
  }

  lemma NeedsLength(text: string, part: string)
    requires |text| < |part|
    ensures !Contains(text, part)
  {
  }

  /** The first dry-run wants a larger size, and the quoter raises. */
  function RaisingWorld(maxBumps: int): World {
    World((n: nat, repay: int, most: int) => DryRun.Reverted(TOO_SMALL), (n: nat, needed: int) => QuoteThrew,
          (n: nat) => maxBumps, (n: nat) => maxBumps)
  }

  lemma QuoteCanEscape(plan: RescuePlan, maxBumps: int)
    requires maxBumps >= 1
    ensures Escapes(plan, RaisingWorld(maxBumps))
  {
    TooSmallIsBumpable();
    assert Reaches(plan, RaisingWorld(maxBumps), 0) && Unquotable(plan, RaisingWorld(maxBumps), 0);
  }

  /** The first dry-run wants a larger size, and the second is reverted without data. */
  function EmptyWorld(maxBumps: int): World {
    World((n: nat, repay: int, most: int) => DryRun.Reverted(if n == 0 then TOO_SMALL else "execution reverted"),
          (n: nat, needed: int) => Quoted(needed), (n: nat) => maxBumps, (n: nat) => maxBumps)
  }

  /** Any plan of at least fifty units is then left behind: the pair reported is the bumped one. */
  lemma PlanCanStayBehind(plan: RescuePlan, maxBumps: int)
    requires maxBumps >= 1 && plan.repayAmount >= 50
    ensures LeavesPlanBehind(plan, EmptyWorld(maxBumps))
  {
    TooSmallIsBumpable();
    assert Reaches(plan, EmptyWorld(maxBumps), 1) && EmptyAt(plan, EmptyWorld(maxBumps), 1) by {
      assert GoesOn(plan, EmptyWorld(maxBumps), 0);
    }
    assert Bumped(plan.repayAmount, 1) == Bump(Bumped(plan.repayAmount, 0)) > plan.repayAmount;
  }

  /** The first dry-run wants a larger size, and the limit is lowered to zero while it is quoted. */
  function LoweredWorld(): World {
    World((n: nat, repay: int, most: int) => DryRun.Reverted(TOO_SMALL), (n: nat, needed: int) => Quoted(needed),
          (n: nat) => if n == 0 then 1 else 0, (n: nat) => 1)
  }

  lemma LimitCanCutOff(plan: RescuePlan)
    ensures CutOff(plan, LoweredWorld())
  {
    TooSmallIsBumpable();
    assert GoesOn(plan, LoweredWorld(), 0);
    assert Reaches(plan, LoweredWorld(), 1) && 1 > LoweredWorld().enter(1);
  }

  // ---- A bump against what sizing cut off ----------------------------------------------------------

  /** A sized repayment that falls short does so by less than one base unit, so one bump reaches the
      target as soon as its two percent are worth a base unit. */
  lemma OneBumpReaches(p: Sizing.Position, targetBps: int, priceBase: int, decimals: nat, costBps: int)
    requires priceBase > 0
    requires Sizing.Gain(p.ltBps, targetBps, costBps) > 0 && Sizing.Shortfall(p, targetBps) > 0
    requires var t := Sizing.SizeRepay(p, targetBps, priceBase, decimals, costBps, 0).repayAmount;
             (Bump(t) - t) * priceBase >= Pow10(decimals)
    ensures var t := Sizing.SizeRepay(p, targetBps, priceBase, decimals, costBps, 0).repayAmount;
            Sizing.Reaches(p, targetBps, costBps, Bump(t) * priceBase, Pow10(decimals))
  {
    var s, t := Pow10(decimals), Sizing.SizeRepay(p, targetBps, priceBase, decimals, costBps, 0).repayAmount;
    var delta := Sizing.Delta(p, targetBps, costBps);
    Sizing.TokensAreLeast(p, targetBps, priceBase, decimals, costBps, t);
    Sizing.SizeRepayIs(p, targetBps, priceBase, decimals, costBps, 0);
    UnitMore(t, Bump(t), priceBase, delta * s, s);
    PastTheFloor(BPS * Sizing.Shortfall(p, targetBps), Sizing.Gain(p.ltBps, targetBps, costBps), s, Bump(t) * priceBase);
  }

  lemma UnitMore(t: int, bumped: int, price: int, worth: int, s: int)
    requires worth <= t * price && (bumped - t) * price >= s
    ensures bumped * price >= worth + s
  {
    assert bumped * price == t * price + (bumped - t) * price;
  }

  lemma PastTheFloor(need: int, gain: int, s: int, n: int)
    requires gain > 0 && s > 0 && n >= need / gain * s + s
    ensures n * gain >= need * s
  {
    var q := need / gain;
    Sizing.TightQuotient(need, gain, q + 1);
    MulMonotone(need, (q + 1) * gain, s);
    assert (q + 1) * s == q * s + s;
    MulMonotone((q + 1) * s, n, gain);
    assert ((q + 1) * gain) * s == ((q + 1) * s) * gain;
  }

  // ---- How far bumping can go --------------------------------------------------------------

  function Pow(b: nat, n: nat): nat {
    if n == 0 then 1 else b * Pow(b, n - 1)
  }

  /** `n` bumps multiply the repayment by at most `1.02^n`, and the floors together lose at most
      `50 * (1.02^n - 1)` units. Scaled by `100^n`. */
  lemma {:induction false} BumpBounds(repay: int, n: nat)
    requires repay >= 0
    ensures repay <= Bumped(repay, n)
    ensures (repay - 50) * Pow(102, n) <= (Bumped(repay, n) - 50) * Pow(100, n)
    ensures Bumped(repay, n) * Pow(100, n) <= repay * Pow(102, n)
  {
    if n > 0 {
      var b := Bumped(repay, n - 1);
      BumpBounds(repay, n - 1);
      DivIs(b * 10_200, BPS, Bump(b));
      Scale(Bump(b), b, Pow(100, n - 1), repay, Pow(102, n - 1));
      Grow(Bump(b) - 50, b - 50, Pow(100, n - 1), repay - 50, Pow(102, n - 1));
    }
  }

  lemma Scale(c: int, b: int, p: nat, r: int, q: nat)
    requires 100 * c <= 102 * b && b * p <= r * q
    ensures c * (100 * p) <= r * (102 * q)
  {
  }

  lemma Grow(c: int, b: int, p: nat, r: int, q: nat)
    requires 102 * b <= 100 * c && r * q <= b * p
    ensures r * (102 * q) <= c * (100 * p)
  {
  }
}
