/** The fact sheet a crew run is judged against (backend/app/agent/facts.py,
    backend/app/agent/graph.py). */
module Facts {
  import opened Arithmetic
  import opened Models
  import opened Guard
  import Pipeline
  import Policy

  datatype RiskSignal = RiskSignal(sigma: real, breachProbability: real, hfTargetBps: int)

  function Whole(n: int): Payload { Number(Finite(n as real)) }

  function Base(amount: int): Payload { Number(Finite(amount as real / 100_000_000.0)) }

  /** `build_factsheet(...).model_dump()`: names and texts are no quantities. */
  function FactSheet(snapshot: Policy.Snapshot, a: AssessmentResponse, risk: RiskSignal, triggerBps: int): Payload {
    Dict([Other, Other, Number(a.hf)] + Rest(snapshot.account, a, risk, triggerBps))
  }

  /** The fields after the health factor. */
  function Rest(account: UserAccountData, a: AssessmentResponse, risk: RiskSignal, triggerBps: int): seq<Payload> {
    [Whole(Pipeline.HfBps(account)), Number(Finite(a.hfTarget)), Whole(risk.hfTargetBps), Whole(triggerBps), Other,
     Base(account.totalCollateralBase), Base(account.totalDebtBase), Whole(account.liquidationThresholdBps),
     Whole(a.repayAmount), Other, Other, Other, Whole(a.estCostBps), Flag(a.viable), Other,
     Number(Finite(risk.sigma)), Number(Finite(risk.breachProbability)), Dict([])]
  }

  /** The only figure of the sheet that may be infinite is the health factor. */
  lemma {:induction false} OnlyHfIsInfinite(snapshot: Policy.Snapshot, a: AssessmentResponse, risk: RiskSignal, triggerBps: int)
    ensures Infinite in Leaves(FactSheet(snapshot, a, risk, triggerBps)) <==> a.hf.Infinite?
  {
    var rest := Rest(snapshot.account, a, risk, triggerBps);
    FiniteLeaves(rest);
    OfConcat([Other, Other, Number(a.hf)], rest);
    HeadLeaves(a.hf);
  }

  lemma {:induction false} HeadLeaves(hf: Ratio)
    ensures LeavesOf([Other, Other, Number(hf)]) == [hf]
  {
    OfOne(Number(hf));
    assert [Other, Other, Number(hf)][1..] == [Other, Number(hf)];
    assert [Other, Number(hf)][1..] == [Number(hf)];
  }

  lemma {:induction false} FiniteLeaves(ps: seq<Payload>)
    requires forall i :: 0 <= i < |ps| ==> ps[i] == Dict([]) || (!ps[i].List? && !ps[i].Dict? && ps[i] != Number(Infinite))
    ensures Infinite !in LeavesOf(ps)
  {
    if ps != [] {
      FiniteLeaves(ps[1..]);
      assert Infinite !in Leaves(ps[0]);
    }
  }

  /** The sheet's figures, as it lists them itself. */
  function NumericLeaves(account: UserAccountData, a: AssessmentResponse, risk: RiskSignal, triggerBps: int): seq<Ratio> {
    [a.hf, Finite(Pipeline.HfBps(account) as real), Finite(a.hfTarget), Finite(risk.hfTargetBps as real),
     Finite(triggerBps as real), Finite(account.totalCollateralBase as real / 100_000_000.0),
     Finite(account.totalDebtBase as real / 100_000_000.0), Finite(account.liquidationThresholdBps as real),
     Finite(a.repayAmount as real), Finite(a.estCostBps as real), Finite(risk.sigma), Finite(risk.breachProbability)]
  }

  lemma Cons(p: Payload, rest: seq<Payload>)
    ensures LeavesOf([p] + rest) == Leaves(p) + LeavesOf(rest)
  {
    assert ([p] + rest)[1..] == rest;
  }

  /** What the guard collects from the sheet are exactly those figures, in order. */
  lemma {:induction false} SheetLeaves(snapshot: Policy.Snapshot, a: AssessmentResponse, risk: RiskSignal, triggerBps: int)
    ensures Leaves(FactSheet(snapshot, a, risk, triggerBps)) == NumericLeaves(snapshot.account, a, risk, triggerBps)
  {
    OfConcat([Other, Other, Number(a.hf)], Rest(snapshot.account, a, risk, triggerBps));
    HeadLeaves(a.hf);
    RestLeaves(snapshot.account, a, risk, triggerBps);
  }

  lemma Glue(p: seq<Payload>, ps: seq<Ratio>, q: seq<Payload>, qs: seq<Ratio>)
    requires LeavesOf(p) == ps && LeavesOf(q) == qs
    ensures LeavesOf(p + q) == ps + qs
  {
    OfConcat(p, q);
  }

  lemma {:induction false} MoneyLeaves(account: UserAccountData, a: AssessmentResponse)
    ensures LeavesOf([Base(account.totalCollateralBase), Base(account.totalDebtBase),
                      Whole(account.liquidationThresholdBps), Whole(a.repayAmount)])
         == [Finite(account.totalCollateralBase as real / 100_000_000.0), Finite(account.totalDebtBase as real / 100_000_000.0),
             Finite(account.liquidationThresholdBps as real), Finite(a.repayAmount as real)]
  {
    FourLeaves(Base(account.totalCollateralBase), Base(account.totalDebtBase), Whole(account.liquidationThresholdBps), Whole(a.repayAmount));
  }

  lemma {:induction false} HealthLeaves(account: UserAccountData, a: AssessmentResponse, risk: RiskSignal, triggerBps: int)
    ensures LeavesOf([Whole(Pipeline.HfBps(account)), Number(Finite(a.hfTarget)), Whole(risk.hfTargetBps), Whole(triggerBps)])
         == [Finite(Pipeline.HfBps(account) as real), Finite(a.hfTarget), Finite(risk.hfTargetBps as real), Finite(triggerBps as real)]
  {
    FourLeaves(Whole(Pipeline.HfBps(account)), Number(Finite(a.hfTarget)), Whole(risk.hfTargetBps), Whole(triggerBps));
  }

  /** Leaves of five pieces in a row. */
  lemma Glue5(p1: seq<Payload>, l1: seq<Ratio>, p2: seq<Payload>, l2: seq<Ratio>, p3: seq<Payload>, l3: seq<Ratio>,
              p4: seq<Payload>, l4: seq<Ratio>, p5: seq<Payload>, l5: seq<Ratio>)
    requires LeavesOf(p1) == l1 && LeavesOf(p2) == l2 && LeavesOf(p3) == l3 && LeavesOf(p4) == l4 && LeavesOf(p5) == l5
    ensures LeavesOf(p1 + (p2 + (p3 + (p4 + p5)))) == l1 + (l2 + (l3 + (l4 + l5)))
  {
    Glue(p4, l4, p5, l5);
    Glue(p3, l3, p4 + p5, l4 + l5);
    Glue(p2, l2, p3 + (p4 + p5), l3 + (l4 + l5));
    Glue(p1, l1, p2 + (p3 + (p4 + p5)), l2 + (l3 + (l4 + l5)));
  }

  lemma {:induction false} CostLeaves(a: AssessmentResponse)
    ensures LeavesOf([Other, Other, Other, Whole(a.estCostBps), Flag(a.viable), Other]) == [Finite(a.estCostBps as real)]
  {
    SilentLeaves(a.viable);
    OfOne(Whole(a.estCostBps));
    Glue([Whole(a.estCostBps)], [Finite(a.estCostBps as real)], [Flag(a.viable), Other], []);
    Glue([Other, Other, Other], [], [Whole(a.estCostBps)] + [Flag(a.viable), Other], [Finite(a.estCostBps as real)] + []);
    assert [Other, Other, Other, Whole(a.estCostBps), Flag(a.viable), Other]
        == [Other, Other, Other] + ([Whole(a.estCostBps)] + [Flag(a.viable), Other]);
  }

  lemma {:induction false} RestLeaves(account: UserAccountData, a: AssessmentResponse, risk: RiskSignal, triggerBps: int)
    ensures LeavesOf(Rest(account, a, risk, triggerBps)) == NumericLeaves(account, a, risk, triggerBps)[1..]
  {
    var health := [Whole(Pipeline.HfBps(account)), Number(Finite(a.hfTarget)), Whole(risk.hfTargetBps), Whole(triggerBps)];
    var money := [Base(account.totalCollateralBase), Base(account.totalDebtBase), Whole(account.liquidationThresholdBps), Whole(a.repayAmount)];
    var cost := [Other, Other, Other, Whole(a.estCostBps), Flag(a.viable), Other];
    var tail := [Number(Finite(risk.sigma)), Number(Finite(risk.breachProbability))] + [Dict([])];
    HealthLeaves(account, a, risk, triggerBps);
    MoneyLeaves(account, a);
    CostLeaves(a);
    OfOne(Other);
    TailLeaves(risk.sigma, risk.breachProbability);
    Glue5(health, LeavesOf(health), [Other], [], money, LeavesOf(money), cost, LeavesOf(cost), tail, LeavesOf(tail));
    assert Rest(account, a, risk, triggerBps) == health + ([Other] + (money + (cost + tail)));
  }

  lemma {:induction false} FourLeaves(p: Payload, q: Payload, r: Payload, s: Payload)
    ensures LeavesOf([p, q, r, s]) == Leaves(p) + Leaves(q) + Leaves(r) + Leaves(s)
  {
    assert [p, q, r, s] == [p] + ([q] + ([r] + [s]));
    Cons(p, [q] + ([r] + [s]));
    Cons(q, [r] + [s]);
    Cons(r, [s]);
    OfOne(s);
  }

  lemma {:induction false} SilentLeaves(viable: bool)
    ensures LeavesOf([Other, Other, Other]) == [] && LeavesOf([Flag(viable), Other]) == []
  {
    assert [Other, Other, Other] == [Other] + ([Other] + [Other]);
    Cons(Other, [Other] + [Other]);
    Cons(Other, [Other]);
    OfOne(Other);
    Cons(Flag(viable), [Other]);
    assert [Flag(viable), Other] == [Flag(viable)] + [Other];
  }

  lemma {:induction false} TailLeaves(sigma: real, breach: real)
    ensures LeavesOf([Number(Finite(sigma)), Number(Finite(breach))] + [Dict([])]) == [Finite(sigma), Finite(breach)]
  {
    var x, y := Number(Finite(sigma)), Number(Finite(breach));
    assert [x, y] + [Dict([])] == [x] + ([y] + [Dict([])]);
    Cons(x, [y] + [Dict([])]);
    Cons(y, [Dict([])]);
    OfOne(Dict([]));
  }

  /** A crew run that judges any text against the fact sheet of a registered borrower gets no verdict
      exactly when the borrower has no debt. */
  lemma {:induction false} NoVerdictIffNoDebt(params: RiskParams, facts: Pipeline.Facts, sigma: real, gasCostBase: int,
                                              snapshot: Policy.Snapshot, risk: RiskSignal, figures: seq<real>)
    requires params.Valid()
    ensures var a := Pipeline.Evaluate(params, facts, sigma, gasCostBase).0;
            var sheet := FactSheet(snapshot, a, risk, params.hfTriggerBps);
            Judge(figures, Observed([sheet]), REL_TOL).None? <==> !facts.account.HasDebt()
  {
    var a := Pipeline.Evaluate(params, facts, sigma, gasCostBase).0;
    var sheet := FactSheet(snapshot, a, risk, params.hfTriggerBps);
    Pipeline.InfiniteIffNoDebt(params, facts, sigma, gasCostBase);
    OnlyHfIsInfinite(snapshot, a, risk, params.hfTriggerBps);
    assert [sheet][..0] == [];
    assert Observed([sheet]) == [] + Reverse(Leaves(sheet));
    ReverseSame(Leaves(sheet));
    assert Infinite in Reverse(Leaves(sheet)) <==> Infinite in multiset(Reverse(Leaves(sheet)));
    assert Infinite in Leaves(sheet) <==> Infinite in multiset(Leaves(sheet));
  }
}
