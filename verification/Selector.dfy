/** Collateral ranking and selection (backend/app/core/selector.py). */
module Selector {
  import opened Arithmetic
  import opened Models

  datatype CollateralChoice = CollateralChoice(
    collateralAsset: Address, feeTier: int, amountIn: int, amountInValueBase: int, outNeededValueBase: int,
    slippageCostBps: int, liqThresholdBps: int, hasAllowance: bool, eligible: bool, reason: Option<string>)

  function ToBaseValue(amount: int, decimals: nat, priceBase: int): int {
    amount * priceBase / Pow10(decimals)
  }

  function BuildChoice(asset: Address, feeTier: int, amountIn: int, decimals: nat, priceBase: int, outNeeded: int,
                       debtDecimals: nat, debtPriceBase: int, ltBps: int, hasAllowance: bool): CollateralChoice
  {
    var inValue := ToBaseValue(amountIn, decimals, priceBase);
    var outValue := ToBaseValue(outNeeded, debtDecimals, debtPriceBase);
    var slippage := if outValue > 0 then (inValue - outValue) * BPS / outValue else 0;
    var eligible := hasAllowance && amountIn > 0 && outValue > 0;
    var reason := if eligible then None
                  else if !hasAllowance then Some("no aToken allowance") else Some("no quote / zero value");
    CollateralChoice(asset, feeTier, amountIn, inValue, outValue, Max(slippage, 0), ltBps, hasAllowance, eligible, reason)
  }

  /** A token amount is worth the whole base units in it at its own price and decimals. */
  lemma ValueIs(amount: int, decimals: nat, priceBase: int, value: int)
    ensures ToBaseValue(amount, decimals, priceBase) == value
            <==> value * Pow10(decimals) <= amount * priceBase < value * Pow10(decimals) + Pow10(decimals)
  {
    DivIs(amount * priceBase, Pow10(decimals), value);
  }

  /** A choice carries its candidate's own terms, the input valued at the collateral's price and decimals,
      what is needed at the debt's. */
  lemma ChoiceIs(asset: Address, feeTier: int, amountIn: int, decimals: nat, priceBase: int, outNeeded: int,
                 debtDecimals: nat, debtPriceBase: int, ltBps: int, hasAllowance: bool)
    ensures var c := BuildChoice(asset, feeTier, amountIn, decimals, priceBase, outNeeded,
                                 debtDecimals, debtPriceBase, ltBps, hasAllowance);
            var s, d := Pow10(decimals), Pow10(debtDecimals);
            && c.collateralAsset == asset && c.feeTier == feeTier && c.amountIn == amountIn
            && c.liqThresholdBps == ltBps && c.hasAllowance == hasAllowance
            && c.amountInValueBase * s <= amountIn * priceBase < c.amountInValueBase * s + s
            && c.outNeededValueBase * d <= outNeeded * debtPriceBase < c.outNeededValueBase * d + d
            && (c.reason.None? <==> c.eligible)
  {
    ValueIs(amountIn, decimals, priceBase, ToBaseValue(amountIn, decimals, priceBase));
    ValueIs(outNeeded, debtDecimals, debtPriceBase, ToBaseValue(outNeeded, debtDecimals, debtPriceBase));
  }

  /** A choice is eligible only if what is needed has value, and its slippage is then the premium paid
      over that value, rounded down to a basis point and never negative. */
  lemma SlippageIs(asset: Address, feeTier: int, amountIn: int, decimals: nat, priceBase: int, outNeeded: int,
                   debtDecimals: nat, debtPriceBase: int, ltBps: int, hasAllowance: bool)
    ensures var c := BuildChoice(asset, feeTier, amountIn, decimals, priceBase, outNeeded,
                                 debtDecimals, debtPriceBase, ltBps, hasAllowance);
            && (c.eligible <==> hasAllowance && amountIn > 0 && c.outNeededValueBase > 0)
            && c.slippageCostBps >= 0 && (c.slippageCostBps > 0 ==> c.amountInValueBase > c.outNeededValueBase)
            && (c.outNeededValueBase > 0 && c.amountInValueBase >= c.outNeededValueBase ==>
                  c.slippageCostBps * c.outNeededValueBase
                    <= (c.amountInValueBase - c.outNeededValueBase) * BPS
                    < (c.slippageCostBps + 1) * c.outNeededValueBase)
  {
  }

  /** Strict order of the sort key `(not eligible, slippage, -threshold)`. */
  predicate Better(a: CollateralChoice, b: CollateralChoice) {
    if a.eligible != b.eligible then a.eligible
    else if a.slippageCostBps != b.slippageCostBps then a.slippageCostBps < b.slippageCostBps
    else a.liqThresholdBps > b.liqThresholdBps
  }

  predicate SameKey(a: CollateralChoice, b: CollateralChoice) {
    !Better(a, b) && !Better(b, a)
  }

  function Insert(x: CollateralChoice, r: seq<CollateralChoice>): seq<CollateralChoice> {
    if r == [] || !Better(r[0], x) then [x] + r else [r[0]] + Insert(x, r[1..])
  }

  /** `sorted` with that key. */
  function RankCollaterals(cs: seq<CollateralChoice>): seq<CollateralChoice> {
    if cs == [] then [] else Insert(cs[0], RankCollaterals(cs[1..]))
  }

  ghost predicate Sorted(r: seq<CollateralChoice>) {
    forall i, j :: 0 <= i < j < |r| ==> !Better(r[j], r[i])
  }

  /** The choices that tie with `k`, in order. */
  function Ties(cs: seq<CollateralChoice>, k: CollateralChoice): seq<CollateralChoice> {
    if cs == [] then [] else (if SameKey(cs[0], k) then [cs[0]] else []) + Ties(cs[1..], k)
  }

  lemma {:induction false} InsertContents(x: CollateralChoice, r: seq<CollateralChoice>)
    ensures multiset(Insert(x, r)) == multiset{x} + multiset(r)
  {
    if r != [] && Better(r[0], x) {
      InsertContents(x, r[1..]);
      assert r == [r[0]] + r[1..];
    }
  }

  lemma {:induction false} InsertSorted(x: CollateralChoice, r: seq<CollateralChoice>)
    requires Sorted(r)
    ensures Sorted(Insert(x, r))
  {
    if r != [] && Better(r[0], x) {
      assert r == [r[0]] + r[1..];
      InsertSorted(x, r[1..]);
      SortedCons(r[0], x, r[1..]);
    }
  }

  lemma {:induction false} InsertedFrom(x: CollateralChoice, r: seq<CollateralChoice>, c: CollateralChoice)
    requires c in Insert(x, r)
    ensures c == x || c in r
  {
    if r != [] && Better(r[0], x) && c != r[0] { InsertedFrom(x, r[1..], c); }
  }

  /** A head that nothing beats may go in front. */
  lemma SortedCons(head: CollateralChoice, x: CollateralChoice, r: seq<CollateralChoice>)
    requires Sorted([head] + r) && Better(head, x) && Sorted(Insert(x, r))
    ensures Sorted([head] + Insert(x, r))
  {
    var rest := Insert(x, r);
    forall k | 0 <= k < |rest|
      ensures !Better(rest[k], head)
    {
      InsertedFrom(x, r, rest[k]);
      if rest[k] != x {
        var j :| 0 <= j < |r| && r[j] == rest[k];
        assert ([head] + r)[0] == head && ([head] + r)[j + 1] == r[j];
      }
    }
  }

  lemma {:induction false} InsertTies(x: CollateralChoice, r: seq<CollateralChoice>, k: CollateralChoice)
    requires Sorted(r)
    ensures Ties(Insert(x, r), k) == (if SameKey(x, k) then [x] else []) + Ties(r, k)
  {
    if r == [] || !Better(r[0], x) {
      assert ([x] + r)[1..] == r;
    } else {
      InsertTies(x, r[1..], k);
      assert ([r[0]] + Insert(x, r[1..]))[1..] == Insert(x, r[1..]);
    }
  }

  /** The ranking is a sorted, stable rearrangement: nothing is lost, and ties keep their order. */
  lemma {:induction false} RankIsStableSort(cs: seq<CollateralChoice>, k: CollateralChoice)
    ensures Sorted(RankCollaterals(cs))
    ensures multiset(RankCollaterals(cs)) == multiset(cs)
    ensures Ties(RankCollaterals(cs), k) == Ties(cs, k)
  {
    if cs != [] {
      RankIsStableSort(cs[1..], k);
      var r := RankCollaterals(cs[1..]);
      InsertSorted(cs[0], r);
      InsertContents(cs[0], r);
      InsertTies(cs[0], r, k);
      assert cs == [cs[0]] + cs[1..];
    }
  }

  function SelectBest(cs: seq<CollateralChoice>): Option<CollateralChoice> {
    var ranked := RankCollaterals(cs);
    if ranked != [] && ranked[0].eligible then Some(ranked[0]) else None
  }

  /** Position `i` holds the first choice that no other beats. */
  ghost predicate FirstBest(cs: seq<CollateralChoice>, i: int) {
    && 0 <= i < |cs|
    && (forall j :: 0 <= j < |cs| ==> !Better(cs[j], cs[i]))
    && (forall j :: 0 <= j < i ==> Better(cs[i], cs[j]))
  }

  lemma {:induction false} RankHead(cs: seq<CollateralChoice>) returns (i: nat)
    requires cs != []
    ensures FirstBest(cs, i) && RankCollaterals(cs) != [] && RankCollaterals(cs)[0] == cs[i]
  {
    i := 0;
    if |cs| > 1 {
      var k := RankHead(cs[1..]);
      assert forall j :: 1 <= j < |cs| ==> cs[j] == cs[1..][j - 1];
      if Better(cs[k + 1], cs[0]) { i := k + 1; }
    } else {
      assert RankCollaterals(cs[1..]) == [];
    }
  }

  /** What is selected is the first best choice, if it is eligible. */
  lemma FirstBestIsSelected(cs: seq<CollateralChoice>)
    ensures forall i :: FirstBest(cs, i) ==> SelectBest(cs) == if cs[i].eligible then Some(cs[i]) else None
    ensures cs != [] ==> exists i :: FirstBest(cs, i)
    ensures cs == [] ==> SelectBest(cs).None?
  {
    if cs != [] {
      var h := RankHead(cs);
      forall i | FirstBest(cs, i)
        ensures i == h
      {
      }
    }
  }

  /** Something is selected exactly when something is eligible, and then it is the earliest of the
      eligible choices with the least slippage and, among those, the highest threshold. */
  lemma BestIsFirstBest(cs: seq<CollateralChoice>)
    ensures SelectBest(cs).Some? <==> exists c :: c in cs && c.eligible
    ensures SelectBest(cs).Some? ==> exists i :: FirstBest(cs, i) && cs[i].eligible && cs[i] == SelectBest(cs).value
  {
    if cs != [] {
      var i := RankHead(cs);
    }
  }

  /** Among the eligible, position `i` has the least slippage; among those the highest threshold; among
      those it comes first. */
  ghost predicate CheapestFirst(cs: seq<CollateralChoice>, i: int) {
    && 0 <= i < |cs| && cs[i].eligible
    && forall j :: 0 <= j < |cs| && cs[j].eligible ==>
         && cs[i].slippageCostBps <= cs[j].slippageCostBps
         && (cs[j].slippageCostBps == cs[i].slippageCostBps ==> cs[j].liqThresholdBps <= cs[i].liqThresholdBps)
         && (cs[j].slippageCostBps == cs[i].slippageCostBps && cs[j].liqThresholdBps == cs[i].liqThresholdBps ==> i <= j)
  }

  lemma CheapestIsFirstBest(cs: seq<CollateralChoice>, i: int)
    requires 0 <= i < |cs| && cs[i].eligible
    ensures FirstBest(cs, i) <==> CheapestFirst(cs, i)
  {
  }

  /** The selected choice, in the choices' own terms: eligible, of the least slippage, then of the highest
      threshold, then the earliest; there is one exactly when something is eligible. */
  lemma SelectedIsCheapest(cs: seq<CollateralChoice>)
    ensures SelectBest(cs).Some? <==> exists i :: 0 <= i < |cs| && cs[i].eligible
    ensures forall i :: CheapestFirst(cs, i) ==> SelectBest(cs) == Some(cs[i])
    ensures SelectBest(cs).Some? ==> exists i :: CheapestFirst(cs, i) && cs[i] == SelectBest(cs).value
  {
    BestIsFirstBest(cs);
    FirstBestIsSelected(cs);
    forall i | CheapestFirst(cs, i)
      ensures SelectBest(cs) == Some(cs[i])
    {
      CheapestIsFirstBest(cs, i);
    }
    if SelectBest(cs).Some? {
      var i :| FirstBest(cs, i) && cs[i].eligible && cs[i] == SelectBest(cs).value;
      CheapestIsFirstBest(cs, i);
    }
  }

  /** The whole ranking in the same terms: the eligible before the others, each group by rising slippage,
      equal slippage by falling threshold. */
  lemma {:induction false} RankIsBySlippage(cs: seq<CollateralChoice>, i: int, j: int)
    requires 0 <= i < j < |RankCollaterals(cs)|
    ensures var a, b := RankCollaterals(cs)[i], RankCollaterals(cs)[j];
            && (b.eligible ==> a.eligible)
            && (a.eligible == b.eligible ==>
                  && a.slippageCostBps <= b.slippageCostBps
                  && (a.slippageCostBps == b.slippageCostBps ==> a.liqThresholdBps >= b.liqThresholdBps))
  {
    RankIsStableSort(cs, RankCollaterals(cs)[0]);
    assert !Better(RankCollaterals(cs)[j], RankCollaterals(cs)[i]);
  }

  // ---- Gathering the candidates ----------------------------------------------------------------

  /** What the chain says of one candidate; an unquotable pair has no quote. */
  datatype Candidate = Candidate(
    decimals: nat, priceBase: int, ltBps: int, bonusBps: int, feeTier: int, quote: Option<int>, allowance: int)

  datatype Debt = Debt(asset: Address, decimals: nat, priceBase: int)

  function QuotedIn(c: Candidate): int {
    if c.quote.Some? then c.quote.value else 0
  }

  function ChoiceFor(asset: Address, c: Candidate, debt: Debt, outNeeded: int): CollateralChoice {
    BuildChoice(asset, c.feeTier, QuotedIn(c), c.decimals, c.priceBase, outNeeded, debt.decimals, debt.priceBase,
                c.ltBps, 0 < QuotedIn(c) <= c.allowance)
  }

  function Choices(assets: seq<Address>, chain: Address -> Candidate, debt: Debt, outNeeded: int)
    : (cs: seq<CollateralChoice>)
    ensures |cs| == |assets|
    ensures forall i :: 0 <= i < |cs| ==> cs[i] == ChoiceFor(assets[i], chain(assets[i]), debt, outNeeded)
  {
    if assets == [] then []
    else
      var n := |assets| - 1;
      Choices(assets[..n], chain, debt, outNeeded) + [ChoiceFor(assets[n], chain(assets[n]), debt, outNeeded)]
  }

  /** A candidate is eligible exactly when its pair could be quoted, for an input within the allowance, and
      what is needed has value. */
  lemma CandidateEligible(asset: Address, c: Candidate, debt: Debt, outNeeded: int)
    ensures var choice := ChoiceFor(asset, c, debt, outNeeded);
            && (choice.eligible <==>
                  c.quote.Some? && 0 < c.quote.value <= c.allowance && outNeeded * debt.priceBase >= Pow10(debt.decimals))
            && choice.amountIn == (if c.quote.Some? then c.quote.value else 0)
            && choice.collateralAsset == asset && choice.feeTier == c.feeTier && choice.liqThresholdBps == c.ltBps
            && (choice.hasAllowance <==> c.quote.Some? && 0 < c.quote.value <= c.allowance)
            && choice.amountInValueBase == ToBaseValue(choice.amountIn, c.decimals, c.priceBase)
            && choice.outNeededValueBase == ToBaseValue(outNeeded, debt.decimals, debt.priceBase)
  {
    DivLeast(outNeeded * debt.priceBase, Pow10(debt.decimals), 1);
  }

  method Evaluate(assets: seq<Address>, chain: Address -> Candidate, debt: Debt, outNeeded: int)
    returns (ranked: seq<CollateralChoice>)
    ensures ranked == RankCollaterals(Choices(assets, chain, debt, outNeeded))
  {
    var choices := [];
    for i := 0 to |assets|
      invariant choices == Choices(assets[..i], chain, debt, outNeeded)
    {
      assert assets[..i + 1][..i] == assets[..i];
      var c := chain(assets[i]);
      var amountIn := if c.quote.Some? then c.quote.value else 0;
      choices := choices + [BuildChoice(assets[i], c.feeTier, amountIn, c.decimals, c.priceBase, outNeeded,
                                        debt.decimals, debt.priceBase, c.ltBps, 0 < amountIn <= c.allowance)];
    }
    assert assets[..|assets|] == assets;
    ranked := RankCollaterals(choices);
  }
}
