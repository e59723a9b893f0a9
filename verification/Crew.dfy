/** A crew run's gate against the counts it takes (backend/app/agent/graph.py). */
module Crew {
  import opened Arithmetic
  import opened Models
  import Store
  import Policy
  import RateLimit

  /** Every check but the two on rates. */
  ghost predicate OtherChecks(i: Policy.Input) {
    && i.assessment.hf.Finite?
    && forall n :: n != Policy.RATE_LIMIT_BORROWER && n != Policy.RATE_LIMIT_GLOBAL ==> Policy.Holds(n, i)
  }

  /** The gate is asked under these limits, with the two counts of this run. */
  ghost predicate Asked(l: RateLimit.Limits, t: RateLimit.System, run: string, i: Policy.Input)
    requires run in t.runs && t.runs[run].phase.CountingAll?
  {
    && i.limits.maxPerBorrower == l.perBorrower && i.limits.maxGlobal == l.global
    && i.recentBorrower == t.runs[run].phase.own
    && i.recentGlobal == |Store.Recent(t.rows, Store.Everyone, t.runs[run].since)|
  }

  /** A crew run goes on to propose exactly when the gate passes on what it counted. */
  lemma ProposesWhenPassed(l: RateLimit.Limits, t: RateLimit.System, run: string, i: Policy.Input, others: bool)
    requires run in t.runs && t.runs[run].phase.CountingAll? && Asked(l, t, run, i) && (others <==> OtherChecks(i))
    ensures RateLimit.Step(l, t, RateLimit.CountAll(run, others)).runs[run].phase.Allowed? <==> Policy.Passes(i)
  {
    if i.assessment.hf.Finite? {
      Policy.PassesMeansAll(i);
      if Policy.Passes(i) {
        assert OtherChecks(i);
        assert Policy.Holds(Policy.RATE_LIMIT_BORROWER, i) && Policy.Holds(Policy.RATE_LIMIT_GLOBAL, i);
      }
      if others && i.recentBorrower < l.perBorrower && i.recentGlobal < l.global {
        forall n: Policy.CheckName
          ensures Policy.Holds(n, i)
        {
        }
      }
    }
  }

  /** What a run counts are the proposals of the hour before it fixed its instant: its borrower's, then all. */
  lemma CountsTheHour(l: RateLimit.Limits, t: RateLimit.System, run: string, borrower: Address, later: RateLimit.System)
    requires run !in t.runs
    requires later.runs == RateLimit.Step(l, t, RateLimit.Start(run, borrower)).runs
    ensures var u := RateLimit.Step(l, later, RateLimit.CountOwn(run));
            && u.runs[run].since == t.now - 3600.0
            && u.runs[run].phase == RateLimit.CountingAll(
                 |set i: nat | i < |later.rows| && later.rows[i].createdAt >= t.now - 3600.0 && later.rows[i].borrower == borrower|)
  {
    var since := t.now - 3600.0;
    assert Store.Recent(later.rows, Store.Only(borrower), since)
        == set i: nat | i < |later.rows| && later.rows[i].createdAt >= since && later.rows[i].borrower == borrower;
  }
}
