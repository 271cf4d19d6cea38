// What a finished run of replay.py has predicted: for every unit and every origin from the last event of the context to
// the last but one event of the stream, exactly the planned rows.
module RunLedger {
  import opened Basics
  import opened HashChain
  import opened SealedLedger
  import opened ReplayLogs
  import opened CausalBarrier
  import opened KeyParity

  /** The row belongs to the origin, whose prefix is everything revealed of its unit. */
  predicate PlannedAt(plan: Plan, unit: string, origin: nat, r: Prediction)
    requires origin < |plan.series(unit)|
  {
    Planned(plan, unit, plan.series(unit)[..origin + 1], |plan.series(unit)|, origin, r)
  }

  /** The origin is one at which the unit predicts before event `n` is revealed, and the row belongs to it. */
  predicate PlannedBefore(plan: Plan, unit: string, n: nat, r: Prediction)
    requires n <= |plan.series(unit)|
  {
    && r.unit == unit && 0 <= plan.context - 1 <= r.origin < n - 1
    && PlannedAt(plan, unit, r.origin, r)
  }

  /** The row belongs to the run. */
  predicate PlannedInRun(plan: Plan, r: Prediction) {
    r.unit in plan.units && PlannedBefore(plan, r.unit, |plan.series(r.unit)|, r)
  }

  lemma OriginPredictsItsPlan(e: Encoding, plan: Plan, logs: Logs, unit: string, origin: nat, r: Prediction)
    requires origin < |plan.series(unit)|
    ensures r in Data(OriginStep(e, plan, logs, unit, origin).ledger) <==>
            || r in Data(logs.ledger)
            || PlannedAt(plan, unit, origin, r)
  {
    hide OriginStep, OriginRows, Planned, Data;
    StepLedger(e, plan, logs, unit, origin);
    AppendedData(e, logs, RowsAt(plan, unit, origin));
    OriginRowsArePlanned(plan, unit, plan.series(unit)[..origin + 1], |plan.series(unit)|, origin);
  }

  lemma PlannedNext(plan: Plan, unit: string, n: nat, r: Prediction)
    requires 0 < n <= |plan.series(unit)| && plan.context >= 2
    ensures PlannedBefore(plan, unit, n, r) <==>
            || PlannedBefore(plan, unit, n - 1, r)
            || (n > plan.context && PlannedAt(plan, unit, n - 2, r))
  {
    hide PlannedAt;
    if n > plan.context {
      PlannedNamesOrigin(plan, unit, n - 2, r);
    }
  }

  lemma PlannedNamesOrigin(plan: Plan, unit: string, origin: nat, r: Prediction)
    requires origin < |plan.series(unit)|
    ensures PlannedAt(plan, unit, origin, r) ==> r.unit == unit && r.origin == origin
  {
  }

  lemma UnitBegins(e: Encoding, plan: Plan, logs: Logs, unit: string, r: Prediction)
    requires plan.context >= 2
    ensures UnitRun(e, plan, logs, unit, 0) == logs && !PlannedBefore(plan, unit, 0, r)
  {
  }

  lemma UnitNext(e: Encoding, plan: Plan, logs: Logs, unit: string, n: nat)
    requires 0 < n <= |plan.series(unit)| && plan.context >= 2
    ensures var before := UnitRun(e, plan, logs, unit, n - 1);
            UnitRun(e, plan, logs, unit, n).ledger ==
            if n <= plan.context then before.ledger else OriginStep(e, plan, before, unit, n - 2).ledger
  {
    hide OriginStep, FindCheckpoint;
  }

  lemma {:induction false} UnitPredictsItsPlan(e: Encoding, plan: Plan, logs: Logs, unit: string, n: nat, r: Prediction)
    requires plan.context >= 2 && n <= |plan.series(unit)|
    ensures r in Data(UnitRun(e, plan, logs, unit, n).ledger) <==>
            r in Data(logs.ledger) || PlannedBefore(plan, unit, n, r)
  {
    hide *;
    if n == 0 {
      UnitBegins(e, plan, logs, unit, r);
    } else {
      UnitNext(e, plan, logs, unit, n);
      UnitPredictsItsPlan(e, plan, logs, unit, n - 1, r);
      PlannedNext(plan, unit, n, r);
      if n > plan.context {
        OriginPredictsItsPlan(e, plan, UnitRun(e, plan, logs, unit, n - 1), unit, n - 2, r);
      }
    }
  }

  lemma {:induction false} UnitsPredictTheirPlan(e: Encoding, plan: Plan, k: nat, r: Prediction)
    requires plan.context >= 2 && k <= |plan.units|
    ensures r in Data(HonestRun(e, plan, k).ledger) <==>
            r.unit in plan.units[..k] && PlannedBefore(plan, r.unit, |plan.series(r.unit)|, r)
  {
    hide UnitRun, PlannedBefore;
    if k > 0 {
      var unit := plan.units[k - 1];
      UnitsPredictTheirPlan(e, plan, k - 1, r);
      UnitPredictsItsPlan(e, plan, HonestRun(e, plan, k - 1), unit, |plan.series(unit)|, r);
      assert plan.units[..k] == plan.units[..k - 1] + [unit];
      PlannedNamesUnit(plan, unit, r);
    }
  }

  lemma PlannedNamesUnit(plan: Plan, unit: string, r: Prediction)
    ensures PlannedBefore(plan, unit, |plan.series(unit)|, r) ==> r.unit == unit
  {
  }

  /** The ledger of a run holds exactly the planned rows. */
  lemma RunPredictsThePlan(e: Encoding, plan: Plan)
    requires plan.context >= 2
    ensures forall r :: r in Data(HonestRun(e, plan, |plan.units|).ledger) <==> PlannedInRun(plan, r)
  {
    hide HonestRun, PlannedBefore;
    forall r: Prediction
      ensures r in Data(HonestRun(e, plan, |plan.units|).ledger) <==> PlannedInRun(plan, r)
    {
      UnitsPredictTheirPlan(e, plan, |plan.units|, r);
      assert plan.units[..|plan.units|] == plan.units;
    }
  }
}
