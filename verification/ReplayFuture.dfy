// No prediction of replay.py depends on an event it was not shown: whatever the later events are, the durable
// steps up to a commit are the same.
module ReplayFuture {
  import opened Basics
  import opened ReplayLogs
  import opened ReplayClients

  lemma {:induction false} SameTargetRows(plan: Plan, other: Plan, unit: string, prefix: seq<Event>, length: int,
                                          origin: int, target: string, n: nat)
    requires plan.(series := other.series) == other && n <= |plan.horizons|
    ensures TargetRows(plan, unit, prefix, length, origin, target, n)
            == TargetRows(other, unit, prefix, length, origin, target, n)
  {
    if n > 0 {
      SameTargetRows(plan, other, unit, prefix, length, origin, target, n - 1);
      assert HorizonRows(plan, unit, prefix, length, origin, target, plan.horizons[n - 1])
          == HorizonRows(other, unit, prefix, length, origin, target, plan.horizons[n - 1]);
    }
  }

  /** The two plans agree on the first `n` events of the unit and on its length. */
  ghost predicate AgreeUpTo(plan: Plan, other: Plan, unit: string, n: nat) {
    && plan.(series := other.series) == other
    && n <= |plan.series(unit)| == |other.series(unit)|
    && plan.series(unit)[..n] == other.series(unit)[..n]
  }

  lemma SameRowsAt(plan: Plan, other: Plan, unit: string, n: nat, origin: nat)
    requires AgreeUpTo(plan, other, unit, n) && origin < n
    ensures RowsAt(plan, unit, origin) == RowsAt(other, unit, origin)
  {
    var prefix, length := plan.series(unit)[..origin + 1], |plan.series(unit)|;
    TakeTake(plan.series(unit), origin + 1, n);
    TakeTake(other.series(unit), origin + 1, n);
    SameTargetRows(plan, other, unit, prefix, length, origin, TARGETS[0], |plan.horizons|);
    SameTargetRows(plan, other, unit, prefix, length, origin, TARGETS[1], |plan.horizons|);
  }

  lemma SameOriginStep(e: Encoding, plan: Plan, other: Plan, logs: Logs, unit: string, m: nat, origin: nat)
    requires AgreeUpTo(plan, other, unit, m) && origin < m
    ensures OriginStep(e, plan, logs, unit, origin) == OriginStep(e, other, logs, unit, origin)
  {
    hide CommitOrigin, Reveal, RowsAt;
    SameRowsAt(plan, other, unit, m, origin);
  }

  lemma {:induction false} SameUnitRun(e: Encoding, plan: Plan, other: Plan, logs: Logs, unit: string, m: nat, n: nat)
    requires plan.context >= 2 && AgreeUpTo(plan, other, unit, m) && n <= |plan.series(unit)| && n <= m + 1
    ensures UnitRun(e, plan, logs, unit, n) == UnitRun(e, other, logs, unit, n)
  {
    hide OriginStep, Reveal;
    if n > 0 {
      SameUnitRun(e, plan, other, logs, unit, m, n - 1);
      if n > plan.context {
        SameOriginStep(e, plan, other, UnitRun(e, plan, logs, unit, n - 1), unit, m, n - 2);
      }
    }
  }

  lemma {:induction false} SameHonestRun(e: Encoding, plan: Plan, other: Plan, k: nat)
    requires plan.context >= 2 && plan.(series := other.series) == other && k <= |plan.units|
    requires forall j | 0 <= j < k :: plan.series(plan.units[j]) == other.series(plan.units[j])
    ensures HonestRun(e, plan, k) == HonestRun(e, other, k)
  {
    hide UnitRun;
    if k > 0 {
      SameHonestRun(e, plan, other, k - 1);
      var unit := plan.units[k - 1];
      SameUnitRun(e, plan, other, HonestRun(e, plan, k - 1), unit, |plan.series(unit)|, |plan.series(unit)|);
    }
  }

  lemma PrefixTrans(a: seq<Step>, b: seq<Step>, c: seq<Step>)
    requires a <= b <= c
    ensures a <= c
  {
  }

  lemma StepsExtend(e: Encoding, plan: Plan, logs: Logs, unit: string, origin: nat, index: int, required: Option<int>)
    requires origin < |plan.series(unit)|
    ensures logs.steps <= Reveal(e, logs, unit, index, required).steps
    ensures CommitOrigin(e, logs, unit, origin, RowsAt(plan, unit, origin)).steps
            <= OriginStep(e, plan, logs, unit, origin).steps
    ensures logs.steps <= OriginStep(e, plan, logs, unit, origin).steps
  {
    hide AppendRows, RowsAt, RevealAccess;
  }

  lemma {:induction false} UnitStepsExtend(e: Encoding, plan: Plan, logs: Logs, unit: string, n: nat, m: nat)
    requires plan.context >= 2 && n <= m <= |plan.series(unit)|
    ensures UnitRun(e, plan, logs, unit, n).steps <= UnitRun(e, plan, logs, unit, m).steps
  {
    hide OriginStep, Reveal, CommitOrigin, RowsAt;
    if n < m {
      UnitStepsExtend(e, plan, logs, unit, n, m - 1);
      var before := UnitRun(e, plan, logs, unit, m - 1);
      StepsExtend(e, plan, before, unit, Max(0, m - 2), m - 1, None);
      PrefixTrans(UnitRun(e, plan, logs, unit, n).steps, before.steps, UnitRun(e, plan, logs, unit, m).steps);
    }
  }

  lemma {:induction false} RunStepsExtend(e: Encoding, plan: Plan, k: nat, j: nat)
    requires plan.context >= 2 && k <= j <= |plan.units|
    ensures HonestRun(e, plan, k).steps <= HonestRun(e, plan, j).steps
  {
    hide OriginStep, Reveal;
    if k < j {
      RunStepsExtend(e, plan, k, j - 1);
      var unit := plan.units[j - 1];
      UnitStepsExtend(e, plan, HonestRun(e, plan, j - 1), unit, 0, |plan.series(unit)|);
    }
  }

  /** The files right after the commit of an origin of unit `k`. */
  function CommittedAt(e: Encoding, plan: Plan, k: nat, origin: nat): Logs
    requires plan.context >= 2 && k < |plan.units| && origin < |plan.series(plan.units[k])|
  {
    var unit := plan.units[k];
    CommitOrigin(e, UnitRun(e, plan, HonestRun(e, plan, k), unit, origin + 1), unit, origin, RowsAt(plan, unit, origin))
  }

  lemma CommitEndsSteps(e: Encoding, logs: Logs, unit: string, origin: int, rows: seq<Prediction>)
    ensures var steps := CommitOrigin(e, logs, unit, origin, rows).steps;
            steps != [] && IsCheckpoint(steps[|steps| - 1], unit, origin)
  {
  }

  lemma NextUnitRun(e: Encoding, plan: Plan, logs: Logs, unit: string, origin: nat)
    requires plan.context >= 2 && plan.context <= origin + 1 < |plan.series(unit)|
    ensures UnitRun(e, plan, logs, unit, origin + 2) ==
            OriginStep(e, plan, UnitRun(e, plan, logs, unit, origin + 1), unit, origin)
  {
    hide OriginStep, Reveal;
  }

  lemma CommitIsInRun(e: Encoding, plan: Plan, k: nat, origin: nat)
    requires plan.context >= 2 && k < |plan.units| && plan.context <= origin + 1 < |plan.series(plan.units[k])|
    ensures var steps := CommittedAt(e, plan, k, origin).steps;
            steps != [] && steps <= HonestRun(e, plan, |plan.units|).steps
              && IsCheckpoint(steps[|steps| - 1], plan.units[k], origin)
  {
    hide OriginStep, Reveal, CommitOrigin, RowsAt, UnitRun;
    var unit, logs := plan.units[k], HonestRun(e, plan, k);
    UnitStepsExtend(e, plan, logs, unit, origin + 2, |plan.series(unit)|);
    RunStepsExtend(e, plan, k + 1, |plan.units|);
    CommitEndsSteps(e, UnitRun(e, plan, logs, unit, origin + 1), unit, origin, RowsAt(plan, unit, origin));
    StepsExtend(e, plan, UnitRun(e, plan, logs, unit, origin + 1), unit, origin, 0, None);
    NextUnitRun(e, plan, logs, unit, origin);
    var steps, step := CommittedAt(e, plan, k, origin).steps, UnitRun(e, plan, logs, unit, origin + 2).steps;
    PrefixTrans(steps, step, HonestRun(e, plan, k + 1).steps);
    PrefixTrans(steps, HonestRun(e, plan, k + 1).steps, HonestRun(e, plan, |plan.units|).steps);
  }

  // Two worlds that agree on the earlier units, on the first `origin + 1` events of unit `k` and on its
  // length, with the same fitted models, take the same durable steps up to the checkpoint of that origin
  // (the last of the first `n`), and leave the same files there. Later events and units cannot matter.
  lemma CommitIgnoresFuture(e: Encoding, plan: Plan, other: Plan, k: nat, origin: nat) returns (n: nat)
    requires plan.context >= 2 && k < |plan.units| && plan.context <= origin + 1 < |plan.series(plan.units[k])|
    requires forall j | 0 <= j < k :: plan.series(plan.units[j]) == other.series(plan.units[j])
    requires AgreeUpTo(plan, other, plan.units[k], origin + 1)
    ensures 0 < n <= |HonestRun(e, plan, |plan.units|).steps| && n <= |HonestRun(e, other, |plan.units|).steps|
    ensures HonestRun(e, plan, |plan.units|).steps[..n] == HonestRun(e, other, |plan.units|).steps[..n]
    ensures IsCheckpoint(HonestRun(e, plan, |plan.units|).steps[n - 1], plan.units[k], origin)
    ensures CommittedAt(e, plan, k, origin) == CommittedAt(e, other, k, origin)
    ensures CommittedAt(e, plan, k, origin).steps == HonestRun(e, plan, |plan.units|).steps[..n]
  {
    hide HonestRun, UnitRun, CommitOrigin, RowsAt;
    var unit := plan.units[k];
    SameHonestRun(e, plan, other, k);
    SameUnitRun(e, plan, other, HonestRun(e, plan, k), unit, origin + 1, origin + 1);
    SameRowsAt(plan, other, unit, origin + 1, origin);
    CommitIsInRun(e, plan, k, origin);
    CommitIsInRun(e, other, k, origin);
    n := |CommittedAt(e, plan, k, origin).steps|;
  }
}
