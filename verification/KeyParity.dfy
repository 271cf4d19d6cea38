// `_assert_common_key_parity` of replay.py never fails on an honest run: every model predicts the same keys, and no
// key twice.
module KeyParity {
  import opened Basics
  import opened SealedLedger
  import opened ReplayLogs
  import opened CausalBarrier
  import opened BarrierCompleteness

  type EvaluationKey = (string, string, int, int)

  /** The key columns: unit, target, horizon and origin. */
  function KeyOf(r: Prediction): EvaluationKey {
    (r.unit, r.target, r.horizon, r.origin)
  }

  function KeysOf(rows: seq<Prediction>, model: string): set<EvaluationKey> {
    set r | r in rows && r.model == model :: KeyOf(r)
  }

  /** All models share the keys of the first one. */
  predicate CommonKeys(models: seq<string>, rows: seq<Prediction>) {
    forall m | m in models :: KeysOf(rows, m) == KeysOf(rows, models[0])
  }

  predicate Repeats(a: Prediction, b: Prediction) {
    KeyOf(a) == KeyOf(b) && a.model == b.model
  }

  predicate Unrepeated(rows: seq<Prediction>) {
    forall i, j | 0 <= i < j < |rows| :: !Repeats(rows[i], rows[j])
  }

  // ----- Full batches -----

  predicate HasRow(rows: seq<Prediction>, key: EvaluationKey, model: string) {
    exists r | r in rows :: KeyOf(r) == key && r.model == model
  }

  /** Whatever is predicted is predicted by every model, once. */
  predicate Full(models: seq<string>, rows: seq<Prediction>) {
    && (forall r, m | r in rows && m in models :: HasRow(rows, KeyOf(r), m))
    && Unrepeated(rows)
  }

  lemma FullShares(models: seq<string>, rows: seq<Prediction>)
    requires Full(models, rows)
    ensures CommonKeys(models, rows)
  {
    forall m | m in models
      ensures KeysOf(rows, m) == KeysOf(rows, models[0])
    {
      SameKeys(models, rows, m, models[0]);
      SameKeys(models, rows, models[0], m);
    }
  }

  lemma SameKeys(models: seq<string>, rows: seq<Prediction>, a: string, b: string)
    requires Full(models, rows) && b in models
    ensures KeysOf(rows, a) <= KeysOf(rows, b)
  {
    forall key | key in KeysOf(rows, a)
      ensures key in KeysOf(rows, b)
    {
      var r :| r in rows && r.model == a && KeyOf(r) == key;
      assert HasRow(rows, KeyOf(r), b);
    }
  }

  predicate Apart(a: seq<Prediction>, b: seq<Prediction>) {
    forall r, s | r in a && s in b :: KeyOf(r) != KeyOf(s)
  }

  lemma FullJoin(models: seq<string>, a: seq<Prediction>, b: seq<Prediction>)
    requires Full(models, a) && Full(models, b) && Apart(a, b)
    ensures Full(models, a + b)
  {
    var rows := a + b;
    forall r, m | r in rows && m in models
      ensures HasRow(rows, KeyOf(r), m)
    {
      if r in a {
        assert HasRow(a, KeyOf(r), m);
      } else {
        assert HasRow(b, KeyOf(r), m);
      }
    }
    forall i, j | 0 <= i < j < |rows|
      ensures !Repeats(rows[i], rows[j])
    {
      if j < |a| {
        assert rows[i] == a[i] && rows[j] == a[j];
      } else if i >= |a| {
        assert rows[i] == b[i - |a|] && rows[j] == b[j - |a|];
      } else {
        assert rows[i] in a && rows[j] in b;
      }
    }
  }

  // ----- One origin -----

  lemma HorizonIsFull(plan: Plan, unit: string, prefix: seq<Event>, length: int, origin: int, target: string,
                      horizon: int)
    requires Distinct(plan.models)
    ensures var rows := HorizonRows(plan, unit, prefix, length, origin, target, horizon);
            Full(plan.models, rows) && forall r | r in rows :: KeyOf(r) == (unit, target, horizon, origin)
  {
    var rows := HorizonRows(plan, unit, prefix, length, origin, target, horizon);
    forall r, m | r in rows && m in plan.models
      ensures HasRow(rows, KeyOf(r), m)
    {
      var i :| 0 <= i < |plan.models| && plan.models[i] == m;
      assert rows[i].model == m && KeyOf(rows[i]) == KeyOf(r) && rows[i] in rows;
    }
  }

  lemma KeysApart(a: seq<Prediction>, b: seq<Prediction>, horizons: seq<int>, horizon: int)
    requires horizon !in horizons
    requires (forall r | r in a :: r.horizon in horizons) && (forall r | r in b :: KeyOf(r).2 == horizon)
    ensures Apart(a, b)
  {
  }

  lemma {:induction false} TargetIsFull(plan: Plan, unit: string, prefix: seq<Event>, length: int, origin: int,
                                        target: string, n: nat)
    requires Distinct(plan.models) && Distinct(plan.horizons) && n <= |plan.horizons|
    ensures var rows := TargetRows(plan, unit, prefix, length, origin, target, n);
            && Full(plan.models, rows)
            && forall r | r in rows :: r.unit == unit && r.target == target && r.origin == origin
                 && r.horizon in plan.horizons[..n]
  {
    hide Full, HorizonRows;
    if n == 0 {
      NothingIsFull(plan.models);
    } else {
      var horizon := plan.horizons[n - 1];
      assert horizon !in plan.horizons[..n - 1];
      hide Distinct;
      TargetIsFull(plan, unit, prefix, length, origin, target, n - 1);
      HorizonIsFull(plan, unit, prefix, length, origin, target, horizon);
      var before := TargetRows(plan, unit, prefix, length, origin, target, n - 1);
      var more := HorizonRows(plan, unit, prefix, length, origin, target, horizon);
      assert plan.horizons[..n] == plan.horizons[..n - 1] + [horizon];
      KeysApart(before, more, plan.horizons[..n - 1], horizon);
      FullJoin(plan.models, before, more);
    }
  }

  lemma OriginIsFull(plan: Plan, unit: string, origin: nat)
    requires Distinct(plan.models) && Distinct(plan.horizons) && origin < |plan.series(unit)|
    ensures Full(plan.models, RowsAt(plan, unit, origin))
    ensures forall r | r in RowsAt(plan, unit, origin) :: r.unit == unit && r.origin == origin
  {
    var prefix, length, n := plan.series(unit)[..origin + 1], |plan.series(unit)|, |plan.horizons|;
    TargetIsFull(plan, unit, prefix, length, origin, TARGETS[0], n);
    TargetIsFull(plan, unit, prefix, length, origin, TARGETS[1], n);
    var a := TargetRows(plan, unit, prefix, length, origin, TARGETS[0], n);
    var b := TargetRows(plan, unit, prefix, length, origin, TARGETS[1], n);
    hide Full, TargetRows;
    assert Apart(a, b);
    FullJoin(plan.models, a, b);
  }

  // ----- The run -----

  lemma {:induction false} AppendedData(e: Encoding, logs: Logs, rows: seq<Prediction>)
    ensures Data(AppendRows(e, logs, rows).ledger) == Data(logs.ledger) + rows
  {
    if rows != [] {
      AppendedData(e, logs, rows[..|rows| - 1]);
      assert rows == rows[..|rows| - 1] + [rows[|rows| - 1]];
    }
  }

  lemma OriginStaysFull(e: Encoding, plan: Plan, logs: Logs, unit: string, origin: nat)
    requires PlanOk(plan) && origin < |plan.series(unit)|
    requires Full(plan.models, Data(logs.ledger)) && !HasOrigin(logs.ledger, unit, origin)
    ensures Full(plan.models, Data(OriginStep(e, plan, logs, unit, origin).ledger))
  {
    var rows := RowsAt(plan, unit, origin);
    StepLedger(e, plan, logs, unit, origin);
    hide Full, RowsAt, AppendRows, OriginStep;
    OriginIsFull(plan, unit, origin);
    AppendedData(e, logs, rows);
    NewOriginApart(logs.ledger, rows, unit, origin);
    FullJoin(plan.models, Data(logs.ledger), rows);
  }

  lemma StepLedger(e: Encoding, plan: Plan, logs: Logs, unit: string, origin: nat)
    requires origin < |plan.series(unit)|
    ensures OriginStep(e, plan, logs, unit, origin).ledger == AppendRows(e, logs, RowsAt(plan, unit, origin)).ledger
  {
    hide AppendRows, RowsAt;
  }

  lemma NewOriginApart(ledger: seq<LedgerRow>, rows: seq<Prediction>, unit: string, origin: int)
    requires !HasOrigin(ledger, unit, origin) && forall r | r in rows :: r.unit == unit && r.origin == origin
    ensures Apart(Data(ledger), rows)
  {
    forall r, s | r in Data(ledger) && s in rows
      ensures KeyOf(r) != KeyOf(s)
    {
      var i :| 0 <= i < |ledger| && ledger[i].data == r;
    }
  }

  lemma {:induction false} UnitStaysFull(e: Encoding, plan: Plan, logs: Logs, unit: string, n: nat)
    requires PlanOk(plan) && n <= |plan.series(unit)| && Full(plan.models, Data(logs.ledger))
    requires Consistent(e, plan, logs) && AllShapes(plan.context, logs) && UnitAccesses(logs.accesses, unit) == []
    ensures Full(plan.models, Data(UnitRun(e, plan, logs, unit, n).ledger))
  {
    hide Full, Consistent, AllShapes, UnitAccesses, OriginStep;
    if n > 0 {
      UnitStaysFull(e, plan, logs, unit, n - 1);
      if n > plan.context {
        UnitKeeps(e, plan, logs, unit, n - 1);
        NoRowsYet(plan, UnitRun(e, plan, logs, unit, n - 1), unit, n - 2);
        OriginStaysFull(e, plan, UnitRun(e, plan, logs, unit, n - 1), unit, n - 2);
      }
    }
  }

  lemma NoRowsYet(plan: Plan, logs: Logs, unit: string, origin: int)
    requires AllShapes(plan.context, logs) && |UnitAccesses(logs.accesses, unit)| == origin + 1
    ensures !HasOrigin(logs.ledger, unit, origin)
  {
    assert Shape(plan.context, logs.ledger, unit, UnitAccesses(logs.accesses, unit));
  }

  lemma {:induction false} RunIsFull(e: Encoding, plan: Plan, k: nat)
    requires PlanOk(plan) && k <= |plan.units|
    ensures Full(plan.models, Data(HonestRun(e, plan, k).ledger))
  {
    hide Full, Consistent, AllShapes, UnitAccesses, UnitRun;
    if k == 0 {
      NothingIsFull(plan.models);
    } else {
      RunIsFull(e, plan, k - 1);
      RunKeeps(e, plan, k - 1);
      UnitsSoFar(plan, k);
      var unit := plan.units[k - 1];
      UnitStaysFull(e, plan, HonestRun(e, plan, k - 1), unit, |plan.series(unit)|);
    }
  }

  lemma NothingIsFull(models: seq<string>)
    ensures Full(models, [])
  {
  }

  /** The closing assertion of a run holds: all models share all planned keys, and none is repeated. */
  lemma RunHasCommonKeys(e: Encoding, plan: Plan)
    requires PlanOk(plan)
    ensures var rows := Data(HonestRun(e, plan, |plan.units|).ledger); CommonKeys(plan.models, rows) && Unrepeated(rows)
  {
    hide HonestRun, CommonKeys;
    RunIsFull(e, plan, |plan.units|);
    FullShares(plan.models, Data(HonestRun(e, plan, |plan.units|).ledger));
  }
}
