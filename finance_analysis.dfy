/**
 * The `FinanceAnalysis` object: the ledger of category totals, updated in
 * place, and the two derived figures it keeps beside it.
 */
module Analyzer {
  import opened Wrappers
  import opened Ledger
  import GoalPlanner

  class FinanceAnalysis {
    /** The record file's path; only the file port, not modelled here, uses it. */
    var filePath: string
    /** `metrics`: category -> running total, read through `Get`. */
    var metrics: Totals
    var totalExpenses: real
    var savings: real

    /** The derived figures agree with the totals. */
    ghost predicate Consistent()
      reads this
    {
      totalExpenses == TotalExpenses(metrics) && savings == Savings(metrics)
    }

    /** `self.metrics[k]`, as a read that does not insert. */
    function Get(k: string): real
      reads this
    {
      Ledger.Get(metrics, k)
    }

    constructor (filePath: string)
      ensures this.filePath == filePath
      ensures metrics == map[]
      ensures forall k :: Get(k) == 0.0
      ensures totalExpenses == 0.0 && savings == 0.0
      ensures Consistent()
    {
      this.filePath := filePath;
      metrics := map[];
      totalExpenses := 0.0;
      savings := 0.0;
    }

    /** Recompute both derived figures; each read of the defaultdict inserts its key. */
    method Recompute()
      modifies this
      ensures metrics == WithDefaults(old(metrics)) && filePath == old(filePath)
      ensures forall k :: Get(k) == old(Get(k))
      ensures Consistent()
    {
      metrics := WithDefaults(metrics);
      totalExpenses := metrics[Fixed] + metrics[Variable];
      savings := metrics[Income] - totalExpenses;
    }

    /** Add one amount to one category, then recompute the derived figures. */
    method UpdateData(category: string, amount: real)
      modifies this
      ensures metrics == WithDefaults(AddTo(old(metrics), category, amount)) && filePath == old(filePath)
      ensures metrics.Keys == old(metrics.Keys) + {category} + DerivedKeys
      ensures Get(category) == old(Get(category)) + amount
      ensures forall k :: k != category ==> Get(k) == old(Get(k))
      ensures Consistent()
    {
      metrics := metrics[category := Get(category) + amount];
      Recompute();
    }

    /**
     * Fold the rows into the totals in order, then recompute the derived
     * figures once. A row without `Category` or `Amount` stops the load: the
     * rows before it stay added, the rest are not read, and the derived
     * figures keep their previous values.
     */
    method ProcessData(records: seq<Record>) returns (outcome: LoadOutcome)
      modifies this
      ensures outcome == LoadOutcomeOf(records)
      ensures filePath == old(filePath)
      ensures outcome.Loaded? ==> metrics == WithDefaults(Aggregate(old(metrics), records)) && Consistent()
      ensures outcome.MissingColumn? ==>
                && metrics == Aggregate(old(metrics), records[..WellFormedPrefix(records)])
                && totalExpenses == old(totalExpenses) && savings == old(savings)
      ensures forall k :: Get(k) == old(Get(k)) + SumFor(records[..WellFormedPrefix(records)], k)
    {
      var i := 0;
      while i < |records|
        invariant i <= |records|
        invariant AllWellFormed(records[..i])
        invariant metrics == Aggregate(old(metrics), records[..i])
        invariant filePath == old(filePath)
        invariant totalExpenses == old(totalExpenses) && savings == old(savings)
      {
        var row := records[i];
        if row.category.None? {
          outcome := MissingColumn("Category");
          AddedSoFar(old(metrics), records, i);
          return;
        }
        if row.amount.None? {
          outcome := MissingColumn("Amount");
          AddedSoFar(old(metrics), records, i);
          return;
        }
        metrics := metrics[row.category.value := Get(row.category.value) + row.amount.value];
        assert records[..i + 1][..i] == records[..i];
        i := i + 1;
      }
      assert records[..i] == records;
      AddedSoFar(old(metrics), records, i);
      Recompute();
      outcome := Loaded;
    }

    /**
     * Append a row: the file write is a port outside this model; in memory
     * the row is the one returned and its effect is `UpdateData`.
     */
    method AddNewRow(category: string, amount: real, description: string) returns (row: Record)
      modifies this
      ensures row == Record(Some(category), Some(amount), Some(description)) && WellFormed(row)
      ensures metrics == WithDefaults(Aggregate(old(metrics), [row])) && filePath == old(filePath)
      ensures Consistent()
    {
      row := Record(Some(category), Some(amount), Some(description));
      UpdateData(category, amount);
    }

    /** The goal calculation, fed with the current savings figure. */
    method GoalSavingsPlan(price: real, months: int) returns (r: Result<GoalPlanner.Goal, GoalPlanner.PlanError>)
      ensures r == GoalPlanner.Plan(price, months, savings)
    {
      r := GoalPlanner.Plan(price, months, savings);
    }
  }

  /** The totals after the first `n` rows are the old totals plus those rows' sums. */
  lemma AddedSoFar(m: Totals, records: seq<Record>, n: nat)
    requires n <= |records| && AllWellFormed(records[..n])
    requires n < |records| ==> !WellFormed(records[n])
    ensures WellFormedPrefix(records) == n
    ensures forall k :: Get(Aggregate(m, records[..n]), k) == Get(m, k) + SumFor(records[..n], k)
  {
    forall k ensures Get(Aggregate(m, records[..n]), k) == Get(m, k) + SumFor(records[..n], k) {
      AggregateGet(m, records[..n], k);
    }
  }

  /** A session: load three rows, append one, plan a purchase. */
  method ExampleSession()
  {
    var ledger := new FinanceAnalysis("expenses_data_january.csv");
    var rows := [Record(Some(Income), Some(2000.0), None),
                 Record(Some(Fixed), Some(800.0), None),
                 Record(Some(Variable), Some(300.0), None)];
    assert WellFormedPrefix(rows[2..]) == 1;
    assert WellFormedPrefix(rows[1..]) == 2;
    var outcome := ledger.ProcessData(rows);
    assert rows[..3] == rows;
    assert outcome == Loaded;
    assert rows[2..][1..] == [] && rows[1..][1..] == rows[2..];
    forall k ensures SumFor(rows, k) == Contribution(rows[0], k) + Contribution(rows[1], k) + Contribution(rows[2], k) {
      assert SumFor(rows[2..], k) == Contribution(rows[2], k) + SumFor([], k);
    }
    assert ledger.Get(Income) == 2000.0 && ledger.Get(Fixed) == 800.0 && ledger.Get(Variable) == 300.0;
    assert ledger.totalExpenses == 1100.0 && ledger.savings == 900.0;
    ledger.UpdateData(Variable, 50.0);
    assert ledger.Get(Variable) == 350.0 && ledger.totalExpenses == 1150.0 && ledger.savings == 850.0;
    var plan := ledger.GoalSavingsPlan(5000.0, 10);
    assert plan == Success(GoalPlanner.Goal(500.0, 0.0));
    plan := ledger.GoalSavingsPlan(5000.0, 0);
    assert plan.Failure?;
  }

  /**
   * A file whose header has no `Amount` column: the reader gives no row that
   * column, so the first row stops the load and nothing is added.
   */
  method ExampleMissingColumn()
  {
    var ledger := new FinanceAnalysis("expenses_data_january.csv");
    var rows := [Record(Some(Income), None, None), Record(Some(Fixed), None, None)];
    var outcome := ledger.ProcessData(rows);
    assert outcome == MissingColumn("Amount");
    assert rows[..0] == [];
    assert ledger.metrics == map[];
    assert ledger.Get(Income) == 0.0 && ledger.savings == 0.0;
  }
}
