# Finance analyzer ledger, modelled in Dafny

This project models the core of `financial_analizer.py`, a personal finance helper.
Its `FinanceAnalysis` object keeps a ledger of categorised transactions.
Each category (`Income`, `Fixed`, `Variable` or any other name) has a running total.
Two figures are derived from the totals:

- `total_expenses` = Fixed + Variable
- `savings` = Income − `total_expenses`

The object changes in two ways. `process_data` folds the rows of the record file into the totals. `update_data` adds one amount to one category. A goal calculation then turns an item price and a number of months into the monthly amount needed and the extra saving required on top of the current savings.

Files:

- `wrappers.dfy`: `Option` and `Result`.
- `ledger.dfy` (module `Ledger`): the totals as a `map<string, real>` read through `Get`, where an absent category reads as 0, like `defaultdict(float)`. Also the fold `Aggregate` of rows into totals, the per-category sum `SumFor`, and the lemmas on additivity and row order.
- `goal_planner.dfy` (module `GoalPlanner`): `Plan`, i.e. `price / months` and `max(0, that − savings)`, with a division by zero as an error value.
- `finance_analysis.dfy` (module `Analyzer`): the class `FinanceAnalysis`. It has fields `metrics`, `totalExpenses` and `savings`, and its methods update them in place. `ProcessData` is a loop over the rows. Two client methods replay a session: `ExampleSession` (load, append, plan) and `ExampleMissingColumn` (a load that stops at a row without `Amount`).

Amounts are exact `real`s. Python floats are not modelled.

Reading `metrics['Fixed']`, `metrics['Variable']` or `metrics['Income']` on a `defaultdict` inserts that key with value 0. `WithDefaults` models this, so the model states the exact key set of `metrics` as well as every value.

## Behaviour of the code worth knowing

- **Missing columns.** The `KeyError` of `row['Category']` or `row['Amount']` is caught outside the loop (financial_analizer.py:21-32). So the first row without one of these columns ends the load. The rows before it stay added, the rows after it are not read, and the recompute of lines 27-28 is skipped. `ProcessData`'s contract states all three effects. The model's per-row `Option` is more general than the source's check, which works at header level. `csv.DictReader` (financial_analizer.py:20) gives every row every column the header names. A column missing from the header is therefore missing from row 0, and through that reader the load always stops at row 0 with nothing added. `ExampleMissingColumn` plays that case.
- **Planner inputs.** The goal calculation checks neither the price nor `months`. Only `months == 0` fails, because the division at financial_analizer.py:68 raises `ZeroDivisionError`. A negative `months` gives a negative monthly amount. `Plan` fails exactly when `months == 0`.

## Model

| member | source | states |
|---|---|---|
| Ledger.WithDefaults | financial_analizer.py:27-28 | reading the three derived categories adds exactly `Income`, `Fixed`, `Variable` to the keys and changes no value read, so a category never added reads 0 |
| Ledger.WellFormedPrefix | financial_analizer.py:21-23 | the rows before the returned index all have both columns, and the row at it (if any) lacks one: the row at which the lookup raises `KeyError` |
| Ledger.SumForAppend | financial_analizer.py:21-25 | the sum of a category over two batches of rows is the sum of the two batches' sums |
| Ledger.AggregateGet | financial_analizer.py:21-25 | folding rows into the totals raises each category's total by exactly the sum of the amounts of its rows |
| Ledger.SumForUnnamed | financial_analizer.py:21-25 | a category that no row names gets a sum of 0 from the rows |
| Ledger.AggregateUnnamed | financial_analizer.py:21-25 | folding rows leaves the total of every category they do not name unchanged |
| Ledger.AggregateKeys | financial_analizer.py:25 | folding rows creates an entry for exactly the categories the rows name, and keeps every existing one |
| Ledger.SumForRemove | financial_analizer.py:25 | taking one row out of a batch takes exactly its amount out of its category's sum |
| Ledger.SumForPermutation | financial_analizer.py:21-25 | a category's sum is the same for any reordering of the rows |
| Ledger.AggregateOrderIndependent | financial_analizer.py:21-25 | loading the same rows in any order yields the same ledger, keys and values alike |
| GoalPlanner.Plan | financial_analizer.py:68-69 | fails exactly when `months == 0`; otherwise the monthly amount times `months` is the price, the extra is never negative, savings plus the extra reach the monthly amount, and the extra is 0 exactly when savings already cover the monthly amount |
| GoalPlanner.ExtraNeededIsLeast | financial_analizer.py:69 | the extra is the least non-negative top-up that brings savings up to the monthly amount |
| GoalPlanner.ExtraNeededMonotone | financial_analizer.py:69 | for a fixed price and horizon, higher savings never require a larger extra |
| Analyzer.FinanceAnalysis.constructor | financial_analizer.py:9-14 | a fresh ledger is empty, reads 0 for every category, and has `total_expenses = savings = 0`, consistent with its totals |
| Analyzer.FinanceAnalysis.Recompute | financial_analizer.py:27-28 | after the recompute, `total_expenses = Fixed + Variable` and `savings = Income − total_expenses`; no category's value changes; the three derived keys now exist |
| Analyzer.FinanceAnalysis.UpdateData | financial_analizer.py:34-37 | the category's total rises by exactly the amount; every other category is unchanged; the keys gain only that category and the derived three; the derived figures are consistent afterwards |
| Analyzer.FinanceAnalysis.ProcessData | financial_analizer.py:16-32 | reports the missing column of the first malformed row, or success. Every category's total rises by the sum of its rows before that point. On success the derived figures are consistent with the totals. On a missing column, the later rows are not added and the derived figures keep their previous values |
| Analyzer.AddedSoFar | financial_analizer.py:21-25 | when the loop stops at row `n`, `n` is the row the load stops at, and the totals so far are the old totals plus the sums of the first `n` rows |
| Analyzer.FinanceAnalysis.AddNewRow | financial_analizer.py:55-59 | the appended row carries the given category, amount and description; in memory its effect is exactly folding that one row in and recomputing |
| Analyzer.FinanceAnalysis.GoalSavingsPlan | financial_analizer.py:65-69 | plans against the object's current savings figure and changes nothing |

## Left out

- Opening and reading the record file, `csv.DictReader`, and the `FileNotFoundError` handler (financial_analizer.py:19-20, 29-30). The rows are given as a sequence. A missing file would leave the ledger unchanged.
- Writing the appended row with `csv.writer` (financial_analizer.py:55-57). `AddNewRow` returns the row for that port to write.
- Analyzer.FinanceAnalysis.AddNewRow: takes the amount already parsed. The file receives the raw text the user typed, and the model does not capture that difference.
- `input()` prompts and the `float`/`int` parsing of typed or file text (financial_analizer.py:23, 51-53, 65-66). `float(row['Amount'])` can raise two errors that `process_data` does not catch, so they propagate. One is a `ValueError` on text that is not a number. The other is a `TypeError` on `None`, which `csv.DictReader` gives for a field of a row shorter than the header. The model has no unparseable amount and no short row, so it captures neither path.
- The printed error messages (financial_analizer.py:30, 32). The missing column is returned as `MissingColumn(column)` instead.
- GoalPlanner.Plan: returns `Failure(DivisionByZero)` where the source raises an uncaught `ZeroDivisionError` that ends the program.
- `print_report`, the result messages of `goal_savings_plan`, and all formatting (financial_analizer.py:39-46, 63-64, 71-78). These are presentation only.
- The `main_menu` loop (financial_analizer.py:81-103). It is an interactive driver; `ExampleSession` plays one path through it.
- IEEE float rounding, infinities and NaN. Amounts are exact reals. The initial `0` (an int) and `0.0` are not distinguished.
