/**
 * The ledger behind `FinanceAnalysis.metrics`: a `defaultdict(float)` from
 * category name to running total, modelled as a map read through `Get`,
 * which yields 0 for a category that has no entry.
 */
module Ledger {
  import opened Wrappers

  type Totals = map<string, real>

  /** The three categories the derived metrics read. */
  const Income := "Income"
  const Fixed := "Fixed"
  const Variable := "Variable"
  const DerivedKeys: set<string> := {Income, Fixed, Variable}

  /**
   * One row of the record file; a column the row lacks is `None`. This is
   * more general than the file reader, which gives every row the header's
   * columns, so a column missing from the header is missing from row 0.
   */
  datatype Record = Record(category: Option<string>, amount: Option<real>, description: Option<string>)

  /** Why a load stopped: the row lookup of a missing column raised `KeyError`. */
  datatype LoadOutcome = Loaded | MissingColumn(column: string)

  /** The value of a category; an absent category reads as 0. */
  function Get(m: Totals, k: string): real
  {
    if k in m then m[k] else 0.0
  }

  /** `metrics[category] += amount` on a defaultdict. */
  function AddTo(m: Totals, category: string, amount: real): Totals
  {
    m[category := Get(m, category) + amount]
  }

  /**
   * Reading `metrics['Fixed']`, `metrics['Variable']` and `metrics['Income']`
   * on a defaultdict inserts each absent key with value 0: the keys grow, the
   * values read do not change.
   */
  function WithDefaults(m: Totals): (r: Totals)
    ensures r.Keys == m.Keys + DerivedKeys
    ensures forall k :: Get(r, k) == Get(m, k)
    ensures forall k :: k in m ==> r[k] == m[k]
  {
    var withIncome := if Income in m then m else m[Income := 0.0];
    var withFixed := if Fixed in withIncome then withIncome else withIncome[Fixed := 0.0];
    if Variable in withFixed then withFixed else withFixed[Variable := 0.0]
  }

  /** `total_expenses` as a function of the totals. */
  function TotalExpenses(m: Totals): real
  {
    Get(m, Fixed) + Get(m, Variable)
  }

  /** `savings` as a function of the totals. */
  function Savings(m: Totals): real
  {
    Get(m, Income) - TotalExpenses(m)
  }

  /** The column whose lookup fails first: `Category` is read before `Amount`. */
  function MissingColumnOf(r: Record): Option<string>
  {
    if r.category.None? then Some("Category")
    else if r.amount.None? then Some("Amount")
    else None
  }

  predicate WellFormed(r: Record)
  {
    r.category.Some? && r.amount.Some?
  }

  predicate AllWellFormed(rs: seq<Record>)
  {
    forall i :: 0 <= i < |rs| ==> WellFormed(rs[i])
  }

  /** The number of rows aggregated before the first row with a missing column. */
  function WellFormedPrefix(rs: seq<Record>): (n: nat)
    ensures n <= |rs|
    ensures AllWellFormed(rs[..n])
    ensures n < |rs| ==> !WellFormed(rs[n])
  {
    if rs == [] || !WellFormed(rs[0]) then 0
    else
      var n := 1 + WellFormedPrefix(rs[1..]);
      assert rs[..n] == [rs[0]] + rs[1..][..n - 1];
      n
  }

  /** What a load of `rs` reports. */
  function LoadOutcomeOf(rs: seq<Record>): LoadOutcome
  {
    var n := WellFormedPrefix(rs);
    if n == |rs| then Loaded else MissingColumn(MissingColumnOf(rs[n]).value)
  }

  /** The totals after folding the rows of `rs`, in order, into `m`. */
  function Aggregate(m: Totals, rs: seq<Record>): Totals
    requires AllWellFormed(rs)
    decreases |rs|
  {
    if rs == [] then m
    else
      var last := rs[|rs| - 1];
      AddTo(Aggregate(m, rs[..|rs| - 1]), last.category.value, last.amount.value)
  }

  /** What one row adds to category `k`. */
  function Contribution(r: Record, k: string): real
  {
    if r.category == Some(k) && r.amount.Some? then r.amount.value else 0.0
  }

  /** The sum of the amounts of the rows of `rs` whose category is `k`. */
  function SumFor(rs: seq<Record>, k: string): real
  {
    if rs == [] then 0.0 else Contribution(rs[0], k) + SumFor(rs[1..], k)
  }

  /** The categories named by the rows of `rs`. */
  function Categories(rs: seq<Record>): set<string>
  {
    set r | r in rs && r.category.Some? :: r.category.value
  }

  lemma {:induction false} SumForAppend(a: seq<Record>, b: seq<Record>, k: string)
    ensures SumFor(a + b, k) == SumFor(a, k) + SumFor(b, k)
  {
    if a == [] {
      assert a + b == b;
    } else {
      assert (a + b)[1..] == a[1..] + b;
      SumForAppend(a[1..], b, k);
    }
  }

  /** Aggregation is additive: each total grows by the sum of its rows' amounts. */
  lemma {:induction false} AggregateGet(m: Totals, rs: seq<Record>, k: string)
    requires AllWellFormed(rs)
    ensures Get(Aggregate(m, rs), k) == Get(m, k) + SumFor(rs, k)
  {
    if rs != [] {
      var init, last := rs[..|rs| - 1], rs[|rs| - 1];
      AggregateGet(m, init, k);
      SumForAppend(init, [last], k);
      assert init + [last] == rs;
      assert [last][1..] == [];
    }
  }

  /** A category no row names gets nothing from the rows. */
  lemma {:induction false} SumForUnnamed(rs: seq<Record>, k: string)
    requires k !in Categories(rs)
    ensures SumFor(rs, k) == 0.0
  {
    if rs != [] {
      assert rs[0] in rs;
      assert forall r | r in rs[1..] :: r in rs;
      SumForUnnamed(rs[1..], k);
    }
  }

  /** Folding rows leaves the total of every category they do not name unchanged. */
  lemma AggregateUnnamed(m: Totals, rs: seq<Record>, k: string)
    requires AllWellFormed(rs) && k !in Categories(rs)
    ensures Get(Aggregate(m, rs), k) == Get(m, k)
  {
    AggregateGet(m, rs, k);
    SumForUnnamed(rs, k);
  }

  /** Aggregation creates an entry for exactly the categories its rows name. */
  lemma {:induction false} AggregateKeys(m: Totals, rs: seq<Record>)
    requires AllWellFormed(rs)
    ensures Aggregate(m, rs).Keys == m.Keys + Categories(rs)
  {
    if rs != [] {
      var init, last := rs[..|rs| - 1], rs[|rs| - 1];
      AggregateKeys(m, init);
      assert rs == init + [last];
      assert Categories(rs) == Categories(init) + {last.category.value};
    }
  }

  /** Taking one row out of `b` takes its contribution out of the sum. */
  lemma SumForRemove(b: seq<Record>, i: nat, k: string)
    requires i < |b|
    ensures SumFor(b, k) == Contribution(b[i], k) + SumFor(b[..i] + b[i + 1..], k)
  {
    var before, after := b[..i], b[i + 1..];
    assert b == before + ([b[i]] + after);
    SumForAppend(before, [b[i]] + after, k);
    SumForAppend(before, after, k);
    assert ([b[i]] + after)[1..] == after;
  }

  /** The sum for a category does not depend on the order of the rows. */
  lemma {:induction false} SumForPermutation(a: seq<Record>, b: seq<Record>, k: string)
    requires multiset(a) == multiset(b)
    ensures SumFor(a, k) == SumFor(b, k)
  {
    if a == [] {
      assert |b| == |multiset(b)| == 0;
    } else {
      var x := a[0];
      assert x in multiset(b) by {
        assert a == [x] + a[1..];
      }
      var i :| 0 <= i < |b| && b[i] == x;
      var rest := b[..i] + b[i + 1..];
      assert multiset(rest) == multiset(a[1..]) by {
        assert a == [x] + a[1..];
        assert multiset(a) == multiset{x} + multiset(a[1..]);
        assert b == b[..i] + [x] + b[i + 1..];
        assert multiset(b) == multiset(b[..i]) + multiset{x} + multiset(b[i + 1..]);
        assert multiset(rest) == multiset(b[..i]) + multiset(b[i + 1..]);
        assert multiset(a[1..]) == multiset(a) - multiset{x};
        assert multiset(rest) == multiset(b) - multiset{x};
      }
      SumForPermutation(a[1..], rest, k);
      SumForRemove(b, i, k);
    }
  }

  /** Loading the same rows in any order yields the same ledger. */
  lemma {:induction false} AggregateOrderIndependent(m: Totals, a: seq<Record>, b: seq<Record>)
    requires AllWellFormed(a)
    requires multiset(a) == multiset(b)
    ensures AllWellFormed(b)
    ensures Aggregate(m, a) == Aggregate(m, b)
  {
    forall i | 0 <= i < |b| ensures WellFormed(b[i]) {
      assert b[i] in multiset(a);
    }
    AggregateKeys(m, a);
    AggregateKeys(m, b);
    assert Categories(a) == Categories(b) by {
      forall r ensures r in a <==> r in b {
        assert r in a <==> r in multiset(a);
        assert r in b <==> r in multiset(b);
      }
    }
    forall k | k in Aggregate(m, a) ensures Aggregate(m, a)[k] == Aggregate(m, b)[k] {
      AggregateGet(m, a, k);
      AggregateGet(m, b, k);
      SumForPermutation(a, b, k);
    }
  }
}
