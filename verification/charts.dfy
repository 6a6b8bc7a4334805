/** The analytics view of components/Charts.tsx: the expense breakdown
    sorted for the pie chart, and the income/expense bars. */
module Charts {
  import opened Types
  import opened Seqs
  import opened Aggregates
  import opened StableSort

  /** The sort key of a pie slice: its value (`b.value - a.value`). */
  function EntryValue(e: Entry): int {
    e.value
  }

  /** `pieData`: the breakdown's entries by non-increasing value; equal
      values keep the breakdown's (first-met) order. */
  function PieData(txs: seq<Transaction>): (r: seq<Entry>)
    ensures SortedDesc(r, EntryValue)
    ensures multiset(r) == multiset(Breakdown(ExpenseCharges(txs)))
  {
    var b := Breakdown(ExpenseCharges(txs));
    SortPerm(b, EntryValue);
    SortDesc(b, EntryValue)
  }

  /** Ties in value keep the order in which their categories were first met. */
  lemma PieDataStable(txs: seq<Transaction>)
    ensures SameKeyClasses(PieData(txs), Breakdown(ExpenseCharges(txs)), EntryValue)
  {
    SortIsStable(Breakdown(ExpenseCharges(txs)), EntryValue);
  }

  lemma PieSlice(txs: seq<Transaction>, i: nat)
    requires i < |PieData(txs)|
    ensures PieData(txs)[i].name in Categories(ExpenseCharges(txs))
    ensures PieData(txs)[i].value == SumFor(ExpenseCharges(txs), PieData(txs)[i].name)
  {
    var cs := ExpenseCharges(txs);
    var b := Breakdown(cs);
    var pie := PieData(txs);
    assert pie[i] in multiset(b);
    var j :| 0 <= j < |b| && b[j] == pie[i];
    assert Names(b)[j] == pie[i].name;
    ValueOfEntry(b, j);
    BreakdownValue(cs, pie[i].name);
  }

  lemma PieHasCategory(txs: seq<Transaction>, n: string)
    requires n in Categories(ExpenseCharges(txs))
    ensures exists i :: 0 <= i < |PieData(txs)| && PieData(txs)[i].name == n
  {
    var b := Breakdown(ExpenseCharges(txs));
    var pie := PieData(txs);
    assert n in Names(b);
    var j :| 0 <= j < |b| && Names(b)[j] == n;
    assert b[j] in multiset(pie);
    var i :| 0 <= i < |pie| && pie[i] == b[j];
  }

  /** Every slice is one expense category with the total spent on it, and
      every expense category has a slice. */
  lemma PieSlices(txs: seq<Transaction>)
    ensures forall i :: 0 <= i < |PieData(txs)| ==>
      && PieData(txs)[i].name in Categories(ExpenseCharges(txs))
      && PieData(txs)[i].value == SumFor(ExpenseCharges(txs), PieData(txs)[i].name)
    ensures forall n :: n in Categories(ExpenseCharges(txs)) ==>
      exists i :: 0 <= i < |PieData(txs)| && PieData(txs)[i].name == n
    ensures |PieData(txs)| == |Breakdown(ExpenseCharges(txs))|
  {
    forall i | 0 <= i < |PieData(txs)|
      ensures PieData(txs)[i].name in Categories(ExpenseCharges(txs))
      ensures PieData(txs)[i].value == SumFor(ExpenseCharges(txs), PieData(txs)[i].name)
    {
      PieSlice(txs, i);
    }
    forall n | n in Categories(ExpenseCharges(txs))
      ensures exists i :: 0 <= i < |PieData(txs)| && PieData(txs)[i].name == n
    {
      PieHasCategory(txs, n);
    }
  }

  lemma {:induction false} TotalOfInsert(x: Entry, s: seq<Entry>)
    ensures Total(Insert(x, s, EntryValue)) == Total(s) + x.value
    decreases |s|
  {
    if |s| > 0 && s[0].value >= x.value {
      TotalOfInsert(x, s[1..]);
    }
  }

  lemma {:induction false} TotalOfSort(s: seq<Entry>)
    ensures Total(SortDesc(s, EntryValue)) == Total(s)
    decreases |s|
  {
    if |s| > 0 {
      var init, x := s[..|s| - 1], s[|s| - 1];
      assert s == init + [x];
      TotalOfSort(init);
      TotalOfInsert(x, SortDesc(init, EntryValue));
      TotalConcat(init, [x]);
    }
  }

  /** The slices add up to the expense total shown in the bar chart. */
  lemma PieSumsToExpenses(txs: seq<Transaction>)
    ensures Total(PieData(txs)) == TotalOf(txs, Expense)
  {
    TotalOfSort(Breakdown(ExpenseCharges(txs)));
  }

  /** One bar of the cash-flow chart. */
  datatype Bar = Bar(name: string, amount: int)

  /** `barData`: Income then Expenses, with the two totals. */
  function BarData(txs: seq<Transaction>): (r: seq<Bar>)
    ensures |r| == 2
    ensures r[0] == Bar("Income", TotalOf(txs, Income))
    ensures r[1] == Bar("Expenses", TotalOf(txs, Expense))
  {
    [Bar("Income", TotalOf(txs, Income)), Bar("Expenses", TotalOf(txs, Expense))]
  }

  /** What the component renders. */
  datatype View = EmptyState | Analytics(pie: seq<Entry>, bars: seq<Bar>)

  /** The empty-state branch is taken exactly when there is no transaction
      at all; income-only ledgers still get the charts, with no slice. */
  function ChartsView(txs: seq<Transaction>): (v: View)
    ensures v.EmptyState? <==> |txs| == 0
    ensures v.Analytics? ==> v.pie == PieData(txs) && v.bars == BarData(txs)
  {
    if |txs| == 0 then EmptyState else Analytics(PieData(txs), BarData(txs))
  }
}
