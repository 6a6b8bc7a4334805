/** Totals by type and the per-category expense breakdown, shared by the
    dashboard (App.tsx, components/Charts.tsx) and the two advice handlers
    (server.js, api/analyze.ts). */
module Aggregates {
  import opened Types
  import opened Seqs

  /** One amount booked against a category. */
  datatype Charge = Charge(category: string, amount: int)

  /** One breakdown entry: a category name and its summed amount. */
  datatype Entry = Entry(name: string, value: int)

  /** `reduce((sum, t) => sum + t.amount, 0)` */
  function Sum(cs: seq<Charge>): int {
    if |cs| == 0 then 0 else cs[0].amount + Sum(cs[1..])
  }

  /** The categories of `cs`, in order. */
  function Categories(cs: seq<Charge>): (r: seq<string>)
    ensures |r| == |cs|
    ensures forall i :: 0 <= i < |cs| ==> r[i] == cs[i].category
  {
    if |cs| == 0 then [] else [cs[0].category] + Categories(cs[1..])
  }

  /** The total of the charges booked against `name`. */
  function SumFor(cs: seq<Charge>, name: string): int {
    if |cs| == 0 then 0
    else (if cs[0].category == name then cs[0].amount else 0) + SumFor(cs[1..], name)
  }

  lemma {:induction false} SumConcat(a: seq<Charge>, b: seq<Charge>)
    ensures Sum(a + b) == Sum(a) + Sum(b)
    decreases |a|
  {
    if |a| > 0 {
      assert (a + b)[1..] == a[1..] + b;
      SumConcat(a[1..], b);
    } else {
      assert a + b == b;
    }
  }

  lemma {:induction false} SumForConcat(a: seq<Charge>, b: seq<Charge>, name: string)
    ensures SumFor(a + b, name) == SumFor(a, name) + SumFor(b, name)
    decreases |a|
  {
    if |a| > 0 {
      assert (a + b)[1..] == a[1..] + b;
      SumForConcat(a[1..], b, name);
    } else {
      assert a + b == b;
    }
  }

  lemma {:induction false} SumForAbsent(cs: seq<Charge>, name: string)
    requires name !in Categories(cs)
    ensures SumFor(cs, name) == 0
    decreases |cs|
  {
    if |cs| > 0 {
      assert Categories(cs)[1..] == Categories(cs[1..]);
      SumForAbsent(cs[1..], name);
    }
  }

  // ---------------------------------------------------------------------
  // The breakdown: `reduce((acc, t) => { acc[t.category] = (acc[t.category] || 0) + t.amount; ... }, {})`
  // An insertion-ordered association list stands for the JS object.

  function Names(b: seq<Entry>): (r: seq<string>)
    ensures |r| == |b|
    ensures forall i :: 0 <= i < |b| ==> r[i] == b[i].name
  {
    if |b| == 0 then [] else [b[0].name] + Names(b[1..])
  }

  /** `acc[name] || 0`: the value under `name`, or 0 when there is none. */
  function ValueOf(b: seq<Entry>, name: string): int {
    if |b| == 0 then 0
    else if b[0].name == name then b[0].value
    else ValueOf(b[1..], name)
  }

  /** The sum of all values of `b`. */
  function Total(b: seq<Entry>): int {
    if |b| == 0 then 0 else b[0].value + Total(b[1..])
  }

  lemma {:induction false} TotalConcat(a: seq<Entry>, b: seq<Entry>)
    ensures Total(a + b) == Total(a) + Total(b)
    decreases |a|
  {
    if |a| > 0 {
      assert (a + b)[1..] == a[1..] + b;
      TotalConcat(a[1..], b);
    } else {
      assert a + b == b;
    }
  }

  /** In a breakdown with distinct names, looking an entry's name up gives
      that entry's value. */
  lemma {:induction false} ValueOfEntry(b: seq<Entry>, i: nat)
    requires i < |b| && NoDuplicates(Names(b))
    ensures ValueOf(b, b[i].name) == b[i].value
    decreases i
  {
    if i > 0 {
      assert Names(b)[0] != Names(b)[i];
      assert Names(b[1..]) == Names(b)[1..];
      ValueOfEntry(b[1..], i - 1);
    }
  }

  /** One step of the reduce: add `c.amount` under `c.category`, creating the
      key at the end when it is new. */
  function Credit(b: seq<Entry>, c: Charge): (r: seq<Entry>)
    ensures Names(r) == if c.category in Names(b) then Names(b) else Names(b) + [c.category]
    ensures Total(r) == Total(b) + c.amount
  {
    if |b| == 0 then
      var r := [Entry(c.category, c.amount)];
      assert r[1..] == [];
      r
    else if b[0].name == c.category then
      var r := [Entry(b[0].name, b[0].value + c.amount)] + b[1..];
      assert r[1..] == b[1..];
      assert Names(r) == Names(b);
      assert Names(b)[0] == c.category;
      r
    else
      var t := Credit(b[1..], c);
      var r := [b[0]] + t;
      assert r[1..] == t;
      assert Names(b) == [b[0].name] + Names(b[1..]);
      assert Names(r) == [b[0].name] + Names(t);
      r
  }

  lemma {:induction false} CreditValue(b: seq<Entry>, c: Charge, name: string)
    ensures ValueOf(Credit(b, c), name) == ValueOf(b, name) + (if name == c.category then c.amount else 0)
    decreases |b|
  {
    if |b| > 0 && b[0].name != c.category {
      assert Credit(b, c)[1..] == Credit(b[1..], c);
      CreditValue(b[1..], c, name);
    }
  }

  /** The breakdown of `cs`, as the left-to-right reduce builds it. */
  function Breakdown(cs: seq<Charge>): (b: seq<Entry>)
    ensures NoDuplicates(Names(b))
    ensures forall n :: n in Names(b) <==> n in Categories(cs)
    ensures Total(b) == Sum(cs)
    decreases |cs|
  {
    if |cs| == 0 then []
    else
      var init, c := cs[..|cs| - 1], cs[|cs| - 1];
      assert cs == init + [c];
      assert Categories(cs) == Categories(init) + [c.category];
      SumConcat(init, [c]);
      Credit(Breakdown(init), c)
  }

  /** The last charge is credited last. */
  lemma BreakdownLast(cs: seq<Charge>)
    requires |cs| > 0
    ensures Breakdown(cs) == Credit(Breakdown(cs[..|cs| - 1]), cs[|cs| - 1])
  {
  }

  lemma SumForLast(cs: seq<Charge>, name: string)
    requires |cs| > 0
    ensures SumFor(cs, name) == SumFor(cs[..|cs| - 1], name) + (if cs[|cs| - 1].category == name then cs[|cs| - 1].amount else 0)
  {
    var init, c := cs[..|cs| - 1], cs[|cs| - 1];
    assert cs == init + [c];
    SumForConcat(init, [c], name);
    assert [c][1..] == [];
  }

  /** Each value of the breakdown is the total of the charges booked
      against its name; a name that is not a key reads as 0. */
  lemma {:induction false} BreakdownValue(cs: seq<Charge>, name: string)
    ensures ValueOf(Breakdown(cs), name) == SumFor(cs, name)
    decreases |cs|
  {
    if |cs| > 0 {
      var init, c := cs[..|cs| - 1], cs[|cs| - 1];
      BreakdownLast(cs);
      SumForLast(cs, name);
      BreakdownValue(init, name);
      CreditValue(Breakdown(init), c, name);
    }
  }

  /** Index of the first occurrence of `x` in `s` (|s| when absent). */
  function FirstIndex(s: seq<string>, x: string): (i: nat)
    ensures i <= |s|
    ensures i < |s| <==> x in s
    ensures i < |s| ==> s[i] == x
    ensures forall j :: 0 <= j < i ==> s[j] != x
  {
    if |s| == 0 then 0 else if s[0] == x then 0 else 1 + FirstIndex(s[1..], x)
  }

  lemma {:induction false} FirstIndexAppend(s: seq<string>, y: string, x: string)
    requires x in s
    ensures FirstIndex(s + [y], x) == FirstIndex(s, x)
  {
    var i := FirstIndex(s, x);
    assert (s + [y])[i] == x;
    forall j | 0 <= j < i ensures (s + [y])[j] != x {
    }
  }

  /** Each name of `names` is met in `cats` before the next one. */
  predicate FirstMetOrder(names: seq<string>, cats: seq<string>) {
    forall i, j :: 0 <= i < j < |names| ==> FirstIndex(cats, names[i]) < FirstIndex(cats, names[j])
  }

  lemma OrderStep(names: seq<string>, cats: seq<string>, y: string)
    requires FirstMetOrder(names, cats)
    requires forall k :: 0 <= k < |names| ==> names[k] in cats
    requires y in names <==> y in cats
    ensures FirstMetOrder(if y in names then names else names + [y], cats + [y])
  {
    var next := if y in names then names else names + [y];
    forall k | 0 <= k < |names|
      ensures FirstIndex(cats + [y], names[k]) == FirstIndex(cats, names[k]) < |cats|
    {
      FirstIndexAppend(cats, y, names[k]);
    }
    if y !in names {
      assert FirstIndex(cats + [y], y) == |cats| by {
        assert (cats + [y])[|cats|] == y;
      }
      assert next[|names|] == y;
    }
  }

  /** The keys of the breakdown appear in the order in which their
      categories are first met in `cs`. */
  lemma {:induction false} BreakdownOrder(cs: seq<Charge>)
    ensures FirstMetOrder(Names(Breakdown(cs)), Categories(cs))
    decreases |cs|
  {
    if |cs| > 0 {
      var init, c := cs[..|cs| - 1], cs[|cs| - 1];
      assert cs == init + [c];
      assert Categories(cs) == Categories(init) + [c.category];
      BreakdownLast(cs);
      BreakdownOrder(init);
      var names := Names(Breakdown(init));
      forall k | 0 <= k < |names| ensures names[k] in Categories(init) {
        assert names[k] in names;
      }
      OrderStep(names, Categories(init), c.category);
    }
  }

  /** With positive amounts no breakdown value is zero or negative. */
  lemma {:induction false} BreakdownPositive(cs: seq<Charge>)
    requires forall i :: 0 <= i < |cs| ==> cs[i].amount > 0
    ensures forall n :: n in Names(Breakdown(cs)) ==> ValueOf(Breakdown(cs), n) > 0
  {
    forall n | n in Names(Breakdown(cs)) ensures ValueOf(Breakdown(cs), n) > 0 {
      BreakdownValue(cs, n);
      SumForPositive(cs, n);
    }
  }

  lemma {:induction false} SumForPositive(cs: seq<Charge>, name: string)
    requires forall i :: 0 <= i < |cs| ==> cs[i].amount > 0
    requires name in Categories(cs)
    ensures SumFor(cs, name) > 0
    decreases |cs|
  {
    if cs[0].category != name {
      assert Categories(cs) == [cs[0].category] + Categories(cs[1..]);
      SumForPositive(cs[1..], name);
    } else {
      SumForNonNegative(cs[1..], name);
    }
  }

  lemma {:induction false} SumForNonNegative(cs: seq<Charge>, name: string)
    requires forall i :: 0 <= i < |cs| ==> cs[i].amount > 0
    ensures SumFor(cs, name) >= 0
    decreases |cs|
  {
    if |cs| > 0 {
      SumForNonNegative(cs[1..], name);
    }
  }

  // ---------------------------------------------------------------------
  // Transactions.

  function HasKind(kind: TxType): Transaction -> bool {
    (t: Transaction) => t.kind == kind
  }

  /** `transactions.filter(t => t.type === kind)` */
  function OfKind(txs: seq<Transaction>, kind: TxType): (r: seq<Transaction>)
    ensures |r| <= |txs|
    ensures forall t :: t in r <==> t in txs && t.kind == kind
    ensures IsSubsequence(r, txs)
  {
    Filter(txs, HasKind(kind))
  }

  /** Each transaction of `kind` is kept as often as it occurs, and no
      other transaction is kept. */
  lemma OfKindCount(txs: seq<Transaction>, kind: TxType)
    ensures forall t :: multiset(OfKind(txs, kind))[t] == if t.kind == kind then multiset(txs)[t] else 0
  {
    FilterMultiset(txs, HasKind(kind));
  }

  /** The (category, amount) pair of each transaction. */
  function Charges(txs: seq<Transaction>): (r: seq<Charge>)
    ensures |r| == |txs|
    ensures forall i :: 0 <= i < |txs| ==> r[i] == Charge(txs[i].category, txs[i].amount)
  {
    if |txs| == 0 then [] else [Charge(txs[0].category, txs[0].amount)] + Charges(txs[1..])
  }

  /** totalByType: the sum of the amounts of the transactions of `kind`. */
  function TotalOf(txs: seq<Transaction>, kind: TxType): int {
    Sum(Charges(OfKind(txs, kind)))
  }

  /** The charges of the expense transactions, in order. */
  function ExpenseCharges(txs: seq<Transaction>): seq<Charge> {
    Charges(OfKind(txs, Expense))
  }

  lemma OfKindConcat(a: seq<Transaction>, b: seq<Transaction>, kind: TxType)
    ensures OfKind(a + b, kind) == OfKind(a, kind) + OfKind(b, kind)
  {
    FilterConcat(a, b, HasKind(kind));
  }

  lemma {:induction false} ChargesConcat(a: seq<Transaction>, b: seq<Transaction>)
    ensures Charges(a + b) == Charges(a) + Charges(b)
  {
  }

  /** totalByType is additive over concatenation. */
  lemma {:induction false} TotalOfConcat(a: seq<Transaction>, b: seq<Transaction>, kind: TxType)
    ensures TotalOf(a + b, kind) == TotalOf(a, kind) + TotalOf(b, kind)
  {
    OfKindConcat(a, b, kind);
    ChargesConcat(OfKind(a, kind), OfKind(b, kind));
    SumConcat(Charges(OfKind(a, kind)), Charges(OfKind(b, kind)));
  }

  /** With no transaction of `kind` the total is 0. */
  lemma {:induction false} TotalOfNone(txs: seq<Transaction>, kind: TxType)
    requires forall i :: 0 <= i < |txs| ==> txs[i].kind != kind
    ensures TotalOf(txs, kind) == 0
    decreases |txs|
  {
    if |txs| > 0 {
      TotalOfNone(txs[1..], kind);
      assert OfKind(txs, kind) == OfKind(txs[1..], kind);
    }
  }

  /** The total of one transaction is its amount if it has the kind, else 0. */
  lemma TotalOfSingle(t: Transaction, kind: TxType)
    ensures TotalOf([t], kind) == if t.kind == kind then t.amount else 0
  {
    assert [t][1..] == [];
    assert OfKind([t], kind) == if t.kind == kind then [t] else [];
    var c := Charge(t.category, t.amount);
    assert Charges([t]) == [c];
    assert [c][1..] == [];
    assert Sum([c]) == t.amount;
  }

  /** The expense breakdown sums to the expense total. */
  lemma BreakdownSumsToExpenses(txs: seq<Transaction>)
    ensures Total(Breakdown(ExpenseCharges(txs))) == TotalOf(txs, Expense)
  {
  }
}
