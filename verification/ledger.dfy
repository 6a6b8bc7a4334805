/** The ledger store of App.tsx: the transaction list, the two category
    registries, and the handlers that change them. */
module Ledger {
  import opened Types
  import opened Seqs
  import opened Aggregates

  datatype Ledger = Ledger(
    transactions: seq<Transaction>,
    expenseCategories: seq<string>,
    incomeCategories: seq<string>)

  /** The registry that `kind` selects. */
  function Registry(l: Ledger, kind: TxType): seq<string> {
    if kind == Income then l.incomeCategories else l.expenseCategories
  }

  /** The type that is not `kind`. */
  function OtherKind(kind: TxType): (o: TxType)
    ensures o != kind
  {
    if kind == Income then Expense else Income
  }

  /** The ids of `txs`, in order. */
  function Ids(txs: seq<Transaction>): (r: seq<string>)
    ensures |r| == |txs|
    ensures forall i :: 0 <= i < |txs| ==> r[i] == txs[i].id
  {
    if |txs| == 0 then [] else [txs[0].id] + Ids(txs[1..])
  }

  predicate UniqueIds(txs: seq<Transaction>) {
    NoDuplicates(Ids(txs))
  }

  /** Initial state: each slot takes its saved value, or its default when
      nothing was saved. Transactions default to the empty list, the
      registries to the default category lists. */
  function Load(savedTransactions: Option<seq<Transaction>>,
                savedExpense: Option<seq<string>>,
                savedIncome: Option<seq<string>>): (l: Ledger)
    ensures savedTransactions.None? ==> l.transactions == []
    ensures savedExpense.None? ==> l.expenseCategories == DefaultExpenseCategories
    ensures savedIncome.None? ==> l.incomeCategories == DefaultIncomeCategories
    ensures savedTransactions.Some? ==> l.transactions == savedTransactions.value
    ensures savedExpense.Some? ==> l.expenseCategories == savedExpense.value
    ensures savedIncome.Some? ==> l.incomeCategories == savedIncome.value
  {
    Ledger(
      match savedTransactions case Some(ts) => ts case None => [],
      match savedExpense case Some(cs) => cs case None => DefaultExpenseCategories,
      match savedIncome case Some(cs) => cs case None => DefaultIncomeCategories)
  }

  /** A fresh profile starts with no transactions and duplicate-free,
      gate-clean default registries. */
  lemma FreshProfile()
    ensures var l := Load(None, None, None);
      && l.transactions == []
      && NoDuplicates(l.expenseCategories) && NoDuplicates(l.incomeCategories)
      && GateClean(l.expenseCategories) && GateClean(l.incomeCategories)
  {
    DefaultsDistinct();
    DefaultsAreClean();
  }

  /** `{ ...draft, id }` */
  function WithId(d: Draft, id: string): Transaction {
    Transaction(id, d.kind, d.amount, d.category, d.date, d.description)
  }

  /** The draft a transaction was made from (`Omit<Transaction, 'id'>`). */
  function DraftOf(t: Transaction): Draft {
    Draft(t.kind, t.amount, t.category, t.date, t.description)
  }

  /** addTransaction: append the draft under the id `freshId` (the value
      `crypto.randomUUID()` returned). */
  function AddTransaction(l: Ledger, d: Draft, freshId: string): (r: Ledger)
    ensures |r.transactions| == |l.transactions| + 1
    ensures r.transactions[..|l.transactions|] == l.transactions
    ensures r.transactions[|l.transactions|].id == freshId
    ensures DraftOf(r.transactions[|l.transactions|]) == d
    ensures r.expenseCategories == l.expenseCategories && r.incomeCategories == l.incomeCategories
  {
    l.(transactions := l.transactions + [WithId(d, freshId)])
  }

  /** A fresh id keeps the ids unique. */
  lemma AddKeepsIdsUnique(l: Ledger, d: Draft, freshId: string)
    requires UniqueIds(l.transactions)
    requires freshId !in Ids(l.transactions)
    ensures UniqueIds(AddTransaction(l, d, freshId).transactions)
  {
    var r := AddTransaction(l, d, freshId).transactions;
    assert Ids(r) == Ids(l.transactions) + [freshId];
    AppendFresh(Ids(l.transactions), freshId);
  }

  /** Adding a transaction moves the total of its own type by its amount
      and leaves the other total alone. */
  lemma AddTransactionTotals(l: Ledger, d: Draft, freshId: string, kind: TxType)
    ensures TotalOf(AddTransaction(l, d, freshId).transactions, kind)
         == TotalOf(l.transactions, kind) + (if d.kind == kind then d.amount else 0)
  {
    TotalOfConcat(l.transactions, [WithId(d, freshId)], kind);
    TotalOfSingle(WithId(d, freshId), kind);
  }

  function KeepsId(id: string): Transaction -> bool {
    (t: Transaction) => t.id != id
  }

  /** deleteTransaction: `prev.filter(t => t.id !== id)`. */
  function DeleteTransaction(l: Ledger, id: string): (r: Ledger)
    ensures forall i :: 0 <= i < |r.transactions| ==> r.transactions[i].id != id && r.transactions[i] in l.transactions
    ensures forall i :: 0 <= i < |l.transactions| && l.transactions[i].id != id ==> l.transactions[i] in r.transactions
    ensures IsSubsequence(r.transactions, l.transactions)
    ensures forall t :: multiset(r.transactions)[t] == if t.id == id then 0 else multiset(l.transactions)[t]
    ensures id !in Ids(l.transactions) ==> r == l
    ensures r.expenseCategories == l.expenseCategories && r.incomeCategories == l.incomeCategories
  {
    FilterMultiset(l.transactions, KeepsId(id));
    l.(transactions := Filter(l.transactions, KeepsId(id)))
  }

  lemma {:induction false} IdsFilter(txs: seq<Transaction>, id: string)
    ensures Ids(Filter(txs, KeepsId(id))) == Filter(Ids(txs), (x: string) => x != id)
    decreases |txs|
  {
    if |txs| > 0 {
      IdsFilter(txs[1..], id);
      assert Ids(txs)[1..] == Ids(txs[1..]);
    }
  }

  /** Deleting keeps the ids unique. */
  lemma DeleteKeepsIdsUnique(l: Ledger, id: string)
    requires UniqueIds(l.transactions)
    ensures UniqueIds(DeleteTransaction(l, id).transactions)
  {
    IdsFilter(l.transactions, id);
    FilterNoDuplicates(Ids(l.transactions), (x: string) => x != id);
  }

  /** With unique ids, a delete removes exactly one record when the id is
      present and none otherwise. */
  lemma {:induction false} DeleteCount(l: Ledger, id: string)
    requires UniqueIds(l.transactions)
    ensures |DeleteTransaction(l, id).transactions|
         == |l.transactions| - (if id in Ids(l.transactions) then 1 else 0)
    decreases |l.transactions|
  {
    var txs := l.transactions;
    if |txs| > 0 {
      var rest := l.(transactions := txs[1..]);
      assert Ids(txs) == [txs[0].id] + Ids(txs[1..]);
      DeleteCount(rest, id);
      if txs[0].id == id {
        assert id !in Ids(txs[1..]);
      }
    }
  }

  // ---------------------------------------------------------------------
  // Category registries (handleAddCategory / handleRemoveCategory).

  function SetRegistry(l: Ledger, kind: TxType, names: seq<string>): (r: Ledger)
    ensures Registry(r, kind) == names
    ensures Registry(r, OtherKind(kind)) == Registry(l, OtherKind(kind))
    ensures r.transactions == l.transactions
  {
    if kind == Income then l.(incomeCategories := names) else l.(expenseCategories := names)
  }

  /** handleAddCategory: append `name` to the registry of `kind`. No check
      happens here; the category gate does it before calling. */
  function AddCategory(l: Ledger, kind: TxType, name: string): (r: Ledger)
    ensures Registry(r, kind) == Registry(l, kind) + [name]
    ensures Registry(r, OtherKind(kind)) == Registry(l, OtherKind(kind))
    ensures r.transactions == l.transactions
  {
    SetRegistry(l, kind, Registry(l, kind) + [name])
  }

  function IsNot(name: string): string -> bool {
    (c: string) => c != name
  }

  /** handleRemoveCategory: drop every occurrence of `name` from the
      registry of `kind`. Transactions keep their category strings. */
  function RemoveCategory(l: Ledger, kind: TxType, name: string): (r: Ledger)
    ensures name !in Registry(r, kind)
    ensures forall i :: 0 <= i < |Registry(l, kind)| && Registry(l, kind)[i] != name ==> Registry(l, kind)[i] in Registry(r, kind)
    ensures forall i :: 0 <= i < |Registry(r, kind)| ==> Registry(r, kind)[i] in Registry(l, kind)
    ensures IsSubsequence(Registry(r, kind), Registry(l, kind))
    ensures forall x :: multiset(Registry(r, kind))[x] == if x == name then 0 else multiset(Registry(l, kind))[x]
    ensures name !in Registry(l, kind) ==> r == l
    ensures Registry(r, OtherKind(kind)) == Registry(l, OtherKind(kind))
    ensures r.transactions == l.transactions
  {
    FilterMultiset(Registry(l, kind), IsNot(name));
    var kept := Filter(Registry(l, kind), IsNot(name));
    assert name !in Registry(l, kind) ==> kept == Registry(l, kind);
    SetRegistry(l, kind, kept)
  }

  /** Removing a name keeps a duplicate-free registry duplicate-free. */
  lemma RemoveCategoryKeepsDistinct(l: Ledger, kind: TxType, name: string)
    requires NoDuplicates(Registry(l, kind))
    ensures NoDuplicates(Registry(RemoveCategory(l, kind, name), kind))
  {
    FilterNoDuplicates(Registry(l, kind), IsNot(name));
  }

  lemma {:induction false} FilterOutOne(s: seq<string>, name: string)
    requires NoDuplicates(s)
    ensures |Filter(s, IsNot(name))| == |s| - (if name in s then 1 else 0)
    decreases |s|
  {
    if |s| > 0 {
      assert NoDuplicates(s[1..]);
      FilterOutOne(s[1..], name);
      if s[0] == name {
        assert name !in s[1..];
      } else {
        assert name in s <==> name in s[1..];
      }
    }
  }

  /** In a duplicate-free registry, removing a present name shortens it by
      exactly one. */
  lemma RemoveCategoryCount(l: Ledger, kind: TxType, name: string)
    requires NoDuplicates(Registry(l, kind))
    ensures |Registry(RemoveCategory(l, kind, name), kind)|
         == |Registry(l, kind)| - (if name in Registry(l, kind) then 1 else 0)
  {
    FilterOutOne(Registry(l, kind), name);
  }

  // ---------------------------------------------------------------------
  // Runs of add/delete operations.

  datatype Op = Add(draft: Draft, freshId: string) | Delete(id: string)

  function Apply(l: Ledger, op: Op): Ledger {
    match op
    case Add(d, id) => AddTransaction(l, d, id)
    case Delete(id) => DeleteTransaction(l, id)
  }

  function Run(l: Ledger, ops: seq<Op>): Ledger
    decreases |ops|
  {
    if |ops| == 0 then l else Run(Apply(l, ops[0]), ops[1..])
  }

  /** Every add in the run uses an id that is not present at that moment. */
  predicate FreshIds(l: Ledger, ops: seq<Op>)
    decreases |ops|
  {
    |ops| == 0 ||
    ((ops[0].Add? ==> ops[0].freshId !in Ids(l.transactions)) && FreshIds(Apply(l, ops[0]), ops[1..]))
  }

  function Adds(ops: seq<Op>): nat {
    if |ops| == 0 then 0 else (if ops[0].Add? then 1 else 0) + Adds(ops[1..])
  }

  /** The number of deletes of the run that found their id. */
  function Hits(l: Ledger, ops: seq<Op>): nat
    decreases |ops|
  {
    if |ops| == 0 then 0
    else (if ops[0].Delete? && ops[0].id in Ids(l.transactions) then 1 else 0) + Hits(Apply(l, ops[0]), ops[1..])
  }

  /** Over any run whose adds use fresh ids, ids stay unique and the length
      moves by the adds minus the deletes that found their id. */
  lemma {:induction false} RunInvariant(l: Ledger, ops: seq<Op>)
    requires UniqueIds(l.transactions)
    requires FreshIds(l, ops)
    ensures UniqueIds(Run(l, ops).transactions)
    ensures |Run(l, ops).transactions| == |l.transactions| + Adds(ops) - Hits(l, ops)
    decreases |ops|
  {
    if |ops| > 0 {
      var op := ops[0];
      if op.Add? {
        AddKeepsIdsUnique(l, op.draft, op.freshId);
      } else {
        DeleteKeepsIdsUnique(l, op.id);
        DeleteCount(l, op.id);
      }
      RunInvariant(Apply(l, op), ops[1..]);
    }
  }
}
