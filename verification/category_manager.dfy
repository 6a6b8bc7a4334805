/** The category gate of components/CategoryManager.tsx: it trims the typed
    name, ignores empty input, refuses a name already in the registry of the
    selected type, and otherwise hands the name to App.tsx's
    handleAddCategory. */
module CategoryManager {
  import opened Types
  import opened Seqs
  import Text
  import opened Ledger

  /** The component's own state: the two text inputs and the error line. */
  datatype Panel = Panel(expenseInput: string, incomeInput: string, error: Option<string>)

  function Input(p: Panel, kind: TxType): string {
    if kind == Income then p.incomeInput else p.expenseInput
  }

  function SetInput(p: Panel, kind: TxType, v: string): (r: Panel)
    ensures Input(r, kind) == v && Input(r, OtherKind(kind)) == Input(p, OtherKind(kind))
    ensures r.error == p.error
  {
    if kind == Income then p.(incomeInput := v) else p.(expenseInput := v)
  }

  /** The error shown for a duplicate: `'<name>' already exists in <type> categories.` */
  function DuplicateMessage(name: string, kind: TxType): string {
    "'" + name + "' already exists in " + KindName(kind) + " categories."
  }

  /** Distinct refusals read differently: the message determines both the
      refused name and the registry's type. */
  lemma DuplicateMessageDetermines(n1: string, k1: TxType, n2: string, k2: TxType)
    requires DuplicateMessage(n1, k1) == DuplicateMessage(n2, k2)
    ensures n1 == n2 && k1 == k2
  {
    var m := DuplicateMessage(n1, k1);
    var a1, a2 := "'" + n1 + "' already exists in ", "'" + n2 + "' already exists in ";
    var t1, t2 := KindName(k1), KindName(k2);
    assert m == a1 + t1 + " categories." && m == a2 + t2 + " categories.";
    assert m[|m| - 14] == t1[|t1| - 2] && m[|m| - 14] == t2[|t2| - 2];
    assert k1 == k2;
    assert |n1| == |n2|;
    assert n1 == m[1..1 + |n1|] == n2;
  }

  /** handleAdd for the input of `kind` (button click or Enter key). */
  function HandleAdd(l: Ledger, p: Panel, kind: TxType): (r: (Ledger, Panel))
    ensures Text.Trim(Input(p, kind)) == [] ==> r == (l, p)
    ensures var name := Text.Trim(Input(p, kind));
      name != [] && name in Registry(l, kind) ==>
        r.0 == l && r.1 == p.(error := Some(DuplicateMessage(name, kind)))
    ensures var name := Text.Trim(Input(p, kind));
      name != [] && name !in Registry(l, kind) ==>
        && Registry(r.0, kind) == Registry(l, kind) + [name]
        && Text.NoSurroundingSpace(name)
        && Input(r.1, kind) == [] && r.1.error == None
    ensures Registry(r.0, OtherKind(kind)) == Registry(l, OtherKind(kind))
    ensures Input(r.1, OtherKind(kind)) == Input(p, OtherKind(kind))
    ensures r.0.transactions == l.transactions
  {
    var name := Text.Trim(Input(p, kind));
    if name == [] then (l, p)
    else if name in Registry(l, kind) then (l, p.(error := Some(DuplicateMessage(name, kind))))
    else (AddCategory(l, kind, name), SetInput(p, kind, []).(error := None))
  }

  /** The 3-second timer started on a duplicate fires: the error is cleared
      (whatever error is showing by then). */
  function ErrorTimeout(p: Panel): (r: Panel)
    ensures r.error == None
    ensures r.expenseInput == p.expenseInput && r.incomeInput == p.incomeInput
  {
    p.(error := None)
  }

  /** A registry the gate can produce: no repeated name, no empty or
      untrimmed name. */
  predicate CleanRegistry(names: seq<string>) {
    NoDuplicates(names) && GateClean(names)
  }

  /** Both registries are duplicate-free and hold only gate-clean names. */
  predicate WellFormed(l: Ledger) {
    CleanRegistry(l.expenseCategories) && CleanRegistry(l.incomeCategories)
  }

  lemma WellFormedByKind(l: Ledger, kind: TxType)
    ensures WellFormed(l) <==> CleanRegistry(Registry(l, kind)) && CleanRegistry(Registry(l, OtherKind(kind)))
  {
  }

  lemma CleanRegistryAppend(names: seq<string>, name: string)
    requires CleanRegistry(names)
    requires name != [] && Text.Trim(name) == name && name !in names
    ensures CleanRegistry(names + [name])
  {
    AppendFresh(names, name);
  }

  /** The gate keeps both registries duplicate-free and gate-clean. */
  lemma HandleAddKeepsWellFormed(l: Ledger, p: Panel, kind: TxType)
    requires WellFormed(l)
    ensures WellFormed(HandleAdd(l, p, kind).0)
  {
    var name := Text.Trim(Input(p, kind));
    if name != [] && name !in Registry(l, kind) {
      var l' := HandleAdd(l, p, kind).0;
      WellFormedByKind(l, kind);
      WellFormedByKind(l', kind);
      Text.TrimIdempotent(Input(p, kind));
      CleanRegistryAppend(Registry(l, kind), name);
    }
  }

  /** Typing the same new name twice: the first add appends it once, the
      second is refused with the duplicate error and changes no registry. */
  lemma AddSameNameTwice(l: Ledger, p: Panel, kind: TxType, typed: string)
    requires Text.Trim(typed) != [] && Text.Trim(typed) !in Registry(l, kind)
    ensures var (l1, p1) := HandleAdd(l, SetInput(p, kind, typed), kind);
      var (l2, p2) := HandleAdd(l1, SetInput(p1, kind, typed), kind);
      && l2 == l1
      && multiset(Registry(l2, kind))[Text.Trim(typed)] == 1
      && p2.error == Some(DuplicateMessage(Text.Trim(typed), kind))
  {
    var s, x := Registry(l, kind), Text.Trim(typed);
    assert multiset(s + [x]) == multiset(s) + multiset{x};
  }

  /** The gate consults only the registry of `kind`: ledgers that agree on
      it get the same answer and the same new registry. */
  lemma HandleAddIgnoresOtherRegistry(l: Ledger, l': Ledger, p: Panel, kind: TxType)
    requires Registry(l, kind) == Registry(l', kind)
    ensures HandleAdd(l, p, kind).1 == HandleAdd(l', p, kind).1
    ensures Registry(HandleAdd(l, p, kind).0, kind) == Registry(HandleAdd(l', p, kind).0, kind)
  {
  }

  /** The remove button of the entry at position `i` removes that exact
      stored name from its own registry. */
  function RemoveClicked(l: Ledger, kind: TxType, i: nat): (r: Ledger)
    requires i < |Registry(l, kind)|
    ensures Registry(l, kind)[i] !in Registry(r, kind)
    ensures IsSubsequence(Registry(r, kind), Registry(l, kind))
    ensures forall x :: multiset(Registry(r, kind))[x]
                      == (if x == Registry(l, kind)[i] then 0 else multiset(Registry(l, kind))[x])
    ensures Registry(r, OtherKind(kind)) == Registry(l, OtherKind(kind))
    ensures r.transactions == l.transactions
  {
    RemoveCategory(l, kind, Registry(l, kind)[i])
  }

  /** In a duplicate-free registry the click removes exactly one entry. */
  lemma RemoveClickedCount(l: Ledger, kind: TxType, i: nat)
    requires i < |Registry(l, kind)| && NoDuplicates(Registry(l, kind))
    ensures |Registry(RemoveClicked(l, kind, i), kind)| == |Registry(l, kind)| - 1
  {
    RemoveCategoryCount(l, kind, Registry(l, kind)[i]);
  }
}
