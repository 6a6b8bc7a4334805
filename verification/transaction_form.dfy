/** The transaction entry form of components/TransactionForm.tsx: the
    category auto-select effect and the submit handler. */
module TransactionForm {
  import opened Types
  import opened Ledger

  /** The form's state; `amount` is the raw text of the number input. */
  datatype Form = Form(kind: TxType, amount: string, category: string, date: string, description: string)

  /** What a submit produced: nothing, or one draft for onAddTransaction. */
  datatype Submission = Rejected | Submitted(draft: Draft)

  /** The state on mount: type expense, empty fields, and `today` (the
      ISO date of the clock, a parameter here) as the date. */
  function Initial(today: string): (f: Form)
    ensures f.kind == Expense && f.date == today
    ensures f.amount == [] && f.category == [] && f.description == []
  {
    Form(Expense, [], [], today, [])
  }

  /** `type === 'expense' ? expenseCategories : incomeCategories` */
  function Choices(kind: TxType, expense: seq<string>, income: seq<string>): seq<string> {
    if kind == Expense then expense else income
  }

  /** The auto-select effect: when the category is empty or not offered for
      the current type, pick the first offered one, or '' if none is. */
  function AutoSelect(f: Form, expense: seq<string>, income: seq<string>): (r: Form)
    ensures var cs := Choices(f.kind, expense, income);
      && (|cs| > 0 ==> r.category in cs)
      && (|cs| == 0 ==> r.category == [])
    ensures f.category != [] && f.category in Choices(f.kind, expense, income) ==> r == f
    ensures var cs := Choices(f.kind, expense, income);
      f.category == [] || f.category !in cs ==> r.category == (if |cs| > 0 then cs[0] else [])
    ensures r == f.(category := r.category)
  {
    var cs := Choices(f.kind, expense, income);
    if f.category == [] || f.category !in cs then
      f.(category := if |cs| > 0 then cs[0] else [])
    else f
  }

  /** Running the effect again changes nothing. */
  lemma AutoSelectIdempotent(f: Form, expense: seq<string>, income: seq<string>)
    ensures AutoSelect(AutoSelect(f, expense, income), expense, income) == AutoSelect(f, expense, income)
  {
  }

  /** Clicking a type button: the type changes and the effect re-runs. */
  function ChangeType(f: Form, kind: TxType, expense: seq<string>, income: seq<string>): (r: Form)
    ensures r.kind == kind && r.amount == f.amount && r.date == f.date && r.description == f.description
    ensures |Choices(kind, expense, income)| > 0 ==> r.category in Choices(kind, expense, income)
    ensures var cs := Choices(kind, expense, income);
      && (f.category != [] && f.category in cs ==> r.category == f.category)
      && (f.category == [] || f.category !in cs ==> r.category == (if |cs| > 0 then cs[0] else []))
  {
    AutoSelect(f.(kind := kind), expense, income)
  }

  /** handleSubmit. `number` is JavaScript's `Number(text)` with None for
      NaN; amounts are integer cents. */
  function HandleSubmit(f: Form, number: string -> Option<int>): (r: (Form, Submission))
    ensures r.1.Rejected? <==> f.amount == [] || number(f.amount).None? || f.category == []
    ensures r.1.Rejected? ==> r.0 == f
    ensures r.1.Submitted? ==>
      && r.1.draft.kind == f.kind && r.1.draft.amount == number(f.amount).value
      && r.1.draft.category == f.category && r.1.draft.date == f.date
      && r.1.draft.description == f.description
    ensures r.1.Submitted? ==>
      && r.0.amount == [] && r.0.description == []
      && r.0.kind == f.kind && r.0.date == f.date && r.0.category == f.category
  {
    if f.amount == [] || number(f.amount).None? then (f, Rejected)
    else if f.category == [] then (f, Rejected)
    else
      var d := Draft(f.kind, number(f.amount).value, f.category, f.date, f.description);
      (f.(amount := [], description := []), Submitted(d))
  }

  /** No sign check: any numeric text reaches onAddTransaction, zero and
      negative amounts included (`min="0.01"` is only an HTML hint). */
  lemma SubmitAcceptsAnyNumber(f: Form, number: string -> Option<int>, v: int)
    requires f.amount != [] && f.category != [] && number(f.amount) == Some(v)
    ensures HandleSubmit(f, number).1.Submitted? && HandleSubmit(f, number).1.draft.amount == v
  {
  }

  /** Form and store together: after the effect has run against the
      ledger's registries, a submitted transaction lands at the end of the
      ledger with a category that the registry of its type lists. With an
      empty registry the effect leaves the category empty and nothing is
      submitted. */
  lemma SubmittedCategoryIsRegistered(l: Ledger, f: Form, number: string -> Option<int>, freshId: string)
    ensures var g := AutoSelect(f, l.expenseCategories, l.incomeCategories);
      var (_, s) := HandleSubmit(g, number);
      s.Submitted? ==>
        var t := AddTransaction(l, s.draft, freshId).transactions[|l.transactions|];
        t.category in Registry(l, t.kind) && t.id == freshId
  {
    var g := AutoSelect(f, l.expenseCategories, l.incomeCategories);
    assert Choices(f.kind, l.expenseCategories, l.incomeCategories) == Registry(l, f.kind);
  }
}
