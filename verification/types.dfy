/** The record shapes and the default category lists of the ledger (types.ts). */
module Types {
  import Text
  import opened Seqs

  datatype Option<+T> = None | Some(value: T)

  /** A transaction is either income or expense; nothing else. The field is
      called `kind` because `type` is a Dafny keyword. */
  datatype TxType = Income | Expense

  /** The wire spelling of a transaction type ('income' | 'expense'). */
  function KindName(k: TxType): (name: string)
    ensures name == "income" || name == "expense"
    ensures name == "income" <==> k == Income
  {
    match k
    case Income => "income"
    case Expense => "expense"
  }

  /** A recorded transaction. Amounts are integer cents (the source uses JS
      numbers); dates are `YYYY-MM-DD` strings. */
  datatype Transaction = Transaction(
    id: string,
    kind: TxType,
    amount: int,
    category: string,
    date: string,
    description: string)

  /** A transaction before it has an id (`Omit<Transaction, 'id'>`). */
  datatype Draft = Draft(
    kind: TxType,
    amount: int,
    category: string,
    date: string,
    description: string)

  /** The advisor's answer: an analysis text and a list of tips. */
  datatype FinancialAdvice = FinancialAdvice(analysis: string, tips: seq<string>)

  const DefaultExpenseCategories: seq<string> := [
    "Housing", "Food", "Transportation", "Utilities", "Entertainment",
    "Healthcare", "Shopping", "Personal", "Education", "Other"
  ]

  const DefaultIncomeCategories: seq<string> := [
    "Salary", "Freelance", "Investments", "Gifts", "Other"
  ]

  /** Every name is one the category gate could have let through: non-empty
      and already trimmed. */
  predicate GateClean(names: seq<string>) {
    forall i :: 0 <= i < |names| ==> names[i] != "" && Text.Trim(names[i]) == names[i]
  }

  /** Each default list has its listed length and no repeated name. */
  lemma DefaultsDistinct()
    ensures |DefaultExpenseCategories| == 10 && |DefaultIncomeCategories| == 5
    ensures NoDuplicates(DefaultExpenseCategories) && NoDuplicates(DefaultIncomeCategories)
  {
  }

  /** Every default name is non-empty and unchanged by `trim`, so the
      duplicate check of the category gate compares like with like. */
  lemma {:induction false} DefaultsAreClean()
    ensures GateClean(DefaultExpenseCategories) && GateClean(DefaultIncomeCategories)
  {
    CleanNames(DefaultExpenseCategories);
    CleanNames(DefaultIncomeCategories);
  }

  lemma CleanNames(names: seq<string>)
    requires forall i :: 0 <= i < |names| ==> names[i] != "" && Text.NoSurroundingSpace(names[i])
    ensures GateClean(names)
  {
    forall i | 0 <= i < |names|
      ensures Text.Trim(names[i]) == names[i]
    {
      Text.TrimOfClean(names[i]);
    }
  }

  /** The two default registries share 'Other': they are independent lists,
      not a partition of names. */
  lemma DefaultsOverlap()
    ensures "Other" in DefaultExpenseCategories && "Other" in DefaultIncomeCategories
    ensures DefaultExpenseCategories[9] == DefaultIncomeCategories[4]
  {
  }
}
