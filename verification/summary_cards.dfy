/** The three summary cards of components/SummaryCards.tsx: balance,
    savings rate and the balance's colour. */
module SummaryCards {

  /** The savings-rate text: the literal '0', or the percentage that
      `toFixed(1)` then renders (the rounding itself is not modelled). */
  datatype RateText = ZeroLiteral | Percent(value: real)

  /** The balance card's colour: blue for a non-negative balance, red otherwise. */
  datatype Tone = NonNegative | Negative

  /** `income - expenses` */
  function Balance(income: int, expenses: int): (b: int)
    ensures b + expenses == income
  {
    income - expenses
  }

  /** `income > 0 ? ((balance / income) * 100).toFixed(1) : '0'` */
  function SavingsRate(income: int, expenses: int): (r: RateText)
    ensures r.ZeroLiteral? <==> income <= 0
    ensures r.Percent? ==> r.value * (income as real) == 100.0 * (Balance(income, expenses) as real)
  {
    if income > 0 then Percent((Balance(income, expenses) as real / income as real) * 100.0)
    else ZeroLiteral
  }

  /** With positive income, the rate is exactly 100 when nothing was
      spent, and below zero exactly when spending exceeds income. */
  lemma RateLandmarks(income: int, expenses: int)
    requires income > 0
    ensures SavingsRate(income, expenses).value == 100.0 <==> expenses == 0
    ensures SavingsRate(income, expenses).value < 0.0 <==> expenses > income
  {
    var v := SavingsRate(income, expenses).value;
    var inc := income as real;
    assert v * inc == 100.0 * (income - expenses) as real;
    if v == 100.0 {
      assert 100.0 * inc == 100.0 * (income - expenses) as real;
    }
    if v < 0.0 {
      assert v * inc < 0.0;
    }
    if expenses > income {
      assert v * inc < 0.0;
    }
  }

  /** `balance >= 0 ? 'text-blue-600' : 'text-red-500'` */
  function BalanceTone(income: int, expenses: int): (t: Tone)
    ensures t == NonNegative <==> income >= expenses
  {
    if Balance(income, expenses) >= 0 then NonNegative else Negative
  }

  /** Income 1000.00 and expenses 400.00 (in cents) give balance 600.00 and
      a 60 % rate. */
  lemma ScenarioSixtyPercent()
    ensures Balance(100000, 40000) == 60000
    ensures SavingsRate(100000, 40000) == Percent(60.0)
  {
  }
}
