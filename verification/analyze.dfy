/** The `/api/analyze` endpoint, in its two deployments: the Express
    route in server.js and the serverless handler in api/analyze.ts.
    Both reduce the posted transactions to a summary, hand the summary
    to the language model and relay its JSON reply. */
module Analyze {
  import opened Types
  import opened Seqs
  import opened Aggregates

  /** One element of the posted `transactions` array, as the server sees
      it: the `type` field is whatever string the client sent. */
  datatype RawEntry = RawEntry(kind: string, amount: int, category: string)

  /** The object serialised into the prompt. */
  datatype Summary = Summary(
    totalIncome: int,
    totalExpense: int,
    savings: int,
    expensesBreakdown: seq<Entry>,
    transactionCount: nat)

  /** `entries.filter(t => t.type === kind)`, as (category, amount) pairs. */
  function KindCharges(es: seq<RawEntry>, kind: string): (r: seq<Charge>)
    ensures |r| <= |es|
  {
    if |es| == 0 then []
    else (if es[0].kind == kind then [Charge(es[0].category, es[0].amount)] else [])
         + KindCharges(es[1..], kind)
  }

  /** The sum of the amounts of the entries of `kind` in `category`,
      computed directly from the entries. */
  function CategoryTotal(es: seq<RawEntry>, kind: string, category: string): int {
    if |es| == 0 then 0
    else (if es[0].kind == kind && es[0].category == category then es[0].amount else 0)
         + CategoryTotal(es[1..], kind, category)
  }

  /** The sum of the amounts of the entries of `kind`, computed directly
      from the entries. */
  function KindTotal(es: seq<RawEntry>, kind: string): int {
    if |es| == 0 then 0
    else (if es[0].kind == kind then es[0].amount else 0) + KindTotal(es[1..], kind)
  }

  /** Some entry of `kind` is booked against `category`. */
  predicate HasEntry(es: seq<RawEntry>, kind: string, category: string) {
    exists i :: 0 <= i < |es| && es[i].kind == kind && es[i].category == category
  }

  lemma {:induction false} KindTotalIsSum(es: seq<RawEntry>, kind: string)
    ensures Sum(KindCharges(es, kind)) == KindTotal(es, kind)
    decreases |es|
  {
    if |es| > 0 {
      KindTotalIsSum(es[1..], kind);
      var head := if es[0].kind == kind then [Charge(es[0].category, es[0].amount)] else [];
      SumConcat(head, KindCharges(es[1..], kind));
      if es[0].kind == kind {
        assert head[1..] == [];
      }
    }
  }

  lemma {:induction false} KindCategory(es: seq<RawEntry>, kind: string, category: string)
    ensures category in Categories(KindCharges(es, kind)) <==> HasEntry(es, kind, category)
    decreases |es|
  {
    if |es| > 0 {
      KindCategory(es[1..], kind, category);
      var rest := KindCharges(es[1..], kind);
      if HasEntry(es[1..], kind, category) {
        var i :| 0 <= i < |es[1..]| && es[1..][i].kind == kind && es[1..][i].category == category;
        assert es[i + 1] == es[1..][i];
      }
      if HasEntry(es, kind, category) {
        var i :| 0 <= i < |es| && es[i].kind == kind && es[i].category == category;
        if i > 0 {
          assert es[1..][i - 1] == es[i];
        }
      }
      if es[0].kind == kind {
        var c := Charge(es[0].category, es[0].amount);
        assert KindCharges(es, kind) == [c] + rest;
        assert Categories([c] + rest) == [c.category] + Categories(rest);
      } else {
        assert KindCharges(es, kind) == rest;
      }
    } else {
      assert !HasEntry(es, kind, category);
    }
  }

  /** The totals, the savings, the per-category expense totals in
      first-met order and the number of entries (of any type). */
  function BuildSummary(es: seq<RawEntry>): (s: Summary)
    ensures s.totalIncome == KindTotal(es, "income") && s.totalExpense == KindTotal(es, "expense")
    ensures s.savings == s.totalIncome - s.totalExpense
    ensures s.transactionCount == |es|
    ensures Total(s.expensesBreakdown) == s.totalExpense
    ensures NoDuplicates(Names(s.expensesBreakdown))
  {
    KindTotalIsSum(es, "income");
    KindTotalIsSum(es, "expense");
    var income := Sum(KindCharges(es, "income"));
    var expense := Sum(KindCharges(es, "expense"));
    Summary(income, expense, income - expense, Breakdown(KindCharges(es, "expense")), |es|)
  }

  /** The breakdown's keys are exactly the categories of the expense entries. */
  lemma SummaryNames(es: seq<RawEntry>)
    ensures forall n :: n in Names(BuildSummary(es).expensesBreakdown) <==> HasEntry(es, "expense", n)
  {
    forall n ensures n in Names(BuildSummary(es).expensesBreakdown) <==> HasEntry(es, "expense", n) {
      KindCategory(es, "expense", n);
    }
  }

  lemma {:induction false} KindChargesConcat(a: seq<RawEntry>, b: seq<RawEntry>, kind: string)
    ensures KindCharges(a + b, kind) == KindCharges(a, kind) + KindCharges(b, kind)
    decreases |a|
  {
    if |a| == 0 {
      assert a + b == b;
    } else {
      var head := if a[0].kind == kind then [Charge(a[0].category, a[0].amount)] else [];
      assert (a + b)[0] == a[0];
      assert (a + b)[1..] == a[1..] + b;
      KindChargesConcat(a[1..], b, kind);
      assert KindCharges(a + b, kind) == head + (KindCharges(a[1..], kind) + KindCharges(b, kind));
    }
  }

  lemma {:induction false} CategoryTotalIsSumFor(es: seq<RawEntry>, kind: string, category: string)
    ensures SumFor(KindCharges(es, kind), category) == CategoryTotal(es, kind, category)
    decreases |es|
  {
    if |es| > 0 {
      CategoryTotalIsSumFor(es[1..], kind, category);
      var head := if es[0].kind == kind then [Charge(es[0].category, es[0].amount)] else [];
      SumForConcat(head, KindCharges(es[1..], kind), category);
      if es[0].kind == kind {
        assert head[1..] == [];
      }
    }
  }

  /** Each breakdown entry holds the total of the expense entries of its
      category, and a category with no expense entry totals 0. */
  lemma SummaryBreakdownValue(es: seq<RawEntry>, category: string)
    ensures ValueOf(BuildSummary(es).expensesBreakdown, category) == CategoryTotal(es, "expense", category)
  {
    BreakdownValue(KindCharges(es, "expense"), category);
    CategoryTotalIsSumFor(es, "expense", category);
  }

  /** An empty array is accepted and summarises to zeros. */
  lemma SummaryOfNothing()
    ensures BuildSummary([]) == Summary(0, 0, 0, [], 0)
  {
  }

  /** An entry whose type is neither 'income' nor 'expense' is counted
      but contributes to no total. */
  lemma SummaryOtherKind(es: seq<RawEntry>, e: RawEntry)
    requires e.kind != "income" && e.kind != "expense"
    ensures BuildSummary(es + [e]) == BuildSummary(es).(transactionCount := |es| + 1)
  {
    KindChargesConcat(es, [e], "income");
    KindChargesConcat(es, [e], "expense");
    assert KindCharges([e], "income") == [];
    assert KindCharges([e], "expense") == [];
    assert KindCharges(es, "income") + [] == KindCharges(es, "income");
    assert KindCharges(es, "expense") + [] == KindCharges(es, "expense");
  }

  // ---------------------------------------------------------------------
  // The client's transactions, as posted.

  function ToRaw(t: Transaction): RawEntry {
    RawEntry(KindName(t.kind), t.amount, t.category)
  }

  function ToRaws(txs: seq<Transaction>): (r: seq<RawEntry>)
    ensures |r| == |txs|
    ensures forall i :: 0 <= i < |txs| ==> r[i] == ToRaw(txs[i])
  {
    if |txs| == 0 then [] else [ToRaw(txs[0])] + ToRaws(txs[1..])
  }

  lemma {:induction false} KindChargesOfLedger(txs: seq<Transaction>, kind: TxType)
    ensures KindCharges(ToRaws(txs), KindName(kind)) == Charges(OfKind(txs, kind))
    decreases |txs|
  {
    if |txs| > 0 {
      KindChargesOfLedger(txs[1..], kind);
      assert ToRaws(txs)[1..] == ToRaws(txs[1..]);
      var rest := OfKind(txs[1..], kind);
      if txs[0].kind == kind {
        assert OfKind(txs, kind) == [txs[0]] + rest;
        assert ([txs[0]] + rest)[1..] == rest;
      } else {
        assert OfKind(txs, kind) == rest;
      }
    }
  }

  /** The summary the server builds from the posted ledger agrees with
      the client's own figures: the same totals, the same breakdown the
      pie chart is drawn from, and the ledger's length. */
  lemma SummaryOfLedger(txs: seq<Transaction>)
    ensures BuildSummary(ToRaws(txs)).totalIncome == TotalOf(txs, Income)
    ensures BuildSummary(ToRaws(txs)).totalExpense == TotalOf(txs, Expense)
    ensures BuildSummary(ToRaws(txs)).expensesBreakdown == Breakdown(ExpenseCharges(txs))
    ensures BuildSummary(ToRaws(txs)).transactionCount == |txs|
  {
    var es := ToRaws(txs);
    KindChargesOfLedger(txs, Income);
    KindChargesOfLedger(txs, Expense);
    assert KindCharges(es, "income") == Charges(OfKind(txs, Income));
    assert KindCharges(es, "expense") == ExpenseCharges(txs);
    SummaryFields(es);
  }

  /** The fields of the summary, read off the entries of each type. */
  lemma SummaryFields(es: seq<RawEntry>)
    ensures BuildSummary(es).totalIncome == Sum(KindCharges(es, "income"))
    ensures BuildSummary(es).totalExpense == Sum(KindCharges(es, "expense"))
    ensures BuildSummary(es).expensesBreakdown == Breakdown(KindCharges(es, "expense"))
  {
  }

  // ---------------------------------------------------------------------
  // The request handlers.

  /** The `transactions` property of the parsed body. An element of the
      array is `None` when it is `null` or `undefined`: reading its `type`
      throws. An element of another primitive type reads as an entry
      whose type is neither 'income' nor 'expense'. */
  datatype TransactionsField =
    | Missing              // absent, null or another falsy value
    | NotArray             // present and truthy, but not an array
    | Array(elements: seq<Option<RawEntry>>)

  /** The entries of the array when none of its elements is null or
      undefined. */
  function Present(xs: seq<Option<RawEntry>>): (r: Option<seq<RawEntry>>)
    ensures r.Some? <==> forall i :: 0 <= i < |xs| ==> xs[i].Some?
    ensures r.Some? ==> |r.value| == |xs| && forall i :: 0 <= i < |xs| ==> r.value[i] == xs[i].value
  {
    if |xs| == 0 then Some([])
    else match (xs[0], Present(xs[1..]))
      case (Some(e), Some(rest)) => Some([e] + rest)
      case _ => None
  }

  /** The array a client posts, with every entry present. */
  function Posted(es: seq<RawEntry>): (xs: seq<Option<RawEntry>>)
    ensures |xs| == |es|
  {
    seq(|es|, i requires 0 <= i < |es| => Some(es[i]))
  }

  /** An array without missing elements reads back as its entries. */
  lemma PresentPosted(es: seq<RawEntry>)
    ensures Present(Posted(es)) == Some(es)
  {
    var r := Present(Posted(es));
    assert forall i :: 0 <= i < |es| ==> Posted(es)[i].Some?;
    assert r.value == es;
  }

  /** The body passes every check before the model call: an array whose
      elements can all be read. */
  predicate Summarisable(body: Body) {
    body.Object? && body.transactions.Array? && Present(body.transactions.elements).Some?
  }

  /** The entries of a summarisable body. */
  function Entries(body: Body): seq<RawEntry>
    requires Summarisable(body)
  {
    Present(body.transactions.elements).value
  }

  /** `req.body`: absent (destructuring it throws) or a parsed object. */
  datatype Body = NoBody | Object(transactions: TransactionsField)

  /** What the model call produced: an exception, or a reply whose
      `text` may be undefined. */
  datatype Upstream = Threw | Replied(text: Option<string>)

  /** A response body. `AdviceJson` holds the JSON text `res.json` sends
      for the parsed reply, not the model's text itself. */
  datatype Payload = NoContent | ErrorJson(error: string) | AdviceJson(json: string)

  datatype Response = Response(status: int, payload: Payload)

  /** The response, and the summary the model was asked about, if any. */
  datatype Exchange = Exchange(response: Response, asked: Option<Summary>)

  const ServerKeyMessage := "Server configuration error: API Key missing"
  const ServerlessKeyMessage := "Server configuration error"
  const InvalidInputMessage := "Invalid input: transactions array required"
  const MethodMessage := "Method Not Allowed"
  const FailureMessage := "Failed to generate advice"

  /** `!apiKey`: unset or empty. */
  predicate KeyMissing(apiKey: Option<string>) {
    apiKey.None? || apiKey.value == ""
  }

  /** Relaying the model's reply: `ask` is the model call on the prompt
      built from the summary; `reserialise` is `JSON.parse` followed by the
      serialisation `res.json` performs, None when `JSON.parse` throws. */
  function Relay(s: Summary, ask: Summary -> Upstream, reserialise: string -> Option<string>): (r: Response)
    ensures r.status == 200 || r == Response(500, ErrorJson(FailureMessage))
    ensures r.status == 200 <==>
      ask(s).Replied? && ask(s).text.Some? && ask(s).text.value != "" && reserialise(ask(s).text.value).Some?
    ensures r.status == 200 ==> r.payload == AdviceJson(reserialise(ask(s).text.value).value)
  {
    match ask(s)
    case Threw => Response(500, ErrorJson(FailureMessage))
    case Replied(text) =>
      if text.None? || text.value == "" then Response(500, ErrorJson(FailureMessage))
      else match reserialise(text.value)
        case None => Response(500, ErrorJson(FailureMessage))
        case Some(json) => Response(200, AdviceJson(json))
  }

  /** The checks and the model call shared by both deployments, after
      the method check; only the missing-key message differs. */
  function Handle(keyMessage: string, apiKey: Option<string>, body: Body,
                  ask: Summary -> Upstream, reserialise: string -> Option<string>): (x: Exchange)
    ensures KeyMissing(apiKey) ==> x == Exchange(Response(500, ErrorJson(keyMessage)), None)
    ensures !KeyMissing(apiKey) && body.NoBody? ==> x == Exchange(Response(500, ErrorJson(FailureMessage)), None)
    ensures !KeyMissing(apiKey) && body.Object? && !body.transactions.Array? ==>
      x == Exchange(Response(400, ErrorJson(InvalidInputMessage)), None)
    ensures !KeyMissing(apiKey) && body.Object? && body.transactions.Array? && !Summarisable(body) ==>
      x == Exchange(Response(500, ErrorJson(FailureMessage)), None)
    ensures x.asked.Some? <==> !KeyMissing(apiKey) && Summarisable(body)
    ensures x.asked.Some? ==>
      x.asked.value == BuildSummary(Entries(body)) && x.response == Relay(x.asked.value, ask, reserialise)
  {
    if KeyMissing(apiKey) then Exchange(Response(500, ErrorJson(keyMessage)), None)
    else match body
      case NoBody => Exchange(Response(500, ErrorJson(FailureMessage)), None)
      case Object(field) =>
        if !field.Array? then Exchange(Response(400, ErrorJson(InvalidInputMessage)), None)
        else match Present(field.elements)
          case None => Exchange(Response(500, ErrorJson(FailureMessage)), None)
          case Some(es) =>
            var s := BuildSummary(es);
            Exchange(Relay(s, ask, reserialise), Some(s))
  }

  /** The Express route (POST only; other methods never reach it). */
  function ServerAnalyze(apiKey: Option<string>, body: Body,
                         ask: Summary -> Upstream, reserialise: string -> Option<string>): (x: Exchange)
    ensures KeyMissing(apiKey) ==> x.response == Response(500, ErrorJson(ServerKeyMessage))
    ensures x.asked.Some? <==> !KeyMissing(apiKey) && Summarisable(body)
  {
    Handle(ServerKeyMessage, apiKey, body, ask, reserialise)
  }

  /** The serverless handler: OPTIONS is answered empty, any other method
      but POST is refused, then the same checks as the Express route. */
  function ServerlessAnalyze(httpMethod: string, apiKey: Option<string>, body: Body,
                         ask: Summary -> Upstream, reserialise: string -> Option<string>): (x: Exchange)
    ensures httpMethod == "OPTIONS" ==> x == Exchange(Response(200, NoContent), None)
    ensures httpMethod != "OPTIONS" && httpMethod != "POST" ==>
      x == Exchange(Response(405, ErrorJson(MethodMessage)), None)
    ensures x.asked.Some? ==> httpMethod == "POST"
  {
    if httpMethod == "OPTIONS" then Exchange(Response(200, NoContent), None)
    else if httpMethod != "POST" then Exchange(Response(405, ErrorJson(MethodMessage)), None)
    else Handle(ServerlessKeyMessage, apiKey, body, ask, reserialise)
  }

  /** For a POST the two deployments answer alike, except for the wording
      of the missing-key error. */
  lemma DeploymentsAgree(apiKey: Option<string>, body: Body, ask: Summary -> Upstream, reserialise: string -> Option<string>)
    ensures var s := ServerAnalyze(apiKey, body, ask, reserialise);
      var v := ServerlessAnalyze("POST", apiKey, body, ask, reserialise);
      s.asked == v.asked && s.response.status == v.response.status &&
      (!KeyMissing(apiKey) ==> s == v) &&
      (KeyMissing(apiKey) ==>
         s.response.payload == ErrorJson(ServerKeyMessage) && v.response.payload == ErrorJson(ServerlessKeyMessage))
  {
  }

  /** The key is checked before the body, and the body before the model
      is called: with the key missing nothing else matters. */
  lemma KeyCheckedFirst(apiKey: Option<string>, b1: Body, b2: Body,
                        ask1: Summary -> Upstream, ask2: Summary -> Upstream,
                        reserialise1: string -> Option<string>, reserialise2: string -> Option<string>)
    requires KeyMissing(apiKey)
    ensures ServerAnalyze(apiKey, b1, ask1, reserialise1) == ServerAnalyze(apiKey, b2, ask2, reserialise2)
  {
  }

  /** A 200 from the handler carries the re-serialised parse of a
      non-empty, parseable reply the model gave for the summary of exactly
      the posted entries. */
  lemma AdviceComesFromModel(apiKey: Option<string>, body: Body, ask: Summary -> Upstream, reserialise: string -> Option<string>)
    requires ServerAnalyze(apiKey, body, ask, reserialise).response.status == 200
    ensures Summarisable(body)
    ensures var s := BuildSummary(Entries(body));
      ask(s).Replied? && ask(s).text.Some? && ask(s).text.value != "" && reserialise(ask(s).text.value).Some?
      && ServerAnalyze(apiKey, body, ask, reserialise).response.payload == AdviceJson(reserialise(ask(s).text.value).value)
  {
  }

  /** A null or undefined element fails the request after the checks
      and before the model is asked anything. */
  lemma NullElementFails(apiKey: Option<string>, body: Body, i: nat,
                         ask: Summary -> Upstream, reserialise: string -> Option<string>)
    requires !KeyMissing(apiKey) && body.Object? && body.transactions.Array?
    requires i < |body.transactions.elements| && body.transactions.elements[i].None?
    ensures ServerAnalyze(apiKey, body, ask, reserialise) == Exchange(Response(500, ErrorJson(FailureMessage)), None)
  {
  }

  /** A ledger posted by the client is summarised in full. */
  lemma LedgerIsSummarised(apiKey: Option<string>, txs: seq<Transaction>,
                           ask: Summary -> Upstream, reserialise: string -> Option<string>)
    requires !KeyMissing(apiKey)
    ensures var x := ServerAnalyze(apiKey, Object(Array(Posted(ToRaws(txs)))), ask, reserialise);
      x.asked == Some(BuildSummary(ToRaws(txs)))
  {
    PresentPosted(ToRaws(txs));
  }

  /** Every response has one of the statuses 200, 400, 405 or 500. */
  lemma ServerlessStatuses(httpMethod: string, apiKey: Option<string>, body: Body,
                       ask: Summary -> Upstream, reserialise: string -> Option<string>)
    ensures ServerlessAnalyze(httpMethod, apiKey, body, ask, reserialise).response.status in {200, 400, 405, 500}
  {
  }

  lemma FoodBreakdown()
    ensures Breakdown([Charge("Food", 50), Charge("Food", 30), Charge("Transport", 20)])
         == [Entry("Food", 80), Entry("Transport", 20)]
  {
    var cs := [Charge("Food", 50), Charge("Food", 30), Charge("Transport", 20)];
    assert cs[..1][..0] == [];
    assert Breakdown(cs[..1]) == [Entry("Food", 50)];
    assert cs[..2][..1] == cs[..1];
    assert Breakdown(cs[..2]) == [Entry("Food", 80)];
    assert cs[..2] == [Charge("Food", 50), Charge("Food", 30)];
  }

  /** A worked case: expenses Food 50, Food 30 and Transport 20 give the
      breakdown Food 80 then Transport 20. */
  lemma FoodTransportScenario(es: seq<RawEntry>)
    requires es == [RawEntry("expense", 50, "Food"), RawEntry("expense", 30, "Food"),
                    RawEntry("expense", 20, "Transport")]
    ensures BuildSummary(es) == Summary(0, 100, -100, [Entry("Food", 80), Entry("Transport", 20)], 3)
  {
    var e2 := es[1..][1..];
    assert e2 == [RawEntry("expense", 20, "Transport")] && e2[1..] == [];
    assert KindCharges(e2, "income") == [];
    assert KindCharges(e2, "expense") == [Charge("Transport", 20)];
    assert KindCharges(es[1..], "expense") == [Charge("Food", 30), Charge("Transport", 20)];
    assert KindCharges(es, "income") == [];
    assert KindCharges(es, "expense") == [Charge("Food", 50), Charge("Food", 30), Charge("Transport", 20)];
    FoodBreakdown();
  }
}
