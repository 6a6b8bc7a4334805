# megraja ledger core, in Dafny

megraja is a personal-finance tracker. The user records income and expense
transactions against user-managed category lists. The browser app shows
totals, a savings rate, a date-sorted list, an expense pie chart and an
income/expense bar chart. It exports the ledger as CSV and asks a
language-model endpoint for advice on a summary of the ledger.

This project models that core as pure functions over immutable datatypes
and proves what the code promises about them:

- `types.dfy` (`Types`): the records and the default category lists.
- `text.dfy` (`Text`): JavaScript's `String.prototype.trim`.
- `seqs.dfy` (`Seqs`): `filter`, duplicate-freedom and the subsequence relation.
- `ledger.dfy` (`Ledger`): the store of `App.tsx`:
  - loading the three slots with their defaults;
  - adding and deleting transactions;
  - adding and removing registry names;
  - runs of adds and deletes.
- `category_manager.dfy` (`CategoryManager`): the category gate. It trims the typed name, ignores empty input and refuses duplicates.
- `transaction_form.dfy` (`TransactionForm`): the category auto-select effect and the submit handler.
- `aggregates.dfy` (`Aggregates`): totals by type and the per-category expense breakdown. The breakdown is an association list in first-met key order, the model of the JavaScript object `reduce` builds.
- `stable_sort.dfy` (`StableSort`): one stable descending sort, and its characterisation.
  - It models `Array.prototype.sort`, which is stable, with a `b - a` comparator.
  - The chart's pie data and the transaction list both use it.
- `charts.dfy`, `transaction_list.dfy`, `summary_cards.dfy`: the three views.
- `csv.dfy` (`Csv`) and `data_export.dfy` (`DataExport`):
  - The writer of the export.
  - A quote-aware reader following section 2 of RFC 4180 (rules 5–7), with LF as the record separator. It is the reader the round-trip lemmas use.
  - The proof that the export reads back as the ledger's values.
- `analyze.dfy` (`Analyze`): the `/api/analyze` endpoint in both deployments, the Express route of `server.js` and the serverless handler of `api/analyze.ts`.
- `advisor.dfy` (`Advisor`): the advisor panel's state machine and what it renders.

Modelling choices:

- Amounts are integer cents.
- Dates are `YYYY-MM-DD` strings. They are compared through the number their digits spell (YYYYMMDD), which orders well-formed dates by year, then month, then day (`TransactionList.DateKeyChronological`). For dates naming real calendar days this is the order of `new Date(d).getTime()`.
- Effects outside the code are parameters:
  - the fresh id from `crypto.randomUUID()`;
  - `Number(text)` in the form;
  - the string form of an amount in the export;
  - the environment's API key;
  - the parsed request body;
  - the language-model call;
  - `JSON.parse` of the model's text followed by the re-serialisation `res.json` performs, absent when the parse throws;
  - how the advisor's request ends.

One behaviour of the advisor panel is worth knowing. The error line is part of the prompt panel, and the prompt shows only when there is no advice. So a failed refresh sets the failure message, but the message is never displayed while earlier advice is on screen (`Advisor.FailedRefreshHidesError`).

## Model

| member | source | states |
|---|---|---|
| Types.KindName | types.ts:1 | a transaction type is spelt 'income' or 'expense', and 'income' exactly for income |
| Types.DefaultsDistinct | types.ts:24-43 | the default lists hold ten expense and five income names, none repeated within a list |
| Types.DefaultsAreClean | types.ts:24-43 | every default name is non-empty and unchanged by trim, so the gate's duplicate check compares like with like |
| Types.DefaultsOverlap | types.ts:24-43 | the two default lists share 'Other'; they are independent lists, not a partition |
| Text.Trim | components/CategoryManager.tsx:22 | the trimmed name is a contiguous slice of the input with no whitespace at either end, and everything cut off is whitespace |
| Text.TrimOfClean | components/CategoryManager.tsx:22 | trimming a name without surrounding whitespace returns it unchanged |
| Text.TrimIdempotent | components/CategoryManager.tsx:22 | trimming twice is trimming once |
| Text.TrimEmptyIff | components/CategoryManager.tsx:22-23 | the gate's "nothing typed" case happens exactly when the input is all whitespace |
| Seqs.Filter | App.tsx:50-52 | the result is a subsequence of the input (order kept) holding only kept elements and every kept element of the input; it is the identity when all are kept |
| Seqs.FilterMultiset | App.tsx:50-52 | each kept value occurs as often as in the input, and no other value occurs |
| Seqs.FilterNoDuplicates | App.tsx:62-68 | filtering a duplicate-free list keeps it duplicate-free |
| Ledger.Load | App.tsx:13-26 | each slot takes its saved value, or the empty ledger and the default lists when nothing was saved |
| Ledger.FreshProfile | App.tsx:13-26 | a first start has no transactions and duplicate-free, gate-clean registries |
| Ledger.AddTransaction | App.tsx:42-48 | the draft is appended under the fresh id; earlier transactions and both registries are unchanged |
| Ledger.AddKeepsIdsUnique | App.tsx:42-48 | with a fresh id, ids stay unique |
| Ledger.AddTransactionTotals | App.tsx:70-76 | adding moves the total of the draft's own type by its amount and leaves the other total alone |
| Ledger.DeleteTransaction | App.tsx:50-52 | the result keeps, in order, every copy of every transaction with another id and nothing with the deleted id; an unknown id changes nothing |
| Ledger.DeleteKeepsIdsUnique | App.tsx:50-52 | deleting keeps ids unique |
| Ledger.DeleteCount | App.tsx:50-52 | with unique ids a delete removes exactly one transaction when the id is present and none otherwise |
| Ledger.AddCategory | App.tsx:54-60 | the name is appended to the selected registry only; the other registry and the transactions are unchanged |
| Ledger.RemoveCategory | App.tsx:62-68 | every occurrence of the name leaves the selected registry, every copy of each other name stays, in order, and transactions keep their categories |
| Ledger.RemoveCategoryKeepsDistinct | App.tsx:62-68 | removal keeps a duplicate-free registry duplicate-free |
| Ledger.RemoveCategoryCount | App.tsx:62-68 | in a duplicate-free registry, removing a present name shortens it by exactly one |
| Ledger.RunInvariant | App.tsx:42-52 | over any run of adds with fresh ids and deletes, ids stay unique and the length moves by the adds minus the deletes that found their id |
| CategoryManager.HandleAdd | components/CategoryManager.tsx:21-35 | blank input does nothing; a trimmed name already in the selected registry only sets the duplicate error; otherwise the trimmed name is appended, the input cleared and the error reset; the other registry is never touched |
| CategoryManager.ErrorTimeout | components/CategoryManager.tsx:28 | the timer clears the error and leaves both inputs alone |
| CategoryManager.HandleAddKeepsWellFormed | components/CategoryManager.tsx:21-35 | the gate keeps both registries duplicate-free, with only non-empty trimmed names |
| CategoryManager.AddSameNameTwice | components/CategoryManager.tsx:21-35 | typing the same new name twice adds it once and refuses it the second time with the duplicate message |
| CategoryManager.HandleAddIgnoresOtherRegistry | components/CategoryManager.tsx:25-26 | the gate's answer depends only on the registry of the selected type |
| CategoryManager.DuplicateMessageDetermines | components/CategoryManager.tsx:27 | the duplicate message identifies the refusal: equal messages name the same category and the same type |
| CategoryManager.RemoveClicked | components/CategoryManager.tsx:91-95 | a remove button takes its stored name out of its own registry, keeps every copy of the other names in order and changes neither the other registry nor the transactions |
| CategoryManager.RemoveClickedCount | components/CategoryManager.tsx:91-95 | in a duplicate-free registry a click shortens it by exactly one |
| TransactionForm.Initial | components/TransactionForm.tsx:16-20 | the form starts as an expense with empty fields and today's date |
| TransactionForm.AutoSelect | components/TransactionForm.tsx:23-34 | afterwards the category is one offered for the current type (or '' when none is offered); a non-empty offered category is kept, an empty or unoffered one becomes the first offered category; no other field changes |
| TransactionForm.AutoSelectIdempotent | components/TransactionForm.tsx:23-34 | running the effect again changes nothing |
| TransactionForm.ChangeType | components/TransactionForm.tsx:23-58 | switching type keeps amount, date and description; the category is kept when the new type offers it and otherwise becomes the new type's first category ('' when it offers none) |
| TransactionForm.HandleSubmit | components/TransactionForm.tsx:36-53 | a submit is refused exactly for an empty or non-numeric amount or an empty category; otherwise the draft carries the form's values and only amount and description are reset |
| TransactionForm.SubmitAcceptsAnyNumber | components/TransactionForm.tsx:38-43 | any number is accepted as the amount, zero and negative ones included |
| TransactionForm.SubmittedCategoryIsRegistered | components/TransactionForm.tsx:23-47 | once the effect has run against the ledger's registries, a submitted transaction lands in the ledger with a category its type's registry lists |
| Aggregates.OfKind | App.tsx:70-76 | the filter is a subsequence of the ledger (order kept) whose members are exactly the ledger's transactions of the given type |
| Aggregates.OfKindCount | App.tsx:70-76 | each transaction of the given type occurs as often as in the ledger, and no other transaction occurs |
| Aggregates.SumConcat | App.tsx:70-76 | the reduce sum of a concatenation is the sum of the two sums |
| Aggregates.TotalOfConcat | App.tsx:70-76 | the total of a type is additive over concatenated ledgers |
| Aggregates.TotalOfNone | App.tsx:70-76 | with no transaction of a type its total is 0 |
| Aggregates.TotalOfSingle | App.tsx:70-76 | a one-transaction ledger totals its amount under its own type and 0 under the other |
| Aggregates.Credit | components/Charts.tsx:15-18 | one reduce step adds the amount to the total and creates the key only when it is new |
| Aggregates.CreditValue | components/Charts.tsx:16 | one reduce step moves the value of the charged category by the amount and no other value |
| Aggregates.Breakdown | components/Charts.tsx:15-18 | the keys are distinct, exactly the categories charged, and the values sum to the total charged |
| Aggregates.BreakdownValue | components/Charts.tsx:15-18 | each value is the total of the charges booked to its category, and an absent category reads as 0 |
| Aggregates.BreakdownOrder | components/Charts.tsx:15-21 | the keys appear in the order their categories were first met |
| Aggregates.BreakdownPositive | components/Charts.tsx:15-18 | with positive amounts every value is positive |
| Aggregates.BreakdownSumsToExpenses | components/Charts.tsx:12-26 | the breakdown of the expenses sums to the expense total |
| StableSort.SortDesc | components/Charts.tsx:22 | the result has the input's length and non-increasing keys |
| StableSort.SortPerm | components/Charts.tsx:22 | the sort is a permutation of its input |
| StableSort.SortIsStable | components/Charts.tsx:22 | elements with equal keys keep their input order |
| StableSort.SortIdempotent | components/TransactionList.tsx:12-14 | an already sorted input is returned unchanged |
| StableSort.SortCharacterized | components/Charts.tsx:22 | a sequence is the sort's result exactly when it is sorted and has the input's key classes in input order |
| Charts.PieData | components/Charts.tsx:20-22 | the slices are the breakdown's entries, by non-increasing value |
| Charts.PieDataStable | components/Charts.tsx:20-22 | slices of equal value keep the first-met order of their categories |
| Charts.PieSlices | components/Charts.tsx:12-22 | every slice is an expense category with the total spent on it, and every expense category has a slice |
| Charts.PieSumsToExpenses | components/Charts.tsx:20-31 | the slices add up to the expense bar |
| Charts.BarData | components/Charts.tsx:25-31 | two bars, Income then Expenses, carrying the two totals |
| Charts.ChartsView | components/Charts.tsx:33-39 | the empty state shows exactly for an empty ledger; an income-only ledger still gets the charts |
| TransactionList.DateKeyParts | components/TransactionList.tsx:12-14 | the sort key of a well-formed date is year·10000 + month·100 + day |
| TransactionList.DateKeyChronological | components/TransactionList.tsx:12-14 | on well-formed dates the key order is calendar order |
| TransactionList.SortedTransactions | components/TransactionList.tsx:12-14 | the list is a permutation of the ledger, newest date first |
| TransactionList.SortedTransactionsStable | components/TransactionList.tsx:12-14 | transactions of the same date keep their ledger order |
| TransactionList.SortedTransactionsIdempotent | components/TransactionList.tsx:12-14 | sorting the sorted list changes nothing |
| TransactionList.View | components/TransactionList.tsx:16-34 | the empty state shows exactly for an empty ledger; otherwise one row per transaction in sorted order |
| SummaryCards.Balance | components/SummaryCards.tsx:10 | balance plus expenses is income |
| SummaryCards.SavingsRate | components/SummaryCards.tsx:11 | the literal '0' exactly when income is not positive; otherwise the rate times income is 100 times the balance |
| SummaryCards.RateLandmarks | components/SummaryCards.tsx:11 | with positive income the rate is 100 exactly when nothing was spent, and negative exactly when spending exceeds income |
| SummaryCards.BalanceTone | components/SummaryCards.tsx:52-58 | the balance is blue exactly when income is at least expenses |
| SummaryCards.ScenarioSixtyPercent | components/SummaryCards.tsx:10-11 | income 1000 and expenses 400 give balance 600 and a 60 % rate |
| Csv.ReadQuotedEscaped | components/DataExport.tsx:20-21 | the quote-doubled text followed by the closing quote reads back as the original text |
| Csv.EscapeQuotes | components/DataExport.tsx:20-21 | escaping never shortens a text and leaves text without quotes unchanged |
| Csv.FieldRoundTrip | components/DataExport.tsx:20-21 | a written field followed by a comma, a line feed or the end reads back as its value |
| Csv.RecordRoundTrip | components/DataExport.tsx:22-28 | a written record reads back as its fields' values |
| Csv.DocumentRoundTrip | components/DataExport.tsx:16-30 | a written document reads back as its records' values |
| DataExport.HeaderLine | components/DataExport.tsx:15-17 | the first line is exactly `Date,Type,Category,Amount,Description` |
| DataExport.DescriptionField | components/DataExport.tsx:20 | an empty description is written as an empty field, any other one quoted; both read back as the description |
| DataExport.RowFields | components/DataExport.tsx:18-29 | five fields: date, type, quoted category, amount, description |
| DataExport.ExportCsv | components/DataExport.tsx:11-13 | an empty ledger exports nothing |
| DataExport.ExportRoundTrip | components/DataExport.tsx:11-30 | reading the export back gives the header and then, per transaction in ledger order, exactly its five values |
| DataExport.QuotedCategoryExample | components/DataExport.tsx:19-21 | a category with quotes and a comma, with an empty description, reads back as five fields with that exact category and an empty description |
| Analyze.BuildSummary | server.js:39-60 | the two totals are the sums of the amounts of the posted entries of each type, savings is their difference, the count is the number of entries, and the breakdown has distinct keys summing to the expense total |
| Analyze.KindTotalIsSum | server.js:39-45 | summing the filtered charges of a type is summing the amounts of the entries of that type |
| Analyze.SummaryNames | server.js:47-52 | the breakdown's keys are exactly the categories of the posted expense entries |
| Analyze.SummaryBreakdownValue | server.js:47-52 | each breakdown value is the total of the posted expense entries of that category |
| Analyze.SummaryOfNothing | server.js:34-60 | an empty array is accepted and summarises to zeros |
| Analyze.SummaryOtherKind | server.js:39-59 | an entry of any other type is counted but adds to no total |
| Analyze.SummaryOfLedger | server.js:39-60 | the summary of a posted ledger has the client's own totals, the pie chart's breakdown and the ledger's length |
| Analyze.KindChargesOfLedger | server.js:39-48 | on a posted ledger, the server's filter by type name picks the charges of the client's filter by type, in order |
| Analyze.Present | server.js:39-41 | the posted elements can be read exactly when none is null or undefined, and then they read as themselves, in order |
| Analyze.PresentPosted | server.js:32-41 | an array of entries posted by the client reads back as those entries |
| Analyze.Relay | server.js:86-96 | the reply is 200 exactly when the model returned non-empty parseable text, and then carries its parsed value sent back as JSON; otherwise 500 with the generic failure |
| Analyze.Handle | api/analyze.ts:22-94 | a missing key gives 500, a missing body 500, a missing or non-array field 400, and an array with a null or undefined element 500 with no model call; exactly an array of readable entries reaches the model, with their summary |
| Analyze.ServerAnalyze | server.js:25-98 | the Express route checks the key first and asks the model exactly for an array of readable entries |
| Analyze.ServerlessAnalyze | api/analyze.ts:13-20 | OPTIONS gets an empty 200, any other method but POST a 405, and only a POST reaches the model |
| Analyze.DeploymentsAgree | api/analyze.ts:22-94 | for a POST both deployments give the same status and model call, differing only in the missing-key message |
| Analyze.KeyCheckedFirst | server.js:27-30 | with the key missing the body and the model make no difference |
| Analyze.AdviceComesFromModel | server.js:86-92 | a 200 carries the parsed value, sent back as JSON, of the model's non-empty, parseable text for the summary of exactly the posted entries |
| Analyze.NullElementFails | server.js:39-96 | a null or undefined element gives the generic 500 and no model call |
| Analyze.LedgerIsSummarised | server.js:32-60 | a ledger posted by the client is summarised in full |
| Analyze.ServerlessStatuses | api/analyze.ts:13-94 | every response status is 200, 400, 405 or 500 |
| Analyze.FoodTransportScenario | api/analyze.ts:36-57 | expenses Food 50, Food 30, Transport 20 summarise to expense 100, savings −100 and the breakdown Food 80 then Transport 20 |
| Advisor.Begin | components/Advisor.tsx:15-22 | a request is made exactly when the ledger is non-empty; otherwise only the no-data error is set, else loading starts and the error clears |
| Advisor.Settle | components/Advisor.tsx:23-30 | loading ends; success replaces the advice, failure sets the failure message and keeps the advice |
| Advisor.Click | components/Advisor.tsx:15-31 | a click on a non-empty ledger ends not loading, with the new advice and no error, or the old advice and the failure message |
| Advisor.Render | components/Advisor.tsx:46-115 | the prompt shows exactly with no advice and no request in flight, the error only inside the prompt, the spinner exactly while loading |
| Advisor.EmptyLedgerClick | components/Advisor.tsx:16-19 | a click on an empty ledger makes no request and changes only the error |
| Advisor.LoadingView | components/Advisor.tsx:21-79 | while a request is in flight the spinner shows, the prompt does not, and earlier advice stays beside it |
| Advisor.FailedRefreshHidesError | components/Advisor.tsx:26-69 | after a failed refresh the earlier advice stays on screen and the failure message is not displayed |
| Advisor.FailedFirstRequestShowsError | components/Advisor.tsx:26-69 | a failed first request shows the prompt again with the failure message |
| Advisor.RunSettles | components/Advisor.tsx:15-31 | between clicks nothing is loading, and advice once obtained is never lost while the panel stays mounted |
| Advisor.RunWithoutSuccessKeepsAdvice | components/Advisor.tsx:23-30 | clicks that make no successful request leave the advice as it was |
| Advisor.LatestSuccessShown | components/Advisor.tsx:24-25 | the advice held is the result of the latest successful request |

## Left out

- Persistence: `localStorage` reads and writes and `JSON.parse`/`JSON.stringify` of the saved slots are I/O. Loading takes the parsed values (or their absence) as parameters.
- Floating point: amounts are integer cents. `toFixed`, `Intl.NumberFormat` currency formatting and the amount's string form in the CSV are not modelled; the last is a parameter.
- SummaryCards.SavingsRate: states the exact real-valued rate; the rounding to one decimal by `toFixed(1)` is not modelled.
- Date parsing: only well-formed `YYYY-MM-DD` dates are related to calendar order. `new Date` of a malformed date or of an out-of-range month or day such as `2024-13-01` (NaN times, which make the comparator inconsistent) is not modelled; the key orders such dates by their digits.
- Aggregates.BreakdownOrder: JavaScript objects list integer-like keys (such as a category named "42") first in ascending numeric order; the model keeps first-met order for every key.
- Aggregates.Credit: the accumulator is a plain `{}`, so a category named after an inherited member ("constructor", "toString", "hasOwnProperty") starts from that member rather than 0, and `+` then builds a string. The model starts every new key at 0.
- Aggregates.CreditValue: for the same inherited-member names the JavaScript value is a string, not the sum the model states.
- Aggregates.Breakdown: assigning `acc["__proto__"]` sets the prototype instead of storing a key, so that category is missing and the values fall short of the total; inherited-member names hold strings. The model stores every category as an own key.
- Aggregates.BreakdownValue: the value of a "__proto__" or inherited-member category is not its total in JavaScript; the model states the total for every name.
- Charts.PieSlices: a "__proto__" expense category gets no slice, and an inherited-member one gets a string value; the model gives every expense category its total.
- Charts.PieSumsToExpenses: with a "__proto__" expense category the slices fall short of the expense bar; the model assumes every category is stored.
- Charts.PieDataStable: the object lists integer-like category names first, in ascending numeric order, so ties among them follow numeric order rather than first-met order; the model keeps first-met order.
- Analyze.SummaryBreakdownValue: `expensesByCategory` has the same "__proto__" and inherited-member behaviour as the client's breakdown; the model states the total for every category.
- Analyze.SummaryNames: a "__proto__" expense category is absent from `expensesByCategory`; the model lists it.
- Analyze.BuildSummary: with a "__proto__" expense category `expensesByCategory` lacks that key, so its values fall short of `totalExpense`; the model states that they sum to it.
- Aggregates.BreakdownPositive: a category named after an inherited member such as "constructor" holds a string in JavaScript, not a positive number; the model states positivity for every key.
- Aggregates.BreakdownSumsToExpenses: a "__proto__" expense category is not stored, so the breakdown falls short of the expense total; the model states equality.
- Charts.PieData: a string value from an inherited-member category makes `b.value - a.value` NaN, the comparator inconsistent and the slice order unspecified; the model sorts numeric values only.
- The language-model call, the prompt text and its JSON serialisation are foreign calls. The model call is a parameter from the summary to its outcome, and parsing then re-serialising the reply is a parameter too.
- Analyze: an element that is a number, string or boolean reads as an entry of no known type, which matches its effect on the totals. Posted entries carry integer amounts; a non-number `amount` in the posted JSON, which JavaScript would concatenate or turn into NaN, is not modelled.
- CORS headers, static files, the catch-all route, `listen`, `dotenv` and logging are server plumbing with no effect on the responses modelled.
- The client's network call in services/geminiService.ts (the endpoint path, `response.ok`, the error text it composes) is not part of this model; the advisor sees only success or failure.
- Analyze.Relay: what `JSON.stringify` makes of the parsed reply (dropped whitespace, `-0` written as `0`, out-of-range numbers and so on) is not modelled; the re-serialised text is a parameter of the relay.
- Advisor.RunSettles: the panel is rendered only on the advisor tab (App.tsx:205-210), so switching tabs unmounts it and a later visit starts from the fresh state; the model covers one mount.
- Advisor.Settle: a 200 whose body is JSON `null` makes the client return `null` as advice, and `setAdvice(null)` clears the advice; a successful outcome in the model always carries advice.
- The shape of the model's reply is not checked: the handlers relay any parseable text and the client only casts it, so the model relays text without a schema.
- DataExport.ExportRoundTrip: requires dates and amount texts free of commas, quotes and line feeds, because the export writes them bare. The `Blob`, object URL and download link are browser I/O.
- Concurrency: advisor clicks are modelled one at a time, each running to completion; overlapping requests and the 3-second error timer racing a new error are not modelled.
- Rendering details beyond what each view shows (icons, colours other than the balance tone, the tab switcher) are not modelled.
