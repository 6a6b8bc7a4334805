/** The CSV text built by handleExport in components/DataExport.tsx. */
module DataExport {
  import opened Types
  import opened Csv

  const HeaderNames: seq<string> := ["Date", "Type", "Category", "Amount", "Description"]

  /** The header record: five bare names. */
  const HeaderRow: seq<Field> :=
    [Bare("Date"), Bare("Type"), Bare("Category"), Bare("Amount"), Bare("Description")]

  lemma HeaderJoin()
    ensures JoinWith(HeaderNames, ',')
         == "Date" + [','] + ("Type" + [','] + ("Category" + [','] + ("Amount" + [','] + "Description")))
  {
    assert HeaderNames[1..] == ["Type", "Category", "Amount", "Description"];
    assert HeaderNames[1..][1..] == ["Category", "Amount", "Description"];
    assert HeaderNames[1..][1..][1..] == ["Amount", "Description"];
    assert HeaderNames[1..][1..][1..][1..] == ["Description"];
  }

  // The header's join, one comma at a time from the right; each step is a
  // lemma of its own so that every proof compares two short literals.
  lemma JoinStep1() ensures "Amount" + [','] + "Description" == "Amount,Description" { }
  lemma JoinStep2() ensures "Category" + [','] + "Amount,Description" == "Category,Amount,Description" { }
  lemma JoinStep3() ensures "Type" + [','] + "Category,Amount,Description" == "Type,Category,Amount,Description" { }
  lemma JoinStep4()
    ensures "Date" + [','] + "Type,Category,Amount,Description" == "Date,Type,Category,Amount,Description"
  { }

  /** The first line is exactly `Date,Type,Category,Amount,Description`. */
  lemma HeaderLine()
    ensures Values(HeaderRow) == HeaderNames
    ensures Line(HeaderRow) == "Date,Type,Category,Amount,Description"
  {
    assert EncodeAll(HeaderRow) == HeaderNames;
    HeaderJoin();
    JoinStep1();
    JoinStep2();
    JoinStep3();
    JoinStep4();
  }

  /** The description: an empty bare field when empty, quoted otherwise. */
  function DescriptionField(d: string): (f: Field)
    ensures Value(f) == d && Safe(f)
    ensures f.Bare? <==> d == []
  {
    if d == [] then Bare([]) else Quoted(d)
  }

  /** The five fields of a transaction's row. `amountText` is JavaScript's
      rendering of the amount as a string. */
  function RowFields(t: Transaction, amountText: int -> string): (r: seq<Field>)
    ensures |r| == 5
    ensures r[0] == Bare(t.date) && r[1] == Bare(KindName(t.kind)) && r[3] == Bare(amountText(t.amount))
    ensures Encode(r[2]) == Quote(t.category)
    ensures Encode(r[4]) == if t.description == [] then [] else Quote(t.description)
  {
    [Bare(t.date), Bare(KindName(t.kind)), Quoted(t.category),
     Bare(amountText(t.amount)), DescriptionField(t.description)]
  }

  function Rows(txs: seq<Transaction>, amountText: int -> string): (r: seq<seq<Field>>)
    ensures |r| == |txs|
    ensures forall i :: 0 <= i < |txs| ==> r[i] == RowFields(txs[i], amountText)
  {
    if |txs| == 0 then [] else [RowFields(txs[0], amountText)] + Rows(txs[1..], amountText)
  }

  /** The CSV document, or None: an empty ledger exports nothing. Header
      first, then one line per transaction in ledger order, joined by a
      single LF with none at the end. */
  function ExportCsv(txs: seq<Transaction>, amountText: int -> string): (r: Option<string>)
    ensures r.None? <==> |txs| == 0
  {
    if |txs| == 0 then None
    else Some(JoinWith(Lines([HeaderRow] + Rows(txs, amountText)), '\n'))
  }

  /** The values a reader should get for a transaction's row. */
  function RowValues(t: Transaction, amountText: int -> string): seq<string> {
    [t.date, KindName(t.kind), t.category, amountText(t.amount), t.description]
  }

  function AllRowValues(txs: seq<Transaction>, amountText: int -> string): (r: seq<seq<string>>)
    ensures |r| == |txs|
    ensures forall i :: 0 <= i < |txs| ==> r[i] == RowValues(txs[i], amountText)
  {
    if |txs| == 0 then [] else [RowValues(txs[0], amountText)] + AllRowValues(txs[1..], amountText)
  }

  /** Dates and amount texts that need no quoting. */
  predicate PlainFields(txs: seq<Transaction>, amountText: int -> string) {
    forall i :: 0 <= i < |txs| ==> BareSafe(txs[i].date) && BareSafe(amountText(txs[i].amount))
  }

  lemma HeaderSafe()
    ensures SafeRecord(HeaderRow)
  {
    assert BareSafe("Date") && BareSafe("Type") && BareSafe("Category");
    assert BareSafe("Amount") && BareSafe("Description");
  }

  lemma RowSafe(t: Transaction, amountText: int -> string)
    requires BareSafe(t.date) && BareSafe(amountText(t.amount))
    ensures SafeRecord(RowFields(t, amountText))
  {
    assert BareSafe(KindName(t.kind));
  }

  lemma RowValuesOf(t: Transaction, amountText: int -> string)
    ensures Values(RowFields(t, amountText)) == RowValues(t, amountText)
  {
    var fs, vs := RowFields(t, amountText), RowValues(t, amountText);
    assert fs[4].text == t.description;
    forall i | 0 <= i < 5 ensures Values(fs)[i] == vs[i] { }
  }

  /** The values of a document whose first record is `h` and whose other
      records are the ledger's rows. */
  lemma ExportValues(h: seq<Field>, txs: seq<Transaction>, amountText: int -> string, rows: seq<seq<Field>>)
    requires rows == [h] + Rows(txs, amountText)
    ensures AllValues(rows) == [Values(h)] + AllRowValues(txs, amountText)
  {
    var expected := [Values(h)] + AllRowValues(txs, amountText);
    forall k | 0 <= k < |rows| ensures AllValues(rows)[k] == expected[k] {
      if k > 0 {
        assert rows[k] == RowFields(txs[k - 1], amountText);
        RowValuesOf(txs[k - 1], amountText);
      }
    }
  }

  lemma ExportSafe(h: seq<Field>, txs: seq<Transaction>, amountText: int -> string, rows: seq<seq<Field>>)
    requires SafeRecord(h) && PlainFields(txs, amountText)
    requires rows == [h] + Rows(txs, amountText)
    ensures forall r :: 0 <= r < |rows| ==> SafeRecord(rows[r])
  {
    forall r | 0 < r < |rows| ensures SafeRecord(rows[r]) {
      assert rows[r] == RowFields(txs[r - 1], amountText);
      RowSafe(txs[r - 1], amountText);
    }
  }

  /** The round trip over the records themselves, for any safe header. */
  lemma ReadRows(h: seq<Field>, txs: seq<Transaction>, amountText: int -> string, rows: seq<seq<Field>>)
    requires SafeRecord(h) && PlainFields(txs, amountText)
    requires rows == [h] + Rows(txs, amountText)
    ensures ReadDocument(JoinWith(Lines(rows), '\n')) == Some([Values(h)] + AllRowValues(txs, amountText))
  {
    ExportSafe(h, txs, amountText, rows);
    DocumentRoundTrip(rows);
    ExportValues(h, txs, amountText, rows);
  }

  /** Reading the export back with a quote-aware CSV reader gives the
      header and then, for each transaction in order, exactly its five
      values: category and description come back exactly as stored,
      embedded quotes, commas and line feeds included. */
  lemma ExportRoundTrip(txs: seq<Transaction>, amountText: int -> string, doc: string)
    requires PlainFields(txs, amountText)
    requires ExportCsv(txs, amountText) == Some(doc)
    ensures ReadDocument(doc) == Some([HeaderNames] + AllRowValues(txs, amountText))
  {
    HeaderSafe();
    HeaderLine();
    ReadRows(HeaderRow, txs, amountText, [HeaderRow] + Rows(txs, amountText));
  }

  /** The worked case: wherever a transaction with the category
      `He said "hi", ok` and an empty description sits in the ledger, its
      record reads back with five fields, that exact category and the
      description as ''. */
  lemma QuotedCategoryExample(txs: seq<Transaction>, amountText: int -> string, i: nat)
    requires PlainFields(txs, amountText)
    requires i < |txs| && txs[i].category == "He said \"hi\", ok" && txs[i].description == ""
    ensures ExportCsv(txs, amountText).Some?
    ensures var read := ReadDocument(ExportCsv(txs, amountText).value);
      && read.Some? && |read.value| == |txs| + 1
      && |read.value[i + 1]| == 5
      && read.value[i + 1][2] == "He said \"hi\", ok"
      && read.value[i + 1][4] == ""
  {
    var doc := ExportCsv(txs, amountText).value;
    ExportRoundTrip(txs, amountText, doc);
    RecordOf(txs, amountText, ReadDocument(doc).value, i);
  }

  /** The record read back for the `i`-th transaction. */
  lemma RecordOf(txs: seq<Transaction>, amountText: int -> string, records: seq<seq<string>>, i: nat)
    requires records == [HeaderNames] + AllRowValues(txs, amountText)
    requires i < |txs|
    ensures |records| == |txs| + 1
    ensures records[i + 1] == RowValues(txs[i], amountText)
  {
  }
}
