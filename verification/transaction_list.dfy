/** The transaction list of components/TransactionList.tsx: a copy of the
    ledger sorted by date, newest first. */
module TransactionList {
  import opened Types
  import opened StableSort

  predicate IsDigit(c: char) {
    '0' <= c <= '9'
  }

  function DigitValue(c: char): nat
    requires IsDigit(c)
  {
    (c as int) - ('0' as int)
  }

  /** The number spelt by the digits of `s`, other characters skipped. For a
      `YYYY-MM-DD` date this is YYYYMMDD, which orders dates by year, then
      month, then day; for dates naming real calendar days that is the
      order of `new Date(d).getTime()`. */
  function DateKey(s: string): nat
    decreases |s|
  {
    if |s| == 0 then 0
    else if IsDigit(s[|s| - 1]) then DateKey(s[..|s| - 1]) * 10 + DigitValue(s[|s| - 1])
    else DateKey(s[..|s| - 1])
  }

  function Pow10(n: nat): nat {
    if n == 0 then 1 else 10 * Pow10(n - 1)
  }

  predicate AllDigits(s: string) {
    forall i :: 0 <= i < |s| ==> IsDigit(s[i])
  }

  /** A `YYYY-MM-DD` string as the date input produces. */
  predicate WellFormedDate(d: string) {
    && |d| == 10 && d[4] == '-' && d[7] == '-'
    && AllDigits(d[..4]) && AllDigits(d[5..7]) && AllDigits(d[8..])
  }

  function Year(d: string): nat requires WellFormedDate(d) { DateKey(d[..4]) }
  function Month(d: string): nat requires WellFormedDate(d) { DateKey(d[5..7]) }
  function Day(d: string): nat requires WellFormedDate(d) { DateKey(d[8..]) }

  lemma {:induction false} DateKeyBound(s: string)
    requires AllDigits(s)
    ensures DateKey(s) < Pow10(|s|)
    decreases |s|
  {
    if |s| > 0 {
      DateKeyBound(s[..|s| - 1]);
    }
  }

  lemma DateKeyLast(s: string)
    requires |s| > 0 && IsDigit(s[|s| - 1])
    ensures DateKey(s) == DateKey(s[..|s| - 1]) * 10 + DigitValue(s[|s| - 1])
  {
  }

  lemma ShiftDigit(x: int, p: int, y: int, d: int)
    ensures (x * p + y) * 10 + d == x * (10 * p) + (y * 10 + d)
  {
    assert (x * p) * 10 == x * (10 * p);
  }

  lemma {:induction false} DateKeyConcat(a: string, b: string)
    requires AllDigits(b)
    ensures DateKey(a + b) == DateKey(a) * Pow10(|b|) + DateKey(b)
    decreases |b|
  {
    if |b| == 0 {
      assert a + b == a;
    } else {
      var b', c := b[..|b| - 1], b[|b| - 1];
      assert AllDigits(b') by {
        forall i | 0 <= i < |b'| ensures IsDigit(b'[i]) {
          assert b'[i] == b[i];
        }
      }
      DateKeyConcat(a, b');
      assert (a + b)[..|a + b| - 1] == a + b';
      assert (a + b)[|a + b| - 1] == c;
      DateKeyLast(a + b);
      DateKeyLast(b);
      ShiftDigit(DateKey(a), Pow10(|b'|), DateKey(b'), DigitValue(c));
    }
  }

  lemma DateKeySeparator(a: string)
    ensures DateKey(a + "-") == DateKey(a)
  {
    assert (a + "-")[..|a + "-"| - 1] == a;
  }

  /** The key of a well-formed date is YYYYMMDD, each part below 10^its width. */
  lemma DateKeyParts(d: string)
    requires WellFormedDate(d)
    ensures DateKey(d) == Year(d) * 10000 + Month(d) * 100 + Day(d)
    ensures Month(d) < 100 && Day(d) < 100
  {
    var y, m, dd := d[..4], d[5..7], d[8..];
    assert d == ((y + "-") + m + "-") + dd;
    DateKeyConcat((y + "-") + m + "-", dd);
    DateKeySeparator(y + "-" + m);
    DateKeyConcat(y + "-", m);
    DateKeySeparator(y);
    DateKeyBound(m);
    DateKeyBound(dd);
    assert Pow10(2) == 100;
  }

  /** On well-formed dates the key order is the calendar (year, month, day)
      order. */
  lemma DateKeyChronological(a: string, b: string)
    requires WellFormedDate(a) && WellFormedDate(b)
    ensures DateKey(a) < DateKey(b) <==>
      || Year(a) < Year(b)
      || (Year(a) == Year(b) && Month(a) < Month(b))
      || (Year(a) == Year(b) && Month(a) == Month(b) && Day(a) < Day(b))
  {
    DateKeyParts(a);
    DateKeyParts(b);
  }

  function TxDate(t: Transaction): int {
    DateKey(t.date)
  }

  /** `sortedTransactions`: a sorted copy (the argument is a value, so the
      caller's list cannot change), newest date first; transactions of the
      same date keep their ledger order. */
  function SortedTransactions(txs: seq<Transaction>): (r: seq<Transaction>)
    ensures |r| == |txs| && multiset(r) == multiset(txs)
    ensures forall i, j :: 0 <= i < j < |r| ==> DateKey(r[i].date) >= DateKey(r[j].date)
  {
    SortPerm(txs, TxDate);
    SortDesc(txs, TxDate)
  }

  /** Same-date transactions keep their relative order. */
  lemma SortedTransactionsStable(txs: seq<Transaction>)
    ensures SameKeyClasses(SortedTransactions(txs), txs, TxDate)
  {
    SortIsStable(txs, TxDate);
  }

  /** A list already newest-first is shown as it is. */
  lemma SortedTransactionsIdempotent(txs: seq<Transaction>)
    ensures SortedTransactions(SortedTransactions(txs)) == SortedTransactions(txs)
  {
    SortIdempotent(SortedTransactions(txs), TxDate);
  }

  datatype ListView = NoTransactions | Rows(rows: seq<Transaction>)

  /** The empty-state branch exactly for an empty ledger; otherwise one row
      per transaction in sorted order. */
  function View(txs: seq<Transaction>): (v: ListView)
    ensures v.NoTransactions? <==> |txs| == 0
    ensures v.Rows? ==> v.rows == SortedTransactions(txs)
  {
    if |txs| == 0 then NoTransactions else Rows(SortedTransactions(txs))
  }
}
