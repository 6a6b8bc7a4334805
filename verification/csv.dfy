/** Comma-separated fields with the quoting of section 2 of RFC 4180
    (rules 5-7: a field may be enclosed in double quotes, and a double quote
    inside such a field is written twice), records separated by a single
    LF. The writer side is what components/DataExport.tsx produces; the
    reader side is a standard quote-aware parser, the reader the
    round-trip lemmas use. */
module Csv {
  import opened Types

  /** A field as written: bare text, or text enclosed in quotes. */
  datatype Field = Bare(text: string) | Quoted(text: string)

  /** `s.replace(/"/g, '""')` */
  function EscapeQuotes(s: string): (r: string)
    ensures |r| >= |s|
    ensures (forall i :: 0 <= i < |s| ==> s[i] != '"') ==> r == s
  {
    if |s| == 0 then []
    else (if s[0] == '"' then "\"\"" else [s[0]]) + EscapeQuotes(s[1..])
  }

  /** `"` + escaped text + `"` */
  function Quote(s: string): string {
    "\"" + EscapeQuotes(s) + "\""
  }

  function Encode(f: Field): string {
    match f
    case Bare(t) => t
    case Quoted(t) => Quote(t)
  }

  /** The value a reader recovers from `f`. */
  function Value(f: Field): string {
    f.text
  }

  /** Text that can stand bare: no separator, quote or line feed. */
  predicate BareSafe(s: string) {
    forall i :: 0 <= i < |s| ==> s[i] != ',' && s[i] != '"' && s[i] != '\n'
  }

  predicate Safe(f: Field) {
    f.Bare? ==> BareSafe(f.text)
  }

  /** A record the reader can take back: at least one field, each safe. */
  predicate SafeRecord(fs: seq<Field>) {
    |fs| > 0 && forall i :: 0 <= i < |fs| ==> Safe(fs[i])
  }

  /** `parts.join(sep)` */
  function JoinWith(parts: seq<string>, sep: char): string {
    if |parts| == 0 then []
    else if |parts| == 1 then parts[0]
    else parts[0] + [sep] + JoinWith(parts[1..], sep)
  }

  function EncodeAll(fs: seq<Field>): (r: seq<string>)
    ensures |r| == |fs|
    ensures forall i :: 0 <= i < |fs| ==> r[i] == Encode(fs[i])
  {
    if |fs| == 0 then [] else [Encode(fs[0])] + EncodeAll(fs[1..])
  }

  function Values(fs: seq<Field>): (r: seq<string>)
    ensures |r| == |fs|
    ensures forall i :: 0 <= i < |fs| ==> r[i] == fs[i].text
  {
    if |fs| == 0 then [] else [Value(fs[0])] + Values(fs[1..])
  }

  /** One record as a line of text. */
  function Line(fs: seq<Field>): string {
    JoinWith(EncodeAll(fs), ',')
  }

  function Lines(rows: seq<seq<Field>>): (r: seq<string>)
    ensures |r| == |rows|
    ensures forall i :: 0 <= i < |rows| ==> r[i] == Line(rows[i])
  {
    if |rows| == 0 then [] else [Line(rows[0])] + Lines(rows[1..])
  }

  // ---------------------------------------------------------------------
  // Reader.

  /** Reads the inside of a quoted field (the opening quote already
      consumed) up to its closing quote; `""` stands for one `"`. None when
      the closing quote is missing. Returns the value and the text after the
      closing quote. */
  function ReadQuoted(s: string): (r: Option<(string, string)>)
    ensures r.Some? ==> |r.value.1| < |s|
  {
    if |s| == 0 then None
    else if s[0] == '"' then
      if |s| > 1 && s[1] == '"' then
        match ReadQuoted(s[2..])
        case None => None
        case Some(p) => Some(("\"" + p.0, p.1))
      else Some(([], s[1..]))
    else
      match ReadQuoted(s[1..])
      case None => None
      case Some(p) => Some(([s[0]] + p.0, p.1))
  }

  /** Reads an unquoted field: everything up to a comma or line feed. */
  function ReadBare(s: string): (r: (string, string))
    ensures |r.1| <= |s|
  {
    if |s| == 0 || s[0] == ',' || s[0] == '\n' then ([], s)
    else
      var p := ReadBare(s[1..]);
      ([s[0]] + p.0, p.1)
  }

  function ReadField(s: string): (r: Option<(string, string)>)
    ensures r.Some? ==> |r.value.1| <= |s|
  {
    if |s| > 0 && s[0] == '"' then ReadQuoted(s[1..]) else Some(ReadBare(s))
  }

  /** Reads the fields of one record; the rest is empty or starts with the
      line feed that ends the record. None for text after a closing quote
      or an unterminated quote. */
  function ReadRecord(s: string): (r: Option<(seq<string>, string)>)
    ensures r.Some? ==> |r.value.1| <= |s|
    decreases |s|
  {
    match ReadField(s)
    case None => None
    case Some(p) =>
      var (v, rest) := p;
      if |rest| > 0 && rest[0] == ',' then
        match ReadRecord(rest[1..])
        case None => None
        case Some(q) => Some(([v] + q.0, q.1))
      else if rest == [] || rest[0] == '\n' then Some(([v], rest))
      else None
  }

  /** Reads every record of a document. */
  function ReadDocument(s: string): Option<seq<seq<string>>>
    decreases |s|
  {
    match ReadRecord(s)
    case None => None
    case Some(p) =>
      var (fields, rest) := p;
      if rest == [] then Some([fields])
      else
        match ReadDocument(rest[1..])
        case None => None
        case Some(more) => Some([fields] + more)
  }

  // ---------------------------------------------------------------------
  // Round trip.

  /** The escaped text followed by the closing quote reads back as the
      original text. */
  lemma {:induction false} ReadQuotedEscaped(x: string, rest: string)
    requires rest == [] || rest[0] != '"'
    ensures ReadQuoted(EscapeQuotes(x) + "\"" + rest) == Some((x, rest))
    decreases |x|
  {
    var s := EscapeQuotes(x) + "\"" + rest;
    if |x| == 0 {
      assert s == "\"" + rest;
      assert s[1..] == rest;
    } else {
      ReadQuotedEscaped(x[1..], rest);
      var tail := EscapeQuotes(x[1..]) + "\"" + rest;
      if x[0] == '"' {
        assert s == "\"\"" + tail;
        assert s[2..] == tail;
      } else {
        assert s == [x[0]] + tail;
        assert s[1..] == tail;
      }
      assert x == [x[0]] + x[1..];
    }
  }

  lemma {:induction false} ReadBareSafe(x: string, rest: string)
    requires BareSafe(x)
    requires rest == [] || rest[0] == ',' || rest[0] == '\n'
    ensures ReadBare(x + rest) == (x, rest)
    decreases |x|
  {
    if |x| == 0 {
      assert x + rest == rest;
    } else {
      assert (x + rest)[1..] == x[1..] + rest;
      ReadBareSafe(x[1..], rest);
      assert x == [x[0]] + x[1..];
    }
  }

  /** A written field, followed by a separator, a line feed or the end,
      reads back as its value. */
  lemma FieldRoundTrip(f: Field, rest: string)
    requires Safe(f)
    requires rest == [] || rest[0] == ',' || rest[0] == '\n'
    ensures ReadField(Encode(f) + rest) == Some((Value(f), rest))
  {
    match f
    case Bare(t) =>
      ReadBareSafe(t, rest);
      if |t| > 0 {
        assert (t + rest)[0] == t[0];
      }
    case Quoted(t) =>
      var s := Quote(t) + rest;
      assert s == "\"" + (EscapeQuotes(t) + "\"" + rest);
      assert s[1..] == EscapeQuotes(t) + "\"" + rest;
      ReadQuotedEscaped(t, rest);
  }

  /** A written record, followed by a line feed or the end, reads back as
      its values. */
  lemma {:induction false} RecordRoundTrip(fs: seq<Field>, rest: string)
    requires SafeRecord(fs)
    requires rest == [] || rest[0] == '\n'
    ensures ReadRecord(Line(fs) + rest) == Some((Values(fs), rest))
    decreases |fs|
  {
    var encs := EncodeAll(fs);
    if |fs| == 1 {
      assert Line(fs) == Encode(fs[0]);
      FieldRoundTrip(fs[0], rest);
      assert Values(fs) == [Value(fs[0])];
    } else {
      var tail := Line(fs[1..]) + rest;
      assert EncodeAll(fs)[1..] == EncodeAll(fs[1..]);
      assert Line(fs) == Encode(fs[0]) + [','] + Line(fs[1..]);
      assert Line(fs) + rest == Encode(fs[0]) + ([','] + tail);
      FieldRoundTrip(fs[0], [','] + tail);
      assert ([','] + tail)[1..] == tail;
      assert SafeRecord(fs[1..]) by {
        forall i | 0 <= i < |fs| - 1 ensures Safe(fs[1..][i]) {
          assert fs[1..][i] == fs[i + 1];
        }
      }
      RecordRoundTrip(fs[1..], rest);
      assert Values(fs) == [Value(fs[0])] + Values(fs[1..]);
    }
  }

  /** A written document reads back as its records' values. */
  lemma {:induction false} DocumentRoundTrip(rows: seq<seq<Field>>)
    requires |rows| > 0
    requires forall r :: 0 <= r < |rows| ==> SafeRecord(rows[r])
    ensures ReadDocument(JoinWith(Lines(rows), '\n')) == Some(AllValues(rows))
    decreases |rows|
  {
    if |rows| == 1 {
      assert JoinWith(Lines(rows), '\n') == Line(rows[0]) + [];
      RecordRoundTrip(rows[0], []);
      assert AllValues(rows) == [Values(rows[0])];
    } else {
      var tail := JoinWith(Lines(rows[1..]), '\n');
      assert Lines(rows)[1..] == Lines(rows[1..]);
      assert JoinWith(Lines(rows), '\n') == Line(rows[0]) + (['\n'] + tail);
      RecordRoundTrip(rows[0], ['\n'] + tail);
      assert (['\n'] + tail)[1..] == tail;
      DocumentRoundTrip(rows[1..]);
      assert AllValues(rows) == [Values(rows[0])] + AllValues(rows[1..]);
    }
  }

  function AllValues(rows: seq<seq<Field>>): (r: seq<seq<string>>)
    ensures |r| == |rows|
    ensures forall i :: 0 <= i < |rows| ==> r[i] == Values(rows[i])
  {
    if |rows| == 0 then [] else [Values(rows[0])] + AllValues(rows[1..])
  }
}
