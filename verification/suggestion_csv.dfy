/**
 `toCsvBuffer` (bot/components/slashcommands/suggestionreport.js): the
 report text before it is wrapped into a UTF-8 buffer. The header line is
 the six column names joined by commas, unquoted; every row becomes one
 line of six fields, each wrapped in double quotes with inner quotes
 doubled; lines are joined by a single line feed, with no trailing one.

 The partner of the writer is an independent reader for the quoted-field
 format of RFC 4180 (line feed as the record separator, as the writer
 uses): reading the report back yields the header and then exactly each
 row's fields.
 */
module SuggestionCsv {
  import opened JsValues
  import opened Text
  import opened SuggestionRows
  import Seqs

  const HeaderFields: seq<string> := ["Author", "SuggestionNumber", "Description", "Upvotes", "Downvotes", "Date"]

  // ---------------------------------------------------------------------
  // Writer
  // ---------------------------------------------------------------------

  /** `s.replace(/"/g, '""')`: every double quote written twice. */
  function DoubleQuotes(s: string): (r: string)
    ensures |r| >= |s|
    ensures '"' !in s ==> r == s
    decreases |s|
  {
    if s == [] then []
    else (if s[0] == '"' then "\"\"" else [s[0]]) + DoubleQuotes(s[1..])
  }

  /** `esc(v)`: the text between a pair of double quotes, inner quotes doubled. */
  function Esc(s: string): (r: string)
    ensures |r| >= |s| + 2 && r[0] == '"' && r[|r| - 1] == '"'
    ensures '"' !in s ==> r == "\"" + s + "\""
  {
    "\"" + DoubleQuotes(s) + "\""
  }

  /** `header.join(',')`. */
  function HeaderLine(): string {
    Join(HeaderFields, ',')
  }

  /** The six values a row contributes, as `String(...)` renders them. */
  function Fields(r: Row): (fs: seq<string>)
    ensures |fs| == |HeaderFields|
  {
    [r.author, r.number, r.description, NatToString(r.upVotes), NatToString(r.downVotes), r.date]
  }

  function EscAll(vs: seq<string>): (es: seq<string>)
    ensures |es| == |vs|
    ensures forall i :: 0 <= i < |vs| ==> es[i] == Esc(vs[i])
  {
    seq(|vs|, i requires 0 <= i < |vs| => Esc(vs[i]))
  }

  /** One data line: the row's escaped fields joined by commas. */
  function RecordLine(r: Row): string {
    Join(EscAll(Fields(r)), ',')
  }

  function RecordLines(rows: seq<Row>): (ls: seq<string>)
    ensures |ls| == |rows|
    ensures forall i :: 0 <= i < |rows| ==> ls[i] == RecordLine(rows[i])
  {
    seq(|rows|, i requires 0 <= i < |rows| => RecordLine(rows[i]))
  }

  /** The text `toCsvBuffer` encodes: header line, then one line per row. */
  function ToCsv(rows: seq<Row>): (csv: string)
    ensures StartsWith(csv, HeaderLine())
    ensures rows == [] <==> csv == HeaderLine()
    ensures rows != [] ==> csv[|HeaderLine()|] == '\n'
  {
    JoinStartsWithFirst(Lines(HeaderFields, rows), '\n');
    Join(Lines(HeaderFields, rows), '\n')
  }

  // ---------------------------------------------------------------------
  // Reader (RFC 4180, section 2, with a line feed ending each record)
  // ---------------------------------------------------------------------

  /** Reads the inside of a quoted field up to its closing quote; a pair of
      quotes stands for one. Returns the value and what follows the closing
      quote; None when the closing quote is missing. */
  function ParseQuoted(s: string): (r: Option<(string, string)>)
    ensures r.Some? ==> |r.value.1| < |s|
    decreases |s|
  {
    if s == [] then None
    else if s[0] == '"' then
      if |s| >= 2 && s[1] == '"' then
        match ParseQuoted(s[2..])
        case None => None
        case Some((v, rest)) => Some(("\"" + v, rest))
      else Some(([], s[1..]))
    else
      match ParseQuoted(s[1..])
      case None => None
      case Some((v, rest)) => Some(([s[0]] + v, rest))
  }

  /** Length of the leading run that holds no comma and no line feed. */
  function PlainLength(s: string): (n: nat)
    ensures n <= |s|
    ensures n < |s| ==> s[n] == ',' || s[n] == '\n'
    ensures forall i :: 0 <= i < n ==> s[i] != ',' && s[i] != '\n'
    decreases |s|
  {
    if s == [] || s[0] == ',' || s[0] == '\n' then 0 else 1 + PlainLength(s[1..])
  }

  /** A field is delimited by a comma, a line feed or the end of the text. */
  predicate AtFieldEnd(rest: string) {
    rest == [] || rest[0] == ',' || rest[0] == '\n'
  }

  /** Reads one field, quoted or not; returns its value and the text after it. */
  function ParseField(s: string): (r: Option<(string, string)>)
    ensures r.Some? ==> |r.value.1| <= |s| && AtFieldEnd(r.value.1)
  {
    if s != [] && s[0] == '"' then
      match ParseQuoted(s[1..])
      case None => None
      case Some((v, rest)) => if AtFieldEnd(rest) then Some((v, rest)) else None
    else
      var n := PlainLength(s);
      Some((s[..n], s[n..]))
  }

  /** Reads the comma-separated fields of one record; what is left is empty
      or starts with the line feed that ends the record. */
  function ParseRecord(s: string): (r: Option<(seq<string>, string)>)
    ensures r.Some? ==> |r.value.0| >= 1 && |r.value.1| <= |s|
    ensures r.Some? ==> r.value.1 == [] || r.value.1[0] == '\n'
    decreases |s|
  {
    match ParseField(s)
    case None => None
    case Some((v, rest)) =>
      if rest != [] && rest[0] == ',' then
        match ParseRecord(rest[1..])
        case None => None
        case Some((vs, after)) => Some(([v] + vs, after))
      else Some(([v], rest))
  }

  /** Reads a whole CSV text into its records. */
  function ParseCsv(s: string): (r: Option<seq<seq<string>>>)
    ensures r.Some? ==> |r.value| >= 1
    ensures r.Some? ==> forall i :: 0 <= i < |r.value| ==> |r.value[i]| >= 1
    decreases |s|
  {
    match ParseRecord(s)
    case None => None
    case Some((fs, rest)) =>
      if rest == [] then Some([fs])
      else
        match ParseCsv(rest[1..])
        case None => None
        case Some(more) => Some([fs] + more)
  }

  // ---------------------------------------------------------------------
  // Round trip
  // ---------------------------------------------------------------------

  /** The reader undoes the quote doubling, whatever the value holds, as long
      as the closing quote is not followed by another quote. */
  lemma {:induction false} ParseQuotedOfDoubled(v: string, rest: string)
    requires rest == [] || rest[0] != '"'
    ensures ParseQuoted(DoubleQuotes(v) + "\"" + rest) == Some((v, rest))
    decreases |v|
  {
    if v == [] {
      var s := DoubleQuotes(v) + "\"" + rest;
      assert s == "\"" + rest;
      ParseQuotedAtClosing(s);
    } else {
      ParseQuotedOfDoubled(v[1..], rest);
      if v[0] == '"' {
        DoubledQuoteReadsBack(v, rest);
      } else {
        OrdinaryCharReadsBack(v, rest);
      }
    }
  }

  /** One step of the round trip: a doubled quote reads as one quote. */
  lemma DoubledQuoteReadsBack(v: string, rest: string)
    requires |v| >= 1 && v[0] == '"'
    requires ParseQuoted(DoubleQuotes(v[1..]) + "\"" + rest) == Some((v[1..], rest))
    ensures ParseQuoted(DoubleQuotes(v) + "\"" + rest) == Some((v, rest))
  {
    var t := DoubleQuotes(v[1..]) + "\"" + rest;
    var s := DoubleQuotes(v) + "\"" + rest;
    assert DoubleQuotes(v) == "\"\"" + DoubleQuotes(v[1..]);
    assert s == "\"\"" + t;
    ParseQuotedAtPair(s, v[1..], rest);
    Seqs.HeadTail(v);
  }

  /** One step of the round trip: any other character reads as itself. */
  lemma OrdinaryCharReadsBack(v: string, rest: string)
    requires |v| >= 1 && v[0] != '"'
    requires ParseQuoted(DoubleQuotes(v[1..]) + "\"" + rest) == Some((v[1..], rest))
    ensures ParseQuoted(DoubleQuotes(v) + "\"" + rest) == Some((v, rest))
  {
    var t := DoubleQuotes(v[1..]) + "\"" + rest;
    var s := DoubleQuotes(v) + "\"" + rest;
    assert DoubleQuotes(v) == [v[0]] + DoubleQuotes(v[1..]);
    assert s == [v[0]] + t;
    ParseQuotedAtChar(s, v[1..], rest);
    Seqs.HeadTail(v);
  }

  lemma ParseQuotedAtClosing(s: string)
    requires |s| >= 1 && s[0] == '"' && (|s| == 1 || s[1] != '"')
    ensures ParseQuoted(s) == Some(([], s[1..]))
  {
  }

  lemma ParseQuotedAtPair(s: string, v: string, rest: string)
    requires |s| >= 2 && s[0] == '"' && s[1] == '"'
    requires ParseQuoted(s[2..]) == Some((v, rest))
    ensures ParseQuoted(s) == Some(("\"" + v, rest))
  {
  }

  lemma ParseQuotedAtChar(s: string, v: string, rest: string)
    requires |s| >= 1 && s[0] != '"'
    requires ParseQuoted(s[1..]) == Some((v, rest))
    ensures ParseQuoted(s) == Some(([s[0]] + v, rest))
  {
  }

  /** An escaped value reads back as itself. */
  lemma EscapedFieldReadsBack(v: string, rest: string)
    requires AtFieldEnd(rest)
    ensures ParseField(Esc(v) + rest) == Some((v, rest))
  {
    var s := Esc(v) + rest;
    assert s[1..] == DoubleQuotes(v) + "\"" + rest;
    ParseQuotedOfDoubled(v, rest);
  }

  /** A value that needs no quoting: no comma, line feed or double quote. */
  predicate Plain(v: string) {
    forall i :: 0 <= i < |v| ==> v[i] != ',' && v[i] != '\n' && v[i] != '"'
  }

  lemma {:induction false} PlainLengthOfPlain(v: string, rest: string)
    requires Plain(v) && AtFieldEnd(rest)
    ensures PlainLength(v + rest) == |v|
    decreases |v|
  {
    if v != [] {
      assert (v + rest)[1..] == v[1..] + rest;
      PlainLengthOfPlain(v[1..], rest);
    } else {
      assert v + rest == rest;
    }
  }

  /** A value that needs no quoting reads back as itself unquoted. */
  lemma PlainFieldReadsBack(v: string, rest: string)
    requires Plain(v) && AtFieldEnd(rest)
    ensures ParseField(v + rest) == Some((v, rest))
  {
    PlainLengthOfPlain(v, rest);
    var s := v + rest;
    assert s[..|v|] == v && s[|v|..] == rest;
    if v == [] {
      assert s == rest;
    }
  }

  /** How a record's fields are written: quoted, or as they are when every
      one is plain. */
  function Encode(vs: seq<string>, quoted: bool): (es: seq<string>)
    ensures |es| == |vs|
  {
    if quoted then EscAll(vs) else vs
  }

  predicate Writable(vs: seq<string>, quoted: bool) {
    |vs| >= 1 && (quoted || forall i :: 0 <= i < |vs| ==> Plain(vs[i]))
  }

  /** A field followed by a comma continues the record. */
  lemma ParseRecordOnComma(s: string, v: string, more: string)
    requires ParseField(s) == Some((v, [','] + more))
    ensures ParseRecord(s) == (match ParseRecord(more)
                               case None => None
                               case Some((vs, after)) => Some(([v] + vs, after)))
  {
    assert ([','] + more)[1..] == more;
  }

  /** A field followed by a line feed or the end closes the record. */
  lemma ParseRecordAtEnd(s: string, v: string, rest: string)
    requires rest == [] || rest[0] == '\n'
    requires ParseField(s) == Some((v, rest))
    ensures ParseRecord(s) == Some(([v], rest))
  {
  }

  lemma EncodedFieldReadsBack(v: string, quoted: bool, rest: string)
    requires quoted || Plain(v)
    requires AtFieldEnd(rest)
    ensures ParseField((if quoted then Esc(v) else v) + rest) == Some((v, rest))
  {
    if quoted { EscapedFieldReadsBack(v, rest); } else { PlainFieldReadsBack(v, rest); }
  }

  lemma EncodeTail(vs: seq<string>, quoted: bool)
    requires |vs| >= 1
    ensures Encode(vs, quoted)[0] == (if quoted then Esc(vs[0]) else vs[0])
    ensures Encode(vs[1..], quoted) == Encode(vs, quoted)[1..]
  {
  }

  lemma JoinCons(parts: seq<string>, sep: char)
    requires |parts| >= 2
    ensures Join(parts, sep) == parts[0] + [sep] + Join(parts[1..], sep)
  {
  }

  lemma RecordOfOneField(vs: seq<string>, quoted: bool, rest: string)
    requires |vs| == 1 && Writable(vs, quoted)
    requires rest == [] || rest[0] == '\n'
    ensures ParseRecord(Join(Encode(vs, quoted), ',') + rest) == Some((vs, rest))
  {
    var es := Encode(vs, quoted);
    EncodeTail(vs, quoted);
    assert Join(es, ',') == es[0];
    EncodedFieldReadsBack(vs[0], quoted, rest);
    ParseRecordAtEnd(Join(es, ',') + rest, vs[0], rest);
    assert [vs[0]] == vs;
  }

  lemma RecordOfMoreFields(vs: seq<string>, quoted: bool, rest: string)
    requires |vs| >= 2 && Writable(vs, quoted)
    requires rest == [] || rest[0] == '\n'
    requires ParseRecord(Join(Encode(vs[1..], quoted), ',') + rest) == Some((vs[1..], rest))
    ensures ParseRecord(Join(Encode(vs, quoted), ',') + rest) == Some((vs, rest))
  {
    var es := Encode(vs, quoted);
    EncodeTail(vs, quoted);
    JoinCons(es, ',');
    var more := Join(es[1..], ',') + rest;
    var whole := Join(es, ',') + rest;
    Regroup(es[0], Join(es[1..], ','), rest, whole);
    assert quoted || Plain(vs[0]);
    FieldThenMoreReadsBack(whole, vs[0], quoted, more, vs[1..], rest);
    Seqs.HeadTail(vs);
  }

  lemma Regroup(first: string, others: string, rest: string, whole: string)
    requires whole == first + [','] + others + rest
    ensures whole == first + [','] + (others + rest)
  {
  }

  lemma FieldThenMoreReadsBack(whole: string, v: string, quoted: bool, more: string, others: seq<string>, rest: string)
    requires quoted || Plain(v)
    requires ParseRecord(more) == Some((others, rest))
    requires whole == (if quoted then Esc(v) else v) + [','] + more
    ensures ParseRecord(whole) == Some(([v] + others, rest))
  {
    FieldBeforeComma(whole, v, quoted, more);
    ParseRecordOnComma(whole, v, more);
  }

  lemma FieldBeforeComma(whole: string, v: string, quoted: bool, more: string)
    requires quoted || Plain(v)
    requires whole == (if quoted then Esc(v) else v) + [','] + more
    ensures ParseField(whole) == Some((v, [','] + more))
  {
    if quoted {
      CommaTail(Esc(v), more, whole);
      EscapedFieldReadsBack(v, [','] + more);
    } else {
      CommaTail(v, more, whole);
      PlainFieldReadsBack(v, [','] + more);
    }
  }

  lemma CommaTail(field: string, more: string, whole: string)
    requires whole == field + [','] + more
    ensures whole == field + ([','] + more) && AtFieldEnd([','] + more)
  {
  }

  lemma {:induction false} RecordReadsBack(vs: seq<string>, quoted: bool, rest: string)
    requires Writable(vs, quoted)
    requires rest == [] || rest[0] == '\n'
    ensures ParseRecord(Join(Encode(vs, quoted), ',') + rest) == Some((vs, rest))
    decreases |vs|
  {
    if |vs| == 1 {
      RecordOfOneField(vs, quoted, rest);
    } else {
      var tail := vs[1..];
      assert Writable(tail, quoted) by {
        assert forall i :: 0 <= i < |tail| ==> tail[i] == vs[i + 1];
      }
      RecordReadsBack(tail, quoted, rest);
      RecordOfMoreFields(vs, quoted, rest);
    }
  }

  lemma ParseCsvOnLineFeed(s: string, fs: seq<string>, more: string)
    requires ParseRecord(s) == Some((fs, ['\n'] + more))
    ensures ParseCsv(s) == (match ParseCsv(more)
                            case None => None
                            case Some(recs) => Some([fs] + recs))
  {
    assert (['\n'] + more)[1..] == more;
  }

  lemma ParseCsvAtEnd(s: string, fs: seq<string>)
    requires ParseRecord(s) == Some((fs, []))
    ensures ParseCsv(s) == Some([fs])
  {
  }

  /** Lines written record by record, joined by line feeds, read back as the
      records. */
  lemma {:induction false} LinesReadBack(lines: seq<string>, table: seq<seq<string>>, quoted: seq<bool>)
    requires |lines| == |table| == |quoted| >= 1
    requires forall i :: 0 <= i < |lines| ==> Writable(table[i], quoted[i])
    requires forall i :: 0 <= i < |lines| ==> lines[i] == Join(Encode(table[i], quoted[i]), ',')
    ensures ParseCsv(Join(lines, '\n')) == Some(table)
    decreases |lines|
  {
    if |lines| == 1 {
      LastLineReadsBack(lines, table, quoted);
    } else {
      LinesReadBack(lines[1..], table[1..], quoted[1..]);
      FirstLineReadsBack(lines, table, quoted);
    }
  }

  lemma LineReadsBack(line: string, fields: seq<string>, quoted: bool)
    requires Writable(fields, quoted)
    requires line == Join(Encode(fields, quoted), ',')
    ensures ParseRecord(line) == Some((fields, []))
  {
    RecordReadsBack(fields, quoted, []);
    assert line + [] == line;
  }

  lemma LastLineReadsBack(lines: seq<string>, table: seq<seq<string>>, quoted: seq<bool>)
    requires |lines| == |table| == |quoted| == 1
    requires Writable(table[0], quoted[0])
    requires lines[0] == Join(Encode(table[0], quoted[0]), ',')
    ensures ParseCsv(Join(lines, '\n')) == Some(table)
  {
    LineReadsBack(lines[0], table[0], quoted[0]);
    ParseCsvAtEnd(lines[0], table[0]);
    assert lines == [lines[0]];
    assert table == [table[0]];
  }

  lemma FirstLineReadsBack(lines: seq<string>, table: seq<seq<string>>, quoted: seq<bool>)
    requires |lines| == |table| == |quoted| >= 2
    requires Writable(table[0], quoted[0])
    requires lines[0] == Join(Encode(table[0], quoted[0]), ',')
    requires ParseCsv(Join(lines[1..], '\n')) == Some(table[1..])
    ensures ParseCsv(Join(lines, '\n')) == Some(table)
  {
    JoinCons(lines, '\n');
    LineThenMoreReadsBack(Join(lines, '\n'), lines[0], table[0], quoted[0], Join(lines[1..], '\n'), table[1..]);
    Seqs.HeadTail(table);
  }

  lemma LineThenMoreReadsBack(whole: string, line: string, fields: seq<string>, quoted: bool, more: string, others: seq<seq<string>>)
    requires Writable(fields, quoted)
    requires line == Join(Encode(fields, quoted), ',')
    requires ParseCsv(more) == Some(others)
    requires whole == line + ['\n'] + more
    ensures ParseCsv(whole) == Some([fields] + others)
  {
    assert whole == line + (['\n'] + more);
    RecordReadsBack(fields, quoted, ['\n'] + more);
    ParseCsvOnLineFeed(whole, fields, more);
  }

  lemma HeaderIsPlain()
    ensures forall i :: 0 <= i < |HeaderFields| ==> Plain(HeaderFields[i])
  {
  }

  /** What a reader recovers from one record: the row's author, number,
      description and date as they were, and its two vote counts as decimal
      numerals of their values. */
  ghost predicate RowReadsBack(fs: seq<string>, r: Row) {
    && |fs| == |HeaderFields|
    && fs[0] == r.author && fs[1] == r.number && fs[2] == r.description
    && AllDigits(fs[3]) && ParseNat(fs[3]) == r.upVotes
    && AllDigits(fs[4]) && ParseNat(fs[4]) == r.downVotes
    && fs[5] == r.date
  }

  lemma FieldsReadBack(r: Row)
    ensures RowReadsBack(Fields(r), r)
  {
    ParseNatOfNatToString(r.upVotes);
    ParseNatOfNatToString(r.downVotes);
  }

  /** The report reads back as the header record followed by one record
      per row, in row order: quoting loses nothing, whatever commas, quotes
      or carriage returns the values hold. */
  lemma ToCsvReadsBack(rows: seq<Row>)
    ensures ParseCsv(ToCsv(rows)).Some?
    ensures var table := ParseCsv(ToCsv(rows)).value;
            && |table| == |rows| + 1
            && table[0] == HeaderFields
            && forall k :: 0 <= k < |rows| ==> RowReadsBack(table[k + 1], rows[k])
  {
    HeaderIsPlain();
    ReportLinesReadBack(HeaderFields, rows, ToCsv(rows));
    TableReadsBack(rows);
  }

  lemma TableReadsBack(rows: seq<Row>)
    ensures forall k :: 0 <= k < |rows| ==> RowReadsBack(Table(HeaderFields, rows)[k + 1], rows[k])
  {
    forall k | 0 <= k < |rows|
      ensures RowReadsBack(Table(HeaderFields, rows)[k + 1], rows[k])
    {
      FieldsReadBack(rows[k]);
    }
  }

  /** The records a report holds: the header, then each row's fields. */
  function Table(header: seq<string>, rows: seq<Row>): (t: seq<seq<string>>)
    ensures |t| == |rows| + 1 && t[0] == header
    ensures forall k :: 0 <= k < |rows| ==> t[k + 1] == Fields(rows[k])
  {
    [header] + FieldsOfRows(rows)
  }

  /** Which records are written quoted: all but the header. */
  function Quoting(n: nat): (q: seq<bool>)
    ensures |q| == n + 1 && !q[0]
    ensures forall k :: 1 <= k <= n ==> q[k]
  {
    [false] + AllTrue(n)
  }

  /** The lines of a report: the header joined as it is, then one line per
      row. */
  function Lines(header: seq<string>, rows: seq<Row>): (ls: seq<string>)
    ensures |ls| == |rows| + 1 && ls[0] == Join(header, ',')
    ensures forall k :: 0 <= k < |rows| ==> ls[k + 1] == RecordLine(rows[k])
  {
    Seqs.ConsIndex(Join(header, ','), RecordLines(rows));
    [Join(header, ',')] + RecordLines(rows)
  }

  /** A header that needs no quoting, followed by quoted rows, reads back as
      the header record and then each row's fields. */
  lemma ReportLinesReadBack(header: seq<string>, rows: seq<Row>, csv: string)
    requires |header| >= 1 && forall i :: 0 <= i < |header| ==> Plain(header[i])
    requires csv == Join(Lines(header, rows), '\n')
    ensures ParseCsv(csv) == Some(Table(header, rows))
  {
    ReportLinesAreRecords(header, rows);
    LinesReadBack(Lines(header, rows), Table(header, rows), Quoting(|rows|));
  }

  lemma ReportLinesAreRecords(header: seq<string>, rows: seq<Row>)
    requires |header| >= 1 && forall i :: 0 <= i < |header| ==> Plain(header[i])
    ensures forall i :: 0 <= i < |rows| + 1 ==> Writable(Table(header, rows)[i], Quoting(|rows|)[i])
    ensures forall i :: 0 <= i < |rows| + 1 ==>
              Lines(header, rows)[i] == Join(Encode(Table(header, rows)[i], Quoting(|rows|)[i]), ',')
  {
    forall i | 0 <= i < |rows| + 1
      ensures Writable(Table(header, rows)[i], Quoting(|rows|)[i])
      ensures Lines(header, rows)[i] == Join(Encode(Table(header, rows)[i], Quoting(|rows|)[i]), ',')
    {
      LineIsRecord(header, rows, i);
    }
  }

  lemma LineIsRecord(header: seq<string>, rows: seq<Row>, i: nat)
    requires |header| >= 1 && forall i :: 0 <= i < |header| ==> Plain(header[i])
    requires i < |rows| + 1
    ensures Writable(Table(header, rows)[i], Quoting(|rows|)[i])
    ensures Lines(header, rows)[i] == Join(Encode(Table(header, rows)[i], Quoting(|rows|)[i]), ',')
  {
    if i > 0 {
      RowLineIsRecord(rows[i - 1], Lines(header, rows)[i], Table(header, rows)[i]);
    }
  }

  lemma RowLineIsRecord(r: Row, line: string, fields: seq<string>)
    requires line == RecordLine(r) && fields == Fields(r)
    ensures Writable(fields, true) && line == Join(Encode(fields, true), ',')
  {
  }

  function FieldsOfRows(rows: seq<Row>): (t: seq<seq<string>>)
    ensures |t| == |rows|
    ensures forall k :: 0 <= k < |rows| ==> t[k] == Fields(rows[k])
  {
    seq(|rows|, k requires 0 <= k < |rows| => Fields(rows[k]))
  }

  function AllTrue(n: nat): (bs: seq<bool>)
    ensures |bs| == n
    ensures forall k :: 0 <= k < n ==> bs[k]
  {
    seq(n, k => true)
  }
}
