/**
 CSV export: the escaping of fields, the assembly of rows, and a reader following rules 5 to 7
 of section 2 of RFC 4180 (with LF record ends) that recovers every field.
 */
module Csv {
  import opened Text
  import opened Decimal

  // ----- Writing -----

  /** `replace("\"", "\"\"")`. */
  function DoubleQuotes(s: string): string {
    if s == "" then "" else (if s[0] == '"' then "\"\"" else [s[0]]) + DoubleQuotes(s[1..])
  }

  predicate NeedsQuotes(s: string) { ',' in s || '"' in s || '\n' in s }

  function EscapeField(s: string): string {
    if NeedsQuotes(s) then "\"" + DoubleQuotes(s) + "\"" else s
  }

  function EscapeAll(row: seq<string>): (r: seq<string>)
    ensures |r| == |row|
  {
    seq(|row|, i requires 0 <= i < |row| => EscapeField(row[i]))
  }

  function RowLine(row: seq<string>): string { Join(EscapeAll(row), ",") + "\n" }

  function Render(rows: seq<seq<string>>): string {
    if rows == [] then "" else Render(rows[..|rows| - 1]) + RowLine(rows[|rows| - 1])
  }

  // ----- Reading -----

  /** The rest of a quoted field: its text and what follows the closing quote. */
  function ReadQuoted(s: string): (r: Option<(string, string)>)
    ensures r.Some? ==> |r.value.1| < |s|
    decreases |s|
  {
    if s == "" then None
    else if s[0] != '"' then
      match ReadQuoted(s[1..])
      case None => None
      case Some((t, rest)) => Some(([s[0]] + t, rest))
    else if |s| >= 2 && s[1] == '"' then
      match ReadQuoted(s[2..])
      case None => None
      case Some((t, rest)) => Some(("\"" + t, rest))
    else Some(("", s[1..]))
  }

  /** An unquoted field: up to the next comma or line end, and free of quotes. */
  function ReadPlain(s: string): (r: Option<(string, string)>)
    ensures r.Some? ==> |r.value.1| <= |s|
  {
    if s == "" || s[0] == ',' || s[0] == '\n' then Some(("", s))
    else if s[0] == '"' then None
    else
      match ReadPlain(s[1..])
      case None => None
      case Some((t, rest)) => Some(([s[0]] + t, rest))
  }

  function ReadField(s: string): (r: Option<(string, string)>)
    ensures r.Some? ==> |r.value.1| <= |s|
  {
    if s != "" && s[0] == '"' then ReadQuoted(s[1..]) else ReadPlain(s)
  }

  /** One record: fields separated by commas and ended by a line feed. */
  function ReadRecord(s: string): (r: Option<(seq<string>, string)>)
    ensures r.Some? ==> |r.value.1| < |s|
    decreases |s|
  {
    match ReadField(s)
    case None => None
    case Some((t, rest)) =>
      if rest == "" then None
      else if rest[0] == '\n' then Some(([t], rest[1..]))
      else if rest[0] == ',' then
        match ReadRecord(rest[1..])
        case None => None
        case Some((ts, rest')) => Some(([t] + ts, rest'))
      else None
  }

  function ReadTable(s: string): Option<seq<seq<string>>>
    decreases |s|
  {
    if s == "" then Some([])
    else
      match ReadRecord(s)
      case None => None
      case Some((row, rest)) =>
        match ReadTable(rest)
        case None => None
        case Some(rows) => Some([row] + rows)
  }

  // ----- The round trip -----

  lemma QuotedQuote(more: string)
    requires ReadQuoted(more).Some?
    ensures ReadQuoted("\"\"" + more) == Some(("\"" + ReadQuoted(more).value.0, ReadQuoted(more).value.1))
  {
    assert ("\"\"" + more)[2..] == more;
  }

  lemma QuotedChar(c: char, more: string)
    requires c != '"' && ReadQuoted(more).Some?
    ensures ReadQuoted([c] + more) == Some(([c] + ReadQuoted(more).value.0, ReadQuoted(more).value.1))
  {
    assert ([c] + more)[1..] == more;
  }

  lemma {:induction false} QuotedRoundTrip(v: string, rest: string)
    requires rest == "" || rest[0] != '"'
    ensures ReadQuoted(DoubleQuotes(v) + ("\"" + rest)) == Some((v, rest))
  {
    var tail := "\"" + rest;
    if v == "" {
      assert DoubleQuotes(v) + tail == tail;
      assert tail[1..] == rest;
    } else {
      var more := DoubleQuotes(v[1..]) + tail;
      QuotedRoundTrip(v[1..], rest);
      assert [v[0]] + v[1..] == v;
      if v[0] == '"' {
        Assoc("\"\"", DoubleQuotes(v[1..]), tail);
        QuotedQuote(more);
      } else {
        Assoc([v[0]], DoubleQuotes(v[1..]), tail);
        QuotedChar(v[0], more);
      }
    }
  }

  lemma {:induction false} PlainRoundTrip(v: string, rest: string)
    requires !NeedsQuotes(v)
    requires rest == "" || rest[0] == ',' || rest[0] == '\n'
    ensures ReadPlain(v + rest) == Some((v, rest))
  {
    if v == "" {
      assert v + rest == rest;
    } else {
      assert v[0] in v;
      assert (v + rest)[1..] == v[1..] + rest;
      PlainRoundTrip(v[1..], rest);
      assert [v[0]] + v[1..] == v;
    }
  }

  predicate FieldEnd(rest: string) { rest != "" && (rest[0] == ',' || rest[0] == '\n') }

  lemma QuotedField(v: string, rest: string, s: string)
    requires FieldEnd(rest) && NeedsQuotes(v) && s == EscapeField(v) + rest
    ensures ReadField(s) == Some((v, rest))
  {
    var body, tail := DoubleQuotes(v), "\"" + rest;
    assert s[0] == '"';
    assert s[1..] == body + tail;
    QuotedRoundTrip(v, rest);
  }

  lemma PlainField(v: string, rest: string, s: string)
    requires FieldEnd(rest) && !NeedsQuotes(v) && s == v + rest
    ensures ReadField(s) == Some((v, rest))
  {
    PlainRoundTrip(v, rest);
    assert s[0] == if v == "" then rest[0] else v[0];
    assert v != "" ==> v[0] in v;
  }

  /** A field is recovered whatever it holds: commas, quotes, line feeds or nothing. */
  lemma FieldRoundTrip(v: string, rest: string)
    requires FieldEnd(rest)
    ensures ReadField(EscapeField(v) + rest) == Some((v, rest))
  {
    if NeedsQuotes(v) {
      QuotedField(v, rest, EscapeField(v) + rest);
    } else {
      PlainField(v, rest, EscapeField(v) + rest);
    }
  }

  lemma LineStep(row: seq<string>)
    requires |row| > 1
    ensures RowLine(row) == EscapeField(row[0]) + ("," + RowLine(row[1..]))
  {
    assert EscapeAll(row)[1..] == EscapeAll(row[1..]);
  }

  lemma LastLine(row: seq<string>)
    requires |row| == 1
    ensures RowLine(row) == EscapeField(row[0]) + "\n"
  {
    assert EscapeAll(row) == [EscapeField(row[0])];
  }

  lemma {:induction false} RecordRoundTrip(row: seq<string>, rest: string)
    requires row != []
    ensures ReadRecord(RowLine(row) + rest) == Some((row, rest))
  {
    if |row| == 1 {
      LastLine(row);
      assert RowLine(row) + rest == EscapeField(row[0]) + ("\n" + rest);
      FieldRoundTrip(row[0], "\n" + rest);
      assert ("\n" + rest)[1..] == rest;
      assert [row[0]] == row;
    } else {
      LineStep(row);
      var more := RowLine(row[1..]) + rest;
      assert RowLine(row) + rest == EscapeField(row[0]) + ("," + more);
      FieldRoundTrip(row[0], "," + more);
      assert ("," + more)[1..] == more;
      RecordRoundTrip(row[1..], rest);
      assert [row[0]] + row[1..] == row;
    }
  }

  lemma {:induction false} RenderFirst(rows: seq<seq<string>>)
    requires rows != []
    ensures Render(rows) == RowLine(rows[0]) + Render(rows[1..])
  {
    var n := |rows| - 1;
    if n == 0 {
      assert rows[..0] == [] && rows[1..] == [];
    } else {
      RenderFirst(rows[..n]);
      var middle := rows[1..][..n - 1];
      assert rows[..n][1..] == middle;
      Assoc(RowLine(rows[0]), Render(middle), RowLine(rows[n]));
      assert Render(rows[1..]) == Render(middle) + RowLine(rows[n]);
    }
  }

  /** Every table whose rows have at least one column is read back exactly. */
  lemma {:induction false} TableRoundTrip(rows: seq<seq<string>>)
    requires forall r :: r in rows ==> r != []
    ensures ReadTable(Render(rows)) == Some(rows)
  {
    if rows != [] {
      assert rows[0] in rows;
      RenderFirst(rows);
      RecordRoundTrip(rows[0], Render(rows[1..]));
      assert forall r :: r in rows[1..] ==> r in rows;
      TableRoundTrip(rows[1..]);
      assert [rows[0]] + rows[1..] == rows;
      assert RowLine(rows[0]) != "";
    }
  }

  // ----- The two exports -----

  datatype RuleRow = RuleRow(
    id: string, rule: string, comment: Option<string>, isEnabled: bool, createdBy: string,
    createdAt: string, expiresAt: Option<string>)

  function OrEmpty(o: Option<string>): string { if o.Some? then o.value else "" }

  function Truth(b: bool): string { if b then "true" else "false" }

  /** What a reader should get for one rule. */
  function RuleFields(r: RuleRow): seq<string> {
    [r.id, r.rule, OrEmpty(r.comment), Truth(r.isEnabled), r.createdBy, r.createdAt, OrEmpty(r.expiresAt)]
  }

  const RULE_HEADER: seq<string> := ["id", "rule", "comment", "is_enabled", "created_by", "created_at", "expires_at"]

  function RuleTable(header: seq<string>, rows: seq<RuleRow>): seq<seq<string>> {
    [header] + seq(|rows|, i requires 0 <= i < |rows| => RuleFields(rows[i]))
  }

  lemma RenderSnoc(rows: seq<seq<string>>, row: seq<string>)
    ensures Render(rows + [row]) == Render(rows) + RowLine(row)
  {
    assert (rows + [row])[..|rows|] == rows;
  }

  predicate AllPlain(row: seq<string>) { forall f :: f in row ==> !NeedsQuotes(f) }

  /** A header of plain names is its own escaped row. */
  lemma PlainHeader(row: seq<string>)
    requires AllPlain(row)
    ensures Render([row]) == Join(row, ",") + "\n"
  {
    assert EscapeAll(row) == row;
    assert [row][..0] == [];
  }

  lemma RuleHeaderPlain()
    ensures AllPlain(RULE_HEADER)
  {
  }

  /** The CSV branch of `export_rules`: a reader recovers every field of every rule. */
  method ExportRules(rows: seq<RuleRow>) returns (csv: string)
    ensures ReadTable(csv) == Some(RuleTable(RULE_HEADER, rows))
  {
    RuleHeaderPlain();
    csv := RuleLines(RULE_HEADER, rows);
  }

  method RuleLines(header: seq<string>, rows: seq<RuleRow>) returns (csv: string)
    requires header != [] && AllPlain(header)
    ensures ReadTable(csv) == Some(RuleTable(header, rows))
  {
    csv := Join(header, ",") + "\n";
    PlainHeader(header);
    for i := 0 to |rows|
      invariant csv == Render(RuleTable(header, rows[..i]))
    {
      var line := RuleLine(rows[i]);
      TableSnoc(header, rows, i);
      RenderSnoc(RuleTable(header, rows[..i]), RuleFields(rows[i]));
      csv := csv + line;
    }
    assert rows[..|rows|] == rows;
    TableRoundTrip(RuleTable(header, rows));
  }

  lemma TableSnoc(header: seq<string>, rows: seq<RuleRow>, i: nat)
    requires i < |rows|
    ensures RuleTable(header, rows[..i + 1]) == RuleTable(header, rows[..i]) + [RuleFields(rows[i])]
  {
  }

  /** Text fields are escaped; the flag is printed as it is. */
  method RuleLine(r: RuleRow) returns (line: string)
    ensures line == RowLine(RuleFields(r))
  {
    var cells := [
      EscapeField(r.id), EscapeField(r.rule), EscapeField(OrEmpty(r.comment)),
      if r.isEnabled then "true" else "false",
      EscapeField(r.createdBy), EscapeField(r.createdAt), EscapeField(OrEmpty(r.expiresAt))];
    assert !NeedsQuotes(Truth(r.isEnabled));
    assert cells == EscapeAll(RuleFields(r));
    line := Join(cells, ",") + "\n";
  }

  /** A cell of the query-log export, as the row decodes. */
  datatype Cell = Str(s: Option<string>) | Int(i: Option<int>) | Absent

  function Printed(i: int): string { if i < 0 then "-" + Numeral(-i) else Numeral(i) }

  function CellText(c: Cell): string {
    match c
    case Str(s) => OrEmpty(s)
    case Int(i) => if i.Some? then Printed(i.value) else ""
    case Absent => ""
  }

  function CellTexts(row: seq<Cell>): (r: seq<string>)
    ensures |r| == |row|
  {
    seq(|row|, i requires 0 <= i < |row| => CellText(row[i]))
  }

  lemma IntegersPlain(i: int)
    ensures !NeedsQuotes(Printed(i))
  {
    var n := if i < 0 then -i else i;
    assert forall c :: c in Printed(i) ==> c == '-' || c in Numeral(n);
  }

  /** Only text cells are escaped; integers are written bare, which is their escaped form. */
  method CellValue(c: Cell) returns (value: string)
    ensures value == EscapeField(CellText(c))
  {
    match c
    case Str(s) => value := EscapeField(OrEmpty(s));
    case Int(n) =>
      value := if n.Some? then Printed(n.value) else "";
      if n.Some? { IntegersPlain(n.value); }
    case Absent => value := "";
  }

  lemma CellsSnoc(row: seq<Cell>, i: nat)
    requires i < |row|
    ensures EscapeAll(CellTexts(row[..i + 1])) == EscapeAll(CellTexts(row[..i])) + [EscapeField(CellText(row[i]))]
  {
  }

  method CellLine(row: seq<Cell>) returns (line: string)
    ensures line == RowLine(CellTexts(row))
  {
    var values: seq<string> := [];
    for i := 0 to |row|
      invariant values == EscapeAll(CellTexts(row[..i]))
    {
      var value := CellValue(row[i]);
      CellsSnoc(row, i);
      values := values + [value];
    }
    assert row[..|row|] == row;
    line := Join(values, ",") + "\n";
  }

  function LogTable(labels: seq<string>, rows: seq<seq<Cell>>): seq<seq<string>> {
    [labels] + seq(|rows|, i requires 0 <= i < |rows| => CellTexts(rows[i]))
  }

  lemma LogSnoc(labels: seq<string>, rows: seq<seq<Cell>>, i: nat)
    requires i < |rows|
    ensures LogTable(labels, rows[..i + 1]) == LogTable(labels, rows[..i]) + [CellTexts(rows[i])]
  {
  }

  lemma LogRowsNonEmpty(labels: seq<string>, rows: seq<seq<Cell>>)
    requires labels != [] && forall r :: r in rows ==> |r| == |labels|
    ensures forall r :: r in LogTable(labels, rows) ==> r != []
  {
    var table := LogTable(labels, rows);
    forall i | 0 <= i < |table| ensures table[i] != [] {
      if i > 0 { assert rows[i - 1] in rows; }
    }
  }

  /** The CSV branch of the query-log `export`; its fixed labels need no escaping. */
  method ExportLog(labels: seq<string>, rows: seq<seq<Cell>>) returns (csv: string)
    requires labels != [] && AllPlain(labels)
    requires forall r :: r in rows ==> |r| == |labels|
    ensures ReadTable(csv) == Some(LogTable(labels, rows))
  {
    csv := Join(labels, ",") + "\n";
    PlainHeader(labels);
    for i := 0 to |rows|
      invariant csv == Render(LogTable(labels, rows[..i]))
    {
      var line := CellLine(rows[i]);
      LogSnoc(labels, rows, i);
      RenderSnoc(LogTable(labels, rows[..i]), CellTexts(rows[i]));
      csv := csv + line;
    }
    assert rows[..|rows|] == rows;
    LogRowsNonEmpty(labels, rows);
    TableRoundTrip(LogTable(labels, rows));
  }
}
