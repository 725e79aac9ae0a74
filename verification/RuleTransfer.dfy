/**
 Moving rules in and out as text: the plain-text export, the plain-text import parser and the
 deduplicating, transactional import.
 */
module RuleTransfer {
  import opened Text
  import opened Csv

  // ----- Lines of text -----

  /** Lines, each ended by a line feed. */
  function Unlines(lines: seq<string>): string {
    if lines == [] then "" else lines[0] + ("\n" + Unlines(lines[1..]))
  }

  lemma {:induction false} UnlinesAppend(a: seq<string>, b: seq<string>)
    ensures Unlines(a + b) == Unlines(a) + Unlines(b)
  {
    if a == [] {
      assert a + b == b;
    } else {
      assert (a + b)[1..] == a[1..] + b;
      UnlinesAppend(a[1..], b);
      Assoc("\n", Unlines(a[1..]), Unlines(b));
      Assoc(a[0], "\n" + Unlines(a[1..]), Unlines(b));
    }
  }

  lemma LinesStep(line: string, rest: string)
    requires '\n' !in line
    ensures Lines(line + ("\n" + rest)) == [DropCr(line)] + Lines(rest)
  {
    var s := line + ("\n" + rest);
    assert s[..|line|] == line;
    assert s[|line| + 1..] == rest;
    FindIs(s, '\n', |line|);
  }

  // ----- Plain-text import parsing -----

  predicate Skipped(t: string) { t == "" || t[0] == '#' }

  /** The entry of one line, if it has one. */
  function ParseLine(line: string): seq<string> {
    var t := Trim(line);
    if Skipped(t) then [] else [t]
  }

  function ParseLines(lines: seq<string>): seq<string> {
    if lines == [] then [] else ParseLine(lines[0]) + ParseLines(lines[1..])
  }

  /** The plain-text branch of the import parser. */
  function ParsePlain(content: string): seq<string> { ParseLines(Lines(content)) }

  lemma {:induction false} TrimLeftTail(d: string, c: char, blanks: set<char>)
    requires c in blanks
    ensures TrimLeft(d + [c], blanks) == if TrimLeft(d, blanks) == "" then "" else TrimLeft(d, blanks) + [c]
  {
    var s := d + [c];
    if d == "" {
      assert s[0] == c && s[1..] == "";
      assert TrimLeft(s, blanks) == TrimLeft("", blanks);
    } else {
      assert s[0] == d[0] && s[1..] == d[1..] + [c];
      if d[0] in blanks {
        TrimLeftTail(d[1..], c, blanks);
        assert TrimLeft(s, blanks) == TrimLeft(s[1..], blanks);
        assert TrimLeft(d, blanks) == TrimLeft(d[1..], blanks);
      } else {
        assert TrimLeft(s, blanks) == s && TrimLeft(d, blanks) == d;
      }
    }
  }

  /** A blank at the end is trimmed with the rest. */
  lemma TrimTail(d: string, c: char, blanks: set<char>)
    requires c in blanks
    ensures TrimRight(TrimLeft(d + [c], blanks), blanks) == TrimRight(TrimLeft(d, blanks), blanks)
  {
    TrimLeftTail(d, c, blanks);
    var t := TrimLeft(d, blanks);
    assert (t + [c])[..|t|] == t;
  }

  /** Dropping a carriage return at the end of a line never changes its entry. */
  lemma DropCrHarmless(line: string)
    ensures ParseLine(DropCr(line)) == ParseLine(line)
  {
    if line != "" && line[|line| - 1] == '\r' {
      var d := line[..|line| - 1];
      assert line == d + ['\r'];
      TrimTail(d, '\r', SPACES);
    }
  }

  lemma {:induction false} ParseUnlines(lines: seq<string>)
    requires forall l :: l in lines ==> '\n' !in l
    ensures ParsePlain(Unlines(lines)) == ParseLines(lines)
  {
    if lines != [] {
      assert lines[0] in lines;
      assert forall l :: l in lines[1..] ==> l in lines;
      LinesStep(lines[0], Unlines(lines[1..]));
      DropCrHarmless(lines[0]);
      ParseUnlines(lines[1..]);
      assert ([DropCr(lines[0])] + Lines(Unlines(lines[1..])))[1..] == Lines(Unlines(lines[1..]));
    }
  }

  lemma {:induction false} ParseAppend(a: seq<string>, b: seq<string>)
    ensures ParseLines(a + b) == ParseLines(a) + ParseLines(b)
  {
    if a == [] {
      assert a + b == b;
    } else {
      assert (a + b)[1..] == a[1..] + b;
      ParseAppend(a[1..], b);
    }
  }

  // ----- Text export -----

  /** The lines written for one rule. */
  function RuleLines(r: RuleRow): seq<string> {
    (if r.comment.Some? && r.comment.value != "" then ["# " + r.comment.value] else [])
    + [if r.isEnabled then r.rule else "# (disabled) " + r.rule]
  }

  function Body(rows: seq<RuleRow>): seq<string> {
    if rows == [] then [] else Body(rows[..|rows| - 1]) + RuleLines(rows[|rows| - 1])
  }

  function Preamble(exportedAt: string): seq<string> {
    ["# Rust DNS \U{2014} custom rules export", "# Exported: " + exportedAt, ""]
  }

  /** The text branch of `export_rules`. */
  method ExportText(rows: seq<RuleRow>, exportedAt: string) returns (txt: string)
    ensures txt == Unlines(Preamble(exportedAt) + Body(rows))
    ensures '\n' !in exportedAt ==> (ParsePlain(txt) == EnabledRules(rows) <==> forall r :: r in rows ==> Carried(r))
  {
    txt := WriteText(rows, exportedAt);
    if '\n' !in exportedAt {
      TextRoundTrip(rows, exportedAt);
    }
  }

  method WriteText(rows: seq<RuleRow>, exportedAt: string) returns (txt: string)
    ensures txt == Unlines(Preamble(exportedAt) + Body(rows))
  {
    txt := "# Rust DNS \U{2014} custom rules export\n";
    txt := txt + ("# Exported: " + exportedAt + "\n\n");
    PreambleText(exportedAt);
    for i := 0 to |rows|
      invariant txt == Unlines(Preamble(exportedAt) + Body(rows[..i]))
    {
      var lines := RowText(rows[i]);
      assert rows[..i + 1][..i] == rows[..i];
      assert Preamble(exportedAt) + Body(rows[..i + 1]) ==
             (Preamble(exportedAt) + Body(rows[..i])) + RuleLines(rows[i]);
      UnlinesAppend(Preamble(exportedAt) + Body(rows[..i]), RuleLines(rows[i]));
      txt := txt + lines;
    }
    assert rows[..|rows|] == rows;
  }

  method RowText(r: RuleRow) returns (txt: string)
    ensures txt == Unlines(RuleLines(r))
  {
    txt := "";
    if r.comment.Some? && r.comment.value != "" {
      txt := txt + ("# " + r.comment.value + "\n");
    }
    if !r.isEnabled {
      txt := txt + ("# (disabled) " + r.rule + "\n");
    } else {
      txt := txt + (r.rule + "\n");
    }
    OneLine(if r.isEnabled then r.rule else "# (disabled) " + r.rule);
    if r.comment.Some? && r.comment.value != "" {
      OneLine("# " + r.comment.value);
      UnlinesAppend(["# " + r.comment.value], [if r.isEnabled then r.rule else "# (disabled) " + r.rule]);
    } else {
      assert RuleLines(r) == [if r.isEnabled then r.rule else "# (disabled) " + r.rule];
    }
  }

  lemma OneLine(l: string)
    ensures Unlines([l]) == l + "\n"
  {
    assert Unlines([l]) == l + ("\n" + Unlines([l][1..]));
  }

  lemma PreambleText(exportedAt: string)
    ensures Unlines(Preamble(exportedAt) + Body([])) ==
            "# Rust DNS \U{2014} custom rules export\n" + ("# Exported: " + exportedAt + "\n\n")
  {
    var a, b := "# Rust DNS \U{2014} custom rules export", "# Exported: " + exportedAt;
    assert Preamble(exportedAt) + Body([]) == [a, b, ""];
    ThreeLines(a, b);
    assert a + "\n" == "# Rust DNS \U{2014} custom rules export\n";
  }

  lemma ThreeLines(a: string, b: string)
    ensures Unlines([a, b, ""]) == (a + "\n") + (b + "\n\n")
  {
    assert [a, b, ""] == [a] + ([b] + [""]);
    UnlinesAppend([a], [b] + [""]);
    UnlinesAppend([b], [""]);
    OneLine(a);
    OneLine(b);
    OneLine("");
    assert (b + "\n") + ("" + "\n") == b + "\n\n";
  }

  // ----- The round trip -----

  /** A rule one line of text can carry: trimmed, non-empty and no comment. */
  predicate Portable(rule: string) { Trim(rule) == rule && !Skipped(rule) }

  /** Every line of the text after its first is blank or a comment. */
  predicate Silent(text: string) {
    var lines := Split(text, '\n');
    forall i :: 1 <= i < |lines| ==> Skipped(Trim(lines[i]))
  }

  /** The text form carries the row: an enabled rule comes back as it is, nothing else comes back. */
  predicate Carried(r: RuleRow) {
    && (r.comment.Some? ==> Silent(r.comment.value))
    && if r.isEnabled then Portable(r.rule) && '\n' !in r.rule else Silent(r.rule)
  }

  function EnabledRules(rows: seq<RuleRow>): seq<string> {
    if rows == [] then []
    else
      var n := |rows| - 1;
      EnabledRules(rows[..n]) + if rows[n].isEnabled then [rows[n].rule] else []
  }

  // ----- Lines with line feeds in them -----

  /** The lines a reader sees: each written line cut at its line feeds. */
  function Pieces(lines: seq<string>): seq<string> {
    if lines == [] then [] else Split(lines[0], '\n') + Pieces(lines[1..])
  }

  lemma {:induction false} UnlinesJoin(parts: seq<string>)
    requires parts != []
    ensures Unlines(parts) == Join(parts, "\n") + "\n"
  {
    if |parts| == 1 {
      assert parts == [parts[0]];
      OneLine(parts[0]);
    } else {
      UnlinesJoin(parts[1..]);
      Assoc(parts[0], "\n", Join(parts[1..], "\n") + "\n");
      Assoc(parts[0] + "\n", Join(parts[1..], "\n"), "\n");
    }
  }

  lemma UnlinesSplit(line: string)
    ensures Unlines(Split(line, '\n')) == line + "\n"
  {
    JoinSplit(line, '\n');
    UnlinesJoin(Split(line, '\n'));
  }

  lemma {:induction false} UnlinesPieces(lines: seq<string>)
    ensures Unlines(Pieces(lines)) == Unlines(lines)
    ensures forall l :: l in Pieces(lines) ==> '\n' !in l
  {
    if lines != [] {
      UnlinesPieces(lines[1..]);
      UnlinesSplit(lines[0]);
      SplitParts(lines[0], '\n');
      UnlinesAppend(Split(lines[0], '\n'), Pieces(lines[1..]));
      Assoc(lines[0], "\n", Unlines(lines[1..]));
    }
  }

  /** The entries of one written line. */
  function Entries(line: string): seq<string> { ParseLines(Split(line, '\n')) }

  function EntriesOf(lines: seq<string>): seq<string> {
    if lines == [] then [] else Entries(lines[0]) + EntriesOf(lines[1..])
  }

  lemma {:induction false} PiecesParse(lines: seq<string>)
    ensures ParseLines(Pieces(lines)) == EntriesOf(lines)
  {
    if lines != [] {
      PiecesParse(lines[1..]);
      ParseAppend(Split(lines[0], '\n'), Pieces(lines[1..]));
    }
  }

  /** Reading written lines back reads each of them on its own, line feeds or not. */
  lemma WrittenParse(lines: seq<string>)
    ensures ParsePlain(Unlines(lines)) == EntriesOf(lines)
  {
    UnlinesPieces(lines);
    ParseUnlines(Pieces(lines));
    PiecesParse(lines);
  }

  lemma {:induction false} EntriesAppend(a: seq<string>, b: seq<string>)
    ensures EntriesOf(a + b) == EntriesOf(a) + EntriesOf(b)
  {
    if a == [] {
      assert a + b == b;
    } else {
      assert (a + b)[1..] == a[1..] + b;
      EntriesAppend(a[1..], b);
    }
  }

  lemma OneEntry(l: string)
    ensures EntriesOf([l]) == Entries(l)
  {
    assert [l][1..] == [];
  }

  lemma HashStays(line: string, blanks: set<char>)
    requires line != "" && line[0] == '#' && '#' !in blanks
    ensures var t := TrimRight(TrimLeft(line, blanks), blanks); t != "" && t[0] == '#'
  {
    assert TrimLeft(line, blanks) == line;
  }

  lemma CommentLine(line: string)
    requires line != "" && line[0] == '#'
    ensures ParseLine(line) == []
  {
    HashStays(line, SPACES);
  }

  /** Text in front of the first line feed stays with the first line. */
  lemma {:induction false} SplitBehind(mark: string, text: string, lines: seq<string>)
    requires '\n' !in mark && lines == Split(text, '\n')
    ensures Split(mark + text, '\n') == [mark + lines[0]] + lines[1..]
  {
    if mark == "" {
      assert mark + text == text && mark + lines[0] == lines[0];
    } else {
      var x, rest := mark[0], mark[1..];
      assert x in mark && mark == [x] + rest;
      SplitBehind(rest, text, lines);
      SplitFirst(x, rest + text, '\n');
      Assoc([x], rest, text);
      Assoc([x], rest, lines[0]);
      assert ([rest + lines[0]] + lines[1..])[1..] == lines[1..];
    }
  }

  lemma {:induction false} NothingParsed(lines: seq<string>)
    ensures ParseLines(lines) == [] <==> forall l :: l in lines ==> Skipped(Trim(l))
  {
    if lines != [] {
      NothingParsed(lines[1..]);
      assert forall l :: l in lines <==> l == lines[0] || l in lines[1..];
    }
  }

  lemma LaterLines(lines: seq<string>)
    requires lines != []
    ensures (forall l :: l in lines[1..] ==> Skipped(Trim(l))) <==>
            forall i :: 1 <= i < |lines| ==> Skipped(Trim(lines[i]))
  {
    assert forall i :: 1 <= i < |lines| ==> lines[i] in lines[1..];
    forall l | l in lines[1..] ensures exists i :: 1 <= i < |lines| && lines[i] == l {
      var j :| 0 <= j < |lines[1..]| && lines[1..][j] == l;
      assert lines[j + 1] == l;
    }
  }

  /** A commented text gives nothing exactly when it is silent. */
  lemma CommentedText(mark: string, text: string)
    requires mark != "" && mark[0] == '#' && '\n' !in mark
    ensures Entries(mark + text) == [] <==> Silent(text)
  {
    var lines := Split(text, '\n');
    SplitBehind(mark, text, lines);
    CommentLine(mark + lines[0]);
    assert ([mark + lines[0]] + lines[1..])[1..] == lines[1..];
    NothingParsed(lines[1..]);
    LaterLines(lines);
  }

  /** What can come back: trimmed, non-empty, no comment and no line feed. */
  predicate Readable(x: string) { Portable(x) && '\n' !in x }

  lemma {:induction false} AllReadable(lines: seq<string>)
    requires forall l :: l in lines ==> '\n' !in l
    ensures forall x :: x in ParseLines(lines) ==> Readable(x)
  {
    if lines != [] {
      assert lines[0] in lines;
      assert forall l :: l in lines[1..] ==> l in lines;
      AllReadable(lines[1..]);
      TrimIdempotent(lines[0]);
      TrimWithin(lines[0], '\n');
    }
  }

  lemma TrimWithin(s: string, c: char)
    requires c !in s
    ensures c !in Trim(s)
  {
    var t := TrimLeft(s, SPACES);
    assert forall i :: 0 <= i < |t| ==> t[i] == s[|s| - |t| + i];
  }

  lemma ReadableEntries(rule: string)
    requires Readable(rule)
    ensures Entries(rule) == [rule]
  {
    SplitNoSeparator(rule, '\n');
    assert ParseLines([rule]) == ParseLine(rule) + ParseLines([rule][1..]);
  }

  // ----- Rows -----

  /** What a row gives back besides its rule, if it is enabled. */
  function Stray(r: RuleRow): seq<string> {
    (if r.comment.Some? && r.comment.value != "" then Entries("# " + r.comment.value) else [])
    + if r.isEnabled then [] else Entries("# (disabled) " + r.rule)
  }

  lemma RowEntries(r: RuleRow)
    ensures EntriesOf(RuleLines(r)) == Stray(r) + if r.isEnabled then Entries(r.rule) else []
  {
    var last := if r.isEnabled then r.rule else "# (disabled) " + r.rule;
    OneEntry(last);
    if r.comment.Some? && r.comment.value != "" {
      var c := "# " + r.comment.value;
      OneEntry(c);
      EntriesAppend([c], [last]);
    } else {
      assert RuleLines(r) == [last];
    }
  }

  /** A row gives nothing stray exactly when its comment and a disabled rule are silent. */
  lemma StrayFree(r: RuleRow)
    ensures Stray(r) == [] <==> (r.comment.Some? ==> Silent(r.comment.value)) && (!r.isEnabled ==> Silent(r.rule))
  {
    if r.comment.Some? {
      CommentedText("# ", r.comment.value);
      assert Split("", '\n') == [""];
    }
    CommentedText("# (disabled) ", r.rule);
  }

  function StrayCount(rows: seq<RuleRow>): nat {
    if rows == [] then 0 else StrayCount(rows[..|rows| - 1]) + |Stray(rows[|rows| - 1])|
  }

  lemma {:induction false} NoStray(rows: seq<RuleRow>)
    ensures StrayCount(rows) == 0 <==> forall r :: r in rows ==> Stray(r) == []
  {
    if rows != [] {
      var n := |rows| - 1;
      NoStray(rows[..n]);
      assert forall r :: r in rows <==> r in rows[..n] || r == rows[n];
    }
  }

  function OwnRule(r: RuleRow): seq<string> { if r.isEnabled then [r.rule] else [] }

  lemma RowGives(r: RuleRow)
    requires r.isEnabled ==> Readable(r.rule)
    ensures EntriesOf(RuleLines(r)) == Stray(r) + OwnRule(r)
  {
    RowEntries(r);
    if r.isEnabled { ReadableEntries(r.rule); }
  }

  lemma BodySnoc(rows: seq<RuleRow>, r: RuleRow)
    requires r.isEnabled ==> Readable(r.rule)
    ensures EntriesOf(Body(rows + [r])) == EntriesOf(Body(rows)) + (Stray(r) + OwnRule(r))
    ensures EnabledRules(rows + [r]) == EnabledRules(rows) + OwnRule(r)
    ensures StrayCount(rows + [r]) == StrayCount(rows) + |Stray(r)|
  {
    assert (rows + [r])[..|rows|] == rows;
    EntriesAppend(Body(rows), RuleLines(r));
    RowGives(r);
  }

  /** With every enabled rule readable, parsing gives each of them, and the stray entries on top. */
  lemma {:induction false} BodyEntries(rows: seq<RuleRow>)
    requires forall r :: r in rows && r.isEnabled ==> Readable(r.rule)
    ensures |EntriesOf(Body(rows))| == |EnabledRules(rows)| + StrayCount(rows)
    ensures StrayCount(rows) == 0 ==> EntriesOf(Body(rows)) == EnabledRules(rows)
  {
    if rows != [] {
      var rest, r := rows[..|rows| - 1], rows[|rows| - 1];
      assert rows == rest + [r] && r in rows && forall x :: x in rest ==> x in rows;
      BodyEntries(rest);
      BodySnoc(rest, r);
    }
  }

  lemma {:induction false} EnabledMember(rows: seq<RuleRow>, r: RuleRow)
    requires r in rows && r.isEnabled
    ensures r.rule in EnabledRules(rows)
  {
    var n := |rows| - 1;
    if rows[n] != r {
      assert r in rows[..n];
      EnabledMember(rows[..n], r);
    }
  }

  lemma {:induction false} EntriesReadable(lines: seq<string>)
    ensures forall x :: x in EntriesOf(lines) ==> Readable(x)
  {
    UnlinesPieces(lines);
    AllReadable(Pieces(lines));
    PiecesParse(lines);
  }

  lemma ThreeSilent(a: string, b: string)
    requires Entries(a) == [] && Entries(b) == []
    ensures EntriesOf([a, b, ""]) == []
  {
    assert [a, b, ""][1..] == [b, ""] && [b, ""][1..] == [""] && [""][1..] == [];
    assert Entries("") == [] by {
      assert Split("", '\n') == [""];
      assert ParseLines([""]) == ParseLine("") + ParseLines([""][1..]);
    }
    OneEntry("");
    assert EntriesOf([b, ""]) == Entries(b) + EntriesOf([""]);
    assert EntriesOf([a, b, ""]) == Entries(a) + EntriesOf([b, ""]);
  }

  predicate CommentHead(line: string) { line != "" && line[0] == '#' && '\n' !in line }

  lemma PreambleHeads(exportedAt: string, lines: seq<string>)
    requires '\n' !in exportedAt && lines == Preamble(exportedAt)
    ensures |lines| == 3 && CommentHead(lines[0]) && CommentHead(lines[1]) && lines[2] == ""
  {
  }

  lemma HeadsSilent(lines: seq<string>)
    requires |lines| == 3 && CommentHead(lines[0]) && CommentHead(lines[1]) && lines[2] == ""
    ensures EntriesOf(lines) == []
  {
    HeadSilent(lines[0]);
    HeadSilent(lines[1]);
    ThreeSilent(lines[0], lines[1]);
    assert lines == [lines[0], lines[1], ""];
  }

  lemma HeadSilent(line: string)
    requires CommentHead(line)
    ensures Entries(line) == []
  {
    SplitNoSeparator(line, '\n');
    CommentLine(line);
    assert ParseLines([line]) == ParseLine(line) + ParseLines([line][1..]);
  }

  lemma ExportEntries(rows: seq<RuleRow>, exportedAt: string)
    requires '\n' !in exportedAt
    ensures ParsePlain(Unlines(Preamble(exportedAt) + Body(rows))) == EntriesOf(Body(rows))
  {
    var head := Preamble(exportedAt);
    WrittenParse(head + Body(rows));
    EntriesAppend(head, Body(rows));
    PreambleHeads(exportedAt, head);
    HeadsSilent(head);
  }

  /** If the enabled rules come back, each of them can be read back: entries always can. */
  lemma OnlyReadable(rows: seq<RuleRow>)
    requires EntriesOf(Body(rows)) == EnabledRules(rows)
    ensures forall r :: r in rows && r.isEnabled ==> Readable(r.rule)
  {
    EntriesReadable(Body(rows));
    forall r | r in rows && r.isEnabled ensures Readable(r.rule) {
      EnabledMember(rows, r);
    }
  }

  lemma CarriedParts(rows: seq<RuleRow>)
    ensures (forall r :: r in rows ==> Carried(r)) <==>
            (forall r :: r in rows && r.isEnabled ==> Readable(r.rule)) && StrayCount(rows) == 0
  {
    NoStray(rows);
    forall r | r in rows ensures Carried(r) <==> Stray(r) == [] && (r.isEnabled ==> Readable(r.rule)) {
      StrayFree(r);
    }
  }

  /**
   Importing the exported text gives exactly the enabled rules in order if and only if each of them
   is one trimmed, non-empty line that is no comment, and every further line of a comment or of a
   disabled rule is blank or a comment.
   */
  lemma TextRoundTrip(rows: seq<RuleRow>, exportedAt: string)
    requires '\n' !in exportedAt
    ensures ParsePlain(Unlines(Preamble(exportedAt) + Body(rows))) == EnabledRules(rows) <==>
            forall r :: r in rows ==> Carried(r)
  {
    ExportEntries(rows, exportedAt);
    CarriedParts(rows);
    if EntriesOf(Body(rows)) == EnabledRules(rows) {
      OnlyReadable(rows);
      BodyEntries(rows);
    }
    if forall r :: r in rows ==> Carried(r) {
      BodyEntries(rows);
    }
  }

  // ----- Import -----

  /** The rules an import adds: trimmed, non-empty, new to the table, each once, in order. */
  function NewRules(entries: seq<string>, existing: seq<string>): seq<string> {
    if entries == [] then []
    else
      var n := |entries| - 1;
      var before, rule := NewRules(entries[..n], existing), Trim(entries[n]);
      if rule == "" || rule in existing || rule in before then before else before + [rule]
  }

  lemma NewRulesStep(entries: seq<string>, i: nat, existing: seq<string>)
    requires i < |entries|
    ensures var before, rule := NewRules(entries[..i], existing), Trim(entries[i]);
            NewRules(entries[..i + 1], existing) ==
              if rule == "" || rule in existing + before then before else before + [rule]
  {
    assert entries[..i + 1][..i] == entries[..i];
  }

  /** Some entry reads as the rule. */
  predicate Offered(entries: seq<string>, rule: string) { exists e :: e in entries && Trim(e) == rule }

  lemma OfferedSnoc(entries: seq<string>, rule: string)
    requires entries != []
    ensures var n := |entries| - 1;
            Offered(entries, rule) <==> Offered(entries[..n], rule) || Trim(entries[n]) == rule
  {
    var n := |entries| - 1;
    assert entries[n] in entries;
    if Offered(entries[..n], rule) {
      var e :| e in entries[..n] && Trim(e) == rule;
      assert e in entries;
    }
    if Offered(entries, rule) {
      var e :| e in entries && Trim(e) == rule;
      assert e in entries[..n] || e == entries[n];
    }
  }

  predicate Distinct(r: seq<string>) { forall i, j :: 0 <= i < j < |r| ==> r[i] != r[j] }

  lemma DistinctSnoc(r: seq<string>, x: string)
    requires Distinct(r) && x !in r
    ensures Distinct(r + [x])
  {
  }

  lemma {:induction false} NewRulesDistinct(entries: seq<string>, existing: seq<string>)
    ensures Distinct(NewRules(entries, existing))
  {
    if entries != [] {
      var before := NewRules(entries[..|entries| - 1], existing);
      NewRulesDistinct(entries[..|entries| - 1], existing);
      if NewRules(entries, existing) != before {
        DistinctSnoc(before, Trim(entries[|entries| - 1]));
      }
    }
  }

  lemma {:induction false} NewRulesMember(entries: seq<string>, existing: seq<string>, x: string)
    ensures x in NewRules(entries, existing) <==> x != "" && x !in existing && Offered(entries, x)
  {
    if entries != [] {
      NewRulesMember(entries[..|entries| - 1], existing, x);
      OfferedSnoc(entries, x);
    }
  }

  /** Distinct, and exactly the offered rules that are not empty and not there yet. */
  lemma NewRulesSound(entries: seq<string>, existing: seq<string>)
    ensures var r := NewRules(entries, existing);
            && Distinct(r)
            && (forall x :: x in r <==> x != "" && x !in existing && Offered(entries, x))
  {
    NewRulesDistinct(entries, existing);
    forall x { NewRulesMember(entries, existing, x); }
  }

  datatype ImportResult = NoRules | DbError | Done(imported: nat, skipped: nat, total: nat)

  /** The statements sent for one rule: none if it is empty, one look, and one more if it is new. */
  function Cost(rule: string, known: seq<string>): nat { if rule == "" then 0 else if rule in known then 1 else 2 }

  /** The statements of the transaction. */
  function Statements(entries: seq<string>, existing: seq<string>): nat {
    if entries == [] then 0
    else
      var n := |entries| - 1;
      Statements(entries[..n], existing) + Cost(Trim(entries[n]), existing + NewRules(entries[..n], existing))
  }

  lemma StatementsStep(entries: seq<string>, i: nat, existing: seq<string>, rule: string, known: seq<string>)
    requires i < |entries| && rule == Trim(entries[i]) && known == existing + NewRules(entries[..i], existing)
    ensures Statements(entries[..i + 1], existing) == Statements(entries[..i], existing) + Cost(rule, known)
  {
    assert entries[..i + 1][..i] == entries[..i];
  }

  lemma {:induction false} StatementsGrow(entries: seq<string>, i: nat, existing: seq<string>)
    requires i <= |entries|
    ensures Statements(entries[..i], existing) <= Statements(entries, existing)
    decreases |entries| - i
  {
    if i == |entries| {
      assert entries[..i] == entries;
    } else {
      StatementsGrow(entries, i + 1, existing);
      StatementsStep(entries, i, existing, Trim(entries[i]), existing + NewRules(entries[..i], existing));
    }
  }

  /** The calls of an import all succeed: opening the transaction, its statements and the commit. */
  ghost predicate AllWork(works: nat -> bool, entries: seq<string>, existing: seq<string>) {
    works(0) && Works(works, 1, Statements(entries, existing)) && works(Statements(entries, existing) + 1)
  }

  class RuleStore {
    /** The rule column of the table. */
    var rules: seq<string>

    constructor ()
      ensures rules == []
    {
      rules := [];
    }

    /**
     Parsed entries are added in one transaction. `works` says which database calls succeed. The import
     succeeds exactly when there are entries and every call it makes does; otherwise nothing changes. On
     success the counts add up and exactly the new rules are appended.
     */
    method Import(entries: seq<string>, works: nat -> bool) returns (r: ImportResult)
      modifies this
      ensures !r.Done? ==> rules == old(rules)
      ensures r.NoRules? <==> entries == []
      ensures r.Done? ==>
                && r.imported + r.skipped == r.total == |entries|
                && rules == old(rules) + NewRules(entries, old(rules))
                && r.imported == |NewRules(entries, old(rules))|
      ensures r.Done? <==> entries != [] && AllWork(works, entries, old(rules))
    {
      if entries == [] { return NoRules; }
      if !works(0) { return DbError; }
      var ok, pending, imported, calls := Insert(entries, rules, works);
      if !ok { return DbError; }
      if !works(calls) { return DbError; }
      rules := pending;
      return Done(imported, |entries| - imported, |entries|);
    }
  }

  /** Calls `from` on, `count` of them, all succeed. */
  ghost predicate Works(works: nat -> bool, from: nat, count: nat) {
    forall k: nat :: from <= k < from + count ==> works(k)
  }

  /** One entry of the loop: whether its rule is added, and the calls made so far. */
  method InsertOne(rule: string, known: seq<string>, works: nat -> bool, calls: nat)
    returns (ok: bool, added: bool, calls': nat)
    ensures ok <==> Works(works, calls, Cost(rule, known))
    ensures ok ==> calls' == calls + Cost(rule, known) && (added <==> rule != "" && rule !in known)
  {
    ok, added, calls' := true, false, calls;
    if rule != "" {
      if !works(calls') { return false, added, calls'; }
      calls' := calls' + 1;
      if rule !in known {
        if !works(calls') { return false, added, calls'; }
        calls' := calls' + 1;
        added := true;
      }
    }
  }

  lemma WorksSplit(works: nat -> bool, from: nat, a: nat, b: nat)
    ensures Works(works, from, a + b) <==> Works(works, from, a) && Works(works, from + a, b)
  {
  }

  /** The loop has handled `entries`: what would be committed, the new rules and the calls so far. */
  ghost predicate Handled(entries: seq<string>, existing: seq<string>, pending: seq<string>, imported: nat,
                          calls: nat) {
    && pending == existing + NewRules(entries, existing) && imported == |NewRules(entries, existing)|
    && calls == Statements(entries, existing) + 1
  }

  lemma HandledStep(entries: seq<string>, i: nat, existing: seq<string>, pending: seq<string>, imported: nat,
                    calls: nat, rule: string, added: bool)
    requires i < |entries| && Handled(entries[..i], existing, pending, imported, calls) && rule == Trim(entries[i])
    requires added <==> rule != "" && rule !in pending
    ensures Handled(entries[..i + 1], existing, if added then pending + [rule] else pending,
                    if added then imported + 1 else imported, calls + Cost(rule, pending))
  {
    NewRulesStep(entries, i, existing);
    StatementsStep(entries, i, existing, rule, pending);
    var more := NewRules(entries[..i], existing);
    if added { assert existing + (more + [rule]) == (existing + more) + [rule]; }
  }

  /** A statement of the loop that fails is one of those the import needs. */
  lemma FailureCounts(entries: seq<string>, i: nat, existing: seq<string>, pending: seq<string>, imported: nat,
                      calls: nat, rule: string, works: nat -> bool)
    requires i < |entries| && Handled(entries[..i], existing, pending, imported, calls) && rule == Trim(entries[i])
    requires !Works(works, calls, Cost(rule, pending))
    ensures !Works(works, 1, Statements(entries, existing))
  {
    StatementsStep(entries, i, existing, rule, pending);
    StatementsGrow(entries, i + 1, existing);
    var k: nat :| calls <= k < calls + Cost(rule, pending) && !works(k);
  }

  /** The loop of the transaction: the table as it would be committed, and how many rules are new. */
  method Insert(entries: seq<string>, existing: seq<string>, works: nat -> bool)
    returns (ok: bool, pending: seq<string>, imported: nat, calls: nat)
    ensures ok <==> Works(works, 1, Statements(entries, existing))
    ensures ok ==> Handled(entries, existing, pending, imported, calls) && imported <= |entries|
  {
    ok, imported, calls, pending := true, 0, 1, existing;
    var skipped := 0;
    for i := 0 to |entries|
      invariant ok && imported + skipped == i
      invariant Handled(entries[..i], existing, pending, imported, calls) && Works(works, 1, calls - 1)
    {
      var rule := Trim(entries[i]);
      var added, calls';
      ok, added, calls' := InsertOne(rule, pending, works, calls);
      if !ok {
        FailureCounts(entries, i, existing, pending, imported, calls, rule, works);
        return;
      }
      HandledStep(entries, i, existing, pending, imported, calls, rule, added);
      WorksSplit(works, 1, calls - 1, Cost(rule, pending));
      calls := calls';
      if added { pending, imported := pending + [rule], imported + 1; } else { skipped := skipped + 1; }
    }
    assert entries[..|entries|] == entries;
  }

  /** After an import, every entry is empty or in the table, so nothing in it is new. */
  lemma {:induction false} NothingNew(entries: seq<string>, existing: seq<string>)
    requires forall e :: e in entries ==> Trim(e) == "" || Trim(e) in existing
    ensures NewRules(entries, existing) == []
  {
    if entries != [] {
      var n := |entries| - 1;
      assert entries[n] in entries;
      assert forall e :: e in entries[..n] ==> e in entries;
      NothingNew(entries[..n], existing);
    }
  }

  /**
   Importing the same file twice: the table has its new rules once if either import succeeds, and is as
   before if neither does. A second success imports nothing.
   */
  method ImportTwice(store: RuleStore, content: string, works: nat -> bool, again: nat -> bool)
    returns (first: ImportResult, second: ImportResult)
    modifies store
    ensures first.Done? <==> ParsePlain(content) != [] && AllWork(works, ParsePlain(content), old(store.rules))
    ensures first.Done? && second.Done? ==> second.imported == 0 && second.skipped == first.total
    ensures store.rules == old(store.rules) + if first.Done? || second.Done?
                                              then NewRules(ParsePlain(content), old(store.rules)) else []
  {
    var entries := ParsePlain(content);
    ghost var before := store.rules;
    first := store.Import(entries, works);
    ghost var middle := store.rules;
    second := store.Import(entries, again);
    if first.Done? {
      NewRulesSound(entries, before);
      forall e | e in entries ensures Trim(e) == "" || Trim(e) in middle {
        if Trim(e) != "" && Trim(e) !in before {
          assert Offered(entries, Trim(e));
          assert Trim(e) in NewRules(entries, before);
        }
      }
      NothingNew(entries, middle);
    }
  }
}
