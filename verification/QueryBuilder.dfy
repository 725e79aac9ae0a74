/**
 The advanced query builder: filters become SQL conditions with `?` marks and a list of
 bindings; the finished statement has its marks numbered in place.
 */
module QueryBuilders {
  import opened Text
  import opened SqlText

  // ----- Numbering the marks -----

  /** One pass over the text, each `?` becoming the next `$k`. */
  function Renumber(s: string, n: nat): string {
    if s == "" then ""
    else if s[0] == '?' then Dollar(n + 1) + Renumber(s[1..], n + 1)
    else [s[0]] + Renumber(s[1..], n)
  }

  function Marks(s: string): nat {
    if s == "" then 0 else (if s[0] == '?' then 1 else 0) + Marks(s[1..])
  }

  lemma {:induction false} MarksAppend(a: string, b: string)
    ensures Marks(a + b) == Marks(a) + Marks(b)
  {
    if a == "" {
      assert a + b == b;
    } else {
      assert (a + b)[1..] == a[1..] + b;
      MarksAppend(a[1..], b);
    }
  }

  lemma {:induction false} RenumberAppend(a: string, b: string, n: nat)
    ensures Renumber(a + b, n) == Renumber(a, n) + Renumber(b, n + Marks(a))
  {
    if a == "" {
      assert a + b == b;
    } else {
      var next := if a[0] == '?' then n + 1 else n;
      var glyph := if a[0] == '?' then Dollar(n + 1) else [a[0]];
      assert Renumber(a + b, n) == glyph + Renumber(a[1..] + b, next) by {
        assert (a + b)[1..] == a[1..] + b;
      }
      assert Renumber(a, n) == glyph + Renumber(a[1..], next);
      assert next + Marks(a[1..]) == n + Marks(a);
      RenumberAppend(a[1..], b, next);
      Assoc(glyph, Renumber(a[1..], next), Renumber(b, n + Marks(a)));
    }
  }

  lemma {:induction false} RenumberPlain(a: string, n: nat)
    requires '?' !in a
    ensures Renumber(a, n) == a && Marks(a) == 0
  {
    if a != "" {
      assert a[0] in a;
      RenumberPlain(a[1..], n);
    }
  }

  /** A first mark at `pos`: the text before it stays, it gets the next number. */
  lemma RenumberFirst(s: string, pos: nat, n: nat)
    requires pos < |s| && s[pos] == '?' && '?' !in s[..pos]
    ensures Renumber(s, n) == s[..pos] + Dollar(n + 1) + Renumber(s[pos + 1..], n + 1)
  {
    assert s == s[..pos] + s[pos..];
    RenumberAppend(s[..pos], s[pos..], n);
    RenumberPlain(s[..pos], n);
    assert s[pos..][1..] == s[pos + 1..];
  }

  lemma NoMark(k: nat)
    ensures '?' !in Dollar(k)
  {
  }

  lemma NoMarkLeft(done: string, rest: string)
    requires '?' !in done + rest
    ensures '?' !in rest
  {
    assert forall i :: 0 <= i < |rest| ==> rest[i] == (done + rest)[|done| + i];
  }

  lemma MarkInRest(done: string, rest: string, p: nat)
    requires '?' !in done && p < |done + rest| && (done + rest)[p] == '?' && '?' !in (done + rest)[..p]
    ensures |done| <= p && rest[p - |done|] == '?' && '?' !in rest[..p - |done|]
  {
    assert forall i :: 0 <= i < |done| ==> (done + rest)[i] == done[i];
    assert (done + rest)[..p] == done + rest[..p - |done|];
    NoMarkLeft(done, rest[..p - |done|]);
  }

  /** Finding the first mark of text whose front is already numbered. */
  lemma FirstMark(done: string, rest: string)
    requires '?' !in done
    ensures match Find(done + rest, '?')
            case None => '?' !in rest
            case Some(p) => |done| <= p && p - |done| < |rest| && rest[p - |done|] == '?' && '?' !in rest[..p - |done|]
  {
    match Find(done + rest, '?')
    case None => NoMarkLeft(done, rest);
    case Some(p) => MarkInRest(done, rest, p);
  }

  /** Replacing the first mark numbers it and moves the border past it. */
  lemma ReplaceFirst(done: string, rest: string, pos: nat, n: nat)
    returns (done': string, rest': string)
    requires '?' !in done
    requires Find(done + rest, '?') == Some(pos)
    ensures (done + rest)[..pos] + Dollar(n + 1) + (done + rest)[pos + 1..] == done' + rest'
    ensures '?' !in done' && |rest'| < |rest|
    ensures done + Renumber(rest, n) == done' + Renumber(rest', n + 1)
  {
    FirstMark(done, rest);
    var m := pos - |done|;
    RenumberFirst(rest, m, n);
    NoMark(n + 1);
    done', rest' := done + rest[..m] + Dollar(n + 1), rest[m + 1..];
    assert (done + rest)[..pos] == done + rest[..m];
    assert (done + rest)[pos + 1..] == rest';
    Assoc(done, rest[..m] + Dollar(n + 1), Renumber(rest', n + 1));
    Assoc(done, rest[..m], Dollar(n + 1));
  }

  /** `pg_numbered`: repeated search and in-place replacement is the one-pass numbering. */
  method PgNumbered(sql: string) returns (result: string)
    ensures result == Renumber(sql, 0)
  {
    result := sql;
    var n := 0;
    ghost var done, rest := "", sql;
    while true
      invariant result == done + rest && '?' !in done
      invariant Renumber(sql, 0) == done + Renumber(rest, n)
      decreases |rest|
    {
      match Find(result, '?')
      case None =>
        FirstMark(done, rest);
        RenumberPlain(rest, n);
        return;
      case Some(pos) =>
        ghost var d, r := ReplaceFirst(done, rest, pos, n);
        n := n + 1;
        result := result[..pos] + Dollar(n) + result[pos + 1..];
        done, rest := d, r;
    }
  }

  /** Text the numbering reads back from: no `$` of its own, no digit right after a mark. */
  predicate Clean(s: string) {
    '$' !in s && forall i :: 0 <= i < |s| - 1 && s[i] == '?' ==> !IsDigit(s[i + 1])
  }

  lemma CleanTail(s: string)
    requires Clean(s) && s != ""
    ensures Clean(s[1..]) && s[0] != '$'
    ensures s[0] == '?' && |s| > 1 ==> !IsDigit(s[1..][0])
  {
    assert s[0] in s;
  }

  lemma MarkStep(k: nat, rest: string)
    requires rest == "" || !IsDigit(rest[0])
    ensures Placeholders(Dollar(k) + rest) == [k] + Placeholders(rest)
  {
    OnePlaceholder(k);
    PlaceholdersAppend(Dollar(k), rest);
  }

  lemma PlainStep(c: char, rest: string)
    requires c != '$'
    ensures Placeholders([c] + rest) == Placeholders(rest)
  {
    assert ([c] + rest)[1..] == rest;
  }

  lemma NumberedStart(s: string, n: nat)
    ensures Renumber(s, n) == "" <==> s == ""
    ensures s != "" && !IsDigit(s[0]) ==> !IsDigit(Renumber(s, n)[0])
  {
  }

  lemma {:induction false} NumberedPlaceholders(s: string, n: nat)
    requires Clean(s)
    ensures Placeholders(Renumber(s, n)) == Range(n, Marks(s))
  {
    if s != "" {
      CleanTail(s);
      if s[0] == '?' {
        NumberedPlaceholders(s[1..], n + 1);
        NumberedStart(s[1..], n + 1);
        MarkStep(n + 1, Renumber(s[1..], n + 1));
        ColumnsStep(n, Marks(s));
      } else {
        NumberedPlaceholders(s[1..], n);
        PlainStep(s[0], Renumber(s[1..], n));
      }
    }
  }

  lemma CleanAppend(a: string, b: string)
    requires Clean(a) && Clean(b)
    requires a != "" && a[|a| - 1] == '?' && b != "" ==> !IsDigit(b[0])
    ensures Clean(a + b)
  {
    var s := a + b;
    forall i | 0 <= i < |s| - 1 && s[i] == '?' ensures !IsDigit(s[i + 1]) {
      if i + 1 < |a| {
        assert a[i] == '?';
      } else if i >= |a| {
        assert b[i - |a|] == '?';
      }
    }
  }

  // ----- Filters -----

  datatype Json = JString(s: string) | JInt(i: int) | JNumber | JArray(items: seq<Json>) | JOther

  datatype Field =
    Time | Question | Answer | ClientName | Upstream | Status | QType | ElapsedMs | ElapsedNs | Reason | OtherField

  datatype Operator = Between | Gt | Lt | Gte | Lte | Relative | Like | Eq | In | OtherOperator

  datatype Filter = Filter(field: Field, op: Operator, value: Json)

  datatype Translation = Unsupported | Invalid | Sql(condition: string, values: seq<Json>)

  function Column(f: Field): string {
    match f
    case Time => "time"
    case Question => "question"
    case Answer => "answer"
    case ClientName => "client_name"
    case Upstream => "upstream"
    case Status => "status"
    case QType => "qtype"
    case ElapsedMs => "elapsed_ns"
    case ElapsedNs => "elapsed_ns"
    case Reason => "reason"
    case OtherField => ""
  }

  function Symbol(op: Operator): string {
    match op
    case Gt => ">"
    case Lt => "<"
    case Gte => ">="
    case Lte => "<="
    case Eq => "="
    case _ => "LIKE"
  }

  /** `column op ?`. */
  function Condition(column: string, op: Operator): string { column + " " + Symbol(op) + " " + "?" }

  function BetweenText(): string { "time BETWEEN " + "?" + " AND " + "?" }

  /** `value.as_str().unwrap_or("")`. */
  function StrOr(v: Json): string { if v.JString? then v.s else "" }

  function Questions(n: nat): seq<string> { seq(n, _ => "?") }

  /** Two's-complement wrap-around of a 64-bit product. */
  function Wrap64(x: int): int {
    (x + 0x8000_0000_0000_0000) % 0x1_0000_0000_0000_0000 - 0x8000_0000_0000_0000
  }

  function TranslateTime(f: Filter, relative: string -> Option<(string, string)>): Translation {
    match f.op
    case Between =>
      if f.value.JArray? && |f.value.items| == 2 then Sql(BetweenText(), f.value.items) else Invalid
    case Gt => Sql(Condition("time", Gt), [f.value])
    case Lt => Sql(Condition("time", Lt), [f.value])
    case Gte => Sql(Condition("time", Gte), [f.value])
    case Lte => Sql(Condition("time", Lte), [f.value])
    case Relative =>
      if !f.value.JString? then Invalid
      else
        (match relative(f.value.s)
         case None => Invalid
         case Some((from, to)) => Sql(BetweenText(), [JString(from), JString(to)]))
    case _ => Unsupported
  }

  function TranslateElapsed(f: Filter): Translation {
    if f.op == Gt || f.op == Lt || f.op == Gte || f.op == Lte || f.op == Eq then
      if !f.value.JInt? then Invalid
      else
        var ns := if f.field == ElapsedMs then Wrap64(f.value.i * 1_000_000) else f.value.i;
        Sql(Condition("elapsed_ns", f.op), [JInt(ns)])
    else Unsupported
  }

  /** The condition and bindings of one filter; `relative` turns a duration into two instants. */
  function Translate(f: Filter, relative: string -> Option<(string, string)>): Translation {
    match f.field
    case Time => TranslateTime(f, relative)
    case Status =>
      if f.op == Eq then Sql(Condition("status", Eq), [f.value])
      else if f.op == In then TranslateIn("status", f.value)
      else Unsupported
    case QType =>
      if f.op == Eq then Sql(Condition("qtype", Eq), [f.value])
      else if f.op == In then TranslateIn("qtype", f.value)
      else Unsupported
    case ElapsedMs => TranslateElapsed(f)
    case ElapsedNs => TranslateElapsed(f)
    case Reason =>
      if f.op == Eq then Sql(Condition("reason", Eq), [JString(StrOr(f.value))])
      else if f.op == Like then Sql(Condition("reason", Like), [JString("%" + StrOr(f.value) + "%")])
      else Unsupported
    case OtherField => Unsupported
    case _ =>
      if f.op == Like then Sql(Condition(Column(f.field), Like), [JString("%" + StrOr(f.value) + "%")])
      else Unsupported
  }

  function TranslateIn(column: string, value: Json): Translation {
    if !value.JArray? then Invalid
    else Sql(column + " IN (" + Join(Questions(|value.items|), ",") + ")", value.items)
  }

  /** A condition carries exactly one mark per value, in readable form. */
  predicate Matched(condition: string, values: seq<Json>) {
    Clean(condition) && Marks(condition) == |values| && (condition == "" || !IsDigit(condition[0]))
  }

  predicate Plain(s: string) { '?' !in s && '$' !in s }

  lemma OneMark(text: string, values: seq<Json>)
    requires Plain(text) && text != "" && !IsDigit(text[0]) && |values| == 1
    ensures Matched(text + "?", values)
  {
    RenumberPlain(text, 0);
    MarksAppend(text, "?");
    assert Marks("?") == 1 + Marks("?"[1..]);
    CleanAppend(text, "?");
  }

  lemma ColumnCondition(column: string, op: Operator, v: Json)
    requires Plain(column) && column != "" && !IsDigit(column[0])
    ensures Matched(Condition(column, op), [v])
  {
    var text := column + " " + Symbol(op) + " ";
    assert Plain(Symbol(op));
    assert text[0] == column[0];
    OneMark(text, [v]);
  }

  lemma BetweenCondition(values: seq<Json>)
    requires |values| == 2
    ensures Matched(BetweenText(), values)
  {
    var a, b := "time BETWEEN ", " AND ";
    OneMark(a, values[..1]);
    OneMark(b, values[..1]);
    MarksAppend(a + "?", b + "?");
    CleanAppend(a + "?", b + "?");
    assert BetweenText() == (a + "?") + (b + "?");
  }

  lemma {:induction false} QuestionList(n: nat)
    ensures var s := Join(Questions(n), ",");
            '$' !in s && Marks(s) == n && (forall c :: c in s ==> c == '?' || c == ',')
  {
    if n == 1 {
      assert Questions(1) == ["?"];
      assert Marks("?") == 1 + Marks("?"[1..]);
    } else if n > 1 {
      QuestionList(n - 1);
      assert Questions(n)[1..] == Questions(n - 1);
      var rest := Join(Questions(n - 1), ",");
      assert Join(Questions(n), ",") == "?," + rest;
      MarksAppend("?,", rest);
      assert "?,"[1..] == "," && ","[1..] == "";
      assert Marks("?,") == 1;
    }
  }

  lemma InCondition(column: string, values: seq<Json>)
    requires Plain(column) && column != "" && !IsDigit(column[0])
    ensures Matched(column + " IN (" + Join(Questions(|values|), ",") + ")", values)
  {
    var head, list := column + " IN (", Join(Questions(|values|), ",");
    QuestionList(|values|);
    InText(head, list);
  }

  lemma InText(head: string, list: string)
    requires Plain(head) && head != "" && !IsDigit(head[0])
    requires forall c :: c in list ==> c == '?' || c == ','
    ensures var s := head + list + ")";
            Clean(s) && Marks(s) == Marks(list) && !IsDigit(s[0])
  {
    RenumberPlain(head, 0);
    RenumberPlain(")", 0);
    MarksAppend(head, list);
    MarksAppend(head + list, ")");
    assert forall i :: 0 <= i < |list| ==> list[i] in list;
    assert Clean(list);
    CleanAppend(head, list);
    CleanAppend(head + list, ")");
  }

  lemma ColumnPlain(f: Field)
    requires f != OtherField
    ensures Plain(Column(f)) && Column(f) != "" && !IsDigit(Column(f)[0])
  {
  }

  /** Whatever the filter, its condition has one mark for each of its values. */
  lemma TranslateMatched(f: Filter, relative: string -> Option<(string, string)>)
    ensures var t := Translate(f, relative); t.Sql? ==> Matched(t.condition, t.values)
  {
    var t := Translate(f, relative);
    if t.Sql? {
      ColumnPlain(f.field);
      if f.op == Between || f.op == Relative {
        BetweenCondition(t.values);
      } else if f.op == In {
        InCondition(Column(f.field), t.values);
      } else {
        ColumnCondition(Column(f.field), f.op, t.values[0]);
      }
    }
  }
}
