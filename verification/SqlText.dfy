/**
 PostgreSQL placeholders: which `$k` a statement text holds, in order, read by scanning the
 text, and how the batch writer lays them out.
 */
module SqlText {
  import opened Text
  import opened Decimal

  function DigitRun(s: string): (r: string)
    ensures r <= s && forall c :: c in r ==> IsDigit(c)
    ensures |r| < |s| ==> !IsDigit(s[|r|])
  {
    if s == "" || !IsDigit(s[0]) then "" else [s[0]] + DigitRun(s[1..])
  }

  /** The numbers of the `$k` placeholders of a statement, left to right. */
  function Placeholders(s: string): seq<nat>
    decreases |s|
  {
    if s == "" then []
    else if s[0] == '$' then
      var run := DigitRun(s[1..]);
      (if run == "" then [] else [NumberOf(run)]) + Placeholders(s[1 + |run|..])
    else Placeholders(s[1..])
  }

  /** The numbers `from` + 1 up to `from` + `count`. */
  function Range(from: nat, count: nat): (r: seq<nat>)
    ensures |r| == count && forall i :: 0 <= i < count ==> r[i] == from + i + 1
  {
    seq(count, i requires 0 <= i < count => from + i + 1)
  }

  lemma {:induction false} RunAppend(a: string, b: string)
    requires b == "" || !IsDigit(b[0])
    ensures DigitRun(a + b) == DigitRun(a)
  {
    if a == "" {
      assert a + b == b;
    } else {
      assert (a + b)[1..] == a[1..] + b;
      RunAppend(a[1..], b);
    }
  }

  /** The number a run of digits after `$` stands for, if there are any. */
  function RunNumber(run: string): seq<nat>
    requires forall c :: c in run ==> IsDigit(c)
  {
    if run == "" then [] else [NumberOf(run)]
  }

  lemma PlaceholderFirst(s: string, run: string, rest: string)
    requires s != "" && s[0] == '$' && run == DigitRun(s[1..]) && rest == s[1 + |run|..]
    ensures Placeholders(s) == RunNumber(run) + Placeholders(rest)
  {
  }

  lemma JoinedRun(a: string, b: string, run: string)
    requires b == "" || !IsDigit(b[0])
    requires a != "" && a[0] == '$' && run == DigitRun(a[1..])
    ensures (a + b)[0] == '$' && DigitRun((a + b)[1..]) == run && (a + b)[1 + |run|..] == a[1 + |run|..] + b
  {
    assert (a + b)[1..] == a[1..] + b;
    RunAppend(a[1..], b);
  }

  lemma Regroup(a: seq<nat>, b: seq<nat>, c: seq<nat>)
    ensures a + (b + c) == (a + b) + c
  {
  }

  lemma PlaceholderThen(a: string, b: string, run: string, rest: string)
    requires b == "" || !IsDigit(b[0])
    requires a != "" && a[0] == '$' && run == DigitRun(a[1..]) && rest == a[1 + |run|..]
    requires Placeholders(rest + b) == Placeholders(rest) + Placeholders(b)
    ensures Placeholders(a + b) == Placeholders(a) + Placeholders(b)
  {
    assert Placeholders(a + b) == RunNumber(run) + Placeholders(rest + b) by {
      JoinedRun(a, b, run);
      PlaceholderFirst(a + b, run, rest + b);
    }
    PlaceholderFirst(a, run, rest);
    Regroup(RunNumber(run), Placeholders(rest), Placeholders(b));
  }

  /** Texts joined where no numeral runs on keep their placeholders. */
  lemma {:induction false} PlaceholdersAppend(a: string, b: string)
    requires b == "" || !IsDigit(b[0])
    ensures Placeholders(a + b) == Placeholders(a) + Placeholders(b)
    decreases |a|
  {
    if a == "" {
      assert a + b == b;
    } else if a[0] == '$' {
      var run := DigitRun(a[1..]);
      var rest := a[1 + |run|..];
      PlaceholdersAppend(rest, b);
      PlaceholderThen(a, b, run, rest);
    } else {
      assert (a + b)[1..] == a[1..] + b;
      PlaceholdersAppend(a[1..], b);
    }
  }

  lemma {:induction false} NoPlaceholders(s: string)
    requires '$' !in s
    ensures Placeholders(s) == []
  {
    if s != "" {
      assert s[0] in s;
      NoPlaceholders(s[1..]);
    }
  }

  lemma {:induction false} RunAll(s: string)
    requires forall c :: c in s ==> IsDigit(c)
    ensures DigitRun(s) == s
  {
    if s != "" {
      assert s[0] in s;
      RunAll(s[1..]);
    }
  }

  function Dollar(k: nat): (r: string)
    ensures r != "" && r[0] == '$'
  {
    "$" + Numeral(k)
  }

  lemma OnePlaceholder(k: nat)
    ensures Placeholders(Dollar(k)) == [k]
  {
    var s := Dollar(k);
    assert s[1..] == Numeral(k);
    RunAll(Numeral(k));
    NumeralDenotes(k);
    assert s[1 + |Numeral(k)|..] == "";
  }

  lemma RangeSplit(from: nat, m: nat, n: nat)
    ensures Range(from, m) + Range(from + m, n) == Range(from, m + n)
  {
  }

  // ----- Comma-separated placeholders -----

  lemma CommaJoin(a: string, rest: string)
    ensures Placeholders(a + ("," + rest)) == Placeholders(a) + Placeholders(rest)
  {
    PlaceholdersAppend(a, "," + rest);
    assert ("," + rest)[1..] == rest;
  }

  /** `$from+1,$from+2,…`: the columns of one row. */
  function Columns(from: nat, count: nat): seq<string> {
    seq(count, i requires 0 <= i < count => Dollar(from + i + 1))
  }

  lemma ColumnsStep(from: nat, count: nat)
    requires count >= 1
    ensures Columns(from, count) == [Dollar(from + 1)] + Columns(from + 1, count - 1)
    ensures Range(from, count) == [from + 1] + Range(from + 1, count - 1)
  {
  }

  lemma {:induction false} ColumnsText(from: nat, count: nat)
    requires count >= 1
    ensures Placeholders(Join(Columns(from, count), ",")) == Range(from, count)
    decreases count
  {
    ColumnsStep(from, count);
    OnePlaceholder(from + 1);
    var rest := Columns(from + 1, count - 1);
    if count > 1 {
      ColumnsText(from + 1, count - 1);
      JoinStep(Dollar(from + 1), rest);
      CommaJoin(Dollar(from + 1), Join(rest, ","));
    } else {
      assert [Dollar(from + 1)] + rest == [Dollar(from + 1)];
    }
  }

  lemma JoinStep(first: string, rest: seq<string>)
    requires rest != []
    ensures Join([first] + rest, ",") == first + ("," + Join(rest, ","))
  {
    assert ([first] + rest)[1..] == rest;
  }

  /** One parenthesised row of eleven placeholders. */
  function RowText(row: nat): string { "(" + Join(Columns(row * FIELDS_PER_ROW, FIELDS_PER_ROW), ",") + ")" }

  const FIELDS_PER_ROW: nat := 11

  lemma RowPlaceholders(row: nat)
    ensures Placeholders(RowText(row)) == Range(row * FIELDS_PER_ROW, FIELDS_PER_ROW)
  {
    var cols := Join(Columns(row * FIELDS_PER_ROW, FIELDS_PER_ROW), ",");
    ColumnsText(row * FIELDS_PER_ROW, FIELDS_PER_ROW);
    PlaceholdersAppend("(" + cols, ")");
    assert ("(" + cols)[1..] == cols;
    assert Placeholders(")") == Placeholders(")"[1..]);
  }

  /** The rows `from`, `from` + 1, … of a VALUES list. */
  function Rows(from: nat, count: nat): seq<string> {
    seq(count, i requires 0 <= i < count => RowText(from + i))
  }

  lemma RowsStep(from: nat, count: nat)
    requires count >= 1
    ensures Rows(from, count) == [RowText(from)] + Rows(from + 1, count - 1)
    ensures Range(from * FIELDS_PER_ROW, count * FIELDS_PER_ROW) ==
            Range(from * FIELDS_PER_ROW, FIELDS_PER_ROW)
            + Range((from + 1) * FIELDS_PER_ROW, (count - 1) * FIELDS_PER_ROW)
  {
    RangeSplit(from * FIELDS_PER_ROW, FIELDS_PER_ROW, (count - 1) * FIELDS_PER_ROW);
  }

  lemma {:induction false} RowsText(from: nat, count: nat)
    requires count >= 1
    ensures Placeholders(Join(Rows(from, count), ",")) == Range(from * FIELDS_PER_ROW, count * FIELDS_PER_ROW)
    ensures StartsWith(Join(Rows(from, count), ","), "(")
    decreases count
  {
    RowsStep(from, count);
    RowPlaceholders(from);
    var rest := Rows(from + 1, count - 1);
    if count > 1 {
      RowsText(from + 1, count - 1);
      JoinStep(RowText(from), rest);
      CommaJoin(RowText(from), Join(rest, ","));
    } else {
      assert [RowText(from)] + rest == [RowText(from)];
    }
  }

  /** The limit a request asks for, kept between 1 and 1000. */
  function Clamp(limit: int): (r: nat)
    ensures 1 <= r <= 1000
  {
    if limit < 1 then 1 else if limit > 1000 then 1000 else limit
  }
}
