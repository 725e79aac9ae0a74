/** The multi-row INSERT statements `write_batch` sends for one batch. */
module BatchInsert {
  import opened Text
  import opened SqlText
  import opened LogWriter

  datatype Value = Int(i: int) | Str(s: string) | Null

  datatype Statement = Statement(sql: string, binds: seq<Value>)

  const COLUMNS: seq<string> := [
    "time", "client_ip", "question", "qtype", "status", "reason", "answer",
    "elapsed_ns", "upstream_ns", "upstream", "app_id"
  ]

  const MAX_ROWS_PER_STMT: nat := 32766 / FIELDS_PER_ROW

  function OptStr(o: Option<string>): Value { if o.Some? then Str(o.value) else Null }

  function OptInt(o: Option<int>): Value { if o.Some? then Int(o.value) else Null }

  /** What is bound for one entry, column by column. */
  function Fields(e: Entry): (r: seq<Value>)
    ensures |r| == FIELDS_PER_ROW
  {
    [Int(e.time), Str(e.clientIp), Str(e.question), Str(e.qtype), Str(e.status), OptStr(e.reason),
     OptStr(e.answer), Int(e.elapsedNs), OptInt(e.upstreamNs), OptStr(e.upstreamName), OptInt(e.appId)]
  }

  function Bound(rows: seq<Entry>): (r: seq<Value>)
    ensures |r| == |rows| * FIELDS_PER_ROW
  {
    if rows == [] then [] else Bound(rows[..|rows| - 1]) + Fields(rows[|rows| - 1])
  }

  /** The value bound to placeholder `$k` is column (k-1) mod 11 of row (k-1) div 11. */
  lemma {:induction false} BoundAt(rows: seq<Entry>, row: nat, column: nat)
    requires row < |rows| && column < FIELDS_PER_ROW
    ensures Bound(rows)[row * FIELDS_PER_ROW + column] == Fields(rows[row])[column]
  {
    var n := |rows| - 1;
    if row < n {
      BoundAt(rows[..n], row, column);
    }
  }

  lemma {:induction false} BoundAppend(a: seq<Entry>, b: seq<Entry>)
    ensures Bound(a + b) == Bound(a) + Bound(b)
    decreases |b|
  {
    if b == [] {
      assert a + b == a;
    } else {
      assert (a + b)[..|a + b| - 1] == a + b[..|b| - 1];
      BoundAppend(a, b[..|b| - 1]);
    }
  }

  function InsertInto(columns: string): string { "INSERT INTO query_log (" + columns + ") VALUES " }

  function Header(): string { InsertInto(Join(COLUMNS, ", ")) }

  function InsertText(rows: nat): string { Header() + Join(Rows(0, rows), ",") }

  /** A statement binds exactly the placeholders its text holds, within the parameter limit. */
  ghost predicate Aligned(s: Statement) {
    && Placeholders(s.sql) == Range(0, |s.binds|)
    && 0 < |s.binds| <= 32766
  }

  lemma {:induction false} NoDollarJoin(parts: seq<string>)
    requires forall p :: p in parts ==> '$' !in p
    ensures '$' !in Join(parts, ", ")
  {
    if |parts| > 1 {
      NoDollarJoin(parts[1..]);
    }
  }

  lemma ColumnsClean()
    ensures forall p :: p in COLUMNS ==> '$' !in p
  {
  }

  lemma HeaderClean()
    ensures Placeholders(Header()) == []
  {
    ColumnsClean();
    NoDollarJoin(COLUMNS);
    InsertClean(Join(COLUMNS, ", "));
  }

  lemma InsertClean(columns: string)
    requires '$' !in columns
    ensures Placeholders(InsertInto(columns)) == []
  {
    NoPlaceholders(InsertInto(columns));
  }

  lemma HeadThenRows(head: string, rows: nat)
    requires rows >= 1 && Placeholders(head) == []
    ensures Placeholders(head + Join(Rows(0, rows), ",")) == Range(0, rows * FIELDS_PER_ROW)
  {
    var list := Join(Rows(0, rows), ",");
    RowsText(0, rows);
    assert list[0] == list[..1][0];
    PlaceholdersAppend(head, list);
  }

  lemma InsertPlaceholders(rows: nat)
    requires rows >= 1
    ensures Placeholders(InsertText(rows)) == Range(0, rows * FIELDS_PER_ROW)
  {
    HeaderClean();
    HeadThenRows(Header(), rows);
  }

  /** The values bound by all statements, in order. */
  function AllBinds(stmts: seq<Statement>): seq<Value> {
    if stmts == [] then [] else AllBinds(stmts[..|stmts| - 1]) + stmts[|stmts| - 1].binds
  }

  /**
   Chunks the batch; every statement's placeholders are `$1` to `$11r` in bind order, and the
   statements together bind every field of every entry once, in order.
   */
  method WriteBatch(batch: seq<Entry>) returns (stmts: seq<Statement>)
    ensures forall s :: s in stmts ==> Aligned(s)
    ensures AllBinds(stmts) == Bound(batch)
    ensures stmts != [] ==> (|stmts| - 1) * MAX_ROWS_PER_STMT < |batch|
  {
    stmts := [];
    var i := 0;
    while i < |batch|
      invariant 0 <= i <= |batch|
      invariant forall s :: s in stmts ==> Aligned(s)
      invariant AllBinds(stmts) == Bound(batch[..i])
      invariant i < |batch| ==> i == |stmts| * MAX_ROWS_PER_STMT
      invariant stmts != [] ==> (|stmts| - 1) * MAX_ROWS_PER_STMT < i
    {
      var end := if i + MAX_ROWS_PER_STMT <= |batch| then i + MAX_ROWS_PER_STMT else |batch|;
      var chunk := batch[i..end];
      assert Bound(batch[..end]) == Bound(batch[..i]) + Bound(chunk) by { BoundPrefix(batch, i, end); }
      stmts := Execute(stmts, chunk);
      i := end;
    }
    assert batch[..i] == batch;
  }

  lemma BoundPrefix(batch: seq<Entry>, i: nat, end: nat)
    requires i <= end <= |batch|
    ensures Bound(batch[..end]) == Bound(batch[..i]) + Bound(batch[i..end])
  {
    assert batch[..end] == batch[..i] + batch[i..end];
    BoundAppend(batch[..i], batch[i..end]);
  }

  lemma AllBindsSnoc(stmts: seq<Statement>, s: Statement)
    ensures AllBinds(stmts + [s]) == AllBinds(stmts) + s.binds
  {
    assert (stmts + [s])[..|stmts|] == stmts;
  }

  method Execute(sent: seq<Statement>, chunk: seq<Entry>) returns (stmts: seq<Statement>)
    requires 1 <= |chunk| <= MAX_ROWS_PER_STMT
    requires forall s :: s in sent ==> Aligned(s)
    ensures |stmts| == |sent| + 1 && sent <= stmts
    ensures forall s :: s in stmts ==> Aligned(s)
    ensures AllBinds(stmts) == AllBinds(sent) + Bound(chunk)
  {
    var stmt := InsertChunk(chunk);
    AllBindsSnoc(sent, stmt);
    stmts := sent + [stmt];
  }

  /** One statement: the text for that many rows, and the fields of the rows bound in order. */
  method InsertChunk(chunk: seq<Entry>) returns (stmt: Statement)
    requires 1 <= |chunk| <= MAX_ROWS_PER_STMT
    ensures Aligned(stmt) && stmt.binds == Bound(chunk) && stmt.sql == InsertText(|chunk|)
  {
    InsertPlaceholders(|chunk|);
    var binds := BindAll(chunk);
    stmt := Statement(InsertText(|chunk|), binds);
  }

  method BindAll(chunk: seq<Entry>) returns (binds: seq<Value>)
    ensures binds == Bound(chunk)
  {
    binds := [];
    for i := 0 to |chunk|
      invariant binds == Bound(chunk[..i])
    {
      assert chunk[..i + 1][..i] == chunk[..i];
      binds := binds + Fields(chunk[i]);
    }
    assert chunk[..|chunk|] == chunk;
  }
}
