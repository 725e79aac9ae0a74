/** The query builder object, the statement it builds and what gets bound to it. */
module AdvancedQuery {
  import opened Text
  import opened SqlText
  import opened QueryBuilders

  /** A condition with the values its marks stand for. */
  datatype Group = Group(condition: string, values: seq<Json>)

  ghost function Conditions(groups: seq<Group>): seq<string> {
    if groups == [] then [] else [groups[0].condition] + Conditions(groups[1..])
  }

  ghost function Values(groups: seq<Group>): seq<Json> {
    if groups == [] then [] else groups[0].values + Values(groups[1..])
  }

  ghost predicate AllMatched(groups: seq<Group>) {
    forall g :: g in groups ==> Matched(g.condition, g.values)
  }

  /** Each condition numbered from the position its values have among the bindings. */
  ghost function Numbered(groups: seq<Group>, from: nat): seq<string> {
    if groups == [] then []
    else [Renumber(groups[0].condition, from)] + Numbered(groups[1..], from + |groups[0].values|)
  }

  lemma {:induction false} ConditionsSnoc(groups: seq<Group>, g: Group)
    ensures Conditions(groups + [g]) == Conditions(groups) + [g.condition]
  {
    if groups == [] {
      assert groups + [g] == [g];
      assert [g][1..] == [];
    } else {
      assert (groups + [g])[1..] == groups[1..] + [g];
      ConditionsSnoc(groups[1..], g);
    }
  }

  lemma GroupsSnoc(groups: seq<Group>, g: Group)
    ensures Conditions(groups + [g]) == Conditions(groups) + [g.condition]
    ensures Values(groups + [g]) == Values(groups) + g.values
  {
    ConditionsSnoc(groups, g);
    ValuesAppend(groups, [g]);
    assert [g][1..] == [];
    assert Values([g]) == g.values + Values([]);
  }

  lemma {:induction false} ValuesAppend(a: seq<Group>, b: seq<Group>)
    ensures Values(a + b) == Values(a) + Values(b)
  {
    if a == [] {
      assert a + b == b;
    } else {
      assert (a + b)[1..] == a[1..] + b;
      ValuesAppend(a[1..], b);
    }
  }

  lemma {:induction false} NumberedAt(groups: seq<Group>, from: nat, i: nat)
    requires i < |groups|
    ensures |Numbered(groups, from)| == |groups|
    ensures Numbered(groups, from)[i] == Renumber(groups[i].condition, from + |Values(groups[..i])|)
  {
    var rest := groups[1..];
    if i > 0 {
      NumberedAt(rest, from + |groups[0].values|, i - 1);
      assert groups[..i][1..] == rest[..i - 1];
    } else if rest != [] {
      NumberedAt(rest, from + |groups[0].values|, 0);
    }
  }

  /** The placeholders of a group are exactly the numbers of its own values. */
  lemma GroupOwnsItsBindings(groups: seq<Group>, i: nat)
    requires AllMatched(groups) && i < |groups|
    ensures |Numbered(groups, 0)| == |groups|
    ensures var off, n := |Values(groups[..i])|, |groups[i].values|;
            && Placeholders(Numbered(groups, 0)[i]) == Range(off, n)
            && off + n <= |Values(groups)| && Values(groups)[off..off + n] == groups[i].values
  {
    NumberedAt(groups, 0, i);
    assert groups[i] in groups;
    OwnNumbers(groups[i], |Values(groups[..i])|, Numbered(groups, 0)[i]);
    ValuesAt(groups, i);
  }

  lemma OwnNumbers(g: Group, off: nat, text: string)
    requires Matched(g.condition, g.values) && text == Renumber(g.condition, off)
    ensures Placeholders(text) == Range(off, |g.values|)
  {
    NumberedPlaceholders(g.condition, off);
  }

  lemma ValuesAt(groups: seq<Group>, i: nat)
    requires i < |groups|
    ensures var off, n := |Values(groups[..i])|, |groups[i].values|;
            off + n <= |Values(groups)| && Values(groups)[off..off + n] == groups[i].values
  {
    assert groups == groups[..i] + groups[i..];
    ValuesAppend(groups[..i], groups[i..]);
    assert Values(groups[i..]) == groups[i].values + Values(groups[i..][1..]);
  }

  // ----- The statement -----

  const COLUMNS: seq<string> := [
    "id", "time::text as time", "client_ip", "client_name", "question", "qtype", "answer",
    "status", "reason", "upstream", "elapsed_ns"
  ]

  function Select(columns: string): string { "SELECT " + columns + "\n             FROM query_log " }

  function Connector(logic: string): string { if ToLower(logic) == "or" then " OR " else " AND " }

  function Where(conditions: seq<string>, connector: string): string {
    if conditions == [] then "" else "WHERE " + Join(conditions, connector)
  }

  function Tail(limit: string, offset: string): string {
    " ORDER BY time DESC LIMIT " + limit + " OFFSET " + offset
  }

  lemma ConnectorPlain(logic: string)
    ensures Plain(Connector(logic)) && Connector(logic) != "" && !IsDigit(Connector(logic)[0])
  {
  }

  lemma {:induction false} PlainJoin(parts: seq<string>)
    requires forall p :: p in parts ==> Plain(p)
    ensures Plain(Join(parts, ", "))
  {
    if |parts| > 0 {
      assert Plain(parts[0]);
      PlainJoin(parts[1..]);
    }
  }

  lemma EachColumnPlain()
    ensures forall p :: p in COLUMNS ==> Plain(p)
  {
  }

  lemma ColumnsPlain()
    ensures Plain(Join(COLUMNS, ", "))
  {
    EachColumnPlain();
    PlainJoin(COLUMNS);
  }

  /** Numbering a condition, the connector and the rest numbers each where it stands. */
  lemma NumberPair(condition: string, connector: string, joined: string, from: nat)
    requires Plain(connector)
    ensures Renumber(condition + connector + joined, from) ==
            Renumber(condition, from) + connector + Renumber(joined, from + Marks(condition))
    ensures Marks(condition + connector + joined) == Marks(condition) + Marks(joined)
  {
    RenumberPlain(connector, from + Marks(condition));
    RenumberAppend(condition + connector, joined, from);
    RenumberAppend(condition, connector, from);
    MarksAppend(condition + connector, joined);
    MarksAppend(condition, connector);
  }

  lemma JoinConditions(groups: seq<Group>, connector: string, from: nat)
    requires |groups| > 1
    ensures var g, rest := groups[0], groups[1..];
            && Join(Conditions(groups), connector) == g.condition + connector + Join(Conditions(rest), connector)
            && Join(Numbered(groups, from), connector) ==
               Renumber(g.condition, from) + connector + Join(Numbered(rest, from + |g.values|), connector)
  {
    assert Conditions(groups)[1..] == Conditions(groups[1..]);
    assert Numbered(groups, from)[1..] == Numbered(groups[1..], from + |groups[0].values|);
    NumberedAt(groups, from, 0);
  }

  /** Numbering the joined conditions numbers each one where its values start. */
  lemma {:induction false} NumberJoined(groups: seq<Group>, connector: string, from: nat)
    requires AllMatched(groups) && Plain(connector)
    ensures Renumber(Join(Conditions(groups), connector), from) == Join(Numbered(groups, from), connector)
    ensures Marks(Join(Conditions(groups), connector)) == |Values(groups)|
  {
    if |groups| == 1 {
      assert groups[0] in groups;
      assert Conditions(groups) == [groups[0].condition];
    } else if |groups| > 1 {
      var g, rest := groups[0], groups[1..];
      assert g in groups;
      NumberJoined(rest, connector, from + |g.values|);
      JoinConditions(groups, connector, from);
      NumberPair(g.condition, connector, Join(Conditions(rest), connector), from);
    }
  }

  /** The statement before numbering. */
  function Draft(columns: string, clause: string): string { Select(columns) + clause + Tail("?", "?") }

  lemma NumberAfter(head: string, joined: string)
    requires Plain(head)
    ensures Renumber(head + joined, 0) == head + Renumber(joined, 0) && Marks(head + joined) == Marks(joined)
  {
    RenumberPlain(head, 0);
    RenumberAppend(head, joined, 0);
    MarksAppend(head, joined);
  }

  lemma NumberClause(groups: seq<Group>, connector: string)
    requires AllMatched(groups) && Plain(connector)
    ensures var clause := Where(Conditions(groups), connector);
            && Renumber(clause, 0) == Where(Numbered(groups, 0), connector)
            && Marks(clause) == |Values(groups)|
  {
    if groups != [] {
      NumberJoined(groups, connector, 0);
      NumberAfter("WHERE ", Join(Conditions(groups), connector));
    }
  }

  lemma NumberTail(n: nat)
    ensures Renumber(Tail("?", "?"), n) == Tail(Dollar(n + 1), Dollar(n + 2))
    ensures Marks(Tail("?", "?")) == 2
  {
    TwoMarks(" ORDER BY time DESC LIMIT ", " OFFSET ", n);
  }

  lemma TwoMarks(a: string, b: string, n: nat)
    requires Plain(a) && Plain(b)
    ensures Renumber(a + "?" + b + "?", n) == a + Dollar(n + 1) + b + Dollar(n + 2)
    ensures Marks(a + "?" + b + "?") == 2
  {
    MarkAfter(a, n);
    MarkAfter(b, n + 1);
    assert a + "?" + b + "?" == (a + "?") + (b + "?");
    RenumberAppend(a + "?", b + "?", n);
    MarksAppend(a + "?", b + "?");
    Assoc(a + Dollar(n + 1), b, Dollar(n + 2));
  }

  lemma MarkAfter(a: string, n: nat)
    requires Plain(a)
    ensures Renumber(a + "?", n) == a + Dollar(n + 1) && Marks(a + "?") == 1
  {
    RenumberPlain(a, n);
    OneQuestion(n);
    RenumberAppend(a, "?", n);
    MarksAppend(a, "?");
  }

  lemma OneQuestion(n: nat)
    ensures Renumber("?", n) == Dollar(n + 1) && Marks("?") == 1
  {
    assert "?"[1..] == "";
    assert Renumber("?", n) == Dollar(n + 1) + Renumber("", n + 1);
  }

  lemma SelectPlain(columns: string)
    requires Plain(columns)
    ensures Plain(Select(columns)) && Clean(Select(columns))
  {
  }

  lemma NumberParts(head: string, clause: string, tail: string)
    requires '?' !in head
    ensures Renumber(head + clause + tail, 0) == head + Renumber(clause, 0) + Renumber(tail, Marks(clause))
    ensures Marks(head + clause + tail) == Marks(clause) + Marks(tail)
  {
    RenumberPlain(head, 0);
    MarksAppend(head, clause);
    MarksAppend(head + clause, tail);
    RenumberAppend(head, clause, 0);
    RenumberAppend(head + clause, tail, 0);
  }

  // ----- Reading the placeholders back -----

  lemma {:induction false} CleanJoined(groups: seq<Group>, connector: string)
    requires AllMatched(groups) && Plain(connector) && connector != "" && !IsDigit(connector[0])
    ensures Clean(Join(Conditions(groups), connector))
  {
    if |groups| == 1 {
      assert groups[0] in groups;
      assert Conditions(groups) == [groups[0].condition];
    } else if |groups| > 1 {
      assert groups[0] in groups;
      CleanJoined(groups[1..], connector);
      assert Conditions(groups)[1..] == Conditions(groups[1..]);
      CleanAppend(groups[0].condition, connector);
      CleanConnected(groups[0].condition + connector, connector, Join(Conditions(groups[1..]), connector));
    }
  }

  lemma CleanConnected(a: string, connector: string, b: string)
    requires Clean(a) && Clean(b) && Plain(connector) && connector != "" && EndsWith(a, connector)
    ensures Clean(a + b)
  {
    assert a[|a| - 1] == a[|a| - |connector|..][|connector| - 1];
    CleanAppend(a, b);
  }

  lemma CleanClause(groups: seq<Group>, connector: string)
    requires AllMatched(groups) && Plain(connector) && connector != "" && !IsDigit(connector[0])
    ensures Clean(Where(Conditions(groups), connector))
  {
    if groups != [] {
      CleanJoined(groups, connector);
      CleanAppend("WHERE ", Join(Conditions(groups), connector));
    }
  }

  lemma PlainClean(a: string)
    requires '$' !in a && '?' !in a
    ensures Clean(a)
  {
    assert forall i :: 0 <= i < |a| ==> a[i] in a;
  }

  lemma CleanMark(a: string)
    requires Clean(a)
    ensures Clean(a + "?")
  {
    assert Clean("?");
    CleanAppend(a, "?");
  }

  lemma CleanTail2()
    ensures Clean(Tail("?", "?"))
  {
    var a, b := " ORDER BY time DESC LIMIT ", " OFFSET ";
    PlainClean(a);
    PlainClean(b);
    CleanMark(a);
    CleanAppend(a + "?", b);
    CleanMark(a + "?" + b);
  }

  lemma CleanDraft(columns: string, clause: string)
    requires Plain(columns) && Clean(clause)
    ensures Clean(Draft(columns, clause))
  {
    SelectPlain(columns);
    CleanTail2();
    SelectEnd(columns);
    CleanAppend(Select(columns), clause);
    CleanAppend(Select(columns) + clause, Tail("?", "?"));
  }

  lemma SelectEnd(columns: string)
    ensures Select(columns) != "" && Select(columns)[|Select(columns)| - 1] == ' '
    ensures Tail("?", "?") != "" && Tail("?", "?")[0] == ' '
  {
  }

  // ----- The builder -----

  class QueryBuilder {
    var conditions: seq<string>
    var bindings: seq<Json>
    ghost var groups: seq<Group>

    /** The conditions and bindings come from the same filters, one mark per value. */
    ghost predicate Valid()
      reads this
    {
      conditions == Conditions(groups) && bindings == Values(groups) && AllMatched(groups)
    }

    constructor ()
      ensures Valid() && groups == []
    {
      conditions, bindings, groups := [], [], [];
    }

    /** Unsupported filters are skipped; an invalid value is an error and changes nothing. */
    method AddFilter(filter: Filter, relative: string -> Option<(string, string)>) returns (ok: bool)
      requires Valid()
      modifies this
      ensures Valid()
      ensures ok <==> Translate(filter, relative) != Invalid
      ensures groups == old(groups) + (match Translate(filter, relative)
                                       case Sql(c, vs) => [Group(c, vs)]
                                       case _ => [])
    {
      match Translate(filter, relative)
      case Invalid => return false;
      case Unsupported => return true;
      case Sql(condition, values) =>
        TranslateMatched(filter, relative);
        GroupsSnoc(groups, Group(condition, values));
        conditions := conditions + [condition];
        bindings := bindings + values;
        groups := groups + [Group(condition, values)];
        return true;
    }

    /**
     The finished statement holds exactly `$1` to `$n` in order, one per binding; each condition
     is numbered where its own values sit, and LIMIT and OFFSET come last.
     */
    method Build(logic: string, limit: int, offset: int) returns (sql: string, all: seq<Json>)
      requires Valid()
      ensures all == Values(groups) + [JInt(limit), JInt(offset)]
      ensures Placeholders(sql) == Range(0, |all|)
      ensures sql == Select(Join(COLUMNS, ", ")) + Where(Numbered(groups, 0), Connector(logic))
                     + Tail(Dollar(|bindings| + 1), Dollar(|bindings| + 2))
    {
      ColumnsPlain();
      ConnectorPlain(logic);
      sql := Statement(Join(COLUMNS, ", "), Connector(logic));
      all := bindings + [JInt(limit)];
      all := all + [JInt(offset)];
    }

    /** The numbered text for given columns and connector. */
    method Statement(columns: string, connector: string) returns (sql: string)
      requires Valid() && Plain(columns) && Plain(connector) && connector != "" && !IsDigit(connector[0])
      ensures sql == Select(columns) + Where(Numbered(groups, 0), connector)
                     + Tail(Dollar(|bindings| + 1), Dollar(|bindings| + 2))
      ensures Placeholders(sql) == Range(0, |bindings| + 2)
    {
      var draft := Draft(columns, Where(conditions, connector));
      BuildParts(groups, columns, connector, draft);
      sql := PgNumbered(draft);
    }
  }

  lemma NumberThree(head: string, clause: string, tail: string, clause': string, tail': string, n: nat)
    requires '?' !in head && Renumber(clause, 0) == clause' && Marks(clause) == n && Renumber(tail, n) == tail'
    ensures Renumber(head + clause + tail, 0) == head + clause' + tail'
    ensures Marks(head + clause + tail) == n + Marks(tail)
  {
    NumberParts(head, clause, tail);
  }

  lemma BuildText(groups: seq<Group>, columns: string, connector: string, draft: string)
    requires AllMatched(groups) && Plain(columns) && Plain(connector)
    requires draft == Draft(columns, Where(Conditions(groups), connector))
    ensures var n := |Values(groups)|;
            && Marks(draft) == n + 2
            && Renumber(draft, 0) == Select(columns) + Where(Numbered(groups, 0), connector)
                                     + Tail(Dollar(n + 1), Dollar(n + 2))
  {
    var n := |Values(groups)|;
    assert '?' !in Select(columns) by { SelectPlain(columns); }
    NumberClause(groups, connector);
    NumberTail(n);
    NumberThree(Select(columns), Where(Conditions(groups), connector), Tail("?", "?"),
                Where(Numbered(groups, 0), connector), Tail(Dollar(n + 1), Dollar(n + 2)), n);
  }

  lemma BuildParts(groups: seq<Group>, columns: string, connector: string, draft: string)
    requires AllMatched(groups) && Plain(columns)
    requires Plain(connector) && connector != "" && !IsDigit(connector[0])
    requires draft == Draft(columns, Where(Conditions(groups), connector))
    ensures var n := |Values(groups)|;
            && Renumber(draft, 0) == Select(columns) + Where(Numbered(groups, 0), connector)
                                     + Tail(Dollar(n + 1), Dollar(n + 2))
            && Placeholders(Renumber(draft, 0)) == Range(0, n + 2)
  {
    BuildText(groups, columns, connector, draft);
    assert Clean(draft) by {
      CleanClause(groups, connector);
      CleanDraft(columns, Where(Conditions(groups), connector));
    }
    NumberedPlaceholders(draft, 0);
  }

  // ----- Binding and the handler -----

  /** The bind loop passes on strings and numbers and silently skips every other value. */
  predicate Bindable(v: Json) { v.JString? || v.JInt? || v.JNumber? }

  /** Numbers that are no 64-bit integer are sent as zero. */
  function BoundValue(v: Json): Json { if v.JNumber? then JInt(0) else v }

  function Sent(bindings: seq<Json>): seq<Json> {
    if bindings == [] then []
    else
      var n := |bindings| - 1;
      Sent(bindings[..n]) + if Bindable(bindings[n]) then [BoundValue(bindings[n])] else []
  }

  /** As many values are sent as there are bindings exactly when every binding can be bound. */
  lemma {:induction false} SentCount(bindings: seq<Json>)
    ensures |Sent(bindings)| <= |bindings|
    ensures |Sent(bindings)| == |bindings| <==> forall v :: v in bindings ==> Bindable(v)
    ensures |Sent(bindings)| == |bindings| ==>
              forall i :: 0 <= i < |bindings| ==> Sent(bindings)[i] == BoundValue(bindings[i])
  {
    if bindings != [] {
      var n := |bindings| - 1;
      SentCount(bindings[..n]);
      assert bindings == bindings[..n] + [bindings[n]];
    }
  }

  /** The conditions of the supported filters, in order. */
  ghost function GroupsOf(filters: seq<Filter>, relative: string -> Option<(string, string)>): seq<Group> {
    if filters == [] then []
    else
      var n := |filters| - 1;
      GroupsOf(filters[..n], relative) + (match Translate(filters[n], relative)
                                          case Sql(c, vs) => [Group(c, vs)]
                                          case _ => [])
  }

  ghost predicate AllBindable(values: seq<Json>) { forall v :: v in values ==> Bindable(v) }

  /**
   Whatever of this filter's JSON value reaches the bindings as it is can be bound: only time
   comparisons, `status` and `qtype` pass it on, the other filters bind text or integers of their own.
   */
  ghost predicate PassesOn(f: Filter) {
    match f.field
    case Time =>
      if f.op == Between then f.value.JArray? ==> AllBindable(f.value.items)
      else f.op == Gt || f.op == Lt || f.op == Gte || f.op == Lte ==> Bindable(f.value)
    case Status => PassesOnEnum(f)
    case QType => PassesOnEnum(f)
    case _ => true
  }

  ghost predicate PassesOnEnum(f: Filter) {
    if f.op == In then f.value.JArray? ==> AllBindable(f.value.items) else f.op == Eq ==> Bindable(f.value)
  }

  lemma OneValue(v: Json)
    ensures AllBindable([v]) <==> Bindable(v)
  {
    assert v in [v];
  }

  lemma TranslateBindable(f: Filter, relative: string -> Option<(string, string)>)
    requires Translate(f, relative) != Invalid
    ensures PassesOn(f) <==> (Translate(f, relative).Sql? ==> AllBindable(Translate(f, relative).values))
  {
    OneValue(f.value);
  }

  lemma {:induction false} ValuesBindable(filters: seq<Filter>, relative: string -> Option<(string, string)>)
    requires forall f :: f in filters ==> Translate(f, relative) != Invalid
    ensures AllBindable(Values(GroupsOf(filters, relative))) <==> forall f :: f in filters ==> PassesOn(f)
  {
    if filters != [] {
      var n := |filters| - 1;
      var last, front := filters[n], filters[..n];
      assert filters == front + [last];
      assert Translate(last, relative) != Invalid;
      ValuesBindable(front, relative);
      TranslateBindable(last, relative);
      LastGroup(GroupsOf(front, relative), Translate(last, relative));
    }
  }

  lemma LastGroup(groups: seq<Group>, t: Translation)
    ensures var all := groups + match t case Sql(c, vs) => [Group(c, vs)] case _ => [];
            AllBindable(Values(all)) <==> AllBindable(Values(groups)) && (t.Sql? ==> AllBindable(t.values))
  {
    if t.Sql? {
      GroupsSnoc(groups, Group(t.condition, t.values));
    } else {
      assert groups + [] == groups;
    }
  }

  /** Every placeholder gets a value exactly when what the filters pass on can be bound. */
  lemma AllSent(filters: seq<Filter>, relative: string -> Option<(string, string)>, limit: int, offset: int)
    requires forall f :: f in filters ==> Translate(f, relative) != Invalid
    ensures var all := Values(GroupsOf(filters, relative)) + [JInt(limit), JInt(offset)];
            |Sent(all)| == |all| <==> forall f :: f in filters ==> PassesOn(f)
  {
    var values := Values(GroupsOf(filters, relative));
    var all := values + [JInt(limit), JInt(offset)];
    assert AllBindable(all) <==> AllBindable(values) by {
      assert forall v :: v in all <==> v in values || v == JInt(limit) || v == JInt(offset);
    }
    SentCount(all);
    ValuesBindable(filters, relative);
  }

  /**
   `list_advanced`: the first invalid filter is an error; otherwise the statement holds one
   placeholder per binding, and the bindings that can be bound are sent in that order. Placeholders
   and values are as many exactly when no filter passes on a value that cannot be bound.
   */
  method ListAdvanced(filters: seq<Filter>, logic: string, limit: int, offset: int,
                      relative: string -> Option<(string, string)>)
    returns (ok: bool, sql: string, sent: seq<Json>)
    ensures ok <==> forall f :: f in filters ==> Translate(f, relative) != Invalid
    ensures ok ==> var all := Values(GroupsOf(filters, relative)) + [JInt(Clamp(limit)), JInt(offset)];
                   Placeholders(sql) == Range(0, |all|) && sent == Sent(all)
    ensures ok ==> (|sent| == |Placeholders(sql)| <==> forall f :: f in filters ==> PassesOn(f))
  {
    sql, sent := "", [];
    var builder := new QueryBuilder();
    for i := 0 to |filters|
      invariant builder.Valid() && fresh(builder) && builder.groups == GroupsOf(filters[..i], relative)
      invariant forall f :: f in filters[..i] ==> Translate(f, relative) != Invalid
    {
      assert filters[..i + 1] == filters[..i] + [filters[i]];
      assert filters[..i + 1][..i] == filters[..i];
      ok := builder.AddFilter(filters[i], relative);
      if !ok { return; }
    }
    assert filters[..|filters|] == filters;
    sql, sent := Run(builder, logic, Clamp(limit), offset);
    AllSent(filters, relative, Clamp(limit), offset);
    ok := true;
  }

  method Run(builder: QueryBuilder, logic: string, limit: int, offset: int) returns (sql: string, sent: seq<Json>)
    requires builder.Valid()
    ensures var all := Values(builder.groups) + [JInt(limit), JInt(offset)];
            Placeholders(sql) == Range(0, |all|) && sent == Sent(all)
  {
    var all;
    sql, all := builder.Build(logic, limit, offset);
    sent := Bind(all);
  }

  method Bind(bindings: seq<Json>) returns (sent: seq<Json>)
    ensures sent == Sent(bindings)
  {
    sent := [];
    for i := 0 to |bindings|
      invariant sent == Sent(bindings[..i])
    {
      assert bindings[..i + 1][..i] == bindings[..i];
      match bindings[i]
      case JString(_) => sent := sent + [bindings[i]];
      case JInt(_) => sent := sent + [bindings[i]];
      case JNumber => sent := sent + [JInt(0)];
      case _ =>
    }
    assert bindings[..|bindings|] == bindings;
  }

  /** A boolean status value is one placeholder too many: three in the text, two values sent. */
  method BooleanMisaligns(logic: string, limit: int, offset: int, relative: string -> Option<(string, string)>)
    returns (sql: string, sent: seq<Json>)
    ensures Placeholders(sql) == Range(0, 3) && sent == [JInt(Clamp(limit)), JInt(offset)]
  {
    var filter := Filter(Status, Eq, JOther);
    var ok;
    ok, sql, sent := ListAdvanced([filter], logic, limit, offset, relative);
    BooleanGroup(filter, relative);
    SkipsFirst(JInt(Clamp(limit)), JInt(offset));
  }

  lemma BooleanGroup(filter: Filter, relative: string -> Option<(string, string)>)
    requires filter == Filter(Status, Eq, JOther)
    ensures Translate(filter, relative).Sql? && Values(GroupsOf([filter], relative)) == [JOther]
  {
    var g := Group(Condition("status", Eq), [JOther]);
    assert [filter][..0] == [];
    assert GroupsOf([filter], relative) == [g];
    assert Values([g]) == g.values + Values([g][1..]);
  }

  lemma SkipsFirst(a: Json, b: Json)
    requires a.JInt? && b.JInt?
    ensures Sent([JOther] + [a, b]) == [a, b]
  {
    var v := [JOther] + [a, b];
    assert v[..2] == [JOther, a] && v[..2][..1] == [JOther] && [JOther][..0] == [];
    assert Sent([JOther]) == [];
    assert Sent(v[..2]) == [a];
  }
}
