/** The statement of one cursor request: conditions numbered as they are added. */
module ListQuery {
  import opened Text
  import opened SqlText
  import opened QueryBuilders
  import opened AdvancedQuery

  datatype Bind = Text(s: string) | Number(i: int)

  datatype Params = Params(
    status: Option<string>, client: Option<string>, domain: Option<string>, upstream: Option<string>,
    qtype: Option<string>, cutoff: Option<string>, cursor: int, limit: int)

  const LIST_COLUMNS: seq<string> := [
    "id", "time::text as time", "client_ip", "client_name", "question", "qtype", "answer",
    "status", "reason", "elapsed_ns", "upstream_ns", "upstream"
  ]

  /** An optional test with the value it compares with, if given. */
  function Test(text: string, o: Option<Bind>): seq<(string, Bind)> { if o.Some? then [(text, o.value)] else [] }

  function Exactly(o: Option<string>): Option<Bind> { if o.Some? then Some(Text(o.value)) else None }

  function Containing(o: Option<string>): Option<Bind> { if o.Some? then Some(Text("%" + o.value + "%")) else None }

  /** The filter tests of the request, each beside the value bound for it. */
  function Tests(p: Params): seq<(string, Bind)> {
    Test("status = ", Exactly(p.status)) + Test("client_ip LIKE ", Containing(p.client))
    + Test("question LIKE ", Containing(p.domain)) + Test("upstream = ", Exactly(p.upstream))
    + Test("qtype = ", Exactly(p.qtype))
  }

  function ValuesOf(tests: seq<(string, Bind)>): (r: seq<Bind>)
    ensures |r| == |tests|
  {
    seq(|tests|, i requires 0 <= i < |tests| => tests[i].1)
  }

  /** The i-th test refers to the i-th value. */
  function NumberedTests(tests: seq<(string, Bind)>): seq<string> {
    seq(|tests|, i requires 0 <= i < |tests| => tests[i].0 + Dollar(i + 1))
  }

  function Cutoff(p: Params): seq<string> {
    if p.cutoff.Some? then ["time >= '" + p.cutoff.value + "'"] else []
  }

  /** What the request binds, in order. */
  function Binds(p: Params): seq<Bind> {
    ValuesOf(Tests(p)) + [Number(p.cursor), Number(Clamp(p.limit) + 1)]
  }

  const AND: string := " AND "

  /** The conditions so far use exactly the numbers below the next one. */
  ghost predicate Numbering(conditions: seq<string>, next: nat) {
    next >= 1 && Placeholders(Join(conditions, AND)) == Range(0, next - 1)
  }

  lemma {:induction false} JoinSnoc(parts: seq<string>, last: string, sep: string)
    ensures Join(parts + [last], sep) == if parts == [] then last else Join(parts, sep) + (sep + last)
  {
    if |parts| > 1 {
      assert (parts + [last])[1..] == parts[1..] + [last];
      JoinSnoc(parts[1..], last, sep);
    } else if |parts| == 1 {
      assert (parts + [last])[1..] == [last];
    }
  }

  lemma AndPlain()
    ensures Placeholders(AND) == [] && AND != "" && !IsDigit(AND[0])
  {
    NoPlaceholders(AND);
  }

  /** Another condition adds its own placeholders after the ones there are. */
  lemma Extend(conditions: seq<string>, condition: string)
    requires condition != "" && !IsDigit(condition[0])
    ensures Placeholders(Join(conditions + [condition], AND)) ==
            Placeholders(Join(conditions, AND)) + Placeholders(condition)
  {
    JoinSnoc(conditions, condition, AND);
    if conditions == [] {
      assert Placeholders("") == [];
    } else {
      AndPlain();
      PlaceholdersAppend(AND, condition);
      PlaceholdersAppend(Join(conditions, AND), AND + condition);
    }
  }

  lemma OneCondition(test: string, k: nat)
    requires '$' !in test
    ensures Placeholders(test + Dollar(k)) == [k]
  {
    NoPlaceholders(test);
    OnePlaceholder(k);
    PlaceholdersAppend(test, Dollar(k));
  }

  /** One optional test: pushed with the next number when the parameter is given. */
  method AddTest(conditions: seq<string>, ghost tests: seq<(string, Bind)>, text: string, value: Option<Bind>,
                 paramIdx: nat)
    returns (c: seq<string>, next: nat)
    requires Numbering(conditions, paramIdx) && conditions == NumberedTests(tests) && paramIdx == |tests| + 1
    requires '$' !in text && text != "" && !IsDigit(text[0])
    ensures Numbering(c, next) && c == NumberedTests(tests + Test(text, value))
    ensures next == |tests + Test(text, value)| + 1
  {
    c, next := conditions, paramIdx;
    if value.Some? {
      AddNumber(conditions, text, paramIdx);
      c := c + [text + Dollar(paramIdx)];
      next := next + 1;
      assert c == NumberedTests(tests + [(text, value.value)]);
    } else {
      assert tests + Test(text, value) == tests;
    }
  }

  lemma AddNumber(conditions: seq<string>, text: string, k: nat)
    requires Numbering(conditions, k) && '$' !in text && text != "" && !IsDigit(text[0])
    ensures Numbering(conditions + [text + Dollar(k)], k + 1)
  {
    Extend(conditions, text + Dollar(k));
    OneCondition(text, k);
    RangeSplit(0, k - 1, 1);
    assert Range(k - 1, 1) == [k];
  }

  // ----- Binding the values -----

  function Given(o: Option<Bind>): seq<Bind> { if o.Some? then [o.value] else [] }

  lemma ValuesAppend(a: seq<(string, Bind)>, text: string, o: Option<Bind>)
    ensures ValuesOf(a + Test(text, o)) == ValuesOf(a) + Given(o)
  {
  }

  lemma TestValues(a: Option<Bind>, b: Option<Bind>, c: Option<Bind>, d: Option<Bind>, e: Option<Bind>,
                   s: string, t: string, u: string, v: string, w: string)
    ensures ValuesOf(Test(s, a) + Test(t, b) + Test(u, c) + Test(v, d) + Test(w, e)) ==
            Given(a) + Given(b) + Given(c) + Given(d) + Given(e)
  {
    ValuesAppend([], s, a);
    assert [] + Test(s, a) == Test(s, a) && ValuesOf([]) + Given(a) == Given(a);
    ValuesAppend(Test(s, a), t, b);
    ValuesAppend(Test(s, a) + Test(t, b), u, c);
    ValuesAppend(Test(s, a) + Test(t, b) + Test(u, c), v, d);
    ValuesAppend(Test(s, a) + Test(t, b) + Test(u, c) + Test(v, d), w, e);
  }

  /** The second chain of tests, which binds the values: each is the value of the test numbered like it. */
  method BindValues(p: Params) returns (binds: seq<Bind>)
    ensures binds == Binds(p)
  {
    binds := [];
    if p.status.Some? { binds := binds + [Text(p.status.value)]; }
    assert binds == Given(Exactly(p.status));
    if p.client.Some? { binds := binds + [Text("%" + p.client.value + "%")]; }
    assert binds == Given(Exactly(p.status)) + Given(Containing(p.client));
    binds := BindRest(p, binds);
    binds := binds + [Number(p.cursor)];
    binds := binds + [Number(Clamp(p.limit) + 1)];
    TestValues(Exactly(p.status), Containing(p.client), Containing(p.domain), Exactly(p.upstream), Exactly(p.qtype),
               "status = ", "client_ip LIKE ", "question LIKE ", "upstream = ", "qtype = ");
  }

  method BindRest(p: Params, bound: seq<Bind>) returns (binds: seq<Bind>)
    ensures binds == bound + Given(Containing(p.domain)) + Given(Exactly(p.upstream)) + Given(Exactly(p.qtype))
  {
    binds := bound;
    if p.domain.Some? { binds := binds + [Text("%" + p.domain.value + "%")]; }
    assert binds == bound + Given(Containing(p.domain));
    if p.upstream.Some? { binds := binds + [Text(p.upstream.value)]; }
    assert binds == bound + Given(Containing(p.domain)) + Given(Exactly(p.upstream));
    if p.qtype.Some? { binds := binds + [Text(p.qtype.value)]; }
  }

  // ----- Writing the conditions -----

  method FilterTests(p: Params) returns (c: seq<string>, paramIdx: nat)
    ensures Numbering(c, paramIdx) && c == NumberedTests(Tests(p)) && paramIdx == |Tests(p)| + 1
  {
    c, paramIdx := [], 1;
    assert Placeholders("") == [];
    ghost var tests: seq<(string, Bind)> := [];
    c, paramIdx := AddTest(c, tests, "status = ", Exactly(p.status), paramIdx);
    assert tests + Test("status = ", Exactly(p.status)) == Test("status = ", Exactly(p.status));
    tests := Test("status = ", Exactly(p.status));
    c, paramIdx := AddTest(c, tests, "client_ip LIKE ", Containing(p.client), paramIdx);
    tests := tests + Test("client_ip LIKE ", Containing(p.client));
    c, paramIdx := LaterTests(p, c, tests, paramIdx);
  }

  method LaterTests(p: Params, conditions: seq<string>, ghost tests: seq<(string, Bind)>, k: nat)
    returns (c: seq<string>, paramIdx: nat)
    requires Numbering(conditions, k) && conditions == NumberedTests(tests) && k == |tests| + 1
    ensures var all := tests + Test("question LIKE ", Containing(p.domain)) + Test("upstream = ", Exactly(p.upstream))
                       + Test("qtype = ", Exactly(p.qtype));
            Numbering(c, paramIdx) && c == NumberedTests(all) && paramIdx == |all| + 1
  {
    ghost var all := tests;
    c, paramIdx := AddTest(conditions, all, "question LIKE ", Containing(p.domain), k);
    all := all + Test("question LIKE ", Containing(p.domain));
    c, paramIdx := AddTest(c, all, "upstream = ", Exactly(p.upstream), paramIdx);
    all := all + Test("upstream = ", Exactly(p.upstream));
    c, paramIdx := AddTest(c, all, "qtype = ", Exactly(p.qtype), paramIdx);
  }

  /** The conditions of a request: numbered tests, the time range as text, the cursor last. */
  function ConditionsOf(p: Params): seq<string> {
    NumberedTests(Tests(p)) + Cutoff(p) + ["id < " + Dollar(|Tests(p)| + 1)]
  }

  method Conditions(p: Params) returns (c: seq<string>, paramIdx: nat)
    requires p.cutoff.Some? ==> '$' !in p.cutoff.value
    ensures Numbering(c, paramIdx) && c == ConditionsOf(p) && paramIdx == |Binds(p)|
  {
    c, paramIdx := FilterTests(p);
    if p.cutoff.Some? {
      var text := "time >= '" + p.cutoff.value + "'";
      NoPlaceholders(text);
      Extend(c, text);
      c := c + [text];
    }
    AddNumber(c, "id < ", paramIdx);
    c := c + ["id < " + Dollar(paramIdx)];
    paramIdx := paramIdx + 1;
  }

  /** The statement of conditions and the number of the limit. */
  function Assembled(columns: string, conditions: string, limit: nat): string {
    Select(columns) + ("WHERE " + conditions) + (" ORDER BY id DESC LIMIT " + Dollar(limit))
  }

  function Statement(p: Params): string {
    Assembled(Join(LIST_COLUMNS, ", "), Join(ConditionsOf(p), AND), |Tests(p)| + 2)
  }

  method CursorParts(p: Params, columns: string) returns (sql: string, binds: seq<Bind>)
    requires (p.cutoff.Some? ==> '$' !in p.cutoff.value) && Plain(columns)
    ensures Placeholders(sql) == Range(0, |binds|) && binds == Binds(p)
    ensures sql == Assembled(columns, Join(ConditionsOf(p), AND), |Tests(p)| + 2)
  {
    var c, paramIdx := Conditions(p);
    binds := BindValues(p);
    sql := Assembled(columns, Join(c, AND), paramIdx);
    ClauseNumbers(columns, Join(c, AND), paramIdx);
  }

  /**
   The cursor request binds exactly the placeholders its text holds, each test the value given
   for it, whichever filters are present. The rendered timestamp holds no `$`.
   */
  method CursorQuery(p: Params) returns (sql: string, binds: seq<Bind>)
    requires p.cutoff.Some? ==> '$' !in p.cutoff.value
    ensures Placeholders(sql) == Range(0, |binds|) && binds == Binds(p) && sql == Statement(p)
  {
    ListColumnsPlain();
    sql, binds := CursorParts(p, Join(LIST_COLUMNS, ", "));
  }

  lemma EachListColumnPlain()
    ensures forall s :: s in LIST_COLUMNS ==> Plain(s)
  {
  }

  lemma ListColumnsPlain()
    ensures Plain(Join(LIST_COLUMNS, ", "))
  {
    EachListColumnPlain();
    PlainJoin(LIST_COLUMNS);
  }

  lemma ClauseNumbers(columns: string, conditions: string, paramIdx: nat)
    requires Plain(columns) && paramIdx >= 1 && Placeholders(conditions) == Range(0, paramIdx - 1)
    ensures Placeholders(Assembled(columns, conditions, paramIdx)) == Range(0, paramIdx)
  {
    var head, tail := Select(columns), " ORDER BY id DESC LIMIT " + Dollar(paramIdx);
    SelectPlain(columns);
    NoPlaceholders(head);
    OneCondition(" ORDER BY id DESC LIMIT ", paramIdx);
    WhereNumbers(conditions);
    PlaceholdersAppend(head, "WHERE " + conditions);
    PlaceholdersAppend(head + ("WHERE " + conditions), tail);
    RangeSplit(0, paramIdx - 1, 1);
    assert Range(paramIdx - 1, 1) == [paramIdx];
  }

  lemma WhereNumbers(conditions: string)
    ensures Placeholders("WHERE " + conditions) == Placeholders(conditions)
  {
    SkipChars("WHERE ", conditions);
  }

  lemma {:induction false} SkipChars(a: string, b: string)
    requires '$' !in a
    ensures Placeholders(a + b) == Placeholders(b)
  {
    if a == "" {
      assert a + b == b;
    } else {
      assert a[0] in a;
      assert (a + b)[1..] == a[1..] + b;
      SkipChars(a[1..], b);
    }
  }
}
