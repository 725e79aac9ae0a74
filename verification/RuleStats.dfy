/**
 Rule hit statistics: a second parser of rule lines and a third form of the suffix relation,
 compared with what the filter engine itself blocks.
 */
module RuleStats {
  import opened Text
  import opened DomainSuffix
  import opened RuleSyntax
  import opened Wildcard
  import opened RuleSets
  import opened Subscription

  datatype RuleMatcher = Domain(domain: string) | Wildcard(re: Regex.Pattern) | SkipRule

  function HostsPrefix(r: string): Option<string> {
    if StartsWith(r, "0.0.0.0 ") then Some("0.0.0.0 ")
    else if StartsWith(r, "127.0.0.1 ") then Some("127.0.0.1 ")
    else if StartsWith(r, "::1 ") then Some("::1 ")
    else if StartsWith(r, "::0 ") then Some("::0 ")
    else None
  }

  /** A name after `*.`, `.` or a hosts address. */
  function NameMatcher(rest: string): RuleMatcher {
    var d := ToLower(Trim(rest));
    if d != "" && '*' !in d then Domain(d) else SkipRule
  }

  function BarMatcher(rest: string): RuleMatcher {
    var d := ToLower(NamePart(rest));
    if d == "" then SkipRule
    else if '*' in d then
      match Regex.Parse(RegexText(d))
      case Some(re) => Wildcard(re)
      case None => SkipRule
    else Domain(d)
  }

  function ParseTrimmed(r: string): RuleMatcher {
    if r == "" || r[0] == '#' || r[0] == '!' || StartsWith(r, "@@") then SkipRule
    else if StartsWith(r, "||") then BarMatcher(r[2..])
    else if StartsWith(r, "*.") then NameMatcher(r[2..])
    else if StartsWith(r, ".") then NameMatcher(r[1..])
    else if HostsPrefix(r).Some? then NameMatcher(r[|HostsPrefix(r).value|..])
    else if '*' in r || '/' in r || ' ' in r then SkipRule
    else Domain(ToLower(r))
  }

  function ParseRuleMatcher(rule: string): RuleMatcher { ParseTrimmed(Trim(rule)) }

  predicate DomainMatches(question: string, ruleDomain: string) {
    var q := ToLower(TrimRight(question, {'.'}));
    q == ruleDomain || EndsWith(q, "." + ruleDomain)
  }

  /** Whether a blocked query counts as a hit of the rule. */
  predicate Hit(m: RuleMatcher, question: string) {
    match m
    case Domain(d) => DomainMatches(question, d)
    case Wildcard(re) => Regex.IsMatch(re, TrimRight(question, {'.'}))
    case SkipRule => false
  }

  /**
   For every `||` rule with a valid dotted name, whatever its options and letter case, the
   statistics count exactly the names the engine blocks for that line.
   */
  lemma DomainHitsAreBlocks(d: string, tail: string, isIp: string -> bool, live: bool, question: string)
    requires DottedName(d) && OptionTail(tail)
    ensures Hit(ParseRuleMatcher("||" + d + tail), question) <==>
            Blocks(EffectOf("||" + d + tail, isIp), live, Normal(question))
  {
    BlockLineEffect(d, tail, isIp);
    LineMatcher(d, tail);
  }

  lemma LineMatcher(d: string, tail: string)
    requires DottedName(d) && OptionTail(tail)
    ensures ParseRuleMatcher("||" + d + tail) == Domain(ToLower(d))
  {
    TrimNamed("||", d, tail);
    BarLineMatcher("||" + d + TrimRight(tail, SPACES), d, TrimRight(tail, SPACES));
  }

  lemma BarLineMatcher(line: string, d: string, tail: string)
    requires line == "||" + d + tail && DottedName(d) && OptionTail(tail)
    ensures ParseTrimmed(line) == Domain(ToLower(d))
  {
    assert line[0] == '|' && line[2..] == d + tail;
    assert StartsWith(line, "||") by { assert line[..2] == "||"; }
    assert !StartsWith(line, "@@") by { assert line[..2][0] == '|'; }
    NameOnlyMatcher(d, tail);
  }

  lemma NoStar(d: string)
    requires DottedName(d)
    ensures d != "" && '*' !in ToLower(d)
  {
    DottedNameShape(d);
    forall i | 0 <= i < |d| ensures ToLower(d)[i] != '*' {
      assert d[i] in d;
    }
  }

  lemma NameOnlyMatcher(d: string, tail: string)
    requires DottedName(d) && OptionTail(tail)
    ensures BarMatcher(d + tail) == Domain(ToLower(d))
  {
    assert NamePart(d + tail) == d by {
      CutOptions(d, tail);
      NamePartOfName(d);
    }
    NoStar(d);
  }

  lemma EngineMeans(g: string, question: string)
    requires ToLower(g) == g
    ensures Engine(g, question) <==> Meaning(g, ToLower(question))
  {
    if Angled(g) { EngineFolds(g, question); } else { EngineIsGlob(g, question); }
  }

  /**
   For wildcard rules the statistics do not walk to parents: they count a name exactly when
   the engine's pattern covers it and it has as many labels as the pattern.
   */
  lemma WildcardHits(g: string, re: Regex.Pattern, question: string)
    requires ToLower(g) == g && Regex.Parse(RegexText(g)) == Some(re)
    ensures Hit(Wildcard(re), question) <==>
            GlobCovers(g, Normal(question)) && |Labels(Normal(question))| == |Labels(g)|
  {
    var name := Normal(question);
    EngineMeans(g, TrimRight(question, {'.'}));
    ParseRegexText(g);
    if Meaning(g, name) {
      assert Covers(name, name);
      MeaningLabels(g, name);
    }
    if GlobCovers(g, name) && |Labels(name)| == |Labels(g)| {
      var t :| Covers(t, name) && Meaning(g, t);
      MeaningLabels(g, t);
      CoversByLabels(t, name);
      assert Labels(name)[0..] == Labels(name);
      LabelsInjective(t, name);
    }
  }

  lemma StarLineMatcher(n: string, tail: string)
    requires StarName(n) && n[|n| - 1] !in SPACES && OptionTail(tail)
    ensures ParseRuleMatcher("||" + n + tail) == StarMatcher(ToLower(n))
  {
    TrimMarked("||", n, tail);
    StarTrimmedMatcher("||" + n + TrimRight(tail, SPACES), n, TrimRight(tail, SPACES));
  }

  /** The matcher of a wildcard pattern: none if the engine refuses its text. */
  function StarMatcher(g: string): RuleMatcher {
    match Regex.Parse(RegexText(g)) case Some(re) => Wildcard(re) case None => SkipRule
  }

  lemma StarTrimmedMatcher(line: string, n: string, tail: string)
    requires line == "||" + n + tail && StarName(n) && OptionTail(tail)
    ensures ParseTrimmed(line) == StarMatcher(ToLower(n))
  {
    assert line[0] == '|' && line[2..] == n + tail;
    assert StartsWith(line, "||") by { assert line[..2] == "||"; }
    assert !StartsWith(line, "@@") by { assert line[..2][0] == '|'; }
    StarNameMatcher(n, tail);
  }

  lemma StarNameMatcher(n: string, tail: string)
    requires StarName(n) && OptionTail(tail)
    ensures BarMatcher(n + tail) == StarMatcher(ToLower(n))
  {
    CutStarOptions(n, tail);
    LowerKeeps(n);
  }

  /**
   A `||` line with a star in its name counts a query exactly when the engine takes the pattern
   and, with it compiled, blocks the name for that line, and the name has as many labels as the
   pattern: subdomains of matching names are blocked but not counted.
   */
  lemma WildcardLineHits(n: string, tail: string, isIp: string -> bool, question: string)
    requires StarName(n) && n[|n| - 1] !in SPACES && OptionTail(tail)
    ensures Hit(ParseRuleMatcher("||" + n + tail), question) <==>
            && Ascii(ToLower(n))
            && Blocks(EffectOf("||" + n + tail, isIp), true, Normal(question))
            && |Labels(Normal(question))| == |Labels(ToLower(n))|
  {
    StarLineMatcher(n, tail);
    StarLineEffects(n, tail, isIp);
    ToLowerIdempotent(n);
    StarMatcherHits(ToLower(n), question);
  }

  lemma StarMatcherHits(g: string, question: string)
    requires ToLower(g) == g
    ensures Hit(StarMatcher(g), question) <==>
            && Ascii(g) && Blocks(BlockGlob(g), true, Normal(question))
            && |Labels(Normal(question))| == |Labels(g)|
  {
    ParseRegexText(g);
    if Ascii(g) { WildcardHits(g, Regex.Parse(RegexText(g)).value, question); }
  }

  // ----- Totals -----

  function Counted(m: RuleMatcher, name: string, count: int): int { if Hit(m, name) then count else 0 }

  /** `question_counts`: each row goes in under its lower-cased name, over any earlier one. */
  function Folded(rows: seq<(string, int)>): map<string, int> {
    if rows == [] then map[]
    else
      var n := |rows| - 1;
      Folded(rows[..n])[ToLower(rows[n].0) := rows[n].1]
  }

  ghost function AnyKey(counts: map<string, int>): (k: string)
    requires counts != map[]
    ensures k in counts
  {
    assert counts.Keys != {};
    var k :| k in counts;
    k
  }

  lemma Smaller(counts: map<string, int>, k: string)
    requires k in counts
    ensures |counts - {k}| < |counts|
  {
    assert (counts - {k}).Keys == counts.Keys - {k};
  }

  /** The counts of the names that hit. */
  ghost function MapTotal(m: RuleMatcher, counts: map<string, int>): int
    decreases |counts|
  {
    if counts == map[] then 0
    else
      var k := AnyKey(counts);
      Smaller(counts, k);
      Counted(m, k, counts[k]) + MapTotal(m, counts - {k})
  }

  /** The order in which the names are taken does not matter. */
  lemma {:induction false} MapTotalPick(m: RuleMatcher, counts: map<string, int>, k: string)
    requires k in counts
    ensures MapTotal(m, counts) == Counted(m, k, counts[k]) + MapTotal(m, counts - {k})
    decreases |counts|
  {
    var j := AnyKey(counts);
    if j != k {
      Smaller(counts, j);
      Smaller(counts, k);
      MapTotalPick(m, counts - {j}, k);
      MapTotalPick(m, counts - {k}, j);
      assert (counts - {j}) - {k} == (counts - {k}) - {j};
    }
  }

  lemma MapTotalInsert(m: RuleMatcher, counts: map<string, int>, k: string, count: int)
    ensures MapTotal(m, counts[k := count]) ==
            MapTotal(m, counts) - (if k in counts then Counted(m, k, counts[k]) else 0) + Counted(m, k, count)
  {
    MapTotalPick(m, counts[k := count], k);
    if k in counts {
      MapTotalPick(m, counts, k);
      assert counts[k := count] - {k} == counts - {k};
    } else {
      assert counts[k := count] - {k} == counts;
    }
  }

  /** The counts of all rows whose name hits. */
  function RowTotal(m: RuleMatcher, rows: seq<(string, int)>): int {
    if rows == [] then 0
    else
      var n := |rows| - 1;
      RowTotal(m, rows[..n]) + Counted(m, ToLower(rows[n].0), rows[n].1)
  }

  /** The counts of hitting names that later rows of the same lower-cased name overwrite. */
  function Overwritten(m: RuleMatcher, rows: seq<(string, int)>): int {
    if rows == [] then 0
    else
      var n := |rows| - 1;
      var before, k := Folded(rows[..n]), ToLower(rows[n].0);
      Overwritten(m, rows[..n]) + if k in before then Counted(m, k, before[k]) else 0
  }

  /** What is counted and what is overwritten is all there was. */
  lemma {:induction false} CountsConserved(m: RuleMatcher, rows: seq<(string, int)>)
    ensures MapTotal(m, Folded(rows)) + Overwritten(m, rows) == RowTotal(m, rows)
  {
    if rows != [] {
      var n := |rows| - 1;
      CountsConserved(m, rows[..n]);
      MapTotalInsert(m, Folded(rows[..n]), ToLower(rows[n].0), rows[n].1);
    }
  }

  /** The counter of one rule: fold the rows, then add up the names that hit, in any order. */
  method HitCount(rule: string, rows: seq<(string, int)>) returns (hits: int)
    ensures var m := ParseRuleMatcher(rule);
            hits == MapTotal(m, Folded(rows)) && hits + Overwritten(m, rows) == RowTotal(m, rows)
  {
    var m := ParseRuleMatcher(rule);
    var counts := FoldCounts(rows);
    hits := 0;
    var left := counts;
    while left != map[]
      invariant hits + MapTotal(m, left) == MapTotal(m, counts)
      decreases |left|
    {
      assert left.Keys != {};
      var question :| question in left;
      MapTotalPick(m, left, question);
      Smaller(left, question);
      if Hit(m, question) {
        hits := hits + left[question];
      }
      left := left - {question};
    }
    CountsConserved(m, rows);
  }

  method FoldCounts(rows: seq<(string, int)>) returns (counts: map<string, int>)
    ensures counts == Folded(rows)
  {
    counts := map[];
    for i := 0 to |rows|
      invariant counts == Folded(rows[..i])
    {
      assert rows[..i + 1][..i] == rows[..i];
      counts := counts[ToLower(rows[i].0) := rows[i].1];
    }
    assert rows[..|rows|] == rows;
  }

  // ----- When nothing is overwritten -----

  predicate Positive(rows: seq<(string, int)>) { forall i :: 0 <= i < |rows| ==> rows[i].1 > 0 }

  predicate Named(rows: seq<(string, int)>, i: int, k: string) { 0 <= i < |rows| && ToLower(rows[i].0) == k }

  lemma {:induction false} FoldedKeys(rows: seq<(string, int)>, k: string)
    ensures k in Folded(rows) <==> exists i :: Named(rows, i, k)
    ensures Positive(rows) && k in Folded(rows) ==> Folded(rows)[k] > 0
  {
    if rows != [] {
      var n := |rows| - 1;
      FoldedKeys(rows[..n], k);
      if i :| Named(rows[..n], i, k) { assert Named(rows, i, k); }
      if i :| Named(rows, i, k) { assert i == n || Named(rows[..n], i, k); }
      assert Named(rows, n, ToLower(rows[n].0));
    }
  }

  /** A name that hits occurs in two rows that differ in letter case only. */
  ghost predicate Repeated(m: RuleMatcher, rows: seq<(string, int)>) {
    exists i, j :: RepeatedAt(m, rows, i, j)
  }

  predicate RepeatedAt(m: RuleMatcher, rows: seq<(string, int)>, i: int, j: int) {
    0 <= i < j < |rows| && Named(rows, i, ToLower(rows[j].0)) && Hit(m, ToLower(rows[j].0))
  }

  lemma RepeatedSnoc(m: RuleMatcher, rows: seq<(string, int)>)
    requires rows != []
    ensures var n := |rows| - 1;
            Repeated(m, rows) <==>
            Repeated(m, rows[..n]) || (ToLower(rows[n].0) in Folded(rows[..n]) && Hit(m, ToLower(rows[n].0)))
  {
    var n := |rows| - 1;
    var k := ToLower(rows[n].0);
    FoldedKeys(rows[..n], k);
    if i, j :| RepeatedAt(m, rows, i, j) {
      if j < n { assert RepeatedAt(m, rows[..n], i, j); } else { assert Named(rows[..n], i, k); }
    }
    if i, j :| RepeatedAt(m, rows[..n], i, j) { assert RepeatedAt(m, rows, i, j); }
    if i :| Named(rows[..n], i, k) { assert Hit(m, k) ==> RepeatedAt(m, rows, i, n); }
  }

  /** For positive counts, something is overwritten exactly if a name that hits occurs twice. */
  lemma {:induction false} OverwrittenWhen(m: RuleMatcher, rows: seq<(string, int)>)
    requires Positive(rows)
    ensures Overwritten(m, rows) >= 0 && (Overwritten(m, rows) == 0 <==> !Repeated(m, rows))
  {
    if rows != [] {
      var n := |rows| - 1;
      OverwrittenWhen(m, rows[..n]);
      FoldedKeys(rows[..n], ToLower(rows[n].0));
      RepeatedSnoc(m, rows);
    }
  }

  // ----- Against the engine -----

  lemma {:induction false} TrimFolded(s: string, cs: set<char>)
    requires forall c :: Lower(c) in cs <==> c in cs
    ensures TrimRight(ToLower(s), cs) == ToLower(TrimRight(s, cs))
  {
    if s != "" {
      var n := |s| - 1;
      assert ToLower(s)[n] == Lower(s[n]);
      if s[n] in cs {
        assert ToLower(s)[..n] == ToLower(s[..n]);
        TrimFolded(s[..n], cs);
      }
    }
  }

  lemma NormalFolds(name: string)
    ensures Normal(ToLower(name)) == Normal(name)
  {
    TrimFolded(name, {'.'});
    ToLowerIdempotent(TrimRight(name, {'.'}));
  }

  /** Queries the engine blocks for the rule alone. */
  ghost function BlockTotal(e: Effect, live: bool, rows: seq<(string, int)>): int {
    if rows == [] then 0
    else
      var n := |rows| - 1;
      BlockTotal(e, live, rows[..n]) + if Blocks(e, live, Normal(rows[n].0)) then rows[n].1 else 0
  }

  /** For `||` rules with a valid name the rows that hit are those the engine blocked for that rule. */
  lemma {:induction false} RowsAgree(d: string, tail: string, isIp: string -> bool, live: bool,
                                     rows: seq<(string, int)>)
    requires DottedName(d) && OptionTail(tail)
    ensures RowTotal(ParseRuleMatcher("||" + d + tail), rows) == BlockTotal(EffectOf("||" + d + tail, isIp), live, rows)
  {
    if rows != [] {
      var n := |rows| - 1;
      RowsAgree(d, tail, isIp, live, rows[..n]);
      DomainHitsAreBlocks(d, tail, isIp, live, ToLower(rows[n].0));
      NormalFolds(rows[n].0);
    }
  }

  /**
   For `||` rules with a valid name the counter is what the engine blocked for that rule if and only
   if nothing is overwritten; with positive counts, if and only if no name the rule covers was
   logged in two letter cases.
   */
  lemma TotalsAgree(d: string, tail: string, isIp: string -> bool, live: bool, rows: seq<(string, int)>)
    requires DottedName(d) && OptionTail(tail)
    ensures var m, e := ParseRuleMatcher("||" + d + tail), EffectOf("||" + d + tail, isIp);
            && (MapTotal(m, Folded(rows)) == BlockTotal(e, live, rows) <==> Overwritten(m, rows) == 0)
            && (Positive(rows) ==>
                  (MapTotal(m, Folded(rows)) == BlockTotal(e, live, rows) <==> !Repeated(m, rows)))
  {
    var m := ParseRuleMatcher("||" + d + tail);
    RowsAgree(d, tail, isIp, live, rows);
    CountsConserved(m, rows);
    if Positive(rows) { OverwrittenWhen(m, rows); }
  }
}
