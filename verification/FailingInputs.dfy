/**
 Concrete inputs at which expected properties fail. The exact conditions are proved for all inputs
 where the operations are modelled; here is one input of each failing family.
 */
module FailingInputs {
  import opened Text
  import opened DomainSuffix
  import opened RuleSyntax
  import opened Wildcard
  import opened RuleSets
  import opened RuleLaws
  import opened Subscription
  import opened RuleStats
  import opened DnsPipeline
  import opened UpstreamPools
  import opened PoolAnswers
  import opened Csv
  import opened RuleTransfer

  // ----- Small names -----

  lemma TwoLabels(x: char, y: string)
    requires x != '.' && '.' !in y
    ensures Labels([x] + "." + y) == [[x], y]
  {
    var s := [x] + "." + y;
    assert s == [x] + ['.'] + y;
    SplitAt([x], y, '.');
    SplitNoSeparator([x], '.');
    SplitNoSeparator(y, '.');
  }

  lemma ShortName(d: string, x: char, y: string)
    requires d == [x] + "." + y && IsAlphanumeric(x) && Lower(x) == x && ToLower(y) == y && ValidLabel(y) && |y| < 10
    ensures DottedName(d)
  {
    assert d[1] == '.';
    assert ToLower(d) == d;
    TwoLabels(x, y);
    assert ValidLabel([x]);
  }

  // ----- A rule that silences the wildcards -----

  lemma Lowered(n: string)
    requires n == "*.a" || n == "b.a" || n == "*.\U{20AC}"
    ensures ToLower(n) == n
  {
  }

  lemma StarRule(n: string, isIp: string -> bool)
    requires n == "*.a" || n == "*.\U{20AC}"
    ensures EffectOf("||" + n + "^", isIp) == BlockGlob(n)
  {
    assert n[0] == '*' && n[1] == '.';
    Lowered(n);
    StarLineEffects(n, "^", isIp);
  }

  lemma StarCovers(g: string, n: string)
    requires g == "*.a" && n == "b.a"
    ensures GlobCovers(g, n)
  {
    var t := ".a";
    assert Glob("a", "a");
    assert t[0] == '.' && t[1..] == "a";
    assert Glob(t, t);
    assert g[1..] == t && n[1..] == t && n[..1] == "b";
    assert Glob(g, n);
    assert Covers(n, n) && Meaning(g, n);
  }

  lemma NormalIs(n: string)
    requires n == "b.a"
    ensures Normal(n) == n
  {
    assert TrimRight(n, {'.'}) == n;
    Lowered(n);
  }

  lemma OneWildcard(library: Library, e: Effect, n: string)
    requires e.BlockGlob? && Ascii(e.glob) && library.fits(Texts([e.glob])) && Normal(n) == n && GlobCovers(e.glob, n)
    ensures Loaded(library, [e], n) == Blocked && OnlyWildcards([e], n)
  {
    assert [e][..0] == [];
    assert Globs([e], false) == Globs([], false) + [e.glob] == [e.glob];
    assert e in (set r | r in [e]) && Blocks(e, true, n);
    assert forall r :: r in [e] ==> r == e;
  }

  lemma EffectsOfOne(l: string, isIp: string -> bool)
    ensures Effects([l], isIp) == [EffectOf(l, isIp)]
  {
  }

  lemma LineOf(line: string, g: string, isIp: string -> bool)
    requires (line == "||*.a^" && g == "*.a") || (line == "||*.\U{20AC}^" && g == "*.\U{20AC}")
    ensures EffectOf(line, isIp) == BlockGlob(g)
  {
    assert line == "||" + g + "^";
    StarRule(g, isIp);
  }

  lemma Alphabets(g: string, h: string)
    requires g == "*.a" && h == "*.\U{20AC}"
    ensures Ascii(g) && !Ascii(h)
  {
    assert h[2] in h && !Regex.IsAscii(h[2]);
  }

  /**
   After loading `||*.a^` the name `b.a` is blocked; with a second line `||*.` and a euro sign, whose
   escaped form the engine refuses, it no longer is.
   */
  lemma RejectedLine(library: Library, first: string, second: string, name: string)
    requires first == "||*.a^" && second == "||*.\U{20AC}^" && name == "b.a"
    requires library.fits(Texts(["*.a"]))
    ensures Loaded(library, Effects([first], library.isIp), name) == Blocked
    ensures Loaded(library, Effects([first, second], library.isIp), name) == NoMatch
  {
    var g, h := "*.a", "*.\U{20AC}";
    LineOf(first, g, library.isIp);
    LineOf(second, h, library.isIp);
    Alphabets(g, h);
    StarCovers(g, name);
    NormalIs(name);
    RejectedAfter(library, first, second, g, h, name);
  }

  lemma RejectedAfter(library: Library, first: string, second: string, g: string, h: string, n: string)
    requires EffectOf(first, library.isIp) == BlockGlob(g) && EffectOf(second, library.isIp) == BlockGlob(h)
    requires Ascii(g) && !Ascii(h) && library.fits(Texts([g])) && Normal(n) == n && GlobCovers(g, n)
    ensures Loaded(library, Effects([first], library.isIp), n) == Blocked
    ensures Loaded(library, Effects([first, second], library.isIp), n) == NoMatch
  {
    EffectsOfOne(first, library.isIp);
    OneWildcard(library, BlockGlob(g), n);
    assert [first] + [second] == [first, second];
    BlockLineMonotone(library, [first], second, BlockGlob(h), n);
  }

  /** The group line `||*.a^` blocks `b.a` once compiled, but group rules are not compiled. */
  lemma GroupLineInert(library: Library, line: string, name: string)
    requires line == "||*.a^" && name == "b.a" && library.fits(Texts(["*.a"]))
    ensures Loaded(library, Effects([line], library.isIp), name) == Blocked
    ensures Verdict((set e | e in Effects([line], library.isIp)), false, false, name) == NoMatch
  {
    var g := "*.a";
    LineOf(line, g, library.isIp);
    StarCovers(g, name);
    NormalIs(name);
    assert Ascii(g);
    EffectsOfOne(line, library.isIp);
    OneWildcard(library, BlockGlob(g), name);
    Inert(BlockGlob(g), name);
  }

  lemma Inert(e: Effect, name: string)
    requires e.BlockGlob?
    ensures Verdict((set x | x in [e]), false, false, name) == NoMatch
  {
    var all := set x | x in [e];
    assert forall x :: x in all ==> x == e;
  }

  // ----- Lines the normalisers change -----

  lemma {:induction false} ContainsAt(s: string, t: string, i: nat)
    requires i + |t| <= |s| && s[i..i + |t|] == t
    ensures Contains(s, t)
  {
    if i > 0 {
      assert s[1..][i - 1..i - 1 + |t|] == t;
      ContainsAt(s[1..], t, i - 1);
    }
  }

  lemma MarkIn(line: string)
    requires line == "||a.b^##"
    ensures Cosmetic(Trim(line))
  {
    TrimFixed(line);
    assert line[6..8] == "##";
    ContainsAt(line, "##", 6);
  }

  /** The engine blocks `a.b` for the line `||a.b^##`, but the list normaliser drops it. */
  lemma CosmeticMarkDropsRule(line: string, isIp: string -> bool)
    requires line == "||a.b^##"
    ensures EffectOf(line, isIp) == Block(ToLower("a.b")) && NormaliseAdguard(line) == Skip
  {
    var d, tail := "a.b", "^##";
    ShortName(d, 'a', "b");
    assert line == "||" + d + tail;
    BlockLineEffect(d, tail, isIp);
    MarkIn(line);
    CosmeticDropped(line);
  }

  predicate Word(w: string) { w != "" && forall c :: c in w ==> c !in SPACES }

  lemma OneBlank(d: string, s: string)
    requires Word(d) && s == " " + d
    ensures Words(s) == [d]
  {
    assert s[1..] == d && d[0] in d;
    assert TrimLeft(s, SPACES) == d;
    OneWord(d);
  }

  lemma Ends(line: string, w: string, rest: string, d: string)
    requires Word(w) && Word(d) && line == w + rest && rest == " " + d
    ensures line != "" && line[0] !in SPACES && line[|line| - 1] !in SPACES && line[|w|..] == rest
  {
    assert line[0] == w[0] && w[0] in w;
    assert line[|line| - 1] == d[|d| - 1] && d[|d| - 1] in d;
  }

  lemma TwoWords(line: string, w: string, rest: string, d: string)
    requires Word(w) && Word(d) && line == w + rest && rest == " " + d
    ensures Words(line) == [w, d]
  {
    Ends(line, w, rest, d);
    UntilBlank(w, rest);
    OneBlank(d, rest);
    WordsStart(line);
    assert Words(line) == [w] + Words(rest);
  }

  lemma TwoWordsTrimmed(line: string, w: string, rest: string, d: string)
    requires Word(w) && Word(d) && line == w + rest && rest == " " + d
    ensures Trim(line) == line
  {
    Ends(line, w, rest, d);
    TrimFixed(line);
  }

  lemma {:induction false} UntilBlank(w: string, rest: string)
    requires (forall c :: c in w ==> c !in SPACES) && rest != "" && rest[0] in SPACES
    ensures UntilSpace(w + rest) == w
  {
    if w == "" {
      assert w + rest == rest;
    } else {
      assert w[0] in w;
      assert (w + rest)[1..] == w[1..] + rest;
      UntilBlank(w[1..], rest);
    }
  }

  lemma EntryOf(line: string, w: string, d: string)
    requires Words(line) == [w, d] && line != "" && w != "" && line[0] == w[0] && Unmarked(w) && DottedName(d)
    ensures HostsEntry(line, d)
  {
  }

  lemma EntryChanged(line: string, w: string, d: string, isIp: string -> bool)
    requires Trim(line) == line && HostsEntry(line, d) && Words(line) == [w, d]
    requires !isIp(w) || EndsWith(d, ".local")
    ensures EffectOf(line, isIp) == Ignored && NormaliseHosts(line) == StoreBlock("||" + d + "^")
  {
    HostsNormalisation(line, d, isIp);
    HostsEntryEffect(line, d, isIp);
  }

  lemma LineEntry(line: string, w: string, rest: string, d: string)
    requires Word(w) && Unmarked(w) && Word(d) && DottedName(d) && line == w + rest && rest == " " + d
    ensures Trim(line) == line && HostsEntry(line, d) && Words(line) == [w, d]
  {
    TwoWordsTrimmed(line, w, rest, d);
    TwoWords(line, w, rest, d);
    Opens(line, w, rest);
    EntryOf(line, w, d);
  }

  lemma Opens(line: string, w: string, rest: string)
    requires w != "" && line == w + rest
    ensures line != "" && line[0] == w[0]
  {
  }

  lemma FirstWords(w: string)
    requires w == "::1" || w == "foo"
    ensures Word(w) && Unmarked(w)
  {
  }

  lemma SecondWords(d: string, y: string)
    requires (d == "a.local" && y == "local") || (d == "a.b" && y == "b")
    ensures Word(d) && DottedName(d) && (y == "local" ==> EndsWith(d, ".local"))
  {
    assert d == ['a'] + "." + y;
    ShortName(d, 'a', y);
    assert y == "local" ==> d[1..] == ".local";
  }

  /** The rule parser skips `::1 a.local`, but the hosts normaliser stores a rule that blocks the name. */
  lemma LocalNameBlocked(line: string, w: string, rest: string, d: string, isIp: string -> bool)
    requires line == "::1 a.local" && w == "::1" && rest == " a.local" && d == "a.local"
    ensures EffectOf(line, isIp) == Ignored && NormaliseHosts(line) == StoreBlock("||" + d + "^")
  {
    FirstWords(w);
    SecondWords(d, "local");
    assert line == w + rest && rest == " " + d;
    LineEntry(line, w, rest, d);
    EntryChanged(line, w, d, isIp);
  }

  /** The rule parser ignores `foo a.b`, which names no address, but the hosts normaliser blocks `a.b`. */
  lemma NoAddressBlocked(line: string, w: string, rest: string, d: string, isIp: string -> bool)
    requires line == "foo a.b" && w == "foo" && rest == " a.b" && d == "a.b" && !isIp(w)
    ensures EffectOf(line, isIp) == Ignored && NormaliseHosts(line) == StoreBlock("||" + d + "^")
  {
    FirstWords(w);
    SecondWords(d, "b");
    assert line == w + rest && rest == " " + d;
    LineEntry(line, w, rest, d);
    EntryChanged(line, w, d, isIp);
  }

  // ----- Statistics, rewrites, text -----

  lemma NamesOf(n: string, name: string)
    requires n == "*.a" && name == "c.b.a"
    ensures Normal(name) == name && |Labels(name)| == 3 && |Labels(n)| == 2
  {
    assert TrimRight(name, {'.'}) == name && ToLower(name) == name;
    TwoLabels('b', "a");
    assert name == "c" + ['.'] + "b.a";
    SplitAt("c", "b.a", '.');
    assert "b.a" == ['b'] + "." + "a";
    SplitNoSeparator("c", '.');
    TwoLabels('*', "a");
    assert n == ['*'] + "." + "a";
  }

  lemma NotCounted(line: string, n: string, name: string, isIp: string -> bool)
    requires line == "||" + n + "^" && StarName(n) && n[|n| - 1] !in SPACES && ToLower(n) == n
    requires |Labels(Normal(name))| != |Labels(n)|
    ensures !Hit(ParseRuleMatcher(line), name)
  {
    WildcardLineHits(n, "^", isIp, name);
  }

  lemma ParentBlocks(g: string, parent: string, name: string)
    requires GlobCovers(g, parent) && Covers(parent, name) && Normal(name) == name
    ensures Blocks(BlockGlob(g), true, Normal(name))
  {
    GlobCoversInherited(g, parent, name);
  }

  lemma ParentOf(parent: string, name: string)
    requires parent == "b.a" && name == "c.b.a"
    ensures Covers(parent, name)
  {
    assert name[1..] == "." + parent;
  }

  lemma StarIs(n: string, line: string)
    requires n == "*.a" && line == "||*.a^"
    ensures StarName(n) && n[|n| - 1] !in SPACES && line == "||" + n + "^"
  {
    assert n[0] == '*' && n[1] == '.';
  }

  /** The engine blocks `c.b.a` for the line `||*.a^`, but the statistics do not count it. */
  lemma SubdomainNotCounted(line: string, name: string, isIp: string -> bool)
    requires line == "||*.a^" && name == "c.b.a"
    ensures Blocks(EffectOf(line, isIp), true, Normal(name)) && !Hit(ParseRuleMatcher(line), name)
  {
    var n, parent := "*.a", "b.a";
    StarIs(n, line);
    NamesOf(n, name);
    Lowered(n);
    NotCounted(line, n, name, isIp);
    LineOf(line, n, isIp);
    StarCovers(n, parent);
    ParentOf(parent, name);
    ParentBlocks(n, parent, name);
  }

  lemma TwoCases(m: RuleMatcher, rows: seq<(string, int)>)
    requires rows == [("a.b", 5), ("A.B", 3)] && Hit(m, "a.b")
    ensures Repeated(m, rows) && Positive(rows)
  {
    assert ToLower("A.B") == "a.b" && ToLower("a.b") == "a.b";
    assert RepeatedAt(m, rows, 0, 1);
  }

  lemma OwnNameHits(d: string, tail: string)
    requires DottedName(d) && OptionTail(tail) && ToLower(d) == d
    ensures Hit(ParseRuleMatcher("||" + d + tail), d)
  {
    LineMatcher(d, tail);
    NoTrailingDot(d);
  }

  /** Five queries for `a.b` and three for `A.B`: the engine blocked eight, the counter says otherwise. */
  lemma TwoCasesMiscounted(d: string, rows: seq<(string, int)>, isIp: string -> bool, live: bool)
    requires d == "a.b" && rows == [("a.b", 5), ("A.B", 3)]
    ensures MapTotal(ParseRuleMatcher("||" + d + "^"), Folded(rows)) !=
            BlockTotal(EffectOf("||" + d + "^", isIp), live, rows)
  {
    SecondWords(d, "b");
    assert ToLower(d) == d;
    OwnNameHits(d, "^");
    TwoCases(ParseRuleMatcher("||" + d + "^"), rows);
    TotalsAgree(d, "^", isIp, live, rows);
  }

  /** Of two upstreams the first fails its lookup and the second does not: the first answers SERVFAIL. */
  method FailedNodeAnswers(encode: Message -> Option<seq<Byte>>, request: Request, records: seq<Record>)
    returns (reply: Reply)
    requires forall m :: encode(m).Some?
    ensures reply.Answered? && reply.upstream == "a"
    ensures encode(Message(request.id, ServFail, request.recursionDesired, true, request.queries, [])) ==
            Some(reply.answer)
  {
    var a, b := Node("1", "a", 1, 0), Node("2", "b", 2, 0);
    var pool := new UpstreamPool([a, b], Priority);
    var lookups := (n: Node) => if n == a then LookupFailed else Records(records);
    reply := ResolveThrough(pool, encode, request, lookups);
    assert a in pool.nodes && Able(encode, request, lookups(a));
    var n :| Leads(pool.nodes, pool.strategy, encode, request, lookups, n)
             && AnsweredBy(reply, n, encode, request, lookups(n));
    assert n.priority <= a.priority && n == a;
  }

  /** A group rewrite of `a` is not found for a query of `A`. */
  lemma UpperCaseMissesGroup()
    ensures FindRewrite(Some(map["a" := "1.2.3.4"]), map[], "A") == None
    ensures FindRewrite(Some(map["a" := "1.2.3.4"]), map[], ToLower("A")) == Some("1.2.3.4")
  {
    assert ToLower("A") == "a";
  }

  /** An exported rule that starts with a comment sign does not come back. */
  lemma CommentRuleLost(row: RuleRow, exportedAt: string)
    requires row == RuleRow("1", "#a", None, true, "", "", None) && '\n' !in exportedAt
    ensures ParsePlain(Unlines(Preamble(exportedAt) + RuleTransfer.Body([row]))) != EnabledRules([row])
  {
    assert !Portable(row.rule);
    NotCarried(row, exportedAt);
  }

  lemma SecondLine(text: string, a: string, b: string)
    requires text == a + ['\n'] + b && '\n' !in a && '\n' !in b && Portable(b)
    ensures !Silent(text)
  {
    SplitAt(a, b, '\n');
    SplitNoSeparator(a, '\n');
    SplitNoSeparator(b, '\n');
    assert Split(text, '\n')[1] == b;
  }

  lemma PortableExample(b: string)
    requires b == "||c.d^"
    ensures Portable(b)
  {
    TrimFixed(b);
  }

  lemma NotCarried(row: RuleRow, exportedAt: string)
    requires !Carried(row) && '\n' !in exportedAt
    ensures ParsePlain(Unlines(Preamble(exportedAt) + RuleTransfer.Body([row]))) != EnabledRules([row])
  {
    assert row in [row];
    TextRoundTrip([row], exportedAt);
  }

  /** The second line of a comment comes back as a rule. */
  lemma CommentBecomesRule(row: RuleRow, comment: string, rule: string, exportedAt: string)
    requires comment == "x\n||c.d^" && rule == "||c.d^" && '\n' !in exportedAt
    requires row == RuleRow("1", "a.b", Some(comment), true, "", "", None)
    ensures ParsePlain(Unlines(Preamble(exportedAt) + RuleTransfer.Body([row]))) != EnabledRules([row])
  {
    PortableExample(rule);
    assert comment == "x" + ['\n'] + rule;
    SecondLine(comment, "x", rule);
    NotCarried(row, exportedAt);
  }
}
