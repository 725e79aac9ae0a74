/**
 Laws of the filter verdict: loading lines and asking about a name, independence of line
 order, inheritance by subdomains, and what one more block line can change.
 */
module RuleLaws {
  import opened Text
  import opened DomainSuffix
  import opened RuleSyntax
  import opened Wildcard
  import opened RuleSets

  /** Whether the engine compiles the wildcards of one side. */
  ghost predicate Live(library: Library, rules: seq<Effect>, allow: bool) { Compiles(library, Globs(rules, allow)) }

  /** The verdict on a name after the rules are added to a fresh set and compiled. */
  ghost function Loaded(library: Library, rules: seq<Effect>, name: string): MatchResult {
    Verdict((set e | e in rules), Live(library, rules, true), Live(library, rules, false), name)
  }

  /** How many of the lines were rules. */
  ghost function Accepted(rules: seq<Effect>): nat {
    if rules == [] then 0
    else Accepted(rules[..|rules| - 1]) + if rules[|rules| - 1] != Ignored then 1 else 0
  }

  lemma AcceptedSnoc(rules: seq<Effect>, e: Effect)
    ensures Accepted(rules + [e]) == Accepted(rules) + if e != Ignored then 1 else 0
  {
    assert (rules + [e])[..|rules|] == rules;
  }

  lemma EffectsPrefix(lines: seq<string>, i: nat, isIp: string -> bool)
    requires i < |lines|
    ensures Effects(lines[..i + 1], isIp) == Effects(lines[..i], isIp) + [EffectOf(lines[i], isIp)]
  {
  }

  /** One line of the loop: added, and counted if it is a rule. */
  method AddCounted(rs: RuleSet, line: string, total: nat) returns (total': nat)
    requires rs.Valid() && rs.wildcardAllowedSet.None? && rs.wildcardBlockedSet.None? && total == Accepted(rs.rules)
    modifies rs
    ensures rs.Valid() && rs.rules == old(rs.rules) + [EffectOf(line, rs.library.isIp)]
    ensures rs.wildcardAllowedSet.None? && rs.wildcardBlockedSet.None? && total' == Accepted(rs.rules)
  {
    var added := rs.AddRule(line);
    AcceptedSnoc(old(rs.rules), EffectOf(line, rs.library.isIp));
    total' := if added then total + 1 else total;
  }

  /** Every line added to a fresh set, counting the rules. */
  method AddAll(library: Library, lines: seq<string>) returns (rs: RuleSet, total: nat)
    ensures fresh(rs) && rs.Valid() && rs.library == library
    ensures rs.rules == Effects(lines, library.isIp)
    ensures total == Accepted(rs.rules)
    ensures rs.wildcardAllowedSet.None? && rs.wildcardBlockedSet.None?
  {
    rs := new RuleSet(library);
    total := 0;
    for i := 0 to |lines|
      invariant fresh(rs) && rs.Valid() && rs.library == library
      invariant rs.rules == Effects(lines[..i], library.isIp)
      invariant total == Accepted(rs.rules)
      invariant rs.wildcardAllowedSet.None? && rs.wildcardBlockedSet.None?
    {
      total := AddCounted(rs, lines[i], total);
      EffectsPrefix(lines, i, library.isIp);
    }
    assert lines[..|lines|] == lines;
  }

  /** The rule part of `FilterEngine::reload`: a fresh set, every line added, then compiled. */
  method LoadRules(library: Library, lines: seq<string>) returns (rs: RuleSet, total: nat)
    ensures fresh(rs) && rs.Valid() && rs.library == library
    ensures rs.rules == Effects(lines, library.isIp)
    ensures total == Accepted(rs.rules)
    ensures rs.Built()
  {
    rs, total := AddAll(library, lines);
    rs.Build();
  }

  /** With no wildcard of a side among the rules, its compiled set cannot matter. */
  lemma LiveIrrelevant(rules: seq<Effect>, allowLive: bool, blockLive: bool, name: string)
    ensures Verdict((set e | e in rules), allowLive, blockLive, name) ==
            Verdict((set e | e in rules),
                    allowLive && Globs(rules, true) != [], blockLive && Globs(rules, false) != [], name)
  {
    GlobsOfRules(rules, true);
    GlobsOfRules(rules, false);
    var all, n := (set e | e in rules), Normal(name);
    AllowSplit(all, allowLive, n);
    AllowSplit(all, allowLive && Globs(rules, true) != [], n);
    BlockSplit(all, blockLive, n);
    BlockSplit(all, blockLive && Globs(rules, false) != [], n);
  }

  /** A compiled set answers with the verdict of its rules. */
  method AskBuilt(rs: RuleSet, name: string) returns (r: MatchResult)
    requires rs.Valid() && rs.Built()
    ensures r == Loaded(rs.library, rs.rules, name)
  {
    r := rs.MatchDomain(name);
    LiveIrrelevant(rs.rules, Live(rs.library, rs.rules, true), Live(rs.library, rs.rules, false), name);
  }

  /**
   The index refines the rule list: loading any lines and asking about any name gives the
   verdict read off the lines one by one.
   */
  method Ask(library: Library, lines: seq<string>, name: string) returns (r: MatchResult)
    ensures r == Loaded(library, Effects(lines, library.isIp), name)
  {
    var rs, _ := LoadRules(library, lines);
    r := AskBuilt(rs, name);
  }

  /** A client's group rules are added but never compiled, so their wildcards take no part. */
  method AskGroup(library: Library, lines: seq<string>, name: string) returns (r: MatchResult)
    ensures r == Verdict((set e | e in Effects(lines, library.isIp)), false, false, name)
  {
    var rs, _ := AddAll(library, lines);
    r := rs.MatchDomain(name);
  }

  ghost predicate SomeAllows(rules: set<Effect>, live: bool, name: string) {
    exists e :: e in rules && Allows(e, live, Normal(name))
  }

  ghost predicate SomeBlocks(rules: set<Effect>, live: bool, name: string) {
    exists e :: e in rules && Blocks(e, live, Normal(name))
  }

  /** Leaving wildcards out only takes allowing and blocking rules away. */
  lemma FewerWithout(rules: set<Effect>, live: bool, name: string)
    ensures SomeAllows(rules, false, name) ==> SomeAllows(rules, live, name)
    ensures SomeBlocks(rules, false, name) ==> SomeBlocks(rules, live, name)
  {
    var n := Normal(name);
    assert forall e :: (Allows(e, false, n) ==> Allows(e, live, n)) && (Blocks(e, false, n) ==> Blocks(e, live, n));
  }

  /**
   The verdict of a client's group is the one its rules would give if compiled, exactly when a plain
   rule allows the name, or no rule allows it and a plain rule blocks it or none does.
   */
  lemma GroupVerdict(library: Library, rules: seq<Effect>, name: string)
    ensures var all, allow, block := (set e | e in rules), Live(library, rules, true), Live(library, rules, false);
            Verdict(all, false, false, name) == Loaded(library, rules, name) <==>
            || SomeAllows(all, false, name)
            || (!SomeAllows(all, allow, name) && (SomeBlocks(all, false, name) || !SomeBlocks(all, block, name)))
  {
    var all := set e | e in rules;
    FewerWithout(all, Live(library, rules, true), name);
    FewerWithout(all, Live(library, rules, false), name);
  }

  /** One side's patterns are within the engine's size limit for both lists, or for neither. */
  ghost predicate SameSize(library: Library, a: seq<Effect>, b: seq<Effect>, allow: bool) {
    library.fits(Texts(Globs(a, allow))) == library.fits(Texts(Globs(b, allow)))
  }

  lemma SameLive(library: Library, a: seq<Effect>, b: seq<Effect>, allow: bool)
    requires (forall e :: e in a <==> e in b) && SameSize(library, a, b, allow)
    ensures Live(library, a, allow) == Live(library, b, allow)
  {
    GlobsOfRules(a, allow);
    GlobsOfRules(b, allow);
  }

  lemma SameEffects(a: seq<string>, b: seq<string>, isIp: string -> bool)
    requires forall l :: l in a ==> l in b
    ensures forall e :: e in Effects(a, isIp) ==> e in Effects(b, isIp)
  {
    forall i | 0 <= i < |a| ensures Effects(a, isIp)[i] in Effects(b, isIp) {
      assert a[i] in b;
      var j :| 0 <= j < |b| && b[j] == a[i];
      assert Effects(b, isIp)[j] == Effects(a, isIp)[i];
    }
  }

  lemma SameVerdict(library: Library, a: seq<Effect>, b: seq<Effect>, name: string)
    requires (forall e :: e in a <==> e in b)
    requires SameSize(library, a, b, true) && SameSize(library, a, b, false)
    ensures Loaded(library, a, name) == Loaded(library, b, name)
  {
    SameLive(library, a, b, true);
    SameLive(library, a, b, false);
    assert (set e | e in a) == set e | e in b;
  }

  /**
   Two lists with the same lines, in any order and number, give the same verdicts, unless only
   one of them exceeds the engine's size limit.
   */
  lemma OrderAndRepetitionIrrelevant(library: Library, a: seq<string>, b: seq<string>, name: string)
    requires forall l :: l in a <==> l in b
    requires SameSize(library, Effects(a, library.isIp), Effects(b, library.isIp), true)
    requires SameSize(library, Effects(a, library.isIp), Effects(b, library.isIp), false)
    ensures Loaded(library, Effects(a, library.isIp), name) == Loaded(library, Effects(b, library.isIp), name)
  {
    SameEffects(a, b, library.isIp);
    SameEffects(b, a, library.isIp);
    SameVerdict(library, Effects(a, library.isIp), Effects(b, library.isIp), name);
  }

  // ----- Inheritance -----

  lemma GlobCoversInherited(g: string, d: string, sub: string)
    requires GlobCovers(g, d) && Covers(d, sub)
    ensures GlobCovers(g, sub)
  {
    var t :| Covers(t, d) && Meaning(g, t);
    CoversTransitive(t, d, sub);
  }

  lemma CoversLower(x: string, t: string)
    ensures Covers(ToLower(t), ToLower(x + "." + t))
  {
    var s := ToLower(x + "." + t);
    assert s[|x|..] == "." + ToLower(t);
  }

  lemma SubdomainCovered(x: string, d: string)
    requires Normal(d) != ""
    ensures Covers(Normal(d), Normal(x + "." + d))
  {
    var t := TrimRight(d, {'.'});
    TrimRightAppend(x + ".", d, {'.'});
    assert TrimRight(x + "." + d, {'.'}) == x + "." + t;
    CoversLower(x, t);
  }

  /** No rule but "block everything" says anything about the empty name. */
  lemma EmptyNameUncovered(e: Effect, live: bool)
    requires Sound(e)
    ensures !Allows(e, live, "")
    ensures Blocks(e, live, "") <==> e == BlockAll
  {
    if e.AllowGlob? || e.BlockGlob? {
      var g := e.glob;
      SplitDot(g);
      assert Labels("") == [""];
      forall t | Covers(t, "") ensures !Meaning(g, t) {
        if Meaning(g, t) { MeaningLabels(g, t); }
      }
    }
  }

  lemma {:induction false} SplitDot(s: string)
    requires '.' in s
    ensures |Labels(s)| >= 2
  {
    LabelsStep(s);
  }

  /** A subdomain inherits: allowed names stay allowed, blocked ones never become unmatched. */
  lemma SubdomainsInherit(rules: set<Effect>, allowLive: bool, blockLive: bool, x: string, d: string)
    requires forall e :: e in rules ==> Sound(e)
    ensures var v, sub := Verdict(rules, allowLive, blockLive, d), Verdict(rules, allowLive, blockLive, x + "." + d);
            (v == Allowed ==> sub == Allowed) && (v == Blocked ==> sub != NoMatch)
  {
    var n, m := Normal(d), Normal(x + "." + d);
    forall e | e in rules
      ensures Allows(e, allowLive, n) ==> Allows(e, allowLive, m)
      ensures Blocks(e, blockLive, n) ==> Blocks(e, blockLive, m)
    {
      if n == "" {
        EmptyNameUncovered(e, allowLive);
        EmptyNameUncovered(e, blockLive);
      } else {
        SubdomainCovered(x, d);
        RuleInherited(e, allowLive, n, m);
        RuleInherited(e, blockLive, n, m);
      }
    }
  }

  lemma RuleInherited(e: Effect, live: bool, d: string, sub: string)
    requires Covers(d, sub)
    ensures Allows(e, live, d) ==> Allows(e, live, sub)
    ensures Blocks(e, live, d) ==> Blocks(e, live, sub)
  {
    if (e.Allow? || e.Block?) && Covers(e.domain, d) {
      CoversTransitive(e.domain, d, sub);
    } else if (e.AllowGlob? || e.BlockGlob?) && GlobCovers(e.glob, d) {
      GlobCoversInherited(e.glob, d, sub);
    }
  }

  // ----- One more block line -----

  /** Every rule that blocks the name is a wildcard. */
  ghost predicate OnlyWildcards(rules: seq<Effect>, name: string) {
    forall r :: r in rules && Blocks(r, true, Normal(name)) ==> r.BlockGlob?
  }

  /** The engine refuses the pattern list with the new pattern in it. */
  ghost predicate Rejected(library: Library, rules: seq<Effect>, e: Effect) {
    e.BlockGlob? && (!Ascii(e.glob) || !library.fits(Texts(Globs(rules, false) + [e.glob])))
  }

  lemma LiveSnoc(library: Library, rules: seq<Effect>, e: Effect)
    requires !e.Allow? && !e.AllowGlob?
    ensures Live(library, rules + [e], true) == Live(library, rules, true)
    ensures !e.BlockGlob? ==> Live(library, rules + [e], false) == Live(library, rules, false)
    ensures e.BlockGlob? && Live(library, rules, false) ==>
              (Live(library, rules + [e], false) <==> !Rejected(library, rules, e))
  {
    assert (rules + [e])[..|rules|] == rules;
    assert Globs(rules + [e], true) == Globs(rules, true);
    if !e.BlockGlob? {
      assert Globs(rules + [e], false) == Globs(rules, false);
    } else {
      assert Globs(rules + [e], false) == Globs(rules, false) + [e.glob];
      assert forall g :: g in Globs(rules, false) + [e.glob] <==> g in Globs(rules, false) || g == e.glob;
    }
  }

  lemma VerdictSnoc(rules: seq<Effect>, e: Effect, allowLive: bool, was: bool, now: bool, name: string)
    requires !e.Allow? && !e.AllowGlob?
    ensures var v, v' := Verdict((set r | r in rules), allowLive, was, name),
                         Verdict((set r | r in rules + [e]), allowLive, now, name);
            && (v == Allowed <==> v' == Allowed)
            && ((was ==> now) && v == Blocked ==> v' == Blocked)
  {
    var n := Normal(name);
    var a, b := (set r | r in rules), (set r | r in rules + [e]);
    assert forall r :: r in b <==> r in a || r == e;
    assert forall r :: r in rules && Blocks(r, was, n) && (was ==> now) ==> Blocks(r, now, n);
  }

  /** Without wildcards, the name stays blocked exactly if some plain rule blocks it. */
  lemma VerdictLost(rules: seq<Effect>, e: Effect, allowLive: bool, name: string)
    requires e.BlockGlob? && Verdict((set r | r in rules), allowLive, true, name) == Blocked
    ensures Verdict((set r | r in rules + [e]), allowLive, false, name) ==
            if OnlyWildcards(rules, name) then NoMatch else Blocked
  {
    var n := Normal(name);
    var a, b := (set r | r in rules), (set r | r in rules + [e]);
    assert forall r :: r in b <==> r in a || r == e;
    assert forall r :: r in rules <==> r in a;
    assert forall r :: Blocks(r, false, n) <==> Blocks(r, true, n) && !r.BlockGlob?;
    if !OnlyWildcards(rules, name) {
      var r :| r in rules && Blocks(r, true, n) && !r.BlockGlob?;
      assert r in b && Blocks(r, false, n);
    }
  }

  /**
   How a verdict may move from `v` to `v'` when `e` is added and compiled: a name keeps its verdict or
   becomes blocked, except that a pattern the engine refuses unblocks exactly the names that only
   wildcards blocked.
   */
  ghost predicate Moves(library: Library, rules: seq<Effect>, e: Effect, name: string,
                        v: MatchResult, v': MatchResult) {
    && (v == Allowed <==> v' == Allowed)
    && (v == Blocked ==> (v' == NoMatch <==> Rejected(library, rules, e) && OnlyWildcards(rules, name)))
  }

  lemma OneMoreRule(library: Library, rules: seq<Effect>, e: Effect, name: string)
    requires !e.Allow? && !e.AllowGlob?
    ensures Moves(library, rules, e, name, Loaded(library, rules, name), Loaded(library, rules + [e], name))
  {
    var was, now, allow := Live(library, rules, false), Live(library, rules + [e], false), Live(library, rules, true);
    LiveSnoc(library, rules, e);
    VerdictSnoc(rules, e, allow, was, now, name);
    if Verdict((set r | r in rules), allow, was, name) == Blocked {
      if was && !now {
        VerdictLost(rules, e, allow, name);
      } else if !was {
        DeadBlocks(rules, allow, name);
      }
    }
  }

  /** What is blocked without wildcards is blocked by some plain rule. */
  lemma DeadBlocks(rules: seq<Effect>, allowLive: bool, name: string)
    requires Verdict((set r | r in rules), allowLive, false, name) == Blocked
    ensures !OnlyWildcards(rules, name)
  {
    var r :| r in rules && Blocks(r, false, Normal(name));
    assert Blocks(r, true, Normal(name));
  }

  lemma EffectsSnoc(lines: seq<string>, l: string, isIp: string -> bool)
    ensures Effects(lines + [l], isIp) == Effects(lines, isIp) + [EffectOf(l, isIp)]
  {
  }

  /** Loading one more line that is no exception rule. */
  lemma BlockLineMonotone(library: Library, lines: seq<string>, l: string, e: Effect, name: string)
    requires e == EffectOf(l, library.isIp) && !e.Allow? && !e.AllowGlob?
    ensures Moves(library, Effects(lines, library.isIp), e, name,
                  Loaded(library, Effects(lines, library.isIp), name),
                  Loaded(library, Effects(lines + [l], library.isIp), name))
  {
    EffectsSnoc(lines, l, library.isIp);
    OneMoreRule(library, Effects(lines, library.isIp), e, name);
  }

  /** `FilterEngine::add_rule_live`: the current set is copied, extended and compiled. */
  method AddRuleLive(current: RuleSet, rule: string) returns (rs: RuleSet)
    requires current.Valid()
    ensures fresh(rs) && rs.Valid() && rs.Built() && rs.library == current.library
    ensures rs.rules == current.rules + [EffectOf(rule, current.library.isIp)]
  {
    rs := new RuleSet.Clone(current);
    var _ := rs.AddRule(rule);
    rs.Build();
  }

  /** Asking before and after a rule that is no exception is added to a running engine. */
  method AskAround(current: RuleSet, rule: string, name: string) returns (before: MatchResult, after: MatchResult)
    requires current.Valid() && current.Built()
    ensures before == Loaded(current.library, current.rules, name)
    ensures after == Loaded(current.library, current.rules + [EffectOf(rule, current.library.isIp)], name)
    ensures var e := EffectOf(rule, current.library.isIp);
            !e.Allow? && !e.AllowGlob? ==> Moves(current.library, current.rules, e, name, before, after)
  {
    before := AskBuilt(current, name);
    var rs := AddRuleLive(current, rule);
    after := AskBuilt(rs, name);
    ghost var e := EffectOf(rule, current.library.isIp);
    if !e.Allow? && !e.AllowGlob? {
      OneMoreRule(current.library, current.rules, e, name);
    }
  }
}
