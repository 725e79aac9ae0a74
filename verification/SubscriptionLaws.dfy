/**
 Whole subscription lists: when every line of a list is kept faithfully, loading the stored
 rules gives the same verdict for every name as loading the original lines.
 */
module SubscriptionLaws {
  import opened Text
  import opened RuleSyntax
  import opened RuleSets
  import opened RuleLaws
  import opened Subscription

  /** A dropped line asked for nothing; a stored one asks for what the line asked for. */
  predicate Faithful(line: string, isIp: string -> bool) {
    match NormaliseAdguard(line)
    case Skip => EffectOf(line, isIp) == Ignored
    case StoreBlock(rule) => EffectOf(rule, isIp) == EffectOf(line, isIp)
    case StoreAllow(rule) => EffectOf(rule, isIp) == EffectOf(line, isIp)
  }

  /** Everything stored for a list. */
  function Stored(lines: seq<string>): seq<string> { StoredOf(lines, false) + StoredOf(lines, true) }

  // ----- Stored rules keep to their side -----

  /** The mark in front of a stored rule says which list it is in. */
  predicate Marked(s: Stored) {
    match s
    case Skip => true
    case StoreBlock(rule) => StartsWith(rule, "||")
    case StoreAllow(rule) => StartsWith(rule, "@@||")
  }

  lemma NamedMarks(d: string)
    ensures Marked(StoreBlock("||" + d + "^")) && Marked(StoreAllow("@@||" + d + "^"))
  {
    assert ("||" + d + "^")[..2] == "||";
    assert ("@@||" + d + "^")[..4] == "@@||";
  }

  lemma DotMarked(line: string)
    requires |line| > 1
    ensures Marked(DotRule(line))
  {
    NamedMarks(TrimRight(Before(Before(line[1..], '^'), '$'), {'.'}));
  }

  lemma PlainMarked(line: string)
    requires line != ""
    ensures Marked(PlainRule(line))
  {
    NamedMarks(TrimRight(line, {'^', '$'}));
  }

  lemma RuleMarked(line: string)
    requires line != ""
    ensures Marked(NormaliseRule(line))
  {
    if line[0] == '.' && |line| > 1 {
      DotMarked(line);
    } else if StartsWith(line, "@@||") && Capture(line[4..]).Some? {
      NamedMarks(Capture(line[4..]).value);
    } else if StartsWith(line, "||") && Capture(line[2..]).Some? {
      NamedMarks(Capture(line[2..]).value);
    } else {
      PlainMarked(line);
    }
  }

  lemma StoredMarks(raw: string)
    ensures Marked(NormaliseAdguard(raw))
  {
    if Trim(raw) != "" { RuleMarked(Trim(raw)); }
  }

  /** Trimming keeps a mark at the front. */
  lemma TrimKeepsMark(rule: string, mark: string)
    requires mark != "" && StartsWith(rule, mark) && mark[0] !in SPACES && mark[|mark| - 1] !in SPACES
    ensures StartsWith(Trim(rule), mark)
  {
    assert rule[0] == rule[..|mark|][0];
    assert TrimLeft(rule, SPACES) == rule;
    assert rule[|mark| - 1] == rule[..|mark|][|mark| - 1];
    var t := TrimRight(rule, SPACES);
    assert |mark| <= |t|;
    assert t[..|mark|] == rule[..|mark|];
  }

  lemma MarkedEffect(line: string, isIp: string -> bool)
    requires StartsWith(line, "||") || StartsWith(line, "@@||")
    ensures var e := LineEffect(line, isIp);
            if StartsWith(line, "||") then !e.Allow? && !e.AllowGlob? else e.Ignored? || e.Allow? || e.AllowGlob?
  {
    if StartsWith(line, "||") {
      assert line[0] == line[..2][0];
      assert !StartsWith(line, "@@");
    } else {
      assert line[0] == line[..4][0] && line[..2] == line[..4][..2];
      assert StartsWith(line, "@@");
    }
  }

  /** A stored block rule is never an exception, a stored exception never blocks. */
  lemma StoredSides(raw: string, isIp: string -> bool)
    ensures var s := NormaliseAdguard(raw);
            && (s.StoreBlock? ==> !EffectOf(s.rule, isIp).Allow? && !EffectOf(s.rule, isIp).AllowGlob?)
            && (s.StoreAllow? ==> !EffectOf(s.rule, isIp).BlockGlob?)
  {
    var s := NormaliseAdguard(raw);
    StoredMarks(raw);
    if s.StoreBlock? {
      TrimKeepsMark(s.rule, "||");
      MarkedEffect(Trim(s.rule), isIp);
    } else if s.StoreAllow? {
      TrimKeepsMark(s.rule, "@@||");
      AllowMarked(Trim(s.rule), isIp);
    }
  }

  lemma AllowMarked(line: string, isIp: string -> bool)
    requires StartsWith(line, "@@||")
    ensures !LineEffect(line, isIp).BlockGlob?
  {
    assert !StartsWith(line, "||") by { assert line[0] == line[..4][0] && |line| >= 2 ==> line[..2][0] == line[0]; }
    MarkedEffect(line, isIp);
  }

  // ----- Both lists have the same rules, and the same patterns in the same order -----

  /** The pattern one rule adds to a side. */
  function OwnGlob(e: Effect, allow: bool): seq<string> {
    if (allow && e.AllowGlob?) || (!allow && e.BlockGlob?) then [e.glob] else []
  }

  lemma GlobsSnoc(rules: seq<Effect>, e: Effect, allow: bool)
    ensures Globs(rules + [e], allow) == Globs(rules, allow) + OwnGlob(e, allow)
  {
    assert (rules + [e])[..|rules|] == rules;
  }

  lemma {:induction false} GlobsAppend(a: seq<Effect>, b: seq<Effect>, allow: bool)
    ensures Globs(a + b, allow) == Globs(a, allow) + Globs(b, allow)
    decreases |b|
  {
    if b == [] {
      assert a + b == a;
    } else {
      var n := |b| - 1;
      assert a + b == (a + b[..n]) + [b[n]] && b == b[..n] + [b[n]];
      GlobsAppend(a, b[..n], allow);
      GlobsSnoc(a + b[..n], b[n], allow);
      GlobsSnoc(b[..n], b[n], allow);
    }
  }

  /** What the stored rule of one line asks for, in the list of its kind. */
  ghost function KeptEffect(l: string, isIp: string -> bool, allow: bool): seq<Effect> {
    var s := NormaliseAdguard(l);
    if (allow && s.StoreAllow?) || (!allow && s.StoreBlock?) then [EffectOf(s.rule, isIp)] else []
  }

  lemma StoredSnoc(lines: seq<string>, l: string, isIp: string -> bool, allow: bool)
    ensures Effects(StoredOf(lines + [l], allow), isIp) ==
            Effects(StoredOf(lines, allow), isIp) + KeptEffect(l, isIp, allow)
  {
    assert (lines + [l])[..|lines|] == lines;
    var s := NormaliseAdguard(l);
    if (allow && s.StoreAllow?) || (!allow && s.StoreBlock?) {
      EffectsSnoc(StoredOf(lines, allow), s.rule, isIp);
    }
  }

  /** The two kept parts `block` and `allow` of a line that asks for `e`: its rule once, on its side. */
  predicate Parts(e: Effect, block: seq<Effect>, allow: seq<Effect>) {
    || (block == [e] && allow == [] && !e.AllowGlob?)
    || (block == [] && allow == [e] && !e.BlockGlob?)
    || (block == [] && allow == [] && e == Ignored)
  }

  lemma KeptParts(l: string, isIp: string -> bool)
    requires Faithful(l, isIp)
    ensures Parts(EffectOf(l, isIp), KeptEffect(l, isIp, false), KeptEffect(l, isIp, true))
  {
    StoredSides(l, isIp);
  }

  lemma GlobsMaybe(rules: seq<Effect>, part: seq<Effect>, allow: bool)
    requires |part| <= 1
    ensures Globs(rules + part, allow) == Globs(rules, allow) + if part == [] then [] else OwnGlob(part[0], allow)
  {
    if part == [] {
      assert rules + part == rules;
    } else {
      assert part == [part[0]];
      GlobsSnoc(rules, part[0], allow);
    }
  }

  /** One line more: the patterns of a side grow alike in the lines and in what is stored. */
  lemma PatternsStep(raw: seq<Effect>, blocks: seq<Effect>, allows: seq<Effect>,
                     e: Effect, block: seq<Effect>, allow: seq<Effect>, side: bool)
    requires Parts(e, block, allow)
    requires Globs(if side then allows else blocks, side) == Globs(raw, side)
    requires Globs(if side then blocks else allows, side) == []
    ensures Globs(if side then allows + allow else blocks + block, side) == Globs(raw + [e], side)
    ensures Globs(if side then blocks + block else allows + allow, side) == []
  {
    GlobsSnoc(raw, e, side);
    GlobsMaybe(blocks, block, side);
    GlobsMaybe(allows, allow, side);
  }

  /** The patterns of each side of the stored rules are those of the lines, in the same order. */
  lemma {:induction false} StoredGlobs(lines: seq<string>, isIp: string -> bool)
    requires forall l :: l in lines ==> Faithful(l, isIp)
    ensures var raw, blocks, allows := Effects(lines, isIp), Effects(StoredOf(lines, false), isIp),
                                       Effects(StoredOf(lines, true), isIp);
            && Globs(blocks, false) == Globs(raw, false) && Globs(allows, false) == []
            && Globs(allows, true) == Globs(raw, true) && Globs(blocks, true) == []
  {
    if lines != [] {
      var n := |lines| - 1;
      var rest, l := lines[..n], lines[n];
      assert lines == rest + [l];
      assert forall x :: x in rest ==> x in lines;
      StoredGlobs(rest, isIp);
      EffectsSnoc(rest, l, isIp);
      StoredSnoc(rest, l, isIp, false);
      StoredSnoc(rest, l, isIp, true);
      KeptParts(l, isIp);
      var raw := Effects(rest, isIp);
      var blocks, allows := Effects(StoredOf(rest, false), isIp), Effects(StoredOf(rest, true), isIp);
      var e, block, allow := EffectOf(l, isIp), KeptEffect(l, isIp, false), KeptEffect(l, isIp, true);
      PatternsStep(raw, blocks, allows, e, block, allow, false);
      PatternsStep(raw, blocks, allows, e, block, allow, true);
    }
  }

  lemma EffectsAppend(a: seq<string>, b: seq<string>, isIp: string -> bool)
    ensures Effects(a + b, isIp) == Effects(a, isIp) + Effects(b, isIp)
  {
  }

  lemma PatternsKept(lines: seq<string>, isIp: string -> bool, allow: bool)
    requires forall l :: l in lines ==> Faithful(l, isIp)
    ensures Globs(Effects(Stored(lines), isIp), allow) == Globs(Effects(lines, isIp), allow)
  {
    EffectsAppend(StoredOf(lines, false), StoredOf(lines, true), isIp);
    StoredGlobs(lines, isIp);
    GlobsAppend(Effects(StoredOf(lines, false), isIp), Effects(StoredOf(lines, true), isIp), allow);
  }

  /** Apart from `Ignored`, the two kept lists hold together what the raw list holds. */
  ghost predicate SameBut(raw: seq<Effect>, blocks: seq<Effect>, allows: seq<Effect>) {
    forall e :: e != Ignored ==> (e in raw <==> e in blocks || e in allows)
  }

  lemma SameButSnoc(raw: seq<Effect>, blocks: seq<Effect>, allows: seq<Effect>,
                    e: Effect, block: seq<Effect>, allow: seq<Effect>)
    requires SameBut(raw, blocks, allows) && Parts(e, block, allow)
    ensures SameBut(raw + [e], blocks + block, allows + allow)
  {
  }

  /** A rule other than the empty one is stored exactly when some line asks for it. */
  lemma {:induction false} RulesKept(lines: seq<string>, isIp: string -> bool)
    requires forall l :: l in lines ==> Faithful(l, isIp)
    ensures SameBut(Effects(lines, isIp), Effects(StoredOf(lines, false), isIp), Effects(StoredOf(lines, true), isIp))
  {
    if lines != [] {
      var n := |lines| - 1;
      var rest, l := lines[..n], lines[n];
      assert lines == rest + [l];
      assert forall x :: x in rest ==> x in lines;
      RulesKept(rest, isIp);
      EffectsSnoc(rest, l, isIp);
      StoredSnoc(rest, l, isIp, false);
      StoredSnoc(rest, l, isIp, true);
      KeptParts(l, isIp);
      SameButSnoc(Effects(rest, isIp), Effects(StoredOf(rest, false), isIp), Effects(StoredOf(rest, true), isIp),
                  EffectOf(l, isIp), KeptEffect(l, isIp, false), KeptEffect(l, isIp, true));
    }
  }

  /** Ignored lines have no part in a verdict. */
  lemma VerdictSkipsIgnored(a: set<Effect>, b: set<Effect>, allowLive: bool, blockLive: bool, name: string)
    requires forall e :: e != Ignored ==> (e in a <==> e in b)
    ensures Verdict(a, allowLive, blockLive, name) == Verdict(b, allowLive, blockLive, name)
  {
    var n := Normal(name);
    assert forall e :: Allows(e, allowLive, n) ==> (e in a <==> e in b);
    assert forall e :: Blocks(e, blockLive, n) ==> (e in a <==> e in b);
  }

  /**
   A list of faithful lines filters every name alike before and after normalisation: loading the
   stored rules and compiling their wildcards gives the verdicts of loading the lines themselves.
   */
  lemma SubscriptionKeepsVerdicts(library: Library, lines: seq<string>, name: string)
    requires forall l :: l in lines ==> Faithful(l, library.isIp)
    ensures Loaded(library, Effects(Stored(lines), library.isIp), name) ==
            Loaded(library, Effects(lines, library.isIp), name)
  {
    var raw, kept := Effects(lines, library.isIp), Effects(Stored(lines), library.isIp);
    PatternsKept(lines, library.isIp, true);
    PatternsKept(lines, library.isIp, false);
    RulesKept(lines, library.isIp);
    EffectsAppend(StoredOf(lines, false), StoredOf(lines, true), library.isIp);
    VerdictSkipsIgnored((set e | e in kept), (set e | e in raw),
                        Live(library, raw, true), Live(library, raw, false), name);
  }

  /** The same end to end: parsing a list, loading what is stored and asking about a name. */
  method AskSubscription(library: Library, content: string, name: string) returns (r: MatchResult)
    requires forall l :: l in Lines(content) ==> Faithful(l, library.isIp)
    ensures r == Loaded(library, Effects(Lines(content), library.isIp), name)
  {
    var blockRules, allowRules := ParseAdguardRules(content);
    r := Ask(library, blockRules + allowRules, name);
    SubscriptionKeepsVerdicts(library, Lines(content), name);
  }

  // ----- Lines that are faithful -----

  /** The documented rule forms for valid names are faithful unless their options hold a cosmetic mark. */
  lemma NamedLinesFaithful(d: string, tail: string, isIp: string -> bool)
    requires DottedName(d) && OptionTail(tail)
    ensures Faithful("||" + d + tail, isIp) <==> !Cosmetic(Trim("||" + d + tail))
    ensures Faithful("@@||" + d + tail, isIp) <==> !Cosmetic(Trim("@@||" + d + tail))
    ensures Faithful("." + d + tail, isIp) <==> !Cosmetic(Trim("." + d + tail))
    ensures Faithful(d, isIp)
  {
    NormalisationKeepsMeaning(d, tail, isIp);
    BlockLineEffect(d, tail, isIp);
    AllowLineEffect(d, tail, isIp);
    DotLineEffect(d, tail, isIp);
  }

  /** So are wildcard lines. */
  lemma WildcardLinesFaithful(line: string, isIp: string -> bool)
    requires !Cosmetic(Trim(line)) && (StarLine(Trim(line), "||") || StarLine(Trim(line), "@@||"))
    ensures Faithful(line, isIp)
  {
    WildcardLinesPass(line, isIp);
  }

  /** So are blank lines, comments and regular expressions. */
  lemma SkippedLinesFaithful(line: string, isIp: string -> bool)
    requires var t := Trim(line); Commented(t) || (t[0] == '/' && t[|t| - 1] == '/')
    ensures Faithful(line, isIp)
  {
  }
}
