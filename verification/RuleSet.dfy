/**
 The rule set: hash sets and compiled wildcard sets on one side, the list of lines they came
 from on the other. Every lookup is proved to answer what the lines say.
 */
module RuleSets {
  import opened Text
  import opened DomainSuffix
  import opened RuleSyntax
  import opened Wildcard

  datatype MatchResult = Allowed | Blocked | NoMatch

  /** The foreign calls: address parsing, and whether a pattern list is within `RegexSet`'s size limit. */
  datatype Library = Library(isIp: string -> bool, fits: seq<string> -> bool)

  // ----- What the lines say -----

  /** A queried name as compared with rules. */
  function Normal(name: string): string { ToLower(TrimRight(name, {'.'})) }

  ghost predicate Allows(e: Effect, live: bool, name: string) {
    match e
    case Allow(d) => Covers(d, name)
    case AllowGlob(g) => live && GlobCovers(g, name)
    case _ => false
  }

  ghost predicate Blocks(e: Effect, live: bool, name: string) {
    match e
    case BlockAll => true
    case Block(d) => Covers(d, name)
    case BlockGlob(g) => live && GlobCovers(g, name)
    case _ => false
  }

  /**
   The verdict of a set of rules, one by one. `allowLive` and `blockLive` say whether the
   allow and block wildcards take part; order and repetition of rules do not matter.
   */
  ghost function Verdict(rules: set<Effect>, allowLive: bool, blockLive: bool, name: string): MatchResult {
    if exists e :: e in rules && Allows(e, allowLive, Normal(name)) then Allowed
    else if exists e :: e in rules && Blocks(e, blockLive, Normal(name)) then Blocked
    else NoMatch
  }

  /** Some rule allows: a name in the allow list covers, or a live pattern does. */
  lemma AllowSplit(rules: set<Effect>, live: bool, name: string)
    ensures (exists e :: e in rules && Allows(e, live, name)) <==>
            || (exists d :: Allow(d) in rules && Covers(d, name))
            || (live && exists g :: AllowGlob(g) in rules && GlobCovers(g, name))
  {
    if e :| e in rules && Allows(e, live, name) {
      assert e.Allow? ==> Allow(e.domain) in rules;
      assert e.AllowGlob? ==> AllowGlob(e.glob) in rules;
    }
    if d :| Allow(d) in rules && Covers(d, name) {
      assert Allows(Allow(d), live, name);
    }
    if g :| live && AllowGlob(g) in rules && GlobCovers(g, name) {
      assert Allows(AllowGlob(g), live, name);
    }
  }

  lemma BlockSplit(rules: set<Effect>, live: bool, name: string)
    ensures (exists e :: e in rules && Blocks(e, live, name)) <==>
            || BlockAll in rules
            || (exists d :: Block(d) in rules && Covers(d, name))
            || (live && exists g :: BlockGlob(g) in rules && GlobCovers(g, name))
  {
    if e :| e in rules && Blocks(e, live, name) {
      assert e.Block? ==> Block(e.domain) in rules;
      assert e.BlockGlob? ==> BlockGlob(e.glob) in rules;
    }
    if BlockAll in rules {
      assert Blocks(BlockAll, live, name);
    }
    if d :| Block(d) in rules && Covers(d, name) {
      assert Blocks(Block(d), live, name);
    }
    if g :| live && BlockGlob(g) in rules && GlobCovers(g, name) {
      assert Blocks(BlockGlob(g), live, name);
    }
  }

  ghost function Effects(lines: seq<string>, isIp: string -> bool): (r: seq<Effect>)
    ensures forall e :: e in r ==> Sound(e)
  {
    seq(|lines|, i requires 0 <= i < |lines| => EffectOf(lines[i], isIp))
  }

  /** The names the rules list. */
  ghost function Domains(rules: seq<Effect>, allow: bool): set<string> {
    if rules == [] then {}
    else
      var e := rules[|rules| - 1];
      Domains(rules[..|rules| - 1], allow)
      + (if (allow && e.Allow?) || (!allow && e.Block?) then {e.domain} else {})
  }

  lemma {:induction false} DomainsOfRules(rules: seq<Effect>, allow: bool)
    ensures forall d :: d in Domains(rules, allow) <==> (if allow then Allow(d) else Block(d)) in rules
  {
    if rules != [] {
      DomainsOfRules(rules[..|rules| - 1], allow);
      assert rules == rules[..|rules| - 1] + [rules[|rules| - 1]];
    }
  }

  /** The wildcard patterns of the rules, in order. */
  ghost function Globs(rules: seq<Effect>, allow: bool): seq<string> {
    if rules == [] then []
    else
      var e := rules[|rules| - 1];
      Globs(rules[..|rules| - 1], allow)
      + (if (allow && e.AllowGlob?) || (!allow && e.BlockGlob?) then [e.glob] else [])
  }

  lemma PlainSnoc(rules: seq<Effect>, e: Effect, allow: bool)
    requires !e.AllowGlob? && !e.BlockGlob? && LowerGlobs(rules)
    ensures Globs(rules + [e], allow) == Globs(rules, allow)
    ensures Domains(rules + [e], allow) ==
            if allow && e.Allow? then Domains(rules, allow) + {e.domain}
            else if !allow && e.Block? then Domains(rules, allow) + {e.domain}
            else Domains(rules, allow)
    ensures BlockAll in rules + [e] <==> BlockAll in rules || e == BlockAll
    ensures LowerGlobs(rules + [e])
  {
    assert (rules + [e])[..|rules|] == rules;
  }

  lemma GlobSnoc(rules: seq<Effect>, g: string, allow: bool)
    ensures var rules' := rules + [if allow then AllowGlob(g) else BlockGlob(g)];
            && Globs(rules', !allow) == Globs(rules, !allow)
            && Globs(rules', allow) == Globs(rules, allow) + [g]
            && Texts(Globs(rules', allow)) == Texts(Globs(rules, allow)) + [RegexText(g)]
            && Domains(rules', true) == Domains(rules, true)
            && Domains(rules', false) == Domains(rules, false)
  {
    assert (rules + [if allow then AllowGlob(g) else BlockGlob(g)])[..|rules|] == rules;
  }

  /** Patterns are lower case. */
  predicate LowerGlob(e: Effect) { e.AllowGlob? || e.BlockGlob? ==> ToLower(e.glob) == e.glob }

  ghost predicate LowerGlobs(rules: seq<Effect>) { forall e :: e in rules ==> LowerGlob(e) }

  lemma {:induction false} GlobsOfRules(rules: seq<Effect>, allow: bool)
    ensures forall g :: g in Globs(rules, allow) <==> (if allow then AllowGlob(g) else BlockGlob(g)) in rules
  {
    if rules != [] {
      GlobsOfRules(rules[..|rules| - 1], allow);
      assert rules == rules[..|rules| - 1] + [rules[|rules| - 1]];
    }
  }

  function Texts(globs: seq<string>): seq<string> {
    seq(|globs|, i requires 0 <= i < |globs| => RegexText(globs[i]))
  }

  /** `RegexSet::new(patterns).ok()`. */
  function Compile(patterns: seq<string>, fits: seq<string> -> bool): Option<seq<Regex.Pattern>> {
    if fits(patterns) && forall i :: 0 <= i < |patterns| ==> Regex.Parse(patterns[i]).Some? then
      Some(seq(|patterns|, i requires 0 <= i < |patterns| => Regex.Parse(patterns[i]).value))
    else None
  }

  /** The engine compiles the patterns: each is ASCII and together they are within its size limit. */
  predicate Compiles(library: Library, globs: seq<string>) {
    library.fits(Texts(globs)) && forall g :: g in globs ==> Ascii(g)
  }

  lemma CompileTexts(globs: seq<string>, library: Library)
    requires forall g :: g in globs ==> ToLower(g) == g
    ensures var c := Compile(Texts(globs), library.fits);
            (c.Some? <==> Compiles(library, globs)) && (c.Some? ==> CompiledFrom(c.value, globs))
  {
    forall i | 0 <= i < |globs| ensures Regex.Parse(Texts(globs)[i]).Some? <==> Ascii(globs[i]) {
      ParseRegexText(globs[i]);
    }
    assert (forall g :: g in globs ==> Ascii(g)) <==> forall i :: 0 <= i < |globs| ==> Ascii(globs[i]);
  }

  // ----- The index -----

  class RuleSet {
    const library: Library
    var blocked: set<string>
    var allowed: set<string>
    var wildcardBlockedPatterns: seq<string>
    var wildcardAllowedPatterns: seq<string>
    var wildcardBlockedSet: Option<seq<Regex.Pattern>>
    var wildcardAllowedSet: Option<seq<Regex.Pattern>>
    var blockAll: bool
    /** What each line given to `AddRule` asked for, in order. */
    ghost var rules: seq<Effect>

    ghost predicate DomainsIndexed()
      reads this
    {
      blocked == Domains(rules, false) && allowed == Domains(rules, true) && (blockAll <==> BlockAll in rules)
    }

    /** Each compiled set is absent or was compiled from exactly the current patterns. */
    ghost predicate GlobsIndexed()
      reads this
    {
      && wildcardBlockedPatterns == Texts(Globs(rules, false))
      && wildcardAllowedPatterns == Texts(Globs(rules, true))
      && (wildcardBlockedSet.Some? ==> CompiledFrom(wildcardBlockedSet.value, Globs(rules, false)))
      && (wildcardAllowedSet.Some? ==> CompiledFrom(wildcardAllowedSet.value, Globs(rules, true)))
    }

    ghost predicate Valid()
      reads this
    {
      DomainsIndexed() && GlobsIndexed() && LowerGlobs(rules)
    }

    /** Each side is compiled exactly when it has patterns and the engine takes them. */
    ghost predicate Built()
      reads this
    {
      && (wildcardBlockedSet.Some? <==> Globs(rules, false) != [] && Compiles(library, Globs(rules, false)))
      && (wildcardAllowedSet.Some? <==> Globs(rules, true) != [] && Compiles(library, Globs(rules, true)))
    }

    constructor (library: Library)
      ensures Valid() && rules == [] && this.library == library
      ensures wildcardBlockedSet.None? && wildcardAllowedSet.None?
    {
      this.library := library;
      blocked, allowed := {}, {};
      wildcardBlockedPatterns, wildcardAllowedPatterns := [], [];
      wildcardBlockedSet, wildcardAllowedSet := None, None;
      blockAll := false;
      rules := [];
    }

    /** `clone`. */
    constructor Clone(other: RuleSet)
      requires other.Valid()
      ensures Valid() && rules == other.rules && library == other.library
      ensures wildcardBlockedSet == other.wildcardBlockedSet && wildcardAllowedSet == other.wildcardAllowedSet
    {
      library := other.library;
      blocked, allowed := other.blocked, other.allowed;
      wildcardBlockedPatterns, wildcardAllowedPatterns := other.wildcardBlockedPatterns, other.wildcardAllowedPatterns;
      wildcardBlockedSet, wildcardAllowedSet := other.wildcardBlockedSet, other.wildcardAllowedSet;
      blockAll := other.blockAll;
      rules := other.rules;
    }

    /** Adds one line; a new pattern drops the compiled set it belongs to, and no other. */
    method AddRule(line: string) returns (added: bool)
      requires Valid()
      modifies this
      ensures Valid() && rules == old(rules) + [EffectOf(line, library.isIp)]
      ensures added <==> EffectOf(line, library.isIp) != Ignored
      ensures wildcardBlockedSet ==
              if EffectOf(line, library.isIp).BlockGlob? then None else old(wildcardBlockedSet)
      ensures wildcardAllowedSet ==
              if EffectOf(line, library.isIp).AllowGlob? then None else old(wildcardAllowedSet)
    {
      var effect := EffectOf(line, library.isIp);
      match effect {
        case AllowGlob(g) => InsertAllowGlob(g);
        case BlockGlob(g) => InsertBlockGlob(g);
        case Allow(d) => InsertAllow(d);
        case Block(d) => InsertBlock(d);
        case _ => InsertMark(effect);
      }
      return effect != Ignored;
    }

    /** Ignored lines leave only a trace in the history; `||*` raises the flag. */
    method InsertMark(effect: Effect)
      requires Valid() && (effect == Ignored || effect == BlockAll)
      modifies this`blockAll, this`rules
      ensures Valid() && rules == old(rules) + [effect]
    {
      rules := rules + [effect];
      PlainSnoc(old(rules), effect, false);
      PlainSnoc(old(rules), effect, true);
      blockAll := blockAll || effect == BlockAll;
    }

    method InsertAllow(d: string)
      requires Valid()
      modifies this`allowed, this`rules
      ensures Valid() && rules == old(rules) + [Allow(d)]
    {
      rules := rules + [Allow(d)];
      PlainSnoc(old(rules), Allow(d), false);
      PlainSnoc(old(rules), Allow(d), true);
      allowed := allowed + {d};
    }

    method InsertBlock(d: string)
      requires Valid()
      modifies this`blocked, this`rules
      ensures Valid() && rules == old(rules) + [Block(d)]
    {
      rules := rules + [Block(d)];
      PlainSnoc(old(rules), Block(d), false);
      PlainSnoc(old(rules), Block(d), true);
      blocked := blocked + {d};
    }

    method InsertAllowGlob(g: string)
      requires Valid() && ToLower(g) == g
      modifies this`wildcardAllowedPatterns, this`wildcardAllowedSet, this`rules
      ensures Valid() && rules == old(rules) + [AllowGlob(g)] && wildcardAllowedSet == None
    {
      rules := rules + [AllowGlob(g)];
      GlobSnoc(old(rules), g, true);
      var pattern := WildcardToRegex(g);
      wildcardAllowedPatterns := wildcardAllowedPatterns + [pattern];
      wildcardAllowedSet := None;
    }

    method InsertBlockGlob(g: string)
      requires Valid() && ToLower(g) == g
      modifies this`wildcardBlockedPatterns, this`wildcardBlockedSet, this`rules
      ensures Valid() && rules == old(rules) + [BlockGlob(g)] && wildcardBlockedSet == None
    {
      rules := rules + [BlockGlob(g)];
      GlobSnoc(old(rules), g, false);
      var pattern := WildcardToRegex(g);
      wildcardBlockedPatterns := wildcardBlockedPatterns + [pattern];
      wildcardBlockedSet := None;
    }

    /** Compiles both pattern lists; a list the engine rejects leaves its side without wildcards. */
    method Build()
      requires Valid()
      modifies this`wildcardBlockedSet, this`wildcardAllowedSet
      ensures Valid()
      ensures Built()
    {
      GlobsOfRules(rules, false);
      GlobsOfRules(rules, true);
      assert forall g :: g in Globs(rules, false) ==> LowerGlob(BlockGlob(g));
      assert forall g :: g in Globs(rules, true) ==> LowerGlob(AllowGlob(g));
      CompileTexts(Globs(rules, false), library);
      CompileTexts(Globs(rules, true), library);
      wildcardBlockedSet :=
        if wildcardBlockedPatterns == [] then None else Compile(wildcardBlockedPatterns, library.fits);
      wildcardAllowedSet :=
        if wildcardAllowedPatterns == [] then None else Compile(wildcardAllowedPatterns, library.fits);
    }

    /** The index answers what the lines say, with the wildcards of a compiled side taking part. */
    method MatchDomain(domain: string) returns (r: MatchResult)
      requires Valid()
      ensures r == Verdict((set e | e in rules), wildcardAllowedSet.Some?, wildcardBlockedSet.Some?, domain)
    {
      var name := Normal(domain);
      ToLowerIdempotent(TrimRight(domain, {'.'}));
      ghost var allowGlobs, blockGlobs := Globs(rules, true), Globs(rules, false);
      GlobsOfRules(rules, true);
      GlobsOfRules(rules, false);
      DomainsOfRules(rules, true);
      DomainsOfRules(rules, false);
      ghost var all := set e | e in rules;
      var allowHit := MatchesSet(name, allowed);
      if !allowHit { allowHit := MatchesWildcardSet(name, wildcardAllowedSet, allowGlobs); }
      assert allowHit <==> exists e :: e in all && Allows(e, wildcardAllowedSet.Some?, name) by {
        AllowSplit(all, wildcardAllowedSet.Some?, name);
      }
      if allowHit { return Allowed; }
      var blockHit := blockAll;
      if !blockHit { blockHit := MatchesSet(name, blocked); }
      if !blockHit { blockHit := MatchesWildcardSet(name, wildcardBlockedSet, blockGlobs); }
      assert blockHit <==> exists e :: e in all && Blocks(e, wildcardBlockedSet.Some?, name) by {
        BlockSplit(all, wildcardBlockedSet.Some?, name);
      }
      return if blockHit then Blocked else NoMatch;
    }
  }
}
