/**
 Remote filter lists: each list line is rewritten to a stored rule, which the rule-line parser
 later reads again. The rewriting is proved to keep what the line asks for.
 */
module Subscription {
  import opened Text
  import opened DomainSuffix
  import opened RuleSyntax

  datatype Stored = Skip | StoreBlock(rule: string) | StoreAllow(rule: string)

  // ----- The two rule expressions, as one character-level recogniser -----

  predicate NameChar(c: char) { IsAlphanumeric(c) || c == '_' || c == '.' || c == '-' }

  function NameRun(s: string): (r: string)
    ensures r <= s && forall c :: c in r ==> NameChar(c)
    ensures |r| < |s| ==> !NameChar(s[|r|])
  {
    if s == "" || !NameChar(s[0]) then "" else [s[0]] + NameRun(s[1..])
  }

  predicate NameShape(d: string) {
    |d| >= 2 && IsAlphanumeric(d[0]) && IsAlphanumeric(d[|d| - 1]) && forall c :: c in d ==> NameChar(c)
  }

  /** Nothing, or options introduced by `^` or `$`. */
  predicate OptionTail(tail: string) { tail == "" || tail[0] == '^' || tail[0] == '$' }

  /** Capture group 1 of the rule expressions, on the text after `||`. */
  function Capture(rest: string): Option<string> {
    var d := NameRun(rest);
    if NameShape(d) && OptionTail(rest[|d|..]) then Some(d) else None
  }

  /** The recogniser is the expression: a name shape followed by an option tail, uniquely. */
  lemma CaptureIsExpression(d: string, tail: string)
    ensures NameShape(d) && OptionTail(tail) <==> Capture(d + tail) == Some(d)
  {
    var s := d + tail;
    var r := NameRun(s);
    assert s[|d|..] == tail;
    if NameShape(d) && OptionTail(tail) {
      assert forall i :: 0 <= i < |d| ==> s[i] == d[i] && d[i] in d;
      assert tail != "" ==> s[|d|] == tail[0];
      assert forall i :: 0 <= i < |r| ==> r[i] in r;
      assert r == d;
    }
  }

  // ----- Line normalisation -----

  predicate Cosmetic(line: string) {
    Contains(line, "##") || Contains(line, "#@#") || Contains(line, "#%#")
  }

  predicate Commented(line: string) { line == "" || line[0] == '!' || line[0] == '#' }

  function DotRule(line: string): Stored
    requires |line| > 1
  {
    var domain := TrimRight(Before(Before(line[1..], '^'), '$'), {'.'});
    if '.' in domain then StoreBlock("||" + domain + "^") else Skip
  }

  function PlainRule(line: string): Stored
    requires line != ""
  {
    if '/' in line || ':' in line || '*' in line || '|' in line then Skip
    else
      var stripped := TrimRight(line, {'^', '$'});
      if '^' !in stripped && '.' in stripped && stripped[0] != '.' && stripped[|stripped| - 1] != '.' then
        StoreBlock("||" + stripped + "^")
      else Skip
  }

  /** A trimmed line that is no comment, cosmetic rule or regular expression. */
  function NormaliseRule(line: string): Stored
    requires line != ""
  {
    if line[0] == '.' && |line| > 1 then DotRule(line)
    else if StartsWith(line, "@@||") && Capture(line[4..]).Some? then
      StoreAllow("@@||" + Capture(line[4..]).value + "^")
    else if StartsWith(line, "||") && Capture(line[2..]).Some? then
      StoreBlock("||" + Capture(line[2..]).value + "^")
    else if StartsWith(line, "@@||") && '*' in line then StoreAllow(line)
    else if StartsWith(line, "||") && '*' in line then StoreBlock(line)
    else PlainRule(line)
  }

  function NormaliseLine(line: string): Stored {
    if Commented(line) || Cosmetic(line) then Skip
    else if line[0] == '/' && line[|line| - 1] == '/' then Skip
    else NormaliseRule(line)
  }

  /** One iteration of `parse_adguard_rules`. */
  function NormaliseAdguard(raw: string): Stored { NormaliseLine(Trim(raw)) }

  /** The rule for the name in a hosts line. */
  function HostsRule(d: string): Stored {
    if '.' in d && d[0] != '.' && d[|d| - 1] != '.' && forall c :: c in d ==> NameChar(c) then
      StoreBlock("||" + d + "^")
    else Skip
  }

  /** One iteration of `parse_hosts_rules`. */
  function NormaliseHosts(raw: string): Stored {
    var line := Trim(raw);
    if line == "" || line[0] == '#' || |Words(line)| < 2 then Skip else HostsRule(Words(line)[1])
  }

  /** The stored rules of one kind, in line order. */
  function StoredOf(lines: seq<string>, allow: bool): seq<string> {
    if lines == [] then []
    else
      var s := NormaliseAdguard(lines[|lines| - 1]);
      StoredOf(lines[..|lines| - 1], allow)
      + (if (allow && s.StoreAllow?) || (!allow && s.StoreBlock?) then [s.rule] else [])
  }

  method ParseAdguardRules(content: string) returns (blockRules: seq<string>, allowRules: seq<string>)
    ensures blockRules == StoredOf(Lines(content), false)
    ensures allowRules == StoredOf(Lines(content), true)
  {
    blockRules, allowRules := [], [];
    var lines := Lines(content);
    for i := 0 to |lines|
      invariant blockRules == StoredOf(lines[..i], false)
      invariant allowRules == StoredOf(lines[..i], true)
    {
      assert lines[..i + 1][..i] == lines[..i];
      match NormaliseAdguard(lines[i])
      case Skip =>
      case StoreBlock(rule) => blockRules := blockRules + [rule];
      case StoreAllow(rule) => allowRules := allowRules + [rule];
    }
    assert lines[..|lines|] == lines;
  }

  /** The stored rules of a hosts file, in line order. */
  function HostsStoredOf(lines: seq<string>): seq<string> {
    if lines == [] then []
    else
      var s := NormaliseHosts(lines[|lines| - 1]);
      HostsStoredOf(lines[..|lines| - 1]) + if s.StoreBlock? then [s.rule] else []
  }

  method ParseHostsRules(content: string) returns (rules: seq<string>)
    ensures rules == HostsStoredOf(Lines(content))
  {
    rules := [];
    var lines := Lines(content);
    for i := 0 to |lines|
      invariant rules == HostsStoredOf(lines[..i])
    {
      assert lines[..i + 1][..i] == lines[..i];
      var stored := NormaliseHosts(lines[i]);
      if stored.StoreBlock? {
        rules := rules + [stored.rule];
      }
    }
    assert lines[..|lines|] == lines;
  }

  // ----- Characters of a valid name -----

  /** A valid dotted name as it may be typed, in any letter case. */
  predicate DottedName(d: string) { '.' in d && IsValidDomain(ToLower(d)) }

  /** Every character of a name is a dot or sits in a label; the ends sit in the end labels. */
  lemma {:induction false} NameCharacters(s: string)
    ensures forall c :: c in s ==> c == '.' || exists k :: 0 <= k < |Labels(s)| && c in Labels(s)[k]
    ensures Labels(s)[0] != "" ==> s != "" && s[0] == Labels(s)[0][0]
    ensures var last := Labels(s)[|Labels(s)| - 1];
            last != "" ==> s != "" && s[|s| - 1] == last[|last| - 1]
  {
    if s != "" {
      var t := s[1..];
      NameCharacters(t);
      var rest := Labels(t);
      var all := Labels(s);
      forall c | c in s && c != '.' ensures exists k :: 0 <= k < |all| && c in all[k] {
        if c == s[0] {
          assert c in all[0];
        } else {
          assert c in t;
          var k :| 0 <= k < |rest| && c in rest[k];
          assert c in all[if s[0] == '.' then k + 1 else k];
        }
      }
    }
  }

  lemma DottedNameShape(d: string)
    requires DottedName(d)
    ensures NameShape(d)
    ensures forall c :: c in d ==> IsAlphanumeric(c) || c == '-' || c == '.'
  {
    var s := ToLower(d);
    NameCharacters(s);
    assert ValidLabel(Labels(s)[0]) && ValidLabel(Labels(s)[|Labels(s)| - 1]);
    forall i | 0 <= i < |d| ensures IsAlphanumeric(d[i]) || d[i] == '-' || d[i] == '.' {
      var c := s[i];
      assert c in s;
      if c != '.' {
        var k :| 0 <= k < |Labels(s)| && c in Labels(s)[k];
        assert ValidLabel(Labels(s)[k]);
      }
    }
    assert Labels(s)[0][0] in Labels(s)[0];
    assert IsAlphanumeric(s[0]) && IsAlphanumeric(s[|s| - 1]);
    assert exists i :: 0 <= i < |d| && d[i] == '.';
  }

  // ----- What the original and the stored line ask for -----

  lemma NormalizeName(d: string)
    requires DottedName(d)
    ensures NormalizeDomain(d) == ToLower(d)
  {
    DottedNameShape(d);
    TrimFixed(d);
  }

  /** Cutting options off a name leaves the name. */
  lemma CutOptions(d: string, tail: string)
    requires DottedName(d) && OptionTail(tail)
    ensures Before(Before(d + tail, '^'), '$') == d
  {
    DottedNameShape(d);
    CutText(d, tail);
  }

  lemma CutText(n: string, tail: string)
    requires '^' !in n && '$' !in n && OptionTail(tail)
    ensures Before(Before(n + tail, '^'), '$') == n
  {
    var u := Before(tail, '^');
    BeforeAppend(n, tail, '^');
    BeforeAppend(n, u, '$');
    assert Before(u, '$') == "";
  }

  /** Trimming a line made of a rule and options trims the options only. */
  lemma TrimRule(rule: string, tail: string)
    requires rule != "" && rule[0] !in SPACES && rule[|rule| - 1] !in SPACES
    requires OptionTail(tail)
    ensures Trim(rule + tail) == rule + TrimRight(tail, SPACES)
    ensures OptionTail(TrimRight(tail, SPACES))
  {
    TrimWith(rule, tail, SPACES);
  }

  lemma TrimWith(rule: string, tail: string, blanks: set<char>)
    requires rule != "" && rule[0] !in blanks && rule[|rule| - 1] !in blanks
    requires OptionTail(tail) && '^' !in blanks && '$' !in blanks
    ensures TrimRight(TrimLeft(rule + tail, blanks), blanks) == rule + TrimRight(tail, blanks)
    ensures OptionTail(TrimRight(tail, blanks))
  {
    TrimRightAppend(rule, tail, blanks);
    if tail == "" {
      assert rule + tail == rule;
    }
  }

  /** The name and options of a `||` rule. */
  lemma AdguardName(line: string, d: string, tail: string)
    requires line == "||" + d + tail && DottedName(d) && OptionTail(tail)
    ensures ParseAdguardDomain(line) == Some(ToLower(d))
  {
    assert line[2..] == d + tail && line[..2] == "||";
    CutOptions(d, tail);
    NamePartOfName(d);
    NormalizeName(d);
  }

  lemma NamePartOfName(d: string)
    requires DottedName(d)
    ensures TrimRight(TrimRight(TrimRight(d, {'|'}), {'/'}), {'.'}) == d
  {
    DottedNameShape(d);
  }

  lemma TrimNamed(mark: string, d: string, tail: string)
    requires DottedName(d) && OptionTail(tail)
    requires mark == "||" || mark == "@@||" || mark == "."
    ensures Trim(mark + d + tail) == mark + d + TrimRight(tail, SPACES)
    ensures OptionTail(TrimRight(tail, SPACES))
  {
    DottedNameShape(d);
    var rule := mark + d;
    assert rule[0] == mark[0] && rule[|rule| - 1] == d[|d| - 1];
    TrimRule(rule, tail);
  }

  lemma BlockLine(d: string, tail: string, isIp: string -> bool)
    requires DottedName(d) && OptionTail(tail)
    ensures LineEffect("||" + d + tail, isIp) == Block(ToLower(d))
  {
    var line := "||" + d + tail;
    assert line[0] == '|' && line[2] == d[0] && d[0] != '*' by { DottedNameShape(d); }
    BarLine(line, isIp);
    AdguardName(line, d, tail);
  }

  lemma AllowLine(d: string, tail: string, isIp: string -> bool)
    requires DottedName(d) && OptionTail(tail)
    ensures LineEffect("@@||" + d + tail, isIp) == Allow(ToLower(d))
  {
    var line := "@@||" + d + tail;
    assert line[0] == '@' && line != "||*^" && line != "||*";
    assert StartsWith(line, "@@") by { assert line[..2] == "@@"; }
    assert AllowEffect(line[2..]) == Allow(ToLower(d)) by {
      assert line[2..] == "||" + d + tail;
      AdguardName(line[2..], d, tail);
    }
  }

  lemma DotLine(d: string, tail: string, isIp: string -> bool)
    requires DottedName(d) && OptionTail(tail)
    ensures LineEffect("." + d + tail, isIp) == Block(ToLower(d))
  {
    var line := "." + d + tail;
    assert line[0] == '.';
    UnmarkedLine(line, isIp);
    DotName(line, d, tail);
    NormalizeName(d);
  }

  lemma DotName(line: string, d: string, tail: string)
    requires line == "." + d + tail && DottedName(d) && OptionTail(tail)
    ensures StartsWith(line, ".") && TrimRight(Before(Before(line[1..], '^'), '$'), {'.'}) == d
  {
    assert line[..1] == ".";
    assert line[1..] == d + tail;
    CutOptions(d, tail);
    NoTrailingDot(d);
  }

  lemma NoTrailingDot(d: string)
    requires DottedName(d)
    ensures TrimRight(d, {'.'}) == d
  {
    DottedNameShape(d);
  }

  /** A line that opens like a name and is neither a hosts line nor marked is read as a plain name. */
  lemma ReadPlainly(line: string, isIp: string -> bool)
    requires line != "" && IsAlphanumeric(line[0]) && ParseHostsLine(line, isIp) == None
    ensures LineEffect(line, isIp) == PlainEffect(line)
  {
    UnmarkedLine(line, isIp);
    HostsOrPlain(line, isIp);
  }

  lemma NotHosts(d: string, isIp: string -> bool)
    requires DottedName(d)
    ensures d != "" && IsAlphanumeric(d[0]) && ParseHostsLine(d, isIp) == None
  {
    DottedNameShape(d);
    OneWord(d);
  }

  lemma PlainName(d: string)
    requires DottedName(d)
    ensures PlainEffect(d) == Block(ToLower(d))
  {
    NormalizeName(d);
  }

  lemma PlainLine(d: string, isIp: string -> bool)
    requires DottedName(d)
    ensures LineEffect(d, isIp) == Block(ToLower(d))
  {
    NotHosts(d, isIp);
    PlainName(d);
    ReadPlainly(d, isIp);
  }

  /** `||name` with any options blocks the name and its subdomains. */
  lemma BlockLineEffect(d: string, tail: string, isIp: string -> bool)
    requires DottedName(d) && OptionTail(tail)
    ensures EffectOf("||" + d + tail, isIp) == Block(ToLower(d))
  {
    TrimNamed("||", d, tail);
    BlockLine(d, TrimRight(tail, SPACES), isIp);
  }

  /** `@@||name` with any options allows the name and its subdomains. */
  lemma AllowLineEffect(d: string, tail: string, isIp: string -> bool)
    requires DottedName(d) && OptionTail(tail)
    ensures EffectOf("@@||" + d + tail, isIp) == Allow(ToLower(d))
  {
    TrimNamed("@@||", d, tail);
    AllowLine(d, TrimRight(tail, SPACES), isIp);
  }

  /** `.name` with any options blocks the name and its subdomains. */
  lemma DotLineEffect(d: string, tail: string, isIp: string -> bool)
    requires DottedName(d) && OptionTail(tail)
    ensures EffectOf("." + d + tail, isIp) == Block(ToLower(d))
  {
    TrimNamed(".", d, tail);
    DotLine(d, TrimRight(tail, SPACES), isIp);
  }

  /** One word is never a hosts line. */
  lemma OneWord(d: string)
    requires d != "" && forall c :: c in d ==> c !in SPACES
    ensures Words(d) == [d]
  {
    UntilSpaceAll(d);
    assert d[0] in d;
    assert d[|d|..] == "";
    assert Words("") == [];
  }

  lemma {:induction false} UntilSpaceAll(d: string)
    requires forall c :: c in d ==> c !in SPACES
    ensures UntilSpace(d) == d
  {
    if d != "" {
      assert d[0] in d;
      UntilSpaceAll(d[1..]);
    }
  }

  lemma NameTrimmed(d: string)
    requires DottedName(d)
    ensures Trim(d) == d
  {
    DottedNameShape(d);
    TrimFixed(d);
  }

  lemma EffectTrimmed(line: string, isIp: string -> bool)
    requires Trim(line) == line
    ensures EffectOf(line, isIp) == LineEffect(line, isIp)
  {
  }

  /** A bare name blocks the name and its subdomains. */
  lemma PlainLineEffect(d: string, isIp: string -> bool)
    requires DottedName(d)
    ensures EffectOf(d, isIp) == Block(ToLower(d))
  {
    NameTrimmed(d);
    EffectTrimmed(d, isIp);
    PlainLine(d, isIp);
  }

  // ----- What the normaliser stores -----

  lemma BarRule(line: string, d: string, tail: string)
    requires line == "||" + d + tail && NameShape(d) && OptionTail(tail)
    ensures NormaliseRule(line) == StoreBlock("||" + d + "^")
  {
    assert line[0] == '|';
    assert StartsWith(line, "||") by { assert line[..2] == "||"; }
    assert !StartsWith(line, "@@||") by { assert line[..4][0] == '|'; }
    assert line[2..] == d + tail;
    CaptureIsExpression(d, tail);
  }

  lemma ExceptionRule(line: string, d: string, tail: string)
    requires line == "@@||" + d + tail && NameShape(d) && OptionTail(tail)
    ensures NormaliseRule(line) == StoreAllow("@@||" + d + "^")
  {
    assert line[0] == '@';
    assert StartsWith(line, "@@||") by { assert line[..4] == "@@||"; }
    assert line[4..] == d + tail;
    CaptureIsExpression(d, tail);
  }

  lemma RuleLine(line: string)
    requires line != "" && (line[0] == '|' || line[0] == '@' || line[0] == '.') && !Cosmetic(line)
    ensures NormaliseLine(line) == NormaliseRule(line)
  {
  }

  lemma BlockStored(line: string, d: string, tail: string)
    requires line == "||" + d + tail && DottedName(d) && OptionTail(tail) && !Cosmetic(line)
    ensures NormaliseLine(line) == StoreBlock("||" + d + "^")
  {
    assert line[0] == '|';
    RuleLine(line);
    DottedNameShape(d);
    BarRule(line, d, tail);
  }

  lemma AllowStored(line: string, d: string, tail: string)
    requires line == "@@||" + d + tail && DottedName(d) && OptionTail(tail) && !Cosmetic(line)
    ensures NormaliseLine(line) == StoreAllow("@@||" + d + "^")
  {
    assert line[0] == '@';
    RuleLine(line);
    DottedNameShape(d);
    ExceptionRule(line, d, tail);
  }

  lemma DotStored(line: string, d: string, tail: string)
    requires line == "." + d + tail && DottedName(d) && OptionTail(tail) && !Cosmetic(line)
    ensures NormaliseLine(line) == StoreBlock("||" + d + "^")
  {
    assert line[0] == '.';
    RuleLine(line);
    DotName(line, d, tail);
  }

  lemma CosmeticDropped(raw: string)
    requires Cosmetic(Trim(raw))
    ensures NormaliseAdguard(raw) == Skip
  {
  }

  lemma StoreBlockLine(d: string, tail: string)
    requires DottedName(d) && OptionTail(tail)
    requires !Cosmetic(Trim("||" + d + tail))
    ensures NormaliseAdguard("||" + d + tail) == StoreBlock("||" + d + "^")
  {
    TrimNamed("||", d, tail);
    BlockStored("||" + d + TrimRight(tail, SPACES), d, TrimRight(tail, SPACES));
  }

  lemma StoreAllowLine(d: string, tail: string)
    requires DottedName(d) && OptionTail(tail)
    requires !Cosmetic(Trim("@@||" + d + tail))
    ensures NormaliseAdguard("@@||" + d + tail) == StoreAllow("@@||" + d + "^")
  {
    TrimNamed("@@||", d, tail);
    AllowStored("@@||" + d + TrimRight(tail, SPACES), d, TrimRight(tail, SPACES));
  }

  lemma StoreDotLine(d: string, tail: string)
    requires DottedName(d) && OptionTail(tail)
    requires !Cosmetic(Trim("." + d + tail))
    ensures NormaliseAdguard("." + d + tail) == StoreBlock("||" + d + "^")
  {
    TrimNamed(".", d, tail);
    DotStored("." + d + TrimRight(tail, SPACES), d, TrimRight(tail, SPACES));
  }

  lemma PlainNameRule(d: string)
    requires NameShape(d) && '.' in d && forall c :: c in d ==> IsAlphanumeric(c) || c == '-' || c == '.'
    ensures NormaliseRule(d) == StoreBlock("||" + d + "^")
  {
    assert !StartsWith(d, "@@||") by { assert |d| >= 4 ==> d[..4][0] == d[0]; }
    assert !StartsWith(d, "||") by { assert d[..2][0] == d[0]; }
    assert TrimRight(d, {'^', '$'}) == d;
  }

  lemma StorePlainLine(d: string)
    requires DottedName(d)
    ensures NormaliseAdguard(d) == StoreBlock("||" + d + "^")
  {
    DottedNameShape(d);
    TrimFixed(d);
    NotCosmetic(d);
    PlainNameRule(d);
  }

  lemma NotCosmetic(s: string)
    requires '#' !in s
    ensures !Cosmetic(s)
  {
    NotContained(s, "##");
    NotContained(s, "#@#");
    NotContained(s, "#%#");
  }

  lemma {:induction false} NotContained(s: string, t: string)
    requires t != "" && t[0] !in s
    ensures !Contains(s, t)
  {
    assert |t| <= |s| ==> s[..|t|][0] in s;
    if s != "" {
      NotContained(s[1..], t);
    }
  }

  // ----- The laws -----

  /** The stored rule asks for exactly what the original line asked for. */
  ghost predicate SameMeaning(raw: string, stored: Stored, isIp: string -> bool) {
    stored != Skip && EffectOf(stored.rule, isIp) == EffectOf(raw, isIp)
  }

  /**
   Normalising a block, exception or dot line for a valid dotted name keeps its effect, whatever
   the options and the letter case, if and only if no cosmetic mark hides in the options; a plain
   line always keeps it.
   */
  lemma NormalisationKeepsMeaning(d: string, tail: string, isIp: string -> bool)
    requires DottedName(d) && OptionTail(tail)
    ensures SameMeaning("||" + d + tail, NormaliseAdguard("||" + d + tail), isIp) <==>
            !Cosmetic(Trim("||" + d + tail))
    ensures SameMeaning("@@||" + d + tail, NormaliseAdguard("@@||" + d + tail), isIp) <==>
            !Cosmetic(Trim("@@||" + d + tail))
    ensures SameMeaning("." + d + tail, NormaliseAdguard("." + d + tail), isIp) <==>
            !Cosmetic(Trim("." + d + tail))
    ensures SameMeaning(d, NormaliseAdguard(d), isIp)
  {
    BlockLineEffect(d, "^", isIp);
    AllowLineEffect(d, "^", isIp);
    BlockLineEffect(d, tail, isIp);
    AllowLineEffect(d, tail, isIp);
    DotLineEffect(d, tail, isIp);
    PlainLineEffect(d, isIp);
    StorePlainLine(d);
    if Cosmetic(Trim("||" + d + tail)) { CosmeticDropped("||" + d + tail); } else { StoreBlockLine(d, tail); }
    if Cosmetic(Trim("@@||" + d + tail)) { CosmeticDropped("@@||" + d + tail); } else { StoreAllowLine(d, tail); }
    if Cosmetic(Trim("." + d + tail)) { CosmeticDropped("." + d + tail); } else { StoreDotLine(d, tail); }
  }

  lemma NameFree(rest: string, name: string)
    requires name == Before(Before(rest, '^'), '$')
    ensures name <= rest && forall i :: 0 <= i < |name| ==> rest[i] != '^' && rest[i] != '$'
  {
    assert forall i :: 0 <= i < |name| ==> name[i] in name && name[i] in Before(rest, '^');
  }

  lemma RunStops(rest: string, k: nat)
    requires k < |rest| && !NameChar(rest[k])
    ensures |NameRun(rest)| <= k
  {
    var d := NameRun(rest);
    assert forall i :: 0 <= i < |d| ==> d[i] in d && d[i] == rest[i];
  }

  /** A star before any option never fits the rule expressions. */
  lemma StarNotCaptured(rest: string)
    requires '*' in Before(Before(rest, '^'), '$')
    ensures Capture(rest) == None
  {
    var name := Before(Before(rest, '^'), '$');
    var k :| 0 <= k < |name| && name[k] == '*';
    NameFree(rest, name);
    RunStops(rest, k);
    assert rest[|NameRun(rest)|..][0] == rest[|NameRun(rest)|];
  }

  /** The mark of a wildcard line, `||` or `@@||`, with a star in the name after it. */
  predicate StarLine(line: string, mark: string) {
    StartsWith(line, mark) && '*' in Before(Before(line[|mark|..], '^'), '$')
  }

  lemma StarRule(line: string)
    requires StarLine(line, "||") || StarLine(line, "@@||")
    ensures line != "" && (line[0] == '|' || line[0] == '@')
    ensures NormaliseRule(line) == if line[0] == '@' then StoreAllow(line) else StoreBlock(line)
  {
    if StarLine(line, "||") {
      assert line[..2][0] == line[0];
      assert !StartsWith(line, "@@||") by { assert |line| >= 4 ==> line[..4][0] == line[0]; }
      StarNotCaptured(line[2..]);
      StarBelongs(line, 2);
    } else {
      assert line[..4][0] == line[0];
      assert !StartsWith(line, "||") by { assert line[..2][0] == line[0]; }
      StarNotCaptured(line[4..]);
      StarBelongs(line, 4);
    }
  }

  /** What is stored for a trimmed wildcard line. */
  function StarStored(line: string): Stored {
    if line == "" || Cosmetic(line) then Skip else if line[0] == '@' then StoreAllow(line) else StoreBlock(line)
  }

  lemma StarLineStored(line: string)
    requires StarLine(line, "||") || StarLine(line, "@@||")
    ensures line != "" && NormaliseLine(line) == StarStored(line)
  {
    StarRule(line);
    if !Cosmetic(line) { RuleLine(line); }
  }

  lemma TrimmedSame(raw: string, stored: Stored, isIp: string -> bool)
    requires stored != Skip && stored.rule == Trim(raw)
    ensures SameMeaning(raw, stored, isIp)
  {
    TrimIdempotent(raw);
  }

  /** Wildcard lines without a cosmetic mark pass through trimmed and keep their effect; others are dropped. */
  lemma WildcardLinesPass(raw: string, isIp: string -> bool)
    requires StarLine(Trim(raw), "||") || StarLine(Trim(raw), "@@||")
    ensures NormaliseAdguard(raw) == StarStored(Trim(raw))
    ensures SameMeaning(raw, NormaliseAdguard(raw), isIp) <==> !Cosmetic(Trim(raw))
  {
    var line := Trim(raw);
    StarLineStored(line);
    if !Cosmetic(line) { TrimmedSame(raw, StarStored(line), isIp); }
  }

  lemma StarBelongs(line: string, k: nat)
    requires k <= |line| && '*' in Before(Before(line[k..], '^'), '$')
    ensures '*' in line
  {
    var name := Before(Before(line[k..], '^'), '$');
    var i :| 0 <= i < |name| && name[i] == '*';
    assert line[k + i] == '*';
  }

  // ----- Hosts lines -----

  /** A character outside the name alphabet makes a name invalid. */
  lemma BadCharacter(s: string, c: char)
    requires c in s && c != '.' && c != '-' && !IsAlphanumeric(c)
    ensures !IsValidDomain(s)
  {
    NameCharacters(s);
    var i :| 0 <= i < |Labels(s)| && c in Labels(s)[i];
    assert !ValidLabel(Labels(s)[i]);
  }

  /** So does one inside a name with trailing dots. */
  lemma BadCharacterInside(line: string, k: nat)
    requires k < |line| && line[k] != '.' && line[k] != '-' && !IsAlphanumeric(line[k])
    ensures !IsValidDomain(ToLower(TrimRight(line, {'.'})))
  {
    var t := TrimRight(line, {'.'});
    assert k < |t|;
    assert ToLower(t)[k] == line[k];
    BadCharacter(ToLower(t), line[k]);
  }

  lemma WordsStart(line: string)
    requires line != "" && line[0] !in SPACES
    ensures Words(line) == [UntilSpace(line)] + Words(line[|UntilSpace(line)|..])
  {
  }

  /** A line of two words has a blank after the first. */
  lemma FirstWord(line: string) returns (k: nat)
    requires line != "" && line[0] !in SPACES && |Words(line)| >= 2
    ensures k < |line| && line[k] != '.' && line[k] != '-' && !IsAlphanumeric(line[k])
  {
    k := |UntilSpace(line)|;
    WordsStart(line);
    assert Words(line[k..]) != [];
    NoWords();
    UntilSpaceStops(line);
  }

  lemma NoWords()
    ensures Words("") == []
  {
  }

  lemma {:induction false} UntilSpaceStops(s: string)
    ensures |UntilSpace(s)| < |s| ==> s[|UntilSpace(s)|] in SPACES
  {
    if s != "" && s[0] !in SPACES {
      UntilSpaceStops(s[1..]);
    }
  }

  /** A line that no rule mark opens, and is no plain name, does what its hosts reading says. */
  lemma ReadAsHosts(line: string, isIp: string -> bool)
    requires Unmarked(line) && PlainEffect(line) == Ignored
    ensures LineEffect(line, isIp) == match ParseHostsLine(line, isIp) case None => Ignored case Some(d) => Block(d)
  {
    UnmarkedLine(line, isIp);
    HostsOrPlain(line, isIp);
  }

  /** The line opens with none of the characters that mark comments, rules and names. */
  predicate Unmarked(line: string) { line != "" && line[0] !in {'#', '!', '/', '@', '|', '.', '*'} }

  lemma TrimLeftShorter(s: string, blanks: set<char>)
    requires s != "" && s[0] in blanks
    ensures |TrimLeft(s, blanks)| < |s|
  {
    assert TrimLeft(s, blanks) == TrimLeft(s[1..], blanks);
  }

  lemma TrimmedOpens(line: string)
    requires line != "" && Trim(line) == line
    ensures line[0] !in SPACES
  {
    if line[0] in SPACES { TrimLeftShorter(line, SPACES); }
  }

  /**
   A trimmed line whose second word is a dotted name: it blocks the name if its first word is an
   address and the name does not end in `.local`, and otherwise does nothing.
   */
  lemma HostsLine(line: string, d: string, isIp: string -> bool)
    requires Trim(line) == line && Unmarked(line) && |Words(line)| >= 2 && Words(line)[1] == d && DottedName(d)
    ensures LineEffect(line, isIp) ==
            if isIp(Words(line)[0]) && !EndsWith(d, ".local") then Block(ToLower(d)) else Ignored
  {
    TrimmedOpens(line);
    SpacedName(line);
    HostsName(line, d, isIp);
    ReadAsHosts(line, isIp);
  }

  lemma HostsOrPlain(line: string, isIp: string -> bool)
    requires line != "" && line[0] != '.' && line[0] != '*'
    ensures BareEffect(line, isIp) ==
            match ParseHostsLine(line, isIp) case None => PlainEffect(line) case Some(d) => Block(d)
  {
    assert !StartsWith(line, ".") by { assert line[..1][0] == line[0]; }
    assert !StartsWith(line, "*.") by { assert |line| >= 2 ==> line[..2][0] == line[0]; }
  }

  lemma SpacedName(line: string)
    requires Trim(line) == line && line != "" && line[0] !in SPACES && |Words(line)| >= 2
    ensures PlainEffect(line) == Ignored
  {
    assert !IsValidDomain(ToLower(TrimRight(line, {'.'}))) by {
      var k := FirstWord(line);
      BadCharacterInside(line, k);
    }
  }

  lemma HostsRead(line: string, d: string, n: string, isIp: string -> bool)
    requires |Words(line)| >= 2 && Words(line)[1] == d
    requires d != "localhost" && NormalizeDomain(d) == n && IsValidDomain(n)
    ensures ParseHostsLine(line, isIp) == if isIp(Words(line)[0]) && !EndsWith(d, ".local") then Some(n) else None
  {
  }

  lemma NotLocalhost(d: string)
    requires '.' in d
    ensures d != "localhost"
  {
  }

  lemma HostsName(line: string, d: string, isIp: string -> bool)
    requires |Words(line)| >= 2 && Words(line)[1] == d && DottedName(d)
    ensures ParseHostsLine(line, isIp) ==
            if isIp(Words(line)[0]) && !EndsWith(d, ".local") then Some(ToLower(d)) else None
  {
    NormalizeName(d);
    NotLocalhost(d);
    HostsRead(line, d, ToLower(d), isIp);
  }

  lemma HostsStored(d: string)
    requires DottedName(d)
    ensures HostsRule(d) == StoreBlock("||" + d + "^")
  {
    DottedNameShape(d);
  }

  /** The second word of the line is the dotted name `d`, whatever the first is. */
  predicate HostsEntry(line: string, d: string) {
    && line != "" && (Unmarked(line) || line[0] == '!')
    && |Words(line)| >= 2 && Words(line)[1] == d && DottedName(d)
  }

  /** The rule parser takes the line for a hosts line: no comment, an address, and no `.local` name. */
  predicate TakenAsHosts(line: string, d: string, isIp: string -> bool)
    requires HostsEntry(line, d)
  {
    line[0] != '!' && isIp(Words(line)[0]) && !EndsWith(d, ".local")
  }

  lemma HostsEntryStored(raw: string, d: string)
    requires HostsEntry(Trim(raw), d)
    ensures NormaliseHosts(raw) == StoreBlock("||" + d + "^")
  {
    HostsStored(d);
  }

  lemma HostsEntryEffect(raw: string, d: string, isIp: string -> bool)
    requires HostsEntry(Trim(raw), d)
    ensures EffectOf(raw, isIp) == if TakenAsHosts(Trim(raw), d, isIp) then Block(ToLower(d)) else Ignored
  {
    TrimIdempotent(raw);
    if Trim(raw)[0] != '!' { HostsLine(Trim(raw), d, isIp); }
  }

  /**
   The hosts normaliser never looks at the first word and stores a block rule for every dotted
   name, so it keeps the meaning of a line exactly when the line is no `!` comment, its first word
   is an address and the name does not end in `.local`, which the rule parser skips.
   */
  lemma HostsNormalisation(raw: string, d: string, isIp: string -> bool)
    requires HostsEntry(Trim(raw), d)
    ensures NormaliseHosts(raw) == StoreBlock("||" + d + "^")
    ensures SameMeaning(raw, NormaliseHosts(raw), isIp) <==> TakenAsHosts(Trim(raw), d, isIp)
  {
    HostsEntryStored(raw, d);
    HostsEntryEffect(raw, d, isIp);
    BlockLineEffect(d, "^", isIp);
  }

  // ----- Wildcard lines -----

  /** The name of a wildcard rule: any text with a star and a dot, up to options and trailing anchors. */
  predicate StarName(n: string) {
    && '*' in n && '.' in n && '^' !in n && '$' !in n
    && n[|n| - 1] !in {'|', '/', '.'}
  }

  lemma CutStarOptions(n: string, tail: string)
    requires StarName(n) && OptionTail(tail)
    ensures NamePart(n + tail) == n
  {
    CutText(n, tail);
  }

  /** Trimming never takes a star. */
  lemma {:induction false} StarStays(s: string, cs: set<char>)
    requires '*' in s && '*' !in cs
    ensures '*' in TrimRight(s, cs) && '*' in TrimLeft(s, cs)
  {
    var k :| 0 <= k < |s| && s[k] == '*';
    assert k < |TrimRight(s, cs)|;
    assert TrimRight(s, cs)[k] == '*';
    StarStaysLeft(s, cs);
  }

  lemma {:induction false} StarStaysLeft(s: string, cs: set<char>)
    requires '*' in s && '*' !in cs
    ensures '*' in TrimLeft(s, cs)
  {
    if s[0] in cs {
      assert s == [s[0]] + s[1..];
      StarStaysLeft(s[1..], cs);
    }
  }

  /** A star keeps a name out of the plain-domain parser. */
  lemma StarInvalid(n: string)
    requires '*' in n
    ensures !IsValidDomain(NormalizeDomain(n))
  {
    assert '*' in Trim(n) by {
      StarStays(n, SPACES);
      StarStays(TrimLeft(n, SPACES), SPACES);
    }
    StarInside(Trim(n));
  }

  lemma StarInside(t: string)
    requires '*' in t
    ensures !IsValidDomain(ToLower(TrimRight(t, {'.'})))
  {
    var k :| 0 <= k < |t| && t[k] == '*';
    BadCharacterInside(t, k);
  }

  lemma StarParsed(line: string, n: string, tail: string)
    requires line == "||" + n + tail && StarName(n) && OptionTail(tail)
    ensures ParseAdguardDomain(line) == None && ParseAdguardWildcard(line) == Some(ToLower(n))
  {
    assert line[..2] == "||";
    assert line[2..] == n + tail;
    CutStarOptions(n, tail);
    StarInvalid(n);
    LowerKeeps(n);
  }

  lemma LowerKeeps(n: string)
    requires '*' in n && '.' in n
    ensures '*' in ToLower(n) && '.' in ToLower(n)
  {
    var i :| 0 <= i < |n| && n[i] == '*';
    var j :| 0 <= j < |n| && n[j] == '.';
    assert ToLower(n)[i] == '*' && ToLower(n)[j] == '.';
  }

  /** `||pattern` with any options blocks what the lower-cased pattern covers. */
  lemma StarBlockLine(n: string, tail: string, isIp: string -> bool)
    requires StarName(n) && OptionTail(tail)
    ensures LineEffect("||" + n + tail, isIp) == BlockGlob(ToLower(n))
  {
    var line := "||" + n + tail;
    NotBlockAll(n, tail);
    assert line[0] == '|';
    assert !StartsWith(line, "@@") by { assert line[..2][0] == '|'; }
    assert BlockEffect(line, isIp) == BlockGlob(ToLower(n)) by { StarParsed(line, n, tail); }
  }

  /** A pattern with a dot is longer than the block-everything line. */
  lemma NotBlockAll(n: string, tail: string)
    requires StarName(n) && OptionTail(tail)
    ensures "||" + n + tail != "||*^" && "||" + n + tail != "||*"
  {
    var j :| 0 <= j < |n| && n[j] == '.';
    assert ("||" + n + tail)[2 + j] == '.';
  }

  /** `@@||pattern` with any options allows what the lower-cased pattern covers. */
  lemma StarAllowLine(n: string, tail: string, isIp: string -> bool)
    requires StarName(n) && OptionTail(tail)
    ensures LineEffect("@@||" + n + tail, isIp) == AllowGlob(ToLower(n))
  {
    var line := "@@||" + n + tail;
    assert line[0] == '@' && line != "||*^" && line != "||*";
    assert StartsWith(line, "@@") by { assert line[..2] == "@@"; }
    assert AllowEffect(line[2..]) == AllowGlob(ToLower(n)) by {
      assert line[2..] == "||" + n + tail;
      StarParsed(line[2..], n, tail);
    }
  }

  /** The same of lines as they stand in a file, where blanks after the options are trimmed. */
  lemma StarLineEffects(n: string, tail: string, isIp: string -> bool)
    requires StarName(n) && n[|n| - 1] !in SPACES && OptionTail(tail)
    ensures EffectOf("||" + n + tail, isIp) == BlockGlob(ToLower(n))
    ensures EffectOf("@@||" + n + tail, isIp) == AllowGlob(ToLower(n))
  {
    TrimMarked("||", n, tail);
    TrimMarked("@@||", n, tail);
    StarBlockLine(n, TrimRight(tail, SPACES), isIp);
    StarAllowLine(n, TrimRight(tail, SPACES), isIp);
  }

  lemma TrimMarked(mark: string, n: string, tail: string)
    requires n != "" && n[|n| - 1] !in SPACES && OptionTail(tail) && (mark == "||" || mark == "@@||")
    ensures Trim(mark + n + tail) == mark + n + TrimRight(tail, SPACES)
    ensures OptionTail(TrimRight(tail, SPACES))
  {
    var rule := mark + n;
    assert rule[0] == mark[0] && rule[|rule| - 1] == n[|n| - 1];
    TrimRule(rule, tail);
  }

  lemma StarDotBare(line: string, domain: string, isIp: string -> bool)
    requires StartsWith(line, "*.") && ParseHostsLine(line, isIp) == None
    requires NormalizeDomain(line[2..]) == domain && domain != ""
    ensures BareEffect(line, isIp) == Block(domain)
  {
    assert line[0] == line[..2][0];
    assert !StartsWith(line, ".") by { assert line[..1][0] == line[0]; }
  }

  lemma StarDotWord(line: string, d: string, isIp: string -> bool)
    requires line == "*." + d && DottedName(d)
    ensures ParseHostsLine(line, isIp) == None
  {
    DottedNameShape(d);
    OneWord(line);
  }

  /** `*.name` blocks the name itself as well as its subdomains. */
  lemma SubdomainLine(d: string, isIp: string -> bool)
    requires DottedName(d)
    ensures LineEffect("*." + d, isIp) == Block(ToLower(d))
  {
    var line := "*." + d;
    assert BareEffect(line, isIp) == Block(ToLower(d)) by {
      StarDotWord(line, d, isIp);
      NormalizeName(d);
      assert line[..2] == "*." && line[2..] == d;
      StarDotBare(line, ToLower(d), isIp);
    }
    assert line[0] == '*';
    UnmarkedLine(line, isIp);
  }
}
