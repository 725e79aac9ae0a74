/**
 The filter-rule line parser: what one AdGuard, hosts or plain-domain line asks the rule set
 to do. `isIp` stands for the standard library's `IpAddr` parser.
 */
module RuleSyntax {
  import opened Text
  import opened DomainSuffix

  datatype Effect =
    | Ignored
    | BlockAll
    | Allow(domain: string)
    | AllowGlob(glob: string)
    | Block(domain: string)
    | BlockGlob(glob: string)

  /** Names let into the set are lower case and non-empty, allowed ones valid; patterns hold a star and a dot. */
  predicate Sound(e: Effect) {
    match e
    case Allow(d) => IsValidDomain(d) && ToLower(d) == d
    case Block(d) => d != "" && ToLower(d) == d
    case AllowGlob(g) => ToLower(g) == g && '*' in g && '.' in g
    case BlockGlob(g) => ToLower(g) == g && '*' in g && '.' in g
    case _ => true
  }

  predicate ValidLabel(part: string) {
    && 1 <= |part| <= 63
    && (forall c :: c in part ==> IsAlphanumeric(c) || c == '-')
    && part[0] != '-' && part[|part| - 1] != '-'
  }

  predicate IsValidDomain(s: string) {
    && 1 <= |s| <= 253
    && ('.' in s || s == "localhost")
    && forall i :: 0 <= i < |Labels(s)| ==> ValidLabel(Labels(s)[i])
  }

  function NormalizeDomain(s: string): (r: string)
    ensures ToLower(r) == r
  {
    ToLowerIdempotent(TrimRight(Trim(s), {'.'}));
    ToLower(TrimRight(Trim(s), {'.'}))
  }

  /** The name in a rule body, with options and trailing anchors dropped. */
  function NamePart(rest: string): string {
    TrimRight(TrimRight(TrimRight(Before(Before(rest, '^'), '$'), {'|'}), {'/'}), {'.'})
  }

  function ParseAdguardDomain(rule: string): (r: Option<string>)
    ensures r.Some? ==> IsValidDomain(r.value) && ToLower(r.value) == r.value
  {
    var rest := if StartsWith(rule, "||") then Some(rule[2..]) else StripPrefix(rule, "|");
    if rest.None? then None
    else
      var domain := NormalizeDomain(NamePart(rest.value));
      if IsValidDomain(domain) then Some(domain) else None
  }

  /** The lower-cased wildcard pattern of `||` rules that hold a `*` and a dot. */
  function ParseAdguardWildcard(rule: string): (r: Option<string>)
    ensures r.Some? ==> ToLower(r.value) == r.value && '*' in r.value && '.' in r.value
  {
    if !StartsWith(rule, "||") then None
    else
      var glob := ToLower(NamePart(rule[2..]));
      ToLowerIdempotent(NamePart(rule[2..]));
      if '*' in glob && '.' in glob then Some(glob) else None
  }

  function UntilSpace(s: string): (r: string)
    ensures r <= s && forall c :: c in r ==> c !in SPACES
    ensures s != "" && s[0] !in SPACES ==> r != ""
  {
    if s == "" || s[0] in SPACES then "" else [s[0]] + UntilSpace(s[1..])
  }

  /** `split_whitespace`. */
  function Words(s: string): seq<string>
    decreases |s|
  {
    var t := TrimLeft(s, SPACES);
    if t == "" then []
    else
      var w := UntilSpace(t);
      [w] + Words(t[|w|..])
  }

  function ParseHostsLine(line: string, isIp: string -> bool): (r: Option<string>)
    ensures r.Some? ==> IsValidDomain(r.value) && ToLower(r.value) == r.value
  {
    var words := Words(line);
    if |words| < 2 || !isIp(words[0]) then None
    else if words[1] == "localhost" || EndsWith(words[1], ".local") then None
    else
      var domain := NormalizeDomain(words[1]);
      if IsValidDomain(domain) then Some(domain) else None
  }

  function AllowEffect(rest: string): (r: Effect)
    ensures r.Ignored? || r.Allow? || r.AllowGlob?
    ensures Sound(r)
  {
    match ParseAdguardDomain(rest)
    case Some(domain) => Allow(domain)
    case None =>
      match ParseAdguardWildcard(rest)
      case Some(glob) => AllowGlob(glob)
      case None => Ignored
  }

  function PlainEffect(line: string): (r: Effect)
    ensures r.Ignored? || r.Block?
    ensures Sound(r)
  {
    var domain := NormalizeDomain(line);
    if IsValidDomain(domain) then Block(domain) else Ignored
  }

  /** Lines without an AdGuard prefix: `.domain`, hosts, `*.domain` and plain names. */
  function BareEffect(line: string, isIp: string -> bool): (r: Effect)
    ensures r.Ignored? || r.Block?
    ensures Sound(r)
  {
    if StartsWith(line, ".") then
      var domain := NormalizeDomain(TrimRight(Before(Before(line[1..], '^'), '$'), {'.'}));
      if IsValidDomain(domain) then Block(domain) else Ignored
    else if ParseHostsLine(line, isIp).Some? then Block(ParseHostsLine(line, isIp).value)
    else if StartsWith(line, "*.") && NormalizeDomain(line[2..]) != "" then Block(NormalizeDomain(line[2..]))
    else PlainEffect(line)
  }

  /** Lines that are neither comments nor exceptions. */
  function BlockEffect(line: string, isIp: string -> bool): (r: Effect)
    ensures Sound(r)
  {
    match ParseAdguardDomain(line)
    case Some(domain) => Block(domain)
    case None =>
      match ParseAdguardWildcard(line)
      case Some(glob) => BlockGlob(glob)
      case None => BareEffect(line, isIp)
  }

  /** A trimmed line. */
  function LineEffect(line: string, isIp: string -> bool): (r: Effect)
    ensures Sound(r)
  {
    if line == "" || line[0] == '#' || line[0] == '!' then Ignored
    else if line[0] == '/' && line[|line| - 1] == '/' then Ignored
    else if line == "||*^" || line == "||*" then BlockAll
    else if StartsWith(line, "@@") then AllowEffect(line[2..])
    else BlockEffect(line, isIp)
  }

  /** The whole of `add_rule` up to the update of the set. */
  function EffectOf(raw: string, isIp: string -> bool): (r: Effect)
    ensures Sound(r)
  {
    LineEffect(Trim(raw), isIp)
  }

  // ----- Reading a line by its first character -----

  lemma BarLine(line: string, isIp: string -> bool)
    requires |line| >= 3 && line[0] == '|' && line[2] != '*'
    ensures LineEffect(line, isIp) == BlockEffect(line, isIp)
  {
    assert !StartsWith(line, "@@") by { assert line[..2][0] == '|'; }
    assert line != "||*^" && line != "||*";
  }

  lemma UnmarkedLine(line: string, isIp: string -> bool)
    requires line != "" && line[0] !in {'#', '!', '/', '@', '|'}
    ensures LineEffect(line, isIp) == BareEffect(line, isIp)
  {
    assert |line| >= 2 ==> line[..2][0] == line[0];
    assert !StartsWith(line, "@@") && !StartsWith(line, "||");
    assert !StartsWith(line, "|") by { assert line[..1][0] == line[0]; }
    assert ParseAdguardDomain(line) == None;
    assert ParseAdguardWildcard(line) == None;
  }
}
