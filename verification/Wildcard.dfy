/**
 Wildcard domain patterns: the compiler from `*` patterns to regular expressions, and the
 proof that the expression it writes means what the pattern means.
 */
module Wildcard {
  import opened Text
  import opened DomainSuffix
  import Regex

  /** The meaning of a pattern: each `*` stands for one or more characters other than a dot. */
  predicate Glob(p: string, s: string)
    decreases |p|
  {
    if p == "" then s == ""
    else if p[0] == '*' then
      exists k: nat :: 1 <= k <= |s| && '.' !in s[..k] && Glob(p[1..], s[k..])
    else s != "" && s[0] == p[0] && Glob(p[1..], s[1..])
  }

  /** What `wildcard_to_regex` writes for one character. */
  function Token(c: char): (r: string)
    ensures r != "" && r[0] != '+'
  {
    if c == '*' then "[^.]+"
    else if c == '.' then "\\."
    else if IsAlphanumeric(c) || c == '-' || c == '_' then [c]
    else ['\\', c]
  }

  function Body(p: string): string {
    if p == "" then "" else Token(p[0]) + Body(p[1..])
  }

  function RegexText(p: string): string { "(?i)^" + Body(p) + "$" }

  lemma {:induction false} BodySnoc(p: string, c: char)
    ensures Body(p + [c]) == Body(p) + Token(c)
  {
    if p == "" {
      assert Body([c]) == Token(c) + Body("");
    } else {
      assert (p + [c])[1..] == p[1..] + [c];
      BodySnoc(p[1..], c);
    }
  }

  // ----- The emitted text parses to one atom per pattern character -----

  /** The atom a pattern character turns into. */
  function Atom(c: char): Regex.Re {
    if c == '*' then Regex.Plus(Regex.NotChar('.')) else Regex.Escaped(c)
  }

  function Chain(p: string): Regex.Re {
    if p == "" then Regex.Cat(Regex.End, Regex.Empty) else Regex.Cat(Atom(p[0]), Chain(p[1..]))
  }

  /** One character's token is one atom, with `+` exactly for `*`. */
  lemma ParseToken(c: char, rest: string)
    requires Regex.IsAscii(c) && rest != "" && rest[0] != '+'
    ensures var t := Token(c) + rest;
            var atom := if c == '*' then Regex.NotChar('.') else Regex.Escaped(c);
            Regex.ParseAtom(t) == Some((atom, if c == '*' then "+" + rest else rest))
  {
    var t := Token(c) + rest;
    if c == '*' {
      assert t[4..] == "+" + rest;
    } else if c == '.' || !(IsAlphanumeric(c) || c == '-' || c == '_') {
      assert t[2..] == rest;
    } else {
      assert t[1..] == rest;
    }
  }

  /** Only ASCII characters may be escaped, so any other symbol makes the text invalid. */
  predicate Ascii(p: string) { forall c :: c in p ==> Regex.IsAscii(c) }

  lemma ForeignToken(c: char, rest: string)
    requires !Regex.IsAscii(c)
    ensures Regex.ParseAtom(Token(c) + rest) == None
  {
    var t := Token(c) + rest;
    assert t[0] == '\\' && t[1] == c;
  }

  lemma AsciiStep(p: string)
    requires p != ""
    ensures Ascii(p) <==> Regex.IsAscii(p[0]) && Ascii(p[1..])
  {
    assert p == [p[0]] + p[1..];
  }

  lemma {:induction false} ParseBody(p: string)
    ensures Regex.ParseSequence(Body(p) + "$") == if Ascii(p) then Some(Chain(p)) else None
  {
    if p == "" {
      assert Body(p) + "$" == "$";
      assert Regex.ParseAtom("$") == Some((Regex.End, ""));
    } else {
      var rest := Body(p[1..]) + "$";
      AsciiStep(p);
      assert rest[0] != '+';
      assert Body(p) + "$" == Token(p[0]) + rest;
      ParseBody(p[1..]);
      if Regex.IsAscii(p[0]) {
        ParseToken(p[0], rest);
        assert ("+" + rest)[1..] == rest;
      } else {
        ForeignToken(p[0], rest);
      }
    }
  }

  /** The engine takes the text exactly when the pattern is ASCII, and then reads it as the chain. */
  lemma ParseRegexText(p: string)
    ensures Regex.Parse(RegexText(p)) ==
            if Ascii(p) then Some(Regex.Pattern(true, Regex.Cat(Regex.Start, Chain(p)))) else None
  {
    var s := RegexText(p);
    var body := "^" + Body(p) + "$";
    assert s[..4] == "(?i)";
    assert s[4..] == body;
    var rest := Body(p) + "$";
    assert body[1..] == rest;
    assert rest[0] != '+';
    assert Regex.ParseAtom(body) == Some((Regex.Start, rest));
    ParseBody(p);
  }

  // ----- Without angle brackets, matching the expression is matching the pattern -----

  /** Escaped angle brackets are word boundaries to the engine, not characters. */
  predicate Angled(p: string) { '<' in p || '>' in p }

  lemma {:induction false} MatchChain(p: string, t: string, i: nat, j: nat)
    requires !Angled(p) && i <= j <= |t|
    ensures Regex.MatchAt(Chain(p), true, t, i, j) <==> j == |t| && Glob(ToLower(p), ToLower(t[i..]))
    decreases |p|
  {
    if p == "" {
      assert Regex.MatchAt(Regex.Empty, true, t, j, j);
      assert i == j == |t| <==> j == |t| && t[i..] == "";
    } else if p[0] == '*' {
      MatchChainStar(p, t, i, j);
    } else {
      MatchChainLiteral(p, t, i, j);
    }
  }

  lemma {:induction false} MatchChainLiteral(p: string, t: string, i: nat, j: nat)
    requires p != "" && p[0] != '*'
    requires !Angled(p) && i <= j <= |t|
    ensures Regex.MatchAt(Chain(p), true, t, i, j) <==> j == |t| && Glob(ToLower(p), ToLower(t[i..]))
    decreases |p|, 0
  {
    var lit := Regex.Literal(p[0]);
    assert ToLower(p)[1..] == ToLower(p[1..]);
    assert Chain(p) == Regex.Cat(lit, Chain(p[1..]));
    if i < j {
      MatchChain(p[1..], t, i + 1, j);
      assert ToLower(t[i..])[1..] == ToLower(t[i + 1..]);
      assert Regex.MatchAt(lit, true, t, i, i + 1) <==> Lower(t[i]) == Lower(p[0]);
      if Regex.MatchAt(Chain(p), true, t, i, j) {
        var k := Regex.Divide(lit, Chain(p[1..]), true, t, i, j);
        assert k == i + 1;
      }
    }
  }

  /** A star spans `k - i` characters exactly if none of them is a dot. */
  lemma StarSpans(t: string, i: nat, k: nat)
    requires i <= k <= |t|
    ensures Regex.MatchAt(Atom('*'), true, t, i, k) <==> i < k && '.' !in ToLower(t[i..])[..k - i]
  {
    Regex.PlusNotChar('.', true, t, i, k);
    NoDotLower(t[i..k]);
    assert ToLower(t[i..])[..k - i] == ToLower(t[i..k]);
  }

  /** A star and the rest of the pattern, against text from `i` on. */
  lemma StarThenRest(q: string, s: string, m: nat)
    requires q != "" && q[0] == '*' && 1 <= m <= |s| && '.' !in s[..m] && Glob(q[1..], s[m..])
    ensures Glob(q, s)
  {
  }

  lemma {:induction false} MatchChainStar(p: string, t: string, i: nat, j: nat)
    requires p != "" && p[0] == '*'
    requires !Angled(p) && i <= j <= |t|
    ensures Regex.MatchAt(Chain(p), true, t, i, j) <==> j == |t| && Glob(ToLower(p), ToLower(t[i..]))
    decreases |p|, 0
  {
    var rest, q, s := Chain(p[1..]), ToLower(p), ToLower(t[i..]);
    assert q[1..] == ToLower(p[1..]);
    assert Chain(p) == Regex.Cat(Atom('*'), rest);
    forall k: nat | i <= k <= j
      ensures Regex.MatchAt(rest, true, t, k, j) <==> j == |t| && Glob(q[1..], s[k - i..])
    {
      MatchChain(p[1..], t, k, j);
      assert s[k - i..] == ToLower(t[k..]);
    }
    if j == |t| && Glob(q, s) {
      var m: nat :| 1 <= m <= |s| && '.' !in s[..m] && Glob(q[1..], s[m..]);
      StarSpans(t, i, i + m);
      assert Regex.MatchAt(rest, true, t, i + m, j);
    }
    if Regex.MatchAt(Regex.Cat(Atom('*'), rest), true, t, i, j) {
      var k := Regex.Divide(Atom('*'), rest, true, t, i, j);
      StarSpans(t, i, k);
      StarThenRest(q, s, k - i);
    }
  }

  lemma NoDotLower(s: string)
    ensures '.' in s <==> '.' in ToLower(s)
  {
    if '.' in s {
      var k :| 0 <= k < |s| && s[k] == '.';
      assert ToLower(s)[k] == '.';
    }
  }

  /** The engine's reading of the text written for a pattern. */
  predicate Engine(p: string, name: string) {
    Regex.IsMatch(Regex.Pattern(true, Regex.Cat(Regex.Start, Chain(p))), name)
  }

  lemma EngineIsGlob(p: string, name: string)
    requires !Angled(p)
    ensures Engine(p, name) <==> Glob(ToLower(p), ToLower(name))
  {
    var re := Chain(p);
    Regex.Anchored(re, true, name);
    assert name[0..] == name;
    forall j: nat | j <= |name|
      ensures Regex.MatchAt(re, true, name, 0, j) <==> j == |name| && Glob(ToLower(p), ToLower(name))
    {
      MatchChain(p, name, 0, j);
    }
    assert Glob(ToLower(p), ToLower(name)) ==> Regex.MatchAt(re, true, name, 0, |name|);
  }

  // ----- With one, some name tells them apart -----

  /** The same dots and word characters, and the same character wherever an atom can be literal. */
  ghost predicate Resembles(t: string, u: string) {
    && |t| == |u|
    && forall k :: 0 <= k < |t| ==>
         && (t[k] == '.' <==> u[k] == '.')
         && (Regex.IsWord(t[k]) <==> Regex.IsWord(u[k]))
         && (Lower(t[k]) == Lower(u[k]) || t[k] == '<' || t[k] == '>')
  }

  lemma AtomMoves(c: char, t: string, u: string, i: nat, j: nat)
    requires Resembles(t, u) && i <= j <= |t| && Regex.MatchAt(Atom(c), true, t, i, j)
    ensures Regex.MatchAt(Atom(c), true, u, i, j)
  {
    if c == '*' {
      Regex.PlusNotChar('.', true, t, i, j);
      Regex.PlusNotChar('.', true, u, i, j);
      forall k | 0 <= k < j - i ensures u[i..j][k] != '.' {
        assert t[i..j][k] == t[i + k];
      }
    }
  }

  /** A match carries over to every text that resembles the one matched. */
  lemma {:induction false} ChainMoves(p: string, t: string, u: string, i: nat, j: nat)
    requires Resembles(t, u) && i <= j <= |t| && Regex.MatchAt(Chain(p), true, t, i, j)
    ensures Regex.MatchAt(Chain(p), true, u, i, j)
    decreases |p|
  {
    if p == "" {
      var k := Regex.Divide(Regex.End, Regex.Empty, true, t, i, j);
      assert Regex.MatchAt(Regex.End, true, u, i, k) && Regex.MatchAt(Regex.Empty, true, u, k, j);
    } else {
      var k := Regex.Divide(Atom(p[0]), Chain(p[1..]), true, t, i, j);
      AtomMoves(p[0], t, u, i, k);
      ChainMoves(p[1..], t, u, k, j);
    }
  }

  lemma EngineMoves(p: string, t: string, u: string)
    requires Resembles(t, u) && Engine(p, t)
    ensures Engine(p, u)
  {
    var re := Chain(p);
    Regex.Anchored(re, true, t);
    Regex.Anchored(re, true, u);
    var j: nat :| j <= |t| && Regex.MatchAt(re, true, t, 0, j);
    ChainMoves(p, t, u, 0, j);
    assert Regex.MatchAt(re, true, u, 0, j);
  }

  /** Letter case is nothing to the engine. */
  lemma EngineFolds(p: string, name: string)
    ensures Engine(p, name) <==> Engine(p, ToLower(name))
  {
    assert Resembles(name, ToLower(name)) && Resembles(ToLower(name), name);
    if Engine(p, name) { EngineMoves(p, name, ToLower(name)); }
    if Engine(p, ToLower(name)) { EngineMoves(p, ToLower(name), name); }
  }

  /** A pattern matches itself: each star takes the star. */
  lemma {:induction false} GlobItself(p: string)
    ensures Glob(p, p)
  {
    if p != "" {
      GlobItself(p[1..]);
      assert p[0] == '*' ==> '.' !in p[..1];
    }
  }

  /** Every character of the pattern but the star occurs in a name it matches. */
  lemma {:induction false} GlobKeeps(p: string, s: string, c: char)
    requires Glob(p, s) && c in p && c != '*'
    ensures c in s
    decreases |p|
  {
    if p[0] == '*' {
      var k: nat :| 1 <= k <= |s| && '.' !in s[..k] && Glob(p[1..], s[k..]);
      GlobKeeps(p[1..], s[k..], c);
    } else if c != p[0] {
      GlobKeeps(p[1..], s[1..], c);
    }
  }

  /** Angle brackets turned into dashes, which are no word characters either. */
  function Dashed(p: string): (r: string)
    ensures |r| == |p|
  {
    seq(|p|, i requires 0 <= i < |p| => if p[i] == '<' || p[i] == '>' then '-' else p[i])
  }

  lemma DashedMissed(p: string)
    requires Angled(p)
    ensures !Glob(ToLower(p), ToLower(Dashed(p)))
  {
    var c := if '<' in p then '<' else '>';
    var k :| 0 <= k < |p| && p[k] == c;
    assert ToLower(p)[k] == c;
    var s := ToLower(Dashed(p));
    assert forall i :: 0 <= i < |s| ==> s[i] != c;
    if Glob(ToLower(p), s) {
      GlobKeeps(ToLower(p), s, c);
    }
  }

  /** A name on which engine and pattern disagree: the pattern itself, or its dashed form. */
  lemma AngledDiffers(p: string) returns (name: string)
    requires Angled(p)
    ensures Engine(p, name) <==> !Glob(ToLower(p), ToLower(name))
  {
    GlobItself(ToLower(p));
    name := p;
    if Engine(p, p) {
      name := Dashed(p);
      EngineMoves(p, p, name);
      DashedMissed(p);
    }
  }

  /** On every name the expression written for `p` is matched exactly when the pattern is. */
  ghost predicate MeaningKept(p: string) {
    var re := Regex.Parse(RegexText(p));
    re.Some? && forall name :: Regex.IsMatch(re.value, name) <==> Glob(ToLower(p), ToLower(name))
  }

  /**
   The compiler preserves meaning exactly on the ASCII patterns without angle brackets: there,
   the engine given the emitted text matches a name if and only if the pattern does, whatever
   the case of either.
   */
  lemma CompilerPreservesMeaning(p: string)
    ensures MeaningKept(p) <==> Ascii(p) && !Angled(p)
  {
    ParseRegexText(p);
    if Ascii(p) && Angled(p) {
      var name := AngledDiffers(p);
      assert Regex.IsMatch(Regex.Parse(RegexText(p)).value, name) <==> Engine(p, name);
    } else if Ascii(p) {
      forall name ensures Engine(p, name) <==> Glob(ToLower(p), ToLower(name)) {
        EngineIsGlob(p, name);
      }
    }
  }

  /** `wildcard_to_regex`: the engine takes the text of ASCII patterns only, and means them unless angled. */
  method WildcardToRegex(pattern: string) returns (re: string)
    ensures re == RegexText(pattern)
    ensures Regex.Parse(re).Some? <==> Ascii(pattern)
    ensures (Regex.Parse(re).Some? &&
             forall name :: Regex.IsMatch(Regex.Parse(re).value, name) <==> Glob(ToLower(pattern), ToLower(name)))
            <==> Ascii(pattern) && !Angled(pattern)
  {
    re := WriteRegex(pattern);
    ParseRegexText(pattern);
    CompilerPreservesMeaning(pattern);
  }

  method WriteRegex(pattern: string) returns (re: string)
    ensures re == RegexText(pattern)
  {
    re := "(?i)^";
    for i := 0 to |pattern|
      invariant re == "(?i)^" + Body(pattern[..i])
    {
      var ch := pattern[i];
      assert pattern[..i + 1] == pattern[..i] + [ch];
      BodySnoc(pattern[..i], ch);
      if ch == '*' {
        re := re + "[^.]+";
      } else if ch == '.' {
        re := re + "\\.";
      } else if IsAlphanumeric(ch) || ch == '-' || ch == '_' {
        re := re + [ch];
      } else {
        re := re + ['\\'];
        re := re + [ch];
      }
    }
    assert pattern[..|pattern|] == pattern;
    re := re + "$";
  }

  // ----- A match pairs labels one to one -----

  /** The labels of `s` match the labels of the pattern, one to one. */
  predicate LabelsMatch(ps: seq<string>, ss: seq<string>) {
    |ps| == |ss| && forall i :: 0 <= i < |ps| ==> Glob(ps[i], ss[i])
  }

  /** Cutting characters off the front of the first label. */
  lemma {:induction false} LabelsDrop(s: string, k: nat)
    requires k <= |s| && '.' !in s[..k]
    ensures k <= |Labels(s)[0]| && Labels(s)[0][..k] == s[..k]
    ensures Labels(s[k..]) == [Labels(s)[0][k..]] + Labels(s)[1..]
  {
    if k == 0 {
      assert s[0..] == s && Labels(s)[0][0..] == Labels(s)[0];
    } else {
      assert s[0] == s[..k][0];
      assert s[..k][1..] == s[1..][..k - 1];
      LabelsDrop(s[1..], k - 1);
      assert s[1..][k - 1..] == s[k..];
      var h := Labels(s[1..])[0];
      assert Labels(s) == [[s[0]] + h] + Labels(s[1..])[1..];
      assert ([s[0]] + h)[k..] == h[k - 1..];
      assert ([s[0]] + h)[..k] == [s[0]] + h[..k - 1];
      assert s[..k] == [s[0]] + s[1..][..k - 1];
    }
  }

  lemma MatchHead(ps: seq<string>, ss: seq<string>)
    requires |ps| >= 1 && |ss| >= 1
    ensures LabelsMatch(ps, ss) <==> Glob(ps[0], ss[0]) && LabelsMatch(ps[1..], ss[1..])
  {
    if Glob(ps[0], ss[0]) && LabelsMatch(ps[1..], ss[1..]) {
      forall i | 0 <= i < |ps| ensures Glob(ps[i], ss[i]) {
        if i > 0 { assert Glob(ps[1..][i - 1], ss[1..][i - 1]); }
      }
    }
  }

  /** A pattern matches a name exactly when it matches label by label. */
  lemma {:induction false} GlobPairsLabels(p: string, s: string)
    ensures Glob(p, s) <==> LabelsMatch(Labels(p), Labels(s))
    decreases |p|, 3
  {
    if p == "" {
      if LabelsMatch([""], Labels(s)) {
        assert Labels(s)[0] == "" by { assert Glob("", Labels(s)[0]); }
        LabelsInjective("", s);
      }
    } else if p[0] == '*' {
      StarPairsLabels(p, s);
    } else {
      CharPairsLabels(p, s);
    }
  }

  lemma {:induction false} CharPairsLabels(p: string, s: string)
    requires p != "" && p[0] != '*'
    ensures Glob(p, s) <==> LabelsMatch(Labels(p), Labels(s))
    decreases |p|, 0
  {
    MatchHead(Labels(p), Labels(s));
    var lp := Labels(p[1..]);
    if p[0] == '.' {
      assert Labels(p)[0] == "" && Labels(p)[1..] == lp;
    } else {
      assert Labels(p)[0] == [p[0]] + lp[0] && Labels(p)[1..] == lp[1..];
      assert Labels(p)[0][1..] == lp[0];
    }
    if s != "" {
      var ls := Labels(s[1..]);
      GlobPairsLabels(p[1..], s[1..]);
      MatchHead(lp, ls);
      if s[0] == '.' {
        assert Labels(s)[0] == "" && Labels(s)[1..] == ls;
      } else {
        assert Labels(s)[0] == [s[0]] + ls[0] && Labels(s)[1..] == ls[1..];
        assert Labels(s)[0][1..] == ls[0];
      }
    }
  }

  lemma {:induction false} StarPairsLabels(p: string, s: string)
    requires p != "" && p[0] == '*'
    ensures Glob(p, s) <==> LabelsMatch(Labels(p), Labels(s))
    decreases |p|, 2
  {
    var lp, ls := Labels(p[1..]), Labels(s);
    var h := ls[0];
    MatchHead(Labels(p), ls);
    assert Labels(p)[0] == ['*'] + lp[0] && Labels(p)[1..] == lp[1..];
    assert Labels(p)[0][1..] == lp[0];
    SplitParts(s, '.');
    if Glob(p, s) {
      var k: nat :| 1 <= k <= |s| && '.' !in s[..k] && Glob(p[1..], s[k..]);
      StarCut(p, s, k);
      assert '.' !in h[..k] && Glob(lp[0], h[k..]);
    }
    if LabelsMatch(Labels(p), ls) {
      var k: nat :| 1 <= k <= |h| && '.' !in h[..k] && Glob(lp[0], h[k..]);
      LabelsStep(s);
      assert h == match Find(s, '.') case None => s case Some(i) => s[..i];
      assert s[..k] == h[..k];
      StarCut(p, s, k);
    }
  }

  /** A star that takes `k` characters of the name takes them from its first label. */
  lemma {:induction false} StarCut(p: string, s: string, k: nat)
    requires p != "" && 1 <= k <= |s| && '.' !in s[..k]
    ensures k <= |Labels(s)[0]| && Labels(s)[0][..k] == s[..k]
    ensures var lp := Labels(p[1..]);
            Glob(p[1..], s[k..]) <==> Glob(lp[0], Labels(s)[0][k..]) && LabelsMatch(lp[1..], Labels(s)[1..])
    decreases |p|, 0
  {
    LabelsDrop(s, k);
    GlobPairsLabels(p[1..], s[k..]);
    MatchHead(Labels(p[1..]), Labels(s[k..]));
    assert Labels(s[k..])[1..] == Labels(s)[1..];
  }

  // ----- The walk over parents -----

  /** What a pattern matches: its glob, or for an angled pattern what the engine makes of it. */
  predicate Meaning(p: string, name: string) {
    if Angled(p) then Engine(p, name) else Glob(p, name)
  }

  /** The name or one of its parents matches. */
  ghost predicate GlobCovers(p: string, domain: string) {
    exists t :: Covers(t, domain) && Meaning(p, t)
  }

  lemma GlobCoversStep(p: string, s: string)
    ensures match Find(s, '.')
            case None => GlobCovers(p, s) <==> Meaning(p, s)
            case Some(i) => GlobCovers(p, s) <==> Meaning(p, s) || GlobCovers(p, s[i + 1..])
  {
    forall t { CoversStep(t, s); }
    assert Covers(s, s);
  }

  /** The last labels of the name match the labels of the pattern, one to one. */
  predicate LastLabelsMatch(p: string, domain: string) {
    var k, n := |Labels(p)|, |Labels(domain)|;
    k <= n && LabelsMatch(Labels(p), Labels(domain)[n - k..])
  }

  lemma {:induction false} GlobCoversByLabels(p: string, s: string)
    requires !Angled(p)
    ensures GlobCovers(p, s) <==> LastLabelsMatch(p, s)
    decreases |s|
  {
    GlobCoversStep(p, s);
    LabelsStep(s);
    GlobPairsLabels(p, s);
    var k, n := |Labels(p)|, |Labels(s)|;
    assert Labels(s)[0..] == Labels(s);
    match Find(s, '.')
    case None =>
    case Some(i) =>
      GlobCoversByLabels(p, s[i + 1..]);
      if k < n {
        assert Labels(s)[n - k..] == Labels(s[i + 1..])[n - 1 - k..];
      }
  }

  // ----- A match has as many labels as the pattern -----

  lemma AtomLabels(c: char, t: string, i: nat, k: nat)
    requires i <= k <= |t| && Regex.MatchAt(Atom(c), true, t, i, k)
    ensures |Labels(t[i..])| == |Labels(t[k..])| + if c == '.' then 1 else 0
  {
    if c == '.' {
      assert t[i..][0] == '.' && t[i..][1..] == t[k..];
    } else {
      assert '.' !in t[i..k] by {
        if c == '*' { Regex.PlusNotChar('.', true, t, i, k); }
      }
      assert t[i..][..k - i] == t[i..k] && t[i..][k - i..] == t[k..];
      LabelsDrop(t[i..], k - i);
    }
  }

  lemma {:induction false} ChainLabels(p: string, t: string, i: nat, j: nat)
    requires i <= j <= |t| && Regex.MatchAt(Chain(p), true, t, i, j)
    ensures |Labels(t[i..])| == |Labels(p)|
    decreases |p|
  {
    if p == "" {
      var k := Regex.Divide(Regex.End, Regex.Empty, true, t, i, j);
      assert t[i..] == "";
    } else {
      var k := Regex.Divide(Atom(p[0]), Chain(p[1..]), true, t, i, j);
      AtomLabels(p[0], t, i, k);
      ChainLabels(p[1..], t, k, j);
    }
  }

  lemma MeaningLabels(p: string, t: string)
    requires Meaning(p, t)
    ensures |Labels(t)| == |Labels(p)|
  {
    if Angled(p) {
      var re := Chain(p);
      Regex.Anchored(re, true, t);
      var j: nat :| j <= |t| && Regex.MatchAt(re, true, t, 0, j);
      ChainLabels(p, t, 0, j);
      assert t[0..] == t;
    } else {
      GlobPairsLabels(p, t);
    }
  }

  /** `compiled` is what the engine makes of the expressions written for `globs`. */
  ghost predicate CompiledFrom(compiled: seq<Regex.Pattern>, globs: seq<string>) {
    && |compiled| == |globs|
    && forall i :: 0 <= i < |globs| ==>
         ToLower(globs[i]) == globs[i] && Regex.Parse(RegexText(globs[i])) == Some(compiled[i])
  }

  /** Some expression of the set matches exactly when some pattern does. */
  lemma SetMatches(compiled: seq<Regex.Pattern>, globs: seq<string>, name: string)
    requires CompiledFrom(compiled, globs) && ToLower(name) == name
    ensures (exists re :: re in compiled && Regex.IsMatch(re, name)) <==>
            (exists g :: g in globs && Meaning(g, name))
  {
    forall i | 0 <= i < |globs|
      ensures Regex.IsMatch(compiled[i], name) <==> Meaning(globs[i], name)
    {
      ParseRegexText(globs[i]);
      if !Angled(globs[i]) { EngineIsGlob(globs[i], name); }
    }
    if re :| re in compiled && Regex.IsMatch(re, name) {
      var i :| 0 <= i < |compiled| && compiled[i] == re;
      assert globs[i] in globs && Meaning(globs[i], name);
    }
    if g :| g in globs && Meaning(g, name) {
      var i :| 0 <= i < |globs| && globs[i] == g;
      assert compiled[i] in compiled && Regex.IsMatch(compiled[i], name);
    }
  }

  /**
   `RuleSet::matches_wildcard_set`: an absent set never hits; a compiled set hits exactly when
   the lower-cased domain or one of its parents matches one of the patterns.
   */
  method MatchesWildcardSet(domain: string, compiled: Option<seq<Regex.Pattern>>, ghost globs: seq<string>)
    returns (hit: bool)
    requires ToLower(domain) == domain
    requires compiled.Some? ==> CompiledFrom(compiled.value, globs)
    ensures hit <==> compiled.Some? && exists g :: g in globs && GlobCovers(g, domain)
  {
    if compiled.None? || compiled.value == [] {
      return false;
    }
    var current := domain;
    while true
      invariant ToLower(current) == current
      invariant forall g :: g in globs ==> (GlobCovers(g, domain) <==> GlobCovers(g, current))
      decreases |current|
    {
      SetMatches(compiled.value, globs, current);
      forall g { GlobCoversStep(g, current); }
      if exists re :: re in compiled.value && Regex.IsMatch(re, current) {
        return true;
      }
      match Find(current, '.')
      case Some(pos) =>
        assert ToLower(current[pos + 1..]) == ToLower(current)[pos + 1..];
        current := current[pos + 1..];
      case None => return false;
    }
  }
}
