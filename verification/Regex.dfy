/**
 The fragment of regular-expression syntax that the wildcard compiler emits, with the
 meaning the engine gives it: a parser from pattern text, and unanchored matching defined
 by positions so that `^` and `$` are ordinary zero-width expressions.
 */
module Regex {
  import opened Text

  datatype Re =
    | Empty
    | Start
    | End
    | WordStart
    | WordEnd
    | Literal(c: char)
    | NotChar(c: char)
    | Plus(inner: Re)
    | Cat(first: Re, second: Re)

  /** A compiled pattern: the expression and whether `(?i)` was given. */
  datatype Pattern = Pattern(fold: bool, re: Re)

  const META: set<char> := {'.', '*', '+', '?', '(', ')', '[', ']', '{', '}', '|'}

  predicate IsAscii(c: char) { c as int < 128 }

  /** What may follow a backslash here: ASCII punctuation, blanks and controls; all else is refused. */
  predicate Escapable(c: char) { IsAscii(c) && !IsAlphanumeric(c) }

  /** A backslash makes punctuation literal, except that `\<` and `\>` are word boundaries. */
  function Escaped(c: char): Re {
    if c == '<' then WordStart else if c == '>' then WordEnd else Literal(c)
  }

  /** One atom of the pattern text and what follows it; `None` outside the fragment. */
  function ParseAtom(s: string): (r: Option<(Re, string)>)
    requires s != ""
    ensures r.Some? ==> |r.value.1| < |s|
  {
    if s[0] == '^' then Some((Start, s[1..]))
    else if s[0] == '$' then Some((End, s[1..]))
    else if s[0] == '\\' then
      if |s| >= 2 && Escapable(s[1]) then Some((Escaped(s[1]), s[2..])) else None
    else if s[0] == '[' then
      if |s| >= 4 && s[1] == '^' && s[3] == ']' then Some((NotChar(s[2]), s[4..])) else None
    else if s[0] in META then None
    else Some((Literal(s[0]), s[1..]))
  }

  /** A sequence of atoms, each optionally repeated with `+`. */
  function ParseSequence(s: string): Option<Re>
    decreases |s|
  {
    if s == "" then Some(Empty)
    else
      match ParseAtom(s)
      case None => None
      case Some((atom, rest)) =>
        var plus := rest != "" && rest[0] == '+';
        match ParseSequence(if plus then rest[1..] else rest)
        case None => None
        case Some(more) => Some(Cat(if plus then Plus(atom) else atom, more))
  }

  function Parse(s: string): Option<Pattern> {
    var fold := StartsWith(s, "(?i)");
    match ParseSequence(if fold then s[4..] else s)
    case None => None
    case Some(re) => Some(Pattern(fold, re))
  }

  predicate IsWord(c: char) { IsAlphanumeric(c) || c == '_' }

  predicate WordBefore(text: string, i: nat)
    requires i <= |text|
  {
    i > 0 && IsWord(text[i - 1])
  }

  predicate WordAfter(text: string, i: nat)
    requires i <= |text|
  {
    i < |text| && IsWord(text[i])
  }

  /** `re` matches exactly the text between positions `i` and `j`. */
  predicate MatchAt(re: Re, fold: bool, text: string, i: nat, j: nat)
    requires i <= j <= |text|
    decreases re, j - i
  {
    match re
    case Empty => i == j
    case Start => i == j == 0
    case End => i == j == |text|
    case WordStart => i == j && !WordBefore(text, i) && WordAfter(text, i)
    case WordEnd => i == j && WordBefore(text, i) && !WordAfter(text, i)
    case Literal(c) => j == i + 1 && (text[i] == c || (fold && Lower(text[i]) == Lower(c)))
    case NotChar(c) => j == i + 1 && text[i] != c
    case Plus(r) =>
      || MatchAt(r, fold, text, i, j)
      || exists k: nat :: i < k < j && MatchAt(r, fold, text, i, k) && MatchAt(re, fold, text, k, j)
    case Cat(a, b) =>
      exists k: nat :: i <= k <= j && MatchAt(a, fold, text, i, k) && MatchAt(b, fold, text, k, j)
  }

  /** `is_match`: the expression matches somewhere in the text. */
  predicate IsMatch(p: Pattern, text: string) {
    exists i: nat, j: nat :: i <= j <= |text| && MatchAt(p.re, p.fold, text, i, j)
  }

  /** Where a concatenation divides the text it matches. */
  lemma Divide(a: Re, b: Re, fold: bool, text: string, i: nat, j: nat) returns (k: nat)
    requires i <= j <= |text| && MatchAt(Cat(a, b), fold, text, i, j)
    ensures i <= k <= j && MatchAt(a, fold, text, i, k) && MatchAt(b, fold, text, k, j)
  {
    k :| i <= k <= j && MatchAt(a, fold, text, i, k) && MatchAt(b, fold, text, k, j);
  }

  /** The expression matches from the start of the text. */
  predicate MatchesFromStart(re: Re, fold: bool, text: string) {
    exists j: nat :: j <= |text| && MatchAt(re, fold, text, 0, j)
  }

  /** After `^`, matching somewhere is matching from the start. */
  lemma Anchored(re: Re, fold: bool, text: string)
    ensures IsMatch(Pattern(fold, Cat(Start, re)), text) <==> MatchesFromStart(re, fold, text)
  {
    var p := Pattern(fold, Cat(Start, re));
    if IsMatch(p, text) {
      var i: nat, j: nat :| i <= j <= |text| && MatchAt(p.re, p.fold, text, i, j);
      var k := Divide(Start, re, fold, text, i, j);
      assert MatchAt(re, fold, text, 0, j);
    }
    if MatchesFromStart(re, fold, text) {
      var j: nat :| j <= |text| && MatchAt(re, fold, text, 0, j);
      assert MatchAt(Start, fold, text, 0, 0);
      assert MatchAt(p.re, p.fold, text, 0, j);
    }
  }

  /** Repeating "not c" spans exactly the non-empty stretches free of `c`. */
  lemma {:induction false} PlusNotChar(c: char, fold: bool, text: string, i: nat, j: nat)
    requires i <= j <= |text|
    ensures MatchAt(Plus(NotChar(c)), fold, text, i, j) <==> i < j && c !in text[i..j]
    decreases j - i
  {
    if i + 1 < j {
      PlusNotChar(c, fold, text, i + 1, j);
      assert text[i..j] == [text[i]] + text[i + 1..j];
      if c !in text[i..j] {
        assert MatchAt(NotChar(c), fold, text, i, i + 1);
      }
    } else if i + 1 == j {
      assert text[i..j] == [text[i]];
    }
  }
}
