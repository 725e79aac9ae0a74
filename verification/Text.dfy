/**
 Strings as the crate's parsers handle them: case folding, trimming, splitting and joining.
 Everything is stated over ASCII: `IsAlphanumeric`, `ToLower` and `SPACES` agree with the
 standard library's `is_alphanumeric`, `to_lowercase` and `trim` on ASCII text.
 */
module Text {

  datatype Option<+T> = None | Some(value: T)

  const SPACES: set<char> := {' ', '\t', '\n', '\r', '\U{0B}', '\U{0C}'}

  predicate IsDigit(c: char) { '0' <= c <= '9' }

  predicate IsAlphanumeric(c: char) {
    IsDigit(c) || 'a' <= c <= 'z' || 'A' <= c <= 'Z'
  }

  function Lower(c: char): char {
    if 'A' <= c <= 'Z' then (c as int + 32) as char else c
  }

  function ToLower(s: string): (r: string)
    ensures |r| == |s|
    ensures forall i :: 0 <= i < |s| ==> r[i] == Lower(s[i])
  {
    seq(|s|, i requires 0 <= i < |s| => Lower(s[i]))
  }

  predicate StartsWith(s: string, p: string) { |p| <= |s| && s[..|p|] == p }

  predicate EndsWith(s: string, t: string) { |t| <= |s| && s[|s| - |t|..] == t }

  function StripPrefix(s: string, p: string): Option<string> {
    if StartsWith(s, p) then Some(s[|p|..]) else None
  }

  predicate Contains(s: string, t: string) {
    StartsWith(s, t) || (s != "" && Contains(s[1..], t))
  }

  /** Position of the first `c`. */
  function Find(s: string, c: char): (r: Option<nat>)
    ensures r.Some? ==> r.value < |s| && s[r.value] == c && c !in s[..r.value]
    ensures r.None? ==> c !in s
  {
    if s == "" then None
    else if s[0] == c then Some(0)
    else
      match Find(s[1..], c)
      case None => None
      case Some(i) =>
        assert s[..i + 1] == [s[0]] + s[1..][..i];
        Some(i + 1)
  }

  /** Position of the last `c`. */
  function RFind(s: string, c: char): (r: Option<nat>)
    ensures r.Some? ==> r.value < |s| && s[r.value] == c && c !in s[r.value + 1..]
    ensures r.None? ==> c !in s
  {
    if s == "" then None
    else if s[|s| - 1] == c then Some(|s| - 1)
    else
      match RFind(s[..|s| - 1], c)
      case None => None
      case Some(i) =>
        assert s[i + 1..] == s[..|s| - 1][i + 1..] + [s[|s| - 1]];
        Some(i)
  }

  lemma {:induction false} FindIs(s: string, c: char, i: nat)
    requires i < |s| && s[i] == c && c !in s[..i]
    ensures Find(s, c) == Some(i)
  {
    if i > 0 {
      assert s[..i] == [s[0]] + s[1..][..i - 1];
      FindIs(s[1..], c, i - 1);
    }
  }

  lemma {:induction false} RFindIs(s: string, c: char, i: nat)
    requires i < |s| && s[i] == c && c !in s[i + 1..]
    ensures RFind(s, c) == Some(i)
  {
    if i < |s| - 1 {
      assert s[i + 1..] == s[..|s| - 1][i + 1..] + [s[|s| - 1]];
      RFindIs(s[..|s| - 1], c, i);
    }
  }

  /** The text before the first `c`, or all of it: `s.split(c).next()`. */
  function Before(s: string, c: char): (r: string)
    ensures r <= s && c !in r
    ensures |r| < |s| ==> s[|r|] == c
  {
    if s == "" || s[0] == c then "" else [s[0]] + Before(s[1..], c)
  }

  function TrimRight(s: string, cs: set<char>): (r: string)
    ensures r <= s
    ensures r == "" || r[|r| - 1] !in cs
    ensures forall i :: |r| <= i < |s| ==> s[i] in cs
  {
    if s != "" && s[|s| - 1] in cs then TrimRight(s[..|s| - 1], cs) else s
  }

  function TrimLeft(s: string, cs: set<char>): (r: string)
    ensures EndsWith(s, r)
    ensures r == "" || r[0] !in cs
  {
    if s != "" && s[0] in cs then
      var r := TrimLeft(s[1..], cs);
      assert s[1..][|s| - 1 - |r|..] == s[|s| - |r|..];
      r
    else
      assert s[0..] == s;
      s
  }

  function Trim(s: string): string { TrimRight(TrimLeft(s, SPACES), SPACES) }

  /** `s.split(c)`: never empty, and the inverse of joining with `c`. */
  function Split(s: string, c: char): (parts: seq<string>)
    ensures |parts| >= 1
  {
    if s == "" then [""]
    else
      var rest := Split(s[1..], c);
      if s[0] == c then [""] + rest else [[s[0]] + rest[0]] + rest[1..]
  }

  function Join(parts: seq<string>, sep: string): string {
    if |parts| == 0 then ""
    else if |parts| == 1 then parts[0]
    else parts[0] + sep + Join(parts[1..], sep)
  }

  /** All of `parts`, one after the other. */
  function Concat<T>(parts: seq<seq<T>>): seq<T> {
    if parts == [] then [] else parts[0] + Concat(parts[1..])
  }

  lemma Assoc(a: string, b: string, c: string)
    ensures a + (b + c) == (a + b) + c
  {
  }

  lemma {:induction false} ConcatAppend<T>(a: seq<seq<T>>, b: seq<seq<T>>)
    ensures Concat(a + b) == Concat(a) + Concat(b)
  {
    if a == [] {
      assert a + b == b;
    } else {
      assert (a + b)[1..] == a[1..] + b;
      ConcatAppend(a[1..], b);
    }
  }

  lemma ConcatSnoc<T>(a: seq<seq<T>>, x: seq<T>)
    ensures Concat(a + [x]) == Concat(a) + x
  {
    ConcatAppend(a, [x]);
    assert Concat([x]) == x + Concat<T>([]);
  }

  /** `content.lines()`: split at LF, one trailing CR dropped from each line that LF ends. */
  function Lines(s: string): (r: seq<string>)
    ensures forall l :: l in r ==> '\n' !in l
  {
    if s == "" then []
    else
      match Find(s, '\n')
      case None => [s]
      case Some(i) => [DropCr(s[..i])] + Lines(s[i + 1..])
  }

  function DropCr(s: string): (r: string)
    ensures r <= s
  {
    if s != "" && s[|s| - 1] == '\r' then s[..|s| - 1] else s
  }

  // ----- Case folding -----

  lemma ToLowerIdempotent(s: string)
    ensures ToLower(ToLower(s)) == ToLower(s)
  {
  }

  // ----- Trimming -----

  lemma {:induction false} TrimRightAppend(a: string, b: string, cs: set<char>)
    ensures TrimRight(a + b, cs) ==
            if TrimRight(b, cs) == "" then TrimRight(a, cs) else a + TrimRight(b, cs)
    decreases |b|
  {
    if b == "" {
      assert a + b == a;
    } else if b[|b| - 1] in cs {
      assert (a + b)[..|a + b| - 1] == a + b[..|b| - 1];
      TrimRightAppend(a, b[..|b| - 1], cs);
    }
  }

  /** Text with no blank at either end is its own trimming. */
  lemma TrimFixed(s: string)
    requires s != "" ==> s[0] !in SPACES && s[|s| - 1] !in SPACES
    ensures Trim(s) == s
  {
  }

  lemma TrimIdempotent(s: string)
    ensures Trim(Trim(s)) == Trim(s)
  {
    var t := TrimLeft(s, SPACES);
    var r := TrimRight(t, SPACES);
    if r != "" {
      assert r[0] == t[0];
    }
  }

  // ----- Splitting -----

  lemma {:induction false} BeforeAppend(a: string, b: string, c: char)
    requires c !in a
    ensures Before(a + b, c) == a + Before(b, c)
  {
    if a == "" {
      assert a + b == b;
    } else {
      assert a[0] in a;
      assert (a + b)[1..] == a[1..] + b;
      BeforeAppend(a[1..], b, c);
    }
  }

  lemma {:induction false} SplitNoSeparator(s: string, c: char)
    requires c !in s
    ensures Split(s, c) == [s]
  {
    if s != "" {
      assert s[0] in s;
      SplitNoSeparator(s[1..], c);
      assert [s[0]] + s[1..] == s;
    }
  }

  lemma SplitFirst(x: char, t: string, c: char)
    ensures var r := Split(t, c);
            Split([x] + t, c) == if x == c then [""] + r else [[x] + r[0]] + r[1..]
  {
    assert ([x] + t)[1..] == t;
  }

  lemma OntoFirst(x: char, r: seq<string>, q: seq<string>)
    requires r != []
    ensures [[x] + (r + q)[0]] + (r + q)[1..] == ([[x] + r[0]] + r[1..]) + q
  {
  }

  lemma SplitGrows(x: char, s: string, t: string, q: seq<string>, c: char)
    requires Split(s, c) == Split(t, c) + q
    ensures Split([x] + s, c) == Split([x] + t, c) + q
  {
    SplitFirst(x, s, c);
    SplitFirst(x, t, c);
    if x == c {
      assert [""] + (Split(t, c) + q) == ([""] + Split(t, c)) + q;
    } else {
      OntoFirst(x, Split(t, c), q);
    }
  }

  /** Splitting at one separator splits both sides. */
  lemma {:induction false} SplitAt(a: string, b: string, c: char)
    ensures Split(a + [c] + b, c) == Split(a, c) + Split(b, c)
  {
    if a == "" {
      assert a + [c] + b == [c] + b;
      SplitFirst(c, b, c);
    } else {
      var x, t := a[0], a[1..];
      SplitAt(t, b, c);
      SplitGrows(x, t + [c] + b, t, Split(b, c), c);
      assert a + [c] + b == [x] + (t + [c] + b) && a == [x] + t;
    }
  }

  /** No part holds the separator. */
  lemma {:induction false} SplitParts(s: string, c: char)
    ensures forall i :: 0 <= i < |Split(s, c)| ==> c !in Split(s, c)[i]
  {
    if s != "" {
      SplitParts(s[1..], c);
    }
  }

  lemma {:induction false} JoinSplit(s: string, c: char)
    ensures Join(Split(s, c), [c]) == s
  {
    if s != "" {
      var rest := Split(s[1..], c);
      JoinSplit(s[1..], c);
      if s[0] == c {
        assert ([""] + rest)[1..] == rest;
      } else if |rest| > 1 {
        assert ([[s[0]] + rest[0]] + rest[1..])[1..] == rest[1..];
      }
    }
  }

  // ----- Sizes -----

  lemma SubsetSize(a: set<int>, b: set<int>)
    requires a <= b
    ensures |a| <= |b|
  {
    assert b == a + (b - a);
    assert a * (b - a) == {};
  }
}
