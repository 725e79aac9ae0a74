/**
 "The domain or one of its parents": the relation behind every lookup, and the walk that
 decides it by cutting one leading label at a time.
 */
module DomainSuffix {
  import opened Text

  /** `domain` is `e` or a subdomain of `e`. */
  predicate Covers(e: string, domain: string) {
    domain == e || EndsWith(domain, "." + e)
  }

  /** The labels of a name, most specific first. */
  function Labels(s: string): (r: seq<string>)
    ensures |r| >= 1
  {
    Split(s, '.')
  }

  lemma CoversUp(e: string, s: string, i: nat)
    requires i < |s| && s[i] == '.' && Covers(e, s[i + 1..])
    ensures Covers(e, s)
  {
    var t := s[i + 1..];
    if t == e {
      assert s[i..] == "." + e;
    } else {
      assert s[|s| - |e| - 1..] == t[|t| - |e| - 1..];
    }
  }

  lemma CoversDown(e: string, s: string, i: nat)
    requires i < |s| && '.' !in s[..i] && EndsWith(s, "." + e)
    ensures Covers(e, s[i + 1..])
  {
    var t, k := s[i + 1..], |s| - |e| - 1;
    assert s[k] == s[k..][0];
    assert forall j :: 0 <= j < i ==> s[..i][j] != '.';
    if k == i {
      assert t == s[k..][1..];
    } else {
      assert t[|t| - |e| - 1..] == s[k..];
    }
  }

  /** One step of the walk: either the name itself or a cover of its parent. */
  lemma CoversStep(e: string, s: string)
    ensures match Find(s, '.')
            case None => Covers(e, s) <==> s == e
            case Some(i) => Covers(e, s) <==> s == e || Covers(e, s[i + 1..])
  {
    match Find(s, '.')
    case None =>
      assert forall j :: 0 <= j < |s| ==> s[j] != '.';
    case Some(i) =>
      if EndsWith(s, "." + e) { CoversDown(e, s, i); }
      if Covers(e, s[i + 1..]) { CoversUp(e, s, i); }
  }

  /** `RuleSet::matches_set`: hits exactly when some entry covers the domain. */
  method MatchesSet(domain: string, entries: set<string>) returns (hit: bool)
    ensures hit <==> exists e :: e in entries && Covers(e, domain)
  {
    var current := domain;
    while true
      invariant forall e :: e in entries ==> (Covers(e, domain) <==> Covers(e, current))
      decreases |current|
    {
      if current in entries {
        assert Covers(current, current);
        return true;
      }
      forall e ensures match Find(current, '.')
                       case None => Covers(e, current) <==> current == e
                       case Some(i) => Covers(e, current) <==> current == e || Covers(e, current[i + 1..])
      {
        CoversStep(e, current);
      }
      match Find(current, '.')
      case Some(pos) => current := current[pos + 1..];
      case None => return false;
    }
  }

  // ----- Labels -----

  /** The parent of a name is the name without its first label. */
  lemma LabelsStep(s: string)
    ensures match Find(s, '.')
            case None => Labels(s) == [s]
            case Some(i) => Labels(s) == [s[..i]] + Labels(s[i + 1..])
  {
    match Find(s, '.')
    case None => SplitNoSeparator(s, '.');
    case Some(i) =>
      assert s == s[..i] + ['.'] + s[i + 1..];
      SplitAt(s[..i], s[i + 1..], '.');
      SplitNoSeparator(s[..i], '.');
  }

  /** The last labels of `s` are the labels of `e`. */
  predicate EndsInLabels(e: string, s: string) {
    |Labels(e)| <= |Labels(s)| && Labels(s)[|Labels(s)| - |Labels(e)|..] == Labels(e)
  }

  lemma LabelsInjective(a: string, b: string)
    requires Labels(a) == Labels(b)
    ensures a == b
  {
    JoinSplit(a, '.');
    JoinSplit(b, '.');
  }

  /** A name is covered exactly by the names made of its last labels. */
  lemma {:induction false} CoversByLabels(e: string, s: string)
    ensures Covers(e, s) <==> EndsInLabels(e, s)
    decreases |s|
  {
    LabelsStep(s);
    CoversStep(e, s);
    var n, m := |Labels(s)|, |Labels(e)|;
    if m == n && EndsInLabels(e, s) {
      assert Labels(s)[0..] == Labels(s);
      LabelsInjective(e, s);
    }
    match Find(s, '.')
    case None =>
    case Some(i) =>
      CoversByLabels(e, s[i + 1..]);
      if m < n {
        assert Labels(s)[n - m..] == Labels(s[i + 1..])[n - 1 - m..];
      }
  }

  lemma CoversTransitive(a: string, b: string, c: string)
    requires Covers(a, b) && Covers(b, c)
    ensures Covers(a, c)
  {
    if b != a && c != b {
      var t := "." + a;
      assert c[|c| - |b|..] == b by {
        assert c[|c| - |b| - 1..][1..] == c[|c| - |b|..];
      }
      assert c[|c| - |t|..] == b[|b| - |t|..];
    }
  }
}
