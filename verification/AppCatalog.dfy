/**
 The catalog that maps query names to applications: the lookup splits the name, drops leading
 labels one at a time and joins the rest again.
 */
module AppCatalog {
  import opened Text
  import opened DomainSuffix

  /** `e` is the most specific catalog domain that covers the name. */
  ghost predicate Longest(domains: set<string>, e: string, name: string) {
    && e in domains && Covers(e, name)
    && forall f :: f in domains && Covers(f, name) ==> |f| <= |e|
  }

  /** The application of the last row for domain `d`. */
  function LastRow(rows: seq<(int, string)>, d: string): Option<int> {
    if rows == [] then None
    else if rows[|rows| - 1].1 == d then Some(rows[|rows| - 1].0)
    else LastRow(rows[..|rows| - 1], d)
  }

  function Lookup(m: map<string, int>, d: string): Option<int> {
    if d in m then Some(m[d]) else None
  }

  class AppCatalogCache {
    var domainsToAppId: map<string, int>

    constructor ()
      ensures domainsToAppId == map[]
    {
      domainsToAppId := map[];
    }

    /** Replaces the catalog by the fetched rows, later rows winning; a failed fetch keeps it. */
    method LoadFromDb(rows: Option<seq<(int, string)>>)
      modifies this
      ensures rows.None? ==> domainsToAppId == old(domainsToAppId)
      ensures rows.Some? ==> forall d :: Lookup(domainsToAppId, d) == LastRow(rows.value, d)
    {
      if rows.None? { return; }
      var mapped := rows.value;
      domainsToAppId := map[];
      for n := 0 to |mapped|
        invariant forall d :: Lookup(domainsToAppId, d) == LastRow(mapped[..n], d)
      {
        var (appId, domain) := mapped[n];
        assert mapped[..n + 1][..n] == mapped[..n];
        domainsToAppId := domainsToAppId[domain := appId];
      }
      assert mapped[..|mapped|] == mapped;
    }

    /** The application of the longest catalog domain that covers the name, if any does. */
    method MatchDomain(domain: string) returns (app: Option<int>)
      ensures var name := TrimRight(domain, {'.'});
              match app
              case None => forall e :: e in domainsToAppId ==> !Covers(e, name)
              case Some(a) => exists e :: Longest(domainsToAppId.Keys, e, name) && domainsToAppId[e] == a
    {
      if domainsToAppId == map[] { return None; }
      var clean := TrimRight(domain, {'.'});
      if clean in domainsToAppId {
        assert Longest(domainsToAppId.Keys, clean, clean);
        return Some(domainsToAppId[clean]);
      }
      var parts := Split(clean, '.');
      ghost var current := clean;
      while |parts| > 1
        invariant parts == Labels(current) && Covers(current, clean)
        invariant Unseen(domainsToAppId.Keys, clean, current)
        decreases |parts|
      {
        ghost var next := Parent(domainsToAppId.Keys, clean, current);
        parts := parts[1..];
        var parent := Join(parts, ".");
        if parent in domainsToAppId {
          assert Longest(domainsToAppId.Keys, parent, clean);
          return Some(domainsToAppId[parent]);
        }
        current := next;
      }
      LabelsStep(current);
      forall e { CoversStep(e, current); }
      return None;
    }
  }

  /** Catalog domains that cover the name are proper parents of the current suffix. */
  ghost predicate Unseen(domains: set<string>, name: string, current: string) {
    forall e :: e in domains && Covers(e, name) ==> Covers(e, current) && e != current
  }

  /** Dropping the first label gives the parent, and no covering domain is skipped. */
  lemma Parent(domains: set<string>, name: string, s: string) returns (p: string)
    requires |Labels(s)| > 1 && Covers(s, name) && Unseen(domains, name, s)
    ensures Labels(p) == Labels(s)[1..] && Join(Labels(s)[1..], ".") == p && Covers(p, name)
    ensures forall e :: e in domains && Covers(e, name) ==> Covers(e, p)
    ensures p !in domains ==> Unseen(domains, name, p)
  {
    LabelsStep(s);
    p := s[Find(s, '.').value + 1..];
    JoinSplit(p, '.');
    forall e { CoversStep(e, s); }
    CoversTransitive(p, s, name);
  }
}
