/**
 Cursor pagination of the query log: one request fetches one row more than it returns, and
 the last returned id is the next cursor. A time range is measured back from the clock at each
 request, so between requests rows may stop matching; what following the cursors returns then
 is stated exactly.
 */
module CursorPaging {
  import opened Text
  import opened SqlText

  // ----- ORDER BY id DESC -----

  /** The entry at `i`, if it comes first, is greater than the one at `j`. */
  predicate Above(s: seq<int>, i: int, j: int) { 0 <= i < j < |s| ==> s[i] > s[j] }

  ghost predicate StrictlyDescending(s: seq<int>) { forall i, j :: Above(s, i, j) }

  /** `s` lists exactly the ids of the set, each once, in strictly descending order. */
  ghost predicate Lists(s: seq<int>, ids: set<int>) {
    && |s| == |ids| && StrictlyDescending(s)
    && (forall i :: 0 <= i < |s| ==> s[i] in ids)
    && forall x :: x in ids ==> x in s
  }

  ghost function AnyOf<T>(s: set<T>): (x: T)
    requires s != {}
    ensures x in s
  {
    var x :| x in s;
    x
  }

  ghost predicate IsGreatest(m: int, s: set<int>) { m in s && forall x :: x in s ==> x <= m }

  lemma {:induction false} GreatestExists(s: set<int>)
    requires s != {}
    ensures exists m :: IsGreatest(m, s)
  {
    var m := AnyOf(s);
    if s == {m} {
      assert IsGreatest(m, s);
    } else {
      GreatestExists(s - {m});
      var n :| IsGreatest(n, s - {m});
      assert forall x :: x in s ==> x == m || x in s - {m};
      assert IsGreatest(if n > m then n else m, s);
    }
  }

  lemma ListsFront(s: seq<int>, ids: set<int>, m: int)
    requires IsGreatest(m, ids) && Lists(s, ids - {m})
    ensures Lists([m] + s, ids)
  {
    var t := [m] + s;
    forall i, j ensures Above(t, i, j) {
      if 0 < i < j < |t| { assert Above(s, i - 1, j - 1); }
      if i == 0 < j < |t| { assert s[j - 1] in ids - {m}; }
    }
    forall x | x in ids ensures x in t {
      if x != m { assert x in s; }
    }
  }

  lemma {:induction false} ListingExists(ids: set<int>)
    ensures exists s :: Lists(s, ids)
  {
    if ids == {} {
      assert Lists([], ids);
    } else {
      GreatestExists(ids);
      var m :| IsGreatest(m, ids);
      ListingExists(ids - {m});
      var s :| Lists(s, ids - {m});
      ListsFront(s, ids, m);
    }
  }

  lemma ListsTail(s: seq<int>, ids: set<int>)
    requires Lists(s, ids) && s != []
    ensures Lists(s[1..], ids - {s[0]})
  {
    TailListed(s, ids);
  }

  /** The tail of a descending list holds the other ids. */
  lemma TailListed(s: seq<int>, ids: set<int>)
    requires s != [] && StrictlyDescending(s)
    requires (forall i :: 0 <= i < |s| ==> s[i] in ids) && forall x :: x in ids ==> x in s
    ensures var t, rest := s[1..], ids - {s[0]};
            && StrictlyDescending(t)
            && (forall i :: 0 <= i < |t| ==> t[i] in rest) && forall x :: x in rest ==> x in t
  {
    var t := s[1..];
    forall i, j ensures Above(t, i, j) { assert Above(s, i + 1, j + 1); }
    forall i | 0 <= i < |t| ensures t[i] in ids - {s[0]} { assert Above(s, 0, i + 1); }
    forall x | x in ids - {s[0]} ensures x in t {
      assert x in s;
      var i :| 0 <= i < |s| && s[i] == x;
      assert t[i - 1] == x;
    }
  }

  lemma FirstIsGreatest(s: seq<int>, ids: set<int>, x: int)
    requires Lists(s, ids) && x in ids
    ensures s != [] && x <= s[0]
  {
    assert x in s;
    var i :| 0 <= i < |s| && s[i] == x;
    assert Above(s, 0, i);
  }

  /** There is only one such listing. */
  lemma {:induction false} ListsUnique(a: seq<int>, b: seq<int>, ids: set<int>)
    requires Lists(a, ids) && Lists(b, ids)
    ensures a == b
    decreases |a|
  {
    if a != [] {
      FirstIsGreatest(a, ids, b[0]);
      FirstIsGreatest(b, ids, a[0]);
      ListsTail(a, ids);
      ListsTail(b, ids);
      ListsUnique(a[1..], b[1..], ids - {a[0]});
      assert a == [a[0]] + a[1..] && b == [b[0]] + b[1..];
    }
  }

  /** The ids in strictly descending order. */
  ghost function Descending(ids: set<int>): (r: seq<int>)
    ensures Lists(r, ids)
  {
    ListingExists(ids);
    var r :| Lists(r, ids);
    r
  }

  ghost function Below(ids: set<int>, cursor: int): set<int> { set id | id in ids && id < cursor }

  lemma {:induction false} ListsSize(s: seq<int>, ids: set<int>)
    requires StrictlyDescending(s)
    requires forall i :: 0 <= i < |s| ==> s[i] in ids
    requires forall x :: x in ids ==> x in s
    ensures |s| == |ids|
  {
    if s == [] {
      assert forall x :: x !in ids;
    } else {
      TailListed(s, ids);
      ListsSize(s[1..], ids - {s[0]});
    }
  }

  /** The rows after the first `k` are the rows below the `k`-th. */
  lemma DescendingDrop(ids: set<int>, k: nat)
    requires 1 <= k <= |ids|
    ensures Descending(ids)[k..] == Descending(Below(ids, Descending(ids)[k - 1]))
  {
    var all := Descending(ids);
    var low, rest := Below(ids, all[k - 1]), all[k..];
    forall i, j ensures Above(rest, i, j) { assert Above(all, k + i, k + j); }
    forall i | 0 <= i < |rest| ensures rest[i] in low { assert Above(all, k - 1, k + i); }
    forall x | x in low ensures x in rest {
      assert x in all;
      var i :| 0 <= i < |all| && all[i] == x;
      assert Above(all, i, k - 1);
      assert rest[i - k] == x;
    }
    ListsSize(rest, low);
    ListsUnique(rest, Descending(low), low);
  }

  // ----- One request -----

  ghost function FirstIds(ids: set<int>, n: nat): seq<int> {
    if n <= |ids| then Descending(ids)[..n] else Descending(ids)
  }

  /** The cursor branch of `list`, given the rows the database fetched for one row too many. */
  method CursorPage(ghost ids: set<int>, fetched: seq<int>, limit: int)
    returns (rows: seq<int>, hasMore: bool, next: Option<int>)
    requires fetched == FirstIds(ids, Clamp(limit) + 1)
    ensures rows == FirstIds(ids, Clamp(limit))
    ensures hasMore <==> |ids| > Clamp(limit)
    ensures next.Some? <==> hasMore
    ensures hasMore ==> next.value == rows[|rows| - 1] && Descending(ids) == rows + Descending(Below(ids, next.value))
  {
    rows := fetched;
    hasMore := |rows| > Clamp(limit);
    if hasMore {
      rows := rows[..Clamp(limit)];
      DescendingDrop(ids, Clamp(limit));
    }
    next := if hasMore then Some(rows[|rows| - 1]) else None;
  }

  // ----- Following the cursors -----

  /**
   `seen(k)` is what request `k` would select without a cursor. Below the start rows may stop or begin
   to match, change or vanish, but no new row appears: all that is ever seen is among `ids`.
   */
  ghost predicate Within(seen: nat -> set<int>, ids: set<int>, top: int) {
    forall k: nat, id: int :: id < top && id in seen(k) ==> id in ids
  }

  lemma BelowShrinks(ids: set<int>, cursor: int, next: int)
    requires next in Below(ids, cursor)
    ensures |Below(ids, next)| < |Below(ids, cursor)|
  {
    assert Below(ids, next) <= Below(ids, cursor) - {next};
    SubsetSize(Below(ids, next), Below(ids, cursor) - {next});
  }

  /** The last id of a full page, which is the next cursor. */
  ghost function Next(ids: set<int>, n: nat): (next: int)
    requires 1 <= n < |ids|
    ensures next in ids
  {
    Descending(ids)[n - 1]
  }

  /** All pages of `n` rows from request `k` on, concatenated. */
  ghost function Follow(seen: nat -> set<int>, all: set<int>, k: nat, cursor: int, n: nat, top: int): seq<int>
    requires Within(seen, all, top) && cursor <= top && n >= 1
    decreases |Below(all, cursor)|
  {
    var ids := Below(seen(k), cursor);
    if |ids| > n then
      BelowShrinks(all, cursor, Next(ids, n));
      FirstIds(ids, n) + Follow(seen, all, k + 1, Next(ids, n), n, top)
    else FirstIds(ids, n)
  }

  /** The request whose page spans row `id`: the first one that ends at or below it. */
  ghost function ReachedAt(seen: nat -> set<int>, all: set<int>, k: nat, cursor: int, n: nat, top: int, id: int): nat
    requires Within(seen, all, top) && cursor <= top && n >= 1
    decreases |Below(all, cursor)|
  {
    var ids := Below(seen(k), cursor);
    if |ids| > n && id < Next(ids, n) then
      BelowShrinks(all, cursor, Next(ids, n));
      ReachedAt(seen, all, k + 1, Next(ids, n), n, top, id)
    else k
  }

  /** A full page holds exactly the selected ids from the next cursor up. */
  lemma PageSpans(ids: set<int>, n: nat, x: int)
    requires 1 <= n < |ids|
    ensures x in FirstIds(ids, n) <==> x in ids && x >= Next(ids, n)
  {
    var all := Descending(ids);
    if x in all[..n] {
      var i :| 0 <= i < n && all[i] == x;
      assert Above(all, i, n - 1);
    }
    if x in ids && x >= all[n - 1] {
      assert x in all;
      var i :| 0 <= i < |all| && all[i] == x;
      assert Above(all, n - 1, i);
      assert all[..n][i] == x;
    }
  }

  lemma DescendingMember(ids: set<int>, x: int)
    ensures x in Descending(ids) <==> x in ids
  {
    if x in Descending(ids) {
      var i :| 0 <= i < |Descending(ids)| && Descending(ids)[i] == x;
    }
  }

  /** One request of the walk. */
  lemma FollowStep(seen: nat -> set<int>, all: set<int>, k: nat, cursor: int, n: nat, top: int)
    requires Within(seen, all, top) && cursor <= top && n >= 1
    ensures var ids := Below(seen(k), cursor);
            Follow(seen, all, k, cursor, n, top) ==
            if |ids| > n then FirstIds(ids, n) + Follow(seen, all, k + 1, Next(ids, n), n, top)
            else Descending(ids)
  {
    var ids := Below(seen(k), cursor);
    if |ids| <= n { assert Descending(ids)[..|ids|] == Descending(ids); }
  }

  /** One request of the walk as the page reports it, with what is `left` for the requests after it. */
  lemma PageStep(seen: nat -> set<int>, all: set<int>, k: nat, cursor: int, n: nat, top: int,
                 page: seq<int>, next: Option<int>, left: seq<int>)
    requires Within(seen, all, top) && cursor <= top && n >= 1
    requires page == FirstIds(Below(seen(k), cursor), n)
    requires if |Below(seen(k), cursor)| > n then next == Some(page[|page| - 1]) else next == None
    ensures next.Some? ==> next.value < cursor && |Below(all, next.value)| < |Below(all, cursor)|
    ensures left == (if next.Some? then Follow(seen, all, k + 1, next.value, n, top) else []) ==>
              Follow(seen, all, k, cursor, n, top) == page + left
  {
    FollowStep(seen, all, k, cursor, n, top);
    if next.Some? {
      assert next.value == Next(Below(seen(k), cursor), n);
      BelowShrinks(all, cursor, next.value);
    }
  }

  lemma Regroup(a: seq<int>, b: seq<int>, c: seq<int>)
    ensures a + (b + c) == (a + b) + c
  {
  }

  /**
   The walk as a client makes it, request by request; `fetch` is the database, which gives a request
   the first rows below its cursor, one too many.
   */
  method FollowCursors(ghost seen: nat -> set<int>, ghost all: set<int>, fetch: (nat, int) -> seq<int>,
                       start: int, limit: int)
    returns (rows: seq<int>)
    requires Within(seen, all, start)
    requires forall k: nat, cursor: int :: fetch(k, cursor) == FirstIds(Below(seen(k), cursor), Clamp(limit) + 1)
    ensures rows == Follow(seen, all, 0, start, Clamp(limit), start)
  {
    var k, cursor := 0, start;
    rows := [];
    ghost var walk := Follow(seen, all, 0, start, Clamp(limit), start);
    while true
      invariant cursor <= start && walk == rows + Follow(seen, all, k, cursor, Clamp(limit), start)
      decreases |Below(all, cursor)|
    {
      var page, hasMore, next := CursorPage(Below(seen(k), cursor), fetch(k, cursor), limit);
      ghost var left := if hasMore then Follow(seen, all, k + 1, next.value, Clamp(limit), start) else [];
      PageStep(seen, all, k, cursor, Clamp(limit), start, page, next, left);
      Regroup(rows, page, left);
      rows := rows + page;
      if !hasMore { return; }
      k, cursor := k + 1, next.value;
    }
  }

  /**
   Whatever happens to matching rows between requests, following the cursors returns exactly the rows
   below the start that match when the walk reaches them.
   */
  lemma {:induction false} ReturnedExactly(seen: nat -> set<int>, all: set<int>,
                                           k: nat, cursor: int, n: nat, top: int, id: int)
    requires Within(seen, all, top) && cursor <= top && n >= 1
    ensures id in Follow(seen, all, k, cursor, n, top) <==>
            id < cursor && id in seen(ReachedAt(seen, all, k, cursor, n, top, id))
    decreases |Below(all, cursor)|
  {
    var ids := Below(seen(k), cursor);
    FollowStep(seen, all, k, cursor, n, top);
    if |ids| > n {
      BelowShrinks(all, cursor, Next(ids, n));
      ReturnedExactly(seen, all, k + 1, Next(ids, n), n, top, id);
      PageSpans(ids, n, id);
    } else {
      DescendingMember(ids, id);
    }
  }

  /** What descends to above `m`, then from below it, descends throughout. */
  lemma Chained(a: seq<int>, b: seq<int>, m: int)
    requires StrictlyDescending(a) && StrictlyDescending(b)
    requires (forall i :: 0 <= i < |a| ==> a[i] >= m) && forall i :: 0 <= i < |b| ==> b[i] < m
    ensures StrictlyDescending(a + b)
  {
    forall i, j ensures Above(a + b, i, j) {
      assert Above(a, i, j) && Above(b, i - |a|, j - |a|);
    }
  }

  lemma PageThenRest(ids: set<int>, n: nat, rest: seq<int>)
    requires 1 <= n < |ids| && StrictlyDescending(rest) && forall i :: 0 <= i < |rest| ==> rest[i] < Next(ids, n)
    ensures StrictlyDescending(FirstIds(ids, n) + rest)
  {
    var all := Descending(ids);
    forall i, j ensures Above(all[..n], i, j) { assert Above(all, i, j); }
    forall i | 0 <= i < n ensures all[..n][i] >= all[n - 1] { assert Above(all, i, n - 1); }
    Chained(FirstIds(ids, n), rest, Next(ids, n));
  }

  lemma FollowBelow(seen: nat -> set<int>, all: set<int>, k: nat, cursor: int, n: nat, top: int, rows: seq<int>)
    requires Within(seen, all, top) && cursor <= top && n >= 1 && rows == Follow(seen, all, k, cursor, n, top)
    ensures forall i :: 0 <= i < |rows| ==> rows[i] < cursor
  {
    forall i | 0 <= i < |rows| ensures rows[i] < cursor {
      ReturnedExactly(seen, all, k, cursor, n, top, rows[i]);
    }
  }

  /** The walk ends, in strictly descending order, so no row comes twice. */
  lemma {:induction false} FollowDescends(seen: nat -> set<int>, all: set<int>, k: nat, cursor: int, n: nat, top: int)
    requires Within(seen, all, top) && cursor <= top && n >= 1
    ensures StrictlyDescending(Follow(seen, all, k, cursor, n, top))
    decreases |Below(all, cursor)|
  {
    var ids := Below(seen(k), cursor);
    if |ids| > n {
      var next := Next(ids, n);
      BelowShrinks(all, cursor, next);
      FollowDescends(seen, all, k + 1, next, n, top);
      var rest := Follow(seen, all, k + 1, next, n, top);
      FollowBelow(seen, all, k + 1, next, n, top, rest);
      PageThenRest(ids, n, rest);
    }
    FollowStep(seen, all, k, cursor, n, top);
  }

  // ----- When nothing is missed -----

  /** Below the start, rows only ever stop matching: they age out of the range or are deleted. */
  ghost predicate Narrowing(seen: nat -> set<int>, top: int) {
    forall j: nat, k: nat, id: int :: j <= k && id < top && id in seen(k) ==> id in seen(j)
  }

  /** The page, counted from 0, that the i-th row falls on. */
  function PageOf(i: nat, n: nat): nat
    requires n >= 1
  {
    if i < n then 0 else 1 + PageOf(i - n, n)
  }

  /** The i-th of the rows, if there is one, still matches at the request whose page it falls on. */
  predicate OnTime(seen: nat -> set<int>, k: nat, n: nat, rows: seq<int>, i: nat)
    requires n >= 1
  {
    i < |rows| ==> rows[i] in seen(k + PageOf(i, n))
  }

  ghost predicate StillMatching(seen: nat -> set<int>, k: nat, n: nat, rows: seq<int>)
    requires n >= 1
  {
    forall i: nat :: OnTime(seen, k, n, rows, i)
  }

  lemma OnTimeLater(seen: nat -> set<int>, k: nat, n: nat, rows: seq<int>, j: nat)
    requires 1 <= n < |rows|
    ensures OnTime(seen, k + 1, n, rows[n..], j) <==> OnTime(seen, k, n, rows, n + j)
  {
    assert PageOf(n + j, n) == 1 + PageOf(j, n);
    assert k + 1 + PageOf(j, n) == k + PageOf(n + j, n);
  }

  lemma StillMatchingRest(seen: nat -> set<int>, k: nat, n: nat, rows: seq<int>)
    requires 1 <= n < |rows| && forall i :: 0 <= i < |rows| ==> rows[i] in seen(k)
    ensures StillMatching(seen, k, n, rows) <==> StillMatching(seen, k + 1, n, rows[n..])
  {
    var later, rest := k + 1, rows[n..];
    if StillMatching(seen, k, n, rows) {
      forall j: nat ensures OnTime(seen, later, n, rest, j) {
        assert OnTime(seen, k, n, rows, n + j);
        OnTimeLater(seen, k, n, rows, j);
      }
    }
    if StillMatching(seen, later, n, rest) {
      forall i: nat ensures OnTime(seen, k, n, rows, i) {
        if i >= n {
          assert OnTime(seen, later, n, rest, i - n);
          OnTimeLater(seen, k, n, rows, i - n);
        }
      }
    }
  }

  /** The rows below the cursor that match at request `k`, in page order. */
  ghost function RowsBelow(seen: nat -> set<int>, k: nat, cursor: int): seq<int> { Descending(Below(seen(k), cursor)) }

  lemma RowsMatch(seen: nat -> set<int>, k: nat, cursor: int)
    ensures var rows := RowsBelow(seen, k, cursor);
            forall i :: 0 <= i < |rows| ==> rows[i] < cursor && rows[i] in seen(k)
  {
    var ids := Below(seen(k), cursor);
    assert Lists(Descending(ids), ids);
  }

  /** After a full page the rows below the next cursor are the rest of the rows. */
  lemma RestOfRows(seen: nat -> set<int>, k: nat, cursor: int, n: nat)
    requires 1 <= n < |Below(seen(k), cursor)|
    ensures var ids, rows := Below(seen(k), cursor), RowsBelow(seen, k, cursor);
            && |rows| == |ids| && FirstIds(ids, n) == rows[..n] && RowsBelow(seen, k, Next(ids, n)) == rows[n..]
  {
    var ids := Below(seen(k), cursor);
    DescendingDrop(ids, n);
    assert Below(ids, Next(ids, n)) == Below(seen(k), Next(ids, n));
  }

  /** The next request selects the same rows if they all still match. */
  lemma NextSelection(seen: nat -> set<int>, k: nat, cursor: int, top: int)
    requires Narrowing(seen, top) && cursor <= top
    requires var rows := RowsBelow(seen, k, cursor); forall i :: 0 <= i < |rows| ==> rows[i] in seen(k + 1)
    ensures RowsBelow(seen, k + 1, cursor) == RowsBelow(seen, k, cursor)
  {
    var now, later, rows := Below(seen(k), cursor), Below(seen(k + 1), cursor), RowsBelow(seen, k, cursor);
    forall x | x in now ensures x in later {
      assert x in rows by { DescendingMember(now, x); }
      var i :| 0 <= i < |rows| && rows[i] == x;
    }
    assert now == later;
  }

  lemma {:induction false} ReachedLater(seen: nat -> set<int>, all: set<int>,
                                        k: nat, cursor: int, n: nat, top: int, id: int)
    requires Within(seen, all, top) && cursor <= top && n >= 1
    ensures ReachedAt(seen, all, k, cursor, n, top, id) >= k
    decreases |Below(all, cursor)|
  {
    var ids := Below(seen(k), cursor);
    if |ids| > n && id < Next(ids, n) {
      BelowShrinks(all, cursor, Next(ids, n));
      ReachedLater(seen, all, k + 1, Next(ids, n), n, top, id);
    }
  }

  /** What the walk returns matched at its start. */
  lemma FoundMatches(seen: nat -> set<int>, all: set<int>, k: nat, cursor: int, n: nat, top: int, rows: seq<int>)
    requires Within(seen, all, top) && cursor <= top && n >= 1 && Narrowing(seen, top)
    requires rows == Follow(seen, all, k, cursor, n, top)
    ensures forall i :: 0 <= i < |rows| ==> rows[i] in seen(k)
  {
    forall i | 0 <= i < |rows| ensures rows[i] in seen(k) {
      ReturnedExactly(seen, all, k, cursor, n, top, rows[i]);
      ReachedLater(seen, all, k, cursor, n, top, rows[i]);
    }
  }

  lemma StillMatches(seen: nat -> set<int>, k: nat, n: nat, top: int, rows: seq<int>)
    requires n >= 1 && Narrowing(seen, top) && StillMatching(seen, k, n, rows)
    requires forall i :: 0 <= i < |rows| ==> rows[i] < top
    ensures forall i :: 0 <= i < |rows| ==> rows[i] in seen(k)
  {
    forall i | 0 <= i < |rows| ensures rows[i] in seen(k) {
      assert OnTime(seen, k, n, rows, i);
    }
  }

  /** The law from request `k` on. */
  ghost predicate ExactFrom(seen: nat -> set<int>, all: set<int>, k: nat, cursor: int, n: nat, top: int, rows: seq<int>)
    requires Within(seen, all, top) && cursor <= top && n >= 1
  {
    Follow(seen, all, k, cursor, n, top) == rows <==> StillMatching(seen, k, n, rows)
  }

  /** Either side of the law makes the next request's rows those left of this one's. */
  lemma ExactNext(seen: nat -> set<int>, all: set<int>, k: nat, next: int, n: nat, top: int)
    requires Within(seen, all, top) && next <= top && n >= 1 && Narrowing(seen, top)
    requires ExactFrom(seen, all, k + 1, next, n, top, RowsBelow(seen, k + 1, next))
    ensures ExactFrom(seen, all, k + 1, next, n, top, RowsBelow(seen, k, next))
  {
    var rows := RowsBelow(seen, k, next);
    RowsMatch(seen, k, next);
    if Follow(seen, all, k + 1, next, n, top) == rows {
      assert RowsBelow(seen, k + 1, next) == rows by {
        FoundMatches(seen, all, k + 1, next, n, top, rows);
        NextSelection(seen, k, next, top);
      }
    }
    if StillMatching(seen, k + 1, n, rows) {
      assert RowsBelow(seen, k + 1, next) == rows by {
        StillMatches(seen, k + 1, n, top, rows);
        NextSelection(seen, k, next, top);
      }
    }
  }

  lemma SplitEquals(rows: seq<int>, rest: seq<int>, n: nat)
    requires n <= |rows|
    ensures rows[..n] + rest == rows <==> rest == rows[n..]
  {
    assert (rows[..n] + rest)[n..] == rest;
    assert rows[..n] + rows[n..] == rows;
  }

  /** The law at a full page follows from the law for the rows after it. */
  lemma ExactPage(seen: nat -> set<int>, all: set<int>, k: nat, cursor: int, n: nat, top: int)
    requires Within(seen, all, top) && cursor <= top && n >= 1
    requires var ids := Below(seen(k), cursor);
             |ids| > n && ExactFrom(seen, all, k + 1, Next(ids, n), n, top, RowsBelow(seen, k, Next(ids, n)))
    ensures ExactFrom(seen, all, k, cursor, n, top, RowsBelow(seen, k, cursor))
  {
    var ids, rows := Below(seen(k), cursor), RowsBelow(seen, k, cursor);
    var rest := Follow(seen, all, k + 1, Next(ids, n), n, top);
    assert Follow(seen, all, k, cursor, n, top) == rows[..n] + rest by {
      FollowStep(seen, all, k, cursor, n, top);
    }
    assert |rows| == |ids| && RowsBelow(seen, k, Next(ids, n)) == rows[n..] by {
      RestOfRows(seen, k, cursor, n);
    }
    assert StillMatching(seen, k, n, rows) <==> StillMatching(seen, k + 1, n, rows[n..]) by {
      RowsMatch(seen, k, cursor);
      StillMatchingRest(seen, k, n, rows);
    }
    SplitEquals(rows, rest, n);
  }

  /** The law at the last page. */
  lemma ExactLast(seen: nat -> set<int>, all: set<int>, k: nat, cursor: int, n: nat, top: int)
    requires Within(seen, all, top) && cursor <= top && n >= 1 && |Below(seen(k), cursor)| <= n
    ensures ExactFrom(seen, all, k, cursor, n, top, RowsBelow(seen, k, cursor))
  {
    FollowStep(seen, all, k, cursor, n, top);
    RowsMatch(seen, k, cursor);
    assert forall i: nat :: i < n ==> PageOf(i, n) == 0;
  }

  lemma {:induction false} FollowExactFrom(seen: nat -> set<int>, all: set<int>, k: nat, cursor: int, n: nat, top: int)
    requires Within(seen, all, top) && cursor <= top && n >= 1 && Narrowing(seen, top)
    ensures ExactFrom(seen, all, k, cursor, n, top, RowsBelow(seen, k, cursor))
    decreases |Below(all, cursor)|
  {
    var ids := Below(seen(k), cursor);
    if |ids| > n {
      var next := Next(ids, n);
      BelowShrinks(all, cursor, next);
      FollowExactFrom(seen, all, k + 1, next, n, top);
      ExactNext(seen, all, k, next, n, top);
      ExactPage(seen, all, k, cursor, n, top);
    } else {
      ExactLast(seen, all, k, cursor, n, top);
    }
  }

  /**
   If rows only ever stop matching, following the cursors from the first request returns every row
   below the start that matched then, once each and in descending order, if and only if each of
   them still matches at the request whose page it falls on: the i-th one at request `i / limit`.
   */
  lemma FollowIsExact(seen: nat -> set<int>, all: set<int>, cursor: int, limit: int, top: int)
    requires Within(seen, all, top) && cursor <= top && Narrowing(seen, top)
    ensures var rows := RowsBelow(seen, 0, cursor);
            Follow(seen, all, 0, cursor, Clamp(limit), top) == rows <==>
            forall i :: 0 <= i < |rows| ==> rows[i] in seen(PageOf(i, Clamp(limit)))
  {
    var n, rows := Clamp(limit), RowsBelow(seen, 0, cursor);
    FollowExactFrom(seen, all, 0, cursor, n, top);
    if StillMatching(seen, 0, n, rows) {
      forall i | 0 <= i < |rows| ensures rows[i] in seen(PageOf(i, n)) {
        assert OnTime(seen, 0, n, rows, i);
      }
    }
  }

  // ----- Tables, filters and time ranges -----

  /** A row of the query log: its time, and the columns the other filters look at. */
  datatype Row = Row(time: int, columns: map<string, string>)

  /** What each request selects: the rows of the table it finds that pass its filter. */
  ghost predicate Selects(seen: nat -> set<int>, tables: nat -> map<int, Row>, matches: nat -> Row -> bool) {
    forall k: nat, id: int :: id in seen(k) <==> id in tables(k) && matches(k)(tables(k)[id])
  }

  /** Below the start rows may be deleted between requests, but are neither added nor edited. */
  ghost predicate OnlyDeleted(tables: nat -> map<int, Row>, top: int) {
    forall j: nat, k: nat, id: int :: j <= k && id < top && id in tables(k) ==>
      id in tables(j) && tables(j)[id] == tables(k)[id]
  }

  /** The row passes at `now(k)`: the other conditions, and the range if one is given. */
  predicate InRange(now: nat -> int, range: Option<int>, k: nat, r: Row) {
    range.Some? ==> r.time >= now(k) - range.value
  }

  ghost predicate Ranged(matches: nat -> Row -> bool, others: Row -> bool, now: nat -> int, range: Option<int>) {
    forall k: nat, r: Row :: matches(k)(r) <==> others(r) && InRange(now, range, k, r)
  }

  ghost predicate Clock(now: nat -> int) { forall j: nat, k: nat :: j <= k ==> now(j) <= now(k) }

  lemma RangeNarrows(seen: nat -> set<int>, tables: nat -> map<int, Row>, matches: nat -> Row -> bool,
                     others: Row -> bool, now: nat -> int, range: Option<int>, top: int)
    requires Selects(seen, tables, matches) && OnlyDeleted(tables, top)
    requires Clock(now) && Ranged(matches, others, now, range)
    ensures Narrowing(seen, top)
  {
    forall j: nat, k: nat, id: int | j <= k && id < top && id in seen(k) ensures id in seen(j) {
      var r := tables(k)[id];
      assert matches(k)(r) && others(r) && InRange(now, range, k, r);
      assert now(j) <= now(k);
      assert InRange(now, range, j, r) && matches(j)(r);
    }
  }

  /** The row is still in the table, and in the range if there is one, when request `k` is made. */
  predicate StillThere(tables: nat -> map<int, Row>, now: nat -> int, range: Option<int>, k: nat, id: int) {
    id in tables(k) && InRange(now, range, k, tables(k)[id])
  }

  lemma RowStays(seen: nat -> set<int>, tables: nat -> map<int, Row>, matches: nat -> Row -> bool,
                 others: Row -> bool, now: nat -> int, range: Option<int>, top: int, k: nat, id: int)
    requires Selects(seen, tables, matches) && OnlyDeleted(tables, top) && Ranged(matches, others, now, range)
    requires id < top && id in seen(0)
    ensures id in seen(k) <==> StillThere(tables, now, range, k, id)
  {
    assert matches(0)(tables(0)[id]);
    if id in tables(k) {
      assert tables(0)[id] == tables(k)[id];
      assert matches(k)(tables(k)[id]) <==> InRange(now, range, k, tables(k)[id]);
    }
  }

  lemma SeenWithin(seen: nat -> set<int>, tables: nat -> map<int, Row>, matches: nat -> Row -> bool, top: int)
    requires Selects(seen, tables, matches) && OnlyDeleted(tables, top)
    ensures Within(seen, tables(0).Keys, top)
  {
  }

  /**
   A list request followed to its end misses nothing that matched at the start exactly when no row is
   deleted or leaves the time range before its page is fetched.
   */
  lemma FollowInRange(seen: nat -> set<int>, tables: nat -> map<int, Row>, matches: nat -> Row -> bool,
                      others: Row -> bool, now: nat -> int, range: Option<int>, cursor: int, limit: int, top: int)
    requires Selects(seen, tables, matches) && OnlyDeleted(tables, top) && cursor <= top
    requires Clock(now) && Ranged(matches, others, now, range)
    ensures Within(seen, tables(0).Keys, top)
    ensures var rows := RowsBelow(seen, 0, cursor);
            Follow(seen, tables(0).Keys, 0, cursor, Clamp(limit), top) == rows <==>
            forall i :: 0 <= i < |rows| ==> StillThere(tables, now, range, PageOf(i, Clamp(limit)), rows[i])
  {
    SeenWithin(seen, tables, matches, top);
    RangeNarrows(seen, tables, matches, others, now, range, top);
    FollowIsExact(seen, tables(0).Keys, cursor, limit, top);
    RowsMatch(seen, 0, cursor);
    var rows := RowsBelow(seen, 0, cursor);
    forall i | 0 <= i < |rows|
      ensures rows[i] in seen(PageOf(i, Clamp(limit))) <==>
              StillThere(tables, now, range, PageOf(i, Clamp(limit)), rows[i])
    {
      RowStays(seen, tables, matches, others, now, range, top, PageOf(i, Clamp(limit)), rows[i]);
    }
  }

  // ----- A row that ages out -----

  /** Rows 1 and 2, logged at seconds 10 and 20; nothing is deleted. */
  function TwoRows(k: nat): map<int, Row> { map[1 := Row(10, map[]), 2 := Row(20, map[])] }

  /** The first request is made at second 15, the others at second 25. */
  function RequestTime(k: nat): int { if k == 0 then 15 else 25 }

  /** Rows of the last ten seconds, with no other condition. */
  function LastTen(k: nat): Row -> bool { (r: Row) => r.time >= RequestTime(k) - 10 }

  function LastTenIds(k: nat): set<int> { if k == 0 then {1, 2} else {2} }

  lemma LastTenRun()
    ensures Selects(LastTenIds, TwoRows, LastTen) && OnlyDeleted(TwoRows, 3) && Clock(RequestTime)
    ensures Ranged(LastTen, _ => true, RequestTime, Some(10))
  {
  }

  lemma TwoDescending(ids: set<int>)
    requires ids == {1, 2}
    ensures |ids| == 2 && Descending(ids) == [2, 1]
  {
    assert Lists([2, 1], ids) by { assert 2 in [2, 1] && 1 in [2, 1]; }
    ListsUnique(Descending(ids), [2, 1], ids);
  }

  /** One row a page, over the last ten seconds: row 1 matches at the start and is never returned. */
  lemma MovingRangeMisses()
    ensures Selects(LastTenIds, TwoRows, LastTen) && OnlyDeleted(TwoRows, 3) && Clock(RequestTime)
    ensures Ranged(LastTen, _ => true, RequestTime, Some(10))
    ensures RowsBelow(LastTenIds, 0, 3) == [2, 1]
    ensures Within(LastTenIds, TwoRows(0).Keys, 3) && Follow(LastTenIds, TwoRows(0).Keys, 0, 3, Clamp(1), 3) == [2]
  {
    LastTenRun();
    SeenWithin(LastTenIds, TwoRows, LastTen, 3);
    LastTenWalk(TwoRows(0).Keys);
  }

  lemma LastTenWalk(all: set<int>)
    requires Within(LastTenIds, all, 3)
    ensures RowsBelow(LastTenIds, 0, 3) == [2, 1] && Follow(LastTenIds, all, 0, 3, 1, 3) == [2]
  {
    var first, second := Below(LastTenIds(0), 3), Below(LastTenIds(1), 2);
    assert first == {1, 2} && second == {};
    TwoDescending(first);
    FollowStep(LastTenIds, all, 0, 3, 1, 3);
    FollowStep(LastTenIds, all, 1, 2, 1, 3);
  }
}
