/**
 The upstream pool: which nodes it holds, in which order a query tries them, and which node
 answers. Shuffling is left open: any rearrangement of the shuffled slice is covered.
 */
module UpstreamPools {
  import opened Text

  datatype Strategy = Priority | LoadBalance | Fastest

  function StrategyFrom(s: string): Strategy {
    var t := ToLower(s);
    if t == "load_balance" || t == "loadbalance" then LoadBalance
    else if t == "fastest" then Fastest
    else Priority
  }

  /** A configured upstream; `addresses` is `None` when its JSON does not parse. */
  datatype Upstream = Upstream(
    id: string, name: string, priority: int, isActive: bool, health: string, addresses: Option<seq<string>>)

  datatype Node = Node(id: string, name: string, priority: int, latency: int)

  // ----- Stable sorting -----

  /** Inserts after every element whose key is not greater. */
  function Insert(s: seq<Node>, x: Node, key: Node -> int): seq<Node> {
    if s == [] then [x]
    else if key(s[|s| - 1]) <= key(x) then s + [x]
    else Insert(s[..|s| - 1], x, key) + [s[|s| - 1]]
  }

  /** `sort_by_key`. */
  function StableSort(s: seq<Node>, key: Node -> int): seq<Node> {
    if s == [] then [] else Insert(StableSort(s[..|s| - 1], key), s[|s| - 1], key)
  }

  predicate SortedBy(s: seq<Node>, key: Node -> int) {
    forall i, j :: 0 <= i < j < |s| ==> key(s[i]) <= key(s[j])
  }

  /** Sorted by the first key, ties by the second. */
  predicate SortedByBoth(s: seq<Node>, key: Node -> int, tie: Node -> int) {
    forall i, j :: 0 <= i < j < |s| ==> NotAfter(s[i], s[j], key, tie)
  }

  predicate NotAfter(x: Node, y: Node, key: Node -> int, tie: Node -> int) {
    key(x) < key(y) || (key(x) == key(y) && tie(x) <= tie(y))
  }

  lemma SortedSnoc(s: seq<Node>, x: Node, key: Node -> int, tie: Node -> int)
    requires SortedByBoth(s, key, tie) && forall y :: y in s ==> NotAfter(y, x, key, tie)
    ensures SortedByBoth(s + [x], key, tie)
  {
  }

  lemma {:induction false} InsertMultiset(s: seq<Node>, x: Node, key: Node -> int)
    ensures multiset(Insert(s, x, key)) == multiset(s) + multiset{x}
  {
    if s != [] && key(s[|s| - 1]) > key(x) {
      InsertMultiset(s[..|s| - 1], x, key);
      assert s == s[..|s| - 1] + [s[|s| - 1]];
    }
  }

  lemma {:induction false} SortMultiset(s: seq<Node>, key: Node -> int)
    ensures multiset(StableSort(s, key)) == multiset(s)
  {
    if s != [] {
      SortMultiset(s[..|s| - 1], key);
      InsertMultiset(StableSort(s[..|s| - 1], key), s[|s| - 1], key);
      assert s == s[..|s| - 1] + [s[|s| - 1]];
    }
  }

  lemma {:induction false} InsertSorted(s: seq<Node>, x: Node, key: Node -> int, tie: Node -> int)
    requires SortedByBoth(s, key, tie) && forall y :: y in s ==> tie(y) <= tie(x)
    ensures SortedByBoth(Insert(s, x, key), key, tie)
  {
    if s != [] {
      var init, last := s[..|s| - 1], s[|s| - 1];
      assert forall y :: y in init ==> NotAfter(y, last, key, tie);
      if key(last) <= key(x) {
        forall y | y in s ensures NotAfter(y, x, key, tie) {
          assert y == last || NotAfter(y, last, key, tie);
        }
        SortedSnoc(s, x, key, tie);
      } else {
        InsertSorted(init, x, key, tie);
        InsertMultiset(init, x, key);
        forall y | y in Insert(init, x, key) ensures NotAfter(y, last, key, tie) {
          assert y in multiset(Insert(init, x, key));
          assert y == x || y in init;
        }
        SortedSnoc(Insert(init, x, key), last, key, tie);
      }
    }
  }

  /** A stable sort of nodes already ordered by `tie` orders equal keys by `tie`. */
  lemma {:induction false} SortSorted(s: seq<Node>, key: Node -> int, tie: Node -> int)
    requires SortedBy(s, tie)
    ensures SortedByBoth(StableSort(s, key), key, tie)
  {
    if s != [] {
      var init, x := s[..|s| - 1], s[|s| - 1];
      SortSorted(init, key, tie);
      SortMultiset(init, key);
      forall y | y in StableSort(init, key) ensures tie(y) <= tie(x) {
        assert y in multiset(init);
        assert y in init;
      }
      InsertSorted(StableSort(init, key), x, key, tie);
    }
  }

  // ----- Shuffling within priority groups -----

  method Swap(a: array<Node>, i: nat, j: nat)
    requires i < a.Length && j < a.Length
    modifies a
    ensures a[..] == old(a[..])[i := old(a[j])][j := old(a[i])]
    ensures multiset(a[..]) == old(multiset(a[..]))
  {
    a[i], a[j] := a[j], a[i];
  }

  /** Any rearrangement of the slice, by swaps with an arbitrary earlier position. */
  method Shuffle(a: array<Node>, lo: nat, hi: nat)
    requires lo <= hi <= a.Length
    modifies a
    ensures multiset(a[..]) == old(multiset(a[..]))
    ensures forall k :: 0 <= k < a.Length && !(lo <= k < hi) ==> a[k] == old(a[k])
    ensures forall k :: lo <= k < hi ==> a[k] in old(a[lo..hi])
  {
    var i := hi;
    while i > lo
      invariant lo <= i <= hi
      invariant multiset(a[..]) == old(multiset(a[..]))
      invariant forall k :: 0 <= k < a.Length && !(lo <= k < hi) ==> a[k] == old(a[k])
      invariant forall k :: lo <= k < hi ==> a[k] in old(a[lo..hi])
    {
      i := i - 1;
      var j: nat :| lo <= j <= i;
      Swap(a, i, j);
    }
  }

  /** End of the run of equal priorities that starts at `i`. */
  method GroupEnd(a: array<Node>, i: nat) returns (end: nat)
    requires i < a.Length
    ensures i < end <= a.Length
    ensures forall k :: i <= k < end ==> a[k].priority == a[i].priority
    ensures end < a.Length ==> a[end].priority != a[i].priority
  {
    end := i + 1;
    while end < a.Length && a[end].priority == a[i].priority
      invariant i < end <= a.Length
      invariant forall k :: i <= k < end ==> a[k].priority == a[i].priority
    {
      end := end + 1;
    }
  }

  /** The grouped shuffle: a permutation in which every position keeps its priority. */
  method ShuffleGroups(nodes: seq<Node>) returns (result: seq<Node>)
    ensures multiset(result) == multiset(nodes) && |result| == |nodes|
    ensures forall k :: 0 <= k < |nodes| ==> result[k].priority == nodes[k].priority
  {
    var a := new Node[|nodes|](i requires 0 <= i < |nodes| => nodes[i]);
    assert a[..] == nodes;
    result := [];
    var i := 0;
    while i < a.Length
      invariant 0 <= i <= a.Length == |nodes|
      invariant result == a[..i]
      invariant multiset(a[..]) == multiset(nodes)
      invariant forall k :: 0 <= k < a.Length ==> a[k].priority == nodes[k].priority
    {
      var groupEnd := GroupEnd(a, i);
      ghost var p := a[i].priority;
      assert forall n :: n in a[i..groupEnd] ==> n.priority == p;
      Shuffle(a, i, groupEnd);
      result := result + a[i..groupEnd];
      assert result == a[..groupEnd];
      i := groupEnd;
    }
    assert a[..i] == a[..];
  }

  // ----- The pool -----

  function ByPriority(n: Node): int { n.priority }

  function ByLatency(n: Node): int { n.latency }

  /** What a node's resolver returns for the query. */
  datatype Attempt = Ok(answer: seq<int>, ttl: Option<int>) | Err(error: string)

  datatype Reply = Answered(answer: seq<int>, ttl: Option<int>, upstream: string) | Failed(error: string)

  const FALLBACK_ADDRESSES: seq<string> := ["1.1.1.1:53", "8.8.8.8:53"]

  const FALLBACK: Node := Node("fallback", "Cloudflare/Google Fallback", 999, 0)

  /** Active, not degraded or dead, with addresses a resolver can be made from. */
  predicate Usable(u: Upstream, resolves: seq<string> -> bool) {
    && u.isActive && u.health != "degraded" && u.health != "dead"
    && u.addresses.Some? && u.addresses.value != [] && resolves(u.addresses.value)
  }

  function NodeOf(u: Upstream): Node { Node(u.id, u.name, u.priority, 0) }

  function UsableNodes(upstreams: seq<Upstream>, resolves: seq<string> -> bool): seq<Node> {
    if upstreams == [] then []
    else
      var n := |upstreams| - 1;
      UsableNodes(upstreams[..n], resolves)
      + if Usable(upstreams[n], resolves) then [NodeOf(upstreams[n])] else []
  }

  /** `n` answered, and no node that would have answered comes before it under the strategy. */
  predicate Preferred(nodes: seq<Node>, strategy: Strategy, attempt: Node -> Attempt, n: Node) {
    && n in nodes && attempt(n).Ok?
    && (strategy == Priority ==> forall m :: m in nodes && attempt(m).Ok? ==> n.priority <= m.priority)
    && (strategy == Fastest ==> forall m :: m in nodes && attempt(m).Ok? ==>
          NotAfter(n, m, ByLatency, ByPriority))
  }

  class UpstreamPool {
    var nodes: seq<Node>
    var strategy: Strategy

    ghost predicate Valid()
      reads this
    {
      nodes != [] && SortedBy(nodes, ByPriority)
    }

    constructor (nodes: seq<Node>, strategy: Strategy)
      requires nodes != [] && SortedBy(nodes, ByPriority)
      ensures Valid() && this.nodes == nodes && this.strategy == strategy
    {
      this.nodes := nodes;
      this.strategy := strategy;
    }

    /** Stores a measured latency on every node with that id; priorities and order stay. */
    method UpdateLatency(id: string, ms: int)
      requires Valid()
      modifies this`nodes
      ensures Valid() && |nodes| == |old(nodes)|
      ensures forall i :: 0 <= i < |nodes| ==>
                nodes[i] == if old(nodes)[i].id == id then old(nodes)[i].(latency := ms) else old(nodes)[i]
    {
      for k := 0 to |nodes|
        invariant |nodes| == |old(nodes)|
        invariant forall i :: k <= i < |nodes| ==> nodes[i] == old(nodes)[i]
        invariant forall i :: 0 <= i < k ==>
                    nodes[i] == if old(nodes)[i].id == id then old(nodes)[i].(latency := ms) else old(nodes)[i]
      {
        if nodes[k].id == id {
          nodes := nodes[k := nodes[k].(latency := ms)];
        }
      }
      assert forall i :: 0 <= i < |nodes| ==> nodes[i].priority == old(nodes)[i].priority;
    }

    /** The order in which a query tries the nodes: all of them, once each. */
    method TryOrder() returns (order: seq<Node>)
      requires Valid()
      ensures multiset(order) == multiset(nodes)
      ensures strategy == Priority ==> SortedBy(order, ByPriority)
      ensures strategy == Fastest ==> SortedByBoth(order, ByLatency, ByPriority)
    {
      match strategy
      case Priority =>
        order := ShuffleGroups(nodes);
      case LoadBalance =>
        var a := new Node[|nodes|](i requires 0 <= i < |nodes| reads this => nodes[i]);
        assert a[..] == nodes;
        Shuffle(a, 0, a.Length);
        order := a[..];
      case Fastest =>
        SortMultiset(nodes, ByLatency);
        SortSorted(nodes, ByLatency, ByPriority);
        order := StableSort(nodes, ByLatency);
    }

    /**
     Failover: the query fails only if every node fails, with an error some node reported;
     otherwise a node that the strategy prefers among those that succeed answers.
     */
    method Resolve(attempt: Node -> Attempt) returns (reply: Reply)
      requires Valid()
      ensures match reply
              case Failed(e) =>
                && (forall n :: n in nodes ==> attempt(n).Err?)
                && exists n :: n in nodes && attempt(n) == Err(e)
              case Answered(answer, ttl, upstream) =>
                exists n :: && Preferred(nodes, strategy, attempt, n)
                            && attempt(n) == Ok(answer, ttl) && upstream == n.name
    {
      var order := TryOrder();
      SameMembers(order, nodes);
      reply := Failover(order, attempt);
      if reply.Answered? {
        var i :| FirstSuccess(order, attempt, i) && attempt(order[i]) == Ok(reply.answer, reply.ttl)
                 && reply.upstream == order[i].name;
        FirstIsPreferred(order, nodes, strategy, attempt, i);
      }
    }
  }

  predicate FirstSuccess(order: seq<Node>, attempt: Node -> Attempt, i: int) {
    0 <= i < |order| && attempt(order[i]).Ok? && forall j :: 0 <= j < i ==> attempt(order[j]).Err?
  }

  /** Tries the nodes in turn; the first success answers, otherwise the last error is returned. */
  method Failover(order: seq<Node>, attempt: Node -> Attempt) returns (reply: Reply)
    ensures match reply
            case Failed(e) =>
              && (forall n :: n in order ==> attempt(n).Err?)
              && if order == [] then e == "No upstream nodes available" else attempt(order[|order| - 1]) == Err(e)
            case Answered(answer, ttl, upstream) =>
              exists i :: && FirstSuccess(order, attempt, i)
                          && attempt(order[i]) == Ok(answer, ttl) && upstream == order[i].name
  {
    var lastErr := "No upstream nodes available";
    for i := 0 to |order|
      invariant forall j :: 0 <= j < i ==> attempt(order[j]).Err?
      invariant if i == 0 then lastErr == "No upstream nodes available" else attempt(order[i - 1]) == Err(lastErr)
    {
      match attempt(order[i])
      case Ok(answer, ttl) =>
        assert FirstSuccess(order, attempt, i);
        return Answered(answer, ttl, order[i].name);
      case Err(e) =>
        lastErr := e;
    }
    return Failed(lastErr);
  }

  lemma SameMembers(a: seq<Node>, b: seq<Node>)
    requires multiset(a) == multiset(b)
    ensures |a| == |b| && forall n :: n in a <==> n in b
  {
    assert |multiset(a)| == |multiset(b)|;
    forall n ensures n in a <==> n in b {
      assert n in a <==> n in multiset(a);
      assert n in b <==> n in multiset(b);
    }
  }

  lemma FirstIsPreferred(order: seq<Node>, nodes: seq<Node>, strategy: Strategy, attempt: Node -> Attempt, i: int)
    requires FirstSuccess(order, attempt, i) && forall n :: n in order <==> n in nodes
    requires strategy == Priority ==> SortedBy(order, ByPriority)
    requires strategy == Fastest ==> SortedByBoth(order, ByLatency, ByPriority)
    ensures Preferred(nodes, strategy, attempt, order[i])
  {
    forall m | m in nodes && attempt(m).Ok?
      ensures strategy == Priority ==> order[i].priority <= m.priority
      ensures strategy == Fastest ==> NotAfter(order[i], m, ByLatency, ByPriority)
    {
      assert m in order;
      var j :| 0 <= j < |order| && order[j] == m;
      assert i <= j;
      if i < j && strategy == Priority {
        assert ByPriority(order[i]) <= ByPriority(order[j]);
      }
    }
  }

  /**
   `UpstreamPool::new`: the usable upstreams in priority order, or the fallback node when there
   is none; it fails only when the fallback resolver cannot be made.
   */
  method NewPool(upstreams: seq<Upstream>, strategy: string, resolves: seq<string> -> bool)
    returns (pool: UpstreamPool?)
    ensures pool == null <==> UsableNodes(upstreams, resolves) == [] && !resolves(FALLBACK_ADDRESSES)
    ensures pool != null ==> fresh(pool) && pool.Valid() && pool.strategy == StrategyFrom(strategy)
    ensures pool != null ==>
              multiset(pool.nodes) == if UsableNodes(upstreams, resolves) == [] then multiset{FALLBACK}
                                      else multiset(UsableNodes(upstreams, resolves))
  {
    var nodes: seq<Node> := [];
    for i := 0 to |upstreams|
      invariant nodes == UsableNodes(upstreams[..i], resolves)
    {
      assert upstreams[..i + 1][..i] == upstreams[..i];
      var u := upstreams[i];
      if !u.isActive || u.health == "degraded" || u.health == "dead" { continue; }
      if u.addresses.None? || u.addresses.value == [] { continue; }
      if resolves(u.addresses.value) {
        nodes := nodes + [NodeOf(u)];
      }
    }
    assert upstreams[..|upstreams|] == upstreams;
    SortMultiset(nodes, ByPriority);
    SameMembers(StableSort(nodes, ByPriority), nodes);
    SortSorted(nodes, ByPriority, _ => 0);
    nodes := StableSort(nodes, ByPriority);
    if nodes == [] {
      if !resolves(FALLBACK_ADDRESSES) { return null; }
      nodes := [FALLBACK];
    }
    assert SortedBy(nodes, ByPriority);
    pool := new UpstreamPool(nodes, StrategyFrom(strategy));
  }
}
