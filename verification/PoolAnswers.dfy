/**
 The upstream pool over real lookups. A node's resolver turns a failed lookup into a SERVFAIL
 response, which is a success to the pool: only a response that cannot be encoded moves the query
 on to the next node.
 */
module PoolAnswers {
  import opened Text
  import opened UpstreamPools
  import opened DnsPipeline

  /** The least TTL of the records. */
  function LeastTtl(records: seq<Record>): (m: Option<nat>)
    ensures IsMinTtl(records, m)
  {
    if records == [] then None
    else
      var n := |records| - 1;
      assert records == records[..n] + [records[n]];
      match LeastTtl(records[..n])
      case None => Some(records[n].ttl)
      case Some(t) => Some(if t <= records[n].ttl then t else records[n].ttl)
  }

  /** One node's resolver: it looks up, builds a response whatever came of it, and encodes that. */
  function Tried(encode: Message -> Option<seq<Byte>>, request: Request, lookup: Lookup): Attempt {
    var m := ResponseTo(request, lookup);
    match encode(m)
    case None => Err("cannot encode")
    case Some(data) => Ok(data, LeastTtl(m.answers))
  }

  /** The node's response, whatever its lookup gave, can be encoded. */
  predicate Able(encode: Message -> Option<seq<Byte>>, request: Request, lookup: Lookup) {
    encode(ResponseTo(request, lookup)).Some?
  }

  /** Among the nodes whose response can be encoded, none comes before `n` under the strategy. */
  predicate Leads(pool: seq<Node>, strategy: Strategy, encode: Message -> Option<seq<Byte>>, request: Request,
                  lookups: Node -> Lookup, n: Node)
  {
    && n in pool && Able(encode, request, lookups(n))
    && forall m :: m in pool && Able(encode, request, lookups(m)) ==>
         && (strategy == Priority ==> n.priority <= m.priority)
         && (strategy == Fastest ==> NotAfter(n, m, ByLatency, ByPriority))
  }

  /** The reply the node gives, whether its lookup succeeded or not. */
  predicate AnsweredBy(reply: Reply, n: Node, encode: Message -> Option<seq<Byte>>, request: Request, lookup: Lookup) {
    var m := ResponseTo(request, lookup);
    && reply.Answered? && encode(m) == Some(reply.answer) && reply.upstream == n.name
    && reply.ttl == LeastTtl(m.answers)
  }

  /**
   A query fails exactly when no node's response can be encoded. Otherwise a node that leads among
   those whose response can be encoded answers, whether its own lookup failed or not.
   */
  method ResolveThrough(pool: UpstreamPool, encode: Message -> Option<seq<Byte>>, request: Request,
                        lookups: Node -> Lookup)
    returns (reply: Reply)
    requires pool.Valid()
    ensures reply.Failed? <==> forall n :: n in pool.nodes ==> !Able(encode, request, lookups(n))
    ensures reply.Answered? ==>
              exists n :: Leads(pool.nodes, pool.strategy, encode, request, lookups, n)
                       && AnsweredBy(reply, n, encode, request, lookups(n))
  {
    var attempt := (n: Node) => Tried(encode, request, lookups(n));
    reply := pool.Resolve(attempt);
    assert forall n :: attempt(n).Ok? <==> Able(encode, request, lookups(n));
    if reply.Answered? {
      var n :| Preferred(pool.nodes, pool.strategy, attempt, n) && attempt(n) == Ok(reply.answer, reply.ttl)
               && reply.upstream == n.name;
      assert AnsweredBy(reply, n, encode, request, lookups(n));
      assert Leads(pool.nodes, pool.strategy, encode, request, lookups, n);
    } else {
      assert forall n :: n in pool.nodes ==> attempt(n).Err?;
    }
  }

  /** The node's response is sent and kept for its clamped least TTL, and nothing else changes. */
  predicate SentAndKept(sent: Option<seq<Byte>>, cache: map<string, CacheEntry>, before: map<string, CacheEntry>,
                        request: Request, data: seq<Byte>, lookup: Lookup)
    requires request.queries != []
  {
    var ttl := if lookup.LookupFailed? then 300 else CacheTtl(LeastTtl(ResponseTo(request, lookup).answers));
    sent == Some(data) && cache == before[KeyOf(request) := CacheEntry(data, ttl)]
  }

  /**
   The pool behind the cache. If no node can encode its response, nothing is sent or kept. Otherwise
   a leading node answers: what it answers is sent and kept for its clamped least TTL, the SERVFAIL of
   a failed lookup for 300 seconds, unless it does not parse again, when nothing is sent or kept.
   */
  method ResolveAndStore(handler: DnsHandler, pool: UpstreamPool, request: Request, lookups: Node -> Lookup,
                         parses: seq<Byte> -> bool)
    returns (sent: Option<seq<Byte>>)
    requires handler.Valid() && pool.Valid() && request.queries != []
    modifies handler`cache, handler`kept
    ensures handler.Valid()
    ensures sent.None? ==> handler.cache == old(handler.cache)
    ensures (forall n :: n in pool.nodes ==> !Able(handler.encode, request, lookups(n))) ==> sent == None
    ensures (exists n :: n in pool.nodes && Able(handler.encode, request, lookups(n))) ==>
              exists n, data :: Leads(pool.nodes, pool.strategy, handler.encode, request, lookups, n)
                       && handler.encode(ResponseTo(request, lookups(n))) == Some(data)
                       && if parses(data)
                          then SentAndKept(sent, handler.cache, old(handler.cache), request, data, lookups(n))
                          else sent == None
  {
    var reply := ResolveThrough(pool, handler.encode, request, lookups);
    if reply.Failed? { return None; }
    ghost var n :| Leads(pool.nodes, pool.strategy, handler.encode, request, lookups, n)
                   && AnsweredBy(reply, n, handler.encode, request, lookups(n));
    var data: seq<Byte> := reply.answer;
    ghost var before := handler.cache;
    sent := handler.Keep(request, Resolved(data, reply.ttl), parses(data));
    assert parses(data) ==> SentAndKept(sent, handler.cache, before, request, data, lookups(n));
  }
}
