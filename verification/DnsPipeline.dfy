/**
 The query pipeline: access control, rewrites, filtering, the answer cache and the resolver,
 for one handler over a whole run of queries. Message encoding, name lookups and cache
 evictions are left open; the encoder is assumed to put the message id first.
 */
module DnsPipeline {
  import opened Text
  import opened RuleSets

  type Byte = b: int | 0 <= b < 256
  type Id = i: int | 0 <= i < 0x1_0000

  /** A record type, named by its debug text, which holds no colon. */
  type RecordType = t: string | ':' !in t witness "A"

  datatype Question = Question(name: string, qtype: RecordType)

  datatype Ip = V4(v4: int) | V6(v6: int)

  datatype Record = Address(name: string, ip: Ip, ttl: nat) | OtherRecord(ttl: nat)

  datatype Code = NoError | NxDomain | ServFail | Refused | OtherCode(code: nat)

  datatype Request = Request(id: Id, isQuery: bool, recursionDesired: bool, queries: seq<Question>)

  datatype Message = Message(
    id: Id, code: Code, recursionDesired: bool, recursionAvailable: bool, queries: seq<Question>, answers: seq<Record>)

  // ----- Wire format -----

  function IdBytes(id: Id): (r: seq<Byte>)
    ensures |r| == 2
  {
    [id / 256, id % 256]
  }

  /** The first two bytes are the id, high byte first (section 4.1.1 of RFC 1035). */
  predicate CarriesId(data: seq<Byte>, id: Id) { |data| >= 2 && data[..2] == IdBytes(id) }

  /** What is assumed of the encoder: a header of twelve bytes that starts with the id. */
  ghost predicate WireFormat(encode: Message -> Option<seq<Byte>>) {
    forall m :: encode(m).Some? ==> |encode(m).value| >= 12 && CarriesId(encode(m).value, m.id)
  }

  /** The cached-reply patch: the request's id in place, every other byte kept. */
  function Patch(data: seq<Byte>, id: Id): (r: seq<Byte>)
    ensures |r| == |data|
    ensures |data| >= 2 ==> CarriesId(r, id) && r[2..] == data[2..]
  {
    if |data| >= 2 then IdBytes(id) + data[2..] else data
  }

  // ----- Cache keys -----

  function CacheKey(domain: string, qtype: RecordType): string { ToLower(domain) + ":" + qtype }

  lemma LastColon(a: string, s: string, b: string, t: string)
    requires ':' !in s && ':' !in t && a + ":" + s == b + ":" + t
    ensures |b| <= |a|
  {
    var x := a + ":" + s;
    assert x[|b|] == ':';
    assert forall i :: 0 <= i < |s| ==> x[|a| + 1 + i] == s[i] && s[i] in s;
    assert |b| <= |a|;
  }

  /** Two queries share a cache entry exactly when names agree up to case and types agree. */
  lemma CacheKeyInjective(d: string, q: RecordType, e: string, r: RecordType)
    ensures CacheKey(d, q) == CacheKey(e, r) <==> ToLower(d) == ToLower(e) && q == r
  {
    if CacheKey(d, q) == CacheKey(e, r) {
      LastColon(ToLower(d), q, ToLower(e), r);
      LastColon(ToLower(e), r, ToLower(d), q);
      assert CacheKey(d, q)[..|d|] == ToLower(d);
      assert CacheKey(e, r)[..|e|] == ToLower(e);
      assert CacheKey(d, q)[|d| + 1..] == q;
      assert CacheKey(e, r)[|e| + 1..] == r;
    }
  }

  // ----- The resolver -----

  datatype Lookup = Records(records: seq<Record>) | NoRecords(code: Code) | LookupFailed

  /** The least TTL of the answer records, if there are any. */
  predicate IsMinTtl(records: seq<Record>, m: Option<nat>) {
    match m
    case None => records == []
    case Some(t) => (exists r :: r in records && r.ttl == t) && forall r :: r in records ==> t <= r.ttl
  }

  method MinTtl(records: seq<Record>) returns (m: Option<nat>)
    ensures IsMinTtl(records, m)
  {
    m := None;
    for i := 0 to |records|
      invariant IsMinTtl(records[..i], m)
    {
      assert records[..i + 1] == records[..i] + [records[i]];
      var ttl := records[i].ttl;
      m := Some(match m case None => ttl case Some(t) => if t <= ttl then t else ttl);
      assert records[i] in records[..i + 1];
    }
    assert records[..|records|] == records;
  }

  /** How long an answer is kept: its least TTL within five seconds and a day, else 300 s. */
  function CacheTtl(m: Option<nat>): nat {
    var t := if m.Some? then m.value else 300;
    if t < 5 then 5 else if t > 86_400 then 86_400 else t
  }

  function ResponseTo(request: Request, lookup: Lookup): Message {
    var base := Message(request.id, ServFail, request.recursionDesired, true, request.queries, []);
    match lookup
    case Records(records) => base.(code := NoError, answers := records)
    case NoRecords(code) => base.(code := code)
    case LookupFailed => base
  }

  function Bare(request: Request, code: Code): Message { Message(request.id, code, false, false, [], []) }

  /** The reply to a blocked name. */
  function NxDomainReply(request: Request): Message {
    Message(request.id, NxDomain, request.recursionDesired, true, request.queries, [])
  }

  // ----- Rewrites -----

  function FindRewrite(group: Option<map<string, string>>, global: map<string, string>, name: string): Option<string> {
    if group.Some? && name in group.value then Some(group.value[name])
    else if ToLower(name) in global then Some(global[ToLower(name)])
    else None
  }

  /** Group rewrites are loaded with lower-case keys. */
  predicate LowerKeys(m: map<string, string>) { forall k :: k in m ==> ToLower(k) == k }

  /**
   The group lookup uses the name as received, the global one folds it. So a name gets the rewrite
   of its lower-case form exactly when it is in lower case, or the group has none for it, or the
   global rewrite the lookup falls back to happens to be the same.
   */
  lemma GroupRewriteCase(group: map<string, string>, global: map<string, string>, name: string)
    requires LowerKeys(group)
    ensures FindRewrite(Some(group), global, name) == FindRewrite(Some(group), global, ToLower(name)) <==>
            || ToLower(name) == name
            || ToLower(name) !in group
            || (ToLower(name) in global && global[ToLower(name)] == group[ToLower(name)])
  {
    ToLowerIdempotent(name);
  }

  /** The reply a rewrite gives, if its answer is an address of the queried type. */
  function RewriteReply(request: Request, answer: string, parseIp: string -> Option<Ip>, ttl: nat): Option<Message>
    requires request.queries != []
  {
    var q := request.queries[0];
    match parseIp(answer)
    case None => None
    case Some(ip) =>
      if (q.qtype == "A" && ip.V4?) || (q.qtype == "AAAA" && ip.V6?) then
        Some(Message(request.id, NoError, request.recursionDesired, true, [q], [Address(q.name, ip, ttl)]))
      else None
  }

  // ----- The handler -----

  /** What the client's configuration says. */
  datatype Config = Config(
    filterEnabled: bool, groupRules: RuleSet?, groupRewrites: Option<map<string, string>>)

  /** The outside world during one query. */
  datatype World = World(
    aclAllows: bool, rewrites: map<string, string>, rewriteTtl: nat, parseIp: string -> Option<Ip>,
    upstream: Option<Lookup>, reparses: bool)

  /** Which branch produced the reply, as the query log records it. */
  datatype Via = ByAcl | ByServFail | ByRewrite | ByFilter | ByCache | ByUpstream

  datatype CacheEntry = CacheEntry(data: seq<Byte>, ttl: nat)

  /** A response put into the cache, with the name and type it was fetched for. */
  datatype Kept = Kept(name: string, qtype: RecordType, data: seq<Byte>)

  /** What the resolver hands back: an encoded response and its least TTL. */
  datatype Resolved = Resolved(data: seq<Byte>, ttl: Option<nat>)

  /** The name is blocked for a client: by its group's rules, else by the global ones. */
  ghost predicate BlockedFor(filter: RuleSet, config: Config, name: string)
    reads filter, config.groupRules
  {
    var group := if config.groupRules == null then NoMatch else
      Verdict((set e | e in config.groupRules.rules), config.groupRules.wildcardAllowedSet.Some?,
              config.groupRules.wildcardBlockedSet.Some?, name);
    match group
    case Blocked => true
    case Allowed => false
    case NoMatch =>
      Verdict((set e | e in filter.rules), filter.wildcardAllowedSet.Some?, filter.wildcardBlockedSet.Some?, name)
      == Blocked
  }

  /** The reply a rewrite would give to the first question. */
  ghost function Rewritten(encode: Message -> Option<seq<Byte>>, request: Request, config: Config, world: World)
    : Option<seq<Byte>>
    requires request.queries != []
  {
    var name := TrimRight(request.queries[0].name, {'.'});
    match FindRewrite(config.groupRewrites, world.rewrites, name)
    case None => None
    case Some(answer) =>
      match RewriteReply(request, answer, world.parseIp, world.rewriteTtl)
      case None => None
      case Some(m) => encode(m)
  }

  /** The reply an upstream comes to: none if it cannot be asked, encoded or parsed again. */
  function UpstreamReply(encode: Message -> Option<seq<Byte>>, request: Request, world: World): Option<seq<Byte>> {
    if world.upstream.Some? && world.reparses then encode(ResponseTo(request, world.upstream.value)) else None
  }

  /** The name of the question is blocked for the client and no rewrite answers it. */
  ghost predicate Filtered(encode: Message -> Option<seq<Byte>>, filter: RuleSet, request: Request, config: Config,
                           world: World)
    requires request.queries != []
    reads filter, config.groupRules
  {
    && Rewritten(encode, request, config, world).None?
    && config.filterEnabled && BlockedFor(filter, config, TrimRight(request.queries[0].name, {'.'}))
  }

  /** The query gets past access control and is one the handler answers. */
  predicate Answerable(request: Request, world: World) { world.aclAllows && request.isQuery && request.queries != [] }

  /** What the reply to an answerable question is, given what the cache holds for it. */
  ghost predicate Answered(encode: Message -> Option<seq<Byte>>, filter: RuleSet, request: Request, config: Config,
                           world: World, cached: Option<seq<Byte>>, reply: Option<seq<Byte>>, via: Via)
    requires request.queries != []
    reads filter, config.groupRules
  {
    && via != ByAcl && via != ByServFail
    && (via == ByRewrite <==> Rewritten(encode, request, config, world).Some?)
    && (via == ByRewrite ==> reply == Rewritten(encode, request, config, world))
    && (via == ByFilter <==> Filtered(encode, filter, request, config, world))
    && (via == ByFilter ==> reply == encode(NxDomainReply(request)))
    && (via == ByCache ==> cached.Some? && reply == Some(Patch(cached.value, request.id)))
    && (via == ByUpstream ==> cached.None? && reply == UpstreamReply(encode, request, world))
  }

  /** What the reply to any query is. */
  ghost predicate Explained(encode: Message -> Option<seq<Byte>>, filter: RuleSet, request: Request, config: Config,
                            world: World, cached: Option<seq<Byte>>, reply: Option<seq<Byte>>, via: Via)
    reads filter, config.groupRules
  {
    if !world.aclAllows then via == ByAcl && reply == encode(Bare(request, Refused))
    else if !Answerable(request, world) then via == ByServFail && reply == encode(Bare(request, ServFail))
    else Answered(encode, filter, request, config, world, cached, reply, via)
  }

  function KeyOf(request: Request): string
    requires request.queries != []
  {
    CacheKey(request.queries[0].name, request.queries[0].qtype)
  }

  /** What the cache holds for the first question. */
  function Cached(cache: map<string, CacheEntry>, request: Request): Option<seq<Byte>> {
    if request.queries != [] && KeyOf(request) in cache then Some(cache[KeyOf(request)].data) else None
  }

  /** The cache holds the reply for the first question and is otherwise as before. */
  predicate Stored(cache: map<string, CacheEntry>, before: map<string, CacheEntry>, request: Request, data: seq<Byte>) {
    && Cached(cache, request) == Some(data)
    && cache - {KeyOf(request)} == before - {KeyOf(request)}
  }

  class DnsHandler {
    const encode: Message -> Option<seq<Byte>>
    var filter: RuleSet
    var cache: map<string, CacheEntry>
    /** Every response ever put into the cache. */
    ghost var kept: set<Kept>

    /** Every cached entry is a response kept under its own key, with a whole header. */
    ghost predicate Valid()
      reads this
    {
      && WireFormat(encode)
      && (forall k :: k in kept ==> |k.data| >= 12)
      && (forall key :: key in cache ==>
            exists k :: k in kept && CacheKey(k.name, k.qtype) == key && cache[key].data == k.data)
    }

    constructor (encode: Message -> Option<seq<Byte>>, filter: RuleSet)
      requires WireFormat(encode)
      ensures Valid() && this.encode == encode && this.filter == filter && cache == map[] && kept == {}
    {
      this.encode := encode;
      this.filter := filter;
      cache := map[];
      kept := {};
    }

    /** Entries may vanish at any time: expiry, capacity, or a flush. */
    method Evict(keys: set<string>)
      requires Valid()
      modifies this`cache
      ensures Valid() && cache == old(cache) - keys
    {
      cache := cache - keys;
    }

    /** The filter engine swaps in a newly loaded rule set. */
    method Reload(rules: RuleSet)
      requires Valid()
      modifies this`filter
      ensures Valid() && filter == rules
    {
      filter := rules;
    }

    method IsBlocked(config: Config, name: string) returns (blocked: bool)
      requires filter.Valid() && (config.groupRules != null ==> config.groupRules.Valid())
      ensures blocked <==> BlockedFor(filter, config, name)
    {
      if config.groupRules != null {
        var verdict := config.groupRules.MatchDomain(name);
        if verdict != NoMatch { return verdict == Blocked; }
      }
      var verdict := filter.MatchDomain(name);
      return verdict == Blocked;
    }

    /** A reply from the cache: a kept response for the same name and type, with the new id. */
    ghost predicate FromKept(request: Request, reply: seq<Byte>)
      requires request.queries != []
      reads this
    {
      var q := request.queries[0];
      exists k :: k in kept && ToLower(k.name) == ToLower(q.name) && k.qtype == q.qtype
               && reply == Patch(k.data, request.id)
    }

    /** Looks a question up; a hit is what is cached, a kept response for the same folded name and type. */
    method CacheGet(request: Request) returns (hit: Option<seq<Byte>>)
      requires Valid() && request.queries != []
      ensures hit.Some? <==> KeyOf(request) in cache
      ensures hit.Some? ==> && hit.value == Patch(cache[KeyOf(request)].data, request.id)
                            && FromKept(request, hit.value) && CarriesId(hit.value, request.id)
    {
      var q := request.queries[0];
      var key := CacheKey(q.name, q.qtype);
      if key !in cache { return None; }
      ghost var k :| k in kept && CacheKey(k.name, k.qtype) == key && cache[key].data == k.data;
      CacheKeyInjective(k.name, k.qtype, q.name, q.qtype);
      var updated := cache[key].data;
      if |updated| >= 2 {
        updated := updated[0 := request.id / 256];
        updated := updated[1 := request.id % 256];
      }
      assert updated == Patch(k.data, request.id);
      return Some(updated);
    }

    /** Keeps a resolved response and passes it on, unless it does not parse again. */
    method Keep(request: Request, resolved: Resolved, reparses: bool) returns (reply: Option<seq<Byte>>)
      requires Valid() && request.queries != [] && |resolved.data| >= 12
      modifies this`cache, this`kept
      ensures Valid()
      ensures reply == if reparses then Some(resolved.data) else None
      ensures !reparses ==> cache == old(cache) && kept == old(kept)
      ensures reparses ==>
                && cache == old(cache)[KeyOf(request) := CacheEntry(resolved.data, CacheTtl(resolved.ttl))]
                && kept == old(kept) + {Kept(request.queries[0].name, request.queries[0].qtype, resolved.data)}
    {
      if !reparses { return None; }
      var q := request.queries[0];
      kept := kept + {Kept(q.name, q.qtype, resolved.data)};
      cache := cache[CacheKey(q.name, q.qtype) := CacheEntry(resolved.data, CacheTtl(resolved.ttl))];
      return Some(resolved.data);
    }

    /**
     Resolves and keeps the response. There is a reply exactly if an upstream can be asked and its
     response can be encoded and parsed again.
     */
    method ResolveAndKeep(request: Request, world: World) returns (reply: Option<seq<Byte>>)
      requires Valid() && request.queries != []
      modifies this`cache, this`kept
      ensures Valid()
      ensures reply == UpstreamReply(encode, request, world)
      ensures reply.None? ==> cache == old(cache) && kept == old(kept)
      ensures reply.Some? ==>
                && CarriesId(reply.value, request.id)
                && kept == old(kept) + {Kept(request.queries[0].name, request.queries[0].qtype, reply.value)}
      ensures reply.Some? ==> exists m: Option<nat> ::
                && IsMinTtl(ResponseTo(request, world.upstream.value).answers, m)
                && cache == old(cache)[KeyOf(request) := CacheEntry(reply.value, CacheTtl(m))]
      ensures reply.Some? && world.upstream == Some(LookupFailed) ==>
                cache[KeyOf(request)] == CacheEntry(reply.value, 300)
    {
      if world.upstream.None? { return None; }
      var m := ResponseTo(request, world.upstream.value);
      var data := encode(m);
      if data.None? { return None; }
      var ttl := MinTtl(m.answers);
      reply := Keep(request, Resolved(data.value, ttl), world.reparses);
    }

    /** The pipeline past access control: rewrite, filter, cache, upstream, in that order. */
    method Answer(request: Request, config: Config, world: World) returns (reply: Option<seq<Byte>>, via: Via)
      requires Valid() && filter.Valid() && (config.groupRules != null ==> config.groupRules.Valid())
      requires request.queries != []
      modifies this`cache, this`kept
      ensures Valid()
      ensures reply.Some? ==> CarriesId(reply.value, request.id)
      ensures Answered(encode, filter, request, config, world, Cached(old(cache), request), reply, via)
      ensures via == ByUpstream && reply.Some? ==>
                && Stored(cache, old(cache), request, reply.value)
                && kept == old(kept) + {Kept(request.queries[0].name, request.queries[0].qtype, reply.value)}
      ensures !(via == ByUpstream && reply.Some?) ==> kept == old(kept) && cache == old(cache)
    {
      var name := TrimRight(request.queries[0].name, {'.'});
      reply := TryRewrite(request, config, world);
      if reply.Some? {
        return reply, ByRewrite;
      }
      if config.filterEnabled {
        var blocked := IsBlocked(config, name);
        if blocked {
          return encode(NxDomainReply(request)), ByFilter;
        }
      }
      ghost var filtered := Filtered(encode, filter, request, config, world);
      reply, via := CacheOrUpstream(request, world);
      assert Filtered(encode, filter, request, config, world) == filtered;
    }

    method CacheOrUpstream(request: Request, world: World) returns (reply: Option<seq<Byte>>, via: Via)
      requires Valid() && request.queries != []
      modifies this`cache, this`kept
      ensures Valid()
      ensures reply.Some? ==> CarriesId(reply.value, request.id)
      ensures via == if KeyOf(request) in old(cache) then ByCache else ByUpstream
      ensures via == ByCache ==>
                reply == Some(Patch(old(cache)[KeyOf(request)].data, request.id)) && FromKept(request, reply.value)
      ensures via == ByUpstream ==> reply == UpstreamReply(encode, request, world)
      ensures via == ByUpstream && reply.Some? ==>
                && Stored(cache, old(cache), request, reply.value)
                && kept == old(kept) + {Kept(request.queries[0].name, request.queries[0].qtype, reply.value)}
      ensures !(via == ByUpstream && reply.Some?) ==> kept == old(kept) && cache == old(cache)
    {
      reply := CacheGet(request);
      if reply.Some? {
        return reply, ByCache;
      }
      reply := ResolveAndKeep(request, world);
      via := ByUpstream;
      assert cache - {KeyOf(request)} == old(cache) - {KeyOf(request)};
    }

    /**
     The decision pipeline. Every reply carries the request's id. A blocked name without a
     rewrite gets NXDOMAIN whatever the cache holds. A cached reply is what the cache holds for the
     question but for the id; an uncached one is what the upstream comes to, and only that is kept.
     */
    method HandleInternal(request: Request, config: Config, world: World)
      returns (reply: Option<seq<Byte>>, via: Via)
      requires Valid() && filter.Valid() && (config.groupRules != null ==> config.groupRules.Valid())
      modifies this`cache, this`kept
      ensures Valid()
      ensures reply.Some? ==> CarriesId(reply.value, request.id)
      ensures Explained(encode, filter, request, config, world, Cached(old(cache), request), reply, via)
      ensures via == ByUpstream && reply.Some? ==>
                && request.queries != []
                && Stored(cache, old(cache), request, reply.value)
                && kept == old(kept) + {Kept(request.queries[0].name, request.queries[0].qtype, reply.value)}
      ensures !(via == ByUpstream && reply.Some?) ==> kept == old(kept) && cache == old(cache)
    {
      if !world.aclAllows {
        return encode(Bare(request, Refused)), ByAcl;
      }
      if !request.isQuery || request.queries == [] {
        return encode(Bare(request, ServFail)), ByServFail;
      }
      reply, via := Answer(request, config, world);
    }

    method TryRewrite(request: Request, config: Config, world: World) returns (reply: Option<seq<Byte>>)
      requires Valid() && request.queries != []
      ensures reply == Rewritten(encode, request, config, world)
      ensures reply.Some? ==> CarriesId(reply.value, request.id)
    {
      var name := TrimRight(request.queries[0].name, {'.'});
      var answer := FindRewrite(config.groupRewrites, world.rewrites, name);
      if answer.None? { return None; }
      var m := RewriteReply(request, answer.value, world.parseIp, world.rewriteTtl);
      if m.None? { return None; }
      return encode(m.value);
    }
  }

  // ----- Whole runs -----

  datatype Op =
    | Query(request: Request, config: Config, world: World)
    | Vanish(keys: set<string>)
    | Swap(rules: RuleSet)

  /** What comes of an operation. */
  datatype Outcome = Replied(request: Request, reply: Option<seq<Byte>>, via: Via) | Quiet

  /** The outcome puts an upstream's answer into the cache under `key`. */
  predicate Fills(e: Outcome, key: string) {
    e.Replied? && e.via == ByUpstream && e.reply.Some? && e.request.queries != [] && KeyOf(e.request) == key
  }

  predicate Drops(op: Op, key: string) { op.Vanish? && key in op.keys }

  /** The answer put into the cache at `j` has neither been replaced nor vanished since. */
  predicate Current(ops: seq<Op>, log: seq<Outcome>, key: string, j: int)
    requires |ops| == |log|
  {
    && 0 <= j < |log| && Fills(log[j], key)
    && forall l :: j < l < |log| ==> !Fills(log[l], key) && !Drops(ops[l], key)
  }

  /** The one current answer for `key` after a run, if there is one. */
  function Holder(ops: seq<Op>, log: seq<Outcome>, key: string): (r: Option<nat>)
    requires |ops| == |log|
    ensures forall j :: Current(ops, log, key, j) <==> r == Some(j)
  {
    if log == [] then None
    else
      var n := |log| - 1;
      if Fills(log[n], key) then Some(n)
      else if Drops(ops[n], key) then None
      else Holder(ops[..n], log[..n], key)
  }

  /** What the cache must hold for a request after a run. */
  function Available(ops: seq<Op>, log: seq<Outcome>, request: Request): Option<seq<Byte>>
    requires |ops| == |log|
  {
    if request.queries == [] then None
    else
      match Holder(ops, log, KeyOf(request))
      case None => None
      case Some(j) => log[j].reply
  }

  /** The rule sets a run refers to. */
  ghost function RuleSetsOf(filter: RuleSet, ops: seq<Op>): set<RuleSet?> {
    {filter} + (set op | op in ops && op.Swap? :: op.rules) + (set op | op in ops && op.Query? :: op.config.groupRules)
  }

  /** The global rules in force after a run that started with `filter`. */
  function FilterAfter(filter: RuleSet, ops: seq<Op>): (r: RuleSet)
    ensures r in RuleSetsOf(filter, ops)
  {
    if ops == [] then filter
    else
      var n := |ops| - 1;
      if ops[n].Swap? then ops[n].rules else FilterAfter(filter, ops[..n])
  }

  /** `e` is what `op` comes to after the run `ops` with outcomes `log`. */
  ghost predicate Follows(encode: Message -> Option<seq<Byte>>, rules: RuleSet, ops: seq<Op>, log: seq<Outcome>,
                          op: Op, e: Outcome)
    requires |ops| == |log|
    reads if op.Query? then {rules, op.config.groupRules} else {}
  {
    if op.Query? then
      && e.Replied? && e.request == op.request
      && Explained(encode, rules, op.request, op.config, op.world, Available(ops, log, op.request), e.reply, e.via)
    else e.Quiet?
  }

  /** Every operation of the run has the outcome that follows from those before it. */
  ghost predicate Served(encode: Message -> Option<seq<Byte>>, filter: RuleSet, ops: seq<Op>, log: seq<Outcome>)
    reads RuleSetsOf(filter, ops)
  {
    && |ops| == |log|
    && (ops == [] ||
        var n := |ops| - 1;
        && Served(encode, filter, ops[..n], log[..n])
        && Follows(encode, FilterAfter(filter, ops[..n]), ops[..n], log[..n], ops[n], log[n]))
  }

  lemma ServedSnoc(encode: Message -> Option<seq<Byte>>, filter: RuleSet, ops: seq<Op>, log: seq<Outcome>,
                   op: Op, e: Outcome)
    requires Served(encode, filter, ops, log)
    requires Follows(encode, FilterAfter(filter, ops), ops, log, op, e)
    ensures Served(encode, filter, ops + [op], log + [e])
  {
    assert (ops + [op])[..|ops|] == ops && (log + [e])[..|log|] == log;
  }

  lemma {:induction false} ServedPrefix(encode: Message -> Option<seq<Byte>>, filter: RuleSet, ops: seq<Op>,
                                        log: seq<Outcome>, i: nat)
    requires Served(encode, filter, ops, log) && i <= |ops|
    ensures Served(encode, filter, ops[..i], log[..i])
    decreases |ops|
  {
    var n := |ops| - 1;
    if i <= n {
      ServedPrefix(encode, filter, ops[..n], log[..n], i);
      assert ops[..n][..i] == ops[..i] && log[..n][..i] == log[..i];
    } else {
      assert ops[..i] == ops && log[..i] == log;
    }
  }

  lemma ServedAt(encode: Message -> Option<seq<Byte>>, filter: RuleSet, ops: seq<Op>, log: seq<Outcome>, i: nat)
    requires Served(encode, filter, ops, log) && i < |ops|
    ensures Follows(encode, FilterAfter(filter, ops[..i]), ops[..i], log[..i], ops[i], log[i])
  {
    ServedPrefix(encode, filter, ops, log, i + 1);
    assert ops[..i + 1][..i] == ops[..i] && log[..i + 1][..i] == log[..i];
  }

  // ----- The cache over a run -----

  /** The cache holds the current answer for every key that has one, and nothing else. */
  ghost predicate Mirrors(cache: map<string, CacheEntry>, ops: seq<Op>, log: seq<Outcome>)
    requires |ops| == |log|
  {
    forall key: string :: MirrorsAt(cache, ops, log, key)
  }

  ghost predicate MirrorsAt(cache: map<string, CacheEntry>, ops: seq<Op>, log: seq<Outcome>, key: string)
    requires |ops| == |log|
  {
    match Holder(ops, log, key)
    case None => key !in cache
    case Some(j) => key in cache && log[j].Replied? && log[j].reply == Some(cache[key].data)
  }

  lemma HolderSnoc(ops: seq<Op>, log: seq<Outcome>, op: Op, e: Outcome, key: string)
    requires |ops| == |log|
    ensures Holder(ops + [op], log + [e], key) ==
            if Fills(e, key) then Some(|log|) else if Drops(op, key) then None else Holder(ops, log, key)
  {
    var n := |log|;
    assert (ops + [op])[..n] == ops && (log + [e])[..n] == log;
  }

  lemma AvailableIsCached(cache: map<string, CacheEntry>, ops: seq<Op>, log: seq<Outcome>, request: Request)
    requires |ops| == |log| && Mirrors(cache, ops, log)
    ensures Available(ops, log, request) == Cached(cache, request)
  {
    if request.queries != [] {
      assert MirrorsAt(cache, ops, log, KeyOf(request));
    }
  }

  lemma MirrorsQuery(cache: map<string, CacheEntry>, before: map<string, CacheEntry>, ops: seq<Op>, log: seq<Outcome>,
                     op: Op, e: Outcome)
    requires |ops| == |log| && Mirrors(before, ops, log) && op.Query? && e.Replied?
    requires e.via == ByUpstream && e.reply.Some? ==>
               e.request.queries != [] && Stored(cache, before, e.request, e.reply.value)
    requires !(e.via == ByUpstream && e.reply.Some?) ==> cache == before
    ensures Mirrors(cache, ops + [op], log + [e])
  {
    forall key ensures MirrorsAt(cache, ops + [op], log + [e], key) {
      HolderSnoc(ops, log, op, e, key);
      assert MirrorsAt(before, ops, log, key);
      if !Fills(e, key) && e.via == ByUpstream && e.reply.Some? {
        OtherKept(cache, before, KeyOf(e.request), key);
      }
    }
  }

  lemma OtherKept(cache: map<string, CacheEntry>, before: map<string, CacheEntry>, key: string, other: string)
    requires cache - {key} == before - {key} && other != key
    ensures (other in cache <==> other in before) && (other in cache ==> cache[other] == before[other])
  {
    assert other in cache <==> other in cache - {key};
    assert other in before <==> other in before - {key};
  }

  lemma MirrorsVanish(cache: map<string, CacheEntry>, ops: seq<Op>, log: seq<Outcome>, keys: set<string>)
    requires |ops| == |log| && Mirrors(cache, ops, log)
    ensures Mirrors(cache - keys, ops + [Vanish(keys)], log + [Quiet])
  {
    forall key ensures MirrorsAt(cache - keys, ops + [Vanish(keys)], log + [Quiet], key) {
      HolderSnoc(ops, log, Vanish(keys), Quiet, key);
      assert MirrorsAt(cache, ops, log, key);
    }
  }

  lemma MirrorsSwap(cache: map<string, CacheEntry>, ops: seq<Op>, log: seq<Outcome>, rules: RuleSet)
    requires |ops| == |log| && Mirrors(cache, ops, log)
    ensures Mirrors(cache, ops + [Swap(rules)], log + [Quiet])
  {
    forall key ensures MirrorsAt(cache, ops + [Swap(rules)], log + [Quiet], key) {
      HolderSnoc(ops, log, Swap(rules), Quiet, key);
      assert MirrorsAt(cache, ops, log, key);
    }
  }

  // ----- What a run guarantees -----

  /** `a` repeats the upstream answer `b` for the same folded name and type, but for the id. */
  ghost predicate RepeatOf(a: Outcome, b: Outcome) {
    && a.Replied? && b.Replied? && a.request.queries != [] && b.request.queries != []
    && b.via == ByUpstream && b.reply.Some? && a.reply.Some?
    && ToLower(a.request.queries[0].name) == ToLower(b.request.queries[0].name)
    && a.request.queries[0].qtype == b.request.queries[0].qtype
    && a.reply.value == Patch(b.reply.value, a.request.id)
  }

  /**
   Each reply carries its id, and each cached one repeats the last upstream answer for its folded name
   and type, which has not vanished since.
   */
  ghost predicate Consistent(ops: seq<Op>, log: seq<Outcome>)
    requires |ops| == |log|
  {
    forall i :: 0 <= i < |log| && log[i].Replied? ==>
      && (log[i].reply.Some? ==> CarriesId(log[i].reply.value, log[i].request.id))
      && (log[i].via == ByCache ==> log[i].request.queries != []
                                    && exists j :: Current(ops[..i], log[..i], KeyOf(log[i].request), j)
                                                && RepeatOf(log[i], log[j]))
  }

  /** An outcome that fills the cache is an encoded response. */
  lemma FillEncoded(encode: Message -> Option<seq<Byte>>, rules: RuleSet, ops: seq<Op>, log: seq<Outcome>,
                    op: Op, e: Outcome, key: string)
    requires |ops| == |log| && WireFormat(encode) && Follows(encode, rules, ops, log, op, e) && Fills(e, key)
    ensures |e.reply.value| >= 12
  {
    assert e.reply == encode(ResponseTo(op.request, op.world.upstream.value));
  }

  lemma CachedRepeats(ops: seq<Op>, log: seq<Outcome>, e: Outcome, key: string)
    requires |ops| == |log| && e.Replied? && e.request.queries != [] && e.reply.Some? && key == KeyOf(e.request)
    requires Available(ops, log, e.request).Some?
    requires e.reply.value == Patch(Available(ops, log, e.request).value, e.request.id)
    ensures exists j :: Current(ops, log, key, j) && RepeatOf(e, log[j])
  {
    var j := Holder(ops, log, key).value;
    assert Current(ops, log, key, j);
    var p, q := e.request.queries[0], log[j].request.queries[0];
    CacheKeyInjective(p.name, p.qtype, q.name, q.qtype);
  }

  /** Every reply of an explained query carries the id, if what is cached has a whole header. */
  lemma ExplainedCarriesId(encode: Message -> Option<seq<Byte>>, rules: RuleSet, request: Request, config: Config,
                           world: World, cached: Option<seq<Byte>>, reply: Option<seq<Byte>>, via: Via)
    requires WireFormat(encode) && (cached.Some? ==> |cached.value| >= 2)
    requires Explained(encode, rules, request, config, world, cached, reply, via)
    ensures reply.Some? ==> CarriesId(reply.value, request.id)
  {
  }

  lemma HeldWhole(encode: Message -> Option<seq<Byte>>, filter: RuleSet, ops: seq<Op>, log: seq<Outcome>,
                  request: Request)
    requires WireFormat(encode) && Served(encode, filter, ops, log)
    ensures Available(ops, log, request).Some? ==> |Available(ops, log, request).value| >= 12
  {
    if Available(ops, log, request).Some? {
      var j := Holder(ops, log, KeyOf(request)).value;
      assert Current(ops, log, KeyOf(request), j);
      ServedAt(encode, filter, ops, log, j);
      FillEncoded(encode, FilterAfter(filter, ops[..j]), ops[..j], log[..j], ops[j], log[j], KeyOf(request));
    }
  }

  /** So every run is consistent. */
  lemma ServedConsistent(encode: Message -> Option<seq<Byte>>, filter: RuleSet, ops: seq<Op>, log: seq<Outcome>)
    requires WireFormat(encode) && Served(encode, filter, ops, log)
    ensures Consistent(ops, log)
  {
    forall i | 0 <= i < |log| && log[i].Replied?
      ensures log[i].reply.Some? ==> CarriesId(log[i].reply.value, log[i].request.id)
      ensures log[i].via == ByCache ==> log[i].request.queries != []
                                        && exists j :: Current(ops[..i], log[..i], KeyOf(log[i].request), j)
                                                    && RepeatOf(log[i], log[j])
    {
      var op, e, before, past := ops[i], log[i], ops[..i], log[..i];
      ServedAt(encode, filter, ops, log, i);
      ServedPrefix(encode, filter, ops, log, i);
      HeldWhole(encode, filter, before, past, e.request);
      ExplainedCarriesId(encode, FilterAfter(filter, before), op.request, op.config, op.world,
                         Available(before, past, op.request), e.reply, e.via);
      if e.via == ByCache {
        CachedRepeats(before, past, e, KeyOf(e.request));
      }
    }
  }

  /** The rule sets an operation refers to are sound indexes. */
  ghost predicate RulesReady(op: Op)
    reads if op.Swap? then {op.rules} else {}, if op.Query? then {op.config.groupRules} else {}
  {
    && (op.Swap? ==> op.rules.Valid())
    && (op.Query? && op.config.groupRules != null ==> op.config.groupRules.Valid())
  }

  /** One operation on the handler, and its outcome. */
  method Perform(h: DnsHandler, op: Op, ghost ops: seq<Op>, ghost log: seq<Outcome>) returns (e: Outcome)
    requires h.Valid() && h.filter.Valid() && RulesReady(op)
    requires |ops| == |log| && Mirrors(h.cache, ops, log)
    modifies h
    ensures h.Valid() && h.filter == (if op.Swap? then op.rules else old(h.filter))
    ensures Follows(h.encode, old(h.filter), ops, log, op, e)
    ensures Mirrors(h.cache, ops + [op], log + [e])
  {
    ghost var before := h.cache;
    match op
    case Vanish(keys) =>
      h.Evict(keys);
      MirrorsVanish(before, ops, log, keys);
      e := Quiet;
    case Swap(rules) =>
      h.Reload(rules);
      MirrorsSwap(before, ops, log, rules);
      e := Quiet;
    case Query(request, config, world) =>
      AvailableIsCached(before, ops, log, request);
      var reply, via := h.HandleInternal(request, config, world);
      e := Replied(request, reply, via);
      MirrorsQuery(h.cache, before, ops, log, op, e);
  }

  /** The handler after a run: rules, cache and outcomes are in step. */
  ghost predicate OnTrack(h: DnsHandler, filter: RuleSet, ops: seq<Op>, log: seq<Outcome>)
    reads h, h.filter, RuleSetsOf(filter, ops)
  {
    && h.Valid() && h.filter == FilterAfter(filter, ops) && h.filter.Valid()
    && Served(h.encode, filter, ops, log) && Mirrors(h.cache, ops, log)
  }

  /** One more operation of a run. */
  method Advance(h: DnsHandler, ghost filter: RuleSet, op: Op, ghost ops: seq<Op>, log: seq<Outcome>)
    returns (log': seq<Outcome>)
    requires OnTrack(h, filter, ops, log) && RulesReady(op)
    modifies h
    ensures OnTrack(h, filter, ops + [op], log')
  {
    var e := Perform(h, op, ops, log);
    ServedSnoc(h.encode, filter, ops, log, op, e);
    log' := log + [e];
    assert (ops + [op])[..|ops|] == ops;
  }

  /** The operations in order, on a handler with an empty cache. */
  method ServeOn(h: DnsHandler, ops: seq<Op>) returns (log: seq<Outcome>)
    requires OnTrack(h, h.filter, [], [])
    requires forall op :: op in ops ==> RulesReady(op)
    modifies h
    ensures OnTrack(h, old(h.filter), ops, log)
  {
    log := [];
    for i := 0 to |ops|
      invariant OnTrack(h, old(h.filter), ops[..i], log)
      invariant forall op :: op in ops ==> RulesReady(op)
    {
      assert ops[..i + 1] == ops[..i] + [ops[i]];
      assert RulesReady(ops[i]);
      log := Advance(h, old(h.filter), ops[i], ops[..i], log);
    }
    assert ops[..|ops|] == ops;
  }

  /**
   Any run of queries, evictions and rule reloads: every operation has the outcome that follows from
   the rules in force and the answers current when it comes.
   */
  method Serve(encode: Message -> Option<seq<Byte>>, filter: RuleSet, ops: seq<Op>) returns (log: seq<Outcome>)
    requires WireFormat(encode) && filter.Valid()
    requires forall op :: op in ops ==> RulesReady(op)
    ensures Served(encode, filter, ops, log)
    ensures Consistent(ops, log)
  {
    var h := new DnsHandler(encode, filter);
    log := ServeOn(h, ops);
    ServedConsistent(encode, filter, ops, log);
  }
}
