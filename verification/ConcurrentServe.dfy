/**
 Queries served at the same time: every query is a task of its own, and the tasks' cache lookups,
 upstream answers, cache insertions and replies interleave in any order, with entries vanishing
 from the cache at any moment.
 */
module ConcurrentServe {
  import opened Text
  import opened DnsPipeline

  /** How far a task has come. */
  datatype Stage =
    | Arrived
    | Hit(cached: seq<Byte>)
    | Missed
    | Fetched(answer: seq<Byte>)
    | Saved(answer: seq<Byte>)
    | Ended

  datatype Task = Task(request: Request, stage: Stage)

  datatype Event =
    | Stored(question: Question, data: seq<Byte>)
    | Sent(request: Request, data: seq<Byte>, fromCache: bool)

  datatype State = State(cache: map<string, seq<Byte>>, tasks: map<nat, Task>, log: seq<Event>)

  /** One atomic step of one task, or of the cache. */
  datatype Step =
    | Arrive(id: nat, request: Request)
    | Look(id: nat)
    | Fetch(id: nat, lookup: Lookup)
    | Store(id: nat)
    | Send(id: nat)
    | GiveUp(id: nat)
    | Vanish(keys: set<string>)

  function KeyOf(q: Question): string { CacheKey(q.name, q.qtype) }

  predicate Enabled(encode: Message -> Option<seq<Byte>>, s: State, step: Step) {
    match step
    case Arrive(id, request) => id !in s.tasks && request.queries != []
    case Look(id) => id in s.tasks && s.tasks[id].stage.Arrived? && s.tasks[id].request.queries != []
    case Fetch(id, lookup) =>
      id in s.tasks && s.tasks[id].stage.Missed? && encode(ResponseTo(s.tasks[id].request, lookup)).Some?
    case Store(id) => id in s.tasks && s.tasks[id].stage.Fetched? && s.tasks[id].request.queries != []
    case Send(id) => id in s.tasks && (s.tasks[id].stage.Hit? || s.tasks[id].stage.Saved?)
    case GiveUp(id) => id in s.tasks && (s.tasks[id].stage.Missed? || s.tasks[id].stage.Fetched?)
    case Vanish(keys) => true
  }

  function To(s: State, id: nat, stage: Stage): State
    requires id in s.tasks
  {
    s.(tasks := s.tasks[id := s.tasks[id].(stage := stage)])
  }

  function Apply(encode: Message -> Option<seq<Byte>>, s: State, step: Step): State
    requires Enabled(encode, s, step)
  {
    match step
    case Arrive(id, request) => s.(tasks := s.tasks[id := Task(request, Arrived)])
    case Look(id) =>
      var r := s.tasks[id].request;
      var key := KeyOf(r.queries[0]);
      To(s, id, if key in s.cache then Hit(Patch(s.cache[key], r.id)) else Missed)
    case Fetch(id, lookup) => To(s, id, Fetched(encode(ResponseTo(s.tasks[id].request, lookup)).value))
    case Store(id) =>
      var q, data := s.tasks[id].request.queries[0], s.tasks[id].stage.answer;
      To(s.(cache := s.cache[KeyOf(q) := data], log := s.log + [Stored(q, data)]), id, Saved(data))
    case Send(id) =>
      var t := s.tasks[id];
      var event := Sent(t.request, if t.stage.Hit? then t.stage.cached else t.stage.answer, t.stage.Hit?);
      To(s.(log := s.log + [event]), id, Ended)
    case GiveUp(id) => To(s, id, Ended)
    case Vanish(keys) => s.(cache := s.cache - keys)
  }

  /** The state after a run, if every step was possible. */
  function After(encode: Message -> Option<seq<Byte>>, steps: seq<Step>): Option<State> {
    if steps == [] then Some(State(map[], map[], []))
    else
      var n := |steps| - 1;
      match After(encode, steps[..n])
      case None => None
      case Some(s) => if Enabled(encode, s, steps[n]) then Some(Apply(encode, s, steps[n])) else None
  }

  // ----- The law -----

  /** The event at `j` put this response into the cache for the same folded name and type. */
  predicate StoredFor(log: seq<Event>, j: int, q: Question, data: seq<Byte>) {
    && 0 <= j < |log| && log[j].Stored? && log[j].data == data && |data| >= 12
    && ToLower(log[j].question.name) == ToLower(q.name) && log[j].question.qtype == q.qtype
  }

  /** Some event of the log before `n` did. */
  ghost predicate StoredBefore(log: seq<Event>, n: int, q: Question, data: seq<Byte>) {
    exists j :: j < n && StoredFor(log, j, q, data)
  }

  /** A cached reply is a stored response but for the id. */
  ghost predicate Repeats(log: seq<Event>, n: int, r: Request, reply: seq<Byte>) {
    r.queries != [] && exists data :: StoredBefore(log, n, r.queries[0], data) && reply == Patch(data, r.id)
  }

  /** A fresh reply was stored first, as it is. */
  ghost predicate SentRightly(log: seq<Event>, i: int)
    requires 0 <= i < |log| && log[i].Sent?
  {
    var r, reply := log[i].request, log[i].data;
    && CarriesId(reply, r.id)
    && if log[i].fromCache then Repeats(log, i, r, reply)
       else r.queries != [] && StoredBefore(log, i, r.queries[0], reply)
  }

  ghost predicate Consistent(log: seq<Event>) {
    forall i :: 0 <= i < |log| && log[i].Sent? ==> SentRightly(log, i)
  }

  /** What a task holds is in order: its own id, and for what was looked up or stored, the event. */
  ghost predicate TaskInOrder(log: seq<Event>, t: Task) {
    && t.request.queries != []
    && match t.stage
       case Hit(reply) => CarriesId(reply, t.request.id) && Repeats(log, |log|, t.request, reply)
       case Fetched(data) => CarriesId(data, t.request.id) && |data| >= 12
       case Saved(data) => CarriesId(data, t.request.id) && StoredBefore(log, |log|, t.request.queries[0], data)
       case _ => true
  }

  ghost predicate CacheInOrder(log: seq<Event>, cache: map<string, seq<Byte>>) {
    forall q: Question :: KeyOf(q) in cache ==> StoredBefore(log, |log|, q, cache[KeyOf(q)])
  }

  ghost predicate Inv(s: State) {
    && Consistent(s.log) && CacheInOrder(s.log, s.cache)
    && forall id :: id in s.tasks ==> TaskInOrder(s.log, s.tasks[id])
  }

  lemma StoredGrows(log: seq<Event>, e: Event, n: int, m: int, q: Question, data: seq<Byte>)
    requires StoredBefore(log, n, q, data) && n <= m
    ensures StoredBefore(log + [e], m, q, data)
  {
    var j :| j < n && StoredFor(log, j, q, data);
    assert StoredFor(log + [e], j, q, data);
  }

  lemma RepeatsGrows(log: seq<Event>, e: Event, n: int, m: int, r: Request, reply: seq<Byte>)
    requires Repeats(log, n, r, reply) && n <= m
    ensures Repeats(log + [e], m, r, reply)
  {
    var data :| StoredBefore(log, n, r.queries[0], data) && reply == Patch(data, r.id);
    StoredGrows(log, e, n, m, r.queries[0], data);
  }

  lemma TaskGrows(log: seq<Event>, e: Event, t: Task)
    requires TaskInOrder(log, t)
    ensures TaskInOrder(log + [e], t)
  {
    match t.stage
    case Hit(reply) => RepeatsGrows(log, e, |log|, |log| + 1, t.request, reply);
    case Saved(data) => StoredGrows(log, e, |log|, |log| + 1, t.request.queries[0], data);
    case _ =>
  }

  lemma TasksGrow(log: seq<Event>, e: Event, tasks: map<nat, Task>)
    requires forall id :: id in tasks ==> TaskInOrder(log, tasks[id])
    ensures forall id :: id in tasks ==> TaskInOrder(log + [e], tasks[id])
  {
    forall id | id in tasks ensures TaskInOrder(log + [e], tasks[id]) { TaskGrows(log, e, tasks[id]); }
  }

  lemma CacheGrows(log: seq<Event>, e: Event, cache: map<string, seq<Byte>>)
    requires CacheInOrder(log, cache)
    ensures CacheInOrder(log + [e], cache)
  {
    forall q: Question | KeyOf(q) in cache ensures StoredBefore(log + [e], |log| + 1, q, cache[KeyOf(q)]) {
      StoredGrows(log, e, |log|, |log| + 1, q, cache[KeyOf(q)]);
    }
  }

  lemma SentGrows(log: seq<Event>, e: Event, i: int)
    requires 0 <= i < |log| && log[i].Sent? && SentRightly(log, i)
    ensures SentRightly(log + [e], i)
  {
    var r, reply := log[i].request, log[i].data;
    if log[i].fromCache {
      RepeatsGrows(log, e, i, i, r, reply);
    } else {
      StoredGrows(log, e, i, i, r.queries[0], reply);
    }
  }

  lemma ConsistentGrows(log: seq<Event>, e: Event)
    requires Consistent(log)
    requires e.Sent? ==> SentRightly(log + [e], |log|)
    ensures Consistent(log + [e])
  {
    forall i | 0 <= i < |log + [e]| && (log + [e])[i].Sent? ensures SentRightly(log + [e], i) {
      if i < |log| { SentGrows(log, e, i); }
    }
  }

  /** One task changes stage, and is in order there. */
  lemma Moved(s: State, id: nat, stage: Stage)
    requires Inv(s) && id in s.tasks && TaskInOrder(s.log, Task(s.tasks[id].request, stage))
    ensures Inv(To(s, id, stage))
  {
  }

  lemma LookKeeps(s: State, id: nat)
    requires Inv(s) && id in s.tasks && s.tasks[id].stage.Arrived?
    ensures var r := s.tasks[id].request;
            r.queries != [] &&
            var key := KeyOf(r.queries[0]);
            Inv(To(s, id, if key in s.cache then Hit(Patch(s.cache[key], r.id)) else Missed))
  {
    assert TaskInOrder(s.log, s.tasks[id]);
    var r := s.tasks[id].request;
    var q := r.queries[0];
    if KeyOf(q) in s.cache {
      var data := s.cache[KeyOf(q)];
      assert StoredBefore(s.log, |s.log|, q, data);
      var j :| j < |s.log| && StoredFor(s.log, j, q, data);
      assert Repeats(s.log, |s.log|, r, Patch(data, r.id));
      Moved(s, id, Hit(Patch(data, r.id)));
    } else {
      Moved(s, id, Missed);
    }
  }

  lemma StoreKeeps(s: State, id: nat)
    requires Inv(s) && id in s.tasks && s.tasks[id].stage.Fetched?
    ensures s.tasks[id].request.queries != []
    ensures var q, data := s.tasks[id].request.queries[0], s.tasks[id].stage.answer;
            Inv(To(s.(cache := s.cache[KeyOf(q) := data], log := s.log + [Stored(q, data)]), id, Saved(data)))
  {
    assert TaskInOrder(s.log, s.tasks[id]);
    var q, data := s.tasks[id].request.queries[0], s.tasks[id].stage.answer;
    var e := Stored(q, data);
    var log, cache := s.log + [e], s.cache[KeyOf(q) := data];
    ConsistentGrows(s.log, e);
    TasksGrow(s.log, e, s.tasks);
    CacheGrows(s.log, e, s.cache);
    forall p: Question | KeyOf(p) in cache ensures StoredBefore(log, |log|, p, cache[KeyOf(p)]) {
      if KeyOf(p) == KeyOf(q) {
        CacheKeyInjective(p.name, p.qtype, q.name, q.qtype);
        assert StoredFor(log, |s.log|, p, data);
      }
    }
    assert StoredFor(log, |s.log|, q, data);
    Moved(s.(cache := cache, log := log), id, Saved(data));
  }

  lemma SendKeeps(s: State, id: nat)
    requires Inv(s) && id in s.tasks && (s.tasks[id].stage.Hit? || s.tasks[id].stage.Saved?)
    ensures var t := s.tasks[id];
            var event := Sent(t.request, if t.stage.Hit? then t.stage.cached else t.stage.answer, t.stage.Hit?);
            Inv(To(s.(log := s.log + [event]), id, Ended))
  {
    var t := s.tasks[id];
    assert TaskInOrder(s.log, t);
    var e := Sent(t.request, if t.stage.Hit? then t.stage.cached else t.stage.answer, t.stage.Hit?);
    if t.stage.Hit? {
      RepeatsGrows(s.log, e, |s.log|, |s.log|, t.request, t.stage.cached);
    } else {
      StoredGrows(s.log, e, |s.log|, |s.log|, t.request.queries[0], t.stage.answer);
    }
    assert SentRightly(s.log + [e], |s.log|);
    ConsistentGrows(s.log, e);
    TasksGrow(s.log, e, s.tasks);
    CacheGrows(s.log, e, s.cache);
    Moved(s.(log := s.log + [e]), id, Ended);
  }

  /** Every step keeps the invariant. */
  lemma StepKeeps(encode: Message -> Option<seq<Byte>>, s: State, step: Step)
    requires WireFormat(encode) && Inv(s) && Enabled(encode, s, step)
    ensures Inv(Apply(encode, s, step))
  {
    match step
    case Arrive(id, request) =>
    case Look(id) => LookKeeps(s, id);
    case Fetch(id, lookup) => FetchKeeps(encode, s, id, lookup);
    case Store(id) => StoreKeeps(s, id);
    case Send(id) => SendKeeps(s, id);
    case GiveUp(id) =>
      assert TaskInOrder(s.log, s.tasks[id]);
      Moved(s, id, Ended);
    case Vanish(keys) =>
  }

  lemma FetchKeeps(encode: Message -> Option<seq<Byte>>, s: State, id: nat, lookup: Lookup)
    requires WireFormat(encode) && Inv(s) && id in s.tasks && s.tasks[id].stage.Missed?
    requires encode(ResponseTo(s.tasks[id].request, lookup)).Some?
    ensures Inv(To(s, id, Fetched(encode(ResponseTo(s.tasks[id].request, lookup)).value)))
  {
    assert TaskInOrder(s.log, s.tasks[id]);
    var m := ResponseTo(s.tasks[id].request, lookup);
    assert CarriesId(encode(m).value, m.id);
    Moved(s, id, Fetched(encode(m).value));
  }

  /**
   Over every interleaving: each reply carries its own request's id; a reply from the cache repeats,
   but for the id, a response some task stored before for the same folded name and type; any other
   reply was stored before it was sent.
   */
  lemma {:induction false} RepliesConsistent(encode: Message -> Option<seq<Byte>>, steps: seq<Step>)
    requires WireFormat(encode) && After(encode, steps).Some?
    ensures Inv(After(encode, steps).value) && Consistent(After(encode, steps).value.log)
  {
    if steps != [] {
      var n := |steps| - 1;
      RepliesConsistent(encode, steps[..n]);
      StepKeeps(encode, After(encode, steps[..n]).value, steps[n]);
    }
  }
}
