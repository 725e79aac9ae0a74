/**
 TCP connection accounting: the accept loop and the connection tasks as a state machine over
 their individual atomic steps, in any interleaving.
 */
module TcpServer {
  import opened Text

  const MAX_TCP_CONNECTIONS: nat := 256

  /** Where the accept loop stands between taking a permit and spawning the task. */
  datatype Loop = Waiting | HoldsPermit | Counted | Stopped

  /** A task; `Finished` has decremented the counter and not yet dropped its permit. */
  datatype Phase = ReadingLength | ReadingBody | Handling | Finished

  datatype State = State(permits: int, active: int, accepting: Loop, tasks: map<nat, Phase>)

  datatype Action =
    | Acquire                        // accept a connection, permit available
    | Reject                         // accept a connection, no permit left
    | Increment                      // fetch_add
    | Spawn(id: nat)                 // the task takes over the permit
    | Stop                           // shutdown of the accept loop
    | LengthTimeout(id: nat)
    | LengthRead(id: nat, len: nat)  // any 16-bit length; zero ends the connection
    | BodyTimeout(id: nat)
    | BodyRead(id: nat)
    | Handled(id: nat)               // reply written or handler failed
    | Exit(id: nat)                  // the task returns and drops its permit

  const START: State := State(MAX_TCP_CONNECTIONS, 0, Waiting, map[])

  predicate In(s: State, id: nat, phase: Phase) { id in s.tasks && s.tasks[id] == phase }

  predicate Enabled(s: State, a: Action) {
    match a
    case Acquire => s.accepting == Waiting && s.permits > 0
    case Reject => s.accepting == Waiting && s.permits <= 0
    case Increment => s.accepting == HoldsPermit
    case Spawn(id) => s.accepting == Counted && id !in s.tasks
    case Stop => s.accepting == Waiting
    case LengthTimeout(id) => In(s, id, ReadingLength)
    case LengthRead(id, len) => In(s, id, ReadingLength) && len < 0x1_0000
    case BodyTimeout(id) => In(s, id, ReadingBody)
    case BodyRead(id) => In(s, id, ReadingBody)
    case Handled(id) => In(s, id, Handling)
    case Exit(id) => In(s, id, Finished)
  }

  /** Whether the step performs a `fetch_sub`. */
  predicate Decrements(a: Action) {
    match a
    case LengthTimeout(_) => true
    case LengthRead(_, len) => len == 0
    case BodyTimeout(_) => true
    case Handled(_) => true
    case _ => false
  }

  function Finish(s: State, id: nat): State {
    s.(active := s.active - 1, tasks := s.tasks[id := Finished])
  }

  function Step(s: State, a: Action): State
    requires Enabled(s, a)
  {
    match a
    case Acquire => s.(permits := s.permits - 1, accepting := HoldsPermit)
    case Reject => s
    case Increment => s.(active := s.active + 1, accepting := Counted)
    case Spawn(id) => s.(accepting := Waiting, tasks := s.tasks[id := ReadingLength])
    case Stop => s.(accepting := Stopped)
    case LengthTimeout(id) => Finish(s, id)
    case LengthRead(id, len) => if len == 0 then Finish(s, id) else s.(tasks := s.tasks[id := ReadingBody])
    case BodyTimeout(id) => Finish(s, id)
    case BodyRead(id) => s.(tasks := s.tasks[id := Handling])
    case Handled(id) => Finish(s, id)
    case Exit(id) => s.(permits := s.permits + 1, tasks := s.tasks - {id})
  }

  // ----- The invariant -----

  /** Tasks between increment and decrement. */
  function Running(tasks: map<nat, Phase>): set<nat> { set id | id in tasks && tasks[id] != Finished }

  /** Permits out: one per task, and one in the loop's hands while it sets a task up. */
  function Held(s: State): nat {
    |s.tasks| + if s.accepting == HoldsPermit || s.accepting == Counted then 1 else 0
  }

  predicate Accounted(s: State) {
    && s.active == |Running(s.tasks)| + (if s.accepting == Counted then 1 else 0)
    && s.permits + Held(s) == MAX_TCP_CONNECTIONS
    && 0 <= s.permits
  }

  lemma SetPhase(tasks: map<nat, Phase>, id: nat, phase: Phase)
    requires id in tasks
    ensures |tasks[id := phase]| == |tasks|
    ensures |Running(tasks[id := phase])| ==
            |Running(tasks)| - (if tasks[id] != Finished then 1 else 0) + (if phase != Finished then 1 else 0)
  {
    var a, b := Running(tasks), Running(tasks[id := phase]);
    assert tasks[id := phase].Keys == tasks.Keys;
    if tasks[id] != Finished && phase == Finished {
      assert b == a - {id};
    } else if tasks[id] == Finished && phase != Finished {
      assert b == a + {id};
    } else {
      assert b == a;
    }
  }

  lemma AddTask(tasks: map<nat, Phase>, id: nat)
    requires id !in tasks
    ensures |tasks[id := ReadingLength]| == |tasks| + 1
    ensures |Running(tasks[id := ReadingLength])| == |Running(tasks)| + 1
  {
    assert tasks[id := ReadingLength].Keys == tasks.Keys + {id};
    assert Running(tasks[id := ReadingLength]) == Running(tasks) + {id};
  }

  lemma DropTask(tasks: map<nat, Phase>, id: nat)
    requires id in tasks && tasks[id] == Finished
    ensures |tasks - {id}| == |tasks| - 1
    ensures Running(tasks - {id}) == Running(tasks)
  {
    assert (tasks - {id}).Keys == tasks.Keys - {id};
  }

  /** Every step keeps the accounts, and no decrement ever meets a zero counter. */
  lemma StepAccounted(s: State, a: Action)
    requires Accounted(s) && Enabled(s, a)
    ensures Accounted(Step(s, a))
    ensures Decrements(a) ==> s.active > 0
  {
    match a
    case Spawn(id) => AddTask(s.tasks, id);
    case Exit(id) => DropTask(s.tasks, id);
    case LengthTimeout(id) => SetPhase(s.tasks, id, Finished);
    case LengthRead(id, len) => SetPhase(s.tasks, id, if len == 0 then Finished else ReadingBody);
    case BodyTimeout(id) => SetPhase(s.tasks, id, Finished);
    case BodyRead(id) => SetPhase(s.tasks, id, Handling);
    case Handled(id) => SetPhase(s.tasks, id, Finished);
    case _ =>
  }

  // ----- Whole runs -----

  /** The state after the actions, if each is enabled when it happens. */
  function After(actions: seq<Action>): (s: Option<State>) {
    if actions == [] then Some(START)
    else
      match After(actions[..|actions| - 1])
      case None => None
      case Some(s) => if Enabled(s, actions[|actions| - 1]) then Some(Step(s, actions[|actions| - 1])) else None
  }

  lemma {:induction false} RunAccounted(actions: seq<Action>)
    requires After(actions).Some?
    ensures Accounted(After(actions).value)
  {
    if actions != [] {
      RunAccounted(actions[..|actions| - 1]);
      StepAccounted(After(actions[..|actions| - 1]).value, actions[|actions| - 1]);
    }
  }

  lemma RunningWithin(tasks: map<nat, Phase>)
    ensures |Running(tasks)| <= |tasks|
  {
    SubsetSize(Running(tasks), tasks.Keys);
  }

  /**
   In every run: the counter is the number of tasks between increment and decrement (and the
   one being set up), at most the permits held, so at most 256; no decrement underflows; and
   once no task is left and the loop is idle or stopped, the counter is zero and all permits
   are back.
   */
  lemma ConnectionsAccounted(actions: seq<Action>)
    requires After(actions).Some?
    ensures var s := After(actions).value;
            && s.active == |Running(s.tasks)| + (if s.accepting == Counted then 1 else 0)
            && 0 <= s.active <= Held(s) == MAX_TCP_CONNECTIONS - s.permits <= MAX_TCP_CONNECTIONS
            && (forall a :: Enabled(s, a) && Decrements(a) ==> s.active > 0)
            && (s.tasks == map[] && (s.accepting == Waiting || s.accepting == Stopped) ==>
                  s.active == 0 && s.permits == MAX_TCP_CONNECTIONS)
  {
    RunAccounted(actions);
    var s := After(actions).value;
    RunningWithin(s.tasks);
    forall a | Enabled(s, a) && Decrements(a) ensures s.active > 0 {
      StepAccounted(s, a);
    }
    assert s.tasks == map[] ==> Running(s.tasks) == {};
  }

  /** The shutdown wait reads zero exactly when no connection is in flight or being set up. */
  lemma DrainSeesZero(actions: seq<Action>)
    requires After(actions).Some?
    ensures var s := After(actions).value;
            s.active == 0 <==> s.accepting != Counted && forall id :: id in s.tasks ==> s.tasks[id] == Finished
  {
    RunAccounted(actions);
    var s := After(actions).value;
    if forall id :: id in s.tasks ==> s.tasks[id] == Finished {
      assert Running(s.tasks) == {};
    } else {
      var id :| id in s.tasks && s.tasks[id] != Finished;
      assert id in Running(s.tasks);
    }
  }
}
