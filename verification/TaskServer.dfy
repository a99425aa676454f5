/** The A2A task store. Every lock section of a request handler is one atomic step;
    between two sections of one request any other request may run. */
module TaskServer {
  import opened Wrappers

  type TaskId = string

  datatype TaskStatus = Submitted | Working | InputRequired | Completed | Failed | Canceled {
    predicate IsTerminal() { Completed? || Failed? || Canceled? }
  }

  datatype StatusEvent = StatusEvent(status: TaskStatus, note: Option<string>)

  datatype MessageRole = User | Agent

  datatype Message = Message(role: MessageRole, text: string)

  /** A task is a value: handlers work on clones and store the clone back. */
  datatype Task = Task(
    id: TaskId,
    sessionId: Option<string>,
    status: TaskStatus,
    messages: seq<Message>,
    artifacts: seq<string>,
    history: seq<StatusEvent>)
  {
    static function New(id: TaskId, message: Message): Task {
      Task(id, None, Submitted, [message], [], [StatusEvent(Submitted, None)])
    }

    function TransitionTo(status: TaskStatus, note: Option<string>): Task {
      this.(history := history + [StatusEvent(status, note)], status := status)
    }

    function AddMessage(message: Message): Task {
      this.(messages := messages + [message])
    }

    predicate IsTerminal() { status.IsTerminal() }
  }

  /** History starts with Submitted, ends with the current status, and holds a terminal
      status at its end only. */
  ghost predicate Lifecycle(t: Task) {
    && |t.history| > 0
    && t.history[0].status == Submitted
    && t.history[|t.history| - 1].status == t.status
    && forall i :: 0 <= i < |t.history| - 1 ==> !t.history[i].status.IsTerminal()
  }

  /** `u` is `t` with messages, artifacts and history entries added at the end. */
  ghost predicate Appends(t: Task, u: Task) {
    u.id == t.id && t.messages <= u.messages && t.artifacts <= u.artifacts && t.history <= u.history
  }

  /** What a task handler may return for `t`: additions only, recorded in the history, with
      at most one terminal status, which comes last. */
  ghost predicate HandlerMayReturn(t: Task, u: Task) {
    && Appends(t, u)
    && |u.history| > 0 && u.history[|u.history| - 1].status == u.status
    && forall i :: |t.history| <= i < |u.history| - 1 ==> !u.history[i].status.IsTerminal()
  }

  // ---- What each lock section computes ----

  const TASK_NOT_FOUND := -32001
  const TASK_TERMINAL := -32002

  datatype Response = Success(task: Task) | Error(code: int, id: TaskId)

  /** The two endpoints that run a handler: `tasks/send`, and the event stream. */
  datatype Route = Send | Stream

  function Begin(t: Task, route: Route): Task {
    t.TransitionTo(Working, Some(if route.Send? then "Handler invoked" else "Streaming handler invoked"))
  }

  /** The read-locked lookup of an existing task: refused when unknown or terminal,
      otherwise a clone with the new message. */
  function Resume(tasks: map<TaskId, Task>, id: TaskId, message: Message, route: Route): Result<Task, Response> {
    if id !in tasks then Err(Error(TASK_NOT_FOUND, id))
    else if tasks[id].IsTerminal() then Err(Error(TASK_TERMINAL, id))
    else Ok(Begin(tasks[id].AddMessage(message), route))
  }

  function Create(id: TaskId, sessionId: Option<string>, message: Message, route: Route): Task {
    Begin(Task.New(id, message).(sessionId := sessionId), route)
  }

  /** The task stored when the handler reports an error. */
  function Fail(t: Task, error: string): Task {
    t.TransitionTo(Failed, Some(error)).AddMessage(Message(Agent, "Error: " + error))
  }

  function Outcome(t: Task, result: Result<Task, string>): Task {
    match result
    case Ok(updated) => updated
    case Err(error) => Fail(t, error)
  }

  function Cancelled(tasks: map<TaskId, Task>, id: TaskId): Result<Task, Response> {
    if id !in tasks then Err(Error(TASK_NOT_FOUND, id))
    else if tasks[id].IsTerminal() then Err(Error(TASK_TERMINAL, id))
    else Ok(tasks[id].TransitionTo(Canceled, Some("Canceled by caller")))
  }

  function Put(tasks: map<TaskId, Task>, t: Task): map<TaskId, Task> {
    tasks[t.id := t]
  }

  // ---- What a client may rely on ----

  /** A continued task is the stored one with the message and a Working event at the end. */
  ghost predicate Continued(stored: Task, message: Message, note: string, given: Task) {
    given == stored.(messages := stored.messages + [message],
                     status := Working,
                     history := stored.history + [StatusEvent(Working, Some(note))])
  }

  ghost predicate Opened(id: TaskId, sessionId: Option<string>, message: Message, note: string, given: Task) {
    given == Task(id, sessionId, Working, [message], [], [StatusEvent(Submitted, None), StatusEvent(Working, Some(note))])
  }

  /** A failed task keeps everything it had, and shows the error to the client and in its history. */
  ghost predicate FailedWith(given: Task, error: string, failed: Task) {
    failed == given.(messages := given.messages + [Message(Agent, "Error: " + error)],
                     status := Failed,
                     history := given.history + [StatusEvent(Failed, Some(error))])
  }

  ghost predicate CanceledFrom(stored: Task, canceled: Task) {
    canceled == stored.(status := Canceled, history := stored.history + [StatusEvent(Canceled, Some("Canceled by caller"))])
  }

  ghost predicate Ended(t: Task) {
    t.status in {Completed, Failed, Canceled}
  }

  // ---- The handlers, run without interruption ----

  class A2AServer {
    var tasks: map<TaskId, Task>

    constructor ()
      ensures tasks == map[]
    {
      tasks := map[];
    }

    method HandleSendTask(taskId: Option<TaskId>, freshId: TaskId, sessionId: Option<string>, message: Message,
                          handler: Task -> Result<Task, string>) returns (response: Response, ghost given: Task)
      modifies this
      ensures taskId.Some? && taskId.value !in old(tasks) ==>
                response == Error(-32001, taskId.value) && tasks == old(tasks)
      ensures taskId.Some? && taskId.value in old(tasks) && Ended(old(tasks)[taskId.value]) ==>
                response == Error(-32002, taskId.value) && tasks == old(tasks)
      ensures taskId.Some? && taskId.value in old(tasks) && !Ended(old(tasks)[taskId.value]) ==>
                response.Success? && Continued(old(tasks)[taskId.value], message, "Handler invoked", given)
      ensures taskId.None? ==> response.Success? && Opened(freshId, sessionId, message, "Handler invoked", given)
      ensures response.Success? ==> tasks == old(tasks)[given.id := given][response.task.id := response.task]
      ensures response.Success? && handler(given).Ok? ==> response.task == handler(given).value
      ensures response.Success? && handler(given).Err? ==> FailedWith(given, handler(given).error, response.task)
      ensures tasks == Sent(old(tasks), taskId, freshId, sessionId, message, handler).0
      ensures response == Sent(old(tasks), taskId, freshId, sessionId, message, handler).1
    {
      var task;
      given := Create(freshId, sessionId, message, Send);
      if taskId.Some? {
        match Resume(tasks, taskId.value, message, Send) {
          case Err(refusal) => return refusal, given;
          case Ok(t) => task := t;
        }
      } else {
        task := Create(freshId, sessionId, message, Send);
      }
      given := task;
      tasks := Put(tasks, task);
      match handler(task) {
        case Ok(updated) =>
          tasks := Put(tasks, updated);
          response := Success(updated);
        case Err(error) =>
          task := task.TransitionTo(Failed, Some(error));
          task := task.AddMessage(Message(Agent, "Error: " + error));
          tasks := Put(tasks, task);
          response := Success(task);
      }
    }

    method HandleCancelTask(id: TaskId) returns (response: Response)
      modifies this
      ensures tasks == Exec(Server(old(tasks), map[]), [Cancel(id)]).tasks
      ensures response.Success? <==> id in old(tasks) && !Ended(old(tasks)[id])
      ensures id !in old(tasks) ==> response == Error(-32001, id) && tasks == old(tasks)
      ensures id in old(tasks) && Ended(old(tasks)[id]) ==> response == Error(-32002, id) && tasks == old(tasks)
      ensures response.Success? ==> tasks == old(tasks)[id := response.task] && CanceledFrom(old(tasks)[id], response.task)
    {
      match Cancelled(tasks, id) {
        case Err(refusal) => return refusal;
        case Ok(t) =>
          tasks := tasks[id := t];
          response := Success(t);
      }
    }
  }

  /** Store and response of one uninterrupted `tasks/send`. */
  function Sent(tasks: map<TaskId, Task>, taskId: Option<TaskId>, freshId: TaskId, sessionId: Option<string>,
                message: Message, handler: Task -> Result<Task, string>): (map<TaskId, Task>, Response)
  {
    var begun := if taskId.Some? then Resume(tasks, taskId.value, message, Send)
                 else Ok(Create(freshId, sessionId, message, Send));
    match begun
    case Err(refusal) => (tasks, refusal)
    case Ok(t) =>
      var result := Outcome(t, handler(t));
      (Put(Put(tasks, t), result), Success(result))
  }

  // ---- Interleaved requests ----

  /** A request that holds a clone: about to store it as Working, or running its handler. */
  datatype Op = Prepared(task: Task) | Running(task: Task)

  datatype Server = Server(tasks: map<TaskId, Task>, ops: map<nat, Op>)

  datatype Step =
    | LookUp(op: nat, id: TaskId, message: Message, route: Route)
    | Open(op: nat, id: TaskId, sessionId: Option<string>, message: Message, route: Route)
    | StoreWorking(op: nat)
    | Finish(op: nat, result: Result<Task, string>)
    | Cancel(id: TaskId)

  ghost predicate InFlight(s: Server, id: TaskId) {
    exists o :: o in s.ops && s.ops[o].task.id == id
  }

  /** A step may happen: request numbers and new task ids are fresh, and handlers keep their contract. */
  ghost predicate Enabled(s: Server, step: Step) {
    match step
    case LookUp(op, _, _, _) => op !in s.ops
    case Open(op, id, _, _, _) => op !in s.ops && id !in s.tasks && !InFlight(s, id)
    case StoreWorking(op) => op in s.ops && s.ops[op].Prepared?
    case Finish(op, result) =>
      op in s.ops && s.ops[op].Running? && (result.Ok? ==> HandlerMayReturn(s.ops[op].task, result.value))
    case Cancel(_) => true
  }

  function Apply(s: Server, step: Step): Server {
    match step
    case LookUp(op, id, message, route) =>
      (match Resume(s.tasks, id, message, route)
       case Ok(t) => s.(ops := s.ops[op := Prepared(t)])
       case Err(_) => s)
    case Open(op, id, sessionId, message, route) => s.(ops := s.ops[op := Prepared(Create(id, sessionId, message, route))])
    case StoreWorking(op) =>
      if op in s.ops then Server(Put(s.tasks, s.ops[op].task), s.ops[op := Running(s.ops[op].task)]) else s
    case Finish(op, result) =>
      if op in s.ops then Server(Put(s.tasks, Outcome(s.ops[op].task, result)), s.ops - {op}) else s
    case Cancel(id) =>
      (match Cancelled(s.tasks, id)
       case Ok(t) => s.(tasks := s.tasks[id := t])
       case Err(_) => s)
  }

  function Exec(s: Server, steps: seq<Step>): Server
    decreases |steps|
  {
    if steps == [] then s else Exec(Apply(s, steps[0]), steps[1..])
  }

  ghost predicate Legal(s: Server, steps: seq<Step>)
    decreases |steps|
  {
    steps == [] || (Enabled(s, steps[0]) && Legal(Apply(s, steps[0]), steps[1..]))
  }

  const Start := Server(map[], map[])

  /** Stored tasks sit under their own id with a proper lifecycle; clones in flight are Working. */
  ghost predicate Consistent(s: Server) {
    && (forall id :: id in s.tasks ==> s.tasks[id].id == id && Lifecycle(s.tasks[id]))
    && (forall o :: o in s.ops ==> Lifecycle(s.ops[o].task) && s.ops[o].task.status == Working)
  }

  lemma BeginKeepsLifecycle(t: Task, route: Route)
    requires Lifecycle(t) && !t.IsTerminal()
    ensures Lifecycle(Begin(t, route)) && Begin(t, route).status == Working
    ensures forall m: Message :: Lifecycle(t.AddMessage(m))
  {}

  lemma StepKeepsStored(s: Server, step: Step)
    requires Consistent(s) && Enabled(s, step)
    ensures forall id :: id in Apply(s, step).tasks ==>
              Apply(s, step).tasks[id].id == id && Lifecycle(Apply(s, step).tasks[id])
  {
    if step.Finish? && step.result.Ok? {
      HandlerKeepsLifecycle(s.ops[step.op].task, step.result.value);
    }
  }

  lemma StepKeepsConsistent(s: Server, step: Step)
    requires Consistent(s) && Enabled(s, step)
    ensures Consistent(Apply(s, step))
  {
    StepKeepsStored(s, step);
    match step
    case LookUp(op, id, message, route) =>
      if Resume(s.tasks, id, message, route).Ok? {
        BeginKeepsLifecycle(s.tasks[id], route);
        BeginKeepsLifecycle(s.tasks[id].AddMessage(message), route);
      }
    case Open(op, id, sessionId, message, route) =>
      BeginKeepsLifecycle(Task.New(id, message).(sessionId := sessionId), route);
    case _ =>
  }

  lemma HandlerKeepsLifecycle(t: Task, u: Task)
    requires Lifecycle(t) && !t.IsTerminal() && HandlerMayReturn(t, u)
    ensures Lifecycle(u)
  {
    forall i | 0 <= i < |u.history| - 1 ensures !u.history[i].status.IsTerminal() {
      if i < |t.history| { assert u.history[i] == t.history[i]; }
    }
    assert u.history[0] == t.history[0];
  }

  lemma {:induction false} EveryRunKeepsLifecycles(s: Server, steps: seq<Step>)
    requires Consistent(s) && Legal(s, steps)
    ensures Consistent(Exec(s, steps))
    decreases |steps|
  {
    if steps != [] {
      StepKeepsConsistent(s, steps[0]);
      EveryRunKeepsLifecycles(Apply(s, steps[0]), steps[1..]);
    }
  }

  /** Whatever the interleaving of requests, every stored task keeps its lifecycle. */
  lemma ReachableLifecycles(steps: seq<Step>, id: TaskId)
    requires Legal(Start, steps) && id in Exec(Start, steps).tasks
    ensures Lifecycle(Exec(Start, steps).tasks[id]) && Exec(Start, steps).tasks[id].id == id
  {
    EveryRunKeepsLifecycles(Start, steps);
  }

  // ---- What interleaved requests hand to the handler ----

  ghost function NoteOf(route: Route): string {
    if route == Send then "Handler invoked" else "Streaming handler invoked"
  }

  /** Request `op` does not reach its end in these steps. */
  ghost predicate Unfinished(op: nat, steps: seq<Step>) {
    forall i :: 0 <= i < |steps| ==> !(steps[i].Finish? && steps[i].op == op)
  }

  lemma {:induction false} CloneIsPrivate(s: Server, op: nat, steps: seq<Step>)
    requires op in s.ops && Legal(s, steps) && Unfinished(op, steps)
    ensures op in Exec(s, steps).ops && Exec(s, steps).ops[op].task == s.ops[op].task
    decreases |steps|
  {
    if steps != [] {
      assert !(steps[0].Finish? && steps[0].op == op);
      CloneIsPrivate(Apply(s, steps[0]), op, steps[1..]);
    }
  }

  /** Whatever else runs in between, the clone that a request on a known task stores and
      hands to its handler is the task it found, with its own message added. */
  lemma ContinuedTaskHasMessage(s: Server, op: nat, id: TaskId, message: Message, route: Route, between: seq<Step>)
    requires op !in s.ops && id in s.tasks && !Ended(s.tasks[id])
    requires Legal(s, [LookUp(op, id, message, route)] + between) && Unfinished(op, between)
    ensures var s' := Exec(s, [LookUp(op, id, message, route)] + between);
            && op in s'.ops && Continued(s.tasks[id], message, NoteOf(route), s'.ops[op].task)
            && (s'.ops[op].Prepared? ==>
                  var s'' := Apply(s', StoreWorking(op));
                  s'.ops[op].task.id in s''.tasks && s''.tasks[s'.ops[op].task.id] == s'.ops[op].task)
  {
    var first := LookUp(op, id, message, route);
    assert ([first] + between)[1..] == between;
    CloneIsPrivate(Apply(s, first), op, between);
  }

  /** The same for a new task, which carries its session and nothing but the message. */
  lemma OpenedTaskHasMessage(s: Server, op: nat, id: TaskId, sessionId: Option<string>, message: Message, route: Route, between: seq<Step>)
    requires Legal(s, [Open(op, id, sessionId, message, route)] + between) && Unfinished(op, between)
    ensures var s' := Exec(s, [Open(op, id, sessionId, message, route)] + between);
            && op in s'.ops && Opened(id, sessionId, message, NoteOf(route), s'.ops[op].task)
            && (s'.ops[op].Prepared? ==>
                  var s'' := Apply(s', StoreWorking(op));
                  id in s''.tasks && s''.tasks[id] == s'.ops[op].task)
  {
    var first := Open(op, id, sessionId, message, route);
    assert ([first] + between)[1..] == between;
    CloneIsPrivate(Apply(s, first), op, between);
  }

  /** A finishing request stores what its handler made of the clone: the result, or the
      clone marked as failed with the error. Nothing else in the store changes. */
  lemma FinishStoresOutcome(s: Server, op: nat, result: Result<Task, string>) returns (stored: Task)
    requires op in s.ops
    ensures Apply(s, Finish(op, result)).tasks == s.tasks[stored.id := stored]
    ensures op !in Apply(s, Finish(op, result)).ops
    ensures result.Ok? ==> stored == result.value
    ensures result.Err? ==> FailedWith(s.ops[op].task, result.error, stored)
  {
    stored := if result.Ok? then result.value else Fail(s.ops[op].task, result.error);
  }

  /** Lookups are refused, and cancels ignored, exactly for unknown and for ended tasks. */
  lemma RefusedIffUnknownOrEnded(s: Server, op: nat, id: TaskId, message: Message, route: Route)
    requires op !in s.ops
    ensures Apply(s, LookUp(op, id, message, route)) == s <==> id !in s.tasks || Ended(s.tasks[id])
    ensures Apply(s, Cancel(id)) == s <==> id !in s.tasks || Ended(s.tasks[id])
    ensures id in s.tasks && !Ended(s.tasks[id]) ==> CanceledFrom(s.tasks[id], Apply(s, Cancel(id)).tasks[id])
  {
    if id in s.tasks && !Ended(s.tasks[id]) {
      assert op in Apply(s, LookUp(op, id, message, route)).ops;
      assert |Apply(s, Cancel(id)).tasks[id].history| == |s.tasks[id].history| + 1;
    }
  }

  // ---- When a terminal task is frozen ----

  /** No continuation changes the stored task. */
  ghost predicate Frozen(s: Server, id: TaskId)
    requires id in s.tasks
  {
    forall steps :: Legal(s, steps) ==>
      var s' := Exec(s, steps);
      id in s'.tasks && s'.tasks[id] == s.tasks[id]
  }

  lemma {:induction false} IdleTerminalStays(s: Server, id: TaskId, steps: seq<Step>)
    requires Consistent(s) && id in s.tasks && s.tasks[id].IsTerminal() && !InFlight(s, id)
    requires Legal(s, steps)
    ensures id in Exec(s, steps).tasks && Exec(s, steps).tasks[id] == s.tasks[id]
    decreases |steps|
  {
    if steps != [] {
      var s' := Apply(s, steps[0]);
      StepKeepsConsistent(s, steps[0]);
      forall o | o in s'.ops ensures s'.ops[o].task.id != id {
        assert o in s.ops ==> s.ops[o].task.id != id;
      }
      IdleTerminalStays(s', id, steps[1..]);
    }
  }

  lemma ExecOne(s: Server, step: Step)
    ensures Exec(s, [step]) == Apply(s, step)
    ensures Legal(s, [step]) <==> Enabled(s, step)
  {
    assert Legal(Apply(s, step), []);
  }

  /** An operation still in flight can overwrite the terminal task with its next step. */
  lemma InFlightOverwrites(s: Server, id: TaskId, o: nat) returns (step: Step)
    requires Consistent(s) && id in s.tasks && s.tasks[id].IsTerminal()
    requires o in s.ops && s.ops[o].task.id == id
    ensures Enabled(s, step) && id in Apply(s, step).tasks && Apply(s, step).tasks[id] != s.tasks[id]
  {
    match s.ops[o]
    case Prepared(t) =>
      step := StoreWorking(o);
    case Running(t) =>
      step := Finish(o, Err("a"));
      if Apply(s, step).tasks[id] == s.tasks[id] {
        step := Finish(o, Err("b"));
        assert Fail(t, "a").history[|t.history|] != Fail(t, "b").history[|t.history|];
      }
  }

  /** A terminal task is safe from change exactly when no operation on it is in flight. */
  lemma FrozenIffIdle(s: Server, id: TaskId)
    requires Consistent(s) && id in s.tasks && s.tasks[id].IsTerminal()
    ensures Frozen(s, id) <==> !InFlight(s, id)
  {
    if InFlight(s, id) {
      var o :| o in s.ops && s.ops[o].task.id == id;
      var step := InFlightOverwrites(s, id, o);
      ExecOne(s, step);
      assert Legal(s, [step]);
    } else {
      forall steps | Legal(s, steps)
        ensures id in Exec(s, steps).tasks && Exec(s, steps).tasks[id] == s.tasks[id]
      {
        IdleTerminalStays(s, id, steps);
      }
    }
  }

  /** Every continuation keeps the task stored and terminal. */
  ghost predicate StaysTerminal(s: Server, id: TaskId) {
    forall steps :: Legal(s, steps) ==> id in Exec(s, steps).tasks && Exec(s, steps).tasks[id].IsTerminal()
  }

  /** An operation still in flight can leave the terminal task Working with its next step. */
  lemma InFlightReopens(s: Server, id: TaskId, o: nat) returns (step: Step)
    requires Consistent(s) && o in s.ops && s.ops[o].task.id == id
    ensures Enabled(s, step) && id in Apply(s, step).tasks && Apply(s, step).tasks[id].status == Working
  {
    match s.ops[o]
    case Prepared(t) => step := StoreWorking(o);
    case Running(t) => step := Finish(o, Ok(t));
  }

  /** A terminal task is certain to stay terminal exactly when no operation on it is in flight. */
  lemma StaysTerminalIffIdle(s: Server, id: TaskId)
    requires Consistent(s) && id in s.tasks && s.tasks[id].IsTerminal()
    ensures StaysTerminal(s, id) <==> !InFlight(s, id)
  {
    if InFlight(s, id) {
      var o :| o in s.ops && s.ops[o].task.id == id;
      var step := InFlightReopens(s, id, o);
      ExecOne(s, step);
      assert Legal(s, [step]) && !Exec(s, [step]).tasks[id].IsTerminal();
    } else {
      FrozenIffIdle(s, id);
    }
  }

  /** Terminal is not absorbing in general: of two handlers that finish after a cancel, one
      returns the task as it got it and so reopens it, the other turns it into a completed one. */
  lemma CancelCanBeOverwritten(m: Message) returns (before: seq<Step>, reopens: Step, completes: Step)
    ensures var s := Exec(Start, before);
            && Legal(Start, before) && Enabled(s, reopens) && Enabled(s, completes)
            && "t" in s.tasks && s.tasks["t"].status == Canceled
            && "t" in Apply(s, reopens).tasks && Apply(s, reopens).tasks["t"].status == Working
            && "t" in Apply(s, completes).tasks && Apply(s, completes).tasks["t"].status == Completed
  {
    var begun := Create("t", None, m, Send);
    var s1 := Apply(Start, Open(0, "t", None, m, Send));
    var s2 := Apply(s1, StoreWorking(0));
    var s3 := Apply(s2, Cancel("t"));
    before := [Open(0, "t", None, m, Send), StoreWorking(0), Cancel("t")];
    reopens := Finish(0, Ok(begun));
    completes := Finish(0, Ok(begun.TransitionTo(Completed, None)));
    assert before[1..] == [StoreWorking(0), Cancel("t")] && before[1..][1..] == [Cancel("t")];
    ExecOne(s2, Cancel("t"));
    assert s3 == Exec(s1, before[1..]) == Exec(Start, before);
  }

  // ---- Serialised operations ----

  /** Operations on one id do not overlap: one starts only when none is in flight. */
  ghost predicate SerialStep(s: Server, step: Step) {
    match step
    case LookUp(_, id, _, _) => !InFlight(s, id)
    case Cancel(id) => !InFlight(s, id)
    case _ => true
  }

  ghost predicate SerialRun(s: Server, steps: seq<Step>)
    decreases |steps|
  {
    steps == [] || (SerialStep(s, steps[0]) && SerialRun(Apply(s, steps[0]), steps[1..]))
  }

  /** At most one operation per id is in flight. */
  ghost predicate Exclusive(s: Server) {
    forall o, o' :: o in s.ops && o' in s.ops && s.ops[o].task.id == s.ops[o'].task.id ==> o == o'
  }

  /** A clone in flight continues the stored task, if there is one, which is not terminal. */
  ghost predicate Continues(s: Server, op: Op) {
    && (op.Running? ==> op.task.id in s.tasks)
    && (op.task.id in s.tasks ==> !s.tasks[op.task.id].IsTerminal() && Appends(s.tasks[op.task.id], op.task))
  }

  ghost predicate Serial(s: Server) {
    Exclusive(s) && forall o :: o in s.ops ==> Continues(s, s.ops[o])
  }

  /** `u` is `t` grown at the end, or unchanged if `t` was terminal. */
  ghost predicate Advanced(t: Task, u: Task) {
    Appends(t, u) && (t.IsTerminal() ==> u == t)
  }

  /** Every stored task is still stored and has only advanced. */
  ghost predicate Advances(s: Server, s': Server) {
    forall id :: id in s.tasks ==> id in s'.tasks && Advanced(s.tasks[id], s'.tasks[id])
  }

  lemma AdvancesTransitive(s: Server, s': Server, s'': Server)
    requires Advances(s, s') && Advances(s', s'')
    ensures Advances(s, s'')
  {}

  lemma SerialStepAdvances(s: Server, step: Step)
    requires Consistent(s) && Serial(s) && Enabled(s, step) && SerialStep(s, step)
    ensures Advances(s, Apply(s, step))
  {}

  lemma StepStaysExclusive(s: Server, step: Step)
    requires Serial(s) && Enabled(s, step) && SerialStep(s, step) && Consistent(s)
    ensures Exclusive(Apply(s, step))
  {
    match step
    case LookUp(op, id, message, route) =>
      assert forall o :: o in s.ops ==> s.ops[o].task.id != id;
    case Open(op, id, _, _, _) =>
      assert forall o :: o in s.ops ==> s.ops[o].task.id != id;
    case _ =>
  }

  lemma StepStaysContinuing(s: Server, step: Step)
    requires Serial(s) && Enabled(s, step) && SerialStep(s, step) && Consistent(s)
    ensures forall o :: o in Apply(s, step).ops ==> Continues(Apply(s, step), Apply(s, step).ops[o])
  {
    var s' := Apply(s, step);
    forall o | o in s'.ops ensures Continues(s', s'.ops[o]) {
      assert o in s.ops ==> Continues(s, s.ops[o]);
    }
  }

  lemma {:induction false} SerialRunAdvances(s: Server, steps: seq<Step>)
    requires Consistent(s) && Serial(s) && Legal(s, steps) && SerialRun(s, steps)
    ensures Consistent(Exec(s, steps)) && Serial(Exec(s, steps)) && Advances(s, Exec(s, steps))
    decreases |steps|
  {
    if steps != [] {
      var s' := Apply(s, steps[0]);
      StepKeepsConsistent(s, steps[0]);
      SerialStepAdvances(s, steps[0]);
      StepStaysExclusive(s, steps[0]);
      StepStaysContinuing(s, steps[0]);
      SerialRunAdvances(s', steps[1..]);
      AdvancesTransitive(s, s', Exec(s', steps[1..]));
    }
  }

  lemma {:induction false} RunsCompose(s: Server, before: seq<Step>, after: seq<Step>)
    ensures Exec(s, before + after) == Exec(Exec(s, before), after)
    ensures Legal(s, before + after) <==> Legal(s, before) && Legal(Exec(s, before), after)
    ensures SerialRun(s, before + after) <==> SerialRun(s, before) && SerialRun(Exec(s, before), after)
    decreases |before|
  {
    if before == [] {
      assert before + after == after;
    } else {
      assert (before + after)[1..] == before[1..] + after;
      RunsCompose(Apply(s, before[0]), before[1..], after);
    }
  }

  /** When operations on each id are serialised, then from any point of a run to any later
      one terminal tasks stay as they are, and messages, artifacts and history only grow. */
  lemma SerialRunsAbsorb(before: seq<Step>, after: seq<Step>)
    requires Legal(Start, before + after) && SerialRun(Start, before + after)
    ensures Advances(Exec(Start, before), Exec(Start, before + after))
  {
    RunsCompose(Start, before, after);
    SerialRunAdvances(Start, before);
    SerialRunAdvances(Exec(Start, before), after);
  }

  /** An uninterrupted `tasks/send` is the three-step operation run on its own. */
  lemma SendIsSerialRun(tasks: map<TaskId, Task>, taskId: Option<TaskId>, freshId: TaskId, sessionId: Option<string>,
                        message: Message, handler: Task -> Result<Task, string>) returns (steps: seq<Step>)
    requires freshId !in tasks
    requires forall t :: handler(t).Ok? ==> HandlerMayReturn(t, handler(t).value)
    ensures var s := Server(tasks, map[]);
            && Legal(s, steps) && SerialRun(s, steps)
            && Exec(s, steps) == Server(Sent(tasks, taskId, freshId, sessionId, message, handler).0, map[])
  {
    var s := Server(tasks, map[]);
    var first := if taskId.Some? then LookUp(0, taskId.value, message, Send) else Open(0, freshId, sessionId, message, Send);
    var s1 := Apply(s, first);
    if taskId.Some? && Resume(tasks, taskId.value, message, Send).Err? {
      steps := [first];
      ExecOne(s, first);
      assert SerialRun(s1, []);
    } else {
      var t := s1.ops[0].task;
      var s2 := Apply(s1, StoreWorking(0));
      var last := Finish(0, handler(t));
      var s3 := Apply(s2, last);
      assert s3.ops == map[];
      steps := [first, StoreWorking(0), last];
      assert steps[1..] == [StoreWorking(0), last] && steps[1..][1..] == [last];
      ExecOne(s2, last);
      assert SerialRun(s3, []) && SerialRun(s2, [last]);
    }
  }
}
