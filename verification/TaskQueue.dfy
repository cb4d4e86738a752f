/**
 Tasks between the API, the command queue and the workers: the queue and cancel routes
 (controller.ts), the in-memory command queue, the PROCESS_TASK handler (tasks.ts) and the
 status writes on the task record (prisma-task-runtime.ts).

 Nothing locks a task record. A request is one step; a worker's status writes are separate steps,
 between which any request may come.
 */
module TaskQueue {
  import opened Common
  import opened Text

  datatype TaskStatus = DRAFT | QUEUED | RUNNING | PAUSED | COMPLETED | FAILED | CANCELLED

  datatype Task = Task(status: TaskStatus, error: Option<string>, progress: Option<string>,
                       startedAt: Option<int>, completedAt: Option<int>)

  const NEW_TASK := Task(DRAFT, None, None, None, None)

  /** The record after one `setStatus` of the worker. */
  function Written(t: Task, status: TaskStatus, error: Option<string>, progress: Option<string>, now: int): Task {
    Task(status,
         if error.Some? then error else t.error,
         if progress.Some? then progress else t.progress,
         if status == RUNNING then Some(now) else t.startedAt,
         if status == RUNNING then None else if status == COMPLETED || status == FAILED then Some(now)
         else t.completedAt)
  }

  predicate Queueable(status: TaskStatus) { status == DRAFT || status == PAUSED || status == FAILED }

  function Requeued(t: Task): Task { t.(status := QUEUED, error := None) }

  function Cancelled(t: Task, now: int): Task { t.(status := CANCELLED, completedAt := Some(now)) }

  type TaskId = string

  /** `attempt` is None when it is not an integer, `createdAt` when it is not a date. */
  datatype Command = Command(id: string, task: TaskId, kind: string, attempt: Option<int>, createdAt: Option<int>)

  /** `createCommandEnvelope` of the queue route. */
  function ProcessTaskCommand(id: string, task: TaskId, now: int): Command {
    Command(id, task, "PROCESS_TASK", Some(0), Some(now))
  }

  // ---------- The classes ----------

  /** A row of the Task table. */
  class TaskRecord {
    var task: Task

    constructor ()
      ensures task == NEW_TASK
    {
      task := NEW_TASK;
    }

    /** `setStatus`: the status always, the other columns only as the status and the details ask. */
    method SetStatus(status: TaskStatus, error: Option<string>, progress: Option<string>, now: int, accepts: bool)
        returns (ok: bool)
      modifies this
      ensures ok == accepts
      ensures task == if ok then Written(old(task), status, error, progress, now) else old(task)
      ensures ok ==>
                && task.status == status
                && task.error == (if error.Some? then error else old(task).error)
                && task.progress == (if progress.Some? then progress else old(task).progress)
                && task.startedAt == (if status == RUNNING then Some(now) else old(task).startedAt)
                && (status == RUNNING ==> task.completedAt == None)
                && (status in {COMPLETED, FAILED} ==> task.completedAt == Some(now))
                && (status !in {RUNNING, COMPLETED, FAILED} ==> task.completedAt == old(task).completedAt)
    {
      ok := accepts;
      if !ok { return; }
      task := task.(status := status);
      if status == RUNNING {
        task := task.(startedAt := Some(now), completedAt := None);
      }
      if status == COMPLETED || status == FAILED {
        task := task.(completedAt := Some(now));
      }
      if error.Some? { task := task.(error := error); }
      if progress.Some? { task := task.(progress := progress); }
    }
  }

  /** The FIFO queue; commands whose id was seen before are refused. */
  class InMemoryCommandQueue {
    var pending: seq<Command>
    var seenIds: set<string>
    ghost var enqueued: seq<Command>   // everything accepted since the last clear
    ghost var delivered: seq<Command>  // everything handed out since the last clear

    /** What is pending is what came in and has not gone out, in order, and no id came in twice. */
    ghost predicate Valid()
      reads this
    {
      && enqueued == delivered + pending
      && (forall i, j :: 0 <= i < j < |enqueued| ==> enqueued[i].id != enqueued[j].id)
      && (forall i :: 0 <= i < |enqueued| ==> enqueued[i].id in seenIds)
      && (forall x :: x in seenIds ==> exists i :: 0 <= i < |enqueued| && enqueued[i].id == x)
    }

    constructor ()
      ensures Valid() && pending == [] && enqueued == [] && delivered == []
    {
      pending, seenIds, enqueued, delivered := [], {}, [], [];
    }

    /** False is the thrown error: an envelope that is not well formed, or an id already enqueued. */
    method Enqueue(command: Command) returns (ok: bool)
      requires Valid()
      modifies this
      ensures Valid() && delivered == old(delivered)
      ensures ok <==>
              && Trim(command.id) != "" && |command.id| <= 128 && Trim(command.kind) != ""
              && command.attempt.Some? && command.attempt.value >= 0 && command.createdAt.Some?
              && forall i :: 0 <= i < |old(enqueued)| ==> old(enqueued)[i].id != command.id
      ensures pending == if ok then old(pending) + [command] else old(pending)
      ensures enqueued == if ok then old(enqueued) + [command] else old(enqueued)
    {
      if Trim(command.id) == "" || |command.id| > 128 { return false; }
      if Trim(command.kind) == "" { return false; }
      if command.attempt.None? || command.attempt.value < 0 { return false; }
      if command.createdAt.None? { return false; }
      if command.id in seenIds { return false; }
      seenIds := seenIds + {command.id};
      pending := pending + [command];
      enqueued := enqueued + [command];
      assert enqueued[|enqueued| - 1] == command;
      assert forall x :: x in seenIds && x != command.id ==>
          exists i :: 0 <= i < |old(enqueued)| && old(enqueued)[i].id == x;
      assert forall i :: 0 <= i < |old(enqueued)| ==> enqueued[i] == old(enqueued)[i];
      return true;
    }

    /** First in, first out; what went out never comes again. */
    method Dequeue() returns (command: Option<Command>)
      requires Valid()
      modifies this
      ensures Valid() && enqueued == old(enqueued) && seenIds == old(seenIds)
      ensures old(pending) == [] ==> command == None && pending == [] && delivered == old(delivered)
      ensures old(pending) != [] ==>
                && command == Some(old(pending)[0]) && pending == old(pending)[1..]
                && delivered == old(delivered) + [old(pending)[0]]
                && (forall i :: 0 <= i < |old(delivered)| ==> old(delivered)[i].id != old(pending)[0].id)
    {
      if pending == [] { return None; }
      command := Some(pending[0]);
      assert enqueued[|delivered|] == pending[0];
      assert forall i :: 0 <= i < |delivered| ==> enqueued[i] == delivered[i];
      delivered := delivered + [pending[0]];
      pending := pending[1..];
    }

    method Clear()
      modifies this
      ensures Valid() && pending == [] && seenIds == {}
    {
      pending, seenIds, enqueued, delivered := [], {}, [], [];
    }
  }

  datatype Reply = NotAllowed | NotFound | NotQueueable | Accepted | CancelAccepted

  class TaskApi {
    const queue: InMemoryCommandQueue
    var tasks: map<TaskId, Task>
    var owners: map<TaskId, string>

    constructor (queue: InMemoryCommandQueue)
      ensures this.queue == queue && tasks == map[] && owners == map[]
    {
      this.queue := queue;
      tasks, owners := map[], map[];
    }

    /** POST /api/tasks/{id}/queue and POST /api/tasks/{id}/cancel */
    method Act(user: string, mayManage: bool, taskId: TaskId, queueIt: bool, commandId: string, now: int)
        returns (reply: Reply)
      requires queue.Valid() && tasks.Keys == owners.Keys
      requires Trim(commandId) != "" && |commandId| <= 128
      requires forall i :: 0 <= i < |queue.enqueued| ==> queue.enqueued[i].id != commandId
      modifies this`tasks, queue
      ensures queue.Valid() && tasks.Keys == owners.Keys
      ensures reply == (if !mayManage then NotAllowed
                        else if taskId !in old(tasks) || owners[taskId] != user then NotFound
                        else if !queueIt then CancelAccepted
                        else if Queueable(old(tasks)[taskId].status) then Accepted else NotQueueable)
      ensures mayManage && taskId in old(tasks) && owners[taskId] == user && queueIt ==>
                (reply == Accepted <==> old(tasks)[taskId].status in {DRAFT, PAUSED, FAILED})
      ensures reply == Accepted ==>
                && tasks == old(tasks)[taskId := old(tasks)[taskId].(status := QUEUED, error := None)]
                && queue.pending == old(queue.pending) +
                     [Command(commandId, taskId, "PROCESS_TASK", Some(0), Some(now))]
      ensures reply == CancelAccepted ==>
                && tasks == old(tasks)[taskId := old(tasks)[taskId].(status := CANCELLED, completedAt := Some(now))]
                && queue.pending == old(queue.pending)
      ensures tasks == (if reply.Accepted? then old(tasks)[taskId := Requeued(old(tasks)[taskId])]
                        else if reply.CancelAccepted? then old(tasks)[taskId := Cancelled(old(tasks)[taskId], now)]
                        else old(tasks))
      ensures queue.pending == old(queue.pending) +
              (if reply.Accepted? then [ProcessTaskCommand(commandId, taskId, now)] else [])
    {
      if !mayManage { return NotAllowed; }
      if taskId !in tasks || owners[taskId] != user { return NotFound; }
      var task := tasks[taskId];
      if !queueIt {
        tasks := tasks[taskId := task.(status := CANCELLED, completedAt := Some(now))];
        return CancelAccepted;
      }
      if task.status !in {DRAFT, PAUSED, FAILED} { return NotQueueable; }
      tasks := tasks[taskId := task.(status := QUEUED, error := None)];
      TrimmedIsFixed("PROCESS_TASK");
      var ok := queue.Enqueue(ProcessTaskCommand(commandId, taskId, now));
      return Accepted;
    }
  }

  /** How the executor answers: a result, or the name of the error it threw. */
  datatype Execution = Result(progress: string) | Error(name: string)

  /**
   PROCESS_TASK with nobody else touching the record. A COMPLETED write that fails is caught and
   becomes a FAILED write; a RUNNING write that fails is outside the `try`.
   */
  method ProcessTask(record: TaskRecord, execution: Execution, writeError: string,
                     runningAt: int, endedAt: int, running: bool, completed: bool, failed: bool)
    returns (returned: bool)
    modifies record
    ensures var t0 := old(record.task);
            var t1 := Written(t0, RUNNING, None, None, runningAt);
            && returned == (running && execution.Result? && completed)
            && (!running ==> record.task == t0)
            && (returned ==> record.task == Written(t1, COMPLETED, None, Some(execution.progress), endedAt))
            && (running && !returned ==>
                  var error := if execution.Error? then execution.name else writeError;
                  record.task == if failed then Written(t1, FAILED, Some(error), None, endedAt) else t1)
    ensures returned ==>
              record.task == Task(COMPLETED, old(record.task).error, Some(execution.progress), Some(runningAt),
                  Some(endedAt))
    ensures running && !returned ==>
              var error := if execution.Error? then execution.name else writeError;
              record.task ==
              if failed then Task(FAILED, Some(error), old(record.task).progress, Some(runningAt), Some(endedAt))
              else Task(RUNNING, old(record.task).error, old(record.task).progress, Some(runningAt), None)
  {
    var ok := record.SetStatus(RUNNING, None, None, runningAt, running);
    if !ok { return false; }
    var error := writeError;
    match execution {
      case Result(progress) =>
        ok := record.SetStatus(COMPLETED, None, Some(progress), endedAt, completed);
        if ok { return true; }
      case Error(name) =>
        error := name;
    }
    var _ := record.SetStatus(FAILED, Some(error), None, endedAt, failed);
    return false;
  }

  // ---------- The product: requests, queue, workers, record ----------

  /**
   Where a worker stands with a command: `Taken` before the RUNNING write, then executing, then
   about to write the result.
   */
  datatype Stage = Taken | Executing | Succeeded(progress: string) | Broke(error: string)

  datatype Job = Job(task: TaskId, stage: Stage)

  /**
   `accepted`, `finished` and `lost` count, per task, the queue requests answered 202, the commands
   whose handler reached a final status, and those that ended without one. `stranded` holds the
   tasks whose last FAILED write failed.
   */
  datatype World = World(clock: int, tasks: map<TaskId, Task>, queue: seq<Command>, seenIds: set<string>,
                         jobs: seq<Job>, accepted: multiset<TaskId>, finished: multiset<TaskId>,
                         lost: multiset<TaskId>, stranded: set<TaskId>)

  function Empty(clock: int): World {
    World(clock, map[], [], {}, [], multiset{}, multiset{}, multiset{}, {})
  }

  datatype Event =
    | Wait(ms: nat)
    | CreateTask(task: TaskId)
    | QueueRequest(task: TaskId, id: string)
    | CancelRequest(task: TaskId)
    | Take                                // a worker dequeues the oldest command
    | Defer(job: nat)                     // no handler, or the worker is not ready: the job is not retried
    | RunningWrite(job: nat, ok: bool)
    | Execute(job: nat, execution: Execution)
    | CompletedWrite(job: nat, ok: bool, writeError: string)
    | FailedWrite(job: nat, ok: bool)

  predicate HasStage(w: World, job: nat, e: Event) {
    && job < |w.jobs| && w.jobs[job].task in w.tasks
    && match w.jobs[job].stage
       case Taken => e.Defer? || e.RunningWrite?
       case Executing => e.Execute?
       case Succeeded(_) => e.CompletedWrite?
       case Broke(_) => e.FailedWrite?
  }

  predicate Enabled(w: World, e: Event) {
    match e
    case Wait(_) => true
    case CreateTask(t) => t !in w.tasks
    case QueueRequest(_, id) => id !in w.seenIds
    case CancelRequest(_) => true
    case Take => w.queue != []
    case Defer(j) => HasStage(w, j, e)
    case RunningWrite(j, _) => HasStage(w, j, e)
    case Execute(j, _) => HasStage(w, j, e)
    case CompletedWrite(j, _, _) => HasStage(w, j, e)
    case FailedWrite(j, _) => HasStage(w, j, e)
  }

  function Without<T>(s: seq<T>, i: nat): seq<T>
    requires i < |s|
  {
    s[..i] + s[i + 1..]
  }

  function AtStage(w: World, job: nat, stage: Stage): World
    requires job < |w.jobs|
  {
    w.(jobs := w.jobs[job := w.jobs[job].(stage := stage)])
  }

  function Step(w: World, e: Event): World
    requires Enabled(w, e)
  {
    match e
    case Wait(ms) => w.(clock := w.clock + ms)
    case CreateTask(t) => w.(tasks := w.tasks[t := NEW_TASK])
    case QueueRequest(t, id) =>
      if t in w.tasks && Queueable(w.tasks[t].status)
      then w.(tasks := w.tasks[t := Requeued(w.tasks[t])], queue := w.queue + [ProcessTaskCommand(id, t, w.clock)],
              seenIds := w.seenIds + {id}, accepted := w.accepted + multiset{t})
      else w
    case CancelRequest(t) => if t in w.tasks then w.(tasks := w.tasks[t := Cancelled(w.tasks[t], w.clock)]) else w
    case Take => w.(queue := w.queue[1..], jobs := w.jobs + [Job(w.queue[0].task, Taken)])
    case Defer(j) => w.(jobs := Without(w.jobs, j), lost := w.lost + multiset{w.jobs[j].task})
    case RunningWrite(j, ok) =>
      var t := w.jobs[j].task;
      if ok then AtStage(w, j, Executing).(tasks := w.tasks[t := Written(w.tasks[t], RUNNING, None, None, w.clock)])
      else w.(jobs := Without(w.jobs, j), lost := w.lost + multiset{t})
    case Execute(j, execution) =>
      AtStage(w, j, match execution case Result(progress) => Succeeded(progress) case Error(name) => Broke(name))
    case CompletedWrite(j, ok, writeError) =>
      var t := w.jobs[j].task;
      var result := w.jobs[j].stage.progress;
      if ok then w.(jobs := Without(w.jobs, j), finished := w.finished + multiset{t},
                    tasks := w.tasks[t := Written(w.tasks[t], COMPLETED, None, Some(result), w.clock)])
      else AtStage(w, j, Broke(writeError))
    case FailedWrite(j, ok) =>
      var t := w.jobs[j].task;
      if ok then w.(jobs := Without(w.jobs, j), finished := w.finished + multiset{t},
                    tasks := w.tasks[t := Written(w.tasks[t], FAILED, Some(w.jobs[j].stage.error), None, w.clock)])
      else w.(jobs := Without(w.jobs, j), lost := w.lost + multiset{t}, stranded := w.stranded + {t})
  }

  predicate Runs(w: World, events: seq<Event>)
    decreases events
  {
    events == [] || (Enabled(w, events[0]) && Runs(Step(w, events[0]), events[1..]))
  }

  function End(w: World, events: seq<Event>): World
    requires Runs(w, events)
    decreases events
  {
    if events == [] then w else End(Step(w, events[0]), events[1..])
  }

  predicate InQueue(w: World, t: TaskId) { exists i :: 0 <= i < |w.queue| && w.queue[i].task == t }
  predicate InFlight(w: World, t: TaskId) { exists i :: 0 <= i < |w.jobs| && w.jobs[i].task == t }
  predicate Outstanding(w: World, t: TaskId) { InQueue(w, t) || InFlight(w, t) }

  /** A worker has written RUNNING for the task and not yet its final status. */
  predicate AtWork(w: World, t: TaskId) {
    exists i :: 0 <= i < |w.jobs| && w.jobs[i].task == t && !w.jobs[i].stage.Taken?
  }

  /** At most one command per task, in the queue or with a worker. */
  ghost predicate OnePerTask(w: World) {
    && (forall i, j :: 0 <= i < j < |w.queue| ==> w.queue[i].task != w.queue[j].task)
    && (forall i, j :: 0 <= i < j < |w.jobs| ==> w.jobs[i].task != w.jobs[j].task)
    && (forall i, j :: 0 <= i < |w.queue| && 0 <= j < |w.jobs| ==> w.queue[i].task != w.jobs[j].task)
  }

  /** A command waits on a QUEUED or cancelled task. */
  predicate WaitingFits(w: World, t: TaskId) {
    t in w.tasks && w.tasks[t].status in {QUEUED, CANCELLED} && w.tasks[t].error == None
  }

  /** A worker's task is QUEUED until RUNNING is written, then RUNNING, unless it was cancelled. */
  predicate JobFits(w: World, job: Job) {
    && job.task in w.tasks && w.tasks[job.task].error == None
    && (if job.stage.Taken? then w.tasks[job.task].status in {QUEUED, CANCELLED}
        else w.tasks[job.task].status in {RUNNING, CANCELLED} && w.tasks[job.task].startedAt.Some?)
  }

  ghost predicate StatusFits(w: World) {
    && (forall i :: 0 <= i < |w.queue| ==> WaitingFits(w, w.queue[i].task))
    && (forall i :: 0 <= i < |w.jobs| ==> JobFits(w, w.jobs[i]))
    && (forall t :: t in w.tasks && w.tasks[t].status == RUNNING && t !in w.stranded ==> AtWork(w, t))
    && (forall t :: t in w.stranded ==> t in w.tasks && w.tasks[t].status in {RUNNING, CANCELLED} && !Outstanding(w, t))
  }

  /** The columns of the record agree with its status. */
  predicate RecordFits(t: Task, clock: int) {
    && t.status != PAUSED
    && (t.status in {QUEUED, RUNNING, COMPLETED} ==> t.error == None)
    && (t.startedAt.Some? ==> t.startedAt.value <= clock)
    && (t.status == RUNNING ==> t.startedAt.Some? && t.completedAt == None)
    && (t.completedAt.Some? ==> t.completedAt.value <= clock)
    && (t.status in {COMPLETED, FAILED} ==>
          t.startedAt.Some? && t.completedAt.Some? && t.startedAt.value <= t.completedAt.value)
    && (t.status == COMPLETED ==> t.progress.Some?)
    && (t.status == FAILED ==> t.error.Some?)
    && (t.status == CANCELLED ==> t.completedAt.Some?)
    && (t.status == DRAFT ==> t == NEW_TASK)
  }

  ghost predicate Inv(w: World) {
    OnePerTask(w) && StatusFits(w) && forall t :: t in w.tasks ==> RecordFits(w.tasks[t], w.clock)
  }

  /** DRAFT, FAILED and COMPLETED tasks have no command anywhere. */
  lemma SettledIsIdle(w: World, t: TaskId)
    requires Inv(w) && t in w.tasks && w.tasks[t].status in {DRAFT, FAILED, COMPLETED}
    ensures !Outstanding(w, t)
  {
  }

  /** The events that end a job, and with it the command's stay in the system. */
  predicate EndsJob(e: Event) {
    e.Defer? || (e.RunningWrite? && !e.ok) || (e.CompletedWrite? && e.ok) || e.FailedWrite?
  }

  function Arrivals(w: World, e: Event): multiset<TaskId> {
    if e.QueueRequest? && e.task in w.tasks && Queueable(w.tasks[e.task].status) then multiset{e.task} else multiset{}
  }

  function Departures(w: World, e: Event): multiset<TaskId>
    requires Enabled(w, e)
  {
    if EndsJob(e) then multiset{w.jobs[e.job].task} else multiset{}
  }

  lemma StepJobs(w: World, e: Event, i: nat)
    requires Enabled(w, e) && i < |w.jobs| && !(EndsJob(e) && i == e.job)
    ensures var w' := Step(w, e); var k := if EndsJob(e) && e.job < i then i - 1 else i;
            && k < |w'.jobs| && w'.jobs[k].task == w.jobs[i].task
            && (w'.jobs[k].stage.Taken? ==> w.jobs[i].stage.Taken?)
  {
    if EndsJob(e) { assert Step(w, e).jobs == Without(w.jobs, e.job); }
  }

  lemma StepAtWork(w: World, e: Event, t: TaskId)
    requires Enabled(w, e) && AtWork(w, t)
    requires !(EndsJob(e) && w.jobs[e.job].task == t)
    ensures AtWork(Step(w, e), t)
  {
    var i :| 0 <= i < |w.jobs| && w.jobs[i].task == t && !w.jobs[i].stage.Taken?;
    StepJobs(w, e, i);
  }

  lemma QueueingOnePerTask(w: World, t: TaskId, id: string, now: int)
    requires OnePerTask(w) && !Outstanding(w, t)
    ensures OnePerTask(w.(queue := w.queue + [ProcessTaskCommand(id, t, now)]))
  {
  }

  lemma TakingOnePerTask(w: World)
    requires OnePerTask(w) && w.queue != []
    ensures OnePerTask(w.(queue := w.queue[1..], jobs := w.jobs + [Job(w.queue[0].task, Taken)]))
  {
  }

  lemma EndingOnePerTask(w: World, j: nat)
    requires OnePerTask(w) && j < |w.jobs|
    ensures OnePerTask(w.(jobs := Without(w.jobs, j)))
  {
  }

  lemma StayingOnePerTask(w: World, e: Event)
    requires OnePerTask(w) && Enabled(w, e) && !EndsJob(e) && !e.Take? && !e.QueueRequest?
    ensures OnePerTask(Step(w, e))
  {
    var w' := Step(w, e);
    assert w'.queue == w.queue && |w'.jobs| == |w.jobs|;
    assert forall i :: 0 <= i < |w.jobs| ==> w'.jobs[i].task == w.jobs[i].task;
  }

  lemma StepOnePerTask(w: World, e: Event)
    requires Inv(w) && Enabled(w, e)
    ensures OnePerTask(Step(w, e))
  {
    if e.QueueRequest? {
      if e.task in w.tasks && Queueable(w.tasks[e.task].status) {
        QueueableIsIdle(w, e.task);
        QueueingOnePerTask(w, e.task, e.id, w.clock);
      }
    } else if e.Take? {
      TakingOnePerTask(w);
    } else if EndsJob(e) {
      EndingOnePerTask(w, e.job);
    } else {
      StayingOnePerTask(w, e);
    }
  }

  lemma QueueableIsIdle(w: World, t: TaskId)
    requires Inv(w) && t in w.tasks && Queueable(w.tasks[t].status)
    ensures !Outstanding(w, t)
  {
  }

  lemma StepRecordFits(w: World, e: Event, t: TaskId)
    requires Inv(w) && Enabled(w, e) && t in Step(w, e).tasks
    ensures RecordFits(Step(w, e).tasks[t], Step(w, e).clock)
  {
    assert t in w.tasks ==> RecordFits(w.tasks[t], w.clock);
  }

  /** The one task whose record an event may write. */
  function Touched(w: World, e: Event): Option<TaskId>
    requires Enabled(w, e)
  {
    match e
    case CreateTask(t) => Some(t)
    case QueueRequest(t, _) => Some(t)
    case CancelRequest(t) => Some(t)
    case RunningWrite(j, _) => Some(w.jobs[j].task)
    case CompletedWrite(j, _, _) => Some(w.jobs[j].task)
    case FailedWrite(j, _) => Some(w.jobs[j].task)
    case _ => None
  }

  lemma OthersUntouched(w: World, e: Event, t: TaskId)
    requires Enabled(w, e) && t in w.tasks && Touched(w, e) != Some(t)
    ensures t in Step(w, e).tasks && Step(w, e).tasks[t] == w.tasks[t]
  {
  }

  lemma StepQueueFits(w: World, e: Event, i: nat)
    requires Inv(w) && Enabled(w, e) && i < |Step(w, e).queue|
    ensures WaitingFits(Step(w, e), Step(w, e).queue[i].task)
  {
    var w' := Step(w, e);
    if i < |w.queue| && !e.Take? {
      assert w'.queue[i] == w.queue[i] && WaitingFits(w, w.queue[i].task);
    } else if e.Take? {
      assert w'.queue[i] == w.queue[i + 1] && WaitingFits(w, w.queue[i + 1].task);
    }
  }

  /** Where a job of the next state comes from. */
  lemma JobOrigin(w: World, e: Event, i: nat) returns (k: nat)
    requires Enabled(w, e) && i < |Step(w, e).jobs| && !(e.Take? && i == |w.jobs|)
    ensures k < |w.jobs| && Step(w, e).jobs[i].task == w.jobs[k].task
    ensures Step(w, e).jobs[i] == w.jobs[k] ||
            (!e.Wait? && !e.CreateTask? && !e.QueueRequest? && !e.CancelRequest? && !e.Take? && k == e.job)
    ensures Step(w, e).jobs[i].stage.Taken? == w.jobs[k].stage.Taken? || (e.RunningWrite? && e.ok && k == e.job)
    ensures EndsJob(e) ==> k != e.job
  {
    k := if EndsJob(e) && e.job <= i then i + 1 else i;
    if EndsJob(e) { assert Step(w, e).jobs == Without(w.jobs, e.job); }
  }

  lemma StepJobFits(w: World, e: Event, i: nat)
    requires Inv(w) && Enabled(w, e) && i < |Step(w, e).jobs|
    ensures JobFits(Step(w, e), Step(w, e).jobs[i])
  {
    if e.Take? && i == |w.jobs| {
      assert WaitingFits(w, w.queue[0].task);
    } else {
      var k := JobOrigin(w, e, i);
      assert JobFits(w, w.jobs[k]);
      var t := w.jobs[k].task;
      if Touched(w, e) == Some(t) {
        TouchedJobFits(w, e, k);
      } else {
        OthersUntouched(w, e, t);
      }
    }
  }

  /** A write to the record of a task with a command: only a worker's own RUNNING write and a cancellation can be. */
  lemma TouchedJobFits(w: World, e: Event, k: nat)
    requires Inv(w) && Enabled(w, e) && k < |w.jobs| && Touched(w, e) == Some(w.jobs[k].task)
    requires EndsJob(e) ==> k != e.job
    ensures var t := w.jobs[k].task; var w' := Step(w, e);
            && t in w'.tasks && w'.tasks[t].error == None
            && (if w.jobs[k].stage.Taken? && !(e.RunningWrite? && e.ok && k == e.job)
                then w'.tasks[t].status in {QUEUED, CANCELLED}
                else w'.tasks[t].status in {RUNNING, CANCELLED} && w'.tasks[t].startedAt.Some?)
  {
    assert JobFits(w, w.jobs[k]);
  }

  lemma StepStatusFits(w: World, e: Event)
    requires Inv(w) && Enabled(w, e)
    ensures StatusFits(Step(w, e))
  {
    var w' := Step(w, e);
    forall i | 0 <= i < |w'.queue| ensures WaitingFits(w', w'.queue[i].task) { StepQueueFits(w, e, i); }
    forall i | 0 <= i < |w'.jobs| ensures JobFits(w', w'.jobs[i]) { StepJobFits(w, e, i); }
    forall t | t in w'.tasks && w'.tasks[t].status == RUNNING && t !in w'.stranded ensures AtWork(w', t) {
      StepRunningAtWork(w, e, t);
    }
    forall t | t in w'.stranded
      ensures t in w'.tasks && w'.tasks[t].status in {RUNNING, CANCELLED} && !Outstanding(w', t)
    {
      StepStranded(w, e, t);
    }
  }

  lemma StepRunningAtWork(w: World, e: Event, t: TaskId)
    requires Inv(w) && Enabled(w, e)
    requires t in Step(w, e).tasks && Step(w, e).tasks[t].status == RUNNING && t !in Step(w, e).stranded
    ensures AtWork(Step(w, e), t)
  {
    if e.RunningWrite? && e.ok && t == w.jobs[e.job].task {
      assert Step(w, e).jobs[e.job].task == t;
    } else {
      StepAtWork(w, e, t);
    }
  }

  /** A task without a command gets one only by an accepted request. */
  lemma StepIdle(w: World, e: Event, t: TaskId)
    requires Enabled(w, e) && Outstanding(Step(w, e), t) && t !in Arrivals(w, e)
    ensures Outstanding(w, t)
  {
    var w' := Step(w, e);
    if i :| 0 <= i < |w'.jobs| && w'.jobs[i].task == t {
      if e.Take? && i == |w.jobs| {
        assert w.queue[0].task == t;
      } else {
        var k := JobOrigin(w, e, i);
      }
    } else {
      var i :| 0 <= i < |w'.queue| && w'.queue[i].task == t;
      if e.Take? { assert w.queue[i + 1].task == t; }
      else { assert w.queue[i].task == t; }
    }
  }

  lemma StrandedStays(w: World, e: Event, t: TaskId)
    requires Inv(w) && Enabled(w, e) && t in w.stranded
    ensures t in Step(w, e).tasks && Step(w, e).tasks[t].status in {RUNNING, CANCELLED} && !Outstanding(Step(w, e), t)
  {
    if e.RunningWrite? || e.CompletedWrite? || e.FailedWrite? { assert InFlight(w, w.jobs[e.job].task); }
    assert !Outstanding(w, t) && t !in Arrivals(w, e);
    if Outstanding(Step(w, e), t) { StepIdle(w, e, t); }
  }

  lemma BecomesStranded(w: World, j: nat)
    requires Inv(w) && Enabled(w, FailedWrite(j, false))
    ensures var t := w.jobs[j].task; var w' := Step(w, FailedWrite(j, false));
            t in w'.tasks && w'.tasks[t].status in {RUNNING, CANCELLED} && !Outstanding(w', t)
  {
    assert JobFits(w, w.jobs[j]);
  }

  lemma StepStranded(w: World, e: Event, t: TaskId)
    requires Inv(w) && Enabled(w, e) && t in Step(w, e).stranded
    ensures t in Step(w, e).tasks && Step(w, e).tasks[t].status in {RUNNING, CANCELLED} && !Outstanding(Step(w, e), t)
  {
    if t in w.stranded {
      StrandedStays(w, e, t);
    } else {
      BecomesStranded(w, e.job);
    }
  }

  lemma StepKeepsInv(w: World, e: Event)
    requires Inv(w) && Enabled(w, e)
    ensures Inv(Step(w, e))
  {
    StepOnePerTask(w, e);
    StepStatusFits(w, e);
    forall t | t in Step(w, e).tasks ensures RecordFits(Step(w, e).tasks[t], Step(w, e).clock) {
      StepRecordFits(w, e, t);
    }
  }

  lemma {:induction false} RunKeepsInv(w: World, events: seq<Event>)
    requires Inv(w) && Runs(w, events)
    ensures Inv(End(w, events))
    decreases events
  {
    if events != [] {
      StepKeepsInv(w, events[0]);
      RunKeepsInv(Step(w, events[0]), events[1..]);
    }
  }

  // ---------- Accounting ----------

  function QueueTasks(queue: seq<Command>): (ids: seq<TaskId>)
    ensures |ids| == |queue|
  {
    seq(|queue|, i requires 0 <= i < |queue| => queue[i].task)
  }

  function JobTasks(jobs: seq<Job>): (ids: seq<TaskId>)
    ensures |ids| == |jobs|
  {
    seq(|jobs|, i requires 0 <= i < |jobs| => jobs[i].task)
  }

  /** Every command in the system, by its task. */
  function AllOutstanding(w: World): multiset<TaskId> {
    multiset(QueueTasks(w.queue)) + multiset(JobTasks(w.jobs))
  }

  /** No accepted request is forgotten or counted twice. */
  predicate Balanced(w: World) { w.accepted == AllOutstanding(w) + w.finished + w.lost }

  lemma WithoutJob(jobs: seq<Job>, j: nat)
    requires j < |jobs|
    ensures multiset(JobTasks(jobs)) == multiset(JobTasks(Without(jobs, j))) + multiset{jobs[j].task}
  {
    var ids := JobTasks(jobs);
    assert ids == ids[..j] + [ids[j]] + ids[j + 1..];
    assert JobTasks(Without(jobs, j)) == ids[..j] + ids[j + 1..];
  }

  lemma EndingOutstanding(w: World, e: Event)
    requires Enabled(w, e) && EndsJob(e)
    ensures AllOutstanding(Step(w, e)) + Departures(w, e) == AllOutstanding(w)
  {
    WithoutJob(w.jobs, e.job);
    assert Step(w, e).queue == w.queue && Step(w, e).jobs == Without(w.jobs, e.job);
  }

  lemma TakeOutstanding(w: World)
    requires Enabled(w, Take)
    ensures AllOutstanding(Step(w, Take)) == AllOutstanding(w)
  {
    assert QueueTasks(w.queue) == [w.queue[0].task] + QueueTasks(w.queue[1..]);
    assert JobTasks(Step(w, Take).jobs) == JobTasks(w.jobs) + [w.queue[0].task];
  }

  lemma OtherOutstanding(w: World, e: Event)
    requires Enabled(w, e) && !EndsJob(e) && e != Take
    ensures AllOutstanding(Step(w, e)) == AllOutstanding(w) + Arrivals(w, e)
  {
    var w' := Step(w, e);
    assert JobTasks(w'.jobs) == JobTasks(w.jobs);
    if Arrivals(w, e) != multiset{} {
      assert QueueTasks(w'.queue) == QueueTasks(w.queue) + [e.task];
    } else {
      assert w'.queue == w.queue;
    }
  }

  lemma StepOutstanding(w: World, e: Event)
    requires Enabled(w, e)
    ensures AllOutstanding(Step(w, e)) + Departures(w, e) == AllOutstanding(w) + Arrivals(w, e)
  {
    if EndsJob(e) { EndingOutstanding(w, e); }
    else if e.Take? { TakeOutstanding(w); }
    else { OtherOutstanding(w, e); }
  }

  lemma StepCounts(w: World, e: Event)
    requires Enabled(w, e)
    ensures Step(w, e).accepted == w.accepted + Arrivals(w, e)
    ensures Step(w, e).finished + Step(w, e).lost == w.finished + w.lost + Departures(w, e)
  {
  }

  lemma StepBalanced(w: World, e: Event)
    requires Enabled(w, e) && Balanced(w)
    ensures Balanced(Step(w, e))
  {
    StepOutstanding(w, e);
    StepCounts(w, e);
    forall t: TaskId
      ensures Step(w, e).accepted[t] == (AllOutstanding(Step(w, e)) + Step(w, e).finished + Step(w, e).lost)[t]
    {
      assert (AllOutstanding(Step(w, e)) + Departures(w, e))[t] == (AllOutstanding(w) + Arrivals(w, e))[t];
      assert (Step(w, e).finished + Step(w, e).lost)[t] == (w.finished + w.lost + Departures(w, e))[t];
    }
  }

  lemma {:induction false} RunBalanced(w: World, events: seq<Event>)
    requires Balanced(w) && Runs(w, events)
    ensures Balanced(End(w, events))
    decreases events
  {
    if events != [] {
      StepBalanced(w, events[0]);
      RunBalanced(Step(w, events[0]), events[1..]);
    }
  }

  /** The task whose final status an event writes: it ends one command's stay for good. */
  function FinalWrite(w: World, e: Event): multiset<TaskId>
    requires Enabled(w, e)
  {
    if (e.CompletedWrite? || e.FailedWrite?) && e.ok then multiset{w.jobs[e.job].task} else multiset{}
  }

  /** The task whose command an event loses: deferred, or ended by a failing RUNNING or FAILED write. */
  function Loss(w: World, e: Event): multiset<TaskId>
    requires Enabled(w, e)
  {
    if e.Defer? || ((e.RunningWrite? || e.FailedWrite?) && !e.ok) then multiset{w.jobs[e.job].task} else multiset{}
  }

  function FinalWrites(w: World, events: seq<Event>): multiset<TaskId>
    requires Runs(w, events)
    decreases events
  {
    if events == [] then multiset{} else FinalWrite(w, events[0]) + FinalWrites(Step(w, events[0]), events[1..])
  }

  function Losses(w: World, events: seq<Event>): multiset<TaskId>
    requires Runs(w, events)
    decreases events
  {
    if events == [] then multiset{} else Loss(w, events[0]) + Losses(Step(w, events[0]), events[1..])
  }

  lemma StepCounters(w: World, e: Event)
    requires Enabled(w, e)
    ensures Step(w, e).finished == w.finished + FinalWrite(w, e) && Step(w, e).lost == w.lost + Loss(w, e)
  {
  }

  lemma Regroup(a: multiset<TaskId>, b: multiset<TaskId>, c: multiset<TaskId>)
    ensures a + b + c == a + (b + c)
  {
  }

  /** `finished` and `lost` count exactly these. */
  lemma {:induction false} CountersSay(w: World, events: seq<Event>)
    requires Runs(w, events)
    ensures End(w, events).finished == w.finished + FinalWrites(w, events)
    ensures End(w, events).lost == w.lost + Losses(w, events)
    decreases events
  {
    if events != [] {
      var w' := Step(w, events[0]);
      StepCounters(w, events[0]);
      CountersSay(w', events[1..]);
      Regroup(w.finished, FinalWrite(w, events[0]), FinalWrites(w', events[1..]));
      Regroup(w.lost, Loss(w, events[0]), Losses(w', events[1..]));
    }
  }

  lemma CountOnce(w: World, t: TaskId)
    requires OnePerTask(w)
    ensures AllOutstanding(w)[t] == if Outstanding(w, t) then 1 else 0
  {
    var ids := QueueTasks(w.queue) + JobTasks(w.jobs);
    assert multiset(ids) == AllOutstanding(w);
    assert forall i, j :: 0 <= i < j < |ids| ==> ids[i] != ids[j];
    DistinctCount(ids, t);
    if Outstanding(w, t) {
      if i :| 0 <= i < |w.queue| && w.queue[i].task == t { assert ids[i] == t; }
      else {
        var i :| 0 <= i < |w.jobs| && w.jobs[i].task == t;
        assert ids[|w.queue| + i] == t;
      }
    }
  }

  lemma {:induction false} DistinctCount(ids: seq<TaskId>, t: TaskId)
    requires forall i, j :: 0 <= i < j < |ids| ==> ids[i] != ids[j]
    ensures multiset(ids)[t] == if t in ids then 1 else 0
    decreases |ids|
  {
    if ids != [] {
      DistinctCount(ids[1..], t);
      assert ids == [ids[0]] + ids[1..];
    }
  }

  // ---------- Main theorems ----------

  /**
   Over every run of requests and worker steps: each task has at most one outstanding command, none
   if it is DRAFT, FAILED or COMPLETED, and one at work if it is RUNNING, exactly unless the write of
   its FAILED status failed; and the accepted queue requests of a task are its outstanding command plus
   the commands that finished plus those that were lost.
   */
  lemma TaskProduct(clock: int, events: seq<Event>, t: TaskId)
    requires Runs(Empty(clock), events)
    ensures var w := End(Empty(clock), events);
            && AllOutstanding(w)[t] <= 1
            && (t in w.tasks && w.tasks[t].status in {DRAFT, FAILED, COMPLETED} ==> AllOutstanding(w)[t] == 0)
            && (t in w.tasks && w.tasks[t].status == RUNNING ==> (AtWork(w, t) <==> t !in w.stranded))
            && w.accepted[t] == AllOutstanding(w)[t] + w.finished[t] + w.lost[t]
            && (t in w.tasks ==> RecordFits(w.tasks[t], w.clock))
  {
    RunKeepsInv(Empty(clock), events);
    RunBalanced(Empty(clock), events);
    CountOnce(End(Empty(clock), events), t);
  }

  /** The executor never runs twice at once for one task. */
  lemma ExecutorRunsOnce(clock: int, events: seq<Event>, i: nat, j: nat)
    requires Runs(Empty(clock), events)
    requires var w := End(Empty(clock), events);
             i < |w.jobs| && j < |w.jobs| && w.jobs[i].stage.Executing? && w.jobs[j].stage.Executing? &&
                 w.jobs[i].task == w.jobs[j].task
    ensures i == j
  {
    RunKeepsInv(Empty(clock), events);
  }

  lemma StepKeepsCancelled(w: World, e: Event, t: TaskId)
    requires Inv(w) && Enabled(w, e) && t in w.tasks && w.tasks[t].status == CANCELLED && !Outstanding(w, t)
    ensures t in Step(w, e).tasks && Step(w, e).tasks[t].status == CANCELLED && !Outstanding(Step(w, e), t)
  {
    if Outstanding(Step(w, e), t) { StepIdle(w, e, t); }
  }

  /** A cancelled task without an outstanding command stays cancelled in every continuation. */
  lemma {:induction false} CancelledForGood(w: World, events: seq<Event>, t: TaskId)
    requires Inv(w) && Runs(w, events) && t in w.tasks && w.tasks[t].status == CANCELLED && !Outstanding(w, t)
    ensures t in End(w, events).tasks && End(w, events).tasks[t].status == CANCELLED
    decreases events
  {
    if events != [] {
      StepKeepsInv(w, events[0]);
      StepKeepsCancelled(w, events[0], t);
      CancelledForGood(Step(w, events[0]), events[1..], t);
    }
  }

  lemma OneStep(w: World, e: Event, rest: seq<Event>)
    requires Enabled(w, e) && Runs(Step(w, e), rest)
    ensures Runs(w, [e] + rest) && End(w, [e] + rest) == End(Step(w, e), rest)
  {
    assert ([e] + rest)[1..] == rest;
  }

  /** From an empty system: after the request to cancel the task is CANCELLED with its command outstanding. */
  lemma CancelledWithCommand(clock: int)
    ensures var events := [CreateTask("t"), QueueRequest("t", "c"), CancelRequest("t")];
            && Runs(Empty(clock), events)
            && var w := End(Empty(clock), events);
               "t" in w.tasks && w.tasks["t"].status == CANCELLED && Outstanding(w, "t")
  {
    var w := Empty(clock);
    var w1 := Step(w, CreateTask("t"));
    var w2 := Step(w1, QueueRequest("t", "c"));
    var w3 := Step(w2, CancelRequest("t"));
    assert w3.queue[0].task == "t";
    OneStep(w2, CancelRequest("t"), []);
    OneStep(w1, QueueRequest("t", "c"), [CancelRequest("t")]);
    OneStep(w, CreateTask("t"), [QueueRequest("t", "c")] + [CancelRequest("t")]);
    assert [CreateTask("t"), QueueRequest("t", "c"), CancelRequest("t")] ==
           [CreateTask("t")] + ([QueueRequest("t", "c")] + [CancelRequest("t")]);
  }

  /** How many steps a task's command is from its final status. */
  function Distance(stage: Stage): nat {
    match stage case Taken => 3 case Executing => 2 case Succeeded(_) => 1 case Broke(_) => 1
  }

  lemma {:induction false} JobCanEnd(w: World, j: nat) returns (events: seq<Event>)
    requires Inv(w) && j < |w.jobs|
    ensures Runs(w, events)
    ensures var t := w.jobs[j].task; t in End(w, events).tasks && End(w, events).tasks[t].status in {COMPLETED, FAILED}
    decreases Distance(w.jobs[j].stage)
  {
    var e := match w.jobs[j].stage
      case Taken => RunningWrite(j, true)
      case Executing => Execute(j, Result(""))
      case Succeeded(_) => CompletedWrite(j, true, "")
      case Broke(_) => FailedWrite(j, true);
    StepKeepsInv(w, e);
    var rest := [];
    if w.jobs[j].stage.Taken? || w.jobs[j].stage.Executing? {
      rest := JobCanEnd(Step(w, e), j);
    }
    events := [e] + rest;
    assert events[1..] == rest;
  }

  lemma {:induction false} CommandCanEnd(w: World, i: nat) returns (events: seq<Event>)
    requires Inv(w) && i < |w.queue|
    ensures Runs(w, events)
    ensures var t := w.queue[i].task; t in End(w, events).tasks && End(w, events).tasks[t].status in {COMPLETED, FAILED}
    decreases i
  {
    StepKeepsInv(w, Take);
    var w' := Step(w, Take);
    var rest;
    if i == 0 {
      rest := JobCanEnd(w', |w.jobs|);
    } else {
      rest := CommandCanEnd(w', i - 1);
    }
    events := [Take] + rest;
    assert events[1..] == rest;
  }

  /** What a run of the executor leaves on the record. */
  predicate Reports(t: Task, x: Execution) {
    && t.startedAt.Some? && t.completedAt.Some?
    && match x
       case Result(progress) => t.status == COMPLETED && t.progress == Some(progress) && t.error == None
       case Error(name) => t.status == FAILED && t.error == Some(name)
  }

  /** The steps of a job whose executor answers `x`, all writes succeeding. */
  function JobSteps(j: nat, x: Execution): seq<Event> {
    [RunningWrite(j, true)] + ([Execute(j, x)] +
        [if x.Result? then CompletedWrite(j, true, "") else FailedWrite(j, true)])
  }

  lemma JobReports(w: World, j: nat, x: Execution)
    requires Inv(w) && j < |w.jobs| && w.jobs[j].stage.Taken?
    ensures Runs(w, JobSteps(j, x))
    ensures var w' := End(w, JobSteps(j, x)); var t := w.jobs[j].task; t in w'.tasks && Reports(w'.tasks[t], x)
  {
    var last := if x.Result? then CompletedWrite(j, true, "") else FailedWrite(j, true);
    assert JobFits(w, w.jobs[j]);
    var w1 := Step(w, RunningWrite(j, true));
    var w2 := Step(w1, Execute(j, x));
    OneStep(w2, last, []);
    assert [last] + [] == [last];
    OneStep(w1, Execute(j, x), [last]);
    OneStep(w, RunningWrite(j, true), [Execute(j, x)] + [last]);
  }

  /** Every queued command can be run, whatever its executor answers, and its task's record then says so. */
  lemma {:induction false} CommandReports(w: World, i: nat, x: Execution) returns (events: seq<Event>)
    requires Inv(w) && i < |w.queue|
    ensures Runs(w, events)
    ensures var t := w.queue[i].task; t in End(w, events).tasks && Reports(End(w, events).tasks[t], x)
    decreases i
  {
    StepKeepsInv(w, Take);
    var w' := Step(w, Take);
    var rest;
    if i == 0 {
      JobReports(w', |w.jobs|, x);
      rest := JobSteps(|w.jobs|, x);
    } else {
      rest := CommandReports(w', i - 1, x);
    }
    OneStep(w, Take, rest);
    events := [Take] + rest;
  }

  /** A queue request counts exactly if it finds its task DRAFT, PAUSED or FAILED. */
  lemma RequestCounts(w: World, t: TaskId, id: string)
    requires id !in w.seenIds
    ensures var w' := Step(w, QueueRequest(t, id));
            if t in w.tasks && w.tasks[t].status in {DRAFT, PAUSED, FAILED} then
              && w'.tasks == w.tasks[t := w.tasks[t].(status := QUEUED, error := None)]
              && w'.queue == w.queue + [Command(id, t, "PROCESS_TASK", Some(0), Some(w.clock))]
              && AllOutstanding(w') == AllOutstanding(w) + multiset{t} && w'.accepted == w.accepted + multiset{t}
            else w' == w
  {
    if t in w.tasks && w.tasks[t].status in {DRAFT, PAUSED, FAILED} { OtherOutstanding(w, QueueRequest(t, id)); }
  }

  /**
   In every reachable state a task that is DRAFT or FAILED can be queued: it is QUEUED then, with its
   one command outstanding, and whatever the executor is to answer, some continuation ends with that
   on the record. So a failed task can be tried again until it succeeds.
   */
  lemma CanBeTried(clock: int, before: seq<Event>, t: TaskId, id: string, x: Execution) returns (events: seq<Event>)
    requires Runs(Empty(clock), before) && id !in End(Empty(clock), before).seenIds
    requires var w := End(Empty(clock), before); t in w.tasks && w.tasks[t].status in {DRAFT, FAILED}
    ensures var w' := Step(End(Empty(clock), before), QueueRequest(t, id));
            && t in w'.tasks && w'.tasks[t].status == QUEUED && AllOutstanding(w')[t] == 1
            && Runs(w', events) && t in End(w', events).tasks && Reports(End(w', events).tasks[t], x)
  {
    var w := End(Empty(clock), before);
    RunKeepsInv(Empty(clock), before);
    RequestCounts(w, t, id);
    StepKeepsInv(w, QueueRequest(t, id));
    SettledIsIdle(w, t);
    CountOnce(w, t);
    var w' := Step(w, QueueRequest(t, id));
    assert w'.queue[|w.queue|].task == t;
    events := CommandReports(w', |w.queue|, x);
  }

  lemma OutstandingCanEnd(w: World, t: TaskId) returns (events: seq<Event>)
    requires Inv(w) && Outstanding(w, t)
    ensures Runs(w, events) && t in End(w, events).tasks && End(w, events).tasks[t].status in {COMPLETED, FAILED}
  {
    if i :| 0 <= i < |w.queue| && w.queue[i].task == t {
      events := CommandCanEnd(w, i);
    } else {
      var j :| 0 <= j < |w.jobs| && w.jobs[j].task == t;
      events := JobCanEnd(w, j);
    }
  }

  /** Some continuation takes the task out of CANCELLED. */
  ghost predicate CanLeaveCancelled(w: World, t: TaskId) {
    exists events :: Runs(w, events) && t in End(w, events).tasks && End(w, events).tasks[t].status != CANCELLED
  }

  /**
   Cancelling does not withdraw a command. A cancelled task can still become RUNNING and then
   COMPLETED or FAILED exactly when a command of it is outstanding.
   */
  lemma CancelledIsFinalIffIdle(w: World, t: TaskId)
    requires Inv(w) && t in w.tasks && w.tasks[t].status == CANCELLED
    ensures CanLeaveCancelled(w, t) <==> Outstanding(w, t)
  {
    if Outstanding(w, t) {
      var events := OutstandingCanEnd(w, t);
    } else {
      forall events | Runs(w, events) ensures t in End(w, events).tasks && End(w, events).tasks[t].status == CANCELLED {
        CancelledForGood(w, events, t);
      }
    }
  }

  /** Such a task exists, and it ends COMPLETED or FAILED in some continuation. */
  lemma CancelledYetRun(clock: int) returns (events: seq<Event>)
    ensures var asked := [CreateTask("t"), QueueRequest("t", "c"), CancelRequest("t")];
            && Runs(Empty(clock), asked)
            && var w := End(Empty(clock), asked);
               && "t" in w.tasks && w.tasks["t"].status == CANCELLED && Runs(w, events)
               && "t" in End(w, events).tasks && End(w, events).tasks["t"].status in {COMPLETED, FAILED}
  {
    var asked := [CreateTask("t"), QueueRequest("t", "c"), CancelRequest("t")];
    CancelledWithCommand(clock);
    RunKeepsInv(Empty(clock), asked);
    events := OutstandingCanEnd(End(Empty(clock), asked), "t");
  }
}
