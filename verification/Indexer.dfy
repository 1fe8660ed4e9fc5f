/** One `index_directory` task: the handler that creates it, the monitor that
    polls the store and raises the cancel flag, the worker that walks the tree
    and then tries to complete the task, and any clients on any connections. */
module Indexer {
  import opened Wrappers
  import opened Tasks
  import opened AtomicStore
  import opened StoreProtocol
  import opened Walk

  const HANDLER: nat := 0
  const WORKER: nat := 1
  const MONITOR: nat := 2
  const FIRST_CLIENT: nat := 3

  /** The task's id, the connection its own process uses, and what to index. */
  datatype Job = Job(id: string, home: nat, root: Node, measure: Measure)

  datatype HandlerPc = Fresh | Inserting | Registering | Spawned | Refused

  datatype MonitorPc = Sleeping | Polling | Stopped

  /** `Exited` keeps the reply the worker stopped on. */
  datatype WorkerPc =
    | Walking
    | CleaningUp
    | Asking
    | Checking
    | Settling(to: TaskStatus)
    | Updating(to: TaskStatus)
    | Exited(last: Reply)

  /** `observed` is what the walk's checks have read so far; `index` is what a
      finished walk returned; `polls` counts the monitor's finished polls. */
  datatype System = System(
    store: State,
    cancelTxs: set<string>,
    flag: bool,
    handler: HandlerPc,
    monitor: MonitorPc,
    worker: WorkerPc,
    observed: seq<bool>,
    panicked: bool,
    index: Option<Totals>,
    polls: nat)

  datatype Move =
    | ClientCall(c: nat, agent: nat, op: Op)
    | ClientReturn(c: nat)
    | StoreStatement(c: nat, fault: bool)
    | HandlerMove
    | MonitorMove
    | WorkerMove(panic: bool)

  /** The flag as the walk has seen it, going on as it was last seen. */
  function FlagSeen(observed: seq<bool>): Flag {
    (k: nat) => if k < |observed| then observed[k] else observed != [] && observed[|observed| - 1]
  }

  function WalkSeen(job: Job, observed: seq<bool>): (seq<Node>, nat) {
    WalkDir(job.root, FlagSeen(observed), 0)
  }

  function IndexSeen(job: Job, observed: seq<bool>): Totals {
    Tally(job.measure, ZERO, WalkSeen(job, observed).0)
  }

  predicate HomeIdle(job: Job, y: System) {
    job.home < |y.store.conns| && y.store.conns[job.home].Idle?
  }

  /** The reply waiting for `agent` on the home connection. */
  function HomeReply(job: Job, y: System, agent: nat): Option<Reply> {
    if job.home < |y.store.conns| && y.store.conns[job.home].Busy? && y.store.conns[job.home].agent == agent
       && y.store.conns[job.home].pc.Finished?
    then Some(y.store.conns[job.home].pc.reply) else None
  }

  function CallHome(job: Job, y: System, agent: nat, op: Op): State {
    Next(y.store, job.home, Call(agent, op))
  }

  function ReturnHome(job: Job, y: System): State {
    Next(y.store, job.home, Return)
  }

  /** One step of anybody; one that is not enabled changes nothing. Clients
      never insert this task's id, which is freshly generated. */
  function Step(job: Job, y: System, move: Move): System {
    match move
    case ClientCall(c, agent, op) =>
      if agent < FIRST_CLIENT || (op.Insert? && op.task.id == job.id) then y
      else y.(store := Next(y.store, c, Call(agent, op)))
    case ClientReturn(c) =>
      if c < |y.store.conns| && y.store.conns[c].Busy? && y.store.conns[c].agent >= FIRST_CLIENT
      then y.(store := Next(y.store, c, Return)) else y
    case StoreStatement(c, fault) => y.(store := Next(y.store, c, Statement(fault)))
    case HandlerMove => HandlerStep(job, y)
    case MonitorMove => if y.handler.Spawned? then MonitorStep(job, y) else y
    case WorkerMove(panic) => if y.handler.Spawned? then WorkerStep(job, y, panic) else y
  }

  function HandlerStep(job: Job, y: System): System {
    match y.handler
    case Fresh =>
      if HomeIdle(job, y)
      then y.(store := CallHome(job, y, HANDLER, Insert(NewTask(job.id))), handler := Inserting) else y
    case Inserting =>
      (match HomeReply(job, y, HANDLER)
       case None => y
       case Some(reply) => y.(store := ReturnHome(job, y), handler := if reply.Stored? then Registering else Refused))
    case Registering => y.(cancelTxs := y.cancelTxs + {job.id}, handler := Spawned)
    case _ => y
  }

  function MonitorStep(job: Job, y: System): System {
    match y.monitor
    case Sleeping =>
      if HomeIdle(job, y)
      then y.(store := CallHome(job, y, MONITOR, Get(job.id)), monitor := Polling) else y
    case Polling =>
      (match HomeReply(job, y, MONITOR)
       case None => y
       case Some(reply) =>
         var polled := y.(store := ReturnHome(job, y), polls := y.polls + 1);
         if reply.Found? && reply.task.status == Cancelled then
           // A send with no receiver left, after the walk, changes nothing.
           polled.(flag := y.flag || y.worker.Walking?, monitor := Stopped)
         else if (reply.Found? && IsTerminal(reply.task.status)) || reply.Rejected? then
           polled.(monitor := Stopped)
         else polled.(monitor := Sleeping))
    case Stopped => y
  }

  function WorkerStep(job: Job, y: System, panic: bool): System {
    match y.worker
    case Walking =>
      if panic then y.(panicked := true, worker := CleaningUp)
      else if WalkSeen(job, y.observed).1 <= |y.observed| then
        y.(index := Some(IndexSeen(job, y.observed)), worker := CleaningUp)
      else y.(observed := y.observed + [y.flag])
    case CleaningUp =>
      y.(cancelTxs := y.cancelTxs - {job.id}, worker := if y.panicked then Settling(Failed) else Asking)
    case Asking =>
      if HomeIdle(job, y) then y.(store := CallHome(job, y, WORKER, Get(job.id)), worker := Checking) else y
    case Checking =>
      (match HomeReply(job, y, WORKER)
       case None => y
       case Some(reply) =>
         y.(store := ReturnHome(job, y),
            worker := if reply.Found? && reply.task.status == Cancelled then Exited(reply) else Settling(Completed)))
    case Settling(to) =>
      if HomeIdle(job, y) then y.(store := CallHome(job, y, WORKER, Update(job.id, to)), worker := Updating(to)) else y
    case Updating(_) =>
      (match HomeReply(job, y, WORKER)
       case None => y
       case Some(reply) => y.(store := ReturnHome(job, y), worker := Exited(reply)))
    case Exited(_) => y
  }

  function Play(job: Job, y: System, moves: seq<Move>): System
    decreases |moves|
  {
    if moves == [] then y else Step(job, Play(job, y, moves[..|moves| - 1]), moves[|moves| - 1])
  }

  ghost predicate Start(job: Job, y: System) {
    && Initial(y.store) && job.home < |y.store.conns|
    && y.handler == Fresh && y.monitor == Sleeping && y.worker == Walking
    && !y.flag && y.observed == [] && !y.panicked && y.index == None && y.polls == 0
  }

  /** A reply that shows the task to be over. */
  predicate Settles(reply: Reply) {
    || (reply.Found? && IsTerminal(reply.task.status))
    || (reply.Rejected? && reply.error.IllegalTransition? && IsTerminal(reply.error.from))
  }
}
