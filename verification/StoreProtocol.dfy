/** Any number of connections sharing one database file, one statement at a
    time. A connection's mutex is held for a whole operation, so interleaving
    happens between connections only; each statement is one atomic step and may
    fail with no effect. */
module StoreProtocol {
  import opened Wrappers
  import opened Tasks
  import opened AtomicStore
  import opened TaskTable

  /** Where an operation stands. `read` is the length of the write log at the
      moment its first read saw `from`. */
  datatype Pc =
    | Begin
    | Guarded(from: TaskStatus, read: nat)
    | Reread(read: nat)
    | Unguarded(from: TaskStatus, read: nat)
    | Finished(reply: Reply)

  /** A busy connection works for one `agent`; `since` is how many operations
      had taken effect, on any connection, when this one was called. */
  datatype Conn = Idle | Busy(agent: nat, op: Op, pc: Pc, since: nat)

  datatype Cause = ByInsert | ByUpdate | ByCancel

  /** A committed write. */
  datatype Write = Write(conn: nat, agent: nat, id: string, cause: Cause, read: nat, after: TaskStatus)

  /** How an operation's last statement went. */
  datatype Manner =
    | Atomic    // like the atomic store
    | Fault     // the statement failed
    | Conflict  // an update lost a race to a status that still permits it
    | Overwrite // a cancel landed on a completed or failed row

  /** An operation taking effect, with the reply it will return. */
  datatype Event = Event(conn: nat, agent: nat, op: Op, reply: Reply, manner: Manner)

  /** `log` and `events` are history: no step looks at them. */
  datatype State = State(rows: Table, conns: seq<Conn>, log: seq<Write>, events: seq<Event>)

  datatype Action = Call(agent: nat, op: Op) | Statement(fault: bool) | Return

  /** The action of connection `c`; one that is not enabled changes nothing. */
  function Next(s: State, c: nat, a: Action): State {
    if c >= |s.conns| then s else
    match (s.conns[c], a)
    case (Idle, Call(agent, op)) =>
      s.(conns := s.conns[c := Busy(agent, op, Begin, |s.events|)])
    case (Busy(_, _, Finished(_), _), Return) =>
      s.(conns := s.conns[c := Idle])
    case (Busy(_, _, pc, _), Statement(fault)) =>
      if pc.Finished? then s
      else if fault then Finish(s, c, Rejected(Sqlite), Fault)
      else Execute(s, c)
    case _ => s
  }

  /** The reply is ready and the operation has taken its effect. */
  function Finish(s: State, c: nat, reply: Reply, manner: Manner): State
    requires c < |s.conns| && s.conns[c].Busy?
  {
    s.(conns := s.conns[c := s.conns[c].(pc := Finished(reply))],
       events := s.events + [Event(c, s.conns[c].agent, s.conns[c].op, reply, manner)])
  }

  function Move(s: State, c: nat, pc: Pc): State
    requires c < |s.conns| && s.conns[c].Busy?
  {
    s.(conns := s.conns[c := s.conns[c].(pc := pc)])
  }

  /** The one read of a task: what it gives an operation that cannot go on. */
  function ReadFailure(rows: Table, id: string): Reply {
    if id !in rows then Rejected(NotFound(id)) else Rejected(Sqlite)
  }

  /** The next statement of the operation on connection `c` goes through. */
  function Execute(s: State, c: nat): State
    requires c < |s.conns| && s.conns[c].Busy? && !s.conns[c].pc.Finished?
  {
    var conn := s.conns[c];
    match conn.op
    case Insert(task) =>
      Finish(s.(rows := ReplaceRow(s.rows, task.id, AsStr(task.status)),
                log := s.log + [Write(c, conn.agent, task.id, ByInsert, |s.log|, task.status)]),
             c, Stored, Atomic)
    case Get(id) =>
      (match StatusOf(s.rows, id)
       case None => Finish(s, c, ReadFailure(s.rows, id), Atomic)
       case Some(status) => Finish(s, c, Found(Task(id, status, None, map[])), Atomic))
    case Update(id, to) => ExecuteUpdate(s, c, id, to)
    case Cancel(id) => ExecuteCancel(s, c, id)
  }

  function ExecuteUpdate(s: State, c: nat, id: string, to: TaskStatus): State
    requires c < |s.conns| && s.conns[c].Busy? && !s.conns[c].pc.Finished?
  {
    var conn := s.conns[c];
    match conn.pc
    case Guarded(from, read) =>
      var (rows, changed) := UpdateGuarded(s.rows, id, AsStr(from), AsStr(to));
      if changed == 0 then Move(s, c, Reread(read)) else
      Finish(s.(rows := rows, log := s.log + [Write(c, conn.agent, id, ByUpdate, read, to)]),
             c, Found(Task(id, to, None, map[])), Atomic)
    case Reread(_) =>
      (match StatusOf(s.rows, id)
       case None => Finish(s, c, ReadFailure(s.rows, id), Atomic)
       case Some(now) => Finish(s, c, Rejected(IllegalTransition(now, to)),
                                if CanTransitionTo(now, to) then Conflict else Atomic))
    case _ =>
      (match StatusOf(s.rows, id)
       case None => Finish(s, c, ReadFailure(s.rows, id), Atomic)
       case Some(from) =>
         if CanTransitionTo(from, to) then Move(s, c, Guarded(from, |s.log|))
         else Finish(s, c, Rejected(IllegalTransition(from, to)), Atomic))
  }

  function ExecuteCancel(s: State, c: nat, id: string): State
    requires c < |s.conns| && s.conns[c].Busy? && !s.conns[c].pc.Finished?
  {
    var conn := s.conns[c];
    match conn.pc
    case Unguarded(from, read) =>
      var rows := UpdateById(s.rows, id, AsStr(Cancelled));
      Finish(s.(rows := rows,
                log := if id in s.rows then s.log + [Write(c, conn.agent, id, ByCancel, read, Cancelled)] else s.log),
             c, Found(Task(id, Cancelled, None, map[])),
             if StatusOf(s.rows, id) in {Some(Completed), Some(Failed)} then Overwrite else Atomic)
    case _ =>
      (match StatusOf(s.rows, id)
       case None => Finish(s, c, ReadFailure(s.rows, id), Atomic)
       case Some(from) =>
         if IsTerminal(from) then Finish(s, c, Found(Task(id, from, None, map[])), Atomic)
         else Move(s, c, Unguarded(from, |s.log|)))
  }

  /** A whole run: any schedule of actions over any connections. */
  type Schedule = seq<(nat, Action)>

  function Run(s: State, schedule: Schedule): State
    decreases |schedule|
  {
    if schedule == [] then s else
      var last := schedule[|schedule| - 1];
      Next(Run(s, schedule[..|schedule| - 1]), last.0, last.1)
  }

  /** A database file opened by some connections, nothing going on yet. */
  ghost predicate Initial(s: State) {
    Known(s.rows) && s.log == [] && s.events == [] && forall c :: 0 <= c < |s.conns| ==> s.conns[c].Idle?
  }

  /** The status of `id` after the writes of `log`, starting from `rows`. */
  function StatusAfter(rows: Table, log: seq<Write>, id: string): Option<TaskStatus>
    decreases |log|
  {
    if log == [] then StatusOf(rows, id)
    else if log[|log| - 1].id == id then Some(log[|log| - 1].after)
    else StatusAfter(rows, log[..|log| - 1], id)
  }

  /** The tasks after `events`, starting from `tasks`, each taken at its word. */
  function Effect(tasks: TaskMap, e: Event): TaskMap {
    match e.manner
    case Atomic => Apply(ForgetOp(e.op), tasks).0
    case Overwrite => tasks[e.op.Target() := Task(e.op.Target(), Cancelled, None, map[])]
    case _ => tasks
  }

  function TasksAfter(tasks: TaskMap, events: seq<Event>): TaskMap
    decreases |events|
  {
    if events == [] then tasks
    else Effect(TasksAfter(tasks, events[..|events| - 1]), events[|events| - 1])
  }

  /** The reply is the atomic store's, or the event is one of the three ways
      the connections together can differ from it. */
  ghost predicate Explained(tasks: TaskMap, e: Event) {
    var id := e.op.Target();
    match e.manner
    case Atomic => e.reply == Apply(ForgetOp(e.op), tasks).1
    case Fault => e.reply == Rejected(Sqlite)
    case Conflict =>
      && e.op.Update? && id in tasks && CanTransitionTo(tasks[id].status, e.op.to)
      && e.reply == Rejected(IllegalTransition(tasks[id].status, e.op.to))
    case Overwrite =>
      && e.op.Cancel? && id in tasks && tasks[id].status in {Completed, Failed}
      && e.reply == Found(Task(id, Cancelled, None, map[]))
  }

  /** No write by connection `c` in `log[lo..hi]`. */
  ghost predicate NoneBy(log: seq<Write>, c: nat, lo: nat, hi: nat) {
    forall k :: lo <= k < hi && k < |log| ==> log[k].conn != c
  }

  /** Another connection than `c` wrote `id` in `log[lo..hi]`. */
  ghost predicate WrittenByOther(log: seq<Write>, c: nat, id: string, lo: nat, hi: nat) {
    exists k :: lo <= k < hi && k < |log| && log[k].id == id && log[k].conn != c
  }

  /** What a write owes to the log before it. An update lands on the very
      status it read, by a legal step. A cancel read a live status earlier. */
  ghost predicate WriteOk(rows: Table, log: seq<Write>, k: nat)
    requires k < |log|
  {
    var w := log[k];
    var before := StatusAfter(rows, log[..k], w.id);
    match w.cause
    case ByInsert => true
    case ByUpdate => before.Some? && CanTransitionTo(before.value, w.after)
    case ByCancel =>
      && w.after == Cancelled && before.Some?
      && w.read <= k && NoneBy(log, w.conn, w.read, k)
      && StatusAfter(rows, log[..w.read], w.id).Some?
      && !IsTerminal(StatusAfter(rows, log[..w.read], w.id).value)
  }

  /** What a connection between two statements remembers is what was true when
      it read, and it has written nothing since. */
  ghost predicate ConnOk(rows: Table, s: State, c: nat)
    requires c < |s.conns|
  {
    var conn := s.conns[c];
    conn.Busy? ==>
      && conn.since <= |s.events|
      && (!conn.pc.Finished? ==> forall e :: conn.since <= e < |s.events| ==> s.events[e].conn != c)
      && match conn.pc
         case Begin => true
         case Guarded(from, read) =>
           && conn.op.Update? && CanTransitionTo(from, conn.op.to)
           && read <= |s.log| && NoneBy(s.log, c, read, |s.log|)
           && StatusAfter(rows, s.log[..read], conn.op.id) == Some(from)
         case Reread(read) =>
           conn.op.Update? && conn.op.id in s.rows && WrittenByOther(s.log, c, conn.op.id, read, |s.log|)
         case Unguarded(from, read) =>
           && conn.op.Cancel? && !IsTerminal(from)
           && read <= |s.log| && NoneBy(s.log, c, read, |s.log|)
           && StatusAfter(rows, s.log[..read], conn.op.id) == Some(from)
         case Finished(reply) =>
           exists e :: TookEffectAt(s.events, c, conn, e) && s.events[e].reply == reply
  }

  /** The operation of `conn` took effect as event `e`, and at no other point
      since it was called. */
  ghost predicate TookEffectAt(events: seq<Event>, c: nat, conn: Conn, e: int)
    requires conn.Busy?
  {
    && conn.since <= e < |events| && events[e].conn == c && events[e].op == conn.op
    && forall f :: conn.since <= f < |events| && events[f].conn == c ==> f == e
  }

  ghost predicate ConnsOk(rows: Table, s: State) {
    forall c :: 0 <= c < |s.conns| ==> ConnOk(rows, s, c)
  }

  /** The log explains the table. */
  ghost predicate LogOk(rows: Table, s: State) {
    && Known(s.rows)
    && (forall id :: StatusOf(s.rows, id) == StatusAfter(rows, s.log, id))
    && (forall k :: 0 <= k < |s.log| ==> WriteOk(rows, s.log, k))
  }

  /** The events, replayed on the atomic store, explain table and replies. */
  ghost predicate EventsOk(rows: Table, s: State)
    requires Known(rows)
  {
    && Known(s.rows)
    && Abs(s.rows) == TasksAfter(Abs(rows), s.events)
    && (forall e :: 0 <= e < |s.events| ==> Explained(TasksAfter(Abs(rows), s.events[..e]), s.events[e]))
  }

  /** The invariant of every run that starts from the table `rows`. */
  ghost predicate Inv(rows: Table, s: State) {
    Known(rows) && LogOk(rows, s) && EventsOk(rows, s) && ConnsOk(rows, s)
  }
}
