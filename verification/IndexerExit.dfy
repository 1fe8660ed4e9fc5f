/** How the indexer's worker ends, and what can leave its task live. */
module IndexerExit {
  import opened Wrappers
  import opened Tasks
  import opened AtomicStore
  import opened TaskTable
  import opened StoreProtocol
  import opened StoreInvariant
  import opened StoreTheorems
  import opened UpdatesUnderWay
  import opened Walk
  import opened Indexer
  import opened IndexerInvariant

  // ---- the account: what the worker's update can come to ----

  /** A last reply that settles the task, or has one of two excuses: a statement
      of the update failed, or the task was paused. */
  predicate Excused(reply: Reply, failed: bool, paused: bool) {
    || Settles(reply)
    || (reply == Rejected(Sqlite) && failed)
    || (reply.Rejected? && reply.error.IllegalTransition? && paused)
  }

  /** What the worker's update remembers is as it should be, or was excused. */
  predicate AccountedConn(job: Job, y: System, conn: Conn, failed: bool, paused: bool)
    requires conn.Busy?
  {
    conn.agent == WORKER && conn.op.Update? ==>
      && (conn.pc.Guarded? ==> conn.pc.from == Working || paused)
      && (conn.pc.Reread? ==> RowTerminal(job, y) || paused)
      && (conn.pc.Finished? ==> Excused(conn.pc.reply, failed, paused))
  }

  ghost predicate Accounted(job: Job, y: System, failed: bool, paused: bool) {
    && (Row(job, y) == Some(InputRequired) ==> paused)
    && (forall c :: 0 <= c < |y.store.conns| && y.store.conns[c].Busy? ==>
          AccountedConn(job, y, y.store.conns[c], failed, paused))
    && (y.worker.Exited? ==> Excused(y.worker.last, failed, paused))
  }

  lemma MoreExcuses(job: Job, y: System, failed: bool, paused: bool, failedToo: bool, pausedToo: bool)
    requires Accounted(job, y, failed, paused) && (failed ==> failedToo) && (paused ==> pausedToo)
    ensures Accounted(job, y, failedToo, pausedToo)
  {
    forall c | 0 <= c < |y.store.conns| && y.store.conns[c].Busy?
      ensures AccountedConn(job, y, y.store.conns[c], failedToo, pausedToo)
    {
      assert AccountedConn(job, y, y.store.conns[c], failed, paused);
    }
  }

  predicate UpdateOfWorker(conn: Conn) {
    conn.Busy? && conn.agent == WORKER && conn.op.Update? && !conn.pc.Finished?
  }

  predicate Pauses(job: Job, w: Write) {
    w.id == job.id && w.cause == ByUpdate && w.after == InputRequired
  }

  /** The statement on connection `c` pauses the task. */
  predicate PausesNow(job: Job, y: System, c: nat, fault: bool) {
    var log := AfterStatement(y, c, fault).store.log;
    |y.store.log| < |log| && Pauses(job, log[|y.store.log|])
  }

  lemma UpdateIsAccounted(job: Job, rows: Table, y: System, c: nat, failed: bool, paused: bool)
    requires Good(job, rows, y) && Accounted(job, y, failed, paused)
    requires c < |y.store.conns| && UpdateOfWorker(y.store.conns[c])
    ensures var y' := AfterStatement(y, c, false);
            y'.store.conns[c].Busy? && AccountedConn(job, y', y'.store.conns[c], failed, paused)
  {
    var conn := y.store.conns[c];
    assert AccountedConn(job, y, conn, failed, paused) && ConnTag(job, y, c) && ConnOk(rows, y.store, c);
    assert AfterStatement(y, c, false).store == ExecuteUpdate(y.store, c, job.id, conn.op.to);
    match conn.pc
    case Begin => ReadIsAccounted(job, y, c, failed, paused);
    case Guarded(_, _) => WriteIsAccounted(job, rows, y, c, failed, paused);
    case Reread(_) =>
  }

  lemma ReadIsAccounted(job: Job, y: System, c: nat, failed: bool, paused: bool)
    requires Accounted(job, y, failed, paused) && job.id in y.store.rows && Known(y.store.rows)
    requires c < |y.store.conns| && UpdateOfWorker(y.store.conns[c]) && y.store.conns[c].pc == Begin
    requires y.store.conns[c].op.id == job.id && y.store.conns[c].op.to in {Completed, Failed}
    ensures var y' := AfterStatement(y, c, false);
            y'.store.conns[c].Busy? && AccountedConn(job, y', y'.store.conns[c], failed, paused)
  {
    assert AfterStatement(y, c, false).store == ExecuteUpdate(y.store, c, job.id, y.store.conns[c].op.to);
  }

  lemma WriteIsAccounted(job: Job, rows: Table, y: System, c: nat, failed: bool, paused: bool)
    requires Inv(rows, y.store) && Accounted(job, y, failed, paused)
    requires c < |y.store.conns| && UpdateOfWorker(y.store.conns[c]) && y.store.conns[c].pc.Guarded?
    requires y.store.conns[c].op.id == job.id && y.store.conns[c].op.to in {Completed, Failed}
    ensures var y' := AfterStatement(y, c, false);
            y'.store.conns[c].Busy? && AccountedConn(job, y', y'.store.conns[c], failed, paused)
  {
    var conn := y.store.conns[c];
    assert AccountedConn(job, y, conn, failed, paused);
    assert AfterStatement(y, c, false).store == ExecuteUpdate(y.store, c, job.id, conn.op.to);
    GuardedRowIsThere(rows, y.store, c);
    GuardIsStatusGuard(y.store.rows, job.id, conn.pc.from);
  }

  lemma RowIsAccounted(job: Job, rows: Table, y: System, c: nat, fault: bool, failed: bool, paused: bool)
    requires Good(job, rows, y) && Accounted(job, y, failed, paused)
    requires c < |y.store.conns| && y.store.conns[c].Busy? && (PausesNow(job, y, c, fault) ==> paused)
    ensures Row(job, AfterStatement(y, c, fault)) == Some(InputRequired) ==> paused
  {
    assert ConnTag(job, y, c);
    StatementStep(job, rows, y, c, fault);
  }

  /** What a connection remembers when the statement is not one of its update. */
  lemma MemoryIsAccounted(job: Job, rows: Table, y: System, c: nat, fault: bool, d: nat, failed: bool, paused: bool)
    requires Good(job, rows, y) && Accounted(job, y, failed, paused)
    requires c < |y.store.conns| && y.store.conns[c].Busy? && d < |y.store.conns| && y.store.conns[d].Busy?
    ensures AccountedConn(job, AfterStatement(y, c, fault), y.store.conns[d], failed, paused)
  {
    assert AccountedConn(job, y, y.store.conns[d], failed, paused) && ConnTag(job, y, d);
    StatementKeepsRow(job, rows, y, c, fault);
  }

  lemma ConnIsAccounted(job: Job, rows: Table, y: System, c: nat, fault: bool, d: nat, failed: bool, paused: bool)
    requires Good(job, rows, y) && Accounted(job, y, failed, paused)
    requires c < |y.store.conns| && y.store.conns[c].Busy? && d < |y.store.conns| && y.store.conns[d].Busy?
    requires fault && UpdateOfWorker(y.store.conns[c]) ==> failed
    ensures var y' := AfterStatement(y, c, fault);
            && d < |y'.store.conns| && y'.store.conns[d].Busy?
            && AccountedConn(job, y', y'.store.conns[d], failed, paused)
  {
    StatementEffects(y.store, c, fault);
    if d == c && UpdateOfWorker(y.store.conns[d]) {
      if !fault {
        UpdateIsAccounted(job, rows, y, c, failed, paused);
      }
    } else {
      MemoryIsAccounted(job, rows, y, c, fault, d, failed, paused);
    }
  }

  lemma StatementIsAccounted(job: Job, rows: Table, y: System, c: nat, fault: bool, failed: bool, paused: bool)
    requires Good(job, rows, y) && Accounted(job, y, failed, paused)
    requires c < |y.store.conns| && y.store.conns[c].Busy?
    requires fault && UpdateOfWorker(y.store.conns[c]) ==> failed
    requires PausesNow(job, y, c, fault) ==> paused
    ensures Accounted(job, AfterStatement(y, c, fault), failed, paused)
  {
    var y' := AfterStatement(y, c, fault);
    RowIsAccounted(job, rows, y, c, fault, failed, paused);
    StatementEffects(y.store, c, fault);
    forall d | 0 <= d < |y'.store.conns| && y'.store.conns[d].Busy?
      ensures AccountedConn(job, y', y'.store.conns[d], failed, paused)
    {
      ConnIsAccounted(job, rows, y, c, fault, d, failed, paused);
    }
  }

  /** A call or a return moves one connection and leaves the table alone. */
  lemma CallIsAccounted(job: Job, y: System, y': System, c: nat, a: Action, failed: bool, paused: bool)
    requires Accounted(job, y, failed, paused) && !a.Statement?
    requires y'.store == y.store || y'.store == Next(y.store, c, a)
    requires y'.worker.Exited? ==> Excused(y'.worker.last, failed, paused)
    ensures Accounted(job, y', failed, paused)
  {
    forall d | 0 <= d < |y'.store.conns| && y'.store.conns[d].Busy?
      ensures AccountedConn(job, y', y'.store.conns[d], failed, paused)
    {
      if y.store.conns[d].Busy? {
        assert AccountedConn(job, y, y.store.conns[d], failed, paused);
      }
    }
  }

  /** What the task's own agents call, if they call. */
  function OwnAction(job: Job, y: System, move: Move): Action {
    if move.HandlerMove? && y.handler == Fresh then Call(HANDLER, Insert(NewTask(job.id)))
    else if move.MonitorMove? && y.monitor == Sleeping then Call(MONITOR, Get(job.id))
    else if move.WorkerMove? && y.worker == Asking then Call(WORKER, Get(job.id))
    else if move.WorkerMove? && y.worker.Settling? then Call(WORKER, Update(job.id, y.worker.to))
    else Return
  }

  lemma ExitIsExcused(job: Job, y: System, panic: bool, failed: bool, paused: bool)
    requires Tags(job, y) && Accounted(job, y, failed, paused) && WorkerStep(job, y, panic).worker.Exited?
    ensures Excused(WorkerStep(job, y, panic).worker.last, failed, paused)
  {
    if !y.worker.Exited? {
      assert ConnTag(job, y, job.home) && AccountedConn(job, y, y.store.conns[job.home], failed, paused);
    }
  }

  predicate Own(move: Move) {
    move.HandlerMove? || move.MonitorMove? || move.WorkerMove?
  }

  /** A move of the task's own agents calls, returns, or leaves the store alone. */
  lemma OwnMovesCall(job: Job, y: System, move: Move)
    requires Own(move)
    ensures var y', a := Step(job, y, move), OwnAction(job, y, move);
            !a.Statement? && (y'.store == y.store || y'.store == Next(y.store, job.home, a))
  {
  }

  lemma OwnStepIsAccounted(job: Job, y: System, move: Move, failed: bool, paused: bool)
    requires Tags(job, y) && Accounted(job, y, failed, paused) && Own(move)
    ensures Accounted(job, Step(job, y, move), failed, paused)
  {
    var y' := Step(job, y, move);
    if move.WorkerMove? && y.handler == Spawned && y'.worker.Exited? {
      ExitIsExcused(job, y, move.panic, failed, paused);
    }
    OwnMovesCall(job, y, move);
    CallIsAccounted(job, y, y', job.home, OwnAction(job, y, move), failed, paused);
  }

  lemma ClientIsAccounted(job: Job, y: System, move: Move, failed: bool, paused: bool)
    requires Accounted(job, y, failed, paused) && (move.ClientCall? || move.ClientReturn?)
    ensures Accounted(job, Step(job, y, move), failed, paused)
  {
    var a := if move.ClientCall? then Call(move.agent, move.op) else Return;
    CallIsAccounted(job, y, Step(job, y, move), move.c, a, failed, paused);
  }

  /** The move makes a statement of the worker's update fail. */
  predicate FailsUpdate(y: System, move: Move) {
    move.StoreStatement? && move.fault && move.c < |y.store.conns| && UpdateOfWorker(y.store.conns[move.c])
  }

  /** Every move of anybody keeps the account, with its own excuses added. */
  lemma StepIsAccounted(job: Job, rows: Table, y: System, move: Move, failed: bool, paused: bool)
    requires Good(job, rows, y) && Accounted(job, y, failed, paused)
    requires FailsUpdate(y, move) ==> failed
    requires move.StoreStatement? && PausesNow(job, y, move.c, move.fault) ==> paused
    ensures Accounted(job, Step(job, y, move), failed, paused)
  {
    match move
    case WorkerMove(_) => OwnStepIsAccounted(job, y, move, failed, paused);
    case HandlerMove => OwnStepIsAccounted(job, y, move, failed, paused);
    case MonitorMove => OwnStepIsAccounted(job, y, move, failed, paused);
    case ClientCall(_, _, _) => ClientIsAccounted(job, y, move, failed, paused);
    case ClientReturn(_) => ClientIsAccounted(job, y, move, failed, paused);
    case StoreStatement(c, fault) =>
      if c < |y.store.conns| && y.store.conns[c].Busy? {
        StatementIsAccounted(job, rows, y, c, fault, failed, paused);
      }
  }

  // ---- every run: the excuses are in the history ----

  predicate FailedUpdate(e: Event) {
    e.agent == WORKER && e.op.Update? && e.manner == Fault
  }

  /** A statement of the worker's own update has failed. */
  ghost predicate WorkerFailed(y: System) {
    exists e :: 0 <= e < |y.store.events| && FailedUpdate(y.store.events[e])
  }

  /** Somebody's update has paused the task. */
  ghost predicate Paused(job: Job, y: System) {
    exists k :: 0 <= k < |y.store.log| && Pauses(job, y.store.log[k])
  }

  lemma StoreGrows(job: Job, y: System, move: Move)
    ensures Grows(y.store, Step(job, y, move).store)
  {
    if Own(move) {
      OwnMovesCall(job, y, move);
      NextGrows(y.store, job.home, OwnAction(job, y, move));
    } else {
      match move
      case ClientCall(c, agent, op) => NextGrows(y.store, c, Call(agent, op));
      case ClientReturn(c) => NextGrows(y.store, c, Return);
      case StoreStatement(c, fault) => NextGrows(y.store, c, Statement(fault));
    }
  }

  lemma HistoryGrows(job: Job, y: System, move: Move)
    ensures var y' := Step(job, y, move);
            && (WorkerFailed(y) || FailsUpdate(y, move) ==> WorkerFailed(y'))
            && (Paused(job, y) || (move.StoreStatement? && PausesNow(job, y, move.c, move.fault)) ==> Paused(job, y'))
  {
    var y' := Step(job, y, move);
    StoreGrows(job, y, move);
    if WorkerFailed(y) {
      var e :| 0 <= e < |y.store.events| && FailedUpdate(y.store.events[e]);
      assert y'.store.events[e] == y.store.events[e];
    } else if FailsUpdate(y, move) {
      assert FailedUpdate(y'.store.events[|y.store.events|]);
    }
    if Paused(job, y) {
      var k :| 0 <= k < |y.store.log| && Pauses(job, y.store.log[k]);
      assert y'.store.log[k] == y.store.log[k];
    }
  }

  lemma {:induction false} PlayIsAccounted(job: Job, rows: Table, y: System, moves: seq<Move>)
    requires Good(job, rows, y) && Accounted(job, y, WorkerFailed(y), Paused(job, y))
    ensures var end := Play(job, y, moves);
            Good(job, rows, end) && Accounted(job, end, WorkerFailed(end), Paused(job, end))
    decreases |moves|
  {
    PlayKeeps(job, rows, y, moves);
    if moves == [] {
    } else {
      var mid, last := Play(job, y, moves[..|moves| - 1]), moves[|moves| - 1];
      var end := Step(job, mid, last);
      PlayIsAccounted(job, rows, y, moves[..|moves| - 1]);
      HistoryGrows(job, mid, last);
      MoreExcuses(job, mid, WorkerFailed(mid), Paused(job, mid), WorkerFailed(end), Paused(job, end));
      StepIsAccounted(job, rows, mid, last, WorkerFailed(end), Paused(job, end));
    }
  }

  /** A worker's exit leaves its cancel sender gone and, in every run from a
      fresh id, the task over; unless a statement of the worker's own update
      failed, or it was refused and somebody has paused the task. */
  lemma UnsettledExitHasCause(job: Job, y: System, moves: seq<Move>)
    requires Start(job, y) && job.id !in y.store.rows
    requires Play(job, y, moves).worker.Exited?
    ensures var end := Play(job, y, moves);
            && job.id !in end.cancelTxs
            && (Settles(end.worker.last) ==> RowTerminal(job, end))
            && (!Settles(end.worker.last) ==>
                  || (end.worker.last == Rejected(Sqlite) && WorkerFailed(end))
                  || (end.worker.last.Rejected? && end.worker.last.error.IllegalTransition? && Paused(job, end)))
  {
    StartIsGood(job, y);
    PlayIsAccounted(job, y.store.rows, y, moves);
  }

  // ---- quiet runs: there are no excuses ----

  /** No statement fails on the task's own connection, and no client pauses the
      task. Clients may do anything else, and other connections may fail. */
  predicate Quiet(job: Job, move: Move) {
    && (move.StoreStatement? && move.c == job.home ==> !move.fault)
    && (move.ClientCall? ==> move.op != Update(job.id, InputRequired))
  }

  predicate AllQuiet(job: Job, moves: seq<Move>) {
    forall move :: move in moves ==> Quiet(job, move)
  }

  /** An update that pauses the task, and has not had its last statement. */
  predicate PauseUnderWay(job: Job, conn: Conn) {
    conn.Busy? && conn.op == Update(job.id, InputRequired) && (conn.pc == Begin || conn.pc.Guarded?)
  }

  /** No pause is to come from an operation already called. */
  ghost predicate NoPauseAhead(job: Job, y: System) {
    || (y.handler == Spawned && RowTerminal(job, y))
    || forall c :: 0 <= c < |y.store.conns| ==> !PauseUnderWay(job, y.store.conns[c])
  }

  ghost predicate Secure(job: Job, y: System) {
    Accounted(job, y, false, false) && NoPauseAhead(job, y)
  }

  lemma PausingIsUnderWay(job: Job, rows: Table, s: State, c: nat, fault: bool)
    requires Inv(rows, s) && c < |s.conns| && s.conns[c].Busy?
    requires var s' := Next(s, c, Statement(fault)); |s.log| < |s'.log| && Pauses(job, s'.log[|s.log|])
    ensures PauseUnderWay(job, s.conns[c])
  {
    assert ConnOk(rows, s, c);
    StatementEffects(s, c, fault);
  }

  lemma NothingPauses(job: Job, rows: Table, y: System, c: nat, fault: bool)
    requires Good(job, rows, y) && NoPauseAhead(job, y)
    ensures !PausesNow(job, y, c, fault)
  {
    if c < |y.store.conns| && y.store.conns[c].Busy? && PausesNow(job, y, c, fault) {
      PausingIsUnderWay(job, rows, y.store, c, fault);
      StatementStep(job, rows, y, c, fault);
    }
  }

  lemma StatementStaysSecure(job: Job, rows: Table, y: System, c: nat, fault: bool)
    requires Good(job, rows, y) && Secure(job, y) && (c == job.home ==> !fault)
    requires c < |y.store.conns| && y.store.conns[c].Busy?
    ensures Secure(job, AfterStatement(y, c, fault))
  {
    assert ConnTag(job, y, c);
    NothingPauses(job, rows, y, c, fault);
    StatementIsAccounted(job, rows, y, c, fault, false, false);
    StatementKeepsRow(job, rows, y, c, fault);
    StatementEffects(y.store, c, fault);
    NoNewPause(job, rows, y, c, fault);
  }

  lemma NoNewPause(job: Job, rows: Table, y: System, c: nat, fault: bool)
    requires Inv(rows, y.store) && c < |y.store.conns| && y.store.conns[c].Busy?
    ensures var s' := AfterStatement(y, c, fault).store;
            && |s'.conns| == |y.store.conns|
            && forall d :: 0 <= d < |s'.conns| && PauseUnderWay(job, s'.conns[d]) ==>
                 PauseUnderWay(job, y.store.conns[d])
  {
    StatementEffects(y.store, c, fault);
    assert ConnOk(rows, y.store, c);
    var conn := y.store.conns[c];
    if !fault && conn.op.Update? && !conn.pc.Finished? {
      assert AfterStatement(y, c, false).store == ExecuteUpdate(y.store, c, conn.op.id, conn.op.to);
    }
  }

  lemma CallStaysSecure(job: Job, y: System, y': System, c: nat, a: Action)
    requires NoPauseAhead(job, y) && !a.Statement? && (y'.store == y.store || y'.store == Next(y.store, c, a))
    requires a.Call? ==> a.op != Update(job.id, InputRequired)
    requires y.handler == Spawned ==> y'.handler == Spawned
    ensures NoPauseAhead(job, y')
  {
  }

  lemma StepStaysSecure(job: Job, rows: Table, y: System, move: Move)
    requires Good(job, rows, y) && Secure(job, y) && Quiet(job, move)
    ensures Secure(job, Step(job, y, move))
  {
    var y' := Step(job, y, move);
    if move.StoreStatement? {
      if move.c < |y.store.conns| && y.store.conns[move.c].Busy? {
        StatementStaysSecure(job, rows, y, move.c, move.fault);
      }
    } else {
      StepIsAccounted(job, rows, y, move, false, false);
      if Own(move) {
        OwnMovesCall(job, y, move);
        CallStaysSecure(job, y, y', job.home, OwnAction(job, y, move));
      } else {
        CallStaysSecure(job, y, y', move.c, if move.ClientCall? then Call(move.agent, move.op) else Return);
      }
    }
  }

  lemma {:induction false} PlayStaysSecure(job: Job, rows: Table, y: System, moves: seq<Move>)
    requires Good(job, rows, y) && Secure(job, y) && AllQuiet(job, moves)
    ensures Secure(job, Play(job, y, moves))
    decreases |moves|
  {
    if moves == [] {
    } else {
      PlayStaysSecure(job, rows, y, moves[..|moves| - 1]);
      PlayKeeps(job, rows, y, moves[..|moves| - 1]);
      StepStaysSecure(job, rows, Play(job, y, moves[..|moves| - 1]), moves[|moves| - 1]);
    }
  }

  /** Worker exit leaves nothing dangling: in a quiet run, once the worker has
      exited, the task is over and its cancel sender is gone. */
  lemma ExitLeavesNothingDangling(job: Job, y: System, moves: seq<Move>)
    requires Start(job, y) && job.id !in y.store.rows && AllQuiet(job, moves)
    requires Play(job, y, moves).worker.Exited?
    ensures RowTerminal(job, Play(job, y, moves)) && job.id !in Play(job, y, moves).cancelTxs
    ensures Settles(Play(job, y, moves).worker.last)
  {
    StartIsGood(job, y);
    PlayStaysSecure(job, y.store.rows, y, moves);
    PlayKeeps(job, y.store.rows, y, moves);
  }

  // ---- about to make its update: exactly when it is sure to settle ----

  /** Left alone from the moment it has decided how to end, the worker settles
      the task exactly unless it wants to complete a paused one. */
  lemma AloneSettlesUnlessPaused(job: Job, rows: Table, y: System)
    requires Good(job, rows, y) && y.handler == Spawned && y.worker.Settling? && HomeIdle(job, y)
    ensures var called := Step(job, y, WorkerMove(false));
            var twice := Step(job, Step(job, called, StoreStatement(job.home, false)), StoreStatement(job.home, false));
            var end := Step(job, twice, WorkerMove(false));
            && end.worker.Exited?
            && (Settles(end.worker.last) <==> !(Row(job, y) == Some(InputRequired) && y.worker.to == Completed))
            && (Settles(end.worker.last) ==> RowTerminal(job, end))
  {
    UpdateLeftAlone(job, rows, y);
    var called := Step(job, y, WorkerMove(false));
    var twice := Step(job, Step(job, called, StoreStatement(job.home, false)), StoreStatement(job.home, false));
    WorkerTakesReply(job, twice);
  }

  lemma WorkerTakesReply(job: Job, y: System)
    requires y.handler == Spawned && y.worker.Updating? && HomeReply(job, y, WORKER).Some?
    ensures Step(job, y, WorkerMove(false)).worker == Exited(HomeReply(job, y, WORKER).value)
    ensures Row(job, Step(job, y, WorkerMove(false))) == Row(job, y)
  {
  }

  lemma UpdateLeftAlone(job: Job, rows: Table, y: System)
    requires Good(job, rows, y) && y.handler == Spawned && y.worker.Settling? && HomeIdle(job, y)
    ensures var to := y.worker.to;
            var called := Step(job, y, WorkerMove(false));
            var twice := Step(job, Step(job, called, StoreStatement(job.home, false)), StoreStatement(job.home, false));
            && Row(job, y).Some? && twice == y.(store := twice.store, worker := Updating(to))
            && var now := Row(job, y).value;
               && HomeReply(job, twice, WORKER)
                  == Some(if CanTransitionTo(now, to) then Found(Task(job.id, to, None, map[]))
                          else Rejected(IllegalTransition(now, to)))
               && Row(job, twice) == Some(if CanTransitionTo(now, to) then to else now)
  {
    var called := Step(job, y, WorkerMove(false));
    assert called.store.conns[job.home] == Busy(WORKER, Update(job.id, y.worker.to), Begin, |y.store.events|);
    UpdateAlone(called.store, job.home, job.id, y.worker.to);
  }

  /** The worker has read the row and is about to write. */
  ghost predicate HasRead(job: Job, y: System, to: TaskStatus, from: TaskStatus) {
    && y.handler == Spawned && y.worker == Updating(to) && job.home < |y.store.conns|
    && y.store.conns[job.home].Busy? && y.store.conns[job.home].agent == WORKER
    && y.store.conns[job.home].op == Update(job.id, to)
    && y.store.conns[job.home].pc.Guarded? && y.store.conns[job.home].pc.from == from
  }

  lemma WorkerReads(job: Job, y: System, now: TaskStatus)
    requires y.handler == Spawned && y.worker.Settling? && HomeIdle(job, y)
    requires Row(job, y) == Some(now) && CanTransitionTo(now, y.worker.to)
    ensures var z := Step(job, Step(job, y, WorkerMove(false)), StoreStatement(job.home, false));
            && HasRead(job, z, y.worker.to, now) && z.store.rows == y.store.rows
            && z.store.conns == y.store.conns[job.home := z.store.conns[job.home]]
  {
    var called := Step(job, y, WorkerMove(false));
    assert called.store.conns[job.home] == Busy(WORKER, Update(job.id, y.worker.to), Begin, |y.store.events|);
    var z := Step(job, called, StoreStatement(job.home, false));
    assert z.store == ExecuteUpdate(called.store, job.home, job.id, y.worker.to);
  }

  /** Overtaken in between, it exits on a refusal from where the row is now. */
  lemma WorkerLoses(job: Job, rows: Table, y: System, to: TaskStatus, from: TaskStatus, now: TaskStatus)
    requires Good(job, rows, y) && HasRead(job, y, to, from) && Row(job, y) == Some(now) && now != from
    ensures var tried := Step(job, Step(job, y, StoreStatement(job.home, false)), StoreStatement(job.home, false));
            Step(job, tried, WorkerMove(false)).worker == Exited(Rejected(IllegalTransition(now, to)))
  {
    GuardedUpdateAlone(rows, y.store, job.home);
    WorkerTakesReply(job, Step(job, Step(job, y, StoreStatement(job.home, false)), StoreStatement(job.home, false)));
  }

  /** A pause under way on connection `c` lands on the working task. */
  lemma PauseLands(job: Job, rows: Table, y: System, c: nat)
    requires Inv(rows, y.store) && c < |y.store.conns| && PauseUnderWay(job, y.store.conns[c])
    requires Row(job, y) == Some(Working)
    ensures var z := Step(job, Step(job, y, StoreStatement(c, false)), StoreStatement(c, false));
            && z == y.(store := z.store) && z.store.conns == y.store.conns[c := z.store.conns[c]]
            && Row(job, z) == Some(InputRequired)
  {
    assert ConnOk(rows, y.store, c);
    if y.store.conns[c].pc.Guarded? {
      GuardedUpdateAlone(rows, y.store, c);
    } else {
      UpdateAlone(y.store, c, job.id, InputRequired);
    }
  }

  /** A client resumes the paused task on the idle connection `c`. */
  lemma ClientResumes(job: Job, y: System, c: nat)
    requires c < |y.store.conns| && y.store.conns[c].Idle? && Known(y.store.rows)
    requires Row(job, y) == Some(InputRequired)
    ensures var called := Step(job, y, ClientCall(c, FIRST_CLIENT, Update(job.id, Working)));
            var z := Step(job, Step(job, called, StoreStatement(c, false)), StoreStatement(c, false));
            && z == y.(store := z.store) && z.store.conns == y.store.conns[c := z.store.conns[c]]
            && Row(job, z) == Some(Working)
  {
    var called := Step(job, y, ClientCall(c, FIRST_CLIENT, Update(job.id, Working)));
    assert called.store.conns[c] == Busy(FIRST_CLIENT, Update(job.id, Working), Begin, |y.store.events|);
    UpdateAlone(called.store, c, job.id, Working);
  }

  /** The worker's part of a run in which `between` happens after its read. */
  function Overtaken(job: Job, between: seq<Move>): seq<Move> {
    [WorkerMove(false), StoreStatement(job.home, false)] + between
    + [StoreStatement(job.home, false), StoreStatement(job.home, false), WorkerMove(false)]
  }

  lemma {:induction false} PlayConcat(job: Job, y: System, first: seq<Move>, second: seq<Move>)
    ensures Play(job, y, first + second) == Play(job, Play(job, y, first), second)
    decreases |second|
  {
    if second == [] {
      assert first + second == first;
    } else {
      assert (first + second)[..|first + second| - 1] == first + second[..|second| - 1];
      PlayConcat(job, y, first, second[..|second| - 1]);
    }
  }

  lemma PlayTwo(job: Job, y: System, a: Move, b: Move)
    ensures Play(job, y, [a, b]) == Step(job, Step(job, y, a), b)
  {
    assert [a, b][..1] == [a] && [a][..0] == [];
    assert Play(job, y, [a]) == Step(job, Play(job, y, []), a);
  }

  lemma PlayThree(job: Job, y: System, a: Move, b: Move, c: Move)
    ensures Play(job, y, [a, b, c]) == Step(job, Step(job, Step(job, y, a), b), c)
  {
    assert [a, b, c][..2] == [a, b];
    PlayTwo(job, y, a, b);
  }

  lemma PlayOvertaken(job: Job, y: System, between: seq<Move>)
    ensures var home := StoreStatement(job.home, false);
            var w := Play(job, Step(job, Step(job, y, WorkerMove(false)), home), between);
            Play(job, y, Overtaken(job, between))
            == Step(job, Step(job, Step(job, w, home), home), WorkerMove(false))
  {
    var home := StoreStatement(job.home, false);
    var first, rest := [WorkerMove(false), home], [home, home, WorkerMove(false)];
    PlayTwo(job, y, WorkerMove(false), home);
    PlayConcat(job, y, first, between);
    PlayConcat(job, y, first + between, rest);
    PlayThree(job, Play(job, y, first + between), home, home, WorkerMove(false));
  }

  /** Play `between` after the worker's read, and all that held still holds. */
  lemma BetweenKeeps(job: Job, rows: Table, y: System, between: seq<Move>)
    requires Good(job, rows, y)
    ensures var read := Step(job, Step(job, y, WorkerMove(false)), StoreStatement(job.home, false));
            Good(job, rows, read) && Good(job, rows, Play(job, read, between))
    ensures AllQuiet(job, between) ==> AllQuiet(job, Overtaken(job, between))
  {
    var called := Step(job, y, WorkerMove(false));
    StepKeeps(job, rows, y, WorkerMove(false));
    StepKeeps(job, rows, called, StoreStatement(job.home, false));
    PlayKeeps(job, rows, Step(job, called, StoreStatement(job.home, false)), between);
  }

  /** What can go wrong with a worker about to make its update: the task is
      paused, or it is working and a pause is under way. */
  ghost predicate AtRisk(job: Job, y: System) {
    || Row(job, y) == Some(InputRequired)
    || (Row(job, y) == Some(Working)
        && exists c :: 0 <= c < |y.store.conns| && PauseUnderWay(job, y.store.conns[c]))
  }

  function PauseBetween(c: nat): seq<Move> {
    [StoreStatement(c, false), StoreStatement(c, false)]
  }

  function ResumeBetween(job: Job, c: nat): seq<Move> {
    [ClientCall(c, FIRST_CLIENT, Update(job.id, Working)), StoreStatement(c, false), StoreStatement(c, false)]
  }

  lemma PauseOvertakes(job: Job, rows: Table, read: System, to: TaskStatus, c: nat)
    requires Inv(rows, read.store) && HasRead(job, read, to, Working) && Row(job, read) == Some(Working)
    requires c < |read.store.conns| && c != job.home && PauseUnderWay(job, read.store.conns[c])
    ensures var w := Play(job, read, PauseBetween(c));
            HasRead(job, w, to, Working) && Row(job, w) == Some(InputRequired)
  {
    PauseLands(job, rows, read, c);
    PlayTwo(job, read, StoreStatement(c, false), StoreStatement(c, false));
  }

  lemma ResumeOvertakes(job: Job, read: System, to: TaskStatus, c: nat)
    requires Known(read.store.rows) && HasRead(job, read, to, InputRequired) && Row(job, read) == Some(InputRequired)
    requires c < |read.store.conns| && read.store.conns[c].Idle?
    ensures var w := Play(job, read, ResumeBetween(job, c));
            HasRead(job, w, to, InputRequired) && Row(job, w) == Some(Working)
  {
    ClientResumes(job, read, c);
    var between := ResumeBetween(job, c);
    PlayThree(job, read, between[0], between[1], between[2]);
  }

  lemma PauseFollowsRead(job: Job, rows: Table, y: System, c: nat)
    requires Good(job, rows, y) && y.handler == Spawned && y.worker.Settling? && HomeIdle(job, y)
    requires Row(job, y) == Some(Working) && c < |y.store.conns| && PauseUnderWay(job, y.store.conns[c])
    ensures var read := Step(job, Step(job, y, WorkerMove(false)), StoreStatement(job.home, false));
            var w := Play(job, read, PauseBetween(c));
            HasRead(job, w, y.worker.to, Working) && Row(job, w) == Some(InputRequired)
  {
    var called := Step(job, y, WorkerMove(false));
    WorkerReads(job, y, Working);
    StepKeeps(job, rows, y, WorkerMove(false));
    NextKeeps(rows, called.store, job.home, Statement(false));
    PauseOvertakes(job, rows, Step(job, called, StoreStatement(job.home, false)), y.worker.to, c);
  }

  lemma PauseStrands(job: Job, rows: Table, y: System, c: nat) returns (moves: seq<Move>)
    requires Good(job, rows, y) && y.handler == Spawned && y.worker.Settling? && HomeIdle(job, y)
    requires Row(job, y) == Some(Working) && c < |y.store.conns| && PauseUnderWay(job, y.store.conns[c])
    ensures AllQuiet(job, moves)
    ensures var end := Play(job, y, moves); end.worker.Exited? && !Settles(end.worker.last)
  {
    var read := Step(job, Step(job, y, WorkerMove(false)), StoreStatement(job.home, false));
    PauseFollowsRead(job, rows, y, c);
    BetweenKeeps(job, rows, y, PauseBetween(c));
    WorkerLoses(job, rows, Play(job, read, PauseBetween(c)), y.worker.to, Working, InputRequired);
    PlayOvertaken(job, y, PauseBetween(c));
    moves := Overtaken(job, PauseBetween(c));
  }

  lemma ResumeStrands(job: Job, rows: Table, y: System, c: nat) returns (moves: seq<Move>)
    requires Good(job, rows, y) && y.handler == Spawned && y.worker == Settling(Failed) && HomeIdle(job, y)
    requires Row(job, y) == Some(InputRequired) && c < |y.store.conns| && c != job.home && y.store.conns[c].Idle?
    ensures AllQuiet(job, moves)
    ensures var end := Play(job, y, moves); end.worker.Exited? && !Settles(end.worker.last)
  {
    var read := Step(job, Step(job, y, WorkerMove(false)), StoreStatement(job.home, false));
    WorkerReads(job, y, InputRequired);
    BetweenKeeps(job, rows, y, ResumeBetween(job, c));
    ResumeOvertakes(job, read, Failed, c);
    WorkerLoses(job, rows, Play(job, read, ResumeBetween(job, c)), Failed, InputRequired, Working);
    PlayOvertaken(job, y, ResumeBetween(job, c));
    moves := Overtaken(job, ResumeBetween(job, c));
  }

  lemma CompletingStrands(job: Job, rows: Table, y: System) returns (moves: seq<Move>)
    requires Good(job, rows, y) && y.handler == Spawned && y.worker == Settling(Completed) && HomeIdle(job, y)
    requires Row(job, y) == Some(InputRequired)
    ensures AllQuiet(job, moves)
    ensures var end := Play(job, y, moves); end.worker.Exited? && !Settles(end.worker.last)
  {
    var home := StoreStatement(job.home, false);
    AloneSettlesUnlessPaused(job, rows, y);
    moves := [WorkerMove(false), home] + [home, WorkerMove(false)];
    PlayTwo(job, y, WorkerMove(false), home);
    PlayTwo(job, Play(job, y, [WorkerMove(false), home]), home, WorkerMove(false));
    PlayConcat(job, y, [WorkerMove(false), home], [home, WorkerMove(false)]);
  }

  /** Exactly when a worker about to make its update is sure to settle the task,
      over every quiet run: when the task is not paused and, if it is working, no
      pause is under way. A worker that is to fail a paused task needs somebody
      to resume it in between, for which another connection has to be free. */
  lemma SettlesIffNotAtRisk(job: Job, rows: Table, y: System)
    requires Good(job, rows, y) && y.handler == Spawned && y.worker.Settling? && HomeIdle(job, y)
    requires Row(job, y) == Some(InputRequired) && y.worker.to == Failed ==>
               exists c :: 0 <= c < |y.store.conns| && c != job.home && y.store.conns[c].Idle?
    ensures (forall moves :: AllQuiet(job, moves) && Play(job, y, moves).worker.Exited? ==>
               Settles(Play(job, y, moves).worker.last))
            <==> !AtRisk(job, y)
  {
    if !AtRisk(job, y) {
      forall moves | AllQuiet(job, moves) && Play(job, y, moves).worker.Exited?
        ensures Settles(Play(job, y, moves).worker.last)
      {
        NotAtRiskIsSecure(job, y);
        PlayStaysSecure(job, rows, y, moves);
      }
    } else if Row(job, y) == Some(Working) {
      var c :| 0 <= c < |y.store.conns| && PauseUnderWay(job, y.store.conns[c]);
      var moves := PauseStrands(job, rows, y, c);
    } else if y.worker.to == Failed {
      var c :| 0 <= c < |y.store.conns| && c != job.home && y.store.conns[c].Idle?;
      var moves := ResumeStrands(job, rows, y, c);
    } else {
      var moves := CompletingStrands(job, rows, y);
    }
  }

  lemma NotAtRiskIsSecure(job: Job, y: System)
    requires Tags(job, y) && FlagOk(job, y) && Known(y.store.rows)
    requires y.handler == Spawned && y.worker.Settling? && HomeIdle(job, y) && !AtRisk(job, y)
    ensures Secure(job, y)
  {
    forall c | 0 <= c < |y.store.conns| && y.store.conns[c].Busy?
      ensures AccountedConn(job, y, y.store.conns[c], false, false)
    {
      assert ConnTag(job, y, c);
    }
  }

  // ---- both causes do arise ----

  predicate Faultless(move: Move) {
    move.StoreStatement? ==> !move.fault
  }

  lemma PlayMore(job: Job, y: System, moves: seq<Move>, move: Move)
    ensures Play(job, y, moves + [move]) == Step(job, Play(job, y, moves), move)
  {
    assert (moves + [move])[..|moves|] == moves;
  }

  lemma UntilInserted(job: Job, y: System) returns (moves: seq<Move>)
    requires Start(job, y) && job.home == 0 && |y.store.conns| == 2
    ensures forall move :: move in moves ==> Faultless(move) && !move.ClientCall?
    ensures var z := Play(job, y, moves);
            && z == y.(store := z.store, handler := Inserting)
            && Known(z.store.rows) && Row(job, z) == Some(Working)
            && |z.store.conns| == 2 && z.store.conns[1] == Idle && HomeReply(job, z, HANDLER) == Some(Stored)
  {
    moves := [];
    var z := y;
    z, moves := Also(job, y, z, moves, HandlerMove);
    assert z.store.conns[0] == Busy(HANDLER, Insert(NewTask(job.id)), Begin, |z.store.events|);
    WriteRow(z.store.rows, job.id, Working);
    z, moves := Also(job, y, z, moves, StoreStatement(0, false));
  }

  lemma UntilSpawned(job: Job, y: System) returns (moves: seq<Move>)
    requires Start(job, y) && job.home == 0 && |y.store.conns| == 2
    ensures forall move :: move in moves ==> Faultless(move) && !move.ClientCall?
    ensures var z := Play(job, y, moves);
            && z == y.(store := z.store, handler := Spawned, cancelTxs := y.cancelTxs + {job.id})
            && Known(z.store.rows) && Row(job, z) == Some(Working) && z.store.conns == [Idle, Idle]
  {
    moves := UntilInserted(job, y);
    var z := Play(job, y, moves);
    z, moves := Also(job, y, z, moves, HandlerMove);
    assert z.handler == Registering && z.store.conns == [Idle, Idle];
    z, moves := Also(job, y, z, moves, HandlerMove);
  }

  lemma UntilWalked(job: Job, y: System) returns (moves: seq<Move>)
    requires Start(job, y) && job.home == 0 && job.root == Other && |y.store.conns| == 2
    ensures forall move :: move in moves ==> Faultless(move) && !move.ClientCall?
    ensures var z := Play(job, y, moves);
            && z.handler == Spawned && z.worker == Asking && !z.panicked
            && Known(z.store.rows) && Row(job, z) == Some(Working) && z.store.conns == [Idle, Idle]
  {
    moves := UntilSpawned(job, y);
    var z := Play(job, y, moves);
    assert WalkSeen(job, []).1 == 1 && WalkSeen(job, [false]).1 == 1;
    z, moves := Also(job, y, z, moves, WorkerMove(false));
    assert z.observed == [false] && z.worker == Walking;
    z, moves := Also(job, y, z, moves, WorkerMove(false));
    z, moves := Also(job, y, z, moves, WorkerMove(false));
  }

  lemma UntilAsked(job: Job, y: System) returns (moves: seq<Move>)
    requires Start(job, y) && job.home == 0 && job.root == Other && |y.store.conns| == 2
    ensures forall move :: move in moves ==> Faultless(move) && !move.ClientCall?
    ensures var z := Play(job, y, moves);
            && z.handler == Spawned && z.worker == Checking
            && Known(z.store.rows) && Row(job, z) == Some(Working)
            && |z.store.conns| == 2 && z.store.conns[1] == Idle
            && HomeReply(job, z, WORKER) == Some(Found(Task(job.id, Working, None, map[])))
  {
    moves := UntilWalked(job, y);
    var z := Play(job, y, moves);
    z, moves := Also(job, y, z, moves, WorkerMove(false));
    assert z.store.conns[0] == Busy(WORKER, Get(job.id), Begin, |z.store.events|);
    z, moves := Also(job, y, z, moves, StoreStatement(0, false));
  }

  /** A job whose walk finds nothing, up to the worker's call to complete. */
  lemma UntilCompleting(job: Job, y: System) returns (moves: seq<Move>)
    requires Start(job, y) && job.home == 0 && job.root == Other && |y.store.conns| == 2
    ensures forall move :: move in moves ==> Faultless(move) && !move.ClientCall?
    ensures var z := Play(job, y, moves);
            && z.handler == Spawned && z.worker == Updating(Completed)
            && Known(z.store.rows) && Row(job, z) == Some(Working)
            && z.store.conns == [Busy(WORKER, Update(job.id, Completed), Begin, |z.store.events|), Idle]
  {
    moves := UntilAsked(job, y);
    var z := Play(job, y, moves);
    z, moves := Also(job, y, z, moves, WorkerMove(false));
    assert z.worker == Settling(Completed) && z.store.conns == [Idle, Idle];
    z, moves := Also(job, y, z, moves, WorkerMove(false));
  }

  lemma Also(job: Job, y: System, z: System, moves: seq<Move>, move: Move) returns (z': System, moves': seq<Move>)
    requires z == Play(job, y, moves)
    ensures moves' == moves + [move] && z' == Step(job, z, move) && z' == Play(job, y, moves')
  {
    PlayMore(job, y, moves, move);
    z', moves' := Step(job, z, move), moves + [move];
  }

  /** One failed statement, and the worker exits with the task still working. */
  lemma FaultStrandsTask(job: Job, y: System) returns (moves: seq<Move>)
    requires Start(job, y) && job.home == 0 && job.root == Other && |y.store.conns| == 2
    ensures forall move :: move in moves ==> !move.ClientCall?
    ensures var end := Play(job, y, moves); end.worker == Exited(Rejected(Sqlite)) && Row(job, end) == Some(Working)
  {
    moves := UntilCompleting(job, y);
    var z := Play(job, y, moves);
    z, moves := Also(job, y, z, moves, StoreStatement(0, true));
    z, moves := Also(job, y, z, moves, WorkerMove(false));
  }

  /** One client that pauses the task, and the worker exits with it paused. */
  lemma PauseStrandsTask(job: Job, y: System) returns (moves: seq<Move>)
    requires Start(job, y) && job.home == 0 && job.root == Other && |y.store.conns| == 2
    ensures forall move :: move in moves ==> Faultless(move)
    ensures var end := Play(job, y, moves);
            && end.worker == Exited(Rejected(IllegalTransition(InputRequired, Completed)))
            && Row(job, end) == Some(InputRequired)
  {
    moves := UntilPaused(job, y);
    var z := Play(job, y, moves);
    z, moves := Also(job, y, z, moves, StoreStatement(0, false));
    assert HomeReply(job, z, WORKER) == Some(Rejected(IllegalTransition(InputRequired, Completed)));
    z, moves := Also(job, y, z, moves, WorkerMove(false));
  }

  lemma UntilPaused(job: Job, y: System) returns (moves: seq<Move>)
    requires Start(job, y) && job.home == 0 && job.root == Other && |y.store.conns| == 2
    ensures forall move :: move in moves ==> Faultless(move)
    ensures var z := Play(job, y, moves);
            && z.handler == Spawned && z.worker == Updating(Completed)
            && Known(z.store.rows) && Row(job, z) == Some(InputRequired) && |z.store.conns| == 2
            && z.store.conns[0].Busy? && z.store.conns[0].agent == WORKER
            && z.store.conns[0].op == Update(job.id, Completed) && z.store.conns[0].pc == Begin
  {
    moves := UntilCompleting(job, y);
    var z := Play(job, y, moves);
    ClientPauses(job, z);
    z, moves := Also(job, y, z, moves, ClientCall(1, FIRST_CLIENT, Update(job.id, InputRequired)));
    z, moves := Also(job, y, z, moves, StoreStatement(1, false));
    z, moves := Also(job, y, z, moves, StoreStatement(1, false));
  }

  lemma ClientPauses(job: Job, z: System)
    requires |z.store.conns| == 2 && z.store.conns[1] == Idle && Known(z.store.rows) && Row(job, z) == Some(Working)
    ensures var called := Step(job, z, ClientCall(1, FIRST_CLIENT, Update(job.id, InputRequired)));
            var end := Step(job, Step(job, called, StoreStatement(1, false)), StoreStatement(1, false));
            && end == z.(store := end.store) && |end.store.conns| == 2 && end.store.conns[0] == z.store.conns[0]
            && Known(end.store.rows) && Row(job, end) == Some(InputRequired)
  {
    var called := Step(job, z, ClientCall(1, FIRST_CLIENT, Update(job.id, InputRequired)));
    assert called.store.conns[1] == Busy(FIRST_CLIENT, Update(job.id, InputRequired), Begin, |z.store.events|);
    UpdateAlone(called.store, 1, job.id, InputRequired);
  }
}
