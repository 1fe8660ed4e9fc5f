/** When the monitor may end, and what one poll does. */
module IndexerMonitor {
  import opened Wrappers
  import opened Tasks
  import opened AtomicStore
  import opened TaskTable
  import opened StoreProtocol
  import opened StoreTheorems
  import opened Indexer
  import opened IndexerInvariant
  import opened IndexerExit

  predicate FailedPoll(e: Event) {
    e.agent == MONITOR && e.op.Get? && e.manner == Fault
  }

  /** A statement of one of the monitor's polls has failed. */
  ghost predicate MonitorFailed(y: System) {
    exists e :: 0 <= e < |y.store.events| && FailedPoll(y.store.events[e])
  }

  /** The monitor has stopped, or is about to hear a refusal, with a cause. */
  ghost predicate Justified(job: Job, y: System) {
    && (y.monitor == Stopped ==> RowTerminal(job, y) || MonitorFailed(y))
    && (HomeReply(job, y, MONITOR).Some? && HomeReply(job, y, MONITOR).value.Rejected? ==> MonitorFailed(y))
  }

  lemma FailureStays(job: Job, y: System, move: Move)
    ensures MonitorFailed(y) ==> MonitorFailed(Step(job, y, move))
  {
    StoreGrows(job, y, move);
    if MonitorFailed(y) {
      var e :| 0 <= e < |y.store.events| && FailedPoll(y.store.events[e]);
      assert Step(job, y, move).store.events[e] == y.store.events[e];
    }
  }

  /** A poll is refused only because its statement failed. */
  lemma FreshPoll(job: Job, rows: Table, y: System, fault: bool)
    requires Good(job, rows, y) && y.store.conns[job.home].Busy? && !y.store.conns[job.home].pc.Finished?
    requires y.store.conns[job.home].agent == MONITOR
    ensures var y' := AfterStatement(y, job.home, fault);
            HomeReply(job, y', MONITOR).Some? && HomeReply(job, y', MONITOR).value.Rejected? ==> MonitorFailed(y')
  {
    var y' := AfterStatement(y, job.home, fault);
    assert ConnTag(job, y, job.home);
    ExceptionsArise(y.store, job.home, fault);
    if fault {
      assert FailedPoll(y'.store.events[|y.store.events|]);
    }
  }

  lemma StatementJustified(job: Job, rows: Table, y: System, c: nat, fault: bool)
    requires Good(job, rows, y) && Justified(job, y) && c < |y.store.conns| && y.store.conns[c].Busy?
    ensures Justified(job, AfterStatement(y, c, fault))
  {
    FailureStays(job, y, StoreStatement(c, fault));
    StatementEffects(y.store, c, fault);
    StatementKeepsRow(job, rows, y, c, fault);
    if c == job.home && !y.store.conns[c].pc.Finished? && y.store.conns[c].agent == MONITOR {
      FreshPoll(job, rows, y, fault);
    }
  }

  lemma MonitorCallJustified(job: Job, y: System)
    requires Justified(job, y) && y.handler == Spawned && y.monitor == Sleeping && HomeIdle(job, y)
    ensures Justified(job, Step(job, y, MonitorMove))
  {
    FailureStays(job, y, MonitorMove);
  }

  lemma MonitorReturnJustified(job: Job, rows: Table, y: System)
    requires Good(job, rows, y) && Justified(job, y)
    requires y.handler == Spawned && y.monitor == Polling && HomeReply(job, y, MONITOR).Some?
    ensures Justified(job, Step(job, y, MonitorMove))
  {
    FailureStays(job, y, MonitorMove);
    assert ConnTag(job, y, job.home) && ConnOk(rows, y.store, job.home);
    if HomeReply(job, y, MONITOR).value != Stored {
      MonitorTakesReply(job, y);
    }
  }

  lemma MonitorJustified(job: Job, rows: Table, y: System)
    requires Good(job, rows, y) && Justified(job, y)
    ensures Justified(job, Step(job, y, MonitorMove))
  {
    if y.handler == Spawned && y.monitor == Sleeping && HomeIdle(job, y) {
      MonitorCallJustified(job, y);
    } else if y.handler == Spawned && y.monitor == Polling && HomeReply(job, y, MONITOR).Some? {
      MonitorReturnJustified(job, rows, y);
    }
  }

  lemma OthersJustified(job: Job, y: System, move: Move, a: Action, c: nat)
    requires Justified(job, y) && !move.MonitorMove? && !a.Statement?
    requires var y' := Step(job, y, move);
             && (y'.store == y.store || y'.store == Next(y.store, c, a)) && y'.monitor == y.monitor
    ensures Justified(job, Step(job, y, move))
  {
    FailureStays(job, y, move);
  }

  lemma StepJustified(job: Job, rows: Table, y: System, move: Move)
    requires Good(job, rows, y) && Justified(job, y)
    ensures Justified(job, Step(job, y, move))
  {
    match move
    case StoreStatement(c, fault) =>
      if c < |y.store.conns| && y.store.conns[c].Busy? {
        StatementJustified(job, rows, y, c, fault);
      }
    case MonitorMove => MonitorJustified(job, rows, y);
    case HandlerMove =>
      OwnMovesCall(job, y, move);
      OthersJustified(job, y, move, OwnAction(job, y, move), job.home);
    case WorkerMove(_) =>
      OwnMovesCall(job, y, move);
      OthersJustified(job, y, move, OwnAction(job, y, move), job.home);
    case ClientCall(c, agent, op) => OthersJustified(job, y, move, Call(agent, op), c);
    case ClientReturn(c) => OthersJustified(job, y, move, Return, c);
  }

  lemma {:induction false} PlayJustified(job: Job, rows: Table, y: System, moves: seq<Move>)
    requires Good(job, rows, y) && Justified(job, y)
    ensures Good(job, rows, Play(job, y, moves)) && Justified(job, Play(job, y, moves))
    decreases |moves|
  {
    PlayKeeps(job, rows, y, moves);
    if moves == [] {
    } else {
      PlayJustified(job, rows, y, moves[..|moves| - 1]);
      StepJustified(job, rows, Play(job, y, moves[..|moves| - 1]), moves[|moves| - 1]);
    }
  }

  /** In every run the monitor goes on for as long as the task is live, unless
      one of its own polls failed. */
  lemma StoppedMeansOverOrFailed(job: Job, y: System, moves: seq<Move>)
    requires Start(job, y) && Play(job, y, moves).monitor == Stopped
    ensures RowTerminal(job, Play(job, y, moves)) || MonitorFailed(Play(job, y, moves))
  {
    StartIsGood(job, y);
    PlayJustified(job, y.store.rows, y, moves);
  }

  /** One undisturbed poll: it ends the monitor exactly when its statement fails
      or the task is over, raises the flag exactly for a cancelled task still
      being walked, and changes nothing else. */
  lemma OnePoll(job: Job, rows: Table, y: System, fault: bool)
    requires Good(job, rows, y) && y.handler == Spawned && y.monitor == Sleeping && HomeIdle(job, y)
    ensures var z := Step(job, Step(job, Step(job, y, MonitorMove), StoreStatement(job.home, fault)), MonitorMove);
            && z.monitor == (if fault || RowTerminal(job, y) then Stopped else Sleeping)
            && z.flag == (y.flag || (!fault && Row(job, y) == Some(Cancelled) && y.worker == Walking))
            && z == y.(store := z.store, monitor := z.monitor, flag := z.flag, polls := y.polls + 1)
            && z.store.rows == y.store.rows && z.store.conns == y.store.conns
  {
    var called := Step(job, y, MonitorMove);
    assert called.store.conns[job.home] == Busy(MONITOR, Get(job.id), Begin, |y.store.events|);
    var read := Step(job, called, StoreStatement(job.home, fault));
    assert HomeReply(job, read, MONITOR)
           == Some(if fault then Rejected(Sqlite) else Found(Task(job.id, Row(job, y).value, None, map[])));
    MonitorTakesReply(job, read);
    assert read.store.conns[job.home := Idle] == y.store.conns;
  }

  lemma MonitorTakesReply(job: Job, y: System)
    requires y.handler == Spawned && y.monitor == Polling && HomeReply(job, y, MONITOR).Some?
    requires var reply := HomeReply(job, y, MONITOR).value; reply.Found? || reply.Rejected?
    ensures var z, reply := Step(job, y, MonitorMove), HomeReply(job, y, MONITOR).value;
            && z == y.(store := ReturnHome(job, y), monitor := z.monitor, flag := z.flag, polls := y.polls + 1)
            && z.store.rows == y.store.rows && z.store.conns == y.store.conns[job.home := Idle]
            && z.monitor == (if reply.Found? && !IsTerminal(reply.task.status) then Sleeping else Stopped)
            && z.flag == (y.flag || (reply.Found? && reply.task.status == Cancelled && y.worker == Walking))
  {
  }

  // ---- what the worker does after its walk ----

  /** A walk that panics, left alone: its sender is taken off file, nothing is
      reported as indexed, and the task is to be failed. */
  lemma PanickedWalkFailsTask(job: Job, y: System)
    requires y.handler == Spawned && y.worker == Walking && HomeIdle(job, y)
    ensures var cleaned := Step(job, Step(job, y, WorkerMove(true)), WorkerMove(false));
            var z := Step(job, cleaned, WorkerMove(false));
            && z.worker == Updating(Failed) && z.cancelTxs == y.cancelTxs - {job.id} && z.index == y.index
            && z.store == y.store.(conns := y.store.conns[job.home :=
                 Busy(WORKER, Update(job.id, Failed), Begin, |y.store.events|)])
  {
  }

  /** A worker whose walk has returned asks first: it ends there exactly if it
      reads the task as cancelled, and otherwise goes on to complete it, also
      when the read fails. */
  lemma CancelledWorkerLeaves(job: Job, rows: Table, y: System, fault: bool)
    requires Good(job, rows, y) && y.handler == Spawned && y.worker == Asking && HomeIdle(job, y)
    ensures var z := Step(job, Step(job, Step(job, y, WorkerMove(false)), StoreStatement(job.home, fault)),
                          WorkerMove(false));
            && (z.worker.Exited? <==> !fault && Row(job, y) == Some(Cancelled))
            && (!z.worker.Exited? ==> z.worker == Settling(Completed))
            && z.store.rows == y.store.rows && z.store.conns == y.store.conns
  {
    var called := Step(job, y, WorkerMove(false));
    assert called.store.conns[job.home] == Busy(WORKER, Get(job.id), Begin, |y.store.events|);
    var read := Step(job, called, StoreStatement(job.home, fault));
    assert HomeReply(job, read, WORKER)
           == Some(if fault then Rejected(Sqlite) else Found(Task(job.id, Row(job, y).value, None, map[])));
    assert read.store.conns[job.home := Idle] == y.store.conns;
  }
}
