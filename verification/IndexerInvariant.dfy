/** What every step of handler, monitor, worker and clients keeps. */
module IndexerInvariant {
  import opened Wrappers
  import opened Tasks
  import opened AtomicStore
  import opened TaskTable
  import opened StoreProtocol
  import opened StoreInvariant
  import opened Walk
  import opened Indexer

  /** What one statement can have done to the rest of the store. */
  ghost predicate StatementEffect(s: State, c: nat, s': State)
    requires c < |s.conns| && s.conns[c].Busy?
  {
    var conn := s.conns[c];
    && |s'.conns| == |s.conns| && s'.conns[c].Busy? && s'.conns == s.conns[c := conn.(pc := s'.conns[c].pc)]
    && (s'.log != s.log ==>
          && |s'.log| == |s.log| + 1 && s'.log[..|s.log|] == s.log
          && s'.log[|s.log|].agent == conn.agent && s'.log[|s.log|].id == conn.op.Target()
          && (s'.log[|s.log|].cause == ByInsert <==> conn.op.Insert?)
          && (s'.log[|s.log|].cause == ByUpdate <==> conn.op.Update?)
          && (s'.log[|s.log|].cause == ByCancel <==> conn.op.Cancel?)
          && (conn.op.Insert? ==> s'.log[|s.log|].after == conn.op.task.status)
          && (conn.op.Update? ==> s'.log[|s.log|].after == conn.op.to)
          && (conn.op.Cancel? ==> s'.log[|s.log|].after == Cancelled))
    && (s'.log == s.log ==> s'.rows == s.rows)
  }

  lemma StatementEffects(s: State, c: nat, fault: bool)
    requires c < |s.conns| && s.conns[c].Busy?
    ensures StatementEffect(s, c, Next(s, c, Statement(fault)))
  {
    var s' := Next(s, c, Statement(fault));
    if !fault && !s.conns[c].pc.Finished? {
      match s.conns[c].op
      case Insert(_) =>
      case Get(_) =>
      case Update(id, to) => assert s' == ExecuteUpdate(s, c, id, to);
      case Cancel(id) => assert s' == ExecuteCancel(s, c, id);
    }
  }

  /** What it can have done to a row: nothing but an insert lowers its rank,
      and an update only ever takes a legal step. */
  ghost predicate RowStepped(s: State, conn: Conn, s': State, id: string)
    requires conn.Busy?
  {
    var before, after := StatusOf(s.rows, id), StatusOf(s'.rows, id);
    && (conn.op.Target() != id || conn.op.Get? ==> after == before)
    && (id in s.rows ==> before.Some? && after.Some? && id in s'.rows)
    && (id in s.rows && !(conn.op.Insert? && conn.op.task.id == id) ==>
          Rank(before.value) <= Rank(after.value)
          && (IsTerminal(before.value) ==> after.value in {before.value, Cancelled}))
    && (s'.log != s.log && conn.op.Target() == id ==>
          |s'.log| > 0 && after == Some(s'.log[|s'.log| - 1].after))
    && (s'.log != s.log && conn.op.Target() == id && conn.op.Update? ==>
          before.Some? && CanTransitionTo(before.value, conn.op.to))
  }

  lemma RowStep(rows: Table, s: State, c: nat, s': State, id: string)
    requires Inv(rows, s) && Inv(rows, s') && c < |s.conns| && s.conns[c].Busy? && StatementEffect(s, c, s')
    ensures RowStepped(s, s.conns[c], s', id)
  {
    if s'.log != s.log {
      var w := s'.log[|s.log|];
      assert s'.log == s.log + [w];
      AppendLog(rows, s.log, w);
      assert WriteOk(rows, s'.log, |s.log|);
      assert StatusOf(s'.rows, id) == StatusAfter(rows, s'.log, id);
      assert StatusOf(s.rows, id) == StatusAfter(rows, s.log, id);
    }
  }

  /** A reply that names a status names the one the row has at that instant. */
  lemma ReplyNamesRow(rows: Table, s: State, c: nat, fault: bool)
    requires Inv(rows, s) && c < |s.conns| && s.conns[c].Busy? && !s.conns[c].pc.Finished?
    requires s.conns[c].op.Get? || s.conns[c].op.Update?
    requires Next(s, c, Statement(fault)).conns[c].pc.Finished?
    ensures var id, s' := s.conns[c].op.id, Next(s, c, Statement(fault));
            var reply := s'.conns[c].pc.reply;
            && (reply.Found? ==> StatusOf(s'.rows, id) == Some(reply.task.status))
            && (reply.Rejected? && reply.error.IllegalTransition? ==> StatusOf(s'.rows, id) == Some(reply.error.from))
            && (!fault && id in s.rows ==> reply.Found? || (reply.Rejected? && reply.error.IllegalTransition?))
            && (reply.Found? && s.conns[c].op.Update? ==> reply.task.status == s.conns[c].op.to)
            && (reply.Rejected? && reply.error.IllegalTransition? && s.conns[c].pc == Begin ==>
                  !CanTransitionTo(reply.error.from, s.conns[c].op.to))
  {
    var s' := Next(s, c, Statement(fault));
    var op := s.conns[c].op;
    assert ConnOk(rows, s, c);
    if op.Update? && !fault {
      assert s' == ExecuteUpdate(s, c, op.id, op.to);
      if s.conns[c].pc.Guarded? {
        WriteRow(s.rows, op.id, op.to);
      }
    }
  }

  function Row(job: Job, y: System): Option<TaskStatus> {
    StatusOf(y.store.rows, job.id)
  }

  predicate RowTerminal(job: Job, y: System) {
    Row(job, y).Some? && IsTerminal(Row(job, y).value)
  }

  function WorkerOp(job: Job, worker: WorkerPc): Option<Op> {
    match worker
    case Checking => Some(Get(job.id))
    case Updating(to) => Some(Update(job.id, to))
    case _ => None
  }

  /** Who uses which connection, and for what. */
  ghost predicate ConnTag(job: Job, y: System, c: nat)
    requires c < |y.store.conns| && y.store.conns[c].Busy?
  {
    var conn := y.store.conns[c];
    && (conn.op.Insert? && conn.op.task.id == job.id ==> conn.agent == HANDLER)
    && (conn.agent < FIRST_CLIENT ==> c == job.home)
    && (conn.agent == HANDLER ==> y.handler == Inserting && conn.op == Insert(NewTask(job.id)))
    && (conn.agent == WORKER ==> y.handler == Spawned && WorkerOp(job, y.worker) == Some(conn.op))
    && (conn.agent == MONITOR ==> y.handler == Spawned && y.monitor == Polling && conn.op == Get(job.id))
  }

  ghost predicate Tags(job: Job, y: System) {
    && job.home < |y.store.conns|
    && (forall c :: 0 <= c < |y.store.conns| && y.store.conns[c].Busy? ==> ConnTag(job, y, c))
  }

  /** A reply the task's own agents are about to read still tells the truth. */
  ghost predicate Pending(job: Job, y: System) {
    job.home < |y.store.conns| && y.store.conns[job.home].Busy? && y.store.conns[job.home].pc.Finished? ==>
      var conn := y.store.conns[job.home];
      var reply := conn.pc.reply;
      && (conn.agent == HANDLER && reply.Stored? ==> job.id in y.store.rows)
      && (conn.agent in {WORKER, MONITOR} ==>
            && (reply.Found? && reply.task.status == Cancelled ==> Row(job, y) == Some(Cancelled))
            && (Settles(reply) ==> RowTerminal(job, y)))
  }

  /** The flag is only ever up over a cancelled row, and the walk has only seen
      it go up. */
  ghost predicate FlagOk(job: Job, y: System) {
    && (y.handler in {Registering, Spawned} ==> job.id in y.store.rows)
    && (y.flag ==> Row(job, y) == Some(Cancelled))
    && (true in y.observed ==> y.flag)
    && (forall i, j :: 0 <= i <= j < |y.observed| && y.observed[i] ==> y.observed[j])
  }

  /** What the worker has when it is where it is. */
  ghost predicate WorkerOk(job: Job, y: System) {
    && (y.handler != Spawned ==>
          !y.flag && y.worker == Walking && y.observed == [] && y.monitor == Sleeping)
    && (y.worker == Walking ==> !y.panicked)
    && (y.worker == Walking || y.panicked ==> y.index == None)
    && (y.worker != Walking && !y.panicked ==>
          WalkSeen(job, y.observed).1 <= |y.observed| && y.index == Some(IndexSeen(job, y.observed)))
    && (y.worker in {Asking, Checking} ==> !y.panicked)
    && (y.worker.Settling? ==> y.worker.to == if y.panicked then Failed else Completed)
    && (y.worker.Updating? ==> y.worker.to == if y.panicked then Failed else Completed)
    && (y.worker.Exited? && Settles(y.worker.last) ==> RowTerminal(job, y))
    && (y.worker !in {Walking, CleaningUp} ==> job.id !in y.cancelTxs)
  }

  /** A completion by the worker is written over a row never cancelled. */
  ghost predicate Justified(job: Job, y: System, w: Write) {
    w.agent == WORKER ==>
      && w.id == job.id
      && (w.after == Completed ==> true !in y.observed && y.worker != Walking && !y.panicked)
  }

  ghost predicate CommitOk(job: Job, y: System) {
    forall k :: 0 <= k < |y.store.log| ==> Justified(job, y, y.store.log[k])
  }

  ghost predicate Good(job: Job, rows: Table, y: System) {
    && Inv(rows, y.store)
    && Tags(job, y) && Pending(job, y) && FlagOk(job, y) && WorkerOk(job, y) && CommitOk(job, y)
  }

  function AfterStatement(y: System, c: nat, fault: bool): System {
    y.(store := Next(y.store, c, Statement(fault)))
  }

  lemma StatementKeepsTags(job: Job, y: System, c: nat, fault: bool)
    requires c < |y.store.conns| && y.store.conns[c].Busy? && Tags(job, y)
    ensures Tags(job, AfterStatement(y, c, fault))
  {
    var y' := AfterStatement(y, c, fault);
    StatementEffects(y.store, c, fault);
    forall d | 0 <= d < |y'.store.conns| && y'.store.conns[d].Busy? ensures ConnTag(job, y', d) {
      assert ConnTag(job, y, d);
    }
  }

  /** Everything known of one statement, as far as the task's row goes. */
  lemma StatementStep(job: Job, rows: Table, y: System, c: nat, fault: bool)
    requires c < |y.store.conns| && y.store.conns[c].Busy? && Inv(rows, y.store)
    ensures var s' := AfterStatement(y, c, fault).store;
            StatementEffect(y.store, c, s') && Inv(rows, s') && RowStepped(y.store, y.store.conns[c], s', job.id)
  {
    NextKeeps(rows, y.store, c, Statement(fault));
    StatementEffects(y.store, c, fault);
    RowStep(rows, y.store, c, AfterStatement(y, c, fault).store, job.id);
  }

  /** Between inserts of the task, its row stays and its rank does not fall. */
  lemma StatementKeepsRow(job: Job, rows: Table, y: System, c: nat, fault: bool)
    requires c < |y.store.conns| && y.store.conns[c].Busy? && Inv(rows, y.store) && Tags(job, y) && FlagOk(job, y)
    ensures var y' := AfterStatement(y, c, fault);
            && (job.id in y.store.rows ==> job.id in y'.store.rows)
            && (y.handler in {Registering, Spawned} ==>
                  && (Row(job, y) == Some(Cancelled) ==> Row(job, y') == Some(Cancelled))
                  && (RowTerminal(job, y) ==> RowTerminal(job, y')))
  {
    assert ConnTag(job, y, c);
    StatementStep(job, rows, y, c, fault);
  }

  /** A reply of this very statement is the truth. */
  lemma FreshReplyIsTrue(job: Job, rows: Table, y: System, fault: bool)
    requires Inv(rows, y.store) && Tags(job, y) && y.store.conns[job.home].Busy?
    requires !y.store.conns[job.home].pc.Finished?
    ensures Pending(job, AfterStatement(y, job.home, fault))
  {
    var conn := y.store.conns[job.home];
    assert ConnTag(job, y, job.home);
    StatementEffects(y.store, job.home, fault);
    if conn.agent in {WORKER, MONITOR} && AfterStatement(y, job.home, fault).store.conns[job.home].pc.Finished? {
      FreshReplySettles(job, rows, y, fault);
    }
  }

  lemma FreshReplySettles(job: Job, rows: Table, y: System, fault: bool)
    requires Inv(rows, y.store) && job.home < |y.store.conns| && y.store.conns[job.home].Busy?
    requires var op := y.store.conns[job.home].op; (op.Get? || op.Update?) && op.id == job.id
    requires !y.store.conns[job.home].pc.Finished?
    requires var conn' := Next(y.store, job.home, Statement(fault)).conns[job.home]; conn'.Busy? && conn'.pc.Finished?
    ensures var y' := AfterStatement(y, job.home, fault);
            var reply := Next(y.store, job.home, Statement(fault)).conns[job.home].pc.reply;
            && (reply.Found? ==> Row(job, y') == Some(reply.task.status))
            && (Settles(reply) ==> RowTerminal(job, y'))
  {
    ReplyNamesRow(rows, y.store, job.home, fault);
  }

  lemma StatementKeepsPending(job: Job, rows: Table, y: System, c: nat, fault: bool)
    requires c < |y.store.conns| && y.store.conns[c].Busy? && Inv(rows, y.store)
    requires Tags(job, y) && FlagOk(job, y) && Pending(job, y)
    ensures Pending(job, AfterStatement(y, c, fault))
  {
    if c == job.home && !y.store.conns[c].pc.Finished? {
      FreshReplyIsTrue(job, rows, y, fault);
    } else {
      StatementEffects(y.store, c, fault);
      StatementKeepsRow(job, rows, y, c, fault);
      if y.store.conns[job.home].Busy? {
        assert ConnTag(job, y, job.home);
      }
    }
  }

  /** A write the worker commits with this very statement. */
  lemma WorkerCommits(job: Job, rows: Table, y: System, c: nat, fault: bool)
    requires c < |y.store.conns| && y.store.conns[c].Busy? && Inv(rows, y.store)
    requires Tags(job, y) && FlagOk(job, y) && WorkerOk(job, y)
    requires y.store.conns[c].agent == WORKER && AfterStatement(y, c, fault).store.log != y.store.log
    ensures var w := AfterStatement(y, c, fault).store.log[|y.store.log|];
            w.id == job.id && (w.after == Completed ==> true !in y.observed && y.worker != Walking && !y.panicked)
  {
    StatementStep(job, rows, y, c, fault);
    assert ConnTag(job, y, c);
  }

  /** The log keeps its old writes, and gains at most one. */
  lemma OldWritesStay(s: State, c: nat, s': State, k: nat)
    requires c < |s.conns| && s.conns[c].Busy? && StatementEffect(s, c, s') && k < |s'.log|
    ensures if k < |s.log| then s'.log[k] == s.log[k] else k == |s.log| && s'.log != s.log
  {
    if k < |s.log| && s'.log != s.log {
      assert s'.log[k] == s'.log[..|s.log|][k];
    }
  }

  lemma StatementKeepsCommits(job: Job, rows: Table, y: System, c: nat, fault: bool)
    requires c < |y.store.conns| && y.store.conns[c].Busy? && Inv(rows, y.store)
    requires Tags(job, y) && FlagOk(job, y) && WorkerOk(job, y) && CommitOk(job, y)
    ensures CommitOk(job, AfterStatement(y, c, fault))
  {
    var y' := AfterStatement(y, c, fault);
    StatementEffects(y.store, c, fault);
    forall k | 0 <= k < |y'.store.log| ensures Justified(job, y', y'.store.log[k]) {
      OldWritesStay(y.store, c, y'.store, k);
      if k < |y.store.log| {
        assert Justified(job, y, y.store.log[k]);
      } else if y'.store.log[k].agent == WORKER {
        WorkerCommits(job, rows, y, c, fault);
      }
    }
  }

  lemma StatementKeeps(job: Job, rows: Table, y: System, c: nat, fault: bool)
    requires Good(job, rows, y)
    ensures Good(job, rows, Step(job, y, StoreStatement(c, fault)))
  {
    NextKeeps(rows, y.store, c, Statement(fault));
    if c < |y.store.conns| && y.store.conns[c].Busy? {
      StatementKeepsTags(job, y, c, fault);
      StatementKeepsRow(job, rows, y, c, fault);
      StatementKeepsPending(job, rows, y, c, fault);
      StatementKeepsCommits(job, rows, y, c, fault);
    }
  }

  /** Calls and returns move one connection and nothing else of the store. */
  lemma CallEffect(rows: Table, s: State, c: nat, a: Action)
    requires Inv(rows, s) && !a.Statement?
    ensures var s' := Next(s, c, a);
            && Inv(rows, s') && s'.rows == s.rows && s'.log == s.log && |s'.conns| == |s.conns|
            && forall d :: 0 <= d < |s.conns| && d != c ==> s'.conns[d] == s.conns[d]
  {
    NextKeeps(rows, s, c, a);
  }

  lemma ClientKeeps(job: Job, rows: Table, y: System, move: Move)
    requires Good(job, rows, y) && (move.ClientCall? || move.ClientReturn?)
    ensures Good(job, rows, Step(job, y, move))
  {
    var y' := Step(job, y, move);
    if y'.store != y.store {
      CallEffect(rows, y.store, move.c, if move.ClientCall? then Call(move.agent, move.op) else Return);
      if y.store.conns[move.c].Busy? {
        assert ConnTag(job, y, move.c);
      }
      forall d | 0 <= d < |y'.store.conns| && y'.store.conns[d].Busy? ensures ConnTag(job, y', d) {
        if d != move.c {
          assert ConnTag(job, y, d);
        }
      }
      assert Tags(job, y') && Pending(job, y');
    }
  }

  /** Agents of the task itself are only ever on the home connection, so what
      they do elsewhere does not matter to the other ones. */
  lemma HomeMoveKeepsTags(job: Job, rows: Table, y: System, y': System, a: Action)
    requires Inv(rows, y.store) && Tags(job, y) && !a.Statement? && y'.store == Next(y.store, job.home, a)
    requires y'.store.conns[job.home].Busy? ==> ConnTag(job, y', job.home)
    ensures Inv(rows, y'.store) && Tags(job, y')
    ensures y'.store.rows == y.store.rows && y'.store.log == y.store.log
  {
    CallEffect(rows, y.store, job.home, a);
    forall d | 0 <= d < |y'.store.conns| && y'.store.conns[d].Busy? ensures ConnTag(job, y', d) {
      if d != job.home {
        assert ConnTag(job, y, d);
      }
    }
  }

  lemma HandlerCalls(job: Job, rows: Table, y: System)
    requires Good(job, rows, y) && y.handler == Fresh && HomeIdle(job, y)
    ensures Good(job, rows, HandlerStep(job, y))
  {
    HomeMoveKeepsTags(job, rows, y, HandlerStep(job, y), Call(HANDLER, Insert(NewTask(job.id))));
  }

  lemma HandlerHears(job: Job, rows: Table, y: System)
    requires Good(job, rows, y) && y.handler == Inserting && HomeReply(job, y, HANDLER).Some?
    ensures Good(job, rows, HandlerStep(job, y))
  {
    assert ConnTag(job, y, job.home);
    HomeMoveKeepsTags(job, rows, y, HandlerStep(job, y), Return);
  }

  lemma HandlerRegisters(job: Job, rows: Table, y: System)
    requires Good(job, rows, y) && y.handler == Registering
    ensures Good(job, rows, HandlerStep(job, y))
  {
    var y' := HandlerStep(job, y);
    forall d | 0 <= d < |y.store.conns| && y.store.conns[d].Busy? ensures ConnTag(job, y', d) {
      assert ConnTag(job, y, d);
    }
  }

  lemma HandlerKeeps(job: Job, rows: Table, y: System)
    requires Good(job, rows, y)
    ensures Good(job, rows, Step(job, y, HandlerMove))
  {
    if y.handler == Fresh && HomeIdle(job, y) {
      HandlerCalls(job, rows, y);
    } else if y.handler == Inserting && HomeReply(job, y, HANDLER).Some? {
      HandlerHears(job, rows, y);
    } else if y.handler == Registering {
      HandlerRegisters(job, rows, y);
    }
  }

  lemma MonitorCalls(job: Job, rows: Table, y: System)
    requires Good(job, rows, y) && y.handler == Spawned && y.monitor == Sleeping && HomeIdle(job, y)
    ensures Good(job, rows, MonitorStep(job, y))
  {
    var y' := MonitorStep(job, y);
    HomeMoveKeepsTags(job, rows, y, y', Call(MONITOR, Get(job.id)));
  }

  /** Nothing the table says of the task changes when its agents call, return
      or move on; only what they claim about it has to be checked. */
  lemma MonitorReturns(job: Job, rows: Table, y: System, y': System)
    requires Good(job, rows, y) && y.handler == Spawned && y.monitor == Polling && HomeReply(job, y, MONITOR).Some?
    requires y' == y.(store := ReturnHome(job, y), polls := y'.polls, flag := y'.flag, monitor := y'.monitor)
    requires y'.flag ==> Row(job, y) == Some(Cancelled)
    requires y.flag ==> y'.flag
    ensures Good(job, rows, y')
  {
    assert y'.store.conns[job.home].Idle?;
    HomeMoveKeepsTags(job, rows, y, y', Return);
    MonitorLeavesWorker(job, y, y');
  }

  lemma MonitorHears(job: Job, rows: Table, y: System)
    requires Good(job, rows, y) && y.handler == Spawned && y.monitor == Polling && HomeReply(job, y, MONITOR).Some?
    ensures Good(job, rows, MonitorStep(job, y))
  {
    MonitorReturns(job, rows, y, MonitorStep(job, y));
  }

  lemma MonitorLeavesWorker(job: Job, y: System, y': System)
    requires WorkerOk(job, y) && CommitOk(job, y) && y.handler == Spawned
    requires y' == y.(store := y'.store, polls := y'.polls, flag := y'.flag, monitor := y'.monitor)
    requires y'.store.rows == y.store.rows && y'.store.log == y.store.log
    ensures WorkerOk(job, y') && CommitOk(job, y')
  {
  }

  lemma MonitorKeeps(job: Job, rows: Table, y: System)
    requires Good(job, rows, y)
    ensures Good(job, rows, Step(job, y, MonitorMove))
  {
    if y.handler == Spawned {
      if y.monitor == Sleeping && HomeIdle(job, y) {
        MonitorCalls(job, rows, y);
      } else if y.monitor == Polling && HomeReply(job, y, MONITOR).Some? {
        MonitorHears(job, rows, y);
      }
    }
  }

  /** What the walk has seen only ever goes up. */
  lemma SeenIsOneWay(observed: seq<bool>)
    requires forall i, j :: 0 <= i <= j < |observed| && observed[i] ==> observed[j]
    ensures OneWay(FlagSeen(observed))
  {
  }

  lemma SameStoreKeepsTags(job: Job, y: System, y': System)
    requires Tags(job, y) && y'.store == y.store
    requires y'.handler == y.handler && y'.monitor == y.monitor
    requires WorkerOp(job, y'.worker) == WorkerOp(job, y.worker)
    ensures Tags(job, y')
  {
    forall d | 0 <= d < |y.store.conns| && y.store.conns[d].Busy? ensures ConnTag(job, y', d) {
      assert ConnTag(job, y, d);
    }
  }

  lemma WorkerWalks(job: Job, rows: Table, y: System, panic: bool)
    requires Good(job, rows, y) && y.handler == Spawned && y.worker in {Walking, CleaningUp}
    ensures Good(job, rows, WorkerStep(job, y, panic))
  {
    var y' := WorkerStep(job, y, panic);
    SameStoreKeepsTags(job, y, y');
    assert FlagOk(job, y');
    assert WorkerOk(job, y');
  }

  lemma WorkerCalls(job: Job, rows: Table, y: System)
    requires Good(job, rows, y) && y.handler == Spawned && HomeIdle(job, y)
    requires y.worker == Asking || y.worker.Settling?
    ensures Good(job, rows, WorkerStep(job, y, false))
  {
    var y' := WorkerStep(job, y, false);
    HomeMoveKeepsTags(job, rows, y, y', if y.worker == Asking then Call(WORKER, Get(job.id))
                                        else Call(WORKER, Update(job.id, y.worker.to)));
  }

  lemma WorkerHears(job: Job, rows: Table, y: System)
    requires Good(job, rows, y) && y.handler == Spawned && HomeReply(job, y, WORKER).Some?
    requires y.worker == Checking || y.worker.Updating?
    ensures Good(job, rows, WorkerStep(job, y, false))
  {
    var y' := WorkerStep(job, y, false);
    assert ConnTag(job, y, job.home);
    HomeMoveKeepsTags(job, rows, y, y', Return);
    assert FlagOk(job, y');
    assert WorkerOk(job, y');
    assert CommitOk(job, y');
  }

  lemma WorkerKeeps(job: Job, rows: Table, y: System, panic: bool)
    requires Good(job, rows, y)
    ensures Good(job, rows, Step(job, y, WorkerMove(panic)))
  {
    if y.handler == Spawned {
      if y.worker in {Walking, CleaningUp} {
        WorkerWalks(job, rows, y, panic);
      } else if (y.worker == Asking || y.worker.Settling?) && HomeIdle(job, y) {
        WorkerCalls(job, rows, y);
      } else if (y.worker == Checking || y.worker.Updating?) && HomeReply(job, y, WORKER).Some? {
        WorkerHears(job, rows, y);
      }
    }
  }

  lemma StepKeeps(job: Job, rows: Table, y: System, move: Move)
    requires Good(job, rows, y)
    ensures Good(job, rows, Step(job, y, move))
  {
    match move
    case ClientCall(_, _, _) => ClientKeeps(job, rows, y, move);
    case ClientReturn(_) => ClientKeeps(job, rows, y, move);
    case StoreStatement(c, fault) => StatementKeeps(job, rows, y, c, fault);
    case HandlerMove => HandlerKeeps(job, rows, y);
    case MonitorMove => MonitorKeeps(job, rows, y);
    case WorkerMove(panic) => WorkerKeeps(job, rows, y, panic);
  }

  lemma StartIsGood(job: Job, y: System)
    requires Start(job, y)
    ensures Good(job, y.store.rows, y)
  {
    InitialInv(y.store);
  }

  lemma {:induction false} PlayKeeps(job: Job, rows: Table, y: System, moves: seq<Move>)
    requires Good(job, rows, y)
    ensures Good(job, rows, Play(job, y, moves))
    decreases |moves|
  {
    if moves == [] {
    } else {
      PlayKeeps(job, rows, y, moves[..|moves| - 1]);
      StepKeeps(job, rows, Play(job, y, moves[..|moves| - 1]), moves[|moves| - 1]);
    }
  }
}
