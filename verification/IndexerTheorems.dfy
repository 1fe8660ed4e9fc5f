/** What a client of the indexer may conclude from what it sees. */
module IndexerTheorems {
  import opened Wrappers
  import opened Tasks
  import opened AtomicStore
  import opened TaskTable
  import opened StoreProtocol
  import opened Walk
  import opened Indexer
  import opened IndexerInvariant

  /** Some update of the worker to `completed` has committed. */
  ghost predicate WorkerCompleted(y: System) {
    exists k :: 0 <= k < |y.store.log| && y.store.log[k].agent == WORKER && y.store.log[k].after == Completed
  }

  /** A `completed` written by the worker means an untruncated walk: in every
      run of worker, monitor and clients, the flag was never up at any check of
      the walk, and the index covers the whole readable tree. */
  lemma CompletedMeansWholeTree(job: Job, y: System, moves: seq<Move>)
    requires Start(job, y) && WorkerCompleted(Play(job, y, moves))
    ensures var end := Play(job, y, moves);
            && true !in end.observed
            && WalkSeen(job, end.observed).1 <= |end.observed|
            && end.index == Some(Tally(job.measure, ZERO, FilesBelow(job.root)))
  {
    StartIsGood(job, y);
    PlayKeeps(job, y.store.rows, y, moves);
    var end := Play(job, y, moves);
    SeenIsOneWay(end.observed);
    WalkIsPrefix(job.root, FlagSeen(end.observed));
  }

  /** In any run, what a finished walk indexed is at most the whole tree, and it
      is the whole tree unless the task was cancelled. */
  lemma TruncatedMeansCancelled(job: Job, y: System, moves: seq<Move>)
    requires Start(job, y) && Play(job, y, moves).index.Some?
    ensures var end := Play(job, y, moves);
            && AtMost(end.index.value, Tally(job.measure, ZERO, FilesBelow(job.root)))
            && (end.index.value == Tally(job.measure, ZERO, FilesBelow(job.root)) || Row(job, end) == Some(Cancelled))
  {
    StartIsGood(job, y);
    PlayKeeps(job, y.store.rows, y, moves);
    var end := Play(job, y, moves);
    SeenIsOneWay(end.observed);
    CancelledReportsLess(job.measure, job.root, FlagSeen(end.observed));
    WalkIsPrefix(job.root, FlagSeen(end.observed));
  }

  /** Cancellation reaches the walk: one poll of a cancelled task, made while
      the walk is on, raises the flag and ends the monitor. */
  lemma PollRaisesFlag(job: Job, rows: Table, y: System)
    requires Good(job, rows, y) && y.handler == Spawned && y.worker == Walking
    requires y.monitor == Sleeping && HomeIdle(job, y) && Row(job, y) == Some(Cancelled)
    ensures var z := Step(job, Step(job, Step(job, y, MonitorMove), StoreStatement(job.home, false)), MonitorMove);
            z.flag && z.monitor == Stopped && z.worker == Walking && z.observed == y.observed
  {
    var called := Step(job, y, MonitorMove);
    assert called.store.conns[job.home] == Busy(MONITOR, Get(job.id), Begin, |y.store.events|);
    var read := Step(job, called, StoreStatement(job.home, false));
    assert HomeReply(job, read, MONITOR) == Some(Found(Task(job.id, Cancelled, None, map[])));
  }

  /** What was seen before, and then nothing but a raised flag. */
  ghost predicate SeesOnlyUp(before: seq<bool>, after: seq<bool>) {
    before <= after && forall i :: |before| <= i < |after| ==> after[i]
  }

  lemma {:induction false} FlagStaysUp(job: Job, y: System, moves: seq<Move>)
    requires y.flag
    ensures Play(job, y, moves).flag && SeesOnlyUp(y.observed, Play(job, y, moves).observed)
    decreases |moves|
  {
    if moves == [] {
    } else {
      var init := moves[..|moves| - 1];
      FlagStaysUp(job, y, init);
      FlagStep(job, Play(job, y, init), moves[|moves| - 1]);
    }
  }

  lemma FlagStep(job: Job, y: System, move: Move)
    requires y.flag
    ensures Step(job, y, move).flag
    ensures Step(job, y, move).observed in {y.observed, y.observed + [true]}
  {
  }

  /** From the moment the flag is up the walk counts no further file: whatever
      else happens, it returns what it would return if its very next check, and
      every later one, found the flag up. */
  lemma RaisedFlagStopsWalk(job: Job, y: System, moves: seq<Move>, more: seq<Move>)
    requires Start(job, y) && Play(job, y, moves).flag && Play(job, y, moves).worker == Walking
    requires Play(job, Play(job, y, moves), more).index.Some?
    ensures var seen := Play(job, y, moves).observed + [true];
            Play(job, Play(job, y, moves), more).index == Some(IndexSeen(job, seen))
  {
    var raised := Play(job, y, moves);
    var end := Play(job, raised, more);
    StartIsGood(job, y);
    PlayKeeps(job, y.store.rows, y, moves);
    PlayKeeps(job, y.store.rows, raised, more);
    FlagStaysUp(job, raised, more);
    var seen := raised.observed + [true];
    assert WalkSeen(job, end.observed).1 <= |end.observed|;
    assert forall k: nat :: k < |end.observed| ==> FlagSeen(end.observed)(k) == FlagSeen(seen)(k);
    if job.root.Dir? {
      DirDependsOnChecks(job.root, FlagSeen(end.observed), FlagSeen(seen), 0);
    }
  }

  function WorkerMoves(moves: seq<Move>): nat {
    if moves == [] then 0
    else WorkerMoves(moves[..|moves| - 1]) + if moves[|moves| - 1].WorkerMove? then 1 else 0
  }

  /** How many checks a walk of the job can still make under a raised flag. */
  function ChecksLeft(job: Job): nat {
    if job.root.Dir? then Levels(job.root) else 1
  }

  /** One more move of a worker that is still walking under a raised flag. */
  lemma WalkOn(job: Job, rows: Table, y: System, up: nat, made: nat)
    requires Good(job, rows, y) && y.handler == Spawned && y.worker == Walking && up + made == |y.observed|
    requires made > 0 ==> y.observed[up]
    requires WorkerStep(job, y, false).worker == Walking
    ensures made + 1 <= ChecksLeft(job)
  {
    if made == 0 {
    } else if job.root.Dir? {
      SeenIsOneWay(y.observed);
      DirStopsSoon(job.root, FlagSeen(y.observed), 0, up);
    }
  }

  /** Cancellation is prompt: from the moment the flag is up, whatever else
      happens, the worker leaves the walk within one move more than there are
      nested directories. */
  lemma {:induction false} RaisedFlagStopsWorkerSoon(job: Job, rows: Table, y: System, more: seq<Move>)
    requires Good(job, rows, y) && y.flag && y.worker == Walking && Play(job, y, more).worker == Walking
    ensures WorkerMoves(more) <= ChecksLeft(job)
    ensures |Play(job, y, more).observed| == |y.observed| + WorkerMoves(more)
    decreases |more|
  {
    if more == [] {
    } else {
      var init, last := more[..|more| - 1], more[|more| - 1];
      var mid := Play(job, y, init);
      PlayKeeps(job, rows, y, init);
      FlagStaysUp(job, y, init);
      WalkingBefore(job, mid, last);
      RaisedFlagStopsWorkerSoon(job, rows, y, init);
      if last.WorkerMove? {
        WalkOn(job, rows, mid, |y.observed|, WorkerMoves(init));
      }
    }
  }

  /** A worker that is walking was walking before, and has made a check if the
      move was its own. */
  lemma WalkingBefore(job: Job, y: System, move: Move)
    requires y.handler == Spawned && Step(job, y, move).worker == Walking
    ensures y.worker == Walking
    ensures Step(job, y, move).observed == if move.WorkerMove? then y.observed + [y.flag] else y.observed
    ensures move.WorkerMove? ==> WorkerStep(job, y, false).worker == Walking
  {
  }

  ghost predicate SenderOnFile(job: Job, others: set<string>, y: System) {
    && (y.handler != Spawned ==> y.worker == Walking)
    && y.cancelTxs == others + if y.handler == Spawned && y.worker in {Walking, CleaningUp} then {job.id} else {}
  }

  lemma SenderStep(job: Job, others: set<string>, y: System, move: Move)
    requires job.id !in others && SenderOnFile(job, others, y)
    ensures SenderOnFile(job, others, Step(job, y, move))
  {
    match move
    case HandlerMove => assert SenderOnFile(job, others, HandlerStep(job, y));
    case WorkerMove(panic) => assert y.handler == Spawned ==> SenderOnFile(job, others, WorkerStep(job, y, panic));
    case MonitorMove => assert SenderOnFile(job, others, MonitorStep(job, y));
    case ClientCall(_, _, _) =>
    case ClientReturn(_) =>
    case StoreStatement(_, _) =>
  }

  /** The cancel sender is on file from the moment the task is spawned to the end
      of the worker's clean-up and at no other time; no other entry is touched. */
  lemma {:induction false} SenderIsKeptForTheWalk(job: Job, y: System, moves: seq<Move>)
    requires Start(job, y) && job.id !in y.cancelTxs
    ensures SenderOnFile(job, y.cancelTxs, Play(job, y, moves))
    decreases |moves|
  {
    if moves == [] {
    } else {
      var init := moves[..|moves| - 1];
      SenderIsKeptForTheWalk(job, y, init);
      SenderStep(job, y.cancelTxs, Play(job, y, init), moves[|moves| - 1]);
    }
  }

  /** If the reply the worker stopped on shows the task to be over, it is over,
      and it stays over whatever anybody does. */
  lemma SettledExitIsFinal(job: Job, y: System, moves: seq<Move>)
    requires Start(job, y)
    requires Play(job, y, moves).worker.Exited? && Settles(Play(job, y, moves).worker.last)
    ensures RowTerminal(job, Play(job, y, moves)) && job.id !in Play(job, y, moves).cancelTxs
  {
    StartIsGood(job, y);
    PlayKeeps(job, y.store.rows, y, moves);
  }

  /** Once the task is over: the polls that may still find nothing to do, and
      what a later poll in progress has read. */
  ghost predicate PollsEnding(job: Job, y: System, allowed: nat) {
    && y.handler == Spawned && RowTerminal(job, y)
    && (y.polls > allowed ==> y.monitor == Stopped)
    && (y.polls == allowed && y.monitor == Polling ==>
          HomeReply(job, y, MONITOR).Some? ==>
            var reply := HomeReply(job, y, MONITOR).value;
            reply.Rejected? || (reply.Found? && IsTerminal(reply.task.status)))
  }

  lemma PollsEndingStatement(job: Job, rows: Table, y: System, allowed: nat, c: nat, fault: bool)
    requires Good(job, rows, y) && PollsEnding(job, y, allowed) && c < |y.store.conns| && y.store.conns[c].Busy?
    ensures PollsEnding(job, AfterStatement(y, c, fault), allowed)
  {
    StatementEffects(y.store, c, fault);
    StatementKeepsRow(job, rows, y, c, fault);
    var conn, conn' := y.store.conns[c], AfterStatement(y, c, fault).store.conns[c];
    if c == job.home && conn.agent == MONITOR && !conn.pc.Finished? && conn'.pc.Finished? {
      assert ConnTag(job, y, c);
      ReplyNamesRow(rows, y.store, c, fault);
      assert conn'.pc.reply != Stored;
    }
  }

  lemma PollsEndingMonitor(job: Job, y: System, allowed: nat)
    requires job.home < |y.store.conns| && PollsEnding(job, y, allowed)
    ensures PollsEnding(job, MonitorStep(job, y), allowed)
  {
    var y' := MonitorStep(job, y);
    if y.monitor == Sleeping && HomeIdle(job, y) {
      assert y'.polls == y.polls && HomeReply(job, y', MONITOR).None?;
    } else if y.monitor == Polling && HomeReply(job, y, MONITOR).Some? {
      assert y'.polls == y.polls + 1 && y'.store.rows == y.store.rows && y'.handler == Spawned && y'.monitor != Polling;
    }
  }

  /** A call or a return by anybody but the monitor, or a step of its own. */
  lemma PollsEndingOthers(job: Job, y: System, allowed: nat, y': System)
    requires job.home < |y.store.conns| && PollsEnding(job, y, allowed)
    requires y'.handler == Spawned && y'.monitor == y.monitor && y'.polls == y.polls && y'.store.rows == y.store.rows
    requires HomeReply(job, y', MONITOR).Some? ==> HomeReply(job, y', MONITOR) == HomeReply(job, y, MONITOR)
    ensures PollsEnding(job, y', allowed)
  {
  }

  lemma PollsEndingWorker(job: Job, y: System, allowed: nat, panic: bool)
    requires job.home < |y.store.conns| && PollsEnding(job, y, allowed)
    ensures PollsEnding(job, WorkerStep(job, y, panic), allowed)
  {
    var y' := WorkerStep(job, y, panic);
    assert y'.store == y.store || HomeReply(job, y', MONITOR).None?;
    PollsEndingOthers(job, y, allowed, y');
  }

  lemma PollsEndingClient(job: Job, y: System, allowed: nat, move: Move)
    requires job.home < |y.store.conns| && PollsEnding(job, y, allowed) && (move.ClientCall? || move.ClientReturn?)
    ensures PollsEnding(job, Step(job, y, move), allowed)
  {
    PollsEndingOthers(job, y, allowed, Step(job, y, move));
  }

  lemma PollsEndingStep(job: Job, rows: Table, y: System, allowed: nat, move: Move)
    requires Good(job, rows, y) && PollsEnding(job, y, allowed)
    ensures PollsEnding(job, Step(job, y, move), allowed)
  {
    match move
    case MonitorMove => PollsEndingMonitor(job, y, allowed);
    case WorkerMove(panic) => PollsEndingWorker(job, y, allowed, panic);
    case HandlerMove => assert HandlerStep(job, y) == y;
    case ClientCall(_, _, _) => PollsEndingClient(job, y, allowed, move);
    case ClientReturn(_) => PollsEndingClient(job, y, allowed, move);
    case StoreStatement(c, fault) =>
      if c < |y.store.conns| && y.store.conns[c].Busy? {
        PollsEndingStatement(job, rows, y, allowed, c, fault);
      }
  }

  lemma {:induction false} PollsEndingPlay(job: Job, rows: Table, y: System, allowed: nat, moves: seq<Move>)
    requires Good(job, rows, y) && PollsEnding(job, y, allowed)
    ensures PollsEnding(job, Play(job, y, moves), allowed)
    decreases |moves|
  {
    if moves == [] {
    } else {
      PlayKeeps(job, rows, y, moves[..|moves| - 1]);
      PollsEndingPlay(job, rows, y, allowed, moves[..|moves| - 1]);
      PollsEndingStep(job, rows, Play(job, y, moves[..|moves| - 1]), allowed, moves[|moves| - 1]);
    }
  }

  /** And the monitor goes with it: from there on, in any run at all, every poll
      that starts after the exit ends the monitor. A poll already under way at
      the exit may come back with an older answer, once. */
  lemma PollsEndAfterExit(job: Job, y: System, moves: seq<Move>, more: seq<Move>)
    requires Start(job, y)
    requires var exit := Play(job, y, moves); exit.worker.Exited? && Settles(exit.worker.last)
    ensures var exit := Play(job, y, moves);
            var end := Play(job, exit, more);
            end.polls > exit.polls + (if exit.monitor == Polling then 1 else 0) ==> end.monitor == Stopped
  {
    StartIsGood(job, y);
    PlayKeeps(job, y.store.rows, y, moves);
    var exit := Play(job, y, moves);
    PollsEndingPlay(job, y.store.rows, exit, exit.polls + (if exit.monitor == Polling then 1 else 0), more);
  }
}
