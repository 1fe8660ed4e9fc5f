/** What the protocol promises of whole runs: any number of connections, any
    interleaving of statements, any statement failing. */
module StoreTheorems {
  import opened Wrappers
  import opened Tasks
  import opened AtomicStore
  import opened TaskTable
  import opened StoreProtocol
  import opened StoreInvariant

  /** Simulation. In every run the operations, in the order in which they take
      effect, explain the final table and every reply on the atomic store. */
  lemma RunIsExplained(s: State, schedule: Schedule)
    requires Initial(s)
    ensures var end := Run(s, schedule);
            && Known(end.rows)
            && Abs(end.rows) == TasksAfter(Abs(s.rows), end.events)
            && (forall e :: 0 <= e < |end.events| ==>
                  Explained(TasksAfter(Abs(s.rows), end.events[..e]), end.events[e]))
  {
    InitialInv(s);
    RunKeeps(s.rows, s, schedule);
  }

  /** The exceptions are exactly the three named ones: an explained event has
      the atomic store's effect and reply if and only if it is no exception. */
  lemma ExceptionsAreExact(tasks: TaskMap, e: Event)
    requires Explained(tasks, e)
    ensures (Effect(tasks, e), e.reply) == Apply(ForgetOp(e.op), tasks) <==> e.manner == Atomic
    ensures e.manner in {Fault, Conflict} ==> Effect(tasks, e) == tasks
  {
  }

  /** The event of a statement that has finished the operation `conn`. */
  ghost predicate Arises(s: State, c: nat, conn: Conn, fault: bool, s': State)
    requires conn.Busy?
  {
    && c < |s'.conns| && s'.conns[c].Busy?
    && (s'.conns[c].pc.Finished? <==> |s'.events| == |s.events| + 1)
    && (s'.conns[c].pc.Finished? ==>
          && var e, row := s'.events[|s.events|], StatusOf(s.rows, conn.op.Target());
             && e.conn == c && e.agent == conn.agent && e.op == conn.op && e.reply == s'.conns[c].pc.reply
             && (e.manner == Fault <==> fault)
             && (e.manner == Conflict <==>
                   && !fault && conn.op.Update? && conn.pc.Reread?
                   && row.Some? && CanTransitionTo(row.value, conn.op.to))
             && (e.manner == Overwrite <==>
                   !fault && conn.op.Cancel? && conn.pc.Unguarded? && row in {Some(Completed), Some(Failed)}))
  }

  lemma UpdateArises(s: State, c: nat)
    requires c < |s.conns| && s.conns[c].Busy? && s.conns[c].op.Update? && !s.conns[c].pc.Finished?
    ensures Arises(s, c, s.conns[c], false, ExecuteUpdate(s, c, s.conns[c].op.id, s.conns[c].op.to))
  {
  }

  lemma CancelArises(s: State, c: nat)
    requires c < |s.conns| && s.conns[c].Busy? && s.conns[c].op.Cancel? && !s.conns[c].pc.Finished?
    ensures Arises(s, c, s.conns[c], false, ExecuteCancel(s, c, s.conns[c].op.id))
  {
  }

  /** And each arises in one way: a failed statement, a re-read that finds a
      status permitting the update, or a cancel's write onto a row that somebody
      else has finished. A failed statement writes nothing. */
  lemma ExceptionsArise(s: State, c: nat, fault: bool)
    requires c < |s.conns| && s.conns[c].Busy? && !s.conns[c].pc.Finished?
    ensures var s' := Next(s, c, Statement(fault));
            && Arises(s, c, s.conns[c], fault, s')
            && (fault ==> s'.conns[c].pc == Finished(Rejected(Sqlite)) && s'.rows == s.rows && s'.log == s.log)
  {
    if !fault {
      match s.conns[c].op
      case Insert(_) =>
      case Get(_) =>
      case Update(_, _) => UpdateArises(s, c);
      case Cancel(_) => CancelArises(s, c);
    }
  }

  function OpsOf(events: seq<Event>): (ops: seq<Op>)
    ensures |ops| == |events|
  {
    seq(|events|, i requires 0 <= i < |events| => ForgetOp(events[i].op))
  }

  lemma {:induction false} AtomicEventsAreARun(tasks: TaskMap, events: seq<Event>, k: nat)
    requires forall e :: 0 <= e < |events| ==>
               events[e].manner == Atomic && Explained(TasksAfter(tasks, events[..e]), events[e])
    requires k <= |events|
    ensures TasksAfter(tasks, events[..k]) == Stores(OpsOf(events), tasks)[k]
    ensures k < |events| ==> events[k].reply == Replies(OpsOf(events), tasks)[k]
  {
    if k == 0 {
    } else {
      AtomicEventsAreARun(tasks, events, k - 1);
      RunStep(OpsOf(events), tasks, k - 1);
      assert events[..k][..k - 1] == events[..k - 1];
    }
    if k < |events| {
      RunStep(OpsOf(events), tasks, k);
    }
  }

  /** So a run without exceptions is linearizable: the same operations, one
      after the other, give the same replies and the same tasks. */
  lemma RunIsLinearizable(s: State, schedule: Schedule)
    requires Initial(s)
    requires forall e :: e in Run(s, schedule).events ==> e.manner == Atomic
    ensures var end := Run(s, schedule);
            var ops := OpsOf(end.events);
            && Known(end.rows)
            && Abs(end.rows) == Stores(ops, Abs(s.rows))[|ops|]
            && forall k :: 0 <= k < |ops| ==> end.events[k].reply == Replies(ops, Abs(s.rows))[k]
  {
    RunIsExplained(s, schedule);
    var events := Run(s, schedule).events;
    forall k | 0 <= k < |events| ensures events[k].reply == Replies(OpsOf(events), Abs(s.rows))[k] {
      AtomicEventsAreARun(Abs(s.rows), events, k);
    }
    AtomicEventsAreARun(Abs(s.rows), events, |events|);
    assert events[..|events|] == events;
  }

  /** And it respects real time: an operation takes effect exactly once, after
      its call and before its return, with the reply it returns. */
  lemma EffectBetweenCallAndReturn(s: State, schedule: Schedule, c: nat)
    requires Initial(s)
    requires var end := Run(s, schedule); c < |end.conns| && end.conns[c].Busy?
    ensures var end := Run(s, schedule);
            var conn := end.conns[c];
            && conn.since <= |end.events|
            && if conn.pc.Finished?
               then exists e :: TookEffectAt(end.events, c, conn, e) && end.events[e].reply == conn.pc.reply
               else forall e :: conn.since <= e < |end.events| ==> end.events[e].conn != c
  {
    InitialInv(s);
    RunKeeps(s.rows, s, schedule);
    assert ConnOk(s.rows, Run(s, schedule), c);
  }

  ghost predicate Grows(s: State, s': State) {
    s.log <= s'.log && s.events <= s'.events && s.rows.Keys <= s'.rows.Keys && |s'.conns| == |s.conns|
  }

  lemma ExecuteGrows(s: State, c: nat)
    requires c < |s.conns| && s.conns[c].Busy? && !s.conns[c].pc.Finished?
    ensures Grows(s, Execute(s, c))
  {
    match s.conns[c].op
    case Insert(_) =>
    case Get(_) =>
    case Update(id, to) => assert Grows(s, ExecuteUpdate(s, c, id, to));
    case Cancel(id) => assert Grows(s, ExecuteCancel(s, c, id));
  }

  lemma NextGrows(s: State, c: nat, a: Action)
    ensures Grows(s, Next(s, c, a))
  {
    if c < |s.conns| && s.conns[c].Busy? && !s.conns[c].pc.Finished? && a == Statement(false) {
      ExecuteGrows(s, c);
    }
  }

  /** History only grows, and so does the set of rows: nothing deletes one. */
  lemma {:induction false} RunGrows(s: State, schedule: Schedule)
    ensures Grows(s, Run(s, schedule))
    decreases |schedule|
  {
    if schedule == [] {
    } else {
      var last := schedule[|schedule| - 1];
      RunGrows(s, schedule[..|schedule| - 1]);
      NextGrows(Run(s, schedule[..|schedule| - 1]), last.0, last.1);
    }
  }

  /** Every write an update ever commits is a legal step from the status in the
      row at that instant, however old the read and whatever the row went
      through meanwhile. */
  lemma UpdatesCommitLegally(s: State, schedule: Schedule, k: nat)
    requires Initial(s)
    requires var log := Run(s, schedule).log; k < |log| && log[k].cause == ByUpdate
    ensures var log := Run(s, schedule).log;
            var before := StatusAfter(s.rows, log[..k], log[k].id);
            before.Some? && LegalPath([before.value, log[k].after])
  {
    InitialInv(s);
    RunKeeps(s.rows, s, schedule);
    var log := Run(s, schedule).log;
    assert WriteOk(s.rows, log, k);
    var path := [StatusAfter(s.rows, log[..k], log[k].id).value, log[k].after];
    assert LegalPath(path) <== CanTransitionTo(path[0], path[1]);
  }

  /** An update gets to the re-read only if another connection wrote the row
      between its read and its write, and the re-read then finds the row. */
  lemma ConflictMeansRace(s: State, schedule: Schedule, c: nat)
    requires Initial(s)
    requires var end := Run(s, schedule); c < |end.conns| && end.conns[c].Busy? && end.conns[c].pc.Reread?
    ensures var end := Run(s, schedule);
            var conn := end.conns[c];
            && conn.op.Update? && StatusOf(end.rows, conn.op.id).Some?
            && WrittenByOther(end.log, c, conn.op.id, conn.pc.read, |end.log|)
            && var end' := Next(end, c, Statement(false));
               && end'.rows == end.rows && end'.conns[c].pc.Finished?
               && end'.conns[c].pc.reply
                  == Rejected(IllegalTransition(StatusOf(end.rows, conn.op.id).value, conn.op.to))
  {
    InitialInv(s);
    RunKeeps(s.rows, s, schedule);
    assert ConnOk(s.rows, Run(s, schedule), c);
  }

  ghost predicate WritesOk(rows: Table, log: seq<Write>) {
    forall k :: 0 <= k < |log| ==> WriteOk(rows, log, k)
  }

  ghost predicate NoInsert(log: seq<Write>, id: string, lo: nat, hi: nat) {
    forall k :: lo <= k < hi && k < |log| && log[k].cause == ByInsert ==> log[k].id != id
  }

  lemma {:induction false} StatusStep(rows: Table, log: seq<Write>, k: nat, id: string)
    requires k < |log|
    ensures StatusAfter(rows, log[..k + 1], id)
            == if log[k].id == id then Some(log[k].after) else StatusAfter(rows, log[..k], id)
  {
    assert log[..k + 1][..k] == log[..k];
  }

  /** A write to a terminal row that is no insert is a late cancel: it read the
      row while it was live, and the write that ended the task came from
      another connection in between. */
  lemma LateCancel(rows: Table, log: seq<Write>, k: nat)
    requires WritesOk(rows, log) && k < |log| && log[k].cause != ByInsert
    requires var before := StatusAfter(rows, log[..k], log[k].id); before.Some? && IsTerminal(before.value)
    ensures log[k].cause == ByCancel && log[k].after == Cancelled
    ensures log[k].read <= k
            && var seen := StatusAfter(rows, log[..log[k].read], log[k].id); seen.Some? && !IsTerminal(seen.value)
    ensures exists j :: log[k].read <= j < k && log[j].id == log[k].id && log[j].conn != log[k].conn
                        && StatusAfter(rows, log[..k], log[k].id) == Some(log[j].after)
  {
    var w := log[k];
    assert WriteOk(rows, log, k);
    assert log[..k][..w.read] == log[..w.read];
    MovedMeansWritten(rows, log[..k], w.read, w.id);
    var j :| w.read <= j < |log[..k]| && log[..k][j].id == w.id
             && StatusAfter(rows, log[..k], w.id) == Some(log[..k][j].after);
    assert log[j] == log[..k][j];
  }

  /** Between inserts of an id its rank never falls, so live statuses are never
      come back to, `cancelled` is absorbing, and the only way out of a
      terminal status is from `completed` or `failed` to `cancelled`. */
  lemma {:induction false} RankNeverFalls(rows: Table, log: seq<Write>, id: string, lo: nat, hi: nat)
    requires WritesOk(rows, log) && lo <= hi <= |log| && NoInsert(log, id, lo, hi)
    requires StatusAfter(rows, log[..lo], id).Some?
    ensures var before, after := StatusAfter(rows, log[..lo], id), StatusAfter(rows, log[..hi], id);
            && after.Some? && Rank(before.value) <= Rank(after.value)
            && (IsTerminal(before.value) ==> after.value in {before.value, Cancelled})
    decreases hi
  {
    if lo == hi {
    } else {
      RankNeverFalls(rows, log, id, lo, hi - 1);
      StatusStep(rows, log, hi - 1, id);
      assert WriteOk(rows, log, hi - 1);
    }
  }

  /** When no cancel is overtaken on this row, all three terminals absorb. */
  lemma {:induction false} TerminalAbsorbs(rows: Table, log: seq<Write>, id: string, lo: nat, hi: nat)
    requires WritesOk(rows, log) && lo <= hi <= |log| && NoInsert(log, id, lo, hi)
    requires StatusAfter(rows, log[..lo], id).Some? && IsTerminal(StatusAfter(rows, log[..lo], id).value)
    requires forall k :: lo <= k < hi && log[k].id == id && log[k].cause == ByCancel ==>
                           !WrittenByOther(log, log[k].conn, id, log[k].read, k)
    ensures StatusAfter(rows, log[..hi], id) == StatusAfter(rows, log[..lo], id)
    decreases hi
  {
    if lo == hi {
    } else {
      TerminalAbsorbs(rows, log, id, lo, hi - 1);
      StatusStep(rows, log, hi - 1, id);
      if log[hi - 1].id == id {
        LateCancel(rows, log, hi - 1);
        assert false;
      }
    }
  }

  /** In the log a terminal status is left where a cancel commits over it. */
  lemma {:induction false} TerminalIsLeftByCancelOnly(rows: Table, log: seq<Write>, id: string, lo: nat, hi: nat)
    requires WritesOk(rows, log) && lo <= hi <= |log| && NoInsert(log, id, lo, hi)
    requires StatusAfter(rows, log[..lo], id).Some? && IsTerminal(StatusAfter(rows, log[..lo], id).value)
    ensures StatusAfter(rows, log[..hi], id) != StatusAfter(rows, log[..lo], id)
            <==> StatusAfter(rows, log[..lo], id) != Some(Cancelled)
                 && exists k :: lo <= k < hi && log[k].id == id && log[k].cause == ByCancel
  {
    if hi == lo {
    } else {
      TerminalIsLeftByCancelOnly(rows, log, id, lo, hi - 1);
      RankNeverFalls(rows, log, id, lo, hi - 1);
      StatusStep(rows, log, hi - 1, id);
      assert WriteOk(rows, log, hi - 1);
    }
  }

  /** The same for runs: from any reachable state, over any further run. */
  lemma RunRankNeverFalls(rows: Table, s: State, schedule: Schedule, id: string)
    requires Inv(rows, s) && id in s.rows
    requires NoInsert(Run(s, schedule).log, id, |s.log|, |Run(s, schedule).log|)
    ensures var before, after := StatusOf(s.rows, id), StatusOf(Run(s, schedule).rows, id);
            && before.Some? && after.Some? && Rank(before.value) <= Rank(after.value)
            && (IsTerminal(before.value) ==> after.value in {before.value, Cancelled})
  {
    RunKeeps(rows, s, schedule);
    RunGrows(s, schedule);
    var end := Run(s, schedule);
    assert end.log[..|s.log|] == s.log && end.log[..|end.log|] == end.log;
    RankNeverFalls(rows, end.log, id, |s.log|, |end.log|);
  }

  /** Every run's log is a log the theorems above speak of. */
  lemma RunLogIsOk(s: State, schedule: Schedule)
    requires Initial(s)
    ensures var end := Run(s, schedule);
            WritesOk(s.rows, end.log) && forall id :: StatusOf(end.rows, id) == StatusAfter(s.rows, end.log, id)
  {
    InitialInv(s);
    RunKeeps(s.rows, s, schedule);
  }

  /** Some connection has read the row live for a cancel and not written yet. */
  predicate CancelUnderWay(conn: Conn, id: string) {
    conn.Busy? && conn.op == Cancel(id) && conn.pc.Unguarded?
  }

  ghost predicate NoCancelUnderWay(s: State, id: string) {
    forall c :: 0 <= c < |s.conns| ==> !CancelUnderWay(s.conns[c], id)
  }

  ghost predicate Over(s: State, id: string) {
    StatusOf(s.rows, id) in {Some(Completed), Some(Failed)}
  }

  /** From `s` on, nobody inserts `id`. */
  ghost predicate InsertsNone(s: State, schedule: Schedule, id: string) {
    NoInsert(Run(s, schedule).log, id, |s.log|, |Run(s, schedule).log|)
  }

  lemma OverStep(rows: Table, s: State, id: string, c: nat, a: Action)
    requires Inv(rows, s) && Over(s, id) && NoCancelUnderWay(s, id)
    requires NoInsert(Next(s, c, a).log, id, |s.log|, |Next(s, c, a).log|)
    ensures StatusOf(Next(s, c, a).rows, id) == StatusOf(s.rows, id) && NoCancelUnderWay(Next(s, c, a), id)
  {
    if c < |s.conns| && s.conns[c].Busy? && !s.conns[c].pc.Finished? && a == Statement(false) {
      OverStatement(rows, s, id, c);
    }
  }

  lemma OverStatement(rows: Table, s: State, id: string, c: nat)
    requires Inv(rows, s) && Over(s, id) && NoCancelUnderWay(s, id)
    requires c < |s.conns| && s.conns[c].Busy? && !s.conns[c].pc.Finished?
    requires NoInsert(Execute(s, c).log, id, |s.log|, |Execute(s, c).log|)
    ensures StatusOf(Execute(s, c).rows, id) == StatusOf(s.rows, id) && NoCancelUnderWay(Execute(s, c), id)
  {
    assert ConnOk(rows, s, c) && !CancelUnderWay(s.conns[c], id);
    match s.conns[c].op
    case Insert(task) => assert Execute(s, c).log[|s.log|].cause == ByInsert;
    case Get(_) =>
    case Update(_, _) => OverUpdate(rows, s, id, c);
    case Cancel(other) => assert Execute(s, c) == ExecuteCancel(s, c, other);
  }

  lemma OverUpdate(rows: Table, s: State, id: string, c: nat)
    requires Inv(rows, s) && Over(s, id) && NoCancelUnderWay(s, id)
    requires c < |s.conns| && s.conns[c].Busy? && s.conns[c].op.Update? && !s.conns[c].pc.Finished?
    ensures StatusOf(Execute(s, c).rows, id) == StatusOf(s.rows, id) && NoCancelUnderWay(Execute(s, c), id)
  {
    assert ConnOk(rows, s, c) && !CancelUnderWay(s.conns[c], id);
    assert Execute(s, c) == ExecuteUpdate(s, c, s.conns[c].op.id, s.conns[c].op.to);
    if s.conns[c].pc.Guarded? {
      GuardIsStatusGuard(s.rows, s.conns[c].op.id, s.conns[c].pc.from);
    }
  }

  lemma {:induction false} OverStays(rows: Table, s: State, id: string, schedule: Schedule)
    requires Inv(rows, s) && Over(s, id) && NoCancelUnderWay(s, id) && InsertsNone(s, schedule, id)
    ensures StatusOf(Run(s, schedule).rows, id) == StatusOf(s.rows, id)
    ensures NoCancelUnderWay(Run(s, schedule), id)
    decreases |schedule|
  {
    if schedule == [] {
    } else {
      var init, last := schedule[..|schedule| - 1], schedule[|schedule| - 1];
      var mid, end := Run(s, init), Run(s, schedule);
      NextGrows(mid, last.0, last.1);
      RunGrows(s, init);
      assert forall k :: 0 <= k < |mid.log| ==> mid.log[k] == end.log[k];
      OverStays(rows, s, id, init);
      RunKeeps(rows, s, init);
      OverStep(rows, mid, id, last.0, last.1);
    }
  }

  /** Exactly when a task that is completed or failed stays so, whatever anybody
      does next short of inserting its id again: when no cancel has read it live
      and is about to write. */
  lemma TerminalStaysIffNoCancelUnderWay(rows: Table, s: State, id: string)
    requires Inv(rows, s) && Over(s, id)
    ensures (forall schedule :: InsertsNone(s, schedule, id) ==>
               StatusOf(Run(s, schedule).rows, id) == StatusOf(s.rows, id))
            <==> NoCancelUnderWay(s, id)
  {
    if NoCancelUnderWay(s, id) {
      forall schedule | InsertsNone(s, schedule, id)
        ensures StatusOf(Run(s, schedule).rows, id) == StatusOf(s.rows, id)
      {
        OverStays(rows, s, id, schedule);
      }
    } else {
      var c :| 0 <= c < |s.conns| && CancelUnderWay(s.conns[c], id);
      CancelLands(s, id, c);
    }
  }

  lemma CancelLands(s: State, id: string, c: nat)
    requires Over(s, id) && Known(s.rows) && c < |s.conns| && CancelUnderWay(s.conns[c], id)
    ensures var schedule := [(c, Statement(false))];
            InsertsNone(s, schedule, id) && StatusOf(Run(s, schedule).rows, id) == Some(Cancelled)
  {
    RunMore(s, [], c, Statement(false));
    assert [] + [(c, Statement(false))] == [(c, Statement(false))];
    assert Next(s, c, Statement(false)) == ExecuteCancel(s, c, id);
    WriteRow(s.rows, id, Cancelled);
  }

  /** An operation with no other one in between: call, at most two statements,
      return. */
  function Solo(c: nat, agent: nat, op: Op): Schedule {
    [(c, Call(agent, op)), (c, Statement(false)), (c, Statement(false)), (c, Return)]
  }

  lemma RunMore(s: State, schedule: Schedule, c: nat, a: Action)
    ensures Run(s, schedule + [(c, a)]) == Next(Run(s, schedule), c, a)
  {
    assert (schedule + [(c, a)])[..|schedule|] == schedule;
  }

  lemma RunSolo(s: State, c: nat, agent: nat, op: Op)
    ensures Run(s, Solo(c, agent, op))
            == Next(Next(Next(Next(s, c, Call(agent, op)), c, Statement(false)), c, Statement(false)), c, Return)
  {
    var one: Schedule := [(c, Call(agent, op))];
    var two := one + [(c, Statement(false))];
    var three := two + [(c, Statement(false))];
    assert [] + [(c, Call(agent, op))] == one && three + [(c, Return)] == Solo(c, agent, op);
    RunMore(s, [], c, Call(agent, op));
    RunMore(s, one, c, Statement(false));
    RunMore(s, two, c, Statement(false));
    RunMore(s, three, c, Return);
  }

  /** A fresh operation on connection `c` has finished after at most two
      statements of its own, as the atomic store would have it. */
  ghost predicate DoneAtomically(s: State, c: nat, end: State)
    requires c < |s.conns| && s.conns[c].Busy?
  {
    && |end.conns| == |s.conns| && end.conns[c].Busy? && end.conns[c].pc.Finished?
    && end.conns == s.conns[c := end.conns[c]]
    && |end.events| == |s.events| + 1 && s.events == end.events[..|s.events|]
    && end.events[|s.events|].op == s.conns[c].op
    && end.events[|s.events|].manner == Atomic
  }

  lemma SoloStatements(s: State, c: nat)
    requires c < |s.conns| && s.conns[c].Busy? && s.conns[c].pc == Begin && Known(s.rows)
    ensures var first := Execute(s, c);
            if first.conns[c].pc.Finished? then DoneAtomically(s, c, first)
            else DoneAtomically(s, c, Execute(first, c))
  {
    var first := Execute(s, c);
    match s.conns[c].op
    case Insert(_) =>
    case Get(_) =>
    case Cancel(id) =>
      if !first.conns[c].pc.Finished? {
        assert Execute(first, c) == ExecuteCancel(first, c, id);
      }
    case Update(id, to) =>
      if !first.conns[c].pc.Finished? {
        GuardIsStatusGuard(s.rows, id, StatusOf(s.rows, id).value);
        assert Execute(first, c) == ExecuteUpdate(first, c, id, to);
      }
  }

  lemma SoloShape(s: State, c: nat, agent: nat, op: Op)
    requires c < |s.conns| && s.conns[c].Idle? && Known(s.rows)
    ensures var end := Run(s, Solo(c, agent, op));
            && end.conns == s.conns
            && |end.events| == |s.events| + 1 && end.events[..|s.events|] == s.events
            && end.events[|s.events|].op == op && end.events[|s.events|].manner == Atomic
  {
    RunSolo(s, c, agent, op);
    var called := Next(s, c, Call(agent, op));
    SoloStatements(called, c);
    var first := Execute(called, c);
    var second := if first.conns[c].pc.Finished? then first else Execute(first, c);
    assert DoneAtomically(called, c, second);
    assert Next(called, c, Statement(false)) == first && Next(first, c, Statement(false)) == second;
    ReturnsIdle(second, c);
    assert second.conns[c := Idle] == s.conns;
  }

  lemma ReturnsIdle(s: State, c: nat)
    requires c < |s.conns| && s.conns[c].Busy? && s.conns[c].pc.Finished?
    ensures Next(s, c, Return) == s.(conns := s.conns[c := Idle])
  {
  }

  /** Left alone, the statements of an operation add up to the atomic one, on
      whichever idle connection it runs. */
  lemma SoloIsAtomic(rows: Table, s: State, c: nat, agent: nat, op: Op)
    requires Inv(rows, s) && c < |s.conns| && s.conns[c].Idle?
    ensures var end := Run(s, Solo(c, agent, op));
            && Inv(rows, end) && end.conns == s.conns
            && |end.events| == |s.events| + 1
            && end.events[|s.events|].op == op
            && (Abs(end.rows), end.events[|s.events|].reply) == Apply(ForgetOp(op), Abs(s.rows))
  {
    var end := Run(s, Solo(c, agent, op));
    RunKeeps(rows, s, Solo(c, agent, op));
    SoloShape(s, c, agent, op);
    LastEvent(rows, s, end);
  }

  lemma LastEvent(rows: Table, s: State, end: State)
    requires Inv(rows, s) && Inv(rows, end)
    requires |end.events| == |s.events| + 1 && end.events[..|s.events|] == s.events
    requires end.events[|s.events|].manner == Atomic
    ensures (Abs(end.rows), end.events[|s.events|].reply)
            == Apply(ForgetOp(end.events[|s.events|].op), Abs(s.rows))
  {
    assert end.events[..|end.events| - 1] == s.events;
    assert Explained(TasksAfter(Abs(rows), end.events[..|s.events|]), end.events[|s.events|]);
  }

  /** The state after two statements of a fresh operation on connection `c`. */
  function Called(s: State, c: nat, op: Op): State {
    Next(Next(s, c, Call(0, op)), c, Statement(false))
  }

  /** A terminal row really can be left: connection 0 reads a live row for its
      cancel, connection 1 completes the task, and the cancel then lands. */
  lemma LateCancelHappens(s: State, id: string)
    requires |s.conns| == 2 && s.conns[0].Idle? && s.conns[1].Idle?
    requires Known(s.rows) && StatusOf(s.rows, id) == Some(Working)
    ensures var done := Next(Called(Called(s, 0, Cancel(id)), 1, Update(id, Completed)), 1, Statement(false));
            var end := Next(done, 0, Statement(false));
            && StatusOf(done.rows, id) == Some(Completed)
            && done.conns[1].pc == Finished(Found(Task(id, Completed, None, map[])))
            && StatusOf(end.rows, id) == Some(Cancelled)
            && end.events[|end.events| - 1].manner == Overwrite
  {
    var reading := Called(s, 0, Cancel(id));
    assert reading.rows == s.rows && reading.conns[0].pc == Unguarded(Working, |s.log|);
    var racing := Called(reading, 1, Update(id, Completed));
    assert racing.rows == s.rows && racing.conns[1].pc == Guarded(Working, |s.log|);
    GuardIsStatusGuard(s.rows, id, Working);
    WriteRow(s.rows, id, Completed);
    var done := Next(racing, 1, Statement(false));
    assert done == ExecuteUpdate(racing, 1, id, Completed);
    WriteRow(done.rows, id, Cancelled);
    assert Next(done, 0, Statement(false)) == ExecuteCancel(done, 0, id);
  }

  /** A lost race really can refuse a legal step: an update to `failed` reads
      `working`, loses to a pause, and is refused from `inputRequired`. */
  lemma SpuriousConflictHappens(s: State, id: string)
    requires |s.conns| == 2 && s.conns[0].Idle? && s.conns[1].Idle?
    requires Known(s.rows) && StatusOf(s.rows, id) == Some(Working)
    ensures var racing := Called(Called(s, 0, Update(id, Failed)), 1, Update(id, InputRequired));
            var paused := Next(racing, 1, Statement(false));
            var end := Next(Next(paused, 0, Statement(false)), 0, Statement(false));
            && end.conns[0].pc == Finished(Rejected(IllegalTransition(InputRequired, Failed)))
            && CanTransitionTo(InputRequired, Failed)
            && end.events[|end.events| - 1].manner == Conflict
  {
    var reading := Called(s, 0, Update(id, Failed));
    assert reading.rows == s.rows && reading.conns[0].pc == Guarded(Working, |s.log|);
    var racing := Called(reading, 1, Update(id, InputRequired));
    assert racing.rows == s.rows && racing.conns[1].pc == Guarded(Working, |s.log|);
    GuardIsStatusGuard(s.rows, id, Working);
    WriteRow(s.rows, id, InputRequired);
    var paused := Next(racing, 1, Statement(false));
    assert paused == ExecuteUpdate(racing, 1, id, InputRequired);
    GuardIsStatusGuard(paused.rows, id, Working);
    var lost := Next(paused, 0, Statement(false));
    assert lost == ExecuteUpdate(paused, 0, id, Failed);
    assert Next(lost, 0, Statement(false)) == ExecuteUpdate(lost, 0, id, Failed);
  }
}
