/** Every step of every connection keeps the invariant of the protocol. */
module StoreInvariant {
  import opened Wrappers
  import opened Tasks
  import opened AtomicStore
  import opened TaskTable
  import opened StoreProtocol

  /** If the status moved, somebody wrote the row meanwhile, and the last such
      write is the one that left it as it is. */
  lemma {:induction false} MovedMeansWritten(rows: Table, log: seq<Write>, read: nat, id: string)
    requires read <= |log| && StatusAfter(rows, log[..read], id) != StatusAfter(rows, log, id)
    ensures exists k :: read <= k < |log| && log[k].id == id && StatusAfter(rows, log, id) == Some(log[k].after)
    decreases |log|
  {
    assert log[..|log|] == log;
    if read == |log| {
    } else {
      var shorter := log[..|log| - 1];
      assert shorter[..read] == log[..read];
      if log[|log| - 1].id != id {
        MovedMeansWritten(rows, shorter, read, id);
        var k :| read <= k < |shorter| && shorter[k].id == id
                 && StatusAfter(rows, shorter, id) == Some(shorter[k].after);
        assert log[k] == shorter[k];
      }
    }
  }

  lemma AppendLog(rows: Table, log: seq<Write>, w: Write)
    ensures forall id :: StatusAfter(rows, log + [w], id)
                         == if id == w.id then Some(w.after) else StatusAfter(rows, log, id)
    ensures forall k :: 0 <= k <= |log| ==> (log + [w])[..k] == log[..k]
    ensures (log + [w])[..|log|] == log
  {
    assert (log + [w])[..|log|] == log;
  }

  lemma LogGrows(rows: Table, s: State, s': State, w: Write)
    requires LogOk(rows, s) && s'.log == s.log + [w]
    requires s'.rows == s.rows[w.id := AsStr(w.after)]
    requires WriteOk(rows, s'.log, |s.log|)
    ensures LogOk(rows, s')
  {
    AppendLog(rows, s.log, w);
    WriteRow(s.rows, w.id, w.after);
    forall k | 0 <= k < |s.log|
      ensures WriteOk(rows, s'.log, k)
    {
      assert WriteOk(rows, s.log, k);
      assert s'.log[..k] == s.log[..k] && s'.log[k] == s.log[k];
      if s.log[k].cause.ByCancel? {
        assert s'.log[..s.log[k].read] == s.log[..s.log[k].read];
      }
    }
  }

  lemma AppendEvent(tasks: TaskMap, events: seq<Event>, e: Event)
    ensures TasksAfter(tasks, events + [e]) == Effect(TasksAfter(tasks, events), e)
    ensures forall k :: 0 <= k <= |events| ==> (events + [e])[..k] == events[..k]
    ensures (events + [e])[..|events|] == events
  {
    assert (events + [e])[..|events|] == events;
  }

  lemma EventsGrow(rows: Table, s: State, s': State, e: Event)
    requires Known(rows) && EventsOk(rows, s) && s'.events == s.events + [e] && Known(s'.rows)
    requires Explained(Abs(s.rows), e) && Abs(s'.rows) == Effect(Abs(s.rows), e)
    ensures EventsOk(rows, s')
  {
    AppendEvent(Abs(rows), s.events, e);
    forall k | 0 <= k < |s'.events|
      ensures Explained(TasksAfter(Abs(rows), s'.events[..k]), s'.events[k])
    {
      if k < |s.events| {
        assert Explained(TasksAfter(Abs(rows), s.events[..k]), s.events[k]);
      } else {
        assert s'.events[..k] == s.events && s'.events[k] == e;
      }
    }
  }

  /** A step of connection `c` disturbs nothing another one remembers. */
  lemma OthersKeep(rows: Table, s: State, s': State, c: nat)
    requires ConnsOk(rows, s) && |s'.conns| == |s.conns|
    requires forall d :: 0 <= d < |s.conns| && d != c ==> s'.conns[d] == s.conns[d]
    requires s.rows.Keys <= s'.rows.Keys
    requires s.log <= s'.log && (forall k :: |s.log| <= k < |s'.log| ==> s'.log[k].conn == c)
    requires s.events <= s'.events && (forall k :: |s.events| <= k < |s'.events| ==> s'.events[k].conn == c)
    requires c < |s.conns| ==> ConnOk(rows, s', c)
    ensures ConnsOk(rows, s')
  {
    forall d | 0 <= d < |s.conns| && d != c
      ensures ConnOk(rows, s', d)
    {
      assert ConnOk(rows, s, d);
      if s.conns[d].Busy? {
        match s.conns[d].pc
        case Guarded(_, read) => assert s'.log[..read] == s.log[..read];
        case Unguarded(_, read) => assert s'.log[..read] == s.log[..read];
        case Reread(read) =>
          var k :| read <= k < |s.log| && s.log[k].id == s.conns[d].op.id && s.log[k].conn != d;
          assert s'.log[k] == s.log[k];
        case Finished(reply) =>
          var e :| TookEffectAt(s.events, d, s.conns[d], e) && s.events[e].reply == reply;
          assert TookEffectAt(s'.events, d, s.conns[d], e);
        case Begin =>
      }
    }
  }

  /** Finishing without a write: only the event has to be explained. */
  lemma FinishKeeps(rows: Table, s: State, c: nat, reply: Reply, manner: Manner)
    requires Inv(rows, s) && c < |s.conns| && s.conns[c].Busy? && !s.conns[c].pc.Finished?
    requires manner != Overwrite
    requires Explained(Abs(s.rows), Event(c, s.conns[c].agent, s.conns[c].op, reply, manner))
    requires manner == Atomic ==> Apply(ForgetOp(s.conns[c].op), Abs(s.rows)).0 == Abs(s.rows)
    ensures Inv(rows, Finish(s, c, reply, manner))
  {
    var s' := Finish(s, c, reply, manner);
    assert ConnOk(rows, s, c);
    assert TookEffectAt(s'.events, c, s'.conns[c], |s.events|);
    EventsGrow(rows, s, s', Event(c, s.conns[c].agent, s.conns[c].op, reply, manner));
    OthersKeep(rows, s, s', c);
  }

  /** Finishing with a write to the operation's own row. */
  lemma WriteKeeps(rows: Table, s: State, c: nat, w: Write, reply: Reply, manner: Manner)
    requires Inv(rows, s) && c < |s.conns| && s.conns[c].Busy? && !s.conns[c].pc.Finished?
    requires w.conn == c && w.id == s.conns[c].op.Target()
    requires WriteOk(rows, s.log + [w], |s.log|)
    requires manner in {Atomic, Overwrite}
    requires Explained(Abs(s.rows), Event(c, s.conns[c].agent, s.conns[c].op, reply, manner))
    requires Effect(Abs(s.rows), Event(c, s.conns[c].agent, s.conns[c].op, reply, manner))
             == Abs(s.rows)[w.id := Task(w.id, w.after, None, map[])]
    ensures Inv(rows, Finish(s.(rows := s.rows[w.id := AsStr(w.after)], log := s.log + [w]), c, reply, manner))
  {
    var mid := s.(rows := s.rows[w.id := AsStr(w.after)], log := s.log + [w]);
    var s' := Finish(mid, c, reply, manner);
    assert ConnOk(rows, s, c);
    assert TookEffectAt(s'.events, c, s'.conns[c], |s.events|);
    WriteRow(s.rows, w.id, w.after);
    LogGrows(rows, s, s', w);
    EventsGrow(rows, s, s', Event(c, s.conns[c].agent, s.conns[c].op, reply, manner));
    OthersKeep(rows, s, s', c);
  }

  lemma MoveKeeps(rows: Table, s: State, c: nat, pc: Pc)
    requires Inv(rows, s) && c < |s.conns| && s.conns[c].Busy?
    requires ConnOk(rows, Move(s, c, pc), c)
    ensures Inv(rows, Move(s, c, pc))
  {
    OthersKeep(rows, s, Move(s, c, pc), c);
  }

  lemma UpdateKeeps(rows: Table, s: State, c: nat)
    requires Inv(rows, s) && c < |s.conns| && s.conns[c].Busy? && s.conns[c].op.Update? && !s.conns[c].pc.Finished?
    ensures Inv(rows, ExecuteUpdate(s, c, s.conns[c].op.id, s.conns[c].op.to))
  {
    var conn := s.conns[c];
    var id, to := conn.op.id, conn.op.to;
    assert ConnOk(rows, s, c);
    assert s.log[..|s.log|] == s.log;
    match conn.pc
    case Guarded(from, read) =>
      GuardIsStatusGuard(s.rows, id, from);
      if StatusOf(s.rows, id) == Some(from) {
        var w := Write(c, conn.agent, id, ByUpdate, read, to);
        AppendLog(rows, s.log, w);
        WriteKeeps(rows, s, c, w, Found(Task(id, to, None, map[])), Atomic);
      } else {
        MovedMeansWritten(rows, s.log, read, id);
        MoveKeeps(rows, s, c, Reread(read));
      }
    case Reread(_) =>
      var now := StatusOf(s.rows, id).value;
      var manner := if CanTransitionTo(now, to) then Conflict else Atomic;
      FinishKeeps(rows, s, c, Rejected(IllegalTransition(now, to)), manner);
    case Begin =>
      if StatusOf(s.rows, id).None? {
        FinishKeeps(rows, s, c, ReadFailure(s.rows, id), Atomic);
      } else if CanTransitionTo(StatusOf(s.rows, id).value, to) {
        MoveKeeps(rows, s, c, Guarded(StatusOf(s.rows, id).value, |s.log|));
      } else {
        FinishKeeps(rows, s, c, Rejected(IllegalTransition(StatusOf(s.rows, id).value, to)), Atomic);
      }
  }

  lemma CancelKeeps(rows: Table, s: State, c: nat)
    requires Inv(rows, s) && c < |s.conns| && s.conns[c].Busy? && s.conns[c].op.Cancel? && !s.conns[c].pc.Finished?
    ensures Inv(rows, ExecuteCancel(s, c, s.conns[c].op.id))
    ensures s.conns[c].pc.Unguarded? ==> StatusOf(s.rows, s.conns[c].op.id).Some?
  {
    var conn := s.conns[c];
    var id := conn.op.id;
    assert ConnOk(rows, s, c);
    assert s.log[..|s.log|] == s.log;
    match conn.pc
    case Unguarded(from, read) =>
      if StatusOf(s.rows, id).None? {
        MovedMeansWritten(rows, s.log, read, id);
        assert false;
      }
      var w := Write(c, conn.agent, id, ByCancel, read, Cancelled);
      var manner := if StatusOf(s.rows, id) in {Some(Completed), Some(Failed)} then Overwrite else Atomic;
      AppendLog(rows, s.log, w);
      CancelEffect(s.rows, id, manner);
      WriteKeeps(rows, s, c, w, Found(Task(id, Cancelled, None, map[])), manner);
    case Begin =>
      if StatusOf(s.rows, id).None? {
        FinishKeeps(rows, s, c, ReadFailure(s.rows, id), Atomic);
      } else if IsTerminal(StatusOf(s.rows, id).value) {
        FinishKeeps(rows, s, c, Found(Task(id, StatusOf(s.rows, id).value, None, map[])), Atomic);
      } else {
        MoveKeeps(rows, s, c, Unguarded(StatusOf(s.rows, id).value, |s.log|));
      }
  }

  /** The unguarded write is the atomic cancel unless the row is completed or
      failed by then. */
  lemma CancelEffect(rows: Table, id: string, manner: Manner)
    requires Known(rows) && id in rows
    requires manner == if StatusOf(rows, id) in {Some(Completed), Some(Failed)} then Overwrite else Atomic
    ensures manner == Atomic ==>
              var task := Task(id, Cancelled, None, map[]);
              Apply(Cancel(id), Abs(rows)) == (Abs(rows)[id := task], Found(task))
  {
    if StatusOf(rows, id) == Some(Cancelled) {
      assert Abs(rows)[id := Abs(rows)[id]] == Abs(rows);
    }
  }

  lemma ExecuteKeeps(rows: Table, s: State, c: nat)
    requires Inv(rows, s) && c < |s.conns| && s.conns[c].Busy? && !s.conns[c].pc.Finished?
    ensures Inv(rows, Execute(s, c))
  {
    var conn := s.conns[c];
    match conn.op
    case Insert(task) =>
      WriteKeeps(rows, s, c, Write(c, conn.agent, task.id, ByInsert, |s.log|, task.status), Stored, Atomic);
    case Get(id) =>
      FinishKeeps(rows, s, c, if StatusOf(s.rows, id).None? then ReadFailure(s.rows, id)
                              else Found(Task(id, StatusOf(s.rows, id).value, None, map[])), Atomic);
    case Update(_, _) => UpdateKeeps(rows, s, c);
    case Cancel(_) => CancelKeeps(rows, s, c);
  }

  /** No action of any connection breaks the invariant. */
  lemma NextKeeps(rows: Table, s: State, c: nat, a: Action)
    requires Inv(rows, s)
    ensures Inv(rows, Next(s, c, a))
  {
    var s' := Next(s, c, a);
    if c < |s.conns| && s' != s {
      if a.Statement? {
        if a.fault {
          FinishKeeps(rows, s, c, Rejected(Sqlite), Fault);
        } else {
          ExecuteKeeps(rows, s, c);
        }
      } else {
        OthersKeep(rows, s, s', c);
      }
    }
  }

  lemma InitialInv(s: State)
    requires Initial(s)
    ensures Inv(s.rows, s)
  {
  }

  /** Nor does any run, however long and however interleaved. */
  lemma {:induction false} RunKeeps(rows: Table, s: State, schedule: Schedule)
    requires Inv(rows, s)
    ensures Inv(rows, Run(s, schedule))
    decreases |schedule|
  {
    if schedule == [] {
    } else {
      RunKeeps(rows, s, schedule[..|schedule| - 1]);
      var last := schedule[|schedule| - 1];
      NextKeeps(rows, Run(s, schedule[..|schedule| - 1]), last.0, last.1);
    }
  }
}
