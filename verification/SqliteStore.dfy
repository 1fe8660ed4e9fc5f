/** The database-backed store on one connection. */
module SqliteStore {
  import opened Wrappers
  import opened Tasks
  import opened AtomicStore
  import opened TaskTable

  /** A database file. Statement number `n` fails, with no effect, exactly when
      `faults(n)`; `clock` counts the statements issued so far. */
  class Database {
    var rows: Table
    var clock: nat
    const faults: nat -> bool

    constructor (faults: nat -> bool)
      ensures rows == map[] && clock == 0 && this.faults == faults
    {
      this.faults, rows, clock := faults, map[], 0;
    }

    /** No statement issued from number `start` up to now has failed. */
    ghost predicate Healthy(start: nat)
      reads this
    {
      forall n :: start <= n < clock ==> !faults(n)
    }

    method Tick() returns (failed: bool)
      modifies this`clock
      ensures clock == old(clock) + 1 && failed == faults(old(clock))
    {
      failed := faults(clock);
      clock := clock + 1;
    }
  }

  /** One operation did what the atomic store does, or failed with no effect
      because a statement failed. */
  twostate predicate Served(db: Database, op: Op, reply: Reply)
    reads db
  {
    && old(db.clock) <= db.clock
    && (old(Known(db.rows)) ==> Known(db.rows))
    && (!db.Healthy(old(db.clock)) ==> reply == Rejected(Sqlite) && db.rows == old(db.rows))
    && (db.Healthy(old(db.clock)) && old(Known(db.rows)) ==>
          (Abs(db.rows), reply) == Apply(ForgetOp(op), Abs(old(db.rows))))
    && (!op.Insert? && op.id in old(db.rows) && ParseStatus(old(db.rows)[op.id]).None? ==>
          reply == Rejected(Sqlite) && db.rows == old(db.rows))
  }

  /** One served operation takes a table that stands for what the in-process
      store holds to one that does so again, with the same reply, up to the
      metadata rows drop. */
  lemma ServedStep(ops: seq<Op>, tasks: TaskMap, k: nat, before: Table, after: Table, reply: Reply)
    requires k < |ops| && Known(before) && Known(after)
    requires Abs(before) == Forget(Stores(ops, tasks)[k])
    requires (Abs(after), reply) == Apply(ForgetOp(ops[k]), Abs(before))
    ensures Abs(after) == Forget(Stores(ops, tasks)[k + 1]) && reply == ForgetReply(Replies(ops, tasks)[k])
  {
    RunStep(ops, tasks, k);
    ForgetStep(ops[k], Stores(ops, tasks)[k]);
  }

  class SqliteStore {
    const db: Database

    constructor (db: Database)
      ensures this.db == db
    {
      this.db := db;
    }

    method ReadTask(id: string) returns (r: Result<Task, StoreError>)
      modifies db
      ensures db.clock == old(db.clock) + 1 && db.rows == old(db.rows)
      ensures r == if !db.Healthy(old(db.clock)) then Err(Sqlite)
                   else if id !in db.rows then Err(NotFound(id))
                   else if StatusOf(db.rows, id).None? then Err(Sqlite)
                   else Ok(Task(id, StatusOf(db.rows, id).value, None, map[]))
    {
      var failed := db.Tick();
      if failed {
        return Err(Sqlite);
      }
      if id !in db.rows {
        return Err(NotFound(id));
      }
      var status := ParseStatus(db.rows[id]);
      if status.None? {
        return Err(Sqlite);
      }
      var task := new LiveTask.WithStatus(id, status.value);
      r := Ok(task.Value());
    }

    method Get(id: string) returns (reply: Reply)
      modifies db
      ensures Served(db, Op.Get(id), reply)
      ensures db.rows == old(db.rows)
      ensures reply == if !db.Healthy(old(db.clock)) then Rejected(Sqlite)
                       else if id !in db.rows then Rejected(NotFound(id))
                       else if StatusOf(db.rows, id).None? then Rejected(Sqlite)
                       else Found(Task(id, StatusOf(db.rows, id).value, None, map[]))
    {
      var read := ReadTask(id);
      match read {
        case Err(e) => reply := Rejected(e);
        case Ok(task) => reply := Found(task);
      }
    }

    method Insert(task: Task) returns (reply: Reply)
      modifies db
      ensures Served(db, Op.Insert(task), reply)
    {
      if Known(db.rows) {
        WriteRow(db.rows, task.id, task.status);
      }
      var failed := db.Tick();
      if failed {
        return Rejected(Sqlite);
      }
      db.rows := ReplaceRow(db.rows, task.id, AsStr(task.status));
      reply := Stored;
    }

    method Update(id: string, to: TaskStatus) returns (reply: Reply)
      modifies db
      ensures Served(db, Op.Update(id, to), reply)
    {
      var read := ReadTask(id);
      if read.Err? {
        return Rejected(read.error);
      }
      var task := read.value;
      if !CanTransitionTo(task.status, to) {
        return Rejected(IllegalTransition(task.status, to));
      }
      if Known(db.rows) {
        WriteRow(db.rows, id, to);
        GuardIsStatusGuard(db.rows, id, task.status);
      }
      var failed := db.Tick();
      if failed {
        return Rejected(Sqlite);
      }
      var (rows, changed) := UpdateGuarded(db.rows, id, AsStr(task.status), AsStr(to));
      db.rows := rows;
      if changed == 0 {
        // Only another connection can have moved the row since the read.
        var current := ReadTask(id);
        match current {
          case Err(e) => return Rejected(e);
          case Ok(now) => return Rejected(IllegalTransition(now.status, to));
        }
      }
      var updated := new LiveTask.WithStatus(id, to);
      reply := Found(updated.Value());
    }

    method Cancel(id: string) returns (reply: Reply)
      modifies db
      ensures Served(db, Op.Cancel(id), reply)
    {
      var read := ReadTask(id);
      if read.Err? {
        return Rejected(read.error);
      }
      var task := new LiveTask.WithStatus(read.value.id, read.value.status);
      var outcome := task.Cancel();
      if outcome.NowCancelled? {
        if Known(db.rows) {
          WriteRow(db.rows, id, Cancelled);
        }
        var failed := db.Tick();
        if failed {
          return Rejected(Sqlite);
        }
        db.rows := UpdateById(db.rows, id, AsStr(Cancelled));
      }
      reply := Found(task.Value());
    }

    method Perform(op: Op) returns (reply: Reply)
      modifies db
      ensures Served(db, op, reply)
    {
      match op {
        case Get(id) => reply := Get(id);
        case Insert(task) => reply := Insert(task);
        case Update(id, to) => reply := Update(id, to);
        case Cancel(id) => reply := Cancel(id);
      }
    }

    /** Any sequence of operations on one connection, while no statement fails:
        the replies and the tasks are the in-process store's, up to the metadata
        rows drop. */
    method PerformAll(ops: seq<Op>, ghost tasks: TaskMap) returns (replies: seq<Reply>)
      requires Known(db.rows) && Abs(db.rows) == Forget(tasks)
      modifies db
      ensures |replies| == |ops| && Known(db.rows) && old(db.clock) <= db.clock
      ensures db.Healthy(old(db.clock)) ==>
                && Abs(db.rows) == Forget(Stores(ops, tasks)[|ops|])
                && forall k :: 0 <= k < |ops| ==> replies[k] == ForgetReply(Replies(ops, tasks)[k])
    {
      replies := [];
      for n := 0 to |ops|
        invariant |replies| == n && Known(db.rows) && old(db.clock) <= db.clock
        invariant db.Healthy(old(db.clock)) ==>
                    && Abs(db.rows) == Forget(Stores(ops, tasks)[n])
                    && forall k :: 0 <= k < n ==> replies[k] == ForgetReply(Replies(ops, tasks)[k])
      {
        ghost var before, start := db.rows, db.clock;
        var reply := Perform(ops[n]);
        if db.Healthy(old(db.clock)) {
          assert forall m :: old(db.clock) <= m < start ==> !db.faults(m);
          ServedStep(ops, tasks, n, before, db.rows, reply);
        }
        replies := replies + [reply];
      }
    }
  }
}
