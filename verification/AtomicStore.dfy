/** The in-process task store: every operation is one atomic step. It is also
    the specification the database-backed store is measured against. */
module AtomicStore {
  import opened Tasks

  datatype StoreError =
    | NotFound(id: string)
    | IllegalTransition(from: TaskStatus, to: TaskStatus)
    | Sqlite

  datatype Op =
    | Get(id: string)
    | Insert(task: Task)
    | Update(id: string, to: TaskStatus)
    | Cancel(id: string)
  {
    function Target(): string {
      if Insert? then task.id else id
    }
  }

  datatype Reply = Found(task: Task) | Stored | Rejected(error: StoreError)

  type TaskMap = map<string, Task>

  /** One operation on the whole store: the store afterwards and the reply. */
  function Apply(op: Op, tasks: TaskMap): (TaskMap, Reply) {
    match op
    case Insert(task) => (tasks[task.id := task], Stored)
    case Get(id) =>
      if id !in tasks then (tasks, Rejected(NotFound(id))) else (tasks, Found(tasks[id]))
    case Update(id, to) =>
      if id !in tasks then (tasks, Rejected(NotFound(id)))
      else if !CanTransitionTo(tasks[id].status, to) then
        (tasks, Rejected(IllegalTransition(tasks[id].status, to)))
      else
        var task := tasks[id].(status := to);
        (tasks[id := task], Found(task))
    case Cancel(id) =>
      if id !in tasks then (tasks, Rejected(NotFound(id)))
      else if IsTerminal(tasks[id].status) then (tasks, Found(tasks[id]))
      else
        var task := tasks[id].(status := Cancelled);
        (tasks[id := task], Found(task))
  }

  /** What a caller may rely on. A task in a reply is the task now stored; an
      error changes nothing; an update is accepted exactly when it is a legal
      step and then lands on the requested status; a cancel of an existing task
      always succeeds and leaves it terminal; other ids are never touched. */
  lemma StepContract(op: Op, tasks: TaskMap)
    requires KeyedById(tasks)
    ensures var (next, reply) := Apply(op, tasks);
            && (forall id :: id != op.Target() ==>
                  (id in next <==> id in tasks) && (id in tasks ==> next[id] == tasks[id]))
            && (reply.Found? ==> op.Target() in next && next[op.Target()] == reply.task && reply.task.id == op.Target())
            && (reply.Rejected? ==> next == tasks)
            && (op.Insert? <==> reply.Stored?)
            && (op.Insert? ==> op.task.id in next && next[op.task.id] == op.task)
            && (op.Get? ==> next == tasks)
            && (!op.Insert? && op.Target() !in tasks ==> reply == Rejected(NotFound(op.Target())))
            && (op.Update? && op.id in tasks ==>
                  (reply.Found? <==> LegalPath([tasks[op.id].status, op.to]))
                  && (reply.Found? ==> reply.task.status == op.to)
                  && (reply.Rejected? ==> reply.error == IllegalTransition(tasks[op.id].status, op.to)))
            && (op.Cancel? && op.id in tasks ==>
                  && reply.Found?
                  && reply.task.status == if IsTerminal(tasks[op.id].status) then tasks[op.id].status else Cancelled)
  {
    if op.Update? && op.id in tasks {
      var path := [tasks[op.id].status, op.to];
      assert CanTransitionTo(path[0], path[1]) <==> LegalPath(path);
    }
  }

  /** The stores a run of operations goes through, the first one included. */
  function Stores(ops: seq<Op>, tasks: TaskMap): (stores: seq<TaskMap>)
    ensures |stores| == |ops| + 1 && stores[0] == tasks
  {
    if ops == [] then [tasks] else [tasks] + Stores(ops[1..], Apply(ops[0], tasks).0)
  }

  function Replies(ops: seq<Op>, tasks: TaskMap): (replies: seq<Reply>)
    ensures |replies| == |ops|
  {
    if ops == [] then [] else
      var (next, reply) := Apply(ops[0], tasks);
      [reply] + Replies(ops[1..], next)
  }

  /** Step `k` of a run takes store `k` to store `k + 1` and gives reply `k`. */
  lemma {:induction false} RunStep(ops: seq<Op>, tasks: TaskMap, k: nat)
    requires k < |ops|
    ensures Apply(ops[k], Stores(ops, tasks)[k]) == (Stores(ops, tasks)[k + 1], Replies(ops, tasks)[k])
  {
    if k == 0 {
    } else {
      RunStep(ops[1..], Apply(ops[0], tasks).0, k - 1);
    }
  }

  ghost predicate InsertsNo(id: string, ops: seq<Op>, lo: int, hi: int) {
    forall k :: lo <= k < hi && 0 <= k < |ops| && ops[k].Insert? ==> ops[k].task.id != id
  }

  /** Every task is filed under its own id. */
  ghost predicate KeyedById(tasks: TaskMap) {
    forall id :: id in tasks ==> tasks[id].id == id
  }

  /** Filing by id survives any run. */
  lemma {:induction false} RunKeepsKeys(ops: seq<Op>, tasks: TaskMap, k: nat)
    requires KeyedById(tasks) && k <= |ops|
    ensures KeyedById(Stores(ops, tasks)[k])
  {
    if k == 0 {
    } else {
      RunKeepsKeys(ops, tasks, k - 1);
      RunStep(ops, tasks, k - 1);
    }
  }

  /** Over any run, between inserts of an id, its statuses either stand still
      or take a legal step, so its distinct consecutive statuses are a path of
      the state machine; nothing else of the task ever changes. */
  lemma {:induction false} LifecycleStep(ops: seq<Op>, tasks: TaskMap, id: string, k: nat)
    requires k < |ops| && InsertsNo(id, ops, k, k + 1)
    ensures var stores := Stores(ops, tasks);
            && (id in stores[k + 1] <==> id in stores[k])
            && (id in stores[k] ==>
                  var before, after := stores[k][id], stores[k + 1][id];
                  && after == before.(status := after.status)
                  && (after.status == before.status || LegalPath([before.status, after.status])))
  {
    RunStep(ops, tasks, k);
  }

  /** The statuses of `id` in stores `lo .. hi`, with repetitions dropped. */
  ghost function StatusPath(stores: seq<TaskMap>, id: string, lo: nat, hi: nat): (path: seq<TaskStatus>)
    requires lo <= hi < |stores| && forall k :: lo <= k <= hi ==> id in stores[k]
    ensures path != [] && path[|path| - 1] == stores[hi][id].status
    decreases hi
  {
    if lo == hi then [stores[hi][id].status] else
      var path := StatusPath(stores, id, lo, hi - 1);
      if path[|path| - 1] == stores[hi][id].status then path else path + [stores[hi][id].status]
  }

  lemma {:induction false} LifecycleIsPath(ops: seq<Op>, tasks: TaskMap, id: string, lo: nat, hi: nat)
    requires lo <= hi <= |ops| && InsertsNo(id, ops, lo, hi) && id in Stores(ops, tasks)[lo]
    ensures var stores := Stores(ops, tasks);
            && (forall k :: lo <= k <= hi ==> id in stores[k])
            && LegalPath(StatusPath(stores, id, lo, hi))
    decreases hi
  {
    if lo == hi {
    } else {
      LifecycleIsPath(ops, tasks, id, lo, hi - 1);
      LifecycleStep(ops, tasks, id, hi - 1);
      var stores := Stores(ops, tasks);
      var path := StatusPath(stores, id, lo, hi - 1);
      if path[|path| - 1] != stores[hi][id].status {
        assert CanTransitionTo([stores[hi - 1][id].status, stores[hi][id].status][0],
                               [stores[hi - 1][id].status, stores[hi][id].status][1]);
      }
    }
  }

  /** Once any operation has replied with a terminal task, that task is frozen:
      until its id is inserted again, every later get and cancel replies with
      the same task and every later update is refused from that status. */
  lemma {:induction false} TerminalIsFinal(ops: seq<Op>, tasks: TaskMap, i: nat, j: nat)
    requires KeyedById(tasks)
    requires i < j < |ops| && ops[j].Target() == ops[i].Target()
    requires var reply := Replies(ops, tasks)[i]; reply.Found? && IsTerminal(reply.task.status)
    requires InsertsNo(ops[i].Target(), ops, i + 1, j + 1)
    ensures var task, reply := Replies(ops, tasks)[i].task, Replies(ops, tasks)[j];
            && (ops[j].Get? || ops[j].Cancel? ==> reply == Found(task))
            && (ops[j].Update? ==> reply == Rejected(IllegalTransition(task.status, ops[j].to)))
  {
    RunStep(ops, tasks, i);
    FrozenUntil(ops, tasks, ops[i].Target(), i + 1, j);
    RunStep(ops, tasks, j);
  }

  lemma {:induction false} FrozenUntil(ops: seq<Op>, tasks: TaskMap, id: string, lo: nat, hi: nat)
    requires lo <= hi <= |ops| && InsertsNo(id, ops, lo, hi)
    requires var store := Stores(ops, tasks)[lo]; id in store && IsTerminal(store[id].status)
    ensures var stores := Stores(ops, tasks); id in stores[hi] && stores[hi][id] == stores[lo][id]
    decreases hi
  {
    if lo == hi {
    } else {
      FrozenUntil(ops, tasks, id, lo, hi - 1);
      RunStep(ops, tasks, hi - 1);
    }
  }

  /** The store with everything a database row cannot hold forgotten. */
  function Forget(tasks: TaskMap): TaskMap {
    map id | id in tasks :: StoredPart(tasks[id])
  }

  function ForgetReply(reply: Reply): Reply {
    if reply.Found? then Found(StoredPart(reply.task)) else reply
  }

  function ForgetOp(op: Op): Op {
    if op.Insert? then Insert(StoredPart(op.task)) else op
  }

  /** Metadata never influences a status or an error. */
  lemma ForgetStep(op: Op, tasks: TaskMap)
    ensures var (next, reply) := Apply(op, tasks);
            Apply(ForgetOp(op), Forget(tasks)) == (Forget(next), ForgetReply(reply))
  {
    var (next, reply) := Apply(op, tasks);
    assert Apply(ForgetOp(op), Forget(tasks)).0 == Forget(next);
  }

  function ForgetOps(ops: seq<Op>): (forgotten: seq<Op>)
    ensures |forgotten| == |ops|
  {
    seq(|ops|, i requires 0 <= i < |ops| => ForgetOp(ops[i]))
  }

  /** So a whole run may forget it at the start, at the end or in between. */
  lemma {:induction false} ForgetRun(ops: seq<Op>, tasks: TaskMap, k: nat)
    requires k <= |ops|
    ensures Stores(ForgetOps(ops), Forget(tasks))[k] == Forget(Stores(ops, tasks)[k])
    ensures k < |ops| ==> Replies(ForgetOps(ops), Forget(tasks))[k] == ForgetReply(Replies(ops, tasks)[k])
  {
    if k == 0 {
    } else {
      ForgetRun(ops, tasks, k - 1);
      RunStep(ops, tasks, k - 1);
      RunStep(ForgetOps(ops), Forget(tasks), k - 1);
      ForgetStep(ops[k - 1], Stores(ops, tasks)[k - 1]);
    }
    if k < |ops| {
      RunStep(ops, tasks, k);
      RunStep(ForgetOps(ops), Forget(tasks), k);
      ForgetStep(ops[k], Stores(ops, tasks)[k]);
    }
  }

  /** The locked hash map behind the store. */
  class MemoryStore {
    var inner: TaskMap

    constructor ()
      ensures inner == map[]
    {
      inner := map[];
    }

    method Get(id: string) returns (reply: Reply)
      ensures (inner, reply) == Apply(Op.Get(id), inner)
    {
      if id in inner {
        reply := Found(inner[id]);
      } else {
        reply := Rejected(NotFound(id));
      }
    }

    method Insert(task: Task) returns (reply: Reply)
      modifies this
      ensures (inner, reply) == Apply(Op.Insert(task), old(inner))
      ensures old(KeyedById(inner)) ==> KeyedById(inner)
    {
      inner := inner[task.id := task];
      reply := Stored;
    }

    method Update(id: string, to: TaskStatus) returns (reply: Reply)
      modifies this
      ensures (inner, reply) == Apply(Op.Update(id, to), old(inner))
      ensures old(KeyedById(inner)) ==> KeyedById(inner)
    {
      if id !in inner {
        return Rejected(NotFound(id));
      }
      if !CanTransitionTo(inner[id].status, to) {
        return Rejected(IllegalTransition(inner[id].status, to));
      }
      inner := inner[id := inner[id].(status := to)];
      reply := Found(inner[id]);
    }

    method Cancel(id: string) returns (reply: Reply)
      modifies this
      ensures (inner, reply) == Apply(Op.Cancel(id), old(inner))
      ensures old(KeyedById(inner)) ==> KeyedById(inner)
    {
      if id !in inner {
        return Rejected(NotFound(id));
      }
      if !IsTerminal(inner[id].status) {
        inner := inner[id := inner[id].(status := Cancelled)];
      }
      reply := Found(inner[id]);
    }
  }
}
