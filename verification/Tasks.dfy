/** Task status, its stored text and the lifecycle state machine. */
module Tasks {
  import opened Wrappers
  import opened JsonValue
  import opened Metadata

  datatype TaskStatus = Working | InputRequired | Completed | Failed | Cancelled

  /** The wire string, which is also the text kept in the database. */
  function AsStr(status: TaskStatus): string {
    match status
    case Working => "working"
    case InputRequired => "inputRequired"
    case Completed => "completed"
    case Failed => "failed"
    case Cancelled => "cancelled"
  }

  /** Reads a stored text back; `None` stands for storage corruption. */
  function ParseStatus(text: string): (status: Option<TaskStatus>)
    ensures status.Some? ==> AsStr(status.value) == text
  {
    match text
    case "working" => Some(Working)
    case "inputRequired" => Some(InputRequired)
    case "completed" => Some(Completed)
    case "failed" => Some(Failed)
    case "cancelled" => Some(Cancelled)
    case _ => None
  }

  lemma ParseAsStr(status: TaskStatus)
    ensures ParseStatus(AsStr(status)) == Some(status)
  {
    assert |AsStr(Working)| == 7 && |AsStr(InputRequired)| == 13 && |AsStr(Failed)| == 6;
    assert AsStr(Completed)[1] == 'o' && AsStr(Cancelled)[1] == 'a';
  }

  /** The text guard of a conditional write is as good as a status guard. */
  lemma AsStrInjective(a: TaskStatus, b: TaskStatus)
    ensures AsStr(a) == AsStr(b) <==> a == b
  {
    ParseAsStr(a);
    ParseAsStr(b);
  }

  predicate IsTerminal(status: TaskStatus) {
    status in {Completed, Failed, Cancelled}
  }

  predicate CanTransitionTo(from: TaskStatus, to: TaskStatus) {
    match from
    case Working => to in {InputRequired, Completed, Failed, Cancelled}
    case InputRequired => to in {Working, Failed, Cancelled}
    case _ => false
  }

  /** How far a status is from being live: 0 live, 1 finished, 2 cancelled. */
  function Rank(status: TaskStatus): nat {
    match status
    case Working => 0
    case InputRequired => 0
    case Completed => 1
    case Failed => 1
    case Cancelled => 2
  }

  /** A walk through the state machine: every step is legal. */
  ghost predicate LegalPath(path: seq<TaskStatus>) {
    forall i {:trigger path[i]} :: 0 <= i < |path| - 1 ==> CanTransitionTo(path[i], path[i + 1])
  }

  /** The legal steps: a live task may go anywhere else, but is completed from
      `working` only. */
  lemma LegalSteps(from: TaskStatus, to: TaskStatus)
    ensures CanTransitionTo(from, to)
            <==> from !in {Completed, Failed, Cancelled} && to != from && (to == Completed ==> from == Working)
  {
  }

  /** What the lifecycle promises of every walk, however long. A terminal
      status ends it, no status repeats at once, and `completed` is only ever
      entered from `working`. */
  lemma LegalPathEnds(path: seq<TaskStatus>, k: nat)
    requires LegalPath(path) && k < |path|
    ensures IsTerminal(path[k]) <==> Rank(path[k]) > 0
    ensures IsTerminal(path[k]) ==> k == |path| - 1
    ensures k > 0 ==> path[k] != path[k - 1]
    ensures k > 0 && path[k] == Completed ==> path[k - 1] == Working
    ensures forall j :: 0 <= j <= k ==> Rank(path[j]) <= Rank(path[k])
  {
  }

  /** Exactly the live statuses reach another status at all, and each of them
      reaches every terminal one in at most two steps. */
  lemma LiveReachesEveryTerminal(from: TaskStatus, to: TaskStatus)
    requires IsTerminal(to)
    ensures !IsTerminal(from) <==>
            exists mid :: (mid == from || CanTransitionTo(from, mid)) && CanTransitionTo(mid, to)
  {
    if !IsTerminal(from) {
      assert (Working == from || CanTransitionTo(from, Working)) && CanTransitionTo(Working, to);
    }
  }

  /** A task as clients see it. */
  datatype Task = Task(id: string, status: TaskStatus, meta: Option<Meta>, extra: map<string, Json>)

  function NewTask(id: string): Task {
    Task(id, Working, None, map[])
  }

  /** What a database row can hold of a task: the metadata is dropped. */
  function StoredPart(task: Task): Task {
    Task(task.id, task.status, None, map[])
  }

  datatype CancelOutcome = NowCancelled | AlreadyTerminal(status: TaskStatus)

  datatype InvalidTransition = InvalidTransition(from: TaskStatus, to: TaskStatus)

  /** A task being changed in place. */
  class LiveTask {
    const id: string
    var status: TaskStatus
    const meta: Option<Meta>
    const extra: map<string, Json>

    constructor (id: string)
      ensures Value() == NewTask(id)
    {
      this.id, status, meta, extra := id, Working, None, map[];
    }

    constructor WithStatus(id: string, status: TaskStatus)
      ensures Value() == Task(id, status, None, map[])
    {
      this.id, this.status, meta, extra := id, status, None, map[];
    }

    function Value(): Task
      reads this
    {
      Task(id, status, meta, extra)
    }

    method TransitionTo(next: TaskStatus) returns (r: Result<(), InvalidTransition>)
      modifies this`status
      ensures r.Ok? <==> LegalPath([old(status), next])
      ensures r.Ok? ==> Value() == old(Value()).(status := next)
      ensures r.Err? ==> r.error == InvalidTransition(old(status), next) && Value() == old(Value())
    {
      assert CanTransitionTo(status, next) ==> LegalPath([status, next]);
      assert LegalPath([status, next]) ==> CanTransitionTo([status, next][0], [status, next][1]);
      if CanTransitionTo(status, next) {
        status := next;
        r := Ok(());
      } else {
        r := Err(InvalidTransition(status, next));
      }
    }

    /** Never fails; a task that is already over is left as it is. */
    method Cancel() returns (outcome: CancelOutcome)
      modifies this`status
      ensures outcome.NowCancelled? <==> !IsTerminal(old(status))
      ensures outcome.NowCancelled? ==> Value() == old(Value()).(status := Cancelled)
      ensures outcome.AlreadyTerminal? ==> outcome.status == old(status) && Value() == old(Value())
      ensures IsTerminal(status)
    {
      if IsTerminal(status) {
        outcome := AlreadyTerminal(status);
      } else {
        status := Cancelled;
        outcome := NowCancelled;
      }
    }
  }
}
