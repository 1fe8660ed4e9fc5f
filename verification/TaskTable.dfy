/** The `tasks` table, the four statements issued against it, and what it
    says about tasks. */
module TaskTable {
  import opened Wrappers
  import opened Tasks
  import opened AtomicStore

  /** Rows by primary key: `id` to status text. */
  type Table = map<string, string>

  /** Writes the row of `id`, whether or not there was one. */
  function ReplaceRow(rows: Table, id: string, text: string): Table {
    rows[id := text]
  }

  /** Rewrites the row of `id` if there is one and it holds the `guard` text;
      the number says how many rows were rewritten. */
  function UpdateGuarded(rows: Table, id: string, guard: string, text: string): (Table, nat) {
    if id in rows && rows[id] == guard then (rows[id := text], 1) else (rows, 0)
  }

  /** Rewrites the row of `id` if there is one, whatever it holds. */
  function UpdateById(rows: Table, id: string, text: string): Table {
    if id in rows then rows[id := text] else rows
  }

  /** The status a row records, if there is a row and its text is a status. */
  function StatusOf(rows: Table, id: string): Option<TaskStatus> {
    if id in rows then ParseStatus(rows[id]) else None
  }

  /** Every stored text is a status text. */
  ghost predicate Known(rows: Table) {
    forall id :: id in rows ==> ParseStatus(rows[id]).Some?
  }

  /** The tasks a table stands for. */
  ghost function Abs(rows: Table): TaskMap
    requires Known(rows)
  {
    map id | id in rows :: Task(id, ParseStatus(rows[id]).value, None, map[])
  }

  /** Nothing is lost: two tables standing for the same tasks are the same. */
  lemma AbsInjective(a: Table, b: Table)
    requires Known(a) && Known(b) && Abs(a) == Abs(b)
    ensures a == b
  {
    assert a.Keys == Abs(a).Keys == Abs(b).Keys == b.Keys;
    forall id | id in a ensures a[id] == b[id] {
      assert Abs(a)[id].status == Abs(b)[id].status;
    }
  }

  /** Writing a status text is writing a status. */
  lemma WriteRow(rows: Table, id: string, status: TaskStatus)
    requires Known(rows)
    ensures Known(rows[id := AsStr(status)])
    ensures Abs(rows[id := AsStr(status)]) == Abs(rows)[id := Task(id, status, None, map[])]
    ensures StatusOf(rows[id := AsStr(status)], id) == Some(status)
    ensures forall other :: other != id ==> StatusOf(rows[id := AsStr(status)], other) == StatusOf(rows, other)
  {
    ParseAsStr(status);
  }

  /** The text guard matches exactly the rows whose status is the guard. */
  lemma GuardIsStatusGuard(rows: Table, id: string, guard: TaskStatus)
    requires Known(rows)
    ensures id in rows && rows[id] == AsStr(guard) <==> StatusOf(rows, id) == Some(guard)
  {
    ParseAsStr(guard);
  }
}
