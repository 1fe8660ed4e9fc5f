/** Opening one database file from any number of connections at once. Each
    statement of the schema migration is one atomic step that may fail. */
module Migration {
  import opened Wrappers
  import opened TaskTable

  const SCHEMA_VERSION := 1

  /** The file: a table that does not exist yet is `None`. */
  datatype File = File(versions: Option<seq<int>>, tasks: Option<Table>)

  /** The next statement of a connection that is migrating. */
  datatype Pc =
    | CreateVersions
    | ReadVersion
    | CreateTasks
    | DeleteVersions
    | InsertVersion
    | Opened
    | Broken(at: Stage)

  datatype Stage = BeforeDelete | BetweenDeleteAndInsert

  datatype State = State(file: File, openers: seq<Pc>)

  /** `unwrap_or(0)`: no first row, no table and a failed read all give 0. */
  function CurrentVersion(file: File, fault: bool): int {
    if fault || file.versions.None? || file.versions.value == [] then 0 else file.versions.value[0]
  }

  function Next(s: State, c: nat, fault: bool): State {
    if c >= |s.openers| then s else
    var (file, pc) := Statement(s.file, s.openers[c], fault);
    State(file, s.openers[c := pc])
  }

  function Statement(file: File, pc: Pc, fault: bool): (File, Pc) {
    match pc
    case CreateVersions =>
      if fault then (file, Broken(BeforeDelete))
      else (if file.versions.None? then file.(versions := Some([])) else file, ReadVersion)
    case ReadVersion =>
      (file, if CurrentVersion(file, fault) < SCHEMA_VERSION then CreateTasks else Opened)
    case CreateTasks =>
      if fault then (file, Broken(BeforeDelete))
      else (if file.tasks.None? then file.(tasks := Some(map[])) else file, DeleteVersions)
    case DeleteVersions =>
      if fault || file.versions.None? then (file, Broken(BeforeDelete))
      else (file.(versions := Some([])), InsertVersion)
    case InsertVersion =>
      if fault || file.versions.None? then (file, Broken(BetweenDeleteAndInsert))
      else (file.(versions := Some(file.versions.value + [SCHEMA_VERSION])), Opened)
    case Opened => (file, pc)
    case Broken(_) => (file, pc)
  }

  function Run(s: State, schedule: seq<(nat, bool)>): State
    decreases |schedule|
  {
    if schedule == [] then s else
      var last := schedule[|schedule| - 1];
      Next(Run(s, schedule[..|schedule| - 1]), last.0, last.1)
  }

  /** The schema is complete: there is a tasks table, and a version that is ours
      in every row. */
  ghost predicate Versioned(file: File) {
    file.versions.Some? && file.versions.value != [] && file.tasks.Some? && OursOnly(file)
  }

  ghost predicate OursOnly(file: File) {
    file.versions.Some? ==> forall k :: 0 <= k < |file.versions.value| ==> file.versions.value[k] == 1
  }

  /** The file says that it needs no migration only if that is so. */
  ghost predicate Sound(file: File) {
    CurrentVersion(file, false) >= SCHEMA_VERSION ==> Versioned(file)
  }

  /** Connection `c` has emptied the versions and not refilled them. */
  predicate InTheGap(pc: Pc) {
    pc == InsertVersion || pc == Broken(BetweenDeleteAndInsert)
  }

  ghost predicate Inv(s: State) {
    && Sound(s.file)
    && (forall c :: 0 <= c < |s.openers| && s.openers[c] != CreateVersions && s.openers[c] != Broken(BeforeDelete) ==>
          s.file.versions.Some?)
    && (forall c :: 0 <= c < |s.openers| && (s.openers[c] == DeleteVersions || InTheGap(s.openers[c])) ==>
          s.file.tasks.Some?)
    && (forall c :: 0 <= c < |s.openers| && (s.openers[c] == Opened || InTheGap(s.openers[c])) ==> OursOnly(s.file))
    && ((exists c :: 0 <= c < |s.openers| && s.openers[c] == Opened) ==>
          Versioned(s.file) || exists c :: 0 <= c < |s.openers| && InTheGap(s.openers[c]))
  }

  /** Nothing in the tasks table is lost or changed. */
  ghost predicate TasksKept(before: File, after: File) {
    if before.tasks.Some? then after.tasks == before.tasks
    else after.tasks.None? || after.tasks == Some(map[])
  }

  lemma NextKeeps(s: State, c: nat, fault: bool)
    requires Inv(s)
    ensures Inv(Next(s, c, fault))
  {
    var s' := Next(s, c, fault);
    if c < |s.openers| {
      assert s'.openers[c] == Statement(s.file, s.openers[c], fault).1;
      forall d | 0 <= d < |s.openers| && d != c ensures s'.openers[d] == s.openers[d] { }
    }
  }

  lemma {:induction false} RunKeeps(s: State, schedule: seq<(nat, bool)>)
    requires Inv(s)
    ensures Inv(Run(s, schedule))
    decreases |schedule|
  {
    if schedule == [] {
    } else {
      RunKeeps(s, schedule[..|schedule| - 1]);
      var last := schedule[|schedule| - 1];
      NextKeeps(Run(s, schedule[..|schedule| - 1]), last.0, last.1);
    }
  }

  /** No interleaving and no failure loses or changes a task, whatever the file
      was and wherever the openers stand. */
  lemma {:induction false} TasksAreKept(s: State, schedule: seq<(nat, bool)>)
    ensures TasksKept(s.file, Run(s, schedule).file) && |Run(s, schedule).openers| == |s.openers|
    decreases |schedule|
  {
    if schedule == [] {
    } else {
      TasksAreKept(s, schedule[..|schedule| - 1]);
    }
  }

  ghost predicate Starting(s: State) {
    forall c :: 0 <= c < |s.openers| ==> s.openers[c] == CreateVersions
  }

  ghost predicate AllOpened(s: State) {
    forall c :: 0 <= c < |s.openers| ==> s.openers[c] == Opened
  }

  /** Concurrent opens are safe: once somebody has opened the file its schema is
      complete, unless some connection is, or gave up, between its delete and
      its insert. */
  lemma OpensAreSafe(s: State, schedule: seq<(nat, bool)>)
    requires Starting(s) && Sound(s.file)
    ensures var end := Run(s, schedule);
            && Sound(end.file)
            && (Opened in end.openers && (forall pc :: pc in end.openers ==> !InTheGap(pc)) ==> Versioned(end.file))
  {
    RunKeeps(s, schedule);
  }

  /** Everybody reads at once and opens the file as it is. */
  function ReadOnly(openers: nat): seq<(nat, bool)> {
    if openers == 0 then [] else ReadOnly(openers - 1) + [(openers - 1, false), (openers - 1, false)]
  }

  lemma RunTwo(s: State, schedule: seq<(nat, bool)>, c: nat)
    ensures Run(s, schedule + [(c, false), (c, false)]) == Next(Next(Run(s, schedule), c, false), c, false)
  {
    var one := schedule + [(c, false)];
    assert one[..|schedule|] == schedule;
    assert schedule + [(c, false), (c, false)] == one + [(c, false)];
    assert (one + [(c, false)])[..|one|] == one;
  }

  lemma ReaderChangesNothing(s: State, c: nat)
    requires c < |s.openers| && s.openers[c] == CreateVersions && CurrentVersion(s.file, false) >= SCHEMA_VERSION
    ensures Next(Next(s, c, false), c, false) == State(s.file, s.openers[c := Opened])
  {
  }

  lemma {:induction false} ReadersChangeNothing(s: State, n: nat)
    requires Starting(s) && n <= |s.openers| && CurrentVersion(s.file, false) >= SCHEMA_VERSION
    ensures var end := Run(s, ReadOnly(n));
            && end.file == s.file && |end.openers| == |s.openers|
            && forall c :: 0 <= c < |s.openers| ==> end.openers[c] == if c < n then Opened else CreateVersions
  {
    if n == 0 {
    } else {
      ReadersChangeNothing(s, n - 1);
      RunTwo(s, ReadOnly(n - 1), n - 1);
      ReaderChangesNothing(Run(s, ReadOnly(n - 1)), n - 1);
    }
  }

  /** Exactly when opening is enough: however any openers interleave, once all
      have finished without an error the schema is complete, if and only if the
      file they started from did not claim a current version wrongly. A missing,
      empty or older version table is always made good. */
  lemma FinishedOpensLeaveSchema(s: State)
    requires Starting(s) && s.openers != []
    ensures (forall schedule :: AllOpened(Run(s, schedule)) ==> Versioned(Run(s, schedule).file)) <==> Sound(s.file)
  {
    if Sound(s.file) {
      forall schedule | AllOpened(Run(s, schedule)) ensures Versioned(Run(s, schedule).file) {
        RunKeeps(s, schedule);
        TasksAreKept(s, schedule);
        assert Run(s, schedule).openers[0] == Opened;
      }
    } else {
      ReadersChangeNothing(s, |s.openers|);
      assert AllOpened(Run(s, ReadOnly(|s.openers|)));
    }
  }

  /** Left alone, an opener opens any file at all, even if it cannot read the
      version; what it finds complete, or migrates, is complete. */
  lemma AloneOpens(file: File, unread: bool)
    ensures var s := State(file, [CreateVersions]);
            var read := Next(Next(s, 0, false), 0, unread);
            var end := Next(Next(Next(read, 0, false), 0, false), 0, false);
            && end.openers == [Opened] && TasksKept(file, end.file)
            && (Sound(file) || unread ==> Versioned(end.file))
  {
  }

  /** A file that claims version 1 but has no tasks table is opened as it is. */
  lemma WrongClaimIsBelieved()
    ensures var s := State(File(Some([SCHEMA_VERSION]), None), [CreateVersions]);
            var end := Next(Next(s, 0, false), 0, false);
            end.openers == [Opened] && end.file == s.file && !Versioned(end.file)
  {
  }

  /** The gap is real: one connection opens a file without versions, another that
      read before it empties the versions and fails. No task is touched, and the
      file stays sound, so the next open that finishes repairs it. */
  lemma GapIsReal(file: File)
    requires file.versions == None
    ensures var s := State(file, [CreateVersions, CreateVersions]);
            var bothRead := Next(Next(Next(Next(s, 0, false), 0, false), 1, false), 1, false);
            var firstDone := Next(Next(Next(bothRead, 0, false), 0, false), 0, false);
            var end := Next(Next(Next(firstDone, 1, false), 1, false), 1, true);
            && firstDone.openers[0] == Opened && Versioned(firstDone.file)
            && end.openers == [Opened, Broken(BetweenDeleteAndInsert)]
            && !Versioned(end.file) && Sound(end.file) && TasksKept(file, end.file)
  {
  }
}
