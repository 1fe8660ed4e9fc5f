# longhaul: task store, indexer protocol and codecs, verified

longhaul is a stateless MCP server with long-running tasks. Several server
instances share one SQLite file; each task moves through a small life cycle
(`working`, `inputRequired`, then `completed`, `failed` or `cancelled`); an
example tool indexes a directory in the background and can be cancelled while it
runs. This project models the parts where that can go wrong and proves what
their users rely on. `dafny verify dfyconfig.toml` checks everything.

## What is modelled

- **The store as a protocol** (`StoreProtocol`, `StoreInvariant`,
  `StoreTheorems`, `UpdatesUnderWay`). Any number of connections, each with a program counter and
  its remembered read, over one table of status texts. One SQL statement is one
  atomic step and may fail without effect. `update` is read, write guarded by the
  status text, re-read; `cancel` is read, then a write guarded by the id only.
  A log of writes and a list of operations taking effect are kept as history.
  The specification is the atomic in-process store (`AtomicStore`). Main
  results: a simulation with exactly three kinds of exception, legality of every
  write an update commits however stale its read, monotone rank, and an exact
  account of when a terminal status is left.
- **The stores themselves** (`AtomicStore.MemoryStore`, `SqliteStore`): classes
  that change a map, or a table through statements that may fail, in place; each
  method is proved to perform the operation `Apply` specifies.
- **Opening the database** (`Migration`): the schema migration, statement by
  statement, on any number of connections at once.
- **The walk** (`Walk`, `WalkInPlace`): the recursion over a finite tree with one
  accumulator, and a cancel flag that may read differently at every check.
- **The indexer task** (`Indexer`, `IndexerInvariant`, `IndexerTheorems`,
  `IndexerExit`, `IndexerMonitor`): handler, monitor, worker and arbitrary clients as one state
  machine on top of the store protocol, with the flag and the map of cancel
  senders.
- **Wire types** (`Metadata`, `Outcome`, `JsonRpc`), the **schema depth check**
  (`SchemaDepth`), the **tool registry** (`ToolRegistry`) and **request dispatch**
  (`Handlers`, `Statelessness`).

Two orders of proof recur. A protocol is a total step function; an invariant is
kept by every step (`NextKeeps`, `StepKeeps`), hence by every run (`RunKeeps`,
`PlayKeeps`), and the theorems read it off. A loop or an in-place method is tied
by its `ensures` to a function, and the properties are lemmas about that function.

## Where the code differs from what is written about it

The model follows the code.

- `longhaul-core/src/tasks.rs:104-105` says nothing leaves a terminal status. On
  the shared store a `cancel` that read a live status before another connection
  finished the task overwrites `completed` or `failed`
  (`StoreTheorems.LateCancelHappens`). `StoreTheorems.TerminalStaysIffNoCancelUnderWay`
  gives the exact condition: such a status is safe from every continuation if and
  only if no connection stands between a cancel's read of the live row and its write.
- `README.md:113` of the repository says the status guard does not catch a race
  between processes. The guarded write does catch it:
  `StoreTheorems.UpdatesCommitLegally`. What a lost race can cost is an update
  refused although the status it lost to would permit it
  (`StoreTheorems.SpuriousConflictHappens`). `UpdatesUnderWay.SureIffTerminal` gives
  the exact condition: past its read an update is safe from that, over every
  continuation, if and only if the row is terminal already.
- `longhaul-core/src/tools.rs:107-109` says the depth check's recursion is capped
  at `max_depth` frames. The call that finds the bound exceeded is one more:
  `SchemaDepth.OneFrameMoreThanTheBound` is an input, and
  `SchemaDepth.RecursionIsBounded` says that `max_depth + 1` is reached exactly on
  input refused as too deep.
- `longhaul-core/src/jsonrpc.rs:209-214` classifies by shape. A message whose
  `id` is present but fractional or beyond 64 bits is read as a notification
  (`JsonRpc.FractionalIdIsNotification`), and arrays of three or four elements are
  read by position. `JsonRpc.ObjectsAreClassified` and `JsonRpc.ArraysAreClassified`
  are the complete account.
- The indexer means every task to end. A failed statement of the worker's update
  leaves it live after the worker has gone (`IndexerExit.FaultStrandsTask`); so does
  a pause at the wrong moment (`IndexerExit.PauseStrandsTask`), and so does a client
  that resumes a paused task while the worker is failing it
  (`IndexerExit.ResumeStrands`). `IndexerExit.UnsettledExitHasCause` names the only
  causes there are, in any run: such a failure, or a pause some time earlier.
  `IndexerExit.SettlesIffNotAtRisk` gives the exact condition on the state when the
  worker is about to make its update: if its own statements go through and no client
  calls for a pause from there on, it is sure to settle the task, whatever else
  anybody does, if and only if the task is not paused and, if it is working, no pause
  is already under way.
- `longhaul-server/src/store.rs:144` calls the migration idempotent and safe on
  every open. It completes the schema unless the version table names a current
  version wrongly (`Migration.WrongClaimIsBelieved`); `Migration.FinishedOpensLeaveSchema`
  is the exact condition.

## Model

| member | source | states |
|---|---|---|
| StoreTheorems.RunIsExplained | longhaul-server/src/store.rs:191-249 | simulation: in every run of any number of connections, statements interleaved and failing at will, replaying the operations in the order of their last statements on the atomic store explains the final table and every reply, up to the named exceptions |
| StoreTheorems.ExceptionsAreExact | longhaul-server/src/store.rs:206-249 | an operation has the atomic store's effect and reply iff it is neither a failed statement, nor an update refused after a lost race whose outcome permits it, nor a cancel landing on a completed or failed row; the first two have no effect |
| StoreTheorems.ExceptionsArise | longhaul-server/src/store.rs:206-249 | each exception arises in one way only: a failed statement, which writes nothing; a re-read that finds a status permitting the update; a cancel's write onto a completed or failed row |
| StoreTheorems.AtomicEventsAreARun | longhaul-server/src/store.rs:74-113 | a history without exceptions is a sequential run of the atomic store, event by event |
| StoreTheorems.RunIsLinearizable | longhaul-server/src/store.rs:191-249 | so a run without exceptions gives the replies and the table of the same operations done one after the other |
| StoreTheorems.EffectBetweenCallAndReturn | longhaul-server/src/store.rs:207-234 | each operation takes effect exactly once, after its call and before its return, with the reply it returns |
| StoreTheorems.RunGrows | longhaul-server/src/store.rs:191-249 | no step of any run removes a row, a logged write or an event |
| StoreTheorems.UpdatesCommitLegally | longhaul-server/src/store.rs:215-221 | whatever an update commits is a legal transition from the status in the row at that instant, even if the row left the status that was read and came back to it |
| StoreTheorems.ConflictMeansRace | longhaul-server/src/store.rs:222-229 | the re-read happens only if another connection wrote the row since the read, and then finds the row, changes nothing and reports the status found |
| StoreTheorems.LateCancel | longhaul-server/src/store.rs:233-242 | a write, other than an insert, onto a terminal row is a cancel that read the row live, and another connection's write in between made it terminal |
| StoreTheorems.RankNeverFalls | longhaul-server/src/store.rs:206-249 | between inserts of an id its rank (live, finished, cancelled) never falls; a terminal status stays or becomes cancelled |
| StoreTheorems.RunRankNeverFalls | longhaul-server/src/store.rs:206-249 | the same from any reachable state over any further run |
| StoreTheorems.RunLogIsOk | longhaul-server/src/store.rs:191-249 | every run's log has the properties these theorems ask for and determines every status |
| StoreTheorems.TerminalAbsorbs | longhaul-core/src/tasks.rs:104-105 | if no cancel of the row is overtaken by another connection, all three terminal statuses are absorbing |
| StoreTheorems.TerminalStaysIffNoCancelUnderWay | longhaul-server/src/store.rs:233-242 | from any reachable state a completed or failed row keeps its status over every run that does not insert its id, iff no connection has read it live for a cancel and not yet written |
| StoreTheorems.OverStays | longhaul-server/src/store.rs:206-249 | while no cancel of the row is under way none gets under way, and no statement of any connection changes the row |
| StoreTheorems.TerminalIsLeftByCancelOnly | longhaul-server/src/store.rs:233-242 | in the log of any run a terminal status is left iff it is not cancelled and a cancel commits a write |
| UpdatesUnderWay.UpdateAlone | longhaul-server/src/store.rs:206-231 | a fresh update left alone is accepted iff the row's status permits it, and otherwise refused from that status with the row unchanged |
| UpdatesUnderWay.GuardedUpdateAlone | longhaul-server/src/store.rs:215-231 | an update past its read, left alone, commits iff the row has the status it read, and answers as the atomic store iff the row has that status or one that forbids the step |
| UpdatesUnderWay.SureIffTerminal | longhaul-server/src/store.rs:215-231 | with another connection free, an update past its read gets the atomic store's answer over every continuation that inserts nothing under its id and fails none of its statements, iff its row is terminal already |
| UpdatesUnderWay.RefusalIsSure | longhaul-server/src/store.rs:222-231 | an update whose row became terminal can only be refused from the terminal status, over every such continuation |
| UpdatesUnderWay.ComesBackTooLate | longhaul-server/src/store.rs:222-231 | for any update whose row has moved to the other live status, a run in which it is refused from the very status it read |
| StoreTheorems.LateCancelHappens | longhaul-server/src/store.rs:235-242 | a concrete run in which a completed task, reported as such, becomes cancelled |
| StoreTheorems.SpuriousConflictHappens | longhaul-server/src/store.rs:222-229 | a concrete run in which a legal update is refused from a status that permits it |
| StoreTheorems.SoloStatements | longhaul-server/src/store.rs:191-249 | an operation left alone is finished after at most two statements and is no exception |
| StoreTheorems.SoloIsAtomic | longhaul-server/src/store.rs:191-249 | an operation left alone is exactly the atomic one, on whichever connection it runs |
| StoreInvariant.MovedMeansWritten | longhaul-server/src/store.rs:215-223 | a status that differs from the one read was written in between, last by a write that left it as it is |
| StoreInvariant.OthersKeep | longhaul-server/src/store.rs:207-234 | a step of one connection falsifies nothing that another remembers between its statements |
| StoreInvariant.UpdateKeeps | longhaul-server/src/store.rs:206-231 | every statement of an update keeps the protocol invariant |
| StoreInvariant.CancelKeeps | longhaul-server/src/store.rs:233-248 | every statement of a cancel keeps it; the row it read is still there, with a known status, when it writes |
| StoreInvariant.NextKeeps | longhaul-server/src/store.rs:191-249 | every action of every connection keeps the invariant |
| StoreInvariant.RunKeeps | longhaul-server/src/store.rs:191-249 | every run does |
| AtomicStore.StepContract | longhaul-server/src/store.rs:74-113 | what one atomic operation promises: replies show the stored task, errors change nothing, updates succeed iff legal, cancels of known tasks always succeed and leave a live one cancelled and a terminal one as it was, other ids are untouched |
| AtomicStore.RunKeepsKeys | longhaul-server/src/store.rs:83-87 | over any run every task stays filed under its own id |
| AtomicStore.LifecycleStep | longhaul-server/src/store.rs:89-112 | without an insert of the id, one step leaves a task as it is or takes one legal transition and changes nothing else of it |
| AtomicStore.LifecycleIsPath | longhaul-core/src/tasks.rs:85-111 | over any run between inserts the distinct consecutive statuses of a task are a path in the transition graph |
| AtomicStore.TerminalIsFinal | longhaul-server/src/store.rs:74-113 | after any reply with a terminal task, every later get and cancel returns that task and every later update is refused from its status |
| AtomicStore.ForgetRun | longhaul-server/src/store.rs:168-205 | metadata never influences statuses, replies or errors, over any run |
| AtomicStore.MemoryStore.Get | longhaul-server/src/store.rs:75-81 | performs the specified get, on the map as it is |
| AtomicStore.MemoryStore.Insert | longhaul-server/src/store.rs:83-87 | performs the specified insert in place and keeps the filing by id |
| AtomicStore.MemoryStore.Update | longhaul-server/src/store.rs:89-102 | performs the specified update in place, errors included |
| AtomicStore.MemoryStore.Cancel | longhaul-server/src/store.rs:104-112 | performs the specified cancel in place, idempotently on terminal tasks |
| TaskTable.AbsInjective | longhaul-server/src/store.rs:168-188 | two tables that stand for the same tasks are the same table |
| TaskTable.WriteRow | longhaul-server/src/store.rs:197-205 | writing a status text is writing that status and no other row |
| TaskTable.GuardIsStatusGuard | longhaul-server/src/store.rs:218-221 | comparing status texts in the guard is comparing statuses |
| SqliteStore.SqliteStore.ReadTask | longhaul-server/src/store.rs:168-188 | one statement; which of the failure, missing row, corrupt text and task cases arises, and that nothing changes |
| SqliteStore.SqliteStore.Get | longhaul-server/src/store.rs:192-195 | changes nothing and, whatever other rows hold, answers with the task, not found, or a database error exactly when the statement failed or this row's text is corrupt |
| SqliteStore.SqliteStore.Insert | longhaul-server/src/store.rs:197-204 | the atomic insert of the storable part of the task, or a database error without effect |
| SqliteStore.SqliteStore.Update | longhaul-server/src/store.rs:206-231 | the atomic update; on one connection the conflict branch is never what decides |
| SqliteStore.SqliteStore.Cancel | longhaul-server/src/store.rs:233-248 | the atomic cancel |
| SqliteStore.SqliteStore.Perform | longhaul-server/src/store.rs:191-249 | any operation is served as specified, whichever it is |
| SqliteStore.SqliteStore.PerformAll | longhaul-server/src/store.rs:191-249 | any sequence of operations on one connection, no statement failing, gives the in-process store's replies, errors and tasks up to metadata and extra fields |
| SqliteStore.ServedStep | longhaul-server/src/store.rs:74-113 | one served operation keeps a table in step with a run of the in-process store, with that run's reply |
| Tasks.ParseAsStr | longhaul-server/src/store.rs:257-266 | reading back a written status text gives the status |
| Tasks.ParseStatus | longhaul-server/src/store.rs:257-266 | only texts that some status is written as are read as a status |
| Tasks.AsStrInjective | longhaul-core/src/tasks.rs:66-74 | different statuses have different texts |
| Tasks.LegalPathEnds | longhaul-core/src/tasks.rs:85-111 | on every path of the state machine terminal statuses come last, nothing repeats at once, completed is entered from working only, rank never falls |
| Tasks.LegalSteps | longhaul-core/src/tasks.rs:96-111 | a step is legal iff it leaves a live status for another one and, to completed, leaves working |
| Tasks.LiveReachesEveryTerminal | longhaul-core/src/tasks.rs:98-111 | exactly the live statuses reach a terminal one, each of the three in at most two steps |
| Tasks.LiveTask.TransitionTo | longhaul-core/src/tasks.rs:194-204 | succeeds iff the step is legal, then changes the status and nothing else; otherwise reports both statuses and changes nothing |
| Tasks.LiveTask.Cancel | longhaul-core/src/tasks.rs:221-228 | never fails; ends a live task, reports and leaves a terminal one |
| Migration.NextKeeps | longhaul-server/src/store.rs:145-166 | every statement of a migration keeps the invariant |
| Migration.RunKeeps | longhaul-server/src/store.rs:145-166 | every interleaving of any number of migrations does |
| Migration.TasksAreKept | longhaul-server/src/store.rs:157-160 | whatever the file was, no interleaving and no failure loses or changes a task |
| Migration.OpensAreSafe | longhaul-server/src/store.rs:144-166 | from a file that does not claim a current version wrongly, once someone has opened it its schema is complete unless a connection stands between its delete and its insert |
| Migration.FinishedOpensLeaveSchema | longhaul-server/src/store.rs:144-166 | however any openers interleave, when all have finished without error the tasks table exists and the version table is nonempty with every row equal to 1; this holds iff the file started from did not claim a current version wrongly |
| Migration.WrongClaimIsBelieved | longhaul-server/src/store.rs:149-155 | a concrete file that claims version 1 without a tasks table is opened and stays without one |
| Migration.GapIsReal | longhaul-server/src/store.rs:161-162 | a concrete run in which one connection has opened the file and another's failure leaves no version recorded, with any tasks intact |
| Migration.AloneOpens | longhaul-server/src/store.rs:145-166 | left alone an opener opens any file, also when it cannot read the version, and keeps the tasks; if the file was sound or the version unread, the schema is complete afterwards |
| Walk.WalkIsPrefix | examples/indexer/src/main.rs:100-136 | for every tree and one-way flag the files counted are a prefix of the depth-first order, and all of it unless one of the walk's own checks found the flag up |
| Walk.EntriesPrefix | examples/indexer/src/main.rs:114-135 | the same for the loop over any list of entries at any level |
| Walk.NothingAfterUp | examples/indexer/src/main.rs:106-117 | once the flag is up no further file is counted at any level of the recursion |
| Walk.DirStopsSoon | examples/indexer/src/main.rs:106-121 | once the flag is up the walk makes at most one more check for each level of nested directories |
| Walk.EntriesDependOnChecks | examples/indexer/src/main.rs:114-135 | the walk depends on nothing but the checks it makes |
| Walk.CancelledReportsLess | examples/indexer/src/main.rs:100-136 | files, bytes and every per-extension count of a cancelled walk are at most those of the full walk |
| Walk.TotalsAreRight | examples/indexer/src/main.rs:83-92 | the accumulated totals are the number of files, the sum of readable sizes, exactly the lowercased extensions of readable files, per extension the words of its files, and together all words |
| Walk.WordSumIsRight | examples/indexer/src/main.rs:128-133 | the per-extension counts sum to the words of all readable files |
| Walk.ReorderedKeepsFiles | examples/indexer/src/main.rs:110-114 | reordering directory entries at any levels keeps the multiset of files |
| Walk.TallyIgnoresOrder | examples/indexer/src/main.rs:122-133 | the totals depend on the files only as a multiset |
| Walk.OrderIsIrrelevant | examples/indexer/src/main.rs:110-136 | so the full walk reports the same totals in whatever order directories list their entries |
| WalkInPlace.CountFile | examples/indexer/src/main.rs:122-133 | one file is added to the accumulator in place as specified |
| WalkInPlace.RemainingStep | examples/indexer/src/main.rs:114-135 | what one turn of the loop leaves still to be walked, in each of its branches |
| WalkInPlace.WalkDirInPlace | examples/indexer/src/main.rs:106-136 | the recursion with its shared accumulator makes exactly the specified checks and adds exactly the specified files |
| WalkInPlace.WalkAndIndex | examples/indexer/src/main.rs:100-104 | the result is the tally of a prefix of the tree's files, and of the whole tree unless a check found the flag up |
| IndexerInvariant.StatementKeeps | examples/indexer/src/main.rs:267-360 | whatever statement runs on whatever connection, replies still unread by the task's own agents stay true and the worker's commits stay justified |
| IndexerInvariant.StepKeeps | examples/indexer/src/main.rs:267-360 | every move of handler, monitor, worker, store or client keeps the task's invariant |
| IndexerInvariant.PlayKeeps | examples/indexer/src/main.rs:267-360 | every run does |
| IndexerTheorems.CompletedMeansWholeTree | examples/indexer/src/main.rs:305-347 | if the worker's update to completed ever commits, the flag was never up at a check of the walk and the index covers the whole readable tree |
| IndexerTheorems.TruncatedMeansCancelled | examples/indexer/src/main.rs:285-323 | in any run a finished index is at most that of the whole tree, and equal to it unless the task is cancelled |
| IndexerTheorems.PollRaisesFlag | examples/indexer/src/main.rs:286-292 | one undisturbed poll of a cancelled task raises the flag and ends the monitor |
| IndexerMonitor.StoppedMeansOverOrFailed | examples/indexer/src/main.rs:285-298 | in every run a stopped monitor means a terminal task or a failed statement of one of its own polls |
| IndexerMonitor.OnePoll | examples/indexer/src/main.rs:286-296 | an undisturbed poll stops the monitor iff its statement fails or the task is terminal, raises the flag iff it reads cancelled while the walk is on, and changes nothing else; on a live task the monitor sleeps on |
| IndexerMonitor.PanickedWalkFailsTask | examples/indexer/src/main.rs:311-354 | a walk that panics, left alone, leads to the sender taken off file and an update to failed |
| IndexerMonitor.CancelledWorkerLeaves | examples/indexer/src/main.rs:318-325 | a worker whose walk has returned leaves at its read iff the task reads as cancelled, and otherwise goes on to complete it, also when the read fails |
| IndexerTheorems.FlagStaysUp | examples/indexer/src/main.rs:273-292 | the flag is one-way: every check after it went up reads true |
| IndexerTheorems.RaisedFlagStopsWalk | examples/indexer/src/main.rs:106-117 | from then on no file is counted: the index is the one of a walk whose next check finds the flag up |
| IndexerTheorems.RaisedFlagStopsWorkerSoon | examples/indexer/src/main.rs:106-121 | a worker still walking under a raised flag has moved at most once for each level of nested directories, whatever else has happened |
| IndexerTheorems.SenderIsKeptForTheWalk | examples/indexer/src/main.rs:273-315 | the cancel sender is on file from spawning to the worker's clean-up and at no other time, and other tasks' senders are untouched |
| IndexerTheorems.SettledExitIsFinal | examples/indexer/src/main.rs:317-356 | if the worker's last reply shows the task over, it is over whatever anybody does, and the sender is gone |
| IndexerExit.UnsettledExitHasCause | examples/indexer/src/main.rs:305-357 | in every run from a fresh id the worker's exit leaves no sender and a terminal task, unless a statement of its own update failed or it was refused and somebody's update has paused the task |
| IndexerExit.SettlesIffNotAtRisk | examples/indexer/src/main.rs:338-354 | a worker about to make its update settles the task over every run in which its own connection does not fail and no client calls for a pause, iff the task is not paused and, if working, no pause is under way |
| IndexerExit.PlayStaysSecure | examples/indexer/src/main.rs:267-360 | over every such run no paused row, stale read or unsettled reply of the worker ever comes up |
| IndexerExit.PauseStrands | examples/indexer/src/main.rs:338-354 | whenever a pause is under way on a working task, a run in which the worker is refused and exits |
| IndexerExit.ResumeStrands | examples/indexer/src/main.rs:348-354 | whenever a worker is about to fail a paused task and another connection is free, a run in which a client resumes the task and the worker exits with it working |
| IndexerExit.AloneSettlesUnlessPaused | examples/indexer/src/main.rs:338-354 | if nobody else moves, a worker about to make its update settles the task iff it is not about to complete a paused one |
| IndexerExit.StepIsAccounted | examples/indexer/src/main.rs:267-360 | every move of anybody keeps the account: a paused row, a stale read or an unsettled reply of the worker has an excuse, and only a failed statement of its update or a pausing write adds one |
| IndexerExit.ExitLeavesNothingDangling | examples/indexer/src/main.rs:305-357 | if no statement on the task's own connection fails and no client pauses the task, it is terminal and its sender gone when the worker has exited; clients may otherwise update it, and other connections may fail |
| IndexerTheorems.PollsEndAfterExit | examples/indexer/src/main.rs:285-298 | after such an exit every poll that starts ends the monitor; at most one begun earlier may still answer otherwise |
| IndexerExit.FaultStrandsTask | examples/indexer/src/main.rs:338-345 | a run in which one failed statement leaves the task working after the worker's exit |
| IndexerExit.PauseStrandsTask | examples/indexer/src/main.rs:338-345 | a run without failures in which a client's pause leaves the task paused after the worker's exit |
| SchemaDepth.NestingStep | longhaul-core/src/tools.rs:105-106 | a value nests within n levels iff n is positive and every child nests within n - 1, where nesting is defined by paths |
| SchemaDepth.CheckDepthIsExact | longhaul-core/src/tools.rs:120-133 | at any depth the check succeeds iff the value nests within the levels left, and otherwise reports the bound |
| SchemaDepth.ValidateSchemaIsExact | longhaul-core/src/tools.rs:110-118 | accepted iff an object or boolean nesting within the bound; too deep is reported iff it is one of these and nests deeper; the order of children plays no part |
| SchemaDepth.ValidateSchemaMonotone | longhaul-core/src/tools.rs:110-118 | a looser bound accepts no less |
| SchemaDepth.NonSchemasAreNamed | longhaul-core/src/tools.rs:113-116 | null, numbers, strings and arrays are each refused as what they are, whatever the bound |
| SchemaDepth.RecursionIsBounded | longhaul-core/src/tools.rs:107-109 | on input of any depth at most max_depth + 1 calls are open at once, and that many exactly when the input nests deeper than the bound and is refused for it |
| SchemaDepth.OneFrameMoreThanTheBound | longhaul-core/src/tools.rs:107-109 | a concrete schema that opens two calls under a bound of one |
| SchemaDepth.ValidateSchemasIsExact | longhaul-core/src/tools.rs:61-67 | a tool passes iff its input schema and its output schema, if any, do; a bad input schema's own error comes first, else a bad output schema's own |
| ToolRegistry.LastWinsUnique | longhaul-server/src/registry.rs:90-98 | the map of last registrations is determined by the list of entries |
| ToolRegistry.ListingIsCanonical | longhaul-server/src/registry.rs:106-110 | a sorted listing of the map's values, whatever order they came in, follows the sorted names one for one |
| ToolRegistry.ListingIsUnique | longhaul-server/src/registry.rs:105-110 | so there is exactly one |
| ToolRegistry.ListingsAgree | longhaul-server/src/registry.rs:90-110 | two registries filled from the same entries list alike, each whatever the order of its own hash map |
| ToolRegistry.ToolIsShown | longhaul-core/src/tools.rs:34-56 | a serialized tool has each typed value under its own key, no key for an absent one, all extra fields, and nothing else |
| ToolRegistry.SerializedListing | longhaul-server/src/registry.rs:116-128 | the serialized listing has one tool for each registered name in order, each showing the definition looked up under it, a time to live of 60000 and the session scope |
| ToolRegistry.ToolReadsBack | longhaul-core/src/tools.rs:34-56 | a serialized tool determines the tool, if its extra fields avoid the typed keys |
| ToolRegistry.Registry.FromEntries | longhaul-server/src/registry.rs:90-98 | every registered name maps to its last registration, and no other name is present |
| ToolRegistry.Registry.AllSorted | longhaul-server/src/registry.rs:106-110 | from any order of the hash map, all entries strictly increasing by name |
| ToolRegistry.Registry.ListResult | longhaul-server/src/registry.rs:116-128 | exactly the registered names in strictly increasing order, each with the definition the lookup gives |
| Metadata.MetaRoundTrip | longhaul-core/src/meta.rs:56-76 | a `_meta` value survives encoding and decoding iff its extra keys avoid the reserved ones |
| Metadata.FieldsApart | longhaul-core/src/meta.rs:56-76 | flattened optional fields and extra fields that avoid their keys can be told apart again |
| Metadata.MetaIsRead | longhaul-core/src/meta.rs:31-76 | arbitrary JSON is read as metadata iff it is an object whose typed keys are each absent, null or of their type, and then as exactly those values with every other key kept |
| Metadata.MetaIsWritten | longhaul-core/src/meta.rs:56-76 | metadata is written with the typed values it has under their names, none for those it has not, and all extra ones |
| Metadata.ClientInfoIsWritten | longhaul-core/src/meta.rs:33-39 | client information is written as an object of its name and version |
| Outcome.BlockRoundTrip | longhaul-core/src/tools.rs:236-248 | a content block survives unless it is an opaque block that reads as text or carries clashing metadata |
| Outcome.TaskRoundTrip | longhaul-core/src/tasks.rs:165-180 | a task survives when its extra keys avoid the typed ones |
| Outcome.DecodedIsWellFormed | longhaul-core/src/tools.rs:306-329 | whatever is decoded is well formed |
| Outcome.OutcomeRoundTrip | longhaul-core/src/tools.rs:286-329 | an outcome survives encoding and decoding iff it is well formed |
| Outcome.EncodeInjective | longhaul-core/src/tools.rs:295-304 | on well-formed outcomes encoding is injective, so the three kinds have disjoint images |
| Outcome.TagDecidesKind | longhaul-core/src/tools.rs:313-327 | the kind decoded is decided by the discriminator alone, and every other string discriminator is refused |
| Outcome.OutcomesAreRead | longhaul-core/src/tools.rs:306-329 | the complete account of decoding arbitrary JSON: which is an outcome of which kind, and what every part of it is in terms of the JSON, unknown keys ignored |
| Outcome.ContentIsRead | longhaul-core/src/tools.rs:270-284 | a direct result needs an array of content; its structured content, error flag and metadata may be absent or null and are otherwise of their type |
| Outcome.BlockIsRead | longhaul-core/src/tools.rs:236-248 | a block is a text block iff its type says so and its text and metadata are readable, further keys ignored, and else is kept as it is |
| Outcome.TaskIsRead | longhaul-core/src/tasks.rs:168-180 | a task needs a text id and a known status; every key but its three is kept |
| Outcome.StatusIsRead | longhaul-core/src/tasks.rs:40-53 | a status is read from its name, or from an object with null under its name, and from nothing else |
| Outcome.EmptyAnswerIsRefused | longhaul-core/src/tools.rs:272-274 | an answer without content is refused |
| Outcome.OutcomeIsWritten | longhaul-core/src/tools.rs:270-304 | each kind is written as an object with its discriminator, if any, and exactly the values it has |
| Outcome.BlockIsWritten | longhaul-core/src/tools.rs:236-248 | a text block is written as an object of type text, any other as it is |
| Outcome.TaskIsWritten | longhaul-core/src/tasks.rs:168-180 | a task is written with its status as plain text, its metadata if any, and all extra fields |
| JsonRpc.ObjectsAreClassified | longhaul-core/src/jsonrpc.rs:209-224 | the complete classification of JSON objects and of what they are read as: request iff version 2.0, string method and usable id; with a string method otherwise a notification; else a response iff usable id and a result, which is then the payload, or a proper error |
| JsonRpc.ErrorObjectsAreRecognized | longhaul-core/src/error.rs:55-65 | an error decodes iff it is an object with a 64-bit integer code and a string message, or an array of three with these first; and then as exactly these and the data |
| JsonRpc.FractionalIdIsNotification | longhaul-core/src/jsonrpc.rs:29-42 | a concrete request with a fractional id decodes as a notification |
| JsonRpc.ArraysAreClassified | longhaul-core/src/jsonrpc.rs:215-224 | the complete classification of JSON arrays, which the derived decoders read by position, and of what they are read as |
| JsonRpc.ScalarsAreRefused | longhaul-core/src/jsonrpc.rs:215-224 | no other JSON value is a message |
| JsonRpc.DecodedIsLossless | longhaul-core/src/jsonrpc.rs:72-84 | no decoded message carries params or error data that are present but null |
| JsonRpc.MessageIsWritten | longhaul-core/src/jsonrpc.rs:72-171 | each message is written as an object with version 2.0 and exactly the members of its kind |
| JsonRpc.ErrorIsWritten | longhaul-core/src/error.rs:55-65 | an error is written as an object with its code, its message, and data if there are any |
| JsonRpc.MessageRoundTrip | longhaul-core/src/jsonrpc.rs:121-224 | a message survives encoding and decoding iff no params or error data are present but null |
| Handlers.ResponsesAreProper | longhaul-server/src/handlers.rs:26-33 | every response echoes the request id and has exactly one of result and error (section 5 of JSON-RPC 2.0); an error leaves the tasks unchanged |
| Handlers.RequestsArePerformed | longhaul-server/src/handlers.rs:99-127 | typed params a client serializes arrive as exactly that store operation |
| Handlers.ParamsAreJudged | longhaul-server/src/handlers.rs:99-127 | for arbitrary params of the task methods: the one operation they ask for is performed, and when they ask for none the response is -32602 and the tasks are unchanged |
| Handlers.MisspeltStatusIsRefused | longhaul-server/src/handlers.rs:109-111 | a concrete update with a misspelt status is refused and changes nothing |
| Handlers.ErrorCodesSayWhy | longhaul-server/src/handlers.rs:37-66 | -32601 iff the method is none of the five modelled ones; any other failure of a working store is -32602; discovery answers with what the instance is configured with; the listing does iff its params are acceptable, and else is refused |
| Handlers.StoreErrorsAreTold | longhaul-server/src/handlers.rs:129-138 | an unknown task and an illegal transition are -32602 with the id or the two statuses in the message, a database error is -32603 |
| Handlers.ResultsAreTasks | longhaul-server/src/handlers.rs:99-127 | the result of a task method decodes to the task now stored under the id asked for |
| Handlers.ServerState.HandleToolsList | longhaul-server/src/handlers.rs:59-66 | the listing answered shows every registered tool, one for one, whatever order the hash map yields |
| Handlers.ServerState.Dispatch | longhaul-server/src/handlers.rs:26-66 | an instance answers as the atomic store would, shows every registered tool in its listing whatever order the hash map yields, or gives an internal error and no effect exactly when a statement failed |
| Statelessness.HandleAtIsAtomic | longhaul-server/src/handlers.rs:26-138 | a request served statement by statement on any connection of the shared table is the request on the atomic store |
| Statelessness.ServeIsAtomic | longhaul-server/src/handlers.rs:26-138 | so is any list of requests, wherever each is routed |
| Statelessness.ServeAtomically | longhaul-server/src/handlers.rs:26-33 | there is one response per request, in order, with its id |
| Statelessness.BuiltAlikeLookAlike | longhaul-server/src/handlers.rs:53-66 | instances with the same setup and registrations are configured alike though each has its own map and hash order |
| Statelessness.InstancesAreInterchangeable | longhaul-server/src/store.rs:122-125 | any two assignments of the same requests to any numbers of instances built alike, each with its own registry, give the same responses and the same final table |

## Left out

- Database internals (journal, pragmas, busy timeouts, crash recovery): each autocommit statement is one atomic step that may fail with no effect.
- Lock poisoning, and panics other than the worker's failed walk.
- Timing: the monitor may step at any moment, and no fairness is assumed, so nothing is said about a run in which an agent never moves again.
- A real file system: the tree is finite and does not change during the walk, so symbolic-link cycles and concurrent changes are not captured; splitting and lowercasing of text are parameters.
- Overflow of the walk's machine-width counters: they are unbounded naturals.
- Freshness of generated task ids: clients never insert the indexed task's id.
- The indexer's fallback to the in-process store, its candidate selection and the retry token check (a membership test).
- `tools/call` inside dispatch: it runs arbitrary handlers.
- Serialization at text level: the wire types are modelled on JSON values with the rules of their derived decoders written out; error texts that come from libraries are parameters.
- ToolRegistry.InsertByName: a step of the insertion loop that stands for the library sort; `ToolRegistry.ListingIsUnique` shows that any sort gives the same listing.
- HTTP serving, header middleware, health probes, discovery contents, the conformance runner and the command line.
- SchemaDepth.ValidateSchema: the order in which an object's members are visited is taken to be by key; the result does not depend on it.
