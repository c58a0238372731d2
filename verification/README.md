# taskloom, modelled and proved in Dafny

taskloom tracks tasks and plans as append-only event streams. This project models its
decision rules, its read models, the protocols that write to its store, its repair of
project identity, and the arithmetic and text around them, and proves what they promise.
`dafny verify dfyconfig.toml` checks all of it.

| modules | what they model |
|---|---|
| `Tasks`, `Plans` | the two aggregates: deciding commands, folding events, and what every history keeps |
| `TaskLists`, `PlanLists`, `Graphs` | the read models, folded in place book by book, against a replay of the streams |
| `TaskStores` | the store's contract: a command decided on its stream as it is, appended atomically, and a duplicate once its id is there |
| `Supersede`, `Turns`, `Overlaps` | linking and unlinking two plans by two writes, stopped anywhere, with other commands between, and what overlapping links do |
| `JsonlLog`, `Import`, `LoggedTasks` | importing a log, stopped and run again, and what it makes of each task and record |
| `KeyedAdds` | an add retried under a request's key |
| `Registry`, `Heal` | which project a directory is, racing processes, and repairing it |
| `Retags` | a scalar tag's new value displacing the old |
| `Prunes`, `Durations`, `Calendar` | taking old tasks out, and the ages it takes |
| `Priority` | ranking by percentile |
| `PlanFiles`, `PlanPaths` | a plan file's frontmatter, written and read, and where its path resolves |
| `Text`, `Streams`, `Wrappers` | trimming, the order of names, stream roots, and results |

Calls that change state are methods over fields, each proved equal to a function of the
state before it; what those functions mean is proved about them. Interleavings are runs of
single reads, draws and writes of any number of processes, with crashes between any two.

## What holds only on a condition

Each is proved as an if and only if, or with a counterexample for each condition dropped.

- An import stopped and run again, or run twice, is one run exactly when no deferral
  refused for want of a trigger is of a task that holds one by the time it is sent again
  (`Import.ResumeIsExact`, `Import.SecondRunAppliesNothing`; `Import.RefusedThenLifted` is
  such a log).
- A keyed add lands once in any interleaving without purges, or with purges when attempts
  take turns; with both purges and overlap it can land twice
  (`KeyedAdds.PurgeBetweenAddsTwice`).
- An id is minted against the registry and the databases, not against markers: a root
  marked with an id neither of them holds can come to share it
  (`Registry.UnheldMarkerCollides`; `Registry.MarkedOnlyCollides` is such a home).
- A heal drops the entries of the marked id whose paths are gone by their canonical path.
  A gone path is cleaned lexically, so one spelled through a missing directory can come to
  the root, or to a live tree's path, and takes that entry with it: the root is then left
  unregistered until the next heal (`Heal.HealRepairsRoot`, `Heal.HealSparesLive`), and a
  third heal can be needed (`Heal.HealsConverge`). `Heal.DetouredUnregisters`,
  `Heal.DetouredDropsLive` and `Heal.DetouredNeedsThree` are such homes.
- Two overlapping links can close a supersedes cycle
  (`Overlaps.OverlappingLinksCloseACycle`; in a project of two plans,
  `Overlaps.TwoPlansCloseACycle`). No other plan command does harm between a link's
  writes (`Turns.TurnMeans`).

## Where the code and its documentation differ

- The task list's projection is documented as folding nothing of a book it cannot read; the
  code has by then let go of the task of a stream the book continues, so the rest of that
  stream would be folded on from no task. `TaskLists` follows the code.
- `plans::check` passes a command setting Draft, which no plan may become again
  (`Plans.CheckIsDecideAlone`).
- The importer is documented as duplicating nothing when it is run again; see the first
  condition above.
- Heal is documented as dropping only entries whose paths are gone; see the fourth.

## Assumed

- A stream's root and the harp id it is rooted by are one-to-one, and a task's add carries
  the harp its stream is rooted by.
- Every task command carries the statuses the application sends, Deferred and To Do.
- Command ids derived from a line or a request key are distinct for distinct ones; minted
  command ids are on no stream; minted project ids are valid.
- A work root is its own canonical path, as one that exists as a directory is, and what is
  canonical does not change during a run.
- An instant's seconds and nanoseconds are within their fields' ranges. Where `Durations`
  computes in fixed widths, a sum or a product the source checks is checked and one it does
  not is proved to fit (`Durations.ReadFraction`, `Durations.OffsetFits`,
  `Durations.CutFits`); days and seconds of the calendar stay far inside theirs.
- What is proved of an import and of running it again starts from a store without tasks,
  and nothing else writes to it between the runs.
- Floats are their exact numbers, with the sign of zero kept; rounding is not modelled.

## Model

| member | source | states |
|---|---|---|
| `Supersede.EveryRunConsistent` | crates/core/application/plans-application/src/change.rs:56-149 | over every run of link, unlink and other plan commands from an empty project, none overlapping and any link or unlink stopped between its two writes, the supersedes graph of all plans is acyclic, every stream is its aggregate's own, and a plan is Superseded exactly while it is marked |
| `Supersede.WriteKeepsConsistent` | crates/core/application/plans-application/src/change.rs:59-148 | one checked write, on its own, keeps all of that |
| `Supersede.CallKeepsConsistent` | crates/core/application/plans-application/src/change.rs:59-148 | one call, stopped between its writes or not, keeps all of that |
| `Supersede.PlannedWritesLand` | crates/core/application/plans-application/src/change.rs:96-143 | no write a link or an unlink plans is ever refused: a call is refused before its first write or lands whole, unless it stops |
| `Supersede.LinkMeans` | crates/core/application/plans-application/src/change.rs:59-111 | from every state such a run reaches, a link that returns Ok leaves the target among the plan's supersedes and marked by it, and nothing else of any plan changed; refused, it wrote nothing |
| `Supersede.UnlinkMeans` | crates/core/application/plans-application/src/change.rs:122-146 | an unlink that returns Ok leaves neither the link nor this plan's mark and touches no other plan's mark; refused, it wrote nothing |
| `Supersede.RerunFinishes` | crates/core/application/plans-application/src/change.rs:56-58 | a call stopped after its first write and run again leaves the streams exactly as one that never stopped; the second run is refused exactly when nothing was left to write |
| `Supersede.HalfDoneSettles` | crates/core/application/plans-application/src/change.rs:56-148 | in every reached state an unlink settles a link or a mark left alone, and is accepted exactly when one of them is there; a link finishes one whose mark is missing |
| `Supersede.LinkAnswers` | crates/core/application/plans-application/src/change.rs:59-111 | a link is refused for the first of these and for nothing else, each with its own refusal: its plan was not added, it is its own target, the target was not added, the new edge would close a cycle, another plan supersedes the target, or no plan would be changed |
| `Supersede.LinkAccepted` | crates/core/application/plans-application/src/change.rs:59-111 | so a link finishes if and only if both plans were added, the graph with its edge is acyclic, no other plan marks the target, and linking changes some plan |
| `Supersede.UnlinkAnswers` | crates/core/application/plans-application/src/change.rs:113-149 | an unlink is refused exactly for a plan not added, or where neither the link nor the plan's mark is there |
| `Supersede.UnstoppedRunPaired` | crates/core/application/plans-application/src/change.rs:56-149 | over every run in which no call stops, a plan is marked by p exactly when p supersedes it |
| `Turns.TurnMeans` | crates/core/application/plans-application/src/change.rs:56-149 | whatever other plan commands come between a call's checks, its first write and its second, it answers as it would have alone, and every plan's links and mark are what they would have been |
| `Turns.EveryTurnConsistent` | crates/core/application/plans-application/src/change.rs:56-149 | so over every run with other commands at each of those points, and a stop between the writes anywhere, the graph is acyclic, every stream its aggregate's own, and a plan Superseded exactly while it is marked |
| `Turns.UnstoppedTurnsPaired` | crates/core/application/plans-application/src/change.rs:56-149 | and where none of its calls stops, a plan is marked by p exactly when p supersedes it |
| `Overlaps.OverlappingLinksCloseACycle` | crates/core/application/plans-application/src/change.rs:5-12 | two links of the same two plans opposite ways, each checked before the other writes, both land whole and close a cycle: why calls must not overlap |
| `Overlaps.TwoPlansCloseACycle` | crates/core/application/plans-application/src/change.rs:5-12 | a project of two plans just added is such a state |
| `Supersede.ListSays` | crates/core/application/plans-application/src/change.rs:68-80 | what the caught-up list says of a plan's links and mark is what its stream folds to, so a link checked on the list is checked on the streams |
| `Supersede.Changing.Record` | crates/core/application/plans-application/src/change.rs:43-54 | one command on one stream: the store after and the refusal are those of the abstract commit |
| `Supersede.Changing.Link` | crates/core/application/plans-application/src/change.rs:59-111 | the call made in place, its checks read from the list and then the two writes in order, leaves the state and the answer of the abstract call |
| `Supersede.Changing.Unlink` | crates/core/application/plans-application/src/change.rs:113-149 | the same for unlink, its two reads made before either write |
| `Graphs.AcyclicWithEdge` | crates/core/read-model/plan-lists/src/lib.rs:160-181 | a new supersedes edge keeps an acyclic graph acyclic exactly when its head does not already reach its tail |
| `Plans.HistorySound` | crates/core/domain/plans/src/lib.rs:243-277 | over every history a plan's add is its first event and its only one, no plan supersedes itself, and whatever marks a plan finds it Superseded |
| `Plans.DecidedKeepsSound` | crates/core/domain/plans/src/aggregate.rs:62-195 | each event a handler records keeps that, and is an add exactly on an empty stream |
| `Plans.DecidedChanges` | crates/core/domain/plans/src/aggregate.rs:62-195 | every event a handler records changes the plan: nothing is recorded for nothing |
| `Plans.DecideMeans` | crates/core/domain/plans/src/aggregate.rs:62-195 | exactly which commands are accepted of a plan, the moves between statuses among them, and all that each leaves of it |
| `Plans.AddedForGood` | crates/core/domain/plans/src/lib.rs:243-277 | over every history a plan keeps the title, the path and the session its add gave it |
| `Plans.DraftOnlyFirst` | crates/core/domain/plans/src/lib.rs:85-92 | over every history a plan that has left Draft is never a Draft again |
| `Plans.StatusNeverSupersedes` | crates/core/domain/plans/src/lib.rs:85-92 | however many status, govern, supersede and rehash commands are sent, none makes a plan Superseded or takes it out of it: only marking and reinstating do |
| `Plans.OppositesUndo` | crates/core/domain/plans/src/aggregate.rs:90-181 | govern and ungovern, supersede and unsupersede take each other back exactly; a mark taken back leaves the plan unmarked and Active, whatever it was |
| `Plans.CheckIsDecideAlone` | crates/core/domain/plans/src/lib.rs:194-230 | the check a caller makes first refuses exactly the commands every stream refuses, but for setting Draft, which it passes and no stream accepts |
| `Plans.PlanAggregate.Fold` | crates/core/domain/plans/src/lib.rs:243-277 | the state changed in place by one event is the abstract fold's |
| `Plans.PlanAggregate.Load` | crates/core/domain/plans/src/aggregate.rs:48-60 | an aggregate loaded from a stream is the replay of it |
| `PlanLists.PlanList.Fold` | crates/core/read-model/plan-lists/src/lib.rs:62-113 | one event folded in place: the rows and the reverse index after it, both sorted and kept the other's inverse |
| `PlanLists.PlanList.Forget` | crates/core/read-model/plan-lists/src/lib.rs:116-131 | a stream forgotten leaves the list showing every other stream as before |
| `PlanLists.PlanList.Project` | crates/core/read-model/plan-lists/src/projection.rs:22-62 | a book with an unreadable event changes nothing; any other, handed as the port hands books, takes the list from the replay of the streams before it to the replay of those after, restarted, ended or continued |
| `PlanLists.PlanList.CatchUp` | crates/core/read-model/plan-lists/src/projection.rs:17-62 | after any run of handed books the list is the replay of the streams, up to the first unreadable book |
| `PlanLists.PlanList.SupersedesReaches` | crates/core/read-model/plan-lists/src/lib.rs:160-181 | the search ends on any graph, cyclic or with dangling names, and answers true exactly when a path of supersedes edges, of length zero too, leads from one plan to the other |
| `PlanLists.RowFollowsReplay` | crates/core/application/plans-application/src/tree.rs:47-59 | a row folded on by an event is the row of the plan folded on by it |
| `PlanLists.RowsSay` | crates/core/application/plans-application/src/tree.rs:47-59 | a list showing the streams has a row for each plan and no other, and every field of it is the replayed plan's, its sets in order |
| `PlanLists.InverseKept` | crates/core/read-model/plan-lists/src/lib.rs:79-109 | the reverse index stays exactly the inverse of the rows' governs through every event, keeping no empty entry |
| `PlanLists.ListAnswersReplay` | crates/core/read-model/plan-lists/src/lib.rs:134-181 | what a list showing the streams says governs a task, and the graph it searches, are the replayed plans' |
| `PlanLists.InsertSorted` | crates/core/read-model/plan-lists/src/lib.rs:185-189 | a value inserted by binary search into a sorted list without repeats leaves it sorted without repeats, holding what it held and the value |
| `Tasks.HistorySound` | crates/core/domain/tasks/src/lib.rs:52-101 | over every history holding a trigger, being Deferred and having a prior status are one; the add is the first event and the only one; nothing follows a removal |
| `Tasks.DecidedKeepsSound` | crates/core/domain/tasks/src/lib.rs:108-191 | each event a command records keeps that, and is an add exactly on a stream without history |
| `Tasks.DeferredSinceLastDeferral` | crates/core/domain/tasks/src/lib.rs:90-101 | deferred_since is the instant of the last event that left the task Deferred, and absent exactly when none did |
| `Tasks.StatusSinceLastSet` | crates/core/domain/tasks/src/lib.rs:52-101 | a task has the status its last add or status change gave it, since that event's instant, and was created at its add's |
| `Tasks.ClearReturnsHome` | crates/core/domain/tasks/src/lib.rs:307-379 | any run of deferrals, re-deferrals, edits and retags, then a clear, leaves the task in the status it held before the first deferral, with no trigger and no prior status |
| `Tasks.AddRefused` | crates/core/domain/tasks/src/lib.rs:108-135 | an add on a stream without history is refused exactly for a blank harp id, text or given field, a status class, or a trigger and a Deferred status not given together |
| `Tasks.AddMeans` | crates/core/domain/tasks/src/lib.rs:108-140 | what an add makes of each field: trimmed, its status the one given, Deferred for a trigger alone or To Do, its tags those given, its instants the event's |
| `Tasks.ChangeMeans` | crates/core/domain/tasks/src/lib.rs:142-191 | an accepted edit, retag, removal or status change changes what it is for and nothing else; a status change leaves the status given, Deferred for a trigger alone, or the one to return to, with the trigger and prior status that go with it |
| `Tasks.ChangeRefused` | crates/core/domain/tasks/src/lib.rs:142-191 | exactly what an edit, a retag, a removal and a status change of a task are refused for, and that only clearing a trigger not held, or a retag, records nothing |
| `Tasks.CheckIsDecideAlone` | crates/core/domain/tasks/src/lib.rs:198-206 | the check a caller makes first refuses exactly the commands every stream refuses, but for an add with a blank harp id |
| `Tasks.Changed` | crates/core/domain/tasks/src/lib.rs:307-337 | a status change that names no status always asks something of the trigger |
| `Tasks.TaskAggregate.Fold` | crates/core/domain/tasks/src/aggregate.rs:52-60 | the state changed in place by one event is the abstract fold's |
| `TaskLists.TaskList.List` | crates/core/read-model/task-lists/src/lib.rs:114-127 | a task listed or taken off the list in place, beside the others |
| `TaskLists.TaskList.Forget` | crates/core/read-model/task-lists/src/lib.rs:129-138 | a purged stream's task leaves all three maps |
| `TaskLists.TaskList.FoldPages` | crates/core/read-model/task-lists/src/lib.rs:92-104 | a book is folded whole or refused at the first event it cannot read |
| `TaskLists.TaskList.Project` | crates/core/read-model/task-lists/src/lib.rs:84-111 | handed as the port hands books, new events, a restart or an end take the list from the replay of the streams before to that of the streams after; unreadable, it leaves what is listed alone but has let go of the task of a stream it was to continue |
| `TaskLists.TaskList.CatchUp` | crates/core/read-model/task-lists/src/lib.rs:57-111 | after any run of books the entries are exactly the live tasks replaying each current stream gives, and unpurged exactly the streams ending in a prune's removal |
| `TaskLists.ListingShows` | crates/core/read-model/task-lists/src/lib.rs:114-127 | listing a task as its last event leaves it lists its stream and changes no other |
| `TaskLists.ListedMeans` | crates/core/read-model/task-lists/src/lib.rs:114-127 | of a list showing the streams: a task is listed unless its stream's last event removed it, and unpurged exactly where a prune's did, each as its stream replays |
| `TaskLists.ReplayContinues` | crates/core/read-model/task-lists/src/lib.rs:92-104 | replaying a stream goes on from the task a replay of its start left |
| `Retags.Collapse` | crates/core/application/tasks-application/src/tags.rs:191-219 | the last added value of each scalar target kept, the others dropped, and exactly the held tags of another value displaced |
| `Retags.Shape` | crates/core/application/tasks-application/src/change.rs:173-182 | the command a retag sends is the collapsed one, what it displaces removed too |
| `Retags.RetagDecides` | crates/core/application/tasks-application/src/change.rs:171-207 | a shaped retag of a live task is accepted, its tags sorted without repeats, and an event is recorded exactly when the set of tags changes |
| `Retags.RetagMeans` | crates/core/application/tasks-application/src/tags.rs:191-219 | a retag leaves every tag of a scalar target it gives carrying only the last added value, that last tag, which there always is, held unless it is removed too, and every other tag held exactly when it was held or added and not removed |
| `Retags.LastAddedWins` | crates/core/application/tasks-application/src/tags.rs:191-219 | of two tags of a scalar target the one given after every other of it is held afterwards, and the other, given or held before, is not |
| `JsonlLog.ReplayOrder` | crates/core/application/tasks-application/src/import.rs:388-402 | the records in time order, each line once, and how many lines repeated an earlier one |
| `JsonlLog.ByTimeSorts` | crates/core/application/tasks-application/src/import.rs:388-402 | replay order is sorted by time, a permutation of the records, and keeps those of one instant as the log has them |
| `JsonlLog.ReplayedInTime` | crates/core/application/tasks-application/src/import.rs:388-402 | the order is of the instants, to the nanosecond |
| `JsonlLog.OnceIsDistinct` | crates/core/application/tasks-application/src/import.rs:388-402 | repeated lines are dropped, and no line is lost |
| `JsonlLog.OnceIsFirsts` | crates/core/application/tasks-application/src/import.rs:388-402 | of lines alike the first is the one kept, and those kept stand in the log's order |
| `Import.ResumeIsExact` | crates/core/application/tasks-application/src/import.rs:281-366 | an import stopped after any number of records and run again leaves every stream exactly as one uninterrupted run if and only if no record refused for want of a trigger is of a task that by then is live and holds one |
| `Import.SecondRunAppliesNothing` | crates/core/application/tasks-application/src/import.rs:281-366 | a second full import applies nothing under that condition, and under no weaker one |
| `Import.AttemptsReachFurthest` | crates/core/application/tasks-application/src/import.rs:281-366 | any number of attempts, each stopped wherever that condition holds, leaves the store of one run as far as the furthest came |
| `Import.RefusedThenLifted` | crates/core/domain/tasks/src/lib.rs:362-372 | a log of three records that is not imported the same twice: a deferral refused for want of a trigger is taken once a later record gave one |
| `Import.FirstCorresponds` | crates/core/application/tasks-application/src/import.rs:440-602 | over the whole first run the log's fold and the streams agree on which tasks are live, missing and removed, and on every live task's tags |
| `Import.OneCorresponds` | crates/core/application/tasks-application/src/import.rs:481-602 | one record keeps them agreeing, changing its own task alone |
| `LoggedTasks.ImportedMeans` | crates/core/application/tasks-application/src/import.rs:481-602 | over the whole first run, by any number of records: a task has a stream exactly when its add was applied, removed exactly when the log removed it; it has the text of its last applied add or edit, the status and its instant of its last applied add or status record, while Deferred the trigger the log held when it was last deferred on one, the session and the instant of its add, and while live exactly the tags the log leaves it |
| `LoggedTasks.OutcomeMeans` | crates/core/application/tasks-application/src/import.rs:300-366 | and what each record came to, by the log before it: a second add displaced, or repaired; a record of no live task ignored; one of a task whose add was refused lost; an add, an edit and a status applied exactly where their fields stand; a removal always; a tag record exactly when it changes the logged tags |
| `LoggedTasks.FirstReads` | crates/core/application/tasks-application/src/import.rs:437-602 | the fold is the log's reading: what is issued, what is live, the trigger held and the tags of each live task |
| `LoggedTasks.FirstRemovals` | crates/core/application/tasks-application/src/import.rs:549-560 | whatever the first run removes is removed by name, never as by a prune |
| `Import.FirstFinds` | crates/core/application/tasks-application/src/import.rs:308-340 | from when it is reached on, a record's event is on its stream exactly when the record was applied |
| `Import.RefusedAgain` | crates/core/application/tasks-application/src/import.rs:308-366 | sent again to its task's later stream a refused record is refused again, unless it was lifted |
| `Import.OneAgain` | crates/core/application/tasks-application/src/import.rs:281-366 | a record run again changes nothing and leaves the fold as it was then, unless it was lifted: then it is applied at the end of its stream |
| `Import.LoggedParseAlike` | crates/core/application/tasks-application/src/import.rs:621-650 | parsing a record's logged tags, trimmed and each once, gives the tags its add carries |
| `Import.TallyAppliedNone` | crates/core/application/tasks-application/src/import.rs:308-366 | a report counts nothing applied exactly when no record was |
| `Import.TallyCountsEach` | crates/core/application/tasks-application/src/import.rs:308-366 | every record is counted once in the report, except for retags left with no tag to change |
| `Import.TallyMeans` | crates/core/application/tasks-application/src/import.rs:308-366 | each count of a report is the number of records that came out so, and its losses are theirs |
| `Import.SecondReport` | crates/core/application/tasks-application/src/import.rs:281-366 | the second full import's report says nothing was applied exactly when no record was lifted |
| `Import.LogFold.Step` | crates/core/application/tasks-application/src/import.rs:481-602 | the fold updated in place gives the step and the state of the abstract one |
| `Import.Importer.ImportProject` | crates/core/application/tasks-application/src/import.rs:281-366 | the import in place leaves the store, and the counts, of the abstract run up to where it stops |
| `Import.Importer.ImportRecord` | crates/core/application/tasks-application/src/import.rs:300-366 | one record in place: the fold, the store and the outcome of the abstract one |
| `Import.Importer.Send` | crates/core/application/tasks-application/src/import.rs:308-345 | a record's command sent unless its stream holds what it caused: recorded once, at the instant and under the id of its line |
| `KeyedAdds.UnpurgedRunAddsOnce` | crates/core/application/tasks-application/src/add.rs:140-295 | in any interleaving of a key's attempts, each with an add of its own, with each other and with other commands, with crashes anywhere and no purge, its add is one event on one harp, and every attempt that answers answers with that task |
| `KeyedAdds.TurnsAddOnce` | crates/core/application/tasks-application/src/add.rs:140-295 | the same with other tasks purged at any time, when attempts under the key take turns |
| `KeyedAdds.PurgeBetweenAddsTwice` | crates/core/application/tasks-application/src/add.rs:36-48 | two overlapping attempts, whatever they carry, add twice when a task is purged between their probes: neither condition can be dropped |
| `KeyedAdds.AloneMeans` | crates/core/application/tasks-application/src/add.rs:194-295 | one call alone: its own add is answered with whatever became of the task; else it lands on the first harp no task holds, alone on its stream; refused when all eight hold one, or for what it carries |
| `KeyedAdds.RetryAnswers` | crates/core/application/tasks-application/src/add.rs:163-190 | a retry, whatever it carries itself and whatever commands and purges of other tasks came between, answers with the task the first call added and adds nothing |
| `KeyedAdds.FreshAddMeans` | crates/core/application/tasks-application/src/add.rs:236-295 | an add without a key lands on the first drawn harp no task holds, merging into no stream; given up exactly when every drawn harp holds one |
| `KeyedAdds.KeyedAddMakes` | crates/core/application/tasks-application/src/add.rs:236-295 | a keyed call that adds, answers with the task it was asked for: its harp the one landed on, text, status, trigger and session as given and trimmed, its tags those given, made at the instant by one event under the key's command id |
| `KeyedAdds.FreshAddMakes` | crates/core/application/tasks-application/src/add.rs:236-295 | so does a call without a key, on the first free harp drawn and under the id drawn with it |
| `KeyedAdds.TaskAdds.OwnAdd` | crates/core/application/tasks-application/src/add.rs:216-233 | the first of the key's harps that holds its add, read from its stream |
| `KeyedAdds.TaskAdds.AddOnFree` | crates/core/application/tasks-application/src/add.rs:243-295 | the probes made in place, in order, leave the store and the answer of the abstract placing |
| `KeyedAdds.TaskAdds.AddKeyed` | crates/core/application/tasks-application/src/add.rs:163-190 | a keyed call in place is the interleaved machine's attempt run alone |
| `KeyedAdds.TaskAdds.AddFresh` | crates/core/application/tasks-application/src/add.rs:182-190 | an unkeyed call in place is the abstract placing on the drawn harps |
| `KeyedAdds.SeenAnswers` | crates/core/application/tasks-application/src/task.rs:65-99 | an attempt that saw its add on a harp finds its task there: it never answers that the task vanished |
| `KeyedAdds.ProbeEmpty` | crates/core/application/tasks-application/src/add.rs:268-283 | a probe of a harp no task holds adds on it and answers with that task; refused, it changes nothing |
| `Registry.EveryoneAgrees` | crates/adapters/driven/project-registry/src/lib.rs:201-280 | for any number of processes resolving for write in any interleaving, with a crash at any step, all calls that return for a root return one id |
| `Registry.ReturnsBound` | crates/adapters/driven/project-registry/src/lib.rs:201-280 | that id is what the root is bound to, and the one it had if it was bound at the start, by whichever marker or entry |
| `Registry.BoundMeans` | crates/adapters/driven/project-registry/src/lib.rs:201-220 | what a root is bound to is what its marker's text says, trimmed, where there is any: that id, or its refusal; else the older marker's; else the first entry |
| `Registry.ResolvedMeans` | crates/adapters/driven/project-registry/src/lib.rs:227-280 | every case of a call: what it answers with or refuses, and exactly which entry and marker it writes |
| `Registry.DamagedRefused` | crates/adapters/driven/project-registry/src/lib.rs:316-326 | a marker, or an older one without it, that holds a text that is no id is refused by every call whatever it draws, and nothing is written |
| `Registry.DamagedNeverReturns` | crates/adapters/driven/project-registry/src/lib.rs:201-280 | in no run, with any number of processes, does a call return for a root whose marker was damaged at the start |
| `Registry.BlankIsAbsent` | crates/adapters/driven/project-registry/src/lib.rs:316-326 | a blank marker is as good as none to every call |
| `Registry.RootsDiffer` | crates/adapters/driven/project-registry/src/lib.rs:223-254 | distinct roots get distinct ids where one was bound to nothing at the start and the other to nothing, or to an id the registry or a database held |
| `Registry.UnheldMarkerCollides` | crates/adapters/driven/project-registry/src/lib.rs:241-254 | an id only another root's marker holds may be minted again, and exactly then a drawn id equals it |
| `Registry.MarkedOnlyCollides` | crates/adapters/driven/project-registry/src/lib.rs:241-254 | a home with one root marked and nothing else held, and a draw, for which two roots come to share an id |
| `Registry.ResolvedStays` | crates/adapters/driven/project-registry/src/lib.rs:227-280 | what a write resolves is bound, and resolved again by every later call whatever it draws; no other root is affected |
| `Registry.AloneResolves` | crates/adapters/driven/project-registry/src/lib.rs:201-280 | a process no other comes between resolves as the call in one piece does, its draws made one at a time |
| `Registry.MarkerReadsBack` | crates/adapters/driven/project-registry/src/lib.rs:316-330 | a marker written is read back as its id, and no other root's is changed |
| `Registry.IdIsOneSegment` | crates/adapters/driven/project-registry/src/id.rs:6-31 | an id holds no separator, begins with no dot, and has nothing a marker's reading would trim |
| `Registry.IdCharsAre` | crates/adapters/driven/project-registry/src/id.rs:6-24 | the characters an id may hold |
| `Registry.FirstFor` | crates/adapters/driven/project-registry/src/index.rs:63-71 | the first entry whose canonical path is the root is the one found |
| `Registry.Minted` | crates/adapters/driven/project-registry/src/lib.rs:243-254 | the id minted is the first drawn that neither the registry nor a database holds; there is none exactly when each drawn is held |
| `Registry.SaveBinds` | crates/adapters/driven/project-registry/src/index.rs:87-98 | a registered entry binds its own root and no other |
| `Registry.ProjectRegistry.BoundTo` | crates/adapters/driven/project-registry/src/lib.rs:201-220 | the marker, the older marker or the registry, in that order, the older marker adopted in place on a write |
| `Registry.ProjectRegistry.Mint` | crates/adapters/driven/project-registry/src/lib.rs:243-254 | the loop over the draws finds the first id nothing holds |
| `Registry.ProjectRegistry.Bind` | crates/adapters/driven/project-registry/src/lib.rs:227-239 | under the lock: what another process bound, else a new id registered and then marked |
| `Registry.ProjectRegistry.Resolve` | crates/adapters/driven/project-registry/src/lib.rs:262-280 | an unpinned call in place is the abstract resolution |
| `Heal.HealRepairsRoot` | crates/core/application/project-application/src/lib.rs:142-166 | a heal that is made and reports no TwoIds leaves the root with none of TwoIds, MissingMarker, LegacyMarkerOnly or Unregistered if and only if no entry of the marked id whose own path is gone comes to the root |
| `Heal.HealSparesLive` | crates/core/application/project-application/src/lib.rs:277-301 | it drops a live entry of another tree if and only if that names the marked id and comes to the same path as one of its entries whose own path is gone |
| `Heal.HealsConverge` | crates/core/application/project-application/src/lib.rs:142-166 | applied heals reach a plan with no changes: in three always, in two exactly when it is not that an unmarked root is registered as one id with a gone entry that comes to it |
| `Heal.MarkedConverges` | crates/core/application/project-application/src/lib.rs:148-154 | a marked root needs a second heal exactly when a gone entry comes to it, and never a third |
| `Heal.DetouredUnregisters` | crates/core/application/project-application/src/lib.rs:291-299 | a marked root whose one entry is spelled through a directory that is gone: its heal leaves it with no entry |
| `Heal.DetouredDropsLive` | crates/core/application/project-application/src/lib.rs:291-299 | a marked root, and a live tree elsewhere that a gone entry of the same id comes to: its heal drops the live tree's entry |
| `Heal.DetouredNeedsThree` | crates/core/application/project-application/src/lib.rs:148-163 | an unmarked root with one such entry: it has something to heal after two heals, and nothing after three |
| `Heal.HealedMarked` | crates/core/application/project-application/src/lib.rs:142-166 | a heal of a marked root leaves the marker it was marked by, exactly the entries that stay, and every other marker and database as it was |
| `Heal.HealedUnmarked` | crates/core/application/project-application/src/lib.rs:155-163 | a heal of an unmarked root writes the marker of the one id it is registered as, reports two or more as TwoIds, and changes nothing else |
| `Heal.RootProblemsAre` | crates/core/application/project-application/src/lib.rs:328-357 | every inconsistency at the root is reported and no other: two ids that claim it, with all who do; a marked root not registered; a registered one without a marker; and one with the older marker alone |
| `Heal.SurveyMeans` | crates/core/application/project-application/src/lib.rs:142-150 | a survey is taken exactly where each marker there is and the id the environment names are ids, and reads them |
| `Heal.HealReports` | crates/core/application/project-application/src/lib.rs:142-184 | a heal that is not applied, or fails before it is, changes nothing and plans the same; damage is reported exactly where the check finds it |
| `Heal.StaleRefused` | crates/adapters/driven/project-registry/src/admin.rs:69-75 | changes planned from a survey that no longer holds are refused and none is made |
| `Heal.BindingHolds` | crates/core/application/project-application/src/lib.rs:277-301 | a binding plan registers, unregisters and drops exactly what it should, registering first |
| `Heal.IdsAtHolds` | crates/core/application/project-application/src/lib.rs:304-312 | the ids a root is registered as, each once |
| `Heal.ReindexedHolds` | crates/adapters/driven/project-registry/src/admin.rs:76-97 | the registry after changes holds exactly what it held or they register, and they do not unregister |
| `Heal.Projects.Bind` | crates/core/application/project-application/src/lib.rs:277-301 | the changes pushed one after another are the abstract plan |
| `Heal.Projects.Apply` | crates/adapters/driven/project-registry/src/admin.rs:69-113 | refused, changing nothing, when a fresh survey differs or an id is none; else the registry first and then the markers and databases, in order up to the first that fails |
| `Heal.Projects.Heal` | crates/core/application/project-application/src/lib.rs:142-184 | survey, check, plan and apply in place are the abstract heal |
| `Calendar.CivilOfDays` | crates/core/application/tasks-application/src/calendar.rs:42-89 | the days of every valid date, of every year, lead back to it |
| `Calendar.DaysOfCivil` | crates/core/application/tasks-application/src/calendar.rs:42-89 | every day number is a valid date's, whose days it is |
| `Calendar.DaysAreConsecutive` | crates/core/application/tasks-application/src/calendar.rs:40-50 | the calendar's next day is one day on, counted from 1970-01-01 |
| `Calendar.DateSpelledBack` | crates/core/application/tasks-application/src/calendar.rs:11-70 | every text read as a date is spelled back by the instant it is read as, followed by T00:00:00Z |
| `Calendar.ReadDateSpelled` | crates/core/application/tasks-application/src/calendar.rs:11-38 | a text read as a date is the spelling of a valid date, read as its midnight |
| `Calendar.ReadDateReadsSpelling` | crates/core/application/tasks-application/src/calendar.rs:11-38 | every valid date of a four-digit year, so spelled, is read as its midnight |
| `Calendar.SpellingBeginsWithItsDay` | crates/core/application/tasks-application/src/calendar.rs:54-70 | an instant's spelling begins with the date its midnight is read from |
| `Calendar.SpellingTells` | crates/core/application/tasks-application/src/calendar.rs:54-70 | no two instants of four-digit years are spelled alike, their trimmed fractions included |
| `Calendar.SpellingSaysTime` | crates/core/application/tasks-application/src/calendar.rs:54-70 | the spelling gives hours, minutes and seconds by their places, and the fraction of a second in as few digits as tell it |
| `Priority.RankNormalize` | crates/core/read-model/task-priority/src/lib.rs:337-358 | each score's value is MAX times the share of scores no higher than it, found by sorting and grouping, the two zeros being one score |
| `Priority.PercentileIsShare` | crates/core/read-model/task-priority/src/lib.rs:334-358 | that share is the number of positions whose score is no higher, over the number of all |
| `Priority.GroupEnds` | crates/core/read-model/task-priority/src/lib.rs:343-356 | in sorted order the scores no higher than one are those up to the end of its group |
| `Priority.PercentilesOrder` | crates/core/read-model/task-priority/src/lib.rs:334-358 | the values order the scores exactly as their numbers do, ties sharing one |
| `Priority.PercentilesSpan` | crates/core/read-model/task-priority/src/lib.rs:334-358 | every value is above 0 and at most MAX, and is MAX exactly for the highest scores |
| `Priority.TagValues` | crates/core/read-model/task-priority/src/lib.rs:315-332 | the loop over the tags builds the abstract map |
| `Priority.TagValuesMean` | crates/core/read-model/task-priority/src/lib.rs:303-332 | a target reads the last value it carries as a number, a keyed read is 1 exactly where a tag says so, and nothing else is set |
| `Priority.Rank` | crates/core/read-model/task-priority/src/lib.rs:156-212 | refused at the first task that cannot be scored; else each score, priority and override, in the candidates' order, and every diagnostic: each target a formula reads once, with its carriers, worst covered first and then by target |
| `Priority.UndeclaredTies` | crates/core/read-model/task-priority/src/lib.rs:230-232 | where no formula for the priority is declared, a ranking of more than one live task is tied |
| `Priority.CountsMean` | crates/core/read-model/task-priority/src/lib.rs:156-212 | the diagnostics count live tasks: all of them, those carrying a target a formula reads, and those carrying each target |
| `Priority.TiedMeans` | crates/core/read-model/task-priority/src/lib.rs:205-208 | a ranking is tied exactly when more than one task is live and every live one has the same raw score |
| `Priority.RankMeans` | crates/core/read-model/task-priority/src/lib.rs:156-212 | a task's priority is 0 exactly when it is terminal; live ones lie in (0, MAX], an exploited one at MAX, the others in the order of their raw scores |
| `Durations.Duration` | crates/core/application/tasks-application/src/prune.rs:594-656 | the reader, in checked 128-bit steps, accepts exactly sequences of components an int64 of nanoseconds can hold, and gives their sum with its sign: an overflow of a sum or a product is refused, never wrapped |
| `Durations.ReadFraction` | crates/core/application/tasks-application/src/prune.rs:640-645 | the fraction's digits, summed without a check, never come to more than the unit, so that sum does not overflow |
| `Durations.OffsetFits` | crates/core/application/tasks-application/src/prune.rs:579-590 | a count of days or weeks, and every product on the way to its nanoseconds, is within 128 bits |
| `Durations.CutFits` | crates/core/application/tasks-application/src/prune.rs:559-570 | so is what is subtracted from any instant, and the difference |
| `Durations.Add` | crates/core/application/tasks-application/src/prune.rs:620-652 | no intermediate overflow is refused that the total would not be |
| `Durations.ComponentWithin` | crates/core/application/tasks-application/src/prune.rs:636-648 | a component is never above its exact value, and below it by less than 9 ns for hours, 6 ns for minutes and 1 ns for smaller units, however many fraction digits |
| `Durations.DurationReads` | crates/core/application/tasks-application/src/prune.rs:594-656 | components spelled one after another, signed or not, are read as their sum, or refused past an int64 |
| `Durations.ComponentsReadBack` | crates/core/application/tasks-application/src/prune.rs:607-654 | components spelled are read as themselves |
| `Durations.ComponentsSpell` | crates/core/application/tasks-application/src/prune.rs:607-654 | a text read as components is exactly their spelling |
| `Durations.UnitsAre` | crates/core/application/tasks-application/src/prune.rs:624-633 | the units are these eight and no other, each so many of the next smaller |
| `Durations.WholeReads` | crates/core/application/tasks-application/src/prune.rs:594-656 | a whole number of a unit is read as that many of it, or refused past an int64 |
| `Durations.DaysAndWeeks` | crates/core/application/tasks-application/src/prune.rs:579-590 | a count of days is read as that many times 24 hours, and of weeks as that many times 7 days |
| `Durations.CutRefused` | crates/core/application/tasks-application/src/prune.rs:554-574 | an age is refused exactly when it is blank, a span no longer than none, or neither a span nor a date |
| `Durations.CutIsAge` | crates/core/application/tasks-application/src/prune.rs:554-574 | an instant comes before an offset's cut exactly when it is older than the offset |
| `Durations.CutIsMidnight` | crates/core/application/tasks-application/src/prune.rs:554-574 | a date's cut is its midnight, whenever it is read: no offset reads a date |
| `Prunes.Pruner.Prune` | crates/core/application/tasks-application/src/prune.rs:220-293 | applied or not, a prune of a store reports one forecast: what it takes, the events deleted, the tasks remaining and what still names them; applied, the store loses exactly the streams taken, and else nothing |
| `Prunes.ForecastIsTheStores` | crates/core/application/tasks-application/src/prune.rs:220-293 | the forecast is the store's own, however its lists were read: a prune without apply predicts the one applied next |
| `Prunes.PruneLeaves` | crates/core/application/tasks-application/src/prune.rs:220-312 | an applied prune leaves no stream unpurged and exactly the live tasks it did not select, each stream as it was, and counts those as remaining |
| `Prunes.SelectedAre` | crates/core/application/tasks-application/src/prune.rs:446-466 | what is selected is exactly the live tasks that qualify and those left unpurged, each once, in the order added |
| `Prunes.QualifiesMeans` | crates/core/application/tasks-application/src/prune.rs:468-475 | read off its stream, a task qualifies exactly when it is not removed, its tags match, and the status its last add or status change gave is one asked for and was given before the cut |
| `Prunes.PruneTakes` | crates/core/application/tasks-application/src/prune.rs:220-293 | what a prune takes of a store is exactly each stream that qualifies so and each that ends in a prune's removal, in the order of the adds' instants and then of harps |
| `Prunes.CostBalances` | crates/core/application/tasks-application/src/prune.rs:340-431 | the events there were and the removals recorded are those left and those counted as deleted |
| `Prunes.TakenSpares` | crates/core/application/tasks-application/src/prune.rs:340-431 | whatever became of the store since a task was selected, taking it purges its own stream or nothing, and only where that now holds a task that qualifies, or a removed one |
| `Prunes.ReadListsAreShown` | crates/core/application/tasks-application/src/prune.rs:314-323 | what is read of a caught-up task list is what the store shows |
| `Prunes.OrderIsUnique` | crates/core/application/tasks-application/src/prune.rs:316-332 | tasks in the order added are one sequence, whatever order they were read in |
| `Prunes.DanglingMeans` | crates/core/application/tasks-application/src/prune.rs:516-539 | what is reported is exactly every tag, text or trigger of a task left in which a pruned harp stands as a whole word |
| `Prunes.WordsAreRuns` | crates/core/application/tasks-application/src/prune.rs:544-547 | a word is found exactly where it stands whole, never inside a longer one |
| `Prunes.HarpCharsAre` | crates/core/application/tasks-application/src/prune.rs:541-547 | the characters a word is made of |
| `Prunes.StatusesAsked` | crates/core/application/tasks-application/src/prune.rs:492-507 | the statuses asked for, trimmed, at least one, none blank and none a status class |
| `Prunes.Pruner.Take` | crates/core/application/tasks-application/src/prune.rs:340-384 | one task taken in place is the abstract taking |
| `Prunes.Pruner.Select` | crates/core/application/tasks-application/src/prune.rs:446-466 | the filtering and the stable sort give the abstract selection |
| `Prunes.FindDangling` | crates/core/application/tasks-application/src/prune.rs:516-539 | the loops over tasks, tags and words give the abstract report |
| `PlanFiles.NewPlanReadsBack` | crates/core/application/plans-application/src/rules.rs:93-182 | for every title and session without a line feed, the text of a new plan is read back as exactly that title and that session, none when empty |
| `PlanFiles.YamlScalarReadsBack` | crates/core/application/plans-application/src/rules.rs:134-171 | whatever a value holds, its scalar is read back as it, quotes, escapes and spaces included |
| `PlanFiles.NewPlanTitled` | crates/core/application/plans-application/src/rules.rs:184-197 | a new plan has the title it was added with, unless that is blank |
| `PlanFiles.TitleMeans` | crates/core/application/plans-application/src/rules.rs:184-197 | a text's title is its frontmatter's, or where that is blank its first heading's, or where that is blank or there is none the name |
| `PlanFiles.ReadFrontmatter` | crates/core/application/plans-application/src/rules.rs:93-132 | the loop over the lines gives what they say up to the closing one, and nothing when none closes |
| `PlanFiles.Scalar` | crates/core/application/plans-application/src/rules.rs:136-156 | the reading of quotes and escapes gives the abstract scalar |
| `PlanFiles.SingleQuotedReads` | crates/core/application/plans-application/src/rules.rs:136-156 | any value in single quotes, those in it doubled, is read as it |
| `PlanFiles.BlockReads` | crates/core/application/plans-application/src/rules.rs:93-132 | a block list of any sessions adds exactly them, in order |
| `PlanFiles.FlowReadsBack` | crates/core/application/plans-application/src/rules.rs:93-132 | a flow list of values without commas, none empty, is read as exactly them |
| `PlanFiles.UnclosedSaysNothing` | crates/core/application/plans-application/src/rules.rs:93-132 | frontmatter that is never closed says nothing |
| `PlanPaths.InsideStays` | crates/core/application/plans-application/src/rules.rs:34-68 | a path located inside the work root names something at each step, never going back or out of it, and located again is itself |
| `PlanPaths.ResolvedStays` | crates/core/application/plans-application/src/rules.rs:12-24 | a path recorded of a plan is a plan's file inside the work root, and resolves to itself |
| `PlanPaths.LocateMeans` | crates/core/application/plans-application/src/rules.rs:34-52 | a path is inside the work root exactly when its parts begin with all of the root's and go on, and is then the rest of them; else it is outside, as the absolute path it comes to |
| `PlanPaths.ResolveMeans` | crates/core/application/plans-application/src/rules.rs:12-24 | what a plan's path is recorded as, and which refusal it meets, by the parts it comes to |
| `PlanPaths.NormalizedMeans` | crates/core/application/plans-application/src/rules.rs:54-68 | a doubled slash is one, a dot is nothing, a name and a step back is nothing, a step back at the root is nothing, and names alone stay |
| `PlanPaths.NormalizedAgain` | crates/core/application/plans-application/src/rules.rs:54-68 | normalizing a normalized path changes nothing |
| `PlanPaths.Normalized` | crates/core/application/plans-application/src/rules.rs:54-68 | the loop over the components gives the abstract walk |

## Left out

- Command lines, rendering, JSON shapes, error catalogs, configuration files and locks' waiting times: presentation and plumbing.
- SQLite, the file system, clocks and the kernel's retries: only their contracts (an atomic append at a head, a duplicate by command id, one lock holder, a save by rename).
- tagma's grammar and its query engine, the rule findings an add or a retag is judged by, expr-lang and YAML in general: a tag is its spelling with a target and a value, a query a predicate on one task's tags, a formula a function that scores or fails.
- SHA-256, UUIDv5 and FNV-1a: uninterpreted, taken as injective.
- Link and unlink calls that overlap each other, beyond the counterexamples.
- Events written before 2026-11-01, which carry their own instants.
- `repoint`, `remove_orphans` and `show` of a project, pinned calls to the registry, and the search for a work root: they add cases and no harder property.
- Heal.Projects.Heal: the survey's list of problems is modelled for the root alone; gone entries and orphaned databases are listed by filters not modelled.
- Prunes.Pruner.Prune: runs without another writer between its steps; `Prunes.TakenSpares` says what a task taken from a changed store comes to, the removal and the purge being one step there.
- Prunes.StatusesAsked: the error of a status class carries the trimmed status; the tag query's own refusals are not modelled.
- Priority.Rank: what a formula is, its age and its decay are the function it is given.
- Import.Importer.ImportProject: the reader of the log file, and a store failing between records, are the `stop` it is given.
- Import.TallyCountsEach: counts records, not the tags left out of them, which the report lists as lost beside them; a refused add of a harp that is taken is its refusal here, not a reason of its own.
- KeyedAdds.AloneMeans: the binding of the project and the judging of the tags, both before the first probe, are not modelled.
- Supersede.Changing.Link: `governs` links, one write each, and the check that a task exists are plan commands like any other here.
- Windows paths and names, and Windows' comparison of paths.
