# Verified models of the terminal backend

This project models the stateful engines of the Go backend and proves what they keep over whole runs.
There is one module per engine.  `dafny verify dfyconfig.toml` checks everything.

- **Watcher** (`Watcher.dfy`, with `WatcherHistory.dfy`): a poller claims tasks into a bounded queue, workers drain it, and shutdowns
  decide from two separately locked maps that nothing is in flight.  One atomic step per lock section,
  channel operation, atomic flag or report; any number of workers and shutdown calls.  WatcherHistory traces
  each report back to the steps that caused it.
- **PathWalk** (`PathWalk.dfy`): the workspace path walk, proved against full symbolic-link
  canonicalisation on every file system with links.
- **BatchRename** (`BatchRename.dfy`, with `RenameModel.dfy` and `RenameNesting.dfy`): the staged two-phase
  rename with rollback, proved to be a simultaneous rename, swaps and cycles included, for exactly the
  batches for which it is one.
- **PluginCatalog** (`PluginCatalog.dfy`): install, enable, disable, update, delete and start-up sync over
  install roots, tool registry and catalog, with a failure possible at every step.
- **McpRefCount** (`McpRefCount.dfy`) and **McpRuntime** (`McpRuntime.dfy`): the reference count of MCP
  processes at lock granularity, and the server lifecycle at operation granularity.
- **Conversation** (`Conversation.dfy`) and **History** (`History.dfy`): the in-memory copy of the active
  conversation against the database while replies are streamed, and the pruning of the history.
- **Normalizer** (`Normalizer.dfy`): bounded rewriting of JSON trees with a truncation flag.
- **Policy** (`Policy.dfy`): the five-stage evaluator and the merge of policy overlays.
- **SshConfig** (`SshConfig.dfy`): expansion of includes and first-value-wins resolution.
- **Text** (`Text.dfy`): white-space trimming.  **Common** (`Common.dfy`): what several modules share.

Code that changes things step by step is modelled by classes and methods with loops; the concurrent
engines are state machines over their atomic steps.  Failing calls into the operating system, the
database and other processes are nondeterministic results.  Names, ids and paths that the code only
compares are numbers.

## Where a promise needs a condition

These are results about the code as it is: what fails, and exactly when it does not.

- The shutdown endpoint does not wait for the poller (cmd/rterm-core/main.go:319-320), and a poller past
  its stop check holds a task that the count does not see.  The graceful path can then close the queue on
  queued or running work: `Watcher.CloseOnQueuedTask` is a run that does.  What matters is the moment
  when pending is read: the zero count can mislead if and only if the poller is past its check then
  (`Watcher.MisledExactlyWhenPastCheck`), wherever it is later.
- A send on the closed queue panics if and only if the poller is past its check when the queue is closed
  (`Watcher.PanicExactlyWhenPastCheck`); `Watcher.ZeroCountWithTaskInHand` is a run that gets there.
- A batch rename is realised if and only if it is movable: no source is the root of the file system and no
  source or target of a moving entry is a proper ancestor of another moving entry's source
  (`BatchRename.RenamedExactlyWhenMovable`, and `BatchRename.RenameFS` for calls).  Other batches stop with
  an error or lose an entry; `BatchRename.NestedOverwriteLoses` is one that reports success and loses one.
  "Only if" is stated for trees whose contents are distinct: with equal contents what is lost may not show.
- Deleting a conversation leaves its messages in the database.  The schema declares ON DELETE CASCADE
  (core/db/migrations/0005_conversations.sql:21), but no connection enables foreign keys
  (core/db/open.go:17-33), and the model follows the code.  Every message belongs to a conversation after
  a delete if and only if it did before and the conversation had none
  (`Conversation.Service.DeleteConversation`); no other operation changes this.  A stream into a deleted
  conversation goes on storing its deltas and cannot be ended (`Conversation.Service.FinalizeStream`).
- A stream delta changes memory before its transaction commits.  Memory and database disagree if and only
  if a transaction failed after it began, for the active conversation
  (`Conversation.Service.AppendDelta`), until the text is saved by the next delta or the end of the stream
  or dropped by a reload; the contract of every operation says which.
- Disabling or deleting a plugin takes its tool names from the registry whoever owns them
  (core/app/plugin_catalog_runtime.go:1045-1049).  `PluginCatalog.InvExactlyWhenSafe` gives the
  condition: the plugin is enabled or nobody has its names.  Names that no two plugins share are enough
  (`PluginCatalog.DisjointRunKeepsInv`); `PluginCatalog.SharedNameIsLost` is a run that breaks it.
- Overlapping starts of an MCP server can leave a process that nobody can stop
  (`McpRefCount.ConcurrentStartsLoseOne`).  `McpRefCount.LosesExactlyWhenOverlapping` says from which
  states the calls in progress can do that, and `McpRefCount.SerialRunLosesNothing` which discipline of
  the callers excludes it.
- The four fixed notes of the normaliser are not cut, so strings are within their limit and three bytes
  exactly when the limit is at least 24 (`Normalizer.StringBoundExactlyWhen`).
- An approval tier outside the four declared ones escalates straight to destructive, so that an overlay
  with a minimum tier can loosen a decision: `Policy.LoosensExactlyWhenUndeclared`.
- An allowed root admits everything below it if and only if it is not "/"
  (`Policy.AdmitsBelowExactlyWhenNotSlash`); "/" admits only itself.

## Assumptions

- Generated ids and names are new: claimed task ids, conversation and message ids, temporary file names.
- A method of the conversation service is one section under the service's mutex, so that any sequence of
  calls is an interleaving of users and streams.  Deltas and the end of a stream come from the call that
  began it.
- The tree of a batch rename contains the ancestors of what it contains and no symbolic links, so that a
  path in the workspace resolves to itself.
- The stored plugin catalog holds records as validated manifests give them: an install root named by the
  id, and distinct, non-empty tool names.
- An MCP invocation ends once, after it has begun.
- The paths that SSH config files mention are finitely many.

## Model

| member | source | states |
|---|---|---|
| `Watcher.PollerKeepsInv` | cmd/rterm-core/main.go:386-474 | Every poller step keeps the invariant: each claimed task is in the poller's hand, queued, with a worker or reported by its owner, exactly once, and pending holds exactly the tasks handed over but not started |
| `Watcher.WorkerKeepsInv` | cmd/rterm-core/main.go:487-527 | Every worker step keeps it; a task enters running before it leaves pending |
| `Watcher.ShutdownKeepsInv` | cmd/rterm-core/main.go:529-564 | Every step of every shutdown call keeps it, and a pending count of zero read with polling stopped stays true |
| `Watcher.RunKeepsInv` | cmd/rterm-core/main.go:386-564 | The invariant holds after every interleaving of poller, workers and shutdowns |
| `Watcher.EmptyMapsMeanIdle` | cmd/rterm-core/main.go:494-527 | Before an abort, empty maps mean an empty queue and no handler running |
| `Watcher.ZeroCountMeansIdle` | cmd/rterm-core/main.go:566-576 | With the poller not past its check when pending is read, a zero sum of the two separately locked counts means, when the second is read, that the queue is empty and no handler runs |
| `Watcher.GracefulCloseFindsNothing` | cmd/rterm-core/main.go:529-541 | After such a count the graceful path closes the queue only when no queued or running work remains |
| `Watcher.MisledExactlyWhenPastCheck` | cmd/rterm-core/main.go:529-576 | After pending was read empty, some run up to that shutdown's next step makes it close the queue on queued or running work, without an abort, if and only if the poller was past its check when pending was read |
| `Watcher.CloseOnQueuedTask` | cmd/rterm-core/main.go:455-541 | A reachable state in which the graceful path closes the queue on a queued task, with the poller not past its check |
| `Watcher.PanicExactlyWhenPastCheck` | cmd/rterm-core/main.go:319-320 | With the queue closed, a run can panic on the send if and only if the poller is past its stop check |
| `Watcher.ZeroCountWithTaskInHand` | cmd/rterm-core/main.go:455-474 | A reachable state with a zero count, a closed queue and a task in the poller's hand |
| `Watcher.OneOwnerReport` | cmd/rterm-core/main.go:455-527 | A claimed task that the poller, the queue and the workers no longer hold has exactly one report from its owner; which one is the subject of WatcherHistory |
| `Watcher.EndOfRun` | cmd/rterm-core/main.go:386-527 | With the poller stopped and all workers gone, every claimed task has one report from its owner and at most one more per timed-out shutdown |
| `Watcher.ReportsBounded` | cmd/rterm-core/main.go:543-557 | A task has at most one report more than there are timed-out shutdowns, and only its owner's if there is none |
| `Watcher.InFlightBounded` | cmd/rterm-core/main.go:416-430 | Before an abort at most 5N+1 distinct tasks are in flight with N workers |
| `Watcher.ClosedQueueDrains` | cmd/rterm-core/main.go:483-492 | Once the queue is closed only a bounded number of worker steps remain, after which all workers have exited |
| `WatcherHistory.RunHasTrace` | cmd/rterm-core/main.go:386-558 | What is proved of traces, the states of a run beside its actions, holds of every run from a fresh start |
| `WatcherHistory.DoneExactlyWhenHandled` | cmd/rterm-core/main.go:520-526 | In every run a task is reported done by its owner if and only if its handler returned without an error to a worker that has taken its next step |
| `WatcherHistory.HandledExactlyWhen` | cmd/rterm-core/main.go:494-512 | A worker runs the handler of a task if and only if the task's kind has one and the abort flag was unset when the worker loaded it |
| `WatcherHistory.FailedExactlyWhen` | cmd/rterm-core/main.go:455-526 | A task is reported failed by its owner if and only if its handler returned an error, its worker saw the abort flag or has no handler, or the poller saw the stop flag or found four queued tasks per worker |
| `WatcherHistory.OneClaimAfterStop` | cmd/rterm-core/main.go:386-474 | After the stop flag is stored at most one batch is claimed, by a claim that was in flight |
| `WatcherHistory.QueueInOrder` | cmd/rterm-core/main.go:460-492 | Workers get the tasks in the order in which the queue accepted them, each once |
| `WatcherHistory.CountDecides` | cmd/rterm-core/main.go:531-541 | A shutdown closes the queue if pending was empty at its first and running at its second read, and tries again otherwise |
| `WatcherHistory.AbortExactlyWhenExpired` | cmd/rterm-core/main.go:531-545 | Tasks are aborted if and only if a shutdown found its deadline passed after counting work |
| `WatcherHistory.GivingUpFailsSnapshot` | cmd/rterm-core/main.go:543-557 | A shutdown that gave up has reported failed exactly the tasks that pending and running held when it read them |
| `WatcherHistory.GracefulFailsNothing` | cmd/rterm-core/main.go:529-536 | A shutdown that did not give up has reported nothing |
| `WatcherHistory.ReturnedClosed` | cmd/rterm-core/main.go:529-558 | A shutdown that has returned has stopped the polling and closed the queue |
| `PathWalk.MoreLinks` | core/app/fs_navigation.go:270-300 | A larger bound on links changes nothing but a failure, so canonical forms are unique |
| `PathWalk.EvalAppend` | core/app/fs_navigation.go:228-305 | Resolving a path in two parts is resolving it at once |
| `PathWalk.EvalSplit` | core/app/fs_navigation.go:228-305 | A resolvable path resolves from wherever its directory prefix leads |
| `PathWalk.CanonIsFixed` | core/app/fs_navigation.go:228-305 | A canonical path is its own canonical form and exists |
| `PathWalk.LocatesUnique` | core/app/fs_navigation.go:228-305 | A path, existing or with a missing tail, denotes one place |
| `PathWalk.SamePlaceCanon` | core/app/fs_navigation.go:228-305 | For an existing target the returned path has the same canonical form, inside the root |
| `PathWalk.WalkAtUnique` | core/app/fs_navigation.go:228-305 | The target and the links on the way determine the one state in which a walk reaches a component |
| `PathWalk.ResolveWithin` | core/app/fs_navigation.go:228-305 | A returned path denotes the target's place, inside the canonical root also for a missing tail, and no prefix resolves outside; it is the target as requested if no component is a link and the place itself otherwise. Outside is reported only when true, not found only for a link that leads nowhere, not a directory only below a file, other errors only when an lstat or a link resolution fails at a component that the walk reaches |
| `PathWalk.PlaceIsAnswered` | core/app/fs_navigation.go:228-305 | A target that exists, or is missing below a directory that does, is answered with a path unless it passes outside, a call fails or a link leads nowhere |
| `PathWalk.ResolveEntry` | core/app/fs_navigation.go:307-400 | A returned path names the same entry of the same directory, which lies inside the canonical root, spelled as requested if no component before it is a link; the last component is not followed; errors as for ResolveWithin, and not found also for a missing entry |
| `PathWalk.EntryIsAnswered` | core/app/fs_navigation.go:307-400 | The same for an entry of a directory |
| `PathWalk.ResolveInRoot` | core/app/fs_navigation.go:194-226 | However a request is spelled, the answer, place or refusal, is right about the cleaned request |
| `PathWalk.CleanNames` | core/app/fs_navigation.go:194-226 | Cleaning a path without dots appends its names |
| `PathWalk.CleanIsEval` | core/app/fs_navigation.go:194-226 | Cleaning finds what a path with dots denotes when no link is in the way |
| `PathWalk.RequestMeans` | core/app/fs_navigation.go:206-218 | A relative request starts at the workspace root, an absolute one at the file system's, a blank one is the workspace root |
| `BatchRename.MakePlan` | core/app/fs_mutation.go:189-231 | Planning accepts exactly the non-empty batches of existing, distinct sources with valid, distinct targets, all in the workspace; an error is that of the first request that is not acceptable |
| `BatchRename.PlanFailsExactly` | core/app/fs_mutation.go:189-231 | A batch is acceptable if and only if none of the errors can be given for it |
| `BatchRename.CheckTargets` | core/app/fs_mutation.go:233-244 | Succeeds if and only if every existing target of a moving entry may be overwritten or is itself a source |
| `BatchRename.TargetsFreeExactly` | core/app/fs_mutation.go:233-244 | Without overwriting a plan is refused if and only if some target exists and is not itself a source |
| `BatchRename.FileSystem.Move` | core/app/fs_mutation.go:538-550 | A rename moves the whole subtree or changes nothing; it needs the source, the directory of the target and neither path inside the other, and fails for no other reason when calls of its kind, forward or back, are sure |
| `BatchRename.FileSystem.Remove` | core/app/fs_mutation.go:464-472 | Removing a subtree changes nothing outside it |
| `BatchRename.Rollback` | core/app/fs_mutation.go:285-296 | For every batch, the tree is exactly the initial one unless a move back fails; for a movable one every entry is whole in any case |
| `BatchRename.Stage` | core/app/fs_mutation.go:246-264 | Staging makes exactly the moves to temporary names, or rolls back, to the initial tree unless a move back fails; on a reliable file system a movable batch is always staged |
| `BatchRename.CommitOne` | core/app/fs_mutation.go:266-275 | One commit is the removal, when overwriting, and the move; a failure changes nothing but that target |
| `BatchRename.Commit` | core/app/fs_mutation.go:266-275 | Makes exactly the commits in order; a failure on a movable batch loses nothing but the target it stopped at |
| `BatchRename.RenameFS` | core/app/fs_mutation.go:189-283 | A refused batch leaves the tree untouched, and for every batch a failed staging restores it unless a move back fails; success returns the targets; on a reliable file system every accepted movable batch succeeds, and for distinct contents success with the simultaneous rename happens if and only if the batch is movable |
| `BatchRename.RenamedExactlyWhenMovable` | core/app/fs_mutation.go:246-275 | A complete run of an accepted batch ends in the simultaneous rename if no source is the root and no source or target is a proper ancestor of another source, and, on a tree with distinct contents, only if so |
| `RenameNesting.NestedSourcesStop` | core/app/fs_mutation.go:246-275 | A source above another source never lets the run complete |
| `RenameNesting.EarlierTargetStops` | core/app/fs_mutation.go:266-275 | A target above the source of a later entry never lets the run complete |
| `RenameNesting.LaterTargetLoses` | core/app/fs_mutation.go:266-275 | A target above the source of an earlier entry loses that entry though the run completes |
| `RenameModel.RenameConserves` | core/app/fs_mutation.go:189-283 | A rename is one-to-one between what it keeps and the new tree, and only overwritten targets are lost |
| `RenameModel.InverseUndoes` | core/app/fs_mutation.go:189-283 | Without overwriting, the inverse rename restores the tree, for swaps and cycles too |
| `BatchRename.NestedAccepted` | core/app/fs_mutation.go:203-244 | The batch d/x -> d/y, a -> d is accepted with overwrite |
| `BatchRename.NestedOverwriteLoses` | core/app/fs_mutation.go:246-275 | Every step of its run succeeds and the content of d/x is nowhere afterwards |
| `PluginCatalog.Runtime.Create` | core/app/plugin_catalog_store.go:159-193 | Adds a record for a new id after saving, or changes nothing; fails for a new id only when the saving fails |
| `PluginCatalog.Runtime.Replace` | core/app/plugin_catalog_store.go:195-230 | Replaces an existing record after saving, or changes nothing; fails for an existing id only when the saving fails |
| `PluginCatalog.Runtime.Erase` | core/app/plugin_catalog_store.go:232-254 | Removes an existing record after saving, or changes nothing; fails for an existing id only when the saving fails |
| `PluginCatalog.Runtime.Register` | core/app/plugin_catalog_runtime.go:1024-1043 | Registers all tools or none; succeeds if and only if no name is taken |
| `PluginCatalog.Runtime.Unregister` | core/app/plugin_catalog_runtime.go:1045-1049 | Removes the record's names from the registry, whoever owns them |
| `PluginCatalog.Runtime.SwapRoot` | core/app/plugin_catalog_runtime.go:904-938 | Puts the staged root in place and keeps the old one aside; on failure the old one is in place unless the move back fails |
| `PluginCatalog.Runtime.RestoreRoot` | core/app/plugin_catalog_runtime.go:940-953 | Puts back the root that was aside, or none; always does when no call that puts a root back fails |
| `PluginCatalog.Runtime.StageRemoval` | core/app/plugin_catalog_runtime.go:955-978 | Moves an install root aside, or changes nothing; always moves it when no call fails |
| `PluginCatalog.Runtime.RestoreStaged` | core/app/plugin_catalog_runtime.go:980-992 | Puts it back, always when no call that puts a root back fails; the existence check never refuses |
| `PluginCatalog.Runtime.InstallPlugin` | core/app/plugin_catalog_runtime.go:96-152 | A step of the model: all three stores as specified on success, field by field, catalog and registry unchanged on failure; when no call fails it succeeds if and only if the operation is acceptable |
| `PluginCatalog.Runtime.SetPluginEnabled` | core/app/plugin_catalog_runtime.go:154-213 | The same for enable and disable, with the registry a failure leaves |
| `PluginCatalog.Runtime.UpdateInstalledPlugin` | core/app/plugin_catalog_runtime.go:215-298 | The same for update; a failure puts tools and record back, and the root unless a call that puts it back fails |
| `PluginCatalog.Runtime.DeleteInstalledPlugin` | core/app/plugin_catalog_runtime.go:300-348 | The same for delete; a failure puts tools back, and the root unless a call that puts it back fails |
| `PluginCatalog.Runtime.SyncInstalledPlugins` | core/app/plugin_catalog_runtime.go:350-376 | Computes the start-up fold over the snapshot, always when no call fails; when saving fails at one record the earlier ones are done |
| `PluginCatalog.DoneAchieves` | core/app/plugin_catalog_runtime.go:96-348 | What success means, field by field: version, tools, enabled flag, status and root of the one record that changes, and the names that the registry gains and loses; an update takes version and tools from the manifest and keeps the enabled flag |
| `PluginCatalog.RunKeepsStatus` | core/app/plugin_catalog_runtime.go:96-348 | In every run, whatever fails, a plugin is ready exactly when it is enabled |
| `PluginCatalog.FailedStepChangesNothing` | core/app/plugin_catalog_runtime.go:96-348 | A failed safe operation leaves every record and every registered tool as before, and every install root unless a call that puts a root back fails |
| `PluginCatalog.StepKeepsInv` | core/app/plugin_catalog_runtime.go:96-348 | Every safe operation, done or failed, keeps registered tools equal to the enabled records' tools at their versions |
| `PluginCatalog.InvExactlyWhenSafe` | core/app/plugin_catalog_runtime.go:1045-1049 | An operation, done or failed, keeps the invariant if and only if it does not disable or delete a disabled record whose names are registered |
| `PluginCatalog.RunKeepsInv` | core/app/plugin_catalog_runtime.go:96-348 | Every run of safe operations with failures anywhere keeps the invariant |
| `PluginCatalog.DisjointRunKeepsInv` | core/app/plugin_catalog_runtime.go:96-348 | Plugins with names of their own can be operated in any order |
| `PluginCatalog.DisjointIsAccepted` | core/app/plugin_catalog_runtime.go:96-348 | With names of their own, plugins can always be disabled and deleted, enabled unless they are, updated unless something else stands at their root, and installed unless the id is taken |
| `PluginCatalog.SharedNameIsLost` | core/app/plugin_catalog_runtime.go:1045-1049 | A run of four successful operations, install, disable, install another with the same tool, delete the first, after which the enabled plugin has lost its tool |
| `PluginCatalog.SyncEstablishesInv` | core/app/plugin_catalog_runtime.go:350-376 | A start without error establishes the invariant for any stored catalog |
| `PluginCatalog.SyncKeepsEnabled` | core/app/plugin_catalog_runtime.go:350-376 | A plugin stays enabled, and is ready, exactly when its names are neither the program's nor those of an earlier plugin that stays enabled; one that does not is marked failed, and nothing else of a record changes |
| `McpRefCount.NextInv` | core/plugins/mcp_runtime_control.go:155-248 | Every locked section keeps: each object counts its holders and is in the table, removed or orphaned, exactly one of them |
| `McpRefCount.RunKeepsInv` | core/plugins/mcp_runtime_control.go:128-416 | So does every interleaving of any number of calls |
| `McpRefCount.CounterCountsHolders` | core/plugins/mcp_runtime_control.go:393-416 | inUse is the number of calls holding the object, and the guard in release never skips |
| `McpRefCount.KilledUnheld` | core/plugins/mcp_runtime_control.go:207-248 | Stop kills only a process that no call holds |
| `McpRefCount.StopRemovesExactlyWhenUnheld` | core/plugins/mcp_runtime_control.go:207-235 | A Stop takes the process out of the table if and only if no call holds it, and then kills it |
| `McpRefCount.RemovedIsKilled` | core/plugins/mcp_runtime_control.go:222-248 | What a Stop took out is killed, or its call is about to kill it |
| `McpRefCount.OnDemandInvocationHolds` | core/plugins/mcp_runtime_control.go:288-325 | An invocation that may start its server comes to hold a process of it; one that may not returns without |
| `McpRefCount.RemovedForGood` | core/plugins/mcp_runtime_control.go:207-248 | A process taken out by Stop is never in the table or held again |
| `McpRefCount.EveryProcessAccounted` | core/plugins/mcp_runtime_control.go:193-220 | Every started process is in the table, was removed by a Stop or was replaced by a Start |
| `McpRefCount.LosesExactlyWhenOverlapping` | core/plugins/mcp_runtime_control.go:155-220 | The calls in progress can lose a process if and only if one is spawning for a server that has one or two can still both spawn for one server, a Stop in progress included |
| `McpRefCount.SerialRunLosesNothing` | core/plugins/mcp_runtime_control.go:128-325 | If no call that may start a server is made while another is starting it, every started process stays in the table until a Stop removes it |
| `McpRefCount.ConcurrentStartsLoseOne` | core/plugins/mcp_runtime_control.go:155-199 | Two concurrent starts of a server do so |
| `McpRuntime.MCPRuntime.RegisterServer` | core/plugins/mcp_registry.go:74-93 | A new server is off and enabled |
| `McpRuntime.MCPRuntime.SetState` | core/plugins/mcp_registry.go:224-234 | Changes one entry's state or reports that there is none |
| `McpRuntime.MCPRuntime.SetActive` | core/plugins/mcp_registry.go:236-246 | Changes one entry's active flag or reports that there is none |
| `McpRuntime.MCPRuntime.Touch` | core/plugins/mcp_registry.go:248-258 | Changes one entry's last use or reports that there is none |
| `McpRuntime.MCPRuntime.WriteEnabled` | core/plugins/mcp_runtime_control.go:261-267 | Changes the enabled flag of a server, which is off when it is disabled |
| `McpRuntime.MCPRuntime.StartServer` | core/plugins/mcp_runtime_control.go:128-205 | Refines start of a server that is simply off or on with a number of calls |
| `McpRuntime.MCPRuntime.StopServer` | core/plugins/mcp_runtime_control.go:207-248 | Refines stop; a busy server is refused unchanged |
| `McpRuntime.MCPRuntime.SetServerEnabled` | core/plugins/mcp_runtime_control.go:250-268 | Refines enable and disable; disabling turns off |
| `McpRuntime.MCPRuntime.RestartServer` | core/plugins/mcp_runtime_control.go:270-286 | Refines stop followed by start |
| `McpRuntime.MCPRuntime.BeginInvocation` | core/plugins/mcp_runtime_control.go:288-325 | Refines the beginning of a call, on-demand start included |
| `McpRuntime.MCPRuntime.Acquire` | core/plugins/mcp_runtime_control.go:314-325 | A running server's process is always found and counted |
| `McpRuntime.MCPRuntime.EndInvocation` | core/plugins/mcp_runtime_control.go:404-416 | Refines the end of a call; the last one makes the server idle |
| `McpRuntime.MCPRuntime.SweepIdle` | core/plugins/mcp_runtime_control.go:360-375 | Stops exactly the idle servers whose non-zero last use is at least the TTL old, and none if the TTL is not positive |
| `McpRuntime.ViewRoundTrip` | core/plugins/mcp_registry.go:60-66 | State, active flag, enabled flag and process entry and the model determine each other |
| `McpRuntime.NextInv` | core/plugins/mcp_runtime_control.go:128-375 | Every operation keeps the count equal to the calls in progress and on-servers enabled |
| `McpRuntime.RunAgrees` | core/plugins/mcp_runtime_control.go:128-375 | In every run: Active exactly while calls are in progress, a process exactly when Idle or Active, exactly when active, and only if enabled |
| `McpRuntime.BusyStaysOn` | core/plugins/mcp_runtime_control.go:207-268 | While a call is in progress no operation turns its server off |
| `McpRuntime.TurnedOnExactlyWhen` | core/plugins/mcp_runtime_control.go:128-325 | A server that is off is turned on if and only if it is enabled and a start, a restart or an on-demand invocation spawns its process |
| `McpRuntime.OnlySpawnsTurnOn` | core/plugins/mcp_runtime_control.go:128-325 | So it is in every run |
| `McpRuntime.TurnedOffExactlyWhen` | core/plugins/mcp_runtime_control.go:207-375 | A server that is on is turned off if and only if no call is in progress and a stop, a disable, a failing restart or the sweep asks for it |
| `McpRuntime.OffStateMoves` | core/plugins/mcp_runtime_control.go:128-268 | Which operations change how a server that stays off was stopped |
| `McpRuntime.RegisteredAndEnabled` | core/plugins/mcp_registry.go:74-93 | Only registration adds a server, off, enabled and unused; only SetEnabled changes the flag, and disables only without calls in progress |
| `McpRuntime.RefusedExactlyWhen` | core/plugins/mcp_runtime_control.go:128-325 | For each error, exactly when an operation returns it; an invocation without on-demand start of a server that is off asks for an explicit start |
| `McpRuntime.RefusedChangesNothing` | core/plugins/mcp_runtime_control.go:128-325 | A refused operation changes nothing, but a server that cannot be spawned is off |
| `McpRuntime.OtherServersSame` | core/plugins/mcp_runtime_control.go:128-325 | An operation leaves other servers alone |
| `McpRuntime.LastUsedIsLastUse` | core/plugins/mcp_runtime_control.go:128-416 | In every run the last use is the time of the last start, call begin, end of the last call or stop of a running server |
| `Conversation.SelectFirst` | core/conversation/store.go:424-461 | Returns the first row in the queries' order, if there is any |
| `Conversation.FirstUnique` | core/conversation/store.go:424-461 | The order has no ties |
| `Conversation.Service.Load` | core/conversation/service.go:1112-1144 | Loading any stored database establishes agreement, creates the first conversation or chooses the active one; it fails exactly on a dangling active id or a taken legacy id |
| `Conversation.Bootstrap` | core/conversation/service.go:1112-1144 | Makes sure that there is a conversation and an active id, and keeps every message owned exactly if it was |
| `Conversation.FirstRecordMeans` | core/conversation/service.go:1112-1144 | A first conversation is unarchived; with legacy messages it has their title and time |
| `Conversation.Service.CreateConversation` | core/conversation/service.go:105-130 | Adds and activates a conversation; memory shows it |
| `Conversation.Service.RenameConversation` | core/conversation/service.go:132-175 | Changes title and time of one record; memory stays in step and is reloaded if the record is the active one |
| `Conversation.Service.DeleteConversation` | core/conversation/service.go:177-244 | Removes the record and leaves the messages, which no conversation shows; activates the first other conversation or a new one if it was active; every message stays owned if and only if the conversation had none |
| `Conversation.OwnedAfterDelete` | core/db/open.go:12-41 | Without foreign keys a delete keeps every message owned if and only if the conversation had none |
| `Conversation.Service.ArchiveConversation` | core/conversation/service.go:246-322 | Archives; if it was active, a different, unarchived conversation is active afterwards, the first in order or a new one; keeps memory in step |
| `Conversation.Service.RestoreConversation` | core/conversation/service.go:324-367 | Unarchives one record; memory stays in step and is reloaded if the record is the active one |
| `Conversation.Service.UpdateContextPreferences` | core/conversation/service.go:369-412 | Changes the preferences of one record; memory stays in step and is reloaded if the record is the active one |
| `Conversation.Service.ActivateConversation` | core/conversation/service.go:414-448 | Switches and re-establishes agreement from the database; streams of the conversation show their stored text |
| `Conversation.Service.AppendMessages` | core/conversation/service.go:1146-1197 | Adds messages to any conversation; memory stays in step and is reloaded if it is the active one |
| `Conversation.AppendTouches` | core/conversation/service.go:1146-1197 | Adding messages sets the time, gives an untitled conversation its title, forgets the session on a reset, and changes no other record or message |
| `Conversation.Service.BeginStream` | core/conversation/service.go:507-544 | Adds the prompt and an empty streaming reply |
| `Conversation.Service.AppendDelta` | core/conversation/service.go:892-930 | Succeeds exactly when its transaction does, also for a deleted conversation; the stored text is the concatenation of the deltas, with those memory had kept; agreement is lost if and only if the transaction fails after it began and the conversation is active |
| `Conversation.Service.FinalizeStream` | core/conversation/service.go:932-1017 | Stores the final text and status, unsaved deltas included, and restores agreement; for a deleted conversation it fails and changes nothing |
| `Conversation.Service.PersistReply` | core/conversation/service.go:1218-1281 | Updates the message or inserts it, with the record; reloads memory if the conversation is active |
| `Conversation.FinishedTouches` | core/conversation/service.go:1218-1281 | The end of a stream stores the reply and changes session and time of its conversation, and no other record or message |
| `Conversation.FinalContentKeeps` | core/conversation/service.go:967-984 | A failed stream keeps the non-blank text already streamed, else shows the error; a successful one ends with the result, else with the text streamed; white space around result or error is cut off, and no reply is empty |
| `Conversation.AgreesExactlyWhenSaved` | core/conversation/service.go:904-930 | Memory and database agree if and only if no text is unsaved |
| `Conversation.DeltaSaved` | core/conversation/service.go:904-930 | A delta that commits saves what memory has of its message and leaves every other stream's text alone |
| `Conversation.DeltaLost` | core/conversation/service.go:904-924 | A delta that does not commit is in memory alone |
| `Conversation.EarlierTextIsPrefix` | core/conversation/service.go:892-930 | Streaming only extends a text |
| `Conversation.ArchiveLeavesUnarchivedActive` | core/conversation/service.go:246-322 | Archiving the active unarchived conversation leaves a different, unarchived one active |
| `Conversation.DeletePrefersUnarchived` | core/conversation/service.go:177-244 | Deleting the active conversation activates the most recently updated unarchived one if there is one, else the most recently archived |
| `History.CompactHistory` | core/conversation/service.go:1068-1085 | Keeps the non-blank user and assistant messages, trimmed, in order |
| `History.CompactTakes` | core/conversation/service.go:1068-1085 | The compacted messages stand at increasing positions of the history, exactly those of the non-blank user and assistant messages, with white space cut off at both ends |
| `Text.TrimCuts` | core/conversation/service.go:1068-1085 | Trimming cuts white space off at both ends, and nothing else is such a cut |
| `History.PruneCompletionHistory` | core/conversation/service.go:1068-1110 | Returns the longest suffix of the sendable messages within both limits, the last message always kept |
| `History.AllowedUpward` | core/conversation/service.go:1093-1106 | Suffixes of an allowed suffix are allowed |
| `Normalizer.WithDefaults` | core/plugins/mcp_output_normalizer.go:114-132 | Each positive limit stays and each other gets its default, which is positive |
| `Normalizer.TruncateString` | core/plugins/mcp_output_normalizer.go:229-235 | Cuts after the limit and flags exactly then |
| `Normalizer.NormalizeScalar` | core/plugins/mcp_output_normalizer.go:220-227 | Trims and cuts strings, keeps other scalars |
| `Normalizer.NormalizeArray` | core/plugins/mcp_output_normalizer.go:175-198 | Builds the specified list and flags exactly when a limit is exceeded |
| `Normalizer.NormalizeObject` | core/plugins/mcp_output_normalizer.go:134-173 | The same for fields |
| `Normalizer.NormalizeNode` | core/plugins/mcp_output_normalizer.go:200-218 | The same for any value |
| `Normalizer.Normalize` | core/plugins/mcp_output_normalizer.go:53-112 | Reports truncation exactly when the payload or the value exceeds a limit; untruncated output decodes to the trimmed input; truncated output keeps the beginnings; output is bounded |
| `Normalizer.UntruncatedRoundTrip` | core/plugins/mcp_output_normalizer.go:134-235 | A value within the limits is recovered from its tree up to trimming of strings |
| `Normalizer.NormKeeps` | core/plugins/mcp_output_normalizer.go:134-235 | Whatever is cut, the tree keeps the first children in order with their keys, the first bytes of a string followed by three dots, other scalars, and a note for what is left out |
| `Normalizer.FitsExactly` | core/plugins/mcp_output_normalizer.go:134-235 | Nothing is cut if and only if the value nests at most maxDepth deep and no array, object or string is longer than its limit |
| `Normalizer.NormBounded` | core/plugins/mcp_output_normalizer.go:134-235 | At most maxDepth+1 levels, limit+1 children, limit+3 bytes per string except the fixed notes |
| `Normalizer.NormCount` | core/plugins/mcp_output_normalizer.go:134-235 | The number of nodes is at most a geometric sum of the limits |
| `Normalizer.StringBoundExactlyWhen` | core/plugins/mcp_output_normalizer.go:134-235 | Every string is within its limit and three if and only if the limit is at least 24 |
| `Policy.EffectiveApprovalTier` | core/policy/stage_approval.go:18-27 | The escalation loop computes the effective tier |
| `Policy.EffectiveTierRank` | core/policy/stage_approval.go:18-60 | Its rank is min(3, max(base, minimum if mutating) + escalation) for declared base tiers |
| `Policy.EffectiveCapabilities` | core/policy/stage_capabilities.go:19-47 | Exactly the default and added capabilities that are not removed, without repetition |
| `Policy.NormalizeRoots` | core/policy/stage_allowed_roots.go:25-35 | Exactly the usable cleaned roots |
| `Policy.CheckPath` | core/policy/stage_allowed_roots.go:37-46 | Allowed if and only if inside some root |
| `Policy.MatchesStructured` | core/policy/matchers.go:23-48 | One of the tools, one of the widgets and all of the tokens that the matcher names |
| `Policy.TrustedRuleApplies` | core/policy/stage_trusted_rules.go:17-37 | Enabled, in scope and matching the tool, the command or some path, or structured |
| `Policy.IgnoreRuleApplies` | core/policy/stage_ignore_rules.go:26-36 | Enabled, in scope and matching some path or its base name |
| `Policy.RulesLookOnlyAt` | core/policy/matchers.go:10-48 | A rule looks at nothing but what its scope and subject name |
| `Policy.ExactRuleApplies` | core/policy/stage_trusted_rules.go:17-37 | A rule not in force never applies; an exact one in force applies exactly to the tool, command or paths it names |
| `Policy.ExactIgnoreApplies` | core/policy/stage_ignore_rules.go:26-36 | The same for ignore rules, on paths and base names |
| `Policy.StructuredParts` | core/policy/matchers.go:23-48 | A structured matcher is the conjunction of its parts, and each part means what it names |
| `Policy.InsideIsContainment` | core/policy/stage_allowed_roots.go:37-46 | The string test on cleaned absolute paths is containment of paths, except that "/" contains only itself |
| `Policy.AdmitsBelowExactlyWhenNotSlash` | core/policy/stage_allowed_roots.go:37-46 | A root admits everything below it if and only if it is not "/" |
| `Policy.PathAllowedMeans` | core/policy/stage_allowed_roots.go:25-46 | A path is allowed if and only if it is below an allowed root other than "/", or is "/" and that is allowed |
| `Policy.Pipeline.CapabilityStage` | core/policy/stage_capabilities.go:5-17 | Stops exactly when a required capability is not effective and lists the missing ones |
| `Policy.Pipeline.AllowedRootsStage` | core/policy/stage_allowed_roots.go:9-23 | Stops exactly when unapproved and some affected path is outside the roots |
| `Policy.Pipeline.IgnoreRulesStage` | core/policy/stage_ignore_rules.go:5-36 | Stops exactly when unapproved and the first applicable ignore rule denies, and records that rule |
| `Policy.Pipeline.TrustedRulesStage` | core/policy/stage_trusted_rules.go:3-37 | Auto-approves exactly when a trusted rule applies, auto-approval is enabled and the tier is not destructive, and records the first rule |
| `Policy.Pipeline.ApprovalStage` | core/policy/stage_approval.go:3-16 | Stops exactly for an unapproved dangerous or destructive tier |
| `Policy.Pipeline.Run` | core/policy/pipeline.go:25-38 | The stages together decide the closed form, and the reason is the first objection |
| `Policy.Evaluate` | core/policy/pipeline.go:11-38 | Allowed if and only if the capabilities are held and either approval is held or roots, ignore rules and tier all agree |
| `Policy.IdleTrustedRule` | core/policy/stage_trusted_rules.go:3-37 | A trusted rule that does not apply, a disabled one say, changes no decision wherever it stands |
| `Policy.IdleIgnoreRule` | core/policy/stage_ignore_rules.go:5-36 | The same for ignore rules |
| `Policy.FirstIgnoreRuleDecides` | core/policy/stage_ignore_rules.go:5-24 | An ignore rule that applies and stands first decides alone |
| `Policy.MergeOverlays` | core/agent/types.go:115-137 | Union of additions and removals, highest tier and escalation, any disabling, last posture |
| `Policy.LastPostureMeans` | core/agent/types.go:115-137 | The posture is that of the last overlay that has one |
| `Policy.InsertedIsStricter` | core/agent/types.go:115-144 | One more overlay without additions, anywhere, makes the merged profile stricter |
| `Policy.OverlayNeverLoosens` | core/agent/types.go:96-144 | It never turns a denied decision into an allowed one, for declared base tiers |
| `Policy.LoosensExactlyWhenUndeclared` | core/policy/stage_approval.go:36-47 | Some overlay can loosen a decision for a base tier if and only if the tier is not a declared one |
| `SshConfig.Loader.Load` | core/connections/ssh_config_import.go:131-214 | Returns the in-place expansion, marks what it reads with everything included, each path read once, each entry line once and in order |
| `SshConfig.Loader.LoadConfig` | core/connections/ssh_config_import.go:131-214 | From a fresh start, cycles or not, reads exactly the reachable paths and returns exactly their entry lines, each once and in the order of the includes that lead to them |
| `SshConfig.ExpandInPlace` | core/connections/ssh_config_import.go:131-214 | Entries come in the order of the include lines, patterns and paths that lead to them and of their own lines: each include is replaced where it stands |
| `SshConfig.ChainIsSeen` | core/connections/ssh_config_import.go:179-200 | What a chain of includes reaches has been read |
| `SshConfig.MatchesPatterns` | core/connections/ssh_config_import.go:396-422 | True if and only if some positive and no negated pattern matches |
| `SshConfig.PatternOrderIrrelevant` | core/connections/ssh_config_import.go:396-422 | The order of the patterns does not matter |
| `SshConfig.SelectorApplies` | core/connections/ssh_config_import.go:312-323 | Global always, Host by its patterns on the alias, Match by its condition on alias and resolved host |
| `SshConfig.SelectorsLookAt` | core/connections/ssh_config_import.go:312-394 | Host and originalhost patterns look at the alias, host patterns at the resolved host once there is one; all conditions must hold and there must be one |
| `SshConfig.HostIsFirst` | core/connections/ssh_config_import.go:266-279 | The host seen by later Match lines is the first non-empty applicable value |
| `SshConfig.NearestSelector` | core/connections/ssh_config_import.go:259-279 | A setting stands under the last selector line before it, or the global one |
| `SshConfig.ResolveCandidate` | core/connections/ssh_config_import.go:259-310 | For each key the first non-empty value under an applying selector, for the port the first non-zero; refused exactly when the first deciding port is not a port |

## Left out

- HTTP, SSH, process spawning, SQL text, JSON parsing and atomic file writing: they are steps that succeed or fail, or function parameters.
- Regular expressions, glob matching, path cleaning and case folding: function parameters.
- Real time: clock readings are parameters, timeouts are nondeterministic.
- Panics other than the send on the closed queue, and the health loop of the watcher.
- A file system that changes during a path walk; os.Lstat and filepath.EvalSymlinks are functions of one file system.
- BatchRename.FileSystem.Move: does not model the copy-and-remove fallback for moves across devices, which is not atomic; renames of symbolic links are not modelled, and replacing something at the new name may succeed or be refused.
- CopyFS, MoveFS, DeleteFS and MkdirFS: only easy members beside RenameFS.
- PluginCatalog.Runtime.InstallPlugin: does not say which generated directories are left behind after a failure, only what happens to final install roots; fetching a source is one step that succeeds or fails.
- The order of the catalog's records, which only decides the order of the start-up sync, is a parameter; audit records and record fields that no store decision reads are left out.
- Concurrent plugin operations: the code takes no lock across an operation, the model runs one at a time.
- Remote MCP servers, and registry Update and Delete: remote calls are not counted and set the state unconditionally.
- The registry state written outside the runtime's mutex while calls overlap: McpRuntime runs one operation at a time, McpRefCount does not model the registry.
- Order of messages, provider, model, reasoning and attachments of a message; titles, sessions and preferences are opaque values.
- Provider sessions when the active conversation changes during a stream.
- Normalizer.NormalizeObject: the sorting of keys is not modelled; an object lists its fields in key order.
- Parsing of SSH config lines and Match conditions, collection of candidate aliases and saving of imported profiles: easy members.
- SshConfig.Loader.Load: the list of skipped items is not modelled.
