# EAMI: verified models of its protocols

EAMI watches the AI tools on an organisation's machines: an endpoint agent scans and reports, a
browser extension notes paste events, an API server configures agents and provisions users, and a
policy evaluator decides what an agent may do. This project models, in Dafny 4.11, the parts of it
that are state machines or concurrent protocols, and the decision procedures they rest on, and
proves what they keep over every input, interleaving and restart.

`dafny verify dfyconfig.toml` checks everything. There is one module per file:

| files | what they model |
|---|---|
| `StringSets`, `ScanPaths`, `ServerPaths` | canonical string lists, and the path-shape rules on both sides of the wire |
| `RemoteConfig`, `StateStore`, `ConfigManager`, `ConfigPersistence` | the agent's remote config: parsing, the state file on a disk that can lose what was not flushed, the manager as an object with a history, and what survives a restart or a power loss |
| `ServerConfig`, `StateSize`, `JsonText` | the server half: PUT, the response it yields, the agent accepting it, the state file it becomes, and both as JSON text |
| `ScanCollect`, `ScanTrail`, `ReportSize` | collecting scanner results with goroutines, stragglers and a deadline, and what each scanner's moves make of its report; keeping a report under its cap |
| `PasteBuffer`, `PasteFlush`, `NativeMessaging`, `Delivery` | the extension's durable buffer, what its flushes get done, the framed host, and the two joined byte for byte |
| `Bootstrap`, `Provisioning`, `ResetLinks` | single-use tokens as interleaved database transactions: what they keep, what they issue and what they refuse |
| `RateLimiter`, `ScopeDrift`, `PolicyEvaluator`, `PolicyConditions`, `NetGuard` | the sliding-window limiter, the category heuristic, first-match policy evaluation and what its decisions mean, and the outbound address guard |

Code that updates state in place is a class or a method with a loop, proved against a function or a
property; a concurrent protocol is a step function over one state, with an invariant that every step
keeps. SHA-256, JSON, case folding, globs, name resolution, clocks, disks, dialling and every kind of
failure are parameters or actions of the environment, and the theorems hold for all of them.

## Findings

- `Store.Save` does not check the size cap that `Store.Load` enforces, so a valid config is read back
  exactly when its encoding is within the cap (`StateStore.LoadUndoesSave`). Scanner names have no length
  bound, so there is a valid config whose response fits and whose state file does not
  (`StateSize.SavedMayNotFit`); one the server can serve always fits (`StateSize.BoundedFileFits`).
- The sync before the rename is what keeps the state file whole: without it a power loss could leave any
  prefix (`StateStore.UnsyncedMayTear`), which `Load` would answer as corrupt
  (`StateStore.TornFileIsCorrupt`). The directory is never synced, so a save that has returned may still
  be undone; it is certain to remain exactly when no other file was linked before
  (`StateStore.SavedIsCertainIff`, `ConfigPersistence.PowerLossRollsBack`).
- Two configs that differ only in list order share a version, so a restart may bring back an earlier
  order (`ConfigPersistence.RestartMayReorder`). The snapshot is the same up to order and repeats
  (`ConfigPersistence.RestartKeepsConfig`), and the very same exactly when the saved response and the
  latest one list the same known scanners and paths in the same order (`ConfigPersistence.RestartIsExactIff`).
- A scanner can put its result in the report and still be reported as a timeout
  (`ScanCollect.CommittedMayBeReportedTimeout`). It is reported ok exactly when its good outcome was in the
  channel while `collect` still took results (`ScanCollect.OkIffQueuedInTime`).
- The native host promises one response per message, but a response over 1 MiB ends it silently: a frame
  whose type is nearly 1 MiB long is enough (`NativeMessaging.LongTypeEndsHost`), and a paste event with a
  time of sensible length never is (`NativeMessaging.PoliteAnswerFits`). An over-long frame is not skipped:
  its body is read as frames (`NativeMessaging.OverlongIsNotSkipped`). On a lasting read error that is not
  the end of the stream the host answers for ever, unless a write fails (`NativeMessaging.BrokenPipeEndsIff`).
- The limiter calls itself a fixed-window limiter but is a sliding-window one. Its bound holds for
  half-open intervals; a closed one of the same length holds up to twice the limit
  (`RateLimiter.AtMostTwiceInClosedWindow`, `RateLimiter.ClosedWindowHoldsTwice`).
- `toolCategory` ranges over an unordered map, so the same action can match a rule or not from one
  evaluation to the next: `python_read_file` under the scope `file assistant`
  (`PolicyEvaluator.SameActionBothWays`). The answer is settled exactly when the scope implies no category,
  or all the categories the tool may be taken for, or none of them (`ScopeDrift.SettledIff`).

## Model

| member | source | states |
|---|---|---|
| `StringSets.SortedUnique` | eami-agent/internal/remoteconfig/remoteconfig.go:101-112 | the result is sorted, has no repeats and has exactly the elements of the input, and is the one list of that kind |
| `StringSets.CanonicalIsUnique` | eami-api/internal/store/agent_config_version.go:29-40 | two sorted lists without repeats and with the same elements are equal, so agent and server hash the same list |
| `StringSets.CanonicalIffSameSet` | eami-api/internal/store/agent_config_version.go:47-61 | the canonical lists, and hence the version contribution, are equal exactly when the sets are |
| `StringSets.SameStringSet` | eami-api/internal/api/agents.go:890-908 | true exactly when the canonical lists are equal, whatever the order and repeats |
| `ScanPaths.IsNormalized` | eami-agent/internal/scanpath/scanpath.go:53-67 | the component scan agrees with: no component of the path body is `.`, `..` or ends in a dot or space |
| `ScanPaths.CheckPaths` | eami-agent/internal/remoteconfig/remoteconfig.go:137-175 | the loop returns the code of the first offending path, or that of the list itself |
| `ScanPaths.ComponentsAreMaximalRuns` | eami-agent/internal/scanpath/scanpath.go:53-67 | the components used by the rules are exactly the maximal separator-free stretches of the path |
| `ScanPaths.SplitGivesComponents` | eami-agent/internal/scanpath/scanpath.go:53-67 | replacing backslashes, splitting on slashes and skipping empty parts gives those components |
| `ScanPaths.AcceptedIffLocalFolder` | eami-agent/internal/remoteconfig/remoteconfig.go:137-175 | a path is accepted exactly when it has the shape of a local folder below a root, for both separators and drive forms |
| `ScanPaths.AcceptedListMembers` | eami-agent/internal/remoteconfig/remoteconfig.go:137-175 | a list is accepted exactly when it is short enough and each path in it is accepted |
| `ScanPaths.RefusedIff` | eami-agent/internal/remoteconfig/remoteconfig.go:137-175 | which paths get each other code: empty, too long, unprintable or stray colon, network, a bad component, no component, not rooted |
| `ScanPaths.FirstBadDecides` | eami-agent/internal/remoteconfig/remoteconfig.go:137-175 | a list gets the code of its first bad path |
| `ScanPaths.AcceptedNeverCleansToRoot` | eami-agent/internal/scanpath/scanpath.go:69-83 | an accepted path has at least one component, and neither lexical cleaning nor the Windows name rules change or empty its components |
| `ScanPaths.CleaningUndoes` | eami-agent/internal/scanpath/scanpath.go:53-67 | what cleaning does to the refused components: `.` vanishes, `..` takes its parent with it, trailing dots and spaces go |
| `ServerPaths.ValidateModelScanPaths` | eami-api/internal/store/agent_config_limits.go:139-172 | the server's validator returns the agent's code on every list |
| `ServerPaths.IsProfileParentScanPath` | eami-api/internal/store/agent_config_limits.go:118-133 | the rewriting loop terminates and answers a question about leading separator and lower-cased components only |
| `ServerPaths.HalvingShrinks` | eami-api/internal/store/agent_config_limits.go:118-133 | replacing double slashes shortens any path that has one, so the loop ends |
| `ServerPaths.HalvingKeepsComponents` | eami-api/internal/store/agent_config_limits.go:118-133 | and keeps the components and the leading separator |
| `ServerPaths.NormalFormIsRendered` | eami-api/internal/store/agent_config_limits.go:118-133 | what the loop leaves is determined by its components, so comparing strings compares components |
| `ServerPaths.ComparedNames` | eami-api/internal/store/agent_config_limits.go:118-133 | the literal comparisons hold exactly for the named component lists |
| `ServerPaths.ValidateModelScanPathsFull` | eami-api/internal/store/agent_config_limits.go:176-186 | the base code, then a profile parent anywhere in the list |
| `ServerPaths.WarningFor` | eami-api/internal/store/agent_config_limits.go:191-211 | the warning of one stored path |
| `ServerPaths.RootWarningIff` | eami-api/internal/store/agent_config_limits.go:191-211 | a stored path is flagged as a root exactly when it is local and has no component |
| `ServerPaths.PathWarnings` | eami-api/internal/store/agent_config_limits.go:191-211 | each warning once, exactly when some path earns it |
| `ServerPaths.WarningsAgreeWithFullRules` | eami-api/internal/store/agent_config_limits.go:176-211 | for a base-valid list there are no warnings exactly when the full rules accept it |
| `RemoteConfig.VersionedIff` | eami-agent/internal/remoteconfig/remoteconfig.go:224-253 | a body parses as version v of config c exactly when it is complete, valid and carries c's own hash |
| `RemoteConfig.ValidIff` | eami-agent/internal/remoteconfig/remoteconfig.go:178-190 | a config is valid exactly within literal bounds, and each reason names the first one broken |
| `RemoteConfig.LegacyIff` | eami-agent/internal/remoteconfig/remoteconfig.go:260-284 | a body without a version merges exactly when its four fields are there and the set ones in bounds, and sets exactly a positive interval and the non-empty lists, as sent |
| `RemoteConfig.RefusedIff` | eami-agent/internal/remoteconfig/remoteconfig.go:214-284 | when each refusal of a body is given, on the fields it carries |
| `RemoteConfig.KnownScanners` | eami-agent/internal/remoteconfig/remoteconfig.go:289-304 | the known names in order, and whether any was dropped |
| `RemoteConfig.KnownKeepsKnown` | eami-agent/internal/remoteconfig/remoteconfig.go:289-304 | a list of known names is kept as it is |
| `StateStore.Store.Save` | eami-agent/internal/remoteconfig/state.go:163-206 | through every failing or interrupted step the disk is as it was, or one rename has put the whole, flushed new file in place; a save that returns leaves no temporary file |
| `StateStore.SaveNeverTears` | eami-agent/internal/remoteconfig/state.go:160-206 | a power loss at any point of a save or after it leaves a file that was linked before, or the whole new one, and the new one only once the rename was made |
| `StateStore.UnsyncedMayTear` | eami-agent/internal/remoteconfig/state.go:193-205 | renaming an unflushed file could leave any prefix of it |
| `StateStore.TornFileIsCorrupt` | eami-agent/internal/remoteconfig/state.go:133-141 | a state file cut short anywhere is ignored as corrupt |
| `StateStore.SavedIsCertainIff` | eami-agent/internal/remoteconfig/state.go:199-206 | a save that has returned is certain to survive a power loss exactly when no other file was linked before, as after the directory has reached the medium |
| `StateStore.WholeFilesRemainWhole` | eami-agent/internal/remoteconfig/state.go:160-206 | on a disk of flushed files a power loss leaves one of the files linked so far, and can leave each |
| `StateStore.Store.Delete` | eami-agent/internal/remoteconfig/state.go:210-221 | success means no state file is left, or no directory to hold one; a failure leaves the disk alone and is reported exactly for an untrusted directory or a failing removal; an untrusted directory is never followed |
| `StateStore.LoadUndoesSave` | eami-agent/internal/remoteconfig/state.go:110-206 | a saved valid config is loaded back unchanged exactly when its encoding is within the cap, and is ignored as corrupt otherwise |
| `StateStore.LoadedIff` | eami-agent/internal/remoteconfig/state.go:110-158 | in every environment, a config and version are loaded exactly from a trusted, readable file within the cap that carries its own hash, is valid and is of this identity |
| `StateStore.IgnoredIff` | eami-agent/internal/remoteconfig/state.go:110-158 | absent, untrusted, corrupt, invalid and stale are each answered exactly when that is what stands first in the way |
| `ConfigManager.Manager.constructor` | eami-agent/internal/remoteconfig/manager.go:61-92 | a new manager is where the state file leads |
| `ConfigManager.Manager.Apply` | eami-agent/internal/remoteconfig/manager.go:96-146 | the object and the file follow the history through every kind of fetch result, save failure and crash |
| `ConfigManager.Manager.AcceptVersioned` | eami-agent/internal/remoteconfig/manager.go:113-131 | a versioned config takes effect filtered and is saved unfiltered, unless that version is already saved |
| `ConfigManager.Manager.MergeLegacy` | eami-agent/internal/remoteconfig/manager.go:132-146 | present legacy fields overlay the config in force, or the local one |
| `ConfigManager.Manager.HandleNotFound` | eami-agent/internal/remoteconfig/manager.go:155-169 | only the second adjacent 404 reverts, and it deletes only a file this manager saved or loaded |
| `ConfigManager.Manager.ApplyVersionedConfig` | eami-agent/internal/remoteconfig/manager.go:171-180 | the config in force is the received one with only known scanners |
| `ConfigManager.Manager.Report` | eami-agent/internal/remoteconfig/manager.go:201-223 | snapshot and status are those of the history specification |
| `ConfigManager.SnapshotIsHistory` | eami-agent/internal/remoteconfig/manager.go:76-223 | over every history from every initial file: the local config if never remote or since the last second-of-two 404s, else the latest versioned config overlaid by later legacy fields, with model size and report cap only while versioned |
| `ConfigManager.RunTracks` | eami-agent/internal/remoteconfig/manager.go:76-169 | every field of the manager is what the effects so far say, whatever the disk did |
| `ConfigManager.StepByEffect` | eami-agent/internal/remoteconfig/manager.go:96-146 | what a poll does to the config depends on its fetch result alone |
| `ConfigManager.LegacyIsOverlaid` | eami-agent/internal/remoteconfig/manager.go:131-146 | an older server's response is overlaid on the snapshot in force: its positive interval and non-empty lists as sent, the rest kept, the model size local, and nothing saved |
| `ConfigManager.TwoNotFoundsRevert` | eami-agent/internal/remoteconfig/manager.go:155-169 | two adjacent 404s put the local values back in force, whatever came before and whatever the disk does |
| `ConfigManager.NeverRemoteIsLocal` | eami-agent/internal/remoteconfig/manager.go:201-223 | until a response is accepted or a file loaded, the snapshot is the local one, reported as the file's or the defaults |
| `ConfigPersistence.DiskAlwaysAgrees` | eami-agent/internal/remoteconfig/manager.go:89-128 | in every reachable state a non-empty `persisted` means the file carries this identity and exactly that version |
| `ConfigPersistence.ForeignFileIgnored` | eami-agent/internal/remoteconfig/state.go:110-158 | a file of another identity is never applied |
| `ConfigPersistence.ForeignFileSurvives` | eami-agent/internal/remoteconfig/manager.go:155-169 | nor deleted by any step of any history; only a whole save of this agent's config replaces it |
| `ConfigPersistence.FailedSavesAreRetried` | eami-agent/internal/remoteconfig/manager.go:119-128 | a save is skipped only when the file holds that version already, so a failed one is tried at each later accepted response |
| `ConfigPersistence.ErrorIsOfLastPoll` | eami-agent/internal/remoteconfig/manager.go:96-189 | after any history the reported error is that of the last poll: the disk's if an attempted save or delete failed, else why the response was refused, else none |
| `ConfigPersistence.LedgerIsKept` | eami-agent/internal/remoteconfig/manager.go:96-169 | over every history, even one that ended inside a save, the file is exactly what the last completed save or delete left in place of the initial one |
| `ConfigPersistence.RestartNeverMixes` | eami-agent/internal/remoteconfig/state.go:110-206 | and a restart is in force with exactly that config and version, or ignores it as corrupt if its encoding is over the cap |
| `ConfigPersistence.PowerLossRollsBack` | eami-agent/internal/remoteconfig/state.go:199-221 | a power loss after any history leaves what could have been left before it, or the whole file of some moment of it, and any of these |
| `ConfigPersistence.RestartKeepsConfig` | eami-agent/internal/remoteconfig/manager.go:76-128 | a saved versioned config comes back with the same version and cap and the same snapshot up to order and repeats |
| `ConfigPersistence.RestartIsExactIff` | eami-agent/internal/remoteconfig/manager.go:119-128 | in every reachable saved versioned state the restart snapshot equals the one in force exactly when the saved and the latest accepted response list the same known scanners and paths in the same order |
| `ConfigPersistence.RestartMayReorder` | eami-agent/internal/remoteconfig/manager.go:119-128 | the history that shows it: a response, one that swaps two scanners, and a restart that brings the first order back |
| `ServerConfig.UpdateAgentConfig` | eami-api/internal/api/agents.go:725-831 | a PUT is stored exactly when every present field is in bounds, every scanner known and no changed path list holds a profile parent; then each present field is stored and each absent one kept, else the refusal names the first broken rule |
| `ServerConfig.OverlaysIff` | eami-api/internal/api/agents.go:784-810 | that field-by-field description has exactly one solution, the merge |
| `ServerConfig.AddsProfileParent` | eami-api/internal/api/agents.go:725-831 | the full path rules apply exactly when the set of paths changes |
| `ServerConfig.AllKnown` | eami-api/internal/api/agents.go:725-831 | every requested scanner is known |
| `ServerConfig.PutKeepsBounds` | eami-api/internal/api/agents.go:725-831 | an accepted PUT keeps a stored config within the agent's bounds |
| `ServerConfig.StoredConfigsStayWithinBounds` | eami-api/internal/store/agent_configs.sql.go:49-57 | so after any sequence of PUTs from the defaults the stored config is within bounds |
| `ServerConfig.StoredFollowsRequests` | eami-api/internal/api/agents.go:725-831 | the first row is the defaults; an acceptable request overlays the row field by field, any other leaves it alone |
| `ServerConfig.ResponseFits` | eami-api/internal/api/agents.go:866-886 | the response for a config within bounds is at most 256 KiB, even if every byte is escaped sixfold |
| `ServerConfig.BoundedConfigIsApplied` | eami-agent/internal/remoteconfig/remoteconfig.go:224-253 | the agent parses that response as a versioned update with the same config and version, and applies it whole |
| `ServerConfig.ServedConfigIsApplied` | eami-api/internal/api/agents.go:725-886 | the server never serves a config an agent would reject: any agent in any state puts exactly the stored config and version in force |
| `ServerConfig.PutReachesAgent` | eami-api/internal/api/agents.go:708-831 | a change the server accepts is in force, field by field, in every agent that fetches after it |
| `StateSize.BoundedFileFits` | eami-agent/internal/remoteconfig/state.go:163-186 | the state file of a config the server can serve is within the cap, even if every byte is escaped sixfold |
| `StateSize.ServedFileFits` | eami-agent/internal/remoteconfig/state.go:110-206 | in every history fed by the server the file of any version believed saved is there and within the cap |
| `StateSize.ServedConfigSurvivesRestart` | eami-agent/internal/remoteconfig/manager.go:76-128 | so whatever version is saved comes back after a restart, the same up to order and repeats |
| `StateSize.SavedMayNotFit` | eami-agent/internal/remoteconfig/state.go:127-186 | a valid config whose response fits and whose state file does not |
| `JsonText.ResponseTextLength` | eami-api/internal/api/agents.go:629-645 | the response length is that of the JSON text, key by key |
| `JsonText.FileTextLength` | eami-agent/internal/remoteconfig/state.go:35-50 | the state-file length is that of the indented JSON text, key by key |
| `ScanCollect.RunKeepsInv` | eami-agent/internal/payload/builder.go:112-246 | every step of collectors and goroutines, over any number of cycles, keeps the protocol's invariant |
| `ScanCollect.AtMostOneLive` | eami-agent/internal/payload/builder.go:112-207 | at most one invocation of each scanner name is live, exactly while the name is in the running set |
| `ScanCollect.SendNeverBlocks` | eami-agent/internal/payload/builder.go:136-207 | a goroutine ready to send finds room in its channel, even after its cycle is over |
| `ScanCollect.ReturnsComplete` | eami-agent/internal/payload/builder.go:136-246 | when `collect` returns every spec has a status, a reason exactly when it is an error, and ok only if its result is in this report |
| `ScanCollect.ReportIsFrozen` | eami-agent/internal/payload/builder.go:242-245 | no later step writes a report whose `collect` has returned |
| `ScanCollect.QueuedOutcomeIsReported` | eami-agent/internal/payload/builder.go:208-241 | an outcome in the channel before the drain ends is reported unchanged |
| `ScanCollect.StepsRunDown` | eami-agent/internal/payload/builder.go:208-246 | every collector step shortens what it has left, and no other step lengthens it |
| `ScanCollect.NeverStuckAfterDeadline` | eami-agent/internal/payload/builder.go:208-246 | once the deadline has fired a collector that has not returned can always take a step |
| `ScanCollect.CollectTerminates` | eami-agent/internal/payload/builder.go:136-246 | a collector takes a bounded number of steps and has returned when none is left |
| `ScanCollect.CommittedMayBeReportedTimeout` | eami-agent/internal/payload/builder.go:136-246 | a history in which a scanner commits and is reported as a timeout |
| `ScanCollect.OkIffQueuedInTime` | eami-agent/internal/payload/builder.go:209-241 | in every history a scanner is reported ok exactly when its good outcome was in the channel while `collect` still took results |
| `ScanTrail.ReportIsOfTrail` | eami-agent/internal/payload/builder.go:136-246 | in every history the moves of a scanner decide its report: ok exactly when it committed, returned nil, was judged before the deadline and sent in time; panic, failed and timeout each by their own moves; still running exactly when its name was live at launch; in the report exactly when its commit came before the return |
| `ScanTrail.ScannerCanSucceed` | eami-agent/internal/payload/builder.go:172-222 | in any waiting cycle before its deadline a scanner can go on to be reported ok |
| `ScanTrail.ScannerEndsOk` | eami-agent/internal/payload/builder.go:136-246 | a history from the start of the process that ends with a scanner ok and in the report |
| `ReportSize.Report.ClearSection` | eami-agent/internal/payload/size.go:29-73 | the scanner's lists become nil, and the answer is whether they held anything |
| `ReportSize.Report.EnforceMaxSize` | eami-agent/internal/payload/size.go:82-105 | the report after visiting a stretch of the drop order, ending at the first drop after which it fits |
| `ReportSize.DropsEnough` | eami-agent/internal/payload/size.go:82-105 | the drops are a drop-order prefix of what could be dropped, and the report fits or everything droppable is gone |
| `ReportSize.DropsNoMoreThanNeeded` | eami-agent/internal/payload/size.go:82-105 | after every shorter prefix of the drops the report was still too large |
| `ReportSize.SmallReportIsUntouched` | eami-agent/internal/payload/size.go:82-85 | without a cap, or within it, nothing is dropped or changed |
| `ReportSize.DropsAreVisible` | eami-agent/internal/payload/size.go:82-105 | a dropped scanner was ok and non-empty, and is left empty and marked too_large |
| `ReportSize.OthersAreKept` | eami-agent/internal/payload/size.go:82-105 | every other scanner keeps its findings, status and reason |
| `ReportSize.SecondCallDropsNothing` | eami-agent/internal/payload/size.go:82-105 | enforcing the cap again drops and changes nothing |
| `ReportSize.DropOrderIsDistinct` | eami-agent/internal/payload/size.go:14-25 | no scanner is listed twice |
| `PasteBuffer.RunKeepsInv` | eami-browser-extension/background.js:78-273 | pastes, alarms, queue steps, replies, disconnects, timeouts and restarts in any order keep the buffer's invariant |
| `PasteBuffer.NothingStoredIsLost` | eami-browser-extension/background.js:111-179 | in every interleaving the events stored, in order, are those dropped followed by those buffered |
| `PasteBuffer.OpenFlushIsPrefix` | eami-browser-extension/background.js:139-179 | an open flush sends a prefix of the current buffer, and there is at most one |
| `PasteBuffer.FlagIsNeverStuck` | eami-browser-extension/background.js:137-179 | `flushInProgress` is up exactly while a flush section is queued or a batch is open |
| `PasteBuffer.DropsAreAcked` | eami-browser-extension/background.js:187-273 | every dropped event was answered ok at its own position on a connection that carried it |
| `PasteFlush.DropsWhatWasHeard` | eami-browser-extension/background.js:157-247 | in every history a flush drops exactly as many events from the front as it heard leading ok replies before it settled, and nothing else drops any |
| `PasteFlush.FlushSendsBuffer` | eami-browser-extension/background.js:139-156 | a flush that reads a non-empty buffer and connects sends all of it |
| `PasteFlush.LongBufferFlushes` | eami-browser-extension/background.js:124-133 | after a paste is stored a flush is under way exactly when one was, or ten events are buffered |
| `PasteFlush.AckedBatchIsDropped` | eami-browser-extension/background.js:157-247 | from an open batch whose replies are all ok the whole batch leaves the front of the buffer and the flag comes down |
| `PasteFlush.StoredCanBeDelivered` | eami-browser-extension/background.js:111-247 | from every state of every history, a host that answers ok lets every event stored so far be dropped |
| `PasteBuffer.EveryPasteIsKept` | eami-browser-extension/background.js:78-134 | in every history, restarts included, the pastes in arrival order but those waiting at a restart are those dropped, then buffered, then queued to be stored |
| `PasteBuffer.RestartLosesWaiting` | eami-browser-extension/background.js:78-134 | a restart loses exactly the pastes waiting to be stored |
| `PasteBuffer.PastesAreAccountedFor` | eami-browser-extension/background.js:78-134 | every paste survives or was waiting at a restart, and is counted once |
| `PasteBuffer.SurvivorsKeepOrder` | eami-browser-extension/background.js:78-134 | the survivors keep their arrival order |
| `NativeMessaging.ReadMessage` | eami-agent/internal/nativemsg/nativemsg.go:100-114 | what one read finds and how much of the stream it uses up, for short and refused frames and for reads that fail otherwise |
| `NativeMessaging.WriteMessage` | eami-agent/internal/nativemsg/nativemsg.go:117-134 | a whole frame is written, or the failure is reported after a part of it |
| `NativeMessaging.RunHost` | eami-agent/internal/nativemsg/nativemsg.go:171-193 | after any number of turns it has written the answers to what it read, up to the first it could not write, and says whether it stopped there, at the end of the stream, or serves on |
| `NativeMessaging.EndingPipeEndsHost` | eami-agent/internal/nativemsg/nativemsg.go:171-193 | on every stream that ends it ends, having served every frame it could |
| `NativeMessaging.BrokenPipeEndsIff` | eami-agent/internal/nativemsg/nativemsg.go:172-184 | on a lasting read error that is not the end of the stream it ends exactly when some answer cannot be written |
| `NativeMessaging.FramesAreRead` | eami-agent/internal/nativemsg/nativemsg.go:100-134 | framed bodies of at most 1 MiB are read back as exactly that list, whatever follows |
| `NativeMessaging.FrameIsRead` | eami-agent/internal/nativemsg/nativemsg.go:100-134 | a frame is read back exactly when its body is within the cap, and refused by its prefix otherwise |
| `NativeMessaging.OverlongIsNotSkipped` | eami-agent/internal/nativemsg/nativemsg.go:105-108 | after a refused prefix the body is read as if it were frames |
| `NativeMessaging.OneResponseEach` | eami-agent/internal/nativemsg/nativemsg.go:171-193 | for any bodies within the cap, a host that can write its answers makes the browser read one response per body, in order |
| `NativeMessaging.BrowserSeesPrefix` | eami-agent/internal/nativemsg/nativemsg.go:117-193 | whatever breaks, what the browser reads is a prefix of the answers owed |
| `NativeMessaging.OversizeAnswerEndsHost` | eami-agent/internal/nativemsg/nativemsg.go:117-124 | a response over the cap leaves that frame and all later ones unanswered |
| `NativeMessaging.LongTypeEndsHost` | eami-agent/internal/nativemsg/nativemsg.go:138-139 | a frame within the cap whose answer is not: an unknown type of nearly 1 MiB is quoted back |
| `NativeMessaging.PoliteAnswerFits` | eami-agent/internal/nativemsg/nativemsg.go:137-164 | a frame that is no JSON, or a paste event with a time of at most 10000 bytes, always has an answer within the cap |
| `NativeMessaging.PoliteFramesAreAnswered` | eami-agent/internal/nativemsg/nativemsg.go:171-226 | such frames are all answered exactly when every write succeeds |
| `NativeMessaging.OkMeansSent` | eami-agent/internal/nativemsg/nativemsg.go:197-226 | an answer is ok exactly when the body held a paste event with a domain and a valid time, and `Send` of just that event succeeded |
| `NativeMessaging.ErrorNamesCause` | eami-agent/internal/nativemsg/nativemsg.go:137-226 | each error answer is given exactly for the fault it names, the first one found |
| `NativeMessaging.FrameLayout` | eami-agent/internal/nativemsg/nativemsg.go:117-134 | a frame is the length in four octets, least significant first, and the body |
| `Delivery.OkReplyMeansSent` | eami-agent/internal/nativemsg/nativemsg.go:171-226 | through the framed bytes both ways, the k-th reply is ok only if sending the k-th event succeeded |
| `Delivery.ReplyIsOkIff` | eami-agent/internal/nativemsg/nativemsg.go:171-226 | while its answers go out, the k-th reply comes and is ok exactly when the k-th event is good and was sent |
| `Delivery.HealthyHostDelivers` | eami-browser-extension/background.js:139-273 | good events on a connection to a healthy host end up dropped, the whole batch |
| `Delivery.EveryDropWasSent` | eami-browser-extension/background.js:139-273 | end to end, every event the extension drops had a `Send` that returned success |
| `Bootstrap.RunKeepsInv` | eami-api/internal/api/bootstrap.go:195-283 | every statement of every transaction, and minting, deleting and time passing, keep the invariant |
| `Bootstrap.AtMostOneOrg` | eami-api/internal/api/bootstrap.go:195-283 | however many transactions with whatever tokens interleave, at most one ever commits an organisation |
| `Bootstrap.CommittedUsedOneToken` | eami-api/internal/api/bootstrap.go:219-283 | the committed one consumed exactly one token: its own, unconsumed, and unexpired when it looked |
| `Bootstrap.UncommittedLeavesNothing` | eami-api/internal/api/bootstrap.go:195-283 | one that did not commit left no organisation, no user and no consumed token |
| `Bootstrap.CommittedStays` | eami-api/internal/api/bootstrap.go:257-283 | what is committed stays, and a consumed token stays consumed by the same transaction |
| `Bootstrap.HolderNeverWaits` | eami-api/internal/api/bootstrap.go:215-229 | the holder of the setup lock never waits for a row lock |
| `Bootstrap.GoodTokenSetsUp` | eami-api/internal/api/bootstrap.go:195-283 | on an unconfigured appliance with the lock free, a good token leads to a committed organisation |
| `Bootstrap.MintedTokenSetsUp` | eami-api/internal/api/bootstrap.go:195-283 | a token minted for a hash sets up the organisation and administrator of a request with that hash |
| `Bootstrap.ConsumedIsRefused` | eami-api/internal/api/bootstrap.go:224-235 | a setup that finds its token goes on exactly when it is unconsumed |
| `Bootstrap.OtherTokensAreNotFound` | eami-api/internal/api/bootstrap.go:224-231 | a deleted token, or one of another hash, is not found |
| `Bootstrap.DeletedStays` | eami-api/internal/api/bootstrap.go:224-231 | a deleted token stays deleted in every continuation |
| `Bootstrap.ExpiredIsRefused` | eami-api/internal/api/bootstrap.go:236-239 | then it goes on exactly when the token has not expired at that statement |
| `Bootstrap.ConfiguredIsRefused` | eami-api/internal/api/bootstrap.go:241-254 | and then exactly when there is no organisation yet |
| `Bootstrap.RefusalReleases` | eami-api/internal/api/bootstrap.go:144-151 | a rollback leaves the database alone and lets every lock go |
| `Provisioning.StepKeepsInv` | eami-api/internal/api/provisioning.go:118-446 | every statement of link generation, reset and invite transactions keeps the invariant |
| `Provisioning.OneOpenLink` | eami-api/internal/api/provisioning.go:305-345 | in every interleaving a reset link with a newer one of the same user is no longer open, so at most one is |
| `Provisioning.EarlierLinksAreDead` | eami-api/internal/api/provisioning.go:305-345 | once a newer link has committed, no continuation ever spends an earlier one |
| `Provisioning.EachTokenBacksOneWrite` | eami-api/internal/api/provisioning.go:118-199 | every password write has its own token, of that user and unexpired when looked at, and an invite only replaces an unset password |
| `Provisioning.RedeemWritesOneUser` | eami-api/internal/api/provisioning.go:388-446 | a redeem that commits spends an open token, the newest link if a reset, on its own active user and no other |
| `Provisioning.OnlyOwnTokensSetPasswords` | eami-api/internal/api/provisioning.go:388-446 | no step sets a user's password but the commit of a token of that user, or an update from elsewhere |
| `Provisioning.StepKeepsTokens` | eami-api/internal/api/provisioning.go:305-446 | no step changes whose a token is, or revives a consumed one |
| `Provisioning.GoodTokenSetsPassword` | eami-api/internal/api/provisioning.go:388-446 | an unexpired open token of an active user, with its rows free, can be redeemed |
| `ResetLinks.CommitIssues` | eami-api/internal/api/provisioning.go:325-345 | committing a generation supersedes exactly the user's open links, adds its own and touches nothing else |
| `ResetLinks.CommittedWasIssued` | eami-api/internal/api/provisioning.go:305-345 | in every interleaving a committed generation issued one token, of its user and hash, open, expiring one hour after its insert |
| `ResetLinks.IssuedLinkSetsPassword` | eami-api/internal/api/provisioning.go:305-449 | at any later time, while that link is open, unlocked, its user active and its hour not over, it sets its user's password |
| `ResetLinks.LinkCanBeIssued` | eami-api/internal/api/provisioning.go:305-345 | with its locks free a generation always goes through |
| `ResetLinks.LinkRoundTrip` | eami-api/internal/api/provisioning.go:305-449 | issuing a link and redeeming it sets the user's password |
| `ResetLinks.InviteRoundTrip` | eami-api/internal/api/provisioning.go:118-202 | so do minting an invite and accepting it, for a user without a password |
| `ResetLinks.ConsumedIsRefused` | eami-api/internal/api/provisioning.go:401-412 | a redeem that finds its token goes on exactly when it is unconsumed |
| `ResetLinks.ExpiredIsRefused` | eami-api/internal/api/provisioning.go:413-416 | then exactly when it has not expired at that statement |
| `ResetLinks.UnfitUserIsRefused` | eami-api/internal/api/provisioning.go:155-177 | then exactly when its user is active and, for an invite, has no password |
| `ResetLinks.OverrulesRedeem` | eami-api/internal/api/provisioning.go:155-177 | a user deactivated, or given a password, before its row is locked is refused |
| `ResetLinks.RollbackReleases` | eami-api/internal/api/provisioning.go:118-125 | a rollback at any stage leaves the data alone and lets every lock go |
| `RateLimiter.Limiter.Allow` | eami-api/internal/api/ratelimit.go:52-78 | on its pruned log it answers as if every admission ever made had been kept |
| `RateLimiter.Decide` | eami-api/internal/api/ratelimit.go:60-77 | the answer, the wait and the attempts kept for one key |
| `RateLimiter.Prune` | eami-api/internal/api/ratelimit.go:60-65 | exactly the attempts later than the cutoff, in order |
| `RateLimiter.AtMostLimitPerWindow` | eami-api/internal/api/ratelimit.go:52-78 | over the full history no half-open interval of length `window` holds more than `limit` admissions of a key |
| `RateLimiter.RetryAfterIsEnough` | eami-api/internal/api/ratelimit.go:66-74 | a refused caller with no admission in between is admitted at any time from now + retryAfter on, and refused before the oldest leaves the window |
| `RateLimiter.AtMostTwiceInClosedWindow` | eami-api/internal/api/ratelimit.go:52-78 | a closed interval of length `window` holds at most twice the limit |
| `RateLimiter.ClosedWindowHoldsTwice` | eami-api/internal/api/ratelimit.go:58-65 | and for every limit and window some history reaches that |
| `RateLimiter.RetryAfterSeconds` | eami-api/internal/api/ratelimit.go:187-196 | the header is at least one second, never too short and never a second too long (section 10.2.3 of RFC 9110) |
| `ScopeDrift.ToolCategory` | eami-policy/structural.go:49-66 | in any iteration orders it answers a category the tool names, or else one whose keyword it starts with, or none |
| `ScopeDrift.MayBeIffReached` | eami-policy/structural.go:49-66 | and it can give every such answer in some order |
| `ScopeDrift.SettledIff` | eami-policy/structural.go:187-197 | the drift answer is the same on every evaluation exactly when the scope implies no category, or all the categories the tool may be taken for, or none of them |
| `ScopeDrift.ScopeImpliesCategories` | eami-policy/structural.go:25-46 | in any order it finds exactly the categories one of whose words stands in the scope |
| `ScopeDrift.OffCategoryIff` | eami-policy/structural.go:187-199 | a tool is off a scope exactly when the scope names some category and not the tool's |
| `ScopeDrift.SameToolBothAnswers` | eami-policy/structural.go:11-66 | a tool and a scope for which both answers are possible |
| `PolicyEvaluator.StringInSlice` | eami-policy/structural.go:220-228 | membership up to case |
| `PolicyEvaluator.NewEvaluator` | eami-policy/evaluator.go:105-115 | an ordered permutation of the rules, global ones first, then by priority |
| `PolicyEvaluator.Evaluate` | eami-policy/evaluator.go:122-167 | for any order the sort may leave: a matching rule that no matching rule must precede, or the default when none matches |
| `PolicyEvaluator.PossibleIffAllowed` | eami-policy/evaluator.go:105-167 | the decisions reachable over all input orders and tie-breaks are exactly those of the order-free specification |
| `PolicyEvaluator.TieBreak` | eami-policy/evaluator.go:105-113 | for each best match a tie-break that makes it the decision |
| `PolicyEvaluator.OrgFloorDecides` | eami-policy/evaluator.go:83-113 | when a global rule matches, deleting every workspace rule leaves the possible decisions unchanged |
| `PolicyEvaluator.OthersNeverMatter` | eami-policy/structural.go:69-98 | rules of other organisations or workspaces never affect the possible decisions |
| `PolicyConditions.DecisionIff` | eami-policy/evaluator.go:74-167 | the possible decisions are exactly the action, name and priority of a rule the action meets in every condition and that no such rule outranks, or the default when it meets none |
| `PolicyConditions.UnmetNeverMatters` | eami-policy/structural.go:69-153 | for each condition alone, deleting every rule that fails it leaves the possible decisions unchanged |
| `PolicyConditions.MetIsNotPassedOver` | eami-policy/evaluator.go:122-167 | a rule the action meets is passed over neither for the default nor for a rule it outranks |
| `PolicyConditions.CatchAllDecides` | eami-policy/evaluator.go:83-113 | a global rule without conditions decides, or a global one of no higher number does |
| `PolicyConditions.VerbScopeDecides` | eami-policy/structural.go:169-217 | under a verb scope an action drifts exactly when it is not read, or not read, write or create |
| `PolicyConditions.OtherScopes` | eami-policy/structural.go:169-199 | under a keyword scope it drifts as the category says, and without a scope never |
| `PolicyEvaluator.MatchIsSettled` | eami-policy/structural.go:143-197 | whether a rule matches an action is settled unless it asks for drift on a keyword scope and both answers are possible |
| `PolicyEvaluator.SameActionBothWays` | eami-policy/structural.go:143-197 | one action that both matches a rule and does not, from one evaluation to the next |
| `NetGuard.IsBlocked` | eami-api/internal/netguard/netguard.go:49-59 | the verdict on any byte string, invalid lengths included |
| `NetGuard.IsBlockedAddr` | eami-api/internal/netguard/netguard.go:61-72 | the prefix scan agrees with membership in a class or some listed prefix |
| `NetGuard.ContainsIffCovers` | eami-api/internal/netguard/netguard.go:74-94 | agreement on the first bits is agreement on whole octets and the top of one more |
| `NetGuard.IPv4Verdict` | eami-api/internal/netguard/netguard.go:61-87 | the verdict on an IPv4 address is an explicit list of octet ranges |
| `NetGuard.IPv6Verdict` | eami-api/internal/netguard/netguard.go:49-115 | the verdict on every 16-byte address is an explicit list of octet ranges and carried IPv4 addresses |
| `NetGuard.EmbeddingsAreSeenThrough` | eami-api/internal/netguard/netguard.go:49-115 | the mapped, compatible, NAT64, translated and 6to4 forms of an IPv4 address get exactly its verdict |
| `NetGuard.DialContext` | eami-api/internal/netguard/netguard.go:120-161 | it dials resolved addresses only, in order, up to the first success, and none at all if any is blocked |
| `NetGuard.DialAll` | eami-api/internal/netguard/netguard.go:147-160 | the first success after only failures, or all failed |
| `NetGuard.AnyBlocked` | eami-api/internal/netguard/netguard.go:141-145 | one blocked address among those resolved is enough |

## Left out

- HTTP routing, handlers and response shaping, SQL text, the UI, FinOps, lineage, CMDB, alerts, workflows and workspaces: plumbing, or logic that lives in queries.
- SHA-256, bcrypt, JSON and gzip: parameters, with injectivity, a round trip or an escape bound assumed where a theorem needs it.
- Operating-system trust checks on the state directory, the registry, service control and host registration: outcomes of the environment.
- The concurrent protocols (`ScanCollect`, `PasteBuffer`, `Bootstrap`, `Provisioning`) are step functions over values rather than objects with methods, so that every interleaving is a sequence of steps; which objects alias is not captured.
- Real time and fairness: deadlines, timeouts and clocks are steps that may come at any moment.
- ServerPaths.IsProfileParentScanPath: strings are one character per byte and lower-casing is ASCII only, because Unicode folding is a library table; the few other characters that fold to ASCII letters are left as they are.
- ConfigManager.Manager.Report: leaves the error code of `Status` open, because it depends on the disk as well as the responses; `ConfigPersistence.ErrorIsOfLastPoll` states it.
- ConfigManager.Manager.constructor: covers `LoadPersisted` only as called once right after construction, which is how the agent calls it; the once-per-version log of unknown scanners is not modelled.
- ServerConfig.ResponseFits: takes the encoder to write the text of `JsonText.ResponseText`, and as given the lengths of the UUID, the timestamp and the hex digest.
- StateStore.SaveNeverTears: takes a rename to be atomic and a sync to flush the file it is called on; a temporary file left by a crash is never read.
- StateSize.BoundedFileFits: takes the encoder to write the text of `JsonText.FileText`, and as given the lengths of the agent ID, the hashes and a timestamp before the year 10000.
- StateSize.ServedConfigSurvivesRestart: takes the hash to tell the saved and the latest config apart unless their canonical forms are the same.
- ScanCollect.QueuedOutcomeIsReported: a collector may take any queued result, not only the oldest, so the order in which the channel delivers is not captured; a cycle's scanner names are distinct, as they are in the spec list.
- ScanTrail.ReportIsOfTrail: takes a scanner to commit once, just before it returns nil, as every spec of `BuildWith` does.
- PasteFlush.StoredCanBeDelivered: shows that delivery is possible from every state, not that it happens, because alarms and replies are the browser's.
- PolicyConditions.DecisionIff: the glob and case folding are parameters, and no semantic rule matches, as in the stub.
- ReportSize.Report.EnforceMaxSize: a report is its scanner sections in drop order; the other report fields, which it never touches, are left out.
- PasteBuffer.RunKeepsInv: takes storage reads and writes to succeed; the content-script message filter and the alarm's registration are not modelled.
- Delivery.EveryDropWasSent: takes every posted message to be within the host's 1 MiB cap, and JSON to carry an event and a status faithfully.
- Bootstrap.AtMostOneOrg: takes advisory and row locks to be held to commit or rollback and each statement to read committed state; request validation before the transaction is not modelled.
- Provisioning.OneOpenLink: takes the same of the database, and the advisory lock key of a user to be its own; two users whose keys collide would only wait for each other more.
- RateLimiter.Limiter.Allow: takes the clock not to run backwards; the choice of the client key is not modelled.
- PolicyEvaluator.NewEvaluator: fixes one tie-break and copies instead of sorting in place; the theorems quantify over all ordered permutations.
- PolicyEvaluator.Evaluate: takes any category answer with each rule, possible or not; the elapsed time and the wording of a decision's reason are left out.
- NativeMessaging.LongTypeEndsHost: takes JSON and quoting not to shorten text; `PoliteAnswerFits` takes them to lengthen it at most sixfold, and a time error to repeat the text at most twelvefold.
- NetGuard.DialContext: splitting the address, parsing a literal and resolving a name are parameters.
