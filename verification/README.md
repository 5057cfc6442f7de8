# Verified model of the TFR Gateway core

This project models the parts of TFR whose correctness is hardest to see by reading:
a Gateway that keeps a bounded event history and replays it to reconnecting clients, a
transactional configuration store with an audited undo, a coordinated update of all
connected UIs, the projection of terminal text, and a handful of bounded local state
machines. Each component is proved against what it is for, over all inputs and all runs.

- **Event history and resume** (`EventLog`, `Snapshot`, `SnapshotCounts`, `SnapshotMeaning`,
  `EventHistory`, `HistoryMeaning`, `ResumeProtocol`, `ResumeRefinement`, `EventBus`). The
  objects keep windows, counters, drop marks and queues; a ghost log of everything ever
  ingested says what they must contain. The client, the connection and the history then run
  as a step system, which the objects are proved to take the steps of.
- **Configuration** (`Configuration`, `ConfigurationPlan`, `ConfigurationStore`,
  `ConfigurationRuns`, `ConfigurationCommits`, `ConfigurationUndo`, `ConfigurationTree`, `ConfigurationValues`,
  `ConfigurationIndex`, `TargetNames`). Stores that share one directory are proved equal to
  a pure transaction on the reloaded directory; runs of transactions with failing writes
  carry the theorems.
- **Coordinated update** (`CoordinatedUpdate`, `UpdateRun`, `UpdateCoordinator`). A two-phase
  commit as a step system, and the objects that take its steps.
- **Terminal text** (`Ansi`). Control sequences follow sections 5.4 and 5.6 of ECMA-48 as
  loosely as the code does: any bytes up to a final byte, and strings that also end on BEL.
- **Local state machines** (`SpeakerRules`, `Migration`, `MigrationMeaning`,
  `MigrationCollection`, `MigrationStore`, `AgentContext`, `AgentRendering`, `AgentLimiter`,
  `Devices`, `GagPolicy`, `Admission`). What an agent is shown is read back by the JSON
  grammar of sections 5 to 7 of RFC 8259.

Modules and lemmas named for what something means, is or does spell out the vocabulary of
the main theorems in terms of the stored data alone, with the numbers written out.

`Wrappers` and `Sequences` hold shared vocabulary. Everything is checked by

    dafny verify dfyconfig.toml --resource-limit 2000000 --verification-time-limit 0

Where a plausible claim fails in the code, the model keeps the code and states exactly when
the claim holds, with an input for which it fails where the condition does not show one:

- an undo gives back the very document: `ConfigurationUndo.UndoLeavesEmptySection`,
  `ConfigurationUndo.UndoRestoresDocumentIff`;
- every change can be undone: `ConfigurationRuns.BatchUndoIsFinal`,
  `ConfigurationRuns.UndoAccepted`;
- the order of two configuration keys does not matter: `ConfigurationTree.WritesCommuteIff`,
  `ConfigurationTree.AppliedCommuteIff`;
- a confirmed change leaves the managed layer equal to the stored document:
  `ConfigurationIndex.ResetWithTwoHomes`, `ConfigurationIndex.ServedAgreesIff`,
  `ConfigurationIndex.RequestAgreesIff`, `ConfigurationIndex.AgreementPossible`;
- every missing generation is reported: `EventHistory.OlderGenerationUnreported`,
  `EventHistory.GapsAreReal`;
- a subscriber with backpressure gets every event: `EventBus.CancellationMissesOne`,
  `EventBus.MissedExactly`;
- the configured cooldown is kept: `AgentLimiter.CooldownExact`;
- a migration never changes a managed value: `Migration.RenameLosesManaged`,
  `Migration.ApplyKeepsManagedIff`;
- an update whose activation failed can be tried again: `CoordinatedUpdate.ActivationCanFail`,
  `CoordinatedUpdate.ActivationFailureBlocksUpdates` (that a failed acknowledgement after
  staging also leaves an update open is liveness, and left out).

## Model

| member | source | states |
|---|---|---|
| `ResumeProtocol.ResumeExactlyOnce` | src/tfr/gateway_client.py:944-1033 | Over every interleaving of ingestion, sending, overflow, disconnect and reconnect: published cursors strictly increase, every published event is a projected one after the first hello, only a reconnect that reported truncation excuses a missing one, and without such a report the published events are exactly the projected events between the first hello and the cursor |
| `ResumeProtocol.ResumeAccepted` | src/tfr/gateway_client.py:2105-2122 | In every reachable state the snapshot sent satisfies the client's order check, and the Gateway refuses a resume only for an oversized snapshot, never for its cursor |
| `ResumeProtocol.SwitchIsSeamless` | src/tfr/gateway.py:390-397 | Snapshot followed by the live queue is duplicate-free and sorted, live cursors exceed the snapshot cursor, and an allowed event in neither was reported as truncated |
| `ResumeProtocol.OpenedBySubscribe` | src/tfr/gateway.py:1896-1970 | A connection of the step system opens with exactly the snapshot and flags that the subscription method answers |
| `ResumeProtocol.RunKeeps` | src/tfr/gateway.py:2044-2058 | Wire, queue, cursor and published events stay in step with the full log over any run |
| `ResumeProtocol.GapsHideEvents` | src/tfr/gateway_client.py:998-1033 | Over any run every reported gap covers a projected event that the client has not published |
| `ResumeRefinement.Publish` | src/tfr/gateway.py:403-467 | What an ingestion does to a real history and subscription is the step of the system |
| `ResumeRefinement.Send` | src/tfr/gateway.py:2044-2058 | What the sender takes from the real queue is what the step puts on the wire, and the end marker ends both |
| `ResumeRefinement.Connect` | src/tfr/gateway.py:1896-1903 | The answer to a real subscription request is the connection of the step, refused exactly for its cursor or over a million events |
| `ResumeRefinement.PublishDoes` | src/tfr/gateway.py:447-461 | An attached connection that wants the event and has room is queued it and stays attached; a full one keeps only the end marker and is detached; any other is unchanged |
| `ResumeRefinement.SendDoes` | src/tfr/gateway.py:2044-2058 | The oldest entry leaves the queue: an event goes behind the wire, the marker ends the connection |
| `ResumeRefinement.ConnectDoes` | src/tfr/gateway.py:1896-1970 | The wire starts with exactly the held projected events after the client's cursor, and the hello reports truncation exactly when a projected one after it is no longer held |
| `ResumeRefinement.AdoptDoes` | src/tfr/gateway_client.py:998-1033 | A whole ordered snapshot only sets the base the first time and is published later, with a gap noted exactly when truncated; a disordered one drops the connection |
| `ResumeRefinement.ReceiveDoes` | src/tfr/gateway_client.py:1838-1849 | A live event is published exactly when it is after the cursor |
| `ResumeRefinement.FirstEventArrives` | src/tfr/gateway_client.py:700-823 | A run in which a first connection publishes the first event ingested |
| `ResumeProtocol.ReadSnapshot` | src/tfr/gateway_client.py:2105-2122 | Succeeds exactly when enough events arrive, strictly increasing and within the hello's cursor, and then returns them |
| `ResumeProtocol.GatewayClient.HandleEvent` | src/tfr/gateway_client.py:1838-1849 | A live event at or below the cursor is skipped, any other is published and becomes the cursor |
| `ResumeProtocol.GatewayClient.Reconnect` | src/tfr/gateway_client.py:998-1033 | An accepted reconnect takes over the new cursor and publishes the whole snapshot in order |
| `ResumeProtocol.GatewayClient.constructor` | src/tfr/gateway_client.py:700-823 | A first connection adopts the hello's cursor and hands its snapshot over without publishing it |
| `EventHistory.EventHistory.Ingest` | src/tfr/gateway.py:403-467 | One ingested event extends the log by the next cursor and keeps every window, counter, drop mark and attached queue equal to what the full log says; a subscription whose worlds and filter take a projected event is queued it behind what it has while there is room, and otherwise detached with the end marker alone; every other is left as it was |
| `EventHistory.EventHistory.Deliver` | src/tfr/gateway.py:447-461 | The same for the delivery loop: worlds, filter and room in the queue decide, and nothing else |
| `EventHistory.EventHistory.Record` | src/tfr/gateway.py:407-444 | Recording slides one world's window and keeps counters and drop marks true of the log |
| `EventHistory.EventHistory.Subscribe` | src/tfr/gateway.py:240-397 | Refused exactly for bad limits or a cursor outside the range; otherwise every event in the snapshot is of a wanted world, projected, passes the filter and is after the cursor, without limits every held event with these properties is in it, counts and gaps name only wanted worlds, and the queue starts where the snapshot ends |
| `EventHistory.EventHistory.TakeSnapshot` | src/tfr/gateway.py:264-389 | Events, cursor, oldest cursor, truncation, counts and gaps of the snapshot, each stated from the full log |
| `EventHistory.EventHistory.CursorGaps` | src/tfr/gateway.py:357-374 | The gap set holds a generation exactly when a candidate of it was left out, or it is the newest dropped generation and a matching event was dropped after the cursor |
| `EventHistory.EventHistory.AvailableCounts` | src/tfr/gateway.py:275-288 | Counts exist exactly for the newest generation of each wanted world with matching events, and equal all its projected events ever ingested, retained or dropped |
| `EventHistory.EventHistory.Retain` | src/tfr/gateway.py:297-346 | The retained events are the simple rule applied to the candidates |
| `EventHistory.EventHistory.Oldest` | src/tfr/gateway.py:347-356 | The oldest cursor is the least retained projected one of the wanted worlds, or one past the end |
| `EventHistory.EventHistory.Unsubscribe` | src/tfr/gateway.py:399-401 | Only the given subscription leaves |
| `EventHistory.EventHistory.Stop` | src/tfr/gateway.py:221-234 | Every subscription ends with the end marker alone and none stays attached |
| `EventHistory.HistorySubscription.Get` | src/tfr/gateway.py:2044-2058 | Takes the oldest entry and leaves the rest; an open subscription yields its stream in order |
| `EventHistory.HistorySubscription.Close` | src/tfr/gateway.py:478-483 | Leaves the end marker alone in the queue |
| `EventHistory.CountEvent` | src/tfr/gateway.py:411-422 | The per-class counters describe the newest generation after one more event |
| `EventHistory.NoteDropped` | src/tfr/gateway.py:430-443 | The drop marks hold the last dropped cursor per class of the newest dropped generation |
| `EventHistory.GapsAreReal` | src/tfr/gateway.py:360-374 | A reported gap is real, and a real one is unreported exactly when all its missing events were dropped and the world has dropped a newer generation |
| `EventHistory.OlderGenerationUnreported` | src/tfr/gateway.py:431-443 | A concrete log for which a missing generation is not reported |
| `EventHistory.LostStep` | src/tfr/gateway.py:427-431 | One ingestion loses at most the oldest event of its own world's window |
| `HistoryMeaning.SnapshotHolds` | src/tfr/gateway.py:289-346 | A snapshot is empty without history, and otherwise the newest of the events asked for and held that the per-world limit, the total and, with a per-world limit, the byte limit leave room for |
| `HistoryMeaning.StreamHolds` | src/tfr/gateway.py:445-461 | An attached subscription was given, in order and once, exactly the events after its snapshot that are projected, of its worlds and pass its filter |
| `HistoryMeaning.CountsAre` | src/tfr/gateway.py:275-288 | Exactly which counts there are and what they count, from the events alone |
| `HistoryMeaning.GapsAre` | src/tfr/gateway.py:357-374 | Exactly which gaps are reported, from the events alone |
| `HistoryMeaning.TruncatedIs` | src/tfr/gateway.py:377-384 | Exactly when truncation is reported, from the events alone |
| `HistoryMeaning.OldestIs` | src/tfr/gateway.py:347-356 | Which cursor is the oldest one, from the events alone |
| `SnapshotMeaning.RetainedIs` | src/tfr/gateway.py:423-444 | An event is retained exactly when fewer newer ones of its world exist than its world's own or the default limit |
| `SnapshotMeaning.CandidatesMeet` | src/tfr/gateway.py:289-296 | The candidates are, in order, exactly the held events of a wanted world that are projected, pass the filter and are after the cursor |
| `SnapshotMeaning.SelectionMeans` | src/tfr/gateway.py:297-346 | What the selection rule keeps of the candidates, by their cursors, worlds and sizes |
| `EventLog.WindowIsRetained` | src/tfr/gateway.py:423-444 | The window of a world is exactly its events above the newest dropped cursor |
| `EventLog.WindowSlides` | src/tfr/gateway.py:427-444 | What one ingested event does to every world's window and dropped part |
| `EventLog.LiveGrows` | src/tfr/gateway.py:445-461 | What one ingested event adds to what a subscriber is owed |
| `Snapshot.MergeNewest` | src/tfr/gateway.py:300-336 | The heap merge returns the simple rule: newest k per world, newest first, longest prefix within the totals, reversed |
| `Snapshot.NewestByCursor` | src/tfr/gateway.py:341-346 | The largest cursors, sorted, are the newest part of the candidates |
| `Snapshot.NewestWithinIsLongest` | src/tfr/gateway.py:319-331 | The simple rule keeps the longest newest part that fits both budgets |
| `Snapshot.CapWorldsKeepsNewest` | src/tfr/gateway.py:331-335 | Capping keeps exactly the newest k events of each world |
| `Snapshot.SnapshotIsOrderedPart` | src/tfr/gateway.py:336-346 | A snapshot is an ordered part of the candidates whatever the budget |
| `Snapshot.UnlimitedSnapshot` | src/tfr/gateway.py:338-340 | Without limits the snapshot is all candidates |
| `SnapshotCounts.CountCandidates` | src/tfr/gateway.py:264-274 | The candidate counters equal the candidates, in total and per generation |
| `SnapshotCounts.LeftOut` | src/tfr/gateway.py:357-362 | A generation has more candidates than snapshot events exactly when one was left out |
| `ConfigurationRuns.UndoRestores` | src/tfr/gateway_configuration.py:369-447 | In every reachable state, for any audit history, an undo that commits restores exactly the content before the last commit |
| `ConfigurationRuns.UndoInRun` | src/tfr/gateway_configuration.py:369-447 | Over a whole run of several stores with failing writes: an undo restores the content before the last commit, whatever refused or failed requests came between |
| `ConfigurationRuns.UndoAccepted` | src/tfr/gateway_configuration.py:369-394 | Exactly when an undo commits: expected revision, describing entries, size limits and working writes |
| `ConfigurationRuns.UndoTwiceRedoes` | src/tfr/gateway_configuration.py:414-447 | Undoing an undo redoes the change |
| `ConfigurationRuns.BatchUndoIsFinal` | src/tfr/gateway_configuration.py:388-413 | The undo of a batch leaves an entry that only names it, and while such an entry is the latest no undo changes anything |
| `ConfigurationRuns.OneChangeCommits` | src/tfr/gateway_configuration.py:569-618 | A single valid change with an effect commits when it expects the current revision, its line fits and no write raises |
| `ConfigurationUndo.UndoRestoresDocumentIff` | src/tfr/gateway_configuration.py:696-704 | After a committed set, reset or batch and its committed undo the document is the earlier one, revision aside, exactly when every touched target already had a section; each section the change made is left behind empty |
| `ConfigurationUndo.UndoLeavesEmptySection` | src/tfr/gateway_configuration.py:696-704 | A concrete set and undo that both commit and leave an empty section in the document |
| `ConfigurationRuns.NoLostUpdate` | src/tfr/gateway_configuration.py:743-747 | Winners expected the revision they found and left the next one; later winners expected strictly later revisions |
| `ConfigurationRuns.RevisionCountsCommits` | src/tfr/gateway_configuration.py:620-637 | While restoring writes succeed the revision counts the commits |
| `ConfigurationRuns.TransactOutcome` | src/tfr/gateway_configuration.py:620-637 | A winner raises the revision by one; a loser changes neither document nor audit unless the restoring write raised too |
| `ConfigurationRuns.TransactKeeps` | src/tfr/gateway_configuration.py:796-813 | After any request the audit is bounded, never ahead of the document, and its entries at the current revision are the whole difference the last commit made |
| `ConfigurationRuns.RunKeeps` | src/tfr/gateway_configuration.py:815-836 | The same over every interleaving of stores on one directory |
| `ConfigurationRuns.ChangedDescribes` | src/tfr/gateway_configuration.py:287-328 | The entries of a set, reset or batch describe exactly the change it proposes |
| `ConfigurationRuns.RevertedInverts` | src/tfr/gateway_configuration.py:388-396 | Putting back the previous values, newest first, inverts the change the entries describe |
| `ConfigurationRuns.ChangesReadBack` | src/tfr/gateway_configuration.py:592-597 | After a committed set, reset or batch every requested value reads back, every reset is gone, and nothing else changed |
| `ConfigurationRuns.WholeDocumentWrites` | src/tfr/gateway_configuration.py:491-567 | A whole-document change gives the replacement's content; removing a profile removes exactly its section |
| `ConfigurationCommits.ChangesCommitIff` | src/tfr/gateway_configuration.py:276-331 | Exactly when a set, reset or batch commits: 1 to 64 changes at distinct addresses, each of a known setting in its scope, with a suitable target, a valid value and an effect, the current revision expected, document and lines within their limits and no write raising |
| `ConfigurationCommits.BatchCommits` | src/tfr/gateway_configuration.py:276-331 | Such a batch of any size from 1 to 64 succeeds with one entry per change |
| `ConfigurationCommits.BatchSizeRefused` | src/tfr/gateway_configuration.py:333-337 | A batch of none or more than 64 is refused and changes nothing |
| `ConfigurationCommits.ChangesWrite` | src/tfr/gateway_configuration.py:287-328 | Document, previous copy, audit and entries after a committed set, reset or batch, field by field |
| `ConfigurationCommits.ChangeErrorIs` | src/tfr/gateway_configuration.py:639-669 | Which refusal a change meets before the lock, in the order of the checks |
| `ConfigurationCommits.ContentValidIs` | src/tfr/gateway_configuration.py:706-728 | What makes stored content valid, scope by scope |
| `ConfigurationCommits.UndoWrites` | src/tfr/gateway_configuration.py:386-447 | The entry of a committed undo, for one undone change and for several |
| `ConfigurationCommits.UndoRefusals` | src/tfr/gateway_configuration.py:369-387 | When an undo is refused for a stale revision, an empty history or a whole-document change |
| `ConfigurationCommits.ReplaceCommitsIff` | src/tfr/gateway_configuration.py:491-524 | Exactly when a whole-document change commits, and what it leaves |
| `ConfigurationCommits.RemovalCommitsIff` | src/tfr/gateway_configuration.py:526-567 | Exactly when the removal of an existing UI profile commits, and what it leaves |
| `ConfigurationCommits.ProfileNeeded` | src/tfr/gateway_configuration.py:526-545 | A missing profile is refused |
| `ConfigurationCommits.ConflictRefused` | src/tfr/gateway_configuration.py:743-747 | A request that expects another revision is refused and changes nothing |
| `ConfigurationCommits.AuditKeeps` | src/tfr/gateway_configuration.py:796-813 | New entries go behind as many of the newest older lines as 500 lines and 1048576 bytes leave room for |
| `ConfigurationPlan.OlderKeptIsLongest` | src/tfr/gateway_configuration.py:801-813 | The older audit lines kept are the longest suffix that fits 500 lines and 1 MiB |
| `Configuration.PutReadsBack` | src/tfr/gateway_configuration.py:579-590 | A written entry reads back and every other entry is left alone |
| `Configuration.ContentValidMeans` | src/tfr/gateway_configuration.py:706-728 | A document is valid exactly when every entry is |
| `ConfigurationStore.GatewayConfigurationStore.Set` | src/tfr/gateway_configuration.py:203-229 | Whatever the store remembered, the directory and the result are those of the transaction on the reloaded state; a failure leaves memory as it was or as reloaded |
| `ConfigurationStore.GatewayConfigurationStore.Reset` | src/tfr/gateway_configuration.py:231-253 | The same for a reset |
| `ConfigurationStore.GatewayConfigurationStore.Mutate` | src/tfr/gateway_configuration.py:569-618 | The shared body of both, equal to a batch of one |
| `ConfigurationStore.GatewayConfigurationStore.Batch` | src/tfr/gateway_configuration.py:276-331 | The same for a batch of 1 to 64 changes |
| `ConfigurationStore.GatewayConfigurationStore.NormalizeBatch` | src/tfr/gateway_configuration.py:333-367 | The first failing change decides the refusal, before the lock |
| `ConfigurationStore.GatewayConfigurationStore.ApplyBatch` | src/tfr/gateway_configuration.py:288-328 | The loop over a batch computes the planned document and entries, or its first error |
| `ConfigurationStore.GatewayConfigurationStore.Undo` | src/tfr/gateway_configuration.py:369-447 | The same for an undo |
| `ConfigurationStore.GatewayConfigurationStore.ReplaceDocument` | src/tfr/gateway_configuration.py:491-524 | The same for a whole-document change |
| `ConfigurationStore.GatewayConfigurationStore.RemoveUiProfile` | src/tfr/gateway_configuration.py:526-567 | The same for the removal of a UI profile |
| `ConfigurationStore.GatewayConfigurationStore.Commit` | src/tfr/gateway_configuration.py:620-637 | Three writes and the restoring fourth leave exactly the described directory, and memory moves only on success |
| `ConfigurationStore.GatewayConfigurationStore.AppendAudit` | src/tfr/gateway_configuration.py:796-813 | The audit file becomes the newest entries behind as many older ones as fit, or stays |
| `ConfigurationStore.GatewayConfigurationStore.Lock` | src/tfr/gateway_configuration.py:815-836 | Document and history are reloaded from the directory |
| `ConfigurationTree.OrderIrrelevant` | src/tfr/gateway_configuration.py:912-942 | For prefix-free keys the effective configuration is the same for every permutation of the entries |
| `ConfigurationTree.AllReadBack` | src/tfr/gateway_configuration.py:962-985 | Every entry of a prefix-free set reads back from the effective configuration |
| `ConfigurationTree.WriteReadsBack` | src/tfr/gateway_configuration.py:977-985 | A write reads back at its path |
| `ConfigurationTree.WriteElsewhere` | src/tfr/gateway_configuration.py:977-985 | A write leaves every incomparable path alone |
| `ConfigurationTree.WritesCommute` | src/tfr/gateway_configuration.py:977-985 | Writes at incomparable paths commute |
| `ConfigurationTree.WriteOverwrites` | src/tfr/gateway_configuration.py:977-985 | A write at or above a path discards what was written below |
| `ConfigurationTree.WriteBelow` | src/tfr/gateway_configuration.py:977-985 | Writing below a written value is writing into that value, with a plain value replaced by an object |
| `ConfigurationTree.WritesCommuteIff` | src/tfr/gateway_configuration.py:977-985 | Two writes commute exactly when their paths are incomparable, or equal with one value, or the value at the upper path is an object that already holds the lower one |
| `ConfigurationTree.AppliedCommuteIff` | src/tfr/gateway_configuration.py:962-985 | The same for two entries of the effective configuration: exactly when they go to different objects or their routed writes agree |
| `ConfigurationTree.RoutingSeparates` | src/tfr/gateway_configuration.py:969-976 | Routing keeps incomparable keys of one destination incomparable |
| `ConfigurationTree.OverlayOrderIrrelevant` | src/tfr/gateway_client.py:2885-2904 | The UI overlay obeys the same order law |
| `ConfigurationTree.OverlayStaysInside` | src/tfr/gateway_client.py:2891-2895 | The overlay changes nothing outside its three roots |
| `ConfigurationTree.AppliedLands` | src/tfr/gateway_configuration.py:969-976 | Which object each key lands in, by its first segment, where it reads back, and that paths apart from it and the other objects are unchanged |
| `ConfigurationTree.OverlayReadsBack` | src/tfr/gateway_client.py:2885-2904 | An overlaid setting reads back |
| `ConfigurationTree.WriteAt` | src/tfr/gateway_configuration.py:977-985 | The walk over segments computes the tree write |
| `ConfigurationTree.EffectiveConfiguration.ApplyKey` | src/tfr/gateway_configuration.py:962-985 | A key under `worlds` changes only the worlds object, one under `providers` or `agents` only the agents object, any other only the main object, and there the value reads back at the key's own segments (those after the first for the three names under `worlds`) |
| `ConfigurationTree.EffectiveConfiguration.ApplyAll` | src/tfr/gateway_configuration.py:923-942 | Applying all entries is the fold of single applications |
| `ConfigurationValues.Index.Record` | src/tfr/configuration_values.py:61-82 | One layer gets the value, redacted if sensitive; the others stay; refused exactly for unknown settings, the default layer or invalid values |
| `ConfigurationValues.Index.Clear` | src/tfr/configuration_values.py:112-120 | One key leaves one layer; the others stay |
| `ConfigurationValues.Index.Resolve` | src/tfr/configuration_values.py:84-107 | A runtime value wins over a managed one, that over one from the files, then the default, else nothing |
| `ConfigurationIndex.ServedAgreesIff` | src/tfr/gateway.py:3528-3548 | From agreement, for any targets, one committed set, reset, batch or undo keeps it exactly when no holder of a synchronised key is left with a value other than the one the last synchronised address stores, or with any value when that address is empty; a failure that restores the document keeps it |
| `ConfigurationIndex.RequestAgreesIff` | src/tfr/gateway.py:2690-2836 | The condition on the document before and what is asked for, for a set, reset, batch or undo: once the requested or remembered values are in place, every section that holds a key they name holds the value the last of them gives it |
| `ConfigurationIndex.OneChangeAgreesIff` | src/tfr/gateway.py:2690-2705 | For one set or reset: no other section holds the key, unless each with the very value that is set |
| `ConfigurationIndex.ResetWithTwoHomes` | src/tfr/gateway.py:3528-3548 | For every world and every grouped setting of it, such as `worlds.a.tls.enabled` under the worlds `a` and `a.tls`: a state with agreement and no clash before or after in which one accepted reset breaks the agreement |
| `ConfigurationIndex.IndexRuns` | src/tfr/gateway.py:3528-3548 | Over any run of confirmed set, reset, batch and undo requests with writes failing at any point, the managed layer holds exactly the stored values of every key that no failed restore has changed since its last synchronisation |
| `ConfigurationIndex.IndexAgreesAfterRun` | src/tfr/gateway.py:3528-3548 | While restoring writes succeed no key is stale and the whole managed layer holds exactly the non-UI entries of the stored document |
| `ConfigurationIndex.IndexKeeps` | src/tfr/gateway.py:2815-2836 | One such request, including the undo of a batch, whose entries come from what the store remembers |
| `ConfigurationIndex.MemoryKeeps` | src/tfr/gateway_configuration.py:458-459 | The history the store remembers always holds exactly the entries of the current revision |
| `ConfigurationIndex.CoveredAgreesIff` | src/tfr/gateway.py:3528-3548 | When the synchronised entries cover every difference of two documents, the agreement carries over exactly when they are settled |
| `ConfigurationIndex.LoadManaged` | src/tfr/gateway.py:884-897 | The initial load establishes the agreement |
| `ConfigurationIndex.AgreementPossible` | src/tfr/gateway.py:884-897 | Some managed layer agrees with a document exactly when no two of its sections hold different values under one key |
| `ConfigurationIndex.AgreesIs` | src/tfr/gateway.py:884-897 | The agreement spelled out: recorded are exactly the keys that a section other than those of UIs and UI types holds, with their values, hidden when sensitive |
| `TargetNames.DotFreeHasOneHome` | src/tfr/gateway_configuration.py:657-669 | World names without dots give a key one home |
| `TargetNames.PluginHasOneHome` | src/tfr/gateway_configuration.py:657-669 | The same for plugin names |
| `TargetNames.HomesAre` | src/tfr/gateway_configuration.py:657-669 | Which names the two target rules accept for a key: those whose segments, after the prefix, begin the segments of the key |
| `TargetNames.WorldHomes` | src/tfr/core_settings.py:539-675 | A world setting that the registry knows has the world it names as its home, and if it is grouped also that name followed by the group, and no others |
| `TargetNames.GroupedKeyHasTwo` | src/tfr/configuration_registry.py:287-303 | Every grouped setting of every world matches its descriptor and has two homes |
| `TargetNames.PluginKeyHasTwo` | src/tfr/gateway_configuration.py:660-666 | So has every setting below a plugin |
| `ConfigurationIndex.DotFreeNamesHaveOneHome` | src/tfr/gateway_configuration.py:657-669 | So names without dots are targets for which every key outside the UI sections has one home |
| `CoordinatedUpdate.UpdateAgreement` | src/tfr/gateway_client.py:2588-2595 | A UI activates only the release it staged, and only after every selected participant reported the Gateway's version and commit staged |
| `CoordinatedUpdate.GatewayAgreement` | src/tfr/gateway.py:3797-3815 | The same for the Gateway's own activation |
| `CoordinatedUpdate.OneVerdict` | src/tfr/gateway.py:3742-3795 | No transaction says both commit and abort, and words of different transactions never interleave |
| `CoordinatedUpdate.MembershipClosed` | src/tfr/gateway.py:1986-1989 | While an update is open no one can register, and participants and selected ones are among those captured at its start |
| `CoordinatedUpdate.LateAcknowledgement` | src/tfr/gateway.py:3865-3879 | An unexpected acknowledgement changes nothing; an expected one settles only its own request; one of an earlier transaction does not affect the current decision |
| `CoordinatedUpdate.ActivationFailureBlocksUpdates` | src/tfr/gateway.py:3584-3588 | Over any run: a release is left staged with no update under way exactly when the Gateway has failed to activate one, and then no later step ever begins an update or changes that release |
| `CoordinatedUpdate.ActivationCanFail` | src/tfr/gateway.py:3797-3815 | A concrete run of a Gateway without UIs that ends there |
| `CoordinatedUpdate.RunKeeps` | src/tfr/gateway.py:3731-3824 | Phases, members, replies, messages in flight and decisions stay consistent over any run |
| `UpdateRun.UpdateGoesThrough` | src/tfr/gateway.py:3731-3824 | A run from the first handshake to the restart in which the UI and the Gateway both activate the release |
| `UpdateRun.StartTaskDoes` | src/tfr/gateway.py:3742-3755 | Every selected registered participant is sent its own prepare request and nobody else anything |
| `UpdateRun.DecideDoes` | src/tfr/gateway.py:3756-3795 | All selected registered participants are told to commit the staged release when everyone answered its version and commit, and to abort otherwise |
| `UpdateRun.DeliverDoes` | src/tfr/gateway_client.py:1852-1863 | A UI reads in order; prepares and commits become tasks, an abort drops what is staged |
| `UpdateRun.UiPreparesDoes` | src/tfr/gateway_client.py:1990-2016 | What was staged is remembered and reported; a failure is refused |
| `UpdateRun.UiCommitsDoes` | src/tfr/gateway_client.py:2588-2595 | Exactly the staged release of the named identifier is activated, and the answer tells whether it was |
| `UpdateRun.GatheredIs` | src/tfr/gateway.py:3742-3764 | Gathering ends with the first failure or when all have answered |
| `UpdateRun.GatewayStepsWhen` | src/tfr/gateway.py:3731-3824 | When each step of the update coroutine can be taken, among them that it decides only once an answer failed or all have come |
| `UpdateRun.CommitsDoneIs` | src/tfr/gateway.py:3782-3800 | Commits are over when each was answered or failed |
| `UpdateCoordinator.RefusalsHaveReasons` | src/tfr/gateway.py:3601-3723 | Each refusal to stage has its reason, and without one every captured participant reports its build and has been checked, and those that need an update are managed and supported |
| `UpdateCoordinator.Coordinator.Register` | src/tfr/gateway.py:1986-1989 | A handshake registers exactly while membership is open |
| `UpdateCoordinator.Coordinator.Unregister` | src/tfr/gateway.py:2025-2030 | A lost participant leaves and everything it still owed is broken |
| `UpdateCoordinator.Coordinator.BeginStaging` | src/tfr/gateway.py:3584-3600 | Refused exactly while a release is staged or an update is running, without an update checker, or when forced off the candidate channel; otherwise membership closes |
| `UpdateCoordinator.Coordinator.FinishStaging` | src/tfr/gateway.py:3601-3729 | Refused for exactly the first problem of the captured participants, reopening membership; nothing to do exactly when neither core nor plugins of any captured participant or of the Gateway need an update; otherwise the release is staged for exactly the captured participants whose core or plugins need it |
| `UpdateCoordinator.Coordinator.StartPreparing` | src/tfr/gateway.py:3742-3755 | Every selected participant, and no other, is asked to prepare and has a waiting request |
| `UpdateCoordinator.Coordinator.Decide` | src/tfr/gateway.py:3756-3790 | Commit is sent to all selected exactly when all answered the staged version and commit, else abort |
| `UpdateCoordinator.Coordinator.Clear` | src/tfr/gateway.py:3765-3824 | The end of either branch |
| `UpdateCoordinator.Coordinator.ActivateGateway` | src/tfr/gateway.py:3797-3815 | A failed activation reopens membership but keeps the release staged |
| `UpdateCoordinator.Coordinator.HandleAck` | src/tfr/gateway.py:3865-3879 | Only the waiting request of a registered participant is answered |
| `UpdateCoordinator.UiRuntime.PrepareUpdate` | src/tfr/gateway_client.py:2552-2586 | A successful staging is remembered and acknowledged with its version and commit |
| `UpdateCoordinator.UiRuntime.CommitUpdate` | src/tfr/gateway_client.py:2588-2595 | Activates exactly the staged release of that identifier |
| `UpdateCoordinator.UiRuntime.AbortUpdate` | src/tfr/gateway_client.py:2597-2600 | Drops the staged release |
| `Ansi.SelectionScansBack` | src/tfr/ansi.py:144-163 | Any selection of a text's pieces, joined, scans back into exactly those pieces |
| `Ansi.AnyChoiceScansBack` | src/tfr/ansi.py:144-163 | Any choice of tokens by position, joined, scans back into exactly these |
| `Ansi.HiddenPrefixProjects` | src/tfr/ansi.py:50-62 | Projecting the text without n visible characters gives the plain text without its first n |
| `Ansi.SliceProjects` | src/tfr/ansi.py:64-77 | Projecting a visible slice gives the slice of the plain text |
| `Ansi.StripIdempotent` | src/tfr/ansi.py:166-167 | Stripping twice is stripping once |
| `Ansi.ControlSelfDelimiting` | src/tfr/ansi.py:124-141 | What follows a complete control sequence does not change its length |
| `Ansi.CsiSelfDelimiting` | src/tfr/ansi.py:115-121 | The same for CSI sequences |
| `Ansi.StringSelfDelimiting` | src/tfr/ansi.py:104-112 | The same for control strings |
| `Ansi.JoinPieces` | src/tfr/ansi.py:144-163 | The pieces tile the raw text |
| `Ansi.PlainHasNoIntroducer` | src/tfr/ansi.py:124-141 | No control introducer survives in plain text |
| `Ansi.CsiIsHidden` | src/tfr/ansi.py:115-121 | A control sequence ends with the first character from 0x40 to 0x7E after its introducer, and exactly that is hidden |
| `Ansi.StringIsHidden` | src/tfr/ansi.py:104-112 | A control string ends with BEL, 0x9C or ESC backslash, and exactly that is hidden |
| `Ansi.OpenCsiHidesRest` | src/tfr/ansi.py:115-121 | An unterminated control sequence hides the rest |
| `Ansi.OpenStringHidesRest` | src/tfr/ansi.py:104-112 | So does an unterminated control string |
| `Ansi.OtherCharacters` | src/tfr/ansi.py:124-141 | Any other escape hides two characters, 0x9C hides itself, and every other character is visible |
| `Ansi.DropExtends` | src/tfr/ansi.py:50-62 | Hiding a prefix keeps each control token, and each visible character with at least that many before it |
| `Ansi.SliceExtends` | src/tfr/ansi.py:64-77 | A slice keeps a control token while fewer than `end` visible characters came before it, and a visible character between `start` and `end` |
| `Ansi.ProjectAnsi` | src/tfr/ansi.py:144-163 | Tokens, plain text and raw boundaries are those of the pieces |
| `Ansi.TerminatedControlEnd` | src/tfr/ansi.py:104-112 | The end of a control string |
| `Ansi.CsiEnd` | src/tfr/ansi.py:115-121 | The end of a CSI sequence |
| `Ansi.ControlEnd` | src/tfr/ansi.py:124-141 | The end of whatever control starts here, or none |
| `Ansi.AnsiProjection.RawBoundary` | src/tfr/ansi.py:45-48 | The boundary cuts the raw text so that the rest projects to the rest of the plain text |
| `Ansi.AnsiProjection.RemoveVisiblePrefix` | src/tfr/ansi.py:50-62 | The result projects to the plain text without its prefix; refused exactly outside the range |
| `Ansi.AnsiProjection.VisibleSlice` | src/tfr/ansi.py:64-77 | The result projects to the slice; refused exactly outside the range |
| `Ansi.Parsed` | src/tfr/adapters.py:102-145 | The display text with a hidden prefix projects to the message text, and the prefix span is that of the shown prefix |
| `MigrationCollection.CollectMigrationSettings` | src/tfr/gateway_migration.py:115-168 | Refused exactly for too many entries; otherwise what the sorted items of the expanded dictionary give, each with its slot and without sensitive values, for its own UI and with no slot twice |
| `MigrationCollection.FlattenedIs` | src/tfr/gateway_migration.py:235-246 | Flattening assigns exactly the values that stand under a topmost known key |
| `MigrationCollection.FlattenPluginConfig` | src/tfr/gateway_migration.py:235-246 | The recursion makes those assignments, a later one to a key replacing an earlier one |
| `MigrationCollection.ExpansionsAre` | src/tfr/gateway_migration.py:126-132 | Each legacy entry assigns its own value, but an object under the plugins' key the values under the topmost known keys below it |
| `MigrationCollection.LastAssigned` | src/tfr/gateway_migration.py:126-132 | The last assignment to a key stays |
| `Migration.CollectSettings` | src/tfr/gateway_migration.py:133-168 | The loop over the sorted items collects one setting per known key |
| `Migration.CollectedOwnSlots` | src/tfr/gateway_migration.py:139-147 | What is collected targets its own UI in UI scope and proposes no slot twice |
| `Migration.UiSlotsUncontested` | src/tfr/gateway_migration.py:352-354 | In a store of collected proposals, one per UI, no UI slot ever has two candidates |
| `Migration.OrderInsensitive` | src/tfr/gateway_migration.py:285-430 | For collected proposals and empty choices every slot is decided the same for every order of submission, merged speaker rules aside |
| `Migration.ContestedMeans` | src/tfr/gateway_migration.py:355-368 | A contested slot without a choice is accepted exactly when all who changed the default agree, else it is a conflict |
| `Migration.ApplyKeepsManaged` | src/tfr/gateway_migration.py:432-492 | Without rename choices applying changes no managed value but the speaker rules |
| `Migration.ApplyKeepsManagedIff` | src/tfr/gateway_migration.py:404-460 | For any choices, applying keeps every managed value but the speaker rules exactly when no rename sends a slot to a managed address with another value, unless a later slot is sent to the same address |
| `Migration.RenameLosesManaged` | src/tfr/gateway_migration.py:404-419 | A concrete document, two proposals and one rename choice that lose a managed value |
| `Migration.AppliedWrites` | src/tfr/gateway_migration.py:448-460 | After applying, each address holds the value of the last item for it, and any other its earlier value |
| `MigrationMeaning.UndisputedIs` | src/tfr/gateway_migration.py:307-354 | What is decided for each slot before values are compared: unknown, bootstrap, homeless, managed, sensitive, agreed or a UI's own |
| `MigrationMeaning.ChoiceDecides` | src/tfr/gateway_migration.py:369-422 | What each choice does to a disputed slot, with the first candidate of the named UI |
| `MigrationMeaning.DisputedIs` | src/tfr/gateway_migration.py:307-356 | Which slots are disputed |
| `MigrationMeaning.GroupIs` | src/tfr/gateway_migration.py:286-294 | The candidates of a slot are exactly what the UIs proposed for it |
| `MigrationMeaning.SlotsAre` | src/tfr/gateway_migration.py:133-157 | Where a collected setting belongs, by the scope it is registered with |
| `MigrationMeaning.CollectedAre` | src/tfr/gateway_migration.py:133-168 | One setting for each known key, in order, without the values of sensitive ones |
| `MigrationStore.GatewayMigrationStore.Submit` | src/tfr/gateway_migration.py:267-279 | Refused exactly for over 2000 settings, a future revision or a new UI beyond 64; a resubmission replaces its UI's proposal |
| `MigrationStore.GatewayMigrationStore.Grouped` | src/tfr/gateway_migration.py:286-294 | Candidates are grouped by slot in submission order |
| `MigrationStore.GatewayMigrationStore.Preview` | src/tfr/gateway_migration.py:311-430 | Every proposed slot gets its decision, or the preview fails exactly when one cannot be previewed |
| `MigrationStore.GatewayMigrationStore.Apply` | src/tfr/gateway_migration.py:432-492 | Succeeds exactly when the revision is the expected one, every slot is decided and has a place, the proposal validates and the commit goes through; then exactly the accepted slots, written in sorted slot order, and the secret references are there at the next revision and the document before is remembered; a failure forgets the attempt |
| `MigrationStore.GatewayMigrationStore.Rollback` | src/tfr/gateway_migration.py:494-511 | Restores the remembered document whenever the expected revision is current, whatever was committed since |
| `MigrationStore.SubmittedKeeps` | src/tfr/gateway_migration.py:267-279 | One proposal per UI |
| `MigrationStore.SubmittedInPlace` | src/tfr/gateway_migration.py:267-279 | A resubmission takes the place of the earlier proposal, a first one comes last |
| `MigrationStore.SubmissionsKeep` | src/tfr/gateway_migration.py:267-279 | A store that receives collected proposals holds only such, one per UI |
| `SpeakerRules.MergeIsFirstWins` | src/tfr/gateway_migration.py:219-232 | The merge names each offered speaker once, by the first rule for it |
| `SpeakerRules.FirstsInOrder` | src/tfr/gateway_migration.py:219-232 | Kept rules stand in order of first mention |
| `SpeakerRules.MergeAgain` | src/tfr/gateway_migration.py:219-232 | Merging the result with the same candidates changes nothing |
| `SpeakerRules.NormalTwice` | src/tfr/gateway_migration.py:200-216 | Normalising a rule twice is normalising it once |
| `SpeakerRules.MergeKeeps` | src/tfr/gateway_migration.py:219-232 | A rule is kept exactly when its speaker folds to something that no rule offered before it folds to |
| `SpeakerRules.OfferedAre` | src/tfr/gateway_migration.py:200-231 | What is offered: the rule objects of each list, normalized, in order |
| `SpeakerRules.NormalIs` | src/tfr/gateway_migration.py:200-216 | A normalized rule keeps all but its unsupported kinds, and a list without a supported one is dropped |
| `SpeakerRules.MergeSpeakerRules` | src/tfr/gateway_migration.py:219-232 | The loops compute the first-wins union |
| `SpeakerRules.NormalizedSpeakerRules` | src/tfr/gateway_migration.py:200-216 | The loop computes the normalized rules |
| `AgentContext.SelectContext` | src/tfr/agents.py:141-204 | The longest suffix, of at least one event, of the newest events that count is chosen and shown as fully as it fits |
| `AgentContext.Truncate` | src/tfr/agents.py:192-202 | Binary search keeps the most text that fits after the marker |
| `AgentContext.CutGrows` | src/tfr/agents.py:181-202 | Keeping more text renders strictly longer |
| `AgentContext.SelectIds` | src/tfr/agents.py:142-165 | Selected are conversation events and, if wanted, inbound events after the last look up to the next command |
| `AgentContext.CountsIs` | src/tfr/agents.py:141-165 | Which events count, spelled out |
| `AgentRendering.MessageReads` | src/tfr/agents.py:166-188 | A reader made from the JSON grammar reads the message back as exactly the events shown: no text can end its string, change another member or add an event |
| `AgentRendering.ItemReads` | src/tfr/agents.py:168-182 | The same for one event, whatever follows |
| `AgentRendering.QuotedReads` | src/tfr/agents.py:181-182 | The same for one text |
| `AgentLimiter.RateLimitHolds` | src/tfr/agents.py:351-376 | Over any run no minute holds more than the permitted requests and consecutive ones are at least the cooldown or a minute apart |
| `AgentLimiter.CooldownExact` | src/tfr/agents.py:351-361 | The cooldown itself holds in all runs exactly when it is at most a minute |
| `AgentLimiter.AcceptedIff` | src/tfr/agents.py:351-376 | Over any run a request is accepted exactly when fewer than the permitted number were accepted in the last minute and the last one was the cooldown or a minute ago |
| `AgentLimiter.Limiter.Attempt` | src/tfr/agents.py:351-376 | One attempt is judged by the times less than a minute old |
| `Devices.RunKeeps` | src/tfr/gateway_devices.py:233-294 | Over any run with failing saves memory equals the file and a code never issues a second device |
| `Devices.IssuedOnce` | src/tfr/gateway_devices.py:233-294 | A code issues at most once, and what it issued is never replaced |
| `Devices.RetryAfterRun` | src/tfr/gateway_devices.py:246-255 | Until expiry or revocation a redeemed code gives its login the same device and token and other logins nothing |
| `Devices.TimesOverRun` | src/tfr/gateway_devices.py:323-352 | Over any run a surviving device keeps its identity and its times never move backward, and a device issued during the run has creation, use and expiry in order and consistent |
| `Devices.LoadedStarts` | src/tfr/gateway_devices.py:395-415 | A store fresh from a file with distinct identifiers satisfies the invariant |
| `Devices.NewDevicesSane` | src/tfr/gateway_devices.py:258-281 | A device appears only by a saved redemption and goes only by a saved revocation, and its times start consistent |
| `Devices.RedeemDoes` | src/tfr/gateway_devices.py:233-294 | Each outcome of a redemption, field by field: a device valid for 180 days, the code spent, and the redemption remembered until the code would have expired |
| `Devices.OfferDoes` | src/tfr/gateway_devices.py:206-231 | A code is good for ten minutes, expired entries go, and each world is kept once in the order given |
| `Devices.MarkDoes` | src/tfr/gateway_devices.py:323-352 | Each outcome of a use: expired, used within a day, unsaved, or extended to 180 days from now |
| `Devices.RevokeDoes` | src/tfr/gateway_devices.py:372-393 | The device and every redemption that returned it go, or, unsaved, nothing |
| `Devices.DeviceStore.CreatePairing` | src/tfr/gateway_devices.py:206-231 | Drops what expired and offers the new code for ten minutes |
| `Devices.DeviceStore.RedeemCode` | src/tfr/gateway_devices.py:233-294 | A retry, a first use, or a refusal; a failed save leaves the code usable |
| `Devices.DeviceStore.MarkUsed` | src/tfr/gateway_devices.py:323-352 | Extends a living device at most once a day; a failed save changes nothing |
| `Devices.DeviceStore.RevokeDevice` | src/tfr/gateway_devices.py:372-393 | Removes the device and every redemption that returned it; a failed save changes nothing |
| `GagPolicy.CacheIsRecent` | src/tfr/gag.py:68-77 | The cache holds exactly the most recently queried identifiers up to its size, each with the answer last given |
| `GagPolicy.CachedAnswerRepeats` | src/tfr/gag.py:68-73 | A cached identifier gets its previous answer again, whatever an evaluation would say |
| `GagPolicy.Policy.Allows` | src/tfr/gag.py:68-77 | One query extends that history and leaves pattern health alone on a hit |
| `GagPolicy.Policy.Evaluate` | src/tfr/gag.py:79-113 | Denies exactly when the event is inbound, its world has patterns, its text has at most 16384 characters, and a pattern that is not quarantined matches after only quarantined or unmatched ones; only the deciding pattern's health is affected |
| `GagPolicy.ThirdTimeoutQuarantines` | src/tfr/gag.py:96-106 | A pattern is quarantined by exactly its third timeout, and no other pattern with it |
| `GagPolicy.OutcomeLeaves` | src/tfr/gag.py:88-113 | What each outcome of the deciding pattern leaves behind |
| `GagPolicy.Policy.ReplaceConfiguration` | src/tfr/gag.py:56-62 | Forgets decisions and pattern health |
| `Admission.LocalCount` | src/tfr/gateway.py:1808-1815 | The subtraction is the true number of local clients |
| `Admission.Gate.AcceptUnix` | src/tfr/gateway.py:1782-1825 | Refused exactly at the local limit; all accounts stay disjoint and bounded |
| `Admission.Gate.AcceptTcp` | src/tfr/gateway.py:1789-1806 | Refused exactly at the global or per-host waiting limit |
| `Admission.Gate.Authenticate` | src/tfr/gateway.py:1860-1866 | A waiting client becomes a remote one exactly if it waits and there is room |
| `Admission.Gate.Done` | src/tfr/gateway.py:1827-1832 | An ended client leaves every account |
| `EventBus.DeliveryGuarantees` | src/tfr/core.py:32-71 | Over every interleaving, cancelled publications included: a subscriber with backpressure gets every event since it subscribed, in order, but those whose publication was cancelled before it was served; another loses besides only events older than those queued |
| `EventBus.MissedExactly` | src/tfr/core.py:57-71 | Over any run: the events a subscriber misses are exactly those whose publication was cancelled while it was unserved |
| `EventBus.CancellationMissesOne` | src/tfr/core.py:64-71 | A concrete run in which a cancelled publication reached one subscriber and never the one with backpressure |
| `EventBus.NothingMissed` | src/tfr/core.py:64-71 | Without a cancellation everything since the subscription is put into the queue |
| `EventBus.PutDoes` | src/tfr/core.py:64-71 | A served queue gets the event behind what it has; a full one gives up its oldest event and no other |
| `EventBus.PutWhen` | src/tfr/core.py:64-71 | Whom a publication may serve next, and when it has to wait |
| `EventBus.PublishDoes` | src/tfr/core.py:57-71 | Publications take turns, and each goes to everyone registered when its turn begins |
| `EventBus.TakeDoes` | src/tfr/core.py:64-71 | Receiving takes the oldest event |
| `EventBus.RegistrationDoes` | src/tfr/core.py:32-55 | What subscribing, leaving and closing change, and when they can happen |
| `EventBus.AbandonDoes` | src/tfr/core.py:57-71 | A cancelled publication is missed by exactly those it had not reached |
| `EventBus.RunKeeps` | src/tfr/core.py:57-82 | Every interleaving keeps each queue the newest owed events in order |

## Left out
- Sockets, TLS, the JSON of wire messages and files, file permissions and fsync: channels are queues and writes are atomic cells that may raise without effect. A write that raises after it took effect is not modelled.
- `_bounded_event`, which shortens oversized events, is the identity, and the projection filter is a fixed predicate.
- The client's cursor update and the publication of the event are one step, so a cancellation between the two is not modelled; nor are gateway restarts, generation resets and refused session changes during a reconnect.
- One client is followed through the resume protocol; others do not interact with it.
- Byte and event limits of snapshots requested by other clients enter the protocol only through `EventHistory.EventHistory.Subscribe`; the code ignores the byte limit unless a per-world limit is given, and the model follows the code.
- EventHistory.GapsAreReal: the gap report covers only the newest dropped generation of each world, as the code does; the lemma says exactly which gaps that leaves out.
- ResumeProtocol.SwitchIsSeamless: speaks of a subscription that is still attached; that an overflowed one holds the end marker alone is in `EventHistory.EventHistory.Deliver`.
- Loading a version 0 configuration document, documents or audits edited by other programs, and the order in which several faults of one document are reported (all are one refusal).
- Equality of Python values that JSON keeps apart, such as `True` and `1`: values are compared as JSON texts.
- ConfigurationIndex.IndexRuns: does not cover whole-document changes and profile removals, because the Gateway does not synchronise those value by value.
- ConfigurationTree.WriteAt: nested objects are values, so that two keys could share one object in memory is not captured.
- Validation of the effective configuration, secret resolution and live application of settings.
- Which releases, builds and plugins need an update is given as answers to the Gateway's questions, some of which may fail; how the checks are sent to UIs and what `force` changes about them are left out.
- A UI without update configuration, and the cancellation of an update when the Gateway shuts down.
- Liveness of updates and reconnects: a failed acknowledgement after staging leaves an update open, and the code does not guarantee progress.
- CoordinatedUpdate.UpdateAgreement: says nothing about every UI activating; a UI whose commit message is lost or late stays on its old release.
- Reading legacy files, file backups and the migration state file; a migration state that cannot be saved.
- MigrationStore.GatewayMigrationStore.Rollback: compares only the expected revision, as the code does, so changes committed after the migration are lost by it.
- The model provider, triggers and validation of agent actions; floating-point rounding of clock readings, which are exact numbers here.
- Digest collisions and repeated random identifiers in device pairing; loading device files.
- Regular expressions: adapter prefixes and gag patterns are given as match ends and search outcomes.
- Sinks, processors and the command bus of `src/tfr/core.py`: they would only add easy members.
- Rendering, borders, clear effects, boss views, plugin loading, prompts, help, diagnostics and request dispatch.
