# Bridget: verified models of its protocols, stores and layouts

Bridget is a daemon through which coding agents talk to each other. This project models the parts of it that carry real
invariants and proves those invariants in Dafny 4.11. `dafny verify dfyconfig.toml` checks everything.

| component | files | in short |
|---|---|---|
| Sleep/wake synchronisation | `TrackingModel`, `TrackingInvariant`, `TrackingHistory`, `TrackingReplay`, `TrackingTheorems`, `TrackingFairness`, `TrackingStarvation`, `TrackingStore` | a two-way exchange between local choices and a remote client, with an outbox, attempts, receipts and a fair scheduler; one inductive invariant, then statements about whole runs |
| Artifact store | `ArtifactModel`, `ArtifactInvariant`, `ArtifactTheorems`, `ArtifactStore`, `BlobRead` | version chains, reference counts, idempotent publication, the byte quota, verified windowed reads |
| Send envelope | `Canonical` | the canonical bytes of a request and a decoder for them |
| Updater | `Updater`, `UpdaterProcess` | activation, rollback and recovery with a crash between any two steps |
| Terminal view | `StyledText`, `Wrapping`, `WrappingTheorems` | word wrapping whose logical units survive a resize |
| Tables | `CliTable`, `TableLayout` | cell cleaning and wrapping, column shrinking, line widths |
| Display names | `NameVariants`, `NameSearch`, `DisplayNames`, `ProfileStore` | the search for a free variant, and names that stay distinct |
| Codex launch | `Shell`, `Launch`, `LaunchTheorems` | parsing, printing and re-parsing a command line |
| Breaker | `CircuitBreaker` | a pruned deque against the complete log |
| Idle report | `IdlePartition` | eight lists in which every agent stands exactly once |

Conventions. A store method is one atomic step on maps, and an error leaves the maps as they were. Identifiers that the
program only compares are numbers. Clocks, oracles (health, storage checks, receipts), the Unicode tables, JSON text,
digests and the canonical form of a UUID are parameters; what is assumed of them is a named predicate (`Standard`,
`Codex`, `BoxDrawing`). Where the source updates fields, the model is a class whose methods are proved equal to a
function of the old state; the loops of the source are loops here. A few functions take the operation they use as a
parameter (`merge`, `drop`, `name`): the lemmas then hold for any operation with the stated property, and the source's
own operation is plugged in at the end.

## Where the code does less than one would expect

- A second `soft_delete` of an artifact lowers the counts again, so a blob another artifact links to can end uncounted
  (`SecondDeleteLosesBlob`); exact counts survive exactly when the artifact was live or nothing it links to is counted
  (`DeleteKeepsExact`).
- The updater's record can come to name an image that was never healthy, when a process that started on the candidate
  recovers, tries it again, fails to roll back and then starts another attempt (`FallbackCanBeLost`); the record names
  a healthy image exactly when the live image was confirmed or is the candidate itself (`RecordNamesHealthyImage`).
- The scheduler looks at 10000 candidates, and those that cannot leave yet stay parked in that window. A host that
  repeats a report never has an uncertain order repeated exactly when 10000 candidates are parked before it
  (`StarvedExactly`), and ordinary choices from empty tables lead there (`StarvationReached`). Exchanges with room
  pass over an order a bounded number of times in every run (`BoundedBypass`).
- A line that ends in a blank can lose its final break. For lines of characters that all take room, the units are
  independent of the width exactly when the line is code, is empty, does not end in a blank or is a single character
  (`UnitsIndependentOfWidth`).
- Among p + 1 name variants two can be the same name: a base of 79 or 80 characters that already ends in " (k)"
  coincides with its k-th variant, and exactly those bases can fail (`CollisionExact`, `SearchAlwaysSucceeds`). A rename
  can then fail although the holder is not running (`RenameCanFail`), and only then (`RenameBlocked`). The comment in
  the source counts the variants as distinct.
- `remote_tui_args` drops the argument after a *value* that is spelled like a permission option (`ModelTakesPolicy`);
  otherwise it passes on exactly the other options (`RemoteOfParsed`). Settings given with `-c` are passed on as they are.
- The breaker lets the first exchange of a conversation through whatever the limit (`FirstAlwaysPasses`), so its bound
  is the limit or one, whichever is larger. Names with '|' can share a key (`BarConfuses`); `KeyShared` says exactly
  which do.
- A table of one or two columns overflows a terminal narrower than 5n + 1 columns, and any other one a terminal
  narrower than 11 (`TableWithin`).

## Model

| member | source | states |
|---|---|---|
| TrackingInvariant.Reachable | crates/bridget-daemon/src/agent_tracking.rs:98-207 | every run of bind, set and sync from empty tables keeps the whole invariant: linked and journalled orders, distinct revisions per agent, one uncertain order, an open order is the pending one and carries the current choice, attempts within 0..2 with a rejection recorded for each earlier one, sequences at or above their floor |
| TrackingInvariant.EnqueuedKeeps | crates/bridget-daemon/src/agent_tracking_sync230.rs:21-30 | enqueueing supersedes every unsent order, leaves an uncertain one, and re-establishes the pending clauses from a state in which only they are broken |
| TrackingInvariant.BindKeeps | crates/bridget-daemon/src/agent_tracking.rs:98-121 | binding a thread keeps the invariant, with or without the order it creates |
| TrackingInvariant.SetKeeps | crates/bridget-daemon/src/agent_tracking.rs:148-207 | a local choice keeps the invariant |
| TrackingInvariant.ConfirmAllKeeps | crates/bridget-daemon/src/agent_tracking_sync230.rs:71-118 | absorbing any list of receipts keeps the invariant |
| TrackingInvariant.ObserveAllKeeps | crates/bridget-daemon/src/agent_tracking_sync230.rs:119-160 | absorbing any list of observations keeps the invariant |
| TrackingInvariant.SyncKeeps | crates/bridget-daemon/src/agent_tracking_sync230.rs:36-241 | a whole exchange, with the order it delivers, keeps the invariant |
| TrackingHistory.RunAdvances | crates/bridget-daemon/src/agent_tracking_sync230.rs:71-238 | over every run rows and orders only advance: revisions, source sequences and attempts never decrease, receipts and request answers are never rewritten, settled orders stay settled |
| TrackingTheorems.OneOrderOfEachKind | crates/bridget-daemon/src/agent_tracking_sync230.rs:21-30 | two orders of an agent have different revisions, are not both uncertain nor both unsent, and the uncertain one is the older |
| TrackingTheorems.JournalRebuilds | crates/bridget-daemon/src/agent_tracking.rs:125-145 | in every reachable state the rows are what replaying the journal gives |
| TrackingTheorems.ViewCoherent | crates/bridget-daemon/src/agent_tracking.rs:45-57 | the reader is told "pending" exactly when an order is open, and the status agrees |
| TrackingTheorems.SyncHoldsChoice | crates/bridget-daemon/src/agent_tracking_sync230.rs:142-154 | an exchange leaves a local choice alone while its order stays pending |
| TrackingTheorems.ExchangesHoldChoice | crates/bridget-daemon/src/agent_tracking_sync230.rs:119-160 | a pending choice survives any number of exchanges, whatever they report |
| TrackingTheorems.ReceiptNeverIgnored | crates/bridget-daemon/src/agent_tracking_sync230.rs:73-81 | an accepted answer always finds its (operation, attempt) key free, so the ignore clause never applies |
| TrackingTheorems.DeliveryKeyed | crates/bridget-daemon/src/agent_tracking_sync230.rs:219-238 | attempt k is emitted only after a recorded rejection of every earlier attempt and without an answer to k; an uncertain order is repeated with its own attempt; anything else needs synchronisation and carries the current choice |
| TrackingTheorems.SameKeyUntilRejected | crates/bridget-daemon/src/agent_tracking_sync230.rs:100-117 | two deliveries of one order, any run apart, have the same key unless the first was rejected |
| TrackingTheorems.StaleObservationIgnored | crates/bridget-daemon/src/agent_tracking_sync230.rs:129-138 | an observation with a lower sequence changes nothing |
| TrackingTheorems.RepeatedReportChangesNothing | crates/bridget-daemon/src/agent_tracking_sync230.rs:119-160 | while the rows are as a report left them, the report sent again without receipts changes nothing, whatever the outbox holds |
| TrackingReplay.HeardForEver | crates/bridget-daemon/src/agent_tracking_sync230.rs:119-160 | after an exchange with any receipts and any run, the agent of a reported thread is bound to it and at least as recent as the observation |
| TrackingReplay.ReplayedReportIsIdle | crates/bridget-daemon/src/agent_tracking_sync230.rs:119-160 | a report taken in once with any receipts, and sent again without receipts after any run and by any host, is accepted and journals nothing for an agent that was bound to the first host and a reported thread |
| TrackingTheorems.LatestDistinct | crates/bridget-daemon/src/agent_tracking_sync230.rs:63-69 | the size comparison takes exactly the reports in which no thread stands twice |
| TrackingTheorems.RequestAnsweredOnce | crates/bridget-daemon/src/agent_tracking.rs:165-179 | after any run a request is answered as the first time and changes nothing, and another envelope under its identifier is refused |
| TrackingFairness.EligibleGetsServed | crates/bridget-daemon/src/agent_tracking_sync230.rs:163-238 | with fewer candidates parked before an eligible order than the window holds, it is served or an order before it is |
| TrackingFairness.RepeatedExactly | crates/bridget-daemon/src/agent_tracking_sync230.rs:199-238 | exactly when an exchange repeats a given uncertain order |
| TrackingFairness.PassingOverCosts | crates/bridget-daemon/src/agent_tracking_sync230.rs:163-238 | an exchange with room that passes over an uncertain order takes one order from those ahead of it |
| TrackingFairness.BoundedBypass | crates/bridget-daemon/src/agent_tracking_sync230.rs:161-238 | over any run, exchanges with room pass over an uncertain order fewer times than its host had open orders at first and orders were added since |
| TrackingFairness.NoRoomNoRepeat | crates/bridget-daemon/src/agent_tracking_sync230.rs:163-202 | an exchange without room never repeats the order |
| TrackingFairness.WindowHasRoom | crates/bridget-daemon/src/agent_tracking_sync230.rs:163-202 | a host with at most 10000 open orders always has room |
| TrackingStarvation.StarvedExactly | crates/bridget-daemon/src/agent_tracking_sync230.rs:161-238 | over exchanges without receipts that repeat a known report, an uncertain order is passed over without end exactly when at least 10000 candidates are parked before it |
| TrackingStarvation.StarvationReached | crates/bridget-daemon/src/agent_tracking_sync230.rs:161-202 | a run from empty tables, by choices and bindings and one exchange, after which an uncertain order is never repeated, however many exchanges follow |
| TrackingStore.Candidates | crates/bridget-daemon/src/agent_tracking_sync230.rs:163-196 | the query loop returns the first orders of the host in delivery order, up to the limit |
| TrackingStore.Confirmations | crates/bridget-daemon/src/agent_tracking_sync230.rs:70-118 | the loop over receipts computes the model's fold, errors included |
| TrackingStore.Observations | crates/bridget-daemon/src/agent_tracking_sync230.rs:119-160 | the loop over observations computes the model's fold, errors included |
| TrackingStore.Selection | crates/bridget-daemon/src/agent_tracking_sync230.rs:198-238 | the first eligible candidate is the one order no eligible candidate precedes |
| TrackingStore.Store.Bind | crates/bridget-daemon/src/agent_tracking.rs:98-121 | the tables become what the step gives and stay valid |
| TrackingStore.Store.Set | crates/bridget-daemon/src/agent_tracking.rs:148-207 | same for a local choice, with the answer returned |
| TrackingStore.Store.Sync | crates/bridget-daemon/src/agent_tracking_sync230.rs:36-241 | same for an exchange, with at most one command returned |
| ArtifactTheorems.Reachable | crates/bridget-daemon/src/artifact_store.rs:300-442 | any mix of publish, delete and restore keeps the chains and never counts more references than live links; counts are exact when only live artifacts are deleted |
| ArtifactTheorems.OneChain | crates/bridget-daemon/src/artifact_store.rs:1087-1126 | the versions of an artifact are exactly the ancestors of its current version, numbered 1 to n, each the parent of the next |
| ArtifactInvariant.CurrentIsHighest | crates/bridget-daemon/src/artifact_store.rs:1117-1125 | the largest version number is that of the current version, so the next number and the parent agree |
| ArtifactInvariant.UpsertAllCounts | crates/bridget-daemon/src/artifact_store.rs:1128-1181 | a version adds one reference to each digest it lists, however often it lists it, and stored metadata stays |
| ArtifactInvariant.UpsertAllSucceeds | crates/bridget-daemon/src/artifact_store.rs:1147-1155 | the references are accepted exactly when each fits 63 bits and agrees with the stored blobs and with the others |
| ArtifactInvariant.PersistKeeps | crates/bridget-daemon/src/artifact_store.rs:300-442 | publishing keeps chains, the bound and exact counts |
| ArtifactInvariant.DeleteKeeps | crates/bridget-daemon/src/artifact_store.rs:984-1030 | deleting keeps chains and the bound, also when repeated |
| ArtifactInvariant.DeleteKeepsExact | crates/bridget-daemon/src/artifact_store.rs:1005-1027 | deleting keeps exact counts exactly when the artifact was live or none of its blobs is counted |
| ArtifactInvariant.RestoreKeeps | crates/bridget-daemon/src/artifact_store.rs:893-941 | restoring keeps chains, the bound and exact counts |
| ArtifactTheorems.RunKeepsExact | crates/bridget-daemon/src/artifact_store.rs:893-1030 | counts equal live links over every run that deletes live artifacts only |
| ArtifactTheorems.RestoreUndoesDelete | crates/bridget-daemon/src/artifact_store.rs:893-1030 | deleting and restoring gives the same tables exactly when no count was cut off at zero |
| ArtifactTheorems.RestoreUndoesDeleteExact | crates/bridget-daemon/src/artifact_store.rs:893-1030 | with exact counts it always does |
| ArtifactTheorems.SecondDeleteLosesBlob | crates/bridget-daemon/src/artifact_store.rs:1005-1027 | a run from empty tables: two publications share a blob, deleting one of them twice leaves the blob uncounted and still linked; deleting it once does not |
| ArtifactTheorems.ReplayIsIdle | crates/bridget-daemon/src/artifact_store.rs:310-326 | after an accepted publication and any run, the same content under its key gets the original receipt, other content is refused, and neither changes anything |
| ArtifactTheorems.VersionsKept | crates/bridget-daemon/src/artifact_store.rs:355-380 | no run rewrites a version |
| ArtifactTheorems.ProjectionCovers | crates/bridget-daemon/src/artifact_service.rs:134-141 | the projected bytes are never less than what the publication adds to the total |
| ArtifactTheorems.QuotaHolds | crates/bridget-daemon/src/artifact_policy.rs:81-94 | for every limit, an accepted creating publication with the reference the service resolves leaves the referenced bytes at or under the limit |
| ArtifactStore.HighestVersion | crates/bridget-daemon/src/artifact_store.rs:1120-1124 | the query returns the largest number in use, 0 for none |
| ArtifactStore.UpsertBlobs | crates/bridget-daemon/src/artifact_store.rs:404-406 | the loop over references computes the model's fold and stops at the first failure |
| ArtifactStore.TotalBytes | crates/bridget-daemon/src/artifact_store.rs:767-774 | the sum over blobs with references, each once |
| ArtifactStore.ProjectedBytes | crates/bridget-daemon/src/artifact_service.rs:135-141 | the loop gives the saturated sum of the bytes of blobs not yet referenced |
| ArtifactStore.Store.PersistPublication | crates/bridget-daemon/src/artifact_store.rs:300-442 | tables and result are those of the model's step |
| ArtifactStore.Store.DeleteArtifact | crates/bridget-daemon/src/artifact_store.rs:984-1030 | tables and result are those of the model's step |
| ArtifactStore.Store.RestoreArtifact | crates/bridget-daemon/src/artifact_store.rs:893-941 | tables and result are those of the model's step |
| ArtifactStore.Store.Publish | crates/bridget-daemon/src/artifact_service.rs:134-183 | as the model's checked publication, and after a creation the total is at or under the limit, whatever it is |
| BlobRead.ReadSlice | crates/bridget-daemon/src/artifact_blob_store.rs:108-193 | however the file arrives in chunks, the result is the window of its content, exactly when the request is acceptable, length and digest match and nothing changed |
| BlobRead.PieceExtends | crates/bridget-daemon/src/artifact_blob_store.rs:169-175 | what one chunk adds turns the window of what was read into the window of what is read now |
| BlobRead.PagesReadAll | crates/bridget-daemon/src/artifact_service.rs:359-366 | following the next offset with any positive page sizes ends and gives the rest of the content |
| BlobRead.ReadWhole | crates/bridget-daemon/src/artifact_service.rs:314-366 | reading page by page, each page from its own chunking, gives the whole content |
| Canonical.DecodeEncode | crates/bridget-daemon/src/communication.rs:184-221 | every envelope whose lengths fit 64 bits is decoded from its bytes, with or without control block, notice and reason |
| Canonical.EncodeInjective | crates/bridget-daemon/src/communication.rs:184-207 | equal bytes mean equal envelopes in every field |
| Canonical.ControlReads | crates/bridget-daemon/src/communication.rs:154-181 | the control block, present or omitted, is read back from what follows it |
| Canonical.NoticeReads | crates/bridget-daemon/src/communication.rs:212-221 | a thread notice is read back |
| Canonical.FieldReads | crates/bridget-daemon/src/communication.rs:139-142 | a length-prefixed field is read back whatever follows |
| Canonical.OptionalReads | crates/bridget-daemon/src/communication.rs:144-152 | an optional field is read back whatever follows |
| Canonical.AppendReferences | crates/bridget-daemon/src/communication.rs:177-180 | the loop appends one field a reference |
| Canonical.CanonicalSend | crates/bridget-daemon/src/communication.rs:184-207 | the appended bytes are the encoding and decode to the request |
| Updater.RunSound | scripts/update.py:610-700 | in every run, crashes included, each control point knows what it relies on |
| Updater.RedirectsAreChecked | scripts/update.py:645-700 | every redirect of the link goes to an image whose storage check passed in the same attempt |
| Updater.RecordSpansTheSwitch | scripts/update.py:645-757 | in every run, from any redirect to a recorded candidate until health is confirmed, the way back is taken or a new record is written, the file names that attempt and the link is on its candidate: through crashes, failed checks, raising redirects and relaunches |
| Updater.RedirectIsUnsettled | scripts/update.py:678-685 | an effective redirect out of the recorded state opens such a span, also when it raises after it moved the link |
| Updater.RecoveryConverges | scripts/update.py:736-757 | however often recovery crashes and starts again, the record stands or the link is on the old image with the record cleared |
| Updater.RunSafe | scripts/update.py:656-700 | in an orderly run a live image nobody found healthy is the recorded candidate, and the recorded fallback was healthy |
| Updater.RecordNamesHealthyImage | scripts/update.py:656-678 | exactly when a new record names a healthy image |
| Updater.FallbackCanBeLost | scripts/update.py:656-678 | a reachable state whose record names an image that was never healthy while the healthy one is named nowhere |
| UpdaterProcess.Process.Recover | scripts/update.py:736-757 | a run of the machine; ready means the record is cleared and the link is back, otherwise the record stands or the link is back |
| UpdaterProcess.Process.Activate | scripts/update.py:645-705 | a run of the machine; activated, rolled back, refused and raised each with the link and record they leave |
| UpdaterProcess.Process.RollBack | scripts/update.py:689-700 | rolled back means the old image is live and confirmed; otherwise the live image is a checked one |
| UpdaterProcess.Process.SwitchLink | scripts/update.py:285-292 | the link moves or not, and may raise after it moved |
| UpdaterProcess.Process.SaveState | scripts/update.py:514-516 | memory changes first, the file may follow |
| StyledText.FlattenMerge | crates/bridget-daemon/src/attach_renderer.rs:569-588 | merging characters into spans shows the same characters |
| StyledText.PushIsMerge | crates/bridget-daemon/src/attach_renderer.rs:64-92 | pushing a text at once or character by character gives the same spans |
| StyledText.SkipUnits | crates/bridget-daemon/src/attach_renderer.rs:440-458 | skipping removes exactly the units asked for, as far as there are any |
| StyledText.SkipSkip | crates/bridget-daemon/src/attach_renderer.rs:440-458 | skipping a then b is skipping a + b |
| StyledText.TrimSpans | crates/bridget-daemon/src/attach_renderer.rs:115-127 | the loop over spans removes exactly the first glyphs |
| StyledText.TrimVisiblePrefix | crates/bridget-daemon/src/attach_renderer.rs:102-129 | the row without its first units, or nothing when all are gone |
| StyledText.SkipVisiblePrefix | crates/bridget-daemon/src/attach_renderer.rs:440-458 | the loop over rows computes the skip |
| Wrapping.HardSplitSpec | crates/bridget-daemon/src/attach_renderer.rs:557-567 | the longest prefix that fits, and at least one character |
| Wrapping.HardSplitAt | crates/bridget-daemon/src/attach_renderer.rs:557-567 | the loop computes that split |
| Wrapping.WordSplitAt | crates/bridget-daemon/src/attach_renderer.rs:549-555 | the last blank before it that is not at the start, else the hard split |
| Wrapping.CutAt | crates/bridget-daemon/src/attach_renderer.rs:501-544 | a row ends past its start, hides blanks only, hides nothing of code, and the next row starts at a visible character |
| Wrapping.ExpandSpans | crates/bridget-daemon/src/attach_renderer.rs:472-490 | tabs become spaces to the next multiple of four and line feeds vanish |
| Wrapping.WrapLine | crates/bridget-daemon/src/attach_renderer.rs:460-547 | the loop produces the rows of one line |
| Wrapping.WrapAll | crates/bridget-daemon/src/attach_renderer.rs:460-547 | the loop over lines produces the rows of the document |
| WrappingTheorems.WrapKeepsText | crates/bridget-daemon/src/attach_renderer.rs:460-547 | wrapping keeps the non-blank styled characters in order, and every character of code |
| WrappingTheorems.WrapFits | crates/bridget-daemon/src/attach_renderer.rs:501-544 | every row fits the terminal when every character fits the narrowest row |
| WrappingTheorems.WrapUnits | crates/bridget-daemon/src/attach_renderer.rs:440-547 | a line has one unit a character and one for its break, at every width; only the break can be missing |
| WrappingTheorems.ReaderKeepsPlace | crates/bridget-daemon/src/attach_renderer.rs:440-547 | after n units the rows left show exactly the characters after the n-th of the document |
| WrappingTheorems.ResizeKeepsPlace | crates/bridget-daemon/src/attach_renderer.rs:440-547 | a resize changes neither the number of units nor what a reader has left to read |
| WrappingTheorems.UnitsIndependentOfWidth | crates/bridget-daemon/src/attach_renderer.rs:501-544 | exactly which lines have the same units at every width |
| CliTable.CleanTwice | crates/bridget-daemon/src/cli_table.rs:374-403 | cleaned text has no escape, control or line character left, and cleaning it again changes nothing |
| CliTable.WrapChunks | crates/bridget-daemon/src/cli_table.rs:647-665 | the chunks of a cell join to its cleaned text, are not empty, fit, and could not have been longer |
| CliTable.WrapFits | crates/bridget-daemon/src/cli_table.rs:647-665 | in a column of at least two no chunk is too wide |
| CliTable.WrapCell | crates/bridget-daemon/src/cli_table.rs:647-665 | the loop computes the chunks |
| TableLayout.ShrunkSpec | crates/bridget-daemon/src/cli_table.rs:708-714 | shrinking ends with a fair assignment whose total is the budget, twice the columns or the natural total |
| TableLayout.FairUnique | crates/bridget-daemon/src/cli_table.rs:708-714 | fairness and the total determine the widths |
| TableLayout.Shrink | crates/bridget-daemon/src/cli_table.rs:708-714 | the loop shrinks the widths in place to that assignment |
| TableLayout.WidestColumn | crates/bridget-daemon/src/cli_table.rs:709 | the last of the widest columns |
| TableLayout.ColumnsFit | crates/bridget-daemon/src/cli_table.rs:693-714 | a line fits the terminal exactly from 5n + 1 columns on |
| TableLayout.LineHasWidth | crates/bridget-daemon/src/cli_table.rs:736-751 | a line is as wide as the columns it fills, three more each and one |
| TableLayout.BorderHasWidth | crates/bridget-daemon/src/cli_table.rs:716-727 | a border is as wide as a full line |
| TableLayout.RowShows | crates/bridget-daemon/src/cli_table.rs:757-775 | the k-th line of a row shows the k-th chunk of each cell, so none is lost |
| TableLayout.DirectWidth | crates/bridget-daemon/src/cli_table.rs:715-780 | no bordered line is wider than the columns together, and with full rows all have that width |
| TableLayout.TableWithin | crates/bridget-daemon/src/cli_table.rs:666-781 | exactly when no bordered line is wider than the terminal, short rows and name-and-value tables included |
| NameSearch.CollisionExact | crates/bridget-daemon/src/agent_profile.rs:1262-1272 | a variant is the same name as its base exactly when the base has 79 or 80 characters and ends in that variant's ending |
| NameSearch.VariantsDiffer | crates/bridget-daemon/src/agent_profile.rs:1262-1272 | different numbers give different names |
| NameSearch.SearchSucceeds | crates/bridget-daemon/src/agent_profile.rs:1246-1278 | without a collision p + 1 variants contain one that p names do not occupy |
| NameSearch.SearchFails | crates/bridget-daemon/src/agent_profile.rs:1246-1278 | with one, k - 1 names occupy all k variants tried |
| NameSearch.SearchAlwaysSucceeds | crates/bridget-daemon/src/agent_profile.rs:1246-1278 | the search finds a name whatever is taken, exactly for the bases without a collision |
| NameSearch.FoundIsFree | crates/bridget-daemon/src/agent_profile.rs:1272-1275 | a found name is valid and free |
| NameSearch.FindAvailable | crates/bridget-daemon/src/agent_profile.rs:1261-1277 | the loop over suffixes computes the search |
| NameVariants.CleanIsClean | crates/bridget-daemon/src/agent_profile.rs:1334-1340 | a cleaned name has single inner blanks, none at its ends, and 1 to 80 characters |
| DisplayNames.RunKeeps | crates/bridget-daemon/src/agent_profile.rs:624-743 | over every run names stay distinct, revisions never go back, and a running agent that asks for nothing keeps its profile |
| DisplayNames.RenameKeeps | crates/bridget-daemon/src/agent_profile.rs:624-678 | everyone else is unchanged, or was not running and gets a name nobody had with the next revision |
| DisplayNames.RenameGives | crates/bridget-daemon/src/agent_profile.rs:650-677 | the agent that asked has the name it asked for, under the next revision unless it had it already |
| DisplayNames.RenameRefused | crates/bridget-daemon/src/agent_profile.rs:653-658 | a held name is refused exactly when its holder runs or no other name can be found for it, and nothing changes then |
| DisplayNames.TakeOver | crates/bridget-daemon/src/agent_profile.rs:1309-1332 | the displaced holder and the new one change together, and no name clashes |
| DisplayNames.UpdateKeeps | crates/bridget-daemon/src/agent_profile.rs:680-743 | an update keeps names distinct and touches only its profile |
| DisplayNames.EnsureKeeps | crates/bridget-daemon/src/agent_profile.rs:1814-1860 | creating a profile keeps names distinct and every other profile |
| DisplayNames.EnsureAllKeeps | crates/bridget-daemon/src/agent_profile.rs:394-407 | ensuring a list of agents keeps names distinct and every profile there was, and a failure changes nothing |
| DisplayNames.EnsureAllCovers | crates/bridget-daemon/src/agent_profile.rs:394-407 | after success every listed agent has a profile |
| ProfileStore.EnsureSucceeds | crates/bridget-daemon/src/agent_profile.rs:1846-1853 | creating a profile never fails for want of a name |
| ProfileStore.RenameCanFail | crates/bridget-daemon/src/agent_profile.rs:1309-1332 | a run from the empty table after which taking the name of a holder that is not running fails |
| ProfileStore.RenameBlocked | crates/bridget-daemon/src/agent_profile.rs:650-677 | in a valid table, taking the name of a holder that is not running fails only when one of the holder's variants, up to one more than there are profiles, is the holder's name again |
| ProfileStore.FindHolder | crates/bridget-daemon/src/agent_profile.rs:1292-1304 | the query finds the one other holder of a name, or none |
| ProfileStore.Store.RenameDisplayName | crates/bridget-daemon/src/agent_profile.rs:624-678 | the table becomes what the step gives and stays valid |
| ProfileStore.Store.UpdateProfile | crates/bridget-daemon/src/agent_profile.rs:680-743 | same for an update |
| ProfileStore.Store.EnsureProfiles | crates/bridget-daemon/src/agent_profile.rs:394-407 | table and result are those of the listed Ensure steps one after the other, or the old table when one of them fails (in a transaction of its own) |
| Shell.SplitJoin | crates/bridget-daemon/src/codex_interactive.rs:156-169 | a shell splits the printed command into the words that were quoted, and acts on no character of it |
| LaunchTheorems.ResumeRoundTrip | crates/bridget-daemon/src/codex_interactive.rs:138-170 | the printed command, split and parsed again, has the same server arguments, options, model and name, the given thread and no prompt |
| LaunchTheorems.OnlyPromptDropped | crates/bridget-daemon/src/codex_interactive.rs:139-151 | the options kept are all the terminal's arguments but the prompt |
| LaunchTheorems.ParsedLaunch | crates/bridget-daemon/src/codex_interactive.rs:21-116 | what parsing accepts is a list of well-formed options and at most one prompt, and determines the launch |
| LaunchTheorems.ValuedTakesValue | crates/bridget-daemon/src/wrapper.rs:998-1021 | every option parsed with a value is in the table of options that take one |
| LaunchTheorems.RemoteWithholds | crates/bridget-daemon/src/codex_interactive.rs:124-136 | no permission option is passed to the remote terminal, whatever the arguments |
| LaunchTheorems.RemoteExact | crates/bridget-daemon/src/codex_interactive.rs:124-136 | for any well-formed options and prompt, exactly when the remote terminal gets all other options and the prompt |
| LaunchTheorems.RemoteOfParsed | crates/bridget-daemon/src/codex_interactive.rs:118-136 | for every command line that parses: the remote terminal gets exactly the other options and the prompt if and only if no kept option has the name of a permission option for its value |
| LaunchTheorems.ModelTakesPolicy | crates/bridget-daemon/src/codex_interactive.rs:127-134 | arguments for which a value is dropped with the option after it |
| Launch.ParseArguments | crates/bridget-daemon/src/codex_interactive.rs:29-115 | the index loop computes the parse, errors included |
| Launch.RemoteTuiArgs | crates/bridget-daemon/src/codex_interactive.rs:124-136 | the index loop computes the arguments passed on |
| Launch.CollectOptions | crates/bridget-daemon/src/codex_interactive.rs:142-151 | the loop computes the options kept |
| CircuitBreaker.KeyTells | crates/bridget-core/src/circuit_breaker.rs:9-13 | names without a vertical bar share their key with no other pair, whatever the names of that pair |
| CircuitBreaker.KeyShared | crates/bridget-core/src/circuit_breaker.rs:9-13 | another pair has the key of two names exactly when the key has a second bar with the part before it not after the part behind it |
| CircuitBreaker.BarConfuses | crates/bridget-core/src/circuit_breaker.rs:9-13 | two different pairs with the same key |
| CircuitBreaker.PrunedCounts | crates/bridget-core/src/circuit_breaker.rs:72-79 | dropping expired times changes no count now or later |
| CircuitBreaker.NoWindowOverflows | crates/bridget-core/src/circuit_breaker.rs:51-62 | when every exchange passed the check, no window, wherever it starts, holds more than the limit |
| CircuitBreaker.AdmittedBounded | crates/bridget-core/src/circuit_breaker.rs:51-80 | whatever is tried and when, no window holds more than the limit or one, whichever is larger |
| CircuitBreaker.CountRecent | crates/bridget-core/src/circuit_breaker.rs:58 | the filter counts the times after the cutoff |
| CircuitBreaker.FirstAlwaysPasses | crates/bridget-core/src/circuit_breaker.rs:55-56 | a new conversation passes the check at limit 0 |
| CircuitBreaker.Breaker.CheckAt | crates/bridget-core/src/circuit_breaker.rs:51-62 | the answer is that of the complete log |
| CircuitBreaker.Breaker.CountAt | crates/bridget-core/src/circuit_breaker.rs:82-89 | the count is that of the complete log |
| CircuitBreaker.Breaker.RecordAt | crates/bridget-core/src/circuit_breaker.rs:65-80 | the log grows by this time and the kept times still count like it |
| CircuitBreaker.Breaker.Exchange | crates/bridget-core/src/circuit_breaker.rs:33-43 | a check followed by a record keeps every conversation under the limit or one, whichever is larger |
| IdlePartition.FreeMeans | scripts/bridget-idle.py:1657-1690 | an agent is called free exactly when nothing speaks against it |
| IdlePartition.Classify | scripts/bridget-idle.py:1562-1690 | the loop over the names, with the branches and early exits of the source, adds each name to one list, the one it belongs to |
| IdlePartition.Place | scripts/bridget-idle.py:1562-1690 | one turn of the loop appends the name to one list and changes no other |
| IdlePartition.OneClaim | scripts/bridget-idle.py:1562-1690 | the conditions of the eight lists exclude each other and one always holds |
| IdlePartition.ClassifiedOnce | scripts/bridget-idle.py:1530-1533 | every daemon name stands once in the eight lists together, their lengths add up to the number of names, and each name stands in the list it belongs to |
| IdlePartition.PartitionOnce | scripts/bridget-idle.py:1713-1751 | every name stands exactly once if and only if the lists partition the names as sets and their lengths add up |
| IdlePartition.Oracle | scripts/bridget-idle.py:1713-1751 | accepts exactly the lists that partition the daemon names as sets, with no dead name among them |
| IdlePartition.CloseKeeps | scripts/bridget-idle.py:1754-1767 | closing keeps how often each name stands, empties the free and silent lists and moves their names to the undecided |
| IdlePartition.Report | scripts/bridget-idle.py:1519-1767 | whatever was observed, closed or not, the oracle accepts the result and every reported name stands exactly once |
| IdlePartition.Validate | scripts/bridget-idle.py:1467-1485 | the directory is accepted exactly when every entry has a name of its own |

## Left out

- SQLite, JSON text, schema migration and the busy timeout: a store method is one step; the row snapshots hold only the host.
- The tables `artifact_sources` and `artifact_references`, pins, shares, metrics, listing and eviction: rows nothing here depends on.
- Sums beyond 63 bits inside SQLite other than the byte total, and version numbers beyond 63 bits.
- HTML preparation, provenance and payload validation before a publication, and the cancellation checks between its steps.
- SHA-256 and `stable_uuid`: a hash parameter, and the pair (operation, attempt) in place of the command identifier.
- File ownership, permissions and links of blobs: their outcome is part of the request in `ReadSlice`.
- Markdown parsing, colours and the frame protocol of the attached terminal.
- The image clean-up after an activation, the lease deadline, and how health and storage checks decide: answers given to the updater.
- Labels, avatars, instructions and notifications of profiles; identities without a profile.
- Choosing a thread by name, the pseudo-terminal and signals of the Codex launch.
- The reasons printed beside undecided agents, ages, and how occupied sets and observations are collected.
- Updater.RunSafe: holds for orderly runs only; `FallbackCanBeLost` is a run that is not orderly.
- WrappingTheorems.UnitsIndependentOfWidth: for characters that take room; which lines with zero-width characters lose their break is not characterised.
- Breaker times are unbounded integers; the source's monotonic clock cannot be taken below its origin.
