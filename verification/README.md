# Poktroll, proved

Dafny models of the self-contained algorithms of the Pocket Network Shannon node, with
proofs of what they are for.  `dafny verify dfyconfig.toml` checks everything.

## What is modelled

**The block archiver** (`app/streaming_file.go`).  A node streams each block into two files:
a metadata file with three length-prefixed messages, which is also the completion marker,
and a data file with the change set.  Both are written under a `.partial` name and renamed,
the data first.

* `Framing`, `Decimal`, `ArchivePaths`: the bytes of a frame and the reader that a consumer
  needs, decimal numbers, and the four forms of names in the write directory.
* `DiskModel`: a file system with two images.  Processes see names and contents; the disk
  has the directory as of its last sync, the changes to it since, and the inodes whose
  contents were synced.  Every system call succeeds or fails as a script says, a failing
  write leaves any prefix of its bytes behind, and every intermediate image is remembered.
  `AnythingUnsyncedGoes` and `FailedWriteLeavesAny` say how bad that can get.
* `ArchivePlan`: the two listener calls as plans, each step with the clean-up that follows
  when it fails.  `FileStreaming` has the object: fields updated in place, one system call at
  a time, an explicit clean-up on every error path.  Its methods are proved to carry out the
  plans call for call under every script, so that what is proved of plans holds of it.
* `ArchiveAnswers`, `ArchiveTidy`: what a call answers and blames, what it leaves open or
  half-written, and what it never touches.
* `ArchiveSafety`, `ArchiveProtocol`: the invariant of every image and the stretches of a
  plan, each keeping it.
* `ArchiveHistory`: whole histories.  Processes start on whatever disk the one before left,
  sweep, hear any calls, meet any failures, and end at any moment -- by dying, or with the
  power.  In every history a marker means a complete block and acknowledged blocks stay.
  The archive that a consumer decodes refines a log: over a run it gains exactly the blocks
  whose commits landed, over a history nothing but those and the ones that an end cut short;
  only a power loss takes any away, and none that was acknowledged.
* `ArchiveLimits`: where the promises end, with exact conditions.
* `ArchiveRestreams`: histories that stream heights again, in the ways that cannot mislead.

**The migration fixtures** (`testutil/testmigration`).  `MorseTypes` has the entities,
`Amounts` the index-driven amounts in 64-bit arithmetic, `StateExport` the generator of an
export with its claimable accounts, `FixtureLayout` what the fixture builder is to build,
`FixtureFacts` what that says of every entry, and `Fixtures` the builder: a preallocated table filled through one running index over fourteen
loops, export lists, and groups that share the table's objects.

**The goroutine limiter** (`pkg/sync2/limiter.go`): `Limiting`, the steps that callers,
workers and closers interleave, and every run of them.

**The retry engine** (`pkg/retry/retry.go`): `Retrying`, the supervisor over event
sequences, the caller, and exponential backoff in 64-bit integers.

**The card validator's report and compile memo** (`pkg/cards/cards.go`): `Cards` and
`CompileMemo`.

## What the model assumes

* Listener calls are serialised by the streamer's mutex, so each is one method call.  A
  context is looked at once, at the start of a call: it is the parameter `live`.
* Marshalled messages are given as bytes; a marshalling failure shows like a write that
  fails with nothing written.
* Directory changes reach the disk in the order they were made, and a power loss keeps some
  number of them; contents survive for inodes synced since their last change.  Strict
  histories, in which the power may go, have syncing on in every process; in the others
  every end is a dead process.
* Names are kept as structure.  `ArchivePaths.RenderInjective` justifies that; a `Foreign`
  name is one that the archiver does not use.  The processes of a history share their write
  directory and prefix.  There are no hard links and nobody else writes the archiver's names.
* The sweep may match any names that end like a partial: which ones, pattern characters in the
  prefix or the write directory decide.
* In the histories of `ArchiveHistory` no height is streamed again once its marker is in place
  (`StreamsOnce`).  `ArchiveLimits.RestreamExact` says when a commit that does so can mislead a
  consumer; histories with all the others are those of `ArchiveRestreams`, where every process
  ends by dying.
* Key derivation is injective, JSON keeps what is put in, and an address that was meant
  to be invalid is known by how it was changed.  The functions that a fixture configuration supplies are pure.
* The result of converting a float that does not fit an integer is a parameter, `machine`.
  A timer for a negative duration fires at once.
* There is memory for the account table and the slices: in Go a table far shorter than 2^64
  entries already panics when it is made.

## Where the code does not do what its comments say

* A cancelled `ListenFinalizeBlock` changes nothing, so when the context is live again at the
  commit, that commit's record and change set are filed under the block prepared before it,
  and the call returns nil (`CancelledFinalizeMisfiles`; `FiledUnder` has the exact condition).
* "Data already exists; downstream will discard it (no meta)" (line 263) is false for a
  height archived before: there the old marker stands, and its data file is deleted
  (`CommitLoses`).
* The marker is not always the completion marker of its data: with metadata off and stores
  exposed, a commit replaces the data file under a marker that an earlier process left, with
  no failure at all and a nil answer (`DataOnlyMisleads`).
* Together these are the ways in which a commit can mislead a consumer.  `RestreamExact` shows
  that it can do so exactly when the height has a marker, a store is exposed, the archived block
  has pairs, and either metadata is on or the new block differs from the archived one both in
  its pairs and in its messages.
* The limiter's "no new goroutines are allowed to start" after calling `Close` holds from the
  moment a `Close` returns; before that, functions still start until the drain has taken
  every slot (`LateStart`).  A call of `Go` whose function is through already may return true
  even later (`LateReturn`).
* A backoff delay that overflows need not be cut to the maximum, nor be no delay: from an
  initial 129 ms, retry 56 waits for 146 years (`OverflowWaits`; `DelayExactly` has the exact
  condition).  The default strategy passes 30000 as its number of retries.  Its waits are as
  documented for retries 0 to 54 and 60, and no wait for all others, on machines where a float
  too large becomes the smallest or the largest integer (`DefaultDelays`).
* The comments on the amounts are off for index 10: they have 10000010, 101000 and 1000100
  where the code gives 11000011, 111100 and 1100110.  The amounts are "unique" for up to 9900
  accounts and no more (`KindsApartExactly`).
* A non-custodial owner's exported account has the empty type, not the externally owned one:
  the switch has no case for it.  A module account keeps its derived address, although the
  comment there promises one made from its name.
* The address "with non-hexadecimal characters" is twenty bytes like any other, whose text is
  valid hexadecimal: only the one too short and the one too long are malformed.
* An account whose balance is zero makes the builder panic: the zero coin is dropped and the
  first coin is then read.  A configuration whose total overflows 64 bits runs out of the
  table (`Fixtures.NewMorseFixtures` has the exact condition).
* The branch of the card report for no lines is never taken (`Cards.LeavesNotEmpty`).

## Model

| member | source | states |
|---|---|---|
| Framing.ReadsUvarint | app/streaming_file.go:312-314 | a length header reads back as the number written, whatever bytes follow it |
| Framing.DecodeFrame | app/streaming_file.go:306-319 | a frame at the front decodes to its message followed by what the rest decodes to |
| Framing.RoundTrip | app/streaming_file.go:306-319 | the concatenation of any frames decodes to exactly the messages written |
| Framing.FramesInjective | app/streaming_file.go:306-319 | different message sequences give different bytes |
| Framing.FramesAppend | app/streaming_file.go:306-319 | files written one after the other are the file of all their messages |
| Framing.CutFrame | app/streaming_file.go:306-319 | a frame that is cut short does not decode |
| Framing.PrefixDecodes | app/streaming_file.go:306-319 | a cut file decodes to the first k messages when cut at a frame boundary, and is detected as incomplete anywhere else |
| Framing.UvarintIsBase128 | app/streaming_file.go:312-314 | the header is the shortest base-128 varint: high bits on all bytes but the last, least significant group first, worth the length |
| Framing.FrameIsHeaderAndBody | app/streaming_file.go:306-319 | a frame ends in the message, and what is in front of it is the varint of its length |
| Framing.CutDecodes | app/streaming_file.go:306-319 | however a file is cut, the messages whose frames are whole decode, and nothing does when part of a frame follows |
| ArchivePaths.RenderInjective | app/streaming_file.go:282-288 | height, kind and the partial suffix can be read back from a name: no two of the archiver's own names coincide |
| ArchivePaths.NamesAsDocumented | app/streaming_file.go:282-288 | the four names, written out |
| ArchivePaths.SuffixedIsNotFinal | app/streaming_file.go:110-120 | no final file has a name that the start-up pattern can match, whatever characters stand in the prefix |
| ArchivePaths.SweepTakesPartials | app/streaming_file.go:110-120 | without pattern characters in front, the start-up pattern matches every partial of the archive and none of its final files |
| Decimal.ParseReadsPrint | testutil/testmigration/fixtures_recoverable_account.go:899-912 | printing any 64-bit number in decimal and parsing it gives the number back |
| Decimal.PrintIsDecimal | app/streaming_file.go:282-288 | the text of a number is its decimal digits by place, without leading zeros, with a minus for negative numbers only |
| FileStreaming.FileStreamer.constructor | app/streaming_file.go:99-105 | a new streamer has nothing prepared and no handle or path |
| FileStreaming.SweepStalePartials | app/streaming_file.go:110-120 | a malformed pattern is an error and removes nothing; otherwise every match is removed, whatever the removals answer |
| FileStreaming.NewFileStreamer | app/streaming_file.go:84-105 | a streamer comes of it exactly when the sweep did not fail, after the removals and with nothing prepared |
| FileStreaming.FileStreamer.WriteProto | app/streaming_file.go:307-319 | header then body, the body only when the header was written; true exactly when both were |
| FileStreaming.FileStreamer.ListenFinalizeBlock | app/streaming_file.go:134-170 | under every script of failures the fields, the disk with all its images and the answer are those of the plan; a cancelled call changes nothing, any other leaves the block prepared exactly when it answers nil, and a failure panics exactly when configured to |
| FileStreaming.FileStreamer.PrepareMeta | app/streaming_file.go:149-168 | the metadata partial is opened and its first two messages written, or closed and removed; the fields change only on success |
| FileStreaming.FileStreamer.ListenCommit | app/streaming_file.go:172-280 | under every script of failures the fields, the disk with all its images and the answer are those of the plan; nil only for a live commit of a prepared block, and the errors for a cancelled one, for one with nothing prepared, and for failures |
| FileStreaming.FileStreamer.CommitBlock | app/streaming_file.go:184-279 | the commit plan call for call; on every return, with or without an error, the metadata fields are cleared |
| FileStreaming.FileStreamer.FinishMeta | app/streaming_file.go:184-202 | commit record, sync and close of the metadata partial, each failure with its clean-up |
| FileStreaming.FileStreamer.WriteData | app/streaming_file.go:206-257 | open, pairs in order, sync, close and rename of the data file, each failure giving up both partials |
| FileStreaming.FileStreamer.PromoteMeta | app/streaming_file.go:259-271 | the marker rename; when it fails the partial and the data file go, and the fields are cleared either way |
| FileStreaming.FileStreamer.CleanupMeta | app/streaming_file.go:290-298 | handle closed, partial removed, fields cleared, whatever the calls answer |
| FileStreaming.FileStreamer.ResetMetaState | app/streaming_file.go:300-304 | the three metadata fields are cleared and the others kept |
| FileStreaming.FileStreamer.SyncWriteDirectory | app/streaming_file.go:321-334 | the directory is opened, synced and closed again even when the sync failed; true exactly when all three worked |
| FileStreaming.Serve | app/streaming_file.go:72-106 | a process that starts, sweeps and hears any calls is in the state that the histories speak of |
| ArchiveAnswers.CommitAnswers | app/streaming_file.go:172-182 | what a commit answers: cancelled, not prepared, panic or error as configured, nil for a prepared block only; refused commits change nothing |
| ArchiveAnswers.FinalizeAnswers | app/streaming_file.go:134-170 | what FinalizeBlock answers and prepares, with metadata on and off |
| ArchiveAnswers.CauseIsTrue | app/streaming_file.go:184-278 | the cause in a commit's answer is that of a call of the commit that did fail |
| ArchiveAnswers.FinalizeCauseIsTrue | app/streaming_file.go:149-164 | the same for FinalizeBlock |
| ArchiveTidy.CommitLeavesNothing | app/streaming_file.go:184-271 | a commit leaves none of its handles open, whatever fails, and no partial of its height unless one failure is followed by another |
| ArchiveTidy.FinalizeLeavesNothing | app/streaming_file.go:149-164 | the same for a FinalizeBlock that fails |
| ArchiveTidy.FailedCommitLeavesNoData | app/streaming_file.go:248-271 | a commit whose marker fails takes its data away again unless that fails too; one that fails earlier leaves the final data name as it found it |
| ArchiveTidy.OnlyItsOwn | app/streaming_file.go:134-280 | a call touches no name of another height, nor a kind of file that it is configured not to write |
| ArchiveTidy.SweepIsExact | app/streaming_file.go:110-120 | starting up touches what the sweep matched only, and removes all of it when nothing fails |
| ArchiveSafety.HarmlessKeeps | app/streaming_file.go:134-280 | no call on a partial, on a handle, or on an unmarked height's data disturbs a completed block, whether it works or fails |
| ArchiveSafety.MarkerKeeps | app/streaming_file.go:259-271 | renaming the marker keeps the invariant when both files hold what they should, synced where power loss matters |
| ArchiveSafety.RemoveKeeps | app/streaming_file.go:261-269 | removing a partial, or the data of a height without marker, keeps every completed block |
| ArchiveProtocol.CallKeeps | app/streaming_file.go:134-280 | each harmless call keeps the invariant, the set of markers and their durability |
| ArchiveProtocol.UndoKeeps | app/streaming_file.go:186-269 | clean-up keeps the invariant and every marker even when its own calls fail |
| ArchiveProtocol.FrameKeeps | app/streaming_file.go:307-319 | a message written to an open partial appends its frame and leaves every other file alone, or the plan stops with its clean-up |
| ArchiveProtocol.PairsGather | app/streaming_file.go:218-247 | writing any number of pairs ends with all of them in order in the closed data partial, or with clean-up |
| ArchiveProtocol.DataCloseGathers | app/streaming_file.go:229-247 | from the sync of the data partial on: both files written under their partial names, or clean-up, with no marker moved |
| ArchiveProtocol.MetaCloseGathers | app/streaming_file.go:190-247 | the same from the sync of the metadata partial on |
| ArchiveProtocol.CommitGathers | app/streaming_file.go:184-247 | the same for the whole commit, under every script, on any height |
| ArchiveProtocol.CommitReaches | app/streaming_file.go:184-257 | on a new height, or one whose marker vouches for no data, a commit comes to the marker's rename with both files ready, or stops with clean-up |
| ArchiveProtocol.MoveReaches | app/streaming_file.go:248-257 | from the renames on: both files ready for the marker's rename, or clean-up, when no marker vouches for the data |
| ArchiveProtocol.PromoteEnds | app/streaming_file.go:259-279 | from the marker's rename on every image is sound, and the marker is there exactly on success or when only the directory sync failed |
| ArchiveProtocol.DirectoryEnds | app/streaming_file.go:273-278 | after a successful directory sync no directory change is outstanding |
| ArchiveProtocol.CommitEnds | app/streaming_file.go:184-279 | the whole commit: every image sound; marker exactly when nil or only the directory sync failed; nothing pending after a synced success; nil when nothing failed |
| ArchiveProtocol.FinalizeEnds | app/streaming_file.go:149-168 | on success the open partial holds exactly the two frames; no marker appears or goes in any case |
| ArchiveHistory.ConsumerReads | app/streaming_file.go:7-15 | where a marker is, its file decodes to the block's three messages and the data file to its pairs |
| ArchiveHistory.TakeKeeps | app/streaming_file.go:134-280 | one call, any failures: every image keeps the invariant and shows the archive as it was or with the one new block; afterwards the archive is what the answer says |
| ArchiveHistory.TakeAllRefines | app/streaming_file.go:134-280 | over any run of calls the archive on the disk is the log of what was there and of each block whose commit answered nil or failed in the directory sync alone; it only grows |
| ArchiveHistory.CommitImages | app/streaming_file.go:172-280 | the same for a commit in detail: markers, durability and answers |
| ArchiveHistory.FinalizeImages | app/streaming_file.go:134-170 | preparing a block changes the archive at no moment |
| ArchiveHistory.NilIsDurable | app/streaming_file.go:273-279 | with syncing on, once a commit answered nil no power loss takes its block away, whole |
| ArchiveHistory.RebootKeeps | app/streaming_file.go:12-15 | a dead process leaves a good state |
| ArchiveHistory.PowerLossKeeps | app/streaming_file.go:273-278 | so does a power loss: in whatever directory it leaves, markers mean complete blocks and acknowledged blocks are marked |
| ArchiveHistory.BootKeeps | app/streaming_file.go:108-120 | the sweep changes no archived block at any moment, whatever it matches and whatever fails |
| ArchiveHistory.TakeAllKeeps | app/streaming_file.go:134-280 | any sequence of calls keeps the state good and every acknowledgement |
| ArchiveHistory.LifeKeeps | app/streaming_file.go:12-15 | a process that ends at any image of its last call leaves a good state; what is then archived was there before or streamed by it, and a process that merely died leaves all that landed |
| ArchiveHistory.HistoryKeeps | app/streaming_file.go:12-15 | over any number of processes the state stays good and what was acknowledged stays acknowledged with the same content |
| ArchiveHistory.HistoryRefines | app/streaming_file.go:7-15 | over any history every archived block was there at the start or was streamed by a call that landed or that a process's end cut short; without power loss the archive only grows |
| ArchiveHistory.ArchiveNeverLies | app/streaming_file.go:7-15 | from an empty disk, in every history: acknowledged blocks are marked, and every marked block decodes to exactly what a call that landed, or was cut short, streamed for its height |
| ArchiveLimits.QuietBlock | app/streaming_file.go:134-280 | without failures both calls answer nil and the archive gains exactly this block |
| ArchiveLimits.ABlockIsArchived | app/streaming_file.go:134-280 | for every block there is a history in which a process archives it, with a nil answer, and dies |
| ArchiveLimits.DataOnlyCommit | app/streaming_file.go:144-147 | with metadata off, a nil commit leaves the data file with every pair in order, whatever marker stands, and with syncing on no power loss takes it away; without failures the answer is nil |
| ArchiveLimits.ExitIsClean | app/streaming_file.go:179-182 | every exit of a prepared commit clears the fields; after it, or after a failed FinalizeBlock, any number of commits touch nothing |
| ArchiveLimits.FiledUnder | app/streaming_file.go:134-143 | without failures the archive gains the block prepared last, and one under the commit's own height if and only if its FinalizeBlock was heard or the streamer stood at that height |
| ArchiveLimits.CancelledFinalizeMisfiles | app/streaming_file.go:135-137 | a cancelled FinalizeBlock makes the next commit part of the block before, with a nil answer |
| ArchiveLimits.CommitLoses | app/streaming_file.go:261-269 | with stores exposed, a failing marker rename on a height already marked leaves the marker without its data |
| ArchiveLimits.DataOnlyMisleads | app/streaming_file.go:204-260 | with metadata off, committing other pairs and messages over a marked block with pairs answers nil, under no failure, and leaves the marker with data that is not its block's |
| ArchiveLimits.DataOnlyTruthful | app/streaming_file.go:204-260 | with metadata off, committing a block alike in pairs or in messages shows the old block or the new one at every moment |
| ArchiveLimits.FreeIsTruthful | app/streaming_file.go:172-280 | a commit that replaces no data a marker vouches for shows the old block or the new one at every moment, with metadata on or off, power losses included when syncing is on |
| ArchiveLimits.RestreamExact | app/streaming_file.go:204-271 | a commit tells consumers the truth under every script, and after any power loss when syncing is on, if and only if the height has no marker yet, no store is exposed, the archived block has no pairs, or metadata is off and the blocks are alike in pairs or in messages |
| ArchiveRestreams.RetakeKeeps | app/streaming_file.go:134-280 | a call that cannot mislead leaves every image answering to the log as it was or with the call's block |
| ArchiveRestreams.DeathsKeep | app/streaming_file.go:7-15 | over histories of processes that die, with heights streamed again in ways that cannot mislead, the state stays good and every logged block was committed under its height |
| ArchiveRestreams.RestreamsNeverLie | app/streaming_file.go:7-15 | from an empty disk, in every such history a marker decodes, with its pairs, to one block that some process committed under its height |
| Amounts.UnstakedInjective | testutil/testmigration/fixtures.go:221-224 | unstaked balances differ for any two 64-bit indices, wrap-around included |
| Amounts.SupplierRepeats | testutil/testmigration/fixtures.go:233-236 | supplier stakes repeat exactly every 2^62 indices |
| Amounts.ApplicationRepeats | testutil/testmigration/fixtures.go:245-248 | application stakes repeat exactly every 2^63 indices |
| Amounts.UnstakedMeetsSupplier | testutil/testmigration/fixtures.go:221-236 | an unstaked balance is a supplier stake exactly for successors 100k and 9901k |
| Amounts.UnstakedMeetsApplication | testutil/testmigration/fixtures.go:221-248 | an unstaked balance is an application stake exactly for successors 100010k and 1000001k |
| Amounts.SupplierMeetsApplication | testutil/testmigration/fixtures.go:233-248 | a supplier stake is an application stake exactly for successors 10001k and 1010k |
| Amounts.KindsApartExactly | testutil/testmigration/fixtures.go:214-248 | amounts of different kinds never coincide for n accounts if and only if n is at most 9900 |
| Amounts.AmountsFit | testutil/testmigration/fixtures.go:214-248 | while they fit, the amounts are 1000001, 100010 and 10100 times the index's successor |
| MorseTypes.SumOfCoins | testutil/testmigration/fixtures_recoverable_account.go:593-593 | a coin set holds the amount it was made from, even when the zero coin is dropped |
| StateExport.GenMorseClaimableAccount | testutil/testmigration/fixtures.go:302-338 | a new account with the unstaked balance of its index and the stake of its type, zero for the other |
| StateExport.GeneratesUnless | testutil/testmigration/fixtures.go:157-177 | an entry panics for an unknown type or a negative coin, and for nothing else |
| StateExport.ListedAt | testutil/testmigration/fixtures.go:156-178 | the export lists have as many actors as there are of the type, each at the place that the count before it gives |
| StateExport.EntryAgrees | testutil/testmigration/fixtures.go:139-204 | entry i has the address of its key and the amounts of its index; the exported actor of its address says its stake, and auth account i, externally owned, has its coins |
| StateExport.NewMorseStateExportAndAccountState | testutil/testmigration/fixtures.go:139-204 | ends without a panic exactly when every type is known and no coin negative; then every entry agrees with the export, lists have the counted lengths and no two entries share an object |
| FixtureLayout.SlotBalances | testutil/testmigration/fixtures_recoverable_account.go:541-925 | what one slot exports, printed and parsed again, is what its claimable account holds |
| FixtureLayout.Conservation | testutil/testmigration/fixtures_recoverable_account.go:541-925 | over any slots: unstaked balances equal the exported coins, application and supplier stakes equal the exported staked tokens |
| FixtureFacts.ClaimIsAsConfigured | testutil/testmigration/fixtures_recoverable_account.go:541-876 | the claim of a slot has the address form of its type, the balances and stake that the configured function gives for its index, number and type, zero for the other stake, and the configured unstaking time exactly when the actor is unbonding or unbonded |
| FixtureFacts.BuildsUnless | testutil/testmigration/fixtures_recoverable_account.go:541-925 | the things that stop a slot from being built, and that nothing else does |
| FixtureFacts.ExportLengths | testutil/testmigration/fixtures_recoverable_account.go:541-836 | each exported list is as long as there are slots that belong in it |
| FixtureFacts.SlotIsExported | testutil/testmigration/fixtures_recoverable_account.go:541-836 | each slot stands in its lists in order, with its address, its tokens and the account type of its kind |
| FixtureFacts.LayoutArranged | testutil/testmigration/fixtures_recoverable_account.go:426-536 | kinds come in the documented order, each numbered from 0 |
| FixtureLayout.IndicesExact | testutil/testmigration/fixtures_recoverable_account.go:638-641 | a group lists the positions of its kind, all of them and in order |
| FixtureLayout.GroupSizes | testutil/testmigration/fixtures_recoverable_account.go:426-536 | every kind has exactly the configured number of slots |
| FixtureLayout.LayoutAdjacent | testutil/testmigration/fixtures_recoverable_account.go:510-519 | owners and non-custodial validators come in adjacent pairs of the same number |
| FixtureLayout.OwnersMatch | testutil/testmigration/fixtures_recoverable_account.go:510-519 | the j-th validator's slot is the one after the j-th owner's |
| FixtureLayout.OwnerIsPaid | testutil/testmigration/fixtures_recoverable_account.go:787-792 | a non-custodial validator's output address is the source address of the slot before, which is its owner's |
| Fixtures.MigrationFixtures.constructor | testutil/testmigration/fixtures_recoverable_account.go:330-363 | a table of nil entries as long as the 64-bit total, nothing built yet |
| Fixtures.MigrationFixtures.NextAllAccountsIndex | testutil/testmigration/fixtures_recoverable_account.go:418-421 | returns the index and advances it, modulo 2^64 |
| Fixtures.MigrationFixtures.ExportAccount | testutil/testmigration/fixtures_recoverable_account.go:549-625 | exports the account and makes its claimable account, or panics, exactly when the slot cannot be built |
| Fixtures.MigrationFixtures.ExportApplication | testutil/testmigration/fixtures_recoverable_account.go:656-706 | exports the application and makes its claimable account, or fails, exactly when the slot cannot be built; the unstaking time is the configured one when unbonding or unbonded and 0 otherwise |
| Fixtures.MigrationFixtures.ExportValidator | testutil/testmigration/fixtures_recoverable_account.go:745-809 | the same for a validator, its output address included |
| Fixtures.MigrationFixtures.AddUnstakedAccountForStakedActor | testutil/testmigration/fixtures_recoverable_account.go:842-876 | exports the account and writes the balance through the table into the shared object; fails exactly on a negative amount |
| Fixtures.MigrationFixtures.AddStakedActor | testutil/testmigration/fixtures_recoverable_account.go:708-730 | the staked actor's entry, unstaked side and group: afterwards the object is valid with one slot more |
| Fixtures.MigrationFixtures.AddAccount | testutil/testmigration/fixtures_recoverable_account.go:541-644 | succeeds exactly when there is room and the slot can be built; then table, exports and groups are those of one slot more, in a fresh object, earlier entries untouched |
| Fixtures.MigrationFixtures.AddApplication | testutil/testmigration/fixtures_recoverable_account.go:649-733 | the same for an application |
| Fixtures.MigrationFixtures.AddValidator | testutil/testmigration/fixtures_recoverable_account.go:738-836 | the same for a validator |
| Fixtures.MigrationFixtures.AddSeveral | testutil/testmigration/fixtures_recoverable_account.go:430-434 | a loop adds its slots in order, or fails exactly when one of them does not fit or build |
| Fixtures.MigrationFixtures.AddNonCustodial | testutil/testmigration/fixtures_recoverable_account.go:511-519 | the same for the loop that alternates owners and validators |
| Fixtures.MigrationFixtures.Generate | testutil/testmigration/fixtures_recoverable_account.go:426-536 | succeeds exactly when the whole layout has room and builds, and then has built exactly the layout |
| Fixtures.MigrationFixtures.TokensConserved | testutil/testmigration/fixtures_recoverable_account.go:541-925 | whatever was built, the tokens of the export are those of the table's claimable accounts |
| Fixtures.MigrationFixtures.ValidEntriesTell | testutil/testmigration/fixtures_recoverable_account.go:541-876 | every entry of the table says what the configuration wants of its slot and stands in the export, which holds nothing else |
| Fixtures.MigrationFixtures.EntryIsGrouped | testutil/testmigration/fixtures_recoverable_account.go:632-641 | every written entry is in its kind's group, as the same object |
| Fixtures.MigrationFixtures.MemberIsEntry | testutil/testmigration/fixtures_recoverable_account.go:632-641 | every member of a group is an entry of that kind, as the same object with the key of its index |
| Fixtures.MigrationFixtures.MembersDiffer | testutil/testmigration/fixtures_recoverable_account.go:632-641 | no object is in two places of the groups |
| Fixtures.MigrationFixtures.OwnersArePaid | testutil/testmigration/fixtures_recoverable_account.go:787-792 | the j-th non-custodial validator is paid to the j-th owner |
| Fixtures.MigrationFixtures.OwnerEntryPrecedes | testutil/testmigration/fixtures_recoverable_account.go:789-792 | the entry before a non-custodial validator's is its owner's and has the address it pays to |
| Fixtures.MigrationFixtures.ValidIsComplete | testutil/testmigration/fixtures_recoverable_account.go:361-371 | a built layout has a full table in the documented order, entries as configured and exported, groups of the configured sizes, conserved tokens and paid owners |
| Fixtures.NewMorseFixtures | testutil/testmigration/fixtures_recoverable_account.go:330-371 | fixtures come out if and only if the total fits 64 bits and every slot can be built, and are then complete |
| Limiting.StepKeepsInv | pkg/sync2/limiter.go:34-69 | every step of a caller, worker or closer keeps the token count exact |
| Limiting.RunKeepsInv | pkg/sync2/limiter.go:34-69 | so does every interleaving |
| Limiting.Limits | pkg/sync2/limiter.go:34-69 | in every run: tokens are the acquired-and-unreleased functions plus the filled slots and at most n; at most n functions run; none once a Close has returned |
| Limiting.LimitIsReached | pkg/sync2/limiter.go:23-29 | for every n there is a run in which n functions run at once |
| Limiting.SelectingCanRun | pkg/sync2/limiter.go:39-50 | until the limiter is closed, a selecting call can go on to run whenever fewer than n functions hold a slot |
| Limiting.RefusedHasCause | pkg/sync2/limiter.go:34-45 | a call is refused only for a dead context, at once or in the select, or a channel closed before |
| Limiting.DeadIsRefused | pkg/sync2/limiter.go:35-37 | a call whose context is dead when looked at returns false |
| Limiting.ClosedForGood | pkg/sync2/limiter.go:55-69 | after a Close has returned, whatever follows, no function starts or runs, and every Go that had not sent its token returns false if it completes |
| Limiting.LateReturn | pkg/sync2/limiter.go:47-52 | after a Close has returned a call comes to have returned true exactly when it had started its function, by then released |
| Limiting.LateReturnHappens | pkg/sync2/limiter.go:47-52 | that a call has yet to return true after Close has returned does happen |
| Limiting.LateStart | pkg/sync2/limiter.go:39-50 | after the channel is closed a new call can still start its function if and only if the drain has a slot left to fill |
| Limiting.StepWorks | pkg/sync2/limiter.go:34-69 | every step that is not an arrival takes a unit off what remains to be done |
| Limiting.RunsAreBounded | pkg/sync2/limiter.go:62-68 | with finitely many calls every run, however unfair, takes a bounded number of other steps |
| Limiting.RestIsDrained | pkg/sync2/limiter.go:61-69 | a run that has come to rest after a Close has every Close returned, every started function finished and its Go returned true, and every other Go refused |
| Retrying.OnError | pkg/retry/retry.go:88-133 | stops at the first cancellation, closed channel, or error that follows the limit of errors since the last reset, with nil for the first two and that error for the third; the work function runs once and once per error before, after the delay each time |
| Retrying.CountsAreCardinalities | pkg/retry/retry.go:98-124 | the counts are numbers of error events: all, and those that no reset has followed |
| Retrying.ResetOpensWindow | pkg/retry/retry.go:104-105 | after a reset only the errors that follow it count |
| Retrying.NeverPastLimit | pkg/retry/retry.go:98-132 | while it goes on, and when it stops, no more errors than the limit have come since the last reset |
| Retrying.GivesUpExactly | pkg/retry/retry.go:115-119 | it gives up exactly at the first error preceded by exactly the limit of errors since the last reset, never with a negative limit |
| Retrying.Call | pkg/retry/retry.go:144-193 | for any strategy: the result is the last attempt's; it stops at the first attempt that answers no error, a non-retryable one or a gRPC code other than 1, 2, 4, 8, 10, 13 and 14, or that the strategy allows no retry after; the waits are those of the strategy each time it was asked |
| Retrying.CallWithBackoff | pkg/retry/retry.go:221-253 | under backoff the call ends with the first attempt not worth retrying, past the maximum of retries, or cut off by the context, having waited for the delays before it |
| Retrying.BackoffWaits | pkg/retry/retry.go:226-239 | asked any number of times in turn, the backoff waits for its first delays, no more of them than retries allowed |
| Retrying.DelayExact | pkg/retry/retry.go:232-239 | while initial * 2^k and the promise in nanoseconds fit 64 bits the wait is the smaller of product and maximum |
| Retrying.DelayExactly | pkg/retry/retry.go:232-239 | whatever overflows, a delay is as documented if and only if the promise fits a duration and the milliseconds came out without overflow, not below the maximum, or off by a multiple of 2^58 |
| Retrying.MillisecondsExactWhileFitting | pkg/retry/retry.go:232-236 | below 63 retries all delays in milliseconds up to k are as documented if and only if initial * 2^k fits |
| Retrying.OverflowWaits | pkg/retry/retry.go:232-239 | from 129 ms the milliseconds before retry 56 are negative and the wait is 2^62 nanoseconds |
| Retrying.DelayNondecreasing | pkg/retry/retry.go:232-239 | while they fit, later waits are no shorter |
| Retrying.TotalWait | pkg/retry/retry.go:221-253 | n waits that fit last in total at most n times the maximum and initial * (2^n - 1) |
| Retrying.DefaultDelays | pkg/retry/retry.go:28-30 | the default wait before retry k is as documented if and only if k is at most 54 or is 60, and all others are no wait |
| Cards.Report.Walk | pkg/cards/cards.go:129-146 | appends the lines of the leaves, left to right |
| Cards.LeavesAreLeafLines | pkg/cards/cards.go:129-146 | the walk's lines are those of the descendants without causes, each the place `(root)` or `/` with the joined path, and the message or the hint |
| Cards.Dedup | pkg/cards/cards.go:152-161 | in place over the slice being read, keeps every line at its first occurrence |
| Cards.DedupedElements | pkg/cards/cards.go:152-161 | the kept lines are those that were there, without repetition |
| Cards.SortedIncreasing | pkg/cards/cards.go:162-162 | sorting distinct lines gives the same lines strictly increasing |
| Cards.BeforeIsLexicographic | pkg/cards/cards.go:162-162 | the order is the lexicographic one |
| Cards.FormatValidationError | pkg/cards/cards.go:121-165 | for a validation error the text is the report of its tree, for any other error its indented text |
| Cards.IndentLines | pkg/cards/cards.go:261-268 | every line of the text without its trailing line ends, indented in place |
| Cards.IndentationComesOff | pkg/cards/cards.go:261-268 | taking the indentation away gives that text back |
| Strings.TrimRightTrims | pkg/cards/cards.go:263-263 | trimming takes line ends off the end, all of them and nothing else |
| Strings.JoinReadsSplit | pkg/cards/cards.go:263-267 | joining the lines of a text with line ends gives the text |
| Strings.SplitLines | pkg/cards/cards.go:263-263 | no line of a split text holds a line end |
| Strings.JoinSnoc | pkg/cards/cards.go:139-139 | joining puts the separator, and only it, before each further part |
| Cards.LeavesNotEmpty | pkg/cards/cards.go:148-150 | every tree has a leaf line, so the branch for none is dead |
| Cards.ReportCanonical | pkg/cards/cards.go:129-164 | the report is strictly increasing and has exactly the leaf lines |
| Cards.ReportIsOfLeaves | pkg/cards/cards.go:121-165 | a line is in the report if and only if some descendant without causes says it |
| Cards.IncreasingUnique | pkg/cards/cards.go:162-164 | a strictly increasing list is determined by its elements |
| Cards.SameLeavesSameReport | pkg/cards/cards.go:121-165 | trees with the same leaf lines have the same report |
| Cards.CausesAsSet | pkg/cards/cards.go:132-137 | permuting, repeating or replacing causes by others with the same leaf lines changes nothing |
| CompileMemo.StepKeepsInv | pkg/cards/cards.go:200-212 | each step of any caller keeps the memo consistent with the uncached compile |
| CompileMemo.RunKeepsInv | pkg/cards/cards.go:200-212 | so does every interleaving |
| CompileMemo.MemoAgrees | pkg/cards/cards.go:177-212 | in every run each kind is compiled at most once, and every caller that returns has what compiling its kind gives, one of an unknown kind from its own document |
| CompileMemo.RunsAreBounded | pkg/cards/cards.go:200-212 | every run, however scheduled, takes at most three more steps a call |
| CompileMemo.RestHasReturned | pkg/cards/cards.go:200-212 | when nothing but new calls can happen every caller has returned |

## Left out

- `selectExposedKeys`, `RegisterInProcessFileStreamer`, `NewFileStreamer`'s option parsing and the baseapp wiring: configuration only.
- Power losses in histories that stream a height again: there the directory may hold the old marker or the new one until it is synced.
- The mutex of `FileStreamer`: concurrent listener calls are taken one after the other.
- Which names a pattern with special characters matches, and creating the write directory.
- FileStreaming.Serve: covers a process whose sweep worked, with its options given; reading and refusing options is configuration only.
- The distribution functions of `testutil/testmigration/fixtures.go`: any function of the index is allowed, and the clustered round robin never increments its counter, so there is no clustered sequence to prove.
- `GenMorseAccount`, `GenMorseApplication` and `GenMorseValidator` as functions of their own: their results appear inside `StateExport`.
- The invalid-address and single-account helpers of `testutil/testmigration`, and denominations, public keys and the jailed and status fields: constant or copied.
- Configuration functions that change the account they are handed, and nil coins returned by them.
- A nil distribution function and a negative number of accounts, which fail before anything is generated.
- Real time: timers are events or answers of `elapses`, and a delay is the duration asked for.
- Looking a retry strategy up in the context, and one that answers by more than the number of the retry.
- Which ready case a select takes, and how long a restart takes: events arrive in any order.
- The supervisor's `retryCount` overflowing after 2^63 errors without a limit.
- A function that panics inside the limiter, and a negative limit, which panics on construction.
- `compileUncached` itself, JSON Schema and the localised messages: a message is a string of the leaf, and the wording of the hint about `required` is not kept.
- A once whose function panics: compiling is taken to return.
- Upgrade handlers, keepers, command line, faucet, telemetry, cryptography: not part of this model.
- Half-built fixtures: after a failure nothing is said of the object, which the source discards.
