# FM Value Scout: verified models

Dafny models of the parts of FM Value Scout where a mistake would be costly and hard to see: the C# bridge that
scans a running game's memory, indexes what it finds and writes single values back under guard; the protocol by which
app and bridge exchange requests; the Rust planner's matcher of candidates and tactic lanes; and the TypeScript
store that keeps table layouts across versions. `dafny verify dfyconfig.toml` checks everything.

## What is modelled

**Block reads** (`BlockReads`, `BlockFill`). A read result lists the byte ranges that are readable. Results built
from a prefix, a mask or two halves have sorted, separate, in-bounds ranges; counting is additive; a mask and its
ranges describe each other. Filling a buffer splits a failed read down to one page. It is proved against a plain
page-by-page read: both agree exactly when no range reads completely although one of its pages does not.

**Scanner** (`ScanModel`, `ScanLedger`, `ScanWalk`, `ScanSpec`, `PersonScanner`, `ParallelScanner`). A reader is a
fixed memory image whose reads may fail or throw, always in the same way. What a scan observes is a list; the ledger
of a list (persons at their lowest address, first clubs, histogram, every counter) is defined from the list as a whole.
The window loop, and the parallel form with its slices and merges, are imperative and both end with exactly that
ledger, so they agree for every image, region list and number of workers. The walk itself is proved to inspect every
aligned address of a region once, or twice at a seam, and to account for every byte once.

**Scan and memory** (`ScannedMemory`, `Recognition`). A reader is tied to a byte image: whatever it returns is true of the
image, any read may fail. Everyone a scan keeps was shown by a block of a walked region and is what memory holds there;
everyone whom memory holds readably in a region is kept, at that address or a lower one. `Recognition` says so of bytes
alone: an address is recognized as a player, a member of the staff or a club exactly if a vtable of the game, a class
behind it, a valid uid and plausible values stand there, and for a player the gender byte that the scope admits.

**Guarded writes** (`ProcessMemory`, `PersonLayout`, `ValueMutations`, `Boosts`, `Mentality`, `MutationIndexes`,
`PlayerBoosts`, `StaffBoosts`, `BoostFacts`, `DumpPipeline`, `Coherence`, `LiveBridge`, `AbilityRuns`). Memory is a class holding a byte map.
A completed read is true, any read may fail, and a write may land fully, partly or as other bytes whatever it reports;
a `reliable` memory never fails, which is used to show that boosts do succeed when nothing goes wrong. On top stand
write-verify-recover, the mentality boost that changes three values or none, the live indexes, and whole runs of dumps
and boosts during which every cached ability is the one in memory: a dump scans memory with the scanner above, runs the
pipeline on what it finds and files the ledger's persons, and nothing is written but values of persons found.
`BoostFacts` says of single bytes when memory agrees with a request and which bytes a boost that is done has changed.

**Requests and protocol** (`Requests`, `BridgeProtocol`, `RequestReports`, `RequestLife`, `RequestRuns`, `RequestOnce`,
`BoostOffers`). Shape validation, freshness, consumption and refreshing of the request file, and a transition system in which the poll
thread, the workers it starts, the app and the clock interleave. Taking the time, reading, writing the temporary file
and moving, renaming or deleting are separate steps, and reads, deletes, moves and status writes may fail. The app and
the bridge both write `request.json.tmp` before they put it in place, so they share that file. What may still become of
a request is decided for every reachable state: whether it can be lost unread, lost by a failed read, or accepted
without the app's help. A request is accepted at most once in every run in which no deletion fails and no move fails
while the app is about to rename. A status that offers boosts has candidates behind it, with one exact exception. Every
status has an author: a request is reported as ready only by the worker that has done it, and what the poll thread
reports are requests that it has read and turned down.

**Squad index** (`SquadIndex`, `SquadFacts`). The walk over clubs, teams and squads, and proof that its running choice is the first
best squad of each player, whatever the order of hits. Clubs come in the stable order by address, shown to be the only
one; every date has as many votes as teams voted for it. `SquadFacts` says of memory alone what the walk comes across:
which entry of which squad of which walked club makes a player seen, what is noted of the squad, and likewise for
managers and date votes; and from that, which squad and which team everyone is assigned.

**Lane matching** (`MatchObjectives`, `MatchGraphs`, `MatchArcs`, `LaneMatching`). The planner fills tactic lanes by sending
one unit of flow per lane along paths of greatest objective, an objective being a total score, a number of filled lanes
and a vector of tie breaks. The network is a class with edges and reverse edges; the search is the source's queue of
nodes to relax. It is proved to end, since labels stay below potentials that no residual edge exceeds; each augmentation
keeps what nodes send and receive in balance and keeps such potentials, which at the end certify the matching found
against every other matching. For lanes in their order it is the only best one. The result is stated again of the
candidates' own score tables: no filling of the lanes has a greater sum, nor as great a sum with more lanes filled.

**Table layouts** (`TableLayouts`, `StoredLayouts`). Sanitizing, migration to version 8 and the store's actions. The layouts that
survive storage are exactly the canonical ones; sanitizing, migrating and every action produce canonical layouts.
`StoredLayouts` says of the stored record alone what every table shows after rehydration, for every stored value and
every version: which columns in which order, how wide, and when the built-in ones, listed by name, take their place.

**C strings** (`CStrings`). The block read of a string never changes what a byte-by-byte read would give.

## What the proofs turned up

- A header larger than the 32 MiB scan block is never inspected at all (`InspectsOnlyIfHeaderFits`).
- When the overlap is as long as a block, every block after the first accounts for no byte; the exact total is given
  by `EveryByteOnce`.
- The last block of a region whose end is not a multiple of eight may start at an unaligned address; `AlignedStarts`
  gives the exact condition.
- The parallel scan leaves the list of accepted player uids empty; the sequential scan fills it. Nothing else differs.
- Writing back a decoded Determination restores the byte only if it was a multiple of five (`EncodingRoundTrips`). The
  mentality boost is still all or nothing because Determination is written last and is therefore never undone.
- A request that the app has just put in place can be lost without ever being read although every read succeeds,
  exactly when the poll thread is between reading an earlier file and rewriting, consuming or discarding it; otherwise
  it takes a failed read of that very file (`LostUnreadIff`). By a failed read every request in the file can be lost,
  exactly unless the poll thread is about to delete the file anyway (`FailedReadLosesIff`). Runs from the start show all
  three ways (`RefreshMayLoseANewerRequest`, `AcceptanceMayLoseANewerRequest`, `FailedReadMayLoseARequest`).
- The bridge takes the time before it opens the request. A request that the app stamps and puts in place in between is
  younger than its time to live and is rejected as stale nevertheless (`YoungMayBeRejected`); `YoungIsRejectedIff` gives
  the exact condition.
- A waiting request is restamped only if the gate was seen taken, but the rewrite may come after the worker has left
  (`RestampMayFollowRelease`). The gate is still taken exactly when no release lies in between (`RestampFollowsBusy`).
- A request found not fresh can still be accepted with the app doing nothing, exactly when its stamp lies ahead of the
  clock, the poll thread took the time while it was fresh, or it holds a usable copy (`StaleAcceptedIff`); runs show it
  (`FutureMayBecomeFresh`, `StaleMayBeRevived`).
- A request can be accepted, and its operation carried out, twice: after a failed deletion, and after a failed move
  while the app is about to rename (`FailedDeleteMayAcceptTwice`, `FailedMoveMayAcceptTwice`); in no other run
  (`AtMostOnce`).
- Because the temporary file has one name for both, the app's rename puts the app's own request in place exactly if
  the poll thread has left that file alone (`RenamePlacesOwnIff`). A rename can succeed and put an older request in
  place, and it can fail although the app's request is in place (`RenameMayPlaceAnOlderRequest`,
  `RenameMayFailThoughInPlace`).
- A boost that fails before its first status empties both indexes and leaves the status as it is, so a status may go on
  offering boosts for which there are no candidates (`OffersMayOutliveCandidates`); nothing else does that
  (`OffersDieIff`, `OffersAreLiveOrDropped`).
- The squad default from before version 7 misses Suggested Training after the migration if its name column was resized
  (`UntouchedDefaultsAreUpgraded`).
- Replacing a layout by the very columns it shows keeps it exactly unless a column named `__proto__` has a width: that
  width is dropped (`ReplacedByItself`).
- The report that a request is turned away because the gate is taken is never written: when the poll thread enters the
  gate, it is free (`OneWorkerAtATime`, `PollThreadReportsRejections`).
- Migrating a table with stored columns differs from sanitizing it in two cases only: no stored column was known to
  version 7, or the squad was untouched since before version 7 (`OlderColumns`).
- The branches that follow a refused index update after a verified write cannot be reached; `ExecuteCurrentAbility`
  and the staff `Execute` assert so.

## Model

| member | source | states |
|---|---|---|
| BlockReads.CountReadableBytes | bridge/Memory/BlockReadResult.cs:34-55 | the count is the number of covered positions in the window, for every window inside the request |
| BlockReads.CountIsAdditive | bridge/Memory/BlockReadResult.cs:34-55 | adjacent windows hold together what they hold apart |
| BlockReads.CoverageIsTotal | bridge/Memory/BlockReadResult.cs:12-55 | the covered positions of the whole request number exactly the readable bytes |
| BlockReads.CompleteMeansCovered | bridge/Memory/BlockReadResult.cs:12-33 | a complete result with exact coverage covers every requested position, and conversely |
| BlockReads.PrefixCovers | bridge/Memory/BlockReadResult.cs:60-70 | a prefix result is well-formed and covers exactly the positions below its count |
| BlockReads.SummaryIsExact | bridge/Memory/BlockReadResult.cs:72-76 | a bare count is exact coverage exactly when it is nothing or everything |
| BlockReads.FromReadabilityMask | bridge/Memory/BlockReadResult.cs:78-102 | mask to ranges: the ranges cover a position exactly when the mask says so, and no two ranges touch |
| BlockReads.Combine | bridge/Memory/BlockReadResult.cs:104-122 | joining two halves keeps ranges sorted and separate, adds the counts, and covers a position exactly when its own half does |
| BlockFill.TryFill | bridge/Memory/BlockReadHelper.cs:14-40 | inside the reported ranges the slice holds true memory, elsewhere zero, outside the slice nothing changed; success means everything was read |
| BlockFill.Fill | bridge/Memory/BlockReadHelper.cs:65-95 | the recursive subdivision computes the specified split read and reports only true bytes, whatever each direct read leaves behind |
| BlockFill.ClearUnreadBytes | bridge/Memory/BlockReadHelper.cs:42-63 | exactly the positions outside the ranges are cleared |
| BlockFill.ChooseSplit | bridge/Memory/BlockReadHelper.cs:79-84 | the split point is a whole number of pages strictly inside the range: the last page boundary up to the middle, or the end of the first page |
| BlockFill.SubdivisionRefinesPages | bridge/Memory/BlockReadHelper.cs:65-95 | if no range reads completely despite an unreadable page, subdividing covers what reading page by page covers |
| BlockFill.RefinementCondition | bridge/Memory/BlockReadHelper.cs:65-95 | that condition is not only sufficient but necessary |
| BlockFill.AlignedFillIsExact | bridge/Memory/BlockReadHelper.cs:14-95 | when readability belongs to whole pages, an aligned fill reports exactly the readable bytes |
| ScanModel.LowestIsUnique | bridge/Scanning/PersonScanner.cs:640-649 | the running table is the one table that lists, for exactly the persons hit, the first of the lowest hits |
| ScanModel.LowestAppend | bridge/Scanning/PersonScanner.cs:640-649 | scanning on equals scanning apart and merging by lowest address |
| ScanModel.HistogramIsMultiplicity | bridge/Scanning/PersonScanner.cs:218-221 | the class histogram counts every offset as often as it occurred |
| ScanLedger.TabulateStep | bridge/Scanning/PersonScanner.cs:199-318 | recording one observation turns the ledger of a list into that of the extended list |
| ScanLedger.TabulateAppend | bridge/Scanning/PersonScanner.cs:448-568 | cutting the observations anywhere, tabulating the parts and merging the ledgers loses nothing |
| ScanLedger.ReadQuality.Record | bridge/Scanning/ScanReadQuality.cs:18-36 | recording a read keeps readable plus unread equal to requested, and failures within the unread bytes |
| ScanLedger.ReadQuality.Add | bridge/Scanning/ScanReadQuality.cs:38-43 | adding two accounts keeps them conserved |
| ScanWalk.EveryHeaderIsInspected | bridge/Scanning/PersonScanner.cs:159-191 | every aligned address with room for a header is inspected once, or twice exactly at a seam |
| ScanWalk.InspectsOnlyIfHeaderFits | bridge/Scanning/PersonScanner.cs:168-173 | all of a region is inspected exactly when a header fits into a block |
| ScanWalk.AlignedStarts | bridge/Scanning/PersonScanner.cs:321-333 | the exact condition on the region's length under which all blocks start aligned |
| ScanWalk.BlocksFit | bridge/Scanning/PersonScanner.cs:159-180 | every block lies inside the region and skips no more than it has |
| ScanWalk.EveryByteOnce | bridge/Scanning/PersonScanner.cs:168-187 | the accounted bytes of a walk are the region's bytes, each once; with an overlap as long as a block, the exact shortfall |
| ScanSpec.EveryObjectIsObserved | bridge/Scanning/PersonScanner.cs:137-319 | what some block shows at any aligned address of a walked region is among the scan's observations |
| ScanSpec.QualityIsConserved | bridge/Scanning/PersonScanner.cs:582-632 | read quality counts every byte of the walked regions once, as readable or unread |
| ScanSpec.LedgerAppend | bridge/Scanning/PersonScanner.cs:394-456 | the ledger and quality of two region lists are the merge of two independent scans |
| ScanSpec.PlayersAreGenuine | bridge/Scanning/PersonScanner.cs:223-292 | every kept player has a valid uid, a player class, the block behind it, the abilities that reading them gives, and is in scope |
| ScanSpec.StaffAreGenuine | bridge/Scanning/PersonScanner.cs:223-318 | the same for staff and managers, through their own offsets |
| PersonScanner.TryResolveDynamicOffsetCached | bridge/Scanning/PersonScanner.cs:813-830 | the vtable cache never answers differently from a fresh resolution |
| PersonScanner.TryReadScanBlock | bridge/Scanning/PersonScanner.cs:582-632 | a read that throws or has no exact coverage leaves zeros and counts as an internal failure; otherwise exactly the covered bytes behind the overlap are counted |
| PersonScanner.InspectObject | bridge/Scanning/PersonScanner.cs:218-318 | one object of known class moves tables and counters on by exactly its observation |
| PersonScanner.InspectBlock | bridge/Scanning/PersonScanner.cs:189-319 | the inner loop records every header position of the block, in order |
| PersonScanner.ScanRegion | bridge/Scanning/PersonScanner.cs:159-334 | the window loop terminates, never underflows or overflows, and records exactly the observations and quality of the region's walk |
| PersonScanner.UidOrderLists | bridge/Scanning/PersonScanner.cs:634-638 | the ordered list names every person of the table once |
| PersonScanner.ListingIsTable | bridge/Scanning/PersonScanner.cs:457-482 | reading an ordered list back entry by entry restores the table it lists |
| ParallelScanner.ScanSequential | bridge/Scanning/PersonScanner.cs:114-342 | result, tables and counters are those of the specified ledger; accepted players are listed in order of acceptance |
| ParallelScanner.ScanParallel | bridge/Scanning/PersonScanner.cs:377-484 | for any number of workers the result and counters are the very same, with the accepted players' list left empty |
| ParallelScanner.MergeWorker | bridge/Scanning/PersonScanner.cs:448-481 | merging one worker's result and counters yields the merge of the two ledgers |
| ParallelScanner.JoinStep | bridge/Scanning/PersonScanner.cs:504-554 | each merged person is counted as accepted or as a duplicate so that both counts stay exact |
| ParallelScanner.MergeHistogram | bridge/Scanning/PersonScanner.cs:497-501 | entry-by-entry addition, in any order, gives the sum of both histograms |
| ParallelScanner.SlicesCover | bridge/Scanning/PersonScanner.cs:396-398 | the workers' slices start at nothing, end at everything and never run backwards |
| ParallelScanner.GetWorkerCount | bridge/Scanning/ScanWorkerPolicy.cs:11-33 | the largest number of workers that leaves a processor free, gives each a region, stays within eight, and within two when memory is scarce |
| ParallelScanner.Scan | bridge/Scanning/PersonScanner.cs:84-113 | whichever form the policy picks, the outcome is the specified one |
| ProcessMemory.U16RoundTrip | bridge/Memory/MemoryReaderExtensions.cs:20-33 | a written value reads back, and values elsewhere are untouched |
| ProcessMemory.Memory.TryWrite | bridge/Memory/IMemoryWriter.cs:7-22 | whatever a write reports, only its footprint can change |
| PersonLayout.DecodesNearest | bridge/Extraction/AttributeScale.cs:30-39 | a stored attribute reads as a value exactly when it is within two of five times the value |
| PersonLayout.EncodingRoundTrips | bridge/Mutations/PlayerValueMutationService.cs:169-190 | what is written is read back; what was read and written back is the same byte exactly when it was exactly encoded |
| PersonLayout.TryFindOffset | bridge/Mutations/PlayerValueMutationService.cs:340-356 | the loop finds the first usable entry of the key |
| PersonLayout.PinnedLayoutKeepsRecordsApart | bridge/Layouts/Fm263Layout.cs:29-237 | in the shipped layout no two written or checked values of a person overlap, the uid included, whichever class the person has |
| ValueMutations.WriteAndVerify | bridge/Mutations/PlayerValueMutationService.cs:242-273 | success means memory holds exactly the target; failure with a known rollback means memory is unchanged; at worst the footprint differs |
| ValueMutations.Recover | bridge/Mutations/PlayerValueMutationService.cs:275-290 | not needed or restored means the first image byte for byte |
| ValueMutations.PlayerValueMutationService.SetCurrentAbility | bridge/Mutations/PlayerValueMutationService.cs:70-129 | written only if live values match and allow the target; on reliable memory exactly then |
| ValueMutations.PlayerValueMutationService.SetPersonality | bridge/Mutations/PlayerValueMutationService.cs:193-240 | the same for a raw mentality byte |
| ValueMutations.PlayerValueMutationService.SetDetermination | bridge/Mutations/PlayerValueMutationService.cs:143-191 | the same for the scaled byte, compared after decoding |
| ValueMutations.StaffValueMutationService.SetCurrentAbility | bridge/Mutations/StaffValueMutationService.cs:55-143 | the same contract through the staff offsets |
| Boosts.TryReadLiveState | bridge/Mutations/PlayerBoostOperationService.cs:449-490 | a pass means live memory holds this uid with these abilities, on reliable memory exactly then; each other verdict is true of memory |
| PlayerBoosts.PlayerBoostOperationService.Locate | bridge/Mutations/PlayerBoostOperationService.cs:80-120 | the verdicts on request, build, provenance and uid, each exactly when it applies; a pass means all of them and live memory agree |
| StaffBoosts.StaffBoostOperationService.Locate | bridge/Mutations/StaffBoostOperationService.cs:73-106 | the same for staff |
| Boosts.AbilityWritten | bridge/Mutations/PlayerBoostOperationService.cs:164-199 | after the write the person holds the target and its old potential |
| Mentality.TryReadMentality | bridge/Mutations/PlayerBoostOperationService.cs:492-602 | every requested value is read true and nothing else is read |
| Mentality.ApplyMentalityChange | bridge/Mutations/PlayerBoostOperationService.cs:343-368 | one more field stands at its target, or memory is as before the attempt unless unverified |
| Mentality.RollbackAppliedMentality | bridge/Mutations/PlayerBoostOperationService.cs:370-393 | unless unverified, every applied field is back at its previous value, and nothing else changed |
| Mentality.UndoneIsBefore | bridge/Mutations/PlayerBoostOperationService.cs:370-393 | undoing exactly encoded fields restores the first image byte for byte |
| Mentality.UndoAfterFailure | bridge/Mutations/PlayerBoostOperationService.cs:306-341 | the combined verdict is trustworthy: only unverified may leave memory different, and only in the mentality bytes |
| MutationIndexes.IndexedHoldsLast | bridge/Mutations/PlayerMutationIndex.cs:43-51 | the index holds the last candidate of every admitted uid |
| MutationIndexes.MutationIndex.Replace | bridge/Mutations/PlayerMutationIndex.cs:28-56 | provenance and candidates are replaced together, by admitted facets only |
| MutationIndexes.MutationIndex.TryUpdateCurrentAbility | bridge/Mutations/PlayerMutationIndex.cs:70-93 | the cached ability moves exactly when provenance, uid, both abilities and the range agree; nothing else changes |
| MutationIndexes.MutationIndex.TryGet | bridge/Mutations/PlayerMutationIndex.cs:100-123 | found exactly when the dump and the uid are the indexed ones |
| PlayerBoosts.ShapeAgreesWithService | bridge/Protocol/RequestAcceptance.cs:255-355 | a player boost is accepted by shape exactly when the service finds it executable and its envelope is right |
| PlayerBoosts.ProgressIsLifted | bridge/Mutations/PlayerBoostOperationService.cs:281-303 | once all changes stand, every known low value reads as reported and no other byte differs |
| PlayerBoosts.ExecuteWonderkidMentality | bridge/Mutations/PlayerBoostOperationService.cs:201-304 | all or nothing under arbitrary failures; the reported values are what memory holds; certain success on reliable memory |
| PlayerBoosts.PlayerBoostOperationService.ExecuteCurrentAbility | bridge/Mutations/PlayerBoostOperationService.cs:142-199 | memory and index rise together to the capped target, the limit is reported exactly at the cap and nothing is written there |
| PlayerBoosts.PlayerBoostOperationService.Execute | bridge/Mutations/PlayerBoostOperationService.cs:68-140 | a boost completes for the located player, or memory and index are unchanged, or the verdict says unverified; an executable request is never invalid |
| StaffBoosts.ShapeAgreesWithService | bridge/Protocol/RequestAcceptance.cs:208-253 | a staff boost is accepted by shape exactly when the service finds it executable and its envelope is right |
| StaffBoosts.StaffBoostOperationService.Execute | bridge/Mutations/StaffBoostOperationService.cs:63-158 | the same all-or-nothing contract for the fixed staff increment; invalid exactly when not executable |
| BoostFacts.FieldIsAt | bridge/Mutations/PlayerBoostOperationService.cs:539-602 | personality is looked up by the object, determination among the attributes of the block, each under its own name |
| BoostFacts.LiveMatchesIff | bridge/Mutations/PlayerBoostOperationService.cs:449-490 | live memory matches exactly when the uid's four bytes and both abilities' two bytes stand where the layout says, the abilities from 1 to 200 |
| BoostFacts.ExpectationsAreMetIff | bridge/Mutations/PlayerBoostOperationService.cs:492-609 | memory meets a mentality request exactly when the byte of every expected value is that value, or within two of five times it for determination |
| BoostFacts.LiftedIsWritten | bridge/Mutations/PlayerBoostOperationService.cs:241-304 | a mentality boost that is done has set the bytes of the values up to 10 that the request expects to ones from 11 to 20, determination to five times one, and no other byte |
| BoostFacts.DoneIsWritten | bridge/Mutations/PlayerBoostOperationService.cs:142-304 | a player boost that is done has set two bytes, and one index entry, to the ability raised by 5 or 10 but not above potential or 200, or has written the mentality bytes; all else is as before |
| BoostFacts.BoostedIsCapped | bridge/Mutations/StaffBoostOperationService.cs:63-158 | the target is the ability with the increment, ten for staff, capped by potential and 200 |
| DumpPipeline.Run | bridge/Scanning/CapADumpPipeline.cs:87-337 | one retry at most and only on a snapshot; success exactly when the scan used is complete enough and identifies someone |
| DumpPipeline.LiveCandidatesAreLive | bridge/Scanning/CapADumpPipeline.cs:293-605 | live candidates are exactly the identified players, and the staff who are no players, of a first scan of live memory that was complete up to the tolerated gaps; after a retry there are none |
| DumpPipeline.OutcomeInFull | bridge/Scanning/CapADumpPipeline.cs:87-337 | a run succeeds exactly when at most a tenth of its first scan, or else of that of a snapshot it can afford, is unread, someone in it is identified, nothing was cancelled and the dump was put in place; it offers candidates only from a live first scan |
| ScannedMemory.GenuineHoldsAbilities | bridge/Scanning/PersonScanner.cs:223-292 | the abilities of everyone a scan keeps are those that memory holds for that person |
| ScannedMemory.KeptIsThere | bridge/Scanning/PersonScanner.cs:159-318 | everyone kept was shown by a block of a walked region, inside its bounds and aligned, and unless its header had gaps memory holds there an object with a module's vtable, that class and that uid |
| ScannedMemory.ReadablePersonIsFound | bridge/Scanning/PersonScanner.cs:137-319 | whoever memory holds readably at a multiple of eight of a walked region is in the result, at that address or a lower one |
| ScannedMemory.PinnedScanKeepsRecordsApart | bridge/Layouts/Fm263Layout.cs:29-237 | whoever a scan under the shipped layout keeps has values that do not overlap one another |
| Recognition.WantedIsIncluded | bridge/Extraction/PlayerGenderReader.cs:9-26 | a scan for men takes every player whose gender byte is unreadable or not a woman's, one for women only those whose byte is readable and a woman's, one for both takes all |
| Recognition.ClassIsResolved | bridge/Scanning/PersonScanner.cs:796-811 | a vtable leads to a class offset exactly when the pointer below it is not null and the signed word four bytes behind where it points is that offset, which is not 0 |
| Recognition.PersonIsRecognizedIff | bridge/Scanning/PersonScanner.cs:199-318 | an address is recognized as a person exactly when memory holds a game's vtable, a class of players, staff or managers behind it and a valid uid there, both abilities in the person's block are from 1 to 200, and a player's gender byte is admitted |
| Recognition.ClubIsRecognizedIff | bridge/Scanning/PersonScanner.cs:680-712 | an address is recognized as a club exactly when memory holds an object of another class there with a list of at most 24 teams and a readable name |
| Recognition.PersonsAreFound | bridge/Scanning/PersonScanner.cs:114-342 | nobody is missed: every player or member of the staff that memory holds at a readable multiple of eight of a region, with room for a header, is in the result, at that address or a lower one |
| Recognition.ClubsAreFound | bridge/Scanning/PersonScanner.cs:231-251 | neither is any club |
| Recognition.ListedPersonsAreHeld | bridge/Scanning/PersonScanner.cs:199-318 | nobody is made up: whoever a list names lies in a region, has a valid uid, a class of that list, both abilities and, as a player, an admitted gender byte, and is what memory holds there if the place is readable |
| Recognition.ListsAreOrdered | bridge/Scanning/PersonScanner.cs:349-375 | all lists are by ascending uid, each uid once; who plays is left out of the staff and reported as an overlap |
| LiveBridge.ShippedLayoutsAgree | bridge/Layouts/Fm263Layout.cs:29-237 | a registry of the shipped layout serves scans and boosts alike: same places, records apart |
| Coherence.FreshTablesAreCoherent | bridge/Plugin.cs:303-323 | indexes filled from what a scan of memory found agree with that memory |
| Coherence.AbilitiesSurviveAbilityWrite | bridge/Mutations/PlayerBoostOperationService.cs:164-199 | a boost of one person leaves the abilities of every other alone |
| Coherence.AbilitiesSurviveMentalityWrite | bridge/Mutations/PlayerBoostOperationService.cs:201-304 | a mentality boost disturbs no ability, not even of the same player |
| Coherence.BoostedIsStillThere | bridge/Mutations/PlayerBoostOperationService.cs:142-304 | after a completed boost memory still identifies the person, with the abilities that the index now caches |
| LiveBridge.OfferedIsLedger | bridge/Scanning/CapADumpPipeline.cs:207-605 | what the pipeline offers after a scan of live memory are exactly the identified players and the mere staff of the scan's ledger |
| LiveBridge.Bridge.RunDump | bridge/Plugin.cs:236-372 | a dump scans live memory; on success the indexes hold exactly the ledger's identified players and mere staff, or are empty; it succeeds exactly if the build is known and a dump can be made of that scan; a failed one keeps both; coherence holds either way, and what the status then offers is as the protocol says and has candidates behind it |
| LiveBridge.Bridge.RunPlayerBoost | bridge/Plugin.cs:374-482 | done in full, or not done with everything as before, or not done with both indexes emptied: kept when cached abilities are not those expected or the limit is reached, emptied when the index does not have the named player; coherent in every case, only one indexed player's writable values can change, and what the status then offers is as the protocol says and has candidates behind it |
| LiveBridge.Bridge.RunStaffBoost | bridge/Plugin.cs:504-611 | the same for staff boosts |
| LiveBridge.Bridge.Perform | bridge/Plugin.cs:199-229 | one piece of work takes its effect: a dump is made exactly if a scan of memory allows it and then files its ledger, a boost that is ready is completed for the named person, and one that is not leaves all as it is or empties the indexes |
| LiveBridge.Bridge.Run | bridge/Plugin.cs:236-611 | over every run of dumps and boosts each takes its effect in turn, each cached ability is the one in memory, nothing but writable values of persons found has changed, and boosts last offered have candidates behind them |
| LiveBridge.Bridge.LiveMeansFilled | bridge/Mutations/PlayerBoostOperationService.cs:56-62 | boosts are live exactly for an approved build whose version the index was filled for, with somebody in it |
| AbilityRuns.RunTelescopes | bridge/Mutations/PlayerBoostOperationService.cs:157-163 | a run of boosts adds up to one boost by the sum, capped once |
| AbilityRuns.RisingRuns | bridge/Mutations/PlayerBoostOperationService.cs:157-163 | every boost raises exactly while the cap is out of reach, so at most a fifth of the distance, rounded up, can succeed |
| AbilityRuns.BoostInTurn | bridge/Mutations/PlayerBoostOperationService.cs:142-199 | after any run of successful boosts memory's and the index's ability is the sum capped once, each step higher, in at most a fifth of the distance, rounded up; a limit means the cap |
| AbilityRuns.BoostAmongOthers | bridge/Plugin.cs:374-611 | among any boosts of any persons, done or refused, a player that stays indexed has the sum of its own granted increments, capped once |
| Requests.RequestFile.TryAccept | bridge/Protocol/RequestAcceptance.cs:24-61 | accepted, unchanged, exactly when well-formed and fresh; the file is empty afterwards and the observed id reported |
| Requests.RequestFile.TryRefreshCreatedAtUtc | bridge/Protocol/RequestAcceptance.cs:78-106 | restamped exactly when well-formed, fresh and replaceable; nothing but the time stamp changes, and a stale request is left to be rejected |
| Requests.RequestFile.TryRead | bridge/Protocol/RequestAcceptance.cs:108-153 | unusable files are deleted and classified |
| Requests.WellFormedIff | bridge/Protocol/RequestAcceptance.cs:155-361 | exactly four kinds of request are well-formed, each with its own fields within their bounds and no others: full dumps of men, women or both, the two player boosts and the staff boost |
| Requests.FirstFailureIsReported | bridge/Protocol/RequestAcceptance.cs:155-361 | the reason given is that of the first check that fails, in the order of the checks of each operation |
| Requests.CopyRequest | bridge/Protocol/RequestAcceptance.cs:363-380 | the copy differs in the time stamp only and is as well-formed as the original |
| Requests.StaleForever | bridge/Protocol/RequestAcceptance.cs:17-18 | stale stays stale while the stamp is untouched |
| BridgeProtocol.RunsKeepInv | bridge/Plugin.cs:127-234 | gate, status and request invariants hold in every state of every interleaving |
| BridgeProtocol.OneWorkerAtATime | bridge/Plugin.cs:127-234 | at most one worker exists and entering the gate after the busy check never fails |
| BridgeProtocol.OnlyTheWorkerReports | bridge/Plugin.cs:204-229 | while a worker exists, only that worker changes the status |
| BridgeProtocol.FlagRefreshKeepsStatus | bridge/Plugin.cs:637-672 | rewriting the module flags, if it succeeds, changes the flags of the current status and nothing else |
| BridgeProtocol.ReleaseMeansReported | bridge/Plugin.cs:199-234 | when the gate is released the status is ready or failed with the id of a request that was asked for, unless that report could not be written |
| RequestReports.EveryReportHasAnAuthor | bridge/Plugin.cs:127-372 | in every state of every run the status is the initial one, or was announced or reported by the only worker, or reports a rejection, and has stood since but for the module flags |
| RequestReports.ReadyWasConcluded | bridge/Plugin.cs:199-352 | a request is ready only if earlier in the run a worker on it has concluded so and has written this report, identity and offer included |
| RequestReports.ReadyWasWorkedFor | bridge/Plugin.cs:236-352 | what is ready was worked for: its worker announced itself, worked, concluded so, offering boosts exactly as far as there were candidates then, and reported it |
| RequestReports.TimeWasTaken | bridge/Plugin.cs:134-152 | the time by which a request is refreshed or judged is what the clock showed when the poll thread looked |
| RequestReports.UnknownIsNeverReady | bridge/Plugin.cs:127-234 | an identity that no accepted request and no manual scan has is never reported as ready |
| RequestReports.WorkWasAskedFor | bridge/Protocol/ForceScanRequestFactory.cs:6-17 | every worker is on an accepted request or on a full dump of men with an identity that begins with `force-scan-` |
| RequestReports.PollThreadReportsRejections | bridge/Plugin.cs:145-169 | whatever the poll thread writes but module flags is the failure of a request that it has read and found malformed or outdated, while no worker exists |
| BridgeProtocol.AcceptedRequestsAreLinked | bridge/Protocol/RequestAcceptance.cs:78-106 | an accepted request is the app's own but for its stamp, with no gap longer than the time to live |
| BridgeProtocol.RestampFollowsBusy | bridge/Plugin.cs:134-143 | a request is restamped only after the poll thread saw the gate taken, and the gate is still taken then exactly when no release lies in between |
| BridgeProtocol.StaleIsNeverAccepted | bridge/Protocol/RequestAcceptance.cs:45-61 | while an expired request lies in the file, was expired when the time was taken, and the poll thread holds no usable copy, nothing at all is accepted until the app changes a file |
| RequestLife.LostUnreadIff | bridge/Protocol/RequestAcceptance.cs:36-153 | in every reachable state, a request the app has just put in place can be lost unread with every read and deletion succeeding exactly when the poll thread is between reading an earlier file and rewriting, consuming or discarding it; exactly otherwise every loss goes with a failed read of that request |
| RequestLife.FailedReadLosesIff | bridge/Protocol/RequestAcceptance.cs:116-131 | in every reachable state, the request in the file can be lost because reading it fails exactly unless the poll thread is about to delete the file anyway |
| RequestLife.AcceptedLaterIff | bridge/Protocol/RequestAcceptance.cs:24-106 | in every reachable state, a request can be accepted without the app's help exactly when it is pending: usable in the file, fresh at the time already taken, or held as a usable copy |
| RequestLife.StaleAcceptedIff | bridge/Protocol/RequestAcceptance.cs:45-61 | in every reachable state, a request not fresh by the clock can be accepted later exactly when its stamp is ahead of the clock and it is not about to be read or deleted, it was fresh at the time taken, or the poll thread holds a usable copy |
| RequestLife.YoungIsRejectedIff | bridge/Plugin.cs:144-153 | a fresh request that is about to be read can be accepted exactly when it was stamped no later than the time taken before |
| RequestRuns.RefreshMayLoseANewerRequest | bridge/Protocol/RequestAcceptance.cs:78-106 | a run from the start in which a refresh replaces a newer request, never read, by the older one |
| RequestRuns.AcceptanceMayLoseANewerRequest | bridge/Protocol/RequestAcceptance.cs:36-61 | a run from the start in which accepting one request deletes a newer one, never read |
| RequestRuns.FailedReadMayLoseARequest | bridge/Protocol/RequestAcceptance.cs:120-131 | a run from the start in which the only request there is cannot be read and is deleted |
| RequestRuns.YoungMayBeRejected | bridge/Plugin.cs:144-153 | a run from the start in which a request younger than its time to live is rejected as stale and gone |
| RequestRuns.RestampMayFollowRelease | bridge/Plugin.cs:134-143 | a run from the start in which a request is restamped after the gate was released |
| RequestRuns.StaleMayBeRevived | bridge/Protocol/RequestAcceptance.cs:78-106 | a run from the start to a stale request that can still be accepted |
| RequestRuns.FutureMayBecomeFresh | bridge/Protocol/RequestAcceptance.cs:45-61 | a run from the start to a request stamped ahead of the clock that can still be accepted |
| RequestRuns.FullDumpsCanBeLost | bridge/Protocol/RequestAcceptance.cs:36-153 | full dumps as the app asks for them can be lost in each of the three ways, from every state the bridge starts in |
| RequestRuns.FullDumpsCanBeMistimed | bridge/Protocol/RequestAcceptance.cs:45-106 | full dumps can be rejected while young, and accepted although found stale or stamped ahead, from every state the bridge starts in |
| RequestOnce.AtMostOnce | bridge/Protocol/RequestAcceptance.cs:36-106 | in every run in which no deletion fails, and no move while the app is about to rename, whatever the app wrote is accepted at most once |
| RequestOnce.FailedDeleteMayAcceptTwice | bridge/Protocol/RequestAcceptance.cs:57-61 | a run from the start in which a request whose deletion fails is accepted twice |
| RequestOnce.FailedMoveMayAcceptTwice | bridge/Protocol/RequestAcceptance.cs:94-105 | a run from the start, with every deletion succeeding, in which a request is accepted twice because the app renames the copy that the bridge failed to move |
| RequestOnce.RenamePlacesOwnIff | src-tauri/src/features/memory_read/service.rs:423-435 | a rename that succeeds puts the app's own request in place exactly if the poll thread has not touched the temporary file since it was written, and the file can be missing only if it has |
| RequestOnce.RenameMayPlaceAnOlderRequest | src-tauri/src/features/memory_read/service.rs:423-435 | a run from the start in which the app's rename succeeds and puts an older request in place of its own |
| RequestOnce.RenameMayFailThoughInPlace | src-tauri/src/features/memory_read/service.rs:423-435 | a run from the start in which the app's rename fails although its request is in place |
| BoostOffers.OffersDieIff | bridge/Plugin.cs:374-672 | offered boosts stay backed by candidates in every step except exactly one: a boost that empties the indexes before it has announced itself |
| BoostOffers.OffersAreLiveOrDropped | bridge/Plugin.cs:236-672 | in every state of every interleaving what the status offers has candidates behind it, or such a boost has failed and the offer has stood unchanged since |
| BoostOffers.OffersMayOutliveCandidates | bridge/Plugin.cs:460-481 | a run from the start that ends at rest with boosts offered and no candidates left |
| SquadIndex.ChoiceFollowsOrder | bridge/Extraction/SquadPick.cs:17-33 | the pairwise rule is a strict order: away from the parent club first, then the lower team type |
| SquadIndex.PrecedesIsAnOrder | bridge/Extraction/SquadClubIndex.cs:489-503 | the managers' rule is a strict order, with names compared by code unit |
| SquadIndex.AssignedAreSeen | bridge/Extraction/SquadClubIndex.cs:264-302 | exactly the players seen are linked |
| SquadIndex.AssignmentIsFirstBest | bridge/Extraction/SquadClubIndex.cs:264-302 | a player's assignment is the first squad that no other is better than |
| SquadIndex.FirstBestIsUnique | bridge/Extraction/SquadClubIndex.cs:264-302 | the first best squad determines the assignment |
| SquadIndex.MultiClubMeansTwoClubs | bridge/Extraction/SquadClubIndex.cs:290-299 | a player is noted for several clubs exactly when seen at two differently named ones |
| SquadIndex.SamplesAreDistinct | bridge/Extraction/SquadClubIndex.cs:290-299 | one sample per such player, up to twenty-five |
| SquadIndex.SamplesAreTrue | bridge/Extraction/SquadClubIndex.cs:290-299 | a sample names two different clubs at which its player was seen |
| SquadIndex.ManagerIsFirstInOrder | bridge/Extraction/SquadClubIndex.cs:315-324 | a manager keeps a hit that no other hit of the same person precedes |
| SquadIndex.VotesAreCounted | bridge/Extraction/SquadClubIndex.cs:355-385 | every date has as many votes as teams voted for it |
| SquadIndex.OrderIsStable | bridge/Extraction/SquadClubIndex.cs:79-102 | ordering by address sorts and keeps clubs of the same address as they were |
| SquadIndex.StableOrderIsUnique | bridge/Extraction/SquadClubIndex.cs:79-102 | there is only one such order |
| SquadIndex.SquadClubIndex.RecordPlayer | bridge/Extraction/SquadClubIndex.cs:264-302 | one more squad moves assignment, notes and samples on by exactly that event |
| SquadIndex.SquadClubIndex.WalkSquad | bridge/Extraction/SquadClubIndex.cs:234-303 | every entry that resolves to a known person is recorded, in order |
| SquadIndex.SquadClubIndex.WalkClub | bridge/Extraction/SquadClubIndex.cs:153-232 | a plausible club is counted and all its teams are walked |
| SquadIndex.SquadClubIndex.Build | bridge/Extraction/SquadClubIndex.cs:56-128 | discovered clubs, then fallback clubs, each in the stable order by address and each address once; the index is the tally of everything come across |
| SquadFacts.PersonIsFound | bridge/Extraction/SquadClubIndex.cs:326-353 | behind an entry is the entry itself if it is a known person, else the person that the first of its seventeen words points to which points to a known one |
| SquadFacts.SquadShows | bridge/Extraction/SquadClubIndex.cs:234-303 | a team makes a player seen exactly if a place below the end of its list of at most 60 holds an entry behind which the player is; name, type, division, reputation and club uid noted are those read at that team and club |
| SquadFacts.ManagerIsRead | bridge/Extraction/SquadClubIndex.cs:200-219 | a team makes a manager seen exactly if its manager pointer is one of the known managers |
| SquadFacts.VoteIsRead | bridge/Extraction/SquadClubIndex.cs:355-385 | a team votes for a date exactly if that is the plausible date of its next match, or of the alternative one when the former has none |
| SquadFacts.EventsAreShown | bridge/Extraction/SquadClubIndex.cs:56-232 | the walk comes across exactly what the teams of the walked clubs show, a team being any entry that is not null below the end of a club's list of at most 24 |
| SquadFacts.OrderKeepsWalked | bridge/Extraction/SquadClubIndex.cs:79-112 | clubs are walked by ascending address; which ones, and under which names, can be told from the lists as given: the first plausible mention, or a named fallback club without one |
| SquadFacts.AssignedSquads | bridge/Extraction/SquadClubIndex.cs:264-302 | exactly those in a squad of a walked club are assigned, to one of their squads: none of the parent club if there is another, and of the lowest type among those |
| SquadFacts.AssignedManagers | bridge/Extraction/SquadClubIndex.cs:315-324 | exactly the managers of teams of walked clubs are assigned, to the team of the lowest type, then of the first club name, then at the lowest address |
| MatchObjectives.FirstDifferenceDecides | src-tauri/src/features/planner/optimizer.rs:44-49 | one objective is below another exactly when it is smaller at the first part in which they differ |
| MatchObjectives.WorthFollowsOrder | src-tauri/src/features/planner/optimizer.rs:44-69 | within bounds the order of objectives is that of one integer, in which adding and negating are those of integers |
| MatchGraphs.MatchGraph.AddEdge | src-tauri/src/features/planner/optimizer.rs:91-107 | an edge of one unit and its empty reverse are added, each knowing where the other is |
| MatchGraphs.MatchGraph.FindPaths | src-tauri/src/features/planner/optimizer.rs:112-140 | for any network without improving cycles the search ends; afterwards no residual edge gives a better label, and every label but the source's is reached by a residual edge from an earlier one |
| MatchGraphs.BetterIsNew | src-tauri/src/features/planner/optimizer.rs:124-140 | a better label never leads back to a node that the path has come through, in particular not to the source |
| MatchGraphs.MatchGraph.Augment | src-tauri/src/features/planner/optimizer.rs:146-153 | one unit is sent from source to sink: capacity moves along the path, every other node keeps its own, edges stay paired and potentials stay certificates |
| MatchGraphs.MatchGraph.SendMaxFlow | src-tauri/src/features/planner/optimizer.rs:109-159 | the target is met or no path is left; what is sent leaves the source and arrives at the sink; potentials certify that no residual cycle improves the objective |
| MatchArcs.CarriedIsLaid | src-tauri/src/features/planner/optimizer.rs:91-107 | what each arc carries decides every capacity of the network |
| MatchArcs.CapacityIsSpent | src-tauri/src/features/planner/optimizer.rs:146-153 | a node sends on balance exactly the capacity that it has lost |
| LaneMatching.RanksFollowOrder | src-tauri/src/features/planner/optimizer.rs:173-179 | ranks follow the order by uid, so no two candidates share one |
| LaneMatching.AddLane | src-tauri/src/features/planner/optimizer.rs:182-218 | a lane gets its unit, its blank and an edge to exactly the candidates with a score in it, and the list says where those edges are |
| LaneMatching.LaneChooses | src-tauri/src/features/planner/optimizer.rs:230-240 | a lane that receives its unit sends it along exactly one choice |
| LaneMatching.PlayerIsChosen | src-tauri/src/features/planner/optimizer.rs:220-228 | a candidate is chosen by at most one lane |
| LaneMatching.ChosenIsBest | src-tauri/src/features/planner/optimizer.rs:162-240 | what the lanes choose in a certified flow is a matching of greatest total objective |
| LaneMatching.MatchLanes | src-tauri/src/features/planner/optimizer.rs:162-240 | for all lanes and candidates the outcome is a matching, and no matching has a greater objective: total score, then lanes filled, then tie breaks; every lane receives its unit. In the candidates' own scores: no filling has a greater sum, nor the same sum with more lanes |
| LaneMatching.BestIffPreferred | src-tauri/src/features/planner/optimizer.rs:44-49 | for lanes in their order the best matching is the one preferred to every other: greater total score, then more lanes filled, then the lower uid in the first lane that differs; there is only one |
| LaneMatching.BestFillsBest | src-tauri/src/features/planner/optimizer.rs:182-240 | read off the candidates' own score tables: every match has a score in its tactic lane, the sum of the scores is as great as that of any other filling of the lanes, and no filling of the same sum has more lanes |
| LaneMatching.PreferredHasLowerUid | src-tauri/src/features/planner/optimizer.rs:44-49 | of two fillings with equal sums and equally many lanes the preferred one has the lower uid, or somebody instead of nobody, in the first lane in which they differ |
| TableLayouts.SanitizeLayout | src/stores/use-player-table-store.ts:292-329 | whatever was stored, the outcome is canonical |
| TableLayouts.RoundTripIffCanonical | src/stores/use-player-table-store.ts:292-329 | a layout survives storing and sanitizing exactly when it is canonical |
| TableLayouts.MigrateTable | src/stores/use-player-table-store.ts:408-497 | whatever was stored by whatever version, the outcome is canonical |
| TableLayouts.MigrationLandsInFixpoints | src/stores/use-player-table-store.ts:408-530 | sanitizing a migrated layout changes nothing |
| TableLayouts.StagesAgree | src/stores/use-player-table-store.ts:357-497 | filtering through the old allowlist, the identity columns and the new allowlist keeps what the new one keeps |
| TableLayouts.CustomLayoutIsKept | src/stores/use-player-table-store.ts:478-497 | a custom layout keeps, in stored order and once each, exactly its allowed columns and their widths |
| TableLayouts.UntouchedDefaultsAreUpgraded | src/stores/use-player-table-store.ts:443-477 | an untouched default of any earlier version, with or without a resized name column, becomes the historic version 8 default with that width for the identity column; the one exception is the older squad default with a resized name column, which misses Suggested Training |
| TableLayouts.StoredStateSurvives | src/stores/use-player-table-store.ts:331-350 | the states that survive storage and rehydration are exactly the canonical ones |
| TableLayouts.MigrationNeedsNoSanitizing | src/stores/use-player-table-store.ts:499-530 | the sanitizing merge after a migration changes nothing |
| StoredLayouts.FilterIsUnique | src/stores/use-player-table-store.ts:311-318 | keeping the allowed texts once each in the order in which they first occur can be done in one way only |
| StoredLayouts.DefaultsAreListed | src/stores/use-player-table-store.ts:180-250 | the built-in columns of every table, fresh and historic, are those listed by name |
| StoredLayouts.OlderDefaults | src/stores/use-player-table-store.ts:422-431 | before version 8, a table whose stored columns are missing, no array or empty gets exactly the historic columns, no widths and identity width 280 |
| StoredLayouts.OlderColumns | src/stores/use-player-table-store.ts:408-497 | before version 8, a table with stored columns keeps, in order, those still allowed, as wide as stored, and the name's width becomes that of the identity column; exactly when none was known to version 7 it gets the historic columns, and an untouched squad of before version 7 gets Suggested Training |
| StoredLayouts.CurrentDefaults | src/stores/use-player-table-store.ts:292-310 | from version 8, a table without stored columns gets the fresh ones, or none if an empty array was stored with a finite identity width, and that width, clamped |
| StoredLayouts.CurrentColumns | src/stores/use-player-table-store.ts:311-329 | from version 8, a table with stored columns shows those allowed, once each, in order, with their stored widths rounded and clamped, and the stored identity width, clamped |
| TableLayouts.PlayerTableStore.constructor | src/stores/use-player-table-store.ts:532-535 | the store starts canonical, with the defaults of every table |
| TableLayouts.PlayerTableStore.AddColumns | src/stores/use-player-table-store.ts:536-558 | shown columns stay in place and exactly the allowed missing ones are appended, once each |
| TableLayouts.PlayerTableStore.RemoveColumn | src/stores/use-player-table-store.ts:559-577 | the column and its width go, everything else stays |
| TableLayouts.PlayerTableStore.MoveColumn | src/stores/use-player-table-store.ts:578-602 | a permutation that puts the column where asked and keeps the order of the others; impossible moves change nothing |
| TableLayouts.PlayerTableStore.SetColumnWidth | src/stores/use-player-table-store.ts:603-623 | only a shown column with a finite width is resized, within the limits |
| TableLayouts.PlayerTableStore.SetIdentityWidth | src/stores/use-player-table-store.ts:624-634 | the identity width is clamped, and is the default for a number that is not finite |
| TableLayouts.PlayerTableStore.ReplaceLayout | src/stores/use-player-table-store.ts:635-684 | exactly the allowed ids once each with the widths they had, none under the name `__proto__`, or the default when none is allowed |
| TableLayouts.ReplacedByItself | src/stores/use-player-table-store.ts:635-684 | replacing a layout by the columns it shows keeps it exactly unless a column named `__proto__` has a width |
| TableLayouts.PlayerTableStore.SurvivesStorage | src/stores/use-player-table-store.ts:532-697 | every reachable state survives persisting and rehydrating |
| CStrings.CStringIsLongest | bridge/Extraction/FmStringReader.cs:96-130 | the specified string is the longest run of mapped non-zero bytes within the limit |
| CStrings.LongestIsCString | bridge/Extraction/FmStringReader.cs:79-130 | a run that cannot be extended is that string |
| CStrings.StringReader.DecodeCStringPrefix | bridge/Extraction/FmStringReader.cs:79-94 | decoding a completely read block gives the specified text |
| CStrings.StringReader.ReadCStringByteByByte | bridge/Extraction/FmStringReader.cs:96-130 | reading byte by byte gives the specified text, up to an unreadable tail |
| CStrings.StringReader.TryReadCString | bridge/Extraction/FmStringReader.cs:45-77 | the fast path and its fallback give the byte-by-byte outcome for every address and limit |

## Left out

- ScanParallel: worker tasks run one after the other here. They share nothing but the read-only memory image, so their interleaving is not modelled; cancellation and exceptions of workers are not modelled either.
- DumpPipeline: the many points at which a run notices its cancellation after the scan are one flag, since each of them ends the run in the same way; building the dump's document is not modelled.
- ScanSequential: cancellation, timings, region and memory figures, the worker count and buffer size in the diagnostics are not modelled. Counters are unbounded.
- TryFill: the caller's slice must lie within the address space and the smallest block must be at least one byte.
- Memory: nobody but the bridge writes. That the game keeps values of different records apart is stated of what a scan finds (`FindsApart`, `IsPossible`).
- RunDump: the regions to scan, whether the scan is cancelled, and what identifies a player are inputs; memory does not change during a dump. Exceptions in a dump or boost are modelled by what they do to indexes and status (`BridgeProtocol.Concludes`), not here.
- Run: the game version is the same in the whole run, and a dump's reader may depend on memory in any way as long as what it returns is true.
- KeptIsThere: where the block read left gaps in a header, the scanner inspects zeros in their place, and what it then keeps is tied to that block only.
- BridgeProtocol: the gate, the files and the threads are a transition system over values rather than objects, because their interleaving is the point; a compare-and-exchange is one step. One writer of requests is modelled, as the app guards its own; a write is complete or leaves an unfinished file, and writing on into a file that was moved meanwhile is not modelled, nor are a thread that cannot be started and shutdown, which empties the indexes without a status.
- MutationIndex: the player and the staff index are one class here, told apart by the facets they admit.
- SetMentality: Ambition and Professionalism share one method with the field as a parameter.
- ExecuteWonderkidMentality: the abilities repeated in a successful report and the wire names of outcomes are not modelled.
- Build: names of clubs and divisions and the plausibility of a name are given by the reader.
- SanitizeLayout: the metric catalogues and the staff default columns are parameters; `Sound` states that every built-in column is allowed and listed once. Numbers are reals, so rounding of binary fractions is not modelled.
- TextOf: decoding of UTF-8 and trimming are a parameter.
- Process handles, snapshots, file and JSON formats, thread joins and shutdown: foreign or input and output.
- Readers of contracts, nations, names, genders and staff attributes, date and age helpers, diagnostics text: straight-line lookups that would only add easy members.
- The offset tables beyond those the mutations use, the React user interface, catalogues and test doubles.
- MatchLanes: numbers are unbounded, and the library's stable sort by uid is given by the ranks it makes (`RankOf`).
- The Rust backend beyond the writing of requests (`src-tauri/src/features/memory_read/service.rs:416-438`) and the matcher: import, scoring, storage, and the planner's greedy pass over ranked lanes.
