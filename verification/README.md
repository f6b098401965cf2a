# A verified model of packet issuance, timing replay and photo merging

This project models, in Dafny, the parts of the Desk server that keep several copies of one event's data in agreement, and proves what they promise each other. It has five independent parts.

**Packet issuance.** Tablets, a Desk and a site exchange immutable operations over registration rows. `Transitions` is the command state machine (`Apply`, `ReverseMove`). `JsonMerge` and `RowMerge` hold the five recursive comparisons and merges of the source, over JSON trees and over rows, and prove that they are one three-way merge; `MergeOrder` extends it to any number of changes in any order. `Tables` is the event database as a value (`Desk`). `Receiver` specifies the receiver of tablet operations, `SiteFeed` the application of the site's pages, `Rebase` the snapshot rebase and `Resolutions` the organiser's decision on a conflict. `EventStore.Store` is the store the source updates in place; the modules ending in `Service` are the loops and transactions over it. Every such method is proved to do exactly what the function named in its `ensures` says, and the modules ending in `Laws`, with `DecisionTrees`, `ReceiverBibs`, `SiteSync` and `DeskRuns`, prove what those functions guarantee. What each operation does to its rows is also said field by field, in terms that do not use the specification functions: `CommandEffects` for the commands, `VerdictLaws` and `GateLaws` for refusals, `TableLaws` for reads and writes, `PublishLaws` for what the tablets are told, `ProposalLaws` for offers and decisions, `SiteActionLaws` and `RebaseRows` for the site. `DeskRuns` interleaves all writers: tablets, site pages, snapshots, organisers, desk edits (`DeskEdits`), timing and retention.

**The feed.** `FeedLog` is the numbered log with a moving floor, an archive and cursor readers, under any interleaving of publishers, relays, retention and reads. `FeedService` serves pages and compacts.

**Canonical text.** `Canonical` writes JSON trees the way operations are hashed and compared, next to a reader for JSON text, and proves the round trip; `CanonicalLaws` fixes the spelling.

**Replay and recount.** `Replay` and `ReplayService` are the wipe-and-replay of raw reads with judge entries. The choice of a checkpoint, the plan for a runner's times and the published status are arbitrary functions of one runner's data (`Rules`). `TimingLaws` says which times survive.

**Edge relay and photo finish.** `EdgeRelay` is the claim, finish and reconfigure protocol with leases, tokens and a revision fence, and `EdgeLeases` how long a lease holds. `PhotoMerge`, `PhotoViewCache` and `PhotoFrames` are the merging of photos into finishes, its cache and the frame timeline; `CrossingLaws` and `FrameLaws` tell them by the photos and frames alone.

Six things the source does are worth knowing, because they bound what can be promised:

- `RelayPacketSiteAction` (internal/infrastructure/sqlite/packet_issuance_store.go:1006) looks for an action among live feed rows only. An action that was archived and comes again is appended again, and from then on retention stops at that row for good. `FeedLog.RelayKeepsOnceExactly`, `FeedLog.ArchiveSucceedsExactly` and `FeedLog.RepeatBlocksRetention` give the exact conditions.
- The receiver stores the rejection of an operation of another event, but compares the stored event with the connection's before answering a resend (internal/service/packet_issuance.go:57-85), so that one resend fails instead of repeating the answer. `ReceiverLaws.ResendRepeatsExactly` is the exact condition.
- Tablets and the site's feed each apply an operation once, but the feed never asks whether a tablet's copy was applied here before (internal/service/packet_issuance_feed.go:50-89). An operation that was applied and undone is applied again when the site brings it. `EchoLaws.EchoMovesRowsExactly` is the exact condition.
- An edit of a runner's race leaves stored results and judge entries in the old race, and a recount by race goes by the stored race (internal/infrastructure/sqlite/recount_store.go:60-75). `ReplayLaws.RaceRecountIsWholeExactly` says exactly when it still gives the state of a whole recount, and `ReplayLaws.RaceEditHidesRead` is an input where it does not.
- A conflict may not be resolvable: a resolution must fit a frame that lets `raceId` stay only as it is, and its reason and actor are counted in characters by the form but in bytes by the parser. `ResolutionLaws.DecisionIsRecordable` is the exact condition, and `ResolutionLaws.RaceMoveStaysOpen` the case of a race change.
- A decision that applies a proposal stores every row it was offered, but publishes a row that ends up blank as removed (internal/infrastructure/sqlite/packet_issuance_store.go:1073-1084), so a reader of the feed sees a row as gone that the Desk keeps. `ProposalLaws.BlankIsToldGone` is the exact condition.

`dafny verify dfyconfig.toml` checks the whole project.

## Model

| member | source | states |
|---|---|---|
| JsonMerge.EffectIsMerge | internal/service/packet_issuance.go:329-349 | on every three trees, the receiver's effect comparison accepts `m` exactly when the feed's three-way merge succeeds with `m` |
| JsonMerge.CompatibleIsMergeable | internal/service/packet_issuance.go:291-307 | the receiver's compatibility test is exactly the merge's success test |
| JsonMerge.ChangedEqualIsNoOp | internal/service/packet_issuance.go:311-328 | "changed members already equal" holds exactly when merging the change leaves the current value as it is |
| JsonMerge.MergeSymmetric | internal/service/packet_issuance_feed.go:410-432 | swapping the two sides of a merge changes neither its success nor its result |
| JsonMerge.MergesCommute | internal/service/packet_issuance_feed.go:410-432 | two changes of one base go into any current value in either order, with the same success and the same result |
| JsonMerge.MergeIdempotent | internal/service/packet_issuance_feed.go:410-432 | merging a change a second time is the identity |
| JsonMerge.MergeSelf | internal/service/packet_issuance_feed.go:410-432 | two sides that made the same change merge to it |
| JsonMerge.MergeReachesBase | internal/service/packet_issuance_feed.go:410-432 | a merge that ends on the base was a merge of no change at all |
| JsonMerge.OverlayIsMerge | internal/service/packet_issuance_resolution.go:293-311 | where the merge succeeds, overlay gives the merged value if and only if the three trees have one shape wherever overlay descends |
| JsonMerge.OverlayDiffersOnRenamedKey | internal/service/packet_issuance_resolution.go:300-310 | why the shape condition is needed: with equal key counts but different keys, overlay leaves a null where the merge takes the new object; rows have fixed keys and never reach this |
| MergeOrder.MergeAllIgnoresOrder | internal/service/packet_issuance_feed.go:410-432 | any list of changes of one base merges into any current value in every order, with the same success and the same result |
| MergeOrder.FeedRowsIgnoreOrder | internal/service/packet_issuance_feed.go:402-432 | the same for rows as the feed merges them, evidence mark included |
| MergeOrder.RowsShareShape | internal/service/packet_issuance_resolution.go:281-311 | three encoded rows always have one shape, so the condition under which overlay is the merge holds on every input of the program |
| MergeOrder.RowOverlayIsMerge | internal/service/packet_issuance_resolution.go:259-311 | on rows, overlay gives the merged value wherever the merge succeeds |
| Registrations.EncodeInjective | internal/packetissuance/model.go:19-31 | two rows have the same JSON form exactly when they are equal, and the same feed form exactly when they differ at most in the evidence mark |
| Registrations.DecodeEncode | internal/service/packet_issuance_feed.go:402-408 | reading back a row's JSON form gives the row; reading back its feed projection gives the row without the evidence mark |
| RowMerge.RowMergeAgrees | internal/service/packet_issuance_feed.go:410-432 | the tree merge of three encoded rows is the field-by-field merge of the rows, failure included; only people and transfers are null-able |
| RowMerge.FeedMergeAgrees | internal/service/packet_issuance_feed.go:402-432 | the same for feed projections, which carry no evidence mark |
| RowMerge.CompatibleRows | internal/service/packet_issuance.go:288-307 | on rows the receiver's compatibility is mergeability of every field |
| RowMerge.EquivalentRows | internal/service/packet_issuance.go:308-328 | on rows "already equal" is "the merge changes nothing" |
| RowMerge.EffectRows | internal/service/packet_issuance.go:329-349 | on rows the effect comparison is "the outcome is the merge" |
| RowMerge.OverlayRows | internal/service/packet_issuance_resolution.go:259-311 | on rows, whose shape is fixed, overlay always takes each changed field, whether or not the merge would refuse |
| RowMerge.MergedRowIsValid | internal/service/packet_issuance_feed.go:372-391 | the merge of valid rows is valid exactly when it does not put a person on a reserve and the joined name still has a visible character |
| RowMerge.MergeCanBreakReserve | internal/service/packet_issuance_feed.go:372-391 | counterexample: one side adds a person, the other marks the row as reserve, and the merge succeeds with an invalid row |
| Transitions.Find | internal/packetissuance/transitions.go:60-80 | the lookup gives a row of that id from the list, and none only if no row has the id |
| TransitionLaws.ApplyIsGood | internal/packetissuance/transitions.go:60-299 | every accepted command changes at most two rows, different ones; it keeps them valid, keeps id, event and evidence, starts from the given rows, moves race, number and chip only where its kind may, and on a row with timing evidence touches only `issued`; what it puts into each field is `CommandEffects.CommandExactly` |
| CommandEffects.CommandExactly | internal/packetissuance/transitions.go:60-299 | on a proper roster a command gives a list of changes if and only if the row and the command meet the command's own conditions and the list is what the fifteen commands put into each field of the row, and of the target row, and nothing else; an unchanged row gives no change |
| CommandEffects.RowIsProper | internal/packetissuance/transitions.go:10-41 | a row is valid exactly if its names are identifiers, its status is one of four, nobody is on a reserve and its person, if any, has an identifier, a readable name, texts of at most 160 bytes, a listed gender and a calendar birth date or none; the code says which part fails first |
| CommandEffects.RefusedOffRoster | internal/packetissuance/transitions.go:60-76 | a command is accepted only on valid rows with distinct ids, one of which is the command's |
| CommandEffects.RefusalNamesItsCause | internal/packetissuance/transitions.go:77-292 | every refusal is one of the codes listed, and the condition its code speaks of holds of the rows and the command |
| CommandEffects.TakenBack | internal/packetissuance/transitions.go:77-230 | issuing, taking back, numbering, not starting and changing race are each undone by their opposite on any later proper roster: the row comes back exactly |
| TransitionLaws.ReverseIsGood | internal/packetissuance/transitions.go:303-349 | every accepted correction puts back exactly the two earlier images, on evidence-free rows, with number, chip code and race unchanged |
| TextLaws.AssignedExactly | internal/packetissuance/transitions.go:392-395 | a bib can be assigned exactly if it is a number from 1 to 2147483647 in its one spelling |
| TextLaws.SignedIsRead | internal/infrastructure/sqlite/packet_issuance_store.go:836-842 | a written-out number is read back with or without a sign, unless it does not fit in 64 bits |
| TextLaws.MonthsHaveTheirDays | internal/packetissuance/transitions.go:25-41 | the calendar a date of birth is checked against: each month has its days, February one more in Gregorian leap years |
| UndoLaws.MoveIsUndoneExactly | internal/packetissuance/transitions.go:249-349 | a two-row move on untouched rows can be corrected if and only if it did not strip the source row of its number, and then both before-images come back |
| UndoLaws.UndoneWasAMove | internal/packetissuance/transitions.go:303-349 | whatever can be corrected was a move, and replaying the move inferred from it reproduces the original changes exactly |
| CorrectionLaws.CorrectedExactly | internal/packetissuance/transitions.go:303-349 | a correction is accepted if and only if it has a reason, every row is valid, the two changes are what some move did to their before images, and both rows still hold what the move left, untimed and with number, chip and race as before it; every refusal is for review |
| UndoLaws.InferredMoveReplays | internal/packetissuance/transitions.go:323-341 | the move inferred from any accepted move does the same to the same rows |
| UndoLaws.ReturnIsNeverUndone | internal/packetissuance/transitions.go:303-322 | giving a number back to the reserve is never accepted as a move to correct |
| RosterRuns.RunStaysAcyclic | internal/packetissuance/transitions.go:172-186 | over any run of commands and corrections no chain of `transferredTo` ever closes into a cycle |
| RosterRuns.RunKeepsPeople | internal/packetissuance/transitions.go:249-349 | over any run of moves, reserve assignments and corrections, each person keeps the number of rows held without a transfer |
| RosterRuns.UndoRestoresRoster | internal/packetissuance/transitions.go:249-349 | a correction drawn from the roster its move left behind restores the whole roster |
| ReceiverLaws.DecisionIsMerge | internal/service/packet_issuance.go:219-272 | a clash of any row forces a conflict, "equivalent" means exactly that the merge changes no row, and "applied" implies the rerun command's rows are row by row the three-way merge of the tablet's change into the current row |
| DecisionTrees.AppliedExactly | internal/service/packet_issuance.go:219-272 | an operation is applied if and only if every row can be merged, some row changes, the command (or the undo of an accepted ordinary move) can be rerun on the current rows, and what comes out is the merge on every row; the rerun changes are what is written |
| DecisionTrees.AppliedIsTreeMerge | internal/service/packet_issuance.go:253-271 | when the decision is applied, `Merge(before_i, after_i, current_i)` over the JSON trees of row i is exactly the tree of the row the rerun `Apply` or `ReverseMove` leaves, undeclared rows standing as they are |
| DecisionTrees.EquivalentIsTreeMerge | internal/service/packet_issuance.go:229-235 | the decision is equivalent if and only if the trees of every row merge to the current row itself |
| DecisionTrees.StateConflictIsTreeMerge | internal/service/packet_issuance.go:220-228 | the code `current_state_changed` is given if and only if some row's trees do not merge and the first such row has no new timing evidence; with new evidence there the code is `timing_review_required` |
| ReceiverLaws.AppliedChangesSomething | internal/service/packet_issuance.go:219-272 | an applied decision always carries changes |
| ReceiverLaws.AssessWell | internal/service/packet_issuance.go:80-147 | for ordinary, numbering and return-to-reserve operations alike: nothing is written unless the operation applies, and then what is written is valid, within its frame and the merge of its changes |
| ReceiverLaws.ReceiveMerges | internal/service/packet_issuance.go:50-169 | receiving one operation either leaves rows and members alone, or every named row becomes the merge of its change, headed by the operation, and no other row moves |
| ReceiverLaws.ResendRepeats | internal/service/packet_issuance.go:57-77 | an outcome other than waiting is the answer to every later resend of an operation of the connection's event or of one known before, and the resend changes nothing |
| ReceiverLaws.ResendRepeatsExactly | internal/service/packet_issuance.go:57-85 | an answered operation gets the same answer at every later resend if and only if it is of the connection's event or was known before it was answered; any other is refused as an identity conflict from then on |
| ReceiverLaws.ForeignResendFails | internal/service/packet_issuance.go:57-85 | an operation of another event is rejected once, and its resend is an identity conflict instead of the same answer |
| ReceiverLaws.EffectAtMostOnce | internal/service/packet_issuance.go:57-77 | once an operation changed a row, nothing received under its name ever changes the store again |
| ReceiverLaws.DecidedAfterItsHeads | internal/service/packet_issuance.go:87-120 | an operation is applied, equivalent or in conflict only if every head of its bases was accepted before, none of them being itself |
| ReceiverLaws.ReceiveKeepsAccepted | internal/infrastructure/sqlite/packet_issuance_store.go:737-760 | what a later operation may depend on stays accepted |
| ReceiverBibs.ReceiveHoldsEvidence | internal/packetissuance/transitions.go:351-362 | whatever tablets send, corrections included, a row that took part in timing changes at most in `issued` |
| ReceiverBibs.ReceiveKeepsBibs | internal/infrastructure/sqlite/packet_issuance_store.go:762-873 | one received operation keeps numbers unique among live rows and every member in step with its row |
| ReceiverBibs.TabletRunKeepsBibs | internal/service/packet_issuance_numbers.go:12-85 | the same over every run of tablet operations |
| ReceiverService.Clash | internal/service/packet_issuance.go:222-244 | the first row that cannot take its change, with the code of the failure |
| ReceiverService.Equivalence | internal/service/packet_issuance.go:245-252 | whether every row already shows its change |
| ReceiverService.PacketMergeDecision | internal/service/packet_issuance.go:219-272 | reads the current rows and returns the decision that `ReceiverLaws.DecisionIsMerge` characterises, changing nothing |
| ReceiverService.PutChanges | internal/service/packet_issuance.go:148-156 | writes the changed rows one by one with the operation as their only head, members with them |
| ReceiverService.ReceiveNumber | internal/service/packet_issuance_numbers.go:12-85 | assigning a number and creating a registration against the stored rows, refusals included |
| ReceiverService.ReceiveReserveReturn | internal/service/packet_issuance_return.go:12-68 | splitting a row into its person and a new reserve row holding the number |
| ReceiverService.CollectDependencies | internal/service/packet_issuance.go:87-104 | collects exactly the distinct heads of all bases, or reports that the operation names itself |
| ReceiverService.Save | internal/service/packet_issuance.go:171-188 | stores the outcome and, when it is one the feed carries, publishes it |
| ReceiverService.ReceiveOperation | internal/service/packet_issuance.go:35-169 | one operation as one transaction: the new tables and the answer are those of the receiver function, a failure leaves every table as it was |
| ReceiverService.Receive | internal/service/packet_issuance.go:35-48 | a batch in order; it stops at the first failing operation and keeps the ones before |
| VerdictLaws.GatesInOrder | internal/service/packet_issuance.go:80-147 | the verdict on an operation is that of the first gate that stops it (event, own head, unseen head, number, existing participant, unknown race, missing details, missing row, timing), with that gate's outcome and code, or else the merge decision on the rows as they stand |
| VerdictLaws.ReceiptAccepts | internal/infrastructure/sqlite/packet_issuance_store.go:737-760 | after a receive an operation may be built on exactly if it took effect; no other name is affected |
| GateLaws.UploadTurnedAway | internal/service/packet_issuance.go:50-86 | each refusal of an upload has its one condition: foreign scope, event or tablet; a name taken by other content; a place in the tablet's sequence taken; a final answer comes first, and a refusal changes nothing |
| GateLaws.BatchExactly | internal/service/packet_issuance.go:35-48 | a batch holds one to sixty-four operations and is answered one by one in order up to the first failure |
| GateLaws.CorrectionWaits | internal/service/packet_issuance.go:253-262 | a decision on the rows waits exactly while the operation it corrects is not in force here |
| GateLaws.EffectIsLookedUp | internal/infrastructure/sqlite/packet_issuance_store.go:737-760 | the four places, and the outcomes in each, by which a name counts as accepted |
| TableLaws.RowsReadAsStored | internal/infrastructure/sqlite/packet_issuance_store.go:526-583 | a row is read exactly if it is live and has its member, and it reads as stored, with the evidence mark it has or has earned since |
| TableLaws.NumberIsChecked | internal/infrastructure/sqlite/packet_issuance_store.go:1194-1210 | a number is refused exactly if another member has it, or else if reads were logged under it |
| TableLaws.MemberFollowsRow | internal/infrastructure/sqlite/packet_issuance_store.go:762-873 | a written row brings its member's number and chip in step; marks stay on a rewritten row and start afresh on a new one, results stay |
| TableLaws.WriteFailsExactly | internal/infrastructure/sqlite/packet_issuance_store.go:762-834 | a row write fails exactly on an unknown race, an existing row to create, or a missing member |
| GateLaws.RecordedExactly | internal/service/packet_issuance.go:171-188 | a decision is put on record exactly if its operation or its event is known and the feed takes it, under its own outcome and code |
| PublishLaws.ReceivedIsTold | internal/infrastructure/sqlite/packet_issuance_store.go:1043-1110 | a received operation that is decided now and not in the log yet gets one entry under its name with its outcome and code; its changes tell every row that changed as it stood and as it is stored, with no before image exactly for a row it created, and nothing else; in every other case the feed stays |
| PublishLaws.ReaderKeepsUp | internal/infrastructure/sqlite/packet_issuance_store.go:1043-1139 | a reader whose table shows the rows before a told step shows the rows after it once it has taken the told changes in |
| PublishLaws.RelayedAsItCame | internal/infrastructure/sqlite/packet_issuance_store.go:1003-1041 | a relayed site action stands in the log as it came, image by image, without the evidence mark |
| PublishLaws.AnnouncedAsIs | internal/infrastructure/sqlite/packet_issuance_store.go:1115-1139 | a change of the Desk stands in the log image by image, under its own name, as applied |
| GateLaws.AnnouncedExactly | internal/infrastructure/sqlite/packet_issuance_store.go:1115-1139 | a change of the Desk is published exactly if it is named, has 1 to 20000 changes and a source code of 1 to 64 bytes, and no live row has its name or number |
| GateLaws.RetentionGoes | internal/service/packet_issuance_retention.go:25-63 | retention plans up to `keep` rows from the head in one batch of at most a hundred, or nothing |
| GateLaws.RetentionRuns | internal/service/packet_issuance_retention.go:25-63 | a bad request is refused, a run that is not to execute or finds nothing due only reports its plan, any other archives exactly the planned stretch or changes nothing |
| GateLaws.QuestionsRefused | internal/service/packet_issuance_lan.go:107-161 | a reader's question is refused as invalid exactly outside cursor >= 0 and limit 1..100, and as ahead exactly past the head |
| GateLaws.PageIsConsecutive | internal/service/packet_issuance_lan.go:107-161 | a served page holds consecutive rows from its cursor on, and says there is more exactly if the head is further |
| GateLaws.StretchRefused | internal/infrastructure/sqlite/packet_issuance_store.go:181-205 | a stretch to archive is refused as out of range exactly if it is not the next one to a hundred live rows |
| FeedLog.StepExtendsTheLog | internal/infrastructure/sqlite/packet_issuance_store.go:163-280 | publishing, relaying, announcing and retention each keep archived rows at exactly 1..floor-1 and live rows at floor..head, and only ever append to the log |
| FeedLog.RunExtendsTheLog | internal/infrastructure/sqlite/packet_issuance_store.go:163-280 | the same over every interleaving |
| FeedLog.PageIsASlice | internal/service/packet_issuance_lan.go:107-161 | a reader gets "expired" exactly when rows after its cursor are archived, and otherwise the next stretch of the log with correct `next` and `hasMore` |
| FeedLog.ReaderMissesNothing | internal/service/packet_issuance_lan.go:107-161 | in every interleaving of writers, retention and page reads, what a cursor reader collected is the log from its start to its cursor: no gap, no repeat |
| FeedLog.ArchiveSucceedsExactly | internal/infrastructure/sqlite/packet_issuance_store.go:181-253 | archiving a proper range succeeds if and only if none of its live actions is in the archive already |
| FeedLog.CompactionLeavesEnough | internal/service/packet_issuance_retention.go:25-63 | an executed retention moves 1 to 100 rows, loses none and leaves at least `keep` live; a due one succeeds exactly when no row of its batch is archived twice |
| FeedLog.OthersKeepOnce | internal/infrastructure/sqlite/packet_issuance_store.go:1043-1139 | publishing, announcing and retention never put an operation in the log twice |
| FeedLog.RelayKeepsOnceExactly | internal/infrastructure/sqlite/packet_issuance_store.go:1003-1041 | a relay repeats an operation exactly when its entry is archived and no longer live, because only live rows are consulted |
| FeedLog.RunKeepsOnce | internal/infrastructure/sqlite/packet_issuance_store.go:1003-1139 | runs that relay no operation keep every operation at most once |
| FeedLog.RelayedTwice | internal/infrastructure/sqlite/packet_issuance_store.go:1003-1041 | a concrete feed where that happens: an archived action is relayed again, stands in the log twice, and no later run archives its second row |
| FeedLog.RepeatBlocksRetention | internal/infrastructure/sqlite/packet_issuance_store.go:181-253 | after such a repeat no later run of any steps moves the floor past the repeated row |
| EventStore.Store.PutPacketRegistration | internal/infrastructure/sqlite/packet_issuance_store.go:762-812 | a stored row gets the new value and heads and is live again, a row that is not stored is passed over, and the member is brought in step; a missing member or unknown race is reported, with the members as they were and the row write left to the transaction to undo |
| EventStore.Store.InsertPacketRegistration | internal/infrastructure/sqlite/packet_issuance_store.go:814-834 | a new row and its member; fails where the id exists |
| EventStore.Store.DeletePacketRegistration | internal/infrastructure/sqlite/packet_issuance_store.go:875-890 | a row is marked deleted under its new heads and keeps its value; its member stays; a row that is not stored is reported |
| EventStore.Store.PacketDependenciesApplied | internal/infrastructure/sqlite/packet_issuance_store.go:737-760 | whether every name was accepted: applied or equivalent in the journal, live feed, archive or site actions |
| EventStore.Store.SavePacketOperation | internal/infrastructure/sqlite/packet_issuance_store.go:931-939 | a known operation only gets its new outcome; a new one is added |
| EventStore.Store.PublishPacketOperation | internal/infrastructure/sqlite/packet_issuance_store.go:1043-1110 | appends unless the operation is undecided, already live or archived; the new row carries its name, outcome and code and each change's images in their places without the evidence mark, a virtual before image left out only for a tablet's new row and a virtual after image only in a decision |
| EventStore.Store.RelayPacketSiteAction | internal/infrastructure/sqlite/packet_issuance_store.go:1003-1041 | appends the action, image by image, unless it is already live |
| EventStore.Store.PublishPacketServerChange | internal/infrastructure/sqlite/packet_issuance_store.go:1115-1139 | appends an organiser's change as its own applied action, before images as before and after images as after, without the evidence mark |
| EventStore.Store.ArchivePacketFeedPrefix | internal/infrastructure/sqlite/packet_issuance_store.go:181-253 | checks the range, stores each row in the archive and moves the floor; any refusal is reported |
| EventStore.Store.ListPacketFeedRows | internal/infrastructure/sqlite/packet_issuance_store.go:255-280 | the first `limit` live rows after a sequence |
| FeedService.PacketIssuanceFeedPage | internal/service/packet_issuance_lan.go:107-161 | the served page, changing nothing |
| FeedService.CompactPacketIssuanceFeed | internal/service/packet_issuance_retention.go:25-63 | plans, and when asked archives, one batch; a failure leaves the feed as it was |
| FeedChangeLaws.ChangeConflicts | internal/service/packet_issuance_feed.go:356-400 | a change conflicts over the lifecycle exactly when a row stands here that matches neither image, or none does where one is needed, and over the state exactly when the projections do not merge |
| FeedChangeLaws.ChangeKeepsEvidence | internal/service/packet_issuance_feed.go:362-399 | a merged row keeps the evidence mark of the row that stood here; a new row starts without one |
| FeedChangeLaws.ChangeTwiceIsOnce | internal/service/packet_issuance_feed.go:356-400 | merging the same change again is accepted and changes nothing |
| SiteFeed.UniqueHeads | internal/service/packet_issuance_feed.go:434-445 | the result holds exactly the non-empty heads |
| FeedChangeLaws.HeadsAscend | internal/service/packet_issuance_feed.go:434-445 | the heads are in ascending order, each once, so the limit of 64 counts different actions |
| SiteActionLaws.AppliedRowsTake | internal/service/packet_issuance_feed.go:292-400 | an action applied here leaves each of its rows removed, created or with the site's changes laid over it field by field, under the action and every earlier head, and no other row moved |
| SiteActionLaws.DecisionTakesItsPlace | internal/service/packet_issuance_feed.go:255-290 | a decision applied here leaves its rows in the same way, under its own name in place of the operation it decides, beside every other earlier head |
| SiteActionLaws.ActionLands | internal/service/packet_issuance_feed.go:50-106 | a new site action is journalled with what it came to: a conflict goes to review with its code, an equivalent one is observed, an applied one applies or goes to review with a reason; rows move only if it applied here, and an operation not known before is recorded with what it came to here |
| SiteActionLaws.ResolutionLands | internal/service/packet_issuance_feed.go:180-239 | the first decision on a conflict known here stands with its choice and reason and applies or goes to review; a repeated one is observed, a later one only goes to review |
| GateLaws.ActionStopped | internal/service/packet_issuance_feed.go:50-80 | a new site action is stopped first by other content under its name, then by a site row it does not start from; none goes through under a number already journalled |
| GateLaws.DecisionNeedsItsConflict | internal/service/packet_issuance_feed.go:180-254 | a site decision goes through only if the operation it decides is on record here, in its event, scope and baseline, and its conflict came with the site's feed |
| GateLaws.SiteRecordExactly | internal/infrastructure/sqlite/packet_issuance_store.go:943-973 | an operation the site brings is recorded exactly if it is the one known here, which keeps its record, or is new and its place in the tablet's sequence is free |
| GateLaws.PageTurnedAway | internal/service/packet_issuance_feed.go:26-38 | a page is taken only by the scope it is for, at the cursor it starts from, and then moves the cursor to its end with all its actions or changes nothing |
| GateLaws.PageReports | internal/service/packet_issuance_feed.go:85-112 | the report of a page names each action, what the journal says it came to and whether it was there before; earlier journal entries stand |
| SiteFeedLaws.AdvanceFollowsSite | internal/service/packet_issuance_feed.go:141-168 | advancing the baseline moves the stored site rows exactly as the site's own rows move |
| SiteFeedLaws.PageTracks | internal/service/packet_issuance_feed.go:26-112 | after a page the stored site rows are the site's rows at the new cursor; a page that fails changes nothing at all |
| SiteFeedLaws.PagesTrack | internal/service/packet_issuance_feed.go:26-112 | the same over every sequence of pages, in any order and with any failures |
| SiteSync.AllRowsOrNone | internal/service/packet_issuance_feed.go:292-354 | an action is applied here exactly when every one of its rows can take its change within 64 heads; then every named row is its merge and no other row moves, otherwise it goes to review and no row moves |
| SiteSync.MergeOnBase | internal/service/packet_issuance_feed.go:356-400 | on a row equal to the base a change is taken whole, evidence apart |
| SiteSync.SyncedStaysSynced | internal/service/packet_issuance_feed.go:292-400 | with no local divergence and the heads within 64, an action that applied at the site applies here and local rows equal the baseline again |
| SiteSync.PageStaysInStep | internal/service/packet_issuance_feed.go:26-112 | with no local divergence, no resolutions and heads within 64, local rows equal the site's rows at the committed cursor after every page, whether it succeeds or fails |
| SiteSync.PagesStayInStep | internal/service/packet_issuance_feed.go:26-112 | the same over every sequence of pages |
| SiteFeedService.UniquePacketHeads | internal/service/packet_issuance_feed.go:434-445 | the distinct non-empty heads in ascending order |
| SiteFeedService.MergePacketFeedChange | internal/service/packet_issuance_feed.go:356-400 | the merge of one change: creation, deletion and update, with their conflict codes |
| SiteFeedService.ApplyPacketFeedPlans | internal/service/packet_issuance_feed.go:318-354 | deletes, inserts or rewrites the planned rows in order |
| SiteFeedService.ApplyPacketFeedChanges | internal/service/packet_issuance_feed.go:292-316 | plans all rows first and writes only if none conflicts |
| SiteFeedService.ValidatePacketSiteBaseline | internal/service/packet_issuance_feed.go:114-139 | whether the stored site rows are the action's before-images |
| SiteFeedService.AdvancePacketSiteBaseline | internal/service/packet_issuance_feed.go:141-168 | takes the action's after-images into the stored site rows |
| SiteFeedService.SaveReceivedPacketOperation | internal/infrastructure/sqlite/packet_issuance_store.go:943-973 | records an operation that came by feed; a known one keeps its record, waiting included, and other content under the same name or sequence is refused |
| SiteFeedService.ApplyPacketResolution | internal/service/packet_issuance_feed.go:180-239 | applies a site decision to the conflict it names, or sends it to review |
| SiteFeedService.ApplyOneAction | internal/service/packet_issuance_feed.go:50-106 | one action of a page, skipped when it was seen before and refused when it was seen with other bytes |
| SiteFeedService.ApplyPacketFeedPage | internal/service/packet_issuance_feed.go:26-112 | page, journal, relay and cursor as one transaction |
| RebaseLaws.ServerMergeIsThreeWay | internal/service/packet_issuance_rebase.go:77-100 | where both sides have the row, the snapshot is merged over the old baseline and evidence comes from either side |
| RebaseLaws.RebaseMergesRows | internal/service/packet_issuance_rebase.go:75-135 | after a rebase each snapshot row is unmoved, or the merge of baseline, snapshot and local value, or the local row with at most evidence added |
| RebaseRows.RebasedRowReads | internal/service/packet_issuance_rebase.go:75-135 | each snapshot row afterwards, member by member: as it was if the site stood, created if it is new, merged over the old baseline with evidence from either side, or in conflict and at most marked as timed |
| RebaseRows.RebaseReports | internal/service/packet_issuance_rebase.go:77-127 | the report has every row the site moved with what became of it and every live baseline row the snapshot dropped for review, no row twice, and its counters add up |
| GateLaws.RebaseTurnedAway | internal/service/packet_issuance_rebase.go:31-74 | a snapshot is refused exactly on its format, event, scope, baseline name, cursor, size of 20000, invalid or repeated rows; a missing baseline is its own refusal; at most sixty-four rebases go through |
| RebaseLaws.OtherRowsStay | internal/service/packet_issuance_rebase.go:114-135 | rows outside the snapshot are not touched |
| RebaseLaws.RebaseTakesSnapshot | internal/service/packet_issuance_rebase.go:111-135 | afterwards the baseline of every snapshot row equals the snapshot and the other baselines are as before |
| RebaseLaws.RebaseKeepsHeads | internal/service/packet_issuance_rebase.go:95-110 | causal heads survive on every row |
| RebaseLaws.RebaseKeepsEvidence | internal/service/packet_issuance_rebase.go:93-110 | a row known to have taken part in timing never loses that mark |
| RebaseLaws.RebaseTwiceIsOnce | internal/service/packet_issuance_rebase.go:31-159 | rebasing onto the same snapshot again succeeds exactly below the limit of 64 and changes no row, member or baseline |
| RebaseLaws.RebaseIsSnapshot | internal/service/packet_issuance_rebase.go:31-159 | if the snapshot lacks no live site row, the baseline becomes exactly the snapshot |
| RebaseLaws.RebaseKeepsSync | internal/service/packet_issuance_rebase.go:31-159 | without local work the rebased local rows equal the snapshot |
| RebaseLaws.WorkReports | internal/service/packet_issuance_rebase.go:77-127 | every moved row is reported once with what became of it, and the counters match |
| RebaseService.PlanSnapshot | internal/service/packet_issuance_rebase.go:75-112 | one pass over the snapshot collecting plans, baseline rows and the report |
| RebaseService.ReportMissing | internal/service/packet_issuance_rebase.go:114-127 | every live baseline row the snapshot lacks is reported for review |
| RebaseService.RebasePacketIssuanceRoster | internal/service/packet_issuance_rebase.go:31-159 | the rebase as one transaction; a failure changes nothing |
| ResolutionLaws.ProposalIsProper | internal/service/packet_issuance_resolution.go:156-257 | what an organiser is offered stays on the rows of the conflict, in this event and with their evidence, and is valid where the rows were; what it puts into them is `ProposalLaws.OfferExactly` |
| ProposalLaws.OfferExactly | internal/service/packet_issuance_resolution.go:156-311 | the organiser is offered a list of changes if and only if the operation can be read, its rows are there, and each row is offered as the rerun command leaves it where the command can still be run, and otherwise with the operation's changed fields laid over the current ones |
| ProposalLaws.DecisionDoes | internal/service/packet_issuance_resolution.go:54-154 | a decision that goes through was made on that offer, is recorded with its input, choice, reason and pairs (exchanged when rejecting), writes exactly the offered rows under its name when applying and none when rejecting, and is told to the tablets once, a row that ends up blank as gone |
| GateLaws.DecisionTurnedAway | internal/service/packet_issuance_resolution.go:54-92 | reason and actor count without the blanks around them, 1 to 500 and 1 to 160 characters; then the conflict must be on record and undecided, the offer unchanged and, to apply it, applicable, each with its own refusal |
| ProposalLaws.DecisionReadsBack | internal/infrastructure/sqlite/packet_issuance_store.go:1073-1084 | what the feed tells of a decision is what a reader of the feed demands of one: the decision's own images, blank rows left out |
| ProposalLaws.BlankIsToldGone | internal/infrastructure/sqlite/packet_issuance_store.go:1073-1084 | a decision keeps every row it writes, yet tells the tablets that a row is gone exactly where the row it wrote is blank |
| ProposalLaws.EmptiedRowIsBlank | internal/packetissuance/transitions.go:267-287 | where that comes from: assigning a reserve row without returning the number leaves a blank row behind exactly if a tablet coined its id |
| ResolutionLaws.DecisionIsRecordable | internal/service/packet_issuance_resolution.go:120-144 | in a fitting environment a decision can be recorded if and only if its changes fit the resolution frame (no race change) and reason and actor, trimmed, fit their limits |
| ResolutionLaws.RaceMoveStaysOpen | internal/service/packet_issuance_resolution.go:120-144 | a conflict whose proposal moves a row to another race can be decided neither way; the attempt changes nothing |
| ResolutionLaws.ResolveIsFinal | internal/service/packet_issuance_resolution.go:54-154 | a decision is recorded for its input, keeps every earlier outcome and changes rows only when the proposal is applied |
| ResolutionLaws.DecidedOnce | internal/service/packet_issuance_resolution.go:69-80 | a decided conflict cannot be decided again; the attempt changes nothing |
| ResolutionLaws.ResolveAppliesProposal | internal/service/packet_issuance_resolution.go:94-119 | applying puts exactly the proposed rows and their members in place under the decision's own name |
| ResolutionLaws.ApplicableRewrites | internal/service/packet_issuance_resolution.go:156-221 | an applicable proposal only rewrites rows that are there |
| ResolutionService.ConvergencePacketChanges | internal/service/packet_issuance_resolution.go:239-257 | forces every expected change onto the current rows, or fails on the first row that would become invalid; by field this is `ProposalLaws.OfferExactly` |
| ResolutionService.NormalizePacketCandidate | internal/service/packet_issuance_resolution.go:223-237 | one change per current row, in their order: each as the derived changes leave it, or unchanged where they leave it alone |
| ResolutionService.ReversePacketChanges | internal/service/packet_issuance_resolution.go:313-319 | the same changes with before and after exchanged |
| ResolutionService.PacketConflictCandidate | internal/service/packet_issuance_resolution.go:156-221 | the proposal for a conflict, changing nothing: in a consistent store it is what `ProposalLaws.OfferExactly` describes |
| ResolutionService.ResolvePacketConflict | internal/service/packet_issuance_resolution.go:54-154 | the decision as one transaction |
| DeskRuns.RunGrows | internal/service/packet_issuance.go:50-188 | in every interleaving of tablets, site pages, snapshots, organiser decisions, desk edits, timing and retention: outcomes that are not waiting never change, the feed's log and the site journal only grow, the store stays consistent |
| DeskEdits.EditIsPublished | internal/service/edits.go:163-192 | an edit made at the Desk puts its row in place with a head of its own on top of all heads before it, tells the tablets that row as it stood and as it is stored under the edit's own name, and touches no other row |
| DeskEdits.EditExactly | internal/service/edits.go:141-240 | an edit goes through exactly if its row is live and proper, keeps identity, event, reserve, packet, transfer and evidence, fits 64 heads, and can be written and told |
| DeskRuns.RunKeepsAccepted | internal/infrastructure/sqlite/packet_issuance_store.go:737-760 | acceptance is never lost over such a run, archiving included |
| DeskRuns.RunRepeatsAnswers | internal/service/packet_issuance.go:57-77 | a final answer given at one step is repeated at any later one, with nothing changed |
| DeskRuns.RunAppliesOnce | internal/service/packet_issuance.go:57-77 | no operation name changes rows at two steps of a run at which tablets send it |
| DeskRuns.RunSkipsKnownActions | internal/service/packet_issuance_feed.go:50-60 | an action that came with some page of a run is skipped by every later page, or refused if its bytes differ; it changes nothing again |
| EchoLaws.EchoMovesRowsExactly | internal/service/packet_issuance_feed.go:50-106 | the two routes do not know of each other: an operation that comes by the site's feed, applied here before or not, leaves the rows as they are if and only if it goes to review or each named row already holds its merge |
| EchoLaws.UndoneEchoReapplies | internal/service/packet_issuance_feed.go:50-106 | so an operation applied here and then undone is made once more when the site brings it |
| EchoLaws.EchoReapplies | internal/service/packet_issuance_feed.go:50-106 | a concrete store where that happens: applied for a tablet, taken back, applied again for the site |
| EchoLaws.WaitingOutlivesSite | internal/infrastructure/sqlite/packet_issuance_store.go:943-973 | a page never settles an operation that waits here: its record stays waiting, so a tablet that sends it again has it decided anew |
| DeskRuns.RunRespectsCauses | internal/service/packet_issuance.go:87-120 | an operation decided at a step had all its heads accepted before that step, and they stay accepted |
| DeskRuns.BatchRepeats | internal/service/packet_issuance.go:35-48 | a whole batch sent again any time later repeats its receipts and changes nothing, once none of them is waiting |
| Canonical.Sorted | internal/packetissuance/validation.go:862-872 | the keys in ascending order, each once |
| Canonical.TextReads | internal/packetissuance/validation.go:838-920 | a reference reader recovers any accepted tree from the front of a longer text and stops where the tree ends |
| Canonical.CanonicalRoundTrip | internal/packetissuance/validation.go:831-920 | reading a canonical text gives back the tree with nothing left over |
| Canonical.CanonicalIsInjective | internal/packetissuance/validation.go:831-920 | different trees never share a text |
| Canonical.CanonicalIsPrefixFree | internal/packetissuance/validation.go:831-920 | no canonical text followed by anything but a digit is another canonical text |
| Canonical.CanonicalIsStable | internal/packetissuance/validation.go:831-837 | re-canonicalising is the identity |
| Canonical.Buffer.WriteJsonString | internal/packetissuance/validation.go:893-920 | the quoted string, escaped as section 7 of RFC 8259 asks |
| Canonical.Buffer.WriteCanonical | internal/packetissuance/validation.go:838-892 | appends the tree's text exactly when every part of it can be written |
| CanonicalLaws.StringIsSpelt | internal/packetissuance/validation.go:893-920 | a string is spelt character by character: seven characters by letter, other control characters as \\u00 and two lower-case digits, everything else as itself |
| CanonicalLaws.WritesExactly | internal/packetissuance/validation.go:838-892 | numbers can be written exactly from 0 to 9007199254740991, strings exactly if every character is printable |
| ReplayLaws.ProcessIsLocal | internal/processor/processor.go:28-113 | one read advances the runner it resolves to, as that runner's data alone determine, and leaves everybody else alone |
| ReplayLaws.ReplayIsLocal | internal/service/recount.go:235-243 | a replay is, runner by runner, that runner's own reads in order |
| ReplayLaws.ReapplyIsLocal | internal/service/recount.go:245-257 | only a runner's first judge entry counts, and it touches that runner only |
| ReplayLaws.WipeIsLocal | internal/infrastructure/sqlite/recount_store.go:10-78 | where the results a wipe removes are those of the runners it resets, which always holds for an event or a list of runners, it resets exactly those runners, results included; what a reset clears is `TimingLaws.WipeSparesGiven` |
| TimingLaws.WipeSparesGiven | internal/infrastructure/sqlite/recount_store.go:10-78 | inside the scope finish and clean time go, a start worked out from a read or the race goes back to unknown, and a start of any other origin stays with its origin and read; runners outside stay, and exactly the results of the scope are removed |
| TimingLaws.GivenStartSurvives | internal/service/recount.go:168-257 | a recount of any scope keeps every runner, number, chip and race, and every start that somebody gave, with its origin and read |
| TimingLaws.JudgeHasTheLastWord | internal/service/recount.go:245-257 | after a recount the first judge entry of its scope is that runner's finish, timed from the runner's start if there is one |
| TimingLaws.ReadMakesOneResult | internal/processor/processor.go:28-113 | a read that changes anything adds one result with its own time in its runner's name, race and number, moves that runner's start only if nobody gave it and the finish only if there is none, as the rules plan, and touches nobody else |
| TimingLaws.RulesChoose | internal/processor/processor.go:62-100 | the rules choose among the checkpoints of the runner's race at the read's board, knowing the race's start and the runner's results in that race only |
| TimingLaws.ReadHasAnOwner | internal/processor/processor.go:28-80 | a read changes something only if it has a time, is switched on, has no result yet and belongs to a runner by number or else by chip |
| TimingLaws.EntrySetsFinish | internal/service/recount.go:245-257 | a judge entry sets the finish whatever stood there; the start stays, or is the race's where there was none |
| ReplayLaws.RecountIsLocal | internal/service/recount.go:175-257 | under the same proviso, a recount of a scope is for each runner in it a replay of that runner's own reads, nobody else is replayed, and on top comes the first judge entry the scope sees |
| ReplayLaws.EventResolves | internal/service/recount.go:175-203 | after a whole recount every stored result belongs to the runner its read resolves to, whatever was stored before |
| ReplayLaws.ScopeRecountIsWhole | internal/service/recount.go:205-233 | with everybody outside a list of runners already at the whole recount's state, the targeted recount gives exactly the state of a whole recount, whatever races the stored results and judge entries carry |
| ReplayLaws.RunnersRecountAlone | internal/service/recount.go:205-233 | a recount of an event or a list of runners is the whole recount of each of them and nothing for anybody else |
| ReplayLaws.RaceRecountIsWholeExactly | internal/service/recount.go:168-203 | with everybody outside a race settled, a recount by race gives the state of a whole recount if and only if no runner of the race has a stored result of another race and the judge entries stored with the race show each runner's first entry, or show none where none is missed |
| ReplayLaws.RaceRecountIsWhole | internal/service/recount.go:168-203 | in particular it does where no stored result and no judge entry was left behind in another race |
| ReplayLaws.RaceEditHidesRead | internal/infrastructure/sqlite/recount_store.go:45-78 | counterexample: a runner moved to another race after a read was counted loses the finish in a recount of the new race, while a whole recount finds it |
| ReplayLaws.RecountTwiceIsOnce | internal/service/recount.go:175-203 | recounting an event twice is recounting it once, as long as missing starts carry no origin |
| ReplayLaws.NullStartMatters | internal/infrastructure/sqlite/processor_repo.go:216-261 | counterexample: with an origin on a missing start the second recount can differ from the first |
| ReplayService.TimingStore.LoadMember | internal/infrastructure/sqlite/processor_repo.go:63-100 | number first, then chip code; nobody, ambiguous, or the owner |
| ReplayService.TimingStore.UpdateMemberTimes | internal/infrastructure/sqlite/processor_repo.go:216-261 | a start is written only where none or a worked-out one stands and only as planned, a finish only where none stands; number, chip and race stay |
| ReplayService.TimingStore.ProcessRead | internal/processor/processor.go:28-113 | one read as one transaction |
| ReplayService.TimingStore.WipeDerivedResults | internal/infrastructure/sqlite/recount_store.go:10-78 | the wipe of an event, a race or some runners, in fields: given starts stay with origin and read, worked-out starts, finishes and clean times go, runners outside stay, exactly the results of the scope go |
| ReplayService.TimingStore.RecountScope | internal/service/recount.go:168-257 | wipe, replay and judge entries as one transaction |
| EdgeRelay.FirstClaimable | internal/infrastructure/sqlite/edge_relay_store.go:115-134 | the first row in order that is pending, due and not leased |
| EdgeRelayLaws.StepIsSound | internal/infrastructure/sqlite/edge_relay_store.go:31-184 | every step of workers, clock and reconfiguration keeps the outbox invariant |
| EdgeRelayLaws.RunIsSafe | internal/infrastructure/sqlite/edge_relay_store.go:31-184 | over every run packets are immutable, acknowledged rows never change again, and tokens and revisions only move forward |
| EdgeRelayLaws.FinishIsByHolder | internal/infrastructure/sqlite/edge_relay_store.go:146-184 | a finish succeeds only for the token the row holds, sent to the endpoint configured now under the current revision |
| EdgeRelayLaws.EndsOnce | internal/infrastructure/sqlite/edge_relay_store.go:146-184 | a claim that has ended is refused for good |
| EdgeRelayLaws.OnlyTheLatestEnds | internal/infrastructure/sqlite/edge_relay_store.go:107-184 | once a row is claimed again, the earlier claim is refused for good |
| EdgeRelayLaws.OldRevisionCannotEnd | internal/infrastructure/sqlite/edge_relay_store.go:146-184 | a claim taken under an earlier configuration changes nothing, ever |
| EdgeRelayLaws.AckedByDelivery | internal/service/edge_relay.go:177-224 | a row becomes acknowledged only by ending a delivered claim of that row, its payload sent to the endpoint configured at that moment |
| EdgeRelayLaws.LeaseExcludes | internal/infrastructure/sqlite/edge_relay_store.go:117-134 | no claim touches a row whose lease has not run out; how long a claim's lease runs is `EdgeLeases.LeaseEndsExactly` |
| EdgeLeases.ClaimTakesTheFirst | internal/infrastructure/sqlite/edge_relay_store.go:107-142 | a claim is given exactly when the worker's configuration is in force and some row is free, is the first such row's, and leaves it sent under the claim's token until 30 seconds after the claim; other rows stay |
| EdgeLeases.FinishEndsTheClaim | internal/infrastructure/sqlite/edge_relay_store.go:146-184 | a finish counts exactly for the token, packet and configuration the row is held under; it leaves the row acknowledged, or pending until its next attempt with the failure noted, attempts and packet kept |
| EdgeLeases.ConfigureExactly | internal/infrastructure/sqlite/edge_relay_store.go:31-93 | a configuration takes effect exactly if it was made on the revision in force, names a destination when enabled, and moves no queue with outstanding rows elsewhere unconfirmed; what differs comes into force under the next revision |
| EdgeLeases.LeaseEndsExactly | internal/infrastructure/sqlite/edge_relay_store.go:107-142 | in every run, until its claim ends or the row is given again, a claimed row is free again exactly from 30 seconds after the claim on |
| EdgeLeases.LeaseExcludesForItsTime | internal/infrastructure/sqlite/edge_relay_store.go:105-142 | in every run whose clock does not run backwards, while a claim is not ended nobody else is given its row within 30 seconds |
| EdgeRelayLaws.RunConserves | internal/infrastructure/sqlite/edge_relay_store.go:194-207 | over a run, pending plus acknowledged rows are the rows there were plus the packets accepted since, and acknowledgements never decrease |
| EdgeRelayService.EdgeOutbox.ConfigureEdgeRelay | internal/infrastructure/sqlite/edge_relay_store.go:31-93 | a changed endpoint takes confirmation while rows are pending; every change raises the revision |
| EdgeRelayService.EdgeOutbox.ClaimEdgeRelay | internal/infrastructure/sqlite/edge_relay_store.go:107-142 | claims the first due row under the known configuration, with a lease until exactly 30 seconds later, or nothing |
| EdgeRelayService.EdgeOutbox.FinishEdgeRelay | internal/infrastructure/sqlite/edge_relay_store.go:146-184 | acknowledges or releases the claimed row, or refuses and changes nothing |
| EdgeRelayService.EdgeOutbox.RelayOne | internal/service/edge_relay.go:177-224 | one turn of the worker: claim, send, finish; it works exactly when a row is due under its configuration |
| PhotoMerge.MergePartitions | internal/service/merge.go:34-119 | clusters partition the input, each is one crossing (distinct devices, times within the window of its earliest, no two numbers), counts sum to the input length and the output is newest first |
| PhotoMerge.CrossingIsOneRunner | internal/service/merge.go:55-80 | two photos of one crossing come from different devices, lie within the window of each other and carry no two different numbers |
| CrossingLaws.JoinsTheLatest | internal/service/merge.go:48-85 | each photo in order of time joins the latest group it fits by device, window and number, and opens a group of its own exactly if it fits none |
| CrossingLaws.CrossingsAreApart | internal/service/merge.go:34-93 | no two crossings could have been one: the photo that opened the later one lay outside the window (1200 ms by default) of the earlier, or shared a device or differed in number with one of its photos |
| CrossingLaws.ShowsOne | internal/service/merge.go:97-110 | the finish shows the first photo whose number a person confirmed, or else the first of the latest, and counts every photo |
| CrossingLaws.LabelsInOrder | internal/service/merge.go:110-119 | camera labels stand once each, in the order of their first photos |
| CrossingLaws.SortIsStable | internal/service/merge.go:40-47 | photos of one instant keep the order they came in |
| CrossingLaws.HitKeepsEverything | internal/service/photo_view_cache.go:60-68 | a cached version is answered as it stands; only its place in the queue moves |
| CrossingLaws.FourAreKept | internal/service/photo_view_cache.go:76-90 | after any loads at most four views are kept, and one is dropped only when four others stand, for a new key, the least recently used first |
| PhotoMerge.PlacedWell | internal/service/merge.go:48-85 | cluster anchors never decrease |
| PhotoMerge.MergeIgnoresOrder | internal/service/merge.go:34-93 | the finishes do not depend on the input order when times are distinct |
| PhotoMerge.FindCluster | internal/service/merge.go:52-72 | the newest-first scan with early break picks what a scan of all clusters would |
| PhotoMerge.Represent | internal/service/merge.go:97-119 | the representative is the first confirmed photo or else the latest, with each camera label once |
| PhotoMerge.MergeFinishes | internal/service/merge.go:34-93 | the loops compute the merge the lemmas are about |
| PhotoViewCache.LoadRefines | internal/service/photo_view_cache.go:42-91 | after a load the entry is the merge of the caller's own version, every entry is right for its version, at most four are held and the one just used is the youngest |
| PhotoViewCache.LoadsRefine | internal/service/photo_view_cache.go:42-91 | the same over every sequence of loads by readers of newer or older versions |
| PhotoViewCache.EvictsTheOldest | internal/service/photo_view_cache.go:76-90 | only the least recently used entry gives way, and only to a new key of a full cache |
| PhotoViewCache.ViewCache.LoadView | internal/service/photo_view_cache.go:42-91 | the answer is the merge of the caller's version; the cache stays right, bounded and fair |
| PhotoViewCache.ViewCache.Merged | internal/service/photo_view_cache.go:98-114 | all finishes of the caller's version or the first `limit` |
| PhotoViewCache.ViewCache.Counts | internal/service/photo_view_cache.go:93-96 | photos and finishes of the caller's version |
| PhotoFrames.MergeKeepsTimeline | internal/infrastructure/sqlite/photo_frames.go:17-65 | a merge fails exactly on a frame without address; otherwise keys are the union, unique and in time order, and every frame stays on the phone's timeline |
| FrameLaws.FramesComeFrom | internal/infrastructure/sqlite/photo_frames.go:17-65 | every merged frame has the time it was first stored with, or its first item's shifted time if it is new, and the address given last for it; no frame is lost and none is made up |
| PhotoFrames.TimelineIsFrozen | internal/infrastructure/sqlite/photos_store.go:92-131 | over any polls with any clock offsets, track and frames sit at the phone's own time plus the offset of the first stored poll, and no key is lost |
| PhotoFrames.MergeTwiceIsOnce | internal/infrastructure/sqlite/photo_frames.go:17-65 | a merge succeeds exactly when all frames have addresses, and merging the same poll again changes nothing, whatever was stored and whatever times the poll gives |
| PhotoFrames.MergePhotoFrames | internal/infrastructure/sqlite/photo_frames.go:17-65 | the loop over stored and incoming frames |
| PhotoFrames.PhotoStore.PullFrames | internal/service/photos.go:101-124 | the pulled track in the Desk's time |
| PhotoFrames.PhotoStore.UpsertPhoto | internal/infrastructure/sqlite/photos_store.go:92-131 | read, merge and write of one photo; a photo of another event and a poll that cannot be merged are refused and change nothing; the other photos stay |

## Left out

- SQL, schema migrations and triggers: tables are maps and sequences, a transaction is all or nothing, and the tables are those of one event.
- HTTP, TLS, discovery, pairing and the user interfaces: input and output only.
- Decoding request bytes into trees and operations: inputs are values that satisfy the parser's rules (`ParsedOperation`, `ParsedAction`); JSON keys of rows are an enumeration, and non-canonical spellings of numbers do not exist.
- SHA-256, UUIDs and random tokens: operations are compared directly instead of by content hash, and tokens are fresh values handed in.
- Invalid UTF-8: strings are sequences of code points; where the source limits bytes, `ByteLength` counts them.
- Category and club lookup, the legacy RFID fields of members and reserve origins: side tables that no decision of the protocol reads.
- Timestamps of journal rows and the site's acknowledgement columns: recorded, never read by the modelled code.
- Re-validation of pages the Desk itself serves: the log's actions are taken as parsed when they were written.
- The order of items in a rebase report: the report is a map from row to result.
- The snapshot recount (`RecountPlan`), chip-start columns and dual-time windows: their engine, timing-core, is not part of this model.
- Endpoint address parsing and `edgeRelayBackoff`: a retry time is a parameter.
- Reading a frame's key off its address (`photoFrameKey`): an arbitrary function of the address.
- Attaching current frame JSON to merged finishes, context cancellation and sharing of slices between cache and callers: values in Dafny share no mutable state, so the copies in `Merged` are not visible.
- The sorting inside `MergeFinishes` and `mergePhotoFrames`: specified by insertion, which `CrossingLaws.SortIsStable` shows to be stable, and called as a function from the methods, since the source calls the library's sort.
- Sync payloads, exports, race progress and telemetry: they would only add easy members.
- RosterRuns.RunStaysAcyclic: a row joins the roster only as the blank image its creating command starts from, as the receiver guarantees.
- ReplayLaws.ScopeRecountIsWhole: says nothing about logs in which a read matches two runners, where the source fails the whole recount.
- DeskRuns.RunGrows: of the timing side a run sees logged numbers and chips, which only grow, and the marks and results of participants, which come and go; reads are not replayed inside it.
- ReceiverLaws.EffectAtMostOnce: speaks of what the receiver does under a name; the site's feed is the other route, and `EchoLaws` says what it can do.
