# Verified model of Vylo Mouse Share's transfer, key and link state machines

Vylo Mouse Share lets several computers share one mouse and keyboard, and copies
files, folders and dragged items between them. This project models its stateful
core in Dafny and proves what that core promises:

* **Transfers.** The receiver of one connection keeps three linked tables: live
  files, folders, and one staged drag. Offers, chunks, cancels, end markers and
  drops arrive in many interleavings. `Receiving` writes each message as a function
  on the receiver's state and disk; the class `Inbox.Inbox` updates its tables in
  place and is proved to compute those functions. On top of it stand ownership of
  transfers, all-or-nothing folders, nothing ready left waiting, what closing leaves
  on disk, and what a finished file holds (`Contents`, exactly). `Footprints`, `Layout`
  and `Additions` say what any message can do to the disk. From them come
  `Deliveries` and `Losses`: what a drag verified stays where it is staged, as it was,
  until the drop places it, if and only if no message takes its place.
  `Senders` and `DropSystem` add honest senders over a first-in first-out channel: no
  drop is stranded and every run ends; and `DropDelivery` concludes that every item a
  released drag verified was placed exactly once, as it was. `DropWaits` and `Announcements`
  say when a drop may happen: exactly when the drag was released and all it announced has come
  and settled, so no item comes too late; and, with `FolderRuns`, that no folder is delivered
  which its sender closed with an error; with `WholeFolders`, that all of it was sent. `HonestFiles`: what a task sends whole is received
  whole unless the disk or the user stands in the way. `Refusals`: why anything is turned down.
  `Walk` is the sender's stack-based folder walk; `FolderIntact` and `FolderClash` join walk,
  streams, receiver and disk: exactly when a folder arrives as it was in every interleaving.
* **Keys.** A captured key passes the capture's fan-out queue, the modifier
  remapping, the wire and the emulation's per-peer table. `NoKeyStaysDown` says, for
  every session, exactly when the peer is left with no key down after a release, and
  `KeyArrival` carries that through the receiving machine's tables to its backend.
  `Conversation` says what else a session sends: all that was captured, in order, motion scaled.
* **Links and registry.** Which of several simultaneous links both ends keep; one
  active client per screen edge, which clients those are after every operation (`Clients`), and
  that the capture task has registered exactly them (`Mirroring`); the wire format of input events.

The disk is a map from paths to directories, files and unfinished parts. The digest is an
arbitrary function, and each disk operation may fail or not: both are the `Env` of
a message, given afresh for each one. Every class below is proved against a specification function;
the theorems are lemmas about those functions, over all inputs, runs or reachable
states.

## Where the code falls short of its promise

Each of these is a lemma, next to the condition under which the promise holds.

* `Drops.SameNameLosesFile`: two files of one name live in the same drag get one final place,
  because `begin_recv` does not reserve it (`src/sync/files.rs:984-997`); one is lost.
  `Losses.WholeExactly` and `DropDelivery.DropsExactly`: as long as folders get paths of their
  own, everything a drag verified is whole, and is placed by the drop, if and only if no
  message renames a file onto a staged item or ends a transfer whose temporary file is at one.
  `DragNames.NamesKeepAll`: names that are different, none another's with `.vylopart` added,
  are enough for both.
* `FolderIntact.PartClashCorrupts`: a folder holding `x` and `x.vylopart` can be
  delivered as whole with one of them silently gone. `FolderClash.WholeExactly`: in any
  interleaving it arrives as it is if and only if no file of it is opened or completed while
  another one's temporary file has its place. For the sender, which starts the files in plan
  order, three at a time: `FolderClash.IntactPlainly` and `FolderClash.IntactExactly` say by the
  names for which folders that is so in every interleaving, without subfolders called like
  temporary files and with them; `FolderClash.IntactAlways` and `FolderClash.IntactNeeds` cover
  the folders left, in which temporary files compete for one name.
* `Contents.PlainClash`: the same with two plain files. `Contents.FinishedHolds`: a
  finished file holds what was sent for it if and only if nothing else was put in place of
  its temporary file, or just the same. `Contents.TakenExactly`: what was delivered is taken
  away again if and only if a plain transfer ends that has its temporary file there.
* `Ownership.SharedIdFinishesDragEarly`: a file and a folder of one id share one entry
  of the drag's outstanding set, so the drag finishes while the file is still coming.
  `Ownership.OwnershipKeptExactly`: the tables stay in agreement if and only if no offer
  under a live id of the other kind is taken up.
* `Layout.FailedRootTakesAnother`: a folder whose own directory could not be made keeps
  its path, which a second folder of that name in the drag then gets too; when the first
  one ends, the directory of the second is removed, even when that one is staged already
  (`Layout.FailedRootTakesStaged`). `Layout.HandleKeepsSound` and `Layout.RunSoundExactly`: the
  layout is kept if and only if no folder is given the path of a live one.
* `Leftovers.StuckRenameLeavesPart`: when the last rename of a plain file fails, its
  `.vylopart` file stays behind for good, even after `close`; these are the only ones
  (`Leftovers.CloseLeavesOnlyDelivered`).
* `KeyRelease.KeyUpBehindAnother`: a key-up still queued behind another capture on the
  same edge when the session ends has left the pressed set, so no key-up is made up
  for it and the key stays down. `KeyRelease.NoKeyStaysDown` gives the condition in both directions.
* `Tuning.KeyKeepsConsistent`: a modifier event whose state is neither 0 nor 1 is a release for the
  sender's table and a press for the receiver's.
* `Links.CrossedLinksAreLost`: two preferred links seen in opposite orders are each cancelled
  by one end, and then both are gone. `Links.ConvergeExactly`: with any number of links, both
  ends hold the same preferred one if and only if the last to come up is the same at both and
  gone at neither.
* `Codec.EncodeDecoded`: a pong whose flag is above 1 is decoded but not encoded back to the same bytes.

## Model

| member | source | states |
|---|---|---|
| Names.SanitizeIdempotent | src/sync/files.rs:101-131 | cleaning a cleaned name changes nothing, and the unchanged names are exactly the clean ones |
| Names.RefusedNames | src/sync/files.rs:101-120 | a name is refused exactly when nothing but trimmed characters follows its last separator |
| Names.SanitizedSpells | src/sync/files.rs:101-131 | what a name is cleaned to: its last component without the dots and blanks around it, an underscore for each forbidden character, and one in front if that spells a device name |
| Names.ReservedNames | src/sync/files.rs:118-130 | the reserved names are exactly the spellings, in any case and with any extension, of the device names |
| Names.SanitizeRelPath | src/sync/files.rs:138-161 | the loop computes the specification of relative paths, whose properties are the next rows |
| Names.AcceptedPathStaysInside | src/sync/files.rs:133-161 | an accepted path has 1 to 64 components, each a fixed point of name cleaning, with no separator, not starting with a dot: it cannot leave its folder |
| Names.SplitJoin | src/sync/files.rs:672-676 | the receiver recovers exactly the components the sender joined |
| Names.CleanPathArrives | src/sync/files.rs:138-161 | a path of clean names within the limits arrives component for component |
| Disk.NumberedInjective | src/sync/files.rs:174-179 | candidate names of different counters differ |
| Disk.FirstFreeIsFree | src/sync/files.rs:174-180 | the search ends at the first counter whose candidate is unused |
| Disk.PlacementIsFresh | src/sync/files.rs:163-196 | the chosen path is absent, is the first free one of the sequence, and is the plain name exactly when that is unused |
| Disk.UniquePath | src/sync/files.rs:164-181 | the search for a file name returns that first free path, which is unused; where the number goes is said by the next rows |
| Disk.SplitExtIs | src/sync/files.rs:169-172 | the extension starts at the last dot that is not the first character, and is empty exactly if there is none; such a split is unique (`Disk.SplitOnce`) |
| Disk.ClashingFile | src/sync/files.rs:163-180 | a file whose name is taken goes to `stem (n).ext` with the least n that is unused |
| Disk.ClashingFolder | src/sync/files.rs:182-196 | a folder whose name is taken gets its number at the end, whatever dots it has |
| Basics.DecimalReads | src/sync/files.rs:174 | the number is written in decimal digits, and can be read back |
| Disk.UniqueDirPath | src/sync/files.rs:184-196 | the same for a folder |
| Disk.CountUp | src/sync/files.rs:174-180 | the counting loop terminates and finds the first unused candidate |
| Disk.MoveContents | src/sync/files.rs:201-224 | a move carries everything below the source to the same place below the target, and touches nothing else |
| Receiving.OfferInTreeEffect | src/sync/inbox.rs:374-436 | a file offered inside a folder is counted and recorded; it goes live, tagged and outstanding, exactly when the folder did not fail |
| Inbox.Inbox.constructor | src/sync/inbox.rs:57-66 | a new receiver has empty tables |
| Inbox.Inbox.HasTransfer | src/sync/inbox.rs:74-78 | tells whether an id is a live incoming transfer |
| Inbox.Inbox.Handle | src/sync/inbox.rs:84-223 | one message changes tables, disk and replies as the step function of the theorems below |
| Inbox.Inbox.BeginDrag | src/sync/inbox.rs:93-114 | a new drag discards the old one, and is staged only if its directory can be made |
| Inbox.Inbox.OfferInDrag | src/sync/inbox.rs:115-143 | a drag's file offer is counted even when rejected, and a rejected one may complete the drop |
| Inbox.Inbox.AcceptOffer | src/sync/inbox.rs:229-283 | a reused id, an unusable name or a failed creation is rejected; otherwise the transfer is live and accepted |
| Inbox.Inbox.BeginRecv | src/sync/files.rs:973-1010 | chooses the final and the temporary path and creates the latter |
| Inbox.Inbox.TreeOffer | src/sync/inbox.rs:285-372 | registers a folder, failed ones too, counting it in the drag it names |
| Inbox.Inbox.TreeDir | src/sync/inbox.rs:166-184 | makes a subfolder or fails the folder, within the entry limit |
| Inbox.Inbox.TreeFile | src/sync/inbox.rs:374-436 | offers a file at its cleaned place below the folder's root, or fails the folder and rejects |
| Inbox.Inbox.Chunk | src/sync/inbox.rs:438-527 | appends an in-order chunk within size; anything else aborts and settles the failure |
| Inbox.Inbox.FinishRecv | src/sync/files.rs:1013-1039 | checks digest, then size, then renames; keeps the part only if the rename fails |
| Inbox.Inbox.Done | src/sync/inbox.rs:529-592 | settles a finished file in its folder, its drag or by itself |
| Inbox.Inbox.SettleFailure | src/sync/inbox.rs:595-608 | fails the file's folder, or takes the file out of its drag |
| Inbox.Inbox.TryFinalizeTree | src/sync/inbox.rs:613-694 | a settled folder is removed, handed to its drag, or moved to a free name |
| Inbox.Inbox.TryFinalizeDrag | src/sync/inbox.rs:698-746 | a drag that was released, has all the items it announced and nothing under way is placed and forgotten, any other is kept; over runs: DropWaits.DroppedExactly |
| Inbox.Inbox.PlaceItems | src/sync/inbox.rs:714-738 | the loop places the items one by one at free names, skipping what cannot be moved |
| Inbox.Inbox.DropFiles | src/sync/inbox.rs:765-769 | removes the given transfers and their temporary files |
| Inbox.Inbox.DiscardDrag | src/sync/inbox.rs:748-792 | removes the drag's files, folders and staging directory |
| Inbox.Inbox.Close | src/sync/inbox.rs:795-828 | empties the tables and removes parts, roots and staging |
| Ownership.HandleLeavesNothingReady | src/sync/inbox.rs:84-223 | after any message, with no condition on ids, no kept folder is settled and no kept drag is both requested and settled |
| Ownership.RunLeavesNothingReady | src/sync/inbox.rs:84-223 | the same after any sequence of messages |
| Ownership.HandleKeepsOwnership | src/sync/inbox.rs:229-608 | with fresh ids: the live files tagged with a folder are exactly its outstanding ones; a drag's outstanding are exactly its live loose files and the folders it counted |
| Ownership.TakenUpUnlessTurnedDown | src/sync/inbox.rs:229-283 | a file offered under an unused id goes live exactly unless a guard turns it down: no such drag or folder, a failed or full folder, a refused name, or a file that cannot be created |
| Ownership.OwnershipKeptExactly | src/sync/inbox.rs:229-608 | that agreement is kept if and only if no offer under the id of a live item of the other kind is taken up |
| Ownership.RunKeepsOwnership | src/sync/inbox.rs:229-608 | the same over whole runs |
| Ownership.DiscardRemovesExactly | src/sync/inbox.rs:748-792 | discarding a drag removes exactly the files and folders tagged with it |
| Ownership.SharedIdFinishesDragEarly | src/sync/inbox.rs:285-312 | without fresh ids: a drag finishes while one of its files is still live |
| AllOrNothing.HandleKeepsWhole | src/sync/inbox.rs:84-223 | while a folder has not failed, every file offered to it is outstanding or verified, every directory was made and its byte count is the sum of verified sizes; whatever is placed or staged is whole |
| AllOrNothing.FoldersArriveWhole | src/sync/inbox.rs:613-694 | over any run with fresh ids, a folder is delivered or staged only when all offered to it verified and was created; that it was closed without an error is FolderRuns.DeliveredAsSent |
| Staging.StagingNames | src/sync/files.rs:40-46 | staging names are hidden names: no cleaned name is one |
| Cleanup.HandleKeepsLocated | src/sync/inbox.rs:84-223 | everything staged lies inside a staging directory its owner names |
| Cleanup.RunKeepsLocated | src/sync/inbox.rs:84-223 | the same over whole runs |
| Cleanup.CloseLeavesNoStaging | src/sync/inbox.rs:795-828 | after closing, no path on disk is below a staging directory, and closing creates nothing |
| Leftovers.HandleKeepsAccounted | src/sync/inbox.rs:84-223 | everything new on disk is staged, a live part, a directory, delivered, or the part of a plain file whose last rename failed |
| Leftovers.CloseLeavesOnlyDelivered | src/sync/inbox.rs:795-828 | for every run from a clean disk: what was there before is unchanged; any other file is below something delivered or the part of a plain file whose rename failed, and all those parts are there |
| Leftovers.StuckRenameLeavesPart | src/sync/files.rs:1035-1038 | when that rename fails the part stays, even after closing, and the message delivers nothing |
| Frames.HandleRespects | src/sync/inbox.rs:84-223 | what one message can at most do to one aspect of the receiver (a folder, a drag, a live file, an outstanding entry) |
| Frames.HandleReplies | src/sync/inbox.rs:229-527 | every offer is answered exactly once, accepted exactly when it went live; any other message answers nothing or aborts one file it removed |
| Conservation.HandleCopies | src/sync/inbox.rs:529-746 | one message adds at most one copy of an item (live, staged or placed), and only by offering it |
| Conservation.DeliveredAtMostOnce | src/sync/inbox.rs:529-746 | over any run, an item exists or was placed at most as often as it was offered |
| Conservation.HandleDue | src/sync/inbox.rs:93-223 | the items a drag still misses fall with each of its offers and are never raised by another message |
| FolderRuns.DeliveredAsSent | src/sync/inbox.rs:187-198 | over any run, on messages: a folder that was placed or is staged was offered, then closed, never with an error, before the message that completed it; every file offered to it finished with the right size and digest, and every directory announced was made |
| FolderRuns.NewlyDelivered | src/sync/inbox.rs:613-694 | the message that delivers a folder closes it without an error while nothing of it is under way, or finishes the one file that was, after it was closed |
| DropWaits.DroppedExactly | src/sync/inbox.rs:144-149 | over any run after a drag was begun with n items, not cancelled or superseded: the drag is gone if and only if it was released, n items were counted and none is under way |
| DropWaits.WaitsForAll | src/sync/files.rs:895-897 | as long as fewer than n messages offered an item to it, the drag is held and none of its items is placed, released or not |
| DropWaits.PlacedOnlyByDrop | src/sync/inbox.rs:698-746 | a message places one plain file or one folder of its own, or is the one that drops the drag |
| DropWaits.AbandonedIsGone | src/sync/inbox.rs:93-163 | cancelling or superseding a drag places nothing and leaves nothing of it under way |
| Refusals.OffersAnswered | src/sync/inbox.rs:229-283 | every offer is answered once, with the first obstacle as the reason: no such drag or folder, a failed or full folder, a refused path, an id in use, a refused name, a file that cannot be created |
| Refusals.AcceptedOffer | src/sync/files.rs:973-1010 | an accepted offer is a transfer of that size under the cleaned name, both its paths unused until then and in the offered directory; the name is kept unless taken, and the temporary file is called after it |
| Refusals.FolderBegun | src/sync/inbox.rs:285-372 | a folder that is offered fails at once exactly if its drag is gone, its name is refused or its directory cannot be made; otherwise it has a directory of its own in the drag or in one of its own |
| Refusals.ChunkAborted | src/sync/inbox.rs:438-527 | a chunk is taken, or aborts its file for the first thing wrong with it: size, place, disk |
| Refusals.FirstReasonStays | src/sync/files.rs:931-935 | a folder that failed keeps its first reason |
| Refusals.FailsForCause | src/sync/inbox.rs:166-198 | the reason with which a folder fails is what went wrong: the sender's error, a full folder, a refused path, a file not received, cancelled, aborted or not verified |
| Refusals.DirFailsExactly | src/sync/inbox.rs:166-184 | a directory fails its folder if and only if the folder is full, the path is refused or the directory cannot be made |
| DropSystem.StepKeepsInv | src/sync/files.rs:496-831 | every step of the senders, the channel, the receiver and the replies keeps the invariant of the whole system |
| DropSystem.NoStrandedDrop | src/sync/inbox.rs:93-223 | in every interleaving with unreadable items, rejects and cancels: when all is quiet no file and no folder is live, no drag that was dropped, cancelled or superseded remains, and each item has at most one copy |
| DropSystem.NeverStuck | src/sync/files.rs:496-640 | whenever something is unfinished, some step that needs no new user action can be taken |
| DropSystem.StepAdvances | src/sync/files.rs:496-831 | every step of a task, message or reply, whatever it does, leaves fewer steps to do |
| DropSystem.EveryRunEnds | src/sync/files.rs:697-831 | left to itself the system takes only so many steps, in whatever order, and where it can go no further all is quiet |
| Announcements.NeverTooLate | src/sync/files.rs:895-897 | in every interleaving of both ends: each offer to a drag that was begun and neither cancelled nor superseded finds the drag held, however early it was released |
| Announcements.NoItemTurnedDown | src/sync/inbox.rs:115-149 | so no file or folder of such a drag is ever turned down or left out because the drag is gone |
| Announcements.TroubledNotDelivered | src/sync/files.rs:729-831 | in every interleaving: a folder that could not be listed, or one of whose files could not be opened or read, changed its length, was turned down or aborted, is never placed and never staged |
| WholeFolders.DeliveredEntirely | src/sync/files.rs:750-831 | in every interleaving: of a folder that was placed or is staged, as many directories were announced and as many files offered as its task had at its beginning, each by a task that is over |
| WholeFolders.ThreeAtATime | src/sync/files.rs:782-815 | in every interleaving at most three files of a folder are under way at once |
| HonestFiles.CompleteUnlessLost | src/sync/files.rs:496-640 | in every interleaving: when a file is said to be complete the receiver holds all of it, unless a chunk could not be written or the file's drag was cancelled or superseded |
| HonestFiles.ChunksFollow | src/sync/inbox.rs:438-527 | in every interleaving: each chunk of a live file follows what was received and is not too large, so an abort comes from the disk or from a file longer than announced |
| DropDelivery.LogIsRun | src/sync/inbox.rs:84-223 | the receiver is always where the messages delivered so far take it, and these never reuse a live id |
| DropDelivery.DeliveredInRun | src/sync/inbox.rs:698-746 | over any run in which a drag is not disturbed: once it is not held any more, all it verified was placed directly in the drop directory, as it was when verified |
| DropDelivery.DropsExactly | src/sync/inbox.rs:698-746 | from a drag's beginning to its drop, folders having paths of their own: the drop places every verified item, files as files and folders as folders, if and only if no message took the place of one |
| DropDelivery.VerifiedAsSent | src/sync/inbox.rs:529-592 | a drag's file that finishes without such a loss is staged with exactly what was sent for it |
| DropDelivery.NamesUndisturbed | src/sync/files.rs:984-997 | for items with names apart, only cancelling or superseding disturbs the drag, whatever the disk does |
| DropDelivery.EveryItemDelivered | src/sync/inbox.rs:93-223 | in every interleaving of both ends from a fresh start: when all is quiet, each item verified in a released, undisturbed drag was placed exactly once, whole, directly in the drop directory, other items of it failing or not |
| DropDelivery.EveryFileDelivered | src/sync/inbox.rs:93-223 | so each file verified in a released drag of items with names apart was placed exactly once, holding exactly the data sent for it |
| Walk.WalkTree | src/sync/files.rs:655-692 | the stack-based walk gives exactly the recursive listing with its byte sum, and fails exactly when the root is no folder, a folder is unreadable, or the entry limit is passed |
| Walk.ReadEntries | src/sync/files.rs:661-690 | one folder's entries: the remaining stack plus the plan still list the same tree, and the measure falls |
| Walk.ListHas | src/sync/files.rs:655-692 | the listing holds exactly the folders and files of the tree, at their relative paths, with their contents, links skipped |
| Walk.ListOnce | src/sync/files.rs:655-692 | no path is listed twice |
| Walk.ListParents | src/sync/files.rs:655-692 | parents come before their subfolders |
| Streams.TransferAfter | src/sync/inbox.rs:438-490 | a message changes a live transfer only by an in-order chunk for it, within its size |
| Streams.HandleKeepsExact | src/sync/inbox.rs:438-490 | received is the length written, hashed is what was written, never more than offered |
| Streams.WrittenIsCollected | src/sync/inbox.rs:438-490 | over any run a live transfer has written, in order, exactly the chunks it was sent |
| Streams.CollectedIsJoined | src/sync/inbox.rs:438-490 | the chunks that arrived for a live transfer follow each other, and what it collected is their join |
| Streams.StreamFile | src/sync/files.rs:578-640 | whatever is read, fails or is aborted at each offset: the chunks follow each other from the start of the content; they end with its digest if it was read whole and has the offered size, with a cancel if not, and without a message only if aborted |
| Streams.ChunksArrive | src/sync/inbox.rs:438-490 | any such stream of at most the offered size is written complete |
| Contents.PartHolds | src/sync/inbox.rs:84-223 | over any run, at the temporary path of a live transfer is its own file, or what the transfer that last finished onto that path held |
| Contents.FinishedHolds | src/sync/files.rs:1013-1039 | over any run: a file finishes exactly if size and digest of what was sent match and the rename gets through; it then holds what was sent if and only if nothing else, or the same, was put in place of its temporary file |
| Contents.PlainFileHolds | src/sync/inbox.rs:529-592 | so does the plain file that is then placed |
| Contents.SourceArrives | src/sync/files.rs:578-640 | with the sender's reading loop: the plain file is placed exactly if the source kept its size and the rename gets through, and is the source file under the same condition |
| Contents.PlainClash | src/sync/files.rs:984-997 | the plain files `n.vylopart` and `n`: the first is delivered and then taken away again as `n`, or removed when `n` is cancelled |
| Contents.TakenExactly | src/sync/inbox.rs:84-223 | a file outside staging, delivered or not, is taken away by a message if and only if the message ends a plain transfer whose temporary file is there, and changes only when a file finishes onto it |
| Contents.FolderFileTaken | src/sync/inbox.rs:84-223 | a file of a folder that goes on is taken away if and only if the message ends a transfer whose temporary file is there |
| Contents.FolderFileHolds | src/sync/inbox.rs:529-592 | over any run, among any other transfers, inside a drag or not: a finished file of a folder stays below its root with what it was sent, under the condition of FinishedHolds, while the folder goes on and no message takes its place |
| Footprints.HandleKeepsPath | src/sync/inbox.rs:84-223 | a message leaves every path as it is that is in no folder and no drag that ends, is no temporary file of a transfer that ends, and is no place a file finishes at; a failed folder takes no file away that got its place |
| Layout.HandleKeepsSound | src/sync/inbox.rs:84-223 | folders that did not fail have directories, all folders paths of their own, live transfers temporary files of their own, staged items lie directly in the drag's directory: kept if and only if no folder is given the path of a live one |
| Layout.RunKeepsSound | src/sync/inbox.rs:84-223 | so over whole runs |
| Layout.RunSoundExactly | src/sync/inbox.rs:84-223 | and it holds after every message of a run only if no folder was given the path of a live one |
| Layout.SharesInDrag | src/sync/inbox.rs:340-366 | only folders of one drag can come to share a path |
| Layout.PartStays | src/sync/inbox.rs:84-223 | the temporary file of a transfer that goes on changes only if another transfer finishes onto it |
| Layout.FailedRootTakesAnother | src/sync/inbox.rs:348-366 | a folder whose directory could not be made shares its path with a later one and takes its directory away |
| Layout.FailedRootTakesStaged | src/sync/inbox.rs:613-629 | even when that one ended first and is staged: the drag goes on with the item but without its directory |
| Additions.HandleAdds | src/sync/inbox.rs:84-223 | what comes to be in the drag's directory is the temporary file or the root of an item offered just now, or a file finished just now |
| FolderIntact.SendingCanFinish | src/sync/files.rs:763-831 | from any point of any interleaving the files can all be sent |
| FolderIntact.Begun | src/sync/inbox.rs:285-372 | a folder offer makes an empty root below its own staging directory |
| FolderIntact.FilesReceived | src/sync/files.rs:697-831 | the files' messages, in any interleaving without a clash, leave every file complete at its place |
| FolderIntact.Finalized | src/sync/inbox.rs:613-694 | the finished folder appears, unchanged, at an unused name |
| FolderIntact.FolderArrivesIntact | src/sync/files.rs:655-831 | walking a tree, sending it in any interleaving in which no file is opened or completed while another one's temporary file has its place, and finishing it gives a tree with the same folders, empty ones too, files and bytes, at an unused name; the rest of the disk is as before |
| FolderIntact.PartClashCorrupts | src/sync/files.rs:984-997 | a sibling named as another's temporary file is lost without failing the folder |
| FolderClash.WholeExactly | src/sync/files.rs:655-831 | for each interleaving: the folder arrives whole if and only if no file was opened or completed while another one's temporary file had its place |
| FolderClash.ClashBreaks | src/sync/files.rs:763-800 | for every folder in which a file has the place where another's temporary file would be, the sender's plan order and window allow an interleaving that delivers no intact folder |
| FolderClash.SecondBreaks | src/sync/files.rs:763-800 | so they do if a file has the place another's temporary file gives way to when a third one's is at its spot |
| FolderClash.IntactExactly | src/sync/files.rs:763-831 | if the temporary files have places of their own, the folder arrives intact in every interleaving the sender's plan order and window allow if and only if no file of it has the place of another's temporary file |
| FolderClash.IntactNeeds | src/sync/files.rs:763-831 | whatever places they have, that and the condition of SecondBreaks are necessary |
| FolderClash.UnlikeArrives | src/sync/files.rs:164-181 | and no file being called like any numbered temporary file of another is enough, for every interleaving |
| FolderClash.IntactAlways | src/sync/files.rs:763-831 | in general it does so if and only if no interleaving of the names that the sender allows clashes |
| FolderClash.IntactPlainly | src/sync/files.rs:763-831 | without subfolders called like temporary files: if and only if no file is called like another's temporary file |
| Drops.PlaceAllPlaces | src/sync/inbox.rs:714-738 | every movable item ends at its own free place with its contents, and nothing else changes |
| Drops.DropPlaces | src/sync/inbox.rs:698-746 | from before the drop directory is made: if it can be, the drop places exactly the movable items, all of them if and only if their staged places exist and differ; if not, none |
| Drops.SameNameLosesFile | src/sync/files.rs:984-997 | two same-named files live in one drag: both verify, one can be placed |
| DropTime.DropIs | src/sync/inbox.rs:698-746 | a message that completes a drop first does what it would do without the release, and then the drop happens |
| Deliveries.HandleKeepsStaged | src/sync/inbox.rs:84-223 | a message that neither abandons the drag nor takes the place of a staged item leaves all that is staged on disk as it was, each at a place of its own, up to the drop if it completes one |
| Deliveries.DropDelivers | src/sync/inbox.rs:698-746 | and that drop places each staged item, what the message itself completed too, directly in the drop directory and as it was |
| Deliveries.DropDirReady | src/sync/inbox.rs:708-713 | a drop directory that exists, or the receive folder, can be made at the drop |
| Deliveries.VerifiedIsStaged | src/sync/inbox.rs:529-592 | a drag's file that verifies is staged behind the others, dropped at once or not, with its content at its place |
| Deliveries.FolderIsStaged | src/sync/inbox.rs:613-694 | so is a drag's folder that ends complete, its directory as it was |
| Deliveries.StagedUntilDropped | src/sync/inbox.rs:84-223 | over any undisturbed run, what is staged stays on disk as it was until a message drops it, and that drop places all of it if the disk cooperates |
| Losses.LossSpoils | src/sync/inbox.rs:438-592 | a message that takes the place of a staged item leaves a staged file gone or two items at one place |
| Losses.WholeExactly | src/sync/inbox.rs:438-592 | while a drag is held and folders have paths of their own, what it staged is whole, each item at a place of its own, if and only if no message took the place of a staged item |
| Losses.WholeAtDrop | src/sync/inbox.rs:698-746 | so it is at the moment of the drop |
| Losses.DropsAll | src/sync/inbox.rs:698-746 | and the drop places every item, files as files and folders as folders, if and only if what was staged is whole |
| DragNames.NamesKeepAll | src/sync/files.rs:984-997 | if the items offered to a drag have different names, none another's with `.vylopart` added, then in any run with fresh ids no folder gets the path of another, nothing staged is lost, and each lies under its own name |
| DragNames.NamesKeepAllAtDrop | src/sync/inbox.rs:698-746 | nor by the message that completes the drop |
| Tuning.MapKeyRoles | src/tuning.rs:157-168 | a modifier maps to its role's target on the same side; every other key to itself |
| Tuning.KeyKeepsConsistent | src/tuning.rs:79-98 | the held table keeps agreeing with the modifiers the peer has down, if and only if the event is no modifier, sends nothing, or has state 0 or 1 |
| Tuning.RemappingRefines | src/tuning.rs:79-113 | over any key sequence with the map changing in between, the peer has down exactly the held codes and the plain keys |
| Tuning.SentUnlessShared | src/tuning.rs:79-98 | a modifier key is sent under the code it went down with, else the map's, unless another held key has that code; the repeat of a held key is sent |
| Tuning.MapModsLoop | src/tuning.rs:172-183 | the accumulating loop computes the mask map |
| Tuning.MaskFollowsKeys | src/tuning.rs:172-183 | a mask bit is set exactly when some set local role maps to it; all other bits are kept |
| Tuning.ScaleConserves | src/tuning.rs:65-75 | sent plus new remainder is old remainder plus scaled delta; sent is whole, never goes further than that sum, and leaves a remainder within a pixel |
| Tuning.MotionIsConserved | src/tuning.rs:65-75 | no motion is lost or made over any sequence of deltas and speed changes |
| Tuning.TunedInKind | src/tuning.rs:188-223 | buttons, wheel and ticks pass unchanged; a motion becomes one motion at its time, each axis conserved with its own remainder; a plain key passes unchanged, a modifier key keeps time and state; masks are mapped one by one |
| Tuning.EventsArrive | src/tuning.rs:188-223 | over any events and changes of tuning: all events but keys are sent, each as one of its kind, in order, changed at most in what tuning is for |
| Tuning.MotionArrives | src/tuning.rs:65-75 | and along each axis what was sent and what remains is what remained before plus the scaled motion |
| Tuner.TuningState.Reset | src/tuning.rs:60-62 | back to no held keys and no remainder |
| Tuner.TuningState.ScaleMotion | src/tuning.rs:65-75 | scales both axes with carried remainders |
| Tuner.TuningState.ModifierKey | src/tuning.rs:79-98 | a press remembers the code sent, a release gives back that code whatever the map is now |
| Tuner.TuningState.ReleaseCode | src/tuning.rs:102-104 | takes a held key's code, or maps it now |
| Tuner.TuningState.DrainHeld | src/tuning.rs:107-112 | hands out all held codes and forgets them |
| Tuner.TuningState.Tune | src/tuning.rs:188-223 | translates one event, swallowing only a modifier key that sends nothing; what becomes of each kind of event is Tuning.TunedInKind |
| Capturing.CreateKeepsIndexed | input-capture/src/lib.rs:152-169 | the two indexes stay inverse, without duplicates or empty lists |
| Capturing.DestroyKeepsIndexed | input-capture/src/lib.rs:172-195 | so they do on destroy, and no queued event names the destroyed id |
| Capturing.ReadKeepsIndexed | input-capture/src/lib.rs:262-298 | a read event is queued only for live ids of its position |
| Capturing.PollKeepsIndexed | input-capture/src/lib.rs:252-300 | the same over a whole poll |
| Capturing.FanOutIsExact | input-capture/src/lib.rs:152-300 | each event reaches every id registered when it was read and not destroyed since, exactly once and in order |
| Capturing.PollIsSteps | input-capture/src/lib.rs:252-300 | a poll is a sequence of the steps that theorem speaks of |
| Capturing.PressedIsHeard | input-capture/src/lib.rs:198-246 | over any operations a key counts as pressed if and only if its code is known and it was last reported in state 1, since the keys were last taken |
| InputCapture.InputCapture.Create | input-capture/src/lib.rs:152-169 | adds the id to both indexes; a known id changes nothing |
| InputCapture.InputCapture.Destroy | input-capture/src/lib.rs:172-195 | removes the id from both indexes and from the queue |
| InputCapture.InputCapture.Release | input-capture/src/lib.rs:198-201 | empties the pressed set, nothing else |
| InputCapture.InputCapture.TakePressedKeys | input-capture/src/lib.rs:212-214 | hands out the pressed set |
| InputCapture.InputCapture.KeysPressed | input-capture/src/lib.rs:234-236 | tells whether all given keys are down |
| InputCapture.InputCapture.PollNext | input-capture/src/lib.rs:252-300 | queued events first, then reads until one has a receiver |
| InputCapture.InputCapture.ReadReport | input-capture/src/lib.rs:262-298 | one report: track its key, hand it to the first id, queue it for the others |
| InputCapture.InputCapture.UpdatePressedKeys | input-capture/src/lib.rs:238-246 | known key codes enter on a press and leave on a release |
| Emulating.InputEmulation.Consume | input-emulation/src/lib.rs:139-154 | a key event goes out exactly when it changes what its peer holds; every other event always |
| Emulating.InputEmulation.Create | input-emulation/src/lib.rs:156-164 | a peer new to the table holds nothing |
| Emulating.InputEmulation.Destroy | input-emulation/src/lib.rs:166-172 | afterwards the backend has nothing down for the peer |
| Emulating.InputEmulation.Terminate | input-emulation/src/lib.rs:174-179 | the same for every peer |
| Emulating.InputEmulation.ReleaseKeys | input-emulation/src/lib.rs:181-205 | the draining loop releases every key the peer holds and clears the modifier mask |
| Emulating.InputEmulation.UpdatePressedKeys | input-emulation/src/lib.rs:215-227 | tells whether the event changed the peer's set |
| Emulating.EmulationTask.Input | src/emulation.rs:387-399 | each address has its own handle, distinct from all others; the event counts for that address alone |
| Emulating.EmulationTask.Remove | src/emulation.rs:400-404 | after a leave, nothing is down for the address and others are untouched |
| KeyRelease.ReleaseLeaves | src/capture.rs:492-559 | the made-up key-ups leave down exactly what neither the table nor the pressed set covers |
| KeyRelease.KeyUpsCover | src/capture.rs:512-527 | the key-ups cover all modifiers sent and all pressed keys as they were sent |
| KeyRelease.SessionReleased | src/capture.rs:492-559 | releasing a sound session leaves exactly the keys whose key-up is still queued |
| KeyRelease.MoveInSession | src/capture.rs:319-559 | every event, request and peer message keeps the session sound or ends it so |
| KeyRelease.NoKeyStaysDown | src/capture.rs:381-559 | for every session, of events, registrations and map changes, ending in any way: the peer has no key down without any leave if and only if no plain key's key-up is still queued |
| KeyRelease.KeyUpBehindAnother | src/capture.rs:492-559 | a concrete family of runs in which a key is left down |
| Conversation.SessionSends | src/capture.rs:381-489 | over a whole session: the client is sent that the pointer entered, again for every event until it acknowledges, then exactly the events handed to it as tuning leaves them, in order |
| Conversation.SessionInputs | src/capture.rs:415-489 | so of the events captured after the acknowledgement all but keys reach the client in order and nothing else, and along each axis the motion sent is the motion captured at the speed in force, less a remainder within a pixel |
| Conversation.FarewellIs | src/capture.rs:492-559 | a release sends the key-ups in ascending order, each once, then that no modifier is set, then that the pointer left, and nothing to any other client |
| Conversation.PendingDragEndsOnce | src/capture.rs:381-559 | whatever is captured, asked or answered: a pending drag is reported as over exactly when it stops being pending |
| Conversation.ForwardResolves | src/capture.rs:415-489 | and as released exactly if the button went up at the client, as cancelled if a message could not be sent |
| Conversation.MouseGivenBack | src/capture.rs:381-489 | an event gives the mouse back exactly when it was taken for nobody (the bind is down, the capture is gone, its edge is only watched and has no client, or the client cannot be reached), and otherwise leaves the capture as it is; without an entered client captured input goes nowhere |
| Conversation.EnteringIsTold | src/capture.rs:381-489 | the service hears of an entered client exactly when another client becomes active, and of every entering at a registered capture |
| Mirroring.RequestsTakeHold | src/capture.rs:352-373 | whatever else comes in between: the capture task and its input capture have registered exactly what the requests amount to, and the release bind is the one set last |
| Mirroring.CaptureFollowsRegistry | src/service.rs:626-826 | so after any operations of the service the task has each active client at its current edge with its current tuning, each incoming connection as one that only watches, and nothing else |
| Mirroring.BindLetsGo | src/capture.rs:381-400 | when all keys of the bind set last are down, the next event ends the session as a release would, whoever it is for |
| Mirroring.PeerAnswers | src/capture.rs:329-351 | an acknowledgement of the active client lets input through, a leave ends the session, other messages and other clients change nothing |
| KeyArrival.Receive | src/emulation.rs:387-404 | replaying the messages sent through the receiving task: its backend has down for the sender exactly what the events leave down, and nothing once a leave arrived |
| KeyArrival.SessionArrives | src/emulation.rs:387-404 | a whole session up to the receiving backend: even if every leave is lost it is left with exactly the keys whose key-up was waiting, so with none if and only if there is none |
| CaptureTask.CaptureTask.FindCapture | src/capture.rs:249-254 | the first registration of an id |
| CaptureTask.CaptureTask.IsDefaultCaptureAt | src/capture.rs:241-245 | tells whether an edge has a client |
| CaptureTask.CaptureTask.HandleCaptureEvent | src/capture.rs:381-489 | one event moves the session and sends what the session machine says |
| CaptureTask.CaptureTask.ForwardEvent | src/capture.rs:415-489 | activates, translates and sends one event |
| CaptureTask.CaptureTask.Tune | src/capture.rs:235-239 | translates with the client's own tuning |
| CaptureTask.CaptureTask.ReleaseCapture | src/capture.rs:492-559 | ends the session: key-ups in order, cleared modifiers, a leave |
| CaptureTask.CaptureTask.SendFarewell | src/capture.rs:501-556 | the messages of that ending |
| CaptureTask.CaptureTask.CollectKeyUps | src/capture.rs:518-525 | the loop collects one code for each held or pressed key |
| CaptureTask.CaptureTask.SortKeys | src/capture.rs:526-527 | the codes in ascending order, each once |
| CaptureTask.CaptureTask.RemoveCapture | src/capture.rs:216-225 | forgets a client's registration, its tuning and its session's link |
| CaptureTask.CaptureTask.Request | src/capture.rs:352-373 | carries out one request |
| CaptureTask.CaptureTask.Peer | src/capture.rs:329-351 | one message from the peer |
| CaptureTask.CaptureTask.Next | src/capture.rs:319-328 | one captured event taken and handled |
| Links.LessIsTotal | src/sync/mod.rs:72-80 | fingerprints are totally ordered |
| Links.EndsAgree | src/sync/mod.rs:72-80 | the two ends agree on the preferred direction if and only if their fingerprints differ |
| Links.StatusMatchesActive | src/sync/mod.rs:740-813 | after any events the last status reported is that of the active link |
| Links.PreferredStays | src/sync/mod.rs:752-813 | a preferred active link is replaced only by a preferred one; others are cancelled |
| Links.OneSurvives | src/sync/mod.rs:752-798 | of the held link and one that comes up exactly one survives and the other is cancelled: the new one, unless only the held one is preferred |
| Links.NoneLeftOver | src/sync/mod.rs:752-813 | over any run a link that came up is held, was cancelled or closed |
| Links.HeldIsLastPreferred | src/sync/mod.rs:752-813 | whatever comes and goes, an end holds a preferred link exactly if the preferred one established last did not close |
| Links.ConvergeExactly | src/sync/mod.rs:752-813 | with any number of links coming and going: both ends hold the same preferred link if and only if the preferred one that came up last is the same at both and gone at neither |
| Links.LinksConverge | src/sync/mod.rs:752-813 | so with one preferred link, in every pair of orderings, neither end cancels it and both hold it |
| Links.CrossedLinksAreLost | src/sync/mod.rs:752-813 | with two preferred links last seen in opposite orders each end cancels the other's choice, and once those go away neither has a link |
| Links.Actor.EmitSyncStatus | src/sync/mod.rs:740-750 | a status is told only when it differs from the last |
| Links.Actor.HandleInternal | src/sync/mod.rs:752-813 | one established or closed link changes the choice as specified |
| Registry.ClientAt | src/client.rs:113-125 | the first active client at an edge, or none is there |
| Registry.ActivateSound | src/service.rs:728-753 | activating deactivates whoever holds the edge, and keeps the mirror |
| Registry.DeactivateSound | src/service.rs:719-726 | deactivating changes only that client, and keeps the mirror |
| Registry.UpdatePosSound | src/service.rs:793-800 | moving an active client frees the new edge, and keeps the mirror |
| Registry.UpdateTuningSound | src/service.rs:807-826 | tuning is told to the capture of an active client |
| Registry.RemoveSound | src/service.rs:763-773 | a removed client is gone from the capture |
| Registry.AddSound | src/client.rs:51-53 | a new client is inactive and gets a free handle |
| Registry.AddAllSound | src/service.rs:430-443 | adding the configured clients keeps the mirror |
| Registry.RemoveUpToSound | src/service.rs:430-443 | a reload first removes every client |
| Registry.StartupSound | src/service.rs:162-173 | start-up keeps the mirror; which clients it activates is Clients.StartedUp |
| Registry.EnsurePairedSound | src/service.rs:354-395 | pairing leaves some client active |
| Registry.AddIncomingSound | src/service.rs:626-639 | a new address gets one enter-only capture under a fresh handle |
| Registry.RemoveIncomingSound | src/service.rs:669-680 | a closed address loses it |
| Registry.UpdateIncomingSound | src/service.rs:641-667 | a changed edge is mirrored by destroying and creating |
| Registry.IncomingAlwaysFound | src/service.rs:641-667 | after startup and any operations an address is known if and only if it has an entry, and only one |
| Registry.DoSound | src/service.rs:704-826 | every operation keeps the mirror |
| Registry.RegistryIsMirrored | src/service.rs:626-800 | after startup and any operations: no two active clients share an edge, and the requests replayed give exactly the active clients at their edges plus one enter-only capture per known address |
| Clients.StartedUp | src/service.rs:162-173 | after start-up a client is active if and only if it was marked active and no later marked one has its edge; all else about the clients is as it was |
| Clients.Reloaded | src/service.rs:430-443 | after a reload the clients are those configured, in order, and one is active if and only if it is marked and no later marked one has its edge |
| Clients.Activated | src/service.rs:728-753 | activating a client makes it active, of the others exactly the one at its edge inactive, and changes nothing else |
| Clients.Deactivated | src/service.rs:719-726 | deactivating a client changes that client alone |
| Clients.Moved | src/service.rs:793-800 | a client that moves stays as active as it was, and if active, whoever was active at its new edge is not any more |
| Clients.Retuned | src/service.rs:807-826 | new tuning changes nothing else and is what the capture is told |
| Clients.Removed | src/service.rs:763-773 | the handle is vacant and every other client is as it was |
| Clients.Added | src/client.rs:51-53 | a new client is inactive under a handle nobody had, every other one is as it was |
| Clients.Paired | src/service.rs:354-395 | the first client that is the peer, or a new one at the side of who initiated, is active afterwards and knows the address; of the others exactly the one at its edge is not any more |
| Clients.PeerEntered | src/service.rs:474-491 | a peer that enters is known with its edge and fingerprint, all other connections as before; it keeps its entry if and only if nothing about it changed |
| Clients.PeerLeft | src/service.rs:669-680 | a connection that closes is forgotten, all others stay |
| ServiceObject.Service.FindActiveAt | src/client.rs:113-125 | the search loop finds that first client |
| ServiceObject.Service.Deactivate | src/service.rs:719-726 | the client is marked inactive and, if it was active, its capture is asked to go |
| ServiceObject.Service.Activate | src/service.rs:728-753 | whoever holds the edge is deactivated first, then the client is active, its capture created and its tuning told |
| ServiceObject.Service.UpdatePos | src/service.rs:793-800 | the client moves; if it was active its capture moves with it and the new edge is freed |
| ServiceObject.Service.UpdateTuning | src/service.rs:807-826 | the client has the new tuning, which the capture is told |
| ServiceObject.Service.Remove | src/service.rs:763-773 | the client leaves its handle vacant, its capture gone |
| ServiceObject.Service.Add | src/client.rs:51-53 | the client goes to the lowest free handle |
| ServiceObject.Service.ConfigChange | src/service.rs:430-443 | the loops remove all clients, add the new ones and activate those marked |
| ServiceObject.Service.Startup | src/service.rs:162-173 | the loops of start-up: the marked clients are deactivated and then activated in their order |
| ServiceObject.Service.DeactivateMarked | src/service.rs:162-169 | the marked clients in order, all inactive afterwards |
| ServiceObject.Service.EnsurePaired | src/service.rs:354-395 | adopts, updates or adds the paired client |
| ServiceObject.Service.FindIncoming | src/service.rs:642-647 | finds an entry of the address, or there is none |
| ServiceObject.Service.AddIncoming | src/service.rs:626-639 | the address is known, under a fresh handle with an enter-only capture |
| ServiceObject.Service.RemoveIncoming | src/service.rs:669-680 | removes the entry of an address if there is one |
| ServiceObject.Service.Entered | src/service.rs:474-491 | an entering peer is added or updated; the entry it needs is always there |
| Events.OppositeEdge | input-capture/src/lib.rs:82-89 | a client is entered at the edge across the screen |
| Codec.NumberRoundTrip | lan-mouse-proto/src/lib.rs:273-309 | a 32-bit number survives its four bytes |
| Codec.BytesRoundTrip | lan-mouse-proto/src/lib.rs:273-309 | bytes survive being read as a number |
| Codec.ByteAt | lan-mouse-proto/src/lib.rs:273-309 | the most significant byte comes first |
| Codec.PointerOnTheWire | lan-mouse-proto/src/lib.rs:100-139 | the codes and layouts of motion, button, wheel and tick |
| Codec.KeysOnTheWire | lan-mouse-proto/src/lib.rs:100-139 | the same of keys and modifier masks |
| Codec.ControlOnTheWire | lan-mouse-proto/src/lib.rs:27-139 | the same of the control messages, with the code of each edge |
| Codec.EncodedFits | lan-mouse-proto/src/lib.rs:10-13 | every event needs at most 21 bytes |
| Codec.DecodeEncoded | lan-mouse-proto/src/lib.rs:142-271 | an event followed by arbitrary leftovers decodes to itself |
| Codec.RefusedBuffers | lan-mouse-proto/src/lib.rs:145-199 | exactly the unknown event types and positions are refused |
| Codec.EncodeDecoded | lan-mouse-proto/src/lib.rs:142-271 | what was decoded encodes to the bytes it was read from, except exactly a pong whose flag is above 1 |
| Codec.EncodeEvent | lan-mouse-proto/src/lib.rs:203-271 | the written prefix of the buffer is the encoding |
| Codec.DecodeBuffer | lan-mouse-proto/src/lib.rs:142-200 | the cursor reads what the specification decodes |
| Codec.Writer.Put | lan-mouse-proto/src/lib.rs:291-304 | appends to the written prefix and keeps it |
| Codec.Writer.PutInput | lan-mouse-proto/src/lib.rs:213-256 | writes one input event's fields |
| Codec.Reader.Take | lan-mouse-proto/src/lib.rs:274-284 | reads the next bytes and advances past them |

## Left out

- FolderIntact.FolderArrivesIntact: speaks of a folder of its own, of its messages alone, of a source that does not change and of disk operations that succeed; among other messages, inside a drag and with failing operations, Contents.FolderFileHolds says what its files hold and AllOrNothing.FoldersArriveWhole which folders arrive
- FolderClash.IntactExactly: by the names for folders whose temporary files have places of their own, which only subfolders called like temporary files can prevent, such as `x.vylopart` beside files `x` and `x (1)`; for these FolderClash.IntactAlways has the condition on interleavings, FolderClash.IntactNeeds and FolderClash.UnlikeArrives conditions on names, necessary and sufficient
- DropSystem.NoStrandedDrop: for a connection that stays up; which files a folder task sends is left open here and fixed by Walk.WalkTree and FolderIntact.FolderArrivesIntact
- DropDelivery.EveryItemDelivered: for runs in which up to the drag's beginning no folder is given the path of a live one (afterwards an undisturbed drag means that too, and names that differ ensure it), and a disk whose operations succeed during the drop; what later files do to the placed item is covered by Contents.TakenExactly
- Contents.FinishedHolds: for runs in which no folder is given the path of a live one, from a disk without staging directories
- Drops.DropPlaces: for disk operations that succeed during the drop; an item whose move fails is skipped, and its staged copy is removed with the drag's directory
- Leftovers.CloseLeavesOnlyDelivered: assumes that removals succeed
- KeyRelease.NoKeyStaysDown: for a fixed release bind, key states 0 and 1, key codes the capture knows, sends that succeed, and an edge no other client takes over in the session
- Tuning.MotionIsConserved: over the reals, rounding of floating point is not modelled
- Registry.RegistryIsMirrored: for fewer clients than the first handle of incoming connections
- ServiceObject.Service.Add: takes the lowest vacant handle, where the slab makes its own choice among the vacant ones
- Receiving: distinct final names of plain files offered at the same time are not claimed, since the code does not reserve them
- Transfer rows, progress, throttling and every other event for the user interface, and the progress counter of a folder task
- A receive folder or desktop that changes during a connection
- Flushing to disk, operations that fail half-way, and the copying fallback of a move across devices when its source cannot be removed
- The overflow of the counter in candidate names after 2^32 attempts, case-insensitive disks and path forms of one operating system
- Real digests: an arbitrary function of the bytes, so a wrong content with the right digest is not excluded
- Timeouts, keepalives, queue limits and the cutting of a connection in mid-message
- Key-ups whose sending fails: the code logs the failure and goes on
- The loops that disable, enable and restart capture and emulation; between sessions the emulation task ignores input and leaves
- Backends for capture and emulation of each operating system: sources and sinks of events here
- Clipboard and keyboard-layout exchange, pairing and its cryptography, certificates, name resolution and discovery
- Clamping of configured speeds, hooks, saving the configuration, and client settings that do not reach the capture
- The order in which sets of keys are drained by the emulation: any order
