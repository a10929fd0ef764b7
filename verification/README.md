# CuTePi: the cue sheet and the playback deck, proved

CuTePi is a show controller: a sheet of cues in nested folders, and a deck that
plays them over one another on a video wall.  This project models the parts that
keep state and proves what the operator relies on.

**The cue sheet** (`ctp`).  Two facts are stored for every row, its order
(`sheet_index`) and its membership (`parent`), and several independent loops
rewrite or read them.  The shape they meet in is the *pre-order sheet*: every
header directly followed by its whole subtree.

- `Forest`, `GroupWalks`, `GroupTable`: the group tree, the six loops that climb or
  descend it, and the edits that keep it a forest.
- `PreOrder`, `Flatten`, `FlattenSheet`, `Exact`, `Gap`: the shape, the renderer's span
  stack and `gapOwner`.  On a pre-order sheet the rows drawn are exact, and which others are
  drawn as stored is settled row by row; on any sheet at all no cue is lost unless a
  folder around it is closed.
- `SortKeys`, `SortTies`, `SortSpec`, `SortTwice`, `SortMeaning`, `SortSheet`, `SortDb`: the
  sort by cue number, and which way it goes.
- `SheetStore`, `SheetDb`, `Display`, `Restart`: reading and writing the tables, that
  what is written is what is drawn, and start-up.
- `DropSpec`, `DropFacts`, `DropAfter`, `DropPlace`, `DropRepeat`, `DropShape`,
  `DropPreOrder`, `DropGestures`, `SheetDrop`: one drag, all branches; where it puts
  what, what it keeps, that repeating it changes nothing, and exactly when it leaves every
  folder in one piece.
- `Heal`, `HealMeaning`, `HealRuns`, `HealOutcome`, `Reorder`, `Reindex`, `BulkGroup`,
  `FolderPlace`, `Seats`: full reorders, healing, renumbering under a unique column,
  grouping, inserts.
- `Selection`: the multi-selection as an interval whose moving end is never stored.

**The deck** (`gsp`).  The sections under a lock are atomic; everything between
them may interleave.

- `Transport` gives each section as a function, `Deck` the object whose methods are
  proved to be those functions, `CueChange` what a fire, an end or a stop does to the
  running cues, and `Playback`, `FireLog` and `Warming` the laws of every interleaving:
  each pipeline owned by exactly one place, the focus the newest
  cue running, no stale prepared cue installed.
- `StateProtocol`: the write-then-check of state changes against teardown.
- `Fades`: crossfades waiting for the incoming cue, and Stop and Panic cutting them.
- `GlWall`, `GlPlace`, `GlLayers`: wall layers, where each operation leaves them, freed exactly
  once under racing Stop and teardown, and the mixer order.

**Smaller machines** (`routes`): `Slip` and `SlipStream`, the streaming SLIP decoder
with the framing of RFC 1055, and `Awards` and `AwardsPress`, a session whose
lock is dropped in the middle of a transition.

How to read a proof.  `Depths(g, d)` says that `d` gives every group its nesting
depth, which is possible exactly when the parent table has no cycle and no dangling
parent; theorems about nested groups take such a `d`.  A method and the function it
is proved against are named alike; the laws are lemmas about the function.  Pipelines,
layers and cues are integers, 0 meaning none where the program has nil.

## Where the code differs from what it says of itself

Each item is proved, with the exact condition or a concrete state.

- "The DB and the UI cannot disagree" (ctp/sheet.go:9-15) holds exactly on the sheets
  where every row is in place (`Exact.FlattenIsExactIff`), pre-order ones among them
  (`Flatten.FlattenIsExact`); a member below another folder is drawn outside its own
  (`Exact.CueBelowAnotherFolder`).  A drag keeps a sheet pre-order exactly when its rows fit
  (`DropPreOrder.DropKeepsPreOrderIff`): drops on folders and member slots always do,
  a plain gap drop only directly below its owner's header or one of its own cues
  (`DropGestures.GapDropKeepsPreOrderIff`), because `gapOwner` is simply the last
  header above the gap (`Gap.GapOwner`).
- The renderer and `loadSheetSequence` break a tie between a cue and a header in
  opposite directions (`FlattenSheet.MergesAgreeIff`); `applyOrder` leaves no tie, so
  what it writes is what is drawn (`Display.WrittenIsDisplayed`).
- `InitDB` takes index 0 for missing, and `applyOrder` gives 0 to the first row: a
  restart can move it (`Restart.RestartKeepsOrderIff`).  `HealSheet`, which reads index 0
  the same way, then finds none left, so the order after a whole start is decided by
  `InitDB` (`Restart.StartKeepsOrderIff`); on its own it would move the first row to the
  end (`Restart.HealAloneRotates`).
- `AddCueToGroup` says its fractional seats never collide; a second drop at the head
  of the same folder always does (`Seats.SecondFirstDropTies`), and where a drop lands on
  any sheet is `Seats.AddLandsIff`.
- `healSeparated` is said to enforce contiguity; two members moved away together stay
  (`Heal.PairsStay`), and two separated ones can leave together and empty the group,
  although a lone member is meant never to leave (`Heal.BothLeave`).  Who never leaves is
  `HealRuns.RootedNeverLeave`; when a pass empties a group, `HealRuns.PassEmptiesIff`; who
  is released in the end, and when a group is emptied over several passes,
  `HealOutcome.HealedIsIff` and `HealOutcome.HealedEmptiesIff`; and when the folders are in
  one piece afterwards, `HealOutcome.HealedPreOrderIff`.
- A bulk delete clears the selection "only if the selected cue was among the deleted ones"
  (ctp/ctp.go:1903-1904), but compares its new number with old ones
  (`Reindex.BulkSelectionCounts`, `Reindex.SurvivorDeselected`); deleting a group leaves the
  number of a deleted cue selected, which then names another one
  (`Reindex.RemapRightIff`, `Reindex.GroupDeleteSelectsAnother`).
- `ReorderCues` says cues missing from the order keep their place at the tail; with a
  shorter order the slot loop runs out of range first, and the tail loop never adds
  anything (`Reorder.EnoughIffAll`).
- The eight level limit is checked for a moved header only
  (`GroupTable.MoveCanExceedLimit`).
- A cue number that parses as NaN ties with every other (`SortKeys.TiesChainIff`): the
  sort leaves siblings in order, however they stood, exactly when none of them is NaN or
  no two others differ (`SortTies.SortsWellIff`).
- Panic takes voices and focus in two sections and can leave voices without a focus
  (`FireLog.PanicRace`); two overlapping `retireOutgoing` calls close one channel twice
  (`Fades.ClosedTwiceIff`, `Fades.StopAndPanicCollide`); `pauseVoices`, `resumeVoices` and `voiceEnd` write states
  without the check (`StateProtocol.UncheckedRevives`).
- A finite loop count "plays N times before ending" (gsp/gsp.go:1939-1943) once only: it
  leaves 0, which counts as endless, so a held clip played again loops for ever
  (`Transport.HeldLoop`).  The hold itself is written without asking whose end it was
  (`Transport.HoldMarksTheNewCue`, `Warming.HoldFallsOnItsOwnIff`).  Play is
  said to resume what a Pause paused (gsp/gsp.go:554-556); it wakes every paused cue that
  is not parked (`Transport.PauseThenPlayIff`).
- Raising a layer that is already shown below the top ties two mixer orders
  (`GlWall.RaiseInOrderIff`), and a hide or a drop restacks only when its own layer was
  on the wall (`GlWall.HideInOrderIff`, `GlWall.HideLeavesTie`); the order holds
  throughout a run exactly when no step raises or parks like that
  (`GlWall.AlwaysInOrderIff`).
- An Awards cursor past the end is said to be reachable only by a raced reset
  (routes/awards.go:142-144); it is found exactly when the last member was played and the
  engine is on something else by then, with no reset and no race (`Awards.FindsEndIff`,
  `Awards.PlayedAlone`).
- An Awards load that was overtaken by a reset is meant not to claim
  (routes/awards.go:165-167); it can, and with shuffle for another cue's place
  (`Awards.ClaimsRightIff`, `Awards.SlowLoadClaimsAnotherPlace`).

## Model

| member | source | states |
|---|---|---|
| GroupWalks.GroupAncestors | ctp/ctp.go:660-671 | On any table the chain has no repeats; on a forest it is the whole chain of ancestors, so neither the cycle check nor the length cap ever cuts it |
| GroupWalks.CueInCollapsed | ctp/ctp.go:687-699 | Answers whether the cue lies inside the group; on a forest the cap is never the reason for a no |
| GroupWalks.GroupNesting | ctp/sheet.go:63-93 | The memoised recursion gives every group its true depth, the length of its ancestor chain |
| GroupWalks.GroupScope | routes/groups.go:788-807 | The search by upward climbs returns exactly the groups within the given one |
| GroupWalks.Descendants | ctp/groups.go:226-250 | On any table, corrupt ones included, the downward walk with a seen set returns exactly the groups reached from the given one |
| GroupWalks.ReachIsWithin | ctp/groups.go:226-250 | On a forest these are the groups properly below: the same notion of nesting as the upward climbs |
| GroupWalks.Collect | ctp/groups.go:113-154 | The unguarded recursive collect ends on a forest and lists each group of the block once |
| Forest.DepthBound | ctp/ctp.go:660-671 | A chain is shorter than the table, so every cap at the group count is out of reach |
| Forest.ClosedIff | ctp/ctp.go:687-699 | Closed, defined by climbing, holds exactly when some group around (or at) it is collapsed |
| GroupTable.ValidateGroupParent | ctp/groups.go:196-222 | The climb with a seen set and an eight level cap returns the verdict characterised by ValidatedIff |
| GroupTable.ValidatedIff | ctp/groups.go:196-222 | On a forest a parent is accepted exactly when it exists, lies outside the moved block and is less than eight deep |
| GroupTable.MoveKeepsForest | ctp/groups.go:80-108 | An accepted reparenting keeps the table acyclic and without dangling parents, and every new depth is known |
| GroupTable.MoveIntoOwnBlockBreaks | ctp/groups.go:196-222 | The guard is needed: a parent inside the moved block never leaves a forest |
| GroupTable.MoveKeepsLimitIff | ctp/groups.go:80-108 | A move keeps every group within eight levels exactly when the deepest group of the block fits below the new parent |
| GroupTable.MoveCanExceedLimit | ctp/groups.go:196-222 | The limit is not an invariant: an accepted move that leaves a group at depth nine |
| GroupTable.CreateKeepsForest | ctp/groups.go:31-57 | A group made under an accepted parent keeps the table a forest |
| GroupTable.DeleteGroupKeepsForest | ctp/groups.go:158-181 | Deleting a group and releasing its subgroups keeps a forest; everything below it rises |
| GroupTable.DeleteBlockKeepsForest | ctp/groups.go:113-154 | Deleting a whole block leaves nothing dangling |
| PreOrder.PreOrderIffNested | ctp/sheet.go:9-15 | Every header directly followed by its whole subtree: the block form and the row by row form of that shape are the same |
| Flatten.FlattenIsExact | ctp/ctp.go:710-907 | On every pre-order sheet, for every forest and collapse assignment, exactly the rows under no collapsed group are drawn, in order, members one level below their header |
| Exact.FlattenIsExactIff | ctp/ctp.go:753-904 | On any sheet with a forest, the rows drawn are exactly the stored ones exactly when every row is in place: a header, a cue of no group, a member while its group is open, or one hidden with the innermost open group; InPlace reads the stored facts, not the stack |
| Exact.PreOrderInPlace | ctp/sheet.go:9-15 | Every row of a pre-order sheet is in place |
| Exact.RowIffInPlace | ctp/ctp.go:822-904 | Row by row: a row in place adds what it should, any other is a cue drawn as a stray at depth 0 |
| Exact.OpenIsSpan | ctp/ctp.go:803-840 | The renderer's stack holds exactly the groups open by the headers above and the cues since |
| Exact.CueBelowAnotherFolder | ctp/sheet.go:9-15 | Folder 1, folder 2, then a cue of folder 1: stored as a member, drawn at top level |
| Exact.ExactWithoutPreOrder | ctp/ctp.go:822-904 | A top-level cue between two members is drawn as stored although the sheet is not pre-order |
| FlattenSheet.Draw | ctp/ctp.go:753-904 | The drawing loop with its span stack draws Render, the meaning the theorems are about |
| FlattenSheet.HeaderFacts | ctp/ctp.go:753-800 | The hidden and depth tables hold the true depths and exactly the headers below a collapsed group |
| FlattenSheet.MergeForDisplay | ctp/ctp.go:728-751 | The renderer merges cues with headers sorted by index, headers first on ties |
| FlattenSheet.LoadSequence | ctp/sheet.go:32-59 | loadSheetSequence merges the same rows, cues first on ties |
| FlattenSheet.MergesAgreeIff | ctp/ctp.go:728-751 | The two merges of the same ordered rows are equal exactly when no cue has a header's index |
| Display.DrawSheet | ctp/ctp.go:710-907 | FlattenSheet whole: its merge, then the drawing loop, gives Render of the merged sequence |
| Display.DisplayedIsLoaded | ctp/ctp.go:728-751 | With pairwise distinct indexes the sequence drawn is the sequence loadSheetSequence reads |
| Display.WrittenIsDisplayed | ctp/sheet.go:9-15 | So what applyOrder writes, for any permutation of all rows, is exactly what is drawn |
| Gap.EveryRow | ctp/ctp.go:753-904 | On any sheet, corrupt or not: a header is drawn exactly when nothing around it is collapsed, a visible row is always drawn, and a drawn cue is one below its own header or at depth 0 |
| Gap.GapOwner | ctp/sheet.go:100-127 | gapOwner, whatever the depth table says, is the last header above the gap |
| Gap.RenderWithinGap | ctp/sheet.go:100-127 | On every sheet the renderer's open spans are among gapOwner's, and both stacks strictly deepen |
| Gap.StacksAgree | ctp/ctp.go:753-904 | When every cue is stored with its own gap's owner the two stacks are equal level by level |
| Gap.DrawnAs | ctp/ctp.go:822-904 | The row each cue adds, by the span the surfacing leaves on top: top level or stray at depth 0, member below its header, or none |
| Gap.OwnedIsNeverStray | ctp/ctp.go:753-904 | Such a cue adds its owner's member row, or none when that group is closed, never a stray |
| Gap.InsertedCue | ctp/ctp.go:1995-2125 | A cue inserted with its gap's owner is drawn as its member exactly when the group is not closed and no cue since the header belongs to a group open around it |
| SortKeys.KeyOrder | ctp/numbering.go:117-125 | less is a strict total order on keys that are not NaN |
| SortKeys.LessIsPartial | ctp/numbering.go:117-125 | On all keys it is a strict partial order |
| SortKeys.TiesChainIff | ctp/numbering.go:117-125 | Ties chain exactly except through NaN between two different numbers |
| SortTies.ComparableIff | ctp/numbering.go:117-125 | The rows of a scope tie in classes exactly when none is numbered NaN or no two others have different numbers |
| SortTies.SortsWellIff | ctp/numbering.go:189-189 | A scope's rows come out in order however they stood before exactly in that case |
| SortTies.ComparableUnique | ctp/numbering.go:189-189 | In that case sorted and stable determine the order: any stable sort gives the one modelled |
| SortSpec.SortIsPermutation | ctp/numbering.go:131-213 | On a sound sheet the walk neither loses nor repeats a row |
| SortSpec.SortIsPreOrder | ctp/numbering.go:131-213 | Its output is pre-order |
| SortSpec.SortedSiblings | ctp/numbering.go:131-213 | The rows of each group come out in the sorted order of that group's rows |
| SortSpec.SortedSheetDrawsExactly | ctp/numbering.go:131-213 | So afterwards the renderer draws every visible member inside its folder |
| SortTwice.LeastKeyIsLeast | ctp/numbering.go:165-183 | An unnumbered header takes a key one of its rows has and none of them is below, NaN or not |
| SortTwice.SiblingsInKeyOrder | ctp/numbering.go:131-213 | No row is less than the sibling above it; siblings that compare are in key order, and those that tie keep the order they had |
| SortTwice.SortTwiceIsOnce | ctp/numbering.go:131-213 | Sorting again changes nothing, whatever the numbers |
| SortSheet.CollectKids | ctp/numbering.go:161-164 | The rows of each scope, in sheet order |
| SortSheet.SheetSorter.KeyOf | ctp/numbering.go:131-213 | The memoised, depth guarded key recursion returns the true key on a sound sheet |
| SortSheet.SheetSorter.Walk | ctp/numbering.go:131-213 | The walk with its seen set and depth guard appends exactly the sorted walk of its scope on a sound sheet |
| SortSheet.SheetSorter.Run | ctp/numbering.go:131-213 | On any tables, corrupt ones included, the order written is a permutation of the rows; on a sound sheet it is the sorted walk |
| SortDb.SortSheetByCueNumber | ctp/numbering.go:131-213 | The whole function: it always writes, and what is read afterwards is the sorted order under the memberships there were; which way that is: SortDb.OrderReadUpwards |
| SortDb.OrderReadUpwards | ctp/numbering.go:117-125 | In what is read afterwards, of two rows of one group the one whose number must come first is above the other: the smaller finite number, finite before infinite, numbers before texts, texts before blanks, and of two texts the one with the smaller first differing byte or the proper prefix |
| SortMeaning.LessIff | ctp/numbering.go:117-125 | The comparison of keys is that order, which is defined without it |
| SortMeaning.SortedUpwards | ctp/numbering.go:185-205 | The same of the sorted walk: across kinds whatever the group holds, within numbers when the rows of the group compare (NaN aside) |
| SortMeaning.OwnNumberCounts | ctp/numbering.go:165-174 | A cue, and a header with a number, sort by their own |
| SortMeaning.HeaderTakesSmallest | ctp/numbering.go:165-183 | An unnumbered header sorts by a number of a row inside it, not behind another header that has its own, that no such number comes before; blank when there is none |
| SortMeaning.HeaderTakesSmallestNumber | ctp/numbering.go:165-183 | So, with a finite number inside and no NaN, by the smallest of the finite ones |
| SheetStore.LoadedUnique | ctp/sheet.go:32-59 | The tables determine the visual sequence |
| SheetStore.RoundTrip | ctp/sheet.go:148-176 | Reading after writing gives exactly the sequence and memberships written, for every permutation of all rows |
| SheetStore.WrittenHasNoTie | ctp/sheet.go:148-176 | The indexes written are pairwise different, the condition under which the two merges agree |
| SheetDb.Database.LoadSheetSequence | ctp/sheet.go:32-59 | Both ordered queries and the merge give the sequence of the tables |
| SheetDb.Database.StoredParents | ctp/sheet.go:130-143 | The membership map of the cue table |
| SheetDb.Database.ApplyOrder | ctp/sheet.go:148-176 | All rows are written, or none when a cue has no parent in the map |
| Restart.RestartKeepsOrderIff | ctp/db.go:245-257 | The start-up backfill takes index 0 as missing: it leaves a written sheet of two or more rows in order exactly when the first row's slot stays above the second |
| Restart.RestartCanTie | ctp/db.go:245-257 | With cue 1 above a header the backfill gives both the same index |
| Restart.HealSheet | ctp/sheet.go:274-332 | Dangling parents go to 0; every other index stays; rows at index 0 go to the end, at different indexes |
| Restart.StartKeepsOrderIff | main.go:96-112 | After InitDB on a sheet applyOrder wrote no index is 0, so HealSheet changes none: a whole start keeps the order exactly under the same condition as InitDB alone |
| Restart.HealAloneRotates | ctp/sheet.go:274-332 | Without that backfill HealSheet would move the first row of such a sheet to the end |
| SheetDrop.SheetDrop | ctp/sheet.go:351-632 | Every branch of the drag, its refusals with their partial writes included, leaves the tables and the outcome of Drop; where the rows end up, in which groups: DropPlace |
| SheetDrop.BlockOf | ctp/sheet.go:377-390 | The upward climbs of a group drag find exactly the groups of the block |
| DropFacts.GapInBounds | ctp/sheet.go:351-632 | The insertion index is within bounds in every branch that reaches the splice |
| DropFacts.DropOrder | ctp/sheet.go:351-632 | Every row once; undragged rows keep their order; dragged rows are together, in their order, at the gap |
| DropAfter.DropResult | ctp/sheet.go:351-632 | Reading the sheet afterwards gives that order; only dragged cues change group, and a block's members none |
| DropAfter.DropKeepsForest | ctp/sheet.go:351-632 | A drag that succeeds leaves the group table a forest |
| DropPlace.LandsBeforeTarget | ctp/sheet.go:430-469 | Dropped before a row, the dragged rows lie directly above it, or, when it is dragged too, above the first staying row after it; at the end when all after it are dragged |
| DropPlace.LandsAtEnd | ctp/sheet.go:462-469 | Without such a row nothing lies below them |
| DropPlace.LandsBelowHeader | ctp/sheet.go:503-506 | A joinFirst drop on a header puts them directly below it |
| DropPlace.LandsAfterMembers | ctp/sheet.go:515-539 | A plain join puts them directly below one of the staying cues of the group with no other of these further down, or below the header when it has none |
| DropPlace.LandsInSlot | ctp/sheet.go:551-575 | A slot after a cue wins: directly below it, or, when it is dragged along, above the first staying row after the dragged run |
| DropPlace.DraggedInOrder | ctp/sheet.go:357-413 | They stand together, cues in the order they were named, a block in the order it had |
| DropPlace.JoinsGiven | ctp/sheet.go:583-626 | Each dragged cue is stored in the group given, at the top when pinned there, in the folder dropped on, or under the nearest header above it; a dragged block keeps its memberships |
| DropPlace.GroupsEnd | ctp/sheet.go:477-549 | The dragged block hangs from the folder dropped on, the group given, or where it was; exactly the targets are opened |
| DropPlace.NotDropped | ctp/sheet.go:351-416 | A refused drag, and one of nothing, leave order and memberships alone |
| DropRepeat.GapAgain | ctp/sheet.go:351-632 | After a drag the same request finds the same gap |
| DropRepeat.DropTwiceIsOnce | ctp/sheet.go:351-632 | Repeating a drag that succeeded changes no order, membership, group or index |
| DropPreOrder.DropKeepsPreOrderIff | ctp/sheet.go:351-632 | On a pre-order sheet a drag of cues or of a block leaves a pre-order sheet exactly when the rows' group is open at the gap and the row below keeps its own open |
| DropGestures.FolderDropsKeepPreOrder | ctp/sheet.go:351-632 | Drops onto a folder and into a member slot always do |
| DropGestures.GapDropKeepsPreOrderIff | ctp/sheet.go:351-632 | A gap drop does exactly when the row above the gap is the last header or one of its own cues |
| DropGestures.FolderDropDrawsExactly | ctp/ctp.go:710-907 | So after a folder drop the renderer shows exactly the visible rows at their depths |
| Heal.HealSeparated | ctp/sheet.go:211-268 | On any group table it ends, and gives Healed whatever order each pass walks the scope in; no index and no group row changes |
| Heal.HealPass | ctp/sheet.go:236-262 | One pass releases exactly the leavers of the memberships read before it |
| Heal.PassShrinks | ctp/sheet.go:211-268 | Each changing pass leaves fewer scope cues with a group, so the loop ends |
| Heal.HealedOnlyReleases | ctp/sheet.go:211-268 | It only ever sets parents of scope cues to 0 |
| Heal.HealedTouches | ctp/sheet.go:185-268 | On exit every scope member of a group with two or more members touches its block on the right side |
| Heal.AnchoredNeverLeave | ctp/sheet.go:185-268 | A run of members directly under its header, or a subheader, keeps its membership through every pass |
| Heal.HealKeepsPreOrder | ctp/sheet.go:211-268 | It is the identity on pre-order sheets |
| Heal.PreOrderIffTouchesAbove | ctp/sheet.go:178-204 | A sheet is pre-order exactly when every row with a group, headers included, touches it from above |
| Heal.BothLeave | ctp/sheet.go:236-262 | Two separated members can leave in the same pass and empty the group |
| Heal.PairsStay | ctp/sheet.go:178-211 | Two members moved away side by side stay, so healing need not restore the folder |
| HealMeaning.SeparatedIff | ctp/sheet.go:178-262 | A cue is separated exactly when its group has another member and neither the row above (a header or a cue of the block) nor the row below (a cue of the group itself or a header inside it) holds it |
| HealMeaning.SeparatedAreReleased | ctp/sheet.go:211-268 | Whoever in scope is separated at the start is at the top level at the end, and when nobody is nothing changes |
| HealRuns.RootedNeverLeave | ctp/sheet.go:206-268 | A rooted member keeps its group through every pass: below its header or a subheader, above a subheader, beside another member, alone in its group, out of scope, or hanging from such a cue of an inner group |
| HealRuns.PassEmptiesIff | ctp/sheet.go:240-262 | One pass empties a group exactly when it has two or more members and each is in scope and separated |
| HealOutcome.PassTakes | ctp/sheet.go:236-262 | One pass over a tied sheet takes exactly the loose members that hang from nothing, and the others stay loose and hang one shorter |
| HealOutcome.HealedIsIff | ctp/sheet.go:206-268 | Over all passes healing releases exactly the members that are not rooted exactly when the sheet is tied: every shared group without a rooted member has two whose chains of hanging are longest |
| HealOutcome.LastOneKept | ctp/sheet.go:206-210 | How it fails: a member left alone by the pass touches nothing any more and stays |
| HealOutcome.HealedEmptiesIff | ctp/sheet.go:206-268 | In a tied sheet a group is emptied, in however many passes, exactly when none of its members is rooted |
| HealOutcome.HealedPreOrderIff | ctp/sheet.go:206-268 | On any sheet with a forest the healed sheet has every folder in one piece exactly when the sheet before is tied and, without the members that are not rooted, every row with a group touches it from above |
| Reorder.ReorderCues | ctp/ctp.go:2818-2875 | On any group table: a full permutation is carried out and healed; an unknown or repeated cue is refused, nothing written; an order that misses a cue indexes out of range |
| Reorder.EnoughIffAll | ctp/ctp.go:2844-2857 | An order of existing, distinct cues fills every slot exactly when it names them all, so the tail loop never adds a cue |
| Reorder.CheckedFault | ctp/ctp.go:2830-2839 | The first fault of an order decides: an unknown cue, or one named before |
| Reorder.FilledOrder | ctp/ctp.go:2844-2857 | The cues come out in the order asked for and every header keeps its slot |
| Reorder.ReorderNumbers | ctp/ctp.go:2876-2934 | Afterwards the cue that was order[i] is numbered i + 1 |
| Reorder.ReorderReseats | ctp/ctp.go:2844-2875 | The reorder after a deletion moves no row and gives each cue the index of its place |
| Reindex.CueTable.Renumber | ctp/ctp.go:2961-2985 | The two passes end in the final numbering and no single update ever breaks the unique column |
| Reindex.NegatedUnique | ctp/ctp.go:2961-2985 | Positions are unique after every negation |
| Reindex.AssignedUnique | ctp/ctp.go:2961-2985 | Positions are unique after every assignment |
| Reindex.NumberedAsDrawn | ctp/ctp.go:2961-2985 | The positions end as 1 to N in drawing order, and drawing order is unchanged |
| Reindex.RenumberTwice | ctp/ctp.go:2961-2985 | Numbering again changes nothing |
| Reindex.CueTable.RenumberVisual | ctp/ctp.go:2876-2924 | The last part of ReorderCues: the table numbered in visual order, the selection that of RemapRightIff |
| Reindex.RemapRightIff | ctp/ctp.go:2917-2924 | After a reorder the selected cue, by its permanent id, is still selected and a group selection stays; no other cue becomes selected exactly when the selection named a cue, or no number in use afterwards |
| Reindex.CueTable.BulkDelete | ctp/ctp.go:1894-1913 | The cues go, the rest get the indexes the reorder writes and their new numbers, the selection is remapped and then cleared if its new number is among the old numbers deleted |
| Reindex.BulkSelectionIff | ctp/ctp.go:1901-1912 | A deleted cue is deselected; a survivor stays selected exactly when its new number is not the old number of a deleted cue |
| Reindex.BulkSelectionCounts | ctp/ctp.go:1901-1912 | Counted before the call, on a table numbered as drawn: the new number is the old one less the deleted ones below it, and the selection is kept exactly when that is not a deleted number |
| Reindex.SurvivorDeselected | ctp/ctp.go:1901-1912 | Deleting cue 1 with cue 2 selected clears the selection although its cue survives |
| Reindex.CueTable.DeleteGroupCues | ctp/groups.go:113-154 | Deleting a group with its cues writes the same indexes and numbers, clears a selection of the group and only remaps one of a cue |
| Reindex.GroupDeleteSelectsAnother | ctp/groups.go:127-152 | With a deleted cue selected, another cue ends up selected |
| Reindex.CueTable.RemoveCue | ctp/ctp.go:2936-3011 | The row goes, the rest is renumbered, the selection is that of SelectionFollows; an unknown cue changes nothing |
| Reindex.SelectionFollows | ctp/ctp.go:2987-3004 | A cue selection names the same cue by its permanent id, or nothing when that cue went; a group selection is cleared |
| Reindex.CueTable.InsertAt | ctp/ctp.go:2063-2084 | The descending bump never collides and frees exactly the slot of the insert |
| Reindex.InsertKeepsNumbered | ctp/ctp.go:2063-2115 | A table numbered 1 to N is numbered 1 to N + 1 after an insert at any slot |
| Reindex.InsertKeepsSelectionIff | ctp/ctp.go:2063-2084 | Inserts do not remap the selection: it still names its cue exactly when that cue is above the insert |
| BulkGroup.BulkGroupNewAt | ctp/ctp.go:1920-1993 | Refused without a write when the nesting is refused; otherwise the tables are those of Grouped |
| BulkGroup.GroupedOrder | ctp/ctp.go:1958-1988 | Every row and the new header once; other rows and members each in the order they had; the folder in one piece |
| FolderPlace.FolderLands | ctp/ctp.go:1957-1988 | The row directly below the new folder is the anchor, or, when the anchor goes into it, the first row after it that does not; last on the sheet without one |
| BulkGroup.GroupedReads | ctp/ctp.go:1920-1993 | Reading the sheet gives that order with the chosen cues, and only them, in the new folder |
| BulkGroup.GroupedTree | ctp/ctp.go:1927-1940 | The new folder hangs from the anchor's own group and the table stays a forest |
| BulkGroup.GroupingKeepsPreOrder | ctp/ctp.go:1920-1993 | On every pre-order sheet grouping any cues at any anchor leaves a pre-order sheet |
| Seats.AddCueToGroup | ctp/ctp.go:2131-2190 | A missing group changes nothing; a file missing from the pool still opens the folder; otherwise the cue gets the next position and a seat one above the header or the last member |
| Seats.AddLandsIff | ctp/ctp.go:2127-2165 | On every loaded sheet it is read directly below the header, or the last member, exactly when the row that followed is above the seat, or a header at it |
| Seats.AddedLastIsLast | ctp/ctp.go:2155-2163 | A cue added last is always read after the group's other members |
| Seats.AddedFirstIsFirstIff | ctp/ctp.go:2155-2157 | One added first is read before them exactly when none has an index up to the seat |
| Seats.SecondFirstDropTies | ctp/ctp.go:2127-2157 | The seats do collide: on every sheet a second first drop gets the same seat and is read after the first |
| Seats.SecondLastDropIsApart | ctp/ctp.go:2157-2163 | Two last drops are one apart |
| Seats.OnStepsLands | ctp/ctp.go:2127-2165 | On whole-step indexes a drop lands where it is meant to, first or last |
| Selection.Selector.ExtendStep | ctp/ctp.go:1074-1138 | One call takes the stored anchor and set to Stepped |
| Selection.StepRefines | ctp/ctp.go:1074-1138 | One step on the stored set is one step of a head that is never stored; off either end it is ignored |
| Selection.RunRefines | ctp/ctp.go:1074-1138 | From one unit any run of steps leaves exactly the span between anchor and head |
| Selection.SelectedIsInterval | ctp/ctp.go:1074-1138 | The selected units are those between anchor and head, both included |
| Selection.StepBack | ctp/ctp.go:1074-1138 | A step that moved is undone by the opposite step |
| Selection.StepAtEdge | ctp/ctp.go:1074-1138 | A step off either end changes nothing; with no unit selected a step down selects the first one and a step up none |
| Selection.SheetUnitsSound | ctp/ctp.go:912-933 | Every sheet, in whatever order and state, draws each row once, so unit ids are distinct |
| Selection.NothingSelectedMatchesHeader | ctp/ctp.go:947-969 | With nothing selected UnitIndex finds a unit exactly when a header is drawn |
| Deck.Deck.Swap | gsp/gsp.go:288-382 | One swap under the lock; who fades, who is cut, how and where the new cue starts: CueChange |
| Deck.Deck.ClearFocus | gsp/gsp.go:421-439 | The focus goes only if it is still the pipeline named; the newest voice takes over |
| Deck.Deck.Promote | gsp/voices.go:79-93 | The most recently fired voice becomes the focus, if there is none |
| Deck.Deck.Demote | gsp/voices.go:71-75 | The focus joins the voices as it is |
| Deck.Deck.VoiceEnd | gsp/voices.go:106-143 | Loop, hold the last frame, or leave and report the cue |
| Deck.Deck.VoiceFailed | gsp/voices.go:147-159 | A failed voice leaves the stack |
| Deck.Deck.StopCue | gsp/voices.go:165-203 | One running cue leaves, the focus or a voice; found exactly when it runs |
| Deck.Deck.StopVoices | gsp/gsp.go:590-613 | Every voice leaves, cut or faded |
| Deck.Deck.Panic | gsp/gsp.go:700-721 | The focus and the warm slot go |
| Deck.Deck.Forget | gsp/gsp.go:769-779 | Stop keeps the nulled pipeline, forgets its cue and empties the warm slot |
| Deck.Deck.InstallBuild | gsp/gsp.go:943-961 | A warm build enters the slot only if no decision was taken since it started |
| Deck.Deck.ClaimWarm | gsp/gsp.go:999-1007 | InstallWarm takes the slot exactly when file and options match |
| Deck.Deck.HandleEnd | gsp/gsp.go:1881-1937 | handleEnd: stale, a lost page, a pass of the loop counted and restarted, held, or torn down with the newest voice taking over |
| Deck.Deck.EndpointFailed | gsp/gsp.go:441-459 | A lost page leaves the stack, or the focus |
| Deck.Deck.Play | gsp/gsp.go:507-520 | Play clears pause and hold of the focus unless it is starting |
| Deck.Deck.PauseVoices | gsp/gsp.go:573-586 | Every voice is paused, and those that were not are the ones sent to PAUSED |
| Deck.Deck.ResumeVoices | gsp/gsp.go:557-570 | Every paused voice not parked on its last frame plays again, and those are the ones sent to PLAYING |
| Transport.PauseThenPlayIff | gsp/gsp.go:557-586 | Pause and then Play leave the voices as they were exactly when those paused before were the parked ones |
| Deck.Deck.ClipOf | gsp/voices.go:31-44 | The focus, a voice with that pipeline, or none |
| Deck.Deck.NoteHalt | gsp/gsp.go:727-734 | The first section of Stop counts a halt and reads the focus |
| Transport.NewestTakesOver | gsp/gsp.go:421-439 | After an end, failure or StopCue of the focus the most recently fired remaining cue takes over with its own state |
| Transport.SwapStopsOrJoins | gsp/gsp.go:298-340 | A joining cue stops nobody and its predecessor runs on as a voice; a replacing one fades only what has a layer, and only for a crossfade or a live page |
| Transport.GoesBeneathIff | gsp/gsp.go:298-317 | A new layer goes beneath another cue's exactly when it joins the running cues and the cue named runs; that cue is then a voice below the new focus |
| CueChange.ReplacedFadeIff | gsp/gsp.go:318-340 | A cue that replaces the others fades a running clip exactly when the clip has a layer and the cue crossfades or is a live page; it cuts every other running clip and gives up the warm slot |
| CueChange.FiredAsAsked | gsp/gsp.go:341-373 | The new focus carries the live, hold, loop and loop count of its options, is starting, neither paused nor held, and has the next fire number; generation and loads move by one |
| CueChange.PlacedAsAsked | gsp/gsp.go:298-317 | Its layer goes to the bottom when it replaces; joining, on top or to the bottom as asked, beneath the last running clip of the cue named, or on top when that one is not running |
| Transport.StopCueAlone | gsp/voices.go:165-203 | StopCue takes out exactly one clip playing that cue when one runs and does nothing otherwise; every other running clip, focus included, runs on as it was |
| CueChange.StopsWhich | gsp/voices.go:165-196 | It takes the focus when that plays the cue, otherwise the last voice that does, and then leaves the focus alone |
| Transport.RestartsIff | gsp/gsp.go:1881-1915 | An ending focus restarts exactly when it loops, is no page, and its count is endless or above one |
| Transport.FinitePlays | gsp/gsp.go:1939-1952 | A focus that does not hold, with a count of n, restarts at every end before the n-th and is torn down at the n-th |
| Transport.HeldLoop | gsp/gsp.go:1900-1930 | A focus that holds, with a count of n, played again whenever parked, is parked at its n-th end and at no other: after it the stored count is 0 and every end restarts |
| Transport.VoicePlays | gsp/voices.go:106-143 | A voice counts the same way: n - 1 restarts, then held with the count at 0, or out of the stack |
| CueChange.FocusEndMeans | gsp/gsp.go:1881-1930 | An ending focus goes round again with one pass less, is parked on its last frame when it holds and has no pass left, and is otherwise retired, a page included; the other clips run on |
| CueChange.VoiceEndMeans | gsp/voices.go:106-143 | The same of an ending voice |
| CueChange.FailureMeans | gsp/voices.go:147-163 | A voice that fails is retired alone, whatever it is, and the focus left alone |
| CueChange.LossMeans | gsp/gsp.go:441-459 | With no such voice a page lost as focus is retired alone, and a report of any other pipeline changes nothing |
| CueChange.AllVoicesGo | gsp/gsp.go:588-613 | Stopping the voices fades all of them or cuts all of them, and leaves the focus alone |
| CueChange.HaltMeans | gsp/gsp.go:696-783 | After Panic's section nothing is focus or warm and exactly those two are cut; after Stop's last one the stopped pipeline stays, of no cue, and only the warm one is cut |
| CueChange.PausedIff | gsp/gsp.go:554-586 | Exactly the voices that played are sent to PAUSED, and exactly those paused and not parked are sent to PLAYING |
| CueChange.PlayWakes | gsp/gsp.go:507-520 | Play wakes a focus that is not starting, parked or not, and every paused voice but the parked ones |
| CueChange.ClaimedBackIff | gsp/gsp.go:945-1007 | A warm build in time is claimed by a fire of the same file and options and by no other; a late one goes straight back |
| Transport.HoldMarksTheNewCue | gsp/gsp.go:1918-1926 | The hold is written on whatever cue is the focus by then: a cue fired in between is marked held |
| Transport.SwapKeeps | gsp/gsp.go:288-382 | swap gives out exactly the pipelines it stops owning, and owns the new one |
| Transport.StopCueKeeps | gsp/voices.go:165-203 | StopCue gives out exactly the pipeline it stops owning |
| Playback.StepConserves | gsp/gsp.go:288-382 | Every locked section, claim, put, fade and retirement keeps each built pipeline owned exactly once |
| Playback.EveryPipelineOwnedOnce | gsp/panichold.go:51-133 | In every interleaving from an empty deck each pipeline built is the focus, a voice, warm, armed, held, doomed, parting, fading or retired, exactly one of them, once |
| Playback.IdleMeansRetired | gsp/gsp.go:2212-2219 | With no operation under way whatever is not running, warm or armed has been retired exactly once |
| Playback.NeverRevived | gsp/wall.go:577-614 | A pipeline given up never runs, warms or is armed again |
| Playback.StandbyBackIff | gsp/panichold.go:86-102 | The armed panic picture is claimed for the same file with the same stamp and for no other |
| FireLog.StepSound | gsp/voices.go:71-93 | Every step keeps the log: fire numbers distinct, bounded and places in the log, and what was fired never idle again |
| FireLog.FocusIsNewest | gsp/gsp.go:341-345 | In every interleaving a focus is the newest log entry still running |
| FireLog.FocusIff | gsp/gsp.go:341-345 | In every interleaving a cue is the focus exactly when there is one, the cue runs, and no cue fired after it does |
| FireLog.FocusLostIff | gsp/gsp.go:696-725 | The only step that leaves voices without a focus is Panic's own section, exactly when voices appeared since it took them |
| FireLog.PanicRace | gsp/gsp.go:696-725 | That happens when a cue that keeps the others is fired between Panic's two sections |
| Warming.GenMovesIff | gsp/gsp.go:258-262 | The generation moves with every playback decision and with nothing else |
| Warming.StaleBuildNeverInstalled | gsp/gsp.go:923-964 | A build started under an old generation is installed exactly when no decision was taken since |
| Warming.LoadsCountFires | gsp/gsp.go:276-280 | loads counts the installs and nothing else |
| Warming.HoldFallsOnItsOwn | gsp/gsp.go:1918-1926 | With no playback decision in between it falls on the clip that ended |
| Warming.HoldFallsOnItsOwnIff | gsp/gsp.go:1918-1926 | In every interleaving it falls on that clip exactly when the clip still runs, no cue fired after it does, and there is a focus |
| StateProtocol.CheckedCallsEndInNull | gsp/gsp.go:621-631 | In every interleaving of any number of checked calls with a removal and teardown the pipeline ends in NULL |
| StateProtocol.EndsInNullIff | gsp/gsp.go:557-586 | With unchecked writes too it ends in NULL exactly when a write of NULL follows the last of them |
| StateProtocol.UncheckedRevives | gsp/gsp.go:573-586 | One unchecked write after the teardown brings a retired pipeline back |
| Fades.StartedAtMostOnce | gsp/wall.go:551-568 | However incoming cues show, fail and retire, no fade is released twice |
| Fades.ClosedTwiceIff | gsp/wall.go:617-630 | In every run a fade's done channel has been closed twice exactly when at some moment two retireOutgoing calls were both between finding it open and closing it |
| Fades.OneAtATimeIsSafe | gsp/wall.go:577-643 | While those calls do not overlap every done channel is closed at most once, however the fades begin and end |
| Fades.StopAndPanicCollide | gsp/wall.go:617-630 | Two overlapping calls over one cue fading out close its channel twice |
| GlLayers.InsertLayer | gsp/wall.go:342-347 | The in-place insert shifts the upper part by one and touches nothing else |
| GlLayers.Layers.Register | gsp/gllayer.go:511-530 | The first video tail of a pipeline is its layer, a later one is ignored |
| GlLayers.Layers.Show | gsp/gllayer.go:692-706 | One glShow under the lock, with the record found before it |
| GlLayers.Layers.Park | gsp/gllayer.go:761-772 | One glPark under the lock |
| GlLayers.Layers.Raise | gsp/gllayer.go:775-795 | One glRaise under the lock; what it leaves on the wall: GlPlace.RaisedOnTop |
| GlLayers.Layers.Hide | gsp/gllayer.go:800-818 | One glHide under the lock; the caller gets what it must free |
| GlLayers.Layers.Drop | gsp/gllayer.go:843-859 | One glDrop under the lock; the caller gets what it must free |
| GlWall.StepSound | gsp/gllayer.go:511-859 | Every operation, with any stale record, keeps the table, the stack and the account of layers |
| GlWall.FreedExactlyOnce | gsp/gllayer.go:824-859 | In every interleaving a layer of a pipeline no longer registered is in one taker's hands or freed, once |
| GlWall.UsedLayerIsLive | gsp/gllayer.go:692-772 | A layer found on a record has been neither taken nor freed |
| GlWall.StepForgets | gsp/gllayer.go:560-606 | A dropped record is never registered or attached again |
| GlWall.StackIsTheVisible | gsp/gllayer.go:684-706 | The stack holds exactly the registered visible records, without duplicates |
| GlWall.ShowInOrder | gsp/gllayer.go:684-706 | After a show the mixer order is 1 to n, whatever it was |
| GlWall.ShownWhereAsked | gsp/wall.go:324-347 | A new layer comes in at the bottom, directly beneath the layer named, or on top; no other layer changes place |
| GlWall.HideInOrderIff | gsp/gllayer.go:800-818 | After a hide it is 1 to n exactly when it was, or the layer hidden was on the wall |
| GlWall.DropInOrderIff | gsp/gllayer.go:843-859 | After a drop likewise |
| GlWall.AlwaysInOrderIff | gsp/gllayer.go:684-859 | In every run the order is 1 to n after every step exactly when no step raises a shown layer from below the top or parks a shown layer (one in the 1000th place aside) |
| GlWall.HideLeavesTie | gsp/gllayer.go:775-818 | With two cues on the wall, the lower raised, a third registered and hidden, the order is not 1 to n |
| GlWall.TwoCanBeShown | gsp/gllayer.go:658-706 | Two registrations and two shows from the empty wall give such a wall |
| GlWall.RaiseInOrderIff | gsp/gllayer.go:775-795 | After a raise it is 1 to n exactly when the layer was not shown yet or was on top already |
| GlWall.ParkInOrderIff | gsp/gllayer.go:761-772 | Parking breaks the order exactly of a layer that is on the wall (its 1000th place aside) |
| GlPlace.RaisedOnTop | gsp/gllayer.go:775-795 | A raise does nothing without its record or a layer, and otherwise: the layer is last in the stack with the mixer order of its height, visible, not parked; the others keep place and order |
| GlPlace.ShownOnWall | gsp/gllayer.go:692-706 | A show likewise makes the layer visible; one already shown stays in place, and no other changes place |
| GlPlace.ParkedAbove | gsp/gllayer.go:761-772 | A park puts the layer at 1000 in the mixer, shows nothing and moves nothing |
| GlPlace.HiddenOff | gsp/gllayer.go:800-818 | A hide takes the layer off stack and record and hands it to the caller once; the others keep their order |
| GlPlace.DroppedOff | gsp/gllayer.go:843-859 | A drop does the same and unregisters the record |
| Slip.Decoder.FeedChunk | routes/qlab.go:158-184 | feed, byte by byte |
| Slip.FeedAppend | routes/qlab.go:158-184 | Feeding a + b is feeding a, then b |
| Slip.ChunksDoNotMatter | routes/qlab.go:158-184 | Any cutting of the stream into reads gives the same packets and state |
| Slip.FeedBounded | routes/qlab.go:133-156 | Whatever the peer sends, the buffer and every packet stay within the cap, and no packet is empty |
| Slip.RoundTrip | routes/qlab.go:158-184 | Decoding inverts the encoder of RFC 1055 (its unnumbered PROTOCOL section) for every list of packets of 1 byte up to the cap |
| Slip.StreamDecodes | routes/qlab.go:146-184 | In a stream of any packets exactly those of deliverable length come out, intact: an oversized one takes no neighbour with it |
| SlipStream.AnyStreamDecodes | routes/qlab.go:146-184 | Any bytes at all say ends and bytes (an escape before any other byte is that byte), an escape may end them; out come exactly the stretches between the ends that are neither empty nor past the cap |
| Slip.ResyncUnlessEscaping | routes/qlab.go:158-184 | From any state outside an escape the leading END recovers the whole following stream |
| Slip.OpenEscapeSwallowsEnd | routes/qlab.go:158-184 | With an escape open, whatever is buffered, the next packet comes out joined to its own END and what was buffered, or not at all when that is too long; all packets after it are delivered |
| Awards.Desk.Go | routes/awards.go:96-151 | The first locked part of a press; what it does over every run: AwardsPress.PressInRun |
| AwardsPress.FadesIff | routes/awards.go:122-140 | A press fades out exactly when the group has members, the refreshed session plays one and the engine is on it; that member, with order and cursor left alone |
| AwardsPress.IgnoredIff | routes/awards.go:108-122 | It is ignored exactly when a fade is under way or the group is empty |
| AwardsPress.FiresNext | routes/awards.go:141-151 | Otherwise it fires the member under the cursor, or the first of a new order |
| AwardsPress.PressInRun | routes/awards.go:96-151 | The three, over every run of overlapping presses, loads, fades and selection moves |
| AwardsPress.LoadPlays | routes/awards.go:164-173 | In every run a finished load makes its cue the playing member exactly when the session still waits at its place |
| AwardsPress.FadeThenNext | routes/awards.go:182-202 | In every run, after a fade with members left and nothing else on the engine, the next press fires the next member |
| AwardsPress.FadeOvertaken | routes/awards.go:182-200 | With something else on the engine, or the group gone, the session is over |
| Awards.Desk.Loaded | routes/awards.go:164-173 | The claim after the load |
| Awards.Desk.Stopped | routes/awards.go:182-215 | The end of a stop-fade up to stepping out |
| Awards.OverlapsStayOrdered | routes/awards.go:96-229 | However presses, loads, fades and selection moves overlap: the order is a permutation of the members, and between two resets of the cursor every place it has passed was claimed once, in turn |
| Awards.OneClaimPerFire | routes/awards.go:96-173 | Over any run, of all loads that finish for one place one claims it, until the cursor is set to the start again |
| Awards.FailedLoadRetries | routes/awards.go:136-160 | A failed load leaves the cursor, so the next press fires the same member |
| Awards.EveryPassPlaysEachOnce | routes/awards.go:57-229 | With presses one at a time every completed pass plays each member exactly once, shuffled or not |
| Awards.ClaimsRightIff | routes/awards.go:96-173 | Every claim of every run is by the cue the order has at its place exactly when shuffle is off or no two members differ |
| Awards.SlowLoadClaimsAnotherPlace | routes/awards.go:96-173 | For every shuffled group with two draws that begin differently: press, selection moved away, press, and only then the first load finishes: it claims the place of another cue |
| Awards.FindsEndIff | routes/awards.go:112-148 | In every run a press finds the cursor past the end exactly when the last member was played and the engine is on something else, looping or not |
| Awards.LastEndingAloneIff | routes/awards.go:112-148 | With presses one at a time too, so no reset and no race is needed |
| Awards.PlayedAlone | routes/awards.go:112-148 | Every group gets there: each member played and ended by itself |
| Awards.FindsEndStartsOver | routes/awards.go:141-151 | The press then draws the order again and fires its first member |
| Awards.LastFadeLeaves | routes/awards.go:182-215 | A fade of the last member ends the session, or goes round when the group loops |
| Awards.Desk.Left | routes/awards.go:280-286 | The session is dropped when the selection is on anything but its group |

## Left out

- GStreamer, DRM, GL, WebKit, ffmpeg, HTTP, templates, logging and configuration: a
  pipeline or a layer is an id with an owner, and what the wall answers is a parameter.
- SQL: a table is a map; a query or an update is a read or a write of it.  A NULL
  `sheet_index` is not modelled, only the value 0.
- Floating point: `sheet_index` is a real; fade curves, levels, layout, trim points and
  times are not modelled, nor is the midpoint arithmetic of `gapSheetIndex`.
- Parsing of cue numbers (trimming, lower case, strconv): sort keys are inputs, NaN
  included.
- SortTwice.SortTwiceIsOnce: the Go library's sort is modelled by insertion, which it is
  up to twenty rows; for siblings that compare `SortTies.ComparableUnique` is why any
  stable sort gives the same result, for longer lists of siblings that do not it is not
  modelled.
- Colours and outline flags of a drawn row, titles and thumbnails.
- FlattenSheet.Draw: what it draws on a cyclic group table is not stated, only that it
  ends.
- SheetDrop.SheetDrop: a cue drag is stated on any group table, a group drag on a forest,
  which `GroupTable` shows every edit keeps; on a cyclic one its climbs need not end.
- ExtendSelection with a target row, and the pruning of dead ids: only the stepwise
  extension is modelled.
- Reindex.CueTable.Renumber: asks for positive positions, as the table has them; the
  database transaction that would undo a failed update is not modelled.
- Reorder.ReorderCues: covers the order and the memberships, on the table by position; the
  renumbering and the selection are `Reindex`, on the table by permanent id, and
  `Reorder.ReorderNumbers` connects the two.
- BulkGroup.GroupingKeepsPreOrder: the anchor's position must be positive when it exists.
- RenumberSheet, bulk edits other than delete and group, export and import: easy members
  beside these.
- GlLayers.Layers.Show: a record's identity is an id in a map, not a pointer, so aliasing
  of records is not captured; opacity and fade levels are not modelled.
- The plane wall beside the GPU wall.
- Deck.Deck.Swap: trims, gains and geometry of a load are not modelled, only what decides
  ownership, ends, focus and the place of the layer.
- Awards.Desk.Stopped: stepping the selection out of the group and firing the next unit
  is not modelled.
- OSC encoding, the scheduler and NextSchedule.
