# CELS: composition engine model

CELS is a retained-tree composition engine. A session keeps a tree of groups flattened in
preorder inside a gap buffer, re-runs only the bodies that are dirty, reorders, inserts and
prunes groups in place, and pins the memory each group remembers in an arena that never moves.
This project models the session reconciler, its slot arena and its double-buffered state
registry, the stand-alone slot table with its two gaps, the event queue, and the transaction
batches, and proves what they promise.

## How the proofs are built

- `Trees`, `Edits`, `Moves`: a group tree, its preorder encoding, and the zipper that describes
  the table while a stack of groups is open. Every structural edit of the flat table is proved to
  edit the encoded tree, link renumbering and size climbs included.
- `GapBuffer`, `TableOps`, `Drains`: the gap buffer and the in-place edits on it.
- `Programs`, `Passes`: a composable body is a function from the published snapshot to a list of
  calls into the session (watch a cell, remember memory, attach a destructor, invalidate a key,
  enter a child). A pass over the tree is a function; it is the specification of the traversal.
- `Sessions`: the session object. Its methods do what the C functions do, on the gap buffer, the
  slot array, the hook list, the queues and the depth stack, and are proved to refine the pass
  function. `Session.Recompose` refines `Frames.Recomposition`.
- `Scratch`, `Watchers`, `Marks`, `Subscriptions`, `Incremental`, `Frames`: incremental
  recomposition equals composition from scratch, over whole runs.
- `Schedules`, `Capacity`: scheduled keys reach a drain, how a recomposition ends, and exactly when a
  group, a slot request or a subscription is refused.
- `Identity`, `Census`, `Flags`, `Teardown`, `Removal`: what a pass does to identities, dirty flags,
  destructors and subscriptions.
- `Executions`, `Pinning`, `Leaks`, `Lifetimes`: what every execution of a group asks for and gets,
  pinned memory, and what holds of identities, slots, hooks and subscriptions over whole runs.
- `Hooks`, `Attachments`, `Ledgers`, `Accounts`: the hook list, what refreshing does to it, and what
  becomes of every attached destructor over whole runs.
- `Specimen`: a small program and session that meet what the theorems about runs ask for.
- `Arenas`, `ArenaFacts`, `SlotTables`: the first-fit arena, its guarantees, and the slot array.
- `State`, `Registry`, `Snapshots`: the cell registry and its snapshot isolation.
- `DualTables`, `DualFlags`, `DualWriter`, `DualReader`: the stand-alone slot table.
- `Events`, `Deliveries`, `Transactions`: delivery and replay.

The model follows the code where a promise of its documentation can fail. Each of these has a
lemma or method with an input on which it fails, and an equivalence that says exactly when it
holds:

- a mutation reaches every watcher: `Snapshots.FullQueueLoses`, `Snapshots.AllScheduled`;
- a raw allocation is disjoint from the slots: `ArenaFacts.CarveOverlaps`, `ArenaFacts.CarveSafe`;
- a gap move of the slot table keeps the groups: `DualTables.WipingMove`,
  `DualTables.SlotTable.MoveGapTo` (for tables whose groups have keys), `DualTables.RaisedKeepsIff`;
- a drain reaches every group with the key: `Flags.SecondTwinMissed`, `Flags.MarkHitsAllIff`;
- an attached destructor is called when its group goes: `Attachments.SecondInstanceTakesOver`,
  `Attachments.TwinTakesHook`, `Attachments.RefreshKeepsIff`, `Accounts.RerunKeepsIff`;
- an invalidation of the slot table reaches every ancestor: `DualFlags.ClearedRootMissesMark`,
  `DualFlags.ClearKeepsUpwardIff`;
- a written forest is read back: `DualReader.WideIsLost`, `DualReader.RoundTrip`;
- a written word is the next one of its group: `DualWriter.SlotWriter.SlotWrite`;
- an event is received once: `Events.NinthReaderRepeats`, `Events.RepeatIsEmptyIff`,
  `Deliveries.ExactlyOnceIff`;
- a staged operation is handed over with its bytes: `Transactions.NullPayloadAliases`,
  `Transactions.CommitReplays`;
- a changed size is picked up: `Lifetimes.LateResizeLosesMemory`, `Lifetimes.ResizeStartsOver`.

The comment on the release of slots also promises that state cells are purged; the code does not
attempt it, and neither does the model.

## Conventions

Keys and identities are unbounded naturals. Capacity failures are recorded instead of being
excluded: `full` (a group was refused), `missed` (a subscription, or a watcher of a mutated cell, was
dropped) and `starved` (a slot request returned no memory). A full queue also drops the key of an
`Invalidate` step or of an invalidation between frames; the theorems about such keys ask for room. The
theorem about runs asks that the first two did not happen; the refinement of the session holds in
any case. A full table refuses even its own root, after which leaving the root fails an assertion in
the code; `Recompose` reports this as `Broken`, and a run ends there. A recomposition that reaches
the drain limit ends with `NotConverged`, and the run goes on. Bodies are assumed to nest at most 64 deep, to give each key one parent, to use non-zero
keys and, for the theorem about runs, to call no child twice and to depend only on cells that they
or their ancestors watch. Mutations of state happen between recompositions.

## Model

| member | source | states |
|---|---|---|
| `Frames.RunComposes` | src/runtime/session.c:838-949 | over any run of frames (state mutations and key invalidations, then a recomposition) within the capacities, after every recomposition that succeeded or stopped at the drain limit the keyed tree is the one composed from an empty table with the same published values |
| `Frames.RecompositionComposes` | src/runtime/session.c:838-949 | one recomposition, converging or not, keeps that invariant: tree built, all groups but the root clean, every body subscribed to what it watches, nothing pending unscheduled |
| `Frames.SettleComposes` | src/runtime/session.c:870-924 | however many drains there are, and whether or not the last one schedules more, they show exactly the values published first |
| `Frames.StartIsSteady` | src/runtime/session.c:528-619 | a session that has composed nothing satisfies the invariant for any cells without watchers |
| `Frames.TransferKeeps` | src/runtime/session.c:845-848 | making keys of the next-frame queue current unschedules nothing; that none of them is lost is Schedules.TransferConserves |
| `Schedules.TransferConserves` | src/runtime/session.c:845-848 | a transfer between the queues loses and invents no key, and stops only when none is left or the queue is full |
| `Schedules.QueuedIsHandled` | src/runtime/session.c:838-924 | a key that waits in either queue when a recomposition begins, with room for both queues in one, has the first group of the tree with that key run or pruned in that recomposition |
| `Schedules.PokedIsHandled` | src/runtime/session.c:1569-1609 | so has a key invalidated between frames |
| `Schedules.MutatedIsHandled` | src/runtime/state.c:213-253 | a mutation between frames has the first group of every watching key run or pruned in the next recomposition, when the watchers that are not queued yet fit |
| `Schedules.KeyIsHandledOrWaits` | src/runtime/session.c:838-924 | whatever the capacities of the queues, the first group with a key of either queue runs or is pruned in the recomposition, or the key still waits in one of the queues after it |
| `Schedules.PassSchedules` | src/runtime/session.c:1593-1609 | over a pass the queue grows by exactly the keys that the bodies it runs invalidate, while there is room |
| `Schedules.AskedIsHandled` | src/runtime/session.c:870-924 | a key that a body invalidates has its group run or pruned in the next drain of the same recomposition, when there is a next one |
| `Schedules.VerdictIff` | src/runtime/session.c:870-924 | the drain loop gives up if and only if each of its drains had room and scheduled more keys; it breaks if and only if the table is full before a drain that it comes to; it is done if and only if one schedules nothing more |
| `Schedules.UnfinishedKeeps` | src/runtime/session.c:870-878 | a recomposition that gives up leaves the keys scheduled by its last drain queued and those it had no room for waiting, so the next one goes on |
| `Schedules.RunsUnlessIdle` | src/runtime/session.c:850-860 | a session that has composed, with both queues empty and no dirty cell, is left exactly as it is; any other runs a body, unless the table is full or no drain is allowed |
| `Schedules.DrainRunsOnly` | src/runtime/session.c:184-217 | a group whose body runs in a drain is the root, was dirty before, is new, or is, or is below or above, the first group with a queued key |
| `Schedules.RecompositionPublishes` | src/runtime/session.c:881-929 | whatever becomes of it, a recomposition that may drain at all leaves no cell dirty and shows for every cell the value staged last |
| `Frames.MutateKeeps` | src/runtime/state.c:213-253 | a mutation between frames shows in no snapshot and schedules every watcher, unless the queue is full |
| `Incremental.DrainOnceSettles` | src/runtime/session.c:879-913 | publishing, marking and one pass rebuild what composing the published values from nothing gives |
| `Incremental.DrainPrepares` | src/runtime/session.c:879-885 | after a drain every clean group of the tree has children that are right for the newly published values |
| `Incremental.UntouchedBody` | src/runtime/session.c:184-217 | a group with no queued key on its path runs the same body after publication |
| `Incremental.ComposeSame` | src/runtime/session.c:1271-1278 | below a clean group nothing that composes it has changed, so skipping it is right |
| `Scratch.ExecComposes` | src/runtime/session.c:1205-1383 | when the clean old children are right, the children a body leaves behind are those composed from nothing |
| `Marks.DrainSilences` | src/runtime/session.c:184-217 | after a drain no clean group has a queued key anywhere on its path from the root |
| `Marks.MarkSilences` | src/runtime/session.c:192-214 | marking a key dirties every group at or below the group with that key, and everything above it |
| `Watchers.ExecConforms` | src/runtime/session.c:1205-1383 | after a body the visited children are the called ones, the waiting ones were not called, and every group sits where its path says |
| `Watchers.ExecKeepsWatch` | src/runtime/session.c:1065-1072 | running a body drops no subscription of a group outside it, nor of a child it calls |
| `Subscriptions.ExecSubscribes` | src/runtime/state.c:136-174 | after a body, its group and every group below it are subscribed to every existing cell they watch |
| `Identity.ExecMatches` | src/runtime/session.c:1235-1269 | whatever the reordering, the j-th call with key k gets the group of the j-th old child with key k if there was one and a new identity otherwise; the visited children are the calls in order |
| `Census.PassBalance` | src/runtime/session.c:1136-1383 | identities are conserved: tree and pruned after a pass are tree and pruned before it, plus the identities handed out |
| `Census.ExecBalance` | src/runtime/session.c:1205-1383 | the same law within a body, with the waiting children counted |
| `Census.PassDistinguishes` | src/runtime/session.c:1299-1308 | over a pass no two groups come to share an identity and no pruned identity is handed out; over whole runs see Lifetimes.RunStaysSound |
| `Census.LeftOutApart` | src/runtime/session.c:1360-1367 | the groups that an exit prunes have distinct identities |
| `Flags.PassCleans` | src/runtime/session.c:184-217 | no lost invalidation: every group dirty at the start of a pass runs or is pruned in that pass, and afterwards every group but the root is clean |
| `Flags.MarkedIsHandled` | src/runtime/session.c:184-217 | when a drained key has a group in the tree, the first such group runs or is pruned in the pass that follows |
| `Flags.ExecCleans` | src/runtime/session.c:1271-1289 | the same within a body: during it, dirty groups run, are pruned, or still wait among the unvisited children |
| `Flags.DrainClosed` | src/runtime/session.c:193-212 | draining keeps dirtiness upward closed, so a subtree skipped in one step holds no dirty group |
| `Flags.MarkHitsAllIff` | src/runtime/session.c:191-214 | a drain invalidates every group with the key if and only if those beyond the first one and its subtree are invalidated already |
| `Flags.DrainOnly` | src/runtime/session.c:184-217 | a drain dirties no group but the first one with each queued key and the groups below and above it |
| `Flags.DrainKeeps` | src/runtime/session.c:184-217 | a drain changes flags and nothing else of the tree |
| `Flags.SecondTwinMissed` | src/runtime/session.c:213 | two sibling groups under one key: the second is missed |
| `Trees.WholeIsPlug` | src/runtime/session.c:1059-1383 | the flat table in the middle of a traversal encodes exactly the tree that its open groups and cursor stand for |
| `Trees.PopEncodes` | src/runtime/session.c:1354-1383 | closing a group leaves the encoding alone |
| `Trees.AtCarried` | src/runtime/session.c:1254-1261 | records that travel together, with their links renumbered, still encode the same forest |
| `Edits.WholeLinked` | src/runtime/session.c:1085-1091 | in every reachable table parent links point backwards, so climbs to the root end |
| `Edits.OpenGroupsCover` | src/runtime/session.c:1076-1084 | the sizes of all open groups are at least what is about to be removed: the assertion before the subtraction cannot fail |
| `Edits.ClimbAround` | src/runtime/session.c:1318-1328 | a climb touches every open group and nothing else |
| `Edits.InsertEncodes` | src/runtime/session.c:1299-1328 | inserting a record, renumbering the links behind it and growing the open groups inserts that leaf into the tree |
| `Edits.PruneEncodes` | src/runtime/session.c:1074-1101 | shrinking the open groups, cutting the records out and renumbering removes exactly that subtree |
| `Edits.RotateEncodes` | src/runtime/session.c:1237-1262 | rotating a sibling's records to the cursor and renumbering brings exactly that subtree to the front |
| `Moves.EnterMove` | src/runtime/session.c:1280-1288 | entering a group moves the cursor and changes no record |
| `Moves.SkipMove` | src/runtime/session.c:1271-1277 | skipping a group moves the cursor past its subtree and changes no record |
| `Moves.ExitMove` | src/runtime/session.c:1354-1383 | leaving a group whose children are all visited changes no record |
| `GapBuffer.GroupTable.MoveGap` | src/runtime/session.c:98-119 | moving the gap keeps the logical sequence of groups |
| `GapBuffer.GroupTable.Get` | include/cels/runtime/session.h:801-817 | logical indices resolve to the logical sequence on both sides of the gap |
| `GapBuffer.GroupTable.Insert` | src/runtime/session.c:1299-1316 | writing at the gap inserts one record into the logical sequence |
| `GapBuffer.GroupTable.Remove` | src/runtime/session.c:1088-1095 | closing up removes a run of records from the logical sequence |
| `GapBuffer.GroupTable.Rotate` | src/runtime/session.c:1243-1252 | the three copies through the scratch buffer move one run of records in front of another |
| `TableOps.InsertLeaf` | src/runtime/session.c:1296-1328 | mounting a child inserts a leaf at the cursor of the encoded tree |
| `TableOps.RemoveSubtree` | src/runtime/session.c:1074-1101 | removing a subtree from the table removes it from the encoded tree |
| `TableOps.BringForward` | src/runtime/session.c:1235-1263 | the reordering step brings a waiting subtree to the cursor of the encoded tree |
| `TableOps.ClimbFrom` | src/runtime/session.c:1075-1086 | the climb reaches the root and no size falls below zero |
| `Sessions.Session.EnterComposable` | src/runtime/session.c:1205-1343 | with an old child for the key, takes up the first one and runs it if and only if it is marked; without one, mounts a new group if and only if the table has a free record and records a refusal otherwise; all invariants of the traversal kept |
| `Capacity.AdmitRefusesIff` | src/runtime/session.c:1291-1342 | a child without an old group is refused if and only if no record is free, and then only `full` is set; otherwise a fresh identity mounts and the waiting children stay |
| `Capacity.PassCovers` | src/runtime/session.c:1291-1342 | over a pass no group is refused while the free records cover the groups that it mounts |
| `Sessions.Session.FindChild` | src/runtime/session.c:1225-1233 | the search by subtree strides finds the first waiting child with the key, or none |
| `Sessions.Session.BringToCursor` | src/runtime/session.c:1225-1263 | the matched child comes first, the others keep their order |
| `Sessions.Session.ExitGroup` | src/runtime/session.c:1354-1383 | prunes exactly the unvisited children, seals the mount, and restores the stack, cursor and slot offset of the enclosing group; the size check holds |
| `Sessions.Session.PruneSubtree` | src/runtime/session.c:1059-1102 | tears the groups of the subtree down from last to first and removes them from the table |
| `Sessions.Session.EnterComposition` | src/runtime/session.c:1136-1187 | enters the root, mounts it in an empty table, prunes a foreign tree first, refuses when the table is full |
| `Sessions.Session.FireCleanups` | src/runtime/session.c:130-144 | calls the destructors of one group newest first and keeps the other hooks in order |
| `Sessions.Session.ResolveSlot` | src/runtime/session.c:1399-1515 | while mounting returns no memory if and only if no slot record is free or no aligned offset fits, and the lowest such offset otherwise; recalls the same slot afterwards and starts over when the size changed; `starved` is set with a refusal only |
| `Capacity.MountRefusesIff` | src/runtime/session.c:1406-1482 | the same law of the function that passes are made of |
| `Capacity.BodyTakes` | src/runtime/session.c:1406-1482 | a mounting group gets every request of its body answered while the arena covers what its body and the bodies it calls ask for |
| `Capacity.BodyRecords` | src/runtime/session.c:1368-1373 | after such a mount the record of the group holds the address of its first slot and, modulo the 16 bits of the count, the bytes of all its slots, and the group is no longer mounting |
| `Sessions.Session.WatchState` | src/runtime/state.c:136-174 | subscribes the running group, or the root when no composition is open, and returns the published value; a skipped group subscribes nobody |
| `Sessions.Session.RegisterLifecycle` | src/runtime/session.c:722-745 | adds a hook of the running group while there is room, and then only invokes the constructor callback; does nothing outside a composition |
| `Sessions.Session.UpdateLifecycle` | src/runtime/session.c:759-778 | puts the new hook in the place of the first one with the running group's identity or key; without one adds it while there is room |
| `Sessions.Session.InvalidateKeyImmediate` | src/runtime/session.c:1593-1609 | schedules a key once: for another drain while a recomposition is under way, for the next frame otherwise |
| `Sessions.Session.InvalidateKey` | src/runtime/session.c:1569-1581 | schedules a key once for the next frame |
| `Sessions.Session.RunSteps` | src/runtime/session.c:1205-1383 | running a body in place does to tree, slots, hooks, cells and queue what the pass function on trees says |
| `Sessions.Session.CallChild` | src/runtime/session.c:1205-1383 | entering, running and leaving a child refines one visit of the pass function; stack and offset come back |
| `Sessions.Session.RunPass` | src/runtime/session.c:890-916 | one traversal from the root refines a whole pass and ends with no group open |
| `Sessions.Session.DrainInvalidationQueue` | src/runtime/session.c:184-217 | in place marking refines the drain of the tree |
| `Sessions.Session.Recompose` | src/runtime/session.c:838-949 | the recomposition method refines the frame function of the run theorems, verdict included: transfer, idle check, drain loop with its limit, final transfer and publication; what the function promises of keys, verdicts and values is in Schedules |
| `Sessions.Session.MutateState` | src/runtime/state.c:213-253 | stages a value and queues the watchers; one is missed if and only if those not queued yet do not fit into the queue |
| `Capacity.SubscribedMissesIff` | src/runtime/state.c:157-169 | a subscription is missed if and only if the cell exists, the group does not watch it yet and its list is full |
| `Capacity.MutateMissesIff` | src/runtime/state.c:236-248 | a mutation misses a watcher if and only if the watchers not queued yet do not fit into the queue |
| `Drains.MarkKey` | src/runtime/session.c:189-215 | marks the first group with the key, its subtree and its ancestors |
| `Drains.FocusFirst` | src/runtime/session.c:191-193 | the first record with the key is the first group of the tree with the key |
| `Passes.ExecGrows` | src/runtime/session.c:838-949 | over a pass cells change in their watchers at most, identities only go up and logs only grow |
| `Removal.PruneLeavesNothing` | src/runtime/session.c:130-174 | pruning calls each destructor on record for the subtree once, group by group from the last to the first and newest first within a group; afterwards no hook, slot or watcher names a removed group and the others keep order and content (which hooks are on record: Accounts) |
| `Removal.DescendantsFirst` | src/runtime/session.c:1065-1072 | in the order of a prune descendants come before their ancestors |
| `Removal.FiresEachOnce` | src/runtime/session.c:130-144 | each due destructor on record is called exactly once |
| `Hooks.FiresNewestFirst` | src/runtime/session.c:130-144 | the due destructors of a group are called once each, and of two the one registered later is called earlier |
| `Hooks.KeepsOrder` | src/runtime/session.c:130-144 | hooks of other groups stay on record in the order in which they were registered |
| `Removal.TearDownWatchers` | src/runtime/state.c:288-310 | exactly the subscriptions of the removed keys end |
| `Attachments.RefreshKeepsIff` | src/runtime/session.c:759-778 | when a group runs again and refreshes the instances it has on record, each of them stays on record exactly once if and only if there is at most one and the first hook that matches is the group's own, not one of another group under its key |
| `Attachments.SecondInstanceTakesOver` | src/runtime/session.c:767-774 | two instances in one group: after the next execution the second is on record twice and the first not at all, so that a prune calls one destructor twice and the other never |
| `Attachments.TwinTakesHook` | src/runtime/session.c:767-774 | two groups under one key: the later refresh takes over the other group's hook |
| `Ledgers.PassHooked` | src/runtime/session.c:130-174 | over a pass the hooks on record under a key belong to the group that has the key, and they and the destructor calls made for it are those that its executions, restarts and prunes account for |
| `Accounts.RunAccounts` | src/runtime/session.c:716-778 | over any run of frames every destructor attached under a key is on record, has been called, was refused for want of room or was displaced by a refresh with another instance, and exactly one of these |
| `Accounts.AttachedIsCalledOnce` | src/runtime/session.c:1908-1923 | a composable that attaches one instance: over any run from an empty session every attachment is on record for the group that has its key, was called once, or was refused for want of room |
| `Accounts.RerunKeepsIff` | src/runtime/session.c:759-778 | an execution that does not mount or start over, of a group whose instances are all on record, displaces none if and only if they are one and the same |
| `Hooks.Sweep` | src/runtime/session.c:130-144 | the backwards loop with its in-place compaction fires and keeps exactly the right hooks, in the right order |
| `Teardown.DoomedAt` | src/runtime/session.c:1065-1067 | walking a subtree's records backwards visits its groups in the order of the tree function |
| `ArenaFacts.AllocateFirstFit` | src/runtime/session.c:1417-1478 | a granted request gets the lowest 8-aligned offset that fits below the limit; slots stay sorted and disjoint and the used count is their total size |
| `ArenaFacts.AllocateFails` | src/runtime/session.c:1417-1454 | with a free slot record a request fails exactly when no offset fits |
| `ArenaFacts.RequestIff` | src/runtime/session.c:1417-1478 | a request is refused if and only if no slot record is free or no aligned offset fits below the limit, and gets the lowest one that fits otherwise |
| `ArenaFacts.FastPathIsScan` | src/runtime/session.c:1422-1439 | when the last slot ends at the used count there is no hole, and the append path picks what the scan would pick |
| `ArenaFacts.PlacedDisjoint` | src/runtime/session.c:1460-1469 | no two slots overlap |
| `ArenaFacts.StaysWellPlaced` | src/runtime/session.c:1399-1482 | any run of requests and releases keeps the arena well placed |
| `ArenaFacts.ReleaseKeeps` | src/runtime/session.c:155-174 | a release returns the slots of one group and leaves those of every other group as they are |
| `ArenaFacts.HintIsIrrelevant` | src/runtime/session.c:1484-1497 | while no group holds two slots for one request, as in every sound session, the slot a lookup resolves to does not depend on the search hint |
| `ArenaFacts.CarveSafe` | src/runtime/session.c:374-384 | the bytes of a raw allocation meet no slot if and only if there is room for them above the highest slot, and then the arena stays well placed |
| `ArenaFacts.CarvePacked` | src/runtime/session.c:374-384 | without holes the check that the allocator makes is enough: the bytes meet no slot |
| `ArenaFacts.CarveOverlaps` | src/runtime/session.c:378-383 | with a hole below the last slot the bytes of a raw allocation can meet that slot |
| `SlotTables.SlotArena.Allocate` | src/runtime/session.c:1406-1482 | insertion into the sorted slot array refines the allocation function |
| `SlotTables.SlotArena.Find` | src/runtime/session.c:1484-1513 | the circular search from the hint refines the lookup function |
| `SlotTables.SlotArena.Release` | src/runtime/session.c:155-174 | in-place compaction refines the release function |
| `SlotTables.SlotArena.AllocData` | src/runtime/session.c:374-384 | takes whole cache lines from the top of the arena or refuses |
| `Lifetimes.MemoryIsPinned` | src/runtime/session.c:1399-1515 | over any run of frames each execution of a group follows the last one in which it mounted: the same requests get the same addresses in the same order if that one began at the first slot and got all it asked for, whatever calls lie between the requests and whatever other groups do; after a restart at a later slot no request is answered |
| `Lifetimes.MemoryIsSame` | src/runtime/session.c:1484-1511 | a group whose mount got all its memory gets the same addresses in every later execution for as long as its body makes the same requests |
| `Lifetimes.ResizeStartsOver` | src/runtime/session.c:1498-1506 | after a change of size the next execution with the new requests is answered if and only if the change was at the first slot, and then with the addresses of the restart |
| `Lifetimes.LateResizeLosesMemory` | src/runtime/session.c:1498-1506 | two slots, the second one grown: the first address is handed out twice, and the next execution is refused its first request |
| `Lifetimes.RunStaysSound` | src/runtime/session.c:838-949 | over any run of frames no two groups share an identity, none is handed out twice, slots stay sorted, disjoint and counted, no group holds two slots for one request, and no slot, hook or subscription names a group that is not in the tree |
| `Lifetimes.SoundIsUnique` | src/runtime/session.c:1484-1497 | in a sound session the answer to a lookup is unique |
| `Lifetimes.StartIsSound` | src/runtime/session.c:528-619 | a session that has composed nothing, with no hooks and no subscriptions, is sound |
| `Lifetimes.PassPlaces` | src/runtime/session.c:1399-1482 | a pass keeps the slots sorted, disjoint, 8-aligned and below the limit, with the used count their total size |
| `Leaks.PassTidies` | src/runtime/session.c:1059-1102 | a pass leaves no slot, hook or subscription for a group or key that is not in the tree it leaves |
| `Pinning.MountHolds` | src/runtime/session.c:1418-1482 | a mount that gets all its memory leaves one slot for each request, whatever children are called in between |
| `Pinning.RerunHolds` | src/runtime/session.c:1484-1511 | a group that runs again keeps its slots unless a size has changed; then its slots are those requested from there on |
| `Pinning.RecallSame` | src/runtime/session.c:1484-1511 | a group that holds a slot for each request gets their addresses, in order, whatever children are called in between |
| `Pinning.PassKept` | src/runtime/session.c:1205-1383 | over a whole pass the history of a group and the slots it holds stay in step |
| `Executions.PassCounted` | src/runtime/session.c:1136-1383 | the executions that these theorems speak of are those that the pass ran, one for one |
| `Executions.PassNeeded` | src/runtime/session.c:1271-1289 | a group whose body runs in a pass is the root, was dirty, or is new |
| `Executions.PassRunsOnce` | src/runtime/session.c:1205-1383 | no body runs twice in one pass for the same group |
| `Specimen.SampleComposes` | src/runtime/session.c:838-949 | a screen that watches a cell and calls a label with memory and a destructor: the program and the empty session meet what the theorems about runs ask for, and the first frame ends done within all capacities |
| `Specimen.LabelKeepsDestructor` | src/runtime/session.c:1908-1923 | the label of that frame, dirty again: it meets what the theorem about executions that run again asks for, and keeps its destructor |
| `Pinning.ExecElsewhere` | src/runtime/session.c:1205-1383 | a pass leaves the slots of every group alone that neither runs in it nor is pruned by it |
| `ArenaFacts.Pinned` | src/runtime/session.c:1399-1482 | no run of requests and releases by other groups moves a group's slots |
| `Registry.StateRegistry.FindCell` | src/runtime/state.c:36-46 | the scan finds the first cell in use with the id |
| `Registry.StateRegistry.GetOrCreateCell` | src/runtime/state.c:61-122 | resolves an existing cell and changes nothing; creates a missing one while there is room in the registry and memory for its buffers, showing the given value, clean and without watchers; refuses otherwise |
| `Registry.StateRegistry.Watch` | src/runtime/state.c:136-174 | adds one watcher, once, while there is room, and returns the published value |
| `Registry.StateRegistry.Mutate` | src/runtime/state.c:213-253 | stages the value and queues every watcher not queued yet, while there is room |
| `Registry.StateRegistry.PublishDirty` | src/runtime/state.c:264-276 | copies exactly the dirty back buffers |
| `Registry.StateRegistry.UnsubscribeKey` | src/runtime/state.c:288-310 | removes every occurrence of a key by shifting |
| `Registry.StateRegistry.RetireCell` | src/runtime/state.c:381-396 | gives a cell back when its state instance unmounts |
| `Snapshots.CreateShows` | src/runtime/state.c:61-122 | a created cell shows the value it was given, and every other cell shows what it did |
| `Snapshots.RetireForgets` | src/runtime/state.c:381-396 | a retired cell is found no more and watched by nobody; all others are undisturbed |
| `Snapshots.RunStaysSound` | src/runtime/state.c:61-310 | over any run: clean cells show what they last staged, ids in use are unique, nobody watches a cell twice |
| `Snapshots.ReadsAgree` | src/runtime/state.c:136-174 | between two publications all reads of a cell agree |
| `Snapshots.LastMutationWins` | src/runtime/state.c:213-276 | publication shows the last mutation, whatever came in between |
| `Snapshots.FrontIsStable` | src/runtime/state.c:213-253 | front buffers change only in publication, creation and retirement |
| `Snapshots.SubscribeRecords` | src/runtime/state.c:157-169 | a subscription is recorded if and only if the cell exists and its list has the group or room for it |
| `Snapshots.AllScheduled` | src/runtime/state.c:236-248 | a mutation schedules every watcher if and only if those not queued yet fit into the queue |
| `State.EnqueueAdds` | src/runtime/state.c:236-248 | scheduling keeps what is queued, adds given keys only, each once, and leaves one out only when the queue is full |
| `Snapshots.FullQueueLoses` | src/runtime/state.c:245-247 | a full queue loses a watcher |
| `State.SubscribeAdds` | src/runtime/state.c:157-169 | subscribing changes no value and no other subscription |
| `State.UnsubscribeRemoves` | src/runtime/state.c:288-310 | unsubscribing removes exactly the subscriptions of one key |
| `DualTables.SlotTable.MoveGapTo` | src/runtime/slot_table.c:663-737 | moving both gaps to any index keeps every group, its words and the slot index rule when the groups fit into the gap and only zero words are overwritten and cleared; a table whose groups have keys keeps them only then |
| `DualTables.WipingMove` | src/runtime/slot_table.c:699-700 | two groups and one free record: moving the gap to the front wipes the first group |
| `DualTables.SlotTable.WordStored` | src/runtime/slot_table.c:557-579 | a group's words are found from its slot index wherever the gap is |
| `DualTables.RaisedKeepsIff` | src/runtime/slot_table.c:689-700 | a move keeps what it moves if and only if only blank elements come to lie where it clears |
| `DualTables.LoweredKeepsIff` | src/runtime/slot_table.c:719-730 | the same for a move to the right |
| `DualTables.KeyedGroupsFit` | src/runtime/slot_table.c:675-703 | groups with keys survive a move to the left if and only if they fit into the gap |
| `DualTables.KeyedGroupsFitBack` | src/runtime/slot_table.c:704-734 | the same for a move to the right |
| `DualTables.SlotTable.Get` | src/runtime/slot_table.c:175-195 | logical indices resolve to records on both sides of the gap, or to nothing |
| `DualTables.SlotTable.OpenGroup` | src/runtime/slot_table.c:789-812 | inserting a group at the gap keeps every other group's words |
| `DualTables.SlotTable.AppendWord` | src/runtime/slot_table.c:925-936 | puts a word at the gap and counts it, modulo the counter; added to the last group it keeps the slot index rule for all groups |
| `DualTables.SlotTable.NextWord` | src/runtime/slot_table.c:557-579 | the place where a reader looks for the next word of a group is the gap of words if and only if no group behind it, in front of the gap, has words |
| `DualWriter.SlotWriter.GroupStart` | src/runtime/slot_table.c:775-819 | opens a group at the gap or refuses |
| `DualWriter.SlotWriter.SlotWrite` | src/runtime/slot_table.c:903-938 | writes one word and counts it for the open group; a reader looks for it there if and only if no child written so far has words |
| `DualWriter.SlotWriter.NodeEmit` | src/runtime/slot_table.c:875-893 | counts nodes for the open group, modulo the counter |
| `DualWriter.SlotWriter.GroupEnd` | src/runtime/slot_table.c:827-866 | fills in the subtree size and hands the nodes to the parent |
| `DualWriter.WriteDoc` | src/runtime/slot_table.c:775-938 | writing any forest at the gap, with nodes emitted before, between and after the children of each group, puts exactly its preorder encoding there and moves nothing else |
| `DualWriter.NodesAreEmitted` | src/runtime/slot_table.c:827-893 | the node count of a group is the number of nodes emitted between its start and its end, in whatever groups below it |
| `DualReader.SlotReader.GroupStart` | src/runtime/slot_table.c:447-476 | enters the next group within the end bound |
| `DualReader.SlotReader.GroupEnd` | src/runtime/slot_table.c:484-516 | goes back to the parent and its end bound |
| `DualReader.SlotReader.GroupSkip` | src/runtime/slot_table.c:524-544 | steps over a subtree in one move |
| `DualReader.SlotReader.SlotRead` | src/runtime/slot_table.c:553-579 | reads the words of the entered group one by one |
| `DualReader.WalkGroup` | src/runtime/slot_table.c:447-544 | entering a group, walking its subtree and leaving it ends where skipping it would, whatever groups are invalidated: same next group, parent and end bound |
| `DualReader.RoundTrip` | src/runtime/slot_table.c:775-938 | whatever forest is written, a reader finds every key, user word, slot word, subtree size and summed node count if and only if every subtree has fewer than 65,536 groups below its root |
| `DualReader.ReadForest` | src/runtime/slot_table.c:447-579 | a reader that stands at a written forest finds it if and only if its sizes could be stored, whatever groups are invalidated; from any place it ends and stays within the table |
| `DualReader.WideIsLost` | src/runtime/slot_table.c:827-866 | a group with 65,536 children is written without complaint and not found again; with one less it is |
| `DualReader.RoundTripMoved` | src/runtime/slot_table.c:663-938 | the same after the gaps have been moved anywhere they have room to go, by the condition of SlotTable.MoveGapTo on the table that the forest is written as |
| `DualFlags.GroupInvalidate` | src/runtime/slot_table.c:244-278 | marks the group and no other, tells its parent, and leaves every field of every group but the flags as it is; the climb stops at the first marked ancestor, a dangling link or the step limit |
| `DualFlags.InvalidatesExactly` | src/runtime/slot_table.c:244-278 | in a table whose dirtiness is upward closed, afterwards the target is invalid, exactly the groups above it have been told in addition, and nothing else has changed |
| `DualFlags.RunMarksExactly` | src/runtime/slot_table.c:244-278 | over any run of invalidations exactly the targets become invalid, exactly the groups above one of them are told, and nothing else changes |
| `DualFlags.RunsAgree` | src/runtime/slot_table.c:260-275 | over any run of invalidations early stops give the flags of full climbs and keep dirtiness upward closed |
| `DualFlags.FreshRunsAgree` | src/runtime/slot_table.c:260-275 | the same for every table that has been written: its links point backwards, nothing is dirty, and the forest stays written |
| `DualFlags.EarlyStop` | src/runtime/slot_table.c:260-275 | one early stop loses nothing, and the step bound is never what ends the climb |
| `DualFlags.ClearAllFlags` | src/runtime/slot_table.c:306-319 | clears every flag and nothing else |
| `DualFlags.ClearFlags` | src/runtime/slot_table.c:289-299 | clears the flags of one group, or of none when the index is out of range |
| `DualFlags.ClearKeepsUpwardIff` | src/runtime/slot_table.c:260-299 | after clearing one group early stops still lose nothing if and only if no child of it is dirty |
| `DualFlags.ClearedRootMissesMark` | src/runtime/slot_table.c:260-299 | root, child and grandchild: when the root alone is cleared, the next invalidation of the grandchild stops at the child and the root never learns of it |
| `DualFlags.GroupsShiftParents` | src/runtime/slot_table.c:332-357 | shifts exactly the affected links of all groups outside the gap, modulo the 32 bits of a link |
| `DualFlags.InsertKeepsLinks` | src/runtime/slot_table.c:332-357 | after an insertion every group names the parent it had |
| `DualFlags.RemoveSubtreeKeepsLinks` | src/runtime/slot_table.c:332-357 | after the removal of any group's subtree from a written table, whatever has been invalidated since, every surviving group names the parent it had, which has survived |
| `DualFlags.StandsSubtree` | src/runtime/slot_table.c:827-866 | in a written table a subtree is exactly the run of groups that its size says: no link from outside leads into it |
| `Events.EventQueue.Emit` | src/runtime/event.c:118-155 | queues a record without readers that holds the whole payload, or its first 128 elements when it has more, and schedules the local listeners; refuses if and only if 64 records are queued |
| `Events.EventQueue.Signal` | src/runtime/event.c:169-208 | the same for a signal, and schedules the root of the receiving session while there is room |
| `Events.EventQueue.Register` | src/runtime/event.c:53-79 | a group's scopes for an event type accumulate in one entry |
| `Events.EventQueue.Poll` | src/runtime/event.c:274-307 | reads the first due record from the front |
| `Events.EventQueue.Next` | src/runtime/event.c:321-352 | reads the next due record after the cursor |
| `Events.EventQueue.Receive` | src/runtime/event.c:274-352 | the polling loop delivers exactly the due records, in queue order, and notes the group as their reader |
| `Events.DeliversWanted` | src/runtime/event.c:274-352 | what a group receives are the payloads of exactly the records of the type and scopes asked for that do not name it as a reader, each once and in the order of posting |
| `Events.EventQueue.RetireConsumed` | src/runtime/event.c:362-382 | in-place compaction keeps exactly the unread records, in order |
| `Events.RepeatIsEmptyIff` | src/runtime/event.c:286-298 | asking again yields nothing if and only if every delivered record had room for one more reader |
| `Events.NinthReaderRepeats` | src/runtime/event.c:297-299 | with eight readers noted, a ninth group gets the record again and again |
| `Events.OthersUnaffected` | src/runtime/event.c:286-298 | what one group receives takes nothing away from another |
| `Events.RetireKeepsUnread` | src/runtime/event.c:362-382 | after a delivery and retirement exactly the unread records that did not match are left |
| `Events.UnreadEach` | src/runtime/event.c:362-382 | whether a record outlives a retirement depends on its read count alone, and those that do keep their order |
| `Deliveries.RunRetiresRead` | src/runtime/event.c:118-382 | the same for every queue that posts, receptions by any groups and retirements lead to: a record has been read if and only if it names a reader |
| `Deliveries.ExactlyOnceIff` | src/runtime/event.c:118-382 | over any run with any number of groups, every event that the queue takes up is given to a group, still waits for it, or was taken away by a retirement after others had read it, exactly once in all, if and only if there was room to note the group whenever it asked |
| `Events.AskersAreWoken` | src/runtime/event.c:61-78 | a group that asks for an event is among the listeners of the next one if and only if the listener table had room, or an entry of the group for that event |
| `Events.RegisterListensIff` | src/runtime/event.c:53-79 | asking adds the type and scopes asked for to what the group listens for, if and only if there is room or an entry, and changes nothing else that it or another group listens for |
| `Events.WakesListeners` | src/runtime/event.c:146-152 | an event wakes exactly the groups that listen for its type and scope |
| `Events.WokenAreScheduled` | src/runtime/event.c:146-152 | the listeners are all scheduled if and only if those not scheduled yet fit into the queue |
| `Transactions.CommitReplays` | src/runtime/session.c:1648-1810 | a commit hands over exactly the accepted operations in staging order, each with its original bytes if and only if the caller brought the bytes it claimed |
| `Transactions.AllAcceptedIff` | src/runtime/session.c:1648-1676 | requests that bring the bytes they claim are all accepted if and only if there is room for their operations and for their bytes |
| `Transactions.PayloadsDisjoint` | src/runtime/session.c:1665-1676 | the payload of a request that brought its bytes overlaps no later one |
| `Transactions.NullPayloadAliases` | src/runtime/session.c:1665-1669 | a null payload with a size shares its range with the next payload |
| `Transactions.ReadyIsStable` | src/runtime/session.c:1820-1852 | after a swap nothing staged or committed changes the ready batch until it is cleared or swapped again |
| `Transactions.Batch.Stage` | src/runtime/session.c:1648-1777 | staging into the byte arena refines the staging function; a request is refused if and only if the batch holds 1,024 operations or its bytes do not fit, and then changes nothing |
| `Transactions.Batch.Commit` | src/runtime/session.c:1790-1810 | the replay loop hands the operations over in order and empties the batch |
| `Transactions.TransactionQueue.Stage` | src/runtime/session.c:1648-1777 | staging goes to the active batch and leaves the ready batch alone |
| `Transactions.TransactionQueue.Commit` | src/runtime/session.c:1790-1810 | hands over and empties the active batch and leaves the ready batch alone |
| `Transactions.TransactionQueue.ClearReady` | src/runtime/session.c:1846-1852 | empties the ready batch and leaves the active batch alone |
| `Transactions.TransactionQueue.Swap` | src/runtime/session.c:1820-1826 | exchanges the batches and empties the new active one |

## Left out

- Several attached compositions and their lifecycle predicates: one root is modelled; `CelsPruneSubtreeByKey` and `CelsSessionDestroy`, which prune from outside a pass, are the same prune with another caller.
- Hot reload, the synthesized key 0, the ambient session and the group identity overflow assertion (identities are unbounded).
- Sessions.Session.EnterComposable: asks that fewer than 64 groups are open. At 64 the code means to skip the child, but writes one element past the end of its stacks, so there is no behaviour to model.
- Sessions.Session.RunPass: the predicate that may prune a composition instead of running it is left out.
- Sessions.Session.Recompose: the completion hook and the retirement of events at its end are left out; retirement is modelled on its own in `Events.EventQueue.RetireConsumed`.
- Group sizes of a session are 16 bits wide in the code; the model assumes a table of at most 65,536 records, so that they do not wrap.
- Bytes in the slot arena, initial values and constructor callbacks: slots are offsets and sizes. Destructors are entries in a log and call nothing back, so a state cell is not retired by the destructor of its instance (`Registry.StateRegistry.RetireCell` is modelled on its own).
- `CelsGetState`, which looks a key up among cells, hooks and group records in turn.
- Mutations of state inside tasks and event handlers during a pass; creation of cells during a pass.
- Sessions.Session.EnterComposition: the code prunes a foreign tree and calls itself; the model prunes and goes on, which reaches the same state.
- Sessions.Session.ResolveSlot: when no slot matches, the code asserts; the model records that the request was starved and returns no memory. The bytes written into a fresh slot are left out.
- ArenaFacts.ReleaseKeeps: the used count saturates at zero where the code would wrap; on well placed arenas, the only ones reachable without raw allocations over holes, neither happens.
- DualWriter.WriteDoc: the words of a group are written before its children, and there are fewer than 65,536 of them; what a later word does is stated of `SlotWrite` alone.
- DualTables.SlotTable.MoveGapTo: when the move does not fit, what happens to the arrays is stated, not a new layout.
- DualFlags.InsertKeepsLinks: for tables of fewer than 2^32 - 1 groups, which is what a link can name.
- Reader and writer counts of the stand-alone table, its lookup by key, and slots set by index.
- Events.EventQueue.Emit: null payloads and the task fibers that wait for events are left out; broadcasts, whose fallback does not reset the readers of a reused record.
- Transactions.Batch.Stage: the four staging functions are one method over two kinds of request.
- Dynamic library loading, fibers and tasks, threads, logging, transitions, module and session registries, profile tables, slab carving, DSL macros, examples, reports and the terminal UI: operating system work, clocks, or table lookups with nothing hard to prove.
