# Storage stack of the kernel, modelled and proved in Dafny

The kernel keeps two file systems: a small xv6 one with a redo log and a buffer cache, and a port of
lwext4 with a JBD journal, extent trees, indirect block maps, bitmap allocators, a write-back block
cache and linear directories. This project states what each of these parts is for and proves that its
code does it, for every input and every sequence of calls. Beside the storage stack it models the
counting semaphore built on a condition variable.

`dafny verify dfyconfig.toml` checks all of it.

## Parts

**Extent tree** (`Extent*.dfy`). A tree is a map from block address to node, with address 0 for the root
inside the inode. A ghost layout gives every node the range of logical blocks it is responsible for; the
invariant `TreeOk` ties nodes, layout and an abstract map from logical to physical blocks together one
node at a time. `ExtentInsert` is the class of in-place operations from search to `ext4_extent_get_blocks`;
`ExtentTruncate` is the walk of `ext4_extent_remove_space`; `ExtentLoss` says what an insertion that runs
out of blocks leaves behind.

**JBD journal** (`Jbd*.dfy`). Blocks are sequences of 32-bit words, tags and revoke records are laid out in
them word by word as in section 3.6 (Journal, jbd2) of the Linux kernel document "ext4 Data Structures
and Algorithms". `JbdLog` defines which records a log holds and what replaying them means, `JbdRecover`
proves the three passes of recovery against that, `JbdRerun` covers interrupted recovery and uncommitted
tails, `JbdMount` the superblock across mounts. `JbdJournal` is the writer with its ring and checkpoint queue,
`JbdTrail` follows the superblock on disk where it lags behind, `JbdSession` joins the two sides: what the writer
has put on the ring is what recovery reads, at every stage of a commit. The writer records the disk after each
single write of a ring block or the superblock; `JbdStory` says what recovery finds on each of these, so that
`Journal.Commit` is atomic over all of them. `JbdCrash` has the crash theorems and whole runs over two sessions.

**xv6 log** (`Xv6*.dfy`). Each disk write is one state of a trace. The methods are proved to produce exactly the
traces, and crash atomicity is a theorem about the traces. `Xv6Counts` is the bookkeeping of operations and
their shares over all sequences of calls, `Xv6Commit` a commit through the buffer cache.

**Indirect block map** (`Indirect*.dfy`), **block cache** (`BlockCache.dfy`, `BlockDevice.dfy`), **allocator**
(`Bitmap.dfy`, `Balloc.dfy`), **directory blocks** (`DirBlock.dfy`), **file read** (`FileRead.dfy`), **xv6 buffer
cache** (`BufList.dfy`, `BufCache.dfy`) and **semaphore** (`Semaphore.dfy`) each have a simple counterpart: a map,
a plain disk, sets of clear bits with exact counts, a name-to-inode map, the bytes of the file, the list of
buffers by time of release, and a balance of waits and signals.

## What the code does not do

These are properties one would expect and that do not hold. Each comes with the exact condition under
which it does hold and with an input, or all inputs, for which it fails. The model follows the code.

- The prepend merge of the extent tree moves the first block of an extent but not its physical start
  (kernel/fs/ext4_extent.c:1274-1286). `PrependMisplaces` shows this for every such insertion; `GetBlocks` is
  right if and only if the found extent cannot take the new block as a prepend.
- A split that runs out of blocks half way frees its new nodes but does not move the entries back
  (kernel/fs/ext4_extent.c:1117-1136). `InsertExtent` and `GetBlocks` say exactly when this happens and what is
  lost; `SplitLoses` is a concrete file.
- Truncating an extent file from inside a hole does nothing (kernel/fs/ext4_extent.c:1719-1722); `RemoveSpace`
  has the condition, `TruncateInHole` an instance.
- `log_write` checks for a full log before it looks whether the block is logged already, so an absorbed
  write can panic (kernel/fs/log.c:219-242): `LogWrite` and `AbsorbingWritePanics`. In a log of at most LOGSIZE
  blocks, such as the one made by mkfs/mkfs.c:27, a new block within the share of its operation can panic too,
  and in a larger one a commit can find every buffer pinned: `ShareSafeIff`, `Xv6Commit.Commit`, `NoSafeSize`.
- `jbd_journal_stop` writes sequence 0, so the next session uses the same transaction ids again and a
  complete transaction of an earlier session can follow the newest one on the ring. The comment in
  `jbd_journal_start` means to rule such stale records out by going on from the previous session's id.
  The same happens inside a transaction: if only part of it is on the ring, an old commit block just behind
  makes recovery take the part for the whole. `QueueReads` and `DiskReads` are the exact condition at every
  moment of a session, `TwoSessions` a whole run that fails it between transactions and `TornCommit` one that
  meets it there and fails it in the middle of a commit.
- Recovery puts the logged mount count on disk, so after an interruption the superblock can end up with
  another mount count. `RerunSuper` is the exact condition, `SuperblockDiffers` an instance; home blocks
  always end up the same (`RerunSame`).
- Checkpointing copies an escaped block from the ring without its first word
  (kernel/fs/ext4_journal.c:1330-1341): `CheckpointCopies` and `EscapedCheckpoint`.
- Deleting a file frees no block that is mapped behind its end: `DeleteInode` and `LeakedBlock`. `Append` and
  `Truncate` map none there, so this needs an inode that other software has left.
- Reading fills a hole with zeros only where it does not begin with a whole block; elsewhere the hole shows
  the block behind it or device block 0: `FileRead.Read` and `HoleReadsAsNext`.
- The unaligned beginning of the bitmap search reports its start instead of the clear bit it has seen
  (kernel/fs/ext4_bitmap.c:98-106). `AnswerIsClear` is the exact condition, and `HeadSeen` shows why the
  allocator always meets it.
- Where the first data block is 1, the last group is counted one block too long (kernel/fs/ext4_super.c:64-77),
  so a clear padding bit there would be handed out as a block behind the device: `OnDevice` and `BehindDevice`.
- A ranged free takes a group's part from the size of the bitmap block. `FreeBlocks` is exact if and only if
  the range lies in one group or the bitmap block has one bit per block of a group; `Spilled` is what happens
  otherwise.
- `ext4_bcache_invalidate_lba` does nothing when the first block of the range is not cached:
  `InvalidateRange` and `DirtyBlockSurvives`.

One comment disagrees with its code: replay takes a copy only if its transaction is later than the
revocation of its block, where kernel/fs/ext4_journal.c:895-896 admits one of the same transaction too.

## Model

| member | source | states |
|---|---|---|
| ExtentInsert.BinsearchIdx | kernel/fs/ext4_extent.c:799-816 | the in-place binary search over index keys finds the last entry at or before the block, or entry 0 |
| ExtentInsert.Binsearch | kernel/fs/ext4_extent.c:823-848 | the same for the extents of a leaf, including the empty leaf |
| ExtentNodes.BlockCapIs | kernel/fs/ext4_extent.c:511-537 | a node block has a 12-byte header and as many 12-byte entries as fit behind it |
| ExtentSteps.FileBlockIsMap | kernel/fs/ext4_extent.c:850-934 | in a well-formed tree, walking from the root to a leaf returns for every logical block exactly what the abstract block map says, holes included |
| ExtentSteps.SameDepthApart | kernel/fs/ext4_extent.c:850-934 | two nodes of the same depth never own a common logical block |
| ExtentInsert.ExtentFile.FindExtent | kernel/fs/ext4_extent.c:850-934 | the path array is a chain from root to leaf, every node of it owns the block, and its last position is where the search ends |
| ExtentInsert.PathLeaf | kernel/fs/ext4_extent.c:2041-2079 | a block is mapped if and only if the extent at the end of its search path covers it |
| ExtentInsert.ExtentFile.CorrectIndexes | kernel/fs/ext4_extent.c:1143-1187 | after the first extent of a leaf changed, rewriting keys upwards for as long as the entry is the first one restores the whole tree invariant |
| ExtentSteps.KeyRepairUp | kernel/fs/ext4_extent.c:1168-1184 | repairing one key moves the only violation of the invariant one level up |
| ExtentInsert.ExtentFile.InsertLeaf | kernel/fs/ext4_extent.c:1245-1341 | append merge and separate insertion give the old map plus exactly the new range; the prepend merge and the full leaf are told apart exactly |
| ExtentSplit.PrependMisplaces | kernel/fs/ext4_extent.c:1274-1286 | for every tree and extent that take the prepend branch, the new logical block does not read as the block allocated for it |
| ExtentInsert.ExtentFile.InsertIndex | kernel/fs/ext4_extent.c:945-999 | refuses a duplicate key or a full node without change; otherwise inserts the entry on the right side of the current one |
| ExtentSteps.LeafSplitKeeps | kernel/fs/ext4_extent.c:1036-1068 | moving the extents behind the current one to a new leaf keeps structure and map, with one entry still owed to the parent |
| ExtentSteps.InnerSplitKeeps | kernel/fs/ext4_extent.c:1069-1101 | splitting an index node passes the owed entry on to the next level and keeps structure and map |
| ExtentSplit.SplitLoopEnd | kernel/fs/ext4_extent.c:1103-1115 | linking the topmost new node pays the owed entry; the tree is whole again and the chosen leaf has room |
| ExtentInsert.ExtentFile.SplitNode | kernel/fs/ext4_extent.c:1001-1136 | fails with ENOSPC if and only if there are fewer free blocks than levels to split, and then leaves exactly the path nodes split so far cut behind the path; otherwise the tree maps what it mapped and the new path leads to a leaf with room |
| ExtentInsert.ExtentFile.GiveUp | kernel/fs/ext4_extent.c:1117-1136 | frees the nodes made so far and leaves exactly the path nodes split so far cut behind the path |
| ExtentSteps.GrowKeeps | kernel/fs/ext4_extent.c:1374-1403 | moving the root into a block below a one-entry root keeps structure, capacities and map |
| ExtentInsert.ExtentFile.GrowInDepth | kernel/fs/ext4_extent.c:1351-1413 | grows the tree by one level, or reports ENOSPC without any change |
| ExtentInsert.ExtentFile.MakeRoom | kernel/fs/ext4_extent.c:1439-1482 | ENOSPC if and only if there are fewer free blocks than full nodes at the end of the path; otherwise the extent fits into the leaf the path then leads to; exactly the blocks taken for nodes have left the allocator |
| ExtentInsert.ExtentFile.InsertExtent | kernel/fs/ext4_extent.c:1425-1509 | inserting an extent disjoint from all others retries at most once; without the prepend merge the tree stays sorted, separator-correct, uniform in depth and within capacity and maps the old map plus exactly the new range; ENOSPC has an exact condition and an exact outcome; the blocks that have left the allocator are exactly the new nodes |
| ExtentInsert.ExtentFile.GetBlocks | kernel/fs/ext4_extent.c:2008-2134 | a mapped block is returned unchanged, with the number of blocks that follow it in its extent, up to the wanted number; a created block makes every lookup equal the old one plus the new block if and only if the found extent cannot take it as a prepend; ENOSPC has an exact condition and outcome. No device block is ever used twice, as data, node or free block; it is merged with the extent found exactly if it follows that one logically and on the device and the extent is not at its maximum |
| ExtentInsert.ExtentFile.CreateBlock | kernel/fs/ext4_extent.c:2096-2112 | allocation and insertion of one block, with the exact conditions for ENOSPC and for a wrong mapping. On success the block and the new nodes have left the allocator and nothing else has; on failure the block is back in it |
| ExtentInsert.UsedOnceMore | kernel/fs/ext4_extent.c:2096-2112 | a block from the allocator is used for nothing else, whether it stays allocated or is given back |
| ExtentInsert.ExtentBlocks | kernel/fs/ext4_extent.c:2041-2054 | the blocks of one extent follow each other on the device |
| ExtentInsert.Extended | kernel/fs/ext4_extent.c:2008-2134 | one more pair in the abstract map is one more answer for every reader and no other change |
| ExtentLoss.PrunedRemains | kernel/fs/ext4_extent.c:1117-1136 | after a split that ran out of blocks, exactly the blocks between the cut and the end of the topmost cut node read as holes, and nothing is lost if and only if the path stood at the last entry of every node cut |
| ExtentLoss.GrownRemains | kernel/fs/ext4_extent.c:1444-1461 | the same when the root had grown before the split ran out of blocks |
| ExtentLoss.LosesSome | kernel/fs/ext4_extent.c:1117-1136 | if some cut node was not at its last entry, a mapped block is lost |
| ExtentLossCase.SplitLoses | kernel/fs/ext4_extent.c:1117-1136 | a concrete well-formed file with one free block for which the insertion must run out of blocks and cannot keep the file; 83 mapped blocks are lost |
| ExtentTruncate.RemoveLeaf | kernel/fs/ext4_extent.c:1574-1680 | removes from a leaf exactly the part at or above the start block and frees exactly the data blocks of that part, in logical order |
| ExtentTruncate.RemoveIdx | kernel/fs/ext4_extent.c:1527-1572 | removes the entry of an emptied node, frees that node, and passes a changed first key upwards; the resulting nodes exactly |
| ExtentSweep.SweepStart | kernel/fs/ext4_extent.c:1751-1777 | the path to the start block is a valid starting state of the sweep |
| ExtentSweep.SweepDown | kernel/fs/ext4_extent.c:1779-1801 | going down to the next child keeps the sweep state |
| ExtentSweep.PopKept | kernel/fs/ext4_extent.c:1802-1818 | leaving a node that keeps entries moves past its entry |
| ExtentSweep.PopRemoved | kernel/fs/ext4_extent.c:1802-1818 | leaving an emptied node removes its entry and the node, and the sweep state holds with the boundary moved to the end of its range |
| ExtentSweep.SweepEnd | kernel/fs/ext4_extent.c:1751-1820 | when the root is done, the tree is the old one cut at the start block |
| ExtentCut.CutKeeps | kernel/fs/ext4_extent.c:1822-1831 | a tree cut at a block, with an emptied root reset to depth 0, is well formed and maps exactly the blocks below |
| ExtentTruncate.GoUp | kernel/fs/ext4_extent.c:1802-1818 | one step up of the walk keeps the walk invariant, with the emptied node added to the freed nodes |
| ExtentTruncate.VisitLeaf | kernel/fs/ext4_extent.c:1753-1775 | one leaf visit keeps the walk invariant and moves the boundary strictly forward |
| ExtentTruncate.VisitIndex | kernel/fs/ext4_extent.c:1777-1820 | one index visit keeps the walk invariant and comes strictly closer to the next leaf |
| ExtentTruncate.WalkRight | kernel/fs/ext4_extent.c:1751-1820 | the walk over the rest of the tree terminates with the cut tree, all data blocks from the start block on freed in order, and every emptied node freed once |
| ExtentTruncate.RemoveSpace | kernel/fs/ext4_extent.c:1699-1839 | truncation to the end from a mapped block keeps exactly the mappings below it and frees each removed data block and each emptied node exactly once; it does what truncation should if and only if the block is mapped or nothing lies at or above it. What is freed was used once and is used no more |
| ExtentTruncate.TruncateInHole | kernel/fs/ext4_extent.c:1716-1722 | a concrete file for which truncation from a hole must remove a block |
| JbdLog.IdDiffIs | kernel/fs/ext4_journal.c:108-112 | the signed 32-bit difference orders ids correctly across wrap-around while they are less than 2^31 apart |
| JbdFormat.TagLayout | kernel/fs/ext4_journal.c:647-716 | a tag read from its words: address, flags and size with and without the 64-bit feature and the uuid |
| JbdFormat.RevokeLayout | kernel/fs/ext4_journal.c:999-1031 | the addresses of a revoke block read from its words, with their number from the byte count |
| JbdLog.CommittedIs | kernel/fs/ext4_journal.c:1149-1169 | a record takes part in recovery if and only if its transaction has a commit record |
| JbdLog.SkippedIs | kernel/fs/ext4_journal.c:956-977 | looking a block up in the table of latest revocations is the same as searching all revocations of the log |
| JbdLog.ReplayUntouched | kernel/fs/ext4_journal.c:880-950 | a block all of whose copies are revoked keeps its contents |
| JbdLog.ReplayLast | kernel/fs/ext4_journal.c:880-950 | a block ends with its last copy that is not revoked, with the magic word restored |
| JbdRecover.Recovery.ReplayTag | kernel/fs/ext4_journal.c:880-950 | puts one copy back unless its block was revoked at or after its transaction |
| JbdRecover.Recovery.IterateTable | kernel/fs/ext4_journal.c:813-853 | visits exactly the tags of a descriptor, each with the ring block that follows in order and across the wrap |
| JbdRecover.Recovery.BuildRevokeTree | kernel/fs/ext4_journal.c:999-1031 | enters every address of a revoke record under its transaction |
| JbdRecover.Recovery.IterateLog | kernel/fs/ext4_journal.c:1062-1210 | each of the three passes ends with EOK after the same records; the last id and the count of the scan are those of the committed prefix |
| JbdRecover.Recovery.Recover | kernel/fs/ext4_journal.c:1215-1254 | for every log whose records fit once round the ring, each home block holds its last copy from a committed transaction later than every committed revocation of it, or is untouched; an empty journal changes nothing. The file system superblock is the last one replayed, or else the one in memory, with the state and mount count of the running system and without the needs-recovery flag; no other bit differs |
| JbdRecover.ReplayRestores | kernel/fs/ext4_journal.c:880-950 | replaying the committed copies against the revoke table gives that result for every home block |
| JbdRecover.ReplayRestoresSuper | kernel/fs/ext4_journal.c:928-945 | the file system superblock in memory takes the logged contents but keeps its own state and mount count, and the needs-recovery flag is cleared |
| JbdRerun.RerunSame | kernel/fs/ext4_journal.c:1215-1254 | recovery after an interrupted recovery ends with the same home blocks |
| JbdRerun.PrefixInterrupts | kernel/fs/ext4_journal.c:880-950 | stopping after any number of copies is such an interruption |
| JbdRerun.TailIrrelevant | kernel/fs/ext4_journal.c:1062-1210 | records of the first transactions depend only on the ring up to the end of the last of them |
| JbdRerun.UncommittedIgnored | kernel/fs/ext4_journal.c:1062-1210 | what lies behind the last commit record has no effect on recovery |
| JbdMount.ReplayLastSuper | kernel/fs/ext4_journal.c:928-945 | the last superblock replayed is on disk with its own mount count |
| JbdMount.RerunSuper | kernel/fs/ext4_fs.c:107-120 | recovery stopped after any number of copies and repeated with the next mount leaves the same superblock if and only if no superblock was replayed before the stop or the last one has the mount count that was on disk |
| JbdMountCase.SuperblockDiffers | kernel/fs/ext4_journal.c:928-945 | a journal with one logged superblock and a stop behind it for which the superblocks differ |
| JbdTags.WriteTag | kernel/fs/ext4_journal.c:725-803 | a written tag is read back as itself, for both tag sizes and with or without uuid, and everything before it is unchanged; the uuid follows it and nothing behind is touched |
| JbdTags.TableRead | kernel/fs/ext4_journal.c:813-853 | a table whose final tag alone is marked last, or that fills its block, is read back as exactly its tags |
| JbdText.DescriptorsRead | kernel/fs/ext4_journal.c:1806-1992 | descriptor blocks with their data blocks read back as exactly the copies written |
| JbdText.RevokesRead | kernel/fs/ext4_journal.c:1999-2083 | revoke blocks read back as exactly the addresses listed |
| JbdHistory.TxnRead | kernel/fs/ext4_journal.c:1062-1210 | a complete transaction on the ring reads back as its copies, its revocations and one commit |
| JbdHistory.RunRead | kernel/fs/ext4_journal.c:1062-1210 | consecutive transactions read back one after the other |
| JbdHistory.WholeRun | kernel/fs/ext4_journal.c:1062-1210 | a ring that holds a run of transactions and no next one reads back as exactly that run |
| JbdHistory.RunRestored | kernel/fs/ext4_journal.c:1215-1254 | recovering such a ring leaves each block with its newest contents from the run that no later transaction revoked |
| JbdRing.TilesAppend | kernel/fs/ext4_journal.c:2088-2097 | a transaction that starts where the queue ends keeps the queue tiling the ring with consecutive ids |
| JbdRing.TilesAt | kernel/fs/ext4_journal.c:1369-1412 | start and id of every queued transaction in closed form |
| JbdRing.ViewTurn | kernel/fs/ext4_journal.c:1456-1473 | reading the ring from another start is a rotation, with one wrap step sufficient |
| JbdState.DropKeeps | kernel/fs/ext4_journal.c:1369-1412 | taking the oldest transaction off keeps the ring invariant |
| JbdState.GrowKeeps | kernel/fs/ext4_journal.c:1456-1473 | giving the next block to the transaction being written keeps the ring invariant |
| JbdState.PutKeeps | kernel/fs/ext4_journal.c:1806-1992 | writing into a block of the transaction being written keeps the ring invariant and changes that block alone |
| JbdState.JoinKeeps | kernel/fs/ext4_journal.c:2088-2097 | a complete transaction joins the queue under the next id |
| JbdJournal.TrimClean | kernel/fs/ext4_journal.c:1822-1854 | leaving out clean buffers at the end of the list loses no modified buffer, so the last one gets the last-tag mark |
| JbdJournal.Journal.constructor | kernel/fs/ext4_journal.c:1268-1307 | a session starts with an empty queue on whatever ring it finds; it is clean if and only if no block carries an id that the session can use before it overwrites the block |
| JbdJournal.Journal.EndWrite | kernel/fs/ext4_journal.c:2101-2153 | counts a written block; when that finishes the oldest transaction, exactly the finished transactions at the front of the queue leave it, start and id move past them and go to disk |
| JbdJournal.Journal.Purge | kernel/fs/ext4_journal.c:1369-1412 | without flush removes exactly the finished transactions at the front; with flush the front one goes after all its blocks were written, and the finished ones behind it. The contents of the ring stay |
| JbdJournal.StripIs | kernel/fs/ext4_journal.c:1374-1405 | what leaves is the longest prefix of transactions whose blocks are all in their home places |
| JbdJournal.Journal.DropHead | kernel/fs/ext4_journal.c:1384-1398 | only a finished transaction leaves the queue; every transaction of the session is queued or was finished when it left |
| JbdJournal.Journal.FlushTrans | kernel/fs/ext4_journal.c:1316-1353 | checkpointing the oldest transaction shortens the queue and writes the superblock; all its blocks are counted |
| JbdCheckpoint.CheckpointCopies | kernel/fs/ext4_journal.c:1330-1341 | the block that checkpointing copies home from the ring is what the transaction logged if and only if that does not begin with the magic word |
| JbdCheckpoint.EscapedCheckpoint | kernel/fs/ext4_journal.c:1330-1341 | a journal whose checkpoint from the ring would put other contents home than were logged |
| JbdJournal.Journal.AllocBlock | kernel/fs/ext4_journal.c:1456-1473 | hands out the next ring block; the assertion that a purge made room holds if and only if the transaction is smaller than the ring |
| JbdJournal.Journal.LogBlock | kernel/fs/ext4_journal.c:1856-1982 | one modified buffer becomes one tag and one data block, in the open descriptor or a new one |
| JbdJournal.Journal.Write | kernel/fs/ext4_journal.c:1953-1970 | each write to the ring changes one block of the transaction being written, is one more step of the recorded run of disks, and keeps what the superblock on disk leads to |
| JbdJournal.Journal.Prepare | kernel/fs/ext4_journal.c:1806-1992 | for any mix of dirty and clean buffers, what is written reads back as exactly the dirty ones, with the number of blocks known beforehand |
| JbdJournal.Journal.LogRevoke | kernel/fs/ext4_journal.c:2016-2070 | one address is added to the open revoke block, or to a new one |
| JbdJournal.Journal.PrepareRevoke | kernel/fs/ext4_journal.c:1999-2083 | what is written reads back as exactly the revoked addresses |
| JbdJournal.Journal.WriteCommitBlock | kernel/fs/ext4_journal.c:1770-1800 | the commit block completes a transaction that reads back as its copies and revocations |
| JbdJournal.Journal.WriteTxn | kernel/fs/ext4_journal.c:2166-2186 | a whole transaction on the ring reads back as its copies and revocations, takes a number of blocks known beforehand, and touches nothing behind them |
| JbdJournal.Journal.FinishRevoked | kernel/fs/ext4_journal.c:2190-2217 | counting revoked blocks as done, whichever transactions logged them, gives exactly the queue with these counts and without the finished front |
| JbdJournal.Journal.Commit | kernel/fs/ext4_journal.c:2159-2256 | every commit of a transaction smaller than the ring, in every session, keeps all ring invariants, uses the next id, appends exactly its contents and writes no other ring block; an empty one changes nothing. In a session that began on a clean ring it is atomic: of the disks after each single write, recovery finds nothing of the transaction on all up to one and all of it on the others, always with the transactions still queued, and a transaction with copies is durable in the end. Every transaction of the session stays queued until all its blocks are in their home places |
| JbdJournal.Journal.Conclude | kernel/fs/ext4_journal.c:2188-2249 | the same from the commit block to the end; the queue is the one left by the revocations with the new transaction behind it |
| JbdJournal.Journal.PassHead | kernel/fs/ext4_journal.c:2136-2151 | start and id move past the finished transactions at the front, and no other, and go to disk; every disk of the present commit stays recoverable |
| JbdJournal.Journal.Enqueue | kernel/fs/ext4_journal.c:2219-2249 | a transaction with nothing to checkpoint is not queued when the queue is empty; any other is queued last |
| JbdJournal.Journal.JoinQueue | kernel/fs/ext4_journal.c:2226-2234 | the transaction becomes the newest of the queue; the first one of a queue goes into the superblock on disk |
| JbdJournal.Journal.LeaveBehind | kernel/fs/ext4_journal.c:2235-2242 | a transaction without copies on an empty queue is left behind at once, and the superblock on disk stays where it was |
| JbdTrail.TrailPut | kernel/fs/ext4_journal.c:1456-1473 | every write to the ring, also one that runs over the block the superblock points to, keeps what that superblock leads to |
| JbdTrail.TrailJoin | kernel/fs/ext4_journal.c:2235-2242 | so does leaving a transaction without copies behind |
| JbdTrail.TrailNow | kernel/fs/ext4_journal.c:2149-2150 | once the superblock is written it leads to the present state |
| JbdJournal.Journal.Stop | kernel/fs/ext4_journal.c:1417-1450 | everything is checkpointed, the journal on disk is marked empty with sequence 0, and the ring keeps its contents |
| JbdWrite.AddCopy | kernel/fs/ext4_journal.c:1925-1981 | a tag and its data block extend what the open descriptor will read as |
| JbdWrite.CloseDescriptor | kernel/fs/ext4_journal.c:1939-1951 | a descriptor that is full or ends with the last-tag mark can be put in its place |
| JbdWrite.CloseRevoke | kernel/fs/ext4_journal.c:2046-2083 | a revoke block with its byte count reads back as its addresses |
| JbdWrite.WholeTxn | kernel/fs/ext4_journal.c:1770-1800 | descriptors, revoke blocks and a commit block make a transaction that reads back as a whole |
| JbdSession.JournalReads | kernel/fs/ext4_journal.c:1215-1254 | whatever part of a transaction is written behind the queue, recovery reads exactly the queued transactions |
| JbdSession.HalfIdle | kernel/fs/ext4_journal.c:2159-2256 | between transactions of a clean session nothing behind the queue continues it |
| JbdSession.HalfWriting | kernel/fs/ext4_journal.c:1856-1992 | neither does a transaction whose descriptors and data blocks are being written, whatever was at the place of the open descriptor |
| JbdSession.HalfRevoking | kernel/fs/ext4_journal.c:2016-2083 | nor one whose revoke blocks are being written |
| JbdSession.HalfTail | kernel/fs/ext4_journal.c:1062-1210 | such a part of a transaction is read as records without a commit |
| JbdSession.CompleteReads | kernel/fs/ext4_journal.c:1770-1800 | with its commit block the transaction is read behind the queued ones |
| JbdSession.CrashRecovers | kernel/fs/ext4_journal.c:1215-1254 | from the superblock on disk, at every stage of a commit: recovery puts back for each block the newest contents that the queued transactions logged, also when the superblock lags behind |
| JbdSession.CommittedRecovers | kernel/fs/ext4_journal.c:2184-2249 | between the commit block and the next write of the superblock, recovery puts back everything the new transaction logged if the superblock leads to it, and nothing of it otherwise; for all blocks alike |
| JbdSession.PartBegins | kernel/fs/ext4_journal.c:1149-1169 | the part of a transaction that is on the ring leaves it to the block behind it whether recovery takes the transaction for complete |
| JbdSession.QueueReads | kernel/fs/ext4_journal.c:1149-1169 | at every moment of any session, whatever was on the ring before it, the log says exactly the queued transactions if and only if the blocks behind the written part of the next one do not complete it |
| JbdSession.DiskReads | kernel/fs/ext4_journal.c:1149-1169 | the same from the superblock on disk, also when it lags behind; if the block it points to was written again, nothing is replayed |
| JbdSession.CleanMeets | kernel/fs/ext4_journal.c:1268-1307 | a session that began on a clean ring meets that condition at every moment |
| JbdSession.PartReplayed | kernel/fs/ext4_journal.c:1149-1169 | if the block behind the written part is an old commit block with the same id, this part is recovered as a whole transaction |
| JbdStory.StandsRecalls | kernel/fs/ext4_journal.c:1215-1254 | a crash at any stage, before or behind the commit block: what recovery puts back for all blocks |
| JbdStory.ToldDrop | kernel/fs/ext4_journal.c:2141-2151 | a superblock written because old transactions are done keeps every disk so far recoverable, also in the middle of a commit |
| JbdStory.SettleWhole | kernel/fs/ext4_journal.c:1770-1800 | the write of the commit block is the point from which on recovery finds all of the transaction, or, while the superblock does not lead there, still nothing of it |
| JbdStory.ToldJoins | kernel/fs/ext4_journal.c:2226-2231 | the write of the superblock for the first transaction of a queue is that point at the latest |
| JbdCrash.CrashIdle | kernel/fs/ext4_journal.c:2159-2256 | a crash between transactions |
| JbdCrash.CrashMidway | kernel/fs/ext4_journal.c:1856-2083 | a crash with any part of a transaction on the ring, also between the superblock write of a checkpoint and the block that needed the room |
| JbdCrash.CrashCommitted | kernel/fs/ext4_journal.c:2184-2249 | a crash after the commit block: all of the new transaction or none of it |
| JbdCrash.CrashReads | kernel/fs/ext4_journal.c:1149-1169 | a crash at any moment of any session: exactly when recovery finds nothing but the queued transactions |
| JbdCrash.FirstDescriptor | kernel/fs/ext4_journal.c:1856-1982 | the first copies of a transaction that needs several descriptor blocks, up to the write of the first of these |
| JbdCrash.TwoCommitsThenOne | kernel/fs/ext4_journal.c:1417-1450 | two commits, a stop, a new session and one commit: which old commit blocks are still behind the new transaction |
| JbdCrash.TornCommit | kernel/fs/ext4_journal.c:1856-1982 | after that recovery is right; then half of the next transaction is written and recovered as committed |
| JbdCrash.HalfTransactionReplayed | kernel/fs/ext4_journal.c:1268-1307 | the same for a concrete journal: 124 of the 125 blocks of a transaction that was never committed come back |
| JbdCrash.TwoSessions | kernel/fs/ext4_journal.c:1417-1450 | two commits, a stop, a new session and one commit: the log says the new transaction and once more the second old one |
| JbdCrash.StaleTransactionReplayed | kernel/fs/ext4_journal.c:1268-1307 | the same for a concrete journal that was never used before |
| JbdSession.NextBlockFree | kernel/fs/ext4_journal.c:1456-1473 | the block given out next belongs to no queued transaction and not to the one being written |
| JbdSession.LeftoverReplayed | kernel/fs/ext4_journal.c:1417-1450 | because the sequence starts again, a complete transaction left from an earlier session behind the newest one is replayed |
| Xv6Disk.InstallAgain | kernel/fs/log.c:72-87 | installing again after a partial installation gives the same disk |
| Xv6Disk.CommitPoint | kernel/fs/log.c:200-208 | once the header is on disk, recovery installs the whole transaction and no other home block |
| Xv6Disk.RecoverStates | kernel/fs/log.c:121-126 | every disk state that recovery passes through recovers to the same home blocks |
| Xv6Disk.CommitStates | kernel/fs/log.c:186-208 | every disk state of commit recovers to the old home blocks up to the header write and to the new ones from there on |
| Xv6Disk.CrashChain | kernel/fs/log.c:121-126 | any number of interrupted recoveries does not change what recovery leads to |
| Xv6Disk.CommitAtomic | kernel/fs/log.c:186-208 | crash atomicity: stop after any write of commit, stop in recovery any number of times; a completed recovery leaves all home blocks old or all new |
| Xv6Log.LogDevice.constructor | kernel/fs/log.c:58-69 | start-up recovers and starts with an empty log |
| Xv6Log.LogDevice.InstallTrans | kernel/fs/log.c:72-87 | copies each logged block home, one disk write at a time |
| Xv6Log.LogDevice.WriteHead | kernel/fs/log.c:109-119 | one write puts number and block list into the header |
| Xv6Log.LogDevice.WriteLog | kernel/fs/log.c:186-197 | copies the cached blocks to the log, one disk write at a time |
| Xv6Log.LogDevice.RecoverFromLog | kernel/fs/log.c:121-126 | its disk writes are exactly the recovery trace, and the home blocks are those the header promises |
| Xv6Log.LogDevice.Commit | kernel/fs/log.c:200-208 | its disk writes are exactly the commit trace, and the home blocks become the cached ones |
| Xv6Log.LogDevice.BeginOp | kernel/fs/log.c:131-148 | an operation starts if and only if no commit is on and the log has room for all active operations and itself |
| Xv6Log.LogDevice.LogWrite | kernel/fs/log.c:219-242 | absorbs a logged block, adds a new one otherwise; panics if and only if the log is full, by LOGSIZE or by its size on disk, which an operation within its share does not meet in a log larger than LOGSIZE |
| Xv6Log.LogDevice.EndOp | kernel/fs/log.c:153-183 | the panic is unreachable, and the last operation commits |
| Xv6Log.LogDevice.EndCommit | kernel/fs/log.c:174-182 | operations may start again after the commit |
| Xv6Log.AbsorbingWritePanics | kernel/fs/log.c:219-242 | for every log with room for a block: three operations that use their share, then one write of an already logged block; the call panics |
| Xv6Log.ShareWritePanics | kernel/fs/log.c:219-242 | in a log of at most LOGSIZE blocks a new block within the share of its operation panics |
| Xv6Counts.NextOk | kernel/fs/log.c:131-242 | every call keeps room for all that the active operations may still add |
| Xv6Counts.RunsOk | kernel/fs/log.c:131-242 | so does every sequence of calls |
| Xv6Counts.ShareSafeIff | kernel/fs/log.c:219-225 | no write within a share panics in any sequence of calls if and only if the log is larger than LOGSIZE |
| Xv6Counts.MkfsLogPanics | mkfs/mkfs.c:27-27 | the log that mkfs makes is not: after 29 new blocks the next one panics |
| Xv6Counts.UsesAllBuffersIff | kernel/include/param.h:14-16 | as many blocks as there are buffers can be waiting for a commit if and only if the log is larger than LOGSIZE |
| Xv6Counts.NoSafeSize | kernel/include/param.h:14-16 | whatever the size of the log, one of the two panics can happen |
| Xv6Commit.BufferLeft | kernel/fs/bio.c:91-103 | with the logged blocks pinned, a buffer is left if and only if there are fewer of them than buffers |
| Xv6Commit.LogOne | kernel/fs/log.c:189-196 | one pinned block is copied to the log through one more buffer |
| Xv6Commit.WriteLog | kernel/fs/log.c:186-197 | all pinned blocks are copied to the log; panics if and only if every buffer is pinned; the copies are in the blocks behind the header |
| Xv6Commit.Install | kernel/fs/log.c:72-87 | all logged blocks are copied home and unpinned |
| Xv6Commit.Commit | kernel/fs/log.c:200-208 | a commit through the buffer cache panics if and only if as many blocks are pinned as there are buffers; otherwise the home blocks hold the pinned contents, all buffers are free and no other block has changed; the header on disk is empty; at the commit point the log and its header are on disk and the home blocks are as before |
| IndirectMap.WayIs | kernel/fs/ext4_fs.c:1399-1455 | the level and offset decomposition gives indexes in range that lead back to the block |
| IndirectMap.WayInjective | kernel/fs/ext4_fs.c:91-102 | different logical blocks have different levels or index lists |
| IndirectMap.LookupIs | kernel/fs/ext4_fs.c:91-102 | the level limits and index lists lead to the right reference, written out: entry x of the direct ones below 12, then one, two and three entries deep by quotients and remainders of the entries per block; nothing from 12 + n + n^2 + n^3 on |
| IndirectMap.RootKeeps | kernel/fs/ext4_fs.c:1522-1556 | a new zeroed root keeps the tree shape and every answer |
| IndirectMap.BranchKeeps | kernel/fs/ext4_fs.c:1567-1608 | a new zeroed branch keeps the tree shape and every answer |
| IndirectMap.LeafKeeps | kernel/fs/ext4_fs.c:1610-1615 | writing the reference of a block changes the answer for that block alone |
| IndirectFile.Inode.GetBlock | kernel/fs/ext4_fs.c:1343-1455 | returns the reference for the block, written out level by level; 0 for holes and empty files, EIO exactly from 12 + n + n^2 + n^3 on |
| IndirectFile.Inode.SetBlock | kernel/fs/ext4_fs.c:1473-1636 | a later lookup returns the block and no other answer changes, for direct to triple-indirect blocks; ENOSPC if and only if there are fewer free blocks than indirect blocks missing on the way; on EIO or ENOSPC no answer changes; the blocks that have left the allocator are exactly the new indirect blocks |
| IndirectFile.Inode.Append | kernel/fs/ext4_fs.c:1668-1706 | the block behind the end gets the given address and no other answer changes; the size covers it, so a file with nothing mapped behind its end stays one; EIO and ENOSPC exactly as for setting that block |
| IndirectFile.Inode.ReleaseBlock | kernel/fs/ext4_fs.c:1076-1174 | frees exactly the block mapped there and changes no other answer |
| IndirectFile.Inode.Truncate | kernel/fs/ext4_fs.c:1176-1257 | frees the data blocks behind the new end in order and no others; a longer size is refused; a size beyond triple indirection stops with EIO at the limit |
| IndirectFile.Inode.FreeInode | kernel/fs/ext4_fs.c:931-1068 | passes the indirect blocks and the attribute block to the allocator and clears the references |
| IndirectFile.FreeEntries | kernel/fs/ext4_fs.c:969-981 | the loop frees every non-zero reference of an indirect block in order |
| IndirectFile.FreeBranches | kernel/fs/ext4_fs.c:1000-1037 | the nested loops free the blocks below each reference and the blocks referred to |
| IndirectFile.IndirectBlocksAre | kernel/fs/ext4_fs.c:931-1068 | the freed indirect blocks are exactly those of the trees, each once |
| IndirectFile.FreedInAll | kernel/fs/ext4_fs.c:931-1068 | data, indirect and attribute blocks together: each block once and only blocks of the file; all of them if and only if nothing is mapped behind the end of the file |
| IndirectFile.DeleteInode | kernel/fs/ext4_fs.c:1176-1257 | truncating to zero and freeing passes each block of the file to the allocator at most once, and every block if and only if nothing is mapped behind its end |
| IndirectFile.LeakedBlock | kernel/fs/ext4_fs.c:1220-1250 | an inode found on disk with size 0 and a mapped block: deleting it does not free the block |
| BlockCache.FlushKeeps | kernel/fs/ext4_blockdev.c:146-173 | writing a buffer keeps the cache invariant and what users see, and puts the latest contents on disk |
| BlockCache.DropKeeps | kernel/fs/ext4_bcache.c:158-176 | dropping a buffer keeps the invariant, and what users see if it is clean |
| BlockCache.FoundKeeps | kernel/fs/ext4_bcache.c:206-229 | taking a reference keeps the invariant and what users see |
| BlockCache.CreateKeeps | kernel/fs/ext4_bcache.c:231-265 | a new buffer with unknown contents keeps the invariant and what users see |
| BlockCache.UnrefKeeps | kernel/fs/ext4_bcache.c:267-285 | releasing the last reference keeps what users see |
| BlockCache.QueueKeeps | kernel/include/ext4_bcache.h:195-201 | putting a dirty unreferenced buffer on the list restores the invariant |
| BlockCache.BufKeeps | kernel/include/ext4_bcache.h:176-184 | storing new contents changes what users see at that address alone |
| BlockCache.InvalidKeeps | kernel/fs/ext4_bcache.c:178-189 | invalidating a buffer makes users see the disk at that address alone |
| BlockDevice.WaitingBuffers | kernel/include/ext4_bcache.h:195-212 | the LRU index is exactly the unreferenced buffers, the dirty list exactly the dirty unreferenced ones, all up to date; with the write-back counter at zero the disk is current on every unreferenced buffer |
| BlockDevice.Device.FlushBuf | kernel/fs/ext4_blockdev.c:146-173 | the disk gets the latest contents and users see no change |
| BlockDevice.Device.DropBuf | kernel/fs/ext4_bcache.c:158-176 | an unreferenced buffer leaves all indexes; users see no change if it is clean |
| BlockDevice.Device.Shake | kernel/fs/ext4_blockdev.c:188-213 | evicts only unreferenced buffers, least recently used first, until there is room, and users see no change |
| BlockDevice.Device.FindGet | kernel/fs/ext4_bcache.c:206-229 | one more reference if and only if the block is cached; one that was not in use becomes the most recently used |
| BlockDevice.Device.GetNoRead | kernel/fs/ext4_blockdev.c:215-244 | exactly one more reference, an error outside the device, held buffers untouched |
| BlockDevice.Device.Get | kernel/fs/ext4_blockdev.c:246-270 | the buffer holds the latest contents written by anybody, and is the most recently used one unless it was in use already |
| BlockDevice.Device.Modify | kernel/include/ext4_bcache.h:176-179 | from now on every user sees the new contents |
| BlockDevice.Device.Set | kernel/fs/ext4_bcache.c:267-312 | never loses a write; the last release writes through unless write-back is on, and drops temporary or invalid buffers; the buffer, the dirty list and the disk afterwards |
| BlockDevice.Device.CacheFlush | kernel/fs/ext4_blockdev.c:446-458 | terminates with an empty dirty list and the disk current on every unreferenced buffer |
| BlockDevice.Device.SetWriteBack | kernel/fs/ext4_blockdev.c:460-473 | nesting counter; when it reaches zero the disk is current on every unreferenced buffer |
| BlockDevice.Device.InvalidateBuf | kernel/fs/ext4_bcache.c:178-189 | users see the disk at that address again |
| BlockDevice.Device.InvalidateRange | kernel/fs/ext4_bcache.c:191-203 | forgets the range if and only if its first block is cached or there was nothing to forget |
| BlockDevice.DirtyBlockSurvives | kernel/fs/ext4_bcache.c:191-203 | a device on which a dirty block of the range stays |
| Bitmap.FindClear | kernel/fs/ext4_bitmap.c:90-158 | reports a free bit if and only if there is one, and the bit it reports is described exactly, unaligned beginning included |
| Bitmap.AnswerIsClear | kernel/fs/ext4_bitmap.c:98-106 | the reported bit is clear if and only if the first clear bit is the start or lies behind the unaligned beginning |
| Bitmap.BitsFree | kernel/fs/ext4_bitmap.c:45-88 | clears exactly the range, through single bits, whole bytes and single bits |
| Bitmap.ClearMore | kernel/fs/ext4_bitmap.c:45-88 | clearing n set bits makes n more clear bits |
| Balloc.AddressInverse | kernel/fs/ext4_balloc.c:61-84 | bit i of group g stands for block first + g * blocks per group + i, where first is 1 or 0, and the address gives group and index back |
| Balloc.GroupSizes | kernel/fs/ext4_super.c:46-77 | the groups tile the device, all full but the last one |
| Balloc.CountSays | kernel/fs/ext4_balloc.c:484-494 | a group count is zero if and only if the group has no free block |
| Balloc.HeadSeen | kernel/fs/ext4_balloc.c:427-451 | after the scan near the goal, the bitmap search behind it always reports a clear bit |
| Balloc.Allocator.Take | kernel/fs/ext4_balloc.c:555-582 | sets one clear bit and keeps group, superblock and inode counts exact |
| Balloc.Allocator.SearchGoalGroup | kernel/fs/ext4_balloc.c:409-464 | finds the first free block at or behind the goal whenever the group has one there |
| Balloc.OnDevice | kernel/fs/ext4_super.c:64-77 | a block counted for a group exists, if and only if it is not the last one of the last group of a device whose first data block is 1 |
| Balloc.BehindDevice | kernel/fs/ext4_super.c:64-77 | a device with a group whose only bit stands for a block that does not exist |
| Balloc.Allocator.SearchOthers | kernel/fs/ext4_balloc.c:470-553 | goes round the groups and takes the first free block of the first one that has any |
| Balloc.Allocator.AllocBlock | kernel/fs/ext4_balloc.c:352-583 | returns the free block nearest to the goal (the goal itself, the first one behind it in its group, or the first one of the next group that has any), at the address its bit stands for; sets only that bit and keeps all counts; ENOSPC if and only if no group has a free block |
| Balloc.Allocator.TryAllocBlock | kernel/fs/ext4_balloc.c:585-665 | takes the block if and only if it was free, and counts it for the inode |
| Balloc.Allocator.FreeBlock | kernel/fs/ext4_balloc.c:152-231 | clears that bit alone and keeps the counts exact |
| Balloc.Allocator.FreeBlocks | kernel/fs/ext4_balloc.c:233-350 | clears exactly the range if and only if the range lies in one group or a group has eight times the block size of blocks; then all counts stay exact |
| Balloc.PartFits | kernel/fs/ext4_balloc.c:260-335 | one group of an exact ranged free clears its part and leads to the next group |
| Balloc.Spilled | kernel/fs/ext4_balloc.c:287-294 | a part computed from the bitmap size that is larger than the group clears a bit outside the range |
| DirBlock.InsertKeeps | kernel/fs/ext4_dir.c:578-650 | reusing or splitting a record keeps the block tiled, names unique and the tail, and adds exactly the name |
| DirBlock.RemoveKeeps | kernel/fs/ext4_dir.c:540-569 | joining a record with its predecessor, or marking the first one unused, keeps the block tiled and removes exactly the name |
| DirBlock.TooShort | kernel/fs/ext4_dir.c:662-666 | the early exit of the search never hides a name |
| DirBlock.NeedIs | kernel/fs/ext4_dir.c:586-589 | a record takes its 8-byte header and its name, rounded up to a multiple of 4 |
| DirBlock.Block.Find | kernel/fs/ext4_dir.c:652-693 | finds a name if and only if the block holds it, with its inode and position |
| DirBlock.Block.TryInsert | kernel/fs/ext4_dir.c:578-650 | adds the name and nothing else; ENOSPC if and only if no record has room; the checksum tail is never used |
| DirBlock.Block.Remove | kernel/fs/ext4_dir.c:525-576 | deletes exactly the name, ENOENT if and only if it is absent |
| FileRead.RunBytes | kernel/fs/ext4.c:1781-1794 | reading adjacent blocks in one go gives the bytes of reading them one after the other |
| FileRead.NextRun | kernel/fs/ext4.c:1761-1776 | a run is adjacent on the device, maximal or cut at the last block, and the block behind it is carried over; a hole makes a run of one block taken from the block behind it |
| FileRead.ReadBlocks | kernel/fs/ext4.c:1758-1795 | the run-coalescing loop terminates and returns the same bytes as block by block |
| FileRead.ReadHead | kernel/fs/ext4.c:1723-1754 | the unaligned beginning, with zeros for a hole |
| FileRead.Read | kernel/fs/ext4.c:1693-1816 | advances by the smaller of the wanted size and what is left, and returns the bytes of the file, with zeros in its holes, if and only if what is read for the holes is zero |
| FileRead.ReadExactly | kernel/fs/ext4.c:1733-1808 | the condition byte by byte: a hole among the whole blocks is read from the block behind it, a last one from device block 0 |
| FileRead.HoleReadsAsNext | kernel/fs/ext4.c:1761-1776 | a file with a hole before a block of ones that is read as ones throughout |
| BufList.Unlink | kernel/fs/bio.c:161-162 | taking a buffer out of the circle leaves a circle of the others, linked both ways |
| BufList.InsertFront | kernel/fs/bio.c:164-167 | putting it behind the head gives a circle with it in front |
| BufList.MoveToFront | kernel/fs/bio.c:159-168 | the other buffers keep their order |
| BufCache.Oldest | kernel/fs/bio.c:92-101 | the last idle buffer of the list is the one released longest ago |
| BufCache.Recycle | kernel/fs/bio.c:92-101 | giving an idle buffer a new identity loses no contents |
| BufCache.Fill | kernel/fs/bio.c:115-126 | reading a block into its buffer changes no contents |
| BufCache.Cache.constructor | kernel/fs/bio.c:48-66 | the initial list is a circle of all buffers |
| BufCache.Cache.Bget | kernel/fs/bio.c:74-104 | returns the one buffer of the block, or recycles the least recently released idle one; panics if and only if there is neither |
| BufCache.Cache.FindBuf | kernel/fs/bio.c:80-88 | the walk from the front finds the buffer if there is one |
| BufCache.Cache.FindIdle | kernel/fs/bio.c:92-101 | the walk from the end finds the least recently released idle buffer |
| BufCache.Cache.Bread | kernel/fs/bio.c:108-131 | returns the latest contents of the block, changes kept in pinned buffers included, with one more reference and no other buffer changed |
| BufCache.Cache.Bwrite | kernel/fs/bio.c:135-144 | puts a held buffer on disk |
| BufCache.Cache.Brelse | kernel/fs/bio.c:150-171 | the last release makes the buffer the most recently released; identities and contents stay |
| BufCache.Cache.Bpin | kernel/fs/bio.c:175-179 | one more reference, no other change |
| BufCache.Cache.Bunpin | kernel/fs/bio.c:183-187 | one reference less, the list unchanged |
| Semaphore.StepKeeps | kernel/atomic/semaphore.c:17-40 | every step keeps the balance of value, pending wakeups, sleepers and woken threads |
| Semaphore.RunKeeps | kernel/atomic/semaphore.c:17-40 | every interleaving keeps it |
| Semaphore.EveryRun | kernel/atomic/semaphore.c:17-40 | blocked waiters are the pending wakeups plus the deficit, completed waits never exceed the initial value plus the signals, and each pending wakeup has its own woken thread |
| Semaphore.NoStolenWakeup | kernel/atomic/cond.c:19-66 | a woken thread completes its wait with its next step, whatever happened in between |
| Semaphore.WokenInOrder | kernel/atomic/cond.c:19-66 | in every interleaving sleepers are woken in the order in which they began to wait |
| Semaphore.Sem.WaitBegin | kernel/atomic/semaphore.c:17-27 | keeps the balance; the thread sleeps if and only if the value was not positive |
| Semaphore.Sem.WaitResume | kernel/atomic/semaphore.c:20-26 | keeps the balance; a woken thread always finds a wakeup and never sleeps again |
| Semaphore.Sem.Post | kernel/atomic/semaphore.c:32-40 | keeps the balance; wakes exactly one sleeper if there is one, with a wakeup for it |

## Left out

- ExtentInsert.ExtentFile.InsertExtent: the file is written extents only; unwritten extents, their conversion and punching a hole into an extent are not modelled. Where the tree could not keep the file on ENOSPC, leaked nodes below the cut entries are not followed further.
- ExtentInsert.ExtentFile.AllocBlock: the allocator behind the tree, and behind the indirect map, is a list of distinct free blocks; the goal block is not modelled, the allocator itself is proved in `Balloc`.
- ExtentTruncate.RemoveSpace: truncation up to a block before the end of the file is not modelled; its only caller (kernel/fs/ext4_fs.c:1231) removes to the end.
- JbdRecover.Recovery.constructor: the log must fit once round the ring and revoke counts must lie inside their blocks; the source would read outside the block otherwise. Checksum features are off.
- JbdJournal.Journal.Commit: atomicity is for sessions that began on a clean ring; for the others `CrashReads` has the exact condition at each moment. A transaction is smaller than the ring, the ring shorter than 2^31 blocks, no write fails and nothing is aborted. Which queued transaction a revocation completes a block of is a parameter (`owners`), and the contract holds for every choice; the record tree, the callbacks from the block cache and a block that the transaction itself both logs and revokes are not modelled.
- JbdJournal.Journal.FlushTrans: which blocks come from the cache and which from the ring is not modelled; `CheckpointCopies` says what comes from the ring.
- JbdCrash.CrashIdle: with an empty queue, as in the other crash theorems and for the atomicity of a commit, fewer than 2^32 transactions without copies in a row since the superblock was written, so that ids do not come round to the one in it.
- JbdMount.RerunSuper: for blocks smaller than 2 KiB a logged block 0 does not hold the superblock and is skipped.
- Xv6Log.LogDevice.Commit: disk writes are synchronous, as the comment in kernel/fs/log.c:31 says; the virtio driver returns earlier. The cached copy of a logged block is assumed not to change during the commit.
- Xv6Commit.Commit: no buffer is in use but the pinned ones.
- BlockDevice.Device.Set: block 0 cannot be released (the source asserts it), I/O succeeds and there are no end-write callbacks; the LRU counter does not wrap.
- Balloc.Allocator.AllocBlock: the goal lies inside a group and the counts are exact; bitmaps are sequences of bits, so the grouping into bytes shows only in the search and in the ranged free.
- Balloc.Allocator.FreeBlocks: frees at least one block, all of them in use.
- IndirectFile.DeleteInode: no block is used twice in the inode, and its size is not beyond triple indirection, where truncation fails.
- DirBlock.Block.TryInsert: one block and an absent name, as the caller has looked it up; hashed directories are not modelled, and a record is its length, inode and name rather than packed bytes.
- FileRead.Read: the position is not behind the end of the file; symbolic links stored in the inode are not modelled.
- BufCache.Cache.Brelse: whoever gives the last reference back has the contents on disk; the log guarantees this with `bpin`. Sleep locks are atomic steps.
- Semaphore.EveryRun: the initial value is not negative and no waiting thread is killed (a killed one leaves the count uncorrected).
- Extended attributes, hashed directories, the xv6 inode layer, mount and VFS glue, system calls, device drivers and spinlocks are not modelled.
