# A model of the storage engine and its small companions

This project models, in Dafny, the on-disk B+ tree of the database (blocks, extent allocator, segment
trees, the tree itself, its scans and its files) together with six smaller pieces that the engine and
its surroundings rest on: the order of index keys, the comparison queries of a disk index, the
catalogue file, the shared spinlock, the glob matcher and fixed-point numbers.

`dafny verify dfyconfig.toml` checks everything.

## How the parts fit

* **Bytes.** `Page` is the layout of a block: item bytes packed upward from a 16-byte header, 24-byte
  records packed downward from the end, largest index first. `Compaction` is `remove_range_`: cutting
  items out of the data area and closing the holes. `Block` is the object, a byte array with records and
  counters, whose every method is proved against `BlockSpec`, the block as a list of entries and the room
  they leave.
* **Extents.** `GapTracker` hands out and takes back extents of a file; `SegmentFile` closes the gaps
  between blocks, flushes them and loads them.
* **Segments.** `Segments`, `SegmentAppend`, `SegmentBalance`, `SegmentRemove` and `SegmentQuery` are lists of blocks
  in index order; `SegmentTree` is the object. They use blocks as `BlockSpec` values.
* **Leaves.** A leaf is a segment tree and where its blocks are in its file. `LeafPlaces` is the list of places with
  the marks for what is in memory and what is modified; `LeafFile` carries both through `append`, `split`,
  `balance_with`, `merge` and `remove_index`; `LeafDisk` is `flush` and `lazy_load`. `Leaf` shows which sorted groups
  the leaf has after each operation, `LeafGrow` the same of a full leaf that is split and then appended to, `LeafQuery`
  of the queries, `LeafLoad` of what comes back from a file, and `LeafBuild` makes leaves for examples.
* **The tree.** `NodeStore` is an arena of nodes named by identifiers, with the nodes of every level listed
  in a ghost sequence. `Shape` is the invariant: every level is complete, chained by its sibling pointers,
  owned exactly once by the level above, and every node has a legal size. `TreeSearch` descends,
  `TreeInsert`, `TreeGrow`, `TreeSplit`, `TreeCascade` and `TreeAppend` are `append`, `TreeShrink` and
  `TreeRemove` are `remove_index`, `TreeLoad` is the bulk rebuild, `BTree` is the object, `TreeDisk` its
  flush and load. Beside the store the tree has the state of every leaf and the segment files; `TreeLeaves` and
  `LeafRepair` say that each leaf has a valid segment tree with exactly the groups the store gives it (`Backed`), which
  is a part of `Valid()`. `SmallCapacity` and `TornTree` are trees that go wrong. `Scan`, `IndexQuery` and `IndexDisk`
  are the queries. `Multimap` is the sorted list of groups, the reference the whole tree is compared with.
* **Companions.** `PhysicalValue`, `MetadataFile`, `SpinLock`, `Glob`, `FixedPoint`.
* `Wrappers`, `Sequences` and `Intervals` hold an optional value and a few facts about sequences and sets.

## What turned out not to hold, and exactly when it does

* `append` leaves a valid tree exactly when none of three things happens, each of which can be told from the tree, the
  index and the item before the call (`BTree.BTree.Append`):
  * a full root leaf is split at this very index: there `<` is compared with where the deeper path has `<=`, and the
    index is put in front of its own group as a second one (`BTree.CutHappens`, for every capacity);
  * the covering leaf is full and its split tears it, see below (`TornTree.TornRoot`, capacity 4, groups 0 to 3);
  * the blocks that are to have the item drop it, see below.
* `remove_index` leaves a valid tree exactly when neither of two things happens (`BTree.BTree.RemoveIndex`):
  * the leaf of the index is at its minimum and is merged away and its parent, which is not the root, has one other
    child: that child becomes the root and everything else is lost. For capacity 12 and up that cannot be
    (`TreeRemove.NeverStrands`); for every capacity from 8 to 11 there is a valid tree of eight indices in which it is
    (`SmallCapacity.SmallGood`, `SmallCapacity.SmallStates`, `SmallCapacity.SmallCapacityLoses`);
  * the leaf borrows from its left neighbour and that tears the neighbour (`TornTree.TornLeft`, capacity 12).

  Below capacity 8 a leaf may have a single index, and taking that one is against the assertions of the segment trees
  (segment_tree.cpp:432-433 and 538).
* `item_count`, `get_item`, `get_items` and `remove_index` of a segment tree load the first block of the range again
  where a later one is meant, and then use the later one. They do so exactly if a block of the index behind its first
  one is not in memory (`SegmentQuery.ItemCount`, `SegmentQuery.GetItem`, `LeafFile.RemoveIndex`); the models end in a
  fault there. Otherwise they answer for all blocks the index is in. Scans load every block they reach, so only the
  operators that look one key up can fault (`IndexQuery.Find`).
* `split_append` decides by an estimate that counts one entry too many for the lower half and forgets the
  header where there is no lower half. With s the first position at which half of the block is reached, the item is
  dropped, and success reported, exactly when it is for the lower half, which has no room for it but would have with
  the entry at s, or when half is never reached, the index is at or beyond an end of the block, and the item would fit
  but for the header (`Segments.LosesIff`). Up to the tree it is told by these sizes
  (`SegmentTree.SegmentTree.Append`, `BTree.BTree.Append`); a valid tree of two blocks in which it happens is
  `SegmentAppend.DropsHappens`.
* `split`, and `balance_with` when it takes from a tree below, compare the last index moved with the smallest
  index of the block they stop in where the largest is meant. The trees come out right exactly when that
  block does not share its largest index with the block above it, which is weaker than no index being in two
  blocks (`SegmentBalance.MoveTop`, `SegmentTree.SegmentTree.Split`, `SegmentTree.SegmentTree.BalanceWith`,
  `SegmentBalance.TornHappens`). Otherwise the lower tree counts one index too few. If the loop cuts a block, the upper
  tree counts one too many; if it stops between two blocks, the shared index is in both trees. Taking from
  a tree above is always right (`SegmentBalance.MoveBottom`).
* `block_t::remove` lowers the counters before it looks for the item: the block stays valid exactly when the
  item is there or its index is not (`Block.Block.Remove`, `Block.RemoveMisses`).
* A flush writes only blocks that are in memory and marked, but writes the header for all of them. Closing the gaps
  moves a block down by the free space in front of it (`SegmentFile.CloseGaps`) and marks it if there is any. So a
  block comes back from the file exactly when it is in memory and marked or has free space in front of it, or the file
  already has its bytes where that puts it (`SegmentFile.SegmentFile.Reopen`, `LeafDisk.ReopenIff`), and the tree comes
  back, block for block, exactly when before the flush that holds of every block of every leaf (`TreeDisk.Reload`).
  `split` does not mark the block it cuts: such a block comes back only if there is free space in front of it
  (`LeafDisk.CutSafeIff`). A leaf of one block that was just flushed, is split and flushed again has its upper half back
  after load, which is in the new leaf too (`LeafDisk.SplitFlushLoad`, `LeafDisk.JustFlushedHappens`), and flushing once
  more does not help (`LeafDisk.FlushedAgain`). A block that is out of memory is moved in the header only: the tree in
  memory survives a flush exactly when every such block is found where it is moved to (`TreeDisk.Flush`,
  `LeafDisk.FlushedKept`).
* `load` does not restore the list of given-up segment numbers. Before, no new leaf ever gets a number that is in
  use (`TreeDisk.NeverClashes`); afterwards one of the coming new leaves does, exactly when a number below the
  number of leaves had been given up (`TreeDisk.ForgottenClash`, `TreeDisk.Reload`). In the smallest such tree it is
  the first one (`TreeDisk.ClashHappens`). Flushing an empty tree leaves the previous files in place
  (`TreeDisk.Flush`).
* An integer compares by value with every number of a floating-point type exactly when the conversion to
  that type does not change it (`PhysicalValue.FloatCompareExact`); otherwise even `==` is not transitive
  (`PhysicalValue.FloatBreaksEquivalence`).
* The catalogue file restores the catalogue exactly when no database name holds a colon and no collection
  name a semicolon or a newline (`MetadataFile.ReadsBackIff`).
* The spinlock's flag is accurate throughout a run exactly as long as no reader is admitted on top of
  LONG_MAX others (`SpinLock.EveryRunAccurate`). An upgrade is a release followed by a fresh lock. A run in which
  another thread writes in between exists exactly if some other thread may ask for the exclusive lock
  (`SpinLock.OvertakenIff`), so for every lock with at least two threads (`SpinLock.UpgradeCanBeOvertaken`).
* Rescaling multiplies by a power that is not guarded: even zero at a coarse scale cannot be compared with a
  number at a fine one (`FixedPoint.ZeroNotAlignable`). The remainder is not guarded either: it is undefined exactly
  for the smallest number modulo minus one (`FixedPoint.ModuloFits`, `FixedPoint.ModuloUndefined`).

## Model

| member | source | states |
|---|---|---|
| BTree.BTree.Append | core/b_plus_tree/b_plus_tree.cpp:294-431 | any append keeps all leaves at one depth, strict order, capacities, sibling links on every level, both counters, distinct segment numbers and a valid segment tree in every leaf, and adds exactly the item (or refuses a repeated one), if and only if the index is not the one a full root leaf is split at, the split of a full leaf does not tear it, and the blocks that get the item do not drop it; all three are conditions on the tree before the call. In the first case the second group is described exactly, in the third the contents stay. Every block of every leaf is one there was, where it was and marked as it was, or is in memory and marked, but for those of a new leaf beside a split one and of the one that is split |
| BTree.CutHappens | core/b_plus_tree/b_plus_tree.cpp:319-335 | for every capacity a valid tree, segment tree included, and an index that cuts it |
| TornTree.TornRoot | core/b_plus_tree/segment_tree.cpp:393-410 | a valid tree of capacity 4 with one full leaf of two blocks that share an index, and an append that tears it though nothing is cut or dropped |
| TornTree.TornLeft | core/b_plus_tree/segment_tree.cpp:441-486 | a valid tree of capacity 12 in which removing an index makes its leaf borrow from a left neighbour that this tears, though nothing is stranded |
| BTree.BTree.RemoveIndex | core/b_plus_tree/b_plus_tree.cpp:580-719 | exactly the group of the index goes, the result tells whether it was there, and the whole invariant, segment trees included, survives every chain of merges, borrows and root collapse, if and only if the removal does not strand the tree, which it cannot from capacity 12 on, and does not borrow from a left leaf that this tears; a stranded tree is a single leaf with a part of the contents; a fault exactly if a block of the index behind its first one is not in memory. What becomes of blocks and marks likewise, but for the left neighbour a leaf borrows from |
| BTree.BTree.GetItems | core/b_plus_tree/b_plus_tree.cpp:928-938 | the blocks of the one leaf the descent reaches have, as a multiset, all items of the index, or a fault, exactly if one of them behind the first is not in memory |
| BTree.BTree.ItemCount | core/b_plus_tree/b_plus_tree.cpp:900-912 | and as many as there are |
| BTree.GrownGroups | core/b_plus_tree/b_plus_tree.cpp:294-431 | after an append every other index has its old group, and the index has one more item, or had the item, or the item was dropped |
| BTree.UniqueFileFresh | core/b_plus_tree/b_plus_tree.cpp:998-1006 | the number handed out for a new leaf file is not in use |
| BTree.FilesAdd | core/b_plus_tree/b_plus_tree.cpp:998-1006 | using it keeps all numbers in use and given up apart and below their count |
| BTree.FilesDrop | core/b_plus_tree/b_plus_tree.cpp:682-685 | giving the number of a merged leaf back keeps them so |
| TreeAppend.DescendAppend | core/b_plus_tree/b_plus_tree.cpp:343-364 | the way down ends in the leaf that covers the index, and if that leaf is full `modified_nodes` holds its ancestors up to the first one with room, or all of them |
| TreeAppend.Cascade | core/b_plus_tree/b_plus_tree.cpp:393-423 | the upward loop completes the tree; no node outside the recorded ones gets other children, and a new root stands over the old one, which was recorded |
| TreeAppend.Climb | core/b_plus_tree/b_plus_tree.cpp:396-415 | one round either finishes the tree or moves the one unfinished node up a level |
| TreeAppend.AppendDeep | core/b_plus_tree/b_plus_tree.cpp:343-431 | append below an inner root: shape kept, contents grown by exactly the item, every leaf with a valid segment tree of its groups exactly if the covering leaf is not torn and the item not dropped |
| TreeAppend.AppendFullRoot | core/b_plus_tree/b_plus_tree.cpp:319-335 | a full root leaf becomes two leaves under a new root; what its contents become in both cases of the comparison, and when both leaves are right |
| TreeAppend.AppendRoom | core/b_plus_tree/b_plus_tree.cpp:372-375 | an append to a leaf with room leaves every leaf right exactly if its blocks do not drop the item |
| LeafGrow.SplitAppend | core/b_plus_tree/b_plus_tree.cpp:383-391 | a full leaf is split and the item goes to the half of its index: the halves have the first and last groups and the item, exactly if the leaf is not torn and that half does not drop it |
| TreeAppend.CoveredAppend | core/b_plus_tree/b_plus_tree.cpp:371-375 | adding to the covering leaf is adding to the whole contents |
| TreeSplit.SplitLeafShape | core/b_plus_tree/b_plus_tree.cpp:226-233 | splitting a full leaf leaves one legal leaf to be hung in and the contents unchanged |
| TreeSplit.SplitHangShape | core/b_plus_tree/b_plus_tree.cpp:403-411 | after a full parent is split and the child put into its half, the new half is all that is unfinished |
| TreeSplit.NewRootShape | core/b_plus_tree/b_plus_tree.cpp:46-55 | a new root over the two halves makes a complete tree one level taller |
| TreeGrow.HangShape | core/b_plus_tree/b_plus_tree.cpp:77-108 | inserting into a parent with room completes every level |
| TreeGrow.HangLower | core/b_plus_tree/b_plus_tree.cpp:91-106 | the pointer updates put the node at its place in the chain of its level |
| TreeGrow.HangUpper | core/b_plus_tree/b_plus_tree.cpp:82-89 | and the children of the level above read exactly that chain |
| TreeCascade.InsertNode | core/b_plus_tree/b_plus_tree.cpp:77-107 | the lower-bound search by smallest indices finds the position the order of the level prescribes |
| TreeCascade.PickHalf | core/b_plus_tree/b_plus_tree.cpp:405-409 | comparing smallest indices picks the half whose children surround the new node |
| TreeCascade.SplitUp | core/b_plus_tree/b_plus_tree.cpp:402-411 | a full parent is split, the child goes to its half, everything above is untouched |
| TreeInsert.FlatSplit | core/b_plus_tree/b_plus_tree.cpp:126-135 | splitting an inner node leaves the level below, read left to right, as it was |
| TreeSearch.FindNode | core/b_plus_tree/b_plus_tree.cpp:63-75 | the last child that does not start above the index, or the first child |
| TreeSearch.MinIndex | core/b_plus_tree/b_plus_tree.cpp:187-189 | following first children gives the smallest index below a node |
| TreeSearch.MaxIndex | core/b_plus_tree/b_plus_tree.cpp:191-193 | following last children gives the largest |
| TreeSearch.FindLeaf | core/b_plus_tree/b_plus_tree.cpp:960-989 | the descent reaches the leaf that covers the index |
| TreeSearch.CoversSeparates | core/b_plus_tree/b_plus_tree.cpp:960-989 | everything left of that leaf is below the index, everything right of it above |
| TreeSearch.LookupLocal | core/b_plus_tree/b_plus_tree.cpp:872-937 | looking up in that leaf is looking up in all contents |
| NodeStore.MinsAscend | core/b_plus_tree/b_plus_tree.cpp:187-193 | on any level of an ordered tree a node lies wholly below its right neighbours |
| TreeRemove.DescendRemove | core/b_plus_tree/b_plus_tree.cpp:601-623 | the way down ends in the covering leaf, and if that leaf is at its minimum the recorded ancestors reach up to one that can spare a child |
| TreeRemove.ChoosePartner | core/b_plus_tree/b_plus_tree.cpp:655-675 | the right neighbour if it is small, or if the left one is not and there is a right one, else the left one; always an existing neighbour, and merged with exactly if one of the two is small |
| TreeRemove.Round | core/b_plus_tree/b_plus_tree.cpp:654-687 | one round either mends the tree or removes the node from its parent, contents unchanged; every leaf stays right exactly if it does not borrow from a left leaf that this tears |
| TreeRemove.BalanceWith | core/b_plus_tree/b_plus_tree.cpp:137-157 | borrowing leaves both neighbours legal and the level's contents unchanged; the smaller one ends up with half |
| TreeRemove.BalanceNode | core/b_plus_tree/b_plus_tree.cpp:235-242 | the same with the segment trees of two leaves: both are right afterwards exactly if the neighbour is not below and torn when it lends |
| TreeRemove.MergeInto | core/b_plus_tree/b_plus_tree.cpp:159-175 | merging a leaf away leaves every remaining leaf right, whatever its blocks are |
| TreeRemove.LonelyIsRoot | core/b_plus_tree/b_plus_tree.cpp:688-694 | for capacity 12 and up, a parent left with a single child is the root |
| TreeRemove.NeverStrands | core/b_plus_tree/b_plus_tree.cpp:688-694 | so from capacity 12 on no removal strands the tree |
| TreeRemove.Repair | core/b_plus_tree/b_plus_tree.cpp:650-708 | the repair loop ends in a complete tree with the same contents, exactly if its first round is safe, otherwise in a stranded leaf; every leaf is right exactly if the first round does not borrow from a torn one |
| TreeRemove.RemoveDeep | core/b_plus_tree/b_plus_tree.cpp:601-719 | remove_index below an inner root: mended exactly if it does not strand the tree, every leaf right exactly if it does not borrow from a torn one |
| TreeLeaves.CurrentStays | core/b_plus_tree/segment_tree.cpp:727-749 | blocks that are all in memory, and marked unless their file has them where they are, stay so through every change that keeps a block, its place and its mark or leaves it in memory and marked |
| TreeShrink.MergeShape | core/b_plus_tree/b_plus_tree.cpp:159-175 | merging a node away repairs its level and leaves only its parent in question |
| TreeShrink.RebalanceShape | core/b_plus_tree/b_plus_tree.cpp:137-157 | sharing between neighbours restores every size |
| TreeShrink.UnlinkLinked | core/b_plus_tree/b_plus_tree.cpp:110-124 | removing a node closes the chain of its level around it |
| TreeShrink.CollapseShape | core/b_plus_tree/b_plus_tree.cpp:688-694 | a root with one child gives way to that child |
| TreeLoad.TakeFits | core/b_plus_tree/b_plus_tree.cpp:833-849 | the number of children the next node takes is legal and never leaves too few for the one after it |
| TreeLoad.BuildLayer | core/b_plus_tree/b_plus_tree.cpp:840-858 | a layer is replaced in place by its parents: no entry is overwritten before it is read, every child has exactly one parent, in order |
| TreeLoad.Rebuild | core/b_plus_tree/b_plus_tree.cpp:833-865 | for any number of leaves of legal size and capacity 8 and up the rebuild terminates with all leaves at one depth in saved order and legal nodes; whatever their sizes, over exactly these leaves |
| TreeDisk.Flush | core/b_plus_tree/b_plus_tree.cpp:744-782 | every leaf is flushed once, in order, to its own file, the header for all blocks and the bytes of those in memory and marked; the tree stays valid exactly if before the call every block out of memory is in its file as much lower as there is free space in front of it; what comes back after another flush is what would come back after this one; an empty tree saves nothing; and a tree whose blocks are all in memory, and marked unless their file has them, is so afterwards |
| TreeDisk.Load | core/b_plus_tree/b_plus_tree.cpp:784-870 | a tree over exactly the saved leaves, in order, each with what its file has; complete if they are of legal size |
| TreeDisk.NumbersLow | core/b_plus_tree/b_plus_tree.cpp:998-1006 | the numbers in use are all below their count exactly when no given-up number is |
| TreeDisk.NeverClashes | core/b_plus_tree/b_plus_tree.cpp:998-1006 | in a valid tree no coming new leaf gets a number in use, however many come |
| TreeDisk.ForgottenClash | core/b_plus_tree/b_plus_tree.cpp:784-870 | with the given-up numbers forgotten, one does, exactly if a given-up number is below the number of leaves |
| TreeDisk.ClashHappens | core/b_plus_tree/b_plus_tree.cpp:998-1006 | a valid tree of one leaf in which it is the first one |
| TreeDisk.Reload | core/b_plus_tree/b_plus_tree.cpp:744-870 | flush and load restore every leaf block for block exactly if before the call every block is in memory and marked or has free space in front of it, or is in its file where closing that space puts it; so whenever every block is in memory, and marked unless its file has it where it is. Then the contents have the same groups and the loaded tree is valid exactly when no number below the number of leaves had been given up; in any case a coming new leaf is given a number in use exactly if one had been |
| LeafDisk.Flush | core/b_plus_tree/segment_tree.cpp:727-749 | one leaf: the header has every block as much lower as there was free space in front of it, the file has a block exactly if it was written or there before, and what was written is not marked any more |
| LeafDisk.ReopenIff | core/b_plus_tree/segment_tree.cpp:727-809 | flush and lazy_load give a leaf back, block for block, exactly if before the flush each block is in memory and marked or about to move, or in the file where it is about to be |
| LeafDisk.FlushedKept | core/b_plus_tree/segment_tree.cpp:727-749 | the leaf in memory stays in order exactly if every block out of memory is in the file where the flush puts it |
| LeafDisk.UnmovedFound | core/b_plus_tree/segment_tree.cpp:957-975 | which is so if there is no free space in front of one of them |
| LeafDisk.UpToDateBack | core/b_plus_tree/segment_tree.cpp:727-749 | a leaf with all blocks in memory, and marked unless the file has them where they are, comes back however they are moved |
| LeafDisk.FlushedAgain | core/b_plus_tree/segment_tree.cpp:727-749 | a second flush changes nothing about what comes back or is found |
| LeafDisk.StaysUpToDate | core/b_plus_tree/segment_tree.cpp:727-749 | a leaf whose blocks are in memory, and marked unless the file has them where they are, is so after every change that keeps or renews its blocks |
| LeafDisk.FlushUpToDate | core/b_plus_tree/segment_tree.cpp:727-749 | and after a flush |
| LeafDisk.CutSafeIff | core/b_plus_tree/segment_tree.cpp:408-418 | a block that was in the file and unmarked and is cut by a split comes back exactly if there is free space in front of it |
| LeafDisk.SplitFlushLoad | core/b_plus_tree/segment_tree.cpp:371-428 | any flushed leaf of one block: split, flush and load bring the entries that went to the new leaf back into the old one |
| LeafDisk.JustFlushedHappens | core/b_plus_tree/segment_tree.cpp:727-749 | there is such a leaf |
| LeafLoad.SameListing | core/b_plus_tree/segment_tree.cpp:786-809 | leaves that list the same entries have the same groups |
| LeafLoad.SameLookup | core/b_plus_tree/b_plus_tree.cpp:900-938 | with the same groups every lookup has the same items |
| SmallCapacity.SmallGood | core/b_plus_tree/b_plus_tree.cpp:280-282 | four leaves of two groups under two inner nodes, four files, eight items and no number given up are a tree in order for every capacity from 8 to 11 |
| SmallCapacity.SmallStates | core/b_plus_tree/b_plus_tree.cpp:280-282 | its leaves have valid segment trees |
| SmallCapacity.SmallCapacityLoses | core/b_plus_tree/b_plus_tree.cpp:682-694 | removing an index from it strands it |
| Leaf.Append | core/b_plus_tree/b_plus_tree.cpp:218-220 | a leaf gives exactly the outcomes the tree reckons with: the item is added to the group of its index, refused, or dropped, the last exactly by its sizes |
| Leaf.Split | core/b_plus_tree/b_plus_tree.cpp:226-233 | the last half of the groups, rounded down, moves to the new leaf, if and only if the segment tree is not torn; by how much each counter is off if it is |
| Leaf.BalanceLeaves | core/b_plus_tree/b_plus_tree.cpp:235-242 | two neighbouring leaves keep their groups in order and the smaller ends up with half, if and only if the larger is not torn, which it cannot be when it is the upper one |
| Leaf.Merge | core/b_plus_tree/b_plus_tree.cpp:244-247 | the groups of the two leaves one after the other, for any two valid segment trees with disjoint ranges |
| Leaf.RemoveIndex | core/b_plus_tree/b_plus_tree.cpp:224-224 | the leaf drops exactly the group of the index and tells whether it was there; a fault exactly if the last block of the index is another than its first and not in memory |
| Leaf.ListsSplit | core/b_plus_tree/segment_tree.cpp:371-428 | of two trees with disjoint ranges the upper holds the last groups, as many as it has indices |
| LeafFile.Append | core/b_plus_tree/segment_tree.cpp:85-199 | the places of the blocks through every branch of append: extents of their own, new and changed blocks in memory and marked, also in a tree whose counter of indices is off; every block is one there was, where it was and marked as it was, or is in memory and marked |
| LeafFile.Split | core/b_plus_tree/segment_tree.cpp:371-428 | through split: the block at which it stops is brought into memory but not marked; every other block of the old leaf is as it was or in memory and marked, and every block of the new leaf is in memory and marked |
| LeafFile.BalanceWith | core/b_plus_tree/segment_tree.cpp:430-535 | through balance_with, in both directions; every block is as it was or in memory and marked, but for the one that is cut in a lender below |
| LeafFile.Merge | core/b_plus_tree/segment_tree.cpp:537-572 | through merge; every block is as it was or in memory and marked |
| LeafFile.RemoveIndex | core/b_plus_tree/segment_tree.cpp:305-369 | through remove_index, with the block it uses without loading it; every block is as it was or in memory and marked |
| LeafPlaces.Insert | core/b_plus_tree/segment_tree.cpp:912-924 | blocks and gaps keep partitioning the file when a block joins; the block gets the first gap that is large enough, or the end of the file |
| LeafPlaces.Remove | core/b_plus_tree/segment_tree.cpp:926-936 | and when one leaves |
| SegmentQuery.ContainsIndex | core/b_plus_tree/segment_tree.cpp:574-585 | looking into the first block of the range decides for the tree |
| SegmentQuery.ItemCount | core/b_plus_tree/segment_tree.cpp:617-639 | counts every item of the index, whichever blocks it is in, or faults, exactly if a block of the range behind the first is not in memory |
| SegmentQuery.GetItem | core/b_plus_tree/segment_tree.cpp:641-668 | gives the item at a position of one fixed enumeration of the index, or none beyond its end; it faults exactly if a block out of memory is met before |
| SegmentQuery.GetItems | core/b_plus_tree/segment_tree.cpp:670-703 | lists the items of the index block by block |
| SegmentQuery.EnumeratesGroup | core/b_plus_tree/segment_tree.cpp:617-703 | both enumerations have every item stored under the index exactly once |
| LeafQuery.Enumerates | core/b_plus_tree/segment_tree.cpp:641-668 | so they enumerate exactly the group of the index |
| LeafQuery.RemoveGroup | core/b_plus_tree/b_plus_tree.cpp:625-650 | counting and removing the group of an index end in a fault exactly if one of its blocks behind the first is not in memory; otherwise the count is exact and the group is gone |
| LeafQuery.ScanLoads | core/b_plus_tree/b_plus_tree.hpp:276-377 | a scan up or down to an index leaves no block of the index out of memory |
| LeafQuery.ScannedUpLoads | core/b_plus_tree/segment_tree.cpp:13-55 | after a scan up to v exactly the blocks are in memory that were or that no block in front of them shuts off by reaching beyond v |
| LeafQuery.ScannedDownLoads | core/b_plus_tree/segment_tree.cpp:13-55 | after a scan down to v those that were or that no block behind them shuts off by reaching below v |
| Multimap.GroupOfPut | core/b_plus_tree/b_plus_tree.cpp:218-220 | the reference update sets one group and leaves every other alone |
| Multimap.GroupOfDrop | core/b_plus_tree/b_plus_tree.cpp:224-224 | the reference removal empties one group and leaves every other alone |
| Scan.ScanLeaf | core/b_plus_tree/b_plus_tree.hpp:296-313 | one leaf upward: the first wanted entries up to the limit, and why it stopped |
| Scan.ScanLeafDown | core/b_plus_tree/b_plus_tree.hpp:353-370 | the same downward |
| Scan.ScanRange | core/b_plus_tree/b_plus_tree.hpp:276-377 | both scans return exactly the first `limit` in-range entries that satisfy the predicate, of the flattened tree, in scan order |
| IndexQuery.LowerBoundIds | services/disk/index_disk.cpp:122-134 | exactly the ids of keys below the value |
| IndexQuery.UpperBoundIds | services/disk/index_disk.cpp:142-154 | exactly the ids of keys above the value |
| IndexQuery.FindIds | services/disk/index_disk.cpp:107-114 | counting and then asking item by item gives exactly the ids of the key, or a fault |
| IndexQuery.Find | services/disk/index_agent_disk.cpp:109-140 | for each comparison operator exactly the ids, as a multiset, that a filter over everything would keep; a fault exactly if the operator looks the key up and a block of it behind its first is not in memory |
| IndexDisk.Insert | services/disk/index_disk.cpp:74-86 | an id is added once under its key and nothing changes under any other, and the tree stays valid, exactly if it is not cut, torn or made to drop the item, told before the call; repeating the insert changes nothing; what the contents become when it drops the item or is cut; if all blocks were in memory and marked or in their files, they are so afterwards unless a full leaf is split |
| IndexDisk.RemoveKey | services/disk/index_disk.cpp:88-91 | all ids of the key go and no others, exactly if the removal neither strands the tree nor borrows from a torn leaf; if all blocks were in memory and marked or in their files, they are so afterwards unless it strands the tree or a leaf borrows from the left |
| IndexDisk.FindAll | services/disk/index_agent_disk.cpp:109-140 | the comparison queries on any valid tree; they change nothing but what is in memory |
| Page.EveryByteOwned | core/b_plus_tree/block.hpp:36-44 | in a tiled page every byte of the data area belongs to an item |
| Page.OwnedOnce | core/b_plus_tree/block.hpp:36-44 | and to no second one |
| Page.AvailableIsRoom | core/b_plus_tree/block.cpp:288-299 | the gap between data and records is the room the entries leave |
| Page.AppendSound | core/b_plus_tree/block.cpp:91-129 | an append keeps layout, order and counters and adds the entry in front of those of its index |
| Page.RemovedOne | core/b_plus_tree/block.cpp:150-172 | after one item is taken out the others tile again with their bytes and indices |
| Page.MergedTiled | core/b_plus_tree/block.cpp:497-518 | copying an upper page behind a lower one keeps every item of both |
| Compaction.Carve | core/b_plus_tree/block.cpp:579-609 | after the cutting loops every survivor is inside a span, the spans are apart, and their sizes miss exactly what was cut out; joining finds nothing to join |
| Compaction.HolesTotal | core/b_plus_tree/block.cpp:580-581 | because the first span is too long by a header, the holes between spans add up to exactly the removed bytes |
| Compaction.PackStep | core/b_plus_tree/block.cpp:617-620 | each move brings one span to its place and disturbs none already placed or still to come |
| Compaction.FollowOne | core/b_plus_tree/block.cpp:621-629 | each record is moved exactly once, when its span is |
| Compaction.PackedTiled | core/b_plus_tree/block.cpp:575-632 | the packed survivors keep index and bytes and tile the data area |
| Block.RemoveRange | core/b_plus_tree/block.cpp:575-632 | any range of records: survivors keep exact bytes, index and order, tile from the header, and the used bytes drop by exactly the removed sizes; the records are never touched |
| Block.FindRange | core/b_plus_tree/block.cpp:559-573 | exactly the positions of the index |
| Block.Block.Append | core/b_plus_tree/block.cpp:91-129 | refused exactly when there is no room or the item is there; otherwise the entry is added at its place, all else kept |
| Block.Block.Remove | core/b_plus_tree/block.cpp:138-175 | exactly one entry goes; the block is valid afterwards if and only if the item was there or its index was not |
| Block.RemoveMisses | core/b_plus_tree/block.cpp:138-175 | a block of one item: removing another item of its index reports success, keeps the item and leaves counters that say there is none |
| Block.Block.RemoveIndex | core/b_plus_tree/block.cpp:177-193 | exactly the entries of the index go |
| Block.Block.Contains | core/b_plus_tree/block.cpp:195-218 | both queries answer for the whole block |
| Block.Block.Split | core/b_plus_tree/block.cpp:406-444 | exactly the n highest entries move, in order, both blocks valid with exact counters |
| Block.Block.SplitUniques | core/b_plus_tree/block.cpp:446-486 | exactly the entries of the c highest indices move, no index is on both sides |
| Block.Block.MergeUpper | core/b_plus_tree/block.cpp:488-518 | the upper block's entries come in front, both counters exact, also when the blocks share an index |
| Block.Block.Restore | core/b_plus_tree/block.cpp:288-299 | recomputes exactly the used and available sizes the block had |
| Block.Block.SplitAndMerge | core/b_plus_tree/block.cpp:406-518 | splitting off and merging back restores entries and both counters |
| BlockSpec.StackReverses | core/b_plus_tree/block.cpp:467-481 | entries moved by split_uniques keep the positions of each index, in reverse inside an index |
| BlockSpec.UniquesCount | core/b_plus_tree/block.cpp:105-108 | the counter of distinct indices is the number of distinct indices |
| BlockSpec.AppendMeans | core/b_plus_tree/block.cpp:91-129 | nothing changes if there is no room or the entry is there; otherwise it goes behind all larger indices and in front of its own |
| GapTracker.GapTracker.FindGap | core/b_plus_tree/segment_tree.hpp:27-43 | the first gap that is large enough, or none exactly when no gap is; the extent overlaps no live one |
| GapTracker.GapTracker.RemoveGap | core/b_plus_tree/segment_tree.hpp:44-54 | the extent becomes free and is joined with the gaps it touches; free and live extents partition the region and their sizes add up to it |
| GapTracker.CleanGaps | core/b_plus_tree/segment_tree.hpp:55-64 | joins exactly the touching gaps |
| GapTracker.TakeTracks | core/b_plus_tree/segment_tree.hpp:30-38 | taking an extent keeps the partition |
| GapTracker.ReturnTracks | core/b_plus_tree/segment_tree.hpp:44-54 | giving one back keeps it |
| GapTracker.AllFree | core/b_plus_tree/segment_tree.hpp:55-64 | when everything is given back the region is one gap again |
| Segments.MidMeans | core/b_plus_tree/block.cpp:346-354 | the middle is the first position at which half of the block is reached |
| Segments.FallbackKeeps | core/b_plus_tree/block.cpp:383-403 | the fallback of split_append keeps every entry and the item, in order, in two or three non-empty blocks |
| Segments.EarlyKeepsOrLoses | core/b_plus_tree/block.cpp:346-381 | the early path keeps everything with the item, or exactly the old entries without it |
| Segments.EarlyIff | core/b_plus_tree/block.cpp:346-373 | with s the first position at which half of the block is reached: when the block is cut there and when the item is dropped, in sizes alone |
| Segments.LosesIff | core/b_plus_tree/block.cpp:335-403 | a block without room drops the item if and only if the lower half has room for it only with the entry at s, or no half is reached, the index is at or beyond an end, and the item would fit but for the header; otherwise exactly the item is added, in order |
| Segments.SplitAppendCuts | core/b_plus_tree/block.cpp:335-403 | which blocks come out: cut halfway or at the index, with the item in front of the upper part, behind the lower one or in a block of its own |
| Segments.LosesHappens | core/b_plus_tree/block.cpp:356-381 | sizes at which the item is dropped and an empty block is left |
| Segments.FreshFits | core/b_plus_tree/segment_tree.cpp:845-861 | a block made for an item holds it |
| Segments.FreshSmallest | core/b_plus_tree/block.hpp:26-29 | and its size is the smallest multiple of the default size that does |
| SegmentAppend.FindRange | core/b_plus_tree/segment_tree.cpp:811-824 | exactly the blocks whose range covers the index |
| SegmentAppend.CheckBlocks | core/b_plus_tree/segment_tree.cpp:101-113 | the blocks looked at decide for the whole tree whether item and index are there |
| SegmentAppend.Choose | core/b_plus_tree/segment_tree.cpp:114-194 | every branch leaves non-empty blocks in order with exactly the item added, unless the item is dropped |
| SegmentAppend.SplitPlaced | core/b_plus_tree/segment_tree.cpp:165-193 | splitting the chosen block grows the tree by the item exactly when the sizes do not lose it |
| SegmentAppend.DropsHappens | core/b_plus_tree/segment_tree.cpp:165-193 | a valid tree of two blocks and an item it drops |
| SegmentTree.SegmentTree.Append | core/b_plus_tree/segment_tree.cpp:85-199 | refused exactly when the item is there; otherwise valid with exact bounds and counters and exactly the item more, if and only if it is not dropped |
| SegmentTree.SegmentTree.FindBlocks | core/b_plus_tree/segment_tree.cpp:811-824 | the same on any valid tree |
| SegmentTree.SegmentTree.Split | core/b_plus_tree/segment_tree.cpp:371-428 | on any valid tree: contents and item counts conserved, the new tree counts the floor(n/2) largest indices; both trees are valid with ranges apart if and only if the tree is not torn; a torn one counts one index too few, and the new tree either shares that index or counts one too many, as the loop stops between blocks or in one |
| SegmentTree.SegmentTree.BalanceWith | core/b_plus_tree/segment_tree.cpp:430-535 | on any two valid trees with disjoint ranges: conserved, the smaller ends with floor((a+b)/2) indices; both valid and apart if and only if the other one is not below and torn; if it is, what is off as for split |
| SegmentTree.SegmentTree.Merge | core/b_plus_tree/segment_tree.cpp:537-572 | for any two valid trees with disjoint ranges everything of the other tree is taken over, both counters exact, and it ends up empty |
| SegmentTree.SegmentTree.RemoveIndex | core/b_plus_tree/segment_tree.cpp:305-369 | on any valid tree exactly the entries of the index go, from however many blocks, and the result tells whether there were any |
| SegmentRemove.RemoveIndex | core/b_plus_tree/segment_tree.cpp:305-369 | the same on the fields: bounds and both counters exact afterwards |
| SegmentBalance.MoveTop | core/b_plus_tree/segment_tree.cpp:384-425 | the given number of largest indices moves up, whole blocks first, then part of one; right if and only if the block it stops in does not share its largest index with the block above |
| SegmentBalance.MoveBottom | core/b_plus_tree/segment_tree.cpp:489-533 | the given number of smallest indices moves down, right for any valid trees |
| SegmentBalance.SplitBlock | core/b_plus_tree/block.cpp:446-486 | both parts of a block split between indices are good blocks with disjoint ranges |
| SegmentBalance.DistinctAdd | core/b_plus_tree/segment_tree.cpp:391-393 | two lists of blocks in order have the indices of both, less the one they may share |
| SegmentBalance.TornHappens | core/b_plus_tree/segment_tree.cpp:408-411 | a valid tree of two indices that split tears |
| SegmentBalance.NoSpanNotTorn | core/b_plus_tree/segment_tree.cpp:393-408 | a tree with no index in two blocks is never torn |
| SegmentFile.CloseGaps | core/b_plus_tree/segment_tree.cpp:957-975 | terminates with one gap at the end; every block moves down by exactly the gaps that were in front of it and is marked exactly if it moves, order and bytes kept |
| SegmentFile.CloseTracks | core/b_plus_tree/segment_tree.cpp:960-974 | closing the first gap keeps blocks and gaps a partition |
| SegmentFile.TiledFront | core/b_plus_tree/segment_tree.cpp:747-747 | then the blocks tile the file from the header up to the truncation point |
| SegmentFile.FlushedSafe | core/b_plus_tree/segment_tree.cpp:735-747 | a block is in the flushed file exactly when it was written or was there before |
| SegmentFile.ImagesDiffer | core/b_plus_tree/segment_tree.cpp:735-747 | blocks with the same cells are the same |
| SegmentFile.SegmentFile.Flush | core/b_plus_tree/segment_tree.cpp:727-749 | header, blocks and length of the file after a flush |
| SegmentFile.SegmentFile.CleanLoad | core/b_plus_tree/segment_tree.cpp:751-784 | whatever was held before: the blocks of the header come back in order with the bytes the file has for them; valid if and only if they fill the file without overlapping |
| SegmentFile.SegmentFile.Reopen | core/b_plus_tree/segment_tree.cpp:727-784 | flush then load put every block where the gaps that were in front of it leave it and restore it exactly when it was in memory and marked or moved, or in the file there; always when all are in memory and marked |
| SegmentFile.SegmentFile.Insert | core/b_plus_tree/segment_tree.cpp:912-924 | a new block gets the first gap that is large enough, as an extent of its own, refused exactly if there is none; valid if and only if free space is left at the end |
| SegmentFile.SegmentFile.Remove | core/b_plus_tree/segment_tree.cpp:926-936 | its extent is given back |
| PhysicalValue.IntLessByValue | components/types/physical_value.cpp:5-20 | integers of any width and sign compare by value |
| PhysicalValue.LessIsBefore | components/types/physical_value.cpp:61-175 | operator< is the intended order on every pair whose integers survive conversion |
| PhysicalValue.LessIsStrictWeak | components/types/physical_value.cpp:61-187 | it is a strict weak order, and the derived comparisons are those of that order |
| PhysicalValue.EqualMeans | components/types/physical_value.cpp:179-181 | == means the same boolean, number or string, or both null |
| PhysicalValue.StrLessLexicographic | components/types/physical_value.cpp:88-91 | string comparison is lexicographic |
| PhysicalValue.Limits | components/types/physical_value.hpp:113-118 | the two limits are bottom and top |
| PhysicalValue.NearestIsNearest | components/types/physical_value.cpp:9-12 | the conversion of an integer rounds to the nearest number of the type, and a tie to the even one |
| PhysicalValue.FloatCompareNearest | components/types/physical_value.cpp:9-12 | so any integer compares with any floating-point number as that nearest one does |
| PhysicalValue.FloatCompareExact | components/types/physical_value.cpp:9-12 | when integers and floating-point numbers compare by value |
| PhysicalValue.FloatBreaksEquivalence | components/types/physical_value.cpp:9-12 | a float between two integers it cannot tell apart |
| MetadataFile.ReadsBackIff | services/disk/metadata.cpp:91-133 | parsing what was printed, in any order, restores the catalogue if and only if the names are clean |
| MetadataFile.ParseClean | services/disk/metadata.cpp:91-120 | any text parses to clean names without repetitions |
| MetadataFile.ParsesText | services/disk/metadata.cpp:91-120 | what any text parses to, by lines: a database and its collections, each added once, in order, behind what is there; what has no colon or is behind the last semicolon is skipped |
| MetadataFile.EveryText | services/disk/metadata.cpp:91-120 | and every text is made of such lines |
| MetadataFile.UnionOn | services/disk/metadata.cpp:60-73 | a database on two lines has the collections of the first, then the new ones of the second |
| MetadataFile.PrintAll | services/disk/metadata.cpp:122-133 | the printer writes each database once, in some order |
| MetadataFile.ParseAll | services/disk/metadata.cpp:99-119 | the parsing loops compute the parse of the text |
| MetadataFile.Metadata.Flush | services/disk/metadata.cpp:122-133 | reopening gives the catalogue back exactly if its names are clean |
| MetadataFile.Metadata.AppendDatabase | services/disk/metadata.cpp:33-42 | the databases are the old ones and this one; each old one keeps its list, a new one has none; the result tells whether it is new |
| MetadataFile.Metadata.RemoveDatabase | services/disk/metadata.cpp:44-50 | this database goes, every other keeps its list |
| MetadataFile.Metadata.AppendCollection | services/disk/metadata.cpp:60-73 | refused, without any change, exactly if the database is unknown or has the collection; otherwise its list is the old one and the collection at the end, and every other database keeps its list |
| MetadataFile.Metadata.RemoveCollection | services/disk/metadata.cpp:75-89 | refused, without any change, exactly if the database is unknown or lacks the collection; otherwise it goes from its place in the list, and nothing else changes |
| SpinLock.StepAccurate | core/spinlock/spinlock.cpp:20-71 | each atomic step keeps the flag accurate, except exactly the one that counts past LONG_MAX |
| SpinLock.Acquires | core/spinlock/spinlock.cpp:20-71 | from any flag that allows the lock, however many readers there are, an undisturbed call of any form ends with it, the flag one higher or LONG_MIN |
| SpinLock.WaitsThenAcquires | core/spinlock/spinlock.cpp:20-64 | and so does a call that has waited, whatever it saw last |
| SpinLock.ReadersShare | core/spinlock/spinlock.cpp:53-71 | two readers hold the lock at once |
| SpinLock.CallEnds | core/spinlock/spinlock.cpp:20-71 | a call ends with the lock, which could be had then, or, in a try form only, without any change, as the value it loaded forbids the lock or the swap failed |
| SpinLock.TryDecides | core/spinlock/spinlock.cpp:48-51 | a call swaps exactly if the value it loaded does not forbid the lock: not zero for a writer, negative for a reader |
| SpinLock.EveryRunAccurate | core/spinlock/spinlock.cpp:20-71 | in every interleaving, with spurious failures, the flag is LONG_MIN with one writer and no reader or the number of readers with no writer, as long as that number fits |
| SpinLock.MutualExclusion | core/spinlock/spinlock.cpp:20-46 | a writer is alone |
| SpinLock.ReaderShutsWritersOut | core/spinlock/spinlock.cpp:53-64 | while a reader takes no step, no other thread becomes the writer |
| SpinLock.UpgradeCanBeOvertaken | core/spinlock/spinlock.cpp:36-39 | a run in which another thread writes in the middle of an upgrade exists if and only if the lock has two threads |
| SpinLock.OvertakenIff | core/spinlock/spinlock.cpp:36-39 | for a given thread it exists if and only if some other thread may start lock or try_lock |
| SpinLock.OvertakenBetween | core/spinlock/spinlock.cpp:36-39 | the overtaking thread was not the writer when the shared lock was released |
| Glob.Glob | core/file/path_utils.cpp:42-145 | terminates and says whether the text matches, for every text and pattern and with the question mark allowed or not: whether the pattern is written as elements, and the text can be cut into one part for each, which the element stands for |
| Glob.GlobStar | core/file/path_utils.cpp:50-64 | after a star, not trying the empty rest of the text loses no match |
| Glob.MatchBracket | core/file/path_utils.cpp:96-144 | a bracket accepts exactly the characters in its ranges, or exactly the others |
| Glob.TokensWritten | core/file/path_utils.cpp:46-144 | reading a pattern gives back the elements it was written as: wildcards, bare and escaped characters, and brackets of single characters and ranges |
| Glob.TokensSpelled | core/file/path_utils.cpp:46-144 | and every pattern that does not end inside an escape or a bracket was written so |
| Glob.NeverMatches | core/file/path_utils.cpp:46-144 | one that does matches nothing |
| Glob.MatchesRead | core/file/path_utils.cpp:42-145 | the language of what is read is the texts the elements stand for |
| Glob.OrdinaryMatches | core/file/path_utils.cpp:82-86 | a pattern of ordinary characters matches itself and nothing else |
| Glob.RangesMean | core/file/path_utils.cpp:96-144 | a bracket has its single characters and those between two bounds |
| Glob.LanguageOfNothing | core/file/path_utils.cpp:50-64 | only stars match the empty text |
| FixedPoint.IPow | core/numbers/fixed_point.hpp:42-59 | the power, with no product on the way above it |
| FixedPoint.RescaledValue | core/numbers/fixed_point.hpp:211-217 | refining the scale keeps the denoted number |
| FixedPoint.RescaleRoundTrip | core/numbers/fixed_point.hpp:61-80 | refining and coming back gives the same representation |
| FixedPoint.CoarserTruncates | core/numbers/fixed_point.hpp:61-80 | coarsening the scale loses less than one unit of the new scale, always toward zero; there is only one such number (`FixedPoint.TruncatesOnce`) |
| FixedPoint.CoarserValue | core/numbers/fixed_point.hpp:211-217 | the same on the numbers denoted |
| FixedPoint.Coarsen | core/numbers/fixed_point.hpp:211-217 | and it stays inside the range whenever the power does |
| FixedPoint.Compare | core/numbers/fixed_point.hpp:296-330 | the comparisons, inside the range of the type, are those of the denoted numbers |
| FixedPoint.Refine | core/numbers/fixed_point.hpp:211-217 | rescaling to a finer scale stays inside the range whenever the power and the result do |
| FixedPoint.ZeroNotAlignable | core/numbers/fixed_point.hpp:61-80 | a zero whose rescaling leaves the range |
| FixedPoint.AddGuards | core/numbers/fixed_point.hpp:234-242 | the sum and difference guards hold exactly when the true result leaves the range |
| FixedPoint.MulGuard | core/numbers/fixed_point.hpp:249-260 | the product guard likewise, under truncating division |
| FixedPoint.DivGuard | core/numbers/fixed_point.hpp:244-247 | the quotient guard likewise |
| FixedPoint.AddExact | core/numbers/fixed_point.hpp:262-270 | a sum is exact or refused, exactly as the true result fits |
| FixedPoint.SubtractExact | core/numbers/fixed_point.hpp:272-280 | a difference likewise |
| FixedPoint.MultiplyFits | core/numbers/fixed_point.hpp:282-287 | a product is refused exactly when it does not fit |
| FixedPoint.MultiplyExact | core/numbers/fixed_point.hpp:282-287 | a product that is not refused is exact |
| FixedPoint.DivideFits | core/numbers/fixed_point.hpp:289-294 | a quotient is refused exactly when it does not fit |
| FixedPoint.DivideExact | core/numbers/fixed_point.hpp:289-294 | a quotient misses the true one by the remainder of the integers |
| FixedPoint.Mod | core/numbers/fixed_point.hpp:332-337 | inside the range of the type: the remainder fits, differs from the dividend by a whole multiple of the divisor, is smaller than it and has the sign of the dividend, whenever the operands can be aligned and are not the smallest number and minus one |
| FixedPoint.ModuloFits | core/numbers/fixed_point.hpp:332-337 | once the operands are aligned the remainder fits always, and the quotient it is defined by fits exactly when they are not those two |
| FixedPoint.ModuloUndefined | core/numbers/fixed_point.hpp:332-337 | at every scale the smallest number modulo minus one is undefined, though operands and remainder are in range |
| FixedPoint.ModuloBounds | core/numbers/fixed_point.hpp:332-337 | as integers of any size: the remainder is smaller than the divisor and has the sign of the dividend |

## Left out

- Keys in the tree, the segments and the blocks are integers: only their order is used there, and `PhysicalValue` shows that the engine's keys are ordered. The two limits of the key order appear as parameters; an index equal to the smallest key (boolean false) in `split_append`, and null indices in `split` and `balance_with`, are not modelled.
- What the tree does after one of its leaves has been torn or has dropped an item, or after a query has ended in a fault, is not modelled; the store then says what the leaf was meant to have. Where an item stands inside its group is left open.
- BTree.BTree.Append: what the contents are after a leaf has been torn is described leaf by leaf only (`Leaf.Split`, `SegmentBalance.MoveTop`).
- BTree.BTree.RemoveIndex: below capacity 8, taking the only index of a leaf that is not the root is excluded, as the assertions of the source exclude it.
- IndexDisk.Insert: the flush at its end, and that of `IndexDisk.RemoveKey`, is `TreeDisk.Flush` and not part of it.
- TreeDisk.Reload: that blocks differ when one was not safe is not carried to the groups, as a file may have other blocks with the same entries; `LeafDisk.SplitFlushLoad` does it for a split.
- BTree.BTree.constructor: capacities below 4 are not covered, where a minimum of zero would allow empty nodes.
- `btree_t::remove(item)` and `segment_tree_t::remove`: a second removal and a mixed count test in the first; `remove_index` of both is modelled.
- Node and tree mutexes of the tree: it is modelled sequentially.
- `block_t::resize` and the lower and overlapping branches of `block_t::merge`: their copy sizes do not support a general contract; merging into an empty block takes the overlapping branch.
- Block.Block.Restore: the start of the records, which the source finds from the saved count, is not recovered from bytes, as records are values.
- Block.Block.SplitUniques: the index of an entry is assumed to be the one its item has, which is what `append(item)` recomputes.
- The records of a block, the header of a segment file and the metadata file of the tree are values, not encoded bytes; the bytes of a file are symbolic, so a block is read back exactly if all of its cells are there, which is what the checksum is for. String storage, pointer rebasing, allocators, timestamps, unloading of old blocks under memory pressure and the file system are not modelled. A segment file may grow without bound, where the source has 2^64 bytes, and any number of blocks fits into its header. The limit on the number of leaf numbers in the metadata file is not modelled.
- Infinities and not-a-number, and 128-bit integers, in `PhysicalValue`.
- `FixedPoint`: multiplications in `rescaled` are not guarded in the source; sums, differences, remainders and comparisons are exact where the power and both operands fit at the finer scale (`Alignable`). Division by zero, conversions from and to floating point and printing are not modelled.
- Memory orders and fairness of the spinlock, and the plain `spin_lock`.
- `index_disk_t::remove(key, doc)`, which uses `btree_t::remove(item)`.
- Documents, tries, tapes, actors, dispatchers, the SQL front end, planners, cursors and bindings.
