# Verified models of the bo_atom data structures

bo_atom collects C data structures: an incrementally rehashed dictionary, three ordered containers, a latched
tree for lockless readers, two MD5 implementations and a consistent-hash ring. This project models them in Dafny
and proves what they promise. Structures that the C code changes in place are classes whose methods change nodes
and fields in place; each is tied to a value (a finite map, a sorted sequence, a snapshot of a heap of nodes, the
message hashed so far), and the laws are proved about that value. `dafny verify dfyconfig.toml` checks everything.

## What is proved

**Dictionary** (`Dict*`, `ScanCursor`, `ReverseLoop`, `Bits`). Two tables of chained nodes refine one finite map,
and migration between them is never observable. The scan cursor is analysed through the reversed hash: which
hashes a call moves past does not depend on any table size. From this follow the coverage of whole scans, their
termination, and the exact condition under which a call made in the middle of a migration is safe. Safe iterators
return every undeleted key exactly once, first on values and then for the nodes in the heap with the operations
run in between. What one call of the scan passes on is named exactly. When migrations start, how full the tables get
until then, and when they end, is stated in numbers.

**Red-black tree with parent pointers** (`Rb*`). Nodes carry ghost places: an interval that narrows down the tree,
so that rotations visibly keep the order, and a black count. Insertion and erasure, with cached leftmost node and
augmented values, keep the red-black tree and change the in-order sequence by exactly one node. The traversals,
and the conditions that the repository's own test module checks at run time, are theorems about every good tree.

**Top-down red-black tree** (`Jsw*`). The loops are followed with a zipper: the path above the node reached, and the
subtree below it. The helpers that a rotation leaves behind are shown to be out of date only as long as nobody
uses them; the erasure always carries red down to the node it unlinks.

**Skip list** (`Skip*`). One sequence of nodes, indexed on up to 32 levels. All levels, spans and backward links agree
with the sequence after every insertion and deletion, and every query is a statement about the sequence.

**Latched tree** (`Latch`). One writer and any number of readers, interleaved step by step over two copies and a
sequence word. A find that returns is linearizable, with the exact condition on the sequence word, and a find that is left alone
returns.

**MD5** (`Md5*`). Both implementations, in any chunking, compute the digest of sections 3.1 to 3.5 of RFC 1321, so
they agree; the specification itself is pinned by digests from section A.5.

**Ring** (`Ketama`). The lookup finds the unique owner, and deleting entries moves only the keys they owned.

## Where the code departs from its promise

- `dictScan` (`redis_dict/dict.c:778-779`) promises every element that is there from start to end. Shrinking breaks
  this. Input: a table of 16 buckets, a scan that has reached cursor 8, `dictExpand` to 4 buckets, a key with hash 4.
  The second call visits bucket 0 of the small table and buckets 8 and 12 of the large one, not 4; the scan then
  returns to 0 without the key (`DictScan.ShrinkingScanLosesAKey`). Exact condition, for every pair of sizes and
  every cursor: a call made while rehashing is safe for all dictionaries if and only if the bits of the cursor
  between the two masks are 0 or of the form 2^i - 1 (`ScanCursor.NoGapCondition`, `DictScan.SafeExactly`). Without
  resizes to fewer buckets these bits are always 0 (`DictScan.GrowthScanCoverage`).
- `_dictNextPower` saturates at LONG_MAX (`redis_dict/dict.c:953`), which is no power of two, so that `sizemask` would not
  be a mask. Input: `dictExpand` with a size of LONG_MAX. Exact condition: the dictionary stays well-formed if and only
  if the call refuses or the size is below LONG_MAX (`DictOps.NextPowerOk`, `DictOps.ExpandOk`).
- `jsw_rbinsert` and `jsw_rberase` count unconditionally (`data_structure/red_black/jsw_rbtree.c:307`, `:408`). Input:
  insert 1 twice, and the counter says 2 for one element; erase 2 from the tree of 1, and it says 0
  (`JswTree.InsertDrifts`, `JswTree.EraseDrifts`). Exact condition: a right counter stays right if and only if the key
  was absent before the insertion; and if and only if the key was present before the erasure or the tree was empty,
  as an empty tree is left alone (`JswTree.RbTree.Insert`, `JswTree.RbTree.Erase`, `JswTree.SizeFollows`).
- `jsw_rberase` is documented to return 0 when nothing was removed (`data_structure/red_black/jsw_rbtree.c:319-321`), but
  returns 1 always. Input: erase 2 from the tree of 1 (`JswTree.EraseDrifts`). Exact condition: the answer is the
  documented one if and only if an equal element was there (`JswTree.RbTree.Erase`).
- `zslDelete` uses `i` after its loop has taken it to -1 (`data_structure/skiplist/skiplist.c:170`) and so reads in front
  of an array of levels. Input: deleting 5 from the list of 5 (`SkipList.DeleteReadsOutside`). Exact condition: the
  read happens if and only if some object does not compare less (`SkipList.SkipList.Delete`). The deletion itself
  follows the evident intent, a comparison with the object of the node found; this is the one place where the model
  does not follow the text of the code.
- `latch_tree_find` compares a sequence word of 32 bits. Input: two elements e and e + 1, a reader looking for e that has
  loaded the root, which is e + 1, and then 2^31 updates, or a positive multiple of that. The first one inserts e - 1 and
  so rotates e above e + 1; below e + 1 nothing is left of e, and the search ends there. By the time it compares the word,
  that has come round to its old value. The find misses an element that was in the set all the time
  (`Latch.WrapAroundMisses`). Exact condition: a find returns only with a multiple of 2^32 latch steps inside it, and
  is sure to be right if and only if that multiple is 0 (`Latch.ReturnsOnMultiples`, `Latch.GuaranteedExactly`). An
  element that is found is never wrong in the sense that it was linked at some time (`Latch.FoundWasLinked`).

## Model

| member | source | states |
|---|---|---|
| ReverseLoop.ReverseBits | redis_dict/dict.c:759-767 | the halving loop with its shifted masks computes the recursive bit reversal of a word of 2^j bits, for every j and every word |
| ReverseLoop.RevBit | redis_dict/dict.c:759-767 | what that reversal means: bit i of the word is bit n-1-i of the result |
| Bits.RevRev | redis_dict/dict.c:912-919 | reversing the low k bits twice gives those bits back, so reversing before and after the increment loses nothing |
| ScanCursor.NextPosition | redis_dict/dict.c:912-919 | after setting the bits outside the mask and counting up in reversed order, the cursor is 0 exactly after the last bucket, and otherwise stands where the next bucket of the smaller table begins in the reversed order of hashes |
| ScanCursor.CursorAdvances | redis_dict/dict.c:853-922 | the reversed cursor grows strictly until it comes back to 0 |
| ScanCursor.NextCursorCovers | redis_dict/dict.c:853-922 | a hash is passed after a call if and only if it was passed before or falls into the bucket just visited; the statement does not mention the table size, which is why a scan survives resizing |
| ScanCursor.NextCursorCounts | redis_dict/dict.c:912-919 | seen through the mask of k bits, the reversed cursor counts up by one |
| ScanCursor.ExpandRound | redis_dict/dict.c:895-910 | one round of the do-while loop keeps the bits under the smaller mask and adds one to the bits between the masks, and the loop stops exactly when those bits are all ones |
| ScanCursor.ExpansionsExact | redis_dict/dict.c:895-910 | the loop visits exactly those buckets of the larger table that share the low bits of the cursor and whose bits between the masks are not below the cursor's |
| ScanCursor.NoGapCondition | redis_dict/dict.c:895-910 | a call with two tables leaves no hash out if and only if the bits of its cursor between the two masks are 0 or 2^i - 1 |
| ScanCursor.NoGapForHash | redis_dict/dict.c:895-910 | under that condition every hash of the visited bucket that was not passed before lies in a bucket that the loop visits |
| ScanCursor.GapHash | redis_dict/dict.c:895-910 | without that condition, a hash that the call moves past without visiting its bucket |
| DictScan.CallCovers | redis_dict/dict.c:853-922 | on a well-formed dictionary, a call whose cursor leaves no gap passes to fn every present key whose hash it moves past |
| DictScan.ScanCoverage | redis_dict/dict.c:853-922 | scan coverage: a scan from cursor 0 back to 0 has passed every key that was present at each of its calls to fn, whatever happened to the tables between the calls, provided no call made while rehashing left a gap |
| DictScan.GrowthScanCoverage | redis_dict/dict.c:853-922 | with any additions, replacements, lookups, deletions, rehashing steps and resizes to no fewer buckets between the calls, starting from a dictionary that is not shrinking, no call leaves a gap, so every key present at each call is passed to fn |
| DictScan.ReachesGrows | redis_dict/dict.c:204-451 | those operations keep a dictionary well-formed and never make a table smaller |
| DictScan.StaticScanVisitsOnce | redis_dict/dict.c:853-922 | on an unchanging table the scan ends after exactly as many calls as there are buckets, and visits every bucket exactly once |
| DictEmit.EmittedExactly | redis_dict/dict.c:862-910 | a call passes an entry to fn exactly once if it is present with that value and its bucket is visited, and otherwise not at all; while rehashing the buckets visited are the cursor's in the smaller table and in the larger one the expansions that are not below the cursor |
| DictEmit.EmptyScan | redis_dict/dict.c:862 | an empty dictionary passes nothing and ends the scan |
| DictEmit.StaticScanPassesOnce | redis_dict/dict.c:853-922 | a whole scan of a dictionary that does not change passes every entry in exactly one of its calls, and there once |
| DictScan.ScanEnds | redis_dict/dict.c:853-922 | however the tables change, call m of a scan has its cursor at reversed place m-1 or later, and the place grows with every call |
| DictScan.ScanIsFinite | redis_dict/dict.c:853-922 | so a scan over tables whose smaller one never exceeds 2^k buckets makes at most 2^k calls |
| DictScan.GapLosesAKey | redis_dict/dict.c:895-910 | for all pairs of sizes, either direction of resizing and every cursor with a gap: a well-formed dictionary rehashing between those sizes, and a key in it that the call moves past without passing it to fn |
| DictScan.SafeExactly | redis_dict/dict.c:895-910 | a call made while rehashing between two sizes is safe for every dictionary if and only if its cursor leaves no gap |
| DictScan.ShrinkingScanLosesAKey | redis_dict/dict.c:772-848 | the coverage promise fails for a shrinking table: shrinking from 16 to 4 buckets, a scan with cursors 0, 8, ... comes back to 0 without ever passing the key with hash 4, which is present all the time |
| DictHeap.Dict.Scan | redis_dict/dict.c:853-922 | dictScan on the tables in the heap returns the entries in the order and the cursor that the scan results above are about, and changes nothing |
| DictHeap.ScanBoth | redis_dict/dict.c:881-910 | the part with two tables: the bucket of the smaller table, then the loop over its expansions, ends with the entries of all of them in order |
| DictHeap.Advance | redis_dict/dict.c:912-919 | the last four statements compute the next cursor from the word that the loop before left |
| DictModel.PushOk | redis_dict/dict.c:356-366 | linking a new entry in front of its chain keeps a table well-formed, adds the key to what is found and one to the number of entries |
| DictModel.MoveChainOk | redis_dict/dict.c:261-274 | moving a whole chain entry by entry puts each at hash & sizemask of the target and leaves the target finding what the chain or it found |
| DictModel.MoveBucketOk | redis_dict/dict.c:261-276 | migrating one bucket changes no lookup, keeps the invariant (each entry in one table only, buckets before rehashidx empty) and shifts the counts by the length of the chain |
| DictOps.OkPending | redis_dict/dict.c:252-258 | while entries remain in the first table, rehashidx is inside it and a non-empty bucket lies at or behind it: the assertion in the source holds and the skipping loop stops |
| DictOps.RehashStepsOk | redis_dict/dict.c:245-276 | any number of migration rounds, with any budget of empty visits, changes no lookup, and makes progress when there is something to migrate |
| DictOps.RehashOk | redis_dict/dict.c:245-288 | dictRehash changes nothing observable for any n, reports "more" exactly while rehashing goes on, and can only end by making the second table the first |
| DictOps.NextPowerOk | redis_dict/dict.c:949-959 | below LONG_MAX the result is a power of two that is at least the size asked for and the initial size, and less than twice the size unless it is the initial one; from LONG_MAX on it is LONG_MAX and no power of two |
| DictOps.ExpandOk | redis_dict/dict.c:204-234 | for every size: dictExpand refuses exactly while migrating, when there are more entries than that, and when the size would stay the same, and then without a change; otherwise it starts a migration to a table of the next power of two, or fills the first slot, always with the same map; the dictionary stays well-formed unless a table is made for a size of LONG_MAX or more |
| DictOps.ExpandIfNeededOk | redis_dict/dict.c:927-946 | the implicit expansion never fails, keeps the map and leaves a first table with buckets |
| DictOps.AddOk | redis_dict/dict.c:322-372 | dictAdd succeeds if and only if the key is absent, and then changes the map at that key only |
| DictOps.FindOk | redis_dict/dict.c:492-511 | dictFind returns the value the map has, and its rehashing step changes no lookup |
| DictOps.DeleteOk | redis_dict/dict.c:412-447 | dictDelete succeeds if and only if the key is present; afterwards that key, and no other, is gone |
| DictOps.ReplaceOk | redis_dict/dict.c:378-397 | dictReplace always leaves the key with the new value and all others alone, and reports whether the key was new: the entry it dereferences after a failed addition exists |
| DictOps.ContentsOk | redis_dict/dict.c:927-989 | two live tables stand for one finite map: a lookup is a lookup in it, and the two used counts add up to its size |
| DictLoad.FirstTable | redis_dict/dict.c:927-935 | the first entry goes into a table of 4 buckets |
| DictLoad.MigrationStarts | redis_dict/dict.c:936-946 | an addition to a dictionary that is not migrating starts a migration exactly when it has an entry for every bucket, with resizing enabled, or six, with resizing disabled; the new table has from two to less than four buckets for every entry |
| DictLoad.ReachesBounded | redis_dict/dict.c:204-451 | from any state within the load bound, every sequence of operations without resizes to fewer buckets ends within it, for the bound of one entry per bucket and for that of six |
| DictLoad.LoadBound | redis_dict/dict.c:204-451 | with resizing enabled and no iterator a dictionary never holds more entries than the table it has, or migrates to, has buckets, and used[0] + used[1] + (size[0] - rehashidx) <= size[1] + 1 all through a migration |
| DictLoad.LoadBoundDisabled | redis_dict/dict.c:204-451 | whether resizing is enabled or not, there are never more than six entries per bucket |
| DictLoad.MigrationEnds | redis_dict/dict.c:245-319 | without iterators a migration is over after at most as many additions, deletions and lookups in a non-empty dictionary as there are buckets left to migrate |
| DictLoad.RehashBudget | redis_dict/dict.c:245-288 | when dictRehash(n) leaves more to do it has moved n buckets and passed fewer than 10n empty ones, or passed 10n empty ones and moved fewer than n |
| DictHeap.Dict.constructor | redis_dict/dict.c:168-188 | dictCreate makes a valid dictionary without tables |
| DictHeap.Dict.Rehash | redis_dict/dict.c:245-288 | dictRehash on arrays of chained nodes refines the rehashing of the map model, return value included |
| DictHeap.Dict.MoveChainNodes | redis_dict/dict.c:259-276 | relinking the nodes of one bucket in place refines the migration of that bucket and creates no node |
| DictHeap.Dict.SkipEmptyBuckets | redis_dict/dict.c:255-258 | the loop over empty buckets ends at the first non-empty one or when its visits are used up |
| DictHeap.Dict.RehashStep | redis_dict/dict.c:317-319 | the single step refines the model, and with a safe iterator open moves no node |
| DictHeap.Dict.Expand | redis_dict/dict.c:204-234 | dictExpand on the heap refines the model and keeps every node in its chain |
| DictHeap.Dict.ExpandIfNeeded | redis_dict/dict.c:927-946 | _dictExpandIfNeeded on the heap refines the model and keeps every node in its chain |
| DictHeap.Dict.Add | redis_dict/dict.c:322-372 | dictAdd on the heap refines the model; with a safe iterator open every node stays in its chain |
| DictHeap.Dict.Find | redis_dict/dict.c:492-511 | dictFind returns the node of the key, or null exactly when the map has no such key; with a safe iterator open no chain changes |
| DictHeap.Dict.Replace | redis_dict/dict.c:378-397 | dictReplace on the heap refines the model; with a safe iterator open every node stays in its chain |
| DictHeap.Dict.Delete | redis_dict/dict.c:412-447 | dictGenericDelete on the heap refines the model; with a safe iterator open every node but that of the key stays in its chain |
| DictIter.WalkOk | redis_dict/dict.c:578-611 | the loop of dictNext returns some entry beyond its starting point if there is one, with its current value, and afterwards exactly the others are ahead |
| DictIter.NextOk | redis_dict/dict.c:578-611 | dictNext returns a key that was ahead, after which exactly the other keys ahead are ahead; it reports the end only when nothing is |
| DictIter.DropKeepsAhead | redis_dict/dict.c:412-447 | deleting any key but the one the iterator has saved keeps the iterator valid and the other keys ahead or behind, as they were |
| DictIter.AddKeepsAhead | redis_dict/dict.c:346-372 | so does an addition, even one that starts an expansion |
| DictIter.ReplaceKeepsAhead | redis_dict/dict.c:378-397 | so does a replacement |
| DictIter.ResizeKeepsAhead | redis_dict/dict.c:204-234 | so does an explicit resize, to more or to fewer buckets |
| DictIter.RunKeeps | redis_dict/dict.c:571-623 | over a whole run, a key that is never deleted is at every moment either ahead and not returned, or returned once and not ahead |
| DictIter.SafeIteration | redis_dict/dict.c:571-623 | safe iteration: with additions, replacements, lookups, deletions and resizes in between, a key present from the start and not deleted is returned exactly once by the time the end is reported |
| DictHeap.SafeIterator.Next | redis_dict/dict.c:578-611 | dictNext on the heap returns what the model returns, counts the iterator on its first call, and leaves an iterator that is valid on the nodes it points to |
| DictHeap.SafeIterator.Release | redis_dict/dict.c:614-623 | releasing an iterator takes it off the count if and only if it was started |
| DictSafe.Perform | redis_dict/dict.c:571-623 | one addition, replacement, lookup, deletion, resize or dictNext on the dictionary in the heap keeps the open iterator valid and follows the run of the model |
| DictSafe.SafeWalk | redis_dict/dict.c:571-623 | safe iteration in the heap: a whole run of dictNext and interleaved operations returns every undeleted key that was there at the start exactly once, and releasing the iterator restores the count |
| RbTree.Root.Insert | data_structure/kernel_struct/rbtree_test.c:124-150 | from any good tree (red-black, keys ascending, augmented values right, leftmost cached) inserting a node gives a good tree whose in-order sequence has the node added where its key belongs, behind equal keys |
| RbTree.Root.Erase | data_structure/kernel_struct/rbtree_augmented.h:161-288 | from any good tree, __rb_erase_augmented and then ____rb_erase_color give a good tree whose in-order sequence has lost exactly that node; the cached leftmost moves on when it was erased |
| RbTree.Root.InsertColor | data_structure/kernel_struct/rbtree.c:96-236 | __rb_insert terminates, turns a tree whose only offence is a red node under a red parent into a red-black tree with the same in-order places, and caches the leftmost node |
| RbInsert.RedUncle | data_structure/kernel_struct/rbtree.c:131-153 | case 1: recolouring moves the offence two levels up and nothing else |
| RbInsert.InnerChild | data_structure/kernel_struct/rbtree.c:211-224 | case 2: the rotation at the parent makes the parent the offending node, without a change of order |
| RbInsert.OuterChild | data_structure/kernel_struct/rbtree.c:182-198 | case 3: the rotation at the grandparent finishes the tree |
| RbInsertSteps.LeftSideDone | data_structure/kernel_struct/rbtree.c:155-198 | what cases 2 and 3 write, where case 2 sets fewer links than a rotation, is what two rotations give, and it is a red-black tree with the same in-order places |
| RbInsertSteps.RightSideDone | data_structure/kernel_struct/rbtree.c:211-233 | the same on the other side |
| RbRotate.RotateRightShape | data_structure/kernel_struct/rbtree.c:192-197 | a rotation keeps links, parents and the in-order places |
| RbRotate.RotateRightAugmented | data_structure/kernel_struct/rbtree_augmented.h:96-106 | recomputing one node is enough: after the rotate callback every stored value is right again |
| RbTree.Root.RotateSetParents | data_structure/kernel_struct/rbtree.c:87-95 | parent, colour and the link from above are handed over |
| RbTree.Root.ChangeChild | data_structure/kernel_struct/rbtree_augmented.h:132-143 | exactly the link that led to the old child changes |
| RbLink.LinkAlmostRb | data_structure/kernel_struct/rbtree.h:105-112 | a leaf linked below a node on the search path, with the values raised on that path, offends at most the rule about red nodes |
| RbLink.RaiseStep | data_structure/kernel_struct/rbtree_test.c:131-145 | raising the stored values on the way down keeps them right for the tree with the new value |
| RbLink.LinkOrder | data_structure/kernel_struct/rbtree.h:105-112 | linking puts the node between its two neighbours and changes nothing else in the in-order sequence |
| RbClient.LinkKeys | data_structure/kernel_struct/rbtree_test.c:131-148 | the new node keeps the keys in order, and is the leftmost one exactly when the search never went right |
| RbTree.Root.EraseFew | data_structure/kernel_struct/rbtree_augmented.h:174-198 | a node with at most one child leaves: the rest is a red-black tree, or one that lacks a black node just where rebalancing is told to start |
| RbTree.Root.FindSuccessor | data_structure/kernel_struct/rbtree_augmented.h:231-235 | the descent finds the node next in order |
| RbTree.Root.SpliceSuccessor | data_structure/kernel_struct/rbtree_augmented.h:236-241 | the successor leaves its place below parent and adopts the right child |
| RbTree.Root.TakePlace | data_structure/kernel_struct/rbtree_augmented.h:245-262 | the successor takes over left child, parent, colour and the link from above |
| RbTree.Root.EraseFull | data_structure/kernel_struct/rbtree_augmented.h:199-266 | a node with two children leaves, in both successor cases, with the same result as in the simple case |
| RbErase.OnlyChildRed | data_structure/kernel_struct/rbtree_augmented.h:174-190 | an only right child is a red leaf below a black node, so that handing over the colour needs no rebalancing |
| RbErase.OnlyLeftChildRed | data_structure/kernel_struct/rbtree_augmented.h:191-198 | so is an only left child |
| RbErase.UnlinkRb | data_structure/kernel_struct/rbtree_augmented.h:174-190 | taking out a node without a left child leaves a red-black tree, or one short of a black node on the side where it was |
| RbErase.EraseTwo | data_structure/kernel_struct/rbtree_augmented.h:199-263 | the splice as a whole: keys, shape, colours and black counts of the tree after the successor has replaced the node |
| RbSplice.Match | data_structure/kernel_struct/rbtree_augmented.h:201-262 | both ways to splice out the successor give the tree in which it is first unlinked and then renamed into the place of the node |
| RbEraseRuns.FullTree | data_structure/kernel_struct/rbtree_augmented.h:199-266 | the same with the augmented values, of which only the successor's may be out of date before the final propagation |
| RbErased.EraseOrder | data_structure/kernel_struct/rbtree_augmented.h:161-267 | the in-order sequence loses exactly the node |
| RbErased.EraseFirst | data_structure/kernel_struct/rbtree_augmented.h:171-172 | the leftmost node after an erase |
| RbTree.Root.EraseColor | data_structure/kernel_struct/rbtree.c:242-423 | ____rb_erase_color terminates, and turns a tree that lacks a black node on one side of the given parent into a red-black tree with the same in-order places |
| RbRepair.RedSibling | data_structure/kernel_struct/rbtree.c:369-380 | case 1: one rotation gives the short side a black sibling, keeping everything else |
| RbRepair.BlackSibling | data_structure/kernel_struct/rbtree.c:381-397 | case 2: recolouring the sibling finishes the tree or moves the lack to the parent |
| RbRepair.InnerRed | data_structure/kernel_struct/rbtree.c:308-345 | case 3: the rotation at the sibling leaves case 4 |
| RbRepair.OuterRed | data_structure/kernel_struct/rbtree.c:410-420 | case 4: the rotation at the parent supplies the missing black node |
| RbEraseSteps.Cases34Left | data_structure/kernel_struct/rbtree.c:308-367 | cases 3 and 4 as written, where case 3 leaves links to be set by case 4, end in a red-black tree |
| RbEraseSteps.Cases34Right | data_structure/kernel_struct/rbtree.c:398-420 | the same on the other side |
| RbTree.Root.Propagate | data_structure/kernel_struct/rbtree_augmented.h:73-84 | propagation that stops at the first value that does not change, or at stop, leaves every stored value right above its start |
| RbTree.Root.PropagateUp | data_structure/kernel_struct/rbtree_augmented.h:262-266 | after the final propagation every stored value is right |
| RbErased.SetAugStep | data_structure/kernel_struct/rbtree_augmented.h:73-84 | recomputing one node moves the only possible discrepancy to its parent, and none is left when the value did not change |
| RbCheck.AugmentedIsMax | data_structure/kernel_struct/rbtree_test.c:79-95 | a stored value is the greatest val of the subtree |
| RbCheck.CheckPasses | data_structure/kernel_struct/rbtree_test.c:206-242 | nothing that check and check_augmented warn about can happen in a good tree: keys ascend, no red node has a red parent, black path counts agree and bound the number of nodes, values are the recomputed ones, leftmost is cached |
| RbCheck.BlackPath | data_structure/kernel_struct/rbtree_test.c:178-184 | the black nodes from a node up to the root and those below it add up to the black count of the root |
| RbTree.Root.First | data_structure/kernel_struct/rbtree.c:502-512 | rb_first returns the first node in order, null in the empty tree |
| RbTree.Root.Last | data_structure/kernel_struct/rbtree.c:515-525 | rb_last returns the last one |
| RbTree.Root.Next | data_structure/kernel_struct/rbtree.c:528-557 | rb_next returns the node next in order, null behind the last |
| RbTree.Root.Previous | data_structure/kernel_struct/rbtree.c:560-586 | rb_prev returns the node before it |
| RbOrder.NextPrevious | data_structure/kernel_struct/rbtree.c:528-586 | the two are inverse |
| RbOrder.NextIndex | data_structure/kernel_struct/rbtree.c:528-557 | rb_next moves one place along the in-order traversal |
| RbOrder.TraverseIsOrder | data_structure/kernel_struct/rbtree.c:528-557 | the recursive in-order traversal lists every node of the tree once, from left to right |
| RbTree.Root.FirstPostorder | data_structure/kernel_struct/rbtree.c:669-675 | rb_first_postorder returns the first node of the postorder sequence |
| RbTree.Root.NextPostorder | data_structure/kernel_struct/rbtree.c:650-666 | rb_next_postorder returns the node that follows in the postorder sequence, null at its end |
| RbPostorder.PostorderContext | data_structure/kernel_struct/rbtree.c:650-675 | the postorder walk visits a subtree in one piece that ends with its root, so every node after its children |
| RbPostorder.PostorderPermutes | data_structure/kernel_struct/rbtree_test.c:196-204 | it visits each node exactly once |
| JswTree.RbTree.constructor | data_structure/red_black/jsw_rbtree.c:116-130 | jsw_rbnew makes a valid, empty tree |
| JswTree.RbTree.Find | data_structure/red_black/jsw_rbtree.c:183-201 | jsw_rbfind returns a node with an equal element, or null exactly when there is none |
| JswTree.RbTree.Insert | data_structure/red_black/jsw_rbtree.c:234-310 | one downward pass keeps a valid red-black search tree and adds the element if no equal one is there; it returns 1 and counts one more in any case, so that a right counter stays right if and only if no equal element was there |
| JswTree.RbTree.InsertBelow | data_structure/red_black/jsw_rbtree.c:247-302 | the loop of the insertion, with the helpers t, g, p and q that rotations leave behind |
| JswInsert.StaleIsIdle | data_structure/red_black/jsw_rbtree.c:273-298 | while t or g is out of date after a rotation, the node reached needs neither a colour flip nor a rotation |
| JswTree.RotationReady | data_structure/red_black/jsw_rbtree.c:273-281 | whenever a rotation is made, t, g and p are the great-grandparent, grandparent and parent of q |
| JswInsert.MoveDown | data_structure/red_black/jsw_rbtree.c:290-298 | moving the helpers down makes stale ones less stale and gets nearer to the end of the descent |
| JswInsert.MoveDownSingle | data_structure/red_black/jsw_rbtree.c:273-298 | after a single rotation one helper is stale |
| JswInsert.MoveDownDouble | data_structure/red_black/jsw_rbtree.c:273-298 | after a double rotation two helpers are stale, and the descent goes through nodes whose children cannot both be red |
| JswInsert.RepairFits | data_structure/red_black/jsw_rbtree.c:273-281 | the rotation, single or double, repairs a red child of a red parent |
| JswTree.Rotate | data_structure/red_black/jsw_rbtree.c:275-280 | the rotation in the heap stores its result in the link below t that led to the grandparent |
| JswTree.RbTree.Erase | data_structure/red_black/jsw_rbtree.c:328-412 | one downward pass keeps a valid red-black search tree and takes out the matching element, if any, which is what is handed to rel; it returns 1 in any case, which is the documented answer if and only if an equal element was there, and counts one fewer unless the tree is empty, so that a right counter stays right if and only if an equal element was there or the tree was empty |
| JswTree.RbTree.EraseBelow | data_structure/red_black/jsw_rbtree.c:331-406 | the loop of the erasure and the removal of the node it ends at |
| JswPush.PushRed | data_structure/red_black/jsw_rbtree.c:361-389 | the repair step in the heap does what the model of the step does, in each of its cases, and gives the new parent of q |
| JswErase.PushNext | data_structure/red_black/jsw_rbtree.c:345-389 | after a step the next node is the one it would have been without the repair, and red is ahead of it |
| JswErase.PushFits | data_structure/red_black/jsw_rbtree.c:361-389 | the step keeps the tree red-black |
| JswErase.PushBetween | data_structure/red_black/jsw_rbtree.c:361-389 | the step moves no element across the descent |
| JswErase.TracksNext | data_structure/red_black/jsw_rbtree.c:351-358 | the node with the matching element is remembered through all repairs |
| JswErase.LastIsLeaf | data_structure/red_black/jsw_rbtree.c:345-399 | the node physically unlinked is a red leaf, or the whole tree |
| JswErase.LeftSpread | data_structure/red_black/jsw_rbtree.c:393-399 | moving its element into the node found, and unlinking it, takes the matching element out of the sequence |
| JswHeap.Single | data_structure/red_black/jsw_rbtree.c:44-55 | jsw_single on the heap is the rotation of the model with the two colours set, on the same nodes |
| JswHeap.Double | data_structure/red_black/jsw_rbtree.c:67-72 | jsw_double likewise |
| JswModel.SingleOrder | data_structure/red_black/jsw_rbtree.c:44-55 | a single rotation keeps the in-order sequence |
| JswModel.DoubleOrder | data_structure/red_black/jsw_rbtree.c:67-72 | so does a double rotation |
| JswModel.InsertIs | data_structure/red_black/jsw_rbtree.c:234-310 | what the sequence after an insertion is: sorted, the old elements and the new one if nothing equals it |
| JswModel.EraseIs | data_structure/red_black/jsw_rbtree.c:328-412 | what it is after an erasure: sorted, all old elements but the equal one |
| JswTree.SizeFollows | data_structure/red_black/jsw_rbtree.c:307-408 | a size counter that agrees with the number of elements, modulo 2^64, still agrees if and only if the key was absent before the insertion; and if and only if it was present before the erasure, or the tree was empty |
| JswTree.CountedWraps | data_structure/red_black/jsw_rbtree.c:307-408 | the counter wraps around at 2^64 in both directions |
| JswTree.InsertDrifts | data_structure/red_black/jsw_rbtree.c:307 | inserting 1 twice into a new tree leaves one element and the counter at 2 |
| JswTree.EraseDrifts | data_structure/red_black/jsw_rbtree.c:408-411 | erasing 2 from the tree of 1 leaves one element and the counter at 0, and is answered with 1 |
| JswModel.HeightLimit | data_structure/red_black/jsw_rbtree.h:31-33 | a red-black tree of fewer than 2^n nodes is at most 2n high |
| JswTravel.StackFits | data_structure/red_black/jsw_rbtree.h:59-64 | so with fewer than 2^32 nodes the path never holds more than 64 |
| JswTravel.Trav.Start | data_structure/red_black/jsw_rbtree.c:470-485 | start stands at the extreme element of its direction, or reports an empty tree |
| JswTravel.Trav.Move | data_structure/red_black/jsw_rbtree.c:500-528 | move goes on by exactly one element in its direction, and reports the end exactly when none is ahead |
| JswTravel.Trav.Next | data_structure/red_black/jsw_rbtree.c:562-565 | jsw_rbtnext stands at the next index of the sorted sequence, and reports the end exactly behind the last |
| JswTravel.Trav.Previous | data_structure/red_black/jsw_rbtree.c:574-577 | jsw_rbtprev stands at the index before, and reports the end exactly before the first |
| JswTravel.Listing | data_structure/red_black/example.c:86-92 | the loop from first over next to the end lists all elements in ascending order |
| JswTravel.Delete | data_structure/red_black/jsw_rbtree.c:141-169 | destruction by rotation terminates, releases every element exactly once in ascending order, and frees every node once |
| JswTravel.SpunOrder | data_structure/red_black/jsw_rbtree.c:158-163 | a rotation step of the destruction keeps the order and makes the left subtree smaller |
| SkipList.SkipList.constructor | data_structure/skiplist/skiplist.c:35-52 | zslCreate makes a valid, empty list of one level, with a header of 32 |
| SkipList.SkipList.Insert | data_structure/skiplist/skiplist.c:83-134 | for every height from 1 to 32 the list stays valid on all levels, and the new node stands before all objects that do not compare less, and behind those that do; it has as many levels as asked for, the level in use rises to that if it was lower, and all other nodes keep their heights |
| SkipList.SkipList.RaiseLevel | data_structure/skiplist/skiplist.c:104-111 | a new level of the header spans the whole list |
| SkipList.SkipList.LinkLevels | data_structure/skiplist/skiplist.c:112-125 | the node is linked on the levels it reaches with the right spans, and the spans above it grow by one |
| SkipOps.InsertIndexed | data_structure/skiplist/skiplist.c:112-131 | linking a node in that way keeps every level a subsequence of level 0, every span equal to the distance in rank, and backward and tail right |
| SkipOps.DeleteIndexed | data_structure/skiplist/skiplist.c:137-151 | unlinking keeps the same |
| SkipOps.LowerIndexed | data_structure/skiplist/skiplist.c:152-153 | a level on which the header has no link is reached by no node, so the level in use may sink |
| SkipOps.RaiseIndexed | data_structure/skiplist/skiplist.c:104-111 | raising the level in use keeps all links and spans right |
| SkipOps.SpanReaches | data_structure/skiplist/skiplist.c:112-125 | at every update position the span reaches over the place of the node, so the subtraction of spans never goes below zero |
| SkipList.SkipList.DeleteNode | data_structure/skiplist/skiplist.c:137-155 | exactly the given node leaves, the list stays valid, all others keep their heights, and the update positions serve for deleting the next node too |
| SkipList.SkipList.Delete | data_structure/skiplist/skiplist.c:158-176 | the first object that compares equal goes, and it returns true exactly if there is one, with the comparison at line 170 read as comparing the node found; and the index with which that line reads a level array is -1, exactly if some object does not compare less |
| SkipList.CandidateExists | data_structure/skiplist/skiplist.c:165-170 | the search leaves a node behind it exactly when some object does not compare less |
| SkipList.DeleteReadsOutside | data_structure/skiplist/skiplist.c:162-170 | a deletion of 5 from the list of 5 indexes a level array with -1 |
| SkipList.SkipList.DeleteRange | data_structure/skiplist/skiplist.c:260-287 | exactly the objects in the range go, the others stay in order, and the number removed is the difference of the lengths |
| SkipList.SkipList.DeleteRangeByRank | data_structure/skiplist/skiplist.c:292-318 | exactly the ranks from start to end go, counting from 1 |
| SkipList.RanksBetween | data_structure/skiplist/skiplist.c:292-318 | the positions between where the two loops stop are exactly the ranks from start to end |
| SkipList.SkipList.GetRank | data_structure/skiplist/skiplist.c:324-347 | the rank of the last one among the tallest nodes whose objects compare equal, or 0 exactly if there is none |
| SkipList.SkipList.GetElementByRank | data_structure/skiplist/skiplist.c:350-368 | indexing: the node at the rank, null beyond the end |
| SkipList.RankInverts | data_structure/skiplist/skiplist.c:324-368 | with pairwise different objects, taking the rank undoes indexing |
| SkipList.SkipList.IsInRange | data_structure/skiplist/skiplist.c:187-204 | the exact answer: yes if and only if there are objects, the last one reaches the lower bound, the first one the upper bound, and the range is not the excluded single value; a no means that no object at all is in the range |
| SkipList.SkipList.FirstInRange | data_structure/skiplist/skiplist.c:208-231 | the first object in the range, or null exactly if none is |
| SkipList.SkipList.LastInRange | data_structure/skiplist/skiplist.c:235-254 | the last object in the range, or null exactly if none is |
| Latch.RunInv | data_structure/kernel_struct/rbtree_latch.h:141-210 | in every interleaving of one writer and any number of readers the invariant of clock, copies and readers holds |
| Latch.StableCopy | data_structure/kernel_struct/rbtree_latch.h:141-210 | the copy that the sequence word selects is never the one being written, and holds the set after floor(seq / 2) updates |
| Latch.WriterKeeps | data_structure/kernel_struct/rbtree_latch.h:141-177 | every step of an insertion or erasure keeps the invariant, with readers in the middle of anything |
| Latch.ReaderKeeps | data_structure/kernel_struct/rbtree_latch.h:198-210 | so does every step of a find, retries included |
| Latch.WalkKeeps | data_structure/kernel_struct/rbtree_latch.h:104-124 | one turn of the search loop stays on track for the set that was selected |
| Latch.FindReturns | data_structure/kernel_struct/rbtree_latch.h:198-210 | a find that has read the sequence word and is left alone, in the middle of any update, returns after at most Height + 3 further steps, Height being that of the copy it selected, and answers for the set after floor(seq / 2) updates |
| Latch.FindNeverBlocks | data_structure/kernel_struct/rbtree_latch.h:198-210 | wherever a find stands, retry included, it returns when it is left alone |
| Latch.CopyUntouched | data_structure/kernel_struct/rbtree_latch.h:141-210 | while the sequence word stands still nobody modifies the copy it selects |
| Latch.FindUndisturbed | data_structure/kernel_struct/rbtree_latch.h:198-210 | a find that returns searched a copy that was unmodified from its read of the sequence word to its return |
| Latch.FindLinearizable | data_structure/kernel_struct/rbtree_latch.h:198-210 | its answer is that of the set after n updates, where n is at least the number completed when it started and at most the number begun when it returned |
| Latch.NeverOlder | data_structure/kernel_struct/rbtree_latch.h:198-210 | a find that starts later never answers for an older set |
| Latch.ReturnsOnMultiples | data_structure/kernel_struct/rbtree_latch.h:202-208 | a find returns only if the number of latch steps inside it is a multiple of 2^32 |
| Latch.FoundWasLinked | data_structure/kernel_struct/rbtree_latch.h:104-124 | whatever is written meanwhile, a find that returns an element returns one that was linked: only a miss can be wrong |
| Latch.WrapAroundMisses | data_structure/kernel_struct/rbtree_latch.h:198-210 | for every multiple of 2^32 latch steps other than 0: a run with that many inside one find, in which the find misses an element that is in the set from its start to its return; every update is done in one piece on each copy, no node is linked twice, and the reader is always where its node is |
| Latch.GuaranteedExactly | data_structure/kernel_struct/rbtree_latch.h:202-208 | a find that returns is sure to give the answer of a set between the updates completed at its start and those begun at its return if and only if no latch step fell inside it, on all runs and on those without torn copies alike |
| Md5Rounds.FormsAgree | md5/md5_locl.h:46-60 | the selection forms of F, G and I and the forms of section 3.4 of RFC 1321 agree on all words |
| Md5Rounds.R0 | md5/md5_locl.h:62-65 | the step macro, which adds in another order, makes the operation of round 1 of the RFC |
| Md5Rounds.R1 | md5/md5_locl.h:67-70 | the same for round 2 |
| Md5Rounds.R2 | md5/md5_locl.h:72-75 | the same for round 3 |
| Md5Rounds.R3 | md5/md5_locl.h:77-80 | the same for round 4 |
| Md5Rounds.QuadF | Z_my_work_mem/test_client/md5.c:205-222 | four operations on the registers in turn, as the program writes them, are four operations of the RFC, for every round position |
| Md5Rounds.Round1 | Z_my_work_mem/test_client/md5.c:197-222 | the 16 written-out operations of round 1 are operations 1 to 16 of the RFC |
| Md5Rounds.Round2 | Z_my_work_mem/test_client/md5.c:225-248 | those of round 2 are operations 17 to 32 |
| Md5Rounds.Round3 | Z_my_work_mem/test_client/md5.c:251-274 | those of round 3 are operations 33 to 48 |
| Md5Rounds.Round4 | Z_my_work_mem/test_client/md5.c:277-300 | those of round 4 are operations 49 to 64 |
| Md5Rounds.Order0 | md5/md5_dgst.c:56-104 | round 0 of the other implementation is operations 1 to 16 of the RFC |
| Md5Rounds.Order1 | md5/md5_dgst.c:105-121 | its round 1 is operations 17 to 32 |
| Md5Rounds.Order2 | md5/md5_dgst.c:122-138 | its round 2 is operations 33 to 48 |
| Md5Rounds.Order3 | md5/md5_dgst.c:139-155 | its round 3 is operations 49 to 64 |
| Md5Deutsch.Md5State.Process | Z_my_work_mem/test_client/md5.c:131-310 | md5_process turns the registers into those after one block of section 3.4 of RFC 1321 |
| Md5OpenSsl.Md5Ctx.BlockDataOrder | md5/md5_dgst.c:36-162 | md5_block_data_order absorbs any number of whole blocks |
| Md5Deutsch.Md5State.Append | Z_my_work_mem/test_client/md5.c:322-358 | md5_append of any piece: the state stands for the old message followed by the piece |
| Md5Deutsch.Md5State.Finish | Z_my_work_mem/test_client/md5.c:360-381 | md5_finish returns the digest of RFC 1321 of the message so far |
| Md5OpenSsl.Md5Ctx.Update | md5/md32_common.h:249-309 | MD5_Update of any piece: the state stands for the old message followed by the piece |
| Md5OpenSsl.Md5Ctx.Final | md5/md32_common.h:316-352 | MD5_Final returns the same digest, with one last block or two, and clears the buffer |
| Md5Deutsch.HashPieces | Z_my_work_mem/test_client/md5.c:312-381 | any chunking through md5_init, md5_append and md5_finish gives the digest of the whole message |
| Md5OpenSsl.HashPieces | md5/md32_common.h:249-352 | any chunking through MD5_Init, MD5_Update and MD5_Final gives that same digest, so the two implementations agree |
| Md5Vectors.EmptyDigest | Z_my_work_mem/test_client/md5.c:312-381 | the digest that both compute for the empty message is the one of section A.5 of RFC 1321 |
| Md5Vectors.AbcDigest | Z_my_work_mem/test_client/md5.c:312-381 | and so is that for "abc" |
| Md5Vectors.DecodeEncode | md5/md32_common.h:230-240 | the four bytes of a word, low-order byte first, make that word again |
| Md5Vectors.EncodeDecode | Z_my_work_mem/test_client/md5.c:379-380 | and the bytes of the word made from four bytes are those bytes |
| Md5Stream.CountAdd | md5/md32_common.h:259-268 | adding a length word by word with a carry keeps the two words equal to 8 times the length modulo 2^64 |
| Md5Stream.CountBytes | md5/md32_common.h:333-339 | the two words, stored low-order byte first, are the eight length bytes of section 3.2 of the RFC |
| Md5Stream.Fill | md5/md32_common.h:270-287 | bytes that complete a waiting block are absorbed with those that waited |
| Md5Spec.PaddedLength | Z_my_work_mem/test_client/md5.c:375-376 | the padding of section 3.1 fills whole blocks, with the fewest zero bytes |
| Md5Deutsch.SumIsWord | Z_my_work_mem/test_client/md5.c:189-192 | putting four bytes together by addition makes the word of their bits |
| Ketama.GetServer | Z_my_work_mem/test_client/ketama.c:347-379 | binary search on any non-empty sorted ring, with equal points too, returns the first entry at or behind the hash, or wraps to entry 0 |
| Ketama.OwnerUnique | Z_my_work_mem/test_client/ketama.c:347-379 | there is only one such entry |
| Ketama.OnlyDeletedMove | Z_my_work_mem/test_client/ketama.c:347-379 | deleting any entries but the owner leaves the key with its owner |
| Ketama.Remap | Z_my_work_mem/test_client/ketama.c:347-379 | two lookups, before and after a deletion that leaves entries, agree unless the owner itself was deleted |
| Ketama.KeptSorted | Z_my_work_mem/test_client/ketama.c:649-653 | deleting entries keeps the ring sorted |

## Left out

Dictionary:
- Key hashes: a key carries its hash, as a number of up to 64 bits; the hash functions are not part of this model.
- DictHeap.Dict.Expand: sizes up to 2^31 only, and additions while twice the number of entries stays within that, as _dictKeyIndex returns a bucket index as an int (`redis_dict/dict.c:967`); the functions behind them are stated for every size.
- DictSafe.SafeWalk: the run starts with the first dictNext and may stop early; operations between obtaining the iterator and the first dictNext are not part of the run, nor are direct calls of dictRehash, which do not respect iterators.
- DictScan.GrowthScanCoverage: no explicit resize to fewer buckets between the calls, as the promise is false with one.
- Unsafe iterators with their fingerprint, dictGetRandomKey, dictGetSomeKeys, statistics and dictRehashMilliseconds: sampling, clocks and debugging aids.
- Value duplication, destructors, dictRelease and dictEmpty, allocation failure, and a negative number of steps for dictRehash.
- dictResize only computes a size and calls dictExpand, which is modelled for every size.

Red-black tree with parent pointers:
- Parent and colour share a word in the source and are two fields here; RCU variants, memory barriers and RB_EMPTY_NODE are left out.
- Keys and values of 32 bits are integers here; they are only compared.
- RbTree.Root.Insert: models the cached and augmented client of the test module; the clients without cache or augmentation run the same core with less to keep.
- rb_replace_node exchanges one node for another and makes no structural change; it would add an easier member.
- Blocks of the long C functions are methods of their own here, so that each has a contract.

Top-down red-black tree:
- Elements are integers under any total preorder; the duplicating callback and allocation failure are left out, the releasing callback is the list that JswTravel.Delete and JswTree.RbTree.Erase return.
- JswTravel.Trav.Move: trees of at least 2^32 nodes are excluded, where the path of 64 entries might not suffice.
- The false root is an ordinary node of the heap here; the counter is taken modulo 2^64.

Skip list:
- The random level is a parameter between 1 and 32; the generator and its probabilities are left out.
- Level arrays are sequences in a field, spans and lengths are unbounded, and freeing nodes is left out.
- SkipList.SkipList.GetElementByRank: rank 0 yields the header, as in the code.
- SkipList.SkipList.Delete: models the evident intent of line 170, see above.

Latched tree:
- Latch.FindLinearizable: sequential consistency, one writer at a time, elements that are inserted only when absent and erased only when present, and a node known by its element; the sequence-lock primitives are not part of the repository and are taken as an increment and a comparison modulo 2^32.
- A half-written copy is modelled by leaving open what hangs below the node at which a reader stands, as long as it was linked at some time; the stores of rb_insert and rb_erase inside a copy are not modelled one by one, and neither is RCU.

MD5:
- Assembly, the big-endian variants and the path for aligned input are left out; words are loaded before the rounds of a block, not in between.
- Md5Deutsch.Md5State.Append: pieces of at most 2^31 - 64 bytes, above which the offset computed in an int overflows; a negative length, which the code ignores, is left out.
- The registers are not kept apart from the context during a block, which has no effect on digests.

Ring:
- Ketama.GetServer: starts from the hash of the key; the digest that gives it, reading the server list, and filling and sorting the ring in shared memory are left out. The ring must not be empty, as in the code, which reads entry 0.

Elsewhere: sockets, event loops, logging, command parsing, the generic linked list and the upgrade client.
