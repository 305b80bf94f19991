# NSPFS in Dafny

NSPFS is a user-space file system over NVM and SSDs. This project models the data structures, allocators and
protocols that its I/O layers rest on, and proves that each does what the layers above rely on.
`dafny verify dfyconfig.toml` covers every module.

## What is modelled

**The khash table** (`Triangular`, `RoundUp`, `KHash`). Open addressing with triangular probing, tombstones and the
in-place rehash that kicks live entries out of their buckets. The table refines a finite map. The number theory under
it is proved: the first 2^k triangular steps visit all 2^k buckets. The rehash ends because each kick retires a live
old bucket.

- Finding: `kroundup32` wraps above 2^31, so a table of 2^31 buckets never grows. `kh_put` then returns the bucket of
  another key with return code 0 exactly when the table holds 2^31 keys and the new key is not one of them.
  `KHash.KHash.Put` states the exact condition and `KHash.FullTable` gives the table.

**The adaptive radix tree** (`ArtNode`, `ArtChild`, `ArtTree`, `ArtSearch`, `ArtInsert`, `ArtDelete`, `ArtIter`,
`Art`). Four node layouts, path compression that keeps 16 bytes of a longer path, optimistic descent. Over any run of
insert, delete and search the tree is a map from byte strings to values. The invariant is that each header holds the
first bytes of the path shared by all keys below it.

- `recursive_delete` can read past the end of the key it is given, at several depths and by more than one byte. The
  model lets those bytes be anything, and deletion is right for all of them and for every key.
- Finding: the SSE2 branches of `add_child16` compare bytes as signed. Iteration is in dictionary order exactly when
  every node keeps its bytes in order (`ArtIter.EntriesOrder`, `ArtIter.OrderedEntries`). An insertion keeps them so
  exactly under `ArtInsert.OrderKept`, which always holds for the portable comparison and for the signed one comes down
  to `ArtChild.Agrees` at the node where the key lands. `Art.SignedDisorder` puts in five keys and iterates.

**The red-black tree** (`RbTree`, `RbMemory`, `RbRotate`, `RbInsert`, `RbErase`, `RbUnlink`, `RbRoot`) **and the extent
tree on it** (`BlockTree`). Memory is a map from node addresses to records with parent, colour and children. The
fix-up loops are proved on that memory: each write is shown to leave it laying out the intended tree, with parent
links, order, colours and black heights. The extent tree is a map from file offsets to devices and blocks.

- Finding: the coalescing test of `block_insert` shifts the block distance by 12 bits in a 64-bit word, so it compares
  modulo 2^52. `BlockTree.ContiguousWithinRange` and `BlockTree.ContiguousBeyondRange` show both sides, and
  `BlockTree.GrownRightExactly` when the grown extent is right.

**The slab allocator** (`Words`, `SlabList`, `SlabRuns`, `SlabPages`, `SlabFree`, `SlabMerge`, `SlabSlots`,
`SlabChunks`, `SlabFind`, `SlabHeld`, `SlabAlloc`, `SlabPool`, `SlabReturn`, `Slab`). Page runs with a first-fit free
list and full coalescing, and under them chunks whose occupancy bitmap lies in the page, in the descriptor's `slab`
word, or in its upper half. Runs tile the pool, no two free runs touch, live allocations never overlap, and an
allocation fails exactly when there is no room for it. A class with a free chunk is served from it: the page allocator
gives a page only when all pages of the class are full.

- Finding: `ncx_slab_free_locked` accepts three kinds of invalid address: the first page of a free run, a chunk that
  holds its page's own bitmap, and an address past the last page, up to and including `pool->end`, where it reads as a
  descriptor whatever lies there. `SlabReturn.AcceptsExactly` proves that these and the live addresses are all it
  accepts. `Slab.FreshAccepted`, `Slab.SmallAccepted` and `SlabReturn.EndAccepted` are inputs.
- The first kind is harmless: the run moves to the front of the free list and no allocation changes
  (`SlabReturn.ReturnRun`). After the second the pool is sound for no shape, and the page gives out its own bitmap next
  (`SlabReturn.SoundExactly`, `SlabReturn.PiercedGivesBitmap`).

**The futex mutex** (`Futex`) **and the thread pool** (`ThreadPool`, `JobQueue`), as step relations over any number of
threads, with safety over all runs: mutual exclusion, no lost wake-up, and unlock giving the lock up in a bounded number
of its own steps; first-in first-out jobs, each executed once,
a served queue whose oldest job can always be taken, and `thpool_wait` returning only after the jobs pushed before its
last look have finished.

- Finding: the last worker wakes one waiter with `pthread_cond_signal`. Of several callers of `thpool_wait` the others
  sleep on an idle pool. `ThreadPool.LeftAsleep` states exactly when one is left asleep, `ThreadPool.OneWaiterWakes`
  that a single waiter never is, and `ThreadPool.SecondSleepsOn` is a run with two.

**The cuckoo hash of jemalloc** (`CkhTable`, `Ckh`, `CkhEscape`, `CkhMap`). Random choices are an input, so results
hold for all of them. The eviction loop is never trapped: whatever was chosen so far, some choices end it.

- Finding: `ckh_insert` that fails for want of memory loses an item. If the table did not grow during the call the new
  item is stored and an older one is lost (`Ckh.Insert`, `CkhMap.CkhMap.Put`); `Ckh.OlderLost` is an input. If it grew,
  the item in hand at the last growth is stored, and the one lost can be the new one (`Ckh.NewerLost`).

**uthash** (`Lists`, `UtLinks`, `UtTable`, `UtExpand`, `UtHash`, `UtSort`, `UtMerge`). `HASH_FSCK` is
the invariant. `HASH_SRT` is a bottom-up merge sort that relinks the list in place: a permutation for every comparator,
and a stable sort for every total preorder.

**xxHash** (`XxWords`, `XxStream`, `Xxh32`, `Xxh64`, `Xxh32Mix`, `Xxh64Mix`, `XxKnown`). Streaming equals one call, for
every cut of the input. The primes are odd, so every mixing step can be undone: with XXH32 no change in one word of an
input leaves the hash as it is, with XXH64 none in one piece after the last full stripe. Known values for short inputs and one
long input of each fix primes, rotations and lanes.

**Bitmaps** (`Bitmap`, `BitmapRange`). Word-level search, area search and range changes against bit-by-bit meanings.

- Finding: for an area of length 0 the search skips aligned places among set bits that would do.
  `Bitmap.EmptyArea` says when it does not, and `Bitmap.EmptyAreaMissed` is a bitmap on which it does.

**The metadata log and the range splitters** (`MetadataLog`, `RangeSplit`). Records never cross a page or overlap, and
the pieces of a write or read tile the request.

- Finding: `userfs_file_write` keeps the size of a piece in 32 bits. Its loop ends if and only if the aligned middle of
  the request is below 2^32 bytes (`RangeSplit.LoopEndsExactly`); `RangeSplit.StuckAtOnce` is an input.

State that the source changes in place is a class field or a value that a method takes and returns; loops stay loops.
Ghost fields and ghost results hold the abstract value that the contracts speak about.

## Model

| member | source | states |
|---|---|---|
| `Triangular.ProbeStep` | userfs/src/ds/khash.h:237-240 | stepping by 1, 2, 3, ... modulo the table size visits the triangular-number displacements of the home bucket |
| `Words.MaskIsHome` | userfs/src/ds/khash.h:235-237 | masking with 2^k - 1 is the remainder by 2^k, and shifting right the quotient |
| `Triangular.ProbesDistinct` | userfs/src/ds/khash.h:51-53 | the first 2^k triangular probes of a table of 2^k buckets are pairwise different |
| `Triangular.ProbesCover` | userfs/src/ds/khash.h:51-53 | so they visit every bucket, as the header comment promises |
| `Triangular.ProbeReturns` | userfs/src/ds/khash.h:237-240 | the probe sequence comes back to its first bucket for the first time after 2 * 2^k - 1 steps, so the `i == last` exit is taken only when every bucket was seen |
| `RoundUp.Smear` | userfs/src/ds/khash.h:176 | one shift-and-or of kroundup32 doubles the run of ones under the top bit |
| `RoundUp.RoundUp32` | userfs/src/ds/khash.h:176 | the result is the least power of two not below the argument, and 0 for 0 and above 2^31, where the 32-bit word wraps |
| `KHash.Tombstone` | userfs/src/ds/khash.h:349-355 | deleting a bucket keeps every other key reachable along its probe sequence and drops exactly the deleted key |
| `KHash.Fill` | userfs/src/ds/khash.h:307-348 | filling a reachable free or tombstone bucket keeps the index a bijection and every key reachable |
| `KHash.AbsentAfterRound` | userfs/src/ds/khash.h:230-243 | a full round without a match proves the key absent, whatever the tombstones |
| `KHash.Kick` | userfs/src/ds/khash.h:283-291 | the swap of the rehash loop: the carried pair settles in the new table, the kicked-out old pair is carried on, nothing is lost and the old table has one live bucket less |
| `KHash.FindEmpty` | userfs/src/ds/khash.h:278-282 | the inner probe of the rehash ends at a bucket that is empty in the new flags |
| `KHash.Relocate` | userfs/src/ds/khash.h:270-293 | moving one live bucket and all it kicks out ends (each kick retires a live old bucket) and keeps the key-to-value map |
| `KHash.RelocateAll` | userfs/src/ds/khash.h:269-294 | after the loop no old bucket is live and the map is unchanged |
| `KHash.Rehash` | userfs/src/ds/khash.h:244-306 | growing or shrinking in place: same map, no tombstones, every key reachable in the new table |
| `KHash.FindSlot` | userfs/src/ds/khash.h:319-335 | the bucket kh_put settles on: the key's own, else a tombstone or empty bucket reachable for it; else, in a full table, the round ends |
| `KHash.SizeBounds` | userfs/src/ds/khash.h:310-318 | size <= n_occupied <= n_buckets and the live flags number exactly size |
| `KHash.RequestsAccepted` | userfs/src/ds/khash.h:310-318 | below 2^31 buckets the resize that kh_put asks for is never refused |
| `KHash.SlotOutcome` | userfs/src/ds/khash.h:336-347 | a live bucket with another key is returned only when every bucket is live |
| `KHash.FullTable` | userfs/src/ds/khash.h:307-348 | a valid table of 2^31 live buckets exists: the input on which kh_put claims a bucket of another key |
| `KHash.KHash.constructor` | userfs/src/ds/khash.h:212-214 | an empty table is valid and stands for the empty map |
| `KHash.KHash.EmptyBucketExists` | userfs/src/ds/khash.h:192 | n_occupied <= upper_bound < n_buckets, so an empty bucket exists in every reachable table below 2^31 buckets |
| `KHash.KHash.Get` | userfs/src/ds/khash.h:230-243 | ends, and finds the bucket of the key exactly when the map holds it |
| `KHash.KHash.Resize` | userfs/src/ds/khash.h:244-306 | the map and size are unchanged; when the request is accepted there are no tombstones and n_occupied == size, otherwise nothing changes |
| `KHash.KHash.MakeRoom` | userfs/src/ds/khash.h:310-318 | after the resize step there is a bucket to spare, or the table is at 2^31 buckets |
| `KHash.KHash.Put` | userfs/src/ds/khash.h:307-348 | refines map insertion: no other key is duplicated or hidden; when and to what size the table is rebuilt first; a new key goes to the last tombstone before its probe stops, else to where it stops; 1, 2 and 0 mean exactly that this bucket was empty, deleted or live; fails exactly when 2^31 keys are stored and the key is not among them |
| `KHash.KHash.SetValue` | userfs/src/ds/khash.h:516 | storing through the returned bucket binds exactly that key |
| `KHash.KHash.Clear` | userfs/src/ds/khash.h:223-229 | the empty map, same buckets |
| `KHash.KHash.Del` | userfs/src/ds/khash.h:349-355 | removes exactly the key of a live bucket; any other argument changes nothing |
| `ArtChild.FindChild` | userfs/src/ds/art.c:136-223 | each of the four layouts looks up the same map from bytes to children |
| `ArtChild.InsertPosition` | userfs/src/ds/art.c:438-446 | the new key goes before the first larger one, unsigned in the portable branch and signed as the SSE2 branches compare |
| `ArtChild.UnsignedExact` | userfs/src/ds/art.c:438-446 | the portable comparison always keeps the bytes of a node in order |
| `ArtChild.SignedExact` | userfs/src/ds/art.c:418-436 | the SSE2 comparison, which is signed, keeps them in order exactly when it meets no byte of the other half on the wrong side |
| `ArtChild.AddChild4` | userfs/src/ds/art.c:481-511 | adds one child and keeps the header, growing to the next layout when full |
| `ArtChild.AddChild16` | userfs/src/ds/art.c:413-479 | the same for the 16-way layout, which grows into the indexed one; the bytes stay in order exactly when the comparison finds the place |
| `ArtChild.AddChild48` | userfs/src/ds/art.c:392-411 | the same for the indexed layout: a free slot exists below 48 children, and a full node spreads over 256 slots |
| `ArtChild.AddChild256` | userfs/src/ds/art.c:386-390 | the same for the direct layout, whose one-byte count wraps at 256 |
| `ArtChild.AddChild` | userfs/src/ds/art.c:513-526 | every layout: the children are the old ones plus the new one, the header holds the same bytes |
| `ArtChild.SpreadKeys` | userfs/src/ds/art.c:400-410 | the byte index and the slots of the new node own each other one to one and stand for the same children |
| `ArtChild.RemoveChild16` | userfs/src/ds/art.c:701-715 | removes one child; at 3 left the node becomes a 4-way one with the same header |
| `ArtChild.RemoveChild48` | userfs/src/ds/art.c:677-699 | the same at 12 left |
| `ArtChild.RemoveChild256` | userfs/src/ds/art.c:654-675 | the same at 37 left, with the count taken modulo 256 |
| `ArtChild.Compact` | userfs/src/ds/art.c:660-674 | the shrunken 256-way node keeps its children in an indexed one |
| `ArtTree.KeyStarts` | userfs/src/ds/art.c:265-294 | every key below a node starts with the node's path |
| `ArtTree.InStep` | userfs/src/ds/art.c:265-294 | a key is below a node exactly when it continues the compressed path and is below the child its next byte selects |
| `ArtTree.Optimistic` | userfs/src/ds/art.c:265-294 | the descent on 16 compared bytes loses no key, whatever byte is read when the key has ended |
| `ArtTree.PrefixFree` | userfs/src/ds/art.c:552-636 | no two stored keys are prefixes of one another |
| `ArtSearch.CheckPrefix` | userfs/src/ds/art.c:234-242 | how many of the held prefix bytes the key has, and why it stopped |
| `ArtSearch.Bail` | userfs/src/ds/art.c:279-285 | a failed prefix comparison means no key of the subtree matches |
| `ArtSearch.Search` | userfs/src/ds/art.c:265-294 | exact for every key of any length: the value bound to it, or nothing |
| `ArtSearch.FirstChild` | userfs/src/ds/art.c:297-320 | the child that minimum descends into exists in every layout |
| `ArtSearch.Minimum` | userfs/src/ds/art.c:297-320 | a leaf of the subtree; in a tree in order its key comes before all others |
| `ArtSearch.PrefixMismatch` | userfs/src/ds/art.c:531-550 | the first index where the key leaves the compressed path, although only 16 of its bytes are held, or at least its length when it does not |
| `ArtInsert.LongestCommonPrefix` | userfs/src/ds/art.c:370-378 | the common length, and a difference right after it unless one key has ended |
| `ArtInsert.SplitLeaf` | userfs/src/ds/art.c:560-587 | the leaf becomes a node over both keys whose header holds what they share; exactly one binding is added |
| `ArtInsert.CutNode` | userfs/src/ds/art.c:604-616 | the old node's remaining path and its byte under the cut, also when they must be read from a leaf |
| `ArtInsert.SplitPrefix` | userfs/src/ds/art.c:590-623 | the compressed path is split where the key leaves it; exactly one binding is added |
| `ArtInsert.BoundBelow` | userfs/src/ds/art.c:625-636 | binding the key in the selected child binds it in the node and changes no other key |
| `ArtInsert.Insert` | userfs/src/ds/art.c:552-636 | for keys free of prefixes of one another: the tree stays well formed and holds exactly the old bindings with this one put in; the old value is returned; a tree in order stays so exactly when the key splits a path or the node where it lands places its byte rightly |
| `ArtInsert.UnsignedKept` | userfs/src/ds/art.c:438-446 | with the portable comparison that is always the case |
| `ArtInsert.LowKept` | userfs/src/ds/art.c:418-436 | with the signed one it is when all bytes are below 128 |
| `ArtDelete.MergeHeader` | userfs/src/ds/art.c:726-742 | the merged header byte by byte: the parent's path, the child's byte, the child's own path, cut at 16 |
| `ArtDelete.MergedDescribes` | userfs/src/ds/art.c:726-742 | the merged header describes the joined path |
| `ArtDelete.RemoveChild4` | userfs/src/ds/art.c:717-746 | removing from a 4-way node; a last child takes the node's place with the paths joined |
| `ArtDelete.RemoveChild` | userfs/src/ds/art.c:748-761 | every layout: the subtree loses exactly the key |
| `ArtDelete.DeleteBelow` | userfs/src/ds/art.c:763-803 | for every key, and whatever lies in memory after it: the subtree loses exactly that key, or is untouched when it does not hold it |
| `ArtIter.Iterate` | userfs/src/ds/art.c:826-872 | the callback sees the entries one by one, stopping after the first on which it is not 0, whose value is returned |
| `ArtIter.UntilPrefix` | userfs/src/ds/art.c:826-872 | what is seen is a first part of all entries, and all of them exactly when the result is 0 |
| `ArtIter.EntriesIn` | userfs/src/ds/art.c:826-872 | the entries visited are exactly those the tree holds |
| `ArtIter.EntriesOnce` | userfs/src/ds/art.c:826-872 | none is visited twice |
| `ArtIter.EntriesOrder` | userfs/src/ds/art.c:826-872 | they come in dictionary order when every node keeps its bytes in order |
| `ArtIter.OrderedEntries` | userfs/src/ds/art.c:826-872 | and only then |
| `Art.Art.constructor` | userfs/src/ds/art.c:54-58 | the empty tree stands for the empty map |
| `Art.Art.Get` | userfs/src/ds/art.c:265-294 | search is map lookup |
| `Art.Art.Put` | userfs/src/ds/art.c:647-652 | insert is map update on prefix-free keys, size the number of bindings; a tree in order stays so exactly when the key finds its right place |
| `Art.Art.Remove` | userfs/src/ds/art.c:813-823 | delete is map removal for every key, size the number of bindings; a tree in order stays so |
| `Art.Art.Iterate` | userfs/src/ds/art.c:884-886 | iteration lists the map, each binding once, in dictionary order exactly when the tree is in order |
| `Art.SignedDisorder` | userfs/src/ds/art.c:413-464 | five one-byte keys put in with the signed comparison, and an iteration over them out of order |
| `RbTree.PathsWithinTwice` | userfs/src/ds/rbtree.c:27-40 | in a red-black tree no root-to-leaf path is more than twice as long as another |
| `RbTree.RotationKeepsOrder` | userfs/src/ds/rbtree.c:168-183 | a rotation keeps the in-order sequence |
| `RbTree.RedBlackPlug` | userfs/src/ds/rbtree.c:27-40 | the invariants of a tree follow from those of a subtree and its surroundings |
| `RbRotate.RotateStored` | userfs/src/ds/rbtree.c:86-94 | the pointer writes of a rotation, with __rb_rotate_set_parents, leave memory holding the rotated tree with consistent parent links |
| `RbInsert.FlipKeeps` | userfs/src/ds/rbtree.c:120-141 | case 1: recolouring moves the possible red-red edge two levels up and nothing else |
| `RbInsert.InnerDone` | userfs/src/ds/rbtree.c:143-183 | case 2 then 3: both rotations leave a red-black tree |
| `RbInsert.OuterDone` | userfs/src/ds/rbtree.c:168-183 | case 3: the rotation leaves a red-black tree |
| `RbInsert.InsertColor` | userfs/src/ds/rbtree.c:96-221 | from any position with at most one red-red edge: ends, with a red-black tree of the same order, correctly stored |
| `RbErase.Case1` | userfs/src/ds/rbtree.c:243-261 | a red sibling is rotated up; the shortage stays below a red parent |
| `RbErase.Case2` | userfs/src/ds/rbtree.c:262-292 | recolouring the sibling ends the shortage or moves it to the parent |
| `RbErase.Case3` | userfs/src/ds/rbtree.c:293-315 | the near nephew is rotated up so that the far one is red |
| `RbErase.Case4` | userfs/src/ds/rbtree.c:316-337 | rotating at the parent ends the shortage |
| `RbErase.EraseColor` | userfs/src/ds/rbtree.c:227-393 | from any tree one black node short on one side: ends, with a red-black tree of the same order, correctly stored |
| `RbRoot.FindLink` | userfs/src/ds/rbtree.c:602-616 | the descent by comparator ends at an equal node, or at the link where the new node keeps the order |
| `RbRoot.LinkAll` | userfs/src/ds/rbtree.c:617-620 | linking a red leaf there leaves a sorted tree with at most one red-red edge |
| `RbRoot.EraseFrom` | userfs/src/ds/rbtree.c:424-430 | the old order without the node, a valid red-black tree in memory |
| `RbRoot.RbRoot.constructor` | userfs/src/ds/rbtree.c:595-621 | the empty root is valid |
| `RbRoot.RbRoot.InsertNode` | userfs/src/ds/rbtree.c:595-621 | sorted order plus the node, all five invariants, or -EEXIST and no change exactly when an equal node is stored |
| `RbRoot.RbRoot.EraseNode` | userfs/src/ds/rbtree.c:424-430 | the same on the object |
| `RbRoot.RbRoot.First` | userfs/src/ds/rbtree.c:450-460 | the first of the order, or NULL |
| `RbRoot.RbRoot.Next` | userfs/src/ds/rbtree.c:476-505 | the node that follows in the order, or NULL |
| `RbMemory.ChangeChildStored` | userfs/src/ds/rbtree_augmented.h:119-130 | the hole above a subtree is filled by another, wherever it hangs |
| `RbUnlink.FindSuccessor` | userfs/src/ds/rbtree_augmented.h:169-206 | the left spine of the right subtree, down to the successor |
| `RbUnlink.SpliceOrder` | userfs/src/ds/rbtree_augmented.h:168-233 | the spliced tree has the old order without the node |
| `RbUnlink.SpliceRedBlack` | userfs/src/ds/rbtree_augmented.h:168-233 | and is red-black, or one black node short where the successor was |
| `RbUnlink.SpliceIn` | userfs/src/ds/rbtree_augmented.h:168-233 | the pointer writes that put the successor in the node's place |
| `RbUnlink.Unlink` | userfs/src/ds/rbtree_augmented.h:135-237 | all three cases of the removal: the order loses exactly the node, and the returned node tells where a black node is missing |
| `BlockTree.ContiguousIsCongruent` | userfs/src/ds/blktree.h:59 | the coalescing test compares block addresses modulo 2^52 |
| `BlockTree.ContiguousWithinRange` | userfs/src/ds/blktree.h:59 | for addresses below 2^52 it means physical contiguity |
| `BlockTree.ContiguousBeyondRange` | userfs/src/ds/blktree.h:59 | two extents beyond that range that pass the test without being contiguous, and the wrong block that the grown extent gives |
| `BlockTree.GrownRightExactly` | userfs/src/ds/blktree.h:59-62 | a grown extent translates the bytes of the new one rightly exactly when the two are contiguous |
| `BlockTree.MapsToUnique` | userfs/src/ds/blktree.h:22-38 | disjoint extents give every offset at most one block |
| `BlockTree.CoalesceMaps` | userfs/src/ds/blktree.h:59-62 | growing an extent adds exactly the new extent's offsets, at its device and blocks |
| `BlockTree.DroppedMaps` | userfs/src/ds/blktree.h:111-116 | without an extent its offsets, and no others, are unmapped |
| `BlockTree.Descend` | userfs/src/ds/blktree.h:22-38 | the search by a monotone comparison finds a matching extent or there is none |
| `BlockTree.BlockTree.constructor` | userfs/src/ds/blktree.h:42-87 | the empty tree is valid |
| `BlockTree.BlockTree.Search` | userfs/src/ds/blktree.h:22-38 | the extent covering the offset, or NULL exactly when no block is mapped there |
| `BlockTree.BlockTree.Insert` | userfs/src/ds/blktree.h:42-87 | the offset-to-block map becomes the old one plus the new extent; it is coalesced, and 0 returned, exactly when a stored extent ends where it begins, on the same device, and passes the test, and then only that extent changes; extents stay disjoint and ordered |
| `BlockTree.BlockTree.Delete` | userfs/src/ds/blktree.h:111-116 | the offset-to-block map without the extent that covered the offset, or the same map when none did |
| `BlockTree.BlockTree.Link` | userfs/src/ds/blktree.h:70-86 | linking a disjoint extent in order |
| `SlabList.JoinLinked` | userfs/src/global/ncx_slab.c:557-559 | unlinking keeps every list doubly linked and removes exactly that page |
| `SlabList.PushLinked` | userfs/src/global/ncx_slab.c:599-603 | putting a page in front keeps every list doubly linked |
| `SlabList.SwapLinked` | userfs/src/global/ncx_slab.c:548-554 | handing a place on the list to another page keeps every list doubly linked |
| `SlabRuns.StretchInRun` | userfs/src/global/ncx_slab.c:541-583 | in a coalesced pool consecutive free pages lie in one run |
| `SlabRuns.FitsRun` | userfs/src/global/ncx_slab.c:541-583 | some free run is long enough exactly when that many consecutive pages are free |
| `SlabPages.TakenFree` | userfs/src/global/ncx_slab.c:546-560 | taking the front of a run makes exactly those pages busy |
| `SlabPages.TakenCoalesced` | userfs/src/global/ncx_slab.c:546-560 | and leaves no two free runs touching |
| `SlabPages.Claim` | userfs/src/global/ncx_slab.c:562-574 | the descriptors of an allocated run |
| `SlabPages.AllocPages` | userfs/src/global/ncx_slab.c:541-583 | first fit: the first run on the free list that is long enough gives its first pages and the rest keeps its place; NULL exactly when no stretch of that length is free; runs still tile the pool, free runs are maximal and are the free list |
| `SlabFree.SlabEmpty` | userfs/src/global/ncx_slab.c:779-798 | true exactly for a page of a free run, from its slab word or from the header its list leads back to |
| `SlabFree.FuseSound` | userfs/src/global/ncx_slab.c:611-615 | the three writes of a merge leave a sound pool |
| `SlabMerge.MergeLeft` | userfs/src/global/ncx_slab.c:606-623 | after it no free run touches the freed one from the left |
| `SlabMerge.MergeRight` | userfs/src/global/ncx_slab.c:625-635 | after it no two free runs touch |
| `SlabMerge.FreePages` | userfs/src/global/ncx_slab.c:585-638 | an allocated run becomes free, fully coalesced, and no other page, run or list changes; a run that is free already only moves to the front of the free list |
| `SlabSlots.UnlinkOk` | userfs/src/global/ncx_slab.c:193-199 | a full page leaves its slot list |
| `SlabSlots.PushOk` | userfs/src/global/ncx_slab.c:396-400 | a page that gets a chunk back returns to its slot list |
| `SlabChunks.Geometry` | userfs/src/global/ncx_slab.c:292-303 | the chunks fill the page and the reserved ones cover the bitmap, for every class |
| `SlabChunks.MarkUsed` | userfs/src/global/ncx_slab.c:176-179 | setting a bit takes exactly that chunk, wherever the class keeps the bit |
| `SlabChunks.UnmarkUsed` | userfs/src/global/ncx_slab.c:403 | clearing a bit frees exactly that chunk |
| `SlabChunks.IsFull` | userfs/src/global/ncx_slab.c:184-191 | the word comparisons say full exactly when every chunk is taken |
| `SlabFind.FindClear` | userfs/src/global/ncx_slab.c:172-179 | the lowest free chunk of the page, by word and bit scans |
| `SlabFind.IsIdle` | userfs/src/global/ncx_slab.c:405-422 | the word comparisons say idle exactly when no chunk is taken |
| `SlabHeld.HeldDisjoint` | userfs/src/global/ncx_slab.c:127-349 | live allocations of all four classes never overlap |
| `SlabHeld.HeldOffBitmap` | userfs/src/global/ncx_slab.c:127-349 | no allocation touches the bitmap of a page of small chunks |
| `SlabHeld.InOwnRun` | userfs/src/global/ncx_slab.c:127-349 | every allocation lies in the run of its page, inside the pool |
| `SlabHeld.PoolFrame` | userfs/src/global/ncx_slab.c:127-349 | an operation on one page keeps the invariants of all others |
| `SlabAlloc.ShiftFor` | userfs/src/global/ncx_slab.c:149-159 | the least shift whose chunks hold the size |
| `SlabAlloc.FirstHasRoom` | userfs/src/global/ncx_slab.c:161-173 | the first page of a slot always has a free chunk, so the scan over further pages is never needed |
| `SlabAlloc.TakeChunk` | userfs/src/global/ncx_slab.c:164-283 | one new allocation, the lowest unused chunk of the first page on the list; a page that becomes full, and no other, leaves the list |
| `SlabAlloc.FreshUsed` | userfs/src/global/ncx_slab.c:288-338 | a fresh chunk page has its bitmap chunks and one chunk in use |
| `SlabPool.NewPage` | userfs/src/global/ncx_slab.c:285-341 | the first page of the first free run becomes a chunk page with one allocation and goes to the front of its list, no other page stops being free; or there is no free page |
| `SlabPool.SelfLinked` | userfs/src/global/ncx_slab.c:161-164 | the `page->next != page` test tells an empty slot |
| `SlabPool.AllocChunk` | userfs/src/global/ncx_slab.c:161-341 | as long as some page of the class has a free chunk, the lowest one of the first page on the list is taken and no free page is touched; a fresh page is opened exactly when all are full |
| `SlabPool.Alloc` | userfs/src/global/ncx_slab.c:127-349 | one new region of the size rounded up to its class or to pages, every other allocation where it was; from which page or run, and which pages stop being free; NULL exactly when the class has no free chunk and no page, or no run of pages, is free |
| `SlabReturn.ReturnRun` | userfs/src/global/ncx_slab.c:498-520 | the run is gone and every other allocation is where it was; freeing a free run changes no allocation and moves it to the front of the free list |
| `SlabReturn.ReturnChunk` | userfs/src/global/ncx_slab.c:377-496 | the chunk is gone; its page returns to the page allocator exactly when no other chunk of it is taken; a bitmap chunk is marked free like any other |
| `SlabReturn.FreeAt` | userfs/src/global/ncx_slab.c:359-539 | for every address with a descriptor: a live one is freed, a rejected one changes nothing, the first page of a free run only moves the run, a bitmap chunk is marked free |
| `SlabReturn.SoundExactly` | userfs/src/global/ncx_slab.c:359-539 | the pool is sound afterwards exactly when the address is not that of a bitmap chunk, and then it is sound for no shape |
| `SlabReturn.PiercedGivesBitmap` | userfs/src/global/ncx_slab.c:165-179 | the chunk that such a page gives out next lies in its bitmap |
| `SlabReturn.AcceptsExactly` | userfs/src/global/ncx_slab.c:367-511 | the tests of the code accept an address exactly when a live allocation starts there or it is the first page of a free run, a bitmap chunk, or past the last page where the memory read passes; never both |
| `SlabReturn.BitmapAccepted` | userfs/src/global/ncx_slab.c:378-403 | in every pool the start of a page of small chunks is accepted |
| `SlabReturn.EndAccepted` | userfs/src/global/ncx_slab.c:367-375 | in every pool its end passes the range test although no descriptor covers it |
| `Slab.FreshOk` | userfs/src/global/ncx_slab.c:55-113 | the initial pool is sound and holds no allocation |
| `Slab.FreshAccepted` | userfs/src/global/ncx_slab.c:498-516 | the first address of a fresh pool is accepted although nothing is allocated |
| `Slab.SmallAccepted` | userfs/src/global/ncx_slab.c:378-403 | after one allocation of 8 bytes the start of its page is accepted although nothing starts there |
| `Slab.SlabPool.constructor` | userfs/src/global/ncx_slab.c:55-113 | the same, as an object |
| `Slab.SlabPool.Alloc` | userfs/src/global/ncx_slab.c:115-125 | allocation keeps the pool sound and grants one region, from a page of the class as long as one has room, by first fit otherwise |
| `Slab.SlabPool.Free` | userfs/src/global/ncx_slab.c:350-357 | the same on the object: it stays valid exactly when the address is not that of a bitmap chunk |
| `Futex.LockKeeps` | userfs/src/concurrency/locks.c:122-181 | every step of lock and trylock keeps the invariant |
| `Futex.UnlockKeeps` | userfs/src/concurrency/locks.c:142-173 | every step of unlock keeps it |
| `Futex.WakeKeeps` | userfs/src/concurrency/locks.c:170 | waking any sleeper keeps it |
| `Futex.MutualExclusion` | userfs/src/concurrency/locks.c:122-181 | in every run of any number of threads at most one owns the lock, and the locked byte is then set |
| `Futex.NoLostWakeup` | userfs/src/concurrency/locks.c:122-181 | in every run: while the lock is free and a thread sleeps, an unlocker is still watching or about to wake, or a thread is about to exchange the word |
| `Futex.FastPathIsSafe` | userfs/src/concurrency/locks.c:149-151 | in every run: while the word is 1 and a thread sleeps, a wake-up is on its way |
| `Futex.NoEperm` | userfs/src/concurrency/locks.c:146-147 | the owner's unlock never reports EPERM |
| `Futex.TakenExactly` | userfs/src/concurrency/locks.c:122-181 | in every run a thread comes to hold the lock exactly when it exchanges the byte or the word while the lock is free; a trylock of a held lock changes nothing |
| `Futex.GivenExactly` | userfs/src/concurrency/locks.c:142-173 | in every run the lock becomes free exactly when its owner gives it up |
| `Futex.UnlockReleases` | userfs/src/concurrency/locks.c:142-173 | in every run a thread that entered unlock with the lock and has left it gave the lock up in between, in a step of its own after which the lock was free |
| `Futex.UnlockEnds` | userfs/src/concurrency/locks.c:142-173 | every step of a thread in unlock brings it nearer to the end, 206 steps at most, and the end is never with the lock in hand |
| `Futex.NoDeadlock` | userfs/src/concurrency/locks.c:122-181 | from every reachable state with a free lock and a sleeper some continuation takes the lock |
| `ThreadPool.FifoKept` | userfs/src/threadpool/thpool.c:455-512 | every step keeps the queue in push order and each job in one place |
| `ThreadPool.ServedKept` | userfs/src/threadpool/thpool.c:455-512 | every step keeps a waiting job served |
| `ThreadPool.AwakeKept` | userfs/src/threadpool/thpool.c:547-572 | every step keeps: semaphore up and a worker asleep means a worker is about to test it |
| `ThreadPool.SeenKept` | userfs/src/threadpool/thpool.c:204-211 | every step keeps what a waiter has read true |
| `ThreadPool.WorkingKept` | userfs/src/threadpool/thpool.c:359-398 | num_threads_working counts the workers between the two lock sections |
| `ThreadPool.JobsInOrder` | userfs/src/threadpool/thpool.c:455-512 | in every run each pushed job is on the queue in its place, or with exactly one worker, or done |
| `ThreadPool.StartsOldest` | userfs/src/threadpool/thpool.c:486-512 | the job a worker takes is the oldest not taken |
| `ThreadPool.QueueServed` | userfs/src/threadpool/thpool.c:455-512 | in every run a non-empty queue has the semaphore up, a worker past it, or one about to post |
| `ThreadPool.JobCanBeTaken` | userfs/src/threadpool/thpool.c:359-398 | from every state of every run with a job waiting and at least one worker some continuation takes the oldest job |
| `ThreadPool.WaitIsComplete` | userfs/src/threadpool/thpool.c:204-211 | in every run, when thpool_wait returns every job pushed before its last look at the queue has finished |
| `ThreadPool.WaiterCanReturn` | userfs/src/threadpool/thpool.c:204-211 | on an idle pool thpool_wait returns in three steps |
| `ThreadPool.LeftAsleep` | userfs/src/threadpool/thpool.c:391-396 | when the pool becomes idle a waiter is left asleep exactly when two or more were, as the signal wakes one |
| `ThreadPool.StaysAsleep` | userfs/src/threadpool/thpool.c:204-211 | in an idle pool nobody wakes a waiter |
| `ThreadPool.SignalWentElsewhere` | userfs/src/threadpool/thpool.c:204-211 | in every run a waiter asleep on an idle pool has slept since it became idle, and the signal went to another |
| `ThreadPool.OneWaiterWakes` | userfs/src/threadpool/thpool.c:204-211 | in every run with never two waiters asleep none sleeps on an idle pool |
| `ThreadPool.SecondSleepsOn` | userfs/src/threadpool/thpool.c:204-211 | a run in which the second of two waiters sleeps on with all jobs done |
| `JobQueue.JobQueue.constructor` | userfs/src/threadpool/thpool.c:421-435 | the empty queue |
| `JobQueue.JobQueue.Push` | userfs/src/threadpool/thpool.c:455-476 | the linked queue gets the job at its end and the semaphore is up |
| `JobQueue.JobQueue.Pull` | userfs/src/threadpool/thpool.c:486-512 | the oldest job, and the semaphore is up again when more are left |
| `Ckh.TryBucketInsert` | userfs/lib/jemalloc-4.5.0/src/ckh.c:92-116 | fills an empty cell of the bucket, or all four are taken, from whatever cell the search starts |
| `Ckh.Evict` | userfs/lib/jemalloc-4.5.0/src/ckh.c:138-167 | the evicted cell is occupied; table and item in hand hold what they held; only that cell changed; the new bucket is the item's other one |
| `Ckh.EvictReloc` | userfs/lib/jemalloc-4.5.0/src/ckh.c:125-193 | whatever the random choices: the item is placed, or table plus item in hand are conserved, and after a cycle the new item is stored and an older one in hand; exactly which choices end the loop and which end it with a cycle |
| `CkhEscape.WayKept` | userfs/lib/jemalloc-4.5.0/src/ckh.c:136-193 | every turn that does not end the loop keeps a way of different buckets, each with an item that leads to the next, back to the first bucket |
| `CkhEscape.NeverTrapped` | userfs/lib/jemalloc-4.5.0/src/ckh.c:136-193 | whatever was chosen so far, some further choices end the loop, as the comment in the source claims |
| `Ckh.TryInsert` | userfs/lib/jemalloc-4.5.0/src/ckh.c:196-218 | the same for the whole attempt, which succeeds when one of the two buckets has an empty cell, and reports a cycle exactly when both are full and evicting comes back to the second |
| `Ckh.Rebuild` | userfs/lib/jemalloc-4.5.0/src/ckh.c:225-245 | on success the new table holds exactly the old items; four items always fit; a cycle means that some item found both buckets full among those before it and evicting came back; the count is restored on failure |
| `Ckh.Grow` | userfs/lib/jemalloc-4.5.0/src/ckh.c:248-300 | the smallest larger table whose rebuild does not end in a cycle, with the same items, or exactly the old table; no memory only when every larger table within the limit ended in one |
| `Ckh.Shrink` | userfs/lib/jemalloc-4.5.0/src/ckh.c:303-348 | a halved table with the same items, or exactly the old table: without room, or when the rebuild ended in a cycle; four items are always halved |
| `Ckh.Insert` | userfs/lib/jemalloc-4.5.0/src/ckh.c:460-481 | on success the items plus the new one; a cycle, and nothing else, makes the table grow, and no memory is reported only when no larger table within the limit can be built; then all but one item are kept, never losing the one in hand when the table last grew: a table that cannot grow stores the new item and loses an older one |
| `Ckh.OlderLost` | userfs/lib/jemalloc-4.5.0/src/ckh.c:460-481 | one full bucket and no room to grow: whatever the hashes and choices, the fifth item is stored and an older one is lost |
| `Ckh.NewerLost` | userfs/lib/jemalloc-4.5.0/src/ckh.c:471-476 | with one growth and equal hashes the choices can be such that the new item is the one lost |
| `Ckh.Find` | userfs/lib/jemalloc-4.5.0/src/ckh.c:53-89 | a cell with the key, or the key is nowhere in the table |
| `CkhMap.CkhMap.constructor` | userfs/lib/jemalloc-4.5.0/src/ckh.c:351-405 | an empty map with room for the requested items at three quarters full |
| `CkhMap.CkhMap.Search` | userfs/lib/jemalloc-4.5.0/src/ckh.c:516-532 | search is map lookup |
| `CkhMap.CkhMap.Put` | userfs/lib/jemalloc-4.5.0/src/ckh.c:460-481 | a successful insert is map update; the table grows exactly on a cycle and failure means that no larger table can be built; then exactly one binding is lost, an older one if the table did not grow; a full table that cannot grow never succeeds, a key with an empty cell always does |
| `CkhMap.CkhMap.Remove` | userfs/lib/jemalloc-4.5.0/src/ckh.c:484-513 | remove is map removal; the table is halved only when it is less than a quarter full and above its least size, and then always if there is memory and at most four bindings are left or no item meets a cycle |
| `UtLinks.PushLinked` | userfs/src/ds/uthash.h:755-761 | adding in front of a bucket chain keeps all chains linked |
| `UtLinks.AppendLinked` | userfs/src/ds/uthash.h:235-241 | appending to the application order keeps it linked |
| `UtLinks.UnlinkLinked` | userfs/src/ds/uthash.h:769-779 | taking out keeps all chains linked |
| `UtTable.AddBucketOk` | userfs/src/ds/uthash.h:755-761 | the bucket half of HASH_FSCK after adding |
| `UtTable.DropBucketOk` | userfs/src/ds/uthash.h:769-779 | the bucket half of HASH_FSCK after deleting |
| `UtTable.DropOrderOk` | userfs/src/ds/uthash.h:347-380 | the order half of HASH_FSCK after deleting, with head and tail |
| `UtExpand.Move` | userfs/src/ds/uthash.h:826-843 | moving one element to its new bucket keeps the division between old and new chains |
| `UtExpand.IdealIsCeiling` | userfs/src/ds/uthash.h:821-823 | the shift-and-mask formula is the least chain length at which the buckets hold the items |
| `UtExpand.Expand` | userfs/src/ds/uthash.h:810-856 | after doubling every element is in bucket hashv & (num_buckets - 1) and HASH_FSCK holds; nonideal_items counts the elements beyond the ideal length, every expand_mult is that of its chain, and expansion is inhibited after two ineffective ones in a row |
| `UtHash.Add` | userfs/src/ds/uthash.h:294-315 | HASH_FSCK holds with the element last in the application order and first in its chain; the buckets are doubled exactly when the chain reaches its threshold and expansion is not inhibited |
| `UtHash.Delete` | userfs/src/ds/uthash.h:347-380 | HASH_FSCK holds without the element, which has left its chain; no other chain changes |
| `UtHash.FindInBucket` | userfs/src/ds/uthash.h:733-752 | the first element of the bucket with hash value and key, or no element has them |
| `UtHash.UtHash.constructor` | userfs/src/ds/uthash.h:182-199 | no elements |
| `UtHash.UtHash.AddElement` | userfs/src/ds/uthash.h:294-315 | the element is added at the end, creating the table when there is none; when the buckets are doubled |
| `UtHash.UtHash.Find` | userfs/src/ds/uthash.h:129-139 | an element with the key, or none has it |
| `UtHash.UtHash.DeleteElement` | userfs/src/ds/uthash.h:347-380 | exactly the element is gone, the table with the last one |
| `UtHash.UtHash.SortElements` | userfs/src/ds/uthash.h:863-948 | a permutation of the application order with HASH_FSCK and the tail intact, for every comparator; sorted and stable for every total preorder |
| `UtSort.MergeSorted` | userfs/src/ds/uthash.h:888-933 | merging two sorted runs, taking the first on ties, is a stable sort of both |
| `UtSort.PassRuns` | userfs/src/ds/uthash.h:872-935 | a pass turns sorted runs of width w into sorted runs of width 2w |
| `UtSort.PassPerm` | userfs/src/ds/uthash.h:872-935 | a pass is a permutation |
| `UtMerge.MergeRuns` | userfs/src/ds/uthash.h:888-933 | the relinking loop merges exactly the two runs, with next and prev links of the output correct |
| `UtMerge.MergePass` | userfs/src/ds/uthash.h:872-935 | one pass over the linked list is the pass on sequences; at most one merge means one run is left |
| `UtMerge.Sort` | userfs/src/ds/uthash.h:863-948 | the loop ends with a permutation, linked both ways, with head and tail, for every comparator; sorted and stable for every total preorder |
| `XxStream.Resume` | userfs/src/ds/xxhash.c:380-436 | hashing may stop after any bytes and go on from the accumulators and the bytes left over |
| `XxStream.Consume` | userfs/src/ds/xxhash.c:279-291 | the stripe loop consumes all full stripes and stops at the rest |
| `XxStream.Update` | userfs/src/ds/xxhash.c:388-435 | any piece, also an empty one: accumulators and buffer are those of everything seen so far |
| `Xxh32.OneShot` | userfs/src/ds/xxhash.c:265-319 | computes the hash, fixed by the values and the one-to-one steps stated in the rows below |
| `Xxh32.State.constructor` | userfs/src/ds/xxhash.c:367-377 | nothing seen |
| `Xxh32.State.Update` | userfs/src/ds/xxhash.c:380-436 | the length modulo 2^32 and the flag for 16 bytes stay right for every total length |
| `Xxh32.State.Digest` | userfs/src/ds/xxhash.c:450-483 | the same hash, of everything seen |
| `Xxh32.StreamedIsOneShot` | userfs/src/ds/xxhash.c:367-483 | for every seed and every cut into pieces the streamed value is the one-call value |
| `Xxh64.OneShot` | userfs/src/ds/xxhash.c:625-691 | computes the hash, fixed by the values and the one-to-one steps stated in the rows below |
| `Xxh64.State.constructor` | userfs/src/ds/xxhash.c:737-747 | nothing seen |
| `Xxh64.State.Update` | userfs/src/ds/xxhash.c:749-802 | accumulators, buffer and length are those of everything seen |
| `Xxh64.State.Digest` | userfs/src/ds/xxhash.c:814-863 | the same hash, of everything seen, for every input that has a 64-bit length |
| `Xxh64.StreamedIsOneShot` | userfs/src/ds/xxhash.c:737-863 | for every seed and every cut into pieces the streamed value is the one-call value |
| `XxWords.WordBytes` | userfs/src/ds/xxhash.c:222-228 | byte i of a 32-bit word is byte i of the input |
| `XxWords.WordHalves` | userfs/src/ds/xxhash.c:582-588 | the halves of a 64-bit word are the 32-bit words of the halves of the input |
| `Xxh32Mix.Rounds` | userfs/src/ds/xxhash.c:257-263 | a round is one-to-one in the word and in the accumulator |
| `Xxh32Mix.TailState` | userfs/src/ds/xxhash.c:300-310 | for every tail the state before it can be told from the state after it |
| `Xxh32Mix.SameAvalanche` | userfs/src/ds/xxhash.c:312-316 | the final mixing is one-to-one |
| `Xxh32Mix.PieceMatters` | userfs/src/ds/xxhash.c:265-319 | inputs of one length that differ in one word, or in one byte after the last word, never have the same hash |
| `Xxh32Mix.SeedMatters` | userfs/src/ds/xxhash.c:265-319 | for an input under 16 bytes different seeds give different hashes |
| `Xxh64Mix.Eats8` | userfs/src/ds/xxhash.c:665-670 | taking in a word is one-to-one in the word and in the state |
| `Xxh64Mix.TailState` | userfs/src/ds/xxhash.c:665-682 | for every tail the state before it can be told from the state after it |
| `Xxh64Mix.SameAvalanche` | userfs/src/ds/xxhash.c:684-688 | the final mixing is one-to-one |
| `Xxh64Mix.PieceMatters` | userfs/src/ds/xxhash.c:625-691 | inputs of one length that differ in one piece after the last full stripe never have the same hash |
| `Xxh64Mix.SeedMatters` | userfs/src/ds/xxhash.c:625-691 | for an input under 32 bytes different seeds give different hashes |
| `XxKnown.Empty32` | userfs/src/ds/xxhash.c:265-319 | the empty input has hash 02cc5d05 |
| `XxKnown.Abc32` | userfs/src/ds/xxhash.c:265-319 | "abc" has hash 32d153ff |
| `XxKnown.Long32` | userfs/src/ds/xxhash.c:265-319 | the value for 21 bytes: a stripe, a word and a byte |
| `XxKnown.Empty64` | userfs/src/ds/xxhash.c:625-691 | the empty input has hash ef46db3751d8e999 |
| `XxKnown.Abc64` | userfs/src/ds/xxhash.c:625-691 | "abc" has hash 44bc2cf5ad770999 |
| `XxKnown.Long64` | userfs/src/ds/xxhash.c:625-691 | the value for 45 bytes: a stripe, a word, half a word and a byte |
| `Bitmap.FindNextBit` | userfs/src/ds/bitmap.c:9-32 | the word-level search is the bit-by-bit one, for set and for clear bits |
| `Bitmap.AlignIsUp` | userfs/src/ds/bitmap.c:401 | the 64-bit wrap-around in the alignment sum cancels out |
| `Bitmap.UpLeast` | userfs/src/ds/bitmap.c:401 | the aligned index is the least one |
| `Bitmap.FindArea` | userfs/src/ds/bitmap.c:389-412 | ends; for positive lengths the least aligned clear area, or a value above size exactly when there is none |
| `Bitmap.EmptyArea` | userfs/src/ds/bitmap.c:389-412 | for length 0 the promise holds exactly when no aligned index lies between the start and the first clear bit |
| `Bitmap.EmptyAreaMissed` | userfs/src/ds/bitmap.c:389-412 | a bitmap on which it does not |
| `BitmapRange.ChangeRange` | userfs/src/ds/bitmap.c:325-374 | exactly the bits of the range are set, or cleared |
| `Bitmap.FirstMaskBit` | userfs/src/ds/bitmap.h:192 | the mask of the first word covers its bits from start on |
| `Bitmap.LastMaskBit` | userfs/src/ds/bitmap.h:193 | the mask of the last word covers its bits before the end |
| `MetadataLog.Place` | userfs/src/filesystem/fs.h:516-537 | the first place from the end of the log on, after a wrap if need be, where the record lies in one page; it is inside the log and on a multiple of 32 |
| `MetadataLog.Log.constructor` | userfs/src/filesystem/fs.h:260-266 | the empty log |
| `MetadataLog.Log.Append` | userfs/src/filesystem/fs.h:513-544 | the record goes to that place, skipped bytes are zero, and every record written since the last wrap is still there, none overlapping another |
| `RangeSplit.TilesCover` | userfs/src/filesystem/file.c:2306-2416 | pieces that tile a request cover each byte exactly once |
| `RangeSplit.WriteSizes` | userfs/src/filesystem/file.c:2306-2332 | the three sizes add up, the edges are under one block, the middle is whole blocks |
| `RangeSplit.NextSize` | userfs/src/filesystem/file.c:2362-2371 | in the 32-bit word of the code: a positive multiple of 4096 that does not cross a 2 MiB boundary, or 0 exactly when what is left is a multiple of 2^32 |
| `RangeSplit.LargestPiece` | userfs/src/filesystem/file.c:2362-2371 | no longer piece from there stays within what is left and within its 2 MiB unit |
| `RangeSplit.LoopEndsExactly` | userfs/src/filesystem/file.c:2358-2391 | with full transfers the loop ends if and only if the aligned middle is below 2^32 bytes |
| `RangeSplit.StuckAtOnce` | userfs/src/filesystem/file.c:2358-2391 | for 2^32 bytes at offset 0 no turn of the loop makes progress |
| `RangeSplit.File.Write` | userfs/src/filesystem/file.c:2306-2416 | the pieces tile the request in order, each aligned one as long as can be, and offset and size are updated by exactly the request, if the aligned middle is below 2^32 bytes; otherwise the loop comes to a turn it repeats for ever, with the rest written |
| `RangeSplit.ReadSizes` | userfs/src/filesystem/fs.c:3108-3142 | the four sizes add up, the edges are under one block, the middle is whole blocks |
| `RangeSplit.Read` | userfs/src/filesystem/fs.c:3098-3187 | the pieces tile exactly the request clipped to the size of the file |

## Left out

- Storage engines, memory mapping, system calls, device set-up, and the POSIX and path-cache layers over the indexes.
- Block placement and read assembly (`aligned_write`, `in_place_write`, `bmap` and others) and the `upsert_blktree` variants.
- khash: flags are one record per bucket instead of two bits in a packed word, 0.77 is 77/100, and memory is never short; the hash function and key equality are parameters.
- KHash.KHash.constructor: the model has the counters and empty sequences of a zeroed table; `kh_destroy` is not modelled.
- Adaptive radix tree: nodes are values, so aliasing and freeing are not captured; `maximum` and prefix iteration are not modelled; the iteration callback is a function of key and value.
- Art.Art.Put: asks that the new key and the stored keys are no prefixes of one another, as keys that end in a terminator are; the C code reads past the key otherwise.
- Red-black tree: the augmentation callbacks are the dummies of `rb_insert_color` and `rb_erase`; mirrored branches share one body with a direction; `rb_last`, `rb_prev` and `rb_replace_node` are not modelled.
- BlockTree.BlockTree.Insert: asks for a non-empty block-aligned extent, disjoint from those stored, with block addresses below 2^52; `block_clear` and `block_replace` are not modelled.
- Slab pool: the spin lock, junk filling, logging, statistics and the address arithmetic that places the descriptors are not modelled; pages are 4096 bytes and the least chunk is 8 bytes; `prev` fields of list heads are never read and are left out.
- SlabReturn.FreeAt: excludes an address past the last page whose memory passes the tests of the code, as what lies there is unknown.
- Slab.SlabPool.Free: the same exclusion.
- SlabReturn.EndAccepted: whether the memory past the last descriptor passes the tests is a parameter.
- Futex mutex and thread pool: memory is sequentially consistent and each atomic operation is one step; fairness is not stated.
- Thread pool: pausing, destroying and thread creation are not modelled; condition variables may also wake a waiter without a signal.
- Ckh.EvictReloc: the random choices are a finite sequence and the loop stops when they run out; that some choices end it from every state is proved, a probability is not stated.
- Ckh.Grow: memory exhaustion is a limit on the table size; counters for statistics are left out.
- Ckh.NewerLost: the turns of the insertion loop are written out, with the second turn's choices made after the table has grown.
- CkhMap.CkhMap.Put: asks for an absent key, as the debug assertion of `ckh_insert` does.
- uthash: the Bloom filter, in-order insertion, replacing and selecting are not modelled, nor the wrap-around of 32-bit counters.
- Xxh64Mix.PieceMatters: covers what follows the last full stripe; a changed accumulator enters the final merging twice, and that this too is one-to-one is not stated.
- Xxh64.State.Digest: inputs of 2^64 bytes or more have no 64-bit length and are excluded.
- xxHash: big-endian and unaligned reads, the canonical byte forms and null inputs are not modelled.
- Bitmap.FindArea: asks that size, alignment and length together stay within 2^64 and that the alignment divides 2^64.
- Bitmaps: logical operations, shifting, parsing, remapping and folding are not modelled.
- MetadataLog.Log.Append: the log start is fixed; the address record written at shutdown and the lock are not modelled.
- RangeSplit.File.Write: offsets do not wrap, each piece is transferred fully, and the result is not narrowed to an `int`; where the bytes go is not modelled.
- RangeSplit.Read: lengths are below 2^32 and each piece is transferred fully; the result is not narrowed to an `int`.
