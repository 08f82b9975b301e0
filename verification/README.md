# Cuckoo Trie

The Cuckoo Trie is an ordered index over byte-string keys. The nodes of the trie are entries of
a hash table with two buckets per hash (cuckoo hashing); they are named by the hash of their prefix
and a colour instead of pointers, and the leaves form a sorted linked list. The model has four
layers, each built on the one before.

1. **Encoding and hashing.** `Keys.dfy` splits a key into five-bit symbols and an end marker and
   proves that the order of the symbol sequences is the order of the keys. `Hashing.dfy` has the
   prefix hash, one permutation per symbol, and the two buckets of a hash. `Bits.dfy` is the bit
   arithmetic on byte buffers: fields, bit copies, bitmaps and packed jump symbols. `Packing.dfy`
   ties those bits to the nodes of the trie. `Headers.dfy` compares the vectorized searches and
   colour choosers with the scalar ones, and `CellHeaders.dfy` ties both to the table's cells.
2. **The table.** `Store.dfy` has the cells as a value and what single writes do to the entries.
   `Table.dfy` is the table as a class over an array of cells and an array of sequence numbers:
   searches, updates, the breadth-first relocation, adding and removing. Its ghost field `history`
   logs the cells after each write; only `WriteEntry` writes cells and only it extends the log.
3. **The trie.** `Structure.dfy`, `Order.dfy`, `Steps.dfy`, `Splitting.dfy`, `JumpSplit.dfy` and
   `Places.dfy` state the structural invariant and the sorted list as predicates on values, and
   prove what each change keeps. `Finger.dfy` is the descent and the predecessor search, `Trie.dfy`
   the operations, `Iter.dfy` the iterator, `Verify.dfy` the consistency check. `Demands.dfy` and
   `Growth.dfy` say which nodes an insertion adds and what room they take. `Runs.dfy` compares whole
   runs with a plain dictionary.
4. **Concurrency.** Four protocols as steps of any number of threads: `Seqlock.dfy` (reading and
   writing a cell), `ColorProtocol.dfy` (adding to a bucket pair), `Locks.dfy` (the lock manager as a
   class) and `LockProtocol.dfy` (lock managers over shared lock bytes). `SoloAdds.dfy` follows the steps
   of a single thread, and `PathLocks.dfy` ties the locks taken above a bitmap to the entries written.

## Main results

- `Runs.Run`: over any sequence of inserts, upserts, updates and lookups on an empty trie, a lookup
  answers the value last stored under the key by an earlier operation, or none exactly if no earlier
  insert or upsert named the key; the other answers tell whether one did. If no operation is refused,
  the consistency check then accepts the trie, and a scan from any key returns the pairs last stored in
  ascending order. Only an operation that brings in a new key can be refused, and none is if no mix
  value is 0 and no bucket is the primary bucket of more than four distinct prefixes of the run's keys.
  (`Runs.TwoKeysFit` is an instance with two keys.)
- `Trie.CuckooTrie.Insert`: a new node stands for a prefix of the new key, or for a prefix of a stored
  key that is one symbol off the new key's path. If the key's own prefixes and any one of the others
  fit in their primary buckets, as far as they have no nodes yet, one attempt adds the key and takes
  just the places of the new nodes. An overflow means that for one of these prefixes both buckets are
  full and the relocation search from the primary one failed: no entry of the buckets that it visited
  could be moved to an unused cell. An attempt that must be retried has made room for such a prefix, or
  its mix value is 0.
- `Table.CuckooTable.RelocateEntry`: a relocation frees exactly one cell, keeps the named contents,
  and leaves every entry in one of its two buckets after every logged write. If it fails with an
  unfilled queue, `Store.StuckForever` shows that no sequence of single moves could free a cell.
- `ColorProtocol.CommittedColorsDiffer`: whatever the interleaving, two entries of a pair whose
  adds succeeded never share a colour.
- `Seqlock.ReadsAreWhole`: a value returned by a reader was in the cell as a whole at one instant, and
  was there at the start or given to a write; it still is there when the reader returns.
- `LockProtocol.ByteIffListedOnce`, `LockProtocol.TotalsBalance`: a lock byte is set exactly if one
  manager lists the bucket, once, and its count is the sum of the references it stands for.

## Where the code differs from what one may expect

- An entry whose tag has mix value 0 has one bucket as both buckets of its pair. `add_entry` takes its
  sequence number before it writes there itself, so the validation that follows always fails, and
  the retry loops around it never end (main.c:120-126, main.c:1051-1109). Mix values are drawn modulo
  the number of buckets (main.c:2342-2348), a range that includes 0.
  `Table.CuckooTable.PutAndValidate` proves that the add succeeds exactly if the mix value is not 0
  and the other bucket is as it was read; `Runs.Run` asks for `NoZeroMix` where it promises success.
  `Runs.ZeroMixIsValid` is a geometry in which no entry has two buckets, and `Runs.InsertInVain`
  proves that a key whose new nodes all have mix value 0 is never added.
- The relocation that makes room for an entry may itself write to the bucket that is validated
  afterwards, which also makes a single thread retry.
- `move_entry_lock` moves one reference only (main.c:1000, atomics.c:303-327). The locks follow the
  entries of a relocation if and only if no moved entry has more than one reference
  (`Locks.RefsFollowEntries`); a cell whose entry had more keeps some (`Locks.MoreThanOneStays`).
- The loop of `copy_bits` runs while `pos <= num_bits`, so it writes up to the byte that holds bit
  `num_bits`, and the branch after it is never taken (util.c:78-92).
- The scalar searches do not look at the entry type, the vectorized ones do. They agree as long as
  unused cells hold the invalid colour; without that they differ exactly if the scalar search stops
  at an unused cell.
- A `split_jump_node` whose following leaf must be retried leaves a bitmap with one child. The
  structural invariant allows that.

## Model

| member | source | states |
|---|---|---|
| Keys.EncodingOrderIsomorphism | main.c:231-257 | For all byte strings, the END-terminated symbol sequences compare like the keys under `kv_key_compare`, and only equal keys have equal sequences. |
| Keys.EncodingPrefixFree | main.c:231-257 | A key whose symbol sequence is a prefix of another key's sequence is that key. |
| Keys.CompareAntisymmetric | key_object.h:43-62 | The reference key order is antisymmetric, and compares equal exactly for equal keys. |
| Keys.SymbolIsBits | main.c:231-257 | Symbol i of a key, less one, is the number of the key's bits 5i to 5i + 4, most significant first, with zeros past the end. |
| Keys.KeyToSymbols | main.c:1849-1870 | The blocked conversion stores at each index the symbol that `get_string_symbol` gives there, and touches nothing beyond the last block. |
| Hashing.AccumulateIsPermutation | main.c:139-149 | For each symbol the hash step is a permutation of the hashes below `num_pairs`, with an explicit inverse on both sides. |
| Hashing.ChildrenApart | main.c:139-149 | The children of a node have different hashes, and all whose symbols are below 32 have different primary buckets. |
| Hashing.MixUnmixInverse | main.c:120-137 | The two bucket maps of a tag stay in range and undo each other; they are the identity exactly for mix value 0. |
| Hashing.MixIsModular | main.c:120-137 | The secondary bucket is the primary one less the mix value, modulo the number of buckets. |
| Hashing.HashFromConcat | main.c:649-652 | The hash of a concatenation continues from the hash of the first part, as extending a prefix symbol by symbol does. |
| Hashing.KeyPrefetcher.Start | main.c:1882-1896 | The first four prefix hashes are ready, and all hashes that are ready are those of the key's prefixes. |
| Hashing.KeyPrefetcher.Step | main.c:1898-1908 | One more hash is made ready until all are; those ready stay the hashes of the key's prefixes. |
| Bits.ExtractMeaning | util.c:38-55 | The field read through a byte-swapped 32-bit load is the number that the addressed bits stand for. |
| Bits.PutBits | util.c:57-76 | Replaces the addressed bits by the given number and keeps every other bit of the buffer. |
| Bits.CopyBits | util.c:78-92 | The bits asked for are copied; bytes beyond the one that holds bit `num_bits` are untouched. |
| Bits.SetBit | util.c:99-105 | Sets or clears the one bit and keeps all others. |
| Bits.LastBitBefore | util.c:107-120 | Returns the largest set bit below the bound, or -1 exactly if there is none. |
| Bits.JumpSymbolMeaning | main.c:219-228 | The i'th packed symbol is given by bits 5i to 5i+4, plus one. |
| Bits.JumpNode.ExtendJumpNode | main.c:852-858 | Appends one symbol to the packed sequence; bytes of the other fields are untouched. |
| Bits.JumpNode.CopyTail | main.c:1650-1664 | The node holds the other node's symbols after the first `skip`; bytes beyond the packed field survive. |
| Bits.SplitPacked | main.c:1589-1690 | The head keeps the first symbols, one symbol is split off, the tail gets the rest; concatenated they are the original jump. |
| Packing.PackedChildBefore | main.c:708-711 | Searching the child bitmap yields the greatest child below the symbol, or none exactly if there is none: what the search in the set of children yields. |
| Packing.SetChildBit | cuckoo_trie_internal.h:212-226 | Setting the bit adds exactly that child. |
| Packing.SplitPackedNode | main.c:1589-1690 | The packed head and tail after a split are the packed forms of the two nodes that the trie model puts in place of the jump node. |
| Headers.ColorSearchMeaning | main.c:269-337 | The masked comparison holds exactly if flag, tag and colour of the header are those looked for. |
| Headers.ParentSearchMeaning | main.c:339-430 | The masked comparison holds exactly if flag, tag, last symbol and parent colour are those looked for. |
| Headers.FindByColorVectorized | main_vectorized.c:600-716 | Returns the first used cell that matches, or -1 if there is none, through prefilter, lanes and trailing zeros. |
| Headers.FindByParentVectorized | main_vectorized.c:434-597 | Returns the first used cell that matches, or -1 if there is none, in all cases of the prefilter. |
| Headers.ColorSearchesAgree | main_vectorized.c:600-716 | Scalar and vectorized search by colour return the same cell exactly if the scalar one does not stop at an unused cell, which invalid colours in unused cells guarantee. |
| Headers.ParentSearchesAgree | main_vectorized.c:434-597 | The same for the search by parent colour. |
| Headers.UnusedColorInPair | main.c:860-878 | The smallest colour that none of the eight cells has; it is at most 8 (pigeonhole). |
| Headers.UnusedColorInPairAvx512 | main_vectorized.c:1149-1182 | The same colour, from 64-bit lanes. |
| Headers.UnusedColorInPairAvx2 | main_vectorized.c:1184-1239 | The same colour, from two halves. |
| Headers.ChoosersAgree | main_vectorized.c:1149-1239 | What the choosers promise determines the colour, so all three return the same. |
| CellHeaders.HeaderFields | cuckoo_trie_internal.h:58-61 | The header composed from a cell has the cell's type, flag, colours, tag and last symbol; its type is zero exactly for an unused cell. |
| CellHeaders.EntriesFit | cuckoo_trie_internal.h:58-61 | In a table that holds a trie, every field of an entry fits in its header. |
| CellHeaders.ColorTest | main.c:269-301 | The table's test of a cell by hash and colour is the masked comparison of the cell's header. |
| CellHeaders.ParentTest | main.c:339-372 | The table's test of a cell by hash, last symbol and parent colour is the masked comparison of the cell's header. |
| CellHeaders.FoundByColor | main.c:269-337 | The first cell of a bucket that the search over the headers finds is the one that the table's search finds. |
| CellHeaders.FoundByParent | main.c:339-430 | The same for the search by parent. |
| CellHeaders.SameChoice | main.c:860-878 | The table chooses the colour that the headers of the pair determine. |
| Store.MoveIntoStale | main.c:985-1002 | Writing an entry's flipped copy to the stale cell of its other bucket changes no named content, and makes its old cell the stale one. |
| Store.StuckForever | main.c:913-964 | No run of legal single-entry moves frees a cell in a closed set of full buckets, which is what a failed search reports. |
| Table.CuckooTable.WriteEntry | atomics.c:33-76 | Writes one cell, advances its bucket's sequence number by two, and logs the new state. |
| Table.CuckooTable.FindEntryInPairByColor | main.c:436-463 | Finds the entry with the given hash and colour, in whichever of its buckets it is, with the sequence number to revalidate it. |
| Table.CuckooTable.FindEntryInPairByParent | main.c:465-489 | Finds an entry with the given hash, last symbol and parent colour. |
| Table.CuckooTable.UpdateEntry | main.c:535-578 | Replaces exactly the named entry the copy was read from, wherever relocations have moved it since, with the flag of its present bucket; all other copies stay usable. |
| Table.CopyKept | main.c:535-578 | A copy read before any writes, relocations included, that keep the entry still leads to it: it is exact if the bucket's number is unchanged, and otherwise its name is in the table. |
| Table.CuckooTable.FindRelocationPath | main.c:913-964 | Either a chain of full buckets whose entries can each move one step to an unused cell, or no entry of a queued bucket that may be moved has an unused cell to move to, whether or not the queue filled; if it did not, all buckets reachable by moves are queued. |
| Table.CuckooTable.RelocateEntry | main.c:891-1030 | On success exactly one cell of the bucket is freed, the contents by name are unchanged, the root and the immovable entry stay; after each logged write every entry is in one of its buckets and copies differ in the flag only. On failure nothing moved; the visited buckets are full, none of their entries that may be moved has an unused cell to move to, and they are closed under alternates unless they fill the queue. |
| Table.CuckooTable.PutAndValidate | main.c:1089-1109 | The add succeeds exactly if the other bucket's number is as it was read and the mix value is not 0; then the new name is fresh for its hash, otherwise the contents are as before. |
| Table.CuckooTable.AddEntry | main.c:1034-1110 | Adds the node under a colour fresh for its hash or leaves the contents alone; copies read before stay usable. With a non-zero mix value and an unused cell in the pair it succeeds. In a full pair it succeeds exactly if the search for room does and the relocation does not write the secondary bucket; a retry then leaves an unused cell in the primary one. It fails only if the pair is full and the search failed. |
| Table.CuckooTable.FreshColor | main.c:860-878 | No entry with the hash has the chosen colour. |
| Table.CuckooTable.Remove | main.c:580-605 | Removes exactly the named entry. |
| Table.CuckooTable.FindChild | main.c:432-489 | Finds the child of a bitmap by the hash, last symbol and parent colour, if there is one. |
| Structure.ChildByParentIsUnique | main.c:120-158 | Hash, last symbol and parent colour name at most one child of a bitmap of the trie. |
| Structure.RightmostLeaf | main.c:1192-1215 | If every node's max_leaf is that of its last child, it is the rightmost leaf below the node. |
| Structure.PropagateUp | main.c:1192-1215 | Copying max_leaf one level up repairs the last node at which it was wrong. |
| Order.PredecessorIsRightmost | main.c:1221-1255 | The max_leaf below the nearest smaller child is the greatest leaf left of the position. |
| Order.NoPredecessor | main.c:746-789 | If no node on the path has a smaller child, no leaf is left of the position. |
| Order.LookupDecides | main.c:2020-2048 | Where the descent ends decides whether the key is stored, and with which value. |
| Fingers.Finger.TryDescend | main.c:1112-1152 | Moves one symbol down if the trie has a way there, and otherwise shows that it has none. |
| Fingers.Finger.Descend | main.c:1910-1925 | Ends at the leaf of the key, or where no node of the trie leads further along the key. |
| Fingers.BitmapChildBefore | main.c:708-711 | The greatest child smaller than the symbol, or none exactly if there is none. |
| Fingers.Finger.FindLeftDescend | main.c:1221-1255 | The deepest node of the path with a child to the left of the position, and the greatest such child; none exactly if there is none. |
| Fingers.Finger.FindPredecessor | main.c:746-814 | The leaf with the greatest key smaller than the position, or the list head exactly if there is no such leaf. |
| Splitting.BuildPath | main.c:1388-1417 | The jump nodes cover exactly the symbols that both keys share from the position on, up to the first difference, and all but the last are full. |
| Splitting.PlanSplit | main.c:1388-1447 | The nodes lead to a bitmap with the two keys' next symbols, in key order, with the hashes of their prefixes. |
| JumpSplit.SplitKeepsTrie | main.c:1568-1697 | With the new head stored, the table again holds a well-formed trie with correct max_leaf fields. |
| JumpSplit.SplitKeepsPaths | main.c:1568-1697 | The set of root-to-leaf paths with their leaves is the same before and after the split. |
| JumpSplit.PathsAfterRecolor | main.c:1673-1679 | Giving the old jump's child its new parent colour changes no root-to-leaf path. |
| JumpSplit.TailIsStranger | main.c:1652-1679 | No search for a child of a bitmap of the old tree matches the entry that follows the new bitmap, although it carries that bitmap's colour already. |
| JumpSplit.NewInJump | main.c:1568-1714 | None of the prefixes that a jump split adds, nor any other way out of the jump there, has a node yet. |
| Trie.CuckooTrie.PropagateMaxLeaf | main.c:1192-1215 | Repairs all max_leaf fields above the node that changed, changes no leaf, and writes only entries from which the path to that node goes through jumps and last children. |
| Trie.CuckooTrie.InsertBitmapChild | main.c:1156-1187 | Adds the leaf below the bitmap and into the list, with the whole invariant, exactly one more key and exactly one more node; if refused, the contents are as before. |
| Trie.CuckooTrie.SplitLeaf | main.c:1329-1562 | Replaces the leaf by a path to two leaves, with the whole invariant and exactly one more key, adding nodes for prefixes of the new key and one of the old; a retry leaves the contents as before. |
| Trie.CuckooTrie.SplitJumpNode | main.c:1568-1714 | Turns the symbol after the finger into a bitmap; after each logged write of the cells, relocations and taking back included, the table holds the same root-to-leaf paths as at the start, and each bitmap child is the only entry that its search can match. |
| Trie.CuckooTrie.CreateLeaf | main.c:1721-1832 | Adds the key exactly if it answers OK, and answers that it exists exactly if it does. It succeeds if there is room for the new nodes, and fails only if the pair of one that it may need is full and the search for room failed. It must be retried only for such a node, whose mix value is zero or for which room was made meanwhile. |
| Trie.CuckooTrie.InsertInternal | main.c:1927-1971 | One attempt: OK adds the key, EXISTS exactly for a stored key (an upsert then replaces its value), RETRY leaves the dictionary as it was, and then some node that the key needs has mix value zero, or its pair was full and its primary bucket now is not; every new node stands for a prefix that the key needs and has two different buckets. |
| Trie.CuckooTrie.Insert | main.c:1973-1993 | OK adds a new key, ALREADYIN for a stored one, OVERFLOW only for a new key with a node that cannot be stored (its pair is full and the search failed); one attempt is enough if the new nodes that may be needed fit in their primary buckets, and it takes just their places. If the attempts are used up, each of them was retried for such a reason. |
| Trie.CuckooTrie.Upsert | main.c:1995-2018 | Stores the value and reports whether the key is new; the same conditions for success, for an overflow and for attempts used up. |
| Trie.CuckooTrie.Lookup | main.c:2020-2048 | The pair stored under the key, or none exactly if there is none. |
| Trie.CuckooTrie.Update | main.c:2050-2098 | Replaces the value of a stored key and answers NOTFOUND exactly for others. |
| Growth.SplitGrants | main.c:1329-1562 | All new nodes of a leaf split stand for prefixes of the new key but one, which is a prefix of the stored key; none had a node. With room for them the split succeeds and takes just their primary places. |
| Growth.JumpGrants | main.c:1568-1714 | The same for a jump split and the leaf added below it. |
| Growth.NodeIsPrefix | main.c:1329-1714 | Every node of the trie stands for a prefix of a stored key. |
| Demands.SiblingRoomSuffices | main.c:1721-1832 | Room for the key's own prefixes without the root, and for one more entry one symbol off any of them, is enough for an insertion. |
| Iteration.EntriesAreDict | main.c:2266-2317 | The list holds the pairs of the dictionary, each once, in ascending key order. |
| Iteration.CtIter.GotoInternal | main.c:2101-2204 | Finds the first pair of the list whose key is not smaller, in all cases: empty trie, leaf or jump root, past the end. |
| Iteration.CtIter.Goto | main.c:2223-2262 | What remains to be returned starts with the first key that is not smaller. |
| Iteration.CtIter.Next | main.c:2266-2317 | Returns the first of the remaining pairs and advances by one, and none exactly at the end. |
| Iteration.CtIter.Scan | main.c:2223-2317 | Goto followed by Next until it returns none yields exactly the stored pairs with key not smaller, in strictly ascending order. |
| Verify.Verifier.VerifyBitmapChildren | verify_trie.c:78-106 | True exactly if every child of the bitmap is found by hash, symbol and colour. |
| Verify.Verifier.VerifyJumpChild | verify_trie.c:108-138 | True exactly if the jump's child is found by hash and colour and is not a leaf. |
| Verify.Verifier.VerifyEntry | verify_trie.c:140-178 | True exactly if what the entry refers to is there and of the right kind. |
| Verify.Verifier.VerifyLinklist | verify_trie.c:180-258 | True exactly if the list from min_leaf visits every leaf once in strictly ascending order. |
| Verify.Verifier.VerifyTrie | verify_trie.c:260-287 | True exactly if all entries pass and the list is complete and sorted. |
| Verify.DescentsGoOn | verify_trie.c:78-178 | In an accepted table every descent from the root is at an entry with the hash of the symbols so far, and can go on to each child that a bitmap lists and to the branch that a jump leads to. |
| Verify.LocatorsLeadToLeaves | verify_trie.c:140-178 | In an accepted table every stored locator of a leaf names a leaf. |
| Verify.Verifier.CheckTrie | verify_trie.c:260-287 | Every trie that satisfies the invariant passes the check. |
| Runs.RunHoldsLastStored | main.c:1973-2098 | In the reference dictionary a key is present exactly if an insert or upsert named it, and its value is the one last stored under it and no other. |
| Runs.Perform | main.c:1973-2098 | One operation does to the trie's dictionary, and answers, what the reference does; the answer tells whether the key was there and what it held; it is refused only for a new key, and not if there is room for the new nodes that it may need. |
| Runs.Run | main.c:1973-2317 | Every lookup of a run answers the value last stored under the key by an earlier operation, or none exactly if no earlier insert or upsert named it; the other answers tell whether one did. After a run that is not refused the consistency check succeeds and a scan returns, in order, exactly the pairs last stored from the key on. No operation is refused if no mix value is 0 and no bucket is the primary bucket of more than four distinct prefixes of the run's keys. |
| Runs.HomeHasRoom | main.c:1721-1832 | While all entries are in their primary buckets and no bucket is that of more than four prefixes of the run's keys, there is room for any of these keys. |
| Runs.TwoKeysFit | main.c:139-149 | The empty key and the key with one zero byte meet that condition in every table whose mix values are not 0. |
| Runs.InsertInVain | main.c:120-126 | If all nodes that a new key may need have mix value 0, no number of attempts adds it. |
| Runs.ZeroMixIsValid | main.c:2342-2348 | A geometry whose sixteen mix values are zero is within the range of the drawn values, and then no entry has two different buckets. |
| Seqlock.StepKeepsInv | atomics.c:33-100 | No step of a writer loses the lock byte that shares the counter's word; the counter only grows, and is unchanged and even only if the cells are unchanged. |
| Seqlock.ReadsAreWhole | atomics.h:55-96 | In every reachable state, a value returned by a reader is one that the cell held whole at some instant of the run, and that was there at the start or was given to a write to that cell. |
| Seqlock.WriteStores | atomics.c:33-76 | A write that comes to its end has stored exactly what it was given, in its cell alone. |
| Seqlock.ReadReturns | atomics.h:55-96 | At the moment at which a read returns, the value is in the cell, and no write is in progress. |
| Seqlock.WriteAlone | atomics.c:33-100 | The steps of a write that nobody interferes with store the value, raise the number by two and leave the lock free. |
| Seqlock.ReadAlone | atomics.h:55-96 | The steps of a read that nobody interferes with return what the cell holds. |
| ColorProtocol.CommittedColorsDiffer | main.c:1051-1109 | In every reachable state of any interleaving of adds, relocations, updates and removals, two entries of the pair whose adds returned OK have different colours. |
| ColorProtocol.ChoiceIsPossible | main.c:860-878 | An attempt that has scanned the eight cells always finds a colour. |
| ColorProtocol.StoresToUnusedCell | main.c:1051-1109 | An add stores to a cell that is unused at that moment. |
| SoloAdds.AddAlone | main.c:1051-1109 | An add that nobody interferes with stores its entry in the unused cell that it found, with a colour that nothing in the pair has, commits it, and leaves the rest of the pair as it was. |
| SoloAdds.MakeRoomAndAdd | main.c:1078-1109 | So does an add that finds the pair full and makes room in the primary bucket without writing the secondary one. |
| SoloAdds.UndoAdd | main.c:1099-1106 | If the other bucket's number is not what was read, the entry is taken out again and nothing is committed. |
| Locks.LockManager.WriteLockBucket | atomics.c:195-226 | Locks the bucket exactly if it is free or held by this manager, and counts one more reference to it. |
| Locks.LockManager.UpgradeBucketLock | atomics.c:228-265 | Succeeds exactly if the sequence number is unchanged and no other thread holds the bucket; if refused, references and lock bytes are as before. |
| Locks.LockManager.ReleaseBucketLock | atomics.c:267-284 | Gives one reference to the bucket back; the lock byte is cleared exactly with the last one. |
| Locks.LockManager.UpgradeLock | atomics.c:336-383 | Succeeds exactly if the sequence number is unchanged and no other thread holds the bucket; if refused, references and lock bytes are as before. |
| Locks.LockManager.WriteUnlock | atomics.c:385-404 | Gives one reference to the entry back; the lock byte is cleared exactly with the last reference. |
| Locks.LockManager.MoveEntryLock | atomics.c:303-327 | Moves one reference from the source to the destination entry, if the source is locked, and nothing else. |
| Locks.LockManager.ReleaseAllLocks | atomics.c:406-421 | Clears the lock bytes of exactly the buckets held, and leaves the manager without locks. |
| Locks.LockManager.UpgradeLocksOnLeftParentsAbove | main.c:713-743 | Takes one reference to the entry of each parent from which the path goes through jumps and last children only, and to no other, and none to a bucket; if refused, references and lock bytes are as before, after any number of steps; otherwise the bytes set are this thread's and those that others had set. |
| PathLocks.LockedIsWritten | main.c:713-743 | On a path of the trie, those parents are the ones that propagating max_leaf may write. |
| PathLocks.ChangedIsLocked | main.c:1192-1215 | Every entry that the propagation changes has been locked. |
| Locks.LockManager.LockRelocationPath | main.c:966-983 | Takes one reference to each bucket of the path and none to an entry; if refused, references and lock bytes are as before. |
| Locks.LockManager.RelocateLocks | main.c:966-1020 | After a relocation the references to buckets are as before, those to entries have moved with the entries, and the bytes set are this thread's and those that others had set; if refused, references and lock bytes are as before. |
| Locks.RefsFollowEntries | main.c:985-1002 | Each moved entry has at its new cell the references it had at the old one, and the freed cell has none, if and only if no moved entry had more than one. |
| Locks.MoreThanOneStays | atomics.c:303-327 | The cell an entry left keeps a reference exactly if the entry had more than one. |
| LockProtocol.StepKeepsInv | atomics.c:89-421 | Every step of any thread keeps lock bytes, lists and counts consistent. |
| LockProtocol.ByteIffListedOnce | atomics.c:102-139 | Between operations a lock byte is set exactly if one manager lists the bucket, and it lists it once. |
| LockProtocol.OthersKeepTheirs | atomics.c:124-139 | No step clears the lock byte of a bucket that another thread is responsible for. |
| LockProtocol.TotalsBalance | atomics.c:171-327 | In every reachable state the total count of a lock is the sum of its entry counts and of the references the thread took to the bucket itself. |
| LockProtocol.ReleasedAll | atomics.c:406-421 | A thread that has released all its locks is responsible for no lock byte. |
| LockProtocol.MoveConserves | atomics.c:303-327 | Moving a reference conserves the overall total and both buckets' own references. |
| LockProtocol.LockAlone | atomics.c:195-226 | A free bucket is locked with one reference, and nothing else changes. |
| LockProtocol.UnlockAlone | atomics.c:267-284 | Giving the last reference back clears the byte, takes the lock off the list, and keeps all other locks. |
| LockProtocol.EntryRefAlone | atomics.c:286-301 | A reference to an entry is one more for its bucket, and giving it back restores the state. |

## Left out

- Concurrent inserts, lookups and scans of the whole trie: the trie layer is sequential, and the interleavings are modelled per protocol (reading a cell, adding to a pair, lock managers).
- Retry loops are bounded by a parameter `attempts`, with an answer for having used it up; the code loops without bound.
- After an overflow nothing is promised, as the interface says, and runs stop there.
- Raw cell addresses: where the code keeps the address of an entry across later adds (main.c:1454-1499, main.c:1591-1678), the model finds the entry again by its name.
- The locks that the trie operations take are not part of the sequential trie layer; the lock manager is proved on its own.
- The room that `Runs.Run` and `Insert` ask for is sufficient, not necessary: it leaves out secondary buckets and relocation.
- Bytes of the next entry field that an entry's other fields occupy: entries are records in the table, and only child bitmaps and jump symbols are related to their bits.
- The last-symbol byte of the root is never set by `create_root` and never read; the model has the end marker there.
- Sequence counters are unbounded, and memory is sequentially consistent.
- `S_KEYTOOLONG`, fixed buffer lengths and the capacity of the lock array: sequences are unbounded.
- A locator out of range counts as not found in the consistency check; printing of errors is not modelled.
- Prefetching of memory, huge pages, timing, statistics, debug logs, the benchmark and the test programs.
