# Noosphere: a verified model of its data structures

Noosphere keeps a *sphere* as a chain of signed revisions. A revision's body holds four
versioned maps (content, identities, delegations, revocations); each is a HAMT in a
content-addressed block store, paired with the changelog that produced it. This project
models the three layers of that design in Dafny and proves what they promise.

**The HAMT** (`Words`, `HashBits`, `Bitfield`, `Pairs`, `Blocks`, `Trie`, `Canonical`,
`Listing`, `Node*`, `SetFailure`, `Hamt`, `Runs`). `NodeDenotes(cfg, n, m, d)` says that node
`n` at depth `d` is the canonical trie of the map `m`: one pointer per used digit, buckets of
one to three sorted pairs, child nodes with more than three entries, caches that agree with
the CIDs beside them. Every operation is proved to keep this relation, which gives the two
main results: any run refines a plain map, and the root CID depends on the map and on
nothing else (`Runs.HistoryIndependent`, an equivalence).

**The revision algebra** (`Mutation`, `VersionedMap`, `HeaderEdits`, `Memo`, `Timeline`,
`LamportOrder`, `History`, `Sphere*`, `Rebase`, `RebaseFailures`). `WellFormed(cfg, cid)`
describes a lineage that starts with an empty sphere and in which every revision is its parent
changed by its author. Applying, deriving, hydrating, compacting, rebasing and streaming are
proved against it: deriving undoes applying, hydration accepts exactly the well-formed revisions
and completes a sparse replica, compaction keeps entries and roots, a rebase means the local
changes on the new base, replayed changelogs give the tip, and any run of edits and compactions
keeps a sphere well formed.

**Three smaller cores** (`LinkQuery`, `BodyChunk`, `Ucan`, `ProofChain`, `CapabilityMerge`,
`CapabilityReduction`, `CapabilityOrigins`): the traversal of a possibly cyclic link store,
bodies as linked chunks, and the acceptance and reduction of UCAN proof chains.

How the model reads the code:

- A CID is a constructor around the block it names. Distinct blocks have distinct CIDs and no
  block contains its own CID; nothing else is assumed about hashing blocks. A block store is
  an object holding a set of CIDs, shared by reference as the clones of a store are.
- The key hash is any function to 32 bytes, and the bit width any number from 1 to 8. Keys
  are texts in lexicographic order, values are encoded texts compared by equality.
- `NoCollision(cfg, keys, d)`: no four of the given keys agree on every digit from depth `d`.
  It is demanded only of the finite sets of keys at hand, and insertion is proved to fail
  exactly when it does not hold.
- `Complete`, `RevisionPresent`, `RevisionSparse`: which blocks of a HAMT or a revision are in
  the store. Methods state what they need of the store as the left side of an implication, so
  the missing-block paths are part of the contracts.
- HAMT nodes are owned boxes that are never aliased, and `HashBits` and `Bitfield` are `Copy`
  structs passed by value, so the three are values here and the methods return the new one.
  Objects that the code shares or updates through a reference (the HAMT, the store, mutations,
  memos) are classes.
- A stream is the sequence it yields together with the error that ended it, if any; the
  contracts say where in the whole sequence it stopped.
- The predicates `Opened`, `Inspected`, `Spelled`, `Read`, `Counted`, `Seen` and `Perused` are
  always true. A definition guarded by one of them opens only where a proof mentions it, which
  keeps the definitions of tries, bitfields, digits, roots and streams out of all other proofs.

Where the code and its promises differ, the model follows the code and the difference is
proved:

- A failed insertion is not harmless. When a full bucket splits and the hash runs out of bits
  its pairs have already been taken. `SetFailure.FindAfterFailure` says which keys are lost,
  `SetFailure.FailureIsHarmlessIff` when none are, `SetFailure.LossIsWrittenUnlessShielded`
  when the loss reaches the store, and `Hamts.LossExample` performs an instance.
- A timeslice with an excluded past yields that past when it is also the future
  (`Timelines.ExcludedPastIsYieldedIff`). The history stream compensates for it; `rebase` does
  not, so rebasing a tip that equals the old base applies its change a second time.
  `Rebases.SecondApplication` says exactly when that changes a map, and
  `RebaseFailures.LaterValueIsOverwritten` performs a rebase in which a later value is lost.
- A rebase signs revisions of other authors with the signer's name while their changelogs keep
  the old author, so later derivation fails. `Rebases.StepDerivableIff` gives the exact
  condition, `Rebases.ForeignChangeIsNotDerivable` the failing family, and
  `RebaseFailures.ForeignRevisionIsRefused` performs an instance.
- `Ucan::validate` compares the expiry with the time asked for but the start with the clock.
  `ProofChains.AcceptedBeforeItsStart` and `ProofChains.AskedAtItsStart` show both ways this
  differs from activity at the time asked for, `ProofChains.ValidateIff` says exactly when it
  does not, and `ProofChains.ChainActiveIff` what is left of it for a whole accepted chain.
- The merge of capabilities folds the originators of a weaker capability into a stronger one,
  so an originator can be named for more than it issued:
  `CapabilityOrigins.WeakerOriginatorIsNamed` accepts and reduces such a token.
  `CapabilityOrigins.OriginatorsIssuedIff` gives the exact condition for whole chains,
  `CapabilityOrigins.LevelIssuedIff` for one level of a chain and
  `CapabilityMerge.MergeAuthorizedIff` for the merge alone.
- A hydrated revision is not thereby at hand: the maps it shares with its parent are never
  loaded. `SphereHydrate.ReadIsSparseIff` says exactly when the whole revision is, which
  `SphereHydrate.Hydrate` proves for the store before the call, and
  `SphereHydrate.HydratesUnread` performs an instance.
- Compacting several revisions lowers the Lamport order: the new tip has the order of the first
  revision it replaces (`LamportOrders.CompactedOrder`).

## Model

| member | source | states |
|---|---|---|
| `HashBitReader.Next` | rust/noosphere-collections/src/hamt/hash_bits.rs:38-48 | reads the next `w` bits, 0 to 8, as the big-endian value of hash bits `consumed..consumed+w` and advances; more than 8 bits or a hash that has run out are errors that leave the reader alone |
| `HashBitReader.BitsValueOfNumber` | rust/noosphere-collections/src/hamt/hash_bits.rs:50-79 | that value is the quotient and remainder of the whole hash, read as one 256-bit number, by powers of two |
| `Trie.DigitIsByte` | rust/noosphere-collections/src/hamt/hash_bits.rs:38-48 | with bit width 8 the digit of a key at a depth is that byte of its hash |
| `Words.BitIsDigit` | rust/noosphere-collections/src/hamt/bitfield.rs:64-82 | a bit of a word is the binary digit of the number at that place |
| `HashBitReader.NextBits` | rust/noosphere-collections/src/hamt/hash_bits.rs:50-79 | the mask-and-shift reading within and across bytes equals the big-endian value of the bits, bit by bit |
| `HashBitReader.RestartAgrees` | rust/noosphere-collections/src/hamt/hash_bits.rs:29-36 | a reader restarted at the consumed position reads the digit that the original walk reads at that depth |
| `Bitfields.SetBit` | rust/noosphere-collections/src/hamt/bitfield.rs:77-82 | exactly one more bit tests true |
| `Bitfields.ClearBit` | rust/noosphere-collections/src/hamt/bitfield.rs:64-68 | exactly that bit tests false, all others are kept |
| `Bitfields.Intersect` | rust/noosphere-collections/src/hamt/bitfield.rs:88-95 | a bit tests true exactly when it does in both |
| `Bitfields.SetBitsLeq` | rust/noosphere-collections/src/hamt/bitfield.rs:108-132 | word by word, exactly the bits up to `bit` are added, for every position 0 to 255 |
| `Bitfields.SetBitsLe` | rust/noosphere-collections/src/hamt/bitfield.rs:101-106 | exactly the bits below `bit` are added, also for position 0 |
| `Bitfields.CountOnesIsRank` | rust/noosphere-collections/src/hamt/bitfield.rs:84-86 | summing the ones of the four words counts the set bits among all 256 |
| `Bitfields.IndexForBitPos` | rust/noosphere-collections/src/hamt/node.rs:559-563 | masking and counting gives the rank of the position: how many set bits lie below it |
| `Bitfields.RankAfterSet` | rust/noosphere-collections/src/hamt/node.rs:553-557 | setting a bit moves the ranks above it up by one, so a pointer inserted at its rank keeps the vector aligned |
| `Bitfields.RankAfterClear` | rust/noosphere-collections/src/hamt/node.rs:548-551 | clearing a bit moves the ranks above it down by one |
| `Bitfields.Encode` | rust/noosphere-collections/src/hamt/bitfield.rs:13-33 | the loop over the words writes the big-endian bytes without leading zeros: the bytes of `EncodedBits` and `EncodedIsShortest` |
| `Bitfields.EncodedBits` | rust/noosphere-collections/src/hamt/bitfield.rs:13-33 | bit `t` of byte `k` of the encoding, counted from its end, is set exactly when position `8k + t` of the bitfield is, and no position beyond its length is set |
| `Bitfields.EncodedIsShortest` | rust/noosphere-collections/src/hamt/bitfield.rs:13-33 | it is empty exactly when no position is set, and otherwise its first byte is not zero |
| `Bitfields.Decode` | rust/noosphere-collections/src/hamt/bitfield.rs:35-55 | the loop over the buffer reads back the words of up to 32 bytes, left-padded with zeros |
| `Bitfields.EncodeDecode` | rust/noosphere-collections/src/hamt/bitfield.rs:13-55 | decoding an encoded bitfield gives the bitfield back |
| `Pairs.SortedListingUnique` | rust/noosphere-collections/src/hamt/pointer.rs:142-199 | one map has one sorted list of pairs, so a bucket is determined by its entries |
| `Pairs.SortByKey` | rust/noosphere-collections/src/hamt/pointer.rs:142-199 | sorting collected pairs lists the same map in key order, the order of `Pairs.SortedByText` |
| `Pairs.LessTextIff` | rust/noosphere-collections/src/hamt/node.rs:434-441 | one text is before another exactly when it is a proper prefix, or at the first place where they differ its character is smaller |
| `Pairs.SortedByText` | rust/noosphere-collections/src/hamt/pointer.rs:142-199 | a list of pairs is sorted exactly when every two of its keys stand in that order |
| `Pairs.InsertInOrder` | rust/noosphere-collections/src/hamt/node.rs:434-441 | inserting before the first greater key keeps the bucket sorted in that order and adds one entry |
| `Canonical.SerializeDeserialize` | rust/noosphere-collections/src/hamt/node.rs:45-74 | serializing a clean node and reading the block back gives the same bitfield and pointers, without caches |
| `Canonical.TrieUnique` | rust/noosphere-collections/src/hamt/node.rs:317-521 | two tries of the same map at the same depth freeze to the same block, whatever mix of dirty, cached and uncached pointers they hold |
| `Canonical.TrieInjective` | rust/noosphere-collections/src/hamt/node.rs:317-521 | tries that freeze to the same block hold the same map |
| `Canonical.RootCidCharacterizesMap` | rust/noosphere-collections/src/hamt/hamt_implementation.rs:329-332 | root CIDs are equal exactly when the maps are equal |
| `Canonical.TrieHasNoCollision` | rust/noosphere-collections/src/hamt/node.rs:397-432 | no map with a trie has four keys that agree on every digit |
| `Nodes.LoadChild` | rust/noosphere-collections/src/hamt/node.rs:343-364 | a link gives its cache or the block its CID names, which denotes the same entries; only a missing block is an error |
| `Nodes.NextDigit` | rust/noosphere-collections/src/hamt/node.rs:317-333 | at every depth with hash bits left the digit read is the digit of the key there; past the last it is the maximum-depth error |
| `Nodes.GetValue` | rust/noosphere-collections/src/hamt/node.rs:258-315 | returns the pair of the key in the denoted map or nothing; filled caches keep the trie, its cleanness and its completeness; only a missing block fails |
| `Nodes.InsertChild` | rust/noosphere-collections/src/hamt/node.rs:553-557 | a new bucket is placed at the rank of its digit |
| `Nodes.ModifyValue` | rust/noosphere-collections/src/hamt/node.rs:317-447 | the trie of the updated map, the previous value and an exact "modified" flag; a missing block changes nothing; the maximum-depth error comes only with four colliding keys and empties only the bucket on the path |
| `Nodes.ModifyBucket` | rust/noosphere-collections/src/hamt/node.rs:376-444 | replacing, inserting in order and splitting give the trie of the updated entries |
| `Nodes.SplitBucket` | rust/noosphere-collections/src/hamt/node.rs:397-432 | a full bucket and the new pair become a child node denoting all four; on failure the bucket has been emptied unless there was no digit left at all |
| `Nodes.Refill` | rust/noosphere-collections/src/hamt/node.rs:408-427 | re-inserting the taken pairs from the consumed position builds the trie of bucket and new pair, or four keys collide |
| `NodeRemoval.Collapse` | rust/noosphere-collections/src/hamt/pointer.rs:142-199 | restores the canonical form: a bucket when at most three entries remain, else the dirty node; the no-pointers error exactly for an empty map |
| `NodeRemoval.RmChild` | rust/noosphere-collections/src/hamt/node.rs:548-551 | the pointer at the rank of the digit and its bit are removed together |
| `NodeRemoval.RmValue` | rust/noosphere-collections/src/hamt/node.rs:449-521 | the trie of the map without the key and the removed pair; an absent key or a missing block changes no entry |
| `NodeRemoval.RmFromBucket` | rust/noosphere-collections/src/hamt/node.rs:500-519 | an emptied bucket leaves the node, any other keeps its order |
| `NodeRemoval.NoPointersIffEmpty` | rust/noosphere-collections/src/hamt/node.rs:146-148 | a trie node has no pointers exactly when its map is empty |
| `NodeFlush.Flush` | rust/noosphere-collections/src/hamt/node.rs:525-546 | on any node: writes exactly the blocks of dirty descendants, always succeeds, leaves no dirty pointer, denotes whatever the node denoted, and its serialized form is what the unflushed node freezes to |
| `NodeFlush.FlushPointer` | rust/noosphere-collections/src/hamt/node.rs:525-546 | a dirty pointer becomes a link whose cache is the block its CID names |
| `NodeStreams.Stream` | rust/noosphere-collections/src/hamt/node.rs:150-199 | yields exactly the pairs met in pointer order before the first uncached link whose block is missing, fails exactly when there is one, and only fills caches |
| `NodeStreams.IntoStream` | rust/noosphere-collections/src/hamt/node.rs:201-239 | the stack loop terminates; it yields exactly the pairs met in popping order before the first uncached link whose block is missing, and fails exactly when there is one |
| `NodeStreams.NodeListing` | rust/noosphere-collections/src/hamt/node.rs:150-199 | the pairs met in pointer order are every entry of the map exactly once, whatever mix of dirty, cached and uncached pointers there is |
| `NodeStreams.PoppedListing` | rust/noosphere-collections/src/hamt/node.rs:201-239 | popping order lists every entry of the map exactly once |
| `NodeStreams.PresentVisits` | rust/noosphere-collections/src/hamt/node.rs:150-239 | streaming a complete node fetches held blocks only, so it meets no gap |
| `SetFailure.FindDenoted` | rust/noosphere-collections/src/hamt/node.rs:258-315 | in a canonical trie a lookup finds exactly the denoted entries |
| `SetFailure.FindAfterFailure` | rust/noosphere-collections/src/hamt/node.rs:397-432 | after an insertion that ran out of hash bits a lookup misses exactly the keys of the emptied bucket |
| `SetFailure.FailureIsHarmlessIff` | rust/noosphere-collections/src/hamt/node.rs:397-432 | such a failure loses nothing exactly when more than three stored keys share all digits but the last with the new key |
| `SetFailure.HarmlessFailure` | rust/noosphere-collections/src/hamt/node.rs:397-432 | when no key is lost the node left behind is still a trie of the same map, as clean and as complete as before |
| `SetFailure.LossIsWrittenUnlessShielded` | rust/noosphere-collections/src/hamt/node.rs:340-374 | a failed insertion changes what a flush would save exactly when it loses a key and no clean link lies on the path; below a clean link a reload brings the keys back |
| `SetFailure.FourthCollidingKeyLosesTheOthers` | rust/noosphere-collections/src/hamt/node.rs:397-432 | three entries and a fourth key with one hash: the failed insertion loses all three |
| `SetFailure.FourKeysOfOneHash` | rust/noosphere-collections/src/hamt/node.rs:397-432 | concrete keys and a constant hash for which this happens |
| `Hamts.Hamt.constructor` | rust/noosphere-collections/src/hamt/hamt_implementation.rs:109-121 | a new HAMT is the empty map |
| `Hamts.Hamt.Load` | rust/noosphere-collections/src/hamt/hamt_implementation.rs:124-138 | succeeds exactly on held, decodable blocks and denotes the map whose trie the CID names |
| `Hamts.Hamt.SetRoot` | rust/noosphere-collections/src/hamt/hamt_implementation.rs:140-145 | replaces the root by the named one, or changes nothing |
| `Hamts.Hamt.Set` | rust/noosphere-collections/src/hamt/hamt_implementation.rs:177-183 | updates the map and returns the old value; with all blocks at hand it fails exactly when four keys would share a whole hash, without them also with the missing block and then changes nothing; a maximum-depth failure loses exactly the keys of one bucket |
| `Hamts.Hamt.SetIfAbsent` | rust/noosphere-collections/src/hamt/hamt_implementation.rs:214-223 | true exactly when the key was absent, and only then the map changes; the same exact failures |
| `Hamts.LossExample` | rust/noosphere-collections/src/hamt/hamt_implementation.rs:177-183 | four calls of `set` after which no key is found and a flush would not save the map that was there |
| `Hamts.Hamt.Get` | rust/noosphere-collections/src/hamt/hamt_implementation.rs:248-258 | the value in the map; the map never changes; fails only when a block is missing |
| `Hamts.Hamt.ContainsKey` | rust/noosphere-collections/src/hamt/hamt_implementation.rs:284-294 | true exactly for keys of the map |
| `Hamts.Hamt.Delete` | rust/noosphere-collections/src/hamt/hamt_implementation.rs:320-327 | removes the key, returns the removed pair, leaves all other keys |
| `Hamts.Hamt.Flush` | rust/noosphere-collections/src/hamt/hamt_implementation.rs:329-332 | in any state it succeeds, adds exactly the dirty blocks and the root, and returns the CID of what the root freezes to; for the trie of a map that is the canonical root of the map, and every linked block stays in the store |
| `Hamts.Hamt.IsEmpty` | rust/noosphere-collections/src/hamt/hamt_implementation.rs:335-337 | true exactly for the empty map |
| `Hamts.Hamt.Stream` | rust/noosphere-collections/src/hamt/hamt_implementation.rs:381-383 | every entry exactly once, or exactly the pairs before the first missing block; the map never changes |
| `Hamts.Hamt.IntoStream` | rust/noosphere-collections/src/hamt/hamt_implementation.rs:385-387 | every entry exactly once, or exactly the pairs in popping order before the first missing block |
| `Runs.Run` | rust/noosphere-collections/src/hamt/hamt_implementation.rs:177-332 | any sequence of set, set_if_absent, get, delete, stream, flush and reload in which no insertion loses entries answers like a plain map at every step; an insertion that would put four keys of one hash into the map is refused and changes nothing |
| `Runs.RefusalIsHarmless` | rust/noosphere-collections/src/hamt/node.rs:397-432 | a refused insertion loses nothing when more than three keys agree with the new one on all digits but the last, which is the condition under which runs go on after it |
| `Runs.HistoryIndependent` | rust/noosphere-collections/src/hamt/test.rs:329-368 | two runs of any operations end in the same root CID exactly when they end in the same map |
| `Runs.SameMapSameRoot` | rust/noosphere-collections/src/hamt/test.rs:554-590 | the same for any two reachable roots, flushed or not |
| `Mutations.AppendChanges` | rust/noosphere-core/src/view/mutation.rs:204-226 | applying the result equals applying destination then source, for every map; at most one operation per key is kept; no operation is invented |
| `Mutations.Retain` | rust/noosphere-core/src/view/mutation.rs:215-222 | keeps exactly the operations on other keys |
| `Mutations.LastOperationWins` | rust/noosphere-core/src/view/versioned_map.rs:220-232 | after applying changes a touched key has what its last operation left, any other its old value |
| `Mutations.SphereMutation.constructor` | rust/noosphere-core/src/view/mutation.rs:107-115 | a new mutation changes nothing |
| `Mutations.SphereMutation.Reset` | rust/noosphere-core/src/view/mutation.rs:126-131 | forgets all changes and keeps the author |
| `Mutations.SphereMutation.IsEmpty` | rust/noosphere-core/src/view/mutation.rs:188-193 | true exactly when no section has changes |
| `Mutations.SphereMutation.Set` | rust/noosphere-core/src/view/mutation.rs:286-291 | one addition at the end of one section |
| `Mutations.SphereMutation.Remove` | rust/noosphere-core/src/view/mutation.rs:294-296 | one removal at the end of one section |
| `Mutations.SphereMutation.ApplyChangelog` | rust/noosphere-core/src/view/mutation.rs:247-264 | takes over the changes of a changelog exactly when it names the same author |
| `Mutations.SphereMutation.Append` | rust/noosphere-core/src/view/mutation.rs:196-201 | the four sections compose: applying the appended mutation equals applying one after the other |
| `VersionedMaps.Empty` | rust/noosphere-core/src/view/versioned_map.rs:129-141 | a saved map without entries and with an empty changelog |
| `VersionedMaps.Replay` | rust/noosphere-core/src/view/versioned_map.rs:220-232 | replaying changes on a HAMT gives the map with the changes applied; without a collision and a missing block it succeeds |
| `VersionedMaps.ApplyWithCid` | rust/noosphere-core/src/view/versioned_map.rs:205-239 | a new map with the changes applied, a changelog with exactly these changes and their author, and a canonical root; success means that the old map, its changelog and its HAMT root were held and those of the new map are, and that besides HAMT nodes only the new map block and changelog were written; complete when the base was, and then only four colliding keys are refused |
| `VersionedMaps.MapEntriesUnique` | rust/noosphere-core/src/view/versioned_map.rs:205-239 | two maps have the same HAMT root exactly when they have the same entries |
| `HeaderEdits.RemoveNamed` | rust/noosphere-core/src/data/memo.rs:263-272 | the headers without those of the name, in order |
| `HeaderEdits.ReplaceFirst` | rust/noosphere-core/src/data/memo.rs:210-238 | the first header of the name takes the value in its place, later ones go, all others stay where they are; without one it is added at the end |
| `HeaderEdits.ReplacedFirstValues` | rust/noosphere-core/src/data/memo.rs:210-238 | the name then has exactly the new value and every other name the values it had |
| `HeaderEdits.ReplacedFirstPlace` | rust/noosphere-core/src/data/memo.rs:210-238 | the new value stands where the first header of the name stood, or at the end; what stood before it is as it was and nothing is new after it |
| `HeaderEdits.Replace` | rust/noosphere-core/src/data/memo.rs:242-259 | the headers of other names in order, then the new ones |
| `HeaderEdits.ReplacedValues` | rust/noosphere-core/src/data/memo.rs:242-259 | the given names have exactly the new values, all others their old ones |
| `Memos.DecimalParses` | rust/noosphere-core/src/data/memo.rs:37-44 | a written Lamport order is read back |
| `Memos.DecimalIsNumeral` | rust/noosphere-core/src/data/memo.rs:37-44 | a written order consists of digits, the first of which is not zero unless the order is |
| `Memos.DigitsValueIs` | rust/noosphere-core/src/data/memo.rs:37-44 | reading succeeds exactly on digits and gives the sum of their place values |
| `Memos.OrderIs` | rust/noosphere-core/src/data/memo.rs:37-44 | the order of a memo is the value of its first Lamport-order header when that is a decimal numeral below 2^32, with or without a plus sign, and 0 otherwise |
| `Memos.Memo.BranchFrom` | rust/noosphere-core/src/data/memo.rs:120-136 | a copy of the memo with the branched revision as parent and exactly the branched headers, whose values `BranchedValues` and `OrderIs` give; fails exactly when the memo is missing or no memo |
| `Memos.BranchedValues` | rust/noosphere-core/src/data/memo.rs:120-136 | branched headers have no signature or proof, the Lamport order one higher, wrapping at 2^32, and every other header as before |
| `Memos.BranchedOrder` | rust/noosphere-core/src/data/memo.rs:120-136 | the order read from a branched memo is one more than before, wrapping at 2^32, also when the old one was missing or unreadable |
| `Memos.Memo.Sign` | rust/noosphere-core/src/data/memo.rs:140-160 | exactly the signed headers: the first author is the signer, the only signature is the signer's on the body, the proof is the credential's if it has one; parent and body are kept |
| `Memos.SignedValues` | rust/noosphere-core/src/data/memo.rs:140-160 | author, signature and proof are the signer's, every other header is as before |
| `Memos.SignerValues` | rust/noosphere-core/src/data/memo.rs:140-160 | signed headers name the signer, the signature on the body and the credential's proof, whatever stood there before |
| `Timelines.ToChronological` | rust/noosphere-core/src/view/timeline.rs:130-139 | the slice in chronological order; succeeds exactly when every memo of the slice is held |
| `Timelines.SliceFromAncestor` | rust/noosphere-core/src/view/timeline.rs:55-87 | for a strict ancestor the slice is exactly the path from it to the future, without it when excluded |
| `Timelines.SliceFromGenesis` | rust/noosphere-core/src/view/timeline.rs:55-87 | for a past outside the lineage, or none, the slice is the whole lineage |
| `Timelines.ExcludedPastIsYieldedIff` | rust/noosphere-core/src/view/timeline.rs:55-87 | an excluded past is still yielded exactly when it is the future itself |
| `Timelines.IncludedPastIsFirst` | rust/noosphere-core/src/view/timeline.rs:55-87 | a slice that includes its past starts with it |
| `Timelines.SliceIsChain` | rust/noosphere-core/src/view/timeline.rs:55-87 | every slice is a chain of parents and children that ends with the future |
| `SphereApply.ApplyMutation` | rust/noosphere-core/src/view/sphere.rs:439-511 | the body with the mutation applied to its four maps, unchanged maps keeping their CIDs, on a memo with exactly the branched headers of the revision; success means that memo, body and every changed map down to its HAMT root were held and the new ones are, and names every block written besides HAMT nodes; it succeeds when the maps that change are complete and no four keys collide, and is complete when the base is |
| `SphereApply.ApplyToBody` | rust/noosphere-core/src/view/sphere.rs:447-500 | section by section: an empty section keeps its CID and is not read, any other becomes a map with these changes as changelog, read and written down to its HAMT root |
| `SphereApply.SignRevision` | rust/noosphere-core/src/view/mutation.rs:56-100 | the saved memo keeps parent and body and has exactly the signed headers of the branched memo, with the signer's values |
| `SphereDerive.DeriveMutation` | rust/noosphere-core/src/view/sphere.rs:351-429 | succeeds exactly when the memo has an author, every changed map has a non-empty changelog by that author, and the blocks that say so are held: the memos and bodies, and of maps, address book and authority only what changed; it gives these changelogs; otherwise its error is a missing block or that of the first map that does not explain itself |
| `SphereDerive.DeriveSection` | rust/noosphere-core/src/view/sphere.rs:366-378 | nothing when the map kept its CID, else its recorded changes; succeeds exactly when a changed map can be read and explains itself, with an error for each way to fail |
| `Histories.ApplyDeriveRoundTrip` | rust/noosphere-core/src/view/sphere.rs:351-511 | deriving what was applied gives each section back, or nothing exactly where the CID did not change, and re-applying it gives exactly the same body |
| `Histories.AppliedBodyUnique` | rust/noosphere-core/src/view/sphere.rs:439-511 | the body after a mutation is determined down to every block |
| `Histories.AppliedIsWellFormed` | rust/noosphere-core/src/view/sphere.rs:439-511 | a mutation of a well-formed revision signed by its author is well formed, with the changed maps |
| `Histories.DerivedReproduces` | rust/noosphere-core/src/view/sphere.rs:569-595 | re-applying what a well-formed revision did to its parent gives its body |
| `Histories.RootsCharacterizeEntries` | rust/noosphere-core/src/view/sphere.rs:439-511 | any two revisions have the same HAMT root in a map exactly when it has the same entries in both |
| `SphereHydrate.NewBody` | rust/noosphere-core/src/data/sphere.rs:33-56 | four empty maps, all blocks saved |
| `SphereHydrate.Hydrate` | rust/noosphere-core/src/view/sphere.rs:569-595 | for any revision on a well-formed parent: success proves it well formed and means that its memo, body, changed maps and parent could be read, that every changed map is held down to its HAMT root, old and new, and that nothing but HAMT nodes was added; a well-formed revision fails only for a missing block or colliding keys; when the blocks it reads are held it succeeds exactly on well-formed revisions, and with a complete parent and a sparse revision every node is held |
| `SphereHydrate.HydrateGenesis` | rust/noosphere-core/src/view/sphere.rs:569-595 | a first revision whose memo and body are held is hydrated exactly when it has an author and the body of a new sphere, and then all its blocks are held |
| `SphereHydrate.WellFormedIff` | rust/noosphere-core/src/view/sphere.rs:569-595 | a derivable revision on a well-formed parent is well formed exactly when replaying its changes gives its body |
| `SphereHydrate.ReadIsSparseIff` | rust/noosphere-core/src/view/sphere.rs:569-595 | what hydration reads is the whole sparse revision exactly when the maps, address book and authority it shares with its parent are held as well; it never loads those |
| `SphereHydrate.UnchangedHydrates` | rust/noosphere-core/src/view/sphere.rs:569-595 | any revision with its parent's body can be replayed in a store that holds the two memos and the body and none of its maps |
| `SphereHydrate.HydratesUnread` | rust/noosphere-core/src/view/sphere.rs:569-595 | an instance: hydration succeeds and the revision is not held sparsely |
| `SphereHydrate.HydrateTimeslice` | rust/noosphere-core/src/view/sphere.rs:548-561 | success proves every revision of a range on a well-formed one to be well formed, with the same blocks read and held for each, and in a range without a first revision adds nothing but HAMT nodes; a sparse range on a complete base is accepted exactly when it is well formed, and becomes complete |
| `SphereCompact.Collect` | rust/noosphere-core/src/view/sphere.rs:621-629 | the appended mutation has the effect of all revisions of the range in order, on whatever maps it is applied to; succeeds exactly when each of them can be read |
| `SphereCompact.CompactedRange` | rust/noosphere-core/src/view/sphere.rs:621-629 | the changes of the slice from an ancestor lead from that ancestor's parent to the tip, in all four maps |
| `SphereCompact.Compact` | rust/noosphere-core/src/view/sphere.rs:603-636 | for any two well-formed revisions: one well-formed revision on the parent of `until`, with exactly the branched and signed headers and the changes of the slice in order; when `until` is an ancestor the entries and HAMT roots of all four maps are the tip's and the Lamport order is that of `until`; no base is an error; success means that every revision of the slice was read and the new one is held down to its changed HAMT roots; sparse history on a complete base suffices |
| `LamportOrders.SignedOnHeaders` | rust/noosphere-core/src/data/memo.rs:120-160 | a revision branched from a base and signed has the signer's author, signature and proof and the base's values for every header that is not about signing or order |
| `LamportOrders.OrderCounts` | rust/noosphere-core/src/data/memo.rs:120-136 | along a lineage of branched and signed revisions the Lamport order counts the revisions since any ancestor, modulo 2^32 |
| `LamportOrders.CompactedOrder` | rust/noosphere-core/src/view/sphere.rs:603-636 | the compacted revision has the order of `until`, which is the tip's exactly when their distance is a multiple of 2^32: compacting several revisions lowers the order |
| `Rebases.RebasedMaps` | rust/noosphere-core/src/view/sphere.rs:640-664 | the rebased maps are the local changes in order on the new base's maps |
| `Rebases.RebasedKey` | rust/noosphere-core/src/view/sphere.rs:640-664 | a key local revisions touched takes their last operation, any other keeps the new base's value |
| `Rebases.RebasedLineage` | rust/noosphere-core/src/view/sphere.rs:640-664 | the new base's lineage is kept and grows by exactly the rebased revisions |
| `Rebases.RebasedGrowth` | rust/noosphere-core/src/view/sphere.rs:640-664 | the growth is the distance from old base to tip exactly when these differ; otherwise the slice is the old base itself |
| `Rebases.SecondApplication` | rust/noosphere-core/src/view/sphere.rs:640-664 | without local revisions a rebase still adds one; it leaves a map as the new base has it exactly when every key the old base changed still has the value it gave, and any other such key goes back to that value |
| `RebaseFailures.LaterValueIsOverwritten` | rust/noosphere-core/src/context/sync/strategy.rs:242-262 | a history in which it does not: a shared value, a later remote one, a rebase without local revisions, and the shared value is back |
| `Rebases.StepDerivableIff` | rust/noosphere-core/src/view/sphere.rs:515-526 | the mutation of a rebased revision can be derived exactly when the signer wrote the local one or it only repeats what the base records |
| `Rebases.StepWellFormedIff` | rust/noosphere-core/src/view/sphere.rs:515-526 | on a well-formed base the same decides whether the rebased revision is well formed |
| `Rebases.ForeignChangeIsNotDerivable` | rust/noosphere-core/src/view/sphere.rs:515-526 | a rebased change by another author that gives some key a new value leaves a revision whose mutation cannot be derived |
| `SphereRebase.ForeignFault` | rust/noosphere-core/src/view/sphere.rs:351-429 | for another author's revision the derivation is refused, if at all, for an unexpected author |
| `RebaseFailures.ForeignRevisionIsRefused` | rust/noosphere-core/src/view/sphere.rs:640-664 | a history in which a rebase of another author's revision succeeds and keeps its change, and deriving the mutation of the result returns that error |
| `Rebases.RebasedWellFormedIff` | rust/noosphere-core/src/view/sphere.rs:640-664 | the whole rebased lineage is well formed exactly when every local revision is the signer's or changes nothing at its new place |
| `SphereRebase.RebaseVersion` | rust/noosphere-core/src/view/sphere.rs:515-526 | the derived mutation of one revision applied to another base and signed, with exactly the branched and signed headers of that base; success means that the revision was read and what was changed is held, old and new |
| `SphereRebase.Rebase` | rust/noosphere-core/src/view/sphere.rs:640-664 | all local revisions rebased in order onto the new base, each read and held; success proves the lineage rebased onto well formed and hydrated; well formed when the local revisions are the signer's; Lamport orders go on counting from the new base; when both ranges are sparse on complete bases it succeeds exactly on a well-formed new base, and is complete |
| `SphereStreams.HistoryStream` | rust/noosphere-core/src/view/sphere.rs:819-843 | the revisions after `since`, newest first, up to the first missing memo; empty when `since` is the tip |
| `SphereStreams.SinceIsExcluded` | rust/noosphere-core/src/view/sphere.rs:819-843 | `since` is never part of the history after it |
| `SphereStreams.ChangelogStream` | rust/noosphere-core/src/view/sphere.rs:1023-1062 | exactly the changelogs of the revisions after `since` that changed the map, each with its revision, recorded author and operations, oldest first, up to the first whose blocks are missing; nothing at all when a memo of the history is missing |
| `SphereStreams.ChangelogsOf` | rust/noosphere-core/src/view/sphere.rs:979-1018 | the same loop for the identities map: comparing with the previous revision, or the parent at the start, up to the first changelog that cannot be read |
| `SphereStreams.YieldsDerived` | rust/noosphere-core/src/view/sphere.rs:1037-1057 | in a well-formed history a revision yields its author and its changes to the map, and nothing exactly when it changed nothing there |
| `SphereStreams.ReplaySince` | rust/noosphere-core/src/view/sphere.rs:1023-1062 | replaying the yielded changelogs on the map at `since` gives the tip's map |
| `SphereStreams.ReplayFromGenesis` | rust/noosphere-core/src/view/sphere.rs:1023-1062 | without `since`, or with one outside the lineage, they give the tip's map out of nothing |
| `SphereStreams.SinceIsNotYielded` | rust/noosphere-core/src/view/sphere.rs:1023-1062 | the changelog of `since` is never yielded |
| `SphereRuns.Generate` | rust/noosphere-core/src/view/sphere.rs:671-721 | two well-formed revisions signed by the sphere's own key without a proof: its identity in both bodies, content type and version as first headers, orders 0 and 1; the first is empty and the owner's delegation is the only entry of the second |
| `SphereRuns.Run` | rust/noosphere-core/src/view/sphere.rs:439-636 | a sphere edited and compacted in any order by any authors stays well formed, complete and consecutively numbered, and its maps are what the edits make of plain maps |
| `LinkQueries.QueryLinks` | rust/noosphere-storage/src/db.rs:137-166 | on every finite link store, cyclic or not, it ends; it fails exactly when the predicate fails on a CID it is asked about, else it yields each CID reachable through accepted ones exactly once; what it yields before a failure are such CIDs without repetition |
| `LinkQueries.StreamLinks` | rust/noosphere-storage/src/db.rs:170-176 | everything the root leads to, each CID once |
| `BodyChunks.StoreBytes` | rust/noosphere-core/src/data/body_chunk.rs:28-60 | saves the pieces as a linked list from last to first; fails exactly on zero bytes |
| `BodyChunks.LoadAllBytes` | rust/noosphere-core/src/data/body_chunk.rs:64-76 | gives back the partitioned bytes, whatever the partition; succeeds exactly when the rest of the list is held |
| `BodyChunks.Stream` | rust/noosphere-core/src/view/content.rs:15-28 | exactly the pieces before the first missing chunk, in order; succeeds exactly when the whole list is held |
| `BodyChunks.CidNamesPieces` | rust/noosphere-core/src/data/body_chunk.rs:28-60 | two bodies have the same CID exactly when they have the same pieces |
| `Ucans.EncompassesIff` | rust/noosphere-ucan/src/ucan.rs:132-152 | the comparison of bounds implies containment of lifetimes, and for a token active at some time it is exact up to bounds at the ends of the time line |
| `ProofChains.Redelegations` | rust/noosphere-ucan/src/chain.rs:76-105 | exactly the proofs that some `prf:` capability selects; an index without a proof is an error |
| `ProofChains.FromUcan` | rust/noosphere-ucan/src/chain.rs:52-112 | succeeds exactly on tokens whose whole ancestry is valid, held, addressed to the issuer it serves and long-lived enough; the chain mirrors the token |
| `ProofChains.FromProof` | rust/noosphere-ucan/src/chain.rs:66-73 | one proof is accepted exactly when it is a held token with an acceptable ancestry, addressed to the issuer and at least as long-lived; each way to fail has its error |
| `ProofChains.AncestorsEnclose` | rust/noosphere-ucan/src/chain.rs:148-163 | in an accepted chain the lifetime of every ancestor at any depth encloses the root's |
| `ProofChains.LinksAlongPath` | rust/noosphere-ucan/src/chain.rs:148-163 | at any depth a proof is addressed to the issuer it serves |
| `ProofChains.ValidateIff` | rust/noosphere-ucan/src/ucan.rs:69-83 | `validate` accepts exactly the signed tokens active at the time asked for, exactly when that time and the clock are on the same side of the start, or the token is unsigned or expired anyway |
| `ProofChains.AcceptedBeforeItsStart` | rust/noosphere-ucan/src/ucan.rs:121-126 | a token that starts at 5 is accepted for time 3 when the clock says 10 |
| `ProofChains.AskedAtItsStart` | rust/noosphere-core/src/view/sphere.rs:936-945 | a signed token asked for at its own start, as `verify_signature` does, is refused as too early exactly while the clock is before that start |
| `ProofChains.ChainActiveIff` | rust/noosphere-ucan/src/chain.rs:52-112 | every token of an accepted chain is active at the time asked for exactly when the root has started by then |
| `CapabilityMerge.Merge` | rust/noosphere-ucan/src/chain.rs:267-287 | puts out exactly the capabilities no earlier one enables, last first, each with exactly the originators of the inputs folded into it; every input is enabled by an output naming all its originators, and an output names only originators of inputs it enables |
| `CapabilityMerge.SurvivorsAreOrdered` | rust/noosphere-ucan/src/chain.rs:267-287 | no output is enabled by one put out after it |
| `CapabilityMerge.RootIsFirst` | rust/noosphere-ucan/src/chain.rs:267-287 | with a reflexive and transitive enabling an input is folded once: into the first earlier one that enables it |
| `CapabilityMerge.MergeAuthorizedIff` | rust/noosphere-ucan/src/chain.rs:267-287 | every originator named by the merge originated an input that enables the capability it is named for exactly when whoever originates an input also originates one that enables what it ends up in; with a reflexive and transitive enabling that is the first earlier input enabling it |
| `CapabilityReduction.Gather` | rust/noosphere-ucan/src/chain.rs:184-216 | the reductions of the proofs that are redelegated, or of those that are not, in order |
| `CapabilityReduction.Originators` | rust/noosphere-ucan/src/chain.rs:237-253 | exactly the originators of the ancestral capabilities that enable a claim, or the issuer when there are none; `CapabilityOrigins.ClaimOriginatorsAre` says who that is |
| `CapabilityReduction.OwnInfos` | rust/noosphere-ucan/src/chain.rs:218-263 | the claims up to the first unreadable one, with exactly these originators and the token's lifetime |
| `CapabilityReduction.Reduce` | rust/noosphere-ucan/src/chain.rs:173-288 | computes the reduction of the chain: the merge of own claims, checked against non-redelegated ancestors, and attenuated redelegated ones, over the reductions of all proofs; its inputs are `ClaimsArePrefix` and `CapabilityOrigins.ClaimAttributed` |
| `CapabilityReduction.ClaimsArePrefix` | rust/noosphere-ucan/src/chain.rs:218-263 | the claims taken are the capabilities before the first unreadable one, each as it is read |
| `CapabilityReduction.ReductionIsReduced` | rust/noosphere-ucan/src/chain.rs:173-288 | every reduced capability is granted by the chain, carries the root's lifetime and originates from issuers in the chain; everything granted is enabled by one of them |
| `CapabilityReduction.ReducedIsExact` | rust/noosphere-ucan/src/chain.rs:173-288 | the reduced capabilities enable exactly what the granted ones enable |
| `CapabilityOrigins.AcceptAndReduce` | rust/noosphere-core/src/view/sphere.rs:943-961 | accepting and then reducing a token succeeds exactly on acceptable tokens; the result is granted by the chain, covers all that is granted, and every token of the chain outlives every reduced capability |
| `CapabilityOrigins.ClaimOriginatorsAre` | rust/noosphere-ucan/src/chain.rs:237-253 | an originator of a claim is exactly one named by a non-redelegated proof for a capability that enables the claim, or the issuer when there is no such capability |
| `CapabilityOrigins.ClaimAttributed` | rust/noosphere-ucan/src/chain.rs:218-288 | with a reflexive and transitive enabling, whoever originates a non-redelegated proof's capability that enables a claim of the token is named by a reduced capability that enables that claim |
| `CapabilityOrigins.RedelegationAttributed` | rust/noosphere-ucan/src/chain.rs:184-288 | with a reflexive and transitive enabling, every capability of a redelegated proof lives on in a reduced one that enables it and names all its originators |
| `CapabilityOrigins.AttenuatedOriginatorIsNamed` | rust/noosphere-core/src/view/sphere.rs:943-961 | an instance: an owner issued `authorize`, the holder's accepted token claims the weaker `fetch`, and the reduction names exactly the owner for it |
| `CapabilityOrigins.ReducedIssuedIff` | rust/noosphere-ucan/src/chain.rs:173-288 | for any chain and any enabling: each originator of each reduced capability issued, somewhere in the chain, a claim that enables it exactly when every originator of an input of the last merge issued one that enables what the input ends up in |
| `CapabilityOrigins.LevelIssuedIff` | rust/noosphere-ucan/src/chain.rs:267-287 | when the proofs name their originators rightly, the chain does exactly when whoever originates an input also issued a claim enabling the first earlier input that enables it |
| `CapabilityOrigins.OriginatorsIssuedIff` | rust/noosphere-ucan/src/chain.rs:173-288 | over whole chains: the reductions of a chain and of all its proofs name only originators who issued enabling claims exactly when every merge in the chain folds upright |
| `CapabilityOrigins.WeakerOriginatorIsNamed` | rust/noosphere-core/src/view/sphere.rs:943-961 | two tokens for which they do not: an owner issued `fetch`, the holder's accepted token claims `authorize` and `fetch`, and the reduction names the owner for `authorize` |

## Left out

- HAMT bit widths 0 and above 8.
- The `ignore-dead-links` feature: a missing block is always an error.
- Nodes.ModifyValue: returns the new node; updating the boxed node in place is not modelled, nor are partially updated nodes after a panic.
- Hamts.Hamt.Set: after a maximum-depth failure that loses keys, lookups (`SetFailure.FindAfterFailure`) and `Hamts.Hamt.Flush` are described, further insertions and removals on that node are not.
- Nodes.GetValue: filling a cache behind a shared reference is modelled as returning the node with the cache filled.
- VersionedMaps.ApplyWithCid: the case without a base CID is `VersionedMaps.Empty` followed by the same call.
- The lazily filled cells of `Sphere` and `VersionedMap` views, which only save repeated loads of immutable blocks.
- Memos.Memo.BranchFrom: header names are compared up to letter case in the code and are one name per header here; the Lamport order wraps at 2^32 as in a release build.
- Memos.Memo.Sign: signatures are arbitrary functions of the body; verifying them is not modelled.
- SphereRuns.Run: rebasing is a separate result (`SphereRebase.Rebase`) because it joins two lineages.
- LinkQueries.QueryLinks: looking up the links of a CID never fails; a CID without an entry has none.
- BodyChunks.StoreBytes: the chunk boundaries chosen by FastCDC are a parameter, any partition into non-empty pieces.
- ProofChains.FromUcan: parsing tokens, checking signatures and reading capabilities are parameters; a proof CID is the token it names.
- CapabilityReduction.ReductionIsReduced: `enables` is any relation; coverage is stated for reflexive and transitive ones.
- `verify_authorization`, `verify_signature`, `access_to` and the gateway's authorization, which rest on cryptography and DID parsing.
- DAG-CBOR, JWT and base64 encodings beyond the bitfield's bytes, and the codecs' error cases.
- Async scheduling, task queues, latency guards and retrying block stores.
- `Bundle`, CAR streams, the HTTP client, gateway routes and jobs, the name system, IPFS clients.
- The command line, workspaces, file rendering, HTML transforms and language bindings.
