# Proof traces and storage prefixing of an indexed sparse Merkle trie

This project models two parts of a Java trie engine for an authenticated
world state (Shomei).

1. **Traces.** `InsertionTrace` and `ReadZeroTrace` are the records the trie
   emits for an insertion and for a read of an absent key. Each is a
   builder-style object: a full constructor, a one-argument constructor
   that sets only the sub-root, setters and getters, a transaction-type
   discriminant, and RLP `writeTo` / `readFrom`. The same trace classes
   are written once as values and once as objects:
   - `Insertion` and `ReadZero` are datatypes holding a complete trace.
   - `InsertionItem` and `ReadZeroItem` give the one RLP list that
     `writeTo` emits for a trace.
   - `ReadInsertion` and `ReadReadZero` are the cursor walk of `readFrom`.
   - The classes `InsertionTrace` and `ReadZeroTrace` keep the Java
     fields. A Java null reference is `None`. Their setters, `WriteTo` and
     static `ReadFrom` are proved against those functions.
2. **Storage prefixing.** `WorldStateStorageProxy` maps the keys of one
   logical trie into a shared `InMemoryWorldStateStorage`.
   - Without a prefix, keys pass through unchanged.
   - With prefix `p`, the flat-leaf key `k` becomes `p + k`.
   - A trie node under `(location, hash)` goes under
     `(p + location, p + hash)`.

   The functions `PutFlatLeafIn`, `RemoveFlatLeafIn` and `PutTrieNodeIn`
   describe these updates on the store's two maps. The proxy's updater
   methods are proved to change the maps exactly that way. The six
   scenarios of the proxy's unit test are modelled as the methods
   `WrapCorrectly...`. Each states the test's final assertions as its
   postcondition. The intermediate assertions (test lines 57-58 and
   70-71) are proved as assertions in the method bodies.

RLP is modelled as the item tree it serialises: a byte string or a list
of items.
- A long is written as the minimal big-endian bytes of its 64-bit two's
  complement pattern.
- `readLongScalar` accepts a byte string of at most eight bytes with no
  leading zero, and reads its 64 bits back as a long.
- `readBytes32` demands exactly 32 bytes.
- `leaveList` demands that every element of the list was read.

So decoding is strict. A decoded trace is exactly the list `writeTo`
would write for it (`ReadInsertion`'s postcondition). For the proof and
leaf-opening elements this rests on their stand-in decoders being
canonical as well as undoing their encoders (`EncodeDecode`,
`ReadProof`'s postcondition). A list of another
length is refused (`InsertionArity`). What `writeTo` writes reads back
unchanged (`InsertionRoundTrip`, `WriteThenRead`).

A sub-root node is carried only as its 32-byte hash. `writeTo` writes
nothing else of it, and `readFrom` rebuilds a node that holds only that
hash.

The `Proof` and `LeafOpening` classes are not part of this model. The
model therefore gives each a concrete stand-in layout and proves its round
trip:
- A proof is the list `[leafIndex, [sibling hashes]]`.
- A leaf opening is 128 bytes: two big-endian 32-byte index words, then
  the hashed key and the value hash.

Getters are plain field reads. The `Get...` functions of `InsertionTrace`
model the `get...` methods between lines 77 and 136 of
`InsertionTrace.java`, for example `getOldSubRoot` at lines 85-87 and
`getKey` and `getValue` at lines 121-127. Those of `ReadZeroTrace` model
the `get...` methods between lines 60 and 111 of `ReadZeroTrace.java`,
`getKey` (lines 108-110) among them. What they return is stated in the
setters' and constructors' contracts.

Two facts about the storage proxy:
- The in-memory updater the test uses writes through. The test reads each
  write straight from the store with no `commit()`
  (`WorldStateStorageProxyTest.java` lines 33-35), and the model's updater
  methods change the store's maps at once.
- Isolation between proxies needs prefixes where neither begins the other
  (`PrefixIsolation`). Merely different prefixes such as `[1]` and
  `[1, 1]` collide (`OverlappingPrefixesCollide`).

## Model

| member | source | states |
|---|---|---|
| Rlp.LongScalar | trie/src/main/java/net/consensys/shomei/trie/proof/InsertionTrace.java:179 | `writeLongScalar` writes a byte string of at most 8 bytes with no leading zero, whose big-endian value is the long's 64-bit two's complement pattern |
| Rlp.Unsigned64 | trie/src/main/java/net/consensys/shomei/trie/proof/InsertionTrace.java:179 | the pattern is below 2^64, equals a non-negative long, and is at least 2^63 and 2^64 above a negative one |
| Rlp.ReadLongScalar | trie/src/main/java/net/consensys/shomei/trie/proof/InsertionTrace.java:152 | succeeds exactly on a byte string of at most 8 bytes with no leading zero; what it accepts is the scalar of the long it returns; the cursor moves by one |
| Rlp.ReadLongScalarOfWritten | trie/src/main/java/net/consensys/shomei/trie/proof/InsertionTrace.java:152 | every long reads back from the scalar written for it |
| Rlp.ReadBytes | trie/src/main/java/net/consensys/shomei/trie/proof/InsertionTrace.java:158 | succeeds exactly on a byte string and returns those bytes; the cursor moves by one |
| Rlp.ReadBytes32 | trie/src/main/java/net/consensys/shomei/trie/proof/InsertionTrace.java:153 | succeeds exactly on a byte string of 32 bytes and returns it as a hash |
| Rlp.EnterList | trie/src/main/java/net/consensys/shomei/trie/proof/InsertionTrace.java:151 | succeeds exactly on a list and returns its elements; the cursor moves past the list |
| LeafOpenings.Encode | trie/src/main/java/net/consensys/shomei/trie/proof/InsertionTrace.java:187 | a leaf opening's encoding is 128 bytes |
| LeafOpenings.LeafOpeningItem | trie/src/main/java/net/consensys/shomei/trie/proof/InsertionTrace.java:187-188 | a leaf opening is written as one byte string of 128 bytes |
| LeafOpenings.Decode | trie/src/main/java/net/consensys/shomei/trie/proof/InsertionTrace.java:160 | every failure is a malformed leaf opening |
| LeafOpenings.DecodeEncode | trie/src/main/java/net/consensys/shomei/trie/proof/InsertionTrace.java:160 | decoding a leaf opening's bytes gives it back |
| LeafOpenings.EncodeDecode | trie/src/main/java/net/consensys/shomei/trie/proof/InsertionTrace.java:160 | bytes that decode at all are the encoding of what they decode to |
| LeafOpenings.ReadLeafOpening | trie/src/main/java/net/consensys/shomei/trie/proof/InsertionTrace.java:160 | an accepted element is the byte string of the leaf opening returned |
| LeafOpenings.ReadLeafOpeningOfWritten | trie/src/main/java/net/consensys/shomei/trie/proof/InsertionTrace.java:160 | a written leaf opening reads back, moving the cursor by one |
| Proofs.ProofItem | trie/src/main/java/net/consensys/shomei/trie/proof/InsertionTrace.java:182-184 | a proof is written as one list of two elements |
| Proofs.ReadHashes | trie/src/main/java/net/consensys/shomei/trie/proof/InsertionTrace.java:155 | accepted elements are exactly the hashes returned; it succeeds whenever every element is a 32-byte string |
| Proofs.ReadHashesOfWritten | trie/src/main/java/net/consensys/shomei/trie/proof/InsertionTrace.java:155 | written sibling hashes read back in order |
| Proofs.ReadProof | trie/src/main/java/net/consensys/shomei/trie/proof/InsertionTrace.java:155 | an accepted element is exactly the list written for the proof returned |
| Proofs.ReadProofOfWritten | trie/src/main/java/net/consensys/shomei/trie/proof/InsertionTrace.java:182 | a written proof reads back, moving the cursor by one |
| InsertionTraces.InsertionItem | trie/src/main/java/net/consensys/shomei/trie/proof/InsertionTrace.java:177-190 | `writeTo` emits one list of ten elements |
| InsertionTraces.ItemOfInsertionElements | trie/src/main/java/net/consensys/shomei/trie/proof/InsertionTrace.java:177-190 | ten elements of the field kinds in the order newNextFreeNode, old and new sub-root hash, left, new and right proof, key, value, prior left and right leaf make up the list `writeTo` emits |
| InsertionTraces.InsertionElementsOfItem | trie/src/main/java/net/consensys/shomei/trie/proof/InsertionTrace.java:177-190 | conversely, the list `writeTo` emits has exactly those ten elements in that order |
| InsertionTraces.ReadInsertion | trie/src/main/java/net/consensys/shomei/trie/proof/InsertionTrace.java:150-174 | `readFrom` accepts only the exact list `writeTo` writes for the trace it returns, and consumes that one item |
| InsertionTraces.ReadInsertionFields | trie/src/main/java/net/consensys/shomei/trie/proof/InsertionTrace.java:151-162 | between `enterList` and `leaveList` the ten elements are read in `writeTo`'s order and nothing may follow them |
| InsertionTraces.ReadInsertionProofs | trie/src/main/java/net/consensys/shomei/trie/proof/InsertionTrace.java:155-157 | the three proofs are the three elements at the cursor, in order |
| InsertionTraces.ReadInsertionTail | trie/src/main/java/net/consensys/shomei/trie/proof/InsertionTrace.java:158-162 | key, value and the two leaf openings are the last four elements; the list ends there |
| InsertionTraces.ReadInsertionProofsOfWritten | trie/src/main/java/net/consensys/shomei/trie/proof/InsertionTrace.java:155-157 | three written proofs read back in order |
| InsertionTraces.ReadInsertionTailOfWritten | trie/src/main/java/net/consensys/shomei/trie/proof/InsertionTrace.java:158-162 | a written key, value and two leaf openings read back, and the list is then exhausted |
| InsertionTraces.InsertionFieldsRoundTrip | trie/src/main/java/net/consensys/shomei/trie/proof/InsertionTrace.java:150-190 | the ten written elements read back as the same trace |
| InsertionTraces.InsertionRoundTrip | trie/src/main/java/net/consensys/shomei/trie/proof/InsertionTrace.java:150-190 | `readFrom` of what `writeTo` wrote gives every field back, sub-roots by hash, consuming one item |
| InsertionTraces.InsertionArity | trie/src/main/java/net/consensys/shomei/trie/proof/InsertionTrace.java:151-162 | a list of any length other than ten is refused |
| InsertionTraces.InsertionTrace.constructor | trie/src/main/java/net/consensys/shomei/trie/proof/InsertionTrace.java:42-63 | each argument is stored in the field of its name |
| InsertionTraces.InsertionTrace.WithOldSubRoot | trie/src/main/java/net/consensys/shomei/trie/proof/InsertionTrace.java:65-67 | only the old sub-root is set; the long is 0 and every other field null, so the trace cannot yet be written |
| InsertionTraces.InsertionTrace.SetKey | trie/src/main/java/net/consensys/shomei/trie/proof/InsertionTrace.java:69-71 | the getter returns the key set; no other field changes |
| InsertionTraces.InsertionTrace.SetValue | trie/src/main/java/net/consensys/shomei/trie/proof/InsertionTrace.java:73-75 | the getter returns the value set; no other field changes |
| InsertionTraces.InsertionTrace.SetNewNextFreeNode | trie/src/main/java/net/consensys/shomei/trie/proof/InsertionTrace.java:77-83 | the getter returns the counter set; no other field changes |
| InsertionTraces.InsertionTrace.SetNewSubRoot | trie/src/main/java/net/consensys/shomei/trie/proof/InsertionTrace.java:89-95 | the getter returns the sub-root set; no other field changes |
| InsertionTraces.InsertionTrace.SetLeftProof | trie/src/main/java/net/consensys/shomei/trie/proof/InsertionTrace.java:97-103 | the getter returns the proof set; no other field changes |
| InsertionTraces.InsertionTrace.SetNewProof | trie/src/main/java/net/consensys/shomei/trie/proof/InsertionTrace.java:105-111 | the getter returns the proof set; no other field changes |
| InsertionTraces.InsertionTrace.SetRightProof | trie/src/main/java/net/consensys/shomei/trie/proof/InsertionTrace.java:113-119 | the getter returns the proof set; no other field changes |
| InsertionTraces.InsertionTrace.SetPriorLeftLeaf | trie/src/main/java/net/consensys/shomei/trie/proof/InsertionTrace.java:129-139 | the getter returns the leaf set; no other field changes |
| InsertionTraces.InsertionTrace.SetPriorRightLeaf | trie/src/main/java/net/consensys/shomei/trie/proof/InsertionTrace.java:133-143 | the getter returns the leaf set; no other field changes |
| InsertionTraces.InsertionTrace.GetTransactionType | trie/src/main/java/net/consensys/shomei/trie/proof/InsertionTrace.java:145-148 | always the insertion code, which is not the zero-read code, whatever the fields hold |
| InsertionTraces.InsertionTrace.WriteTo | trie/src/main/java/net/consensys/shomei/trie/proof/InsertionTrace.java:176-190 | appends exactly one item, the ten-element list of the trace's fields, to the output |
| InsertionTraces.InsertionTrace.ReadFrom | trie/src/main/java/net/consensys/shomei/trie/proof/InsertionTrace.java:150-174 | fails exactly when `ReadInsertion` does, with its error; otherwise a new object holding every field it read |
| InsertionTraces.WriteThenRead | trie/src/main/java/net/consensys/shomei/trie/proof/InsertionTrace.java:150-190 | a complete trace written and read back is a new object equal to it on every field |
| ReadZeroTraces.ReadZeroItem | trie/src/main/java/net/consensys/shomei/trie/proof/ReadZeroTrace.java:135-146 | `writeTo` emits one list of seven elements |
| ReadZeroTraces.ItemOfReadZeroElements | trie/src/main/java/net/consensys/shomei/trie/proof/ReadZeroTrace.java:135-146 | seven elements in the order nextFreeNode, sub-root hash, left and right leaf, left and right proof, key (leaves before proofs) make up the list `writeTo` emits |
| ReadZeroTraces.ReadZeroElementsOfItem | trie/src/main/java/net/consensys/shomei/trie/proof/ReadZeroTrace.java:135-146 | conversely, the list `writeTo` emits has exactly those seven elements in that order |
| ReadZeroTraces.ReadReadZero | trie/src/main/java/net/consensys/shomei/trie/proof/ReadZeroTrace.java:121-133 | `readFrom` accepts only the exact list `writeTo` writes for the trace it returns, and consumes that one item |
| ReadZeroTraces.ReadReadZeroFields | trie/src/main/java/net/consensys/shomei/trie/proof/ReadZeroTrace.java:122-130 | between `enterList` and `leaveList` the seven elements are read in `writeTo`'s order and nothing may follow them |
| ReadZeroTraces.ReadZeroFieldsRoundTrip | trie/src/main/java/net/consensys/shomei/trie/proof/ReadZeroTrace.java:121-146 | the seven written elements read back as the same trace |
| ReadZeroTraces.ReadZeroRoundTrip | trie/src/main/java/net/consensys/shomei/trie/proof/ReadZeroTrace.java:121-146 | `readFrom` of what `writeTo` wrote gives every field back, the sub-root by hash, consuming one item |
| ReadZeroTraces.ReadZeroArity | trie/src/main/java/net/consensys/shomei/trie/proof/ReadZeroTrace.java:122-130 | a list of any length other than seven is refused |
| ReadZeroTraces.ReadZeroTrace.constructor | trie/src/main/java/net/consensys/shomei/trie/proof/ReadZeroTrace.java:39-54 | each argument is stored in the field of its name |
| ReadZeroTraces.ReadZeroTrace.WithSubRoot | trie/src/main/java/net/consensys/shomei/trie/proof/ReadZeroTrace.java:56-58 | only the sub-root is set; the long is 0 and every other field null |
| ReadZeroTraces.ReadZeroTrace.SetNextFreeNode | trie/src/main/java/net/consensys/shomei/trie/proof/ReadZeroTrace.java:60-66 | the getter returns the counter set; no other field changes |
| ReadZeroTraces.ReadZeroTrace.SetSubRoot | trie/src/main/java/net/consensys/shomei/trie/proof/ReadZeroTrace.java:68-74 | the getter returns the sub-root set; no other field changes |
| ReadZeroTraces.ReadZeroTrace.SetLeftLeaf | trie/src/main/java/net/consensys/shomei/trie/proof/ReadZeroTrace.java:76-82 | the getter returns the leaf set; no other field changes |
| ReadZeroTraces.ReadZeroTrace.SetRightLeaf | trie/src/main/java/net/consensys/shomei/trie/proof/ReadZeroTrace.java:84-90 | the getter returns the leaf set; no other field changes |
| ReadZeroTraces.ReadZeroTrace.SetLeftProof | trie/src/main/java/net/consensys/shomei/trie/proof/ReadZeroTrace.java:92-98 | the getter returns the proof set; no other field changes |
| ReadZeroTraces.ReadZeroTrace.SetRightProof | trie/src/main/java/net/consensys/shomei/trie/proof/ReadZeroTrace.java:100-106 | the getter returns the proof set; no other field changes |
| ReadZeroTraces.ReadZeroTrace.SetKey | trie/src/main/java/net/consensys/shomei/trie/proof/ReadZeroTrace.java:108-114 | the getter returns the key set; no other field changes |
| ReadZeroTraces.ReadZeroTrace.GetTransactionType | trie/src/main/java/net/consensys/shomei/trie/proof/ReadZeroTrace.java:116-119 | always the zero-read code, which is not the insertion code, whatever the fields hold |
| ReadZeroTraces.ReadZeroTrace.WriteTo | trie/src/main/java/net/consensys/shomei/trie/proof/ReadZeroTrace.java:135-146 | appends exactly one item, the seven-element list of the trace's fields, to the output |
| ReadZeroTraces.ReadZeroTrace.ReadFrom | trie/src/main/java/net/consensys/shomei/trie/proof/ReadZeroTrace.java:121-133 | fails exactly when `ReadReadZero` does, with its error; otherwise a new object holding every field it read |
| ReadZeroTraces.WriteThenRead | trie/src/main/java/net/consensys/shomei/trie/proof/ReadZeroTrace.java:121-146 | a complete trace written and read back is a new object equal to it on every field |
| WorldStateStorage.PrefixKey | core/src/test/java/net/consensys/shomei/storage/WorldStateStorageProxyTest.java:39-48 | without a prefix the key is unchanged; with prefix `p` it is `p` followed by the key |
| WorldStateStorage.PutFlatLeafIn | core/src/test/java/net/consensys/shomei/storage/WorldStateStorageProxyTest.java:28-48 | the leaf is stored under the prefixed key; keys are the old ones plus that one; every other entry keeps its value |
| WorldStateStorage.RemoveFlatLeafIn | core/src/test/java/net/consensys/shomei/storage/WorldStateStorageProxyTest.java:51-74 | the prefixed key is absent; keys are the old ones minus that one; every remaining entry keeps its value |
| WorldStateStorage.PutTrieNodeIn | core/src/test/java/net/consensys/shomei/storage/WorldStateStorageProxyTest.java:77-95 | the node is stored under (prefixed location, prefixed hash); every other node key keeps its presence and value |
| WorldStateStorage.PrefixKeyInjective | core/src/test/java/net/consensys/shomei/storage/WorldStateStorageProxyTest.java:39-48 | under one prefix, two logical keys share a physical key exactly when they are equal |
| WorldStateStorage.PrefixedKeyIsNotBare | core/src/test/java/net/consensys/shomei/storage/WorldStateStorageProxyTest.java:45 | a non-empty prefix never yields the bare key |
| WorldStateStorage.PutFlatLeafLeavesBareKey | core/src/test/java/net/consensys/shomei/storage/WorldStateStorageProxyTest.java:39-48 | with a non-empty prefix, a put leaves the bare key as it was, so absent if it was absent |
| WorldStateStorage.PutTrieNodeLeavesBareKey | core/src/test/java/net/consensys/shomei/storage/WorldStateStorageProxyTest.java:87-95 | with a non-empty prefix, a node put leaves the unprefixed node key as it was |
| WorldStateStorage.RemoveAfterPut | core/src/test/java/net/consensys/shomei/storage/WorldStateStorageProxyTest.java:51-74 | removing what was just put leaves the map as removing alone would |
| WorldStateStorage.PrefixIsolation | core/src/test/java/net/consensys/shomei/storage/WorldStateStorageProxyTest.java:39-48 | keys under two prefixes, neither of which begins the other, never meet |
| WorldStateStorage.OverlappingPrefixesCollide | core/src/test/java/net/consensys/shomei/storage/WorldStateStorageProxyTest.java:39-48 | prefixes `[1]` and `[1, 1]` overlap, and a leaf put through `[1, 1]` under `[3]` is what `[1]` finds under `[1, 3]` |
| WorldStateStorage.PutFlatLeafIsolated | core/src/test/java/net/consensys/shomei/storage/WorldStateStorageProxyTest.java:39-48 | a flat-leaf put through one prefix changes no key visible through a non-overlapping prefix |
| WorldStateStorage.RemoveFlatLeafIsolated | core/src/test/java/net/consensys/shomei/storage/WorldStateStorageProxyTest.java:64-74 | a removal through one prefix changes the presence of no key visible through a non-overlapping prefix |
| WorldStateStorage.PutTrieNodeIsolated | core/src/test/java/net/consensys/shomei/storage/WorldStateStorageProxyTest.java:87-95 | a node put through one prefix changes no node visible through a non-overlapping prefix |
| WorldStateStorage.InMemoryWorldStateStorage.constructor | core/src/test/java/net/consensys/shomei/storage/WorldStateStorageProxyTest.java:29 | a new store has no flat leaves and no trie nodes |
| WorldStateStorage.InMemoryWorldStateStorage.GetFlatLeafStorage | core/src/test/java/net/consensys/shomei/storage/WorldStateStorageProxyTest.java:34 | the store's flat-leaf map itself, as the test inspects it |
| WorldStateStorage.InMemoryWorldStateStorage.GetTrieNode | core/src/test/java/net/consensys/shomei/storage/WorldStateStorageProxyTest.java:82-83 | present exactly when the node key is stored, and then the stored node |
| WorldStateStorage.WorldStateStorageProxy.constructor | core/src/test/java/net/consensys/shomei/storage/WorldStateStorageProxyTest.java:41-42 | the proxy keeps the given prefix and store |
| WorldStateStorage.WorldStateStorageProxy.Unprefixed | core/src/test/java/net/consensys/shomei/storage/WorldStateStorageProxyTest.java:30-31 | the one-argument proxy has no prefix |
| WorldStateStorage.WorldStateStorageProxy.Updater | core/src/test/java/net/consensys/shomei/storage/WorldStateStorageProxyTest.java:33 | a new updater with the proxy's prefix and store |
| WorldStateStorage.ProxyUpdater.constructor | core/src/test/java/net/consensys/shomei/storage/WorldStateStorageProxyTest.java:33 | the updater keeps the given prefix and store |
| WorldStateStorage.ProxyUpdater.PutFlatLeaf | core/src/test/java/net/consensys/shomei/storage/WorldStateStorageProxyTest.java:33 | the flat-leaf map becomes `PutFlatLeafIn` of the old one; the trie-node map is unchanged |
| WorldStateStorage.ProxyUpdater.RemoveFlatLeafValue | core/src/test/java/net/consensys/shomei/storage/WorldStateStorageProxyTest.java:59 | the flat-leaf map becomes `RemoveFlatLeafIn` of the old one; the trie-node map is unchanged |
| WorldStateStorage.ProxyUpdater.PutTrieNode | core/src/test/java/net/consensys/shomei/storage/WorldStateStorageProxyTest.java:81 | the trie-node map becomes `PutTrieNodeIn` of the old one; the flat-leaf map is unchanged |
| WorldStateStorage.WrapCorrectlyPutKeyIndex | core/src/test/java/net/consensys/shomei/storage/WorldStateStorageProxyTest.java:28-36 | without a prefix, the leaf put under `[3]` is stored under `[3]` |
| WorldStateStorage.WrapCorrectlyPutKeyIndexWithPrefix | core/src/test/java/net/consensys/shomei/storage/WorldStateStorageProxyTest.java:39-48 | with prefix `[1]`, `[3]` is absent and the leaf is stored under `[1, 3]` |
| WorldStateStorage.WrapCorrectlyRemoveKeyIndex | core/src/test/java/net/consensys/shomei/storage/WorldStateStorageProxyTest.java:51-61 | without a prefix, put then remove leaves `[3]` absent |
| WorldStateStorage.WrapCorrectlyRemoveKeyIndexWithPrefix | core/src/test/java/net/consensys/shomei/storage/WorldStateStorageProxyTest.java:64-74 | with prefix `[1]`, put then remove leaves `[1, 3]` absent |
| WorldStateStorage.WrapCorrectlyPutTrieNode | core/src/test/java/net/consensys/shomei/storage/WorldStateStorageProxyTest.java:77-84 | without a prefix, the node lookup at `([1], [1])` gives `[3]` |
| WorldStateStorage.WrapCorrectlyPutTrieNodeWithPrefix | core/src/test/java/net/consensys/shomei/storage/WorldStateStorageProxyTest.java:87-95 | with prefix `[1]`, the lookup at `([1], [1])` is empty and at `([1, 1], [1, 1])` gives `[3]` |

## Left out

- The RLP byte layer (length prefixes, the short-string and short-list forms) belongs to Besu's `RLPInput`/`RLPOutput`. Items are modelled as the tree they encode.
- InsertionTraces.ReadInsertion: the promise that an accepted item is exactly the list `writeTo` writes rests, for the three proof and two leaf-opening elements, on the stand-in `Proof` and `LeafOpening` decoders being canonical (`LeafOpenings.EncodeDecode`, `Proofs.ReadProof`'s postcondition). Whether the real decoders are canonical is not checked.
- ReadZeroTraces.ReadReadZero: the same holds for its two proof and two leaf-opening elements.
- `Proof` and `LeafOpening` are not part of this model. Their layouts here are stand-ins with proved round trips. The real classes' layouts are not checked.
- `Node`, `StoredNode` and `Hash` are not part of this model. A sub-root is its 32-byte hash, which is all a trace writes of it.
- The `Trace` interface is not part of this model. The values 1 (zero-read) and 2 (insertion) of its transaction-type codes are placeholders; only their distinctness is relied on.
- InsertionTraces.InsertionTrace.WriteTo requires every reference field to be set. Java throws a `NullPointerException` part-way through a list instead; that partial output is not modelled.
- ReadZeroTraces.ReadZeroTrace.WriteTo requires every reference field to be set. Java throws a `NullPointerException` part-way through the list instead; that partial output is not modelled.
- Java's public fields can be assigned without a setter. Only the setters and constructors are modelled.
- The trie engine, hashing, node storage formats and the `nextFreeNode` allocation are not part of this model.
- The updater's `commit()` and the physical store's atomicity are external. The in-memory updater writes through, as the test observes.
- A proxy over another proxy, and the proxy's own read paths, are not exercised by the test and are not modelled.
- Concurrency between proxies and between readers and writers is out of scope for this sequential model.
