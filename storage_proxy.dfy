/** The storage layer that lets many logical tries share one physical
    key-value store. A `WorldStateStorageProxy` carries an optional prefix
    and writes through its updater into an `InMemoryWorldStateStorage`: with
    no prefix every key passes through unchanged; with prefix `p` the
    flat-leaf key `k` becomes `p + k`, and a trie node filed under
    `(location, nodeHash)` is filed under `(p + location, p + nodeHash)`.

    The prefixing is stated once, as functions on the store's two maps; the
    updater's methods are proved to change the maps exactly as those
    functions say, and the lemmas below prove what the functions promise:
    placement, removal, value preservation, other keys left alone, and the
    isolation of two proxies whose prefixes do not overlap. */
module WorldStateStorage {

  import opened Wrappers
  import opened ByteStrings
  import opened Rlp

  /** A flat-leaf index entry: the leaf index assigned to a key, and the
      leaf's value. */
  datatype FlattenedLeaf = FlattenedLeaf(leafIndex: Long, leafValue: seq<byte>)

  type FlatLeafMap = map<seq<byte>, FlattenedLeaf>
  type TrieNodeMap = map<(seq<byte>, seq<byte>), seq<byte>>

  /** The physical key a proxy with `prefix` uses for the logical key `k`:
      `k` itself without a prefix, and otherwise the prefix followed by `k`. */
  function PrefixKey(prefix: Option<seq<byte>>, k: seq<byte>): (pk: seq<byte>)
    ensures prefix.None? ==> pk == k
    ensures prefix.Some? ==>
      && |pk| == |prefix.value| + |k|
      && pk[..|prefix.value|] == prefix.value
      && pk[|prefix.value|..] == k
  {
    match prefix
    case None => k
    case Some(p) => p + k
  }

  /** `putFlatLeaf(k, v)` through a proxy with `prefix`, on the flat-leaf
      map: `v` is stored under the prefixed key, and every other key keeps
      its presence and its value. */
  function PutFlatLeafIn(m: FlatLeafMap, prefix: Option<seq<byte>>, k: seq<byte>, v: FlattenedLeaf): (r: FlatLeafMap)
    ensures PrefixKey(prefix, k) in r && r[PrefixKey(prefix, k)] == v
    ensures r.Keys == m.Keys + {PrefixKey(prefix, k)}
    ensures forall j | j in m && j != PrefixKey(prefix, k) :: r[j] == m[j]
  {
    m[PrefixKey(prefix, k) := v]
  }

  /** `removeFlatLeafValue(k)` through a proxy with `prefix`: the prefixed
      key is gone (it need not have been there), and every other entry is
      kept as it was. */
  function RemoveFlatLeafIn(m: FlatLeafMap, prefix: Option<seq<byte>>, k: seq<byte>): (r: FlatLeafMap)
    ensures PrefixKey(prefix, k) !in r
    ensures r.Keys == m.Keys - {PrefixKey(prefix, k)}
    ensures forall j | j in r :: r[j] == m[j]
  {
    m - {PrefixKey(prefix, k)}
  }

  /** `putTrieNode(location, nodeHash, node)` through a proxy with
      `prefix`: both halves of the node key are prefixed, the node is
      stored there, and every other node key is left alone. */
  function PutTrieNodeIn(m: TrieNodeMap, prefix: Option<seq<byte>>, location: seq<byte>, nodeHash: seq<byte>, node: seq<byte>): (r: TrieNodeMap)
    ensures (PrefixKey(prefix, location), PrefixKey(prefix, nodeHash)) in r
    ensures r[(PrefixKey(prefix, location), PrefixKey(prefix, nodeHash))] == node
    ensures r.Keys == m.Keys + {(PrefixKey(prefix, location), PrefixKey(prefix, nodeHash))}
    ensures forall j | j in m && j != (PrefixKey(prefix, location), PrefixKey(prefix, nodeHash)) :: r[j] == m[j]
  {
    m[(PrefixKey(prefix, location), PrefixKey(prefix, nodeHash)) := node]
  }

  /** Within one proxy, distinct logical keys stay distinct physical keys. */
  lemma PrefixKeyInjective(prefix: Option<seq<byte>>, k1: seq<byte>, k2: seq<byte>)
    ensures PrefixKey(prefix, k1) == PrefixKey(prefix, k2) <==> k1 == k2
  {
    if PrefixKey(prefix, k1) == PrefixKey(prefix, k2) && prefix.Some? {
      var n := |prefix.value|;
      assert k1 == PrefixKey(prefix, k1)[n..];
      assert k2 == PrefixKey(prefix, k2)[n..];
    }
  }

  /** A non-empty prefix never yields the bare key. */
  lemma PrefixedKeyIsNotBare(p: seq<byte>, k: seq<byte>)
    requires |p| > 0
    ensures PrefixKey(Some(p), k) != k
  {
    assert |PrefixKey(Some(p), k)| > |k|;
  }

  /** With a non-empty prefix, a put leaves the bare key exactly as it was
      (absent if it was absent, as the prefixed scenario observes). */
  lemma PutFlatLeafLeavesBareKey(m: FlatLeafMap, p: seq<byte>, k: seq<byte>, v: FlattenedLeaf)
    requires |p| > 0
    ensures k in PutFlatLeafIn(m, Some(p), k, v) <==> k in m
    ensures k in m ==> PutFlatLeafIn(m, Some(p), k, v)[k] == m[k]
  {
    PrefixedKeyIsNotBare(p, k);
  }

  /** With a non-empty prefix, a trie-node put leaves the unprefixed node
      key exactly as it was. */
  lemma PutTrieNodeLeavesBareKey(m: TrieNodeMap, p: seq<byte>, location: seq<byte>, nodeHash: seq<byte>, node: seq<byte>)
    requires |p| > 0
    ensures (location, nodeHash) in PutTrieNodeIn(m, Some(p), location, nodeHash, node) <==> (location, nodeHash) in m
    ensures (location, nodeHash) in m ==>
      PutTrieNodeIn(m, Some(p), location, nodeHash, node)[(location, nodeHash)] == m[(location, nodeHash)]
  {
    PrefixedKeyIsNotBare(p, location);
  }

  /** Removing what was just put leaves the map as removing alone would:
      the key is absent, and the put leaves no trace elsewhere. */
  lemma RemoveAfterPut(m: FlatLeafMap, prefix: Option<seq<byte>>, k: seq<byte>, v: FlattenedLeaf)
    ensures RemoveFlatLeafIn(PutFlatLeafIn(m, prefix, k, v), prefix, k) == RemoveFlatLeafIn(m, prefix, k)
  {
    var a := RemoveFlatLeafIn(PutFlatLeafIn(m, prefix, k, v), prefix, k);
    var b := RemoveFlatLeafIn(m, prefix, k);
    assert a.Keys == b.Keys;
  }

  /** Two prefixes overlap when one of them begins the other. */
  predicate Overlap(p1: seq<byte>, p2: seq<byte>) {
    (|p1| <= |p2| && p2[..|p1|] == p1) || (|p2| <= |p1| && p1[..|p2|] == p2)
  }

  /** Keys under non-overlapping prefixes never meet, whatever the logical
      keys are. */
  lemma PrefixIsolation(p1: seq<byte>, p2: seq<byte>, k1: seq<byte>, k2: seq<byte>)
    requires !Overlap(p1, p2)
    ensures PrefixKey(Some(p1), k1) != PrefixKey(Some(p2), k2)
  {
  }

  /** Different prefixes are not enough: a flat leaf put through prefix
      [1, 1] under key [3] is what a proxy with prefix [1] reads under key
      [1, 3]. */
  lemma OverlappingPrefixesCollide(m: FlatLeafMap, v: FlattenedLeaf)
    ensures Overlap([1], [1, 1])
    ensures PrefixKey(Some([1]), [1, 3]) == PrefixKey(Some([1, 1]), [3])
    ensures PutFlatLeafIn(m, Some([1, 1]), [3], v)[PrefixKey(Some([1]), [1, 3])] == v
  {
  }

  /** A flat-leaf put through one proxy changes nothing a proxy with a
      non-overlapping prefix can see. */
  lemma PutFlatLeafIsolated(m: FlatLeafMap, p1: seq<byte>, p2: seq<byte>, k1: seq<byte>, k2: seq<byte>, v: FlattenedLeaf)
    requires !Overlap(p1, p2)
    ensures PrefixKey(Some(p2), k2) in PutFlatLeafIn(m, Some(p1), k1, v) <==> PrefixKey(Some(p2), k2) in m
    ensures PrefixKey(Some(p2), k2) in m ==>
      PutFlatLeafIn(m, Some(p1), k1, v)[PrefixKey(Some(p2), k2)] == m[PrefixKey(Some(p2), k2)]
  {
    PrefixIsolation(p1, p2, k1, k2);
  }

  /** A flat-leaf removal through one proxy changes nothing a proxy with a
      non-overlapping prefix can see. */
  lemma RemoveFlatLeafIsolated(m: FlatLeafMap, p1: seq<byte>, p2: seq<byte>, k1: seq<byte>, k2: seq<byte>)
    requires !Overlap(p1, p2)
    ensures PrefixKey(Some(p2), k2) in RemoveFlatLeafIn(m, Some(p1), k1) <==> PrefixKey(Some(p2), k2) in m
  {
    PrefixIsolation(p1, p2, k1, k2);
  }

  /** A trie-node put through one proxy changes no node a proxy with a
      non-overlapping prefix can see. */
  lemma PutTrieNodeIsolated(m: TrieNodeMap, p1: seq<byte>, p2: seq<byte>, location1: seq<byte>, nodeHash1: seq<byte>,
                            location2: seq<byte>, nodeHash2: seq<byte>, node: seq<byte>)
    requires !Overlap(p1, p2)
    ensures var j := (PrefixKey(Some(p2), location2), PrefixKey(Some(p2), nodeHash2));
      && (j in PutTrieNodeIn(m, Some(p1), location1, nodeHash1, node) <==> j in m)
      && (j in m ==> PutTrieNodeIn(m, Some(p1), location1, nodeHash1, node)[j] == m[j])
  {
    PrefixIsolation(p1, p2, location1, location2);
  }

  /** The physical in-memory store: a map of flat-leaf index entries and a
      map of trie nodes keyed by (location, node hash). */
  class InMemoryWorldStateStorage {
    var flatLeafStorage: FlatLeafMap
    var trieNodeStorage: TrieNodeMap

    constructor()
      ensures flatLeafStorage == map[] && trieNodeStorage == map[]
    {
      flatLeafStorage := map[];
      trieNodeStorage := map[];
    }

    /** The flat-leaf map itself, as the scenarios inspect it. */
    function GetFlatLeafStorage(): (m: FlatLeafMap)
      reads this
      ensures m == flatLeafStorage
    {
      flatLeafStorage
    }

    /** The node filed under (location, nodeHash), if any. */
    function GetTrieNode(location: seq<byte>, nodeHash: seq<byte>): (r: Option<seq<byte>>)
      reads this
      ensures r.Some? <==> (location, nodeHash) in trieNodeStorage
      ensures r.Some? ==> r.value == trieNodeStorage[(location, nodeHash)]
    {
      if (location, nodeHash) in trieNodeStorage then Some(trieNodeStorage[(location, nodeHash)]) else None
    }
  }

  /** A view of the physical store under an optional prefix. */
  class WorldStateStorageProxy {
    const prefix: Option<seq<byte>>
    const storage: InMemoryWorldStateStorage

    constructor(prefix: Option<seq<byte>>, storage: InMemoryWorldStateStorage)
      ensures this.prefix == prefix && this.storage == storage
    {
      this.prefix := prefix;
      this.storage := storage;
    }

    /** The one-argument constructor: no prefix. */
    constructor Unprefixed(storage: InMemoryWorldStateStorage)
      ensures prefix == None && this.storage == storage
    {
      prefix := None;
      this.storage := storage;
    }

    /** A fresh mutation session writing through this proxy's prefix. */
    method Updater() returns (u: ProxyUpdater)
      ensures fresh(u) && u.prefix == prefix && u.storage == storage
    {
      u := new ProxyUpdater(prefix, storage);
    }
  }

  /** The proxy's updater over the in-memory store, whose writes reach the
      store's maps at once. */
  class ProxyUpdater {
    const prefix: Option<seq<byte>>
    const storage: InMemoryWorldStateStorage

    constructor(prefix: Option<seq<byte>>, storage: InMemoryWorldStateStorage)
      ensures this.prefix == prefix && this.storage == storage
    {
      this.prefix := prefix;
      this.storage := storage;
    }

    method PutFlatLeaf(k: seq<byte>, v: FlattenedLeaf)
      modifies storage
      ensures storage.flatLeafStorage == PutFlatLeafIn(old(storage.flatLeafStorage), prefix, k, v)
      ensures storage.trieNodeStorage == old(storage.trieNodeStorage)
    {
      storage.flatLeafStorage := PutFlatLeafIn(storage.flatLeafStorage, prefix, k, v);
    }

    method RemoveFlatLeafValue(k: seq<byte>)
      modifies storage
      ensures storage.flatLeafStorage == RemoveFlatLeafIn(old(storage.flatLeafStorage), prefix, k)
      ensures storage.trieNodeStorage == old(storage.trieNodeStorage)
    {
      storage.flatLeafStorage := RemoveFlatLeafIn(storage.flatLeafStorage, prefix, k);
    }

    method PutTrieNode(location: seq<byte>, nodeHash: seq<byte>, node: seq<byte>)
      modifies storage
      ensures storage.trieNodeStorage == PutTrieNodeIn(old(storage.trieNodeStorage), prefix, location, nodeHash, node)
      ensures storage.flatLeafStorage == old(storage.flatLeafStorage)
    {
      storage.trieNodeStorage := PutTrieNodeIn(storage.trieNodeStorage, prefix, location, nodeHash, node);
    }
  }

  /** Without a prefix, a flat leaf put under [3] is stored under [3]. */
  method WrapCorrectlyPutKeyIndex() returns (store: InMemoryWorldStateStorage)
    ensures [3] in store.GetFlatLeafStorage()
    ensures store.GetFlatLeafStorage()[[3]] == FlattenedLeaf(1, [])
  {
    store := new InMemoryWorldStateStorage();
    var proxy := new WorldStateStorageProxy.Unprefixed(store);
    var updater := proxy.Updater();
    updater.PutFlatLeaf([3], FlattenedLeaf(1, []));
  }

  /** With prefix [1], a flat leaf put under [3] is stored under [1, 3] and
      the bare key [3] is absent. */
  method WrapCorrectlyPutKeyIndexWithPrefix() returns (store: InMemoryWorldStateStorage)
    ensures [3] !in store.GetFlatLeafStorage()
    ensures [1, 3] in store.GetFlatLeafStorage()
    ensures store.GetFlatLeafStorage()[[1, 3]] == FlattenedLeaf(1, [])
  {
    store := new InMemoryWorldStateStorage();
    var proxy := new WorldStateStorageProxy(Some([1]), store);
    var updater := proxy.Updater();
    updater.PutFlatLeaf([3], FlattenedLeaf(1, []));
    assert PrefixKey(Some([1]), [3]) == [1, 3];
  }

  /** Without a prefix, a put then a removal of [3] leaves [3] absent. */
  method WrapCorrectlyRemoveKeyIndex() returns (store: InMemoryWorldStateStorage)
    ensures [3] !in store.GetFlatLeafStorage()
  {
    store := new InMemoryWorldStateStorage();
    var proxy := new WorldStateStorageProxy.Unprefixed(store);
    var updater := proxy.Updater();
    updater.PutFlatLeaf([3], FlattenedLeaf(1, []));
    assert store.GetFlatLeafStorage()[[3]] == FlattenedLeaf(1, []);
    updater := proxy.Updater();
    updater.RemoveFlatLeafValue([3]);
  }

  /** With prefix [1], a put then a removal of [3] leaves [1, 3] absent. */
  method WrapCorrectlyRemoveKeyIndexWithPrefix() returns (store: InMemoryWorldStateStorage)
    ensures [1, 3] !in store.GetFlatLeafStorage()
  {
    store := new InMemoryWorldStateStorage();
    var proxy := new WorldStateStorageProxy(Some([1]), store);
    var updater := proxy.Updater();
    updater.PutFlatLeaf([3], FlattenedLeaf(1, []));
    assert PrefixKey(Some([1]), [3]) == [1, 3];
    assert store.GetFlatLeafStorage()[[1, 3]] == FlattenedLeaf(1, []);
    updater := proxy.Updater();
    updater.RemoveFlatLeafValue([3]);
  }

  /** Without a prefix, the node put under ([1], [1]) is found there. */
  method WrapCorrectlyPutTrieNode() returns (store: InMemoryWorldStateStorage)
    ensures store.GetTrieNode([1], [1]) == Some([3])
  {
    store := new InMemoryWorldStateStorage();
    var proxy := new WorldStateStorageProxy.Unprefixed(store);
    var updater := proxy.Updater();
    updater.PutTrieNode([1], [1], [3]);
  }

  /** With prefix [1], the node put under ([1], [1]) is filed under
      ([1, 1], [1, 1]) and the unprefixed lookup is empty. */
  method WrapCorrectlyPutTrieNodeWithPrefix() returns (store: InMemoryWorldStateStorage)
    ensures store.GetTrieNode([1], [1]) == None
    ensures store.GetTrieNode([1, 1], [1, 1]) == Some([3])
  {
    store := new InMemoryWorldStateStorage();
    var proxy := new WorldStateStorageProxy(Some([1]), store);
    var updater := proxy.Updater();
    updater.PutTrieNode([1], [1], [3]);
    assert PrefixKey(Some([1]), [1]) == [1, 1];
  }
}
