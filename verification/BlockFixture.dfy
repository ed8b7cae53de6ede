/** The block-fetch fixture: block bodies in key order, and range lookup. */
module BlockFixture {
  import opened Text
  import opened Hex
  import opened Points
  import opened Ordering

  datatype BlockFixtureEntry = BlockFixtureEntry(slot: u64, blockHash: HexText, blockCborHex: HexText)

  datatype BlockFixtureChain = BlockFixtureChain(anchor: Point, entries: seq<BlockFixtureEntry>)

  type Store = map<Key, Bytes>

  function EntryKey(e: BlockFixtureEntry): Key {
    (e.slot, DecodeHexLossy(e.blockHash))
  }

  function BodyBytes(e: BlockFixtureEntry): Bytes {
    DecodeHexLossy(e.blockCborHex)
  }

  function StoredEntry(k: Key, body: Bytes): BlockFixtureEntry {
    BlockFixtureEntry(k.0, EncodeHex(k.1), EncodeHex(body))
  }

  lemma StoredEntryReadsBack(k: Key, body: Bytes)
    ensures EntryKey(StoredEntry(k, body)) == k && BodyBytes(StoredEntry(k, body)) == body
  {
    DecodeOfEncode(k.1);
    DecodeOfEncode(body);
  }

  function ListEntries(keys: seq<Key>, store: Store): (r: seq<BlockFixtureEntry>)
    requires forall k :: k in keys ==> k in store
    ensures |r| == |keys|
    ensures forall i :: 0 <= i < |keys| ==> r[i] == StoredEntry(keys[i], store[keys[i]])
  {
    if keys == [] then [] else [StoredEntry(keys[0], store[keys[0]])] + ListEntries(keys[1..], store)
  }

  /** A peer's block store as a fixture: one entry per key, in key order. */
  function FromBlockStore(store: Store): BlockFixtureChain {
    BlockFixtureChain(Origin, ListEntries(SortedKeys(store.Keys), store))
  }

  /** `position` of the first entry with this point. */
  function EntryIdxFrom(entries: seq<BlockFixtureEntry>, k: Key): (r: Option<nat>)
    ensures r.Some? ==> r.value < |entries| && EntryKey(entries[r.value]) == k
    ensures r.None? ==> forall i :: 0 <= i < |entries| ==> EntryKey(entries[i]) != k
    ensures r.Some? ==> forall i :: 0 <= i < r.value ==> EntryKey(entries[i]) != k
  {
    if entries == [] then None
    else if EntryKey(entries[0]) == k then Some(0)
    else match EntryIdxFrom(entries[1..], k)
      case Some(i) => Some(i + 1)
      case None => None
  }

  function FindEntryIdx(chain: BlockFixtureChain, point: Point): (r: Option<nat>)
    ensures r.Some? ==> r.value < |chain.entries|
  {
    match point
    case Origin => None
    case Specific(slot, hash) => EntryIdxFrom(chain.entries, (slot, hash))
  }

  function FindRange(chain: BlockFixtureChain, from: Point, to: Point): Option<seq<BlockFixtureEntry>> {
    match (FindEntryIdx(chain, from), FindEntryIdx(chain, to))
    case (Some(i), Some(j)) => if j < i then None else Some(chain.entries[i..j + 1])
    case _ => None
  }

  // ---- the map between two keys ----------------------------------------------------------

  ghost function KeysBetween(store: Store, a: Key, b: Key): set<Key> {
    set k | k in store && KeyLe(a, k) && KeyLe(k, b)
  }

  /** The simple answer: both end points stored and in order, then everything between. */
  ghost function StoredRange(store: Store, from: Point, to: Point): Option<seq<BlockFixtureEntry>> {
    if from.Origin? || to.Origin? then None
    else
      var a, b := (from.slot, from.hash), (to.slot, to.hash);
      if a in store && b in store && KeyLe(a, b)
      then Some(ListEntries(SortedKeys(KeysBetween(store, a, b)), store))
      else None
  }

  lemma IndexOfKey(store: Store, k: Key)
    ensures var r := EntryIdxFrom(FromBlockStore(store).entries, k);
      && (r.Some? <==> k in store)
      && (r.Some? ==> r.value < |SortedKeys(store.Keys)| && SortedKeys(store.Keys)[r.value] == k)
  {
    hide StoredEntry, EntryKey, SortedKeys, KeyLt;
    var keys := SortedKeys(store.Keys);
    forall i | 0 <= i < |keys| ensures EntryKey(FromBlockStore(store).entries[i]) == keys[i] {
      StoredEntryReadsBack(keys[i], store[keys[i]]);
    }
    assert k in keys <==> k in store;
  }

  /** A contiguous piece of a strictly sorted listing is the listing of what lies between
      its end points. */
  lemma SliceOfSorted(store: Store, i: nat, j: nat)
    requires i <= j < |SortedKeys(store.Keys)|
    ensures var keys := SortedKeys(store.Keys);
      keys[i..j + 1] == SortedKeys(KeysBetween(store, keys[i], keys[j]))
  {
    hide KeyLt, SortedKeys;
    KeyOrder();
    var keys := SortedKeys(store.Keys);
    var between := KeysBetween(store, keys[i], keys[j]);
    forall k ensures k in keys[i..j + 1] <==> k in between {
      if k in keys[i..j + 1] {
        var m :| i <= m <= j && keys[m] == k;
        assert k in keys;
      }
      if k in between {
        assert k in keys;
        var m :| 0 <= m < |keys| && keys[m] == k;
        assert i <= m <= j;
        assert keys[i..j + 1][m - i] == k;
      }
    }
    SortedKeysUnique(between, keys[i..j + 1]);
  }

  lemma {:induction false} ListSlice(keys: seq<Key>, store: Store, i: nat, j: nat)
    requires i <= j <= |keys| && forall k :: k in keys ==> k in store
    ensures ListEntries(keys, store)[i..j] == ListEntries(keys[i..j], store)
  {
    hide StoredEntry;
    assert forall m :: 0 <= m < j - i ==> keys[i..j][m] == keys[i + m];
  }

  lemma SortedIndexOrder(keys: seq<Key>, i: nat, j: nat)
    requires Sorted(keys, KeyLt) && i < |keys| && j < |keys|
    ensures i <= j <==> KeyLe(keys[i], keys[j])
  {
    hide KeyLt;
    KeyOrder();
  }

  lemma RangeByIndex(store: Store, i: nat, j: nat)
    requires i <= j < |SortedKeys(store.Keys)|
    ensures var keys := SortedKeys(store.Keys);
      FromBlockStore(store).entries[i..j + 1]
        == ListEntries(SortedKeys(KeysBetween(store, keys[i], keys[j])), store)
  {
    hide KeyLt, SortedKeys, StoredEntry;
    SliceOfSorted(store, i, j);
    ListSlice(SortedKeys(store.Keys), store, i, j + 1);
  }

  /** Range lookup in the list built from a store is lookup between two keys of the map. */
  lemma RangeAgreesWithStore(store: Store, from: Point, to: Point)
    ensures FindRange(FromBlockStore(store), from, to) == StoredRange(store, from, to)
  {
    hide KeyLt, KeyLe, SortedKeys, StoredEntry, EntryIdxFrom, FromBlockStore, ListEntries, KeysBetween;
    if from.Specific? && to.Specific? {
      var a, b := (from.slot, from.hash), (to.slot, to.hash);
      IndexOfKey(store, a);
      IndexOfKey(store, b);
      if a in store && b in store {
        var i := EntryIdxFrom(FromBlockStore(store).entries, a).value;
        var j := EntryIdxFrom(FromBlockStore(store).entries, b).value;
        SortedIndexOrder(SortedKeys(store.Keys), i, j);
        if i <= j {
          RangeByIndex(store, i, j);
        }
      }
    }
  }

  // ---- loading a fixture back ----------------------------------------------------------------

  /** `block_store.insert` for every entry in turn. */
  function ExtendStore(store: Store, entries: seq<BlockFixtureEntry>): Store {
    if entries == [] then store
    else
      var last := entries[|entries| - 1];
      ExtendStore(store, entries[..|entries| - 1])[EntryKey(last) := BodyBytes(last)]
  }

  ghost predicate Unnamed(entries: seq<BlockFixtureEntry>, from: nat, k: Key) {
    forall i :: from <= i < |entries| ==> EntryKey(entries[i]) != k
  }

  /** After loading, a key no entry names holds what it held before. */
  lemma {:induction false} ExtendKeeps(store: Store, entries: seq<BlockFixtureEntry>, k: Key)
    requires Unnamed(entries, 0, k)
    ensures var r := ExtendStore(store, entries);
      (k in r <==> k in store) && (k in r ==> r[k] == store[k])
  {
    hide EntryKey, BodyBytes;
    if entries != [] {
      ExtendKeeps(store, entries[..|entries| - 1], k);
      assert EntryKey(entries[|entries| - 1]) != k;
    }
  }

  /** And a key some entry names, the body of the last one that does. */
  lemma {:induction false} ExtendLastWins(store: Store, entries: seq<BlockFixtureEntry>, i: nat)
    requires i < |entries| && Unnamed(entries, i + 1, EntryKey(entries[i]))
    ensures var r, k := ExtendStore(store, entries), EntryKey(entries[i]);
      k in r && r[k] == BodyBytes(entries[i])
  {
    hide EntryKey, BodyBytes;
    if i + 1 < |entries| {
      ExtendLastWins(store, entries[..|entries| - 1], i);
      assert EntryKey(entries[|entries| - 1]) != EntryKey(entries[i]);
    }
  }

  /** In any fixture, sorted or not: a range is found exactly when both points name entries and
      the first entry for `from` does not come after the first for `to`; it then runs from
      the one to the other. */
  lemma RangeFound(chain: BlockFixtureChain, from: Point, to: Point)
    ensures match FindRange(chain, from, to)
      case Some(r) => exists i, j :: IsRange(chain.entries, from, to, i, j) && r == chain.entries[i..j + 1]
      case None => !exists i, j :: IsRange(chain.entries, from, to, i, j)
  {
    hide EntryKey;
    if FindRange(chain, from, to).Some? {
      var i, j := FindEntryIdx(chain, from).value, FindEntryIdx(chain, to).value;
      assert IsRange(chain.entries, from, to, i, j);
    }
  }

  ghost predicate FirstNamed(entries: seq<BlockFixtureEntry>, i: int, p: Point) {
    && 0 <= i < |entries| && p.Specific?
    && EntryKey(entries[i]) == (p.slot, p.hash)
    && forall m :: 0 <= m < i ==> EntryKey(entries[m]) != (p.slot, p.hash)
  }

  ghost predicate IsRange(entries: seq<BlockFixtureEntry>, from: Point, to: Point, i: int, j: int) {
    i <= j && FirstNamed(entries, i, from) && FirstNamed(entries, j, to)
  }

  lemma {:induction false} ExtendWithListed(keys: seq<Key>, store: Store, k: Key)
    requires forall x :: x in keys ==> x in store
    ensures var r := ExtendStore(map[], ListEntries(keys, store));
      (k in r <==> k in keys) && (k in keys ==> r[k] == store[k])
  {
    hide StoredEntry, EntryKey, BodyBytes, ListEntries;
    if keys == [] {
      assert ListEntries(keys, store) == [];
    } else {
      var n, all := |keys| - 1, ListEntries(keys, store);
      ListSlice(keys, store, 0, n);
      assert keys[0..n] == keys[..n] && all[0..n] == all[..n];
      ExtendWithListed(keys[..n], store, k);
      assert all[n] == StoredEntry(keys[n], store[keys[n]]);
      StoredEntryReadsBack(keys[n], store[keys[n]]);
      assert keys == keys[..n] + [keys[n]];
    }
  }

  /** A store written out as a fixture and loaded into an empty peer is the same store. */
  lemma StoreRoundTrip(store: Store)
    ensures ExtendStore(map[], FromBlockStore(store).entries) == store
  {
    var r := ExtendStore(map[], FromBlockStore(store).entries);
    forall k: Key ensures (k in r <==> k in store) && (k in store ==> r[k] == store[k]) {
      ExtendWithListed(SortedKeys(store.Keys), store, k);
    }
  }
}
