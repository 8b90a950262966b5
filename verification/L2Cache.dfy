/** The semantic cache: encoded responses found by the similarity of their embedding vectors. */
module L2Cache {
  import opened CacheTypes
  import opened Listings
  import opened Options
  import opened Vectors

  datatype VectorEntry = VectorEntry(vector: seq<real>, response: Json, model: string, created: int)

  /** What Redis holds under a key of the cache: an entry, or something that cannot be read as one. */
  datatype Data = Entry(entry: VectorEntry) | Unreadable

  type Store = map<CacheKey, Data>

  datatype SearchResult = SearchResult(response: Json, similarity: real, key: CacheKey)

  datatype StoreOutcome = Skipped | Stored | Panicked

  // ---------- Best match ----------

  /** The entry under the key is readable, of the right model, and similar enough to the query. */
  ghost predicate Eligible(sqrt: real -> real, threshold: real, store: Store, query: seq<real>, model: string,
                           key: CacheKey)
    requires IsSqrt(sqrt)
  {
    && key in store && store[key].Entry?
    && (model == "" || store[key].entry.model == model)
    && Cosine(sqrt, query, store[key].entry.vector) >= threshold
  }

  ghost predicate IsHit(sqrt: real -> real, threshold: real, store: Store, query: seq<real>, model: string,
                        hit: SearchResult)
    requires IsSqrt(sqrt)
  {
    && Eligible(sqrt, threshold, store, query, model, hit.key)
    && hit.response == store[hit.key].entry.response
    && hit.similarity == Cosine(sqrt, query, store[hit.key].entry.vector)
  }

  /** Nothing is returned only if nothing is eligible; otherwise a most similar eligible entry is. */
  ghost predicate IsBestMatch(sqrt: real -> real, threshold: real, store: Store, query: seq<real>, model: string,
                              best: Option<SearchResult>)
    requires IsSqrt(sqrt)
  {
    && (best.None? <==> forall key :: !Eligible(sqrt, threshold, store, query, model, key))
    && (best.Some? ==>
          && IsHit(sqrt, threshold, store, query, model, best.value)
          && forall key :: Eligible(sqrt, threshold, store, query, model, key) ==>
               Cosine(sqrt, query, store[key].entry.vector) <= best.value.similarity)
  }

  /** The same among the first `n` keys. */
  ghost predicate IsBestAmong(sqrt: real -> real, threshold: real, store: Store, query: seq<real>, model: string,
                              keys: seq<CacheKey>, n: nat, best: Option<SearchResult>)
    requires IsSqrt(sqrt) && n <= |keys|
  {
    && (best.None? <==> forall j: nat :: j < n ==> !Eligible(sqrt, threshold, store, query, model, keys[j]))
    && (best.Some? ==>
          && IsHit(sqrt, threshold, store, query, model, best.value)
          && forall j: nat :: j < n && Eligible(sqrt, threshold, store, query, model, keys[j]) ==>
               Cosine(sqrt, query, store[keys[j]].entry.vector) <= best.value.similarity)
  }

  /** One more key is passed over, or is the new best. */
  lemma BestOneMore(sqrt: real -> real, threshold: real, store: Store, query: seq<real>, model: string,
                    keys: seq<CacheKey>, n: nat, best: Option<SearchResult>)
    requires IsSqrt(sqrt) && n < |keys| && IsBestAmong(sqrt, threshold, store, query, model, keys, n, best)
    ensures
      if Eligible(sqrt, threshold, store, query, model, keys[n]) then
        var entry := store[keys[n]].entry;
        var similarity := Cosine(sqrt, query, entry.vector);
        var next := if best.None? || similarity > best.value.similarity
                    then Some(SearchResult(entry.response, similarity, keys[n])) else best;
        IsBestAmong(sqrt, threshold, store, query, model, keys, n + 1, next)
      else
        IsBestAmong(sqrt, threshold, store, query, model, keys, n + 1, best)
  {
  }

  /** Among all keys of the store the best is the best there is. */
  lemma BestOfAll(sqrt: real -> real, threshold: real, store: Store, query: seq<real>, model: string,
                  keys: seq<CacheKey>, best: Option<SearchResult>)
    requires IsSqrt(sqrt) && IsBestAmong(sqrt, threshold, store, query, model, keys, |keys|, best)
    requires forall key :: key in store ==> key in keys
    ensures IsBestMatch(sqrt, threshold, store, query, model, best)
  {
    forall key | Eligible(sqrt, threshold, store, query, model, key)
      ensures best.Some? && Cosine(sqrt, query, store[key].entry.vector) <= best.value.similarity
    {
      var j: nat :| j < |keys| && keys[j] == key;
    }
  }

  /** The keys whose entries can be read. */
  function ReadableKeys(store: Store): set<CacheKey> {
    set key | key in store && store[key].Entry?
  }

  /** A tenth of the entries that can be read, rounded down, but at least one. */
  function EvictCount(readable: nat): (count: nat)
    ensures if readable < 10 then count == 1 else 10 * count <= readable < 10 * count + 10
  {
    if readable / 10 < 1 then 1 else readable / 10
  }

  /** Of the entries that were read, the right number goes, none newer than any of them that stays. */
  ghost predicate IsEviction(store: Store, read: set<CacheKey>, deleted: set<CacheKey>) {
    && deleted <= read <= ReadableKeys(store)
    && |deleted| == EvictCount(|read|)
    && forall gone, kept :: gone in deleted && kept in read - deleted ==>
         store[gone].entry.created <= store[kept].entry.created
  }

  predicate IsFull(store: Store, maxSize: int) {
    0 < maxSize <= |store|
  }

  datatype Stamped = Stamped(key: CacheKey, created: int)

  ghost predicate SortedByCreation(entries: seq<Stamped>) {
    forall i, j :: 0 <= i < j < |entries| ==> entries[i].created <= entries[j].created
  }

  lemma {:induction false} OldestExists(entries: seq<Stamped>) returns (i: nat)
    requires entries != []
    ensures i < |entries| && forall j :: 0 <= j < |entries| ==> entries[i].created <= entries[j].created
  {
    i := 0;
    if |entries| > 1 {
      var k := OldestExists(entries[1..]);
      i := if entries[k + 1].created < entries[0].created then k + 1 else 0;
      assert forall j :: 0 < j < |entries| ==> entries[j] == entries[1..][j - 1];
    }
  }

  /** The entries moved so far are in order, and none is newer than one that is left. */
  ghost predicate PartlySorted(sorted: seq<Stamped>, left: seq<Stamped>) {
    && SortedByCreation(sorted)
    && forall i, j :: 0 <= i < |sorted| && 0 <= j < |left| ==> sorted[i].created <= left[j].created
  }

  lemma MoveOldest(sorted: seq<Stamped>, left: seq<Stamped>, i: nat)
    requires PartlySorted(sorted, left) && i < |left|
    requires forall j :: 0 <= j < |left| ==> left[i].created <= left[j].created
    ensures PartlySorted(sorted + [left[i]], left[..i] + left[i + 1..])
  {
  }

  lemma MoveKeepsAll(left: seq<Stamped>, i: nat)
    requires i < |left|
    ensures multiset(left) == multiset{left[i]} + multiset(left[..i] + left[i + 1..])
  {
    assert left == left[..i] + [left[i]] + left[i + 1..];
  }

  /** Any order by creation time, ties in whichever way. */
  method SortByCreation(entries: seq<Stamped>) returns (sorted: seq<Stamped>)
    ensures multiset(sorted) == multiset(entries)
    ensures SortedByCreation(sorted)
  {
    sorted := [];
    var left := entries;
    while left != []
      invariant multiset(sorted) + multiset(left) == multiset(entries)
      invariant PartlySorted(sorted, left)
      decreases |left|
    {
      var oldest := OldestExists(left);
      var i :| 0 <= i < |left| && forall j :: 0 <= j < |left| ==> left[i].created <= left[j].created;
      MoveOldest(sorted, left, i);
      MoveKeepsAll(left, i);
      sorted, left := sorted + [left[i]], left[..i] + left[i + 1..];
    }
  }

  function KeySet(entries: seq<Stamped>): set<CacheKey> {
    set x | x in entries :: x.key
  }

  lemma {:induction false} KeySetSize(entries: seq<Stamped>)
    ensures |KeySet(entries)| <= |entries|
  {
    if entries != [] {
      var init, last := entries[..|entries| - 1], entries[|entries| - 1];
      KeySetSize(init);
      assert entries == init + [last];
      assert KeySet(entries) == KeySet(init) + {last.key};
    }
  }

  lemma PrefixKeepsKeysDistinct(entries: seq<Stamped>, n: nat)
    requires |KeySet(entries)| == |entries| && n <= |entries|
    ensures |KeySet(entries[..n])| == n
  {
    KeySetSize(entries[..n]);
    KeySetSize(entries[n..]);
    assert entries == entries[..n] + entries[n..];
    assert KeySet(entries) == KeySet(entries[..n]) + KeySet(entries[n..]);
  }

  /** The entries are those that were read, each once, with their creation times. */
  ghost predicate StampsOf(store: Store, read: set<CacheKey>, entries: seq<Stamped>) {
    && KeySet(entries) == read <= ReadableKeys(store) && |read| == |entries|
    && forall x :: x in entries ==> x.key in read && x.created == store[x.key].entry.created
  }

  lemma StampsPermute(store: Store, read: set<CacheKey>, entries: seq<Stamped>, sorted: seq<Stamped>)
    requires StampsOf(store, read, entries) && multiset(sorted) == multiset(entries)
    ensures StampsOf(store, read, sorted)
  {
    assert |multiset(sorted)| == |sorted| && |multiset(entries)| == |entries|;
    forall x
      ensures x in sorted <==> x in entries
    {
      assert x in sorted <==> x in multiset(sorted);
      assert x in entries <==> x in multiset(entries);
    }
    assert KeySet(sorted) == KeySet(entries);
  }

  lemma OldestPrefixIsEviction(store: Store, read: set<CacheKey>, sorted: seq<Stamped>, n: nat)
    requires StampsOf(store, read, sorted) && SortedByCreation(sorted)
    requires sorted != [] && n == EvictCount(|sorted|)
    ensures n <= |sorted| && IsEviction(store, read, KeySet(sorted[..n]))
  {
    PrefixKeepsKeysDistinct(sorted, n);
    var deleted := KeySet(sorted[..n]);
    assert forall k :: 0 <= k < n ==> sorted[k] in sorted[..n] && sorted[k].key in deleted;
    forall gone, kept | gone in deleted && kept in read - deleted
      ensures store[gone].entry.created <= store[kept].entry.created
    {
      var i :| 0 <= i < n && sorted[i].key == gone;
      var y :| y in sorted && y.key == kept;
      var j :| 0 <= j < |sorted| && sorted[j] == y;
      assert sorted[i] in sorted;
    }
  }

  lemma LapseShrinks(store: Store, lapsed: set<CacheKey>)
    ensures |store - lapsed| <= |store|
  {
    assert (store - lapsed).Keys == store.Keys - lapsed;
    assert store.Keys == (store.Keys - lapsed) + (store.Keys * lapsed);
  }

  /** The store after an entry went in: room was made if the cache was full, and nothing else changed. */
  ghost predicate IsStored(before: Store, maxSize: int, answering: set<CacheKey>, key: CacheKey, data: Data,
                           after: Store) {
    exists deleted ::
      && (if IsFull(before, maxSize) then IsEviction(before, ReadableKeys(before) * answering, deleted)
          else deleted == {})
      && after == (before - deleted)[key := data]
  }

  class L2Cache {
    const enabled: bool
    const similarityThreshold: real
    const maxSize: int
    var store: Store

    constructor (enabled: bool, similarityThreshold: real, maxSize: int)
      ensures store == map[] && this.enabled == enabled
      ensures this.similarityThreshold == similarityThreshold && this.maxSize == maxSize
    {
      this.enabled, this.similarityThreshold, this.maxSize, store := enabled, similarityThreshold, maxSize, map[];
    }

    /** Entries whose time to live runs out. */
    method Lapse(lapsed: set<CacheKey>)
      modifies this
      ensures store == old(store) - lapsed && |store| <= |old(store)|
    {
      LapseShrinks(store, lapsed);
      store := store - lapsed;
    }

    method Search(sqrt: real -> real, query: seq<real>, model: string) returns (best: Option<SearchResult>)
      requires IsSqrt(sqrt)
      ensures enabled ==> IsBestMatch(sqrt, similarityThreshold, store, query, model, best)
      ensures !enabled ==> best == None
    {
      if !enabled {
        return None;
      }
      var keys := Listing(store.Keys);
      best := None;
      for i := 0 to |keys|
        invariant IsBestAmong(sqrt, similarityThreshold, store, query, model, keys, i, best)
      {
        BestOneMore(sqrt, similarityThreshold, store, query, model, keys, i, best);
        var data := store[keys[i]];
        if data.Unreadable? {
          continue;
        }
        var entry := data.entry;
        if model != "" && entry.model != model {
          continue;
        }
        var similarity := CosineSimilarity(sqrt, query, entry.vector);
        if similarity >= similarityThreshold {
          if best.None? || similarity > best.value.similarity {
            best := Some(SearchResult(entry.response, similarity, keys[i]));
          }
        }
      }
      BestOfAll(sqrt, similarityThreshold, store, query, model, keys, best);
    }

    /**
     * Stores the entry after making room. Room is made in steps: the keys are listed, then read one by one, and an
     * entry that lapses in between, or whose read fails, does not answer. If none does, making room panics.
     */
    method Store(key: CacheKey, vector: seq<real>, response: Json, model: string, now: int, answering: set<CacheKey>)
      returns (outcome: StoreOutcome)
      modifies this
      ensures outcome.Skipped? <==> !enabled
      ensures outcome.Panicked? <==>
        enabled && IsFull(old(store), maxSize) && ReadableKeys(old(store)) * answering == {}
      ensures !outcome.Stored? ==> store == old(store)
      ensures maxSize <= 0 || |old(store)| < maxSize ==>
        store == if enabled then old(store)[key := Entry(VectorEntry(vector, response, model, now))] else old(store)
      ensures outcome.Stored? ==>
        IsStored(old(store), maxSize, answering, key, Entry(VectorEntry(vector, response, model, now)), store)
    {
      if !enabled {
        return Skipped;
      }
      var evicted, deleted := EvictIfNeeded(answering);
      if !evicted {
        return Panicked;
      }
      store := store[key := Entry(VectorEntry(vector, response, model, now))];
      return Stored;
    }

    /** A full cache loses a tenth of the entries it could read, at least one, oldest first, or panics on none. */
    method EvictIfNeeded(answering: set<CacheKey>) returns (ok: bool, ghost deleted: set<CacheKey>)
      modifies this
      ensures !ok <==> IsFull(old(store), maxSize) && ReadableKeys(old(store)) * answering == {}
      ensures
        if IsFull(old(store), maxSize) && ok then
          IsEviction(old(store), ReadableKeys(old(store)) * answering, deleted)
        else deleted == {}
      ensures store == old(store) - deleted
    {
      deleted := {};
      if maxSize <= 0 {
        return true, deleted;
      }
      var keys := Listing(store.Keys);
      if |keys| >= maxSize {
        ghost var read := ReadableKeys(store) * answering;
        var entries := ReadStamps(keys, answering);
        var sorted := SortByCreation(entries);
        StampsPermute(store, read, entries, sorted);
        var deleteCount := |sorted| / 10;
        if deleteCount < 1 {
          deleteCount := 1;
        }
        if deleteCount > |sorted| {
          return false, deleted;
        }
        OldestPrefixIsEviction(store, read, sorted, deleteCount);
        deleted := KeySet(sorted[..deleteCount]);
        store := store - KeySet(sorted[..deleteCount]);
      }
      return true, deleted;
    }

    method ReadStamps(keys: seq<CacheKey>, answering: set<CacheKey>) returns (entries: seq<Stamped>)
      requires forall k :: k in store <==> k in keys
      requires forall i, j :: 0 <= i < j < |keys| ==> keys[i] != keys[j]
      ensures StampsOf(store, ReadableKeys(store) * answering, entries)
    {
      entries := [];
      ghost var read := ReadableKeys(store) * answering;
      for i := 0 to |keys|
        invariant forall x :: x in entries ==> x.key in keys[..i]
        invariant forall x :: x in entries ==> x.key in read && x.created == store[x.key].entry.created
        invariant forall k :: k in keys[..i] && k in read ==> k in KeySet(entries)
        invariant |KeySet(entries)| == |entries|
      {
        assert keys[..i + 1] == keys[..i] + [keys[i]];
        if keys[i] !in answering {
          continue;
        }
        var data := store[keys[i]];
        if data.Entry? {
          var stamp := Stamped(keys[i], data.entry.created);
          assert keys[i] !in KeySet(entries);
          assert KeySet(entries + [stamp]) == KeySet(entries) + {keys[i]};
          entries := entries + [stamp];
        }
      }
      assert keys[..|keys|] == keys;
      assert KeySet(entries) == read;
    }
  }

  /** A cache within its size stays within it. */
  lemma StoreKeepsSize(before: Store, maxSize: int, answering: set<CacheKey>, key: CacheKey, data: Data, after: Store)
    requires IsStored(before, maxSize, answering, key, data, after)
    requires 0 < maxSize && |before| <= maxSize
    ensures |after| <= maxSize
  {
  }

  /**
   * Searching for the vector and model just stored hits exactly when the threshold admits a perfect match, and
   * then with similarity one, whatever else the cache holds.
   */
  lemma SearchAfterStoreHits(sqrt: real -> real, threshold: real, before: Store, maxSize: int,
                             answering: set<CacheKey>, key: CacheKey, entry: VectorEntry, after: Store,
                             best: Option<SearchResult>)
    requires IsSqrt(sqrt) && NormSquared(entry.vector) != 0.0
    requires IsStored(before, maxSize, answering, key, Entry(entry), after)
    requires IsBestMatch(sqrt, threshold, after, entry.vector, entry.model, best)
    ensures best.Some? <==> threshold <= 1.0
    ensures best.Some? ==> best.value.similarity == 1.0
  {
    CosineOfSelf(sqrt, entry.vector);
    if threshold <= 1.0 {
      assert Eligible(sqrt, threshold, after, entry.vector, entry.model, key);
    }
    if best.Some? {
      CosineIsBounded(sqrt, entry.vector, after[best.value.key].entry.vector);
    }
  }
}
