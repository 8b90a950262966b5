/** The exact-match cache: one Redis hash from keys to encoded responses. */
module L1Cache {
  import opened CacheTypes
  import opened Listings
  import opened Options

  /** The operations that decide what a key may hold. */
  datatype Op = Set(key: CacheKey, value: Json) | Delete(key: CacheKey) | Clear

  /** The value last set for the key and not deleted or cleared since. */
  function Latest(history: seq<Op>, key: CacheKey): Option<Json> {
    if history == [] then None
    else
      var last := history[|history| - 1];
      match last
      case Set(k, value) => if k == key then Some(value) else Latest(history[..|history| - 1], key)
      case Delete(k) => if k == key then None else Latest(history[..|history| - 1], key)
      case Clear => None
  }

  lemma LatestOneMore(history: seq<Op>, op: Op)
    ensures (history + [op])[..|history|] == history
  {
  }

  function EvictCount(n: int): int {
    if n / 10 < 1 then 1 else n / 10
  }

  /** After a write: the new value, and all other entries but those that a full cache gave up. */
  ghost predicate IsWritten(before: map<CacheKey, Json>, maxSize: int, key: CacheKey, value: Json,
                            after: map<CacheKey, Json>) {
    exists kept: map<CacheKey, Json> ::
      && kept.Keys <= before.Keys && (forall k :: k in kept ==> kept[k] == before[k])
      && |kept| == |before| - (if 0 < maxSize <= |before| then EvictCount(|before|) else 0)
      && after == kept[key := value]
  }

  lemma SameSizeSameMap(before: map<CacheKey, Json>, kept: map<CacheKey, Json>)
    requires kept.Keys <= before.Keys && |kept| == |before| && forall k :: k in kept ==> kept[k] == before[k]
    ensures kept == before
  {
    assert before.Keys == kept.Keys + (before.Keys - kept.Keys);
    assert |before.Keys - kept.Keys| == 0;
  }

  lemma WriteGrowsByOne(kept: map<CacheKey, Json>, key: CacheKey, value: Json)
    ensures |kept[key := value]| <= |kept| + 1
  {
    assert kept[key := value].Keys == kept.Keys + {key};
  }

  /** So nothing is lost while there is room, and the cache stays within its size. */
  lemma WrittenKeeps(before: map<CacheKey, Json>, maxSize: int, key: CacheKey, value: Json, after: map<CacheKey, Json>)
    requires IsWritten(before, maxSize, key, value, after)
    ensures key in after && after[key] == value
    ensures forall k :: k in after && k != key ==> k in before && after[k] == before[k]
    ensures maxSize <= 0 || |before| < maxSize ==> after == before[key := value]
    ensures 0 < maxSize && |before| <= maxSize ==> |after| <= maxSize
  {
    var kept: map<CacheKey, Json> :|
      && kept.Keys <= before.Keys && (forall k :: k in kept ==> kept[k] == before[k])
      && |kept| == |before| - (if 0 < maxSize <= |before| then EvictCount(|before|) else 0)
      && after == kept[key := value];
    if maxSize <= 0 || |before| < maxSize {
      SameSizeSameMap(before, kept);
    }
    WriteGrowsByOne(kept, key, value);
  }

  class L1Cache {
    const enabled: bool
    const maxSize: int
    var hash: map<CacheKey, Json>
    ghost var history: seq<Op>

    /** Whatever the hash holds is the latest value set for its key. */
    ghost predicate Valid()
      reads this
    {
      forall key :: key in hash ==> Latest(history, key) == Some(hash[key])
    }

    /** `enabled` says whether there is a Redis client. */
    constructor (enabled: bool, maxSize: int)
      ensures Valid() && hash == map[] && history == []
      ensures this.enabled == enabled && this.maxSize == maxSize
    {
      this.enabled, this.maxSize, hash, history := enabled, maxSize, map[], [];
    }

    /** A hit is the latest value set for the key; a key never set, deleted or cleared is a miss. */
    method Get(key: CacheKey) returns (value: Option<Json>)
      requires Valid()
      ensures value == if enabled && key in hash then Some(hash[key]) else None
      ensures value.Some? ==> value == Latest(history, key)
    {
      if !enabled {
        return None;
      }
      return if key in hash then Some(hash[key]) else None;
    }

    method Set(key: CacheKey, value: Json)
      requires Valid()
      modifies this
      ensures Valid()
      ensures !enabled ==> hash == old(hash) && history == old(history)
      ensures enabled ==>
        && history == old(history) + [Op.Set(key, value)]
        && IsWritten(old(hash), maxSize, key, value, hash)
        && key in hash && hash[key] == value
        && (forall k :: k in hash && k != key ==> k in old(hash) && hash[k] == old(hash)[k])
        && (maxSize <= 0 || |old(hash)| < maxSize ==> hash == old(hash)[key := value])
        && (0 < maxSize && |old(hash)| <= maxSize ==> |hash| <= maxSize)
    {
      if !enabled {
        return;
      }
      ghost var before := hash;
      EvictIfNeeded();
      ghost var kept := hash;
      Write(key, value);
      assert kept.Keys <= before.Keys && hash == kept[key := value];
      WrittenKeeps(before, maxSize, key, value, hash);
    }

    /** The write itself, which does not look at the size again. */
    method Write(key: CacheKey, value: Json)
      requires Valid()
      modifies this
      ensures Valid() && hash == old(hash)[key := value] && history == old(history) + [Op.Set(key, value)]
    {
      LatestOneMore(history, Op.Set(key, value));
      hash, history := hash[key := value], history + [Op.Set(key, value)];
    }

    method Delete(key: CacheKey)
      requires Valid()
      modifies this
      ensures Valid()
      ensures enabled ==> hash == old(hash) - {key} && history == old(history) + [Op.Delete(key)]
      ensures !enabled ==> hash == old(hash) && history == old(history)
    {
      if enabled {
        LatestOneMore(history, Op.Delete(key));
        hash, history := hash - {key}, history + [Op.Delete(key)];
      }
    }

    method Clear()
      requires Valid()
      modifies this
      ensures Valid()
      ensures enabled ==> hash == map[] && history == old(history) + [Op.Clear]
      ensures !enabled ==> hash == old(hash) && history == old(history)
    {
      if enabled {
        hash, history := map[], history + [Op.Clear];
      }
    }

    /** The hash's time to live runs out. */
    method Lapse()
      requires Valid()
      modifies this`hash
      ensures Valid() && hash == map[]
    {
      hash := map[];
    }

    /** A full cache loses a tenth of its entries, at least one. */
    method EvictIfNeeded()
      modifies this`hash
      ensures maxSize <= 0 || |old(hash)| < maxSize ==> hash == old(hash)
      ensures 0 < maxSize <= |old(hash)| ==>
        && hash.Keys <= old(hash).Keys && (forall k :: k in hash ==> hash[k] == old(hash)[k])
        && |hash| == |old(hash)| - EvictCount(|old(hash)|) < |old(hash)|
        && var gone := |old(hash)| - |hash|;
        if |old(hash)| < 10 then gone == 1 else 10 * gone <= |old(hash)| < 10 * gone + 10
    {
      if maxSize <= 0 {
        return;
      }
      var count := |hash|;
      if count >= maxSize {
        var keys := Listing(hash.Keys);
        var deleteCount := |keys| / 10;
        if deleteCount < 1 {
          deleteCount := 1;
        }
        ghost var before := hash;
        var i := 0;
        while i < deleteCount && i < |keys|
          invariant 0 <= i <= deleteCount && i <= |keys|
          invariant forall j :: i <= j < |keys| ==> keys[j] in hash
          invariant forall k :: k in hash ==> k in before && hash[k] == before[k]
          invariant |hash| == |before| - i
          decreases |keys| - i
        {
          ghost var held := hash.Keys;
          hash := hash - {keys[i]};
          assert hash.Keys == held - {keys[i]};
          i := i + 1;
        }
      }
    }
  }

  /** Writers that all check the size before any of them writes: the cache ends up with all their entries. */
  method OverlappingSets(cache: L1Cache, keys: seq<CacheKey>, value: Json)
    requires cache.Valid() && cache.hash == map[]
    requires forall i, j :: 0 <= i < j < |keys| ==> keys[i] != keys[j]
    modifies cache
    ensures cache.Valid() && |cache.hash| == |keys| && forall key :: key in keys ==> key in cache.hash
  {
    for n := 0 to |keys|
      invariant cache.Valid() && cache.hash == map[]
    {
      cache.EvictIfNeeded();
    }
    for n := 0 to |keys|
      invariant cache.Valid() && |cache.hash| == n
      invariant forall i :: 0 <= i < |keys| ==> (keys[i] in cache.hash <==> i < n)
    {
      cache.Write(keys[n], value);
    }
  }
}
