/**
 * The versioned API-key cache (app/core/auth/api_key_cache.py).  The clock is an argument.  The
 * program's dictionary keeps the order in which its keys came, which decides between equally old
 * entries; `order` is that order.
 */
module ApiKeyCache {
  import opened Wrappers

  datatype Entry<+V> = Entry(data: V, expiresAt: real)

  type Entries<V> = map<string, Entry<V>>

  ghost predicate OrderOf<V>(entries: Entries<V>, order: seq<string>) {
    && (forall k :: k in order <==> k in entries)
    && (forall i, j :: 0 <= i < j < |order| ==> order[i] != order[j])
  }

  /** Of the earliest to expire, the one that came first. */
  ghost predicate IsOldest<V>(entries: Entries<V>, order: seq<string>, key: string) {
    exists n :: 0 <= n < |order| && order[n] == key && OldestAt(entries, order, n)
  }

  ghost predicate OldestAt<V>(entries: Entries<V>, order: seq<string>, n: nat)
    requires n < |order|
  {
    && (forall i :: 0 <= i < |order| ==> order[i] in entries)
    && (forall i :: 0 <= i < n ==> entries[order[n]].expiresAt < entries[order[i]].expiresAt)
    && (forall i :: n <= i < |order| ==> entries[order[n]].expiresAt <= entries[order[i]].expiresAt)
  }

  function Without(order: seq<string>, key: string): seq<string> {
    if order == [] then [] else (if order[0] == key then [] else [order[0]]) + Without(order[1..], key)
  }

  function With(order: seq<string>, key: string): seq<string> {
    if key in order then order else order + [key]
  }

  lemma {:induction false} WithoutMembers(order: seq<string>, key: string)
    ensures forall k :: k in Without(order, key) <==> k in order && k != key
    ensures (forall i, j :: 0 <= i < j < |order| ==> order[i] != order[j]) ==>
              forall i, j :: 0 <= i < j < |Without(order, key)| ==> Without(order, key)[i] != Without(order, key)[j]
  {
    if order != [] {
      assert order == [order[0]] + order[1..];
      WithoutMembers(order[1..], key);
      var rest := Without(order[1..], key);
      assert forall i :: 0 <= i < |rest| ==> rest[i] in rest;
      assert forall k :: k in order[1..] ==> exists i :: 0 < i < |order| && order[i] == k;
    }
  }

  /** `after` is `before` with the entry stored, the oldest entry having made room when full. */
  ghost predicate Stored<V>(before: Entries<V>, was: seq<string>, after: Entries<V>, order: seq<string>, maxEntries: int,
                            key: string, entry: Entry<V>) {
    if |before| >= maxEntries
    then exists oldest :: IsOldest(before, was, oldest) && after == (before - {oldest})[key := entry]
                          && order == With(Without(was, oldest), key)
    else after == before[key := entry] && order == With(was, key)
  }

  lemma StoredInPlaceOf<V>(before: Entries<V>, was: seq<string>, maxEntries: int, oldest: string, key: string, entry: Entry<V>)
    requires |before| >= maxEntries && IsOldest(before, was, oldest)
    ensures Stored(before, was, (before - {oldest})[key := entry], With(Without(was, oldest), key), maxEntries, key, entry)
  {
  }

  class Cache<V(==)> {
    var entries: Entries<V>
    var order: seq<string>
    var version: nat
    const ttl: real
    const maxEntries: int

    ghost predicate Valid()
      reads this
    {
      OrderOf(entries, order) && (maxEntries >= 1 ==> |entries| <= maxEntries)
    }

    constructor (ttl: real, maxEntries: int)
      ensures Valid() && entries == map[] && version == 0 && this.ttl == ttl && this.maxEntries == maxEntries
    {
      this.ttl, this.maxEntries := ttl, maxEntries;
      entries, order, version := map[], [], 0;
    }

    method Get(key: string, now: real) returns (data: Option<V>)
      ensures data.Some? <==> key in entries && now < entries[key].expiresAt
      ensures data.Some? ==> data.value == entries[key].data
    {
      if key in entries && now < entries[key].expiresAt {
        return Some(entries[key].data);
      }
      data := None;
    }

    /** `min` over the keys by expiry. */
    method Oldest() returns (oldest: string)
      requires Valid() && order != []
      ensures IsOldest(entries, order, oldest)
    {
      var n := 0;
      for k := 1 to |order|
        invariant n < k
        invariant OldestAt(entries, order[..k], n)
      {
        if entries[order[k]].expiresAt < entries[order[n]].expiresAt {
          n := k;
        }
      }
      assert order[..|order|] == order;
      oldest := order[n];
    }

    method EvictOldest() returns (oldest: string)
      requires Valid() && order != []
      modifies this
      ensures IsOldest(old(entries), old(order), oldest)
      ensures entries == old(entries) - {oldest} && order == Without(old(order), oldest)
      ensures OrderOf(entries, order) && |entries| == |old(entries)| - 1 && version == old(version)
    {
      oldest := Oldest();
      WithoutMembers(order, oldest);
      assert oldest in entries;
      entries, order := entries - {oldest}, Without(order, oldest);
    }

    method Put(key: string, entry: Entry<V>)
      requires OrderOf(entries, order)
      modifies this
      ensures entries == old(entries)[key := entry] && order == With(old(order), key)
      ensures OrderOf(entries, order) && |entries| <= |old(entries)| + 1 && version == old(version)
    {
      entries, order := entries[key := entry], With(order, key);
    }

    /** A set made for another version is dropped.  Raises only when there is nothing to evict,
        with a capacity below one. */
    method Set(key: string, data: V, ifVersion: Option<nat>, now: real) returns (raised: bool)
      requires Valid()
      modifies this
      ensures Valid() && version == old(version)
      ensures var dropped := ifVersion.Some? && ifVersion.value != version;
              && (raised <==> !dropped && old(entries) == map[] && maxEntries <= 0)
              && if dropped || raised then entries == old(entries) && order == old(order)
                 else Stored(old(entries), old(order), entries, order, maxEntries, key, Entry(data, now + ttl))
    {
      if ifVersion.Some? && ifVersion.value != version {
        return false;
      }
      if |entries| >= maxEntries {
        if order == [] {
          assert entries == map[];
          return true;
        }
        var oldest := EvictOldest();
        StoredInPlaceOf(old(entries), old(order), maxEntries, oldest, key, Entry(data, now + ttl));
      }
      Put(key, Entry(data, now + ttl));
      raised := false;
    }

    method Invalidate(key: string)
      requires Valid()
      modifies this
      ensures Valid() && version == old(version) + 1
      ensures entries == old(entries) - {key} && order == Without(old(order), key)
    {
      WithoutMembers(order, key);
      entries, order := entries - {key}, Without(order, key);
      version := version + 1;
    }

    method Clear()
      modifies this
      ensures Valid() && version == old(version) + 1 && entries == map[] && order == []
    {
      entries, order := map[], [];
      version := version + 1;
    }
  }
}
