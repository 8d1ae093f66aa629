/** The in-memory cache with time-to-live, and the layers that put a prefix before its keys. */
module Caches {
  import opened Keys
  import opened Options

  /** Readings of the monotonic clock, in nanoseconds. */
  type Time = int

  function Seconds(n: nat): nat { n * 1_000_000_000 }

  datatype Entry = Entry(data: seq<bv8>, expiresAt: Option<Time>)

  type Entries = map<string, Entry>

  predicate Expired(entry: Entry, now: Time) { entry.expiresAt.Some? && entry.expiresAt.value <= now }

  function NewEntry(data: seq<bv8>, ttlSecs: nat, now: Time): Entry {
    Entry(data, if ttlSecs > 0 then Some(now + Seconds(ttlSecs)) else None)
  }

  /** What a key holds now, if it holds anything unexpired. */
  function Live(entries: Entries, key: string, now: Time): Option<seq<bv8>> {
    if key in entries && !Expired(entries[key], now) then Some(entries[key].data) else None
  }

  /** A write holds its data for as many seconds as it asks for, and for ever when it asks for none. */
  lemma WriteLivesExactly(entries: Entries, key: string, data: seq<bv8>, ttlSecs: nat, written: Time, now: Time)
    ensures Live(entries[key := NewEntry(data, ttlSecs, written)], key, now) ==
      if ttlSecs == 0 || now < written + ttlSecs * 1_000_000_000 then Some(data) else None
  {}

  /** The keys that hold something expired. */
  function ExpiredKeys(entries: Entries, now: Time): set<string> {
    set k | k in entries && Expired(entries[k], now)
  }

  /** What purging leaves. */
  function Surviving(store: Entries, now: Time): Entries {
    map k | k in store && !Expired(store[k], now) :: store[k]
  }

  /** Purging leaves the latest writes that have not expired, whatever had been dropped before. */
  lemma PurgingDropsTheExpired(latest: Entries, dropped: set<string>, clock: Time, now: Time)
    requires dropped <= ExpiredKeys(latest, clock) && clock <= now
    ensures Surviving(latest - dropped, now) == latest - ExpiredKeys(latest, now)
  {}

  lemma SurvivorsCounted(store: Entries, now: Time)
    ensures |store| - |Surviving(store, now)| == |store.Keys - Surviving(store, now).Keys|
  {
    var kept := Surviving(store, now).Keys;
    assert store.Keys == kept + (store.Keys - kept);
  }

  class InMemoryCache {
    var store: Entries
    var hits: nat
    var misses: nat
    /** The latest write of every key since it was last deleted or the cache cleared, expired or not. */
    ghost var latest: Entries
    /** The keys that have been read, or purged, after their latest write had expired. */
    ghost var dropped: set<string>
    ghost var gets: nat
    ghost var clock: Time

    ghost predicate Valid()
      reads this
    {
      store == latest - dropped && dropped <= ExpiredKeys(latest, clock) && hits + misses == gets
    }

    constructor (now: Time)
      ensures Valid() && latest == map[] && dropped == {} && gets == 0 && clock == now
    {
      store, latest, dropped := map[], map[], {};
      hits, misses, gets := 0, 0, 0;
      clock := now;
    }

    method PurgeExpired(now: Time) returns (purged: nat)
      requires Valid() && clock <= now
      modifies this`store, this`dropped, this`clock
      ensures Valid() && clock == now && dropped == ExpiredKeys(latest, now)
      ensures store == Surviving(old(store), now)
      ensures purged == |old(store).Keys - store.Keys|
    {
      clock := now;
      var before := |store|;
      var kept := Surviving(store, now);
      SurvivorsCounted(store, now);
      PurgingDropsTheExpired(latest, dropped, old(clock), now);
      purged := before - |kept|;
      store := kept;
      dropped := ExpiredKeys(latest, now);
    }

    /** Lazy deletion does not show: the answer is that of a cache which never deletes early or late. */
    method GetRaw(key: string, now: Time) returns (r: Option<seq<bv8>>)
      requires Valid() && clock <= now
      modifies this
      ensures Valid() && clock == now && latest == old(latest) && gets == old(gets) + 1
      ensures r == Live(latest, key, now)
      ensures hits == old(hits) + (if r.Some? then 1 else 0)
      ensures dropped == old(dropped) + ({key} * ExpiredKeys(latest, now))
    {
      clock := now;
      gets := gets + 1;
      if key in store {
        var entry := store[key];
        if Expired(entry, now) {
          store, dropped := store - {key}, dropped + {key};
          misses := misses + 1;
          return None;
        }
        hits := hits + 1;
        r := Some(entry.data);
      } else {
        misses := misses + 1;
        r := None;
      }
    }

    method SetRaw(key: string, value: seq<bv8>, ttlSecs: nat, now: Time)
      requires Valid() && clock <= now
      modifies this`store, this`latest, this`dropped, this`clock
      ensures Valid() && clock == now
      ensures latest == old(latest)[key := NewEntry(value, ttlSecs, now)] && dropped == old(dropped) - {key}
    {
      clock := now;
      var expiresAt := if ttlSecs > 0 then Some(now + Seconds(ttlSecs)) else None;
      store := store[key := Entry(value, expiresAt)];
      latest, dropped := latest[key := Entry(value, expiresAt)], dropped - {key};
    }

    /** Tells whether the key has been written since it was last deleted, and has not been read or purged after
        that write expired. */
    method Delete(key: string, now: Time) returns (existed: bool)
      requires Valid() && clock <= now
      modifies this`store, this`latest, this`dropped, this`clock
      ensures Valid() && clock == now && latest == old(latest) - {key} && dropped == old(dropped) - {key}
      ensures existed <==> key in old(latest) && key !in old(dropped)
      ensures Live(old(latest), key, now).Some? ==> existed
    {
      clock := now;
      existed := key in store;
      store := store - {key};
      latest, dropped := latest - {key}, dropped - {key};
    }

    method Exists(key: string, now: Time) returns (r: bool)
      requires Valid() && clock <= now
      modifies this`store, this`dropped, this`clock
      ensures Valid() && clock == now
      ensures r <==> Live(latest, key, now).Some?
      ensures dropped == old(dropped) + ({key} * ExpiredKeys(latest, now))
    {
      clock := now;
      if key in store {
        if Expired(store[key], now) {
          store, dropped := store - {key}, dropped + {key};
          return false;
        }
        r := true;
      } else {
        r := false;
      }
    }

    method Clear()
      requires Valid()
      modifies this`store, this`latest, this`dropped
      ensures Valid() && latest == map[] && dropped == {}
    {
      store, latest, dropped := map[], map[], {};
    }
  }

  class CacheLayer {
    const backend: InMemoryCache
    const keyPrefix: string

    constructor (backend: InMemoryCache, keyPrefix: string)
      ensures this.backend == backend && this.keyPrefix == keyPrefix
    {
      this.backend := backend;
      this.keyPrefix := keyPrefix;
    }

    method Get(key: string, now: Time) returns (r: Option<seq<bv8>>)
      requires backend.Valid() && backend.clock <= now
      modifies backend
      ensures backend.Valid() && backend.clock == now && backend.latest == old(backend.latest)
      ensures r == Held(backend.latest, keyPrefix, key, now)
    {
      r := backend.GetRaw(BuildKey(keyPrefix, key), now);
    }

    /** A write shows under its key in this layer, and in no layer with a disjoint prefix. */
    method Set(key: string, value: seq<bv8>, ttlSecs: nat, now: Time)
      requires backend.Valid() && backend.clock <= now
      modifies backend
      ensures backend.Valid() && backend.clock == now
      ensures forall t ::
        Held(backend.latest, keyPrefix, key, t) == Live(map[key := NewEntry(value, ttlSecs, now)], key, t)
      ensures forall k, t ::
        k != key ==> Held(backend.latest, keyPrefix, k, t) == Held(old(backend.latest), keyPrefix, k, t)
      ensures forall p, k, t ::
        Disjoint(keyPrefix, p) ==> Held(backend.latest, p, k, t) == Held(old(backend.latest), p, k, t)
    {
      ghost var before := backend.latest;
      backend.SetRaw(BuildKey(keyPrefix, key), value, ttlSecs, now);
      forall k ensures BuildKey(keyPrefix, k) == BuildKey(keyPrefix, key) ==> k == key {
        if BuildKey(keyPrefix, k) == BuildKey(keyPrefix, key) {
          BuildKeyInjective(keyPrefix, k, key);
        }
      }
    }

    method Delete(key: string, now: Time) returns (existed: bool)
      requires backend.Valid() && backend.clock <= now
      modifies backend
      ensures backend.Valid() && backend.clock == now
      ensures var full := BuildKey(keyPrefix, key);
        existed <==> full in old(backend.latest) && full !in old(backend.dropped)
      ensures forall t :: Held(backend.latest, keyPrefix, key, t) == None
      ensures forall k, t ::
        k != key ==> Held(backend.latest, keyPrefix, k, t) == Held(old(backend.latest), keyPrefix, k, t)
      ensures forall p, k, t ::
        Disjoint(keyPrefix, p) ==> Held(backend.latest, p, k, t) == Held(old(backend.latest), p, k, t)
    {
      existed := backend.Delete(BuildKey(keyPrefix, key), now);
      forall k ensures BuildKey(keyPrefix, k) == BuildKey(keyPrefix, key) ==> k == key {
        if BuildKey(keyPrefix, k) == BuildKey(keyPrefix, key) {
          BuildKeyInjective(keyPrefix, k, key);
        }
      }
    }

    method Exists(key: string, now: Time) returns (r: bool)
      requires backend.Valid() && backend.clock <= now
      modifies backend
      ensures backend.Valid() && backend.clock == now && backend.latest == old(backend.latest)
      ensures r <==> Held(backend.latest, keyPrefix, key, now).Some?
    {
      r := backend.Exists(BuildKey(keyPrefix, key), now);
    }

    /** Clearing a layer clears the backend, whatever the prefix. */
    method Clear()
      requires backend.Valid()
      modifies backend
      ensures backend.Valid() && backend.latest == map[]
    {
      backend.Clear();
    }
  }

  /** What a layer's key holds now. */
  function Held(latest: Entries, prefix: string, key: string, now: Time): Option<seq<bv8>> {
    Live(latest, BuildKey(prefix, key), now)
  }
}
