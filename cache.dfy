/**
 * The expiring key/value cache (internal/cache/cache.go): a string-keyed map
 * of entries carrying an absolute expiration instant, checked lazily on Get
 * and swept on demand. The clock is the explicit parameter `now`.
 */
module Cache {
  import opened Wrappers

  /** A stored value and its absolute expiration instant (Unix nanoseconds). */
  datatype Item<V> = Item(value: V, expiration: int) {
    /** The one expiry test, shared by Get and the sweep: a non-positive expiration never expires. */
    predicate Expired(now: int) {
      expiration > 0 && now > expiration
    }
  }

  /** What Get reports for `key` at time `now`. */
  function Lookup<V>(items: map<string, Item<V>>, key: string, now: int): Option<V> {
    if key in items && !items[key].Expired(now) then Some(items[key].value) else None
  }

  /** The entries a sweep at time `now` keeps. */
  function Swept<V>(items: map<string, Item<V>>, now: int): (kept: map<string, Item<V>>)
    ensures forall k :: k in kept <==> k in items && !items[k].Expired(now)
    ensures forall k :: k in kept ==> kept[k] == items[k]
  {
    map k | k in items && !items[k].Expired(now) :: items[k]
  }

  class MemoryCache<V> {
    var items: map<string, Item<V>>

    constructor ()
      ensures items == map[]
    {
      items := map[];
    }

    /** Stores `value` under `key` until `now + duration`, replacing any previous entry. */
    method Set(key: string, value: V, duration: int, now: int)
      modifies this
      ensures items == old(items)[key := Item(value, now + duration)]
    {
      items := items[key := Item(value, now + duration)];
    }

    /** The value under `key` unless it is absent or expired at `now`. */
    method Get(key: string, now: int) returns (r: Option<V>)
      ensures r == Lookup(items, key, now)
      ensures r.None? <==> key !in items || (items[key].expiration > 0 && now > items[key].expiration)
      ensures r.Some? ==> r.value == items[key].value
    {
      if key !in items {
        return None;
      }
      var item := items[key];
      if item.expiration > 0 && now > item.expiration {
        return None;
      }
      return Some(item.value);
    }

    /** Removes `key`; a missing key is not an error. */
    method Delete(key: string)
      modifies this
      ensures items == old(items) - {key}
    {
      items := items - {key};
    }

    /** One pass of the background cleanup: removes, in place, every entry expired at `now`. */
    method Sweep(now: int)
      modifies this
      ensures items == Swept(old(items), now)
    {
      var pending := items.Keys;
      while pending != {}
        invariant pending <= items.Keys <= old(items).Keys
        invariant forall k :: k in items ==> items[k] == old(items)[k]
        invariant forall k :: k in old(items) && k !in pending ==> (k in items <==> !old(items)[k].Expired(now))
        decreases pending
      {
        var k :| k in pending;
        if items[k].expiration > 0 && now > items[k].expiration {
          items := items - {k};
        }
        pending := pending - {k};
      }
    }
  }

  /** After Set(k, v, d) at t0, Get(k) returns v at every instant up to and including t0 + d. */
  lemma SetThenGet<V>(items: map<string, Item<V>>, key: string, value: V, duration: int, t0: int, t: int)
    requires t <= t0 + duration
    ensures Lookup(items[key := Item(value, t0 + duration)], key, t) == Some(value)
  {
  }

  /** Once a positive expiration instant has passed, Get no longer returns the entry. */
  lemma GetAfterExpiry<V>(items: map<string, Item<V>>, key: string, t: int)
    requires key in items && items[key].expiration > 0 && t > items[key].expiration
    ensures Lookup(items, key, t) == None
  {
  }

  /** An entry whose expiration is not positive is returned at every instant and survives every sweep. */
  lemma NonPositiveExpirationNeverExpires<V>(items: map<string, Item<V>>, key: string, t: int)
    requires key in items && items[key].expiration <= 0
    ensures Lookup(items, key, t) == Some(items[key].value)
    ensures key in Swept(items, t)
  {
  }

  /** Setting one key leaves what Get reports for every other key unchanged. */
  lemma SetKeepsOtherKeys<V>(items: map<string, Item<V>>, key: string, value: V, expiration: int, other: string, t: int)
    requires other != key
    ensures Lookup(items[key := Item(value, expiration)], other, t) == Lookup(items, other, t)
  {
  }

  /** Delete makes Get miss on the deleted key and leaves every other key unchanged. */
  lemma DeleteThenGet<V>(items: map<string, Item<V>>, key: string, other: string, t: int)
    ensures Lookup(items - {key}, key, t) == None
    ensures other != key ==> Lookup(items - {key}, other, t) == Lookup(items, other, t)
  {
  }

  /** A sweep at `now` never changes what Get reports at `now`, for any key. */
  lemma SweepPreservesLookup<V>(items: map<string, Item<V>>, now: int, key: string)
    ensures Lookup(Swept(items, now), key, now) == Lookup(items, key, now)
  {
  }
}
