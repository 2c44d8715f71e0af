/** The verdict cache. The plugin delegates it to go-cache; only the part of
    go-cache's behaviour the plugin relies on is modelled, on a plain map with
    an explicit clock: `SetDefault` stamps an item with now + TTL (or no
    expiry when the TTL is not positive), and `Get` treats an item whose
    expiry has passed as absent. Reclamation by the janitor only frees memory
    and is not modelled. */
module Cache {
  import opened Base

  /** A stored verdict; `expiration` None is go-cache's "never expires". */
  datatype Item = Item(verdict: bool, expiration: Option<int>)

  /** Whether the item is still served at time `now`. */
  predicate Fresh(item: Item, now: int) {
    item.expiration.None? || now <= item.expiration.value
  }

  /** What a lookup gives at time `now`: the verdict of a fresh item, otherwise not found. */
  function Lookup(items: map<string, Item>, key: string, now: int): Option<bool> {
    if key in items && Fresh(items[key], now) then Some(items[key].verdict) else None
  }

  /** The items after storing `verdict` under `key` at time `now` with the default TTL. */
  function Put(items: map<string, Item>, key: string, verdict: bool, now: int, ttl: int): map<string, Item> {
    items[key := Item(verdict, if ttl > 0 then Some(now + ttl) else None)]
  }

  /** A stored verdict is served, unchanged, until its TTL has elapsed and not after. */
  lemma PutThenLookup(items: map<string, Item>, key: string, verdict: bool, now: int, ttl: int, later: int)
    ensures Lookup(Put(items, key, verdict, now, ttl), key, later) ==
      if ttl <= 0 || later <= now + ttl then Some(verdict) else None
  {
  }

  /** Storing under one key leaves every other key's lookups as they were. */
  lemma PutOtherKey(items: map<string, Item>, key: string, verdict: bool, now: int, ttl: int, other: string, later: int)
    requires other != key
    ensures Lookup(Put(items, key, verdict, now, ttl), other, later) == Lookup(items, other, later)
  {
  }

  /** A lookup never serves an item past its expiry: a hit at `now` comes from a
      stored item that is still fresh at `now`. */
  lemma LookupIsFresh(items: map<string, Item>, key: string, now: int)
    ensures Lookup(items, key, now).Some? <==> key in items && Fresh(items[key], now)
    ensures Lookup(items, key, now).Some? ==> Lookup(items, key, now).value == items[key].verdict
  {
  }

  /** Storing the same verdict twice at the same time is the same as storing it once. */
  lemma PutIdempotent(items: map<string, Item>, key: string, verdict: bool, now: int, ttl: int)
    ensures Put(Put(items, key, verdict, now, ttl), key, verdict, now, ttl) == Put(items, key, verdict, now, ttl)
  {
  }

  /** A go-cache instance created with a default TTL. */
  class VerdictCache {
    const ttl: int
    var items: map<string, Item>

    /** `cache.New(ttl, ...)`: an empty cache. */
    constructor (ttl: int)
      ensures this.ttl == ttl && items == map[]
    {
      this.ttl := ttl;
      items := map[];
    }

    /** `Get`: the verdict under `key` if it is present and not expired at `now`. */
    method Get(key: string, now: int) returns (verdict: bool, found: bool)
      ensures found <==> Lookup(items, key, now).Some?
      ensures found ==> verdict == Lookup(items, key, now).value
    {
      found := key in items && Fresh(items[key], now);
      verdict := if found then items[key].verdict else false;
    }

    /** `SetDefault`: store `verdict` under `key`, expiring one TTL after `now`. */
    method SetDefault(key: string, verdict: bool, now: int)
      modifies this
      ensures items == Put(old(items), key, verdict, now, ttl)
    {
      items := Put(items, key, verdict, now, ttl);
    }
  }
}
