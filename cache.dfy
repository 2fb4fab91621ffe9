/** The in-memory time-to-live cache in front of every upstream request. The
    clock is a parameter: `now` is the instant of the call and, for
    `GetOrFetch`, `later` is the instant at which the fetched value arrives.
    A stored value may be `null` (`None`); a stored `null` reads as a miss. */
module Cache {
  import opened Prelude

  datatype Entry<V> = Entry(data: Option<V>, expiresAt: int)

  /** What a read of `key` at `now` returns: the stored data, unless the key
      is missing or its entry expired strictly before `now`. */
  function Lookup<V>(store: map<string, Entry<V>>, key: string, now: int): Option<V> {
    if key in store && now <= store[key].expiresAt then store[key].data else None
  }

  /** The store after a read of `key` at `now`: an expired entry is deleted. */
  function AfterRead<V>(store: map<string, Entry<V>>, key: string, now: int): map<string, Entry<V>> {
    if key in store && now > store[key].expiresAt then store - {key} else store
  }

  /** Everything a call of `GetOrFetch` produces. */
  datatype Outcome<V> = Outcome(result: Result<Option<V>>, fetcherCalled: bool, store: map<string, Entry<V>>)

  /** `GetOrFetch` as a function of the store: a non-null cached value is
      returned without calling the fetcher; otherwise the fetcher runs, and
      what it returns is stored for `ttlMs` from `later` (a failure propagates
      and stores nothing). */
  function FetchThrough<V>(store: map<string, Entry<V>>, key: string, fetched: Result<Option<V>>,
                           ttlMs: int, now: int, later: int): Outcome<V>
  {
    var cached := Lookup(store, key, now);
    var swept := AfterRead(store, key, now);
    if cached.Some? then Outcome(Ok(cached), false, swept)
    else if fetched.Failed? then Outcome(fetched, true, swept)
    else Outcome(fetched, true, swept[key := Entry(fetched.value, later + ttlMs)])
  }

  class TtlCache<V> {
    var store: map<string, Entry<V>>

    constructor()
      ensures store == map[]
    {
      store := map[];
    }

    /** `getCached`: the live data of `key`, deleting an expired entry. */
    method GetCached(key: string, now: int) returns (r: Option<V>)
      modifies this
      ensures r == Lookup(old(store), key, now)
      ensures store == AfterRead(old(store), key, now)
    {
      if key !in store {
        return None;
      }
      var entry := store[key];
      if now > entry.expiresAt {
        store := store - {key};
        return None;
      }
      return entry.data;
    }

    /** `setCache`: store `data` until `now + ttlMs`. */
    method SetCache(key: string, data: Option<V>, ttlMs: int, now: int)
      modifies this
      ensures store == old(store)[key := Entry(data, now + ttlMs)]
    {
      store := store[key := Entry(data, now + ttlMs)];
    }

    /** `getOrFetch`. The fetcher is represented by the value it resolves to. */
    method GetOrFetch(key: string, fetched: Result<Option<V>>, ttlMs: int, now: int, later: int)
      returns (r: Result<Option<V>>, fetcherCalled: bool)
      modifies this
      ensures Outcome(r, fetcherCalled, store) == FetchThrough(old(store), key, fetched, ttlMs, now, later)
    {
      var cached := GetCached(key, now);
      if cached.Some? {
        return Ok(cached), false;
      }
      fetcherCalled := true;
      if fetched.Failed? {
        return fetched, fetcherCalled;
      }
      SetCache(key, fetched.value, ttlMs, later);
      r := fetched;
    }

    /** `clearCache`. */
    method ClearCache()
      modifies this
      ensures store == map[]
    {
      store := map[];
    }
  }

  /** A value stored with a time to live is read back at every instant up to
      and including its expiry, and not after it. */
  lemma ReadBackWithinTtl<V>(store: map<string, Entry<V>>, key: string, data: Option<V>, ttlMs: int, now: int, t: int)
    ensures Lookup(store[key := Entry(data, now + ttlMs)], key, t)
         == if t <= now + ttlMs then data else None
  {
  }

  /** A read never changes what any key reads as at that instant or later. */
  lemma ReadChangesNothingVisible<V>(store: map<string, Entry<V>>, key: string, now: int, k: string, t: int)
    requires t >= now
    ensures Lookup(AfterRead(store, key, now), k, t) == Lookup(store, k, t)
  {
  }

  /** Once a value has been fetched and stored, calls within its time to live
      are served from the cache without calling the fetcher, whatever the
      fetcher would now return. */
  lemma {:induction false} FetchedValueIsReused<V>(store: map<string, Entry<V>>, key: string, d: V,
      ttlMs: int, now: int, later: int, again: int, fetchedAgain: Result<Option<V>>, ttlAgain: int, laterAgain: int)
    requires Lookup(store, key, now).None?
    requires later <= again <= later + ttlMs
    ensures var first := FetchThrough(store, key, Ok(Some(d)), ttlMs, now, later);
      var second := FetchThrough(first.store, key, fetchedAgain, ttlAgain, again, laterAgain);
      && first.fetcherCalled && first.result == Ok(Some(d))
      && !second.fetcherCalled && second.result == Ok(Some(d))
  {
    var first := FetchThrough(store, key, Ok(Some(d)), ttlMs, now, later);
    assert first.store == AfterRead(store, key, now)[key := Entry(Some(d), later + ttlMs)];
    ReadBackWithinTtl(AfterRead(store, key, now), key, Some(d), ttlMs, later, again);
  }

  /** A fetched `null` is stored but never served: the next call fetches again. */
  lemma {:induction false} NullIsFetchedAgain<V>(store: map<string, Entry<V>>, key: string,
      ttlMs: int, now: int, later: int, again: int, fetchedAgain: Result<Option<V>>, ttlAgain: int, laterAgain: int)
    requires Lookup(store, key, now).None?
    ensures var first := FetchThrough(store, key, Ok(None), ttlMs, now, later);
      var second := FetchThrough(first.store, key, fetchedAgain, ttlAgain, again, laterAgain);
      first.fetcherCalled && second.fetcherCalled && second.result == fetchedAgain
  {
    var first := FetchThrough(store, key, Ok(None), ttlMs, now, later);
    assert Lookup(first.store, key, again).None?;
  }

  /** A failed fetch stores nothing readable for the key, at any instant: the
      next call, whenever it comes, fetches again. */
  lemma {:induction false} FailureIsNotCached<V>(store: map<string, Entry<V>>, key: string, reason: string,
      ttlMs: int, now: int, later: int, again: int, fetchedAgain: Result<Option<V>>, ttlAgain: int, laterAgain: int)
    ensures var first := FetchThrough(store, key, Failed(reason), ttlMs, now, later);
      var second := FetchThrough(first.store, key, fetchedAgain, ttlAgain, again, laterAgain);
      first.fetcherCalled ==>
        && first.result == Failed(reason)
        && (forall t :: Lookup(first.store, key, t).None?)
        && second.fetcherCalled && second.result == fetchedAgain
  {
    var first := FetchThrough(store, key, Failed(reason), ttlMs, now, later);
    if first.fetcherCalled {
      assert first.store == AfterRead(store, key, now);
      forall t ensures Lookup(first.store, key, t).None? {
        if key in first.store {
          assert key in store && now <= store[key].expiresAt;
          assert store[key].data.None?;
        }
      }
    }
  }
}
