/**
 The service's metadata cache as the source writes it
 (`getCachedItem`, `setCachedItem`, `deleteCachedItem`): a map from
 keys to values, where every `set` also starts a timer that later
 deletes the key.

 The timer goroutine becomes a pending expiry event that the caller
 fires explicitly; locking is left out, only the sequential effect of
 each call on the map is kept.
 */
module Cache {
  import opened Durations
  import opened Wrappers

  /** A scheduled deletion of `key`, due `timeout` after the `set` that scheduled it. */
  datatype Expiry = Expiry(key: string, timeout: Duration)

  datatype Cache<V> = Cache(entries: map<string, V>, pending: seq<Expiry>)

  function Empty<V>(): Cache<V>
  {
    Cache(map[], [])
  }

  /** A new cache finds no key. */
  lemma EmptyFindsNothing<V>(key: string)
    ensures Get(Empty<V>(), key) == None
  {
  }

  /** `getCachedItem`: the stored value, if any; `(val, true)` is `Some(val)`, `(nil, false)` is `None`. */
  function Get<V>(c: Cache<V>, key: string): (r: Option<V>)
    ensures r.Some? <==> key in c.entries
    ensures r.Some? ==> r.value == c.entries[key]
  {
    if key in c.entries then Some(c.entries[key]) else None
  }

  /** `setCachedItem`: stores `val` under `key` and schedules the key's deletion. */
  function Set<V>(c: Cache<V>, key: string, val: V, timeout: Duration): (r: Cache<V>)
    ensures Get(r, key) == Some(val)
    ensures forall k :: k != key ==> Get(r, k) == Get(c, k)
    ensures r.pending == c.pending + [Expiry(key, timeout)]
  {
    Cache(c.entries[key := val], c.pending + [Expiry(key, timeout)])
  }

  /** `deleteCachedItem`: forgets `key`, whether or not it was present. */
  function Delete<V>(c: Cache<V>, key: string): (r: Cache<V>)
    ensures Get(r, key) == None
    ensures forall k :: k != key ==> Get(r, k) == Get(c, k)
    ensures r.pending == c.pending
  {
    Cache(c.entries - {key}, c.pending)
  }

  /**
   The i-th pending timer fires: it deletes its key unconditionally,
   whatever has been stored under that key since it was scheduled.
   */
  function FireExpiry<V>(c: Cache<V>, i: nat): (r: Cache<V>)
    requires i < |c.pending|
    ensures Get(r, c.pending[i].key) == None
    ensures forall k :: k != c.pending[i].key ==> Get(r, k) == Get(c, k)
    ensures r.pending == c.pending[..i] + c.pending[i + 1..]
  {
    var fired := Delete(c, c.pending[i].key);
    fired.(pending := c.pending[..i] + c.pending[i + 1..])
  }

  /**
   The timer of an earlier `set` removes the value of a later `set` of
   the same key: the newer value disappears before its own timeout.
   */
  lemma StaleExpiryRemovesNewerValue<V>(c: Cache<V>, key: string, older: V, newer: V, t1: Duration, t2: Duration)
    ensures var afterBoth := Set(Set(c, key, older, t1), key, newer, t2);
      && Get(afterBoth, key) == Some(newer)
      && afterBoth.pending[|c.pending|] == Expiry(key, t1)
      && Get(FireExpiry(afterBoth, |c.pending|), key) == None
  {
  }
}
