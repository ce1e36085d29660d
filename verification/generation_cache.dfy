/**
 The metadata cache with generation-stamped expiry: each `set` stamps
 its entry with a fresh generation and its timer carries the same
 stamp, so a timer deletes the key only while the entry it was
 scheduled for is still the one stored. `Get`, `Set` and `Delete`
 carry the same read contracts as in the `Cache` module.
 */
module GenerationCache {
  import opened Durations
  import opened Wrappers

  datatype Stamped<V> = Stamped(value: V, generation: nat)

  /** A scheduled deletion of `key`, valid only for the entry of `generation`. */
  datatype Expiry = Expiry(key: string, generation: nat, timeout: Duration)

  datatype Cache<V> = Cache(entries: map<string, Stamped<V>>, nextGeneration: nat, pending: seq<Expiry>)

  /** Every stamp in use, on an entry or on a timer, was handed out by an earlier `set`. */
  predicate Valid<V>(c: Cache<V>)
  {
    && (forall key :: key in c.entries ==> c.entries[key].generation < c.nextGeneration)
    && (forall i :: 0 <= i < |c.pending| ==> c.pending[i].generation < c.nextGeneration)
  }

  /** The stored entry of `key`, stamp included, is the same in `c` and `d`. */
  ghost predicate SameEntry<V>(c: Cache<V>, d: Cache<V>, key: string)
  {
    && (key in c.entries <==> key in d.entries)
    && (key in c.entries ==> c.entries[key] == d.entries[key])
  }

  function Empty<V>(): (c: Cache<V>)
    ensures Valid(c)
  {
    Cache(map[], 0, [])
  }

  function Get<V>(c: Cache<V>, key: string): (r: Option<V>)
    ensures r.Some? <==> key in c.entries
    ensures r.Some? ==> r.value == c.entries[key].value
  {
    if key in c.entries then Some(c.entries[key].value) else None
  }

  function Set<V>(c: Cache<V>, key: string, val: V, timeout: Duration): (r: Cache<V>)
    ensures Get(r, key) == Some(val)
    ensures key in r.entries && r.entries[key].generation == c.nextGeneration
    ensures forall k :: k != key ==> SameEntry(c, r, k)
    ensures r.pending == c.pending + [Expiry(key, c.nextGeneration, timeout)]
    ensures Valid(c) ==> Valid(r)
  {
    Cache(c.entries[key := Stamped(val, c.nextGeneration)],
          c.nextGeneration + 1,
          c.pending + [Expiry(key, c.nextGeneration, timeout)])
  }

  function Delete<V>(c: Cache<V>, key: string): (r: Cache<V>)
    ensures Get(r, key) == None
    ensures forall k :: k != key ==> SameEntry(c, r, k)
    ensures r.pending == c.pending
    ensures Valid(c) ==> Valid(r)
  {
    c.(entries := c.entries - {key})
  }

  /** Whether the i-th timer was scheduled by the `set` whose entry is stored now. */
  predicate Current<V>(c: Cache<V>, i: nat)
    requires i < |c.pending|
  {
    var e := c.pending[i];
    e.key in c.entries && c.entries[e.key].generation == e.generation
  }

  /** The i-th pending timer fires: it deletes its key only if its own entry is still stored. */
  function FireExpiry<V>(c: Cache<V>, i: nat): (r: Cache<V>)
    requires i < |c.pending|
    ensures Get(r, c.pending[i].key) == (if Current(c, i) then None else Get(c, c.pending[i].key))
    ensures !Current(c, i) ==> SameEntry(c, r, c.pending[i].key)
    ensures forall k :: k != c.pending[i].key ==> SameEntry(c, r, k)
    ensures r.pending == c.pending[..i] + c.pending[i + 1..]
    ensures Valid(c) ==> Valid(r)
  {
    var e := c.pending[i];
    var rest := c.pending[..i] + c.pending[i + 1..];
    if Current(c, i) then
      Cache(c.entries - {e.key}, c.nextGeneration, rest)
    else
      c.(pending := rest)
  }

  /** A cache call; a firing names its timer by position in the pending list. */
  datatype Op<V> =
    | SetOp(key: string, val: V, timeout: Duration)
    | DeleteOp(key: string)
    | FireOp(index: nat)

  /** Performs one call; firing a position with no timer does nothing. */
  function Apply<V>(c: Cache<V>, op: Op<V>): Cache<V>
  {
    match op
    case SetOp(k, v, t) => Set(c, k, v, t)
    case DeleteOp(k) => Delete(c, k)
    case FireOp(i) => if i < |c.pending| then FireExpiry(c, i) else c
  }

  /** Performs the calls in order. */
  function Run<V>(c: Cache<V>, ops: seq<Op<V>>): Cache<V>
    decreases |ops|
  {
    if |ops| == 0 then c else Run(Apply(c, ops[0]), ops[1..])
  }

  /** Every cache the calls can reach from a new one has its stamps in order. */
  lemma {:induction false} RunKeepsValid<V>(c: Cache<V>, ops: seq<Op<V>>)
    requires Valid(c)
    ensures Valid(Run(c, ops))
    decreases |ops|
  {
    if |ops| > 0 {
      RunKeepsValid(Apply(c, ops[0]), ops[1..]);
    }
  }

  /**
   The call leaves `key` alone: it sets or deletes another key, or it
   fires a timer of another key or a stale timer of `key`.
   */
  predicate Spares<V>(c: Cache<V>, op: Op<V>, key: string)
  {
    match op
    case SetOp(k, _, _) => k != key
    case DeleteOp(k) => k != key
    case FireOp(i) => i < |c.pending| ==> c.pending[i].key != key || !Current(c, i)
  }

  /** Every call of the run, in the state it meets, leaves `key` alone. */
  predicate SparesAll<V>(c: Cache<V>, ops: seq<Op<V>>, key: string)
    decreases |ops|
  {
    |ops| == 0 || (Spares(c, ops[0], key) && SparesAll(Apply(c, ops[0]), ops[1..], key))
  }

  /**
   A run that leaves `key` alone keeps its entry, stamp included, and
   keeps pending the timer scheduled for that entry.
   */
  lemma {:induction false} SparingRunKeepsEntry<V>(c: Cache<V>, ops: seq<Op<V>>, key: string, e: Expiry)
    requires SparesAll(c, ops, key)
    requires e.key == key && key in c.entries && c.entries[key].generation == e.generation
    requires e in c.pending
    ensures SameEntry(c, Run(c, ops), key)
    ensures e in Run(c, ops).pending
    decreases |ops|
  {
    if |ops| > 0 {
      var next := Apply(c, ops[0]);
      if ops[0].FireOp? && ops[0].index < |c.pending| {
        var i := ops[0].index;
        var j :| 0 <= j < |c.pending| && c.pending[j] == e;
        // the fired timer is not `e`, which is current for `key`
        assert j != i;
        if j < i {
          assert next.pending[j] == e;
        } else {
          assert next.pending[j - 1] == e;
        }
      }
      assert SameEntry(c, next, key);
      SparingRunKeepsEntry(next, ops[1..], key, e);
    }
  }

  /**
   After a `set` of `key` and any calls that leave `key` alone, the value
   is still stored, its own timer is still pending, and firing a pending
   timer removes the value exactly when that timer carries the `set`'s
   stamp.
   */
  lemma OwnExpiryRemovesValue<V>(c: Cache<V>, key: string, val: V, timeout: Duration, ops: seq<Op<V>>)
    requires SparesAll(Set(c, key, val, timeout), ops, key)
    ensures var d := Run(Set(c, key, val, timeout), ops);
      && Get(d, key) == Some(val)
      && Expiry(key, c.nextGeneration, timeout) in d.pending
      && forall i :: 0 <= i < |d.pending| ==>
           (Get(FireExpiry(d, i), key) == None <==> d.pending[i].key == key && d.pending[i].generation == c.nextGeneration)
  {
    var s := Set(c, key, val, timeout);
    var own := Expiry(key, c.nextGeneration, timeout);
    assert s.pending[|c.pending|] == own;
    SparingRunKeepsEntry(s, ops, key, own);
    var d := Run(s, ops);
    forall i | 0 <= i < |d.pending|
      ensures Get(FireExpiry(d, i), key) == None <==> d.pending[i].key == key && d.pending[i].generation == c.nextGeneration
    {
      if d.pending[i].key != key {
        assert SameEntry(d, FireExpiry(d, i), key);
      }
    }
  }

  /**
   No timer scheduled before a `set` removes the value that `set`
   stored, however many calls that leave the key alone come in between;
   this is the guarantee the unconditional timer lacks.
   */
  lemma EarlierExpiryKeepsNewerValue<V>(c: Cache<V>, key: string, val: V, timeout: Duration, ops: seq<Op<V>>)
    requires SparesAll(Set(c, key, val, timeout), ops, key)
    ensures var d := Run(Set(c, key, val, timeout), ops);
      forall i :: 0 <= i < |d.pending| && d.pending[i].generation < c.nextGeneration ==>
        Get(FireExpiry(d, i), key) == Some(val)
  {
    OwnExpiryRemovesValue(c, key, val, timeout, ops);
  }

  /** The scenario of the unconditional timer: two `set`s of one key, then the first timer fires. */
  lemma StaleExpiryKeepsNewerValue<V>(c: Cache<V>, key: string, older: V, newer: V, t1: Duration, t2: Duration)
    ensures var afterBoth := Set(Set(c, key, older, t1), key, newer, t2);
      Get(FireExpiry(afterBoth, |c.pending|), key) == Some(newer)
  {
    var first := Set(c, key, older, t1);
    EarlierExpiryKeepsNewerValue(first, key, newer, t2, []);
  }
}
