# kminion service core, modelled in Dafny

This project models the sequential logic of kminion's `minion/service.go`.
kminion is a Kafka monitor. Its service core has four parts:

- **Bucket sizer** (`createHistogramBuckets`). It turns the maximum latency of an
  end-to-end stage into exponential histogram boundaries. The boundaries start
  at 5 ms and double each time. There are floor(log2(ms / 10)) + 3 of them.
- **End-to-end metric handlers** (`onAck`, `onRoundtrip`, `onOffsetCommit`). They
  update the end-to-end counters and latency histograms. Acknowledgements are
  always counted. A roundtrip counts only within the roundtrip threshold
  (SLA). A commit is always observed but counted only within the commit
  threshold.
- **Metadata cache** (`getCachedItem`, `setCachedItem`, `deleteCachedItem`). It maps
  string keys to values. Every `set` starts a timer that later deletes the key.
- **Compatibility gate** (`ensureCompatibility`). It fetches the broker's
  supported API keys once. If the fetch fails, startup is aborted. If log-dir
  describing is enabled but the broker lacks DescribeLogDirs (API key 35), the
  feature is switched off.

Modelling choices:

- Durations are Go's `time.Duration`: a nanosecond count in the int64 range
  (`Durations.Duration`).
- Go's truncating integer division is written out as `Durations.TruncDiv`.
- Histogram boundaries are natural numbers of milliseconds (5 * 2^i). The
  source's float64 boundaries, fl(0.005) * 2^i seconds, are each within one
  rounding of these.
- Histograms are the sequence of durations they have observed, in integer
  nanoseconds.
- Counters are natural numbers.
- `math.Logb` is the integer `Buckets.Log2` of the magnitude. It is exact here
  because the argument is always below 2^53.
- A cache timer is a pending expiry event. The caller fires it explicitly with
  `FireExpiry`.
- The broker's API-versions answer is a parameter: a failure, or the set of
  supported API keys.

Files:

- `wrappers.dfy`: `Option` and `Result`.
- `durations.dfy`: durations and truncating division.
- `config.dfy`: the configuration fields the core reads.
- `buckets.dfy`: the bucket sizer.
- `end_to_end.dfy`: the metric handlers.
- `cache.dfy`: the cache as written.
- `generation_cache.dfy`: the corrected cache.
- `compatibility.dfy`: the compatibility gate.

Edge cases where the model follows the code rather than a tidier reading:

- **Small latencies.** The code does not clamp the bucket count to at least 1.
  Below 10 ms the argument of `Logb` is 0 and the result is -Inf. The count is
  then negative, and Prometheus' `ExponentialBuckets` panics. The model returns
  a `Failure` in this case.
- **Negative latencies.** A latency of -10 ms or less gives a bucket list,
  because `Logb` of a negative number is the exponent of its magnitude. The
  model keeps this.
- **Stale timers.** The code's timers delete by key unconditionally. `Cache`
  models the code. `GenerationCache` stamps each entry with a generation, so a
  timer deletes only the value it was started for. See Findings.

## Model

| member | source | states |
|---|---|---|
| `Durations.TruncDiv` | minion/service.go:210 | The quotient of Go's `/` truncates toward zero. For a ≥ 0, q·b ≤ a < q·b + b; for negative a, the mirror image. In magnitude, q is the Euclidean quotient of the magnitudes. |
| `Durations.Milliseconds` | minion/service.go:210 | `maxLatency.Milliseconds()` is the whole number of milliseconds, truncated toward zero. The duration lies within one millisecond of that count, on the side away from zero. |
| `Buckets.Log2` | minion/service.go:210 | The floor of log2 n, the value `math.Logb` gives for a positive integer: 2^k ≤ n < 2^(k+1). |
| `Buckets.Log2Unique` | minion/service.go:210 | An exponent k brackets n between 2^k and 2^(k+1) if and only if k is `Log2(n)`. |
| `Buckets.Logb` | minion/service.go:210 | For an integer below 2^53 in magnitude, which converts to float64 exactly, `math.Logb` has no finite value exactly when the integer is 0. Otherwise it is the binary exponent of the magnitude. The bucket sizer only passes values below 2^40 in magnitude. |
| `Buckets.ExponentialBuckets` | minion/service.go:212 | With start 5 ms and factor 2: the list has `count` boundaries and boundary i is start·factor^i. A count below 1 gives an error and no list. |
| `Buckets.CreateHistogramBuckets` | minion/service.go:205-214 | No list exactly when (ms/10) truncates to 0. Otherwise: floor(log2 \|ms/10\|) + 3 boundaries, so at least 3; the first is 5 ms; each later one is twice the previous; the list is strictly increasing; the last lies above maxLatency. |
| `Buckets.DoublingIncreases` | minion/service.go:212 | Boundaries of the form b₀·2^i double from one to the next and strictly increase. |
| `Buckets.LastBoundaryReach` | minion/service.go:194-211 | The last boundary, 20 ms·2^floor(log2(ms/10)), exceeds the maximum latency. This is the "+3" reasoning in the comments. |
| `EndToEnd.OnAck` | minion/service.go:218-221 | The acked counter grows by exactly 1 and the ack histogram gains the duration, with no threshold check. Nothing else changes. |
| `EndToEnd.OnRoundtrip` | minion/service.go:224-236 | The metrics are unchanged if and only if the duration exceeds the roundtrip threshold. Otherwise the received counter grows by 1 and the roundtrip histogram gains the duration; a duration equal to the threshold counts. Nothing else changes. |
| `EndToEnd.OnOffsetCommit` | minion/service.go:239-253 | The commit histogram always gains the duration. The committed counter grows by 1 if and only if the duration is within the commit threshold, and otherwise stays the same. Nothing else changes. |
| `EndToEnd.HandlersIgnorePartition` | minion/service.go:218-253 | No handler's effect depends on the partition argument. |
| `EndToEnd.ReplayMatchesReference` | minion/service.go:218-253 | After any sequence of events, the histograms have gained exactly the ack latencies, the roundtrip latencies within the threshold, and all commit latencies. Each counter has grown by the number of observations that passed its gate. The produced counter is untouched. |
| `EndToEnd.StepPreservesConsistent` | minion/service.go:218-253 | Each handler keeps the counters consistent with the histograms. Acked and received equal their histograms' sizes. No observed roundtrip exceeds its threshold. Committed is the number of observed commits within the commit threshold. |
| `EndToEnd.ReplayKeepsConsistent` | minion/service.go:218-253 | From freshly registered metrics, every sequence of handler calls leaves counters and histograms consistent. |
| `Cache.Get` | minion/service.go:164-170 | A key is found if and only if it is stored, and then with its stored value. Together with the `Set`, `Delete` and `FireExpiry` contracts this gives the read-over-write laws: `get` right after `set(k, v)` returns v, and right after `delete(k)` finds nothing. |
| `Cache.EmptyFindsNothing` | minion/service.go:71 | The cache created with the service finds no key. |
| `Cache.Set` | minion/service.go:172-182 | Afterwards, `get(key)` returns the stored value, every other key reads as before, and one expiry for the key is scheduled. |
| `Cache.Delete` | minion/service.go:184-189 | Afterwards, `get(key)` finds nothing and every other key reads as before. |
| `Cache.FireExpiry` | minion/service.go:176-179 | A timer deletes its key unconditionally, leaves other keys alone, and is then no longer pending. |
| `Cache.StaleExpiryRemovesNewerValue` | minion/service.go:176-181 | Take two `set`s of one key. When the first `set`'s timer fires, it removes the second `set`'s value. |
| `GenerationCache.Empty` | minion/service.go:71 | A new cache's generation stamps are valid. |
| `GenerationCache.Get` | minion/service.go:164-170 | A key is found if and only if it is stored, and then with its stored value, stamp aside. With the `Set`, `Delete` and `FireExpiry` contracts this gives the same read-over-write laws as `Cache.Get`. |
| `GenerationCache.Set` | minion/service.go:172-182 | Same read guarantees as `Cache.Set`. The new entry carries a fresh generation and so does its timer. Every other key's entry, stamp included, is unchanged. Stamp validity is preserved. |
| `GenerationCache.Delete` | minion/service.go:184-189 | Same read guarantees as `Cache.Delete`. Every other key's entry, stamp included, is unchanged. Stamp validity is preserved. |
| `GenerationCache.FireExpiry` | minion/service.go:176-179 | A timer removes its key if and only if the stored entry carries the timer's own generation. Otherwise the key's entry is unchanged. Every other key's entry, stamp included, is unchanged. |
| `GenerationCache.RunKeepsValid` | minion/service.go:172-189 | Every cache reachable by cache calls from a valid one, such as a new one, keeps its generation stamps in order. |
| `GenerationCache.SparingRunKeepsEntry` | minion/service.go:172-189 | Take any sequence of cache calls that leave a key alone: sets and deletes of other keys, and firings of other keys' timers or of the key's stale timers. Such a run keeps the key's entry, stamp included, and keeps that entry's timer pending. |
| `GenerationCache.EarlierExpiryKeepsNewerValue` | minion/service.go:176-181 | Take a `set`, then any calls that leave the key alone. No timer scheduled before the `set` removes its value. |
| `GenerationCache.OwnExpiryRemovesValue` | minion/service.go:176-179 | Take a `set`, then any calls that leave the key alone. The value is still stored and its timer still pending. Firing a pending timer removes the value if and only if the timer carries that `set`'s key and generation. |
| `GenerationCache.StaleExpiryKeepsNewerValue` | minion/service.go:176-181 | Take two `set`s of one key. When the first `set`'s timer fires, the second value survives. |
| `Compatibility.EnsureCompatibility` | minion/service.go:141-162 | A failed fetch gives a wrapped error and an unchanged configuration. A successful fetch gives no error. The log dirs flag ends up true if and only if it was true and key 35 is supported. The flag never goes from false to true, and no other field changes. |
| `Compatibility.GateDisablesOnlyWhatIsUnsupported` | minion/service.go:150-159 | The gate switches the feature off only when the broker lacks its key. Any supported variant of the configuration that only restricts the flag has it enabled only if the gate's result does. |
| `Compatibility.GateIdempotent` | minion/service.go:150-159 | Running the gate a second time against the same broker answer, failed or successful, gives the same outcome. |

## Left out

- `NewService` (minion/service.go:53-122): registering counters and histograms with Prometheus, creating the storage and compiling regexes are library side effects. The configuration's regex lists are kept only as fields.
- `Start` (minion/service.go:124-139): it runs the gate, wraps its error and starts goroutines. The goroutines are concurrency, and the functions they run are not part of this model.
- `GetAPIVersions` and `kversion.FromApiVersionsResponse`: network I/O and foreign parsing. They are abstracted as `Compatibility.FetchResult`. The 15-second timeout is a `FetchFailed` outcome.
- The `singleflight` request group and the `RWMutex`: concurrency. Only each cache call's sequential effect on the map is kept.
- Timer timing: when a timer fires is the caller's choice, not a clock. The `timeout` is kept only as data on the pending event.
- Float conversion: `duration.Seconds()` and the float rendering of boundaries are left out. Durations are integer nanoseconds and boundaries are integer milliseconds.
- Prometheus counters are float64 and are modelled as natural numbers.
- `Buckets.ExponentialBuckets`: Prometheus also panics on start ≤ 0 or factor ≤ 1. Only the count check is modelled, because the service always passes 5 ms and 2.
- `lastRoundtripTimestamp` and the commented-out out-of-order check (minion/service.go:40, 229-232): this code is not live.
- zap logging, the uuid `minionID` and the `messages_produced_total` counter's increments: they are not performed by the modelled functions.

## Findings

| source | as written | input that shows it | evidently intended | confidence | as-written member | corrected member |
|---|---|---|---|---|---|---|
| minion/service.go:176-181 | The timer started by `setCachedItem` deletes its key unconditionally. | Run `set(k, v1, t1)`, then `set(k, v2, t2)`. The first timer fires, and `get(k)` finds nothing, although v2's own timeout has not elapsed. | Each timer expires only the value of the `set` that started it. | medium, not executed | `Cache.StaleExpiryRemovesNewerValue` | `GenerationCache.StaleExpiryKeepsNewerValue` |
