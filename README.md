# OCache core in Dafny

OCache is a small read-through cache in Go. This project models three parts of it:

- **The LRU-K engine** (package `lru`). It has a cache tier: a recency list of (key, value) entries plus a key map. It charges `len(key) + value.Len()` bytes per entry against `maxBytes`, where 0 means unbounded. While the tier is over budget, it evicts from the back and reports each evicted entry to an optional `onEvicted` callback. When K > 1, a key must be added K times before it enters the cache tier. Until then its visit count lives in a history tier of at most `historyMax` records. That tier drops its oldest record when it is full.
- **The lazy wrapper** (`cache.go`). It builds the engine on the first `add` only and reports a miss while no engine exists.
- **The namespace layer** (`ocache.go`). A `Group` binds a name, a loader (`Getter`) and a wrapper. `Group.Get` works as follows:
  - it rejects the empty key;
  - it serves a hit from the cache;
  - on a miss, it calls the loader;
  - it returns a loader error without caching anything;
  - on loader success, it copies the bytes into a `ByteView` and adds them to the cache.

  A registry maps names to Groups.

Files:

- `lru_spec.dfy` (module `LruSpec`) gives the engine as functions on values, together with its invariants and lemmas.
  - `State(ll, hl)` holds the two tiers, front = most recently touched.
  - `Add`, `Get` and `Shrink` (the eviction loop) are the operations.
  - `Inv` is the invariant: distinct keys, disjoint tiers, counts in `[1, K)`, a bounded history, and the budget.
- `lru.dfy` (module `Lru`): `Cache<V>` is a class. Its fields are `nbytes`, `ll`, `cache`, `hl` and `history`, and its methods update them in place. Each method is proved to move `Tiers()` exactly as the `LruSpec` function does. The object invariant also ties `nbytes` to the byte sum and each key map to its list.
- `lru_test.dfy` (module `LruTest`) proves every scenario of `lru/lru_test.go` on the specification functions.
- `byteview.dfy` (module `ByteViews`) defines `ByteView` as an immutable byte sequence. `Len` is its length and `CloneBytes` is an exact copy.
- `cache.dfy` (module `Wrapper`) defines the wrapper class. Its engine field `lru` is null until the first `Add`.
- `ocache.dfy` (module `OCache`) contains:
  - `GroupGet`, `Group.Get` on the engine's tiers, which also reports whether the loader ran;
  - the `Group` and `Registry` classes;
  - the lemmas about `Get`.
- `ocache_test.dfy` (module `OCacheTest`) models the `ocache_test.go` scenario through the registry and a Group object.

Where this revision of `lru/lru.go` and `ocache.go` disagrees with its callers and tests, the model does the following:

- `lru/lru.go` is an older revision. It holds only the state, the `entry` and `Value` types, and a two-argument `New(maxBytes, onEvicted)`. The history tier, K and the bodies of `Add`, `Get`, `RemoveOldest` and `Len` are not in it. The model follows their callers instead: `New(K, maxBytes, historyMax, onEvicted)` at cache.go:21 and throughout `lru/lru_test.go`. The behaviour is the one those tests pin down, and it follows the design of the engine where the tests are silent.
- `NewGroup` in `ocache.go` takes three arguments and never sets `K` or `historyMax`. The test calls a five-argument form (ocache_test.go:17). The model uses the five-argument form so that K reaches the wrapper.
- A nil getter makes `NewGroup` panic. The model returns `None` and registers nothing.

## Model

| member | source | states |
|---|---|---|
| LruSpec.Shrink | lru/lru.go:6-7 | The eviction loop keeps a prefix of the tier and evicts the rest from the back, oldest first. The kept tier is within a non-zero budget. |
| LruSpec.ShrinkStopsAtBudget | lru/lru.go:6-7 | The eviction loop stops as soon as the tier fits. If anything was evicted, the kept tier plus the last evicted entry was over a non-zero budget. |
| LruSpec.ShrinkSeparates | lru/lru.go:8-9 | On a tier with distinct keys, every evicted entry came from the tier, and its key is no longer in the kept tier's key map. |
| LruSpec.TouchFacts | lru/lru.go:16-24 | Writing a key to the front sets it in the key map and keeps keys distinct. The byte count grows by `len(key) + value.Len()` minus the cost of any replaced entry. |
| LruSpec.RemoveKeyBytes | lru/lru.go:16-24 | Unlinking a key lowers the byte count by exactly that entry's `len(key) + value.Len()`. |
| LruSpec.RemoveKeyOrder | lru/lru.go:16-24 | Unlinking a key removes exactly the first entry with that key and leaves every other entry in its recency order. |
| LruSpec.AddPreservesInv | lru/lru.go:5-12 | `Add` keeps every engine invariant: distinct keys, disjoint tiers, counts in [1, K), history within `historyMax`, and the byte budget. |
| LruSpec.GetFacts | lru/lru_test.go:15-24 | `Get` hits if and only if the key is in the cache tier. A hit returns its value and moves it to the front. The key map, the history and the byte count do not change. |
| LruSpec.AddStoresValue | lru/lru_test.go:15-24 | When K = 1, or the key is resident, or this Add completes K visits, an entry that fits the budget can be read back with the added value. It leaves the history tier. |
| LruSpec.AddTouchesOnlyKey | lru/lru.go:8-9 | After `Add`, every other resident key was already resident and keeps its value. |
| LruSpec.OversizeEmptiesTier | lru/lru.go:6-7 | An entry that alone exceeds a non-zero budget is admitted into the cache tier (as an update, with K = 1, or on promotion) and then evicts everything, itself included. Every previously resident entry other than the key is reported. |
| LruSpec.UnboundedNeverEvicts | lru/lru_test.go:15-16 | With `maxBytes == 0`, `Add` evicts nothing and no resident key is lost. |
| LruSpec.EvictedAreOldestAndGone | lru/lru_test.go:84-99 | On every Add that writes the cache tier (an update, K = 1, or a promotion), the entries handed to `onEvicted` are the back of the touched tier, oldest first. None of them remains resident, and each was resident before or is the added key. |
| LruSpec.HistoryAddEvictsNothing | lru/lru_test.go:39-50 | An Add that only records a visit in the history (a new key, or a count that stays below K) leaves the cache tier unchanged and calls `onEvicted` for nothing. |
| LruSpec.NewKeyStartsHistory | lru/lru_test.go:101-117 | With K > 1, a new key gets a history record with count 1 at the front, and the cache tier is unchanged. If history was full, exactly its oldest record is dropped and the rest keep their order. |
| LruSpec.HistoryHitCounts | lru/lru_test.go:39-50 | A key with a history record below K - 1 has its count raised by one and moves to the front; no other count changes. A key at K - 1 leaves the history, and every other record keeps its count. |
| LruSpec.OtherKeyCountFrame | lru/lru_test.go:101-117 | An Add of one key never creates another key's history record and never changes its count; that record can only be dropped. |
| LruSpec.FirstVisit | lru/lru_test.go:39-50 | With K > 1, the first Add of a new key keeps the invariant. The key is not readable and has one recorded visit. |
| LruSpec.NextVisit | lru/lru_test.go:39-50 | A further Add of a key with n recorded visits keeps the invariant. Below K it counts visit n + 1, and the K-th makes the key readable with the added value. |
| LruSpec.Promotion | lru/lru_test.go:39-67 | A new key added m < K times is not readable and has history count m. After K adds it is resident with the added value, when it fits the budget. |
| LruTest.UnlimitedK1 | lru/lru_test.go:15-24 | K = 1, no budget: `key1` reads back `1234`, and `key2` misses. |
| LruTest.LimitedK1 | lru/lru_test.go:26-37 | K = 1, 20 bytes, three 8-byte entries: `key1` is evicted and `key2` is still `1234`. |
| LruTest.UnlimitedK2 | lru/lru_test.go:39-50 | K = 2: `key3`, added once, misses. `key1`, added twice, reads back `1234`. |
| LruTest.LimitedK2 | lru/lru_test.go:52-67 | K = 2, 20 bytes, three keys each promoted: `key1` is evicted and `key2` is still `1234`. |
| LruTest.RemoveOldestScenario | lru/lru_test.go:70-82 | The budget is two entries. Adding a third evicts `key1`, and two entries remain. |
| LruTest.OnEvictedScenario | lru/lru_test.go:84-99 | `onEvicted` receives `key1`, then `k2`. `k3` and `k4` stay resident. |
| LruTest.DeleteHistoryScenario | lru/lru_test.go:101-117 | With `historyMax = 2`, `key1`'s record is dropped, and its later Add restarts its count at 1, so it misses. `key3` is promoted and reads back `1234`. |
| Lru.Cache.constructor | lru/lru.go:27-34 | `New` gives empty tiers, zero bytes and no evictions, and keeps the given settings and callback. |
| Lru.Cache.Len | lru/lru_test.go:79 | The count of entries equals the number of resident keys. |
| Lru.Cache.Get | cache.go:31 | In-place `Get` returns the answer and new tiers of `LruSpec.Get`. It keeps the invariant and the byte count, and calls no callback. |
| Lru.Cache.RemoveOldest | lru/lru_test.go:70-82 | Drops the back entry, if any, and reports it to `onEvicted` when a callback exists. Key map and byte count stay in step, and the history is unchanged. |
| Lru.Cache.EvictOverBudget | lru/lru.go:6-7 | The eviction loop leaves the tier `LruSpec.Shrink` gives. It reports exactly Shrink's evicted entries, in order. |
| Lru.Cache.Add | cache.go:23 | In-place `Add` moves the tiers exactly as `LruSpec.Add` does and logs exactly its evictions (when a callback exists). The invariant, including `nbytes` = byte sum and the budget, is preserved. |
| Wrapper.Cache.constructor | cache.go:8-14 | A wrapper holds its settings and no engine. |
| Wrapper.Cache.Add | cache.go:16-24 | The first `add` builds a fresh engine with the wrapper's K, cacheBytes and historyMax and no callback. Later adds reuse it. The key and value are forwarded unchanged (the tiers become `LruSpec.Add` of the old ones). |
| Wrapper.Cache.Get | cache.go:25-35 | With no engine, `get` misses without building one. Otherwise it returns the engine's answer with `true` on a hit, and the zero `ByteView` with `false` on a miss. |
| OCache.Group.constructor | ocache.go:43-47 | A Group keeps its name and getter, and its wrapper has no engine yet. |
| OCache.Group.Get | ocache.go:62-75 | `Get` returns what `GroupGet` returns and leaves the tiers it gives. The loader is called (and logged) exactly when `GroupGet` says. |
| OCache.Group.Load | ocache.go:78-80 | `load` calls the loader once. It returns the loader's error with the cache unchanged, or the copied value with that value added. |
| OCache.Group.GetLocally | ocache.go:82-91 | On loader error, the error is returned and nothing is cached. On success, the bytes are copied into a ByteView, which is returned and added to the cache. |
| OCache.Group.PopulateCache | ocache.go:93-95 | The value is added to the cache through the wrapper's `add`. |
| OCache.Registry.NewGroup | ocache.go:37-50 | A nil getter registers nothing. Otherwise a fresh Group with an unbuilt cache is stored under its name, replacing any earlier one. |
| OCache.Registry.GetGroup | ocache.go:54-59 | Returns the Group registered under the name if and only if the name is registered. |
| OCache.EmptyKeyRejected | ocache.go:63-65 | `Get("")` is the key-required error. The loader is not called and the cache is unchanged. |
| OCache.HitSkipsLoader | ocache.go:67-71 | On a hit, `Get` returns the cached value without calling the loader. The resident contents and the history do not change. |
| OCache.LoadErrorNotCached | ocache.go:82-86 | On a miss with a loader error, `Get` returns that error and the engine is unchanged. |
| OCache.LoadSuccessCached | ocache.go:87-90 | On a miss with loader success, `Get` returns the loader's bytes and hands that value to the engine's Add. If the engine admits it (K = 1, or this completes K visits) and it fits, the next `Get` hits with it and skips the loader. |
| OCache.GroupGetPreservesInv | ocache.go:62-75 | `Get` keeps every engine invariant. |
| OCacheTest.FourGetsLoadTwice | ocache_test.go:30-46 | With K = 2, four Gets of a known key all return the database bytes. The loader runs for the first two only. |
| OCacheTest.UnknownKeyFails | ocache_test.go:48-50 | A key missing from the database and the cache is an error, and nothing is cached. |
| OCacheTest.GetFourTimes | ocache_test.go:30-46 | The same scenario through a Group object: four equal answers and exactly two loader calls. |

## Left out

- The mutexes: `sync.Mutex` in `cache` and the registry's `sync.RWMutex`. Operations are modelled as sequential.
- Logging in `Group.Get` and in the test loader. It is a side effect only.
- `peers.go`, peer picking and single-flight coalescing. None of these is part of `Group.Get` in `ocache.go`, and coalescing is concurrency.
- `main/main.go` and `main/panicmain.go`. They are HTTP and flag plumbing and a goroutine demo.
- Go's `container/list` is modelled as a sequence plus a map. Element pointers and aliasing of list elements are not modelled.
- `byteview.go` is not part of this model. `ByteView` is an immutable byte sequence, and `cloneBytes` is an exact copy.
- The getter is a total Dafny function from key to bytes or error. `GetterFunc.Get` is function application, so the loader cannot have side effects beyond the `loads` log, which records its calls.
- Keys are strings of characters, and `len(key)` is modelled as the number of characters. Go counts UTF-8 bytes, so the two differ for non-ASCII keys.
- int64 widths: `maxBytes`, `nbytes`, K and `historyMax` are naturals. Overflow and negative budgets are not modelled.
- Lru.Cache.constructor: requires K >= 1, and historyMax >= 1 when K > 1. The code and tests do not determine the behaviour for K = 0 or a zero-capacity history.
- Wrapper.Cache.constructor, OCache.Group.constructor and OCache.Registry.NewGroup: they carry the same requirement on K and historyMax, for the same reason.
- OCache.Registry.NewGroup: a nil getter returns `None` instead of panicking.
- OCache.Registry: the registry does not carry the validity of the Groups it holds. A caller uses the validity that `NewGroup` returns.
- Lru.Cache.Get: move-to-front on a hit is modelled, but no scenario above exercises it.
- LruSpec.Add / LruSpec.HistoryHitCounts: a history hit below K - 1 moves the key's record to the front of the history tier. The history therefore drops its least recently touched record when full, not its least recently added one. The tests use K <= 2 and never reach this case, and the bodies of `Add` are not in `lru/lru.go`, so this order is a modelling choice. For example, with K = 3 and historyMax = 2, the Adds a, b, a, c drop `b`, where an insertion-ordered history would drop `a`.
