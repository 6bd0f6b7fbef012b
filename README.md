# Yoki cache pool, modelled in Dafny

Yoki is an in-process key-value cache for Deno. A `Yoki` object owns a JavaScript `Map`, called
the pool. It offers `create` (insert or overwrite), `exists`, `find` (which returns `undefined` on
a miss instead of failing), `delete` (which reports whether the key was there), `clear`, the
`size` getter, key and value enumeration (`findKeys`, `findValues`), and `forEach`. Without a
callback, `forEach` only traces each entry, and it skips that walk when the pool holds more than
250 entries.

The model has five modules:

- `KeyOrder` (`key_order.dfy`): the key type (`Str(string) | Num(int)`, so the string `"1"` and
  the number `1` are different keys). It also holds the insertion order a `Map` enumerates its
  keys in, and what `Map.delete` does to that order (`Without`).
- `PoolSpec` (`pool_spec.dfy`): the pool as an abstract value `Pool(order, store)`. `order` holds
  the keys in insertion order and `store` the value under each key. `Wf` is the pool invariant:
  no key repeats, and the ordered keys are exactly the stored keys. The module gives one function
  per `Map` operation the class uses (`Empty`, `Insert`, `Remove`, `Has`, `Get`, `Count`,
  `Values`, `Entries`), and lemmas that state what those operations promise.
- `JsRuntime` (`js_runtime.dfy`): the two JavaScript conversions the class applies to stored
  values while it builds its trace messages, `JSON.stringify` and a template literal, and the
  outcome of a call that may throw (`Outcome = Returned(value) | Threw`). A `Runtime` records,
  per call, which payloads each conversion accepts.
- `YokiCache` (`yoki.dfy`): the class `Yoki<T>`. Its fields are `configuration`, `order` and
  `store`, and its methods update the fields in place. Each method keeps `Valid()` (the pool
  invariant). Each ties its result and its new state to the `PoolSpec` functions of the old state.
  A method that only reads has no `modifies` clause, so it cannot change the pool.
- `CacheDemo` (`cache_demo.dfy`): a client that replays the repository's demo script
  (test/__cache__.ts) and proves the results its comments expect. The script only names
  `findKeys` and `findValues` (lines 27 and 29) without calling them, and in JavaScript they return
  iterators, not arrays; the client calls both and proves the arrays those comments show. It also
  makes two calls the script does not make, `exists` on the number 1 and `find` on a missing key.
  Further short scripts cover `delete`, `clear`, and the three ways a trace message can throw.

A JavaScript value is `JsValue<T> = Undefined | Defined(payload)`. `find` returns `Undefined`
both for a missing key and for a key whose stored value is `undefined`, as the source does. The
demo's payloads `{ name: "Yoki test 1" }` are modelled by their `name` string.

The logger's output has no effect on the pool, but the message it is handed is built at the call
site, before the logger looks at `debug_mode`. Building it can throw, whether or not debugging is
on. `create` stringifies the value before it stores it, so a value `JSON.stringify` rejects (a
BigInt, a circular object) makes `create` throw with nothing stored. The default `forEach` walk
stringifies each value in turn and throws at the first one rejected, after tracing the entries
before it. `find` on a hit turns the value into a string, which throws for a Symbol or an object
without `toString`. The model has `create`, `find` and `forEach` take a `Runtime` and report
`Threw` in exactly those cases. The guard `value !== typeof Object` in lib/Yoki.ts:42 and :71
compares with the string `"function"`. It only skips the stringify for that one string, which
`JSON.stringify` accepts anyway, so it changes no outcome.

## Model

| member | source | states |
|---|---|---|
| `KeyOrder.Without` | lib/Yoki.ts:115-118 | the key order after a delete holds exactly the keys other than the deleted one, and is no longer than before |
| `KeyOrder.WithoutNoDup` | lib/Yoki.ts:115-118 | deleting a key from a duplicate-free key order keeps it duplicate-free |
| `KeyOrder.WithoutAbsent` | lib/Yoki.ts:115-118 | deleting a key that is not in the pool leaves the key order as it was |
| `KeyOrder.WithoutSplice` | lib/Yoki.ts:115-118 | deleting the key at position i removes exactly that position; every other key keeps its relative order |
| `PoolSpec.ValuesOf` | lib/Yoki.ts:105-108 | the value enumeration has one value per key, and the i-th value is the one stored under the i-th key |
| `PoolSpec.EntriesOf` | lib/Yoki.ts:60-76 | the entry enumeration has one entry per key, and the i-th entry pairs the i-th key with its stored value |
| `PoolSpec.CountIsKeyCount` | lib/Yoki.ts:132-135 | in a well-formed pool the Map size equals the number of distinct keys in the enumeration |
| `PoolSpec.InsertWf` | lib/Yoki.ts:41-45 | create keeps the pool invariant: no repeated key, and ordered keys equal stored keys |
| `PoolSpec.InsertThenGet` | lib/Yoki.ts:41-45 | after create(k, v), k exists and find(k) gives v; every other key reads as before |
| `PoolSpec.InsertPresent` | lib/Yoki.ts:43 | create on a key already present leaves the size and the key order unchanged |
| `PoolSpec.InsertAbsent` | lib/Yoki.ts:43 | create on a new key grows the size by one and puts the key last in the enumeration |
| `PoolSpec.InsertOverwrites` | lib/Yoki.ts:43 | two creates on one key leave only the second value: the last write wins |
| `PoolSpec.RemoveWf` | lib/Yoki.ts:115-118 | delete keeps the pool invariant |
| `PoolSpec.RemoveEffect` | lib/Yoki.ts:115-118 | after delete(k), k is absent. The size drops by one exactly when k was present. Every other key keeps its value |
| `PoolSpec.RemoveKeepsOrder` | lib/Yoki.ts:115-118 | delete(k) removes exactly k's position from the key order and keeps every other key in its relative place; the order is unchanged when k was absent |
| `PoolSpec.RemoveIdempotent` | lib/Yoki.ts:115-118 | deleting a key twice has the same effect as deleting it once |
| `PoolSpec.InsertThenRemove` | lib/Yoki.ts:41-45 | creating a new key and then deleting it restores the pool exactly, order included |
| `PoolSpec.KeysValuesCorrespond` | lib/Yoki.ts:97-108 | findKeys and findValues both have the pool's size; keys never repeat; the i-th value is the one stored under the i-th key |
| `PoolSpec.EntriesCorrespond` | lib/Yoki.ts:60-76 | the entries forEach visits number the pool's size, and the i-th pairs the i-th key with the i-th value |
| `YokiCache.Yoki.constructor` | lib/Yoki.ts:21-33 | a new cache keeps its configuration and starts with an empty, valid pool of size 0 |
| `JsRuntime.TracedCount` | lib/Yoki.ts:70-73 | the number of entries the default walk traces: every value before that position is accepted by JSON.stringify, and the value at it (if any) is rejected |
| `YokiCache.Yoki.Create` | lib/Yoki.ts:41-45 | throws exactly when JSON.stringify rejects the value, and then the pool is unchanged. Otherwise it returns the given value, the store maps the key to it, a new key is appended to the order and an existing key keeps its place; nothing else changes |
| `YokiCache.Yoki.Exists` | lib/Yoki.ts:52-54 | true exactly when the key is stored, which is exactly when it is in the key enumeration |
| `YokiCache.Yoki.ForEach` | lib/Yoki.ts:60-76 | with a callback, visits every entry in enumeration order and does not throw. Without one, it visits nothing when size > 250; when size <= 250 it traces the entries in order up to the first value JSON.stringify rejects, and throws exactly when there is such a value. It never changes the pool |
| `YokiCache.Yoki.Find` | lib/Yoki.ts:83-92 | throws exactly when the key stores a defined value that a template literal cannot convert. Otherwise it returns the stored value, which is undefined exactly when the key is missing or stores undefined; a miss never throws and changes nothing |
| `YokiCache.Yoki.FindKeys` | lib/Yoki.ts:97-100 | the keys in insertion order, each once, exactly the stored keys, as many as the size |
| `YokiCache.Yoki.FindValues` | lib/Yoki.ts:105-108 | one value per key, the i-th stored under the i-th key of findKeys, as many as the size |
| `YokiCache.Yoki.Delete` | lib/Yoki.ts:115-118 | true exactly when the key was present; the new pool is the old one with that key removed, the rest in order |
| `YokiCache.Yoki.Clear` | lib/Yoki.ts:124-127 | the pool becomes empty: size 0 and no key exists; the configuration is unchanged |
| `YokiCache.Yoki.Size` | lib/Yoki.ts:132-135 | the Map size, which equals the number of keys findKeys returns |
| `CacheDemo.DemoPoolFacts` | test/__cache__.ts:11-31 | after the demo's three creates: keys "1","2","3" in order, the values alongside, size 3; "1" is found and the number 1 is not |
| `CacheDemo.DemoScript` | test/__cache__.ts:3-31 | after the script's creates, exists and find, calling findKeys and findValues (which the script only names) gives keys ["1","2","3"] and the three values in order, and the size is 3 |
| `CacheDemo.DeleteScript` | lib/Yoki.ts:115-118 | deleting "2" from the demo pool reports true and leaves keys ["1","3"]; deleting it again reports false |
| `CacheDemo.ClearScript` | lib/Yoki.ts:124-127 | clearing the demo pool gives size 0, and "1" no longer exists |
| `CacheDemo.RejectedCreateScript` | lib/Yoki.ts:41-45 | a create whose value JSON.stringify rejects throws, and the pool stays empty |
| `CacheDemo.ThrowingFindScript` | lib/Yoki.ts:83-92 | a value that stringifies but cannot be converted by a template literal is stored, a find on it throws, and a miss still returns undefined |
| `CacheDemo.ThrowingWalkScript` | lib/Yoki.ts:70-73 | when the second of two stored values has become unstringifiable, the default walk traces the first entry and then throws |

## Left out

- Logging (lib/logger.ts): the console output itself (ANSI colours, timestamps). It has no effect
  on the pool. Only the building of the message at the call site is modelled, because it can
  throw; the logger's own body catches its errors.
- The eviction sweeper: lib/types.ts and lib/utils.ts only declare a filter/interval shape and a
  default filter. No code in lib/Yoki.ts starts a timer or evicts entries, so there is nothing to
  model. `Config` therefore carries only `debugMode` and `maxCacheSize`.
- Capacity limits: `max_cache_size` and `max_pool_size` are accepted but never enforced.
- Static sharing: `pool` and `logger` are static fields, shared by every `Yoki` object. The model
  gives each object its own pool. Constructing a second object therefore does not empty the
  first object's pool here, as it would in the source.
- `YokiCache.Yoki.constructor`: takes a configuration. The no-configuration path
  (lib/Yoki.ts:22-27) calls the static logger before line 30 assigns it, so it fails on a first
  construction; it is not modelled.
- The `version` and `lib_state` constants and their getters (lib/Yoki.ts:140-151): constant
  strings with no behaviour.
- `YokiCache.Yoki.ForEach`: a callback's own effects, including a throw from it, are arbitrary
  foreign code. The model returns
  the sequence of entries the callback (or the default trace) is given. A callback that changes the
  pool while it is being walked is not modelled.
- `YokiCache.Yoki.FindKeys` and `YokiCache.Yoki.FindValues`: the source returns live `Map`
  iterators. The model returns sequences, which are snapshots of the iterators' contents at the
  time of the call. Later changes to the pool are not reflected in them.
- Keys: numeric keys are unbounded integers. Fractional numbers, `NaN` and `-0` (which a `Map`
  compares by SameValueZero) are not modelled. Nor is the precision limit of a JavaScript number:
  integers beyond 2^53 that round to the same double, such as 2^53 and 2^53 + 1, are one key in
  the source but two keys here. A Dafny string cannot hold a lone UTF-16 surrogate, which a
  JavaScript string key can.
