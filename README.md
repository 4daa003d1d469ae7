# CacheItemPoolCache in Dafny

A model of `Gadget\Cache\CacheItemPoolCache`, a namespaced key-value cache
facade over a PSR-6 ("Caching Interface") item pool, with proofs of its
namespace-composition, key-derivation, read, write and bulk-operation rules.

- `namespaces.dfy`, module `Namespaces` (pure): the argument of
  `withNamespace` (`NamespaceArg`: one string or a list), its normalisation,
  namespace composition, `implode('::', ...)` (`Join`), the hashed message
  (`Path`) and the storage key (`StorageKey`). `Join`, `Path` and
  `StorageKey` are helpers of `GetItem`, which states the derivation in its
  contract; the lemmas below state their properties.
- `pool.dfy`, module `ItemPool`: the PSR-6 pool the facade consumes, as a
  class `Pool` whose `entries` map storage keys to values. A key that is
  present is a hit; `GetItem`, `Save`, `DeleteItem` and `Clear` stand for
  `getItem`, `save`, `deleteItem` and `clear`. Whether the pool accepts writes
  is the constant `rejectsWrites`: a pool that rejects writes reports failure
  and changes nothing.
- `cache.dfy`, module `Cache`: the facade as a class `CacheItemPoolCache`
  whose constant fields are the shared pool (`cache`), the namespace and the
  digest function. Reads are functions that read the pool; `Set`, `Delete`,
  `Clear` and the bulk writes are methods that modify it, and the three
  `foreach` loops are `while`/`for` loops with invariants. `Written` is the
  pool contents after a bulk write, and `StorageKeys` the keys a bulk delete
  removes.

The SHA-256 digest is a parameter: each facade holds a `hash: string ->
string`, and `WithNamespace` passes it on. The model assumes nothing about it.
Where distinct storage keys are needed, a lemma or scenario states the
inequality of the two digests it needs as a precondition.

Three behaviours of the code are worth knowing:

- `withNamespace` wraps a string argument as a one-element list. It does not
  split it on `::`. A segment that contains `::` therefore gives the same
  path as the segments it contains (`SeparatorInSegmentCollides`), and a
  logical key that contains `::` gives the same path as its last part under
  a longer namespace (`SeparatorInKeyCollides`).
- The constructor stores the namespace list as given.
- `clear` forwards to the pool's `clear`, which empties the whole pool across
  every namespace.

## Model

| member | source | states |
|---|---|---|
| `Namespaces.Normalize` | src/CacheItemPoolCache.php:47 | a string becomes the one-segment list holding it, unsplit; a list is kept as it is |
| `Namespaces.Compose` | src/CacheItemPoolCache.php:47-51 | the result has the length of the addition, plus the old namespace's length when appending; when appending, the old namespace is its prefix; the normalised addition is always its suffix |
| `Namespaces.ComposeReplaceIgnoresBase` | src/CacheItemPoolCache.php:51 | replacing discards the old namespace: any two bases give the same result, the normalised addition |
| `Namespaces.ComposeAppendAssociative` | src/CacheItemPoolCache.php:51 | appending B and then C equals appending the list B followed by C once |
| `Namespaces.ComposeAppendEmpty` | src/CacheItemPoolCache.php:51 | appending the empty list leaves the namespace unchanged |
| `Namespaces.PathExtends` | src/CacheItemPoolCache.php:64 | the hashed message is the joined namespace, then `::`, then the key; under the empty namespace it is the key alone |
| `Namespaces.JoinInjective` | src/CacheItemPoolCache.php:64 | joining with `::` is injective on non-empty lists of segments that contain no colon |
| `Namespaces.PathInjective` | src/CacheItemPoolCache.php:64 | for colon-free segments and keys, two messages are equal iff the namespaces are equal in order and the keys are equal; the same segments in another order give another message |
| `Namespaces.StorageKeyInjective` | src/CacheItemPoolCache.php:62-65 | storage keys are a function of namespace and key; for colon-free segments and keys, if the digest does not collide on the two messages, they agree iff namespace and key do |
| `Namespaces.SeparatorInSegmentCollides` | src/CacheItemPoolCache.php:47-64 | the distinct namespaces `["a::b"]` and `["a", "b"]` hash the same message for key `c` |
| `Namespaces.SeparatorInKeyCollides` | src/CacheItemPoolCache.php:64 | the key `b::c` under `["a"]` and the key `c` under `["a", "b"]` hash the same message, so a key containing `::` reaches another namespace's entry |
| `Cache.CacheItemPoolCache.constructor` | src/CacheItemPoolCache.php:16-20 | the facade holds the given pool, namespace and digest and touches nothing else |
| `Cache.CacheItemPoolCache.GetNamespace` | src/CacheItemPoolCache.php:32-35 | returns the namespace fixed at construction; the field is constant, so no operation changes it |
| `Cache.CacheItemPoolCache.WithNamespace` | src/CacheItemPoolCache.php:43-53 | returns a fresh facade over the same pool and digest; its namespace is the normalised argument when replacing, else the receiver's namespace followed by it; the receiver is unchanged |
| `Cache.CacheItemPoolCache.GetItem` | src/CacheItemPoolCache.php:60-66 | the item is addressed by the digest of the namespace and key joined with `::`; it is a hit iff the pool holds that storage key, and then carries the stored value |
| `Cache.CacheItemPoolCache.Has` | src/CacheItemPoolCache.php:73-76 | true iff the pool holds the key's storage key; reads only |
| `Cache.CacheItemPoolCache.Get` | src/CacheItemPoolCache.php:84-92 | the stored value on a hit, the default on a miss; reads only |
| `Cache.CacheItemPoolCache.GetT` | src/CacheItemPoolCache.php:102-108 | the transform of the stored value on a hit, and the transform of the default on a miss |
| `Cache.CacheItemPoolCache.Set` | src/CacheItemPoolCache.php:117-127 | returns what the pool's save returns; on success only the key's storage key changes, to the value, and `Has` is true and `Get` returns the value for every default; on failure nothing changes |
| `Cache.CacheItemPoolCache.Delete` | src/CacheItemPoolCache.php:134-137 | returns the pool's result; on success exactly the key's storage key is removed, so `Has` is false and `Get` returns the default; on failure nothing changes |
| `Cache.CacheItemPoolCache.GetMultiple` | src/CacheItemPoolCache.php:145-152 | exactly one pair per input key, in input order, the i-th being the i-th key and what `Get` returns for it |
| `Cache.CacheItemPoolCache.SetMultiple` | src/CacheItemPoolCache.php:160-170 | always returns true; the pool afterwards is `Written`: each string-keyed entry saved in order and integer-keyed entries skipped, or unchanged if the pool rejects writes |
| `Cache.WrittenElsewhere` | src/CacheItemPoolCache.php:164-168 | a bulk write leaves every storage key that no string-keyed entry addresses exactly as it was, neither added nor removed |
| `Cache.WrittenLast` | src/CacheItemPoolCache.php:164-168 | after a bulk write a string-keyed entry's storage key holds its value unless a later entry wrote the same storage key |
| `Cache.CacheItemPoolCache.DeleteMultiple` | src/CacheItemPoolCache.php:177-183 | always returns true; the pool afterwards lacks exactly the storage keys of the given keys, so every one misses, or is unchanged if the pool rejects writes |
| `Cache.CacheItemPoolCache.Clear` | src/CacheItemPoolCache.php:189-192 | returns the pool's result; on success the whole shared pool is empty, across all namespaces |
| `Cache.ClearedPoolMisses` | src/CacheItemPoolCache.php:189-192 | once the pool is empty, every facade over it misses on every key and returns the default |
| `Cache.SharedView` | src/CacheItemPoolCache.php:49-65 | two facades with the same pool, digest and namespace derive the same storage key and see the same `Has` and `Get` |
| `Cache.IsolationScenario` | src/CacheItemPoolCache.php:43-76 | after a set under `["app", "users"]`, the facade derived with the replacing namespace `posts` misses the same key, given that the digest separates the two messages |
| `Cache.BulkWrites` | src/CacheItemPoolCache.php:160-170 | a bulk write of `a => 1, b => 2, 7 => 3` into an empty pool stores 1 and 2 under the digests of `a` and `b` and nothing else |
| `Cache.BulkScenario` | src/CacheItemPoolCache.php:160-170 | `setMultiple` returns true on a writable and on a rejecting pool; afterwards `get` gives 1 and 2, or the defaults if the pool rejected; the integer key is never stored |

## Left out

- The SHA-256 digest itself is a parameter of the facade. No collision resistance is assumed; the lemmas that need two digests to differ say so in their preconditions.
- TTL and expiry: `Ttl` is carried to `Save` and never interpreted. A key that is present in `entries` is a live hit. In particular a PSR-6 pool treats `Seconds(s)` with `s <= 0` as already expired, so there the source misses after a successful `set`, while `Set` here promises a hit for every `ttl`. Expiry, eviction, persistence and deferred saves belong to the pool.
- PSR-6 item objects: `getItem(...)->set($value)->expiresAfter($ttl)` followed by `save($item)` is modelled as one `Save(storageKey, value, ttl)`.
- Pool failures are all-or-nothing (`rejectsWrites`). A pool that fails some writes and accepts others is not modelled.
- `getMultiple` is a lazy generator in the source. The model computes the whole sequence of pairs at once, so pool changes made between two yields are not modelled.
- The keys of `setMultiple`'s input are given as `ArrayKey` values, string or integer, as PHP delivers them. PHP's conversion of decimal-integer string array keys such as `"42"` to integers happens before the method runs and is not modelled.
- PHP `mixed` values are the type parameter `V`. A `toT` callable's side effects are not modelled; it is a total function.
- Namespaces are modelled as lists. PHP arrays with string keys, which the `string[]` type of `withNamespace` admits, are not modelled: the spread at src/CacheItemPoolCache.php:51 overwrites a base segment with an equal string key in place on PHP 8.1 and later, and throws on PHP 8.0. `Compose` and `ComposeAppendAssociative` describe list arguments only.
- The keys of `getMultiple` and `deleteMultiple` are typed as strings. Under strict types, a non-string key makes `get` or `delete` throw a `TypeError` after the earlier keys were already read or deleted: the generator of `getMultiple` stops at that key, and `deleteMultiple` never returns `true`. That error path is excluded by type and not modelled. `setMultiple` skips such keys instead, and that is modelled.
- The PHP default arguments `$namespace = []`, `$replace = false`, `$default = null` and `$ttl = null` are explicit parameters in the model; a caller passes `[]`, `false`, its default value or `NoExpiry`.
- `getCache` is the field `cache` itself.
