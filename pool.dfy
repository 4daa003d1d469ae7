/** The PSR-6 cache item pool the facade delegates to, reduced to what the
    facade observes: a map from storage keys to values, where a key that is
    present is a hit, and writes that the pool either accepts or rejects. */
module ItemPool {

  /** The expiry passed to `expiresAfter`: none, a number of seconds or a
      date interval. The pool enforces expiry; the model only carries it. */
  datatype Ttl = NoExpiry | Seconds(seconds: int) | Interval(interval: string)

  /** What `getItem` hands back: a hit carrying the stored value, or a miss. */
  datatype Item<V> = Hit(key: string, value: V) | Miss(key: string)

  class Pool<V> {
    /** The live (unexpired) entries, by storage key. */
    var entries: map<string, V>
    /** A pool that refuses every write: `save`, `deleteItem` and `clear`
        report failure and change nothing. */
    const rejectsWrites: bool

    constructor (entries: map<string, V>, rejectsWrites: bool)
      ensures this.entries == entries && this.rejectsWrites == rejectsWrites
    {
      this.entries := entries;
      this.rejectsWrites := rejectsWrites;
    }

    /** `getItem(key)`: a hit exactly when the key has a live entry. */
    function GetItem(key: string): (item: Item<V>)
      reads this
      ensures item.key == key
      ensures item.Hit? <==> key in entries
      ensures item.Hit? ==> item.value == entries[key]
    {
      if key in entries then Hit(key, entries[key]) else Miss(key)
    }

    /** `save(item)` for an item holding `value` with expiry `ttl`. */
    method Save(key: string, value: V, ttl: Ttl) returns (ok: bool)
      modifies this
      ensures ok == !rejectsWrites
      ensures entries == if ok then old(entries)[key := value] else old(entries)
    {
      ok := !rejectsWrites;
      if ok {
        entries := entries[key := value];
      }
    }

    /** `deleteItem(key)`: removing an absent key succeeds too. */
    method DeleteItem(key: string) returns (ok: bool)
      modifies this
      ensures ok == !rejectsWrites
      ensures entries == if ok then old(entries) - {key} else old(entries)
    {
      ok := !rejectsWrites;
      if ok {
        entries := entries - {key};
      }
    }

    /** `clear()`: removes every entry of the pool. */
    method Clear() returns (ok: bool)
      modifies this
      ensures ok == !rejectsWrites
      ensures entries == if ok then map[] else old(entries)
    {
      ok := !rejectsWrites;
      if ok {
        entries := map[];
      }
    }
  }
}
