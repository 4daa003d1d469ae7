/** The namespaced key-value facade `CacheItemPoolCache` over a shared PSR-6
    item pool. Every operation derives the storage key of its logical key from
    the facade's namespace and hands the item-level work to the pool. */
module Cache {
  import opened Namespaces
  import opened ItemPool

  /** A key of the PHP array (or iterable) given to `setMultiple`. */
  datatype ArrayKey = StrKey(s: string) | IntKey(i: int)

  /** The pool contents after saving, in order, every string-keyed entry of
      `values` under `namespace` into `entries`; integer-keyed entries are skipped. */
  function Written<V>(entries: map<string, V>, hash: string -> string, namespace: seq<string>,
                      values: seq<(ArrayKey, V)>): map<string, V>
    decreases |values|
  {
    if values == [] then entries
    else
      var before := Written(entries, hash, namespace, values[..|values| - 1]);
      var (k, v) := values[|values| - 1];
      if k.StrKey? then before[StorageKey(hash, namespace, k.s) := v] else before
  }

  /** The storage keys that the string-keyed entries of `values` address. */
  function Targets<V>(hash: string -> string, namespace: seq<string>, values: seq<(ArrayKey, V)>): set<string>
  {
    set i | 0 <= i < |values| && values[i].0.StrKey? :: StorageKey(hash, namespace, values[i].0.s)
  }

  /** The storage keys of `keys` under `namespace`. */
  function StorageKeys(hash: string -> string, namespace: seq<string>, keys: seq<string>): set<string>
  {
    set i | 0 <= i < |keys| :: StorageKey(hash, namespace, keys[i])
  }

  /** A bulk write touches only the storage keys of its string-keyed entries:
      every other entry of the pool is kept, and no other entry appears. */
  lemma {:induction false} WrittenElsewhere<V>(entries: map<string, V>, hash: string -> string,
                                              namespace: seq<string>, values: seq<(ArrayKey, V)>, sk: string)
    requires sk !in Targets(hash, namespace, values)
    ensures sk in Written(entries, hash, namespace, values) <==> sk in entries
    ensures sk in entries ==> Written(entries, hash, namespace, values)[sk] == entries[sk]
  {
    if values != [] {
      var init := values[..|values| - 1];
      assert Targets(hash, namespace, init) <= Targets(hash, namespace, values) by {
        forall t | t in Targets(hash, namespace, init) ensures t in Targets(hash, namespace, values) {
          var i :| 0 <= i < |init| && init[i].0.StrKey? && t == StorageKey(hash, namespace, init[i].0.s);
          assert init[i] == values[i];
        }
      }
      WrittenElsewhere(entries, hash, namespace, init, sk);
      var last := |values| - 1;
      if values[last].0.StrKey? {
        assert StorageKey(hash, namespace, values[last].0.s) in Targets(hash, namespace, values);
      }
    }
  }

  /** After a bulk write, a string-keyed entry holds its value unless a later
      entry of the same batch was written to the same storage key. */
  lemma {:induction false} WrittenLast<V>(entries: map<string, V>, hash: string -> string,
                                         namespace: seq<string>, values: seq<(ArrayKey, V)>, i: nat)
    requires i < |values| && values[i].0.StrKey?
    requires forall j :: i < j < |values| && values[j].0.StrKey? ==>
               StorageKey(hash, namespace, values[j].0.s) != StorageKey(hash, namespace, values[i].0.s)
    ensures StorageKey(hash, namespace, values[i].0.s) in Written(entries, hash, namespace, values)
    ensures Written(entries, hash, namespace, values)[StorageKey(hash, namespace, values[i].0.s)] == values[i].1
  {
    var last := |values| - 1;
    if i < last {
      var init := values[..last];
      assert init[i] == values[i];
      forall j | i < j < |init| && init[j].0.StrKey?
        ensures StorageKey(hash, namespace, init[j].0.s) != StorageKey(hash, namespace, init[i].0.s)
      {
        assert init[j] == values[j];
      }
      WrittenLast(entries, hash, namespace, init, i);
    }
  }

  class CacheItemPoolCache<V> {
    /** The shared pool; facades derived by `WithNamespace` hold the same one. */
    const cache: Pool<V>
    /** The namespace segments, fixed at construction. */
    const namespace: seq<string>
    /** The SHA-256 digest, as a function from message to hex string. */
    const hash: string -> string

    constructor (cache: Pool<V>, namespace: seq<string>, hash: string -> string)
      ensures this.cache == cache && this.namespace == namespace && this.hash == hash
    {
      this.cache := cache;
      this.namespace := namespace;
      this.hash := hash;
    }

    function GetNamespace(): (ns: seq<string>)
      ensures ns == namespace
    {
      namespace
    }

    /** A new facade over the same pool whose namespace is the argument alone
        (`replace`) or the current namespace followed by the argument. */
    method WithNamespace(arg: NamespaceArg, replace: bool) returns (c: CacheItemPoolCache<V>)
      ensures fresh(c)
      ensures c.cache == cache && c.hash == hash
      ensures c.GetNamespace() == Compose(GetNamespace(), arg, replace)
      ensures replace ==> c.GetNamespace() == Normalize(arg)
      ensures !replace ==> c.GetNamespace() == GetNamespace() + Normalize(arg)
    {
      c := new CacheItemPoolCache(cache, Compose(namespace, arg, replace), hash);
    }

    /** The pool item of `key`: addressed by the digest of the namespace and
        key joined with "::". */
    function GetItem(key: string): (item: Item<V>)
      reads cache
      ensures item.key == hash(Path(GetNamespace(), key))
      ensures item.Hit? <==> item.key in cache.entries
      ensures item.Hit? ==> item.value == cache.entries[item.key]
    {
      cache.GetItem(StorageKey(hash, namespace, key))
    }

    /** A hit exactly when the pool holds an entry at the key's storage key. */
    function Has(key: string): (hit: bool)
      reads cache
      ensures hit <==> StorageKey(hash, namespace, key) in cache.entries
    {
      GetItem(key).Hit?
    }

    /** The stored value on a hit, `default` on a miss. */
    function Get(key: string, default: V): (v: V)
      reads cache
      ensures Has(key) ==> v == cache.entries[StorageKey(hash, namespace, key)]
      ensures !Has(key) ==> v == default
    {
      match GetItem(key)
      case Hit(_, value) => value
      case Miss(_) => default
    }

    /** `toT` applied to what `Get` returns: to the stored value on a hit and
        to `default` on a miss. */
    function GetT<T>(key: string, toT: V -> T, default: V): (t: T)
      reads cache
      ensures Has(key) ==> t == toT(cache.entries[StorageKey(hash, namespace, key)])
      ensures !Has(key) ==> t == toT(default)
    {
      toT(Get(key, default))
    }

    /** Saves `value` at the key's storage key; the result is the pool's. */
    method Set(key: string, value: V, ttl: Ttl) returns (ok: bool)
      modifies cache
      ensures ok == !cache.rejectsWrites
      ensures cache.entries == if ok then old(cache.entries)[StorageKey(hash, namespace, key) := value]
                               else old(cache.entries)
      ensures ok ==> Has(key) && forall d :: Get(key, d) == value
    {
      var item := GetItem(key);
      ok := cache.Save(item.key, value, ttl);
    }

    /** Deletes the entry at the key's storage key; the result is the pool's. */
    method Delete(key: string) returns (ok: bool)
      modifies cache
      ensures ok == !cache.rejectsWrites
      ensures cache.entries == if ok then old(cache.entries) - {StorageKey(hash, namespace, key)}
                               else old(cache.entries)
      ensures ok ==> !Has(key) && forall d :: Get(key, d) == d
    {
      ok := cache.DeleteItem(GetItem(key).key);
    }

    /** One pair per key, in the order of `keys`, each holding what `Get` returns. */
    method GetMultiple(keys: seq<string>, default: V) returns (pairs: seq<(string, V)>)
      ensures |pairs| == |keys|
      ensures forall i :: 0 <= i < |keys| ==> pairs[i] == (keys[i], Get(keys[i], default))
    {
      pairs := [];
      for i := 0 to |keys|
        invariant |pairs| == i
        invariant forall j :: 0 <= j < i ==> pairs[j] == (keys[j], Get(keys[j], default))
      {
        pairs := pairs + [(keys[i], Get(keys[i], default))];
      }
    }

    /** Sets every string-keyed entry of `values`, in order, with the same
        `ttl`, skips the others and reports success whatever the pool did. */
    method SetMultiple(values: seq<(ArrayKey, V)>, ttl: Ttl) returns (ok: bool)
      modifies cache
      ensures ok
      ensures cache.entries == if cache.rejectsWrites then old(cache.entries)
                               else Written(old(cache.entries), hash, namespace, values)
    {
      var i := 0;
      while i < |values|
        invariant 0 <= i <= |values|
        invariant cache.entries == if cache.rejectsWrites then old(cache.entries)
                                   else Written(old(cache.entries), hash, namespace, values[..i])
      {
        var (k, v) := values[i];
        if k.StrKey? {
          var saved := Set(k.s, v, ttl);
        }
        assert values[..i + 1][..i] == values[..i];
        i := i + 1;
      }
      assert values[..i] == values;
      ok := true;
    }

    /** Deletes every key of `keys` and reports success whatever the pool did. */
    method DeleteMultiple(keys: seq<string>) returns (ok: bool)
      modifies cache
      ensures ok
      ensures cache.entries == if cache.rejectsWrites then old(cache.entries)
                               else old(cache.entries) - StorageKeys(hash, namespace, keys)
      ensures !cache.rejectsWrites ==> forall k :: k in keys ==> !Has(k)
    {
      var i := 0;
      while i < |keys|
        invariant 0 <= i <= |keys|
        invariant cache.entries == if cache.rejectsWrites then old(cache.entries)
                                   else old(cache.entries) - StorageKeys(hash, namespace, keys[..i])
      {
        var deleted := Delete(keys[i]);
        assert StorageKeys(hash, namespace, keys[..i + 1])
            == StorageKeys(hash, namespace, keys[..i]) + {StorageKey(hash, namespace, keys[i])} by {
          assert forall j :: 0 <= j < i ==> keys[..i + 1][j] == keys[..i][j];
          assert keys[..i + 1][i] == keys[i];
        }
        i := i + 1;
      }
      assert keys[..i] == keys;
      ok := true;
    }

    /** Clears the whole shared pool, across every namespace. */
    method Clear() returns (ok: bool)
      modifies cache
      ensures ok == !cache.rejectsWrites
      ensures cache.entries == if ok then map[] else old(cache.entries)
    {
      ok := cache.Clear();
    }
  }

  /** Facades over the same pool with the same namespace see the same entries. */
  lemma SharedView<V>(a: CacheItemPoolCache<V>, b: CacheItemPoolCache<V>, key: string, default: V)
    requires a.cache == b.cache && a.hash == b.hash
    requires a.GetNamespace() == b.GetNamespace()
    ensures a.GetItem(key).key == b.GetItem(key).key
    ensures a.Has(key) == b.Has(key) && a.Get(key, default) == b.Get(key, default)
  {
  }

  /** Clearing empties the shared pool, so every facade over it, whatever its
      namespace, misses on every key and answers with the default. */
  lemma ClearedPoolMisses<V>(c: CacheItemPoolCache<V>, key: string, default: V)
    requires c.cache.entries == map[]
    ensures !c.Has(key) && c.Get(key, default) == default
  {
  }

  /** The two messages hashed in IsolationScenario. */
  lemma ScenarioPaths()
    ensures Path(["app", "users"], "42") == "app::users::42"
    ensures Path(["posts"], "42") == "posts::42"
  {
    PathExtends(["app", "users"], "42");
    PathExtends(["posts"], "42");
    JoinHead(["app", "users"]);
    JoinSingle(["users"]);
    JoinSingle(["posts"]);
  }

  /** A value set under ["app", "users"] is not visible through a facade
      derived with the replacing namespace "posts", provided the digest
      tells the two messages apart. */
  method IsolationScenario(hash: string -> string) returns (usersHit: bool, postsHit: bool)
    requires hash("app::users::42") != hash("posts::42")
    ensures usersHit && !postsHit
  {
    var pool := new Pool<string>(map[], false);
    var users := new CacheItemPoolCache(pool, ["app", "users"], hash);
    ScenarioPaths();
    var saved := users.Set("42", "x", NoExpiry);
    var posts := users.WithNamespace(One("posts"), true);
    usersHit := users.Has("42");
    postsHit := posts.Has("42");
  }

  /** The pool contents after the bulk write of BulkScenario. */
  lemma BulkWrites(hash: string -> string)
    ensures Written(map[], hash, [], [(StrKey("a"), 1), (StrKey("b"), 2), (IntKey(7), 3)])
         == map[][hash("a") := 1][hash("b") := 2]
  {
    var values: seq<(ArrayKey, int)> := [(StrKey("a"), 1), (StrKey("b"), 2), (IntKey(7), 3)];
    var two, one := values[..2], values[..2][..1];
    assert two == [(StrKey("a"), 1), (StrKey("b"), 2)];
    assert one == [(StrKey("a"), 1)];
    assert |one[..0]| == 0;
    PathExtends([], "a");
    PathExtends([], "b");
    assert Written(map[], hash, [], one) == map[][hash("a") := 1];
    assert Written(map[], hash, [], two) == map[][hash("a") := 1][hash("b") := 2];
  }

  /** Bulk writes store every string-keyed value, skip integer keys, and report
      success even on a pool that rejects every write. */
  method BulkScenario(hash: string -> string, rejecting: bool) returns (ok: bool, a: int, b: int, hasSkipped: bool)
    requires hash("a") != hash("b") && hash("7") != hash("a") && hash("7") != hash("b")
    ensures ok
    ensures !rejecting ==> a == 1 && b == 2
    ensures rejecting ==> a == 0 && b == 0
    ensures !hasSkipped
  {
    var pool := new Pool<int>(map[], rejecting);
    var c := new CacheItemPoolCache(pool, [], hash);
    BulkWrites(hash);
    PathExtends([], "a");
    PathExtends([], "b");
    PathExtends([], "7");
    ok := c.SetMultiple([(StrKey("a"), 1), (StrKey("b"), 2), (IntKey(7), 3)], NoExpiry);
    a := c.Get("a", 0);
    b := c.Get("b", 0);
    hasSkipped := c.Has("7");
  }
}
