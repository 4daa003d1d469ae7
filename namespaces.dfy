/** Namespace composition and storage-key derivation of the cache facade.
    A namespace is an ordered list of segments; the storage key of a logical
    key is the digest of the namespace segments and the key joined with "::". */
module Namespaces {

  /** The separator `implode` puts between namespace segments and the key. */
  const Separator: string := "::"

  /** The argument of `withNamespace`: a single string or a list of strings. */
  datatype NamespaceArg = One(segment: string) | Many(segments: seq<string>)

  /** A single string becomes a one-segment list (it is NOT split on "::");
      a list is taken as it is. */
  function Normalize(arg: NamespaceArg): (r: seq<string>)
    ensures arg.One? ==> |r| == 1 && r[0] == arg.segment
    ensures arg.Many? ==> r == arg.segments
  {
    match arg
    case One(s) => [s]
    case Many(ss) => ss
  }

  /** The namespace of the facade that `withNamespace(arg, replace)` returns. */
  function Compose(base: seq<string>, arg: NamespaceArg, replace: bool): (r: seq<string>)
    ensures |r| == (if replace then 0 else |base|) + |Normalize(arg)|
    ensures !replace ==> r[..|base|] == base
    ensures r[|r| - |Normalize(arg)|..] == Normalize(arg)
  {
    if replace then Normalize(arg) else base + Normalize(arg)
  }

  /** `implode("::", parts)`: the parts with the separator between neighbours. */
  function Join(parts: seq<string>): string
  {
    if |parts| == 0 then ""
    else if |parts| == 1 then parts[0]
    else parts[0] + Separator + Join(parts[1..])
  }

  /** The message that is hashed for `key` under `namespace`. */
  function Path(namespace: seq<string>, key: string): string
  {
    Join(namespace + [key])
  }

  /** The storage key of `key` under `namespace`, for the digest function `hash`. */
  function StorageKey(hash: string -> string, namespace: seq<string>, key: string): string
  {
    hash(Path(namespace, key))
  }

  predicate ColonFree(s: string)
  {
    forall i :: 0 <= i < |s| ==> s[i] != ':'
  }

  predicate AllColonFree(parts: seq<string>)
  {
    forall i :: 0 <= i < |parts| ==> ColonFree(parts[i])
  }

  /** Replacing discards the old namespace: the result depends on the argument only. */
  lemma ComposeReplaceIgnoresBase(base1: seq<string>, base2: seq<string>, arg: NamespaceArg)
    ensures Compose(base1, arg, true) == Compose(base2, arg, true) == Normalize(arg)
  {
  }

  /** Appending twice is appending the concatenation once. */
  lemma ComposeAppendAssociative(a: seq<string>, b: NamespaceArg, c: NamespaceArg)
    ensures Compose(Compose(a, b, false), c, false)
         == Compose(a, Many(Normalize(b) + Normalize(c)), false)
  {
    assert (a + Normalize(b)) + Normalize(c) == a + (Normalize(b) + Normalize(c));
  }

  /** Appending the empty list leaves the namespace as it is. */
  lemma ComposeAppendEmpty(a: seq<string>)
    ensures Compose(a, Many([]), false) == a
  {
    assert a + [] == a;
  }

  /** The path of a key is the joined namespace, the separator and the key;
      a key under the empty namespace is its own path. */
  lemma {:induction false} PathExtends(namespace: seq<string>, key: string)
    ensures Path(namespace, key)
         == if namespace == [] then key else Join(namespace) + Separator + key
  {
    if |namespace| > 1 {
      assert (namespace + [key])[1..] == namespace[1..] + [key];
      PathExtends(namespace[1..], key);
    } else if |namespace| == 1 {
      assert (namespace + [key])[1..] == [key];
      JoinSingle([key]);
    }
  }

  /** Joining two or more parts puts the separator right after the first part. */
  lemma JoinHead(parts: seq<string>)
    requires |parts| > 1
    ensures Join(parts) == parts[0] + Separator + Join(parts[1..])
    ensures Join(parts)[|parts[0]|] == ':'
  {
  }

  /** Joining one part gives that part. */
  lemma JoinSingle(parts: seq<string>)
    requires |parts| == 1
    ensures Join(parts) == parts[0]
  {
  }

  /** Joining is injective on non-empty lists of colon-free segments. */
  lemma {:induction false} JoinInjective(xs: seq<string>, ys: seq<string>)
    requires |xs| > 0 && |ys| > 0
    requires AllColonFree(xs) && AllColonFree(ys)
    requires Join(xs) == Join(ys)
    ensures xs == ys
  {
    if |xs| == 1 && |ys| == 1 {
    } else if |xs| == 1 {
      JoinHead(ys);
      assert false;
    } else if |ys| == 1 {
      JoinHead(xs);
      assert false;
    } else {
      JoinHead(xs);
      JoinHead(ys);
      var a, b := xs[0], ys[0];
      assert ColonFree(a) && ColonFree(b);
      if |a| < |b| {
        assert false;
      } else if |b| < |a| {
        assert false;
      } else {
        assert a == Join(xs)[..|a|] == Join(ys)[..|b|] == b;
        assert Join(xs[1..]) == Join(xs)[|a| + 2..] == Join(ys)[|b| + 2..] == Join(ys[1..]);
        assert AllColonFree(xs[1..]) by {
          forall i | 0 <= i < |xs[1..]| ensures ColonFree(xs[1..][i]) {
            assert xs[1..][i] == xs[i + 1];
          }
        }
        assert AllColonFree(ys[1..]) by {
          forall i | 0 <= i < |ys[1..]| ensures ColonFree(ys[1..][i]) {
            assert ys[1..][i] == ys[i + 1];
          }
        }
        JoinInjective(xs[1..], ys[1..]);
        assert xs == [a] + xs[1..];
        assert ys == [b] + ys[1..];
      }
    }
  }

  /** With colon-free segments and keys, different namespaces (including the
      same segments in another order) or different keys give different paths. */
  lemma PathInjective(n1: seq<string>, k1: string, n2: seq<string>, k2: string)
    requires AllColonFree(n1) && ColonFree(k1)
    requires AllColonFree(n2) && ColonFree(k2)
    ensures Path(n1, k1) == Path(n2, k2) <==> n1 == n2 && k1 == k2
  {
    if Path(n1, k1) == Path(n2, k2) {
      assert AllColonFree(n1 + [k1]) by {
        forall i | 0 <= i < |n1 + [k1]| ensures ColonFree((n1 + [k1])[i]) {
          if i < |n1| { assert (n1 + [k1])[i] == n1[i]; }
        }
      }
      assert AllColonFree(n2 + [k2]) by {
        forall i | 0 <= i < |n2 + [k2]| ensures ColonFree((n2 + [k2])[i]) {
          if i < |n2| { assert (n2 + [k2])[i] == n2[i]; }
        }
      }
      JoinInjective(n1 + [k1], n2 + [k2]);
      assert n1 == (n1 + [k1])[..|n1|];
      assert n2 == (n2 + [k2])[..|n2|];
      assert k1 == (n1 + [k1])[|n1|];
      assert k2 == (n2 + [k2])[|n2|];
    }
  }

  /** Storage keys are a function of the namespace and key (the same namespace
      and key always give the same storage key); if the digest has no collision
      between the two messages and the segments are colon-free, the storage
      keys agree exactly when the namespaces and keys do. */
  lemma StorageKeyInjective(hash: string -> string, n1: seq<string>, k1: string, n2: seq<string>, k2: string)
    requires AllColonFree(n1) && ColonFree(k1)
    requires AllColonFree(n2) && ColonFree(k2)
    requires hash(Path(n1, k1)) == hash(Path(n2, k2)) ==> Path(n1, k1) == Path(n2, k2)
    ensures StorageKey(hash, n1, k1) == StorageKey(hash, n2, k2) <==> n1 == n2 && k1 == k2
  {
    PathInjective(n1, k1, n2, k2);
  }

  /** A segment that itself contains "::" is not split, yet it gives the same
      path as the segments it contains: the distinct namespaces ["a::b"] and
      ["a", "b"] derive the same storage key for the key "c". */
  lemma SeparatorInSegmentCollides()
    ensures ["a::b"] != ["a", "b"]
    ensures Path(["a::b"], "c") == Path(["a", "b"], "c") == "a::b::c"
  {
    assert ["a::b"][0] != ["a", "b"][0];
    PathExtends(["a::b"], "c");
    PathExtends(["a", "b"], "c");
    JoinHead(["a", "b"]);
  }

  /** A logical key that contains "::" crosses namespaces: the key "b::c"
      under ["a"] gives the same path as the key "c" under ["a", "b"]. */
  lemma SeparatorInKeyCollides()
    ensures ["a"] != ["a", "b"]
    ensures Path(["a"], "b::c") == Path(["a", "b"], "c") == "a::b::c"
  {
    PathExtends(["a"], "b::c");
    PathExtends(["a", "b"], "c");
    JoinHead(["a", "b"]);
  }
}
