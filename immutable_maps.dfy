/**
 * Guava's `ImmutableMap`, as the list of its entries in iteration order.
 * A map built through `ImmutableMap.Builder` iterates in the order of the
 * `put` calls, and `build()` raises IllegalArgumentException when a key was
 * put twice. `Map.equals` ignores order: it compares `AsMap`.
 */
module ImmutableMaps {
  import opened Wrappers
  import opened JavaLang

  type Entries<K, V> = seq<(K, V)>

  function Keys<K, V>(e: Entries<K, V>): (ks: seq<K>)
    ensures |ks| == |e|
    ensures forall i :: 0 <= i < |e| ==> ks[i] == e[i].0
  {
    if |e| == 0 then [] else [e[0].0] + Keys(e[1..])
  }

  /** `ImmutableMap.Builder.build()` after the given puts. */
  function Build<K(==), V>(puts: Entries<K, V>): (r: Result<Entries<K, V>, Fault>)
    ensures r.Ok? <==> Distinct(Keys(puts))
    ensures r.Ok? ==> r.value == puts
    ensures r.Err? ==> r.error == IllegalArgument
  {
    if Distinct(Keys(puts)) then Ok(puts) else Err(IllegalArgument)
  }

  /** `Map.get`: None stands for Java's null. */
  function Get<K(==), V>(e: Entries<K, V>, k: K): (r: Option<V>)
    ensures r.Some? <==> k in Keys(e)
    ensures r.Some? ==> (k, r.value) in e
  {
    if |e| == 0 then None
    else if e[0].0 == k then Some(e[0].1)
    else Get(e[1..], k)
  }

  /** In a map without repeated keys, every entry is what `get` finds under its key. */
  lemma {:induction false} GetEntry<K, V>(e: Entries<K, V>, i: int)
    requires Distinct(Keys(e)) && 0 <= i < |e|
    ensures Get(e, e[i].0) == Some(e[i].1)
  {
    if i > 0 {
      assert Keys(e)[0] != Keys(e)[i];
      assert Keys(e[1..])[i - 1] == e[i].0;
      GetEntry(e[1..], i - 1);
    }
  }

  /** The mapping a map denotes, which is what `Map.equals` compares. */
  function AsMap<K(==), V>(e: Entries<K, V>): (m: map<K, V>)
    ensures m.Keys == set k | k in Keys(e)
    ensures forall k :: k in m ==> Get(e, k) == Some(m[k])
  {
    map k | k in Keys(e) :: Get(e, k).value
  }

  /** `Maps.filterKeys(e, keep::contains)`: the entries whose key is in `keep`, in their order. */
  function FilterKeys<K(==,!new), V(!new)>(e: Entries<K, V>, keep: seq<K>): (r: Entries<K, V>)
    ensures |r| <= |e|
    ensures forall p :: p in r <==> p in e && p.0 in keep
    ensures forall k :: k in Keys(r) <==> k in Keys(e) && k in keep
    ensures forall p :: p in r ==> p in e
  {
    if |e| == 0 then []
    else
      var rest := FilterKeys(e[1..], keep);
      if e[0].0 in keep then [e[0]] + rest else rest
  }

  /**
   * Filtering keeps the iteration order: it works entry by entry, keeping an
   * entry exactly when its key is in `keep`.
   */
  lemma {:induction false} FilterKeysConcat<K(!new), V(!new)>(a: Entries<K, V>, b: Entries<K, V>, keep: seq<K>)
    ensures FilterKeys(a + b, keep) == FilterKeys(a, keep) + FilterKeys(b, keep)
    ensures |a| == 1 ==> FilterKeys(a, keep) == if a[0].0 in keep then a else []
    decreases |a|
  {
    if |a| == 0 {
      assert a + b == b;
    } else {
      assert (a + b)[0] == a[0] && (a + b)[1..] == a[1..] + b;
      FilterKeysConcat(a[1..], b, keep);
      if |a| == 1 {
        assert a[1..] == [];
        assert [a[0]] == a;
      }
    }
  }

  /** Filtering decides the first entry, then filters the rest. */
  lemma FilterKeysHead<K(!new), V(!new)>(e: Entries<K, V>, keep: seq<K>)
    requires |e| > 0
    ensures FilterKeys(e, keep) == (if e[0].0 in keep then [e[0]] else []) + FilterKeys(e[1..], keep)
  {
    if e[0].0 !in keep {
      assert [] + FilterKeys(e[1..], keep) == FilterKeys(e[1..], keep);
    }
  }

  /** Filtering keeps the keys free of repeats, so copying the result into an ImmutableMap cannot fail. */
  lemma {:induction false} FilterKeysDistinct<K(!new), V(!new)>(e: Entries<K, V>, keep: seq<K>)
    requires Distinct(Keys(e))
    ensures Distinct(Keys(FilterKeys(e, keep)))
  {
    if |e| > 0 {
      assert Distinct(Keys(e[1..])) by {
        forall i, j | 0 <= i < j < |e| - 1 ensures Keys(e[1..])[i] != Keys(e[1..])[j] {
          assert Keys(e)[i + 1] != Keys(e)[j + 1];
        }
      }
      FilterKeysDistinct(e[1..], keep);
      var rest := FilterKeys(e[1..], keep);
      if e[0].0 in keep {
        assert e[0].0 !in Keys(e[1..]) by {
          forall j | 0 <= j < |e| - 1 ensures Keys(e[1..])[j] != e[0].0 {
            assert Keys(e)[0] != Keys(e)[j + 1];
          }
        }
        var r := [e[0]] + rest;
        forall i, j | 0 <= i < j < |r| ensures Keys(r)[i] != Keys(r)[j] {
          if i == 0 {
            assert Keys(r)[j] == Keys(rest)[j - 1];
            assert Keys(rest)[j - 1] in Keys(rest);
          } else {
            assert Keys(r)[i] == Keys(rest)[i - 1] && Keys(r)[j] == Keys(rest)[j - 1];
          }
        }
      }
    }
  }

  /** Entries pairing `names[i]` with `values[i]`. */
  function Zip<K, V>(names: seq<K>, values: seq<V>): (e: Entries<K, V>)
    requires |names| == |values|
    ensures |e| == |names| && Keys(e) == names
    ensures forall i :: 0 <= i < |e| ==> e[i] == (names[i], values[i])
  {
    seq(|names|, i requires 0 <= i < |names| => (names[i], values[i]))
  }

  /** Every key looks up the same value (or null) in both maps. */
  ghost predicate SameLookups<K(!new), V>(e1: Entries<K, V>, e2: Entries<K, V>)
  {
    forall k :: Get(e1, k) == Get(e2, k)
  }

  /** Two maps are equal as maps exactly when every key looks up the same value in both. */
  lemma AsMapEqual<K(!new), V>(e1: Entries<K, V>, e2: Entries<K, V>)
    ensures AsMap(e1) == AsMap(e2) <==> SameLookups(e1, e2)
  {
    if AsMap(e1) == AsMap(e2) {
      forall k ensures Get(e1, k) == Get(e2, k) {
        MapDeterminesLookup(e1, e2, k);
      }
    }
    if SameLookups(e1, e2) {
      LookupsDetermineMap(e1, e2);
    }
  }

  lemma LookupsDetermineMap<K(!new), V>(e1: Entries<K, V>, e2: Entries<K, V>)
    requires SameLookups(e1, e2)
    ensures AsMap(e1) == AsMap(e2)
  {
    var m1, m2 := AsMap(e1), AsMap(e2);
    forall k ensures k in m1 <==> k in m2 {
      assert Get(e1, k) == Get(e2, k);
    }
    forall k | k in m1 ensures m1[k] == m2[k] {
      assert Get(e1, k) == Get(e2, k) == Some(m1[k]) == Some(m2[k]);
    }
    assert m1 == m2;
  }

  lemma MapDeterminesLookup<K, V>(e1: Entries<K, V>, e2: Entries<K, V>, k: K)
    requires AsMap(e1) == AsMap(e2)
    ensures Get(e1, k) == Get(e2, k)
  {
    var m := AsMap(e1);
    if k in m {
      assert Get(e1, k) == Some(m[k]) == Get(e2, k);
    } else {
      assert k !in Keys(e1) && k !in Keys(e2);
    }
  }
}
