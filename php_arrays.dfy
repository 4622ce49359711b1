/**
 * PHP's ordered associative arrays, as sequences of (key, value) entries in
 * iteration order. The operations are the three that the serializer relies on:
 * reading a key, assigning `$a[$k] = $v` and `unset($a[$k])`.
 */
module PhpArrays {
  import opened Wrappers

  /** `array_keys($a)`: the keys in iteration order. */
  function Keys<K(!new), V(!new)>(a: seq<(K, V)>): (ks: seq<K>)
    ensures |ks| == |a| && forall i :: 0 <= i < |a| ==> ks[i] == a[i].0
  {
    if a == [] then [] else [a[0].0] + Keys(a[1..])
  }

  /** `array_key_exists($k, $a)`. */
  predicate HasKey<K(==,!new), V(!new)>(a: seq<(K, V)>, k: K)
  {
    k in Keys(a)
  }

  /** A genuine PHP array never holds a key twice. */
  predicate UniqueKeys<K(==,!new), V(!new)>(a: seq<(K, V)>)
  {
    forall i, j :: 0 <= i < j < |a| ==> a[i].0 != a[j].0
  }

  /** `$a[$k]`, or None when the key is absent. */
  function Lookup<K(==,!new), V(!new)>(a: seq<(K, V)>, k: K): (r: Option<V>)
    ensures r.Some? <==> HasKey(a, k)
    ensures r.Some? ==> (k, r.value) in a
  {
    if a == [] then None
    else if a[0].0 == k then Some(a[0].1)
    else Lookup(a[1..], k)
  }

  /** In an array without repeated keys, the entry at any position holding k is the one looked up. */
  lemma {:induction false} LookupUnique<K(!new), V(!new)>(a: seq<(K, V)>, k: K, i: nat)
    requires UniqueKeys(a) && i < |a| && a[i].0 == k
    ensures Lookup(a, k) == Some(a[i].1)
  {
    if i > 0 {
      LookupUnique(a[1..], k, i - 1);
    }
  }

  /**
   * `$a[$k] = $v`: an existing key keeps its position and gets the new value;
   * a new key is appended at the end.
   */
  function Put<K(==,!new), V(!new)>(a: seq<(K, V)>, k: K, v: V): (r: seq<(K, V)>)
    ensures Keys(r) == if HasKey(a, k) then Keys(a) else Keys(a) + [k]
    ensures !HasKey(a, k) ==> r == a + [(k, v)]
  {
    if a == [] then [(k, v)]
    else if a[0].0 == k then [(k, v)] + a[1..]
    else [a[0]] + Put(a[1..], k, v)
  }

  /** After `$a[$k] = $v`, reading k gives v and every other key reads as before. */
  lemma {:induction false} PutLookup<K(!new), V(!new)>(a: seq<(K, V)>, k: K, v: V, k': K)
    ensures Lookup(Put(a, k, v), k') == if k' == k then Some(v) else Lookup(a, k')
  {
    if a != [] && a[0].0 != k {
      PutLookup(a[1..], k, v, k');
    }
  }

  /** Assignment keeps a proper array proper. */
  lemma PutUnique<K(!new), V(!new)>(a: seq<(K, V)>, k: K, v: V)
    requires UniqueKeys(a)
    ensures UniqueKeys(Put(a, k, v))
  {
    var r := Put(a, k, v);
    var ks, rs := Keys(a), Keys(r);
    forall i, j | 0 <= i < j < |r| ensures r[i].0 != r[j].0 {
      assert r[i].0 == rs[i] && r[j].0 == rs[j];
      if HasKey(a, k) || j < |a| {
        assert rs[i] == ks[i] && rs[j] == ks[j];
        assert ks[i] == a[i].0 && ks[j] == a[j].0;
      } else {
        assert rs[j] == k && rs[i] == ks[i];
      }
    }
  }

  /** `unset($a[$k])`: every entry with key k is dropped, the others keep their order. */
  function Remove<K(==,!new), V(!new)>(a: seq<(K, V)>, k: K): (r: seq<(K, V)>)
    ensures !HasKey(r, k)
    ensures !HasKey(a, k) ==> r == a
  {
    if a == [] then []
    else
      var rest := Remove(a[1..], k);
      if a[0].0 == k then rest
      else
        assert ([a[0]] + rest)[1..] == rest;
        [a[0]] + rest
  }

  /** The entries left by `unset($a[$k])` are exactly those with another key. */
  lemma {:induction false} RemoveMembers<K(!new), V(!new)>(a: seq<(K, V)>, k: K)
    ensures forall e :: e in Remove(a, k) <==> e in a && e.0 != k
  {
    if a != [] {
      RemoveMembers(a[1..], k);
      assert forall e :: e in a <==> e == a[0] || e in a[1..];
    }
  }

  /** `unset($a[$k])` leaves every other key reading as before. */
  lemma {:induction false} RemoveLookup<K(!new), V(!new)>(a: seq<(K, V)>, k: K, k': K)
    requires k' != k
    ensures Lookup(Remove(a, k), k') == Lookup(a, k')
  {
    if a != [] {
      RemoveLookup(a[1..], k, k');
      if a[0].0 != k {
        assert ([a[0]] + Remove(a[1..], k))[1..] == Remove(a[1..], k);
      }
    }
  }

  /** `unset` keeps a proper array proper. */
  lemma {:induction false} RemoveUnique<K(!new), V(!new)>(a: seq<(K, V)>, k: K)
    requires UniqueKeys(a)
    ensures UniqueKeys(Remove(a, k))
  {
    if a != [] {
      var rest := Remove(a[1..], k);
      assert UniqueKeys(a[1..]);
      RemoveUnique(a[1..], k);
      if a[0].0 != k {
        RemoveMembers(a[1..], k);
        forall j | 0 <= j < |rest| ensures rest[j].0 != a[0].0 {
          assert rest[j] in a[1..];
          var m :| 0 <= m < |a[1..]| && a[1..][m] == rest[j];
          assert a[m + 1] == rest[j];
        }
        assert forall j :: 0 < j < |[a[0]] + rest| ==> ([a[0]] + rest)[j] == rest[j - 1];
      }
    }
  }

  /** With distinct keys, the key at position i does not occur before it. */
  lemma PrefixLacksNext<K(!new), V(!new)>(a: seq<(K, V)>, i: nat)
    requires UniqueKeys(a) && i < |a|
    ensures !HasKey(a[..i], a[i].0)
  {
  }

  /** A key some entry of the array carries, found at a position. */
  lemma KeyAt<K(!new), V(!new)>(a: seq<(K, V)>, k: K) returns (m: nat)
    requires HasKey(a, k)
    ensures m < |a| && a[m].0 == k
  {
    m :| 0 <= m < |Keys(a)| && Keys(a)[m] == k;
  }

  /** Unsetting k in a longer prefix whose new entry has key k. */
  lemma RemovePrefixKey<K(!new), V(!new)>(a: seq<(K, V)>, k: K, i: nat)
    requires i < |a| && a[i].0 == k
    ensures Remove(a[..i + 1], k) == Remove(a[..i], k)
  {
    assert a[..i + 1] == a[..i] + [a[i]];
    RemoveSnocKey(a[..i], a[i]);
  }

  /** Unsetting k in a longer prefix whose new entry has another key. */
  lemma RemovePrefixOther<K(!new), V(!new)>(a: seq<(K, V)>, k: K, i: nat)
    requires i < |a| && a[i].0 != k
    ensures Remove(a[..i + 1], k) == Remove(a[..i], k) + [a[i]]
  {
    assert a[..i + 1] == a[..i] + [a[i]];
    RemoveSnocOther(a[..i], a[i], k);
  }

  /** Unsetting a key of an array extended by an entry with that key. */
  lemma {:induction false} RemoveSnocKey<K(!new), V(!new)>(a: seq<(K, V)>, e: (K, V))
    ensures Remove(a + [e], e.0) == Remove(a, e.0)
  {
    if a != [] {
      assert (a + [e])[1..] == a[1..] + [e];
      RemoveSnocKey(a[1..], e);
    }
  }

  /** Unsetting a key of an array extended by an entry with another key. */
  lemma {:induction false} RemoveSnocOther<K(!new), V(!new)>(a: seq<(K, V)>, e: (K, V), k: K)
    requires e.0 != k
    ensures Remove(a + [e], k) == Remove(a, k) + [e]
  {
    if a != [] {
      assert (a + [e])[1..] == a[1..] + [e];
      RemoveSnocOther(a[1..], e, k);
    }
  }

  /** An entry left after unsetting k in a prefix is left after unsetting k in the whole array. */
  lemma RemovePrefixEntry<K(!new), V(!new)>(a: seq<(K, V)>, k: K, i: nat, j: nat) returns (m: nat)
    requires i <= |a| && j < |Remove(a[..i], k)|
    ensures m < |Remove(a, k)| && Remove(a, k)[m] == Remove(a[..i], k)[j]
  {
    var e := Remove(a[..i], k)[j];
    RemoveMembers(a[..i], k);
    RemoveMembers(a, k);
    assert e in a[..i];
    var p :| 0 <= p < i && a[..i][p] == e;
    assert a[p] == e;
    assert e in Remove(a, k);
    m :| 0 <= m < |Remove(a, k)| && Remove(a, k)[m] == e;
  }

  /** With distinct keys, the key at position i is not left by unsetting k in the entries before it. */
  lemma RemovedLacksNext<K(!new), V(!new)>(a: seq<(K, V)>, k: K, i: nat)
    requires UniqueKeys(a) && i < |a|
    ensures !HasKey(Remove(a[..i], k), a[i].0)
  {
    var r := Remove(a[..i], k);
    RemoveMembers(a[..i], k);
    PrefixLacksNext(a, i);
    forall m | 0 <= m < |r| ensures Keys(r)[m] != a[i].0 {
      assert r[m] in a[..i];
      var p :| 0 <= p < i && a[..i][p] == r[m];
      assert Keys(a[..i])[p] == r[m].0;
    }
  }

  /** Arrays with the same keys position by position have the same key list; one is proper exactly when the other is. */
  lemma SameKeys<K(!new), V(!new), W(!new)>(a: seq<(K, V)>, b: seq<(K, W)>)
    requires |a| == |b| && forall i :: 0 <= i < |a| ==> a[i].0 == b[i].0
    ensures Keys(a) == Keys(b)
    ensures UniqueKeys(a) <==> UniqueKeys(b)
  {
  }

  /** Two proper arrays with the same keys in the same order that read alike at every key are equal. */
  lemma SameLookupsEqual<K(!new), V(!new)>(a: seq<(K, V)>, b: seq<(K, V)>)
    requires UniqueKeys(a) && Keys(a) == Keys(b)
    requires forall k :: Lookup(a, k) == Lookup(b, k)
    ensures a == b
  {
    assert |a| == |Keys(a)| == |Keys(b)| == |b|;
    forall i | 0 <= i < |a| ensures a[i].0 == b[i].0 {
      assert Keys(a)[i] == Keys(b)[i];
    }
    SameKeys(a, b);
    forall i | 0 <= i < |a| ensures a[i] == b[i] {
      LookupUnique(a, a[i].0, i);
      LookupUnique(b, a[i].0, i);
    }
  }
}
