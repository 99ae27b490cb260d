/** Java's insertion-ordered collections, as sequences of pairs:
    LinkedHashMap (one value per key, a put on an existing key overwrites the value and
    keeps its position) and Guava's LinkedHashMultimap (a set of key/value pairs kept
    in first-insertion order, where putting a pair already present changes nothing). */
module Linked {
  import opened Common

  /** The elements of `s` in order of first occurrence, each once. */
  function Dedup<T(==)>(s: seq<T>): seq<T>
  {
    if s == [] then []
    else
      var d := Dedup(s[..|s| - 1]);
      if s[|s| - 1] in s[..|s| - 1] then d else d + [s[|s| - 1]]
  }

  predicate Distinct<T(==)>(s: seq<T>)
  {
    forall i, j | 0 <= i < j < |s| :: s[i] != s[j]
  }

  /** Deduplication keeps exactly the elements of the input, each once. */
  lemma {:induction false} DedupProperties<T>(s: seq<T>)
    ensures Distinct(Dedup(s))
    ensures forall x :: x in Dedup(s) <==> x in s
    ensures |Dedup(s)| <= |s|
  {
    if s != [] {
      var init := s[..|s| - 1];
      DedupProperties(init);
      assert s == init + [s[|s| - 1]];
    }
  }

  /** The results of `f` on the elements of `s`, in order, leaving out the elements it
      refuses: a loop that skips the entries it cannot parse. */
  function Filtered<T, U>(s: seq<T>, f: T -> Option<U>): seq<U>
  {
    if s == [] then []
    else
      var init := Filtered(s[..|s| - 1], f);
      match f(s[|s| - 1])
      case Some(u) => init + [u]
      case None => init
  }

  /** One more element: its result, if `f` accepts it, goes to the end. */
  lemma FilteredStep<T, U>(s: seq<T>, i: nat, f: T -> Option<U>)
    requires i < |s|
    ensures Filtered(s[..i + 1], f) == Filtered(s[..i], f) + (if f(s[i]).Some? then [f(s[i]).value] else [])
  {
    assert s[..i + 1][..i] == s[..i];
  }

  /** Every result comes from an element, every accepted element gives its result, and
      nothing is added. */
  lemma {:induction false} FilteredElements<T, U>(s: seq<T>, f: T -> Option<U>, u: U)
    ensures u in Filtered(s, f) <==> exists i | 0 <= i < |s| :: f(s[i]) == Some(u)
    ensures |Filtered(s, f)| <= |s|
  {
    if s != [] {
      var init := s[..|s| - 1];
      FilteredElements(init, f, u);
      if exists i | 0 <= i < |s| :: f(s[i]) == Some(u) {
        var i :| 0 <= i < |s| && f(s[i]) == Some(u);
        if i < |init| {
          assert init[i] == s[i];
        }
      }
      if exists i | 0 <= i < |init| :: f(init[i]) == Some(u) {
        var i :| 0 <= i < |init| && f(init[i]) == Some(u);
        assert s[i] == init[i];
      }
    }
  }

  // ---------------------------------------------------------------------------
  // LinkedHashMultimap

  /** `LinkedHashMultimap.put(k, v)`. */
  function MultiPut<K(==), V(==)>(m: seq<(K, V)>, k: K, v: V): seq<(K, V)>
  {
    if (k, v) in m then m else m + [(k, v)]
  }

  /** The multimap after putting every pair of `ps`, in order, into an empty one. */
  function MultimapOf<K(==), V(==)>(ps: seq<(K, V)>): seq<(K, V)>
  {
    if ps == [] then [] else MultiPut(MultimapOf(ps[..|ps| - 1]), ps[|ps| - 1].0, ps[|ps| - 1].1)
  }

  lemma MultimapStep<K, V>(ps: seq<(K, V)>, p: (K, V))
    ensures MultimapOf(ps + [p]) == MultiPut(MultimapOf(ps), p.0, p.1)
  {
    assert (ps + [p])[..|ps|] == ps;
  }

  /** A multimap built by puts holds each distinct pair once, in first-insertion order. */
  lemma {:induction false} MultimapIsDedup<K, V>(ps: seq<(K, V)>)
    ensures MultimapOf(ps) == Dedup(ps)
  {
    if ps != [] {
      MultimapIsDedup(ps[..|ps| - 1]);
      DedupProperties(ps[..|ps| - 1]);
    }
  }

  // ---------------------------------------------------------------------------
  // LinkedHashMap

  function KeysOf<K, V>(m: seq<(K, V)>): (ks: seq<K>)
    ensures |ks| == |m| && forall i | 0 <= i < |m| :: ks[i] == m[i].0
  {
    seq(|m|, i requires 0 <= i < |m| => m[i].0)
  }

  /** `LinkedHashMap.get(k)`. */
  function Lookup<K(==), V>(m: seq<(K, V)>, k: K): Option<V>
  {
    if m == [] then None
    else if m[0].0 == k then Some(m[0].1)
    else Lookup(m[1..], k)
  }

  /** `LinkedHashMap.put(k, v)`: overwrite in place, or append a new entry. */
  function MapPut<K(==), V>(m: seq<(K, V)>, k: K, v: V): seq<(K, V)>
  {
    if m == [] then [(k, v)]
    else if m[0].0 == k then [(k, v)] + m[1..]
    else [m[0]] + MapPut(m[1..], k, v)
  }

  /** The map after putting every pair of `ps`, in order, into an empty one. */
  function MapOf<K(==), V>(ps: seq<(K, V)>): seq<(K, V)>
  {
    if ps == [] then [] else MapPut(MapOf(ps[..|ps| - 1]), ps[|ps| - 1].0, ps[|ps| - 1].1)
  }

  /** The value of the last pair with key `k`. */
  function LastValue<K(==), V>(ps: seq<(K, V)>, k: K): Option<V>
  {
    if ps == [] then None
    else if ps[|ps| - 1].0 == k then Some(ps[|ps| - 1].1)
    else LastValue(ps[..|ps| - 1], k)
  }

  lemma KeysOfCons<K, V>(x: (K, V), rest: seq<(K, V)>)
    ensures KeysOf([x] + rest) == [x.0] + KeysOf(rest)
  {
    var l, r := KeysOf([x] + rest), [x.0] + KeysOf(rest);
    assert |l| == |r|;
    forall i | 0 <= i < |l| ensures l[i] == r[i] {
      if i > 0 {
        assert ([x] + rest)[i] == rest[i - 1];
      }
    }
  }

  lemma {:induction false} MapPutKeys<K, V>(m: seq<(K, V)>, k: K, v: V)
    ensures KeysOf(MapPut(m, k, v)) == if k in KeysOf(m) then KeysOf(m) else KeysOf(m) + [k]
  {
    if m == [] {
      assert KeysOf(MapPut(m, k, v)) == [k];
    } else {
      var t := m[1..];
      MapPutKeys(t, k, v);
      assert m == [m[0]] + t;
      KeysOfCons(m[0], t);
      assert k in KeysOf(m) <==> m[0].0 == k || k in KeysOf(t);
      if m[0].0 != k {
        KeysOfCons(m[0], MapPut(t, k, v));
        assert KeysOf(MapPut(m, k, v)) == [m[0].0] + KeysOf(MapPut(t, k, v));
      } else {
        KeysOfCons((k, v), t);
      }
    }
  }

  lemma {:induction false} MapPutLookup<K, V>(m: seq<(K, V)>, k: K, v: V, k': K)
    ensures Lookup(MapPut(m, k, v), k') == if k' == k then Some(v) else Lookup(m, k')
  {
    if m != [] && m[0].0 != k {
      MapPutLookup(m[1..], k, v, k');
    }
  }

  /** The keys of a LinkedHashMap are the distinct keys put, in first-insertion order:
      overwriting a key never moves it. */
  lemma {:induction false} MapOfKeys<K, V>(ps: seq<(K, V)>)
    ensures KeysOf(MapOf(ps)) == Dedup(KeysOf(ps))
  {
    if ps != [] {
      var init := ps[..|ps| - 1];
      MapOfKeys(init);
      MapPutKeys(MapOf(init), ps[|ps| - 1].0, ps[|ps| - 1].1);
      assert KeysOf(ps)[..|ps| - 1] == KeysOf(init);
      DedupProperties(KeysOf(init));
    }
  }

  /** Each key maps to the value of the last pair put with that key. */
  lemma {:induction false} MapOfLookup<K, V>(ps: seq<(K, V)>, k: K)
    ensures Lookup(MapOf(ps), k) == LastValue(ps, k)
  {
    if ps != [] {
      MapOfLookup(ps[..|ps| - 1], k);
      MapPutLookup(MapOf(ps[..|ps| - 1]), ps[|ps| - 1].0, ps[|ps| - 1].1, k);
    }
  }

  /** No key appears twice in a LinkedHashMap built by puts. */
  lemma MapOfDistinct<K, V>(ps: seq<(K, V)>)
    ensures Distinct(KeysOf(MapOf(ps)))
  {
    MapOfKeys(ps);
    DedupProperties(KeysOf(ps));
  }
}
