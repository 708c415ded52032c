/** Python dicts that keep insertion order, and order-preserving filtering
    (list comprehensions with an `if`). */
module Collections {

  predicate DistinctKeys<K(==), V>(s: seq<(K, V)>)
  {
    forall i, j | 0 <= i < j < |s| :: s[i].0 != s[j].0
  }

  /** A dict as its items in iteration order: every key once. */
  type Dict<K(==), V> = s: seq<(K, V)> | DistinctKeys(s) witness []

  /** The dict built from `items` in order; a later item for a key wins. */
  function ToMap<K, V>(items: seq<(K, V)>): (m: map<K, V>)
    ensures forall i | 0 <= i < |items| :: items[i].0 in m
    ensures forall k | k in m :: exists i | 0 <= i < |items| :: items[i].0 == k
    ensures DistinctKeys(items) ==>
              forall i | 0 <= i < |items| :: items[i].0 in m && m[items[i].0] == items[i].1
  {
    if items == [] then map[]
    else
      var n := |items| - 1;
      var m := ToMap(items[..n]);
      assert forall i | 0 <= i < n :: items[..n][i] == items[i];
      m[items[n].0 := items[n].1]
  }

  /** The items of `m` listed in the order of `keys`. */
  function ItemsOf<K, V>(m: map<K, V>, keys: seq<K>): (items: seq<(K, V)>)
    requires forall i | 0 <= i < |keys| :: keys[i] in m
    ensures |items| == |keys|
    ensures forall i | 0 <= i < |keys| :: items[i] == (keys[i], m[keys[i]])
  {
    seq(|keys|, i requires 0 <= i < |keys| => (keys[i], m[keys[i]]))
  }

  /** Listing every key of a map once and reading the list back gives the
      map. */
  lemma ItemsOfRoundTrip<K, V>(m: map<K, V>, keys: seq<K>)
    requires forall i | 0 <= i < |keys| :: keys[i] in m
    requires forall i, j | 0 <= i < j < |keys| :: keys[i] != keys[j]
    requires forall k | k in m :: k in keys
    ensures DistinctKeys(ItemsOf(m, keys))
    ensures ToMap(ItemsOf(m, keys)) == m
  {
    var items := ItemsOf(m, keys);
    var t := ToMap(items);
    forall k | k in m
      ensures k in t && t[k] == m[k]
    {
      var i :| 0 <= i < |keys| && keys[i] == k;
      assert items[i].0 == k;
    }
    forall k | k in t
      ensures k in m
    {
      var i :| 0 <= i < |items| && items[i].0 == k;
    }
  }

  /** `[x for x in s if p(x)]`. */
  function Filter<T>(s: seq<T>, p: T -> bool): (r: seq<T>)
    ensures |r| <= |s|
  {
    if s == [] then []
    else
      var n := |s| - 1;
      assert s == s[..n] + [s[n]];
      Filter(s[..n], p) + (if p(s[n]) then [s[n]] else [])
  }

  /** The result of a filter is exactly the elements of `s` that satisfy
      `p`, each taken once, in their order in `s`: `idx` gives, for each
      element of the result, its position in `s`. */
  lemma {:induction false} FilterIndices<T>(s: seq<T>, p: T -> bool) returns (idx: seq<nat>)
    ensures |idx| == |Filter(s, p)|
    ensures forall j | 0 <= j < |idx| :: idx[j] < |s| && Filter(s, p)[j] == s[idx[j]]
    ensures forall j, j' | 0 <= j < j' < |idx| :: idx[j] < idx[j']
    ensures forall i | 0 <= i < |s| :: p(s[i]) <==> i in idx
  {
    if s == [] {
      idx := [];
    } else {
      var n := |s| - 1;
      var prefix := FilterIndices(s[..n], p);
      var before := Filter(s[..n], p);
      var r := Filter(s, p);
      var tail := if p(s[n]) then [s[n]] else [];
      assert r == before + tail;
      idx := prefix + (if p(s[n]) then [n] else []);
      forall j | 0 <= j < |idx|
        ensures idx[j] < |s| && r[j] == s[idx[j]]
      {
        if j < |prefix| {
          assert idx[j] == prefix[j] && r[j] == before[j];
          assert s[..n][prefix[j]] == s[prefix[j]];
        }
      }
      forall j, j' | 0 <= j < j' < |idx|
        ensures idx[j] < idx[j']
      {
        if j' < |prefix| {
          assert idx[j] == prefix[j] && idx[j'] == prefix[j'];
        }
      }
      forall i | 0 <= i < |s|
        ensures p(s[i]) <==> i in idx
      {
        if i < n {
          assert s[..n][i] == s[i];
          assert p(s[..n][i]) <==> i in prefix;
        }
      }
    }
  }

  /** What a filter keeps: elements of `s` that satisfy `p`, and all of them. */
  lemma FilterMembership<T>(s: seq<T>, p: T -> bool)
    ensures forall x | x in Filter(s, p) :: x in s && p(x)
    ensures forall i | 0 <= i < |s| && p(s[i]) :: s[i] in Filter(s, p)
  {
    var idx := FilterIndices(s, p);
    var r := Filter(s, p);
    forall x | x in r
      ensures x in s && p(x)
    {
      var j :| 0 <= j < |r| && r[j] == x;
      assert s[idx[j]] == x;
      assert p(s[idx[j]]) <==> idx[j] in idx;
    }
    forall i | 0 <= i < |s| && p(s[i])
      ensures s[i] in r
    {
      var j :| 0 <= j < |idx| && idx[j] == i;
      assert r[j] == s[i];
    }
  }

  /** A filter keeps the relative order of what it keeps: a sequence
      ordered by `lt` stays ordered. */
  lemma FilterOrdered<T>(s: seq<T>, p: T -> bool, lt: (T, T) -> bool)
    requires forall i, j | 0 <= i < j < |s| :: lt(s[i], s[j])
    ensures forall i, j | 0 <= i < j < |Filter(s, p)| :: lt(Filter(s, p)[i], Filter(s, p)[j])
  {
    var idx := FilterIndices(s, p);
    var r := Filter(s, p);
    forall i, j | 0 <= i < j < |r|
      ensures lt(r[i], r[j])
    {
      assert r[i] == s[idx[i]] && r[j] == s[idx[j]] && idx[i] < idx[j];
    }
  }

  /** A filter that rejects nothing returns its input. */
  lemma {:induction false} FilterAll<T>(s: seq<T>, p: T -> bool)
    requires forall i | 0 <= i < |s| :: p(s[i])
    ensures Filter(s, p) == s
  {
    if s != [] {
      var n := |s| - 1;
      FilterAll(s[..n], p);
      assert s == s[..n] + [s[n]];
    }
  }

}
