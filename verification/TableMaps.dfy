/**
 * The finite map that a strictly sorted table stands for, and what the table operations
 * are on that map.
 */
module TableMaps {
  import opened Order
  import opened SortedTable

  function MapValues<T>(m: map<Key, T>, f: T -> T): (r: map<Key, T>)
    ensures r.Keys == m.Keys
    ensures forall k :: k in m ==> r[k] == f(m[k])
  {
    map k | k in m :: f(m[k])
  }

  function MapSeq<T>(s: seq<T>, f: T -> T): (r: seq<T>)
    ensures |r| == |s|
    ensures forall i :: 0 <= i < |s| ==> r[i] == f(s[i])
  {
    seq(|s|, i requires 0 <= i < |s| => f(s[i]))
  }

  lemma MapSeqNext<T>(s: seq<T>, f: T -> T, n: nat)
    requires n < |s|
    ensures MapSeq(s[..n + 1], f) == MapSeq(s[..n], f) + [f(s[n])]
  {
  }

  ghost function AsMap<T>(s: seq<T>, key: T -> Key): (m: map<Key, T>) {
    if |s| == 0 then map[] else AsMap(s[..|s| - 1], key)[key(s[|s| - 1]) := s[|s| - 1]]
  }

  lemma {:induction false} MapLookup<T>(s: seq<T>, key: T -> Key, k: Key)
    ensures k in AsMap(s, key) <==> Position(s, key, k) >= 0
    ensures k in AsMap(s, key) ==> AsMap(s, key)[k] == s[Position(s, key, k)]
  {
    if |s| > 0 { MapLookup(s[..|s| - 1], key, k); }
  }

  lemma MapEntry<T>(s: seq<T>, key: T -> Key, i: int)
    requires StrictlySorted(s, key) && 0 <= i < |s|
    ensures key(s[i]) in AsMap(s, key) && AsMap(s, key)[key(s[i])] == s[i]
  {
    PositionUnique(s, key, i);
    MapLookup(s, key, key(s[i]));
  }

  /** A map with exactly the table's entries is the table's map. */
  lemma MapIs<T>(s: seq<T>, key: T -> Key, m: map<Key, T>)
    requires StrictlySorted(s, key)
    requires forall i :: 0 <= i < |s| ==> key(s[i]) in m && m[key(s[i])] == s[i]
    requires forall k :: k in m ==> Has(s, key, k)
    ensures AsMap(s, key) == m
  {
    var n := AsMap(s, key);
    forall k | k in m ensures k in n && n[k] == m[k] {
      var i :| 0 <= i < |s| && key(s[i]) == k;
      MapEntry(s, key, i);
    }
    forall k | k in n ensures k in m {
      MapLookup(s, key, k);
    }
  }

  lemma SameKeysSorted<T>(s: seq<T>, t: seq<T>, key: T -> Key)
    requires StrictlySorted(s, key) && |t| == |s|
    requires forall i :: 0 <= i < |s| ==> key(t[i]) == key(s[i])
    ensures StrictlySorted(t, key)
  {
    forall i, j ensures InOrder(t, key, i, j) {
      assert InOrder(s, key, i, j);
    }
  }

  lemma SameKeysPosition<T>(s: seq<T>, t: seq<T>, key: T -> Key, k: Key)
    requires |t| == |s| && forall i :: 0 <= i < |s| ==> key(t[i]) == key(s[i])
    ensures Position(t, key, k) == Position(s, key, k)
    decreases |s|
  {
    if |s| > 0 {
      SameKeysPosition(s[..|s| - 1], t[..|s| - 1], key, k);
    }
  }

  /** Rewriting every entry without touching its key. */
  lemma MapSeqAsMap<T>(s: seq<T>, key: T -> Key, f: T -> T)
    requires StrictlySorted(s, key) && forall i :: 0 <= i < |s| ==> key(f(s[i])) == key(s[i])
    ensures StrictlySorted(MapSeq(s, f), key)
    ensures AsMap(MapSeq(s, f), key) == MapValues(AsMap(s, key), f)
  {
    var t, m := MapSeq(s, f), AsMap(s, key);
    SameKeysSorted(s, t, key);
    forall i | 0 <= i < |t| ensures key(t[i]) in m && f(m[key(t[i])]) == t[i] {
      MapEntry(s, key, i);
    }
    forall k | k in m ensures Has(t, key, k) {
      MapLookup(s, key, k);
      assert key(t[Position(s, key, k)]) == k;
    }
    MapIs(t, key, MapValues(m, f));
  }

  /** Replacing one entry by one with the same key. */
  lemma ReplaceAsMap<T>(s: seq<T>, key: T -> Key, p: nat, x: T)
    requires StrictlySorted(s, key) && p < |s| && key(x) == key(s[p])
    ensures StrictlySorted(s[p := x], key)
    ensures AsMap(s[p := x], key) == AsMap(s, key)[key(x) := x]
  {
    var t, m := s[p := x], AsMap(s, key);
    SameKeysSorted(s, t, key);
    forall i | 0 <= i < |t| ensures key(t[i]) in m[key(x) := x] && m[key(x) := x][key(t[i])] == t[i] {
      MapEntry(s, key, i);
      if i != p { DistinctKeys(s, key, i, p); }
    }
    forall k | k in m[key(x) := x] ensures Has(t, key, k) {
      MapLookup(s, key, k);
      MapEntry(s, key, p);
      assert key(t[Position(s, key, k)]) == k;
    }
    MapIs(t, key, m[key(x) := x]);
  }

  lemma DistinctKeys<T>(s: seq<T>, key: T -> Key, i: int, j: int)
    requires StrictlySorted(s, key) && 0 <= i < |s| && 0 <= j < |s| && i != j
    ensures key(s[i]) != key(s[j])
  {
    assert InOrder(s, key, i, j) && InOrder(s, key, j, i);
    LessIrreflexive(key(s[i]));
  }

  lemma HasAt<T>(s: seq<T>, key: T -> Key, i: int)
    requires 0 <= i < |s|
    ensures Has(s, key, key(s[i]))
  {
  }

  lemma InsertEntries<T>(s: seq<T>, key: T -> Key, x: T)
    ensures forall i :: 0 <= i < |s| ==> Has(Insert(s, key, x), key, key(s[i]))
    ensures Has(Insert(s, key, x), key, key(x))
  {
    InsertSplits(s, key, x);
    var t, p := Insert(s, key, x), InsertPosition(s, key, key(x));
    assert t[p] == x;
    HasAt(t, key, p);
    forall i | 0 <= i < |s| ensures Has(t, key, key(s[i])) {
      var j := if i < p then i else i + 1;
      assert t[j] == s[i];
      HasAt(t, key, j);
    }
  }

  /** Inserting an entry with a new key. */
  lemma InsertAsMap<T>(s: seq<T>, key: T -> Key, x: T)
    requires StrictlySorted(s, key) && !Has(s, key, key(x))
    ensures StrictlySorted(Insert(s, key, x), key)
    ensures AsMap(Insert(s, key, x), key) == AsMap(s, key)[key(x) := x]
  {
    InsertKeepsSorted(s, key, x);
    InsertSplits(s, key, x);
    InsertEntries(s, key, x);
    var t, m, p := Insert(s, key, x), AsMap(s, key)[key(x) := x], InsertPosition(s, key, key(x));
    forall i | 0 <= i < |t| ensures key(t[i]) in m && m[key(t[i])] == t[i] {
      if i != p {
        var j := if i < p then i else i - 1;
        assert t[i] == s[j];
        MapEntry(s, key, j);
        HasAt(s, key, j);
      }
    }
    forall k | k in m ensures Has(t, key, k) {
      MapLookup(s, key, k);
    }
    MapIs(t, key, m);
  }

  lemma WithoutEntries<T>(s: seq<T>, key: T -> Key, p: nat, q: nat)
    requires p < |s| && q < |s| && q != p
    ensures Has(Without(s, p), key, key(s[q]))
  {
    var j := if q < p then q else q - 1;
    assert Without(s, p)[j] == s[q];
    HasAt(Without(s, p), key, j);
  }

  /** Removing one entry. */
  lemma WithoutAsMap<T>(s: seq<T>, key: T -> Key, p: nat)
    requires StrictlySorted(s, key) && p < |s|
    ensures StrictlySorted(Without(s, p), key)
    ensures AsMap(Without(s, p), key) == AsMap(s, key) - {key(s[p])}
  {
    WithoutKeepsSorted(s, key, p);
    var t, m := Without(s, p), AsMap(s, key) - {key(s[p])};
    forall i | 0 <= i < |t| ensures key(t[i]) in m && m[key(t[i])] == t[i] {
      var j := if i < p then i else i + 1;
      assert t[i] == s[j];
      MapEntry(s, key, j);
      DistinctKeys(s, key, j, p);
    }
    forall k | k in m ensures Has(t, key, k) {
      MapLookup(s, key, k);
      WithoutEntries(s, key, p, Position(s, key, k));
    }
    MapIs(t, key, m);
  }
}
