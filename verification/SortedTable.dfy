/**
 * Tables sorted strictly by key, as values.
 *
 * The daemon keeps its applications and its contexts in arrays that are sorted after every
 * insertion. This module states what the array operations compute: the position of a key,
 * the insertion that "append, then sort" amounts to, and removal; and it relates each to the
 * finite map the table stands for.
 */
module SortedTable {
  import opened Order

  ghost predicate InOrder<T>(s: seq<T>, key: T -> Key, i: int, j: int) {
    0 <= i < j < |s| ==> Less(key(s[i]), key(s[j]))
  }

  /** Every two entries are in order; InOrder names the pair a proof looks at. */
  ghost predicate StrictlySorted<T>(s: seq<T>, key: T -> Key) {
    forall i, j :: InOrder(s, key, i, j)
  }

  lemma PrefixSorted<T>(s: seq<T>, key: T -> Key, n: nat)
    requires StrictlySorted(s, key) && n <= |s|
    ensures StrictlySorted(s[..n], key)
  {
    forall i, j ensures InOrder(s[..n], key, i, j) {
      assert InOrder(s, key, i, j);
    }
  }

  ghost predicate Has<T>(s: seq<T>, key: T -> Key, k: Key) {
    exists i :: 0 <= i < |s| && key(s[i]) == k
  }

  /** The position of an entry with key k, or -1. */
  function Position<T>(s: seq<T>, key: T -> Key, k: Key): (p: int)
    ensures -1 <= p < |s|
    ensures p >= 0 ==> key(s[p]) == k
  {
    if |s| == 0 then -1
    else if key(s[|s| - 1]) == k then |s| - 1
    else Position(s[..|s| - 1], key, k)
  }

  /** Position misses exactly the keys the table does not have. */
  lemma {:induction false} PositionHas<T>(s: seq<T>, key: T -> Key, k: Key)
    ensures Position(s, key, k) == -1 <==> !Has(s, key, k)
  {
    if |s| > 0 {
      PositionHas(s[..|s| - 1], key, k);
      if Has(s, key, k) && key(s[|s| - 1]) != k {
        var i :| 0 <= i < |s| && key(s[i]) == k;
        assert s[..|s| - 1][i] == s[i];
      }
    }
  }

  /** A strictly sorted table holds each key at most once, so any hit is the hit. */
  lemma PositionUnique<T>(s: seq<T>, key: T -> Key, p: int)
    requires StrictlySorted(s, key) && 0 <= p < |s|
    ensures Position(s, key, key(s[p])) == p
  {
    PositionHas(s, key, key(s[p]));
    var q := Position(s, key, key(s[p]));
    assert Has(s, key, key(s[p]));
    assert InOrder(s, key, p, q) && InOrder(s, key, q, p);
    LessIrreflexive(key(s[p]));
  }

  /** Insertion behind every entry whose key is not greater. */
  function Insert<T>(s: seq<T>, key: T -> Key, x: T): (r: seq<T>)
    ensures |r| == |s| + 1
  {
    if |s| == 0 || !Less(key(x), key(s[|s| - 1])) then s + [x]
    else Insert(s[..|s| - 1], key, x) + [s[|s| - 1]]
  }

  /** The result of an in-place sort. */
  function Sort<T>(s: seq<T>, key: T -> Key): (r: seq<T>)
    ensures |r| == |s|
  {
    if |s| == 0 then [] else Insert(Sort(s[..|s| - 1], key), key, s[|s| - 1])
  }

  /** Where Insert puts its element. */
  function InsertPosition<T>(s: seq<T>, key: T -> Key, k: Key): (p: nat)
    ensures p <= |s|
  {
    if |s| == 0 || !Less(k, key(s[|s| - 1])) then |s| else InsertPosition(s[..|s| - 1], key, k)
  }

  lemma {:induction false} InsertSplits<T>(s: seq<T>, key: T -> Key, x: T)
    ensures var p := InsertPosition(s, key, key(x));
            Insert(s, key, x) == s[..p] + [x] + s[p..]
  {
    if |s| != 0 && Less(key(x), key(s[|s| - 1])) {
      var t := s[..|s| - 1];
      InsertSplits(t, key, x);
      var p := InsertPosition(t, key, key(x));
      assert s[..p] == t[..p] && s[p..] == t[p..] + [s[|s| - 1]];
    }
  }

  /** Inserting a new key into a strictly sorted table splits it at that key. */
  lemma {:induction false} InsertPositionSeparates<T>(s: seq<T>, key: T -> Key, k: Key)
    requires StrictlySorted(s, key) && !Has(s, key, k)
    ensures var p := InsertPosition(s, key, k);
            && (forall i :: 0 <= i < p ==> Less(key(s[i]), k))
            && (forall i :: p <= i < |s| ==> Less(k, key(s[i])))
  {
    if |s| != 0 {
      var last := key(s[|s| - 1]);
      LessIsTotal(k, last);
      if Less(k, last) {
        PrefixSorted(s, key, |s| - 1);
        InsertPositionSeparates(s[..|s| - 1], key, k);
      } else {
        forall i | 0 <= i < |s| - 1 ensures Less(key(s[i]), k) {
          assert InOrder(s, key, i, |s| - 1);
          LessTransitive(key(s[i]), last, k);
        }
      }
    }
  }

  /** Inserting a new key keeps the table strictly sorted. */
  lemma InsertKeepsSorted<T>(s: seq<T>, key: T -> Key, x: T)
    requires StrictlySorted(s, key) && !Has(s, key, key(x))
    ensures StrictlySorted(Insert(s, key, x), key)
  {
    InsertSplits(s, key, x);
    InsertPositionSeparates(s, key, key(x));
    var p := InsertPosition(s, key, key(x));
    var r := s[..p] + [x] + s[p..];
    forall i, j ensures InOrder(r, key, i, j) {
      if 0 <= i < j < |r| {
        assert r[i] == if i < p then s[i] else if i == p then x else s[i - 1];
        assert r[j] == if j < p then s[j] else if j == p then x else s[j - 1];
        assert InOrder(s, key, if i < p then i else i - 1, if j < p then j else j - 1);
      }
    }
  }

  lemma {:induction false} SortOfSorted<T>(s: seq<T>, key: T -> Key)
    requires StrictlySorted(s, key)
    ensures Sort(s, key) == s
  {
    if |s| != 0 {
      PrefixSorted(s, key, |s| - 1);
      SortOfSorted(s[..|s| - 1], key);
      if |s| > 1 {
        assert InOrder(s, key, |s| - 2, |s| - 1);
        LessIsTotal(key(s[|s| - 2]), key(s[|s| - 1]));
      }
      assert s == s[..|s| - 1] + [s[|s| - 1]];
    }
  }

  /** Appending a new entry to a sorted table and sorting the whole is one insertion. */
  lemma AppendThenSort<T>(s: seq<T>, key: T -> Key, x: T)
    requires StrictlySorted(s, key)
    ensures Sort(s + [x], key) == Insert(s, key, x)
  {
    assert (s + [x])[..|s|] == s;
    SortOfSorted(s, key);
  }

  lemma LastIsGreatest<T>(s: seq<T>, key: T -> Key, x: T)
    requires StrictlySorted(s, key) && x in s
    ensures x == s[|s| - 1] || Less(key(x), key(s[|s| - 1]))
  {
    var i :| 0 <= i < |s| && s[i] == x;
    assert InOrder(s, key, i, |s| - 1);
  }

  lemma SameLast<T>(s: seq<T>, t: seq<T>, key: T -> Key)
    requires StrictlySorted(s, key) && StrictlySorted(t, key)
    requires |s| > 0 && |t| > 0 && s[|s| - 1] in t && t[|t| - 1] in s
    ensures s[|s| - 1] == t[|t| - 1]
  {
    LastIsGreatest(t, key, s[|s| - 1]);
    LastIsGreatest(s, key, t[|t| - 1]);
    LessIsTotal(key(s[|s| - 1]), key(t[|t| - 1]));
  }

  /**
   * Two strictly sorted tables with the same entries are the same table: which sorting
   * algorithm the C library uses cannot be observed.
   */
  lemma {:induction false} SortedPermutationUnique<T>(s: seq<T>, t: seq<T>, key: T -> Key)
    requires StrictlySorted(s, key) && StrictlySorted(t, key)
    requires multiset(s) == multiset(t)
    ensures s == t
    decreases |s|
  {
    assert |multiset(s)| == |s| && |multiset(t)| == |t|;
    if |s| > 0 {
      var n := |s| - 1;
      assert s[n] in multiset(s) && t[n] in multiset(t);
      SameLast(s, t, key);
      assert s == s[..n] + [s[n]] && t == t[..n] + [t[n]];
      assert multiset(s[..n]) == multiset(s) - multiset{s[n]};
      assert multiset(t[..n]) == multiset(t) - multiset{t[n]};
      PrefixSorted(s, key, n);
      PrefixSorted(t, key, n);
      SortedPermutationUnique(s[..n], t[..n], key);
    }
  }

  /** Removal of one position, as memmove does it. */
  function Without<T>(s: seq<T>, p: nat): (r: seq<T>)
    requires p < |s|
    ensures |r| == |s| - 1
    ensures forall i :: 0 <= i < |r| ==> r[i] == if i < p then s[i] else s[i + 1]
  {
    s[..p] + s[p + 1..]
  }

  lemma WithoutKeepsSorted<T>(s: seq<T>, key: T -> Key, p: nat)
    requires StrictlySorted(s, key) && p < |s|
    ensures StrictlySorted(Without(s, p), key)
  {
    forall i, j ensures InOrder(Without(s, p), key, i, j) {
      assert InOrder(s, key, if i < p then i else i + 1, if j < p then j else j + 1);
    }
  }
}
