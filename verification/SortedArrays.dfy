/**
 * The library routines the registry runs on its arrays: an in-place sort, a binary search,
 * removal by shifting, and growth in blocks.
 */
module SortedArrays {
  import opened Order
  import opened SortedTable

  /** Sorts the first n entries in place; the rest of the array is left alone. */
  method SortPrefix<T>(a: array<T>, n: nat, key: T -> Key)
    requires n <= a.Length
    modifies a
    ensures a[..n] == Sort(old(a[..n]), key)
    ensures a[n..] == old(a[n..])
  {
    var i := 0;
    while i < n
      invariant i <= n
      invariant a[..i] == Sort(old(a[..i]), key)
      invariant a[i..] == old(a[i..])
    {
      assert old(a[..i + 1])[..i] == old(a[..i]) && a[i] == a[i..][0] == old(a[i..])[0] == old(a[i]);
      SinkLast(a, i, key);
      assert a[i + 1..] == old(a[i..])[1..];
      i := i + 1;
    }
  }

  /** Moves the entry at i down to its place among the entries in front of it. */
  method SinkLast<T>(a: array<T>, i: nat, key: T -> Key)
    requires i < a.Length
    modifies a
    ensures a[..i + 1] == Insert(old(a[..i]), key, old(a[i]))
    ensures a[i + 1..] == old(a[i + 1..])
  {
    var x, j := a[i], i;
    while j > 0 && Less(key(x), key(a[j - 1]))
      invariant j <= i
      invariant a[..j] == old(a[..j]) && a[i + 1..] == old(a[i + 1..])
      invariant Insert(old(a[..i]), key, x) == Insert(old(a[..j]), key, x) + a[j + 1..i + 1]
    {
      assert old(a[..j])[..j - 1] == old(a[..j - 1]) && a[j - 1] == a[..j][j - 1] == old(a[..j])[j - 1];
      ghost var tail := a[j + 1..i + 1];
      a[j] := a[j - 1];
      assert a[j..i + 1] == [a[j]] + tail;
      j := j - 1;
    }
    assert j > 0 ==> a[j - 1] == a[..j][j - 1] == old(a[..j])[j - 1];
    a[j] := x;
    assert a[..i + 1] == a[..j] + [x] + a[j + 1..i + 1];
  }

  /** bsearch over the first n entries. */
  method BinarySearch<T>(a: array<T>, n: nat, key: T -> Key, k: Key) returns (p: int)
    requires n <= a.Length && StrictlySorted(a[..n], key)
    ensures p == Position(a[..n], key, k)
  {
    ghost var s := a[..n];
    var lo, hi := 0, n;
    while lo < hi
      invariant 0 <= lo <= hi <= n
      invariant forall i :: 0 <= i < lo ==> Less(key(s[i]), k)
      invariant forall i :: hi <= i < n ==> Less(k, key(s[i]))
    {
      var mid := (lo + hi) / 2;
      assert a[mid] == s[mid];
      var c := Compare(k, key(a[mid]));
      if c < 0 {
        forall i | mid <= i < n ensures Less(k, key(s[i])) {
          assert InOrder(s, key, mid, i);
          if mid < i { LessTransitive(k, key(s[mid]), key(s[i])); }
        }
        hi := mid;
      } else if c > 0 {
        forall i | 0 <= i <= mid ensures Less(key(s[i]), k) {
          assert InOrder(s, key, i, mid);
          if i < mid { LessTransitive(key(s[i]), key(s[mid]), k); }
        }
        lo := mid + 1;
      } else {
        PositionUnique(s, key, mid);
        return mid;
      }
    }
    forall i | 0 <= i < n ensures key(s[i]) != k {
      LessIrreflexive(k);
    }
    return -1;
  }

  /** Removes entry p of the first n by shifting, and clears the slot that became free. */
  method ShiftDown<T>(a: array<T>, n: nat, p: nat, blank: T)
    requires p < n <= a.Length
    modifies a
    ensures a[..n - 1] == Without(old(a[..n]), p)
    ensures a[n - 1] == blank && a[n..] == old(a[n..])
  {
    for i := p to n - 1
      invariant forall j :: 0 <= j < a.Length ==> a[j] == if p <= j < i then old(a[j + 1]) else old(a[j])
    {
      a[i] := a[i + 1];
    }
    a[n - 1] := blank;
  }

  /** The least capacity the growth policy provides for n entries in blocks of size b. */
  function BlockCapacity(n: nat, b: nat): (c: nat)
    requires b >= 1
    decreases n
  {
    if n < b then b else b + BlockCapacity(n - b, b)
  }

  /** In closed form: one block more than the full blocks n entries take. */
  lemma {:induction false} BlockCapacityClosed(n: nat, b: nat)
    requires b >= 1
    ensures BlockCapacity(n, b) == (n / b + 1) * b
    decreases n
  {
    if n < b {
      SameQuotient(n, b, 0, n);
    } else {
      BlockCapacityClosed(n - b, b);
      OneBlockLess(n, b);
    }
  }

  /** There is always room for one more entry before the next block is due. */
  lemma {:induction false} BlockCapacityRoom(n: nat, b: nat)
    requires b >= 1
    ensures n < BlockCapacity(n, b) <= n + b
    decreases n
  {
    if n >= b { BlockCapacityRoom(n - b, b); }
  }

  /** The capacity needed changes exactly when the count reaches a multiple of the block. */
  lemma {:induction false} BlockCapacityStep(n: nat, b: nat)
    requires b >= 1
    ensures (n + 1) % b != 0 ==> BlockCapacity(n + 1, b) == BlockCapacity(n, b)
    ensures BlockCapacity(n, b) <= BlockCapacity(n + 1, b)
    decreases n
  {
    if n >= b {
      BlockCapacityStep(n - b, b);
      OneBlockLess(n + 1, b);
    } else if n + 1 == b {
      SameQuotient(n + 1, b, 1, 0);
    }
  }

  lemma OneBlockLess(n: nat, b: nat)
    requires 1 <= b <= n
    ensures (n - b) / b == n / b - 1 && (n - b) % b == n % b
  {
    var q, r := (n - b) / b, (n - b) % b;
    assert n - b == q * b + r;
    assert n == (q + 1) * b + r;
    SameQuotient(n, b, q + 1, r);
  }

  lemma SameQuotient(n: nat, b: nat, q: nat, r: nat)
    requires n == q * b + r && r < b
    ensures n / b == q && n % b == r
  {
    var q' := n / b;
    assert (q' - q) * b == r - n % b;
    if q' != q {
      MultipleIsLarge(q' - q, b);
      assert false;
    }
  }

  lemma MultipleIsLarge(d: int, b: nat)
    requires d != 0
    ensures d * b >= b || d * b <= 0 - b
  {
    if d > 0 {
      AtLeastOne(d, b);
    } else {
      AtLeastOne(0 - d, b);
      assert d * b == 0 - (0 - d) * b;
    }
  }

  lemma {:induction false} AtLeastOne(k: nat, b: nat)
    requires k >= 1
    ensures k * b >= b
  {
    if k > 1 {
      AtLeastOne(k - 1, b);
    }
  }

  /**
   * The growth step of every array in the daemon: when the new count n reaches a multiple of
   * the block size, a block of capacity (n / b + 1) * b is allocated and n slots are copied.
   * The copy stays inside the old block, and slot n - 1 exists afterwards.
   */
  method Grow<T(0)>(a: array<T>, n: nat, b: nat) returns (r: array<T>)
    requires b >= 1 && n >= 1 && BlockCapacity(n - 1, b) <= a.Length
    ensures BlockCapacity(n, b) <= r.Length && n <= r.Length && n <= a.Length
    ensures r[..n] == a[..n]
    ensures r == a || fresh(r)
  {
    BlockCapacityRoom(n - 1, b);
    BlockCapacityStep(n - 1, b);
    BlockCapacityRoom(n, b);
    if n % b == 0 {
      r := new T[BlockCapacity(n, b)];
      for i := 0 to n
        invariant r[..i] == a[..i]
      {
        r[i] := a[i];
      }
    } else {
      r := a;
    }
  }
}
