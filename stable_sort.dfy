/** Python's `list.sort(key=k, reverse=True)`: a stable sort on descending
    keys, so that items with equal keys keep their relative order. Modelled
    as insertion from the back: each later item goes after every item whose
    key is at least its own. */
module StableSort {

  function Insert<T>(s: seq<T>, x: T, key: T -> int): (r: seq<T>)
    ensures |r| == |s| + 1
    decreases |s|
  {
    if s == [] then [x]
    else if key(s[|s| - 1]) >= key(x) then s + [x]
    else Insert(s[..|s| - 1], x, key) + [s[|s| - 1]]
  }

  function SortDesc<T>(s: seq<T>, key: T -> int): (r: seq<T>)
    ensures |r| == |s|
  {
    if s == [] then [] else Insert(SortDesc(s[..|s| - 1], key), s[|s| - 1], key)
  }

  predicate SortedDesc<T>(s: seq<T>, key: T -> int)
  {
    forall i, j :: 0 <= i < j < |s| ==> key(s[i]) >= key(s[j])
  }

  /** The items of `s` whose key is `k`, in the order of `s`. */
  function WithKey<T>(s: seq<T>, key: T -> int, k: int): seq<T>
  {
    if s == [] then []
    else WithKey(s[..|s| - 1], key, k) + (if key(s[|s| - 1]) == k then [s[|s| - 1]] else [])
  }

  lemma {:induction false} WithKeyAppend<T>(a: seq<T>, b: seq<T>, key: T -> int, k: int)
    ensures WithKey(a + b, key, k) == WithKey(a, key, k) + WithKey(b, key, k)
    decreases |b|
  {
    if b == [] {
      assert a + b == a;
    } else {
      var b' := b[..|b| - 1];
      assert (a + b)[..|a + b| - 1] == a + b';
      WithKeyAppend(a, b', key, k);
    }
  }

  lemma {:induction false} InsertItems<T>(s: seq<T>, x: T, key: T -> int)
    ensures forall y :: y in Insert(s, x, key) ==> y in s || y == x
    ensures multiset(Insert(s, x, key)) == multiset(s) + multiset{x}
    decreases |s|
  {
    if s != [] && key(s[|s| - 1]) < key(x) {
      var s', last := s[..|s| - 1], s[|s| - 1];
      assert s == s' + [last];
      InsertItems(s', x, key);
    }
  }

  lemma {:induction false} InsertSorted<T>(s: seq<T>, x: T, key: T -> int)
    requires SortedDesc(s, key)
    ensures SortedDesc(Insert(s, x, key), key)
    decreases |s|
  {
    if s != [] && key(s[|s| - 1]) < key(x) {
      var s', last := s[..|s| - 1], s[|s| - 1];
      InsertSorted(s', x, key);
      InsertItems(s', x, key);
      var r := Insert(s', x, key);
      forall i | 0 <= i < |r| ensures key(r[i]) >= key(last) {
        assert r[i] in r;
        if r[i] != x {
          var m :| 0 <= m < |s'| && s'[m] == r[i];
          assert s[m] == r[i];
        }
      }
    }
  }

  lemma {:induction false} InsertWithKey<T>(s: seq<T>, x: T, key: T -> int, k: int)
    ensures WithKey(Insert(s, x, key), key, k) == WithKey(s, key, k) + (if key(x) == k then [x] else [])
    decreases |s|
  {
    if s == [] {
      assert [x][..0] == [];
    } else if key(s[|s| - 1]) >= key(x) {
      assert (s + [x])[..|s|] == s;
    } else {
      var s', last := s[..|s| - 1], s[|s| - 1];
      InsertWithKey(s', x, key, k);
      var r' := Insert(s', x, key);
      assert (r' + [last])[..|r'|] == r';
    }
  }

  lemma {:induction false} SortDescProps<T>(s: seq<T>, key: T -> int)
    ensures SortedDesc(SortDesc(s, key), key)
    ensures multiset(SortDesc(s, key)) == multiset(s)
    ensures forall k :: WithKey(SortDesc(s, key), key, k) == WithKey(s, key, k)
  {
    if s != [] {
      var s', last := s[..|s| - 1], s[|s| - 1];
      assert s == s' + [last];
      SortDescProps(s', key);
      InsertItems(SortDesc(s', key), last, key);
      InsertSorted(SortDesc(s', key), last, key);
      forall k ensures WithKey(SortDesc(s, key), key, k) == WithKey(s, key, k) {
        InsertWithKey(SortDesc(s', key), last, key, k);
      }
    }
  }

  /** Sorting an already sorted sequence changes nothing. */
  lemma {:induction false} SortDescOfSorted<T>(s: seq<T>, key: T -> int)
    requires SortedDesc(s, key)
    ensures SortDesc(s, key) == s
  {
    if s != [] {
      var s', last := s[..|s| - 1], s[|s| - 1];
      assert SortedDesc(s', key);
      SortDescOfSorted(s', key);
      assert s == s' + [last];
    }
  }

  /** Which items a stable descending sort keeps in front: each item keeps its
      place relative to the items of the same key, and the keys descend. These
      two facts fix the result. */
  lemma {:induction false} SortDescUnique<T>(r: seq<T>, s: seq<T>, key: T -> int)
    requires SortedDesc(r, key)
    requires forall k :: WithKey(r, key, k) == WithKey(s, key, k)
    ensures r == SortDesc(s, key)
  {
    SortDescProps(s, key);
    SortedUnique(r, SortDesc(s, key), key);
  }

  lemma {:induction false} WithKeyLast<T>(s: seq<T>, key: T -> int)
    requires s != []
    ensures WithKey(s, key, key(s[|s| - 1])) != []
  {
  }

  /** Two descending sequences with the same items per key are equal. */
  lemma {:induction false} SortedUnique<T>(a: seq<T>, b: seq<T>, key: T -> int)
    requires SortedDesc(a, key) && SortedDesc(b, key)
    requires forall k :: WithKey(a, key, k) == WithKey(b, key, k)
    ensures a == b
    decreases |a| + |b|
  {
    if a == [] && b == [] {
    } else if a == [] {
      WithKeyLast(b, key);
      assert false;
    } else if b == [] {
      WithKeyLast(a, key);
      assert false;
    } else {
      var la, lb := a[|a| - 1], b[|b| - 1];
      var a', b' := a[..|a| - 1], b[..|b| - 1];
      // the last of a descending sequence has the least key; both lasts have the same key
      if key(la) < key(lb) {
        WithKeyLast(a, key);
        MinKeyAbsent(b, key, key(la));
        assert false;
      } else if key(lb) < key(la) {
        WithKeyLast(b, key);
        MinKeyAbsent(a, key, key(lb));
        assert false;
      }
      var k0 := key(la);
      var ga, gb := WithKey(a', key, k0) + [la], WithKey(b', key, k0) + [lb];
      assert WithKey(a, key, k0) == ga;
      assert WithKey(b, key, k0) == gb;
      assert ga[|ga| - 1] == gb[|gb| - 1];
      assert la == lb;
      forall k ensures WithKey(a', key, k) == WithKey(b', key, k) {
        if k == k0 {
          assert WithKey(a', key, k0) + [la] == WithKey(b', key, k0) + [lb];
          assert WithKey(a', key, k0) == (WithKey(a', key, k0) + [la])[..|WithKey(a', key, k0)|];
        } else {
          assert WithKey(a, key, k) == WithKey(a', key, k);
          assert WithKey(b, key, k) == WithKey(b', key, k);
        }
      }
      assert SortedDesc(a', key) && SortedDesc(b', key);
      SortedUnique(a', b', key);
      assert a == a' + [la] && b == b' + [lb];
    }
  }

  /** In a descending sequence no item has a key below the last one's. */
  lemma MinKeyAbsent<T>(s: seq<T>, key: T -> int, k: int)
    requires s != [] && SortedDesc(s, key) && k < key(s[|s| - 1])
    ensures WithKey(s, key, k) == []
  {
    forall i | 0 <= i < |s| ensures key(s[i]) != k {
      assert i == |s| - 1 || key(s[i]) >= key(s[|s| - 1]);
    }
    WithKeyNone(s, key, k);
  }

  lemma {:induction false} WithKeyNone<T>(s: seq<T>, key: T -> int, k: int)
    requires forall i :: 0 <= i < |s| ==> key(s[i]) != k
    ensures WithKey(s, key, k) == []
  {
    if s != [] {
      WithKeyNone(s[..|s| - 1], key, k);
    }
  }

  lemma {:induction false} WithKeyKeys<T>(s: seq<T>, key: T -> int, k: int)
    ensures |WithKey(s, key, k)| <= |s|
    ensures forall y :: y in WithKey(s, key, k) ==> y in s && key(y) == k
  {
    if s != [] {
      WithKeyKeys(s[..|s| - 1], key, k);
    }
  }
}
