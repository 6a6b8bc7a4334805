/** A stable sort in descending key order: the behaviour of
    `Array.prototype.sort` (stable since ES2019) with a comparator of the form
    `(a, b) => key(b) - key(a)`. Used for the pie-chart data and for the
    transaction list. */
module StableSort {

  /** `s` is ordered by `key`, non-increasing. */
  predicate SortedDesc<T>(s: seq<T>, key: T -> int) {
    forall i, j :: 0 <= i < j < |s| ==> key(s[i]) >= key(s[j])
  }

  /** The elements of `s` whose key is `k`, in their order in `s`. */
  function WithKey<T>(s: seq<T>, key: T -> int, k: int): (r: seq<T>)
    ensures |r| <= |s|
  {
    if |s| == 0 then []
    else (if key(s[0]) == k then [s[0]] else []) + WithKey(s[1..], key, k)
  }

  /** `a` and `b` hold the same elements per key, in the same relative order:
      the stability condition. */
  ghost predicate SameKeyClasses<T>(a: seq<T>, b: seq<T>, key: T -> int) {
    forall k :: WithKey(a, key, k) == WithKey(b, key, k)
  }

  /** Places `x` after every element whose key is at least its own. */
  function Insert<T>(x: T, s: seq<T>, key: T -> int): (r: seq<T>)
    ensures |r| == |s| + 1
  {
    if |s| == 0 then [x]
    else if key(s[0]) >= key(x) then [s[0]] + Insert(x, s[1..], key)
    else [x] + s
  }

  /** Inserting keeps every key at or below a common bound. */
  lemma {:induction false} InsertBound<T>(x: T, s: seq<T>, key: T -> int, bound: int)
    requires key(x) <= bound
    requires forall i :: 0 <= i < |s| ==> key(s[i]) <= bound
    ensures forall j :: 0 <= j < |s| + 1 ==> key(Insert(x, s, key)[j]) <= bound
    decreases |s|
  {
    if |s| > 0 && key(s[0]) >= key(x) {
      InsertBound(x, s[1..], key, bound);
      var r := Insert(x, s, key);
      forall j | 0 < j < |s| + 1 ensures key(r[j]) <= bound {
        assert r[j] == Insert(x, s[1..], key)[j - 1];
      }
    }
  }

  lemma {:induction false} InsertSorted<T>(x: T, s: seq<T>, key: T -> int)
    requires SortedDesc(s, key)
    ensures SortedDesc(Insert(x, s, key), key)
    decreases |s|
  {
    if |s| > 0 && key(s[0]) >= key(x) {
      var t := Insert(x, s[1..], key);
      SortedTail(s, key);
      InsertSorted(x, s[1..], key);
      forall i | 0 <= i < |s[1..]| ensures key(s[1..][i]) <= key(s[0]) {
        assert s[1..][i] == s[i + 1];
      }
      InsertBound(x, s[1..], key, key(s[0]));
      var r := Insert(x, s, key);
      assert r == [s[0]] + t;
      forall i, j | 0 <= i < j < |r| ensures key(r[i]) >= key(r[j]) {
        assert r[j] == t[j - 1];
        if i > 0 {
          assert r[i] == t[i - 1];
        }
      }
    }
  }

  /** Inserting adds exactly `x`. */
  lemma {:induction false} InsertPerm<T>(x: T, s: seq<T>, key: T -> int)
    ensures multiset(Insert(x, s, key)) == multiset(s) + multiset{x}
    decreases |s|
  {
    if |s| > 0 && key(s[0]) >= key(x) {
      InsertPerm(x, s[1..], key);
      assert s == [s[0]] + s[1..];
    }
  }

  /** Sorts by inserting each element, last first, into the sorted rest. */
  function SortDesc<T>(s: seq<T>, key: T -> int): (r: seq<T>)
    ensures |r| == |s|
    ensures SortedDesc(r, key)
  {
    if |s| == 0 then []
    else
      var sorted := SortDesc(s[..|s| - 1], key);
      InsertSorted(s[|s| - 1], sorted, key);
      Insert(s[|s| - 1], sorted, key)
  }

  /** The sort is a permutation. */
  lemma {:induction false} SortPerm<T>(s: seq<T>, key: T -> int)
    ensures multiset(SortDesc(s, key)) == multiset(s)
    decreases |s|
  {
    if |s| > 0 {
      var init := s[..|s| - 1];
      SortPerm(init, key);
      InsertPerm(s[|s| - 1], SortDesc(init, key), key);
      assert s == init + [s[|s| - 1]];
    }
  }

  /** A key class holds elements of `s` with that key. */
  lemma {:induction false} WithKeyMembers<T>(s: seq<T>, key: T -> int, k: int)
    ensures forall y :: y in WithKey(s, key, k) ==> y in s && key(y) == k
    decreases |s|
  {
    if |s| > 0 {
      WithKeyMembers(s[1..], key, k);
      WithKeyCons(s[0], s[1..], key, k);
      assert s == [s[0]] + s[1..];
    }
  }

  lemma WithKeyCons<T>(y: T, t: seq<T>, key: T -> int, k: int)
    ensures WithKey([y] + t, key, k) == (if key(y) == k then [y] else []) + WithKey(t, key, k)
  {
    assert ([y] + t)[0] == y;
    assert ([y] + t)[1..] == t;
  }

  /** The last element is inserted last. */
  lemma SortLast<T>(s: seq<T>, key: T -> int)
    requires |s| > 0
    ensures SortDesc(s, key) == Insert(s[|s| - 1], SortDesc(s[..|s| - 1], key), key)
  {
  }

  lemma {:induction false} WithKeyConcat<T>(a: seq<T>, b: seq<T>, key: T -> int, k: int)
    ensures WithKey(a + b, key, k) == WithKey(a, key, k) + WithKey(b, key, k)
    decreases |a|
  {
    if |a| == 0 {
      assert a + b == b;
    } else {
      assert a + b == [a[0]] + (a[1..] + b);
      assert a == [a[0]] + a[1..];
      WithKeyCons(a[0], a[1..] + b, key, k);
      WithKeyCons(a[0], a[1..], key, k);
      WithKeyConcat(a[1..], b, key, k);
    }
  }

  lemma {:induction false} WithKeyNone<T>(s: seq<T>, key: T -> int, k: int)
    requires forall i :: 0 <= i < |s| ==> key(s[i]) != k
    ensures WithKey(s, key, k) == []
    decreases |s|
  {
    if |s| > 0 {
      WithKeyNone(s[1..], key, k);
    }
  }

  lemma SortedTail<T>(s: seq<T>, key: T -> int)
    requires |s| > 0 && SortedDesc(s, key)
    ensures SortedDesc(s[1..], key)
  {
    forall i, j | 0 <= i < j < |s| - 1 ensures key(s[1..][i]) >= key(s[1..][j]) {
      assert s[1..][i] == s[i + 1] && s[1..][j] == s[j + 1];
    }
  }

  lemma SortedInit<T>(s: seq<T>, key: T -> int)
    requires |s| > 0 && SortedDesc(s, key)
    ensures SortedDesc(s[..|s| - 1], key)
    ensures forall i :: 0 <= i < |s| - 1 ==> key(s[i]) >= key(s[|s| - 1])
  {
    var init := s[..|s| - 1];
    forall i, j | 0 <= i < j < |init| ensures key(init[i]) >= key(init[j]) {
      assert init[i] == s[i] && init[j] == s[j];
    }
  }

  /** In a sorted sequence whose head is below `k`, no key is `k`. */
  lemma SortedBelowHead<T>(s: seq<T>, key: T -> int, k: int)
    requires |s| > 0 && SortedDesc(s, key) && key(s[0]) < k
    ensures forall i :: 0 <= i < |s| ==> key(s[i]) != k
  {
    forall i | 0 < i < |s| ensures key(s[i]) != k {
      assert key(s[0]) >= key(s[i]);
    }
  }

  /** Inserting `x` before a head with a smaller key puts it first,
      and its key class had no member yet. */
  lemma InsertFront<T>(x: T, s: seq<T>, key: T -> int, k: int)
    requires |s| > 0 && SortedDesc(s, key) && key(s[0]) < key(x)
    ensures WithKey(Insert(x, s, key), key, k) == WithKey(s, key, k) + (if key(x) == k then [x] else [])
  {
    assert Insert(x, s, key) == [x] + s;
    WithKeyCons(x, s, key, k);
    if key(x) == k {
      SortedBelowHead(s, key, k);
      WithKeyNone(s, key, k);
    }
  }

  /** Inserting `x` adds it at the end of its key class and leaves every
      other key class alone. */
  lemma {:induction false} InsertWithKey<T>(x: T, s: seq<T>, key: T -> int, k: int)
    requires SortedDesc(s, key)
    ensures WithKey(Insert(x, s, key), key, k) == WithKey(s, key, k) + (if key(x) == k then [x] else [])
    decreases |s|
  {
    if |s| == 0 {
      WithKeyCons(x, [], key, k);
      assert [x] + [] == [x];
    } else if key(s[0]) >= key(x) {
      var t := Insert(x, s[1..], key);
      assert Insert(x, s, key) == [s[0]] + t;
      assert s == [s[0]] + s[1..];
      WithKeyCons(s[0], t, key, k);
      WithKeyCons(s[0], s[1..], key, k);
      SortedTail(s, key);
      InsertWithKey(x, s[1..], key, k);
    } else {
      InsertFront(x, s, key, k);
    }
  }

  /** The sort is stable: each key class keeps its input order. */
  lemma {:induction false} SortIsStable<T>(s: seq<T>, key: T -> int)
    ensures SameKeyClasses(SortDesc(s, key), s, key)
    decreases |s|
  {
    if |s| > 0 {
      var init, x := s[..|s| - 1], s[|s| - 1];
      assert s == init + [x];
      SortLast(s, key);
      SortIsStable(init, key);
      forall k ensures WithKey(SortDesc(s, key), key, k) == WithKey(s, key, k) {
        InsertWithKey(x, SortDesc(init, key), key, k);
        WithKeyConcat(init, [x], key, k);
        WithKeyCons(x, [], key, k);
        assert [x] + [] == [x];
      }
    }
  }

  /** Inserting an element no larger than all of `s` appends it. */
  lemma {:induction false} InsertLast<T>(x: T, s: seq<T>, key: T -> int)
    requires forall i :: 0 <= i < |s| ==> key(s[i]) >= key(x)
    ensures Insert(x, s, key) == s + [x]
    decreases |s|
  {
    if |s| > 0 {
      InsertLast(x, s[1..], key);
      assert s == [s[0]] + s[1..];
    }
  }

  /** Sorting an already sorted sequence returns it unchanged. */
  lemma {:induction false} SortIdempotent<T>(s: seq<T>, key: T -> int)
    requires SortedDesc(s, key)
    ensures SortDesc(s, key) == s
    decreases |s|
  {
    if |s| > 0 {
      var init, x := s[..|s| - 1], s[|s| - 1];
      SortLast(s, key);
      SortedInit(s, key);
      SortIdempotent(init, key);
      InsertLast(x, init, key);
      assert init + [x] == s;
    }
  }

  /** Sequences with the same key classes are empty together. */
  lemma EmptyClasses<T>(a: seq<T>, b: seq<T>, key: T -> int)
    requires SameKeyClasses(a, b, key)
    ensures |a| == 0 <==> |b| == 0
  {
    if |a| > 0 {
      assert WithKey(a, key, key(a[0])) != [];
    }
    if |b| > 0 {
      assert WithKey(b, key, key(b[0])) != [];
    }
  }

  /** Two sorted, non-empty sequences with the same key classes start with
      the same element. */
  lemma SameHead<T>(a: seq<T>, b: seq<T>, key: T -> int)
    requires |a| > 0 && |b| > 0
    requires SortedDesc(a, key) && SortedDesc(b, key)
    requires SameKeyClasses(a, b, key)
    ensures key(a[0]) == key(b[0]) && a[0] == b[0]
  {
    var ka, kb := key(a[0]), key(b[0]);
    WithKeyMembers(a, key, kb);
    WithKeyMembers(b, key, ka);
    assert WithKey(a, key, ka) != [];
    var ya := WithKey(b, key, ka)[0];
    assert ya in b && key(ya) == ka;
    assert ka <= kb;
    assert WithKey(b, key, kb) != [];
    var yb := WithKey(a, key, kb)[0];
    assert yb in a && key(yb) == kb;
    assert kb <= ka;
    assert a[0] == WithKey(a, key, ka)[0] == WithKey(b, key, ka)[0] == b[0];
  }

  /** Dropping a common first element keeps the key classes equal. */
  lemma SameTailClasses<T>(a: seq<T>, b: seq<T>, key: T -> int)
    requires |a| > 0 && |b| > 0 && a[0] == b[0]
    requires SameKeyClasses(a, b, key)
    ensures SameKeyClasses(a[1..], b[1..], key)
  {
    forall k ensures WithKey(a[1..], key, k) == WithKey(b[1..], key, k) {
      assert WithKey(a, key, k) == WithKey(b, key, k);
      if k == key(a[0]) {
        assert WithKey(a[1..], key, k) == WithKey(a, key, k)[1..];
        assert WithKey(b[1..], key, k) == WithKey(b, key, k)[1..];
      } else {
        assert WithKey(a, key, k) == WithKey(a[1..], key, k);
        assert WithKey(b, key, k) == WithKey(b[1..], key, k);
      }
    }
  }

  /** A sorted sequence with the same key classes as `b`, which is sorted
      too, is `b`: sortedness and stability fix the output completely. */
  lemma {:induction false} SortedClassesUnique<T>(a: seq<T>, b: seq<T>, key: T -> int)
    requires SortedDesc(a, key) && SortedDesc(b, key)
    requires SameKeyClasses(a, b, key)
    ensures a == b
    decreases |a|
  {
    EmptyClasses(a, b, key);
    if |a| > 0 {
      SameHead(a, b, key);
      SameTailClasses(a, b, key);
      SortedClassesUnique(a[1..], b[1..], key);
      assert a == [a[0]] + a[1..] && b == [b[0]] + b[1..];
    }
  }

  /** `SortDesc` is the one stable descending sort: a sequence is its
      result exactly when it is sorted and keeps every key class of `s`. */
  lemma SortCharacterized<T>(s: seq<T>, r: seq<T>, key: T -> int)
    ensures r == SortDesc(s, key) <==> SortedDesc(r, key) && SameKeyClasses(r, s, key)
  {
    SortIsStable(s, key);
    if SortedDesc(r, key) && SameKeyClasses(r, s, key) {
      SortedClassesUnique(r, SortDesc(s, key), key);
    }
  }
}
