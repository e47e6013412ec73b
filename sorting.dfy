/** Python's `sorted(xs, key=...)`: a stable sort. Keys are sequences of
    integers compared lexicographically, as Python compares tuples. */
module Sorting {

  /** Lexicographic strict order on integer tuples. */
  predicate LexLess(a: seq<int>, b: seq<int>)
    decreases |a|
  {
    if a == [] then b != []
    else if b == [] then false
    else a[0] < b[0] || (a[0] == b[0] && LexLess(a[1..], b[1..]))
  }

  predicate LexLeq(a: seq<int>, b: seq<int>) { !LexLess(b, a) }

  lemma {:induction false} LexLessIrreflexive(a: seq<int>)
    ensures !LexLess(a, a)
    decreases |a|
  {
    if a != [] {
      LexLessIrreflexive(a[1..]);
    }
  }

  lemma {:induction false} LexLessTransitive(a: seq<int>, b: seq<int>, c: seq<int>)
    requires LexLess(a, b) && LexLess(b, c)
    ensures LexLess(a, c)
    decreases |a|
  {
    if a != [] && b != [] && c != [] && a[0] == b[0] == c[0] {
      LexLessTransitive(a[1..], b[1..], c[1..]);
    }
  }

  /** Any two distinct tuples are ordered one way or the other. */
  lemma {:induction false} LexLessTotal(a: seq<int>, b: seq<int>)
    requires a != b
    ensures LexLess(a, b) || LexLess(b, a)
    decreases |a|
  {
    if a != [] && b != [] && a[0] == b[0] {
      assert a == [a[0]] + a[1..] && b == [b[0]] + b[1..];
      LexLessTotal(a[1..], b[1..]);
    }
  }

  lemma LexLeqTransitive(a: seq<int>, b: seq<int>, c: seq<int>)
    requires LexLeq(a, b) && LexLeq(b, c)
    ensures LexLeq(a, c)
  {
    if LexLess(c, a) {
      if a == b {
        assert false;
      } else if b == c {
        assert false;
      } else {
        LexLessTotal(a, b);
        LexLessTotal(b, c);
        LexLessTransitive(a, b, c);
        LexLessTransitive(a, c, a);
        LexLessIrreflexive(a);
      }
    }
  }

  predicate SortedBy<T>(s: seq<T>, key: T -> seq<int>)
  {
    forall i, j :: 0 <= i < j < |s| ==> LexLeq(key(s[i]), key(s[j]))
  }

  /** Places `x` in front of the first element whose key is strictly
      greater, after every element whose key equals its own. */
  function Insert<T>(x: T, t: seq<T>, key: T -> seq<int>): (r: seq<T>)
    ensures |r| == |t| + 1
  {
    if t == [] then [x]
    else if LexLess(key(x), key(t[0])) then [x] + t
    else
      assert t == [t[0]] + t[1..];
      [t[0]] + Insert(x, t[1..], key)
  }

  lemma {:induction false} InsertPermutes<T>(x: T, t: seq<T>, key: T -> seq<int>)
    ensures multiset(Insert(x, t, key)) == multiset(t) + multiset{x}
  {
    if t != [] && !LexLess(key(x), key(t[0])) {
      InsertPermutes(x, t[1..], key);
      assert t == [t[0]] + t[1..];
    }
  }

  /** `sorted(s, key=key)`, as insertion of each element in turn. */
  function Sort<T>(s: seq<T>, key: T -> seq<int>): (r: seq<T>)
    ensures |r| == |s|
  {
    if s == [] then [] else Insert(s[|s| - 1], Sort(s[..|s| - 1], key), key)
  }

  lemma SortedTail<T>(t: seq<T>, key: T -> seq<int>)
    requires t != [] && SortedBy(t, key)
    ensures SortedBy(t[1..], key)
  {
    forall i, j | 0 <= i < j < |t[1..]|
      ensures LexLeq(key(t[1..][i]), key(t[1..][j]))
    {
      assert t[1..][i] == t[i + 1] && t[1..][j] == t[j + 1];
    }
  }

  lemma SortedCons<T>(x: T, t: seq<T>, key: T -> seq<int>)
    requires SortedBy(t, key)
    requires t != [] ==> LexLeq(key(x), key(t[0]))
    ensures SortedBy([x] + t, key)
  {
    var r := [x] + t;
    forall i, j | 0 <= i < j < |r|
      ensures LexLeq(key(r[i]), key(r[j]))
    {
      if i == 0 {
        assert r[j] == t[j - 1];
        if j > 1 {
          LexLeqTransitive(key(x), key(t[0]), key(t[j - 1]));
        }
      } else {
        assert r[i] == t[i - 1] && r[j] == t[j - 1];
      }
    }
  }

  lemma {:induction false} InsertSorted<T>(x: T, t: seq<T>, key: T -> seq<int>)
    requires SortedBy(t, key)
    ensures SortedBy(Insert(x, t, key), key)
    ensures t != [] ==> Insert(x, t, key)[0] == x || Insert(x, t, key)[0] == t[0]
  {
    if t == [] {
    } else if LexLess(key(x), key(t[0])) {
      LexLessTotalLeq(key(x), key(t[0]));
      SortedCons(x, t, key);
    } else {
      SortedTail(t, key);
      InsertSorted(x, t[1..], key);
      var rest := Insert(x, t[1..], key);
      if t[1..] != [] {
        assert t[1..][0] == t[1];
      }
      SortedCons(t[0], rest, key);
    }
  }

  lemma LexLessTotalLeq(a: seq<int>, b: seq<int>)
    requires LexLess(a, b)
    ensures LexLeq(a, b)
  {
    if LexLess(b, a) {
      LexLessTransitive(a, b, a);
      LexLessIrreflexive(a);
    }
  }

  /** The result is ordered by key. */
  lemma {:induction false} SortSorted<T>(s: seq<T>, key: T -> seq<int>)
    ensures SortedBy(Sort(s, key), key)
  {
    if s != [] {
      SortSorted(s[..|s| - 1], key);
      InsertSorted(s[|s| - 1], Sort(s[..|s| - 1], key), key);
    }
  }

  /** The result holds the same elements, each as often. */
  lemma {:induction false} SortPermutes<T>(s: seq<T>, key: T -> seq<int>)
    ensures multiset(Sort(s, key)) == multiset(s)
  {
    if s != [] {
      SortPermutes(s[..|s| - 1], key);
      InsertPermutes(s[|s| - 1], Sort(s[..|s| - 1], key), key);
      assert s == s[..|s| - 1] + [s[|s| - 1]];
    }
  }

  /** An element whose key is not below any key of `t` goes at the end. */
  lemma {:induction false} InsertAtEnd<T>(x: T, t: seq<T>, key: T -> seq<int>)
    requires forall i :: 0 <= i < |t| ==> LexLeq(key(t[i]), key(x))
    ensures Insert(x, t, key) == t + [x]
  {
    if t != [] {
      assert LexLeq(key(t[0]), key(x));
      assert forall i :: 0 <= i < |t[1..]| ==> t[1..][i] == t[i + 1];
      InsertAtEnd(x, t[1..], key);
      assert [t[0]] + (t[1..] + [x]) == t + [x];
    }
  }

  /** Sorting an ordered list leaves it as it is, so sorting is idempotent. */
  lemma {:induction false} SortOfSorted<T>(s: seq<T>, key: T -> seq<int>)
    requires SortedBy(s, key)
    ensures Sort(s, key) == s
  {
    if s != [] {
      var init := s[..|s| - 1];
      assert SortedBy(init, key) by {
        assert forall i :: 0 <= i < |init| ==> init[i] == s[i];
      }
      SortOfSorted(init, key);
      assert forall i :: 0 <= i < |init| ==> LexLeq(key(init[i]), key(s[|s| - 1])) by {
        assert forall i :: 0 <= i < |init| ==> init[i] == s[i];
      }
      InsertAtEnd(s[|s| - 1], init, key);
      assert init + [s[|s| - 1]] == s;
    }
  }

  /** The elements of `s` whose key is `k`, in order. */
  function WithKey<T>(s: seq<T>, key: T -> seq<int>, k: seq<int>): seq<T>
  {
    if s == [] then []
    else (if key(s[0]) == k then [s[0]] else []) + WithKey(s[1..], key, k)
  }

  lemma {:induction false} WithKeyAppend<T>(a: seq<T>, b: seq<T>, key: T -> seq<int>, k: seq<int>)
    ensures WithKey(a + b, key, k) == WithKey(a, key, k) + WithKey(b, key, k)
  {
    if a == [] {
      assert a + b == b;
    } else {
      var head := if key(a[0]) == k then [a[0]] else [];
      var x, y := WithKey(a[1..], key, k), WithKey(b, key, k);
      assert (a + b)[0] == a[0] && (a + b)[1..] == a[1..] + b;
      WithKeyAppend(a[1..], b, key, k);
      assert head + (x + y) == (head + x) + y;
    }
  }

  /** `[x]` when `x` has key `k`, otherwise nothing. */
  function KeyedSingleton<T>(x: T, key: T -> seq<int>, k: seq<int>): seq<T>
  {
    if key(x) == k then [x] else []
  }

  lemma WithKeySingleton<T>(x: T, key: T -> seq<int>, k: seq<int>)
    ensures WithKey([x], key, k) == KeyedSingleton(x, key, k)
  {
    assert [x][1..] == [];
  }

  /** Inserting `x` into a sorted list adds it behind every element with an
      equal key. */
  lemma {:induction false} InsertStable<T>(x: T, t: seq<T>, key: T -> seq<int>, k: seq<int>)
    requires SortedBy(t, key)
    ensures WithKey(Insert(x, t, key), key, k) == WithKey(t, key, k) + KeyedSingleton(x, key, k)
  {
    if t == [] {
      WithKeySingleton(x, key, k);
    } else if LexLess(key(x), key(t[0])) {
      InsertStableFront(x, t, key, k);
    } else {
      SortedTail(t, key);
      InsertStable(x, t[1..], key, k);
      InsertStableBehind(x, t, key, k);
    }
  }

  lemma InsertStableBehind<T>(x: T, t: seq<T>, key: T -> seq<int>, k: seq<int>)
    requires t != [] && !LexLess(key(x), key(t[0]))
    requires WithKey(Insert(x, t[1..], key), key, k) == WithKey(t[1..], key, k) + KeyedSingleton(x, key, k)
    ensures WithKey(Insert(x, t, key), key, k) == WithKey(t, key, k) + KeyedSingleton(x, key, k)
  {
    var rest := Insert(x, t[1..], key);
    InsertBehind(x, t, key);
    var head, tail, single := WithKey([t[0]], key, k), WithKey(t[1..], key, k), KeyedSingleton(x, key, k);
    WithKeyAppend([t[0]], rest, key, k);
    assert WithKey(Insert(x, t, key), key, k) == head + (tail + single);
    WithKeyAppend([t[0]], t[1..], key, k);
    assert [t[0]] + t[1..] == t;
    assert WithKey(t, key, k) == head + tail;
    assert head + (tail + single) == (head + tail) + single;
  }

  lemma InsertBehind<T>(x: T, t: seq<T>, key: T -> seq<int>)
    requires t != [] && !LexLess(key(x), key(t[0]))
    ensures Insert(x, t, key) == [t[0]] + Insert(x, t[1..], key)
  {
  }

  lemma InsertStableFront<T>(x: T, t: seq<T>, key: T -> seq<int>, k: seq<int>)
    requires SortedBy(t, key) && t != [] && LexLess(key(x), key(t[0]))
    ensures WithKey([x] + t, key, k) == WithKey(t, key, k) + KeyedSingleton(x, key, k)
  {
    WithKeyAppend([x], t, key, k);
    WithKeySingleton(x, key, k);
    if key(x) == k {
      NoneAbove(x, t, key, k);
    }
  }

  /** Nothing in a sorted list that starts above `key(x)` has key `key(x)`. */
  lemma NoneAbove<T>(x: T, t: seq<T>, key: T -> seq<int>, k: seq<int>)
    requires SortedBy(t, key) && t != [] && LexLess(key(x), key(t[0])) && key(x) == k
    ensures WithKey(t, key, k) == []
  {
    LexLessTotalLeq(key(x), key(t[0]));
    LexLessIrreflexive(key(x));
    forall i | 0 <= i < |t|
      ensures key(t[i]) != k
    {
      if i > 0 {
        assert LexLeq(key(t[0]), key(t[i]));
      }
    }
    WithKeyNone(t, key, k);
  }

  lemma {:induction false} WithKeyNone<T>(t: seq<T>, key: T -> seq<int>, k: seq<int>)
    requires forall i :: 0 <= i < |t| ==> key(t[i]) != k
    ensures WithKey(t, key, k) == []
  {
    if t != [] {
      assert key(t[0]) != k;
      assert forall i :: 0 <= i < |t[1..]| ==> t[1..][i] == t[i + 1];
      WithKeyNone(t[1..], key, k);
    }
  }

  /** Stability: elements with equal keys keep their relative order. */
  lemma {:induction false} SortStable<T>(s: seq<T>, key: T -> seq<int>, k: seq<int>)
    ensures WithKey(Sort(s, key), key, k) == WithKey(s, key, k)
  {
    if s != [] {
      var init, last := s[..|s| - 1], s[|s| - 1];
      var sortedInit := Sort(init, key);
      assert Sort(s, key) == Insert(last, sortedInit, key);
      SortStable(init, key, k);
      SortSorted(init, key);
      InsertStable(last, sortedInit, key, k);
      assert WithKey(Sort(s, key), key, k) == WithKey(init, key, k) + KeyedSingleton(last, key, k);
      WithKeyAppend(init, [last], key, k);
      WithKeySingleton(last, key, k);
      assert s == init + [last];
    }
  }
}
