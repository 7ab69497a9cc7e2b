/** Python's `sorted(xs, key=k)` and `min(xs, key=k)` over integer keys.
    Python's sort is stable: elements with equal keys keep their input order.
    `sorted(..., reverse=True)` is the same sort on the negated key (it, too,
    keeps equal elements in input order). */
module Sorting {

  /** Inserts `x` in front of the first element whose key is not smaller. */
  function Insert<T>(x: T, s: seq<T>, key: T -> int): (r: seq<T>)
    ensures multiset(r) == multiset(s) + multiset{x}
    ensures |r| == |s| + 1
  {
    if s == [] || key(x) <= key(s[0]) then [x] + s
    else
      assert s == [s[0]] + s[1..];
      [s[0]] + Insert(x, s[1..], key)
  }

  /** Stable ascending sort by `key` (insertion sort from the back of the input). */
  function SortBy<T>(s: seq<T>, key: T -> int): (r: seq<T>)
    ensures multiset(r) == multiset(s)
    ensures |r| == |s|
  {
    if s == [] then []
    else
      assert s == [s[0]] + s[1..];
      Insert(s[0], SortBy(s[1..], key), key)
  }

  ghost predicate Ascending<T>(s: seq<T>, key: T -> int) {
    forall i, j :: 0 <= i < j < |s| ==> key(s[i]) <= key(s[j])
  }

  /** The elements of `s` whose key is `v`, in their order in `s`. */
  function WithKey<T>(s: seq<T>, key: T -> int, v: int): seq<T> {
    if s == [] then []
    else (if key(s[0]) == v then [s[0]] else []) + WithKey(s[1..], key, v)
  }

  /** `i` is the position of the first element of `s` whose key is minimal. */
  ghost predicate IsFirstMin<T>(s: seq<T>, key: T -> int, i: int) {
    && 0 <= i < |s|
    && (forall j :: 0 <= j < |s| ==> key(s[i]) <= key(s[j]))
    && (forall j :: 0 <= j < i ==> key(s[i]) < key(s[j]))
  }

  /** Python's `min(s, key=key)` scans left to right and replaces its candidate
      only on a strictly smaller key, so it returns the first minimal element. */
  function FirstMinIndex<T>(s: seq<T>, key: T -> int): (i: nat)
    requires |s| > 0
    ensures IsFirstMin(s, key, i)
  {
    if |s| == 1 then 0
    else
      var i := FirstMinIndex(s[..|s| - 1], key);
      if key(s[|s| - 1]) < key(s[i]) then |s| - 1 else i
  }

  /** At most one position is the first minimal one. */
  lemma FirstMinUnique<T>(s: seq<T>, key: T -> int, i: int, j: int)
    requires IsFirstMin(s, key, i) && IsFirstMin(s, key, j)
    ensures i == j
  {
    assert key(s[i]) <= key(s[j]) && key(s[j]) <= key(s[i]);
  }

  lemma {:induction false} InsertAscending<T>(x: T, s: seq<T>, key: T -> int)
    requires Ascending(s, key)
    ensures Ascending(Insert(x, s, key), key)
  {
    if s != [] && key(x) > key(s[0]) {
      var t := Insert(x, s[1..], key);
      InsertAscending(x, s[1..], key);
      assert t[0] in multiset(t);
      assert t[0] == x || t[0] in multiset(s[1..]);
      var r := [s[0]] + t;
      forall i, j | 0 <= i < j < |r| ensures key(r[i]) <= key(r[j]) {
        if i == 0 {
          assert r[j] in multiset(t);
          assert r[j] == x || r[j] in s[1..];
        }
      }
    }
  }

  /** The result of SortBy is in ascending key order. */
  lemma {:induction false} SortByAscending<T>(s: seq<T>, key: T -> int)
    ensures Ascending(SortBy(s, key), key)
  {
    if s != [] {
      SortByAscending(s[1..], key);
      InsertAscending(s[0], SortBy(s[1..], key), key);
    }
  }

  /** Inserting `x` puts it in front of every element with the same key. */
  lemma {:induction false} InsertWithKey<T>(x: T, s: seq<T>, key: T -> int, v: int)
    ensures WithKey(Insert(x, s, key), key, v) ==
            (if key(x) == v then [x] else []) + WithKey(s, key, v)
  {
    if s == [] || key(x) <= key(s[0]) {
      assert ([x] + s)[1..] == s;
    } else {
      var r := [s[0]] + Insert(x, s[1..], key);
      assert r[1..] == Insert(x, s[1..], key);
      InsertWithKey(x, s[1..], key, v);
    }
  }

  /** Stability: for every key value, the elements carrying it appear in the
      sorted result in the same relative order as in the input. */
  lemma {:induction false} SortByStable<T>(s: seq<T>, key: T -> int, v: int)
    ensures WithKey(SortBy(s, key), key, v) == WithKey(s, key, v)
  {
    if s != [] {
      SortByStable(s[1..], key, v);
      InsertWithKey(s[0], SortBy(s[1..], key), key, v);
    }
  }

  /** `x` occurs in `s` at a position before one where `y` occurs. */
  ghost predicate Before<T>(s: seq<T>, x: T, y: T) {
    exists p, q :: 0 <= p < q < |s| && s[p] == x && s[q] == y
  }

  lemma {:induction false} WithKeyHas<T>(s: seq<T>, key: T -> int, j: int)
    requires 0 <= j < |s|
    ensures s[j] in WithKey(s, key, key(s[j]))
  {
    if j > 0 {
      WithKeyHas(s[1..], key, j - 1);
    }
  }

  lemma {:induction false} WithKeyIn<T>(s: seq<T>, key: T -> int, v: int, y: T)
    requires y in WithKey(s, key, v)
    ensures y in s
  {
    if s != [] && y != s[0] {
      WithKeyIn(s[1..], key, v, y);
    }
  }

  /** Two elements with the same key keep their relative order in `WithKey`. */
  lemma {:induction false} IndexBefore<T>(s: seq<T>, key: T -> int, i: int, j: int)
    requires 0 <= i < j < |s| && key(s[i]) == key(s[j])
    ensures Before(WithKey(s, key, key(s[i])), s[i], s[j])
  {
    var v := key(s[i]);
    var w := WithKey(s[1..], key, v);
    if i == 0 {
      assert s[1..][j - 1] == s[j];
      WithKeyHas(s[1..], key, j - 1);
      var q :| 0 <= q < |w| && w[q] == s[j];
      assert WithKey(s, key, v) == [s[0]] + w;
      assert ([s[0]] + w)[0] == s[i] && ([s[0]] + w)[q + 1] == s[j];
    } else {
      assert s[1..][i - 1] == s[i] && s[1..][j - 1] == s[j];
      IndexBefore(s[1..], key, i - 1, j - 1);
      var p, q :| 0 <= p < q < |w| && w[p] == s[i] && w[q] == s[j];
      if key(s[0]) == v {
        assert WithKey(s, key, v) == [s[0]] + w;
        assert ([s[0]] + w)[p + 1] == s[i] && ([s[0]] + w)[q + 1] == s[j];
      } else {
        assert WithKey(s, key, v) == w;
      }
    }
  }

  /** `WithKey` is a subsequence, so an order seen in it holds in `s`. */
  lemma {:induction false} SubseqBefore<T>(s: seq<T>, key: T -> int, v: int, x: T, y: T)
    requires Before(WithKey(s, key, v), x, y)
    ensures Before(s, x, y)
  {
    var w := WithKey(s[1..], key, v);
    var p, q :| 0 <= p < q < |WithKey(s, key, v)| && WithKey(s, key, v)[p] == x && WithKey(s, key, v)[q] == y;
    if key(s[0]) == v && p == 0 {
      assert w[q - 1] == y;
      WithKeyIn(s[1..], key, v, y);
      var q' :| 0 <= q' < |s[1..]| && s[1..][q'] == y;
      assert s[0] == x && s[q' + 1] == y;
    } else {
      if key(s[0]) == v {
        assert w[p - 1] == x && w[q - 1] == y;
      } else {
        assert w[p] == x && w[q] == y;
      }
      SubseqBefore(s[1..], key, v, x, y);
      var p', q' :| 0 <= p' < q' < |s[1..]| && s[1..][p'] == x && s[1..][q'] == y;
      assert s[p' + 1] == x && s[q' + 1] == y;
    }
  }

  /** The head of the sorted sequence is the first minimal element of the input,
      so the element listed first wins a tie. */
  lemma {:induction false} SortByHead<T>(s: seq<T>, key: T -> int)
    requires |s| > 0
    ensures SortBy(s, key)[0] == s[FirstMinIndex(s, key)]
  {
    var i := HeadIndex(s, key);
    FirstMinUnique(s, key, i, FirstMinIndex(s, key));
  }

  lemma {:induction false} HeadIndex<T>(s: seq<T>, key: T -> int) returns (i: nat)
    requires |s| > 0
    ensures IsFirstMin(s, key, i) && SortBy(s, key)[0] == s[i]
  {
    if |s| == 1 {
      i := 0;
    } else {
      var rest := s[1..];
      var k := HeadIndex(rest, key);
      var t := SortBy(rest, key);
      assert SortBy(s, key) == Insert(s[0], t, key);
      if key(s[0]) <= key(t[0]) {
        i := 0;
        HeadStays(s, key, rest[k]);
      } else {
        i := k + 1;
        HeadMoves(s, key, k);
      }
    }
  }

  lemma HeadStays<T>(s: seq<T>, key: T -> int, m: T)
    requires |s| > 1
    requires forall j :: 0 <= j < |s| - 1 ==> key(m) <= key(s[1..][j])
    requires key(s[0]) <= key(m)
    ensures IsFirstMin(s, key, 0)
  {
    forall j | 0 < j < |s| ensures key(s[0]) <= key(s[j]) {
      assert s[j] == s[1..][j - 1];
    }
  }

  lemma HeadMoves<T>(s: seq<T>, key: T -> int, k: int)
    requires |s| > 1
    requires IsFirstMin(s[1..], key, k)
    requires key(s[1..][k]) < key(s[0])
    ensures IsFirstMin(s, key, k + 1)
  {
    forall j | 0 < j < |s| ensures key(s[k + 1]) <= key(s[j]) {
      assert s[j] == s[1..][j - 1];
    }
    forall j | 0 < j < k + 1 ensures key(s[k + 1]) < key(s[j]) {
      assert s[j] == s[1..][j - 1];
    }
  }
}
