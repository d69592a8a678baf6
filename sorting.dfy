/**
 * Selection and stable sorting over sequences.
 *
 * `Select` is what a SQL WHERE clause or a JavaScript `filter` does to a
 * list of records; `SortBy` is the stable sort that both
 * `Array.prototype.sort` (stable since ES2019) and an `ORDER BY` over a
 * single key are modelled by. Keys are integers: every comparator in the
 * system subtracts two integers (day numbers, priority ranks, booleans).
 */
module Sorting {

  /** The elements of `s` that satisfy `p`, in their order in `s`. */
  function Select<T(!new)>(s: seq<T>, p: T -> bool): (r: seq<T>)
    ensures |r| <= |s|
    ensures forall i :: 0 <= i < |r| ==> p(r[i]) && r[i] in s
  {
    if s == [] then []
    else Select(s[..|s| - 1], p) + (if p(s[|s| - 1]) then [s[|s| - 1]] else [])
  }

  /**
   * Selection keeps each element that satisfies `p` as often as `s` holds
   * it, and no other element.
   */
  lemma {:induction false} SelectCounts<T(!new)>(s: seq<T>, p: T -> bool)
    ensures forall x :: multiset(Select(s, p))[x] == if p(x) then multiset(s)[x] else 0
  {
    if s != [] {
      var init, last := s[..|s| - 1], s[|s| - 1];
      SelectCounts(init, p);
      assert s == init + [last];
    }
  }

  /** Every element of `s` that satisfies `p` is selected. */
  lemma SelectComplete<T(!new)>(s: seq<T>, p: T -> bool, x: T)
    requires x in s && p(x)
    ensures x in Select(s, p)
  {
    SelectCounts(s, p);
    assert multiset(Select(s, p))[x] == multiset(s)[x];
  }

  /** Selection by a predicate every element meets keeps the whole sequence. */
  lemma {:induction false} SelectAll<T(!new)>(s: seq<T>, p: T -> bool)
    requires forall j :: 0 <= j < |s| ==> p(s[j])
    ensures Select(s, p) == s
  {
    if s != [] {
      var init := s[..|s| - 1];
      SelectAll(init, p);
      assert s == init + [s[|s| - 1]];
    }
  }

  /** Selection distributes over concatenation: it keeps the order of `s`. */
  lemma {:induction false} SelectAppend<T(!new)>(a: seq<T>, b: seq<T>, p: T -> bool)
    ensures Select(a + b, p) == Select(a, p) + Select(b, p)
  {
    if b == [] {
      assert a + b == a;
    } else {
      var b' := b[..|b| - 1];
      SelectAppend(a, b', p);
      assert (a + b)[..|a + b| - 1] == a + b';
    }
  }

  /** Selection keeps distinct keys distinct. */
  lemma {:induction false} SelectKeepsDistinct<T(!new), K>(s: seq<T>, p: T -> bool, key: T -> K)
    requires forall i, j :: 0 <= i < j < |s| ==> key(s[i]) != key(s[j])
    ensures forall i, j :: 0 <= i < j < |Select(s, p)| ==> key(Select(s, p)[i]) != key(Select(s, p)[j])
  {
    if s != [] {
      var init, last := s[..|s| - 1], s[|s| - 1];
      SelectKeepsDistinct(init, p, key);
      var r := Select(init, p);
      var all := Select(s, p);
      assert all == r + (if p(last) then [last] else []);
      if p(last) {
        assert all == r + [last];
        forall i, j | 0 <= i < j < |all|
          ensures key(all[i]) != key(all[j])
        {
          if j == |r| {
            assert all[i] == r[i] && all[j] == last;
            var k :| 0 <= k < |init| && init[k] == r[i];
            assert s[k] == all[i];
          } else {
            assert all[i] == r[i] && all[j] == r[j];
          }
        }
      } else {
        assert all == r;
        forall i, j | 0 <= i < j < |all|
          ensures key(all[i]) != key(all[j])
        {
          assert all[i] == r[i] && all[j] == r[j];
        }
      }
    }
  }

  /** Two predicates that agree on every element select the same elements. */
  lemma {:induction false} SelectAgrees<T(!new)>(s: seq<T>, p: T -> bool, q: T -> bool)
    requires forall i :: 0 <= i < |s| ==> p(s[i]) == q(s[i])
    ensures Select(s, p) == Select(s, q)
  {
    if s != [] {
      SelectAgrees(s[..|s| - 1], p, q);
    }
  }

  /** Every key in `s` is no larger than the key of any later element. */
  predicate SortedBy<T>(s: seq<T>, key: T -> int) {
    forall i, j :: 0 <= i < j < |s| ==> key(s[i]) <= key(s[j])
  }

  /**
   * Inserts `x` into `s` after every element whose key is at most `key(x)`,
   * scanning from the right: the step of a stable insertion sort.
   */
  function Insert<T>(x: T, s: seq<T>, key: T -> int): (r: seq<T>)
    ensures |r| == |s| + 1
  {
    if s == [] then [x]
    else if key(s[|s| - 1]) <= key(x) then s + [x]
    else Insert(x, s[..|s| - 1], key) + [s[|s| - 1]]
  }

  /** Stable sort of `s` by ascending `key`. */
  function SortBy<T>(s: seq<T>, key: T -> int): (r: seq<T>)
    ensures |r| == |s|
  {
    if s == [] then [] else Insert(s[|s| - 1], SortBy(s[..|s| - 1], key), key)
  }

  /** The elements of `s` whose key is `k`, in their order in `s`. */
  function WithKey<T>(s: seq<T>, key: T -> int, k: int): seq<T> {
    if s == [] then []
    else WithKey(s[..|s| - 1], key, k) + (if key(s[|s| - 1]) == k then [s[|s| - 1]] else [])
  }

  lemma {:induction false} InsertPermutes<T>(x: T, s: seq<T>, key: T -> int)
    ensures multiset(Insert(x, s, key)) == multiset(s) + multiset{x}
  {
    if s != [] && key(s[|s| - 1]) > key(x) {
      InsertPermutes(x, s[..|s| - 1], key);
      assert s == s[..|s| - 1] + [s[|s| - 1]];
    }
  }

  /** Sorting only reorders: the result is a permutation of the input. */
  lemma {:induction false} SortByPermutes<T>(s: seq<T>, key: T -> int)
    ensures multiset(SortBy(s, key)) == multiset(s)
  {
    if s != [] {
      var init := s[..|s| - 1];
      SortByPermutes(init, key);
      InsertPermutes(s[|s| - 1], SortBy(init, key), key);
      assert s == init + [s[|s| - 1]];
    }
  }

  lemma {:induction false} InsertSorted<T>(x: T, s: seq<T>, key: T -> int)
    requires SortedBy(s, key)
    ensures SortedBy(Insert(x, s, key), key)
  {
    if s != [] && key(s[|s| - 1]) > key(x) {
      var init, last := s[..|s| - 1], s[|s| - 1];
      InsertSorted(x, init, key);
      var t := Insert(x, init, key);
      InsertPermutes(x, init, key);
      forall i | 0 <= i < |t|
        ensures key(t[i]) <= key(last)
      {
        assert t[i] in multiset(init) + multiset{x};
        if t[i] != x {
          assert t[i] in init;
          var j :| 0 <= j < |init| && init[j] == t[i];
          assert s[j] == t[i];
        }
      }
    }
  }

  /** The result of sorting is ordered by ascending key. */
  lemma {:induction false} SortBySorted<T>(s: seq<T>, key: T -> int)
    ensures SortedBy(SortBy(s, key), key)
  {
    if s != [] {
      SortBySorted(s[..|s| - 1], key);
      InsertSorted(s[|s| - 1], SortBy(s[..|s| - 1], key), key);
    }
  }

  /** Sorting a sequence that is already ordered by `key` leaves it as it is. */
  lemma {:induction false} SortBySortedIsIdentity<T>(s: seq<T>, key: T -> int)
    requires SortedBy(s, key)
    ensures SortBy(s, key) == s
  {
    if s != [] {
      var init := s[..|s| - 1];
      assert SortedBy(init, key);
      SortBySortedIsIdentity(init, key);
      if init != [] {
        assert key(init[|init| - 1]) <= key(s[|s| - 1]);
      }
      assert s == init + [s[|s| - 1]];
    }
  }

  /** Sorting twice by the same key is sorting once. */
  lemma SortByIdempotent<T>(s: seq<T>, key: T -> int)
    ensures SortBy(SortBy(s, key), key) == SortBy(s, key)
  {
    SortBySorted(s, key);
    SortBySortedIsIdentity(SortBy(s, key), key);
  }

  lemma {:induction false} WithKeyAppend<T>(a: seq<T>, b: seq<T>, key: T -> int, k: int)
    ensures WithKey(a + b, key, k) == WithKey(a, key, k) + WithKey(b, key, k)
  {
    if b != [] {
      var b' := b[..|b| - 1];
      WithKeyAppend(a, b', key, k);
      assert (a + b)[..|a + b| - 1] == a + b';
    } else {
      assert a + b == a;
    }
  }

  lemma {:induction false} InsertStable<T>(x: T, s: seq<T>, key: T -> int, k: int)
    ensures WithKey(Insert(x, s, key), key, k)
         == WithKey(s, key, k) + (if key(x) == k then [x] else [])
  {
    if s == [] {
      assert WithKey([x], key, k) == WithKey([], key, k) + (if key(x) == k then [x] else []);
    } else if key(s[|s| - 1]) <= key(x) {
      WithKeyAppend(s, [x], key, k);
      assert WithKey([x], key, k) == WithKey([], key, k) + (if key(x) == k then [x] else []);
    } else {
      var init, last := s[..|s| - 1], s[|s| - 1];
      InsertStable(x, init, key, k);
      WithKeyAppend(Insert(x, init, key), [last], key, k);
      assert WithKey([last], key, k) == WithKey([], key, k) + (if key(last) == k then [last] else []);
    }
  }

  /**
   * Sorting is stable: for every key value, the elements carrying it keep
   * their relative order.
   */
  lemma {:induction false} SortByStable<T>(s: seq<T>, key: T -> int, k: int)
    ensures WithKey(SortBy(s, key), key, k) == WithKey(s, key, k)
  {
    if s != [] {
      SortByStable(s[..|s| - 1], key, k);
      InsertStable(s[|s| - 1], SortBy(s[..|s| - 1], key), key, k);
    }
  }

  /**
   * One step of the insertion: when the element before position `j` has
   * a larger key than `x`, inserting into `p[..j]` is inserting into
   * `p[..j - 1]` followed by that element.
   */
  lemma InsertShift<T>(x: T, p: seq<T>, j: nat, key: T -> int)
    requires 0 < j <= |p| && key(p[j - 1]) > key(x)
    ensures Insert(x, p[..j], key) + p[j..] == Insert(x, p[..j - 1], key) + p[j - 1..]
  {
    assert p[..j][..j - 1] == p[..j - 1];
    assert p[j - 1..] == [p[j - 1]] + p[j..];
  }

  /** Insertion stops at `j` when the element before it has a key no larger than `x`'s. */
  lemma InsertStop<T>(x: T, p: seq<T>, j: nat, key: T -> int)
    requires j <= |p| && (j == 0 || key(p[j - 1]) <= key(x))
    ensures Insert(x, p[..j], key) + p[j..] == p[..j] + [x] + p[j..]
  {
  }

  /**
   * The array during the insertion: `p` with a hole at `j` (whatever
   * `s[j]` holds), then the untouched `suffix`.
   */
  ghost predicate Holed<T>(s: seq<T>, p: seq<T>, suffix: seq<T>, j: int) {
    0 <= j <= |p| && |s| == |p| + 1 + |suffix| && s == p[..j] + [s[j]] + p[j..] + suffix
  }

  /** Writing the element before the hole into it moves the hole one place left. */
  lemma MoveHole<T>(s: seq<T>, p: seq<T>, suffix: seq<T>, j: int)
    requires Holed(s, p, suffix, j) && j > 0
    ensures s[j - 1] == p[j - 1]
    ensures Holed(s[j := s[j - 1]], p, suffix, j - 1)
  {
    var t := s[j := s[j - 1]];
    assert s[j - 1] == (p[..j] + [s[j]] + p[j..] + suffix)[j - 1];
    var u := p[..j - 1] + [t[j - 1]] + p[j - 1..] + suffix;
    assert |t| == |u|;
    forall k | 0 <= k < |t|
      ensures t[k] == u[k]
    {
      if k < j - 1 {
      } else if k == j - 1 || k == j {
      } else if k <= |p| {
      } else {
      }
    }
  }

  /** Filling the hole with `x` puts `x` between the two parts of `p`. */
  lemma FillHole<T>(s: seq<T>, p: seq<T>, suffix: seq<T>, j: int, x: T)
    requires Holed(s, p, suffix, j)
    ensures s[j := x][..|p| + 1] == p[..j] + [x] + p[j..]
    ensures s[j := x][|p| + 1..] == suffix
  {
    var t := s[j := x];
    assert t == (p[..j] + [x] + p[j..]) + suffix;
  }

  /** Writes one element of `a`. */
  method WriteAt<T>(a: array<T>, j: nat, v: T)
    requires j < a.Length
    modifies a
    ensures a[..] == old(a[..])[j := v]
  {
    a[j] := v;
  }

  /**
   * Moves `a[i]` left past the elements of `a[..i]` with a larger key, so
   * that `a[..i + 1]` becomes `Insert(a[i], a[..i])`; the rest of `a` stays.
   */
  method InsertAt<T>(a: array<T>, i: nat, key: T -> int)
    requires i < a.Length
    modifies a
    ensures a[..i + 1] == Insert(old(a[i]), old(a[..i]), key)
    ensures a[i + 1..] == old(a[i + 1..])
  {
    ghost var p, suffix := a[..i], a[i + 1..];
    var x := a[i];
    var j := i;
    assert p[..j] == p && p[j..] == [];
    assert a[..] == p[..j] + [a[j]] + p[j..] + suffix;
    while j > 0 && key(a[j - 1]) > key(x)
      invariant Holed(a[..], p, suffix, j)
      invariant Insert(x, p, key) == Insert(x, p[..j], key) + p[j..]
    {
      MoveHole(a[..], p, suffix, j);
      InsertShift(x, p, j, key);
      WriteAt(a, j, a[j - 1]);
      j := j - 1;
    }
    if j > 0 {
      MoveHole(a[..], p, suffix, j);
    }
    InsertStop(x, p, j, key);
    FillHole(a[..], p, suffix, j, x);
    WriteAt(a, j, x);
  }

  /**
   * Sorts `a` in place, stably, by ascending `key` (insertion sort: each
   * element in turn is moved into the sorted prefix before it).
   */
  method SortInPlace<T>(a: array<T>, key: T -> int)
    modifies a
    ensures a[..] == SortBy(old(a[..]), key)
  {
    ghost var orig := a[..];
    var i := 0;
    while i < a.Length
      invariant 0 <= i <= a.Length
      invariant a[..i] == SortBy(orig[..i], key)
      invariant a[i..] == orig[i..]
    {
      assert orig[..i + 1] == orig[..i] + [orig[i]];
      InsertAt(a, i, key);
      i := i + 1;
    }
    assert a[..] == a[..a.Length] && orig == orig[..a.Length];
  }
}
