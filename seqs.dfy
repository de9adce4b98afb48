/** Sequence helpers shared by the tables and the pages: order-preserving
    filtering (SQL `WHERE`, pandas boolean indexing) and key order. */
module Seqs {
  import opened Wrappers
  import opened Text

  /** The elements of `s` that `keep` accepts, in their original order. */
  function Filter<T(!new)>(s: seq<T>, keep: T -> bool): (r: seq<T>)
    ensures |r| <= |s|
    ensures forall x :: x in r <==> x in s && keep(x)
  {
    if s == [] then []
    else
      assert s == s[..|s| - 1] + [s[|s| - 1]];
      Filter(s[..|s| - 1], keep) + (if keep(s[|s| - 1]) then [s[|s| - 1]] else [])
  }

  /** An element occurs in the filtered sequence as often as in `s` when
      `keep` accepts it, and not at all otherwise. */
  lemma {:induction false} FilterCount<T(!new)>(s: seq<T>, keep: T -> bool, x: T)
    ensures multiset(Filter(s, keep))[x] == if keep(x) then multiset(s)[x] else 0
  {
    if s != [] {
      var init, last := s[..|s| - 1], s[|s| - 1];
      FilterCount(init, keep, x);
      assert s == init + [last];
      assert multiset(s) == multiset(init) + multiset{last};
    }
  }

  /** Filtering two permutations of each other gives permutations of each other. */
  lemma FilterPermutation<T(!new)>(s: seq<T>, t: seq<T>, keep: T -> bool)
    requires multiset(s) == multiset(t)
    ensures multiset(Filter(s, keep)) == multiset(Filter(t, keep))
  {
    forall x ensures multiset(Filter(s, keep))[x] == multiset(Filter(t, keep))[x] {
      FilterCount(s, keep, x);
      FilterCount(t, keep, x);
    }
  }

  /** The keys strictly increase along `s` (a table in rowid order). */
  predicate Increasing<T>(s: seq<T>, key: T -> int)
  {
    forall i, j :: 0 <= i < j < |s| ==> key(s[i]) < key(s[j])
  }

  /** Filtering keeps rows in order, so it keeps the keys increasing. */
  lemma {:induction false} FilterIncreasing<T(!new)>(s: seq<T>, keep: T -> bool, key: T -> int)
    requires Increasing(s, key)
    ensures Increasing(Filter(s, keep), key)
  {
    if s != [] {
      var init, last := s[..|s| - 1], s[|s| - 1];
      assert Increasing(init, key);
      FilterIncreasing(init, keep, key);
      var r := Filter(init, keep);
      forall x | x in r ensures key(x) < key(last) {
        var p :| 0 <= p < |init| && init[p] == x;
        assert s[p] == x;
      }
    }
  }

  /** Filtering a concatenation filters each part. */
  lemma {:induction false} FilterAppend<T(!new)>(s: seq<T>, t: seq<T>, keep: T -> bool)
    ensures Filter(s + t, keep) == Filter(s, keep) + Filter(t, keep)
  {
    if t != [] {
      var init := t[..|t| - 1];
      assert (s + t)[..|s + t| - 1] == s + init;
      assert (s + t)[|s + t| - 1] == t[|t| - 1];
      FilterAppend(s, init, keep);
    } else {
      assert s + t == s;
    }
  }

  /** A filter that keeps everything is the identity. */
  lemma {:induction false} FilterKeepsAll<T(!new)>(s: seq<T>, keep: T -> bool)
    requires forall x :: x in s ==> keep(x)
    ensures Filter(s, keep) == s
  {
    if s != [] {
      var init, last := s[..|s| - 1], s[|s| - 1];
      forall x | x in init ensures keep(x) {
        var p :| 0 <= p < |init| && init[p] == x;
        assert s[p] == x;
      }
      FilterKeepsAll(init, keep);
      assert keep(s[|s| - 1]);
      assert s == init + [last];
    }
  }

  /** Appending a row whose key exceeds every key keeps the keys increasing. */
  lemma AppendIncreasing<T>(s: seq<T>, y: T, key: T -> int)
    requires Increasing(s, key)
    requires forall i :: 0 <= i < |s| ==> key(s[i]) < key(y)
    ensures Increasing(s + [y], key)
  {
  }

  /** The first element `p` accepts (`cursor.fetchone()` in rowid order). */
  function First<T>(s: seq<T>, p: T -> bool): (r: Option<T>)
    ensures r.None? <==> forall i :: 0 <= i < |s| ==> !p(s[i])
    ensures r.Some? ==>
              exists i :: 0 <= i < |s| && s[i] == r.value && p(s[i]) && forall j :: 0 <= j < i ==> !p(s[j])
  {
    if s == [] then None
    else if p(s[0]) then Some(s[0])
    else
      var r := First(s[1..], p);
      assert forall i :: 1 <= i < |s| ==> s[i] == s[1..][i - 1];
      r
  }

  /* ---------------- Mapping with a filter (a SELECT with a WHERE) ---------------- */

  /** The images of the elements of `s` that `f` maps to a value, in order. */
  function FilterMap<T, U>(s: seq<T>, f: T -> Option<U>): (r: seq<U>)
    ensures |r| <= |s|
  {
    if s == [] then []
    else (match f(s[0]) case Some(y) => [y] case None => []) + FilterMap(s[1..], f)
  }

  /** Exactly the images of elements of `s` occur in the result. */
  lemma {:induction false} FilterMapMembers<T, U>(s: seq<T>, f: T -> Option<U>, y: U)
    ensures y in FilterMap(s, f) <==> exists i :: 0 <= i < |s| && f(s[i]) == Some(y)
  {
    if s != [] {
      FilterMapMembers(s[1..], f, y);
      if exists i :: 0 <= i < |s[1..]| && f(s[1..][i]) == Some(y) {
        var i :| 0 <= i < |s[1..]| && f(s[1..][i]) == Some(y);
        assert f(s[i + 1]) == Some(y);
      }
      if exists i :: 0 <= i < |s| && f(s[i]) == Some(y) {
        var i :| 0 <= i < |s| && f(s[i]) == Some(y);
        if i > 0 {
          assert f(s[1..][i - 1]) == Some(y);
        }
      }
    }
  }

  lemma {:induction false} FilterMapAppend<T, U>(s: seq<T>, t: seq<T>, f: T -> Option<U>)
    ensures FilterMap(s + t, f) == FilterMap(s, f) + FilterMap(t, f)
  {
    if s == [] {
      assert s + t == t;
    } else {
      assert (s + t)[0] == s[0] && (s + t)[1..] == s[1..] + t;
      FilterMapAppend(s[1..], t, f);
    }
  }

  /** Nothing mapped: nothing selected. */
  lemma {:induction false} FilterMapNone<T, U>(s: seq<T>, f: T -> Option<U>)
    requires forall i :: 0 <= i < |s| ==> f(s[i]).None?
    ensures FilterMap(s, f) == []
  {
    if s != [] {
      FilterMapNone(s[1..], f);
    }
  }

  /** Everything mapped: the result is the image, element by element. */
  lemma {:induction false} FilterMapAll<T, U>(s: seq<T>, f: T -> Option<U>)
    requires forall i :: 0 <= i < |s| ==> f(s[i]).Some?
    ensures |FilterMap(s, f)| == |s|
    ensures forall i :: 0 <= i < |s| ==> FilterMap(s, f)[i] == f(s[i]).value
  {
    if s != [] {
      FilterMapAll(s[1..], f);
    }
  }

  /* ---------------- ORDER BY a text key (BINARY collation) ---------------- */

  /** `a` may come before `b` in an `ORDER BY key ASC` (or `DESC`). */
  predicate InOrder(a: string, b: string, desc: bool)
  {
    if desc then Le(b, a) else Le(a, b)
  }

  predicate SortedBy<T>(s: seq<T>, key: T -> string, desc: bool)
  {
    forall i, j :: 0 <= i < j < |s| ==> InOrder(key(s[i]), key(s[j]), desc)
  }

  /** Inserts `x` before the first element it may precede. */
  function Insert<T>(x: T, s: seq<T>, key: T -> string, desc: bool): (r: seq<T>)
    ensures multiset(r) == multiset(s) + multiset{x}
  {
    if s == [] then [x]
    else if InOrder(key(x), key(s[0]), desc) then [x] + s
    else
      assert s == [s[0]] + s[1..];
      [s[0]] + Insert(x, s[1..], key, desc)
  }

  lemma InOrderTotal(a: string, b: string, desc: bool)
    ensures InOrder(a, b, desc) || InOrder(b, a, desc)
  {
    LeTotal(a, b);
  }

  lemma InOrderTransitive(a: string, b: string, c: string, desc: bool)
    requires InOrder(a, b, desc) && InOrder(b, c, desc)
    ensures InOrder(a, c, desc)
  {
    if desc {
      LeTransitive(c, b, a);
    } else {
      LeTransitive(a, b, c);
    }
  }

  /** A head that may precede every element of a sorted sequence keeps it sorted. */
  lemma ConsSorted<T>(y: T, s: seq<T>, key: T -> string, desc: bool)
    requires SortedBy(s, key, desc)
    requires forall j :: 0 <= j < |s| ==> InOrder(key(y), key(s[j]), desc)
    ensures SortedBy([y] + s, key, desc)
  {
    var r := [y] + s;
    forall i, j | 0 <= i < j < |r| ensures InOrder(key(r[i]), key(r[j]), desc) {
      assert r[j] == s[j - 1];
      if i > 0 {
        assert r[i] == s[i - 1];
      }
    }
  }

  /** A last element that every element may precede keeps a sorted sequence sorted. */
  lemma SnocSorted<T>(s: seq<T>, y: T, key: T -> string, desc: bool)
    requires SortedBy(s, key, desc)
    requires forall j :: 0 <= j < |s| ==> InOrder(key(s[j]), key(y), desc)
    ensures SortedBy(s + [y], key, desc)
  {
    var r := s + [y];
    forall i, j | 0 <= i < j < |r| ensures InOrder(key(r[i]), key(r[j]), desc) {
      assert r[i] == s[i];
      if j < |s| {
        assert r[j] == s[j];
      }
    }
  }

  /** Filtering keeps rows in order, so it keeps a sorted sequence sorted. */
  lemma {:induction false} FilterSorted<T(!new)>(s: seq<T>, keep: T -> bool, key: T -> string, desc: bool)
    requires SortedBy(s, key, desc)
    ensures SortedBy(Filter(s, keep), key, desc)
  {
    if s != [] {
      var init, last := s[..|s| - 1], s[|s| - 1];
      forall i, j | 0 <= i < j < |init| ensures InOrder(key(init[i]), key(init[j]), desc) {
        assert init[i] == s[i] && init[j] == s[j];
      }
      FilterSorted(init, keep, key, desc);
      if keep(last) {
        var r := Filter(init, keep);
        forall j | 0 <= j < |r| ensures InOrder(key(r[j]), key(last), desc) {
          assert r[j] in r;
          var p :| 0 <= p < |init| && init[p] == r[j];
          assert s[p] == r[j];
        }
        SnocSorted(r, last, key, desc);
      }
    }
  }

  lemma {:induction false} InsertSorted<T>(x: T, s: seq<T>, key: T -> string, desc: bool)
    requires SortedBy(s, key, desc)
    ensures SortedBy(Insert(x, s, key, desc), key, desc)
  {
    if s == [] {
    } else if InOrder(key(x), key(s[0]), desc) {
      forall j | 0 <= j < |s| ensures InOrder(key(x), key(s[j]), desc) {
        if j > 0 {
          InOrderTransitive(key(x), key(s[0]), key(s[j]), desc);
        }
      }
      ConsSorted(x, s, key, desc);
    } else {
      InOrderTotal(key(x), key(s[0]), desc);
      SortedTail(s, key, desc);
      InsertSorted(x, s[1..], key, desc);
      var tail := Insert(x, s[1..], key, desc);
      forall j | 0 <= j < |tail| ensures InOrder(key(s[0]), key(tail[j]), desc) {
        assert tail[j] in multiset(tail);
        if tail[j] != x {
          var k :| 0 <= k < |s[1..]| && s[1..][k] == tail[j];
          assert s[k + 1] == tail[j];
        }
      }
      ConsSorted(s[0], tail, key, desc);
    }
  }

  /** `ORDER BY key` (`desc` for `DESC`) as a stable insertion sort: a
      permutation of `s` in key order. */
  function SortBy<T>(s: seq<T>, key: T -> string, desc: bool): (r: seq<T>)
    ensures multiset(r) == multiset(s)
    ensures SortedBy(r, key, desc)
  {
    if s == [] then []
    else
      var rest := SortBy(s[1..], key, desc);
      InsertSorted(s[0], rest, key, desc);
      assert s == [s[0]] + s[1..];
      Insert(s[0], rest, key, desc)
  }

  lemma InOrderAntisymmetric(a: string, b: string, desc: bool)
    requires InOrder(a, b, desc) && InOrder(b, a, desc)
    ensures a == b
  {
    LeAntisymmetric(a, b);
  }

  /** Adjacent elements in order: the whole sequence is in order. */
  lemma {:induction false} AdjacentSorted<T>(s: seq<T>, key: T -> string, desc: bool)
    requires forall i :: 0 < i < |s| ==> InOrder(key(s[i - 1]), key(s[i]), desc)
    ensures SortedBy(s, key, desc)
  {
    if |s| > 1 {
      AdjacentSorted(s[1..], key, desc);
      forall j | 1 < j < |s| ensures InOrder(key(s[0]), key(s[j]), desc) {
        assert s[j] == s[1..][j - 1];
        InOrderTransitive(key(s[0]), key(s[1]), key(s[j]), desc);
      }
    }
  }

  lemma InOrderReflexive(a: string, desc: bool)
    ensures InOrder(a, a, desc)
  {
    LeReflexive(a);
  }

  /** Two key-sorted permutations of each other, one with distinct keys,
      start with the same element. */
  lemma SortedSameHead<T>(r: seq<T>, t: seq<T>, key: T -> string, desc: bool)
    requires SortedBy(r, key, desc) && SortedBy(t, key, desc)
    requires multiset(r) == multiset(t) && t != []
    requires forall i, j :: 0 <= i < j < |t| ==> key(t[i]) != key(t[j])
    ensures r != [] && r[0] == t[0]
  {
    assert t[0] in multiset(r);
    var k :| 0 <= k < |r| && r[k] == t[0];
    assert r[0] in multiset(t);
    var m :| 0 <= m < |t| && t[m] == r[0];
    InOrderReflexive(key(r[0]), desc);
    InOrderReflexive(key(t[0]), desc);
    assert InOrder(key(r[0]), key(r[k]), desc);
    assert InOrder(key(t[0]), key(t[m]), desc);
    InOrderAntisymmetric(key(r[0]), key(t[0]), desc);
  }

  /** The tail of a sorted sequence is sorted. */
  lemma SortedTail<T>(s: seq<T>, key: T -> string, desc: bool)
    requires SortedBy(s, key, desc) && s != []
    ensures SortedBy(s[1..], key, desc)
  {
    forall i, j | 0 <= i < j < |s[1..]| ensures InOrder(key(s[1..][i]), key(s[1..][j]), desc) {
      assert s[1..][i] == s[i + 1] && s[1..][j] == s[j + 1];
    }
  }

  /** Removing the same head from two permutations of each other leaves
      permutations of each other. */
  lemma MultisetTail<T>(r: seq<T>, t: seq<T>)
    requires multiset(r) == multiset(t) && r != [] && t != [] && r[0] == t[0]
    ensures multiset(r[1..]) == multiset(t[1..])
  {
    assert r == [r[0]] + r[1..] && t == [t[0]] + t[1..];
    assert multiset(r) == multiset{r[0]} + multiset(r[1..]);
    assert multiset(t) == multiset{t[0]} + multiset(t[1..]);
    assert multiset(r[1..]) == multiset(r) - multiset{r[0]};
    assert multiset(t[1..]) == multiset(t) - multiset{t[0]};
  }

  /** Key order determines a sequence with distinct keys: any sorted
      permutation of it is the sequence itself. */
  lemma {:induction false} SortedUnique<T>(r: seq<T>, t: seq<T>, key: T -> string, desc: bool)
    requires SortedBy(r, key, desc) && SortedBy(t, key, desc)
    requires multiset(r) == multiset(t)
    requires forall i, j :: 0 <= i < j < |t| ==> key(t[i]) != key(t[j])
    ensures r == t
  {
    if t == [] {
      assert |r| == |multiset(r)| == 0;
    } else {
      SortedSameHead(r, t, key, desc);
      SortedTail(r, key, desc);
      SortedTail(t, key, desc);
      MultisetTail(r, t);
      forall i, j | 0 <= i < j < |t[1..]| ensures key(t[1..][i]) != key(t[1..][j]) {
        assert t[1..][i] == t[i + 1] && t[1..][j] == t[j + 1];
      }
      SortedUnique(r[1..], t[1..], key, desc);
      assert r == [r[0]] + r[1..] && t == [t[0]] + t[1..];
    }
  }
}
