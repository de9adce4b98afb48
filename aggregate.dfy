/** `GROUP BY key` with `SUM(amount)`, as SQLite runs it for the dashboard
    summary and pandas runs it (`groupby(...).sum()`) for the daily totals:
    one bucket per key that occurs, in ascending key order, holding the sum
    of the amounts with that key. */
module Aggregate {
  import opened Text

  /** A (key, amount) pair; as a result row, a group and its total. */
  datatype Bucket = Bucket(key: string, total: real)

  /** The sum of all amounts. */
  function Sum(s: seq<Bucket>): real
  {
    if s == [] then 0.0 else s[0].total + Sum(s[1..])
  }

  /** The sum of the amounts with key `k`; 0 when the key does not occur. */
  function SumFor(s: seq<Bucket>, k: string): real
  {
    if s == [] then 0.0 else (if s[0].key == k then s[0].total else 0.0) + SumFor(s[1..], k)
  }

  function Keys(s: seq<Bucket>): set<string>
  {
    set b | b in s :: b.key
  }

  /** Group keys strictly increase: each key occurs once, in ascending order. */
  predicate StrictlySorted(s: seq<Bucket>)
  {
    forall i, j :: 0 <= i < j < |s| ==> Lt(s[i].key, s[j].key)
  }

  /** Adds one pair to sorted groups: into the group of its key, or as a new
      group at its place in key order. */
  function AddTo(groups: seq<Bucket>, p: Bucket): seq<Bucket>
  {
    if groups == [] then [p]
    else if groups[0].key == p.key then [Bucket(p.key, groups[0].total + p.total)] + groups[1..]
    else if Lt(p.key, groups[0].key) then [p] + groups
    else [groups[0]] + AddTo(groups[1..], p)
  }

  /** The groups of `s`, built pair by pair. */
  function GroupSum(s: seq<Bucket>): seq<Bucket>
  {
    if s == [] then [] else AddTo(GroupSum(s[..|s| - 1]), s[|s| - 1])
  }

  /* ---------------- Sums over concatenations ---------------- */

  lemma {:induction false} SumAppend(s: seq<Bucket>, t: seq<Bucket>)
    ensures Sum(s + t) == Sum(s) + Sum(t)
  {
    if s == [] {
      assert s + t == t;
    } else {
      assert (s + t)[1..] == s[1..] + t;
      SumAppend(s[1..], t);
    }
  }

  lemma {:induction false} SumForAppend(s: seq<Bucket>, t: seq<Bucket>, k: string)
    ensures SumFor(s + t, k) == SumFor(s, k) + SumFor(t, k)
  {
    if s == [] {
      assert s + t == t;
    } else {
      assert (s + t)[1..] == s[1..] + t;
      SumForAppend(s[1..], t, k);
    }
  }

  /** A key that does not occur sums to 0. */
  lemma {:induction false} SumForAbsent(s: seq<Bucket>, k: string)
    requires k !in Keys(s)
    ensures SumFor(s, k) == 0.0
  {
    if s != [] {
      assert s[0] in s;
      assert Keys(s[1..]) <= Keys(s);
      SumForAbsent(s[1..], k);
    }
  }

  /* ---------------- Adding one pair ---------------- */

  lemma {:induction false} AddToKeys(groups: seq<Bucket>, p: Bucket)
    ensures Keys(AddTo(groups, p)) == Keys(groups) + {p.key}
  {
    if groups != [] {
      assert groups == [groups[0]] + groups[1..];
      assert Keys(groups) == {groups[0].key} + Keys(groups[1..]);
      if groups[0].key == p.key {
        assert Keys(AddTo(groups, p)) == {p.key} + Keys(groups[1..]);
      } else if !Lt(p.key, groups[0].key) {
        AddToKeys(groups[1..], p);
        assert Keys(AddTo(groups, p)) == {groups[0].key} + Keys(AddTo(groups[1..], p));
      }
    }
  }

  lemma {:induction false} AddToSorted(groups: seq<Bucket>, p: Bucket)
    requires StrictlySorted(groups)
    ensures StrictlySorted(AddTo(groups, p))
  {
    var r := AddTo(groups, p);
    if groups == [] {
    } else if groups[0].key == p.key {
    } else if Lt(p.key, groups[0].key) {
      forall j | 1 <= j < |r| ensures Lt(p.key, r[j].key) {
        if j > 1 {
          LtTransitive(p.key, groups[0].key, groups[j - 1].key);
        }
      }
    } else {
      assert Lt(groups[0].key, p.key) by {
        LeTotal(p.key, groups[0].key);
        if Le(p.key, groups[0].key) {
          LeAntisymmetric(p.key, groups[0].key);
        }
      }
      AddToSorted(groups[1..], p);
      AddToKeys(groups[1..], p);
      var tail := AddTo(groups[1..], p);
      forall j | 0 <= j < |tail| ensures Lt(groups[0].key, tail[j].key) {
        assert tail[j] in tail;
        assert tail[j].key in Keys(groups[1..]) + {p.key};
        if tail[j].key != p.key {
          var b :| b in groups[1..] && b.key == tail[j].key;
          var k :| 0 <= k < |groups[1..]| && groups[1..][k] == b;
          assert groups[k + 1] == b;
        }
      }
    }
  }

  lemma {:induction false} AddToSumFor(groups: seq<Bucket>, p: Bucket, k: string)
    ensures SumFor(AddTo(groups, p), k) == SumFor(groups, k) + (if p.key == k then p.total else 0.0)
  {
    if groups != [] && groups[0].key != p.key && !Lt(p.key, groups[0].key) {
      AddToSumFor(groups[1..], p, k);
    }
  }

  lemma {:induction false} AddToSum(groups: seq<Bucket>, p: Bucket)
    ensures Sum(AddTo(groups, p)) == Sum(groups) + p.total
  {
    if groups != [] && groups[0].key != p.key && !Lt(p.key, groups[0].key) {
      AddToSum(groups[1..], p);
    }
  }

  /* ---------------- What GROUP BY with SUM returns ---------------- */

  /** One group per key, in ascending key order, and a group exactly for
      each key that occurs. */
  lemma {:induction false} GroupSumShape(s: seq<Bucket>)
    ensures StrictlySorted(GroupSum(s))
    ensures Keys(GroupSum(s)) == Keys(s)
  {
    if s != [] {
      var init, last := s[..|s| - 1], s[|s| - 1];
      GroupSumShape(init);
      AddToSorted(GroupSum(init), last);
      AddToKeys(GroupSum(init), last);
      assert s == init + [last];
      assert Keys(s) == Keys(init) + {last.key};
    }
  }

  /** Per key, the groups add up to what the pairs add up to. */
  lemma {:induction false} GroupSumFor(s: seq<Bucket>, k: string)
    ensures SumFor(GroupSum(s), k) == SumFor(s, k)
  {
    if s != [] {
      var init, last := s[..|s| - 1], s[|s| - 1];
      GroupSumFor(init, k);
      AddToSumFor(GroupSum(init), last, k);
      assert s == init + [last];
      SumForAppend(init, [last], k);
    }
  }

  /** In sorted groups a group's total is all that its key sums to. */
  lemma {:induction false} SortedSumFor(groups: seq<Bucket>, i: nat)
    requires StrictlySorted(groups) && i < |groups|
    ensures SumFor(groups, groups[i].key) == groups[i].total
  {
    if i == 0 {
      forall b | b in groups[1..] ensures b.key != groups[0].key {
        var k :| 0 <= k < |groups[1..]| && groups[1..][k] == b;
        assert groups[k + 1] == b;
        LeReflexive(b.key);
      }
      SumForAbsent(groups[1..], groups[0].key);
    } else {
      LeReflexive(groups[i].key);
      assert groups[i] == groups[1..][i - 1];
      SortedSumFor(groups[1..], i - 1);
    }
  }

  /** Each group's total is the sum of the amounts with its key. */
  lemma GroupTotal(s: seq<Bucket>, i: nat)
    requires i < |GroupSum(s)|
    ensures GroupSum(s)[i].total == SumFor(s, GroupSum(s)[i].key)
  {
    GroupSumShape(s);
    SortedSumFor(GroupSum(s), i);
    GroupSumFor(s, GroupSum(s)[i].key);
  }

  /** Grouping loses no amount: the totals add up to the sum of all pairs. */
  lemma {:induction false} GroupSumSum(s: seq<Bucket>)
    ensures Sum(GroupSum(s)) == Sum(s)
  {
    if s != [] {
      var init, last := s[..|s| - 1], s[|s| - 1];
      GroupSumSum(init);
      AddToSum(GroupSum(init), last);
      assert s == init + [last];
      SumAppend(init, [last]);
    }
  }
}
