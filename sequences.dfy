/**
 * The dataframe operations the dashboard relies on, stated over sequences:
 * selection by a boolean mask (keeping the original order), column
 * projection, `unique` (distinct values in order of first appearance) and
 * `value_counts` (occurrences per distinct value).
 */
module Sequences {

  /** No element occurs twice. */
  predicate Distinct<T(==)>(s: seq<T>) {
    forall i, j :: 0 <= i < j < |s| ==> s[i] != s[j]
  }

  /** Number of occurrences of x in s. */
  function Count<T(==)>(s: seq<T>, x: T): nat {
    multiset(s)[x]
  }

  // ---------------------------------------------------------------------
  // Selection by a boolean mask
  // ---------------------------------------------------------------------

  /** The elements of s for which keep holds, in their original order. */
  function Where<T(!new)>(s: seq<T>, keep: T -> bool): (r: seq<T>)
    ensures |r| <= |s|
    ensures forall k :: 0 <= k < |r| ==> keep(r[k])
    ensures forall x :: x in r <==> x in s && keep(x)
    decreases |s|
  {
    if s == [] then []
    else
      var n := |s| - 1;
      assert s == s[..n] + [s[n]];
      Where(s[..n], keep) + (if keep(s[n]) then [s[n]] else [])
  }

  /**
   * The positions of s that keep selects, in ascending order: the index
   * labels that survive a boolean mask over a frame with a default index.
   */
  function Selected<T>(s: seq<T>, keep: T -> bool): (p: seq<nat>)
    ensures forall k :: 0 <= k < |p| ==> p[k] < |s|
    ensures forall k, l :: 0 <= k < l < |p| ==> p[k] < p[l]
    ensures forall i :: 0 <= i < |s| ==> (i in p <==> keep(s[i]))
    decreases |s|
  {
    if s == [] then []
    else
      var n := |s| - 1;
      Selected(s[..n], keep) + (if keep(s[n]) then [n] else [])
  }

  /**
   * The k-th selected element is the element at the k-th selected position:
   * Where keeps exactly the masked-in elements, each once, in source order.
   */
  lemma {:induction false} WhereAtSelected<T(!new)>(s: seq<T>, keep: T -> bool)
    ensures |Where(s, keep)| == |Selected(s, keep)|
    ensures forall k :: 0 <= k < |Selected(s, keep)| ==> Where(s, keep)[k] == s[Selected(s, keep)[k]]
    decreases |s|
  {
    if s != [] {
      var n := |s| - 1;
      WhereAtSelected(s[..n], keep);
    }
  }

  /** Any order relation between earlier and later elements survives the selection. */
  lemma WhereKeepsOrder<T(!new)>(s: seq<T>, keep: T -> bool, before: (T, T) -> bool)
    requires forall i, j :: 0 <= i < j < |s| ==> before(s[i], s[j])
    ensures forall k, l :: 0 <= k < l < |Where(s, keep)| ==> before(Where(s, keep)[k], Where(s, keep)[l])
  {
    WhereAtSelected(s, keep);
    var p := Selected(s, keep);
    forall k, l | 0 <= k < l < |Where(s, keep)|
      ensures before(Where(s, keep)[k], Where(s, keep)[l])
    {
      assert p[k] < p[l];
    }
  }

  /** Two masks that agree on every element select the same elements. */
  lemma {:induction false} WhereCongruent<T(!new)>(s: seq<T>, keep: T -> bool, keep': T -> bool)
    requires forall i :: 0 <= i < |s| ==> keep(s[i]) == keep'(s[i])
    ensures Where(s, keep) == Where(s, keep')
    decreases |s|
  {
    if s != [] {
      WhereCongruent(s[..|s| - 1], keep, keep');
    }
  }

  /** A mask that holds everywhere selects the whole sequence. */
  lemma {:induction false} WhereAll<T(!new)>(s: seq<T>, keep: T -> bool)
    requires forall i :: 0 <= i < |s| ==> keep(s[i])
    ensures Where(s, keep) == s
    decreases |s|
  {
    if s != [] {
      var n := |s| - 1;
      WhereAll(s[..n], keep);
      assert s == s[..n] + [s[n]];
    }
  }

  /** Selecting from a concatenation selects from each part. */
  lemma {:induction false} WhereAppend<T(!new)>(a: seq<T>, b: seq<T>, keep: T -> bool)
    ensures Where(a + b, keep) == Where(a, keep) + Where(b, keep)
    decreases |b|
  {
    if b != [] {
      var n := |b| - 1;
      assert (a + b)[..|a + b| - 1] == a + b[..n];
      WhereAppend(a, b[..n], keep);
    } else {
      assert a + b == a;
    }
  }

  /** Selecting from x followed by s: x if it is kept, then the selection from s. */
  lemma WhereCons<T(!new)>(x: T, s: seq<T>, keep: T -> bool)
    ensures Where([x] + s, keep) == (if keep(x) then [x] else []) + Where(s, keep)
  {
    WhereAppend([x], s, keep);
    assert Where([x], keep) == if keep(x) then [x] else [] by {
      assert [x][..0] == [];
    }
  }

  /** Selecting with p and then with q selects with both at once. */
  lemma {:induction false} WhereWhere<T(!new)>(s: seq<T>, p: T -> bool, q: T -> bool, both: T -> bool)
    requires forall i :: 0 <= i < |s| ==> both(s[i]) == (p(s[i]) && q(s[i]))
    ensures Where(Where(s, p), q) == Where(s, both)
    decreases |s|
  {
    if s != [] {
      var n := |s| - 1;
      WhereWhere(s[..n], p, q, both);
      WhereAppend(Where(s[..n], p), if p(s[n]) then [s[n]] else [], q);
    }
  }

  /** Selection by a key test picks as many elements as the key column holds that key. */
  lemma {:induction false} WhereKeySize<T(!new), K>(s: seq<T>, keep: T -> bool, key: T -> K, k: K)
    requires forall i :: 0 <= i < |s| ==> keep(s[i]) == (key(s[i]) == k)
    ensures |Where(s, keep)| == Count(Project(s, key), k)
    decreases |s|
  {
    if s != [] {
      var n := |s| - 1;
      WhereKeySize(s[..n], keep, key, k);
    }
  }

  // ---------------------------------------------------------------------
  // Column projection
  // ---------------------------------------------------------------------

  /** The column f of every element, in order. */
  function Project<T, U>(s: seq<T>, f: T -> U): (col: seq<U>)
    ensures |col| == |s|
    ensures forall i :: 0 <= i < |s| ==> col[i] == f(s[i])
    decreases |s|
  {
    if s == [] then [] else Project(s[..|s| - 1], f) + [f(s[|s| - 1])]
  }

  // ---------------------------------------------------------------------
  // unique: distinct values in order of first appearance
  // ---------------------------------------------------------------------

  /** The distinct values of s, each listed where it first appears. */
  function Unique<T(==,!new)>(s: seq<T>): (u: seq<T>)
    ensures Distinct(u)
    ensures forall x :: x in u <==> x in s
    decreases |s|
  {
    if s == [] then []
    else
      var n := |s| - 1;
      assert s == s[..n] + [s[n]];
      if s[n] in s[..n] then Unique(s[..n]) else Unique(s[..n]) + [s[n]]
  }

  /**
   * Unique lists values in order of first appearance: wherever a later value
   * of the listing occurs in s, an earlier value already occurred before it.
   */
  lemma {:induction false} UniqueFirstAppearance<T(!new)>(s: seq<T>)
    ensures forall k, l, i :: 0 <= k < l < |Unique(s)| && 0 <= i < |s| && s[i] == Unique(s)[l] ==> Unique(s)[k] in s[..i]
    decreases |s|
  {
    if s != [] {
      var n := |s| - 1;
      var u, u' := Unique(s), Unique(s[..n]);
      UniqueFirstAppearance(s[..n]);
      forall k, l, i | 0 <= k < l < |u| && 0 <= i < |s| && s[i] == u[l]
        ensures u[k] in s[..i]
      {
        if i < n {
          assert s[..n][..i] == s[..i];
          assert s[..n][i] == s[i];
          // u[l] already occurs before position n, so it was listed before s[n]
          assert l < |u'|;
        } else {
          assert u[k] in u';
          assert s[..i] == s[..n];
        }
      }
    }
  }

  // ---------------------------------------------------------------------
  // value_counts and sums over its keys
  // ---------------------------------------------------------------------

  /** Occurrences of every value present in s. */
  function ValueCounts<T(==,!new)>(s: seq<T>): (counts: map<T, nat>)
    ensures forall x :: x in counts <==> x in s
    ensures forall x :: x in counts ==> counts[x] == Count(s, x) && counts[x] > 0
  {
    map x | x in s :: Count(s, x)
  }

  /** The sum of m over the listed keys. */
  function SumAt<T>(m: map<T, nat>, keys: seq<T>): nat
    requires forall k :: k in keys ==> k in m
  {
    if keys == [] then 0 else m[keys[0]] + SumAt(m, keys[1..])
  }

  /** The sum of the occurrence counts of the listed keys. */
  function CountSum<T(==)>(s: seq<T>, keys: seq<T>): nat {
    if keys == [] then 0 else Count(s, keys[0]) + CountSum(s, keys[1..])
  }

  /** Adding one element to s adds one to the count sum exactly when the element is listed. */
  lemma {:induction false} CountSumSnoc<T>(s: seq<T>, y: T, keys: seq<T>)
    requires Distinct(keys)
    ensures CountSum(s + [y], keys) == CountSum(s, keys) + (if y in keys then 1 else 0)
    decreases |keys|
  {
    if keys != [] {
      assert Distinct(keys[1..]);
      CountSumSnoc(s, y, keys[1..]);
      assert y in keys <==> y == keys[0] || y in keys[1..];
      assert keys[0] !in keys[1..];
    }
  }

  /** Counting every listed key of a duplicate-free listing that covers s counts every element once. */
  lemma {:induction false} CountSumCovers<T>(s: seq<T>, keys: seq<T>)
    requires Distinct(keys)
    requires forall x :: x in s ==> x in keys
    ensures CountSum(s, keys) == |s|
    decreases |s|
  {
    if s == [] {
      CountSumEmpty(keys);
    } else {
      var n := |s| - 1;
      assert s == s[..n] + [s[n]];
      CountSumCovers(s[..n], keys);
      CountSumSnoc(s[..n], s[n], keys);
    }
  }

  lemma {:induction false} CountSumEmpty<T>(keys: seq<T>)
    ensures CountSum([], keys) == 0
    decreases |keys|
  {
    if keys != [] {
      CountSumEmpty(keys[1..]);
    }
  }

  /**
   * value_counts accounts for every element exactly once: summed over any
   * duplicate-free listing of its keys, the counts add up to |s|.
   */
  lemma ValueCountsTotal<T(!new)>(s: seq<T>, keys: seq<T>)
    requires Distinct(keys)
    requires forall x :: x in keys <==> x in ValueCounts(s)
    ensures SumAt(ValueCounts(s), keys) == |s|
  {
    SumAtIsCountSum(s, keys);
    CountSumCovers(s, keys);
  }

  lemma {:induction false} SumAtIsCountSum<T(!new)>(s: seq<T>, keys: seq<T>)
    requires forall x :: x in keys ==> x in ValueCounts(s)
    ensures SumAt(ValueCounts(s), keys) == CountSum(s, keys)
    decreases |keys|
  {
    if keys != [] {
      SumAtIsCountSum(s, keys[1..]);
    }
  }

  // ---------------------------------------------------------------------
  // Lists of lists
  // ---------------------------------------------------------------------

  /** The total number of elements over all the inner sequences. */
  function TotalLength<T>(gs: seq<seq<T>>): nat {
    if gs == [] then 0 else |gs[0]| + TotalLength(gs[1..])
  }

  /** Lists of lists whose inner lengths agree position by position have the same total length. */
  lemma {:induction false} TotalLengthAgrees<T, U>(gs: seq<seq<T>>, hs: seq<seq<U>>)
    requires |gs| == |hs|
    requires forall i :: 0 <= i < |gs| ==> |gs[i]| == |hs[i]|
    ensures TotalLength(gs) == TotalLength(hs)
    decreases |gs|
  {
    if gs != [] {
      TotalLengthAgrees(gs[1..], hs[1..]);
    }
  }
}
