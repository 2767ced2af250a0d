/**
 * Python collections as values: the keys of a dict in insertion order
 * (first appearance), and `dict(pairs)` as an association list whose keys
 * are distinct and in first-appearance order, each holding the value of the
 * key's LAST pair.
 */
module Collections {
  import opened Wrappers

  predicate NoDuplicates<T(==)>(s: seq<T>)
  {
    forall i, j :: 0 <= i < j < |s| ==> s[i] != s[j]
  }

  /** Index of the first occurrence of `x` in `s`. */
  function FirstIndex<T(==)>(s: seq<T>, x: T): (i: nat)
    requires x in s
    ensures i < |s| && s[i] == x && x !in s[..i]
  {
    if s[0] == x then 0 else 1 + FirstIndex(s[1..], x)
  }

  /** The elements of `s`, each once, in order of first appearance. */
  function Distinct<T(==)>(s: seq<T>): (d: seq<T>)
    ensures forall i :: 0 <= i < |s| ==> s[i] in d
    ensures forall i :: 0 <= i < |d| ==> d[i] in s
    ensures NoDuplicates(d)
    ensures |d| <= |s|
  {
    if s == [] then []
    else
      var d := Distinct(s[..|s| - 1]);
      var x := s[|s| - 1];
      assert s == s[..|s| - 1] + [x];
      if x in d then d else d + [x]
  }

  /** Distinct lists the elements in the order of their first appearance. */
  lemma {:induction false} DistinctFirstAppearance<T>(s: seq<T>, i: nat, j: nat)
    requires i < j < |Distinct(s)|
    ensures FirstIndex(s, Distinct(s)[i]) < FirstIndex(s, Distinct(s)[j])
  {
    var p, x := s[..|s| - 1], s[|s| - 1];
    assert s == p + [x];
    var d, dp := Distinct(s), Distinct(p);
    PrefixFirstIndex(p, x, d[i]);
    if j < |dp| {
      assert d[i] == dp[i] && d[j] == dp[j];
      DistinctFirstAppearance(p, i, j);
      PrefixFirstIndex(p, x, d[j]);
    } else {
      assert d[j] == x && x !in p;
      assert d[i] in p;
      assert FirstIndex(s, d[j]) == |p| by {
        assert s[|p|] == x && x !in s[..|p|];
        FirstIndexUnique(s, x, |p|);
      }
    }
  }

  lemma PrefixFirstIndex<T>(p: seq<T>, x: T, y: T)
    requires y in p
    ensures FirstIndex(p + [x], y) == FirstIndex(p, y)
  {
    var i := FirstIndex(p, y);
    assert (p + [x])[i] == y && (p + [x])[..i] == p[..i];
    FirstIndexUnique(p + [x], y, i);
  }

  lemma FirstIndexUnique<T>(s: seq<T>, x: T, i: nat)
    requires i < |s| && s[i] == x && x !in s[..i]
    ensures FirstIndex(s, x) == i
  {
  }

  function Keys<K, V>(pairs: seq<(K, V)>): (ks: seq<K>)
    ensures |ks| == |pairs|
    ensures forall i :: 0 <= i < |pairs| ==> ks[i] == pairs[i].0
  {
    seq(|pairs|, i requires 0 <= i < |pairs| => pairs[i].0)
  }

  /** Value of the last pair whose key is `k`. */
  function LastValue<K(==), V>(pairs: seq<(K, V)>, k: K): Option<V>
  {
    if pairs == [] then None
    else if pairs[|pairs| - 1].0 == k then Some(pairs[|pairs| - 1].1)
    else LastValue(pairs[..|pairs| - 1], k)
  }

  /** Lookup in a dict held as an association list. */
  function Lookup<K(==), V>(d: seq<(K, V)>, k: K): Option<V>
  {
    if d == [] then None
    else if d[0].0 == k then Some(d[0].1)
    else Lookup(d[1..], k)
  }

  /** `d` with the value at position `i` replaced by `v`. */
  function SetValueAt<K, V>(d: seq<(K, V)>, i: nat, v: V): (r: seq<(K, V)>)
    requires i < |d|
    ensures Keys(r) == Keys(d)
  {
    d[i := (d[i].0, v)]
  }

  /** Python's `dict(pairs)`. */
  function DictFromPairs<K(==), V>(pairs: seq<(K, V)>): (d: seq<(K, V)>)
    ensures Keys(d) == Distinct(Keys(pairs))
  {
    if pairs == [] then []
    else
      var p := pairs[..|pairs| - 1];
      var d := DictFromPairs(p);
      var (k, v) := pairs[|pairs| - 1];
      assert Keys(pairs) == Keys(p) + [k];
      assert Keys(pairs)[..|pairs| - 1] == Keys(p);
      if k in Keys(d) then SetValueAt(d, FirstIndex(Keys(d), k), v) else d + [(k, v)]
  }

  /** `dict(pairs)` of pairs with distinct keys holds exactly those pairs, in order. */
  lemma {:induction false} DictFromPairsDistinct<K, V>(pairs: seq<(K, V)>)
    requires NoDuplicates(Keys(pairs))
    ensures DictFromPairs(pairs) == pairs
  {
    if pairs != [] {
      var p := pairs[..|pairs| - 1];
      assert Keys(p) == Keys(pairs)[..|pairs| - 1];
      DictFromPairsDistinct(p);
      assert pairs[|pairs| - 1].0 !in Keys(p) by {
        forall i | 0 <= i < |p| ensures Keys(p)[i] != pairs[|pairs| - 1].0 {
          assert Keys(pairs)[i] != Keys(pairs)[|pairs| - 1];
        }
      }
      assert pairs == p + [pairs[|pairs| - 1]];
    }
  }

  lemma {:induction false} LookupAt<K, V>(d: seq<(K, V)>, i: nat)
    requires i < |d| && NoDuplicates(Keys(d))
    ensures Lookup(d, d[i].0) == Some(d[i].1)
  {
    if i > 0 {
      assert Keys(d)[0] != Keys(d)[i];
      assert Keys(d[1..]) == Keys(d)[1..];
      LookupAt(d[1..], i - 1);
    }
  }

  lemma {:induction false} LookupAbsent<K, V>(d: seq<(K, V)>, k: K)
    requires k !in Keys(d)
    ensures Lookup(d, k) == None
  {
    if d != [] {
      assert Keys(d[1..]) == Keys(d)[1..];
      LookupAbsent(d[1..], k);
    }
  }

  /**
   * `dict(pairs)` maps each key to the value of its last pair, holds every
   * key of `pairs` once, and no other key.
   */
  lemma {:induction false} DictFromPairsLookup<K, V>(pairs: seq<(K, V)>, k: K)
    ensures Lookup(DictFromPairs(pairs), k) == LastValue(pairs, k)
  {
    if pairs != [] {
      var p := pairs[..|pairs| - 1];
      var dp, d := DictFromPairs(p), DictFromPairs(pairs);
      var (k', v) := pairs[|pairs| - 1];
      if k' == k {
        if k in Keys(dp) {
          var i := FirstIndex(Keys(dp), k);
          assert d == SetValueAt(dp, i, v);
          LookupAt(d, i);
        } else {
          assert d == dp + [(k, v)];
          LookupAt(d, |dp|);
        }
      } else {
        DictFromPairsLookup(p, k);
        if k' in Keys(dp) {
          LookupSetOther(dp, FirstIndex(Keys(dp), k'), v, k);
        } else {
          LookupAppendOther(dp, k', v, k);
        }
      }
    }
  }

  lemma {:induction false} LookupSetOther<K, V>(d: seq<(K, V)>, i: nat, v: V, k: K)
    requires i < |d| && d[i].0 != k
    ensures Lookup(SetValueAt(d, i, v), k) == Lookup(d, k)
  {
    if i > 0 {
      assert SetValueAt(d, i, v)[1..] == SetValueAt(d[1..], i - 1, v);
      LookupSetOther(d[1..], i - 1, v, k);
    }
  }

  lemma {:induction false} LookupAppendOther<K, V>(d: seq<(K, V)>, k': K, v: V, k: K)
    requires k' != k
    ensures Lookup(d + [(k', v)], k) == Lookup(d, k)
  {
    if d != [] {
      assert (d + [(k', v)])[1..] == d[1..] + [(k', v)];
      LookupAppendOther(d[1..], k', v, k);
    }
  }

  /** A sequence without duplicates holds each value at most once. */
  lemma {:induction false} NoDuplicatesCount<T>(s: seq<T>, x: T)
    requires NoDuplicates(s)
    ensures multiset(s)[x] <= 1
  {
    if s != [] {
      var p := s[..|s| - 1];
      assert s == p + [s[|s| - 1]];
      NoDuplicatesCount(p, x);
      if x == s[|s| - 1] {
        assert x !in p;
      }
    }
  }

  /** A sequence that holds each value at most once has no duplicates. */
  lemma CountNoDuplicates<T>(s: seq<T>)
    requires forall x :: multiset(s)[x] <= 1
    ensures NoDuplicates(s)
  {
    forall i, j | 0 <= i < j < |s| ensures s[i] != s[j] {
      assert s == s[..j] + s[j..];
      assert s[i] in s[..j] && s[j] in s[j..];
      assert multiset(s)[s[j]] == multiset(s[..j])[s[j]] + multiset(s[j..])[s[j]];
    }
  }

  /** Reordering pairs keeps their keys distinct. */
  lemma KeysPermutation<K, V>(s: seq<(K, V)>, t: seq<(K, V)>)
    requires multiset(s) == multiset(t) && NoDuplicates(Keys(t))
    ensures NoDuplicates(Keys(s))
  {
    forall x ensures multiset(s)[x] <= 1 {
      NoDuplicatesCount(t, x);
    }
    CountNoDuplicates(s);
    forall i, j | 0 <= i < j < |s| ensures Keys(s)[i] != Keys(s)[j] {
      assert s[i] in multiset(t) && s[j] in multiset(t);
      var a :| 0 <= a < |t| && t[a] == s[i];
      var b :| 0 <= b < |t| && t[b] == s[j];
      assert Keys(t)[a] == s[i].0 && Keys(t)[b] == s[j].0;
    }
  }
}
