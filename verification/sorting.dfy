/**
 * Python's `sorted(xs, key=..., reverse=...)`: a STABLE sort.  A sort is
 * described here by a strict "goes before" relation: `before(a, b)` holds
 * when `a` must be placed ahead of `b` (for `key=k, reverse=True` that is
 * `k(a) > k(b)`, for the default order `k(a) < k(b)`).  Elements neither
 * of which goes before the other are equivalent and keep their input order.
 */
module Sorting {

  /** The conditions under which Python's sort gives a well-defined order. */
  ghost predicate StrictWeakOrder<T(!new)>(before: (T, T) -> bool)
  {
    && (forall a :: !before(a, a))
    && (forall a, b, c :: before(a, b) && before(b, c) ==> before(a, c))
    && (forall a, b, c :: before(a, c) ==> before(a, b) || before(b, c))
  }

  predicate Equivalent<T>(before: (T, T) -> bool, a: T, b: T)
  {
    !before(a, b) && !before(b, a)
  }

  /** No element is placed ahead of one that goes before it. */
  predicate SortedBy<T>(s: seq<T>, before: (T, T) -> bool)
  {
    forall i, j :: 0 <= i < j < |s| ==> !before(s[j], s[i])
  }

  /** The elements of `s` equivalent to `e`, in their order in `s`. */
  function Equivalents<T>(s: seq<T>, e: T, before: (T, T) -> bool): seq<T>
  {
    if s == [] then []
    else (if Equivalent(before, s[0], e) then [s[0]] else []) + Equivalents(s[1..], e, before)
  }

  /** Puts `x` after every element of `s` that `x` does not go before. */
  function Insert<T>(x: T, s: seq<T>, before: (T, T) -> bool): (r: seq<T>)
    ensures multiset(r) == multiset(s) + multiset{x}
  {
    if s == [] then [x]
    else if before(x, s[0]) then [x] + s
    else
      assert s == [s[0]] + s[1..];
      [s[0]] + Insert(x, s[1..], before)
  }

  /** Stable insertion sort: each element in input order is inserted after its equivalents. */
  function SortBy<T>(s: seq<T>, before: (T, T) -> bool): (r: seq<T>)
    ensures multiset(r) == multiset(s)
    ensures |r| == |s|
  {
    if s == [] then []
    else
      var r := Insert(s[|s| - 1], SortBy(s[..|s| - 1], before), before);
      assert s == s[..|s| - 1] + [s[|s| - 1]];
      assert |r| == |multiset(r)|;
      r
  }

  lemma {:induction false} EquivalentsAppend<T>(a: seq<T>, b: seq<T>, e: T, before: (T, T) -> bool)
    ensures Equivalents(a + b, e, before) == Equivalents(a, e, before) + Equivalents(b, e, before)
  {
    if a == [] {
      assert a + b == b;
    } else {
      var head := if Equivalent(before, a[0], e) then [a[0]] else [];
      assert (a + b)[0] == a[0] && (a + b)[1..] == a[1..] + b;
      assert Equivalents(a + b, e, before) == head + Equivalents(a[1..] + b, e, before);
      EquivalentsAppend(a[1..], b, e, before);
      assert Equivalents(a, e, before) == head + Equivalents(a[1..], e, before);
    }
  }

  /** Nothing that `x` goes before is equivalent to an element equivalent to `x`. */
  lemma {:induction false} NoEquivalentsAhead<T(!new)>(x: T, s: seq<T>, e: T, before: (T, T) -> bool)
    requires StrictWeakOrder(before)
    requires Equivalent(before, x, e)
    requires forall k :: 0 <= k < |s| ==> before(x, s[k])
    ensures Equivalents(s, e, before) == []
  {
    if s != [] {
      assert before(x, s[0]);
      assert !Equivalent(before, s[0], e) by {
        assert before(x, e) || before(e, s[0]);
      }
      NoEquivalentsAhead(x, s[1..], e, before);
    }
  }

  lemma {:induction false} InsertSorted<T(!new)>(x: T, s: seq<T>, before: (T, T) -> bool)
    requires StrictWeakOrder(before)
    requires SortedBy(s, before)
    ensures SortedBy(Insert(x, s, before), before)
  {
    if s == [] {
    } else if before(x, s[0]) {
      var r := [x] + s;
      forall i, j | 0 <= i < j < |r| ensures !before(r[j], r[i]) {
        if i == 0 {
          assert r[j] == s[j - 1];
        }
      }
    } else {
      var t := Insert(x, s[1..], before);
      InsertSorted(x, s[1..], before);
      var r := [s[0]] + t;
      forall i, j | 0 <= i < j < |r| ensures !before(r[j], r[i]) {
        if i == 0 {
          assert r[j] in multiset(t);
          assert r[j] == x || r[j] in s[1..];
        }
      }
    }
  }

  /** In a sorted sequence, what goes before the first element goes before all of them. */
  lemma AheadOfAll<T(!new)>(x: T, s: seq<T>, before: (T, T) -> bool)
    requires StrictWeakOrder(before)
    requires SortedBy(s, before)
    requires s != [] && before(x, s[0])
    ensures forall k :: 0 <= k < |s| ==> before(x, s[k])
  {
    forall k | 0 < k < |s| ensures before(x, s[k]) {
    }
  }

  lemma {:induction false} InsertEquivalents<T(!new)>(x: T, s: seq<T>, e: T, before: (T, T) -> bool)
    requires StrictWeakOrder(before)
    requires SortedBy(s, before)
    ensures Equivalents(Insert(x, s, before), e, before)
         == Equivalents(s, e, before) + (if Equivalent(before, x, e) then [x] else [])
  {
    if s == [] {
    } else if before(x, s[0]) {
      InsertAheadEquivalents(x, s, e, before);
    } else {
      assert SortedBy(s[1..], before);
      InsertEquivalents(x, s[1..], e, before);
      InsertBehindEquivalents(x, s, e, before);
    }
  }

  /** Inserting behind the head: the head's contribution comes first, then the tail's. */
  lemma InsertBehindEquivalents<T>(x: T, s: seq<T>, e: T, before: (T, T) -> bool)
    requires s != [] && !before(x, s[0])
    requires Equivalents(Insert(x, s[1..], before), e, before)
          == Equivalents(s[1..], e, before) + (if Equivalent(before, x, e) then [x] else [])
    ensures Equivalents(Insert(x, s, before), e, before)
         == Equivalents(s, e, before) + (if Equivalent(before, x, e) then [x] else [])
  {
    var t := Insert(x, s[1..], before);
    assert Insert(x, s, before) == [s[0]] + t;
    assert s == [s[0]] + s[1..];
    ConsEquivalents(s[0], t, s[1..], if Equivalent(before, x, e) then [x] else [], e, before);
  }

  /** Putting the same head before two sequences keeps the relation between their equivalents. */
  lemma ConsEquivalents<T>(h: T, t: seq<T>, rest: seq<T>, own: seq<T>, e: T, before: (T, T) -> bool)
    requires Equivalents(t, e, before) == Equivalents(rest, e, before) + own
    ensures Equivalents([h] + t, e, before) == Equivalents([h] + rest, e, before) + own
  {
    EquivalentsCons(h, t, e, before);
    EquivalentsCons(h, rest, e, before);
    ConcatAssociative(if Equivalent(before, h, e) then [h] else [], Equivalents(rest, e, before), own);
  }

  lemma ConcatAssociative<T>(a: seq<T>, b: seq<T>, c: seq<T>)
    ensures a + (b + c) == (a + b) + c
  {
  }

  lemma EquivalentsCons<T>(h: T, t: seq<T>, e: T, before: (T, T) -> bool)
    ensures Equivalents([h] + t, e, before) == (if Equivalent(before, h, e) then [h] else []) + Equivalents(t, e, before)
  {
    assert ([h] + t)[0] == h && ([h] + t)[1..] == t;
  }

  lemma InsertAheadEquivalents<T(!new)>(x: T, s: seq<T>, e: T, before: (T, T) -> bool)
    requires StrictWeakOrder(before)
    requires SortedBy(s, before)
    requires s != [] && before(x, s[0])
    ensures Equivalents(Insert(x, s, before), e, before)
         == Equivalents(s, e, before) + (if Equivalent(before, x, e) then [x] else [])
  {
    var r := Insert(x, s, before);
    assert r == [x] + s;
    assert r[0] == x && r[1..] == s;
    if Equivalent(before, x, e) {
      AheadOfAll(x, s, before);
      NoEquivalentsAhead(x, s, e, before);
    }
  }

  /**
   * SortBy is Python's stable sort: the result is ordered, is a permutation
   * of the input, and the elements of each equivalence class appear in the
   * order they had in the input.
   */
  lemma {:induction false} SortByCorrect<T(!new)>(s: seq<T>, before: (T, T) -> bool)
    requires StrictWeakOrder(before)
    ensures SortedBy(SortBy(s, before), before)
    ensures multiset(SortBy(s, before)) == multiset(s)
    ensures forall e :: Equivalents(SortBy(s, before), e, before) == Equivalents(s, e, before)
  {
    if s != [] {
      var p, x := s[..|s| - 1], s[|s| - 1];
      assert s == p + [x];
      SortByCorrect(p, before);
      InsertSorted(x, SortBy(p, before), before);
      forall e ensures Equivalents(SortBy(s, before), e, before) == Equivalents(s, e, before) {
        InsertEquivalents(x, SortBy(p, before), e, before);
        EquivalentsAppend(p, [x], e, before);
      }
    }
  }
}
