/**
 * `Array.prototype.sort` with a comparator. The language guarantees a
 * stable sort; for a comparator `cmp` the model sorts by the relation
 * `leq(a, b) := cmp(a, b) <= 0` with an insertion sort: the output is a
 * permutation of the input, sorted whenever `leq` is a total preorder
 * (`SortBySorted`), and stable (`SortByStable`).
 */
module Sorting {
  import opened Common

  ghost predicate TotalPreorder<T(!new)>(leq: (T, T) -> bool) {
    && (forall a, b :: leq(a, b) || leq(b, a))
    && (forall a, b, c :: leq(a, b) && leq(b, c) ==> leq(a, c))
  }

  predicate SortedBy<T>(s: seq<T>, leq: (T, T) -> bool) {
    forall i, j :: 0 <= i < j < |s| ==> leq(s[i], s[j])
  }

  /** Insert `x` after every element of `s` that sorts before or with it. */
  function Insert<T>(x: T, s: seq<T>, leq: (T, T) -> bool): (r: seq<T>)
    ensures multiset(r) == multiset(s) + multiset{x}
  {
    if s == [] || !leq(s[0], x) then [x] + s
    else
      assert s == [s[0]] + s[1..];
      [s[0]] + Insert(x, s[1..], leq)
  }

  /** The stably sorted permutation of `s`. */
  function SortBy<T>(s: seq<T>, leq: (T, T) -> bool): (r: seq<T>)
    ensures multiset(r) == multiset(s)
  {
    if s == [] then []
    else
      assert s == s[..|s| - 1] + [s[|s| - 1]];
      Insert(s[|s| - 1], SortBy(s[..|s| - 1], leq), leq)
  }

  lemma {:induction false} InsertSorted<T(!new)>(x: T, s: seq<T>, leq: (T, T) -> bool)
    requires TotalPreorder(leq)
    requires SortedBy(s, leq)
    ensures SortedBy(Insert(x, s, leq), leq)
  {
    if s != [] && leq(s[0], x) {
      InsertSorted(x, s[1..], leq);
      var tail := Insert(x, s[1..], leq);
      forall y | y in tail
        ensures leq(s[0], y)
      {
        assert y in multiset(tail);
        if y != x {
          assert y in multiset(s[1..]);
          var k :| 0 <= k < |s[1..]| && s[1..][k] == y;
          assert s[k + 1] == y;
        }
      }
      var r := [s[0]] + tail;
      forall i, j | 0 <= i < j < |r|
        ensures leq(r[i], r[j])
      {
        if i == 0 {
          assert r[j] == tail[j - 1];
          assert r[j] in tail;
        } else {
          assert r[i] == tail[i - 1] && r[j] == tail[j - 1];
        }
      }
    } else {
      var r := [x] + s;
      forall i, j | 0 <= i < j < |r|
        ensures leq(r[i], r[j])
      {
        if i == 0 {
          assert r[j] == s[j - 1];
          assert leq(x, s[0]);
          if j > 1 {
            assert leq(s[0], s[j - 1]);
          }
        } else {
          assert r[i] == s[i - 1] && r[j] == s[j - 1];
        }
      }
    }
  }

  /** The output is ordered by `leq` whenever `leq` is a total preorder. */
  lemma {:induction false} SortBySorted<T(!new)>(s: seq<T>, leq: (T, T) -> bool)
    requires TotalPreorder(leq)
    ensures SortedBy(SortBy(s, leq), leq)
  {
    if s != [] {
      SortBySorted(s[..|s| - 1], leq);
      InsertSorted(s[|s| - 1], SortBy(s[..|s| - 1], leq), leq);
    }
  }

  /** A comparator that calls every pair equal leaves the order untouched. */
  lemma {:induction false} SortByAllEqual<T>(s: seq<T>, leq: (T, T) -> bool)
    requires forall a, b :: leq(a, b)
    ensures SortBy(s, leq) == s
  {
    if s != [] {
      SortByAllEqual(s[..|s| - 1], leq);
      InsertAtEnd(s[|s| - 1], s[..|s| - 1], leq);
      assert s == s[..|s| - 1] + [s[|s| - 1]];
    }
  }

  lemma {:induction false} InsertAtEnd<T>(x: T, s: seq<T>, leq: (T, T) -> bool)
    requires forall a, b :: leq(a, b)
    ensures Insert(x, s, leq) == s + [x]
  {
    if s != [] {
      InsertAtEnd(x, s[1..], leq);
      assert s == [s[0]] + s[1..];
    }
  }

  /** The elements that compare equal to `z` under `leq`: `cmp(z, y) === 0` for a total preorder. */
  function TiedWith<T>(leq: (T, T) -> bool, z: T): T -> bool {
    (y: T) => leq(z, y) && leq(y, z)
  }

  /** With `x` tied with some `s[j]` under `p`, everything up to `s[j]` sorts before or with `x`. */
  ghost predicate BelowTies<T>(x: T, s: seq<T>, leq: (T, T) -> bool, p: T -> bool) {
    forall i, j :: 0 <= i <= j < |s| && p(s[j]) && p(x) ==> leq(s[i], x)
  }

  /** In a sorted sequence, every element at or before one tied with `x` sorts before or with `x`. */
  lemma SortedBelowTies<T(!new)>(x: T, s: seq<T>, leq: (T, T) -> bool, z: T)
    requires TotalPreorder(leq)
    requires SortedBy(s, leq)
    ensures BelowTies(x, s, leq, TiedWith(leq, z))
  {
    forall i, j | 0 <= i <= j < |s| && TiedWith(leq, z)(s[j]) && TiedWith(leq, z)(x)
      ensures leq(s[i], x)
    {
      assert leq(s[i], s[j]);
      assert leq(s[j], z) && leq(z, x);
    }
  }

  /** Inserting puts `x` after every element of `s` that `p` ties with it. */
  lemma {:induction false} InsertAfterTies<T(!new)>(x: T, s: seq<T>, leq: (T, T) -> bool, p: T -> bool)
    requires BelowTies(x, s, leq, p)
    ensures Filter(Insert(x, s, leq), p) == Filter(s, p) + Filter([x], p)
  {
    if s == [] || !leq(s[0], x) {
      InsertInFront(x, s, leq, p);
    } else {
      var tail := s[1..];
      BelowTiesTail(x, s, leq, p);
      InsertAfterTies(x, tail, leq, p);
      InsertPastHead(x, s, leq, p);
    }
  }

  /** `x` goes in front when `s` is empty or starts above it; nothing in `s` is then tied with it. */
  lemma InsertInFront<T(!new)>(x: T, s: seq<T>, leq: (T, T) -> bool, p: T -> bool)
    requires BelowTies(x, s, leq, p)
    requires s == [] || !leq(s[0], x)
    ensures Filter(Insert(x, s, leq), p) == Filter(s, p) + Filter([x], p)
  {
    FilterAppend([x], s, p);
    if p(x) && s != [] {
      forall k | 0 <= k < |s|
        ensures !p(s[k])
      {
        assert !leq(s[0], x);
      }
      FilterNone(s, p);
    }
  }

  lemma BelowTiesTail<T>(x: T, s: seq<T>, leq: (T, T) -> bool, p: T -> bool)
    requires s != [] && BelowTies(x, s, leq, p)
    ensures BelowTies(x, s[1..], leq, p)
  {
    var tail := s[1..];
    forall i, j | 0 <= i <= j < |tail| && p(tail[j]) && p(x)
      ensures leq(tail[i], x)
    {
      assert tail[i] == s[i + 1] && tail[j] == s[j + 1];
    }
  }

  /** Past a head that sorts before or with `x`, the filter splits off the head. */
  lemma InsertPastHead<T(!new)>(x: T, s: seq<T>, leq: (T, T) -> bool, p: T -> bool)
    requires s != [] && leq(s[0], x)
    requires Filter(Insert(x, s[1..], leq), p) == Filter(s[1..], p) + Filter([x], p)
    ensures Filter(Insert(x, s, leq), p) == Filter(s, p) + Filter([x], p)
  {
    var head, rest := [s[0]], Insert(x, s[1..], leq);
    assert Filter(Insert(x, s, leq), p) == Filter(head, p) + Filter(rest, p) by {
      assert Insert(x, s, leq) == head + rest;
      FilterAppend(head, rest, p);
    }
    assert Filter(s, p) == Filter(head, p) + Filter(s[1..], p);
    ConcatAssociative(Filter(head, p), Filter(s[1..], p), Filter([x], p));
  }

  /**
   * The sort is stable: for every `z`, the elements tied with `z` appear in
   * the output in the order they had in the input.
   */
  lemma {:induction false} SortByStable<T(!new)>(s: seq<T>, leq: (T, T) -> bool, z: T)
    requires TotalPreorder(leq)
    ensures Filter(SortBy(s, leq), TiedWith(leq, z)) == Filter(s, TiedWith(leq, z))
  {
    if s != [] {
      var init, last := s[..|s| - 1], s[|s| - 1];
      SortByStable(init, leq, z);
      SortBySorted(init, leq);
      SortedBelowTies(last, SortBy(init, leq), leq, z);
      InsertAfterTies(last, SortBy(init, leq), leq, TiedWith(leq, z));
      assert s == init + [last];
      FilterAppend(init, [last], TiedWith(leq, z));
    }
  }
}
