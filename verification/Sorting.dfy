/** The library's stable sort, as a function. */
module Sorting {

  ghost predicate TotalPreorder<T(!new)>(leq: (T, T) -> bool) {
    && (forall a, b :: leq(a, b) || leq(b, a))
    && (forall a, b, c {:trigger leq(a, b), leq(b, c)} :: leq(a, b) && leq(b, c) ==> leq(a, c))
  }

  ghost predicate SortedBy<T>(leq: (T, T) -> bool, s: seq<T>) {
    forall i, j :: 0 <= i < j < |s| ==> leq(s[i], s[j])
  }

  /** `x` goes in after everything it does not have to precede. */
  function Insert<T>(leq: (T, T) -> bool, s: seq<T>, x: T): (r: seq<T>)
    ensures |r| == |s| + 1
    ensures multiset(r) == multiset(s) + multiset{x}
  {
    if s == [] || leq(s[|s| - 1], x) then s + [x]
    else
      assert s == s[..|s| - 1] + [s[|s| - 1]];
      Insert(leq, s[..|s| - 1], x) + [s[|s| - 1]]
  }

  function Sort<T>(leq: (T, T) -> bool, s: seq<T>): (r: seq<T>)
    ensures |r| == |s|
    ensures multiset(r) == multiset(s)
  {
    if s == [] then []
    else
      assert s == s[..|s| - 1] + [s[|s| - 1]];
      Insert(leq, Sort(leq, s[..|s| - 1]), s[|s| - 1])
  }

  lemma {:induction false} InsertKeepsSorted<T(!new)>(leq: (T, T) -> bool, s: seq<T>, x: T)
    requires TotalPreorder(leq) && SortedBy(leq, s)
    ensures SortedBy(leq, Insert(leq, s, x))
  {
    if s == [] || leq(s[|s| - 1], x) {
    } else {
      var pre, last := s[..|s| - 1], s[|s| - 1];
      InsertKeepsSorted(leq, pre, x);
      var r := Insert(leq, pre, x);
      forall i | 0 <= i < |r| ensures leq(r[i], last) {
        assert r[i] in multiset(r);
        assert r[i] in multiset(pre) || r[i] == x;
      }
    }
  }

  lemma {:induction false} SortSorts<T(!new)>(leq: (T, T) -> bool, s: seq<T>)
    requires TotalPreorder(leq)
    ensures SortedBy(leq, Sort(leq, s))
  {
    if s == [] {
    } else {
      SortSorts(leq, s[..|s| - 1]);
      InsertKeepsSorted(leq, Sort(leq, s[..|s| - 1]), s[|s| - 1]);
    }
  }

  function Filter<T>(p: T -> bool, s: seq<T>): seq<T> {
    if s == [] then []
    else
      var pre, last := s[..|s| - 1], s[|s| - 1];
      assert s == pre + [last];
      Filter(p, pre) + (if p(last) then [last] else [])
  }

  lemma FilterSnoc<T>(p: T -> bool, s: seq<T>, x: T)
    ensures Filter(p, s + [x]) == Filter(p, s) + (if p(x) then [x] else [])
  {
    assert (s + [x])[..|s|] == s;
  }

  lemma InsertIs<T>(leq: (T, T) -> bool, s: seq<T>, x: T)
    ensures Insert(leq, s, x) == if s == [] || leq(s[|s| - 1], x) then s + [x]
                                 else Insert(leq, s[..|s| - 1], x) + [s[|s| - 1]]
  {
  }

  lemma {:induction false} InsertKeepsTies<T(!new)>(leq: (T, T) -> bool, s: seq<T>, x: T, p: T -> bool)
    requires forall a, b :: p(a) && p(b) ==> leq(a, b)
    ensures Filter(p, Insert(leq, s, x)) == Filter(p, s + [x])
  {
    hide *;
    InsertIs(leq, s, x);
    if s == [] || leq(s[|s| - 1], x) {
    } else {
      var pre, last := s[..|s| - 1], s[|s| - 1];
      assert s == pre + [last];
      InsertKeepsTies(leq, pre, x, p);
      FilterSnoc(p, Insert(leq, pre, x), last);
      FilterSnoc(p, pre, x);
      FilterSnoc(p, pre, last);
      FilterSnoc(p, s, x);
    }
  }

  /** Elements none of which has to precede another stay in the order they were in. */
  lemma {:induction false} SortKeepsTies<T(!new)>(leq: (T, T) -> bool, s: seq<T>, p: T -> bool)
    requires forall a, b :: p(a) && p(b) ==> leq(a, b)
    ensures Filter(p, Sort(leq, s)) == Filter(p, s)
  {
    if s == [] {
    } else {
      var pre, last := s[..|s| - 1], s[|s| - 1];
      assert s == pre + [last];
      SortKeepsTies(leq, pre, p);
      InsertKeepsTies(leq, Sort(leq, pre), last, p);
      FilterSnoc(p, Sort(leq, pre), last);
      FilterSnoc(p, pre, last);
    }
  }

  lemma SortLast<T>(leq: (T, T) -> bool, pre: seq<T>, x: T)
    requires Sort(leq, pre) == pre && (pre == [] || leq(pre[|pre| - 1], x))
    ensures Sort(leq, pre + [x]) == pre + [x]
  {
    var s := pre + [x];
    assert s[..|s| - 1] == pre && s[|s| - 1] == x;
  }

  lemma SortNothing<T>(leq: (T, T) -> bool)
    ensures Sort(leq, []) == []
  {
  }

  lemma SortedPrefix<T>(leq: (T, T) -> bool, s: seq<T>)
    requires s != [] && SortedBy(leq, s)
    ensures SortedBy(leq, s[..|s| - 1])
    ensures |s| > 1 ==> leq(s[|s| - 2], s[|s| - 1])
  {
  }

  /** Sorting what is sorted changes nothing. */
  lemma {:induction false} SortedStays<T>(leq: (T, T) -> bool, s: seq<T>)
    requires SortedBy(leq, s)
    ensures Sort(leq, s) == s
  {
    hide *;
    if s == [] {
      SortNothing(leq);
    } else {
      var pre, last := s[..|s| - 1], s[|s| - 1];
      SortedPrefix(leq, s);
      SortedStays(leq, pre);
      SortLast(leq, pre, last);
      assert s == pre + [last];
    }
  }

  lemma SameMembers<T>(a: seq<T>, b: seq<T>)
    requires multiset(a) == multiset(b)
    ensures forall x :: x in a <==> x in b
  {
    forall x ensures x in a <==> x in b {
      assert x in a <==> x in multiset(a);
      assert x in b <==> x in multiset(b);
    }
  }

  ghost predicate NoDuplicates<T>(s: seq<T>) {
    forall i, j :: 0 <= i < j < |s| ==> s[i] != s[j]
  }

  lemma {:induction false} CountedOnce<T>(s: seq<T>, x: T)
    requires NoDuplicates(s)
    ensures multiset(s)[x] <= 1
  {
    if s == [] {
    } else {
      var pre, last := s[..|s| - 1], s[|s| - 1];
      assert s == pre + [last];
      CountedOnce(pre, x);
      assert last !in pre;
    }
  }

  /** Having no duplicates does not depend on the order. */
  lemma DistinctRearranged<T>(a: seq<T>, b: seq<T>)
    requires multiset(a) == multiset(b) && NoDuplicates(a)
    ensures NoDuplicates(b)
  {
    forall i, j | 0 <= i < j < |b| ensures b[i] != b[j] {
      CountedOnce(a, b[i]);
      assert b == b[..j] + [b[j]] + b[j + 1..];
      assert b[..j][i] == b[i];
      assert b[i] in b[..j];
    }
  }

  lemma {:induction false} InsertKeepsDistinct<T>(leq: (T, T) -> bool, s: seq<T>, x: T)
    requires NoDuplicates(s) && x !in s
    ensures NoDuplicates(Insert(leq, s, x))
  {
    if s == [] || leq(s[|s| - 1], x) {
    } else {
      var pre, last := s[..|s| - 1], s[|s| - 1];
      InsertKeepsDistinct(leq, pre, x);
      var r := Insert(leq, pre, x);
      SameMembers(r, pre + [x]);
      assert last !in pre + [x];
    }
  }

  lemma {:induction false} SortKeepsDistinct<T>(leq: (T, T) -> bool, s: seq<T>)
    requires NoDuplicates(s)
    ensures NoDuplicates(Sort(leq, s))
  {
    if s == [] {
    } else {
      SortKeepsDistinct(leq, s[..|s| - 1]);
      SameMembers(Sort(leq, s[..|s| - 1]), s[..|s| - 1]);
      InsertKeepsDistinct(leq, Sort(leq, s[..|s| - 1]), s[|s| - 1]);
    }
  }
}
