/** Conditions on every pair of operations of a history. */
module Pairs {
  import opened History
  import opened Linearization

  ghost predicate Symmetric(r: (Op, Op) -> bool) {
    forall a, b :: r(a, b) ==> r(b, a)
  }

  ghost predicate Pairwise(r: (Op, Op) -> bool, s: seq<Op>) {
    forall i, j :: 0 <= i < j < |s| ==> r(s[i], s[j])
  }

  lemma PairwiseCons(r: (Op, Op) -> bool, a: Op, s: seq<Op>)
    ensures Pairwise(r, [a] + s) <==> Pairwise(r, s) && forall b :: b in s ==> r(a, b)
  {
    var v := [a] + s;
    if Pairwise(r, v) {
      forall i, j | 0 <= i < j < |s| ensures r(s[i], s[j]) {
        assert v[i + 1] == s[i] && v[j + 1] == s[j];
      }
      forall b | b in s ensures r(a, b) {
        var j :| 0 <= j < |s| && s[j] == b;
        assert v[0] == a && v[j + 1] == b;
      }
    }
    if Pairwise(r, s) && forall b :: b in s ==> r(a, b) {
      forall i, j | 0 <= i < j < |v| ensures r(v[i], v[j]) {
        assert v[j] == s[j - 1];
        if i > 0 { assert v[i] == s[i - 1]; }
      }
    }
  }

  lemma PairwiseSnoc(r: (Op, Op) -> bool, s: seq<Op>, a: Op)
    ensures Pairwise(r, s + [a]) <==> Pairwise(r, s) && forall b :: b in s ==> r(b, a)
  {
    var v := s + [a];
    if Pairwise(r, v) {
      forall i, j | 0 <= i < j < |s| ensures r(s[i], s[j]) {
        assert v[i] == s[i] && v[j] == s[j];
      }
      forall b | b in s ensures r(b, a) {
        var j :| 0 <= j < |s| && s[j] == b;
        assert v[|s|] == a && v[j] == b;
      }
    }
    if Pairwise(r, s) && forall b :: b in s ==> r(b, a) {
      forall i, j | 0 <= i < j < |v| ensures r(v[i], v[j]) {
        assert v[i] == s[i];
        if j < |s| { assert v[j] == s[j]; }
      }
    }
  }

  /** A symmetric condition does not depend on the layout. */
  lemma PairwiseRearranged(r: (Op, Op) -> bool, a: seq<Op>, b: seq<Op>)
    requires Symmetric(r) && multiset(a) == multiset(b) && Pairwise(r, a)
    ensures Pairwise(r, b)
  {
    forall i, j | 0 <= i < j < |b| ensures r(b[i], b[j]) {
      var x, y := FindPair(b, a, i, j);
    }
  }

  /** What a selection or rewriting keeps of every pair, it keeps of the history. */
  lemma {:induction false} PairwiseCollect(r: (Op, Op) -> bool, q: (Op, Op) -> bool, f: Op -> Option<Op>, s: seq<Op>)
    requires Pairwise(r, s)
    requires forall a, b :: a in s && b in s && r(a, b) && f(a).Some? && f(b).Some? ==> q(f(a).value, f(b).value)
    ensures Pairwise(q, Collect(f, s))
  {
    if s == [] {
    } else {
      var a, rest := s[0], s[1..];
      assert s == [a] + rest;
      PairwiseCons(r, a, rest);
      PairwiseCollect(r, q, f, rest);
      if f(a).Some? {
        forall b | b in Collect(f, rest) ensures q(f(a).value, b) {
          var p := CollectOrigin(f, rest, b);
        }
        PairwiseCons(q, f(a).value, Collect(f, rest));
      }
    }
  }

  /** A condition that only relates operations with the same label can be checked
      one label at a time. */
  lemma {:induction false} PairwiseByLabel(r: (Op, Op) -> bool, tag: Op -> int, s: seq<Op>)
    requires forall a, b :: tag(a) != tag(b) ==> r(a, b)
    ensures Pairwise(r, s) <==> forall l :: Pairwise(r, Collect(KeepLabel(tag, l), s))
  {
    if s == [] {
      assert forall l :: Collect(KeepLabel(tag, l), s) == [];
    } else {
      var a, rest := s[0], s[1..];
      assert s == [a] + rest;
      PairwiseByLabel(r, tag, rest);
      PairwiseCons(r, a, rest);
      var mine := Collect(KeepLabel(tag, tag(a)), rest);
      PairwiseCons(r, a, mine);
      assert Collect(KeepLabel(tag, tag(a)), s) == [a] + mine;
      forall l | l != tag(a) ensures Collect(KeepLabel(tag, l), s) == Collect(KeepLabel(tag, l), rest) {
      }
      forall b ensures b in mine <==> b in rest && tag(b) == tag(a) {
        if b in mine { var p := CollectOrigin(KeepLabel(tag, tag(a)), rest, b); }
        if b in rest && tag(b) == tag(a) { CollectMember(KeepLabel(tag, tag(a)), rest, b); }
      }
    }
  }

  function KeepLabel(tag: Op -> int, l: int): Op -> Option<Op> {
    (o: Op) => if tag(o) == l then Some(o) else None
  }
}
