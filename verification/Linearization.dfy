/** The question the checker answers: does a valid total order exist? */
module Linearization {
  import opened History
  import opened Model

  /** No operation comes after one it precedes in real time. */
  ghost predicate RespectsRealTime(w: seq<Op>) {
    forall i, j :: 0 <= i < j < |w| ==> !w[j].Precedes(w[i])
  }

  /** The state after applying every operation of `w` in turn, if the model
      accepts each of them. */
  function Final(m: Model, s: int, w: seq<Op>): Option<int>
    decreases w
  {
    if w == [] then Some(s)
    else
      var (next, ok) := m.Step(s, w[0]);
      if ok then Final(m, next, w[1..]) else None
  }

  /** `w` is a total order of exactly the operations of `h`, it respects real
      time, and the model accepts it from its initial state. */
  ghost predicate IsLinearization(m: Model, h: seq<Op>, w: seq<Op>) {
    && multiset(w) == multiset(h)
    && RespectsRealTime(w)
    && Final(m, m.Init(), w).Some?
  }

  ghost predicate HasLinearization(m: Model, h: seq<Op>) {
    exists w :: IsLinearization(m, h, w)
  }

  /** The slice order of a history carries no meaning. */
  lemma LayoutIndependent(m: Model, a: seq<Op>, b: seq<Op>)
    requires multiset(a) == multiset(b)
    ensures HasLinearization(m, a) <==> HasLinearization(m, b)
  {
    if HasLinearization(m, a) {
      var w :| IsLinearization(m, a, w);
      assert IsLinearization(m, b, w);
    }
    if HasLinearization(m, b) {
      var w :| IsLinearization(m, b, w);
      assert IsLinearization(m, a, w);
    }
  }

  lemma RealTimeCons(a: Op, w: seq<Op>)
    ensures RespectsRealTime([a] + w) <==>
            RespectsRealTime(w) && forall b :: b in w ==> !b.Precedes(a)
  {
    var v := [a] + w;
    if RespectsRealTime(v) {
      forall i, j | 0 <= i < j < |w| ensures !w[j].Precedes(w[i]) {
        assert v[i + 1] == w[i] && v[j + 1] == w[j];
      }
      forall b | b in w ensures !b.Precedes(a) {
        var j :| 0 <= j < |w| && w[j] == b;
        assert v[0] == a && v[j + 1] == b;
      }
    }
    if RespectsRealTime(w) && forall b :: b in w ==> !b.Precedes(a) {
      forall i, j | 0 <= i < j < |v| ensures !v[j].Precedes(v[i]) {
        assert v[j] == w[j - 1];
        if i > 0 { assert v[i] == w[i - 1]; }
      }
    }
  }

  lemma {:induction false} FinalAppend(m: Model, s: int, a: seq<Op>, b: seq<Op>)
    ensures Final(m, s, a + b) ==
            (match Final(m, s, a) case None => None case Some(t) => Final(m, t, b))
    decreases a
  {
    if a == [] {
      assert a + b == b;
    } else {
      assert (a + b)[1..] == a[1..] + b;
      if m.Step(s, a[0]).1 { FinalAppend(m, m.Step(s, a[0]).0, a[1..], b); }
    }
  }

  /** Dropping operations, or widening their intervals, removes real-time
      constraints and adds none. */
  lemma {:induction false} CollectRespectsRealTime(f: Op -> Option<Op>, w: seq<Op>)
    requires RespectsRealTime(w)
    requires forall o, p :: f(o).Some? && f(p).Some? && f(o).value.Precedes(f(p).value) ==> o.Precedes(p)
    ensures RespectsRealTime(Collect(f, w))
  {
    if w == [] {
    } else {
      assert w == [w[0]] + w[1..];
      RealTimeCons(w[0], w[1..]);
      CollectRespectsRealTime(f, w[1..]);
      if f(w[0]).Some? {
        forall b | b in Collect(f, w[1..]) ensures !b.Precedes(f(w[0]).value) {
          var p := CollectOrigin(f, w[1..], b);
        }
        RealTimeCons(f(w[0]).value, Collect(f, w[1..]));
      }
    }
  }

  /** Two operations that precede each other admit no order at all. */
  lemma CollisionRefutes(m: Model, h: seq<Op>, i: nat, j: nat)
    requires i < j < |h| && Colliding(h[i], h[j])
    ensures !HasLinearization(m, h)
  {
    forall w | multiset(w) == multiset(h) ensures !RespectsRealTime(w) {
      var x, y := FindPair(h, w, i, j);
    }
  }

  /** Distinct positions of one sequence map to distinct positions of a rearrangement. */
  lemma FindPair(h: seq<Op>, w: seq<Op>, i: nat, j: nat) returns (x: nat, y: nat)
    requires multiset(w) == multiset(h) && i < j < |h|
    ensures x < |w| && y < |w| && x != y && w[x] == h[i] && w[y] == h[j]
  {
    x := Find(h, w, i);
    RemoveSame(h, i, w, x);
    var rest, others := h[..i] + h[i + 1..], w[..x] + w[x + 1..];
    assert rest[j - 1] == h[j];
    var z := Find(rest, others, j - 1);
    y := if z < x then z else z + 1;
  }

  /** Rearranging a history keeps it fit for the search. */
  lemma RearrangedIsSearchable(a: seq<Op>, b: seq<Op>)
    requires multiset(a) == multiset(b) && Searchable(a)
    ensures Searchable(b)
  {
    forall o | o in b ensures o in a {
      assert o in multiset(b);
    }
    forall i, j | 0 <= i < j < |b| ensures !Colliding(b[i], b[j]) {
      var x, y := FindPair(b, a, i, j);
    }
  }

  /** Neither register refuses an operation without an answer, but for the plain one's
      compare-and-swaps. */
  lemma {:induction false} UnansweredIsAccepted(m: Model, v: int, w: seq<Op>)
    requires m == CAS_REGISTER || (m == REGISTER && forall o :: o in w ==> o.kind != CAS)
    requires forall o :: o in w ==> o.outcome == Info
    ensures Final(m, v, w).Some?
    decreases w
  {
    if w == [] {
    } else {
      assert w[0] in w;
      UnansweredIsAccepted(m, m.Step(v, w[0]).0, w[1..]);
    }
  }
}
