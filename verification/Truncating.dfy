/** Cutting a history off in time, and why that is a sound way to shrink it. */
module Truncating {
  import opened History
  import opened Model
  import opened Linearization

  /** Exactly the operations without an answer have no completion time. */
  ghost predicate Settled(h: seq<Op>) {
    forall o :: o in h ==> (o.outcome == Info <==> o.complete == PENDING)
  }

  // ----- Cutting twice

  lemma CutTwice(o: Op, t: Int64, u: Int64)
    requires t <= u
    ensures match Cut(u)(o) case None => Cut(t)(o) == None case Some(p) => Cut(t)(p) == Cut(t)(o)
  {
  }

  /** Cutting at u and then earlier, at t, is cutting at t. */
  lemma {:induction false} TruncationComposes(h: seq<Op>, t: Int64, u: Int64)
    requires t <= u
    ensures Truncation(Truncation(h, u), t) == Truncation(h, t)
  {
    if h == [] {
    } else {
      TruncationComposes(h[1..], t, u);
      CutTwice(h[0], t, u);
      match Cut(u)(h[0])
      case None =>
        assert Truncation(h, u) == Truncation(h[1..], u);
      case Some(p) =>
        assert Truncation(h, u) == [p] + Truncation(h[1..], u);
    }
  }

  // ----- Cutting keeps a history linearizable

  /** Once every operation is forgotten, any state will do. */
  lemma {:induction false} ForgottenIsAccepted(m: Model, s: int, other: int, w: seq<Op>, t: Int64)
    requires Forgiving(m) && Final(m, s, w).Some?
    requires forall o :: o in w ==> t <= o.complete
    ensures Final(m, other, Truncation(w, t)).Some?
    decreases w
  {
    if w == [] {
    } else {
      var next := m.Step(s, w[0]).0;
      if w[0].invoke >= t {
        ForgottenIsAccepted(m, next, other, w[1..], t);
        assert Truncation(w, t) == Truncation(w[1..], t);
      } else {
        var p := Downgrade(w[0]);
        ForgottenIsAccepted(m, next, m.Step(other, p).0, w[1..], t);
        assert Truncation(w, t) == [p] + Truncation(w[1..], t);
        assert m.Step(other, p).1;
      }
    }
  }

  /** Restricting an accepted order to what was known at t leaves it accepted: up
      to the first operation dropped no state changes, and after it nothing kept
      had been answered by t. */
  lemma {:induction false} TruncationIsAccepted(m: Model, s: int, w: seq<Op>, t: Int64)
    requires Forgiving(m) && RespectsRealTime(w) && Final(m, s, w).Some?
    ensures Final(m, s, Truncation(w, t)).Some?
    decreases w
  {
    if w == [] {
    } else {
      assert w == [w[0]] + w[1..];
      RealTimeCons(w[0], w[1..]);
      if w[0].invoke >= t {
        ForgottenIsAccepted(m, m.Step(s, w[0]).0, s, w[1..], t);
        assert Truncation(w, t) == Truncation(w[1..], t);
      } else {
        var next := m.Step(s, w[0]).0;
        TruncationIsAccepted(m, next, w[1..], t);
        var p := Cut(t)(w[0]).value;
        assert Truncation(w, t) == [p] + Truncation(w[1..], t);
        assert m.Step(s, p) == m.Step(s, w[0]) by {
          assert m.Step(s, Downgrade(w[0])) == m.Step(s, w[0]);
        }
      }
    }
  }

  /** What was known by t of a linearizable history is linearizable. */
  lemma TruncationLinearizes(m: Model, h: seq<Op>, t: Int64)
    requires Forgiving(m) && HasLinearization(m, h)
    ensures HasLinearization(m, Truncation(h, t))
  {
    var w :| IsLinearization(m, h, w);
    hide Final, Collect, Forgiving;
    CollectMultiset(Cut(t), w, h);
    CollectRespectsRealTime(Cut(t), w);
    TruncationIsAccepted(m, m.Init(), w, t);
    assert IsLinearization(m, Truncation(h, t), Truncation(w, t));
  }

  /** "The truncation at t linearizes" is downward closed in t. */
  lemma Downward(m: Model, h: seq<Op>, t: Int64, u: Int64)
    requires Forgiving(m) && t <= u && HasLinearization(m, Truncation(h, u))
    ensures HasLinearization(m, Truncation(h, t))
  {
    TruncationComposes(h, t, u);
    TruncationLinearizes(m, Truncation(h, u), t);
  }

  // ----- Between two events nothing changes

  /** Something observable happened at t: a call, or an answer. */
  ghost predicate IsEvent(h: seq<Op>, t: int) {
    exists o :: o in h && (t == o.invoke || (t == o.complete && o.complete != PENDING))
  }

  lemma {:induction false} SameCut(h: seq<Op>, t: Int64, u: Int64)
    requires t <= u
    requires forall o :: o in h ==> !(t <= o.invoke < u) && !(t <= o.complete < u)
    ensures Truncation(h, t) == Truncation(h, u)
  {
    if h == [] {
    } else {
      SameCut(h[1..], t, u);
      assert Cut(t)(h[0]) == Cut(u)(h[0]);
    }
  }

  lemma NothingHappens(h: seq<Op>, t: Int64, u: Int64)
    requires t <= u && forall e :: t <= e < u ==> !IsEvent(h, e)
    ensures Truncation(h, t) == Truncation(h, u)
  {
    forall o | o in h ensures !(t <= o.invoke < u) && !(t <= o.complete < u) {
      if t <= o.invoke < u { assert IsEvent(h, o.invoke); }
      if t <= o.complete < u { assert IsEvent(h, o.complete); }
    }
    SameCut(h, t, u);
  }

  /** Cutting after everything that happened keeps everything. */
  lemma {:induction false} KeepEverything(h: seq<Op>, t: Int64)
    requires Settled(h) && forall o :: o in h ==> o.invoke < t && (o.complete < t || o.complete == PENDING)
    ensures Truncation(h, t) == h
  {
    if h == [] {
    } else {
      KeepEverything(h[1..], t);
      assert Cut(t)(h[0]) == Some(h[0]);
      assert h == [h[0]] + h[1..];
    }
  }

  // ----- A truncation is again a history the search is exact on

  lemma CutKeepsShape(o: Op, p: Op, t: Int64)
    requires o.Ordered() && p.Ordered() && !Colliding(o, p)
    ensures Cut(t)(o).Some? ==> Cut(t)(o).value.Ordered()
    ensures Cut(t)(o).Some? && Cut(t)(p).Some? ==> !Colliding(Cut(t)(o).value, Cut(t)(p).value)
  {
  }
}
