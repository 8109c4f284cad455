/** Laying a history out as a timeline. */
module Layout {
  import opened History
  import opened Timeline
  import opened Sorting

  /** Every operation's call and return, in history order. */
  function Ends(ops: seq<Op>): (r: seq<End>)
    ensures |r| == 2 * |ops|
  {
    seq(2 * |ops|, k requires 0 <= k < 2 * |ops| => End(ops[k / 2], k / 2, k % 2 == 1))
  }

  function NotAfter(): (End, End) -> bool {
    (a: End, b: End) => !b.Less(a)
  }

  function Order(ops: seq<Op>): seq<End> { Sort(NotAfter(), Ends(ops)) }

  function IndexOf(s: seq<End>, e: End): (k: nat)
    requires e in s
    ensures k < |s| && s[k] == e
  {
    if s[0] == e then 0 else 1 + IndexOf(s[1..], e)
  }

  function Laid(ops: seq<Op>): Timeline {
    AllThere(ops);
    var order := Order(ops);
    Timeline(ops, order,
             seq(|ops|, i requires 0 <= i < |ops| => IndexOf(order, End(ops[i], i, false))),
             seq(|ops|, i requires 0 <= i < |ops| => IndexOf(order, End(ops[i], i, true))), true)
  }

  /** The order in which endpoints are laid out is total ... */
  lemma LessIsTotal(a: End, b: End, c: End)
    ensures !a.Less(a)
    ensures a.Less(b) && b.Less(c) ==> a.Less(c)
    ensures !a.Less(b) && !b.Less(a) ==> a.id == b.id && a.isReturn == b.isReturn
  {
  }

  lemma NotAfterIsTotal()
    ensures TotalPreorder(NotAfter())
  {
    forall a: End, b: End, c: End
      ensures NotAfter()(a, b) || NotAfter()(b, a)
      ensures NotAfter()(a, b) && NotAfter()(b, c) ==> NotAfter()(a, c)
    {
      LessIsTotal(a, b, c);
      LessIsTotal(b, a, c);
      LessIsTotal(c, b, a);
      LessIsTotal(c, a, b);
    }
  }

  /** ... puts a call before its own return ... */
  lemma CallBeforeReturn(o: Op, i: nat)
    requires o.Ordered()
    ensures End(o, i, false).Less(End(o, i, true))
  {
  }

  /** ... and puts one operation's return before another's call exactly when the
      first precedes the second; of two that precede each other it puts that one
      first which stands first in the slice. */
  lemma LessIsRealTime(o: Op, i: nat, p: Op, j: nat)
    requires o.Ordered() && p.Ordered() && i != j
    ensures End(o, i, false).Less(End(p, j, true)) <==> !(p.Precedes(o) && !(o.Precedes(p) && i < j))
    ensures End(p, j, true).Less(End(o, i, false)) <==> p.Precedes(o) && !(o.Precedes(p) && i < j)
  {
  }

  lemma AllThere(ops: seq<Op>)
    ensures |Order(ops)| == 2 * |ops|
    ensures NoDuplicates(Order(ops))
    ensures forall i :: 0 <= i < |ops| ==>
              End(ops[i], i, false) in Order(ops) && End(ops[i], i, true) in Order(ops)
    ensures forall k :: 0 <= k < |Order(ops)| ==>
              && Order(ops)[k].id < |ops|
              && Order(ops)[k].op == ops[Order(ops)[k].id]
  {
    var ends, order := Ends(ops), Order(ops);
    SameMembers(order, ends);
    SortKeepsDistinct(NotAfter(), ends);
    forall i | 0 <= i < |ops|
      ensures End(ops[i], i, false) in order && End(ops[i], i, true) in order
    {
      assert ends[2 * i] == End(ops[i], i, false);
      assert ends[2 * i + 1] == End(ops[i], i, true);
    }
    forall k | 0 <= k < |order|
      ensures order[k].id < |ops| && order[k].op == ops[order[k].id]
    {
      assert order[k] in ends;
    }
  }

  /** Positions in the timeline are ordered as the endpoints are. */
  lemma OrderIsStrict(ops: seq<Op>, a: nat, b: nat)
    requires a < |Order(ops)| && b < |Order(ops)| && Order(ops)[a].Less(Order(ops)[b])
    ensures a < b
  {
    NotAfterIsTotal();
    SortSorts(NotAfter(), Ends(ops));
    var order := Order(ops);
    LessIsTotal(order[a], order[a], order[a]);
  }

  lemma LaidIsSized(ops: seq<Op>)
    ensures Laid(ops).Sized() && Laid(ops).ops == ops && Laid(ops).order == Order(ops) && Laid(ops).ties
  {
    AllThere(ops);
  }

  lemma CallsComeFirst(ops: seq<Op>)
    requires AllOrdered(ops)
    ensures Laid(ops).Sized() && Laid(ops).CallsFirst()
  {
    LaidIsSized(ops);
    AllThere(ops);
    var t := Laid(ops);
    forall i | 0 <= i < |ops|
      ensures t.callAt[i] < t.retAt[i] < |t.order|
      ensures t.order[t.callAt[i]] == End(ops[i], i, false) && t.order[t.retAt[i]] == End(ops[i], i, true)
    {
      CallBeforeReturn(ops[i], i);
      OrderIsStrict(ops, t.callAt[i], t.retAt[i]);
    }
  }

  lemma CalledBeforeIsRealTime(ops: seq<Op>, i: nat, j: nat)
    requires AllOrdered(ops) && i < |ops| && j < |ops| && i != j
    ensures Laid(ops).CalledBefore(i, j) <==> !Laid(ops).Before(j, i)
  {
    AllThere(ops);
    LaidIsSized(ops);
    var t := Laid(ops);
    LessIsRealTime(ops[i], i, ops[j], j);
    if End(ops[i], i, false).Less(End(ops[j], j, true)) {
      OrderIsStrict(ops, t.callAt[i], t.retAt[j]);
    } else {
      OrderIsStrict(ops, t.retAt[j], t.callAt[i]);
    }
  }

  lemma LaidIsIndexed(ops: seq<Op>)
    ensures Laid(ops).Sized() && Laid(ops).Indexed()
  {
    LaidIsSized(ops);
    AllThere(ops);
    var t := Laid(ops);
    forall k | 0 <= k < |t.order|
      ensures t.order[k].id < |ops|
      ensures k == if t.order[k].isReturn then t.retAt[t.order[k].id] else t.callAt[t.order[k].id]
    {
      var e := t.order[k];
      assert e == End(ops[e.id], e.id, e.isReturn);
      assert t.order[IndexOf(t.order, e)] == t.order[k];
    }
  }

  lemma LaidAgrees(ops: seq<Op>)
    requires AllOrdered(ops)
    ensures Laid(ops).AgreesWithRealTime()
  {
    LaidIsSized(ops);
    forall i, j | 0 <= i < |ops| && 0 <= j < |ops| && i != j
      ensures Laid(ops).CalledBefore(i, j) <==> !Laid(ops).Before(j, i)
    {
      CalledBeforeIsRealTime(ops, i, j);
    }
  }

  lemma LaidIsValid(ops: seq<Op>)
    requires AllOrdered(ops)
    ensures Laid(ops).Valid() && Laid(ops).ops == ops && Laid(ops).ties
  {
    LaidIsSized(ops);
    CallsComeFirst(ops);
    LaidIsIndexed(ops);
    LaidAgrees(ops);
    hide Laid, Timeline.CallsFirst, Timeline.Indexed, Timeline.AgreesWithRealTime;
  }
}
