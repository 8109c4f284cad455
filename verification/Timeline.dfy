/** The endpoints of a history's operations, in the order the search walks them. */
module Timeline {
  import opened History

  /** The moment a client called, or the moment it heard back. */
  datatype End = End(op: Op, id: nat, isReturn: bool)
  {
    /** A time, and a phase within that time: returns, then instantaneous
        operations, then calls. */
    function Position(): (int, int) {
      if isReturn then (op.complete, if op.Instant() then 1 else 0)
      else (op.invoke, if op.Instant() then 1 else 2)
    }

    predicate Less(o: End) {
      var (at, ap) := Position();
      var (bt, bp) := o.Position();
      if at != bt then at < bt
      else if ap != bp then ap < bp
      else if id != o.id then id < o.id
      else !isReturn && o.isReturn
    }
  }

  /** A history together with its sorted endpoints, and where each operation's
      call and return stand in that order. Operations that precede each other cannot
      both have their way: `ties` says whether the order has chosen between them. */
  datatype Timeline = Timeline(ops: seq<Op>, order: seq<End>, callAt: seq<nat>, retAt: seq<nat>, ties: bool)
  {
    /** Operation j has to come before operation i: it precedes it in real time. Of two
        that precede each other the first has to, where the order has chosen. */
    predicate Before(j: int, i: int) {
      && 0 <= i < |ops| && 0 <= j < |ops|
      && ops[j].Precedes(ops[i])
      && !(ties && ops[i].Precedes(ops[j]) && i < j)
    }

    /** The order had nothing to choose. */
    ghost predicate Untied() {
      !ties || CollisionFree(ops)
    }

    lemma UntiedIsRealTime(j: int, i: int)
      requires Untied() && 0 <= i < |ops| && 0 <= j < |ops| && i != j
      ensures Before(j, i) <==> ops[j].Precedes(ops[i])
    {
      if i < j { assert ties ==> !Colliding(ops[i], ops[j]); }
    }

    ghost predicate Valid() {
      Sized() && CallsFirst() && Indexed() && AgreesWithRealTime()
    }

    ghost predicate Sized() {
      |order| == 2 * |ops| && |callAt| == |retAt| == |ops|
    }

    ghost predicate CallsFirst()
      requires Sized()
    {
      forall i :: 0 <= i < |ops| ==>
        && callAt[i] < retAt[i] < |order|
        && order[callAt[i]] == End(ops[i], i, false)
        && order[retAt[i]] == End(ops[i], i, true)
    }

    ghost predicate Indexed()
      requires Sized()
    {
      forall k :: 0 <= k < |order| ==>
        && order[k].id < |ops|
        && k == if order[k].isReturn then retAt[order[k].id] else callAt[order[k].id]
    }

    ghost predicate AgreesWithRealTime() {
      forall i, j {:trigger CalledBefore(i, j)} ::
        0 <= i < |ops| && 0 <= j < |ops| && i != j ==>
        (CalledBefore(i, j) <==> !Before(j, i))
    }

    /** Operation i was called before operation j returned. */
    predicate CalledBefore(i: int, j: int) {
      0 <= i < |callAt| && 0 <= j < |retAt| && callAt[i] < retAt[j]
    }

    function CallIndex(i: nat): nat { if i < |callAt| then callAt[i] else 0 }

    function ReturnIndex(i: nat): nat { if i < |retAt| then retAt[i] else 0 }

    /** Still in the list: its operation has not been placed. */
    predicate Live(placed: set<nat>, k: nat) {
      k < |order| && order[k].id !in placed
    }

    /** The first position from `k` on that is still in the list. */
    function NextLive(placed: set<nat>, k: nat): (r: nat)
      ensures r <= |order| && (k <= |order| ==> k <= r)
      ensures r < |order| ==> Live(placed, r)
      ensures forall j :: k <= j < r ==> !Live(placed, j)
      decreases |order| - k
    {
      if k >= |order| then |order| else if Live(placed, k) then k else NextLive(placed, k + 1)
    }

    /** No operation still to be placed has to come before this one. */
    predicate Minimal(placed: set<nat>, i: nat) {
      && i < |ops| && i !in placed
      && forall j {:trigger Before(j, i)} ::
           0 <= j < |ops| && j !in placed && j != i ==> !Before(j, i)
    }

    /** Whatever can come next was called before the first remaining return ... */
    lemma MinimalIsEarly(placed: set<nat>, i: nat, k: nat)
      requires Valid() && Minimal(placed, i)
      requires Live(placed, k) && order[k].isReturn
      ensures callAt[i] < k
    {
      var j := order[k].id;
      assert k == retAt[j];
      assert i != j ==> CalledBefore(i, j);
    }

    /** ... and whatever was called before it can come next. */
    lemma EarlyIsMinimal(placed: set<nat>, k: nat)
      requires Valid() && Live(placed, k) && !order[k].isReturn
      requires forall j :: 0 <= j < k && Live(placed, j) ==> !order[j].isReturn
      ensures Minimal(placed, order[k].id)
    {
      var i := order[k].id;
      assert k == callAt[i];
      forall j | 0 <= j < |ops| && j !in placed && j != i
        ensures !Before(j, i)
      {
        assert Live(placed, retAt[j]) && order[retAt[j]].isReturn;
        assert CalledBefore(i, j);
      }
    }
  }
}
