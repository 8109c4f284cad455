/** What the search answers, and that the answer is exact. */
module MachineResult {
  import opened History
  import opened Model
  import opened Linearization
  import opened Timeline
  import opened Machine
  import opened MachineInvariant
  import opened Verdicts

  /** The verdict, and the state of the search when it was reached. */
  datatype Ending = Ending(verdict: Verdict, last: Search)

  predicate Spent(t: Timeline, opt: Options, late: Clock, s: Search, k: nat) {
    Exhausted(opt, late, s.visits, k, |s.seen| * EntryBytes(|t.ops|))
  }

  /** The loop, entered in its k-th iteration. */
  ghost function Run(t: Timeline, m: Model, opt: Options, late: Clock, s: Search, k: nat): (o: Ending)
    requires Inv(t, m, s)
    decreases Unexplored(t, m, s), |s.calls|, |t.order| - s.pos
  {
    hide Inv, Complete, Spent, Next;
    if Complete(t, s) then Ending(Verdict.Linearizable, s)
    else if Spent(t, opt, late, s, k) then Ending(Verdict.Unknown, s)
    else
      NeverOffTheEnd(t, m, s);
      if Stuck(t, s) then Ending(Verdict.NotLinearizable, s)
      else
        Preserved(t, m, s);
        Progress(t, m, s);
        Run(t, m, opt, late, Next(t, m, s), k + 1)
  }

  ghost function RunFromStart(t: Timeline, m: Model, opt: Options, late: Clock): Ending
    requires t.Valid()
  {
    Established(t, m);
    Run(t, m, opt, late, Start(t, m), 0)
  }

  lemma UnlimitedIsNeverSpent(t: Timeline, opt: Options, late: Clock, s: Search, k: nat)
    ensures opt.Unlimited() ==> !Spent(t, opt, late, s, k)
  {
  }

  lemma {:induction false} RunKeepsInv(t: Timeline, m: Model, opt: Options, late: Clock, s: Search, k: nat)
    requires Inv(t, m, s)
    ensures var o := Run(t, m, opt, late, s, k);
            && Inv(t, m, o.last)
            && (o.verdict == Verdict.Linearizable <==> Complete(t, o.last))
            && (o.verdict == Verdict.NotLinearizable ==> Stuck(t, o.last))
            && (opt.Unlimited() ==> o.verdict != Verdict.Unknown)
    decreases Unexplored(t, m, s), |s.calls|, |t.order| - s.pos
  {
    UnlimitedIsNeverSpent(t, opt, late, s, k);
    hide Inv, Complete, Spent, Next, Stuck;
    if !Complete(t, s) && !Spent(t, opt, late, s, k) {
      NeverOffTheEnd(t, m, s);
      if !Stuck(t, s) {
        Preserved(t, m, s);
        Progress(t, m, s);
        RunKeepsInv(t, m, opt, late, Next(t, m, s), k + 1);
      }
    }
  }

  // ----- Orders of operations and orders of their numbers

  /** How often `o` occurs among the operations not yet placed, from position
      `from` of the history on. */
  function Left(ops: seq<Op>, placed: set<nat>, from: nat, o: Op): nat
    requires from <= |ops|
    decreases |ops| - from
  {
    if from == |ops| then 0
    else (if from !in placed && ops[from] == o then 1 else 0) + Left(ops, placed, from + 1, o)
  }

  /** `w` consists of exactly the operations not yet placed. */
  ghost predicate OrdersTheRest(w: seq<Op>, ops: seq<Op>, placed: set<nat>) {
    forall o :: multiset(w)[o] == Left(ops, placed, 0, o)
  }

  lemma {:induction false} LeftWithout(ops: seq<Op>, placed: set<nat>, from: nat, i: nat, o: Op)
    requires from <= |ops| && i < |ops| && i !in placed
    ensures Left(ops, placed, from, o) ==
            Left(ops, placed + {i}, from, o) + (if from <= i && ops[i] == o then 1 else 0)
    decreases |ops| - from
  {
    if from >= |ops| {
    } else {
      LeftWithout(ops, placed, from + 1, i, o);
    }
  }

  lemma {:induction false} LeftMembers(ops: seq<Op>, placed: set<nat>, from: nat, i: nat)
    requires from <= i < |ops| && i !in placed
    ensures Left(ops, placed, from, ops[i]) > 0
    decreases |ops| - from
  {
    if from >= i {
    } else {
      LeftMembers(ops, placed, from + 1, i);
    }
  }

  lemma {:induction false} LeftSource(ops: seq<Op>, placed: set<nat>, from: nat, o: Op) returns (i: nat)
    requires from <= |ops| && Left(ops, placed, from, o) > 0
    ensures from <= i < |ops| && i !in placed && ops[i] == o
    decreases |ops| - from
  {
    if from !in placed && ops[from] == o {
      i := from;
    } else {
      i := LeftSource(ops, placed, from + 1, o);
    }
  }

  lemma {:induction false} LeftOfNone(ops: seq<Op>, from: nat, o: Op)
    requires from <= |ops|
    ensures Left(ops, {}, from, o) == multiset(ops[from..])[o]
    decreases |ops| - from
  {
    if from >= |ops| {
    } else {
      LeftOfNone(ops, from + 1, o);
      assert ops[from..] == [ops[from]] + ops[from + 1..];
    }
  }

  lemma {:induction false} LeftOfAll(ops: seq<Op>, placed: set<nat>, from: nat, o: Op)
    requires from <= |ops| && UpTo(|ops|) <= placed
    ensures Left(ops, placed, from, o) == 0
    decreases |ops| - from
  {
    if from >= |ops| {
    } else {
      LeftOfAll(ops, placed, from + 1, o);
    }
  }

  /** An order of the rest, by its first operation. */
  lemma RestCons(t: Timeline, placed: set<nat>, i: nat, w: seq<Op>)
    requires i < |t.ops| && i !in placed
    ensures OrdersTheRest([t.ops[i]] + w, t.ops, placed) <==> OrdersTheRest(w, t.ops, placed + {i})
  {
    forall o ensures Left(t.ops, placed, 0, o) ==
                     Left(t.ops, placed + {i}, 0, o) + (if t.ops[i] == o then 1 else 0)
    {
      LeftWithout(t.ops, placed, 0, i, o);
    }
    forall o ensures multiset([t.ops[i]] + w)[o] == multiset(w)[o] + (if t.ops[i] == o then 1 else 0) {
    }
  }

  /** The first operation of a legal order of the rest is one that can come next. */
  lemma RealTimeOfRest(t: Timeline, placed: set<nat>, i: nat, w: seq<Op>)
    requires t.Untied() && i < |t.ops| && i !in placed && OrdersTheRest(w, t.ops, placed + {i})
    ensures RespectsRealTime([t.ops[i]] + w) <==> t.Minimal(placed, i) && RespectsRealTime(w)
  {
    RealTimeCons(t.ops[i], w);
    if t.Minimal(placed, i) {
      forall b | b in w ensures !b.Precedes(t.ops[i]) {
        assert multiset(w)[b] > 0;
        var j := LeftSource(t.ops, placed + {i}, 0, b);
        t.UntiedIsRealTime(j, i);
      }
    }
    if forall b :: b in w ==> !b.Precedes(t.ops[i]) {
      forall j | 0 <= j < |t.ops| && j !in placed && j != i ensures !t.Before(j, i) {
        LeftMembers(t.ops, placed + {i}, 0, j);
        assert multiset(w)[t.ops[j]] > 0;
      }
    }
  }

  /** Placing everything legally gives a linearization of what was left ... */
  lemma {:induction false} CanPlaceGivesOrder(t: Timeline, m: Model, placed: set<nat>, s: int) returns (w: seq<Op>)
    requires t.Untied() && placed <= AllIds(t) && CanPlace(t, m, placed, s, |t.ops|)
    ensures OrdersTheRest(w, t.ops, placed)
    ensures RespectsRealTime(w) && Final(m, s, w).Some?
    decreases |t.ops| - |placed|
  {
    if |placed| == |t.ops| {
      Subset(placed, AllIds(t));
      forall o ensures Left(t.ops, placed, 0, o) == 0 { LeftOfAll(t.ops, placed, 0, o); }
      w := [];
    } else {
      var i := Choose(t, m, placed, s, |t.ops|);
      hide RespectsRealTime, OrdersTheRest, Timeline.Minimal;
      var v := CanPlaceGivesOrder(t, m, placed + {i}, m.Step(s, t.ops[i]).0);
      w := [t.ops[i]] + v;
      RestCons(t, placed, i, v);
      RealTimeOfRest(t, placed, i, v);
      assert w[1..] == v;
    }
  }

  /** The first operation of a continuation. */
  lemma Choose(t: Timeline, m: Model, placed: set<nat>, s: int, d: nat) returns (i: nat)
    requires CanPlace(t, m, placed, s, d) && |placed| != d
    ensures i < |t.ops| && i !in placed && t.Minimal(placed, i) && m.Step(s, t.ops[i]).1
    ensures |placed| < d && CanPlace(t, m, placed + {i}, m.Step(s, t.ops[i]).0, d)
  {
    i :| && t.Minimal(placed, i) && m.Step(s, t.ops[i]).1
         && CanPlace(t, m, placed + {i}, m.Step(s, t.ops[i]).0, d);
  }

  /** ... and a linearization tells how to place everything legally. */
  lemma {:induction false} OrderGivesCanPlace(t: Timeline, m: Model, placed: set<nat>, s: int, w: seq<Op>)
    requires t.Untied() && placed <= AllIds(t)
    requires OrdersTheRest(w, t.ops, placed)
    requires RespectsRealTime(w) && Final(m, s, w).Some?
    ensures CanPlace(t, m, placed, s, |t.ops|)
    decreases |w|
  {
    if w == [] {
      NothingLeft(t, placed);
    } else {
      assert multiset(w)[w[0]] > 0;
      var i := LeftSource(t.ops, placed, 0, w[0]);
      hide RespectsRealTime, OrdersTheRest, Timeline.Minimal;
      var v := w[1..];
      assert w == [w[0]] + v;
      RestCons(t, placed, i, v);
      RealTimeOfRest(t, placed, i, v);
      Room(t, placed, i);
      OrderGivesCanPlace(t, m, placed + {i}, m.Step(s, t.ops[i]).0, v);
    }
  }

  lemma NothingLeft(t: Timeline, placed: set<nat>)
    requires placed <= AllIds(t) && OrdersTheRest([], t.ops, placed)
    ensures |placed| == |t.ops|
  {
    forall i | i in AllIds(t) ensures i in placed {
      var none: multiset<Op> := multiset([]);
      assert none[t.ops[i]] == 0;
      if i !in placed { LeftMembers(t.ops, placed, 0, i); }
    }
    assert placed == AllIds(t);
  }

  lemma NothingPlaced(t: Timeline, w: seq<Op>)
    ensures OrdersTheRest(w, t.ops, {}) <==> multiset(w) == multiset(t.ops)
  {
    forall o ensures Left(t.ops, {}, 0, o) == multiset(t.ops)[o] {
      LeftOfNone(t.ops, 0, o);
      assert t.ops[0..] == t.ops;
    }
  }

  /** The two ways to say that a history has a valid total order agree. */
  lemma CanPlaceAllIff(t: Timeline, m: Model)
    requires t.Untied()
    ensures CanPlace(t, m, {}, m.Init(), |t.ops|) <==> HasLinearization(m, t.ops)
  {
    if CanPlace(t, m, {}, m.Init(), |t.ops|) {
      var w := CanPlaceGivesOrder(t, m, {}, m.Init());
      NothingPlaced(t, w);
      assert IsLinearization(m, t.ops, w);
    }
    if HasLinearization(m, t.ops) {
      var w :| IsLinearization(m, t.ops, w);
      NothingPlaced(t, w);
      OrderGivesCanPlace(t, m, {}, m.Init(), w);
    }
  }
}
