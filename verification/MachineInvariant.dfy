/** Every iteration of the search keeps its invariant and makes progress. */
module MachineInvariant {
  import opened History
  import opened Model
  import opened Timeline
  import opened Machine

  lemma LevelDeepens(t: Timeline, m: Model, ids: seq<nat>, s: int, q: nat, d: int, d': int)
    requires t.Valid() && Level(t, m, ids, s, q, d) && d <= d'
    ensures Level(t, m, ids, s, q, d')
  {
    forall k | 0 <= k < q && t.Live(Placed(ids), k)
      ensures !t.order[k].isReturn && Refuted(t, m, Placed(ids), s, t.order[k].id, d')
    {
      assert Refuted(t, m, Placed(ids), s, t.order[k].id, d);
    }
  }

  lemma LevelAdvances(t: Timeline, m: Model, ids: seq<nat>, s: int, q: nat, depth: int)
    requires t.Valid() && Level(t, m, ids, s, q, depth) && q < |t.order|
    requires t.Live(Placed(ids), q) ==>
               !t.order[q].isReturn && Refuted(t, m, Placed(ids), s, t.order[q].id, depth)
    ensures Level(t, m, ids, s, t.NextLive(Placed(ids), q + 1), depth)
  {
    hide Refuted, After, Timeline.NextLive;
    var placed := Placed(ids);
    forall k | 0 <= k < t.NextLive(placed, q + 1) && t.Live(placed, k)
      ensures !t.order[k].isReturn && Refuted(t, m, placed, s, t.order[k].id, depth)
    {
      assert k <= q;
    }
  }

  lemma AccountedDeepens(t: Timeline, m: Model, calls: seq<Frame>, c: (set<nat>, int), d: int, d': int)
    requires Accounted(t, m, calls, c, d) && d <= d'
    ensures Accounted(t, m, calls, c, d')
  {
  }

  /** The entry at hand can come next. */
  lemma CallIsMinimal(t: Timeline, m: Model, s: Search)
    requires Inv(t, m, s) && s.pos < |t.order| && !t.order[s.pos].isReturn
    ensures t.Minimal(s.Done(), t.order[s.pos].id)
  {
    t.EarlyIsMinimal(s.Done(), s.pos);
  }

  lemma AfterRefusal(t: Timeline, m: Model, s: Search)
    requires Inv(t, m, s) && s.pos < |t.order| && !t.order[s.pos].isReturn
    requires !m.Step(s.state, t.order[s.pos].op).1
    ensures Inv(t, m, Next(t, m, s))
  {
    var s' := Next(t, m, s);
    var d, d' := s.Depth(), s'.Depth();
    CallIsMinimal(t, m, s);
    AfterFacts(t, m, Ids(s.calls));
    LevelDeepens(t, m, Ids(s.calls), s.state, s.pos, d, d');
    LevelAdvances(t, m, Ids(s.calls), s.state, s.pos, d');
    forall j | 0 <= j < |s.calls| ensures Holds(t, m, s.calls, j, d') {
      assert Holds(t, m, s.calls, j, d);
      LevelDeepens(t, m, Ids(s.calls[..j]), s.calls[j].state, t.callAt[s.calls[j].id], d, d');
    }
    forall c | c in s.seen ensures Accounted(t, m, s.calls, c, d') {
      AccountedDeepens(t, m, s.calls, c, d, d');
    }
  }

  /** A remembered configuration one operation larger than the present one is not
      on the stack, so it is exhausted: no continuation of it goes deeper than what is
      recorded. */
  lemma RememberedIsExhausted(t: Timeline, m: Model, s: Search, c: (set<nat>, int))
    requires Inv(t, m, s) && c in s.seen && |c.0| == |s.calls| + 1
    ensures Dead(t, m, c.0, c.1, s.Depth())
  {
    assert Accounted(t, m, s.calls, c, s.Depth());
    if !Dead(t, m, c.0, c.1, s.Depth()) {
      var j: nat :| AtHeight(t, m, s.calls, c, j);
      AfterFacts(t, m, Ids(s.calls[..j]));
      assert false;
    }
  }

  /** Where an operation has been refused, not all of them are placed. */
  lemma DepthIsPartial(t: Timeline, m: Model, s: Search)
    requires Inv(t, m, s)
    ensures t.ops != [] ==> s.Depth() < |t.ops|
  {
    if s.best.Some? {
      AfterFacts(t, m, s.best.value.ids);
      Room(t, Placed(s.best.value.ids), s.best.value.culprit);
    }
  }

  /** The prune is sound: a branch that is abandoned because its configuration is
      remembered goes no deeper than what is recorded, and cannot be completed. */
  lemma PruneIsSound(t: Timeline, m: Model, s: Search, c: (set<nat>, int))
    requires Inv(t, m, s) && c in s.seen && |c.0| == |s.calls| + 1
    ensures Dead(t, m, c.0, c.1, s.Depth())
    ensures t.ops != [] ==> !CanPlace(t, m, c.0, c.1, |t.ops|)
  {
    RememberedIsExhausted(t, m, s, c);
    DepthIsPartial(t, m, s);
    hide Inv, CanPlace;
  }

  lemma AfterPrune(t: Timeline, m: Model, s: Search)
    requires Inv(t, m, s) && s.pos < |t.order| && !t.order[s.pos].isReturn
    requires m.Step(s.state, t.order[s.pos].op).1
    requires (s.Done() + {t.order[s.pos].id}, m.Step(s.state, t.order[s.pos].op).0) in s.seen
    ensures Inv(t, m, Next(t, m, s))
  {
    var e := t.order[s.pos];
    AfterFacts(t, m, Ids(s.calls));
    PruneIsSound(t, m, s, (s.Done() + {e.id}, m.Step(s.state, e.op).0));
    LevelAdvances(t, m, Ids(s.calls), s.state, s.pos, s.Depth());
  }

  lemma IdsPush(calls: seq<Frame>, f: Frame)
    ensures Ids(calls + [f]) == Ids(calls) + [f.id]
  {
  }

  lemma PrefixOfPush(calls: seq<Frame>, f: Frame, j: nat)
    requires j <= |calls|
    ensures (calls + [f])[..j] == calls[..j]
  {
  }

  lemma PrefixOfPop(calls: seq<Frame>, j: nat)
    requires j < |calls|
    ensures calls[..|calls| - 1][..j] == calls[..j]
  {
  }

  lemma IdsPop(calls: seq<Frame>)
    requires calls != []
    ensures Ids(calls[..|calls| - 1]) == Ids(calls)[..|calls| - 1]
  {
  }

  /** Heights survive a push, and those below the top survive a pop. */
  lemma AccountedAfterPush(t: Timeline, m: Model, calls: seq<Frame>, f: Frame, c: (set<nat>, int), depth: int)
    requires Accounted(t, m, calls, c, depth)
    ensures Accounted(t, m, calls + [f], c, depth)
  {
    if !Dead(t, m, c.0, c.1, depth) {
      var j: nat :| AtHeight(t, m, calls, c, j);
      PrefixOfPush(calls, f, j);
      assert AtHeight(t, m, calls + [f], c, j);
    }
  }

  lemma AccountedAfterPop(t: Timeline, m: Model, calls: seq<Frame>, s: int, c: (set<nat>, int), depth: int)
    requires Accounted(t, m, calls, c, depth) && calls != []
    requires After(t, m, Ids(calls)) == Some(s) && Dead(t, m, Placed(Ids(calls)), s, depth)
    ensures Accounted(t, m, calls[..|calls| - 1], c, depth)
  {
    assert calls[..|calls|] == calls;
    if !Dead(t, m, c.0, c.1, depth) {
      var j: nat :| AtHeight(t, m, calls, c, j);
      assert j < |calls|;
      PrefixOfPop(calls, j);
      assert AtHeight(t, m, calls[..|calls| - 1], c, j);
    }
  }

  /** The configuration just pushed is a configuration of the history, and on the stack. */
  lemma Pushed(t: Timeline, m: Model, calls: seq<Frame>, s: int, i: nat)
    requires After(t, m, Ids(calls)) == Some(s)
    requires t.Minimal(Placed(Ids(calls)), i) && m.Step(s, t.ops[i]).1
    ensures var c := (Placed(Ids(calls)) + {i}, m.Step(s, t.ops[i]).0);
            && After(t, m, Ids(calls + [Frame(i, s)])) == Some(c.1)
            && Placed(Ids(calls + [Frame(i, s)])) == c.0
            && c in Universe(t, m)
            && AtHeight(t, m, calls + [Frame(i, s)], c, |calls| + 1)
  {
    var ids := Ids(calls);
    IdsPush(calls, Frame(i, s));
    PlacedSnoc(ids, i);
    AfterSnoc(t, m, ids, i, s);
    AfterFacts(t, m, ids + [i]);
    var c := (Placed(ids) + {i}, m.Step(s, t.ops[i]).0);
    assert c in Universe(t, m);
    assert (calls + [Frame(i, s)])[..|calls| + 1] == calls + [Frame(i, s)];
  }

  lemma StackAfterPush(t: Timeline, m: Model, calls: seq<Frame>, s: int, i: nat, next: int, depth: int)
    requires t.Valid() && i < |t.ops| && Stack(t, m, calls, s, t.callAt[i], depth)
    requires After(t, m, Ids(calls + [Frame(i, s)])) == Some(next)
    ensures Stack(t, m, calls + [Frame(i, s)], next, 0, depth)
  {
    forall j | 0 <= j < |calls + [Frame(i, s)]| ensures Holds(t, m, calls + [Frame(i, s)], j, depth) {
      PrefixOfPush(calls, Frame(i, s), j);
      if j == |calls| {
        assert calls[..j] == calls;
      } else {
        assert Holds(t, m, calls, j, depth);
      }
    }
  }

  lemma AfterPlacing(t: Timeline, m: Model, s: Search)
    requires Inv(t, m, s) && s.pos < |t.order| && !t.order[s.pos].isReturn
    requires m.Step(s.state, t.order[s.pos].op).1
    requires (s.Done() + {t.order[s.pos].id}, m.Step(s.state, t.order[s.pos].op).0) !in s.seen
    ensures Inv(t, m, Next(t, m, s))
    ensures Next(t, m, s).seen > s.seen
  {
    var s' := Next(t, m, s);
    var e := t.order[s.pos];
    var f := Frame(e.id, s.state);
    CallIsMinimal(t, m, s);
    Pushed(t, m, s.calls, s.state, e.id);
    var c := (s.Done() + {e.id}, s'.state);
    assert Memory(t, m, s') by {
      forall b | b in s'.seen ensures Accounted(t, m, s'.calls, b, s'.Depth()) {
        if b in s.seen { AccountedAfterPush(t, m, s.calls, f, b, s.Depth()); }
      }
    }
    StackAfterPush(t, m, s.calls, s.state, e.id, s'.state, s.Depth());
  }

  /** Taking back the last call: the configuration it led to is exhausted. */
  lemma TopIsRefuted(t: Timeline, m: Model, s: Search)
    requires Inv(t, m, s) && s.pos < |t.order| && t.order[s.pos].isReturn && s.calls != []
    ensures Dead(t, m, s.Done(), s.state, s.Depth())
    ensures var top := s.calls[|s.calls| - 1];
            && top.id < |t.ops|
            && Refuted(t, m, Placed(Ids(s.calls[..|s.calls| - 1])), top.state, top.id, s.Depth())
  {
    var ids := Ids(s.calls);
    var top := s.calls[|s.calls| - 1];
    var pre := ids[..|ids| - 1];
    SweptIsDead(t, m, ids, s.state, s.pos, s.Depth());
    IdsPop(s.calls);
    assert Holds(t, m, s.calls, |s.calls| - 1, s.Depth());
    AfterLast(t, m, ids);
  }

  lemma LevelTakesBack(t: Timeline, m: Model, pre: seq<nat>, s: int, i: nat, depth: int)
    requires t.Valid() && i < |t.ops| && Level(t, m, pre, s, t.callAt[i], depth)
    requires Refuted(t, m, Placed(pre), s, i, depth)
    ensures Level(t, m, pre, s, t.NextLive(Placed(pre), t.callAt[i] + 1), depth)
  {
    assert t.order[t.callAt[i]] == End(t.ops[i], i, false);
    LevelAdvances(t, m, pre, s, t.callAt[i], depth);
  }

  lemma StackAfterPop(t: Timeline, m: Model, calls: seq<Frame>, s: int, k: nat, depth: int)
    requires t.Valid() && calls != [] && Stack(t, m, calls, s, k, depth)
    requires var top := calls[|calls| - 1];
             && top.id < |t.ops|
             && Refuted(t, m, Placed(Ids(calls[..|calls| - 1])), top.state, top.id, depth)
    ensures var pre, top := calls[..|calls| - 1], calls[|calls| - 1];
            Stack(t, m, pre, top.state, t.NextLive(Placed(Ids(pre)), t.callAt[top.id] + 1), depth)
  {
    var pre, top := calls[..|calls| - 1], calls[|calls| - 1];
    assert Holds(t, m, calls, |calls| - 1, depth);
    LevelTakesBack(t, m, Ids(pre), top.state, top.id, depth);
    forall j | 0 <= j < |pre| ensures Holds(t, m, pre, j, depth) {
      PrefixOfPop(calls, j);
      assert Holds(t, m, calls, j, depth);
    }
  }

  lemma AfterBacktrack(t: Timeline, m: Model, s: Search)
    requires Inv(t, m, s) && s.pos < |t.order| && t.order[s.pos].isReturn && s.calls != []
    ensures Inv(t, m, Next(t, m, s))
  {
    var s' := Next(t, m, s);
    TopIsRefuted(t, m, s);
    StackAfterPop(t, m, s.calls, s.state, s.pos, s.Depth());
    assert Memory(t, m, s') by {
      forall c | c in s.seen ensures Accounted(t, m, s'.calls, c, s.Depth()) {
        AccountedAfterPop(t, m, s.calls, s.state, c, s.Depth());
      }
    }
  }

  /** The invariant is kept by every iteration. */
  lemma Preserved(t: Timeline, m: Model, s: Search)
    requires Inv(t, m, s) && s.pos < |t.order| && !Stuck(t, s)
    ensures Inv(t, m, Next(t, m, s))
  {
    var e := t.order[s.pos];
    if e.isReturn {
      AfterBacktrack(t, m, s);
    } else if !m.Step(s.state, e.op).1 {
      AfterRefusal(t, m, s);
    } else if (s.Done() + {e.id}, m.Step(s.state, e.op).0) in s.seen {
      AfterPrune(t, m, s);
    } else {
      AfterPlacing(t, m, s);
    }
  }

  lemma Established(t: Timeline, m: Model)
    requires t.Valid()
    ensures Inv(t, m, Start(t, m))
  {
    assert Placed(Ids([])) == {};
  }

  /** The walk never runs off the end of the list while an operation remains. */
  lemma NeverOffTheEnd(t: Timeline, m: Model, s: Search)
    requires Inv(t, m, s) && !Complete(t, s)
    ensures t.Valid() && s.pos < |t.order|
    ensures s.calls != [] ==> s.calls[|s.calls| - 1].id < |t.ops|
  {
    assert s.calls != [] ==> Holds(t, m, s.calls, |s.calls| - 1, s.Depth());
    var k := t.NextLive(s.Done(), 0);
    var r := t.retAt[t.order[k].id];
    assert t.Live(s.Done(), r) && t.order[r].isReturn;
  }

  /** What is left to do: configurations not yet remembered, then the height of
      the stack, then the rest of the list. */
  ghost function Unexplored(t: Timeline, m: Model, s: Search): nat {
    if |s.seen| <= |Universe(t, m)| then |Universe(t, m)| - |s.seen| else 0
  }

  lemma Progress(t: Timeline, m: Model, s: Search)
    requires Inv(t, m, s) && s.pos < |t.order| && !Stuck(t, s)
    ensures var s' := Next(t, m, s);
            || Unexplored(t, m, s') < Unexplored(t, m, s)
            || (s'.seen == s.seen && |s'.calls| < |s.calls|)
            || (s'.seen == s.seen && |s'.calls| == |s.calls| && s.pos < s'.pos <= |t.order|)
  {
    hide *;
    var s' := Next(t, m, s);
    Preserved(t, m, s);
    Bounds(t, m, s);
    Bounds(t, m, s');
    ProgressOfNext(t, m, s);
    FewerUnexplored(t, m, s, s');
  }

  lemma Bounds(t: Timeline, m: Model, s: Search)
    requires Inv(t, m, s)
    ensures t.Valid() && |s.seen| <= |Universe(t, m)|
    ensures s.calls != [] ==> s.calls[|s.calls| - 1].id < |t.ops|
  {
    Subset(s.seen, Universe(t, m));
    assert s.calls != [] ==> Holds(t, m, s.calls, |s.calls| - 1, s.Depth());
    hide Universe, Level, Accounted;
  }

  lemma FewerUnexplored(t: Timeline, m: Model, s: Search, s': Search)
    requires |s'.seen| <= |Universe(t, m)|
    ensures |s'.seen| == |s.seen| + 1 ==> Unexplored(t, m, s') < Unexplored(t, m, s)
  {
    hide Universe;
  }

  lemma ProgressOfNext(t: Timeline, m: Model, s: Search)
    requires t.Valid() && s.pos < |t.order| && !Stuck(t, s)
    requires s.calls != [] ==> s.calls[|s.calls| - 1].id < |t.ops|
    ensures var s' := Next(t, m, s);
            || |s'.seen| == |s.seen| + 1
            || (s'.seen == s.seen && |s'.calls| < |s.calls|)
            || (s'.seen == s.seen && |s'.calls| == |s.calls| && s.pos < s'.pos <= |t.order|)
  {
    if t.order[s.pos].isReturn {
      ProgressAtReturn(t, m, s);
    } else {
      ProgressAtCall(t, m, s);
    }
    hide *;
  }

  lemma ProgressAtReturn(t: Timeline, m: Model, s: Search)
    requires s.pos < |t.order| && !Stuck(t, s) && t.order[s.pos].isReturn
    ensures Next(t, m, s).seen == s.seen && |Next(t, m, s).calls| < |s.calls|
  {
    hide Timeline.NextLive, Ids, Placed;
  }

  lemma ProgressAtCall(t: Timeline, m: Model, s: Search)
    requires s.pos < |t.order| && !t.order[s.pos].isReturn
    ensures var s' := Next(t, m, s);
            || |s'.seen| == |s.seen| + 1
            || (s'.seen == s.seen && |s'.calls| == |s.calls| && s.pos < s'.pos <= |t.order|)
  {
    hide Timeline.NextLive, Ids, Placed;
  }
}
