/** What the answers of the search mean. */
module SearchTheorems {
  import opened History
  import opened Model
  import opened Linearization
  import opened Timeline
  import opened Machine
  import opened MachineInvariant
  import opened MachineResult
  import opened Verdicts

  lemma CompleteMeansAll(t: Timeline, s: Search)
    requires t.Valid() && Complete(t, s)
    ensures AllIds(t) <= s.Done()
  {
    forall i | i in AllIds(t) ensures i in s.Done() {
      assert !t.Live(s.Done(), t.callAt[i]);
    }
  }

  lemma RealTimeSnoc(w: seq<Op>, a: Op)
    requires RespectsRealTime(w) && forall b :: b in w ==> !a.Precedes(b)
    ensures RespectsRealTime(w + [a])
  {
  }

  lemma FinalSnoc(m: Model, s: int, w: seq<Op>, a: Op)
    requires Final(m, s, w).Some? && m.Step(Final(m, s, w).value, a).1
    ensures Final(m, s, w + [a]) == Some(m.Step(Final(m, s, w).value, a).0)
  {
    FinalAppend(m, s, w, [a]);
    assert Final(m, Final(m, s, w).value, [a]) == Some(m.Step(Final(m, s, w).value, a).0);
  }

  /** A legal partial order, as a sequence of operations. */
  lemma {:induction false} AfterGivesOrder(t: Timeline, m: Model, ids: seq<nat>) returns (w: seq<Op>)
    requires t.Untied() && After(t, m, ids).Some?
    ensures Final(m, m.Init(), w) == After(t, m, ids)
    ensures RespectsRealTime(w)
    ensures forall o :: multiset(w)[o] + Left(t.ops, Placed(ids), 0, o) == Left(t.ops, {}, 0, o)
    ensures forall i, b :: 0 <= i < |t.ops| && i !in Placed(ids) && b in w ==> !t.ops[i].Precedes(b)
  {
    if ids == [] {
      w := [];
      assert Placed(ids) == {};
    } else {
      var pre, last := ids[..|ids| - 1], ids[|ids| - 1];
      AfterLast(t, m, ids);
      var v := AfterGivesOrder(t, m, pre);
      w := v + [t.ops[last]];
      RealTimeSnoc(v, t.ops[last]);
      FinalSnoc(m, m.Init(), v, t.ops[last]);
      forall o ensures multiset(w)[o] + Left(t.ops, Placed(ids), 0, o) == Left(t.ops, {}, 0, o) {
        LeftWithout(t.ops, Placed(pre), 0, last, o);
      }
      forall i | 0 <= i < |t.ops| && i !in Placed(ids) ensures !t.ops[i].Precedes(t.ops[last]) {
        assert i !in Placed(pre) && i != last && !t.Before(i, last);
        t.UntiedIsRealTime(i, last);
      }
    }
  }

  /** When the search passes a history, the order in which it placed the
      operations is a linearization, and it ends in the state reported. */
  lemma PassHasWitness(t: Timeline, m: Model, opt: Options, late: Clock) returns (w: seq<Op>)
    requires t.Valid() && t.Untied() && RunFromStart(t, m, opt, late).verdict == Verdict.Linearizable
    ensures IsLinearization(m, t.ops, w)
    ensures Final(m, m.Init(), w) == Some(RunFromStart(t, m, opt, late).last.state)
  {
    var s := RunFromStart(t, m, opt, late).last;
    Established(t, m);
    RunKeepsInv(t, m, opt, late, Start(t, m), 0);
    CompleteMeansAll(t, s);
    w := AfterGivesOrder(t, m, Ids(s.calls));
    forall o ensures multiset(w)[o] == multiset(t.ops)[o] {
      LeftOfAll(t.ops, s.Done(), 0, o);
      LeftOfNone(t.ops, 0, o);
      assert t.ops[0..] == t.ops;
    }
    assert multiset(w) == multiset(t.ops);
  }

  /** A legal partial order is one way to place that many operations. */
  lemma {:induction false} AfterCanPlace(t: Timeline, m: Model, ids: seq<nat>, d: nat)
    requires After(t, m, ids).Some? && |ids| <= d
    requires CanPlace(t, m, Placed(ids), After(t, m, ids).value, d)
    ensures CanPlace(t, m, {}, m.Init(), d)
    decreases |ids|
  {
    if ids == [] {
      assert Placed(ids) == {};
    } else {
      AfterLast(t, m, ids);
      AfterCount(t, m, ids);
      AfterCount(t, m, ids[..|ids| - 1]);
      AfterCanPlace(t, m, ids[..|ids| - 1], d);
    }
  }

  /** A search that gives up with nothing to take back has exhausted everything. */
  lemma StuckIsExhaustive(t: Timeline, m: Model, s: Search)
    requires Inv(t, m, s) && Stuck(t, s)
    ensures Dead(t, m, {}, m.Init(), s.Depth())
    ensures s.Depth() >= 0
  {
    assert Placed(Ids(s.calls)) == {};
    SweptIsDead(t, m, Ids(s.calls), s.state, s.pos, s.Depth());
    assert CanPlace(t, m, {}, m.Init(), 0);
  }

  /** No legal partial order places more operations than the recorded depth. */
  lemma NothingDeeper(t: Timeline, m: Model, depth: int, ids: seq<nat>)
    requires Dead(t, m, {}, m.Init(), depth) && After(t, m, ids).Some?
    ensures |ids| <= depth
  {
    AfterCount(t, m, ids);
    assert CanPlace(t, m, Placed(ids), After(t, m, ids).value, |ids|);
    AfterCanPlace(t, m, ids, |ids|);
  }

  /** When the search refuses a history, it names a culprit: no legal partial
      order places more operations than the one at which it was refused, the
      culprit could come next there, and the model rejects it in the state
      recorded. */
  lemma CulpritIsMaximal(t: Timeline, m: Model, opt: Options, late: Clock)
    requires t.Valid() && RunFromStart(t, m, opt, late).verdict == Verdict.NotLinearizable
    ensures var best := RunFromStart(t, m, opt, late).last.best;
            && best.Some?
            && var b := best.value;
            && After(t, m, b.ids) == Some(b.state)
            && t.Minimal(Placed(b.ids), b.culprit)
            && !m.Step(b.state, t.ops[b.culprit]).1
            && |b.ids| < |t.ops|
            && forall ids :: After(t, m, ids).Some? ==> |ids| <= |b.ids|
  {
    var s := RunFromStart(t, m, opt, late).last;
    Established(t, m);
    RunKeepsInv(t, m, opt, late, Start(t, m), 0);
    StuckIsExhaustive(t, m, s);
    var b := s.best.value;
    AfterCount(t, m, b.ids);
    Room(t, Placed(b.ids), b.culprit);
    forall ids | After(t, m, ids).Some? ensures |ids| <= |b.ids| {
      NothingDeeper(t, m, s.Depth(), ids);
    }
  }

  /** No order of operations two of which precede each other respects real time. */
  lemma TiedHasNone(t: Timeline, m: Model)
    requires !t.Untied()
    ensures !HasLinearization(m, t.ops)
  {
    var i, j :| 0 <= i < j < |t.ops| && Colliding(t.ops[i], t.ops[j]);
    CollisionRefutes(m, t.ops, i, j);
  }

  /** The search is exact: a refusal is true, whatever the budget, a pass is true
      exactly when no two operations precede each other, and without a budget it is
      always one or the other. */
  lemma SearchIsExact(t: Timeline, m: Model, opt: Options, late: Clock)
    requires t.Valid()
    ensures var v := RunFromStart(t, m, opt, late).verdict;
            && (v == Verdict.Linearizable ==> (HasLinearization(m, t.ops) <==> t.Untied()))
            && (v == Verdict.NotLinearizable ==> !HasLinearization(m, t.ops))
            && (opt.Unlimited() ==> v != Verdict.Unknown)
  {
    var o := RunFromStart(t, m, opt, late);
    Established(t, m);
    RunKeepsInv(t, m, opt, late, Start(t, m), 0);
    if !t.Untied() {
      TiedHasNone(t, m);
    } else {
      if o.verdict == Verdict.Linearizable {
        var w := PassHasWitness(t, m, opt, late);
      }
      if o.verdict == Verdict.NotLinearizable {
        StuckIsExhaustive(t, m, o.last);
        CulpritIsMaximal(t, m, opt, late);
        CanPlaceAllIff(t, m);
      }
    }
  }

  // ----- Budgets

  /** The same limits, but for a larger budget of transitions, or none. */
  predicate Roomier(a: Options, b: Options) {
    && b == a.(maxVisits := b.maxVisits)
    && (b.maxVisits <= 0 || 0 < a.maxVisits <= b.maxVisits)
  }

  lemma RoomierSpendsLater(t: Timeline, a: Options, b: Options, late: Clock, s: Search, k: nat)
    requires Roomier(a, b)
    ensures Spent(t, b, late, s, k) ==> Spent(t, a, late, s, k)
    ensures Spent(t, a, late, s, k) && !Spent(t, b, late, s, k) ==> 0 < a.maxVisits <= s.visits
  {
  }

  /** Raising the budget of transitions never loses or flips a decisive verdict,
      and changes nothing about a run that the budget did not stop. */
  lemma {:induction false} MoreVisitsNeverLose(t: Timeline, m: Model, a: Options, b: Options, late: Clock,
                                               s: Search, k: nat)
    requires Inv(t, m, s) && Roomier(a, b)
    requires var o := Run(t, m, a, late, s, k);
             o.verdict != Verdict.Unknown || o.last.visits < a.maxVisits
    ensures Run(t, m, b, late, s, k) == Run(t, m, a, late, s, k)
    decreases Unexplored(t, m, s), |s.calls|, |t.order| - s.pos
  {
    RoomierSpendsLater(t, a, b, late, s, k);
    hide Inv, Complete, Spent, Next, Stuck, Roomier;
    if !Complete(t, s) {
      NeverOffTheEnd(t, m, s);
      if !Stuck(t, s) {
        Preserved(t, m, s);
        Progress(t, m, s);
        if !Spent(t, a, late, s, k) {
          MoreVisitsNeverLose(t, m, a, b, late, Next(t, m, s), k + 1);
        }
      }
    }
  }

  lemma RunMonotone(t: Timeline, m: Model, a: Options, b: Options, late: Clock)
    requires t.Valid() && Roomier(a, b)
    requires var o := RunFromStart(t, m, a, late);
             o.verdict != Verdict.Unknown || o.last.visits < a.maxVisits
    ensures RunFromStart(t, m, b, late) == RunFromStart(t, m, a, late)
  {
    Established(t, m);
    MoreVisitsNeverLose(t, m, a, b, late, Start(t, m), 0);
  }

  /** Without a deadline the clock is never asked. */
  lemma {:induction false} RunIgnoresClock(t: Timeline, m: Model, opt: Options, a: Clock, b: Clock, s: Search, k: nat)
    requires Inv(t, m, s) && !opt.timeout
    ensures Run(t, m, opt, a, s, k) == Run(t, m, opt, b, s, k)
    decreases Unexplored(t, m, s), |s.calls|, |t.order| - s.pos
  {
    if !Complete(t, s) && !Spent(t, opt, a, s, k) {
      NeverOffTheEnd(t, m, s);
      if !Stuck(t, s) {
        Preserved(t, m, s);
        Progress(t, m, s);
        hide Inv, Complete, Next, Stuck;
        RunIgnoresClock(t, m, opt, a, b, Next(t, m, s), k + 1);
      }
    }
  }

  /** One more iteration costs at most one transition and one entry. */
  lemma NextCosts(t: Timeline, m: Model, s: Search)
    requires t.Valid() && s.pos < |t.order| && !Stuck(t, s)
    requires s.calls != [] ==> s.calls[|s.calls| - 1].id < |t.ops|
    ensures var s' := Next(t, m, s);
            && s'.visits == s.visits + (if t.order[s.pos].isReturn then 0 else 1)
            && |s'.seen| <= |s.seen| + s'.visits - s.visits
  {
    ProgressOfNext(t, m, s);
  }

  /** The search never exceeds its budget of transitions, and what it remembers
      stays below the ceiling plus one entry. */
  lemma {:induction false} WithinBudget(t: Timeline, m: Model, opt: Options, late: Clock, s: Search, k: nat)
    requires Inv(t, m, s)
    requires opt.maxVisits > 0 ==> s.visits <= opt.maxVisits
    requires opt.maxCacheBytes > 0 ==> |s.seen| * EntryBytes(|t.ops|) < opt.maxCacheBytes + EntryBytes(|t.ops|)
    ensures var r := Run(t, m, opt, late, s, k).last;
            && (opt.maxVisits > 0 ==> r.visits <= opt.maxVisits)
            && (opt.maxCacheBytes > 0 ==>
                  |r.seen| * EntryBytes(|t.ops|) < opt.maxCacheBytes + EntryBytes(|t.ops|))
    decreases Unexplored(t, m, s), |s.calls|, |t.order| - s.pos
  {
    if !Complete(t, s) && !Spent(t, opt, late, s, k) {
      NeverOffTheEnd(t, m, s);
      if !Stuck(t, s) {
        Preserved(t, m, s);
        Progress(t, m, s);
        NextCosts(t, m, s);
        Scaled(|Next(t, m, s).seen|, |s.seen| + 1, EntryBytes(|t.ops|));
        hide Inv, Complete, Next, Stuck;
        WithinBudget(t, m, opt, late, Next(t, m, s), k + 1);
      }
    }
  }

  /** A search that starts afresh never remembers more than the ceiling plus one entry. */
  lemma RemembersWithinCeiling(t: Timeline, m: Model, opt: Options, late: Clock)
    requires t.Valid() && opt.maxCacheBytes > 0
    ensures |RunFromStart(t, m, opt, late).last.seen| * EntryBytes(|t.ops|) < opt.maxCacheBytes + EntryBytes(|t.ops|)
  {
    Established(t, m);
    assert Start(t, m).visits == 0 && Start(t, m).seen == {};
    assert EntryBytes(|t.ops|) > 0;
    hide Inv, Run, Start;
    WithinBudget(t, m, opt, late, Start(t, m), 0);
  }

  lemma SpentMeansRanOut(t: Timeline, opt: Options, late: Clock, s: Search, k: nat)
    requires Spent(t, opt, late, s, k)
    ensures RanOut(opt, late, s.visits, |s.seen| * EntryBytes(|t.ops|))
  {
  }

  /** The search gives up only when a limit was reached, and then it has not remembered
      more than one configuration for each transition. */
  lemma {:induction false} UnknownIsEarned(t: Timeline, m: Model, opt: Options, late: Clock, s: Search, k: nat)
    requires Inv(t, m, s) && |s.seen| <= s.visits
    ensures var o := Run(t, m, opt, late, s, k);
            && |o.last.seen| <= o.last.visits
            && (o.verdict == Verdict.Unknown ==>
                  RanOut(opt, late, o.last.visits, |o.last.seen| * EntryBytes(|t.ops|)))
    decreases Unexplored(t, m, s), |s.calls|, |t.order| - s.pos
  {
    hide Inv, Complete, Next, Stuck, Spent, RanOut;
    if Complete(t, s) {
    } else if Spent(t, opt, late, s, k) {
      SpentMeansRanOut(t, opt, late, s, k);
    } else {
      NeverOffTheEnd(t, m, s);
      if !Stuck(t, s) {
        Preserved(t, m, s);
        Progress(t, m, s);
        NextCostsHere(t, m, s);
        UnknownIsEarned(t, m, opt, late, Next(t, m, s), k + 1);
      }
    }
  }

  lemma NextCostsHere(t: Timeline, m: Model, s: Search)
    requires Inv(t, m, s) && s.pos < |t.order| && !Stuck(t, s)
    ensures |Next(t, m, s).seen| - |s.seen| <= Next(t, m, s).visits - s.visits <= 1
  {
    NextCosts(t, m, s);
  }

  /** A search that reaches a verdict has found the clock in time whenever it was read: it
      makes at most one transition between one iteration and the next. */
  lemma {:induction false} DecidedInTime(t: Timeline, m: Model, opt: Options, late: Clock, s: Search, k: nat, i: nat)
    requires Inv(t, m, s) && opt.timeout && k <= i && i % 4096 == 0
    ensures var o := Run(t, m, opt, late, s, k);
            o.verdict != Verdict.Unknown && i - k < o.last.visits - s.visits ==> !late(i)
    decreases Unexplored(t, m, s), |s.calls|, |t.order| - s.pos
  {
    hide Inv, Complete, Next, Stuck, Spent;
    if !Complete(t, s) {
      if i == k && late(i) { LateIsSpent(t, opt, late, s, i); }
      if !Spent(t, opt, late, s, k) {
        NeverOffTheEnd(t, m, s);
        if !Stuck(t, s) {
          Preserved(t, m, s);
          Progress(t, m, s);
          NextCostsHere(t, m, s);
          if k < i { DecidedInTime(t, m, opt, late, Next(t, m, s), k + 1, i); }
        }
      }
    }
  }

  lemma LateIsSpent(t: Timeline, opt: Options, late: Clock, s: Search, k: nat)
    requires opt.timeout && late(k) && k % 4096 == 0
    ensures Spent(t, opt, late, s, k)
  {
  }

  /** Of the refusals at the greatest depth it is the first that is kept. */
  lemma {:induction false} FirstDeepestIsKept(t: Timeline, m: Model, opt: Options, late: Clock, s: Search, k: nat)
    requires Inv(t, m, s)
    ensures var r := Run(t, m, opt, late, s, k).last;
            s.Depth() <= r.Depth() && (s.Depth() == r.Depth() ==> r.best == s.best)
    decreases Unexplored(t, m, s), |s.calls|, |t.order| - s.pos
  {
    hide Inv, Complete, Next, Stuck, Spent;
    if !Complete(t, s) && !Spent(t, opt, late, s, k) {
      NeverOffTheEnd(t, m, s);
      if !Stuck(t, s) {
        Preserved(t, m, s);
        Progress(t, m, s);
        OnlyDeeperReplaces(t, m, s);
        FirstDeepestIsKept(t, m, opt, late, Next(t, m, s), k + 1);
      }
    }
  }

  /** A refusal is recorded if none as deep was before, and nothing else ever is. */
  lemma OnlyDeeperReplaces(t: Timeline, m: Model, s: Search)
    requires s.pos < |t.order| && !Stuck(t, s)
    ensures var e, s' := t.order[s.pos], Next(t, m, s);
            if !e.isReturn && !m.Step(s.state, e.op).1 && |s.calls| > s.Depth()
            then s'.best == Some(Best(Ids(s.calls), s.state, e.id)) && s'.Depth() == |s.calls|
            else s'.best == s.best
  {
  }

  lemma Scaled(a: nat, b: nat, c: nat)
    requires a <= b
    ensures a * c <= b * c
    ensures b > 0 ==> b * c == (b - 1) * c + c
  {
  }
}
