/** How much work an unbudgeted search can do. */
module SearchCost {
  import opened History
  import opened Model
  import opened Timeline
  import opened Machine
  import opened MachineInvariant
  import opened MachineResult
  import opened Verdicts

  /** The operations called before position `q`. */
  ghost function Tried(t: Timeline, q: nat): (r: set<nat>)
    requires t.Valid()
    ensures r <= AllIds(t) && |r| <= |t.ops|
  {
    var r := set i | i in AllIds(t) && t.callAt[i] < q;
    Subset(r, AllIds(t));
    r
  }

  /** The calls still to be tried at the levels below the top of the stack. */
  ghost function Untried(t: Timeline, calls: seq<Frame>): nat
    requires t.Valid() && forall f :: f in calls ==> f.id < |t.ops|
  {
    if calls == [] then 0
    else
      Untried(t, calls[..|calls| - 1]) + |t.ops| - |Tried(t, t.callAt[calls[|calls| - 1].id] + 1)|
  }

  function Allowance(n: nat, remembered: nat): nat { n * (1 + remembered) }

  /** Every configuration pays for one attempt at each operation. */
  ghost predicate PaidFor(t: Timeline, s: Search) {
    && t.Valid() && (forall f :: f in s.calls ==> f.id < |t.ops|)
    && s.visits + Untried(t, s.calls) + |t.ops| - |Tried(t, s.pos)| <= Allowance(|t.ops|, |s.seen|)
  }

  lemma TriedGrows(t: Timeline, q: nat, q': nat)
    requires t.Valid() && q <= q'
    ensures |Tried(t, q)| <= |Tried(t, q')|
    ensures q < q' && q < |t.order| && !t.order[q].isReturn ==> |Tried(t, q)| + 1 <= |Tried(t, q')|
  {
    Subset(Tried(t, q), Tried(t, q'));
    if q < q' && q < |t.order| && !t.order[q].isReturn {
      var i := t.order[q].id;
      assert t.callAt[i] == q;
      Subset(Tried(t, q) + {i}, Tried(t, q'));
    }
  }

  lemma StillPaidFor(t: Timeline, m: Model, s: Search)
    requires PaidFor(t, s) && s.pos < |t.order| && !Stuck(t, s)
    ensures PaidFor(t, Next(t, m, s))
  {
    NextShape(t, m, s);
    var e := t.order[s.pos];
    var s' := Next(t, m, s);
    hide Next, Stuck, Tried, Untried, Allowance;
    if e.isReturn {
      PaidForPop(t, s, s');
    } else if s'.calls == s.calls {
      TriedGrows(t, s.pos, s'.pos);
    } else {
      PaidForPush(t, s, Frame(e.id, s.state), s');
    }
  }

  lemma PaidForPop(t: Timeline, s: Search, s': Search)
    requires PaidFor(t, s) && s.calls != [] && s'.calls == s.calls[..|s.calls| - 1]
    requires s'.visits == s.visits && s'.seen == s.seen
    requires t.callAt[s.calls[|s.calls| - 1].id] < s'.pos
    ensures PaidFor(t, s')
  {
    hide *;
    PaidForIs(t, s);
    PaidAfterPop(t, s.calls);
    assert s.calls[|s.calls| - 1] in s.calls;
    CallIndexIs(t, s.calls[|s.calls| - 1]);
    TriedGrows(t, t.callAt[s.calls[|s.calls| - 1].id] + 1, s'.pos);
    TriedAtMost(t, s.pos);
    IsPaidFor(t, s');
  }

  lemma CallIndexIs(t: Timeline, f: Frame)
    requires t.Valid() && f.id < |t.ops|
    ensures f.id < |t.callAt| && 0 <= t.callAt[f.id] < |t.order|
  {
  }

  lemma PaidForPush(t: Timeline, s: Search, f: Frame, s': Search)
    requires PaidFor(t, s) && s.pos < |t.order| && !t.order[s.pos].isReturn
    requires f.id < |t.ops| && t.callAt[f.id] == s.pos
    requires s'.calls == s.calls + [f] && s'.visits == s.visits + 1 && |s'.seen| == |s.seen| + 1
    ensures PaidFor(t, s')
  {
    hide *;
    PaidForIs(t, s);
    PaidAfterPush(t, s.calls, f);
    TriedGrows(t, s.pos, s.pos + 1);
    TriedAtMost(t, s'.pos);
    Distribute(|t.ops|, |s.seen|);
    IsPaidFor(t, s');
  }

  lemma TriedAtMost(t: Timeline, q: nat)
    requires t.Valid()
    ensures 0 <= |Tried(t, q)| <= |t.ops|
  {
    hide Timeline.Valid;
  }

  lemma PaidForIs(t: Timeline, s: Search)
    requires PaidFor(t, s)
    ensures t.Valid() && forall f :: f in s.calls ==> f.id < |t.ops|
    ensures s.visits + Untried(t, s.calls) + |t.ops| - |Tried(t, s.pos)| <= Allowance(|t.ops|, |s.seen|)
  {
    hide Timeline.Valid, Tried, Untried, Allowance;
  }

  lemma IsPaidFor(t: Timeline, s: Search)
    requires t.Valid() && forall f :: f in s.calls ==> f.id < |t.ops|
    requires s.visits + Untried(t, s.calls) + |t.ops| - |Tried(t, s.pos)| <= Allowance(|t.ops|, |s.seen|)
    ensures PaidFor(t, s)
  {
    hide Timeline.Valid, Tried, Untried, Allowance;
  }

  /** What one iteration does to the counts. */
  lemma NextShape(t: Timeline, m: Model, s: Search)
    requires t.Valid() && s.pos < |t.order| && !Stuck(t, s) && forall f :: f in s.calls ==> f.id < |t.ops|
    ensures var s' := Next(t, m, s);
            var e := t.order[s.pos];
            if e.isReturn then
              && s.calls != [] && s'.calls == s.calls[..|s.calls| - 1]
              && s'.visits == s.visits && s'.seen == s.seen
              && t.callAt[s.calls[|s.calls| - 1].id] < s'.pos
            else
              && s'.visits == s.visits + 1 && e.id < |t.ops| && t.callAt[e.id] == s.pos
              && (if s'.calls == s.calls then s'.seen == s.seen && s.pos < s'.pos
                  else s'.calls == s.calls + [Frame(e.id, s.state)] && |s'.seen| == |s.seen| + 1)
  {
    ProgressOfNext(t, m, s);
  }

  lemma PaidAfterPop(t: Timeline, calls: seq<Frame>)
    requires t.Valid() && calls != [] && forall f :: f in calls ==> f.id < |t.ops|
    ensures forall f :: f in calls[..|calls| - 1] ==> f.id < |t.ops|
    ensures Untried(t, calls) == Untried(t, calls[..|calls| - 1])
              + |t.ops| - |Tried(t, t.callAt[calls[|calls| - 1].id] + 1)|
  {
    hide Tried, Timeline.Valid;
  }

  lemma PaidAfterPush(t: Timeline, calls: seq<Frame>, f: Frame)
    requires t.Valid() && f.id < |t.ops| && forall g :: g in calls ==> g.id < |t.ops|
    ensures forall g :: g in calls + [f] ==> g.id < |t.ops|
    ensures Untried(t, calls + [f]) == Untried(t, calls) + |t.ops| - |Tried(t, t.callAt[f.id] + 1)|
  {
    hide Tried, Timeline.Valid;
    var more := calls + [f];
    assert more[..|more| - 1] == calls && more[|more| - 1] == f;
  }

  lemma Distribute(n: nat, k: nat)
    ensures Allowance(n, k + 1) == Allowance(n, k) + n
  {
  }

  lemma {:induction false} RunIsPaidFor(t: Timeline, m: Model, opt: Options, late: Clock, s: Search, k: nat)
    requires Inv(t, m, s) && PaidFor(t, s)
    ensures PaidFor(t, Run(t, m, opt, late, s, k).last)
    decreases Unexplored(t, m, s), |s.calls|, |t.order| - s.pos
  {
    hide Inv, Complete, Next, Stuck, PaidFor, Spent;
    if !Complete(t, s) && !Spent(t, opt, late, s, k) {
      NeverOffTheEnd(t, m, s);
      if !Stuck(t, s) {
        Preserved(t, m, s);
        Progress(t, m, s);
        StillPaidFor(t, m, s);
        RunIsPaidFor(t, m, opt, late, Next(t, m, s), k + 1);
      }
    }
  }

  lemma StartIsPaidFor(t: Timeline, m: Model)
    requires t.Valid()
    ensures PaidFor(t, Start(t, m))
  {
  }

  lemma PaidForBounds(t: Timeline, s: Search)
    requires PaidFor(t, s)
    ensures s.visits <= |t.ops| * (1 + |s.seen|)
  {
  }

  /** The search attempts at most one transition per operation for the start and
      for each remembered configuration. */
  lemma VisitsAreBounded(t: Timeline, m: Model, opt: Options, late: Clock)
    requires t.Valid()
    ensures var s := RunFromStart(t, m, opt, late).last;
            s.visits <= |t.ops| * (1 + |s.seen|)
  {
    Established(t, m);
    StartIsPaidFor(t, m);
    hide Inv, Run, Start, PaidFor, Timeline.Valid;
    RunIsPaidFor(t, m, opt, late, Start(t, m), 0);
    PaidForBounds(t, RunFromStart(t, m, opt, late).last);
  }

  // ----- How many configurations there are

  lemma {:induction false} Injection<A, B>(a: set<A>, b: set<B>, f: A -> B)
    requires forall x :: x in a ==> f(x) in b
    requires forall x, y :: x in a && y in a && f(x) == f(y) ==> x == y
    ensures |a| <= |b|
    decreases a
  {
    if a != {} {
      var x :| x in a;
      Injection(a - {x}, b - {f(x)}, f);
    }
  }

  function Pow2(n: nat): nat { if n == 0 then 1 else 2 * Pow2(n - 1) }

  /** The configurations without an operation, and those with it, stripped of it. */
  lemma HalvesCount(top: nat, states: set<int>, cs: set<(set<nat>, int)>)
    returns (without: set<(set<nat>, int)>, stripped: set<(set<nat>, int)>)
    requires forall c :: c in cs ==> c.0 <= UpTo(top + 1) && c.1 in states
    ensures forall c :: c in without || c in stripped ==> c.0 <= UpTo(top) && c.1 in states
    ensures |cs| <= |without| + |stripped|
  {
    without := set c | c in cs && top !in c.0;
    var with := set c | c in cs && top in c.0;
    assert cs == without + with && without !! with;
    stripped := set c | c in with :: Strip(top, c);
    StripCount(top, with, stripped);
  }

  function Strip(top: nat, c: (set<nat>, int)): (set<nat>, int) { (c.0 - {top}, c.1) }

  lemma StripCount(top: nat, with: set<(set<nat>, int)>, stripped: set<(set<nat>, int)>)
    requires forall c :: c in with ==> top in c.0
    requires forall c :: c in with ==> Strip(top, c) in stripped
    ensures |with| <= |stripped|
  {
    forall x, y | x in with && y in with && Strip(top, x) == Strip(top, y) ensures x == y {
      assert x.0 == Strip(top, x).0 + {top} && y.0 == Strip(top, y).0 + {top};
    }
    Injection(with, stripped, (c: (set<nat>, int)) => Strip(top, c));
  }

  /** There are at most 2^n placed sets for each state. */
  lemma {:induction false} ConfigurationCount(n: nat, states: set<int>, cs: set<(set<nat>, int)>)
    requires forall c :: c in cs ==> c.0 <= UpTo(n) && c.1 in states
    ensures |cs| <= Pow2(n) * |states|
  {
    if n == 0 {
      assert forall c :: c in cs ==> c.0 == {};
      Injection(cs, states, (c: (set<nat>, int)) => c.1);
    } else {
      var without, stripped := HalvesCount(n - 1, states, cs);
      hide UpTo;
      ConfigurationCount(n - 1, states, without);
      ConfigurationCount(n - 1, states, stripped);
      TwoHalves(Pow2(n - 1), |states|);
    }
  }

  lemma TwoHalves(p: nat, k: nat)
    ensures 2 * p * k == p * k + p * k
  {
  }

  lemma {:induction false} StateCount(ops: seq<Op>)
    ensures |States(ops)| <= |ops| + 1
  {
    if ops == [] {
      assert States(ops) == {INITIAL_VALUE};
    } else {
      var pre, o := ops[..|ops| - 1], ops[|ops| - 1];
      StateCount(pre);
      assert ops == pre + [o];
      assert States(ops) == States(pre) + {if o.kind == Write then o.value else o.to};
    }
  }

  /** A register never leaves the values its history mentions. */
  lemma {:induction false} AfterStaysInStates(t: Timeline, m: Model, ids: seq<nat>)
    requires m == CAS_REGISTER || m == REGISTER
    requires After(t, m, ids).Some?
    ensures After(t, m, ids).value in States(t.ops)
  {
    if ids == [] {
    } else {
      AfterLast(t, m, ids);
      var pre := ids[..|ids| - 1];
      AfterStaysInStates(t, m, pre);
      hide After;
      StepStaysInStates(m, t.ops, After(t, m, pre).value, t.ops[ids[|ids| - 1]]);
    }
  }

  /** What the search remembers are configurations of the history. */
  ghost predicate Proper(t: Timeline, s: Search) {
    forall c :: c in s.seen ==> c.0 <= AllIds(t) && c.1 in States(t.ops)
  }

  lemma StillProper(t: Timeline, m: Model, s: Search)
    requires m == CAS_REGISTER || m == REGISTER
    requires Inv(t, m, s) && s.pos < |t.order| && !Stuck(t, s) && Proper(t, s)
    ensures Proper(t, Next(t, m, s))
  {
    var e := t.order[s.pos];
    if !e.isReturn && m.Step(s.state, e.op).1 {
      CallIsMinimal(t, m, s);
      AfterCount(t, m, Ids(s.calls));
      AfterStaysInStates(t, m, Ids(s.calls));
      StepStaysInStates(m, t.ops, s.state, e.op);
      assert s.Done() + {e.id} <= AllIds(t);
    }
  }

  lemma {:induction false} RunIsProper(t: Timeline, m: Model, opt: Options, late: Clock, s: Search, k: nat)
    requires m == CAS_REGISTER || m == REGISTER
    requires Inv(t, m, s) && Proper(t, s)
    ensures Proper(t, Run(t, m, opt, late, s, k).last)
    decreases Unexplored(t, m, s), |s.calls|, |t.order| - s.pos
  {
    hide Inv, Complete, Next, Stuck, Proper, Spent;
    if !Complete(t, s) && !Spent(t, opt, late, s, k) {
      NeverOffTheEnd(t, m, s);
      if !Stuck(t, s) {
        Preserved(t, m, s);
        Progress(t, m, s);
        StillProper(t, m, s);
        RunIsProper(t, m, opt, late, Next(t, m, s), k + 1);
      }
    }
  }

  lemma ProperCount(t: Timeline, s: Search)
    requires Proper(t, s)
    ensures |s.seen| <= Pow2(|t.ops|) * (|t.ops| + 1)
  {
    hide States, UpTo;
    ConfigurationCount(|t.ops|, States(t.ops), s.seen);
    StateCount(t.ops);
    Grows(Pow2(|t.ops|), |States(t.ops)|, |t.ops| + 1);
  }

  lemma Grows(p: nat, a: nat, b: nat)
    requires a <= b
    ensures p * a <= p * b
  {
  }

  /** A register search of n operations remembers at most 2^n (n + 1) configurations. */
  lemma RememberedIsBounded(t: Timeline, m: Model, opt: Options, late: Clock)
    requires t.Valid() && (m == CAS_REGISTER || m == REGISTER)
    ensures |RunFromStart(t, m, opt, late).last.seen| <= Pow2(|t.ops|) * (|t.ops| + 1)
  {
    Established(t, m);
    assert Proper(t, Start(t, m));
    hide Inv, Run, Start, Proper;
    RunIsProper(t, m, opt, late, Start(t, m), 0);
    ProperCount(t, RunFromStart(t, m, opt, late).last);
  }
}
