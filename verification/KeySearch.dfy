/** Deciding one key: a one-sided fast path, then the search. */
module KeySearch {
  import opened History
  import opened Model
  import opened Linearization
  import opened Verdicts
  import opened MachineResult
  import opened SearchTheorems
  import opened Layout
  import opened Pairs
  import T = Timeline
  import M = Machine
  import opened MachineInvariant
  import opened SearchSteps
  import Search

  type KeyResult = Search.KeyResult

  /** The transition budget of the fast path, per operation. */
  const INDETERMINATE_LAST_VISITS := 32

  /** Operations that got no answer carry no completion, the others were invoked
      before the end of time, and so was everything but the last operation. */
  ghost predicate Recorded(h: seq<Op>) {
    && (forall o :: o in h ==> if o.outcome == Info then o.complete == PENDING else o.invoke < PENDING)
    && Pairwise(FirstIsInTime(), h)
  }

  function FirstIsInTime(): (Op, Op) -> bool { (o: Op, p: Op) => o.invoke < PENDING }

  function Returned(ops: seq<Op>): seq<Op> { Collect(KeepReturned(), ops) }
  function Unanswered(ops: seq<Op>): seq<Op> { Collect(KeepIndeterminate(), ops) }

  function Probe(opt: Options, n: nat): Options {
    var cap := INDETERMINATE_LAST_VISITS * n;
    opt.(maxVisits := if 0 < opt.maxVisits < cap then opt.maxVisits else cap)
  }

  /** Applying operations one after the other, counting transitions. */
  function Append(m: Model, s: int, ops: seq<Op>, visits: nat): (bool, nat)
    decreases ops
  {
    if ops == [] then (true, visits)
    else
      var (next, ok) := m.Step(s, ops[0]);
      if ok then Append(m, next, ops[1..], visits + 1) else (false, visits + 1)
  }

  /** Whether placing the unanswered operations last works, and what finding out cost. */
  ghost function FastPath(ops: seq<Op>, m: Model, opt: Options, late: Clock): (bool, nat)
    requires AllOrdered(ops)
  {
    ReturnedIsOrdered(ops);
    if Unanswered(ops) == [] then (false, 0)
    else
      var kr := Search.FullResult(Returned(ops), m, Probe(opt, |ops|), late);
      Search.FullIsExact(Returned(ops), m, Probe(opt, |ops|), late);
      if kr.verdict != Verdict.Linearizable then (false, kr.visits)
      else Append(m, kr.finalState.value, Unanswered(ops), kr.visits)
  }

  /** The outcome on one key. */
  ghost function KeyOutcome(ops: seq<Op>, m: Model, opt: Options, lateFast: Clock, lateFull: Clock): KeyResult
    requires AllOrdered(ops)
  {
    if ops == [] then Search.KeyResult(Verdict.Linearizable, 0, None, None)
    else
      var (found, spent) := FastPath(ops, m, opt, lateFast);
      if found then Search.KeyResult(Verdict.Linearizable, spent, None, None)
      else if 0 < opt.maxVisits <= spent then Search.KeyResult(Verdict.Unknown, spent, None, None)
      else
        var kr := Search.FullResult(ops, m, Remaining(opt, spent), lateFull);
        kr.(visits := kr.visits + spent)
  }

  // ----- The two halves of a history

  lemma {:induction false} SelectionIsSearchable(f: Op -> Option<Op>, ops: seq<Op>)
    requires Searchable(ops) && forall o :: f(o) == None || f(o) == Some(o)
    ensures Searchable(Collect(f, ops))
    ensures forall o :: o in Collect(f, ops) ==> o in ops
  {
    if ops == [] {
    } else {
      var rest := ops[1..];
      assert Searchable(rest) by {
        forall i, j | 0 <= i < j < |rest| ensures !Colliding(rest[i], rest[j]) {
          assert rest[i] == ops[i + 1] && rest[j] == ops[j + 1];
        }
      }
      SelectionIsSearchable(f, rest);
      var tail := Collect(f, rest);
      forall o | o in tail ensures !Colliding(ops[0], o) {
        var j :| 0 <= j < |rest| && rest[j] == o;
        assert ops[j + 1] == o;
      }
      if f(ops[0]).Some? {
        var all := [ops[0]] + tail;
        assert Collect(f, ops) == all;
        forall i, j | 0 <= i < j < |all| ensures !Colliding(all[i], all[j]) {
          if i == 0 { assert all[j] in tail; }
        }
      }
    }
  }

  lemma ReturnedIsOrdered(ops: seq<Op>)
    requires AllOrdered(ops)
    ensures AllOrdered(Returned(ops))
  {
    forall o | o in Returned(ops) ensures o.Ordered() {
      var p := CollectOrigin(KeepReturned(), ops, o);
    }
  }

  lemma ReturnedIsSearchable(ops: seq<Op>)
    requires Searchable(ops)
    ensures Searchable(Returned(ops))
  {
    SelectionIsSearchable(KeepReturned(), ops);
  }

  lemma HalvesCons(x: Op, s: seq<Op>)
    ensures Returned([x] + s) == (if x.outcome == Info then [] else [x]) + Returned(s)
    ensures Unanswered([x] + s) == (if x.outcome == Info then [x] else []) + Unanswered(s)
  {
    assert ([x] + s)[1..] == s;
  }

  lemma NoHalves()
    ensures Returned([]) == [] && Unanswered([]) == []
  {
  }

  lemma {:induction false} HalvesOf(ops: seq<Op>, o: Op)
    ensures multiset(Returned(ops))[o] + multiset(Unanswered(ops))[o] == multiset(ops)[o]
  {
    hide *;
    if ops == [] {
      NoHalves();
    } else {
      var x, rest := ops[0], ops[1..];
      assert ops == [x] + rest;
      HalvesOf(rest, o);
      HalvesCons(x, rest);
      CountCons(x, rest, o);
      CountCons(x, Returned(rest), o);
      CountCons(x, Unanswered(rest), o);
      assert [] + Returned(rest) == Returned(rest) && [] + Unanswered(rest) == Unanswered(rest);
    }
  }

  /** Every operation is in one half or the other. */
  lemma Halves(ops: seq<Op>, w: seq<Op>)
    requires multiset(w) == multiset(Returned(ops))
    ensures multiset(w + Unanswered(ops)) == multiset(ops)
  {
    forall o ensures multiset(w + Unanswered(ops))[o] == multiset(ops)[o] {
      HalvesOf(ops, o);
    }
  }

  lemma HalvesAreRecorded(ops: seq<Op>, w: seq<Op>)
    requires Recorded(ops) && multiset(w) == multiset(Returned(ops))
    ensures forall o :: o in w ==> o.invoke < PENDING
    ensures forall o :: o in Unanswered(ops) ==> o.complete == PENDING
    ensures Pairwise(FirstIsInTime(), Unanswered(ops))
  {
    forall o | o in w ensures o.invoke < PENDING {
      assert o in multiset(w);
      var p := CollectOrigin(KeepReturned(), ops, o);
    }
    forall o | o in Unanswered(ops) ensures o.complete == PENDING {
      var p := CollectOrigin(KeepIndeterminate(), ops, o);
    }
    PairwiseCollect(FirstIsInTime(), FirstIsInTime(), KeepIndeterminate(), ops);
  }

  lemma {:induction false} AppendIsFinal(m: Model, s: int, ops: seq<Op>, visits: nat)
    ensures var (ok, v) := Append(m, s, ops, visits);
            (ok <==> Final(m, s, ops).Some?) && visits <= v <= visits + |ops|
    decreases ops
  {
    if ops != [] && m.Step(s, ops[0]).1 {
      AppendIsFinal(m, m.Step(s, ops[0]).0, ops[1..], visits + 1);
    }
  }

  /** An operation that never returned precedes nothing invoked before the end of
      time, so all of them may come last. */
  lemma UnansweredLast(w: seq<Op>, u: seq<Op>)
    requires RespectsRealTime(w)
    requires forall o :: o in w ==> o.invoke < PENDING
    requires forall o :: o in u ==> o.complete == PENDING
    requires Pairwise(FirstIsInTime(), u)
    ensures RespectsRealTime(w + u)
  {
    var all := w + u;
    forall i, j | 0 <= i < j < |all| ensures !all[j].Precedes(all[i]) {
      if j < |w| {
        assert all[i] == w[i] && all[j] == w[j];
      } else {
        assert all[j] in u;
        if i < |w| {
          assert all[i] in w;
        } else {
          assert FirstIsInTime()(u[i - |w|], u[j - |w|]);
        }
      }
    }
  }

  /** What the fast path rests on. */
  lemma FastPathIs(ops: seq<Op>, m: Model, opt: Options, late: Clock)
    requires AllOrdered(ops)
    ensures AllOrdered(Returned(ops))
    ensures var kr := Search.FullResult(Returned(ops), m, Probe(opt, |ops|), late);
            if Unanswered(ops) == [] then FastPath(ops, m, opt, late) == (false, 0)
            else if kr.verdict != Verdict.Linearizable then FastPath(ops, m, opt, late) == (false, kr.visits)
            else kr.finalState.Some? &&
                 FastPath(ops, m, opt, late) == Append(m, kr.finalState.value, Unanswered(ops), kr.visits)
  {
    ReturnedIsOrdered(ops);
    Search.FullIsExact(Returned(ops), m, Probe(opt, |ops|), late);
    hide AllOrdered, Search.FullResult, Append, Returned, Unanswered, Probe;
  }

  /** When the fast path says yes, the order the search found for the operations
      that returned, followed by the others, is a linearization. */
  lemma FastPathHasWitness(ops: seq<Op>, m: Model, opt: Options, late: Clock) returns (w: seq<Op>)
    requires Searchable(ops) && Recorded(ops) && FastPath(ops, m, opt, late).0
    ensures IsLinearization(m, Returned(ops), w)
    ensures IsLinearization(m, ops, w + Unanswered(ops))
  {
    hide *;
    SearchableIsOrdered(ops);
    FastPathIs(ops, m, opt, late);
    ReturnedIsSearchable(ops);
    var kr := Search.FullResult(Returned(ops), m, Probe(opt, |ops|), late);
    w := Search.FullHasWitness(Returned(ops), m, Probe(opt, |ops|), late);
    AppendIsFinal(m, kr.finalState.value, Unanswered(ops), kr.visits);
    FinalAppend(m, m.Init(), w, Unanswered(ops));
    Appended(m, ops, w);
  }

  lemma Appended(m: Model, ops: seq<Op>, w: seq<Op>)
    requires Recorded(ops) && IsLinearization(m, Returned(ops), w)
    requires Final(m, m.Init(), w + Unanswered(ops)).Some?
    ensures IsLinearization(m, ops, w + Unanswered(ops))
  {
    hide Final, Returned, Unanswered, RespectsRealTime, Recorded;
    Halves(ops, w);
    HalvesAreRecorded(ops, w);
    UnansweredLast(w, Unanswered(ops));
  }

  /** The options left for the search once the fast path has spent its part. */
  function Remaining(opt: Options, spent: nat): Options {
    if opt.maxVisits > 0 then opt.(maxVisits := opt.maxVisits - spent) else opt
  }

  lemma KeyOutcomeIs(ops: seq<Op>, m: Model, opt: Options, lateFast: Clock, lateFull: Clock)
    requires AllOrdered(ops) && ops != []
    ensures var (found, spent) := FastPath(ops, m, opt, lateFast);
            var kr := KeyOutcome(ops, m, opt, lateFast, lateFull);
            if found then kr == Search.KeyResult(Verdict.Linearizable, spent, None, None)
            else if 0 < opt.maxVisits <= spent then kr == Search.KeyResult(Verdict.Unknown, spent, None, None)
            else
              var full := Search.FullResult(ops, m, Remaining(opt, spent), lateFull);
              kr == full.(visits := full.visits + spent)
  {
    hide AllOrdered, FastPath, Search.FullResult;
  }

  lemma NothingIsLinearizable(m: Model)
    ensures HasLinearization(m, [])
  {
    assert IsLinearization(m, [], []);
  }

  lemma SearchableIsOrdered(ops: seq<Op>)
    ensures Searchable(ops) <==> AllOrdered(ops) && CollisionFree(ops)
  {
  }

  /** Deciding a key is exact: a refusal is true under any budget, a pass is true
      exactly when no two operations precede each other, and without a budget it is
      one or the other. */
  lemma KeyIsExact(ops: seq<Op>, m: Model, opt: Options, lateFast: Clock, lateFull: Clock)
    requires AllOrdered(ops) && (CollisionFree(ops) ==> Recorded(ops))
    ensures var kr := KeyOutcome(ops, m, opt, lateFast, lateFull);
            && (kr.verdict == Verdict.Linearizable ==> (HasLinearization(m, ops) <==> CollisionFree(ops)))
            && (kr.verdict == Verdict.NotLinearizable ==> !HasLinearization(m, ops))
            && (opt.Unlimited() ==> kr.verdict != Verdict.Unknown)
  {
    if ops == [] {
      NothingIsLinearizable(m);
    } else {
      KeyOutcomeIs(ops, m, opt, lateFast, lateFull);
      SearchableIsOrdered(ops);
      var (found, spent) := FastPath(ops, m, opt, lateFast);
      hide HasLinearization, FastPath, AllOrdered, CollisionFree, Searchable, Recorded, Search.FullResult, KeyOutcome;
      if found {
        if CollisionFree(ops) {
          var w := FastPathHasWitness(ops, m, opt, lateFast);
          Witnessed(m, ops, w + Unanswered(ops));
        } else {
          CollidingHasNone(m, ops);
        }
      } else {
        Search.FullIsExact(ops, m, Remaining(opt, spent), lateFull);
      }
    }
  }

  lemma CollidingHasNone(m: Model, ops: seq<Op>)
    requires !CollisionFree(ops)
    ensures !HasLinearization(m, ops)
  {
    var i, j :| 0 <= i < j < |ops| && Colliding(ops[i], ops[j]);
    CollisionRefutes(m, ops, i, j);
  }

  lemma Witnessed(m: Model, ops: seq<Op>, w: seq<Op>)
    requires IsLinearization(m, ops, w)
    ensures HasLinearization(m, ops)
  {
  }

  /** Without a budget, the fast path never changes the answer. */
  lemma FastPathChangesNothing(ops: seq<Op>, m: Model, opt: Options, lateFast: Clock, lateFull: Clock)
    requires Searchable(ops) && Recorded(ops) && opt.Unlimited()
    ensures KeyOutcome(ops, m, opt, lateFast, lateFull).verdict == Search.FullResult(ops, m, opt, lateFull).verdict
  {
    KeyIsExact(ops, m, opt, lateFast, lateFull);
    Search.FullIsExact(ops, m, opt, lateFull);
  }

  /** The fast path fails only for a reason: nothing to put last, no order of what returned,
      a limit reached, or after some order of what returned the rest is refused. */
  lemma FastPathFailsOnlyIf(ops: seq<Op>, m: Model, opt: Options, late: Clock)
    requires Searchable(ops) && !FastPath(ops, m, opt, late).0
    ensures var spent := FastPath(ops, m, opt, late).1;
            || Unanswered(ops) == []
            || !HasLinearization(m, Returned(ops))
            || spent >= 32 * |ops| || RanOut(opt, late, spent, spent * EntryBytes(|Returned(ops)|))
            || exists w :: IsLinearization(m, Returned(ops), w) && Final(m, m.Init(), w + Unanswered(ops)).None?
  {
    hide *;
    SearchableIsOrdered(ops);
    ReturnedIsSearchable(ops);
    FastPathIs(ops, m, opt, late);
    var kr := Search.FullResult(Returned(ops), m, Probe(opt, |ops|), late);
    Search.FullIsExact(Returned(ops), m, Probe(opt, |ops|), late);
    if Unanswered(ops) != [] {
      if kr.verdict == Verdict.Linearizable {
        AppendIsFinal(m, kr.finalState.value, Unanswered(ops), kr.visits);
        var w := Search.FullHasWitness(Returned(ops), m, Probe(opt, |ops|), late);
        FinalAppend(m, m.Init(), w, Unanswered(ops));
      } else if kr.verdict == Verdict.Unknown {
        Search.FullUnknownIsEarned(Returned(ops), m, Probe(opt, |ops|), late);
        ProbeRanOut(opt, late, |ops|, kr.visits, kr.visits * EntryBytes(|Returned(ops)|));
      }
    }
  }

  lemma ProbeRanOut(opt: Options, late: Clock, n: nat, visits: nat, bytes: int)
    requires RanOut(Probe(opt, n), late, visits, bytes)
    ensures visits >= 32 * n || RanOut(opt, late, visits, bytes)
  {
  }

  /** A key is left undecided only when a limit was reached. */
  lemma KeyUnknownIsEarned(ops: seq<Op>, m: Model, opt: Options, lateFast: Clock, lateFull: Clock)
    requires AllOrdered(ops) && KeyOutcome(ops, m, opt, lateFast, lateFull).verdict == Verdict.Unknown
    ensures var visits := KeyOutcome(ops, m, opt, lateFast, lateFull).visits;
            RanOut(opt, lateFull, visits, visits * EntryBytes(|ops|))
  {
    hide *;
    NoOutcome(m, opt, lateFast, lateFull);
    if ops != [] {
      KeyOutcomeIs(ops, m, opt, lateFast, lateFull);
      var (found, spent) := FastPath(ops, m, opt, lateFast);
      if 0 < opt.maxVisits <= spent {
        VisitsRanOut(opt, lateFull, spent, spent * EntryBytes(|ops|));
      } else {
        Search.FullUnknownIsEarned(ops, m, Remaining(opt, spent), lateFull);
        RestRanOut(opt, lateFull, spent, Search.FullResult(ops, m, Remaining(opt, spent), lateFull).visits,
                   EntryBytes(|ops|));
      }
    }
  }

  lemma VisitsRanOut(opt: Options, late: Clock, visits: nat, bytes: int)
    requires 0 < opt.maxVisits <= visits
    ensures RanOut(opt, late, visits, bytes)
  {
  }

  /** A limit on the rest of the search is a limit on all of it. */
  lemma RestRanOut(opt: Options, late: Clock, spent: nat, visits: nat, each: nat)
    requires RanOut(Remaining(opt, spent), late, visits, visits * each)
    requires opt.maxVisits <= 0 || spent < opt.maxVisits
    ensures RanOut(opt, late, visits + spent, (visits + spent) * each)
  {
    Scaled(visits, visits + spent, each);
  }

  /** The culprit reported for a key is an operation refused where the search got furthest. */
  lemma KeyCulpritIsFurthest(ops: seq<Op>, m: Model, opt: Options, lateFast: Clock, lateFull: Clock)
    requires AllOrdered(ops) && KeyOutcome(ops, m, opt, lateFast, lateFull).verdict == Verdict.NotLinearizable
    ensures exists ids: seq<nat>, i: nat ::
              Search.Furthest(ops, m, ids, i) && KeyOutcome(ops, m, opt, lateFast, lateFull).culprit == Some(ops[i])
  {
    hide *;
    NoOutcome(m, opt, lateFast, lateFull);
    if ops != [] {
      KeyOutcomeIs(ops, m, opt, lateFast, lateFull);
      var (found, spent) := FastPath(ops, m, opt, lateFast);
      Search.CulpritIsFurthest(ops, m, Remaining(opt, spent), lateFull);
    }
  }

  // ----- What it costs

  lemma FastPathCost(ops: seq<Op>, m: Model, opt: Options, late: Clock)
    requires AllOrdered(ops)
    ensures var (found, spent) := FastPath(ops, m, opt, late);
            && (Unanswered(ops) == [] ==> !found && spent == 0)
            && (opt.maxVisits > 0 ==> spent <= opt.maxVisits + |Unanswered(ops)|)
            && spent <= INDETERMINATE_LAST_VISITS * |ops| + |Unanswered(ops)|
  {
    ReturnedIsOrdered(ops);
    if Unanswered(ops) != [] {
      var kr := Search.FullResult(Returned(ops), m, Probe(opt, |ops|), late);
      Search.FullIsExact(Returned(ops), m, Probe(opt, |ops|), late);
      assert ops != [];
      assert Probe(opt, |ops|).maxVisits > 0;
      if kr.verdict == Verdict.Linearizable {
        AppendIsFinal(m, kr.finalState.value, Unanswered(ops), kr.visits);
      }
    }
  }

  /** The transitions spent on a key stay within the budget plus the number of
      operations that got no answer. */
  lemma KeyCost(ops: seq<Op>, m: Model, opt: Options, lateFast: Clock, lateFull: Clock)
    requires AllOrdered(ops) && opt.maxVisits > 0
    ensures KeyOutcome(ops, m, opt, lateFast, lateFull).visits <= opt.maxVisits + |Unanswered(ops)|
  {
    if ops != [] {
      KeyOutcomeIs(ops, m, opt, lateFast, lateFull);
      var (found, spent) := FastPath(ops, m, opt, lateFast);
      hide FastPath, AllOrdered, Search.FullResult, KeyOutcome, Unanswered;
      FastPathCost(ops, m, opt, lateFast);
      if !found && spent < opt.maxVisits {
        Search.FullIsExact(ops, m, Remaining(opt, spent), lateFull);
      }
    }
  }

  // ----- A larger budget of transitions

  lemma FullMonotone(ops: seq<Op>, m: Model, a: Options, b: Options, late: Clock)
    requires AllOrdered(ops) && Roomier(a, b)
    requires var kr := Search.FullResult(ops, m, a, late);
             kr.verdict != Verdict.Unknown || kr.visits < a.maxVisits
    ensures Search.FullResult(ops, m, b, late) == Search.FullResult(ops, m, a, late)
  {
    hide *;
    LaidIsValid(ops);
    Search.FullResultOf(ops, m, a, late);
    Search.FullResultOf(ops, m, b, late);
    RunMonotone(Laid(ops), m, a, b, late);
  }

  lemma ProbesAreRoomier(a: Options, b: Options, n: nat)
    requires Roomier(a, b) && n > 0 && Probe(a, n) != Probe(b, n)
    ensures Roomier(Probe(a, n), Probe(b, n)) && Probe(a, n).maxVisits == a.maxVisits > 0
  {
  }

  lemma FastPathMonotone(ops: seq<Op>, m: Model, a: Options, b: Options, late: Clock)
    requires AllOrdered(ops) && Roomier(a, b) && ops != []
    requires var (found, spent) := FastPath(ops, m, a, late);
             found || a.maxVisits <= 0 || spent < a.maxVisits
    ensures FastPath(ops, m, b, late) == FastPath(ops, m, a, late)
  {
    hide *;
    FastPathIs(ops, m, a, late);
    FastPathIs(ops, m, b, late);
    if Unanswered(ops) != [] && Probe(a, |ops|) != Probe(b, |ops|) {
      ProbesAreRoomier(a, b, |ops|);
      FullMonotone(Returned(ops), m, Probe(a, |ops|), Probe(b, |ops|), late);
    }
  }

  lemma RemainingIsRoomier(a: Options, b: Options, spent: nat)
    requires Roomier(a, b) && (a.maxVisits <= 0 || spent < a.maxVisits)
    ensures Roomier(Remaining(a, spent), Remaining(b, spent))
    ensures b.maxVisits <= 0 || spent < b.maxVisits
  {
  }

  /** Raising the budget of transitions never loses or flips a decisive verdict. */
  lemma KeyMonotone(ops: seq<Op>, m: Model, a: Options, b: Options, lateFast: Clock, lateFull: Clock)
    requires AllOrdered(ops) && Roomier(a, b)
    requires KeyOutcome(ops, m, a, lateFast, lateFull).verdict != Verdict.Unknown
    ensures KeyOutcome(ops, m, b, lateFast, lateFull).verdict == KeyOutcome(ops, m, a, lateFast, lateFull).verdict
  {
    if ops != [] {
      hide *;
      KeyOutcomeIs(ops, m, a, lateFast, lateFull);
      KeyOutcomeIs(ops, m, b, lateFast, lateFull);
      FastPathMonotone(ops, m, a, b, lateFast);
      var (found, spent) := FastPath(ops, m, a, lateFast);
      if !found {
        RemainingIsRoomier(a, b, spent);
        FullMonotone(ops, m, Remaining(a, spent), Remaining(b, spent), lateFull);
      }
    }
  }

  // ----- Without a deadline

  lemma FullIgnoresClock(ops: seq<Op>, m: Model, opt: Options, a: Clock, b: Clock)
    requires AllOrdered(ops) && !opt.timeout
    ensures Search.FullResult(ops, m, opt, a) == Search.FullResult(ops, m, opt, b)
  {
    LaidIsValid(ops);
    Established(Laid(ops), m);
    RunIgnoresClock(Laid(ops), m, opt, a, b, M.Start(Laid(ops), m), 0);
    Search.FullResultOf(ops, m, opt, a);
    Search.FullResultOf(ops, m, opt, b);
    hide T.Timeline.Valid, Laid, AllOrdered, Search.FullResult, M.Inv, Run;
  }

  /** Without a deadline the outcome depends on nothing but the question. */
  lemma KeyIgnoresClock(ops: seq<Op>, m: Model, opt: Options, a: Clock, b: Clock, c: Clock, d: Clock)
    requires AllOrdered(ops) && !opt.timeout
    ensures KeyOutcome(ops, m, opt, a, b) == KeyOutcome(ops, m, opt, c, d)
  {
    hide *;
    NoOutcome(m, opt, a, b);
    NoOutcome(m, opt, c, d);
    if ops != [] {
      KeyOutcomeIs(ops, m, opt, a, b);
      KeyOutcomeIs(ops, m, opt, c, d);
      FastPathIs(ops, m, opt, a);
      FastPathIs(ops, m, opt, c);
      RemainingIs(opt);
      FullIgnoresClock(Returned(ops), m, Probe(opt, |ops|), a, c);
      var (found, spent) := FastPath(ops, m, opt, a);
      FullIgnoresClock(ops, m, Remaining(opt, spent), b, d);
    }
  }

  // ----- The methods

  /** Looks for one shape of linearization: every operation the client never heard
      back from after every operation that returned. */
  method IndeterminateLast(ops: seq<Op>, m: Model, opt: Options, late: Clock, hash: (seq<bv64>, int) -> int)
    returns (found: bool, visits: nat)
    requires AllOrdered(ops)
    ensures (found, visits) == FastPath(ops, m, opt, late)
    ensures Searchable(ops) && Recorded(ops) && found ==> HasLinearization(m, ops)
  {
    hide *;
    FastPathIs(ops, m, opt, late);
    if Searchable(ops) && Recorded(ops) && FastPath(ops, m, opt, late).0 {
      ghost var w := FastPathHasWitness(ops, m, opt, late);
      Witnessed(m, ops, w + Unanswered(ops));
    }
    var returned, unanswered := Split(ops);
    if unanswered == [] {
      return false, 0;
    }
    var kr := Search.SearchFull(returned, m, Probe(opt, |ops|), late, hash);
    if kr.verdict != Verdict.Linearizable {
      return false, kr.visits;
    }
    var state := kr.finalState.value;
    visits := kr.visits;
    AppendNothing(m, state, unanswered, visits);
    for i := 0 to |unanswered|
      invariant Append(m, state, unanswered[i..], visits) == FastPath(ops, m, opt, late)
    {
      AppendUnfolds(m, state, unanswered, i, visits);
      var (next, ok) := m.Step(state, unanswered[i]);
      visits := visits + 1;
      if !ok {
        return false, visits;
      }
      state := next;
    }
    AppendNothing(m, state, unanswered, visits);
    found := true;
  }

  lemma AppendUnfolds(m: Model, s: int, ops: seq<Op>, i: nat, visits: nat)
    requires i < |ops|
    ensures Append(m, s, ops[i..], visits) ==
            (if m.Step(s, ops[i]).1 then Append(m, m.Step(s, ops[i]).0, ops[i + 1..], visits + 1)
             else (false, visits + 1))
  {
    assert ops[i..][1..] == ops[i + 1..];
  }

  lemma AppendNothing(m: Model, s: int, ops: seq<Op>, visits: nat)
    ensures Append(m, s, ops[|ops|..], visits) == (true, visits)
    ensures ops[0..] == ops
  {
  }

  /** The operations that returned, and those that did not. */
  method Split(ops: seq<Op>) returns (returned: seq<Op>, unanswered: seq<Op>)
    ensures returned == Returned(ops) && unanswered == Unanswered(ops)
  {
    returned, unanswered := [], [];
    for i := 0 to |ops|
      invariant returned == Returned(ops[..i]) && unanswered == Unanswered(ops[..i])
    {
      CollectOneMore(KeepReturned(), ops, i);
      CollectOneMore(KeepIndeterminate(), ops, i);
      if ops[i].outcome == Info {
        unanswered := unanswered + [ops[i]];
      } else {
        returned := returned + [ops[i]];
      }
    }
    assert ops[..|ops|] == ops;
  }

  lemma NoOutcome(m: Model, opt: Options, lateFast: Clock, lateFull: Clock)
    ensures AllOrdered([])
    ensures KeyOutcome([], m, opt, lateFast, lateFull) == Search.KeyResult(Verdict.Linearizable, 0, None, None)
  {
  }

  lemma RemainingIs(opt: Options)
    ensures forall spent: nat ::
              Remaining(opt, spent) == if opt.maxVisits > 0 then opt.(maxVisits := opt.maxVisits - spent) else opt
    ensures forall n: nat :: Probe(opt, n).timeout == opt.timeout
  {
  }

  /** Decides one key's operations: the fast path first, then the search. */
  method SearchKey(ops: seq<Op>, m: Model, opt: Options, lateFast: Clock, lateFull: Clock,
                   hash: (seq<bv64>, int) -> int)
    returns (kr: KeyResult)
    requires AllOrdered(ops) && (CollisionFree(ops) ==> Recorded(ops))
    ensures kr == KeyOutcome(ops, m, opt, lateFast, lateFull)
    ensures kr.verdict == Verdict.Linearizable ==> (HasLinearization(m, ops) <==> CollisionFree(ops))
    ensures kr.verdict == Verdict.NotLinearizable ==> !HasLinearization(m, ops)
    ensures kr.verdict == Verdict.Unknown ==> RanOut(opt, lateFull, kr.visits, kr.visits * EntryBytes(|ops|))
    ensures opt.Unlimited() ==> kr.verdict != Verdict.Unknown
    ensures opt.maxVisits > 0 ==> kr.visits <= opt.maxVisits + |Unanswered(ops)|
  {
    hide *;
    if KeyOutcome(ops, m, opt, lateFast, lateFull).verdict == Verdict.Unknown {
      KeyUnknownIsEarned(ops, m, opt, lateFast, lateFull);
    }
    KeyIsExact(ops, m, opt, lateFast, lateFull);
    if opt.maxVisits > 0 { KeyCost(ops, m, opt, lateFast, lateFull); }
    if ops == [] {
      NoOutcome(m, opt, lateFast, lateFull);
      return Search.KeyResult(Verdict.Linearizable, 0, None, None);
    }
    KeyOutcomeIs(ops, m, opt, lateFast, lateFull);
    RemainingIs(opt);
    var found, spent := IndeterminateLast(ops, m, opt, lateFast, hash);
    if found {
      return Search.KeyResult(Verdict.Linearizable, spent, None, None);
    }
    var rest := opt;
    if opt.maxVisits > 0 {
      if spent >= opt.maxVisits {
        return Search.KeyResult(Verdict.Unknown, spent, None, None);
      }
      rest := opt.(maxVisits := opt.maxVisits - spent);
    }
    kr := Search.SearchFull(ops, m, rest, lateFull, hash);
    kr := kr.(visits := kr.visits + spent);
  }
}
