/** The budget of transitions is documented as a cap on each key. When it is one. */
module Budgets {
  import opened History
  import opened Model
  import opened Linearization
  import opened Verdicts
  import opened Pairs
  import opened Validity
  import opened MachineInvariant
  import opened MachineResult
  import opened SearchSteps
  import opened Layout
  import opened KeySearch
  import opened Slicing
  import opened Sorting
  import opened Minimise
  import opened Workers
  import opened SearchCost
  import T = Timeline
  import M = Machine
  import SearchTheorems
  import Check
  import Search

  // ----- Operations the model never refuses cost one transition each

  /** The model accepts each of these operations in every state. */
  ghost predicate AlwaysAccepted(m: Model, ops: seq<Op>) {
    forall o, s :: o in ops ==> m.Step(s, o).1
  }

  /** The search has never had to skip anything: it stands at the head of its list,
      has paid one transition for each operation placed, and remembers no
      configuration larger than the present one. */
  ghost predicate Smooth(t: T.Timeline, m: Model, s: M.Search) {
    && M.Inv(t, m, s)
    && s.pos == t.NextLive(s.Done(), 0)
    && s.visits == |s.calls| && |s.seen| <= |s.calls|
    && forall c :: c in s.seen ==> |c.0| <= |s.calls|
  }

  lemma SmoothStart(t: T.Timeline, m: Model)
    requires t.Valid()
    ensures Smooth(t, m, M.Start(t, m))
  {
    Established(t, m);
    assert M.Start(t, m).Done() == {};
  }

  /** The first entry of the list is a call. */
  lemma HeadIsCall(t: T.Timeline, placed: set<nat>)
    requires t.Valid() && t.NextLive(placed, 0) < |t.order|
    ensures var k := t.NextLive(placed, 0);
            !t.order[k].isReturn && t.Live(placed, k) && t.order[k].id < |t.ops| && t.order[k].id !in placed
            && t.order[k].op == t.ops[t.order[k].id]
  {
    var k := t.NextLive(placed, 0);
    var i := t.order[k].id;
    assert !t.Live(placed, t.callAt[i]) || k <= t.callAt[i];
    assert t.callAt[i] < t.retAt[i];
  }

  lemma InvFacts(t: T.Timeline, m: Model, s: M.Search)
    requires M.Inv(t, m, s)
    ensures t.Valid() && M.After(t, m, M.Ids(s.calls)) == Some(s.state)
    ensures |s.Done()| == |s.calls| <= |t.ops| && s.Done() <= M.AllIds(t)
  {
    M.AfterFacts(t, m, M.Ids(s.calls));
  }

  lemma OneLarger(a: set<nat>, x: nat)
    requires x !in a
    ensures |a + {x}| == |a| + 1
  {
  }

  lemma SmoothAtHead(t: T.Timeline, m: Model, s: M.Search)
    requires Smooth(t, m, s) && !M.Complete(t, s)
    ensures s.pos < |t.order| && !t.order[s.pos].isReturn && t.order[s.pos].op in t.ops && !M.Stuck(t, s)
    ensures t.Valid() && |s.calls| < |t.ops|
  {
    InvFacts(t, m, s);
    HeadIsCall(t, s.Done());
    M.Room(t, s.Done(), t.order[s.pos].id);
  }

  lemma SmoothStep(t: T.Timeline, m: Model, s: M.Search)
    requires Smooth(t, m, s) && !M.Complete(t, s)
    requires s.pos < |t.order| && m.Step(s.state, t.order[s.pos].op).1
    ensures !M.Stuck(t, s) && |s.calls| < |t.ops|
    ensures Smooth(t, m, M.Next(t, m, s)) && |M.Next(t, m, s).calls| == |s.calls| + 1
  {
    InvFacts(t, m, s);
    HeadIsCall(t, s.Done());
    Preserved(t, m, s);
    var i := t.order[s.pos].id;
    M.Room(t, s.Done(), i);
    OneLarger(s.Done(), i);
    hide M.Inv, M.Next, T.Timeline.Valid;
    NextAfterPlacing(t, m, s);
  }

  ghost predicate NeverLate(late: Clock) { forall k :: !late(k) }

  /** There is no ceiling on memory, or what n operations need is below it. */
  predicate RoomFor(opt: Options, n: nat) {
    opt.maxCacheBytes <= 0 || n * EntryBytes(n) < opt.maxCacheBytes + EntryBytes(n)
  }

  lemma StillRoom(opt: Options, n: nat, remembered: nat)
    requires RoomFor(opt, n) && remembered < n
    ensures opt.maxCacheBytes <= 0 || remembered * EntryBytes(n) < opt.maxCacheBytes
  {
    hide EntryBytes;
    SearchTheorems.Scaled(remembered + 1, n, EntryBytes(n));
    SearchTheorems.Scaled(remembered, remembered + 1, EntryBytes(n));
  }

  lemma SmoothComplete(t: T.Timeline, m: Model, s: M.Search)
    requires Smooth(t, m, s) && M.Complete(t, s)
    ensures s.visits == |t.ops|
  {
    InvFacts(t, m, s);
    SearchTheorems.CompleteMeansAll(t, s);
    assert s.Done() == M.AllIds(t);
  }

  lemma {:induction false} SmoothRun(t: T.Timeline, m: Model, opt: Options, late: Clock, s: M.Search, k: nat)
    requires Smooth(t, m, s) && AlwaysAccepted(m, t.ops)
    requires |t.ops| <= opt.maxVisits && RoomFor(opt, |t.ops|) && NeverLate(late)
    ensures var o := Run(t, m, opt, late, s, k);
            o.verdict == Verdict.Linearizable && o.last.visits == |t.ops|
    decreases |t.ops| - |s.calls|
  {
    RunUnfolds(t, m, opt, late, s, k);
    if M.Complete(t, s) {
      SmoothComplete(t, m, s);
    } else {
      SmoothAtHead(t, m, s);
      SmoothStep(t, m, s);
      StillRoom(opt, |t.ops|, |s.seen|);
      hide M.Inv, M.Next, M.Stuck, M.Complete, AlwaysAccepted, RoomFor, EntryBytes;
      SmoothRun(t, m, opt, late, M.Next(t, m, s), k + 1);
    }
  }

  /** A search none of whose operations is ever refused passes after exactly one
      transition for each. */
  lemma SmoothSearch(ops: seq<Op>, m: Model, opt: Options, late: Clock)
    requires AllOrdered(ops) && AlwaysAccepted(m, ops)
    requires |ops| <= opt.maxVisits && RoomFor(opt, |ops|) && NeverLate(late)
    ensures var kr := Search.FullResult(ops, m, opt, late);
            kr.verdict == Verdict.Linearizable && kr.visits == |ops|
  {
    hide *;
    LaidIsValid(ops);
    LaidIsSized(ops);
    Search.FullResultOf(ops, m, opt, late);
    SmoothStart(Laid(ops), m);
    Opens(Laid(ops), m, opt, late);
    SmoothRun(Laid(ops), m, opt, late, M.Start(Laid(ops), m), 0);
  }

  // ----- A search that names no culprit has hardly begun

  /** Until something is refused, no transition is wasted. */
  lemma {:induction false} SmoothUntilRefused(t: T.Timeline, m: Model, opt: Options, late: Clock, s: M.Search, k: nat)
    requires M.Inv(t, m, s) && (s.best.None? ==> Smooth(t, m, s))
    ensures var r := Run(t, m, opt, late, s, k).last; r.best.None? ==> Smooth(t, m, r)
    decreases Unexplored(t, m, s), |s.calls|, |t.order| - s.pos
  {
    hide *;
    RunUnfolds(t, m, opt, late, s, k);
    if !M.Complete(t, s) && !Spent(t, opt, late, s, k) && !M.Stuck(t, s) {
      SmoothOrRefused(t, m, s);
      OnlyWhatIsRemembered(t, m, s, M.Next(t, m, s));
      SmoothUntilRefused(t, m, opt, late, M.Next(t, m, s), k + 1);
    }
  }

  lemma OnlyWhatIsRemembered(t: T.Timeline, m: Model, s: M.Search, s': M.Search)
    ensures s.seen == s'.seen ==> Unexplored(t, m, s) == Unexplored(t, m, s')
  {
  }

  lemma SmoothOrRefused(t: T.Timeline, m: Model, s: M.Search)
    requires M.Inv(t, m, s) && (s.best.None? ==> Smooth(t, m, s)) && !M.Complete(t, s) && !M.Stuck(t, s)
    ensures M.Next(t, m, s).best.None? ==> Smooth(t, m, M.Next(t, m, s))
  {
    NeverOffTheEnd(t, m, s);
    SearchTheorems.OnlyDeeperReplaces(t, m, s);
    if s.best.None? {
      hide M.Next, M.Complete, M.Stuck, M.Inv, Smooth;
      SmoothAtHead(t, m, s);
      if m.Step(s.state, t.order[s.pos].op).1 { SmoothStep(t, m, s); }
    }
  }

  /** A search that gives up and names no culprit has not even made one transition for
      each operation. */
  lemma NamelessIsYoung(ops: seq<Op>, m: Model, opt: Options, late: Clock)
    requires AllOrdered(ops)
    ensures var kr := Search.FullResult(ops, m, opt, late);
            kr.verdict == Verdict.Unknown && kr.culprit.None? ==> kr.visits < |ops|
  {
    hide *;
    LaidIsValid(ops);
    LaidIsSized(ops);
    var t := Laid(ops);
    Search.FullResultOf(ops, m, opt, late);
    SmoothStart(t, m);
    Opens(t, m, opt, late);
    SmoothUntilRefused(t, m, opt, late, M.Start(t, m), 0);
    var o := RunFromStart(t, m, opt, late);
    RunKeepsInv(t, m, opt, late, M.Start(t, m), 0);
    Nameless(ops, o);
    if o.verdict == Verdict.Unknown && o.last.best.None? {
      SmoothAtHead(t, m, o.last);
      SmoothIs(t, m, o.last);
    }
  }

  lemma Nameless(ops: seq<Op>, o: Ending)
    requires o.last.best.Some? ==> o.last.best.value.culprit < |ops|
    ensures o.verdict == Verdict.Unknown ==> (Search.Report(ops, o).culprit.None? <==> o.last.best.None?)
  {
  }

  lemma SmoothIs(t: T.Timeline, m: Model, s: M.Search)
    requires Smooth(t, m, s)
    ensures s.visits == |s.calls|
  {
  }

  lemma Opens(t: T.Timeline, m: Model, opt: Options, late: Clock)
    requires t.Valid()
    ensures M.Inv(t, m, M.Start(t, m))
    ensures RunFromStart(t, m, opt, late) == Run(t, m, opt, late, M.Start(t, m), 0)
  {
    Established(t, m);
  }

  lemma {:induction false} AppendAll(m: Model, s: int, ops: seq<Op>, visits: nat)
    requires AlwaysAccepted(m, ops)
    ensures Append(m, s, ops, visits) == (true, visits + |ops|)
    decreases ops
  {
    if ops == [] {
    } else {
      assert ops[0] in ops;
      AppendAll(m, m.Step(s, ops[0]).0, ops[1..], visits + 1);
    }
  }

  // ----- A key that costs more than its budget

  /** The i-th of a row of writes, each by a client of its own, all at the same time. */
  function Answered(i: nat): Op { Op(i, "k", Write, i, 0, 0, 0, false, OK, 0, 1, "") }
  function Forgotten(i: nat): Op { Op(i, "k", Write, i, 0, 0, 0, false, Info, 0, PENDING, "") }

  /** As many writes that returned, and then as many that did not. */
  function Writes(returned: nat, unanswered: nat): (h: seq<Op>)
    ensures |h| == returned + unanswered
    ensures forall i :: 0 <= i < |h| ==> h[i] == if i < returned then Answered(i) else Forgotten(i)
  {
    seq(returned, i requires 0 <= i < returned => Answered(i)) +
    seq(unanswered, i requires 0 <= i < unanswered => Forgotten(returned + i))
  }

  lemma HalvesOfWrites(returned: nat, unanswered: nat)
    ensures var h := Writes(returned, unanswered);
            Returned(h) == h[..returned] && Unanswered(h) == h[returned..]
  {
    var h := Writes(returned, unanswered);
    var a, b := h[..returned], h[returned..];
    assert h == a + b;
    CollectAppend(KeepReturned(), a, b);
    CollectAppend(KeepIndeterminate(), a, b);
    CollectAll(KeepReturned(), a);
    CollectNone(KeepReturned(), b);
    CollectNone(KeepIndeterminate(), a);
    CollectAll(KeepIndeterminate(), b);
  }

  lemma WritesAreValid(returned: nat, unanswered: nat)
    ensures var h := Writes(returned, unanswered);
            && Searchable(h) && Recorded(h) && ValidHistory(h)
            && AlwaysAccepted(CAS_REGISTER, h) && AlwaysAccepted(REGISTER, h)
  {
  }

  lemma SomeWritesAreAccepted(m: Model, h: seq<Op>, n: nat)
    requires AlwaysAccepted(m, h) && n <= |h|
    ensures AlwaysAccepted(m, h[..n]) && AlwaysAccepted(m, h[n..])
  {
    assert forall o :: o in h[..n] || o in h[n..] ==> o in h;
  }

  /** Under any budget of transitions there are valid keys that exceed it, by as many
      as they have operations without an answer; and they are not undecided, they pass. */
  lemma CapIsExceeded(m: Model, opt: Options, unanswered: nat, late: Clock, lateFull: Clock)
    requires m == CAS_REGISTER || m == REGISTER
    requires opt.maxVisits > 0 && RoomFor(opt, opt.maxVisits) && unanswered > 0 && NeverLate(late)
    ensures var h := Writes(opt.maxVisits, unanswered);
            && Searchable(h) && Recorded(h) && ValidHistory(h) && |Unanswered(h)| == unanswered
            && var kr := KeyOutcome(h, m, opt, late, lateFull);
               kr.verdict == Verdict.Linearizable && kr.visits == opt.maxVisits + unanswered
  {
    hide *;
    var h := Writes(opt.maxVisits, unanswered);
    WritesAreValid(opt.maxVisits, unanswered);
    HalvesOfWrites(opt.maxVisits, unanswered);
    SomeWritesAreAccepted(m, h, opt.maxVisits);
    ReturnedIsOrdered(h);
    SearchableIsOrdered(h);
    ProbeIsWhole(opt, |h|);
    SmoothSearch(Returned(h), m, opt, late);
    FastPathIs(h, m, opt, late);
    KeyOutcomeIs(h, m, opt, late, lateFull);
    var found := Search.FullResult(Returned(h), m, opt, late);
    AppendAll(m, found.finalState.value, Unanswered(h), found.visits);
  }

  lemma ProbeIsWhole(opt: Options, n: nat)
    requires 0 < opt.maxVisits <= n
    ensures Probe(opt, n) == opt
  {
  }

  // ----- Keys on which nothing was answered

  lemma NothingToSearch(m: Model, opt: Options, late: Clock)
    ensures AllOrdered([])
    ensures var kr := Search.FullResult([], m, opt, late);
            kr.verdict == Verdict.Linearizable && kr.visits == 0 && kr.finalState == Some(m.Init())
  {
    var t := Laid([]);
    LaidIsValid([]);
    Search.FullResultOf([], m, opt, late);
    Opens(t, m, opt, late);
    RunUnfolds(t, m, opt, late, M.Start(t, m), 0);
    assert M.Start(t, m).Done() == {};
  }

  /** Nothing is searched, so no budget, ceiling or clock is looked at: the operations
      are appended one after the other, and if none is refused the key passes. */
  lemma UnansweredIsAppended(ops: seq<Op>, m: Model, opt: Options, late: Clock, lateFull: Clock)
    requires ops != [] && AllOrdered(ops) && Returned(ops) == [] && Unanswered(ops) == ops
    ensures FastPath(ops, m, opt, late) == Append(m, m.Init(), ops, 0)
    ensures Append(m, m.Init(), ops, 0).0 ==>
              var kr := KeyOutcome(ops, m, opt, late, lateFull);
              kr.verdict == Verdict.Linearizable && kr.visits == Append(m, m.Init(), ops, 0).1
  {
    hide *;
    NothingToSearch(m, Probe(opt, |ops|), late);
    FastPathIs(ops, m, opt, late);
    KeyOutcomeIs(ops, m, opt, late, lateFull);
  }

  lemma OnlyUnanswered(ops: seq<Op>)
    requires Returned(ops) == []
    ensures Unanswered(ops) == ops && forall o :: o in ops ==> o.outcome == Info
  {
    forall o | o in ops ensures o.outcome == Info {
      if o.outcome != Info { CollectMember(KeepReturned(), ops, o); }
    }
    CollectAll(KeepIndeterminate(), ops);
  }

  /** Whatever the budget, the ceiling and the clock, there are valid keys that exceed the
      budget and pass. */
  lemma CapIsExceededAnyway(m: Model, opt: Options, unanswered: nat, late: Clock, lateFull: Clock)
    requires m == CAS_REGISTER || m == REGISTER
    requires unanswered > opt.maxVisits > 0
    ensures var h := Writes(0, unanswered);
            && Searchable(h) && Recorded(h) && ValidHistory(h) && |Unanswered(h)| == unanswered
            && var kr := KeyOutcome(h, m, opt, late, lateFull);
               kr.verdict == Verdict.Linearizable && kr.visits == unanswered > opt.maxVisits
  {
    hide *;
    var h := Writes(0, unanswered);
    WritesAreValid(0, unanswered);
    HalvesOfWrites(0, unanswered);
    SearchableIsOrdered(h);
    OnlyUnanswered(h);
    UnansweredIsAppended(h, m, opt, late, lateFull);
    AppendAll(m, m.Init(), h, 0);
  }

  // ----- The deadline

  /** Past the deadline from the start, a search of anything at all is undecided. */
  lemma LateFromTheStart(ops: seq<Op>, m: Model, opt: Options, late: Clock)
    requires ops != [] && AllOrdered(ops) && opt.timeout && late(0)
    ensures var kr := Search.FullResult(ops, m, opt, late);
            kr.verdict == Verdict.Unknown && kr.visits == 0
  {
    var t := Laid(ops);
    LaidIsValid(ops);
    Search.FullResultOf(ops, m, opt, late);
    Opens(t, m, opt, late);
    SmoothStart(t, m);
    NotYetComplete(t, m);
    hide Laid, T.Timeline.Valid, M.Inv, M.Complete, M.Stuck, M.Next;
    RunUnfolds(t, m, opt, late, M.Start(t, m), 0);
  }

  lemma NotYetComplete(t: T.Timeline, m: Model)
    requires t.Valid() && t.ops != []
    ensures !M.Complete(t, M.Start(t, m)) && M.Start(t, m).visits == 0
  {
    assert M.Start(t, m).Done() == {};
    assert t.Live({}, 0);
  }

  /** The deadline is documented never to be exceeded by a pass. With a clock that is past
      it from the start, that is so exactly for keys on which something was answered, or
      one of whose operations is refused when they are applied in turn. */
  lemma LateClockIff(ops: seq<Op>, m: Model, opt: Options, late: Clock, lateFull: Clock)
    requires ops != [] && AllOrdered(ops) && opt.timeout && late(0) && lateFull(0)
    ensures KeyOutcome(ops, m, opt, late, lateFull).verdict == Verdict.Unknown <==>
            Returned(ops) != [] || !Append(m, m.Init(), ops, 0).0
    ensures KeyOutcome(ops, m, opt, late, lateFull).verdict != Verdict.NotLinearizable
  {
    hide *;
    KeyOutcomeIs(ops, m, opt, late, lateFull);
    var (found, spent) := FastPath(ops, m, opt, late);
    SameDeadline(opt, |ops|, spent);
    LateFromTheStart(ops, m, Remaining(opt, spent), lateFull);
    FastPathIs(ops, m, opt, late);
    if Returned(ops) == [] {
      OnlyUnanswered(ops);
      UnansweredIsAppended(ops, m, opt, late, lateFull);
    } else {
      LateFromTheStart(Returned(ops), m, Probe(opt, |ops|), late);
    }
  }

  lemma SameDeadline(opt: Options, n: nat, spent: nat)
    ensures Remaining(opt, spent).timeout == opt.timeout == Probe(opt, n).timeout
  {
  }

  /** To the compare-and-swap register only the first counts. */
  lemma LateClockPassesTheUnanswered(ops: seq<Op>, opt: Options, late: Clock, lateFull: Clock)
    requires ops != [] && AllOrdered(ops) && opt.timeout && late(0) && lateFull(0)
    ensures KeyOutcome(ops, CAS_REGISTER, opt, late, lateFull).verdict ==
            if Returned(ops) == [] then Verdict.Linearizable else Verdict.Unknown
  {
    LateClockIff(ops, CAS_REGISTER, opt, late, lateFull);
    if Returned(ops) == [] {
      OnlyUnanswered(ops);
      hide KeyOutcome, AllOrdered;
      InfoIsAlwaysAccepted(ops);
      AppendAll(CAS_REGISTER, CAS_REGISTER.Init(), ops, 0);
    }
  }

  lemma InfoIsAlwaysAccepted(ops: seq<Op>)
    requires forall o :: o in ops ==> o.outcome == Info
    ensures AlwaysAccepted(CAS_REGISTER, ops)
  {
  }

  // ----- Calls at the end of time

  /** As many writes that never returned, all called at the end of time. */
  function LateWrites(n: nat): (h: seq<Op>)
    ensures |h| == n
    ensures forall i :: 0 <= i < n ==> h[i] == Op(i, "k", Write, i, 0, 0, 0, false, Info, PENDING, PENDING, "")
  {
    seq(n, i requires 0 <= i < n => Op(i, "k", Write, i, 0, 0, 0, false, Info, PENDING, PENDING, ""))
  }

  lemma LateWritesAre(n: nat)
    ensures forall o :: o in LateWrites(n) ==>
              && o.key == "k" && o.kind == Write && o.outcome == Info && o.invoke == PENDING && o.complete == PENDING
              && Sound(o)
    ensures Pairwise(Clashless(), LateWrites(n)) && Pairwise(Sequential(), LateWrites(n))
    ensures SortedBy(EarlierFirst(), LateWrites(n))
  {
  }

  /** They are a valid key, sorted, and none of them was answered. */
  lemma LateWritesAreValid(n: nat)
    ensures var h := LateWrites(n);
            && ValidHistory(h) && Checkable(h) && OnKey(Live(h), "k") == h && Late(h) == h
            && Returned(h) == [] && ByInvoke(h) == h
  {
    var h := LateWrites(n);
    LateWritesAre(n);
    hide LateWrites, Collect, Sort;
    LiveOnKey(h, "k");
    CollectAll(KeepLiveOnKey("k"), h);
    CollectAll(KeepLate(), h);
    CollectNone(KeepReturned(), h);
    SortedStays(EarlierFirst(), h);
  }

  lemma LateWritesCollide(n: nat)
    ensures CollisionFree(LateWrites(n)) <==> n <= 1
  {
    var h := LateWrites(n);
    if n > 1 { assert Colliding(h[0], h[1]); }
  }

  lemma WritesAreAccepted(m: Model, h: seq<Op>)
    requires m == CAS_REGISTER || m == REGISTER
    requires forall o :: o in h ==> o.kind == Write
    ensures AlwaysAccepted(m, h)
  {
  }

  /** However many they are, they pass; and there is an order of them only if there is no
      more than one. */
  lemma LateWritesPass(n: nat, m: Model, opt: Options, late: Clock, lateFull: Clock)
    requires m == CAS_REGISTER || m == REGISTER
    ensures AllOrdered(LateWrites(n))
    ensures KeyOutcome(LateWrites(n), m, opt, late, lateFull).verdict == Verdict.Linearizable
    ensures HasLinearization(m, LateWrites(n)) <==> n <= 1
  {
    hide *;
    var h := LateWrites(n);
    LateWritesAre(n);
    LateWritesAreValid(n);
    LateWritesCollide(n);
    CheckableIs(h);
    SortedIsRecorded(h);
    KeyIsExact(h, m, opt, late, lateFull);
    if n == 0 {
      assert h == [];
      NoOutcome(m, opt, late, lateFull);
    } else {
      OnlyUnanswered(h);
      WritesAreAccepted(m, h);
      AppendAll(m, m.Init(), h, 0);
      UnansweredIsAppended(h, m, opt, late, lateFull);
    }
  }

  /** Every decisive verdict on a key with so many calls at the end of time is true. */
  ghost predicate Truthful(n: nat, m: Model, opt: Options) {
    forall ops, late {:trigger KeyAnswer("k", ops, m, opt, late)} :: Checkable(ops) && |Late(ops)| == n ==>
      var v := KeyAnswer("k", ops, m, opt, late).verdict;
      && (v == Verdict.Linearizable ==> HasLinearization(m, ops))
      && (v == Verdict.NotLinearizable ==> !HasLinearization(m, ops))
  }

  lemma FewAreApart(ops: seq<Op>)
    requires Checkable(ops) && |Late(ops)| <= 1
    ensures CollisionFree(ops)
  {
    forall i, j | 0 <= i < j < |ops| ensures !Colliding(ops[i], ops[j]) {
      if Colliding(ops[i], ops[j]) {
        assert CollideLate()(ops[i], ops[j]);
        TwoAreLate(ops, i, j);
      }
    }
  }

  lemma TwoAreLate(ops: seq<Op>, i: nat, j: nat)
    requires i < j < |ops| && ops[i].invoke == PENDING && ops[j].invoke == PENDING
    ensures |Late(ops)| >= 2
  {
    var f := KeepLate();
    var a, b, c := ops[..i], ops[i + 1..j], ops[j + 1..];
    assert ops == a + [ops[i]] + b + [ops[j]] + c;
    CollectAppend(f, a + [ops[i]] + b + [ops[j]], c);
    CollectAppend(f, a + [ops[i]] + b, [ops[j]]);
    CollectAppend(f, a + [ops[i]], b);
    CollectAppend(f, a, [ops[i]]);
    CollectAll(f, [ops[i]]);
    CollectAll(f, [ops[j]]);
  }

  /** Which is so exactly for no such call, or one. */
  lemma TruthfulIff(n: nat, m: Model, opt: Options)
    requires m == CAS_REGISTER || m == REGISTER
    ensures Truthful(n, m, opt) <==> n <= 1
  {
    if n <= 1 {
      hide Checkable, KeyAnswer, HasLinearization, CollisionFree, Late;
      forall ops, late | Checkable(ops) && |Late(ops)| == n
        ensures var v := KeyAnswer("k", ops, m, opt, late).verdict;
                && (v == Verdict.Linearizable ==> HasLinearization(m, ops))
                && (v == Verdict.NotLinearizable ==> !HasLinearization(m, ops))
      {
        FewAreApart(ops);
        KeyAnswerIsExact("k", ops, m, opt, late);
      }
    } else {
      LateWritesAreUntruthful(n, m, opt);
    }
  }

  lemma LateWritesAreUntruthful(n: nat, m: Model, opt: Options)
    requires n > 1 && (m == CAS_REGISTER || m == REGISTER)
    ensures !Truthful(n, m, opt)
  {
    var h := LateWrites(n);
    var late: KeyClocks := (k, full) => (i => false);
    hide *;
    LateWritesAreValid(n);
    LateWritesPass(n, m, opt, late("k", false), late("k", true));
    AnswerOfSorted(h, m, opt, late);
    NotTruthful(h, m, opt, late);
  }

  lemma NotTruthful(ops: seq<Op>, m: Model, opt: Options, late: KeyClocks)
    requires Checkable(ops) && KeyAnswer("k", ops, m, opt, late).verdict == Verdict.Linearizable
    requires !HasLinearization(m, ops)
    ensures !Truthful(|Late(ops)|, m, opt)
  {
    hide Checkable, KeyAnswer, HasLinearization, Late;
  }

  lemma AnswerOfSorted(ops: seq<Op>, m: Model, opt: Options, late: KeyClocks)
    requires Checkable(ops) && ByInvoke(ops) == ops
    ensures AllOrdered(ops)
    ensures KeyAnswer("k", ops, m, opt, late) == KeyOutcome(ops, m, opt, late("k", false), late("k", true))
  {
    hide AllOrdered, KeyOutcome, Sort;
  }

  // ----- When the budget is a cap

  /** Every key with this many operations without an answer is decided within the
      budget of transitions. */
  ghost predicate CapHolds(m: Model, opt: Options, unanswered: nat) {
    forall ops, a, b :: AllOrdered(ops) && |Unanswered(ops)| == unanswered ==>
      KeyOutcome(ops, m, opt, a, b).visits <= opt.maxVisits
  }

  /** The budget is the cap it is documented to be exactly for keys on which every
      operation got an answer. */
  lemma CapHoldsIff(m: Model, opt: Options, unanswered: nat)
    requires m == CAS_REGISTER || m == REGISTER
    requires opt.maxVisits > 0 && RoomFor(opt, opt.maxVisits)
    ensures CapHolds(m, opt, unanswered) <==> unanswered == 0
  {
    hide KeyOutcome, AllOrdered, Searchable, Recorded, Unanswered, ValidHistory, Writes;
    if unanswered == 0 {
      forall ops, a, b | AllOrdered(ops) && |Unanswered(ops)| == unanswered
        ensures KeyOutcome(ops, m, opt, a, b).visits <= opt.maxVisits
      {
        KeyCost(ops, m, opt, a, b);
      }
    } else {
      var never: Clock := k => false;
      CapIsExceeded(m, opt, unanswered, never, never);
      var h := Writes(opt.maxVisits, unanswered);
      SearchableIsOrdered(h);
      assert KeyOutcome(h, m, opt, never, never).visits > opt.maxVisits;
    }
  }

  /** Nor is it a cap whatever the ceiling on memory, once there are more of them than the
      budget allows transitions. */
  lemma CapFailsAnyway(m: Model, opt: Options, unanswered: nat)
    requires m == CAS_REGISTER || m == REGISTER
    requires unanswered > opt.maxVisits > 0
    ensures !CapHolds(m, opt, unanswered)
  {
    hide KeyOutcome, AllOrdered, Searchable, Recorded, Unanswered, ValidHistory, Writes;
    var never: Clock := k => false;
    CapIsExceededAnyway(m, opt, unanswered, never, never);
    var h := Writes(0, unanswered);
    SearchableIsOrdered(h);
    assert KeyOutcome(h, m, opt, never, never).visits > opt.maxVisits;
  }

  // ----- Budgets that suffice

  /** What deciding n operations of a register can cost at most. */
  function WorstCase(n: nat): int { n * (1 + Pow2(n) * (n + 1)) + 33 * n }

  lemma FullVisitsAreBounded(ops: seq<Op>, m: Model, opt: Options, late: Clock)
    requires AllOrdered(ops) && (m == CAS_REGISTER || m == REGISTER)
    ensures var n := |ops|; Search.FullResult(ops, m, opt, late).visits <= n * (1 + Pow2(n) * (n + 1))
  {
    hide *;
    Search.FullResultOf(ops, m, opt, late);
    LaidIsSized(ops);
    VisitsAreBounded(Laid(ops), m, opt, late);
    RememberedIsBounded(Laid(ops), m, opt, late);
    var n, seen := |ops|, |RunFromStart(Laid(ops), m, opt, late).last.seen|;
    Grows(n, 1 + seen, 1 + Pow2(n) * (n + 1));
  }

  lemma KeyVisitsAreBounded(ops: seq<Op>, m: Model, opt: Options, late: Clock, lateFull: Clock)
    requires AllOrdered(ops) && (m == CAS_REGISTER || m == REGISTER)
    ensures KeyOutcome(ops, m, opt, late, lateFull).visits <= WorstCase(|ops|)
  {
    hide *;
    NoOutcome(m, opt, late, lateFull);
    WorstCaseIs(|ops|);
    if ops != [] {
      KeyOutcomeIs(ops, m, opt, late, lateFull);
      FastPathCost(ops, m, opt, late);
      FewUnanswered(ops);
      FullVisitsAreBounded(ops, m, Remaining(opt, FastPath(ops, m, opt, late).1), lateFull);
    }
  }

  lemma FewUnanswered(ops: seq<Op>)
    ensures |Unanswered(ops)| <= |ops| && INDETERMINATE_LAST_VISITS == 32
  {
  }

  lemma WorstCaseIs(n: nat)
    ensures WorstCase(n) == n * (1 + Pow2(n) * (n + 1)) + 33 * n
    ensures WorstCase(n) >= 33 * n
  {
    Grows(n, 0, 1 + Pow2(n) * (n + 1));
  }

  lemma {:induction false} WorstCaseGrows(a: nat, b: nat)
    requires a <= b
    ensures WorstCase(a) <= WorstCase(b) && EntryBytes(a) <= EntryBytes(b)
    decreases b
  {
    hide *;
    if a < b {
      WorstCaseGrows(a, b - 1);
      OneMoreCosts(b - 1);
    }
  }

  lemma OneMoreCosts(n: nat)
    ensures WorstCase(n) <= WorstCase(n + 1) && EntryBytes(n) <= EntryBytes(n + 1)
  {
    hide *;
    OneMoreDoubles(n);
    var p := Pow2(n);
    WorstCaseIs(n);
    WorstCaseIs(n + 1);
    Grows(p, n + 1, n + 2);
    TwoHalves(p, n + 2);
    BothGrow(n, 1 + p * (n + 1), 1 + 2 * p * (n + 2));
  }

  lemma OneMoreDoubles(n: nat)
    ensures Pow2(n + 1) == 2 * Pow2(n) && EntryBytes(n) <= EntryBytes(n + 1)
  {
  }

  lemma BothGrow(n: nat, x: nat, y: nat)
    requires x <= y
    ensures n * x <= (n + 1) * y
  {
    Grows(n, x, y);
    SearchTheorems.Scaled(n, n + 1, y);
  }

  /** Any key of n operations is within these limits. */
  predicate Suffices(opt: Options, n: nat) {
    && (opt.maxVisits > 0 ==> WorstCase(n) < opt.maxVisits)
    && (opt.maxCacheBytes > 0 ==> WorstCase(n) * EntryBytes(n) < opt.maxCacheBytes)
  }

  /** A register key of no more operations is decided, unless the deadline passes. */
  lemma SufficientDecides(ops: seq<Op>, n: nat, m: Model, opt: Options, late: Clock, lateFull: Clock)
    requires AllOrdered(ops) && (m == CAS_REGISTER || m == REGISTER)
    requires |ops| <= n && Suffices(opt, n) && (opt.timeout ==> NeverLate(lateFull))
    ensures KeyOutcome(ops, m, opt, late, lateFull).verdict != Verdict.Unknown
  {
    hide *;
    var kr := KeyOutcome(ops, m, opt, late, lateFull);
    if kr.verdict == Verdict.Unknown {
      KeyUnknownIsEarned(ops, m, opt, late, lateFull);
      KeyVisitsAreBounded(ops, m, opt, late, lateFull);
      WorstCaseGrows(|ops|, n);
      WithinLimits(opt, n, lateFull, kr.visits, EntryBytes(|ops|));
    }
  }

  lemma WithinLimits(opt: Options, n: nat, late: Clock, visits: nat, each: nat)
    requires Suffices(opt, n) && (opt.timeout ==> NeverLate(late))
    requires visits <= WorstCase(n) && each <= EntryBytes(n)
    ensures !RanOut(opt, late, visits, visits * each)
  {
    hide WorstCase, EntryBytes;
    Grows(visits, each, EntryBytes(n));
    SearchTheorems.Scaled(visits, WorstCase(n), EntryBytes(n));
  }

  /** Then every probe of its minimisation is decided as well. */
  lemma SufficientMinimises(h: seq<Op>, n: nat, m: Model, opt: Options, late: Clocks)
    requires Checkable(h) && (m == CAS_REGISTER || m == REGISTER)
    requires |h| <= n && Suffices(opt, n) && (opt.timeout ==> forall k, full :: NeverLate(late(k, full)))
    ensures !SomeProbeIsUndecided(h, m, opt, late)
  {
    forall t: Int64, k: nat ensures Probing(h, t, m, opt, late, k).verdict != Verdict.Unknown {
      ProbeIsAllowed(h, t);
      hide Checkable, KeyOutcome, AllOrdered, WorstCase, EntryBytes, Sort;
      SufficientDecides(SortedTruncation(h, t), n, m, opt.(minimize := false), late(k, false), late(k, true));
    }
  }

  /** A history of such keys is decided, and a refusal comes with a counterexample. */
  lemma SmallKeysAreDecided(h: seq<Op>, n: nat, m: Model, opt: Options, late: Check.Clockwork, res: Check.Result)
    requires ValidHistory(h) && Check.Tells(h, m, opt, late.search, res) && (m == CAS_REGISTER || m == REGISTER)
    requires Suffices(opt, n) && forall k :: |Check.LiveKey(h, k)| <= n
    requires opt.timeout ==> forall k, full :: NeverLate(late.search(k, full))
    requires opt.timeout ==> forall k, full :: NeverLate(late.probes(k, full))
    ensures res.verdict != Verdict.Unknown
    ensures forall k :: !Check.KeyIsUndecided(h, k, m, opt, late.probes)
  {
    hide *;
    forall k
      ensures Check.Stat(h, k, m, opt, late.search).verdict != Verdict.Unknown
      ensures !Check.KeyIsUndecided(h, k, m, opt, late.probes)
    {
      SmallKeyIsDecided(h, k, n, m, opt, late);
    }
    Check.WorstKeyIsReported(h, m, opt, late.search, res);
  }

  lemma SmallKeyIsDecided(h: seq<Op>, k: string, n: nat, m: Model, opt: Options, late: Check.Clockwork)
    requires ValidHistory(h) && (m == CAS_REGISTER || m == REGISTER)
    requires Suffices(opt, n) && |Check.LiveKey(h, k)| <= n
    requires opt.timeout ==> forall k, full :: NeverLate(late.search(k, full))
    requires opt.timeout ==> forall k, full :: NeverLate(late.probes(k, full))
    ensures Check.Stat(h, k, m, opt, late.search).verdict != Verdict.Unknown
    ensures !Check.KeyIsUndecided(h, k, m, opt, late.probes)
  {
    var ops := Check.LiveKey(h, k);
    Check.KeyIsCheckable(h, k);
    Check.StatIsAnswer(h, k, m, opt, late.search);
    SortedIsRecorded(ops);
    hide Checkable, ValidHistory, AllOrdered, Check.LiveKey, KeyOutcome, Suffices, Sort, SomeProbeIsUndecided;
    SufficientDecides(ByInvoke(ops), n, m, opt, late.search(k, false), late.search(k, true));
    SufficientMinimises(ByInvoke(ops), n, m, opt, late.probes);
  }

  /** With the limits the command sets, two million transitions and 512 MB, that is so for
      thirteen operations. */
  lemma DefaultSuffices(opt: Options)
    requires opt.maxVisits == 2_000_000 && opt.maxCacheBytes == 512 * 0x10_0000
    ensures Suffices(opt, 13)
  {
    assert Pow2(4) == 16;
    assert Pow2(8) == 256;
    assert Pow2(13) == 8192;
    assert WorstCase(13) == 13 * (1 + 8192 * 14) + 33 * 13;
  }
}
