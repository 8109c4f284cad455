/** The structural invariants a recorded history must satisfy. */
module Validity {
  import opened History
  import opened Linearization
  import opened Sorting
  import opened Pairs
  import opened Truncating
  import opened Minimise
  import opened Model
  import opened Layout
  import M = Machine
  import T = Timeline
  import KeySearch

  // ----- What validity means, without saying how it is checked

  /** One operation on its own. */
  predicate Sound(o: Op) {
    && o.invoke >= 0
    && o.key != ""
    && (o.outcome == Info <==> o.complete == PENDING)
    && o.Ordered()
    && !(o.kind == CAS && o.from == o.to)
  }

  /** It returned at the very moment it was called. */
  predicate AtOnce(o: Op) { o.outcome != Info && o.complete == o.invoke }

  /** Two operations on one key do not both happen at once at the same moment. */
  predicate NoClash(o: Op, p: Op) {
    !(AtOnce(o) && AtOnce(p) && o.key == p.key && o.invoke == p.invoke)
  }

  /** One was answered by the time the other began. */
  predicate Then(o: Op, p: Op) { o.outcome != Info && o.complete <= p.invoke }

  /** One client has one request in flight. */
  predicate TakeTurns(o: Op, p: Op) {
    o.process == p.process ==> Then(o, p) || Then(p, o)
  }

  function Clashless(): (Op, Op) -> bool { (o: Op, p: Op) => NoClash(o, p) }
  function Sequential(): (Op, Op) -> bool { (o: Op, p: Op) => TakeTurns(o, p) }

  /** Every condition is on one operation or on an unordered pair of them. */
  ghost predicate ValidHistory(h: seq<Op>) {
    && (forall o :: o in h ==> Sound(o))
    && Pairwise(Clashless(), h)
    && Pairwise(Sequential(), h)
  }

  /** Validity does not depend on the layout. */
  lemma ValidRearranged(a: seq<Op>, b: seq<Op>)
    requires multiset(a) == multiset(b)
    ensures ValidHistory(a) <==> ValidHistory(b)
  {
    SameMembers(a, b);
    hide Pairwise;
    if Pairwise(Clashless(), a) { PairwiseRearranged(Clashless(), a, b); }
    if Pairwise(Clashless(), b) { PairwiseRearranged(Clashless(), b, a); }
    if Pairwise(Sequential(), a) { PairwiseRearranged(Sequential(), a, b); }
    if Pairwise(Sequential(), b) { PairwiseRearranged(Sequential(), b, a); }
  }

  lemma CutIsSound(o: Op, t: Int64)
    requires Sound(o) && Cut(t)(o).Some?
    ensures Sound(Cut(t)(o).value)
  {
  }

  lemma CutKeepsPairs(o: Op, p: Op, t: Int64)
    requires Cut(t)(o).Some? && Cut(t)(p).Some?
    ensures NoClash(o, p) ==> NoClash(Cut(t)(o).value, Cut(t)(p).value)
    ensures TakeTurns(o, p) ==> TakeTurns(Cut(t)(o).value, Cut(t)(p).value)
  {
  }

  /** Whatever the moment, what was known of a valid history then is valid. */
  lemma TruncationIsValid(h: seq<Op>, t: Int64)
    requires ValidHistory(h)
    ensures ValidHistory(Truncation(h, t))
  {
    hide Pairwise, NoClash, TakeTurns, Sound;
    forall o | o in Truncation(h, t) ensures Sound(o) {
      var p := CollectOrigin(Cut(t), h, o);
      CutIsSound(p, t);
    }
    forall o, p | Cut(t)(o).Some? && Cut(t)(p).Some?
      ensures NoClash(o, p) ==> NoClash(Cut(t)(o).value, Cut(t)(p).value)
      ensures TakeTurns(o, p) ==> TakeTurns(Cut(t)(o).value, Cut(t)(p).value)
    {
      CutKeepsPairs(o, p, t);
    }
    PairwiseCollect(Clashless(), Clashless(), Cut(t), h);
    PairwiseCollect(Sequential(), Sequential(), Cut(t), h);
  }

  // ----- The check

  datatype Malformed =
    | NegativeInvoke(op: nat)
    | EmptyKey(op: nat)
    | NoCompletion(op: nat)
    | CompletesBeforeInvoked(op: nat)
    | IndeterminateCompleted(op: nat)
    | NoOpSwap(op: nat)
    | SecondInstant(op: nat)
    | AfterIndeterminate(process: int)
    | Overlap(process: int)

  /** The complaint is justified. */
  ghost predicate Justified(h: seq<Op>, e: Malformed) {
    match e
    case NegativeInvoke(i) => i < |h| && h[i].invoke < 0
    case EmptyKey(i) => i < |h| && h[i].key == ""
    case NoCompletion(i) => i < |h| && h[i].outcome != Info && h[i].complete == PENDING
    case CompletesBeforeInvoked(i) => i < |h| && h[i].outcome != Info && h[i].complete < h[i].invoke
    case IndeterminateCompleted(i) => i < |h| && h[i].outcome == Info && h[i].complete != PENDING
    case NoOpSwap(i) => i < |h| && h[i].kind == CAS && h[i].from == h[i].to
    case SecondInstant(i) => i < |h| && exists j :: 0 <= j < i && !NoClash(h[j], h[i])
    case AfterIndeterminate(p) => !Pairwise(Sequential(), OnProcess(h, p))
    case Overlap(p) => !Pairwise(Sequential(), OnProcess(h, p))
  }

  /** Condition by condition. */
  lemma ValidHistoryIs(h: seq<Op>)
    ensures ValidHistory(h) <==>
            && (forall o :: o in h ==>
                  && 0 <= o.invoke <= o.complete && o.key != "" && (o.outcome == Info <==> o.complete == PENDING)
                  && (o.kind == CAS ==> o.from != o.to))
            && (forall i, j ::
                  0 <= i < j < |h| && h[i].key == h[j].key && h[i].outcome != Info && h[j].outcome != Info ==>
                  !(h[i].invoke == h[i].complete == h[j].invoke == h[j].complete))
            && (forall i, j :: 0 <= i < j < |h| && h[i].process == h[j].process ==>
                  || (h[i].outcome != Info && h[i].complete <= h[j].invoke)
                  || (h[j].outcome != Info && h[j].complete <= h[i].invoke))
  {
    forall i, j | 0 <= i < j < |h|
      ensures Clashless()(h[i], h[j]) <==>
              (h[i].key == h[j].key && h[i].outcome != Info && h[j].outcome != Info ==>
                 !(h[i].invoke == h[i].complete == h[j].invoke == h[j].complete))
      ensures Sequential()(h[i], h[j]) <==>
              (h[i].process == h[j].process ==>
                 || (h[i].outcome != Info && h[i].complete <= h[j].invoke)
                 || (h[j].outcome != Info && h[j].complete <= h[i].invoke))
    {
    }
  }

  /** What is wrong with one operation, if anything. */
  lemma ComplaintAbout(h: seq<Op>, i: nat)
    requires i < |h|
    ensures Sound(h[i]) <==>
            && !Justified(h, NegativeInvoke(i)) && !Justified(h, EmptyKey(i)) && !Justified(h, NoCompletion(i))
            && !Justified(h, CompletesBeforeInvoked(i)) && !Justified(h, IndeterminateCompleted(i))
            && !Justified(h, NoOpSwap(i))
  {
  }

  lemma ValidGivesNoReason(h: seq<Op>, e: Malformed)
    requires ValidHistory(h)
    ensures !Justified(h, e)
  {
    SequentialByProcess(h);
    hide OnProcess;
    match e
    case AfterIndeterminate(_) =>
    case Overlap(_) =>
    case SecondInstant(i) =>
      if i < |h| {
        forall j | 0 <= j < i ensures NoClash(h[j], h[i]) {
          assert Clashless()(h[j], h[i]);
        }
      }
    case _ => if e.op < |h| { ComplaintAbout(h, e.op); }
  }

  /** Valid is what gives no reason to complain. */
  lemma ValidIffNoComplaint(h: seq<Op>)
    ensures ValidHistory(h) <==> forall e :: !Justified(h, e)
  {
    if ValidHistory(h) {
      forall e ensures !Justified(h, e) {
        ValidGivesNoReason(h, e);
      }
    } else {
      var e := SomeReason(h);
    }
  }

  lemma SomeReason(h: seq<Op>) returns (e: Malformed)
    requires !ValidHistory(h)
    ensures Justified(h, e)
  {
    SequentialByProcess(h);
    hide OnProcess, Sound;
    if o :| o in h && !Sound(o) {
      var i :| 0 <= i < |h| && h[i] == o;
      ComplaintAbout(h, i);
      e :| Justified(h, e);
    } else if i, j :| 0 <= i < j < |h| && !Clashless()(h[i], h[j]) {
      e := SecondInstant(j);
    } else {
      var p :| !Pairwise(Sequential(), OnProcess(h, p));
      e := Overlap(p);
    }
  }

  function ProcessOf(): Op -> int { (o: Op) => o.process }
  function KeepOnProcess(p: int): Op -> Option<Op> { KeepLabel(ProcessOf(), p) }
  function OnProcess(h: seq<Op>, p: int): seq<Op> { Collect(KeepOnProcess(p), h) }

  lemma {:induction false} OnProcessIs(h: seq<Op>, p: int)
    ensures forall o :: o in OnProcess(h, p) <==> o in h && o.process == p
    ensures OnProcess(h, p) == [] <==> forall o :: o in h ==> o.process != p
  {
    if h == [] {
    } else {
      OnProcessIs(h[1..], p);
    }
  }

  lemma SequentialByProcess(h: seq<Op>)
    ensures Pairwise(Sequential(), h) <==> forall p :: Pairwise(Sequential(), OnProcess(h, p))
  {
    PairwiseByLabel(Sequential(), ProcessOf(), h);
    assert forall p :: OnProcess(h, p) == Collect(KeepLabel(ProcessOf(), p), h);
  }

  /** By invocation and then by completion. */
  function StartOrder(): (Op, Op) -> bool {
    (o: Op, p: Op) => o.invoke < p.invoke || (o.invoke == p.invoke && o.complete <= p.complete)
  }

  lemma StartOrderIsTotal()
    ensures TotalPreorder(StartOrder())
  {
    var leq := StartOrder();
    forall o, p, q ensures (leq(o, p) || leq(p, o)) && (leq(o, p) && leq(p, q) ==> leq(o, q)) {
    }
  }

  /** Operations of one process, in the order they started. */
  ghost predicate Arranged(s: seq<Op>, p: int) {
    && SortedBy(StartOrder(), s)
    && forall o :: o in s ==> Sound(o) && o.process == p
  }

  /** Each neighbour was answered before the next began. */
  ghost predicate Handover(s: seq<Op>, n: nat) {
    forall i {:trigger s[i]} :: 0 < i < n && i < |s| ==> Then(s[i - 1], s[i])
  }

  /** In start order, only the earlier of two can have been answered first. */
  lemma OnlyForwards(o: Op, p: Op)
    requires Sound(o) && Sound(p) && o.process == p.process && StartOrder()(o, p)
    ensures TakeTurns(o, p) <==> Then(o, p)
  {
  }

  lemma {:induction false} HandoverReaches(s: seq<Op>, p: int, i: nat, j: nat)
    requires Arranged(s, p) && Handover(s, |s|) && i < j < |s|
    ensures Then(s[i], s[j])
    decreases j
  {
    assert Then(s[j - 1], s[j]);
    if i < j - 1 {
      HandoverReaches(s, p, i, j - 1);
      assert s[j - 1] in s && s[j] in s;
    }
  }

  /** Looking at neighbours is enough: the order they are sorted into chooses nothing. */
  lemma NeighboursSuffice(s: seq<Op>, p: int)
    requires Arranged(s, p)
    ensures Pairwise(Sequential(), s) <==> Handover(s, |s|)
  {
    if Handover(s, |s|) {
      forall i, j | 0 <= i < j < |s| ensures TakeTurns(s[i], s[j]) {
        HandoverReaches(s, p, i, j);
      }
    }
    if Pairwise(Sequential(), s) {
      forall i | 0 < i < |s| ensures Then(s[i - 1], s[i]) {
        assert Sequential()(s[i - 1], s[i]);
        assert s[i - 1] in s && s[i] in s;
        OnlyForwards(s[i - 1], s[i]);
      }
    }
  }

  /** Checks one operation, as far as that can be done without the others. */
  method CheckOne(o: Op, i: nat) returns (e: Option<Malformed>)
    ensures e.None? <==> Sound(o)
    ensures e.Some? ==> forall h: seq<Op> :: i < |h| && h[i] == o ==> Justified(h, e.value)
  {
    if o.invoke < 0 {
      return Some(NegativeInvoke(i));
    }
    if o.key == "" {
      return Some(EmptyKey(i));
    }
    match o.outcome {
      case OK | Fail =>
        if o.complete == PENDING {
          return Some(NoCompletion(i));
        }
        if o.complete < o.invoke {
          return Some(CompletesBeforeInvoked(i));
        }
      case Info =>
        if o.complete != PENDING {
          return Some(IndeterminateCompleted(i));
        }
    }
    if o.kind == CAS && o.from == o.to {
      return Some(NoOpSwap(i));
    }
    return None;
  }

  /** The operations of every process seen among the first i. */
  ghost predicate Grouped(h: seq<Op>, i: nat, byProc: map<int, seq<Op>>)
    requires i <= |h|
  {
    && (forall p :: p in byProc <==> OnProcess(h[..i], p) != [])
    && (forall p :: p in byProc ==> byProc[p] == OnProcess(h[..i], p))
  }

  lemma GroupOneMore(h: seq<Op>, i: nat, byProc: map<int, seq<Op>>)
    requires i < |h| && Grouped(h, i, byProc)
    ensures var p := h[i].process;
            Grouped(h, i + 1, byProc[p := (if p in byProc then byProc[p] else []) + [h[i]]])
  {
    forall p ensures OnProcess(h[..i + 1], p) ==
                     OnProcess(h[..i], p) + (if h[i].process == p then [h[i]] else []) {
      CollectOneMore(KeepOnProcess(p), h, i);
    }
  }

  /** The moments at which something happened at once among the first i. */
  ghost predicate Remembered(h: seq<Op>, i: nat, instants: set<(string, Int64)>)
    requires i <= |h|
  {
    forall at :: at in instants <==> exists j :: 0 <= j < i && AtOnce(h[j]) && at == (h[j].key, h[j].invoke)
  }

  lemma ClashIsRemembered(h: seq<Op>, i: nat, instants: set<(string, Int64)>)
    requires i < |h| && Remembered(h, i, instants)
    ensures AtOnce(h[i]) && (h[i].key, h[i].invoke) in instants <==> exists j :: 0 <= j < i && !NoClash(h[j], h[i])
    ensures Remembered(h, i + 1, if AtOnce(h[i]) then instants + {(h[i].key, h[i].invoke)} else instants)
  {
  }

  lemma NoClashOneMore(h: seq<Op>, i: nat)
    requires i < |h| && Pairwise(Clashless(), h[..i])
    ensures Pairwise(Clashless(), h[..i + 1]) <==> !exists j :: 0 <= j < i && !NoClash(h[j], h[i])
  {
    PairwiseSnoc(Clashless(), h[..i], h[i]);
    assert h[..i + 1] == h[..i] + [h[i]];
    forall j | 0 <= j < i ensures h[j] in h[..i] {
      assert h[..i][j] == h[j];
    }
  }

  lemma NothingSeen(h: seq<Op>)
    ensures Grouped(h, 0, map[]) && Remembered(h, 0, {}) && Pairwise(Clashless(), h[..0])
  {
  }

  /** Checks one process's operations against one another. */
  method CheckProcess(ghost h: seq<Op>, p: int, ops: seq<Op>) returns (e: Option<Malformed>)
    requires ops == OnProcess(h, p) && forall o :: o in h ==> Sound(o)
    ensures e.None? <==> Pairwise(Sequential(), OnProcess(h, p))
    ensures e.Some? ==>
                !Pairwise(Sequential(), OnProcess(h, p)) && (e.value == AfterIndeterminate(p) || e.value == Overlap(p))
  {
    hide *;
    var sorted := Sort(StartOrder(), ops);
    SortedIsArranged(h, p, ops);
    SortedIsEquivalent(ops);
    NeighboursSuffice(sorted, p);
    var i := 1;
    HandoverOneMore(sorted, 1);
    while i < |sorted|
      invariant 1 <= i
      invariant Handover(sorted, i)
      decreases |sorted| - i
    {
      var prev := sorted[i - 1];
      ThenIs(prev, sorted[i]);
      HandoverOneMore(sorted, i);
      HandoverOneMore(sorted, i + 1);
      if prev.outcome == Info {
        return Some(AfterIndeterminate(p));
      }
      if sorted[i].invoke < prev.complete {
        return Some(Overlap(p));
      }
      i := i + 1;
    }
    HandoverOneMore(sorted, i);
    return None;
  }

  lemma ThenIs(o: Op, p: Op)
    ensures Then(o, p) <==> o.outcome != Info && o.complete <= p.invoke
  {
  }

  lemma SortedIsArranged(h: seq<Op>, p: int, ops: seq<Op>)
    requires ops == OnProcess(h, p) && forall o :: o in h ==> Sound(o)
    ensures Arranged(Sort(StartOrder(), ops), p)
  {
    hide Sound;
    StartOrderIsTotal();
    SortSorts(StartOrder(), ops);
    SameMembers(Sort(StartOrder(), ops), ops);
    OnProcessIs(h, p);
  }

  lemma SortedIsEquivalent(ops: seq<Op>)
    ensures Pairwise(Sequential(), Sort(StartOrder(), ops)) <==> Pairwise(Sequential(), ops)
  {
    hide Pairwise;
    var sorted := Sort(StartOrder(), ops);
    if Pairwise(Sequential(), ops) { SequentialRearranged(ops, sorted); }
    if Pairwise(Sequential(), sorted) { SequentialRearranged(sorted, ops); }
  }

  lemma HandoverOneMore(s: seq<Op>, i: nat)
    ensures Handover(s, 1)
    ensures 0 < i < |s| && Handover(s, i) ==> (Handover(s, i + 1) <==> Then(s[i - 1], s[i]))
    ensures Handover(s, |s|) ==> Handover(s, i)
    ensures i >= |s| && Handover(s, i) ==> Handover(s, |s|)
  {
  }

  lemma SequentialRearranged(a: seq<Op>, b: seq<Op>)
    requires multiset(a) == multiset(b) && Pairwise(Sequential(), a)
    ensures Pairwise(Sequential(), b)
  {
    PairwiseRearranged(Sequential(), a, b);
  }

  /** Accepts exactly the valid histories, and gives a justified reason otherwise. */
  method Validate(h: seq<Op>) returns (e: Option<Malformed>)
    ensures e.None? <==> ValidHistory(h)
    ensures e.Some? ==> Justified(h, e.value)
  {
    hide Pairwise, Grouped, Remembered, NoClash, TakeTurns, Collect;
    var byProc: map<int, seq<Op>> := map[];
    var instants: set<(string, Int64)> := {};
    NothingSeen(h);
    for i := 0 to |h|
      invariant forall j :: 0 <= j < i ==> Sound(h[j])
      invariant Pairwise(Clashless(), h[..i])
      invariant Grouped(h, i, byProc) && Remembered(h, i, instants)
    {
      var op := h[i];
      e := CheckOne(op, i);
      if e.Some? {
        assert op in h;
        return;
      }
      ClashIsRemembered(h, i, instants);
      NoClashOneMore(h, i);
      if op.outcome != Info && op.complete == op.invoke {
        var at := (op.key, op.invoke);
        if at in instants {
          ClashRefutes(h, i);
          return Some(SecondInstant(i));
        }
        instants := instants + {at};
      }
      GroupOneMore(h, i, byProc);
      byProc := byProc[op.process := (if op.process in byProc then byProc[op.process] else []) + [op]];
    }
    assert h[..|h|] == h;
    SequentialByProcess(h);
    AllGrouped(h, byProc);
    var left := byProc.Keys;
    while left != {}
      invariant left <= byProc.Keys
      invariant forall p :: p in byProc.Keys - left ==> Pairwise(Sequential(), OnProcess(h, p))
      decreases left
    {
      SomeMember(left);
      var proc :| proc in left;
      e := CheckProcess(h, proc, byProc[proc]);
      if e.Some? {
        return;
      }
      left := left - {proc};
    }
    return None;
  }

  lemma NoMember(s: set<int>)
    requires forall p :: p !in s
    ensures s == {}
  {
    var nothing: set<int> := {};
    assert forall p :: p in s <==> p in nothing;
  }

  lemma SomeMember(s: set<int>)
    requires s != {}
    ensures exists p :: p in s
  {
    if forall p :: p !in s { NoMember(s); }
  }

  lemma ClashRefutes(h: seq<Op>, i: nat)
    requires i < |h| && exists j :: 0 <= j < i && !NoClash(h[j], h[i])
    ensures !Pairwise(Clashless(), h)
  {
    var j :| 0 <= j < i && !NoClash(h[j], h[i]);
    assert !Clashless()(h[j], h[i]);
  }

  lemma AllGrouped(h: seq<Op>, byProc: map<int, seq<Op>>)
    requires Grouped(h, |h|, byProc)
    ensures forall p :: p in byProc ==> byProc[p] == OnProcess(h, p)
    ensures forall p :: p !in byProc ==> Pairwise(Sequential(), OnProcess(h, p))
  {
    assert h[..|h|] == h;
  }

  // ----- What the search is entitled to

  function KeepLiveOnKey(k: string): Op -> Option<Op> {
    (o: Op) => if o.outcome != Fail && o.key == k then Some(o) else None
  }

  lemma {:induction false} LiveOnKey(h: seq<Op>, k: string)
    ensures OnKey(Live(h), k) == Collect(KeepLiveOnKey(k), h)
  {
    if h == [] {
    } else {
      LiveOnKey(h[1..], k);
      if h[0].outcome != Fail {
        assert Live(h) == [h[0]] + Live(h[1..]);
      } else {
        assert Live(h) == Live(h[1..]);
      }
    }
  }

  /** At most one operation of a key is invoked at the very end of time. */
  ghost predicate OneAtTheEnd(ops: seq<Op>) {
    Pairwise(NotBothLate(), ops)
  }

  function NotBothLate(): (Op, Op) -> bool { (o: Op, p: Op) => o.invoke < PENDING || p.invoke < PENDING }

  /** Operations of one key that are valid together collide only at the end of time. */
  lemma CollisionsOfValid(o: Op, p: Op)
    requires Sound(o) && Sound(p) && o.key == p.key && NoClash(o, p)
    ensures Colliding(o, p) <==> o.invoke == PENDING && p.invoke == PENDING
  {
  }

  lemma KeyOfValid(h: seq<Op>, k: string)
    requires ValidHistory(h)
    ensures var ops := OnKey(Live(h), k);
            && (forall o :: o in ops ==> Sound(o) && o.key == k && o.outcome != Fail && o in h)
            && Pairwise(Clashless(), ops)
  {
    LiveOnKey(h, k);
    PairwiseCollect(Clashless(), Clashless(), KeepLiveOnKey(k), h);
    forall o | o in Collect(KeepLiveOnKey(k), h) ensures Sound(o) && o.key == k && o.outcome != Fail && o in h {
      var p := CollectOrigin(KeepLiveOnKey(k), h, o);
    }
  }

  /** A key of a valid history is what the search and the minimisation ask for. */
  lemma ValidKeyIsCheckable(h: seq<Op>, k: string)
    requires ValidHistory(h)
    ensures Checkable(OnKey(Live(h), k))
  {
    var ops := OnKey(Live(h), k);
    KeyOfValid(h, k);
    hide ValidHistory, Sound, NoClash, Collect;
    forall i, j | 0 <= i < j < |ops| ensures CollideLate()(ops[i], ops[j]) {
      assert Clashless()(ops[i], ops[j]);
      assert ops[i] in ops && ops[j] in ops;
      CollisionsOfValid(ops[i], ops[j]);
    }
    forall o | o in ops ensures o.Ordered() && (o.outcome == Info <==> o.complete == PENDING) {
      SoundIsOrdered(o);
    }
  }

  /** No two of its operations precede each other if and only if no two were invoked at
      the end of time: such an operation is indeterminate, and nothing in `Validate`
      rejects it. */
  lemma ValidKeyIsSearchableIff(h: seq<Op>, k: string)
    requires ValidHistory(h)
    ensures CollisionFree(OnKey(Live(h), k)) <==> OneAtTheEnd(OnKey(Live(h), k))
  {
    var ops := OnKey(Live(h), k);
    KeyOfValid(h, k);
    hide ValidHistory, Sound, NoClash, Collect;
    forall i, j | 0 <= i < j < |ops|
      ensures Colliding(ops[i], ops[j]) <==> !NotBothLate()(ops[i], ops[j])
    {
      assert Clashless()(ops[i], ops[j]);
      assert ops[i] in ops && ops[j] in ops;
      CollisionsOfValid(ops[i], ops[j]);
    }
  }

  lemma SoundIsOrdered(o: Op)
    requires Sound(o)
    ensures o.Ordered() && (o.outcome == Info <==> o.complete == PENDING)
  {
  }

  /** Otherwise no order of the key's operations respects real time. */
  lemma TwoAtTheEnd(h: seq<Op>, k: string, m: Model)
    requires ValidHistory(h) && !OneAtTheEnd(OnKey(Live(h), k))
    ensures !HasLinearization(m, OnKey(Live(h), k))
  {
    var ops := OnKey(Live(h), k);
    KeyOfValid(h, k);
    hide ValidHistory, NoClash, Collect, HasLinearization;
    var i, j :| 0 <= i < j < |ops| && !NotBothLate()(ops[i], ops[j]);
    assert ops[i] in ops && ops[j] in ops;
    CollisionRefutes(m, ops, i, j);
  }

  /** Two operations of one key that never returned, both invoked at the end of time. */
  function TwoLateWrites(): seq<Op> {
    var o := Op(0, "k", Write, 1, 0, 0, 0, false, Info, PENDING, PENDING, "");
    [o, o.(process := 1)]
  }

  lemma TwoLateWritesAreValid()
    ensures var h := TwoLateWrites();
            ValidHistory(h) && OnKey(Live(h), "k") == h && !OneAtTheEnd(h)
  {
    var h := TwoLateWrites();
    assert OnKey(Live(h), "k") == h by {
      hide TwoLateWrites;
      assert h[0].outcome != Fail && h[1].outcome != Fail && h[0].key == h[1].key == "k";
      LiveOnKey(h, "k");
      CollectAll(KeepLiveOnKey("k"), h);
    }
    assert ValidHistory(h) && !OneAtTheEnd(h) by {
      hide Collect;
      assert !NotBothLate()(h[0], h[1]);
    }
  }

  /** Their entries are laid out one after the other. */
  lemma LateOrder(h: seq<Op>)
    requires h == TwoLateWrites()
    ensures |h| == 2 && Laid(h).ops == h
    ensures Laid(h).order == [T.End(h[0], 0, false), T.End(h[0], 0, true), T.End(h[1], 1, false), T.End(h[1], 1, true)]
  {
    var ends := Ends(h);
    assert ends == [T.End(h[0], 0, false), T.End(h[0], 0, true), T.End(h[1], 1, false), T.End(h[1], 1, true)];
    assert SortedBy(NotAfter(), ends);
    SortedStays(NotAfter(), ends);
    LaidIsSized(h);
  }

  /** The endpoints of two operations, the one after the other. */
  predicate OneThenOther(t: T.Timeline, a: Op, b: Op) {
    t.order == [T.End(a, 0, false), T.End(a, 0, true), T.End(b, 1, false), T.End(b, 1, true)]
  }

  lemma NextOfTwo(t: T.Timeline, a: Op, b: Op)
    requires OneThenOther(t, a, b)
    ensures t.NextLive({}, 0) == 0 && t.NextLive({0}, 0) == 2 && t.NextLive({0, 1}, 0) == 4
  {
    assert t.Live({}, 0);
    assert !t.Live({0}, 0) && !t.Live({0}, 1) && t.Live({0}, 2);
    assert t.NextLive({0}, 0) == t.NextLive({0}, 1) == t.NextLive({0}, 2) == 2;
    assert !t.Live({0, 1}, 0) && !t.Live({0, 1}, 1) && !t.Live({0, 1}, 2) && !t.Live({0, 1}, 3);
    assert t.NextLive({0, 1}, 0) == t.NextLive({0, 1}, 1) == t.NextLive({0, 1}, 2);
    assert t.NextLive({0, 1}, 2) == t.NextLive({0, 1}, 3) == t.NextLive({0, 1}, 4);
  }

  lemma FirstOfTwo(t: T.Timeline, a: Op, b: Op, s: M.Search)
    requires OneThenOther(t, a, b) && a.kind == Write && s == M.Start(t, CAS_REGISTER)
    ensures M.Next(t, CAS_REGISTER, s) == M.Search(2, a.value, [M.Frame(0, INITIAL_VALUE)], {({0}, a.value)}, None, 1)
  {
    NextOfTwo(t, a, b);
    assert s.Done() == {};
    assert {} + {0} == {0};
  }

  lemma SecondOfTwo(t: T.Timeline, a: Op, b: Op, s: M.Search)
    requires OneThenOther(t, a, b) && b.kind == Write
    requires s == M.Search(2, a.value, [M.Frame(0, INITIAL_VALUE)], {({0}, a.value)}, None, 1)
    ensures M.Complete(t, M.Next(t, CAS_REGISTER, s))
  {
    NextOfTwo(t, a, b);
    assert M.Ids(s.calls) == [0];
    assert s.Done() == {0} && {0} + {1} == {0, 1};
    assert 1 in ({0, 1}, b.value).0;
    var s' := M.Next(t, CAS_REGISTER, s);
    assert s'.calls == [M.Frame(0, INITIAL_VALUE), M.Frame(1, a.value)];
    assert M.Ids(s'.calls) == [0, 1];
    assert s'.Done() == {0, 1};
  }

  /** The search places the one and then the other, and has placed them all. */
  lemma LateWritesPassTheSearch(t: T.Timeline)
    requires t == Laid(TwoLateWrites())
    ensures M.Complete(t, M.Next(t, CAS_REGISTER, M.Next(t, CAS_REGISTER, M.Start(t, CAS_REGISTER))))
  {
    hide *;
    var h := TwoLateWrites();
    LateOrder(h);
    TheyAreWrites();
    AreOneThenOther(t, h[0], h[1]);
    FirstOfTwo(t, h[0], h[1], M.Start(t, CAS_REGISTER));
    SecondOfTwo(t, h[0], h[1], M.Next(t, CAS_REGISTER, M.Start(t, CAS_REGISTER)));
  }

  lemma TheyAreWrites()
    ensures |TwoLateWrites()| == 2 && TwoLateWrites()[0].kind == Write && TwoLateWrites()[1].kind == Write
  {
  }

  lemma AreOneThenOther(t: T.Timeline, a: Op, b: Op)
    requires t.order == [T.End(a, 0, false), T.End(a, 0, true), T.End(b, 1, false), T.End(b, 1, true)]
    ensures OneThenOther(t, a, b)
  {
  }

  lemma LateWritesPassTheFastPath()
    ensures var h := TwoLateWrites();
            && KeySearch.Returned(h) == [] && KeySearch.Unanswered(h) == h
            && KeySearch.Append(CAS_REGISTER, CAS_REGISTER.Init(), h, 0) == (true, 2)
  {
    var h := TwoLateWrites();
    assert h[1..] == [h[1]];
    assert Collect(KeepReturned(), [h[1]]) == [];
    assert Collect(KeepIndeterminate(), [h[1]]) == [h[1]];
  }

  /** `Validate` accepts a history whose two operations precede each other, so that no
      order exists. Both ways of deciding it pass it all the same: the search has placed
      everything after two transitions, and the fast path has nothing to search and
      appends the one and the other. */
  lemma ValidateAcceptsACollision()
    ensures var h := TwoLateWrites(); var t := Laid(h);
            && ValidHistory(h) && OnKey(Live(h), "k") == h
            && !CollisionFree(h) && !HasLinearization(CAS_REGISTER, h)
            && M.Complete(t, M.Next(t, CAS_REGISTER, M.Next(t, CAS_REGISTER, M.Start(t, CAS_REGISTER))))
            && KeySearch.Returned(h) == []
            && KeySearch.Append(CAS_REGISTER, CAS_REGISTER.Init(), KeySearch.Unanswered(h), 0).0
  {
    hide *;
    var h := TwoLateWrites();
    TwoLateWritesAreValid();
    ValidKeyIsSearchableIff(h, "k");
    TwoAtTheEnd(h, "k", CAS_REGISTER);
    LateWritesPassTheSearch(Laid(h));
    LateWritesPassTheFastPath();
  }
}
