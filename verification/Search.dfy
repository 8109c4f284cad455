/** The search of one key's operations, over the linked list, the bitset and the
    cache. Each iteration is one step of the machine. */
module Search {
  import opened History
  import opened Model
  import opened Linearization
  import opened Verdicts
  import T = Timeline
  import opened Layout
  import M = Machine
  import opened MachineInvariant
  import opened MachineResult
  import opened SearchTheorems
  import opened EntryList
  import opened ListInvariant
  import opened Bitset
  import opened SearchSteps
  import Store = Cache

  /** The outcome on one key. The final state is only known on a pass. */
  datatype KeyResult = KeyResult(verdict: Verdict, visits: nat, culprit: Option<Op>, finalState: Option<int>)

  /** What the search reports about an outcome. */
  function Report(ops: seq<Op>, o: Ending): KeyResult
    requires o.last.best.Some? ==> o.last.best.value.culprit < |ops|
  {
    KeyResult(
      o.verdict,
      o.last.visits,
      if o.last.best.Some? && o.verdict != Verdict.Linearizable
      then Some(ops[o.last.best.value.culprit]) else None,
      if o.verdict == Verdict.Linearizable then Some(o.last.state) else None)
  }

  // ----- Building the list

  /** The calls and returns of the first `n` operations, as unlinked entries. */
  ghost predicate Made(ops: seq<Op>, made: seq<Entry>, n: nat)
    reads made
  {
    && n <= |ops| && |made| == 2 * n && Distinct(made)
    && forall i :: 0 <= i < n ==>
         && made[2 * i].op == Some(ops[i]) && made[2 * i].id == i && !made[2 * i].isReturn
         && made[2 * i + 1].op == Some(ops[i]) && made[2 * i + 1].id == i && made[2 * i + 1].isReturn
         && made[2 * i].mate == made[2 * i + 1]
  }

  method MakeEntries(ops: seq<Op>) returns (made: seq<Entry>)
    ensures Made(ops, made, |ops|)
    ensures forall k :: 0 <= k < |made| ==> fresh(made[k]) && made[k].next == null
  {
    made := [];
    for i := 0 to |ops|
      invariant Made(ops, made, i)
      invariant forall k :: 0 <= k < |made| ==> fresh(made[k]) && made[k].next == null
    {
      var call := new Entry(Some(ops[i]), i, false);
      var ret := new Entry(Some(ops[i]), i, true);
      call.mate, ret.mate := ret, call;
      made := made + [call, ret];
    }
  }

  /** Which of the entries stands for an endpoint. */
  function Slot(e: T.End): nat { 2 * e.id + if e.isReturn then 1 else 0 }

  /** The entries in the order of their endpoints: what sorting them yields. */
  function InOrder(made: seq<Entry>, order: seq<T.End>): (r: seq<Entry>)
    requires forall k :: 0 <= k < |order| ==> Slot(order[k]) < |made|
    ensures |r| == |order|
    ensures forall k :: 0 <= k < |order| ==> r[k] == made[Slot(order[k])]
  {
    seq(|order|, k requires 0 <= k < |order| => made[Slot(order[k])])
  }

  /** Every entry points at the ones beside it. */
  ghost predicate Chained(l: Links, nodes: seq<Entry>) {
    && |l.prev| == |l.next| == |nodes|
    && (forall k :: 0 < k < |nodes| ==> l.prev[k] == nodes[k - 1])
    && (forall k :: 0 <= k < |nodes| ==> l.next[k] == At(nodes, k + 1))
  }

  /** Up to entry k they do, and behind it nothing hangs. */
  ghost predicate ChainedTo(l: Links, nodes: seq<Entry>, k: nat) {
    && |l.prev| == |l.next| == |nodes|
    && (forall j :: 0 < j < |nodes| && j <= k ==> l.prev[j] == nodes[j - 1])
    && (forall j :: 0 <= j < |nodes| ==> l.next[j] == if j < k then At(nodes, j + 1) else null)
  }

  lemma ChainingDone(l: Links, nodes: seq<Entry>)
    requires nodes != [] && ChainedTo(l, nodes, |nodes| - 1)
    ensures Chained(l, nodes)
  {
  }

  lemma ChainOneMore(l: Links, nodes: seq<Entry>, k: nat)
    requires ChainedTo(l, nodes, k) && k + 1 < |nodes|
    ensures ChainedTo(Links(l.prev[k + 1 := nodes[k]], l.next[k := nodes[k + 1]]), nodes, k + 1)
  {
  }

  lemma NothingChained(l: Links, nodes: seq<Entry>)
    requires |l.prev| == |l.next| == |nodes| && forall k :: 0 <= k < |nodes| ==> l.next[k] == null
    ensures ChainedTo(l, nodes, 0)
  {
  }

  /** Chains the entries behind the sentinel. */
  method LinkUp(head: Entry, order: seq<Entry>)
    requires Distinct([head] + order) && head.next == null
    requires forall k :: 0 <= k < |order| ==> order[k].next == null
    modifies head, order
    ensures var nodes := [head] + order;
            Chained(LinksOf(nodes), nodes) && MatesOf(nodes) == old(MatesOf(nodes))
  {
    ghost var nodes := [head] + order;
    hide Distinct, ChainedTo, Chained;
    var prev := head;
    NothingChained(LinksOf(nodes), nodes);
    for k := 0 to |order|
      invariant prev == nodes[k]
      invariant ChainedTo(LinksOf(nodes), nodes, k)
      invariant MatesOf(nodes) == old(MatesOf(nodes))
    {
      var e := order[k];
      ChainOneMore(LinksOf(nodes), nodes, k);
      e.HangBehind(prev, nodes, k + 1);
      prev := e;
    }
    ChainingDone(LinksOf(nodes), nodes);
  }

  lemma EverythingIsListed(t: T.Timeline, l: Links, nodes: seq<Entry>)
    requires |nodes| == |t.order| + 1 && Chained(l, nodes)
    ensures l.Linked(nodes, LiveList(t, {}))
  {
    var live := LiveList(t, {});
    assert forall k: nat :: k in live <==> k < |nodes| by {
      assert forall k: nat :: t.Live({}, k) <==> k < |t.order|;
    }
    forall k | 0 <= k < |nodes| ensures l.PointsInto(nodes, live, k) {
      SuccIs(live, k, |nodes|, k + 1);
      if k > 0 { PredIs(live, k, k - 1); }
    }
  }

  /** Different endpoints are made at different places. */
  lemma SlotsAreDistinct(t: T.Timeline, j: nat, k: nat)
    requires t.Valid() && j < |t.order| && k < |t.order|
    ensures Slot(t.order[k]) < 2 * |t.ops|
    ensures t.order[k] == T.End(t.ops[t.order[k].id], t.order[k].id, t.order[k].isReturn)
    ensures Slot(t.order[j]) == Slot(t.order[k]) ==> j == k
  {
  }

  lemma MirrorsFrom(t: T.Timeline, head: Entry, es: seq<Entry>)
    requires |es| == |t.order| && head.id == -1
    requires forall k :: 0 <= k < |es| ==>
               es[k].op == Some(t.order[k].op) && es[k].id == t.order[k].id && es[k].isReturn == t.order[k].isReturn
    ensures Mirrors(t, [head] + es)
  {
    forall k | 0 <= k < |t.order| ensures ([head] + es)[k + 1] == es[k] {
    }
  }

  /** The sorted entries mirror the timeline. */
  lemma OrderedEntriesMirror(t: T.Timeline, made: seq<Entry>, head: Entry)
    requires t.Valid() && Made(t.ops, made, |t.ops|) && head.id == -1
    ensures forall k :: 0 <= k < |t.order| ==> Slot(t.order[k]) < |made|
    ensures Mirrors(t, [head] + InOrder(made, t.order))
  {
    hide *;
    forall k | 0 <= k < |t.order|
      ensures Slot(t.order[k]) < |made|
      ensures made[Slot(t.order[k])].op == Some(t.order[k].op) && made[Slot(t.order[k])].id == t.order[k].id
      ensures made[Slot(t.order[k])].isReturn == t.order[k].isReturn
    {
      MadeAt(t, made, k);
    }
    MirrorsFrom(t, head, InOrder(made, t.order));
  }

  lemma MadeAt(t: T.Timeline, made: seq<Entry>, k: nat)
    requires t.Valid() && Made(t.ops, made, |t.ops|) && k < |t.order|
    ensures Slot(t.order[k]) < |made|
    ensures var e := made[Slot(t.order[k])];
            e.op == Some(t.order[k].op) && e.id == t.order[k].id && e.isReturn == t.order[k].isReturn
  {
    SlotsAreDistinct(t, k, k);
    var o := t.order[k];
    hide T.Timeline.Valid;
    assert made[2 * o.id].id == o.id && made[2 * o.id + 1].id == o.id;
  }

  lemma OrderedEntriesAreMated(t: T.Timeline, made: seq<Entry>, head: Entry)
    requires t.Valid() && Made(t.ops, made, |t.ops|)
    requires forall k :: 0 <= k < |t.order| ==> Slot(t.order[k]) < |made|
    ensures var nodes := [head] + InOrder(made, t.order); Mated(t, nodes, MatesOf(nodes))
  {
    var nodes := [head] + InOrder(made, t.order);
    forall i | 0 <= i < |t.ops|
      ensures MatesOf(nodes)[CallPos(t, i)] == nodes[ReturnPos(t, i)]
    {
      assert nodes[CallPos(t, i)] == made[Slot(t.order[t.callAt[i]])];
      assert nodes[ReturnPos(t, i)] == made[Slot(t.order[t.retAt[i]])];
    }
  }

  /** The entries of a history, sorted but not yet chained. */
  method SortedEntries(ops: seq<Op>) returns (head: Entry, order: seq<Entry>)
    requires AllOrdered(ops)
    ensures Represents(Laid(ops), [head] + order, MatesOf([head] + order))
    ensures fresh(head) && head.next == null
    ensures forall k :: 0 <= k < |order| ==> fresh(order[k]) && order[k].next == null
  {
    LaidIsValid(ops);
    LaidIsSized(ops);
    var made := MakeEntries(ops);
    head := new Entry(None, -1, false);
    hide Laid, Layout.Order, AllOrdered;
    OrderedEntriesMirror(Laid(ops), made, head);
    OrderedEntriesAreMated(Laid(ops), made, head);
    order := InOrder(made, Order(ops));
  }

  /** Lays the operations out as a doubly-linked list behind a sentinel head. */
  method BuildEntries(ops: seq<Op>) returns (head: Entry, ghost nodes: seq<Entry>)
    requires AllOrdered(ops)
    ensures Represents(Laid(ops), nodes, MatesOf(nodes)) && nodes[0] == head
    ensures LinksOf(nodes).Linked(nodes, LiveList(Laid(ops), {}))
    ensures forall k :: 0 <= k < |nodes| ==> fresh(nodes[k])
  {
    var order;
    head, order := SortedEntries(ops);
    hide *;
    nodes := [head] + order;
    ghost var t := Laid(ops);
    SizeOfList(t, nodes, MatesOf(nodes));
    LinkUp(head, order);
    EverythingIsListed(t, LinksOf(nodes), nodes);
  }

  lemma SizeOfList(t: T.Timeline, nodes: seq<Entry>, mates: seq<Entry?>)
    requires Represents(t, nodes, mates)
    ensures |nodes| == |t.order| + 1 && Distinct(nodes)
  {
    EntriesAreDistinct(t, nodes);
  }

  // ----- The loop

  /** The call at hand: place it, or move on. */
  method TryCall(ghost t: T.Timeline, m: Model, ghost nodes: seq<Entry>, head: Entry, lin: array<bv64>,
                 seen: Store.Cache, v: Vars, ghost s: M.Search)
    returns (v': Vars)
    requires InStep(t, nodes, LinksOf(nodes), MatesOf(nodes), lin[..], v, s)
    requires seen.Valid() && Recalls(t, seen.remembered, seen.bytes, s) && seen.entryBytes == EntryBytes(|t.ops|)
    requires AtCall(t, s) && |nodes| > 0 && nodes[0] == head
    modifies nodes, lin, seen
    ensures InStep(t, nodes, LinksOf(nodes), MatesOf(nodes), lin[..], v', M.Next(t, m, s))
    ensures seen.Valid() && Recalls(t, seen.remembered, seen.bytes, M.Next(t, m, s))
  {
    hide *;
    ghost var l, mates, words := LinksOf(nodes), MatesOf(nodes), lin[..];
    Reading(t, nodes, l, mates, words, v, s);
    CallFacts(t, s);
    AtHand(t, nodes, s.pos);
    MateOf(t, nodes, mates, t.order[s.pos].id);
    var e := v.e;
    var (next, ok) := m.Step(v.state, e.op.value);
    v' := v.(visits := v.visits + 1);
    if !ok {
      RefusedInStep(t, m, nodes, l, mates, words, v, s);
      RecallsStill(t, seen.remembered, seen.bytes, s, M.Next(t, m, s));
      if |v.calls| > v.bestDepth {
        v' := v'.(bestDepth := |v.calls|, bestState := v.state, bestOp := e.op);
      }
      v' := v'.(e := e.next);
      return;
    }
    Set(lin, e.id);
    ghost var more := lin[..];
    var known := seen.Contains(lin, next);
    RecallsIt(t, seen.remembered, seen.bytes, s, more, next);
    if known {
      PrunedInStep(t, m, nodes, l, mates, words, more, v, s);
      RecallsStill(t, seen.remembered, seen.bytes, s, M.Next(t, m, s));
      Clear(lin, e.id);
      SameMembersSameWords(lin[..], words);
      v' := v'.(e := e.next);
      return;
    }
    ReadyToPlace(t, nodes, l, mates, words, v, s);
    ghost var live := LiveList(t, s.Done());
    ghost var c, r := CallPos(t, t.order[s.pos].id), ReturnPos(t, t.order[s.pos].id);
    PlacedInStep(t, m, nodes, l, l.Lifted(live, c, r), mates, words, more, v, s);
    RecallsMore(t, seen.remembered, seen.bytes, more, next, s, M.Next(t, m, s));
    seen.Add(lin, next);
    e.Lift(nodes, live, c, r);
    v' := v'.(e := head.next, state := next, calls := v.calls + [HeapFrame(e, v.state)]);
  }

  /** A return: the last choice was wrong, so take it back. */
  method TakeBack(ghost t: T.Timeline, ghost m: Model, ghost nodes: seq<Entry>, lin: array<bv64>, v: Vars,
                  ghost s: M.Search)
    returns (v': Vars)
    requires InStep(t, nodes, LinksOf(nodes), MatesOf(nodes), lin[..], v, s)
    requires AtReturn(t, m, s) && v.calls != []
    modifies nodes, lin
    ensures InStep(t, nodes, LinksOf(nodes), MatesOf(nodes), lin[..], v', M.Next(t, m, s))
    ensures M.Next(t, m, s).seen == s.seen
  {
    hide *;
    ghost var l, mates, words := LinksOf(nodes), MatesOf(nodes), lin[..];
    ReturnFacts(t, m, s);
    ReadyToTakeBack(t, m, nodes, l, mates, words, v, s);
    ghost var i := s.calls[|s.calls| - 1].id;
    ghost var live := LiveList(t, M.Placed(M.Ids(s.calls[..|s.calls| - 1])));
    ghost var c, r := CallPos(t, i), ReturnPos(t, i);
    var top := v.calls[|v.calls| - 1];
    v' := v.(calls := v.calls[..|v.calls| - 1], state := top.state);
    Clear(lin, top.call.id);
    TakenBackInStep(t, m, nodes, l, l.Unlifted(nodes, live, c, r), mates, words, lin[..], v, s);
    top.call.Unlift(nodes, live, c, r);
    v' := v'.(e := top.call.next);
  }

  /** The run from here on ends as the run from the start does. */
  ghost predicate OnTrack(t: T.Timeline, m: Model, opt: Options, late: Clock, s: M.Search, iters: nat) {
    && M.Inv(t, m, s)
    && Run(t, m, opt, late, s, iters) == RunFromStart(t, m, opt, late)
  }

  lemma Entering(t: T.Timeline, m: Model, opt: Options, late: Clock)
    requires t.Valid()
    ensures OnTrack(t, m, opt, late, M.Start(t, m), 0)
  {
    Established(t, m);
  }

  lemma Going(t: T.Timeline, m: Model, opt: Options, late: Clock, s: M.Search, k: nat)
    requires t.Valid() && OnTrack(t, m, opt, late, s, k)
    ensures M.Inv(t, m, s)
    ensures M.Complete(t, s) ==> RunFromStart(t, m, opt, late) == Ending(Verdict.Linearizable, s)
    ensures !M.Complete(t, s) && Spent(t, opt, late, s, k) ==>
              RunFromStart(t, m, opt, late) == Ending(Verdict.Unknown, s)
    ensures !M.Complete(t, s) && !Spent(t, opt, late, s, k) && M.Stuck(t, s) ==>
              RunFromStart(t, m, opt, late) == Ending(Verdict.NotLinearizable, s)
    ensures !M.Complete(t, s) && !Spent(t, opt, late, s, k) && !M.Stuck(t, s) ==>
              var s' := M.Next(t, m, s);
              && OnTrack(t, m, opt, late, s', k + 1)
              && (|| Unexplored(t, m, s') < Unexplored(t, m, s)
                  || (Unexplored(t, m, s') == Unexplored(t, m, s) && |s'.calls| < |s.calls|)
                  || (&& Unexplored(t, m, s') == Unexplored(t, m, s)
                      && |s'.calls| == |s.calls| && s.pos < s'.pos <= |t.order|))
  {
    RunUnfolds(t, m, opt, late, s, k);
    hide M.Inv, M.Next, M.Stuck, M.Complete, Spent, Run;
  }

  /** What the search of these operations answers. */
  ghost function FullResult(ops: seq<Op>, m: Model, opt: Options, late: Clock): KeyResult
    requires AllOrdered(ops)
  {
    LaidIsValid(ops);
    CulpritInRange(Laid(ops), m, opt, late);
    Report(ops, RunFromStart(Laid(ops), m, opt, late))
  }

  lemma CulpritInRange(t: T.Timeline, m: Model, opt: Options, late: Clock)
    requires t.Valid()
    ensures var best := RunFromStart(t, m, opt, late).last.best;
            best.Some? ==> best.value.culprit < |t.ops|
  {
    Established(t, m);
    RunKeepsInv(t, m, opt, late, M.Start(t, m), 0);
    hide M.Stack, M.Memory, Run, M.Start, M.Complete, M.Stuck;
  }

  lemma FullResultOf(ops: seq<Op>, m: Model, opt: Options, late: Clock)
    requires AllOrdered(ops)
    ensures Laid(ops).Valid()
    ensures var o := RunFromStart(Laid(ops), m, opt, late);
            && (o.last.best.Some? ==> o.last.best.value.culprit < |ops|)
            && FullResult(ops, m, opt, late) == Report(ops, o)
            && FullResult(ops, m, opt, late).verdict == o.verdict
            && FullResult(ops, m, opt, late).visits == o.last.visits
  {
    LaidIsValid(ops);
    CulpritInRange(Laid(ops), m, opt, late);
    hide RunFromStart, Laid, T.Timeline.Valid, AllOrdered;
  }

  lemma FullResultIs(ops: seq<Op>, m: Model, opt: Options, late: Clock, end: Ending)
    requires AllOrdered(ops) && Laid(ops).Valid() && end == RunFromStart(Laid(ops), m, opt, late)
    requires end.last.best.Some? ==> end.last.best.value.culprit < |ops|
    ensures FullResult(ops, m, opt, late) == Report(ops, end)
  {
    hide RunFromStart, Laid, T.Timeline.Valid, AllOrdered, Report;
  }

  lemma LaidIsUntied(ops: seq<Op>)
    requires AllOrdered(ops)
    ensures Laid(ops).Untied() <==> CollisionFree(ops)
  {
    LaidIsValid(ops);
    hide Laid, CollisionFree;
  }

  /** A refusal is true under any budget and names a culprit. A pass is true exactly
      when no two operations precede each other, and then comes with the state its
      witness ends in. Without a budget it is one or the other. */
  lemma FullIsExact(ops: seq<Op>, m: Model, opt: Options, late: Clock)
    requires AllOrdered(ops)
    ensures var kr := FullResult(ops, m, opt, late);
            && (kr.verdict == Verdict.Linearizable ==>
                  kr.finalState.Some? && (HasLinearization(m, ops) <==> CollisionFree(ops)))
            && (kr.verdict == Verdict.NotLinearizable ==> !HasLinearization(m, ops) && kr.culprit.Some?)
            && (opt.Unlimited() ==> kr.verdict != Verdict.Unknown)
            && (opt.maxVisits > 0 ==> kr.visits <= opt.maxVisits)
  {
    LaidIsValid(ops);
    LaidIsUntied(ops);
    var t := Laid(ops);
    SearchIsExact(t, m, opt, late);
    CulpritInRange(t, m, opt, late);
    FullResultIs(ops, m, opt, late, RunFromStart(t, m, opt, late));
    NeverOverspends(t, m, opt, late);
    hide T.Timeline.Valid, T.Timeline.Untied, Laid, RunFromStart, AllOrdered, CollisionFree, HasLinearization,
      FullResult, IsLinearization, Final;
    if RunFromStart(t, m, opt, late).verdict == Verdict.NotLinearizable {
      CulpritIsMaximal(t, m, opt, late);
    }
  }

  /** The state in which a true pass ends is that of a linearization. */
  lemma FullHasWitness(ops: seq<Op>, m: Model, opt: Options, late: Clock) returns (w: seq<Op>)
    requires Searchable(ops) && FullResult(ops, m, opt, late).verdict == Verdict.Linearizable
    ensures IsLinearization(m, ops, w) && Final(m, m.Init(), w) == FullResult(ops, m, opt, late).finalState
  {
    LaidIsValid(ops);
    LaidIsUntied(ops);
    FullResultOf(ops, m, opt, late);
    hide T.Timeline.Valid, T.Timeline.Untied, Laid, RunFromStart, FullResult, IsLinearization, Final;
    w := PassHasWitness(Laid(ops), m, opt, late);
  }

  /** Placing the operations `ids` one after the other is legal, no legal partial
      order places more, operation `i` could come next there, and it is refused. */
  ghost predicate Furthest(ops: seq<Op>, m: Model, ids: seq<nat>, i: nat) {
    var t := Laid(ops);
    && i < |ops| && M.After(t, m, ids).Some?
    && t.Minimal(M.Placed(ids), i)
    && !m.Step(M.After(t, m, ids).value, ops[i]).1
    && |ids| < |ops|
    && forall others :: M.After(t, m, others).Some? ==> |others| <= |ids|
  }

  /** The culprit reported is an operation refused where the search got furthest. */
  lemma CulpritIsFurthest(ops: seq<Op>, m: Model, opt: Options, late: Clock)
    requires AllOrdered(ops) && FullResult(ops, m, opt, late).verdict == Verdict.NotLinearizable
    ensures exists ids: seq<nat>, i: nat ::
              Furthest(ops, m, ids, i) && FullResult(ops, m, opt, late).culprit == Some(ops[i])
  {
    hide *;
    FullResultOf(ops, m, opt, late);
    CulpritIsMaximal(Laid(ops), m, opt, late);
    LaidIsSized(ops);
    var o := RunFromStart(Laid(ops), m, opt, late);
    var b := o.last.best.value;
    ReportNames(ops, o);
    FurthestIs(ops, m, b);
  }

  lemma ReportNames(ops: seq<Op>, o: Ending)
    requires o.verdict == Verdict.NotLinearizable && o.last.best.Some? && o.last.best.value.culprit < |ops|
    ensures Report(ops, o).culprit == Some(ops[o.last.best.value.culprit])
  {
  }

  lemma FurthestIs(ops: seq<Op>, m: Model, b: M.Best)
    requires var t := Laid(ops);
             && t.ops == ops && b.culprit < |ops| && M.After(t, m, b.ids) == Some(b.state)
             && t.Minimal(M.Placed(b.ids), b.culprit) && !m.Step(b.state, ops[b.culprit]).1 && |b.ids| < |ops|
             && forall ids :: M.After(t, m, ids).Some? ==> |ids| <= |b.ids|
    ensures Furthest(ops, m, b.ids, b.culprit)
  {
    hide Laid, M.After, T.Timeline.Minimal;
  }

  lemma NeverOverspends(t: T.Timeline, m: Model, opt: Options, late: Clock)
    requires t.Valid()
    ensures opt.maxVisits > 0 ==> RunFromStart(t, m, opt, late).last.visits <= opt.maxVisits
  {
    Established(t, m);
    assert M.Start(t, m).visits == 0 && M.Start(t, m).seen == {};
    assert EntryBytes(|t.ops|) > 0;
    hide M.Inv, Run, M.Start;
    WithinBudget(t, m, opt, late, M.Start(t, m), 0);
  }

  /** It gives up only when a limit was reached. */
  lemma FullUnknownIsEarned(ops: seq<Op>, m: Model, opt: Options, late: Clock)
    requires AllOrdered(ops) && FullResult(ops, m, opt, late).verdict == Verdict.Unknown
    ensures var visits := FullResult(ops, m, opt, late).visits;
            RanOut(opt, late, visits, visits * EntryBytes(|ops|))
  {
    hide *;
    FullResultOf(ops, m, opt, late);
    LaidIsSized(ops);
    EarnedFromStart(Laid(ops), m, opt, late);
    var s := RunFromStart(Laid(ops), m, opt, late).last;
    Scaled(|s.seen|, s.visits, EntryBytes(|ops|));
    RanOutLater(opt, late, s.visits, |s.seen| * EntryBytes(|ops|), s.visits * EntryBytes(|ops|));
  }

  /** And when it reaches a verdict, the deadline had not passed at any iteration, up to the
      number of its transitions, in which the clock is read. */
  lemma FullDecidedInTime(ops: seq<Op>, m: Model, opt: Options, late: Clock, i: nat)
    requires AllOrdered(ops) && opt.timeout && i % 4096 == 0
    ensures var kr := FullResult(ops, m, opt, late);
            kr.verdict != Verdict.Unknown && i < kr.visits ==> !late(i)
  {
    hide *;
    FullResultOf(ops, m, opt, late);
    StartsFrom(Laid(ops), m, opt, late);
    DecidedInTime(Laid(ops), m, opt, late, M.Start(Laid(ops), m), 0, i);
  }

  lemma StartsFrom(t: T.Timeline, m: Model, opt: Options, late: Clock)
    requires t.Valid()
    ensures M.Inv(t, m, M.Start(t, m)) && M.Start(t, m).visits == 0
    ensures RunFromStart(t, m, opt, late) == Run(t, m, opt, late, M.Start(t, m), 0)
  {
    Established(t, m);
  }

  lemma EarnedFromStart(t: T.Timeline, m: Model, opt: Options, late: Clock)
    requires t.Valid()
    ensures var o := RunFromStart(t, m, opt, late);
            && |o.last.seen| <= o.last.visits
            && (o.verdict == Verdict.Unknown ==>
                  RanOut(opt, late, o.last.visits, |o.last.seen| * EntryBytes(|t.ops|)))
  {
    Established(t, m);
    assert M.Start(t, m).visits == 0 && M.Start(t, m).seen == {};
    hide M.Inv, Run, M.Start, RanOut;
    UnknownIsEarned(t, m, opt, late, M.Start(t, m), 0);
  }

  lemma RanOutLater(opt: Options, late: Clock, visits: int, a: int, b: int)
    requires RanOut(opt, late, visits, a) && a <= b
    ensures RanOut(opt, late, visits, b)
  {
  }

  /** Searches one key's operations. The result is what the machine reports. */
  method SearchFull(ops: seq<Op>, m: Model, opt: Options, late: Clock, hash: (seq<bv64>, int) -> int)
    returns (kr: KeyResult)
    requires AllOrdered(ops)
    ensures kr == FullResult(ops, m, opt, late)
    ensures kr.verdict == Verdict.Linearizable ==> (HasLinearization(m, ops) <==> CollisionFree(ops))
    ensures kr.verdict == Verdict.NotLinearizable ==> !HasLinearization(m, ops)
    ensures kr.verdict == Verdict.Unknown ==> RanOut(opt, late, kr.visits, kr.visits * EntryBytes(|ops|))
    ensures opt.Unlimited() ==> kr.verdict != Verdict.Unknown
  {
    hide *;
    FullIsExact(ops, m, opt, late);
    if FullResult(ops, m, opt, late).verdict == Verdict.Unknown { FullUnknownIsEarned(ops, m, opt, late); }
    ghost var end: Ending;
    ghost var t := Laid(ops);
    LaidIsValid(ops);
    var head, nodes := BuildEntries(ops);
    var lin := NewBitset(|ops|);
    var seen := new Store.Cache(lin.Length, hash);
    var v := Vars(head.next, m.Init(), [], -1, 0, None, 0);
    var iters := 0;
    var verdict := Verdict.Linearizable;
    ghost var s := M.Start(t, m);
    StartInStep(t, m, nodes, LinksOf(nodes), MatesOf(nodes), lin[..]);
    Entering(t, m, opt, late);
    EntryBytesAre(|ops|);
    end := Ending(verdict, s);
    while head.next != null
      invariant OnTrack(t, m, opt, late, s, iters)
      invariant InStep(t, nodes, LinksOf(nodes), MatesOf(nodes), lin[..], v, s)
      invariant seen.Valid() && Recalls(t, seen.remembered, seen.bytes, s) && seen.entryBytes == EntryBytes(|t.ops|)
      invariant |nodes| > 0 && nodes[0] == head && t.Valid() && t.ops == ops
      invariant verdict == Verdict.Linearizable
      invariant fresh(lin) && fresh(seen) && forall k :: 0 <= k < |nodes| ==> fresh(nodes[k])
      decreases Unexplored(t, m, s), |s.calls|, |t.order| - s.pos
    {
      ghost var l, mates, words := LinksOf(nodes), MatesOf(nodes), lin[..];
      HeadReading(t, nodes, l, mates, words, v, s);
      Going(t, m, opt, late, s, iters);
      Reading(t, nodes, l, mates, words, v, s);
      RecallsIt(t, seen.remembered, seen.bytes, s, words, 0);
      BudgetReading(t, opt, late, v, s, iters, seen.bytes);
      if opt.maxVisits > 0 && v.visits >= opt.maxVisits {
        verdict, end := Verdict.Unknown, Ending(Verdict.Unknown, s);
        break;
      }
      if opt.timeout && ClockIsRead(iters) && late(iters) {
        verdict, end := Verdict.Unknown, Ending(Verdict.Unknown, s);
        break;
      }
      if opt.maxCacheBytes > 0 && seen.bytes >= opt.maxCacheBytes {
        verdict, end := Verdict.Unknown, Ending(Verdict.Unknown, s);
        break;
      }
      Standing(t, m, opt, late, nodes, l, mates, words, v, s, iters);
      if v.e == null {
        assert false;  // the last entry of a list is a return
      }
      if !v.e.isReturn {
        v := TryCall(t, m, nodes, head, lin, seen, v, s);
      } else if v.calls == [] {
        verdict, end := Verdict.NotLinearizable, Ending(Verdict.NotLinearizable, s);
        break;
      } else {
        RecallsStill(t, seen.remembered, seen.bytes, s, M.Next(t, m, s)) by { TakeBackKeepsSeen(t, m, s); }
        v := TakeBack(t, m, nodes, lin, v, s);
      }
      s := M.Next(t, m, s);
      iters := iters + 1;
    }
    ghost var l, mates, words := LinksOf(nodes), MatesOf(nodes), lin[..];
    Reading(t, nodes, l, mates, words, v, s);
    OutcomeReading(t, v, s);
    if verdict == Verdict.Linearizable {
      HeadReading(t, nodes, l, mates, words, v, s);
      Going(t, m, opt, late, s, iters);
      end := Ending(Verdict.Linearizable, s);
    }
    kr := KeyResult(
      verdict, v.visits,
      if verdict != Verdict.Linearizable then v.bestOp else None,
      if verdict == Verdict.Linearizable then Some(v.state) else None);
    Reported(ops, end, kr);
    FullResultIs(ops, m, opt, late, end);
  }

  lemma TakeBackKeepsSeen(t: T.Timeline, m: Model, s: M.Search)
    requires AtReturn(t, m, s)
    ensures M.Next(t, m, s).seen == s.seen
  {
    ReturnFacts(t, m, s);
  }

  lemma Reported(ops: seq<Op>, o: Ending, kr: KeyResult)
    requires o.last.best.Some? ==> o.last.best.value.culprit < |ops|
    requires kr.verdict == o.verdict && kr.visits == o.last.visits
    requires kr.culprit == if o.verdict == Verdict.Linearizable || o.last.best.None? then None
                           else Some(ops[o.last.best.value.culprit])
    requires kr.finalState == if o.verdict == Verdict.Linearizable then Some(o.last.state) else None
    ensures kr == Report(ops, o)
  {
  }
}
