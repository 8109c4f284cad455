/** The search of one key as a deterministic machine: one value per iteration of
    its loop, with the placed operations, the remembered configurations and the
    position in the entry list all made explicit. */
module Machine {
  import opened History
  import opened Model
  import opened Timeline

  // ----- What can be placed at all

  /** The model state after placing the operations `ids` one by one, each of them
      minimal among the rest and accepted. */
  function After(t: Timeline, m: Model, ids: seq<nat>): Option<int>
  {
    if ids == [] then Some(m.Init())
    else
      var last := ids[|ids| - 1];
      match After(t, m, ids[..|ids| - 1])
      case None => None
      case Some(s) =>
        if t.Minimal(Placed(ids[..|ids| - 1]), last) && m.Step(s, t.ops[last]).1
        then Some(m.Step(s, t.ops[last]).0) else None
  }

  function Placed(ids: seq<nat>): set<nat> { set i | i in ids }

  /** From a configuration, some legal continuation brings the number of placed
      operations to `d`. */
  ghost predicate CanPlace(t: Timeline, m: Model, placed: set<nat>, s: int, d: nat)
    decreases d - |placed|
  {
    || |placed| == d
    || (|placed| < d && exists i: nat ::
          && t.Minimal(placed, i)
          && m.Step(s, t.ops[i]).1
          && CanPlace(t, m, placed + {i}, m.Step(s, t.ops[i]).0, d))
  }

  /** No continuation of the configuration places more than `depth` operations. */
  ghost predicate Dead(t: Timeline, m: Model, placed: set<nat>, s: int, depth: int) {
    forall d: nat :: depth < d <= |t.ops| ==> !CanPlace(t, m, placed, s, d)
  }

  // ----- The machine

  /** A placed operation and the state the search was in before it was placed. */
  datatype Frame = Frame(id: nat, state: int)

  /** The deepest point at which an operation was refused. */
  datatype Best = Best(ids: seq<nat>, state: int, culprit: nat)

  datatype Search = Search(
    pos: nat,
    state: int,
    calls: seq<Frame>,
    seen: set<(set<nat>, int)>,
    best: Option<Best>,
    visits: nat)
  {
    function Depth(): int { if best.None? then -1 else |best.value.ids| }
    function Done(): set<nat> { Placed(Ids(calls)) }
  }

  function Ids(calls: seq<Frame>): (ids: seq<nat>)
    ensures |ids| == |calls|
    ensures forall j :: 0 <= j < |calls| ==> ids[j] == calls[j].id
  {
    seq(|calls|, j requires 0 <= j < |calls| => calls[j].id)
  }

  function Start(t: Timeline, m: Model): Search {
    Search(t.NextLive({}, 0), m.Init(), [], {}, None, 0)
  }

  /** Every operation is placed. */
  predicate Complete(t: Timeline, s: Search) {
    t.NextLive(s.Done(), 0) == |t.order|
  }

  /** The search is back at a return with nothing left to take back. */
  predicate Stuck(t: Timeline, s: Search) {
    s.pos < |t.order| && t.order[s.pos].isReturn && s.calls == []
  }

  /** One iteration of the loop. */
  function Next(t: Timeline, m: Model, s: Search): Search {
    if s.pos >= |t.order| || Stuck(t, s) then s
    else if t.order[s.pos].isReturn then
      var top := s.calls[|s.calls| - 1];
      var calls := s.calls[..|s.calls| - 1];
      s.(calls := calls, state := top.state,
         pos := t.NextLive(Placed(Ids(calls)), t.CallIndex(top.id) + 1))
    else
      var e := t.order[s.pos];
      var (next, ok) := m.Step(s.state, e.op);
      var c := (s.Done() + {e.id}, next);
      var skip := s.(visits := s.visits + 1, pos := t.NextLive(s.Done(), s.pos + 1));
      if !ok then
        if |s.calls| > s.Depth()
        then skip.(best := Some(Best(Ids(s.calls), s.state, e.id)))
        else skip
      else if c in s.seen then skip
      else s.(visits := s.visits + 1, seen := s.seen + {c},
              calls := s.calls + [Frame(e.id, s.state)], state := next,
              pos := t.NextLive(c.0, 0))
  }

  // ----- Its invariant

  /** Placing `i` from this configuration leads nowhere deeper than `depth`. */
  ghost predicate Refuted(t: Timeline, m: Model, placed: set<nat>, s: int, i: nat, depth: int)
    requires i < |t.ops|
  {
    if m.Step(s, t.ops[i]).1
    then Dead(t, m, placed + {i}, m.Step(s, t.ops[i]).0, depth)
    else |placed| <= depth
  }

  /** The list before position `q` holds only calls, and all were tried in vain. */
  ghost predicate Swept(t: Timeline, m: Model, placed: set<nat>, s: int, q: nat, depth: int)
    requires t.Valid()
  {
    forall k {:trigger t.Live(placed, k)} :: 0 <= k < q && t.Live(placed, k) ==>
      !t.order[k].isReturn && Refuted(t, m, placed, s, t.order[k].id, depth)
  }

  /** One level of the stack: it was reached legally, and its list is swept up to `q`. */
  ghost predicate Level(t: Timeline, m: Model, ids: seq<nat>, s: int, q: nat, depth: int)
    requires t.Valid()
  {
    After(t, m, ids) == Some(s) && Swept(t, m, Placed(ids), s, q, depth)
  }

  /** The configurations that placing `k` operations can lead to. */
  ghost function Reach(t: Timeline, m: Model, k: nat): set<(set<nat>, int)> {
    if k == 0 then {({}, m.Init())}
    else set c, i | c in Reach(t, m, k - 1) && i in AllIds(t) && t.Minimal(c.0, i) && m.Step(c.1, t.ops[i]).1
           :: (c.0 + {i}, m.Step(c.1, t.ops[i]).0)
  }

  /** All configurations there are. */
  ghost function Universe(t: Timeline, m: Model): set<(set<nat>, int)> {
    set k, c | k in UpTo(|t.ops| + 1) && c in Reach(t, m, k) :: c
  }

  ghost function AllIds(t: Timeline): set<nat> { UpTo(|t.ops|) }

  ghost function UpTo(n: nat): (r: set<nat>)
    ensures |r| == n
    ensures forall i: nat :: i in r <==> i < n
  {
    if n == 0 then {} else UpTo(n - 1) + {n - 1}
  }

  /** The configuration reached by the first `j` calls on the stack. */
  ghost predicate AtHeight(t: Timeline, m: Model, calls: seq<Frame>, c: (set<nat>, int), j: nat) {
    && 1 <= j <= |calls|
    && c.0 == Placed(Ids(calls[..j]))
    && After(t, m, Ids(calls[..j])) == Some(c.1)
  }

  /** A remembered configuration is either on the stack or exhausted. */
  ghost predicate Accounted(t: Timeline, m: Model, calls: seq<Frame>, c: (set<nat>, int), depth: int) {
    Dead(t, m, c.0, c.1, depth) || exists j: nat :: AtHeight(t, m, calls, c, j)
  }

  /** The stack of calls, topped by the present state and position. */
  ghost predicate Stack(t: Timeline, m: Model, calls: seq<Frame>, state: int, pos: nat, depth: int)
    requires t.Valid()
  {
    && Level(t, m, Ids(calls), state, pos, depth)
    && (forall j :: 0 <= j < |calls| ==> Holds(t, m, calls, j, depth))
  }

  ghost predicate Holds(t: Timeline, m: Model, calls: seq<Frame>, j: nat, depth: int)
    requires t.Valid() && j < |calls|
  {
    && calls[j].id < |t.ops|
    && Level(t, m, Ids(calls[..j]), calls[j].state, t.callAt[calls[j].id], depth)
  }

  ghost predicate Memory(t: Timeline, m: Model, s: Search) {
    && s.seen <= Universe(t, m)
    && (forall c :: c in s.seen ==> Accounted(t, m, s.calls, c, s.Depth()))
  }

  /** The deepest refusal really is one. */
  ghost predicate Refusal(t: Timeline, m: Model, b: Best) {
    && After(t, m, b.ids) == Some(b.state)
    && t.Minimal(Placed(b.ids), b.culprit)
    && !m.Step(b.state, t.ops[b.culprit]).1
  }

  ghost predicate Inv(t: Timeline, m: Model, s: Search) {
    && t.Valid()
    && s.pos <= |t.order| && (s.pos < |t.order| ==> t.Live(s.Done(), s.pos))
    && Stack(t, m, s.calls, s.state, s.pos, s.Depth())
    && Memory(t, m, s)
    && (s.best.Some? ==> Refusal(t, m, s.best.value))
  }

  // ----- Facts about legal partial orders

  lemma PlacedSnoc(ids: seq<nat>, i: nat)
    ensures Placed(ids + [i]) == Placed(ids) + {i}
  {
  }

  lemma AfterSnoc(t: Timeline, m: Model, ids: seq<nat>, i: nat, s: int)
    requires After(t, m, ids) == Some(s)
    ensures After(t, m, ids + [i]) ==
            if t.Minimal(Placed(ids), i) && m.Step(s, t.ops[i]).1
            then Some(m.Step(s, t.ops[i]).0) else None
  {
    assert (ids + [i])[..|ids|] == ids;
  }

  /** The last step of a legal partial order. */
  lemma AfterLast(t: Timeline, m: Model, ids: seq<nat>)
    requires ids != [] && After(t, m, ids).Some?
    ensures var pre, last := ids[..|ids| - 1], ids[|ids| - 1];
            && After(t, m, pre).Some?
            && t.Minimal(Placed(pre), last)
            && m.Step(After(t, m, pre).value, t.ops[last]) == (After(t, m, ids).value, true)
            && Placed(ids) == Placed(pre) + {last}
  {
    PlacedSnoc(ids[..|ids| - 1], ids[|ids| - 1]);
    assert ids == ids[..|ids| - 1] + [ids[|ids| - 1]];
  }

  /** A legal partial order places distinct operations of the history. */
  lemma {:induction false} AfterCount(t: Timeline, m: Model, ids: seq<nat>)
    requires After(t, m, ids).Some?
    ensures |Placed(ids)| == |ids| <= |t.ops| && Placed(ids) <= AllIds(t)
  {
    if ids == [] {
      assert Placed(ids) == {};
    } else {
      AfterLast(t, m, ids);
      AfterCount(t, m, ids[..|ids| - 1]);
      Subset(Placed(ids), AllIds(t));
    }
  }

  lemma ReachStep(t: Timeline, m: Model, k: nat, c: (set<nat>, int), i: nat)
    requires c in Reach(t, m, k)
    requires t.Minimal(c.0, i) && m.Step(c.1, t.ops[i]).1
    ensures (c.0 + {i}, m.Step(c.1, t.ops[i]).0) in Reach(t, m, k + 1)
  {
    assert i in AllIds(t);
  }

  lemma {:induction false} AfterReaches(t: Timeline, m: Model, ids: seq<nat>)
    requires After(t, m, ids).Some?
    ensures (Placed(ids), After(t, m, ids).value) in Reach(t, m, |ids|)
  {
    if ids == [] {
      assert Placed(ids) == {};
    } else {
      var pre := ids[..|ids| - 1];
      AfterLast(t, m, ids);
      AfterReaches(t, m, pre);
      ReachStep(t, m, |pre|, (Placed(pre), After(t, m, pre).value), ids[|ids| - 1]);
    }
  }

  lemma AfterFacts(t: Timeline, m: Model, ids: seq<nat>)
    requires After(t, m, ids).Some?
    ensures |Placed(ids)| == |ids| <= |t.ops| && Placed(ids) <= AllIds(t)
    ensures (Placed(ids), After(t, m, ids).value) in Universe(t, m)
  {
    AfterCount(t, m, ids);
    AfterReaches(t, m, ids);
    assert |ids| in UpTo(|t.ops| + 1);
  }

  /** A configuration whose return has been reached with everything before it
      refuted is exhausted. */
  lemma SweptIsDead(t: Timeline, m: Model, ids: seq<nat>, s: int, k: nat, depth: int)
    requires t.Valid() && Level(t, m, ids, s, k, depth)
    requires t.Live(Placed(ids), k) && t.order[k].isReturn
    ensures Dead(t, m, Placed(ids), s, depth)
  {
    var placed := Placed(ids);
    forall d: nat | depth < d <= |t.ops| ensures !CanPlace(t, m, placed, s, d) {
      var i := t.order[k].id;
      assert t.Live(placed, t.callAt[i]) && t.callAt[i] < k;
      assert Refuted(t, m, placed, s, i, depth);
      if |placed| == d {
        assert CanPlace(t, m, placed + {i}, m.Step(s, t.ops[i]).0, d + 1);
        AfterFacts(t, m, ids);
        Room(t, placed, i);
        assert false;
      } else if CanPlace(t, m, placed, s, d) {
        var j: nat :| t.Minimal(placed, j) && m.Step(s, t.ops[j]).1 &&
                 CanPlace(t, m, placed + {j}, m.Step(s, t.ops[j]).0, d);
        t.MinimalIsEarly(placed, j, k);
        assert t.Live(placed, t.callAt[j]);
        assert false;
      }
    }
  }

  /** With an operation still to place, fewer than all are placed. */
  lemma Room(t: Timeline, placed: set<nat>, i: nat)
    requires placed <= AllIds(t) && i < |t.ops| && i !in placed
    ensures |placed| < |t.ops|
  {
    assert placed + {i} <= AllIds(t);
    Subset(placed + {i}, AllIds(t));
  }

  lemma {:induction false} Subset<T>(a: set<T>, b: set<T>)
    requires a <= b
    ensures |a| <= |b|
    ensures |a| == |b| ==> a == b
  {
    assert b == a + (b - a) && |b| == |a| + |b - a|;
  }
}
