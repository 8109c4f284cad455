/** The reference implementation: every order, with no cache and no cleverness. */
module BruteForce {
  import opened History
  import opened Model
  import opened Linearization
  import opened Verdicts
  import T = Timeline
  import M = Machine
  import opened MachineResult
  import Search

  /** The operations marked as placed. */
  ghost function Marked(placed: seq<bool>): (r: set<nat>)
    ensures forall i: nat :: i in r <==> i < |placed| && placed[i]
  {
    set i: nat | i < |placed| && placed[i]
  }

  /** The history as the specification of placing operations sees it. */
  function Plain(ops: seq<Op>): T.Timeline { T.Timeline(ops, [], [], [], false) }

  /** What remains can be placed legally, starting from state `s`. */
  ghost predicate Completable(ops: seq<Op>, m: Model, placed: set<nat>, s: int) {
    M.CanPlace(Plain(ops), m, placed, s, |ops|)
  }

  lemma MarkOne(placed: seq<bool>, i: nat)
    requires i < |placed| && !placed[i]
    ensures Marked(placed[i := true]) == Marked(placed) + {i}
    ensures |Marked(placed[i := true])| == |Marked(placed)| + 1
  {
    assert Marked(placed[i := true]) == Marked(placed) + {i};
  }

  lemma MarkedCount(placed: seq<bool>)
    ensures Marked(placed) <= M.UpTo(|placed|) && |Marked(placed)| <= |placed|
  {
    M.Subset(Marked(placed), M.UpTo(|placed|));
  }

  ghost predicate StartsWith(ops: seq<Op>, m: Model, placed: set<nat>, s: int, i: nat) {
    && Plain(ops).Minimal(placed, i)
    && m.Step(s, ops[i]).1
    && Completable(ops, m, placed + {i}, m.Step(s, ops[i]).0)
  }

  lemma StartingWith(ops: seq<Op>, m: Model, placed: set<nat>, s: int, i: nat)
    requires i < |ops|
    ensures StartsWith(ops, m, placed, s, i) <==>
            && i !in placed && Plain(ops).Minimal(placed, i) && m.Step(s, ops[i]).1
            && Completable(ops, m, placed + {i}, m.Step(s, ops[i]).0)
  {
  }

  /** A continuation exists exactly when one starts with some operation. */
  lemma SomeStart(ops: seq<Op>, m: Model, placed: set<nat>, s: int, i: nat)
    requires StartsWith(ops, m, placed, s, i) && placed <= M.UpTo(|ops|)
    ensures Completable(ops, m, placed, s)
  {
    M.Room(Plain(ops), placed, i);
  }

  lemma NoStart(ops: seq<Op>, m: Model, placed: set<nat>, s: int)
    requires |placed| < |ops| && forall i: nat :: i < |ops| ==> !StartsWith(ops, m, placed, s, i)
    ensures !Completable(ops, m, placed, s)
  {
    if Completable(ops, m, placed, s) {
      var i := Choose(Plain(ops), m, placed, s, |ops|);
      assert StartsWith(ops, m, placed, s, i);
    }
  }

  lemma NothingLeftToDo(ops: seq<Op>, m: Model, placed: set<nat>, s: int)
    requires |placed| == |ops|
    ensures Completable(ops, m, placed, s)
  {
  }

  lemma MarkedIs(placed: seq<bool>, i: nat)
    requires i < |placed|
    ensures i in Marked(placed) <==> placed[i]
  {
  }

  /** Whether operation `i` can legally be next: no operation still to be placed
      finished before it started. */
  method BruteMinimal(ops: seq<Op>, placed: array<bool>, i: nat) returns (r: bool)
    requires placed.Length == |ops| && i < |ops| && !placed[i]
    ensures r <==> Plain(ops).Minimal(Marked(placed[..]), i)
  {
    for j := 0 to |ops|
      invariant forall k :: 0 <= k < j && k != i && !placed[k] ==> !Plain(ops).Before(k, i)
    {
      if j == i || placed[j] { continue; }
      if ops[j].complete <= ops[i].invoke {
        assert j !in Marked(placed[..]) && Plain(ops).Before(j, i);
        return false;
      }
    }
    return true;
  }

  /** Tries every operation that could come next, in every order. */
  method BruteSearch(ops: seq<Op>, m: Model, s: int, placed: array<bool>, remaining: nat) returns (found: bool)
    requires placed.Length == |ops| && remaining == |ops| - |Marked(placed[..])|
    modifies placed
    ensures placed[..] == old(placed[..])
    ensures found <==> Completable(ops, m, Marked(placed[..]), s)
    decreases remaining
  {
    hide *;
    ghost var was := placed[..];
    MarkedCount(was);
    if remaining == 0 {
      NothingLeftToDo(ops, m, Marked(was), s);
      return true;
    }
    for i := 0 to |ops|
      invariant placed[..] == was
      invariant forall k: nat :: k < i ==> !StartsWith(ops, m, Marked(was), s, k)
    {
      StartingWith(ops, m, Marked(was), s, i);
      MarkedIs(was, i);
      if placed[i] { continue; }
      var minimal := BruteMinimal(ops, placed, i);
      if !minimal { continue; }
      var (next, ok) := m.Step(s, ops[i]);
      if !ok { continue; }
      MarkOne(was, i);
      placed[i] := true;
      assert placed[..] == was[i := true];
      var rest := BruteSearch(ops, m, next, placed, remaining - 1);
      placed[i] := false;
      assert placed[..] == was;
      if rest {
        SomeStart(ops, m, Marked(was), s, i);
        return true;
      }
    }
    NoStart(ops, m, Marked(was), s);
    return false;
  }

  /** Decides a history that is small enough, and refuses a larger one. It needs
      no validation: it is right about every history. */
  method Decide(ops: seq<Op>, m: Model, maxOps: int) returns (r: Option<Verdict>)
    ensures r == None <==> |ops| > maxOps
    ensures r != None ==>
              r == Some(if HasLinearization(m, Live(ops)) then Verdict.Linearizable else Verdict.NotLinearizable)
  {
    if |ops| > maxOps {
      return None;
    }
    var live := Live(ops);
    var placed := new bool[|live|](_ => false);
    assert Marked(placed[..]) == {};
    var found := BruteSearch(live, m, m.Init(), placed, |live|);
    assert Marked(placed[..]) == {};
    CanPlaceAllIff(Plain(live), m);
    return Some(if found then Verdict.Linearizable else Verdict.NotLinearizable);
  }

  /** On a history the search accepts, an unbudgeted search gives the oracle's answer. */
  lemma SearchAgreesWithOracle(ops: seq<Op>, m: Model, opt: Options, late: Clock)
    requires Searchable(ops) && opt.Unlimited()
    ensures Search.FullResult(ops, m, opt, late).verdict ==
            if Completable(ops, m, {}, m.Init()) then Verdict.Linearizable else Verdict.NotLinearizable
  {
    Search.FullIsExact(ops, m, opt, late);
    CanPlaceAllIff(Plain(ops), m);
  }
}
