/** Searching the keys side by side: any interleaving of any number of workers. */
module Workers {
  import opened History
  import opened Model
  import opened Linearization
  import opened Verdicts
  import opened Sorting
  import opened Slicing
  import opened Minimise
  import KeySearch

  type KeyResult = KeySearch.KeyResult

  /** The clocks of the searches: one for each half of the search of each key. */
  type KeyClocks = (string, bool) -> Clock

  /** What searching one key answers. */
  ghost function KeyAnswer(k: string, ops: seq<Op>, m: Model, opt: Options, late: KeyClocks): KeyResult
    requires Checkable(ops)
  {
    SortedIsRecorded(ops);
    KeySearch.KeyOutcome(ByInvoke(ops), m, opt, late(k, false), late(k, true))
  }

  /** A refusal of a key is true, a pass is true exactly when no two of its operations
      precede each other, and without a budget it is one or the other. */
  lemma KeyAnswerIsExact(k: string, ops: seq<Op>, m: Model, opt: Options, late: KeyClocks)
    requires Checkable(ops)
    ensures var kr := KeyAnswer(k, ops, m, opt, late);
            && (kr.verdict == Verdict.Linearizable ==> (HasLinearization(m, ops) <==> CollisionFree(ops)))
            && (kr.verdict == Verdict.NotLinearizable ==> !HasLinearization(m, ops))
            && (opt.Unlimited() ==> kr.verdict != Verdict.Unknown)
  {
    SortedIsRecorded(ops);
    LayoutIndependent(m, ops, ByInvoke(ops));
    KeySearch.KeyIsExact(ByInvoke(ops), m, opt, late(k, false), late(k, true));
    hide AllOrdered, CollisionFree, HasLinearization, KeySearch.KeyOutcome;
  }

  /** Sorts one key's operations and searches them. */
  method SearchOne(k: string, ops: seq<Op>, m: Model, opt: Options, late: KeyClocks, hash: (seq<bv64>, int) -> int)
    returns (kr: KeyResult)
    requires Checkable(ops)
    ensures kr == KeyAnswer(k, ops, m, opt, late)
  {
    SortedIsRecorded(ops);
    hide AllOrdered, CollisionFree, HasLinearization, KeySearch.KeyOutcome, Sort;
    kr := KeySearch.SearchKey(ByInvoke(ops), m, opt, late(k, false), late(k, true), hash);
  }

  // ----- Workers

  /** A worker is about to ask for a key, busy with one, or has found none left. */
  datatype Worker = Idle | Busy(slot: nat) | Gone

  function Weight(crew: seq<Worker>): nat {
    if crew == [] then 0
    else Weight(crew[..|crew| - 1]) + (match crew[|crew| - 1] case Idle => 1 case Busy(_) => 2 case Gone => 0)
  }

  lemma {:induction false} WeightUpdate(crew: seq<Worker>, w: nat, x: Worker)
    requires w < |crew|
    ensures Weight(crew[w := x]) + Weight([crew[w]]) == Weight(crew) + Weight([x])
  {
    var n := |crew| - 1;
    if w == n {
      assert crew[w := x][..n] == crew[..n];
    } else {
      assert crew[w := x][..n] == crew[..n][w := x];
      WeightUpdate(crew[..n], w, x);
    }
  }

  lemma Weights()
    ensures Weight([Idle]) == 1 && Weight([Gone]) == 0 && forall i :: Weight([Busy(i)]) == 2
  {
    forall x: Worker ensures Weight([x]) == (match x case Idle => 1 case Busy(_) => 2 case Gone => 0) {
      assert [x][..0] == [];
    }
  }

  /** The work in progress: `taken` slots have been handed out, a worker's slot is
      empty and its own, every other handed-out slot is filled with its answer. */
  ghost predicate InHand(crew: seq<Worker>, taken: nat, slots: seq<Option<KeyResult>>, answers: seq<KeyResult>,
                         filled: seq<nat>) {
    && |slots| == |answers|
    && (forall w :: 0 <= w < |crew| && crew[w].Busy? ==>
          crew[w].slot < taken && crew[w].slot < |slots| && slots[crew[w].slot] == None)
    && (forall v, w :: 0 <= v < w < |crew| && crew[v].Busy? && crew[w].Busy? ==> crew[v].slot != crew[w].slot)
    && (forall i :: 0 <= i < |slots| ==> slots[i] == None || slots[i] == Some(answers[i]))
    && (forall i :: 0 <= i < |slots| && i < taken && slots[i] == None ==>
          exists w :: 0 <= w < |crew| && crew[w] == Busy(i))
    && (forall i :: taken <= i < |slots| ==> slots[i] == None)
    && (forall w :: 0 <= w < |crew| && crew[w] == Gone ==> taken >= |slots|)
    && Logged(filled, slots)
  }

  /** The slots filled so far, in the order they were. */
  ghost predicate Logged(filled: seq<nat>, slots: seq<Option<KeyResult>>) {
    && NoDuplicates(filled)
    && (forall i: nat :: i in filled <==> i < |slots| && slots[i] != None)
  }

  lemma LogOneMore(filled: seq<nat>, slots: seq<Option<KeyResult>>, i: nat, kr: KeyResult)
    requires Logged(filled, slots) && i < |slots| && slots[i] == None
    ensures i !in filled && Logged(filled + [i], slots[i := Some(kr)])
  {
    var all := filled + [i];
    assert forall j: nat :: j in all <==> j in filled || j == i;
    forall x, y | 0 <= x < y < |all| ensures all[x] != all[y] {
      assert all[x] == filled[x];
      assert filled[x] in filled;
    }
  }

  lemma Claims(crew: seq<Worker>, taken: nat, slots: seq<Option<KeyResult>>, answers: seq<KeyResult>,
               filled: seq<nat>, w: nat)
    requires InHand(crew, taken, slots, answers, filled) && w < |crew| && crew[w] == Idle
    ensures InHand(crew[w := if taken < |slots| then Busy(taken) else Gone], taken + 1, slots, answers, filled)
  {
    var crew' := crew[w := if taken < |slots| then Busy(taken) else Gone];
    forall i | 0 <= i < |slots| && i < taken + 1 && slots[i] == None
      ensures exists v :: 0 <= v < |crew'| && crew'[v] == Busy(i)
    {
      if i == taken {
        assert crew'[w] == Busy(i);
      } else {
        var v :| 0 <= v < |crew| && crew[v] == Busy(i);
        assert crew'[v] == Busy(i);
      }
    }
  }

  lemma Fills(crew: seq<Worker>, taken: nat, slots: seq<Option<KeyResult>>, answers: seq<KeyResult>,
              filled: seq<nat>, w: nat)
    requires InHand(crew, taken, slots, answers, filled) && w < |crew| && crew[w].Busy?
    ensures crew[w].slot < |answers| && crew[w].slot !in filled
    ensures var i := crew[w].slot;
            InHand(crew[w := Idle], taken, slots[i := Some(answers[i])], answers, filled + [i])
  {
    var i := crew[w].slot;
    LogOneMore(filled, slots, i, answers[i]);
    hide Logged;
    var crew', slots' := crew[w := Idle], slots[i := Some(answers[i])];
    forall j | 0 <= j < |slots'| && j < taken && slots'[j] == None
      ensures exists v :: 0 <= v < |crew'| && crew'[v] == Busy(j)
    {
      var v :| 0 <= v < |crew| && crew[v] == Busy(j);
      assert crew'[v] == Busy(j);
    }
  }

  lemma AllDone(crew: seq<Worker>, taken: nat, slots: seq<Option<KeyResult>>, answers: seq<KeyResult>, filled: seq<nat>)
    requires InHand(crew, taken, slots, answers, filled) && crew != []
    requires forall w :: 0 <= w < |crew| ==> crew[w] == Gone
    ensures forall i :: 0 <= i < |slots| ==> slots[i] == Some(answers[i])
    ensures forall i: nat :: i in filled <==> i < |slots|
    ensures NoDuplicates(filled)
  {
    assert crew[0] == Gone;
  }

  lemma NothingInHand(n: nat, slots: seq<Option<KeyResult>>, answers: seq<KeyResult>)
    requires |slots| == |answers| && forall i :: 0 <= i < |slots| ==> slots[i] == None
    ensures InHand(seq(n, _ => Idle), 0, slots, answers, [])
  {
    assert Logged([], slots);
    var crew := seq(n, _ => Idle);
    assert forall w :: 0 <= w < |crew| ==> crew[w] == Idle;
    hide Logged;
  }

  ghost predicate AllCheckable(keys: seq<string>, byKey: map<string, seq<Op>>) {
    forall k :: k in keys ==> k in byKey && Checkable(byKey[k])
  }

  ghost function Answers(keys: seq<string>, byKey: map<string, seq<Op>>, m: Model, opt: Options,
                         late: KeyClocks): (r: seq<KeyResult>)
    requires AllCheckable(keys, byKey)
    ensures |r| == |keys|
    ensures forall i :: 0 <= i < |keys| ==> r[i] == KeyAnswer(keys[i], byKey[keys[i]], m, opt, late)
  {
    seq(|keys|, i requires 0 <= i < |keys| => KeyAnswer(keys[i], byKey[keys[i]], m, opt, late))
  }

  lemma AnswersAt(keys: seq<string>, byKey: map<string, seq<Op>>, m: Model, opt: Options, late: KeyClocks, i: nat)
    requires AllCheckable(keys, byKey) && i < |keys|
    ensures keys[i] in byKey && Checkable(byKey[keys[i]])
    ensures Answers(keys, byKey, m, opt, late)[i] == KeyAnswer(keys[i], byKey[keys[i]], m, opt, late)
    ensures |Answers(keys, byKey, m, opt, late)| == |keys|
  {
  }

  /** Whichever worker the scheduler lets go on next, every slot is filled exactly
      once, and with the answer to its own key. */
  method SearchAll(keys: seq<string>, byKey: map<string, seq<Op>>, results: array<Option<KeyResult>>, m: Model,
                   opt: Options,
                   late: KeyClocks, hash: (seq<bv64>, int) -> int, parallelism: int, processors: int)
    returns (ghost filled: seq<nat>)
    requires AllCheckable(keys, byKey)
    requires results.Length == |keys| && forall i :: 0 <= i < |keys| ==> results[i] == None
    modifies results
    ensures forall i :: 0 <= i < |keys| ==> results[i] == Some(Answers(keys, byKey, m, opt, late)[i])
    ensures NoDuplicates(filled) && forall i: nat :: i in filled <==> i < |keys|
  {
    hide *;
    ghost var answers := Answers(keys, byKey, m, opt, late);
    filled := [];
    var workers := parallelism;
    if workers <= 0 {
      workers := processors;
    }
    if workers > |keys| {
      workers := |keys|;
    }
    HowMany(keys, byKey, m, opt, late);
    if workers <= 1 {
      NoneFilled();
      for i := 0 to |keys|
        invariant NoDuplicates(filled) && forall j: nat :: j in filled <==> j < i
        invariant forall j :: 0 <= j < i ==> results[j] == Some(answers[j])
      {
        AnswersAt(keys, byKey, m, opt, late, i);
        var kr := SearchOne(keys[i], byKey[keys[i]], m, opt, late, hash);
        results[i] := Some(kr);
        OneMoreFilled(filled, i);
        filled := filled + [i];
      }
      return;
    }
    var next, crew: seq<Worker> := 0, seq(workers, _ => Idle);
    NothingInHand(workers, results[..], answers);
    while exists w :: 0 <= w < |crew| && crew[w] != Gone
      invariant next >= 0 && crew != []
      invariant InHand(crew, next, results[..], answers, filled)
      decreases Weight(crew) + 2 * (if next < |keys| then |keys| - next else 0)
    {
      var w :| 0 <= w < |crew| && crew[w] != Gone;
      Weights();
      match crew[w] {
        case Idle =>
          var i := next;
          next := next + 1;
          Claims(crew, i, results[..], answers, filled, w);
          if i >= |keys| {
            WeightUpdate(crew, w, Gone);
            crew := crew[w := Gone];
          } else {
            WeightUpdate(crew, w, Busy(i));
            crew := crew[w := Busy(i)];
          }
        case Busy(i) =>
          Fills(crew, next, results[..], answers, filled, w);
          AnswersAt(keys, byKey, m, opt, late, i);
          var kr := SearchOne(keys[i], byKey[keys[i]], m, opt, late, hash);
          ghost var before := results[..];
          results[i] := Some(kr);
          assert results[..] == before[i := Some(kr)];
          filled := filled + [i];
          WeightUpdate(crew, w, Idle);
          crew := crew[w := Idle];
      }
    }
    AllDone(crew, next, results[..], answers, filled);
    assert forall i :: 0 <= i < |keys| ==> results[i] == results[..][i];
  }

  lemma HowMany(keys: seq<string>, byKey: map<string, seq<Op>>, m: Model, opt: Options, late: KeyClocks)
    requires AllCheckable(keys, byKey)
    ensures |Answers(keys, byKey, m, opt, late)| == |keys|
  {
  }

  lemma NoneFilled()
    ensures NoDuplicates<nat>([])
  {
  }

  lemma OneMoreFilled(filled: seq<nat>, i: nat)
    requires NoDuplicates(filled) && forall j: nat :: j in filled <==> j < i
    ensures NoDuplicates(filled + [i]) && forall j: nat :: j in filled + [i] <==> j < i + 1
  {
    var all := filled + [i];
    assert forall j: nat :: j in all <==> j in filled || j == i;
    forall x, y | 0 <= x < y < |all| ensures all[x] != all[y] {
      assert all[x] == filled[x];
      assert filled[x] in filled;
    }
  }
}
