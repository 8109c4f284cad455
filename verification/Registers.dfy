/** What the specifications specify: a register holds what was last put into it. */
module Registers {
  import opened History
  import opened Model
  import opened Linearization

  /** What the operations of `w` leave in a register that held `init`: the value of the
      last of them that was a write, or a compare-and-swap that swapped. */
  function LastPut(init: int, w: seq<Op>): int {
    if w == [] then init
    else
      var o := w[|w| - 1];
      if o.kind == Write then o.value
      else if o.kind == CAS && o.swapped then o.to
      else LastPut(init, w[..|w| - 1])
  }

  /** The answer to operation i is about what was put last before it. */
  predicate AnswersFor(init: int, w: seq<Op>, i: nat)
    requires i < |w|
  {
    var held := LastPut(init, w[..i]);
    && (w[i].kind == Read ==> w[i].observed == held)
    && (w[i].kind == CAS ==> (w[i].swapped <==> w[i].from == held))
  }

  ghost predicate AllAnswered(w: seq<Op>) {
    forall o :: o in w ==> o.outcome == OK
  }

  lemma FinalSnoc(m: Model, s: int, w: seq<Op>, o: Op)
    ensures Final(m, s, w + [o]) ==
            match Final(m, s, w)
            case None => None
            case Some(v) => if m.Step(v, o).1 then Some(m.Step(v, o).0) else None
  {
    FinalAppend(m, s, w, [o]);
    if Final(m, s, w).Some? {
      var v := Final(m, s, w).value;
      assert [o][1..] == [];
      assert Final(m, v, [o]) == if m.Step(v, o).1 then Some(m.Step(v, o).0) else None;
    }
  }

  ghost predicate AllAnswersFit(init: int, w: seq<Op>) {
    forall i :: 0 <= i < |w| ==> AnswersFor(init, w, i)
  }

  /** What one more answered operation does and has to answer. */
  lemma OneMoreAnswer(init: int, pre: seq<Op>, o: Op)
    requires o.outcome == OK
    ensures var held := LastPut(init, pre); var w := pre + [o];
            && (AllAnswersFit(init, w) <==> AllAnswersFit(init, pre) && CAS_REGISTER.Step(held, o).1)
            && (CAS_REGISTER.Step(held, o).1 ==> LastPut(init, w) == CAS_REGISTER.Step(held, o).0)
  {
    var w := pre + [o];
    assert w[..|pre|] == pre;
    forall i | 0 <= i < |pre| ensures AnswersFor(init, w, i) <==> AnswersFor(init, pre, i) {
      assert w[..i] == pre[..i];
    }
    assert AnswersFor(init, w, |pre|) <==> CAS_REGISTER.Step(LastPut(init, pre), o).1;
  }

  lemma NoAnswers(init: int)
    ensures AllAnswersFit(init, []) && LastPut(init, []) == init
    ensures forall m :: Final(m, init, []) == Some(init)
  {
  }

  lemma AnsweredPrefix(w: seq<Op>)
    requires AllAnswered(w) && w != []
    ensures AllAnswered(w[..|w| - 1]) && w[|w| - 1].outcome == OK
  {
  }

  /** The register accepts answered operations in this order exactly when every answer is
      about what was put last, and then holds that. */
  lemma {:induction false} RegisterHoldsLastPut(init: int, w: seq<Op>)
    requires AllAnswered(w)
    ensures Final(CAS_REGISTER, init, w).Some? <==> AllAnswersFit(init, w)
    ensures Final(CAS_REGISTER, init, w).Some? ==> Final(CAS_REGISTER, init, w).value == LastPut(init, w)
  {
    hide *;
    if w == [] {
      NoAnswers(init);
    } else {
      var pre, o := w[..|w| - 1], w[|w| - 1];
      assert w == pre + [o];
      AnsweredPrefix(w);
      RegisterHoldsLastPut(init, pre);
      FinalSnoc(CAS_REGISTER, init, pre, o);
      OneMoreAnswer(init, pre, o);
    }
  }

  /** The operation with the answer it gets from a register that holds v. */
  function Answered(v: int, o: Op): Op { o.(outcome := OK, observed := v, swapped := o.from == v) }

  /** An operation without an answer does what it does with the right one. */
  lemma UnansweredDoesTheSame(v: int, o: Op)
    requires o.outcome != OK
    ensures CAS_REGISTER.Step(v, o) == CAS_REGISTER.Step(v, Answered(v, o)) && CAS_REGISTER.Step(v, o).1
    ensures o.kind != CAS ==>
              REGISTER.Step(v, o) == REGISTER.Step(v, Answered(v, o)) && REGISTER.Step(v, o).1
  {
  }

  ghost predicate NoSwaps(w: seq<Op>) {
    forall o :: o in w ==> o.kind != CAS
  }

  /** The plain register is the other one without compare-and-swap. */
  lemma {:induction false} PlainIsTheOther(s: int, w: seq<Op>)
    ensures Final(REGISTER, s, w) == if NoSwaps(w) then Final(CAS_REGISTER, s, w) else None
    decreases w
  {
    if w == [] {
    } else {
      assert w == [w[0]] + w[1..] && w[0] in w;
      PlainIsTheOther(REGISTER.Step(s, w[0]).0, w[1..]);
      assert NoSwaps(w) <==> w[0].kind != CAS && NoSwaps(w[1..]);
      if w[0].kind != CAS && !NoSwaps(w[1..]) && !CAS_REGISTER.Step(s, w[0]).1 {
        assert Final(REGISTER, s, w) == None;
      }
    }
  }

  /** A history linearizes for the plain register exactly when it does for the other and
      holds no compare-and-swap. */
  lemma PlainLinearizesIff(h: seq<Op>)
    ensures HasLinearization(REGISTER, h) <==> HasLinearization(CAS_REGISTER, h) && NoSwaps(h)
  {
    forall w | multiset(w) == multiset(h)
      ensures IsLinearization(REGISTER, h, w) <==> IsLinearization(CAS_REGISTER, h, w) && NoSwaps(h)
    {
      PlainIsTheOther(INITIAL_VALUE, w);
      forall o ensures o in w <==> o in h {
        assert o in w <==> o in multiset(w);
        assert o in h <==> o in multiset(h);
      }
    }
    if HasLinearization(REGISTER, h) {
      var w :| IsLinearization(REGISTER, h, w);
      assert IsLinearization(CAS_REGISTER, h, w);
    }
    if HasLinearization(CAS_REGISTER, h) && NoSwaps(h) {
      var w :| IsLinearization(CAS_REGISTER, h, w);
      assert IsLinearization(REGISTER, h, w);
    }
  }

  /** With answers to everything, a history linearizes exactly when some order of it
      respects real time and every answer is about what was put last. */
  lemma AnsweredLinearizesIff(h: seq<Op>)
    requires AllAnswered(h)
    ensures HasLinearization(CAS_REGISTER, h) <==>
            exists w: seq<Op> ::
              multiset(w) == multiset(h) && RespectsRealTime(w) && AllAnswersFit(0, w)
  {
    forall w: seq<Op> | multiset(w) == multiset(h)
      ensures Final(CAS_REGISTER, INITIAL_VALUE, w).Some? <==> AllAnswersFit(INITIAL_VALUE, w)
    {
      forall o | o in w ensures o in h {
        assert o in multiset(w);
      }
      RegisterHoldsLastPut(INITIAL_VALUE, w);
    }
    hide AllAnswersFit, Final;
    if HasLinearization(CAS_REGISTER, h) {
      var w :| IsLinearization(CAS_REGISTER, h, w);
      assert multiset(w) == multiset(h) && RespectsRealTime(w);
    }
    if w: seq<Op> :|
      multiset(w) == multiset(h) && RespectsRealTime(w) && AllAnswersFit(INITIAL_VALUE, w)
    {
      assert IsLinearization(CAS_REGISTER, h, w);
    }
  }
}
