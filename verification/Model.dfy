/** The sequential specifications a history is checked against. */
module Model {
  import opened History

  const INITIAL_VALUE := 0

  /** A sequential specification of one object: the state it starts in, and for
      a state and an operation the state afterwards and whether the transition is
      consistent with what the client saw. */
  datatype Model = Model(init: int, step: (int, Op) -> (int, bool))
  {
    function Init(): int { init }
    function Step(s: int, op: Op): (int, bool) { step(s, op) }
  }

  const CAS_REGISTER: Model := Model(INITIAL_VALUE, CASStep)
  const REGISTER: Model := Model(INITIAL_VALUE, RegisterStep)

  function CASStep(v: int, op: Op): (int, bool) {
    var known := op.outcome == OK;
    match op.kind
    case Read =>
      if known && op.observed != v then (v, false) else (v, true)
    case Write =>
      (op.value, true)
    case CAS =>
      var swapped := v == op.from;
      if known && op.swapped != swapped then (v, false)
      else if swapped then (op.to, true)
      else (v, true)
  }

  function RegisterStep(v: int, op: Op): (int, bool) {
    if op.kind == CAS then (v, false) else CASStep(v, op)
  }

  /** The operation with its answer forgotten. */
  function Downgrade(op: Op): Op { op.(outcome := Info, complete := PENDING) }

  /** Forgetting the answer of an accepted operation does not change what it
      does, and from then on no state at all can refuse it. */
  ghost predicate Forgiving(m: Model) {
    forall s, op, other {:trigger m.Step(s, op), m.Step(other, Downgrade(op))} :: m.Step(s, op).1 ==>
      m.Step(s, Downgrade(op)) == m.Step(s, op) && m.Step(other, Downgrade(op)).1
  }

  lemma RegistersForgive()
    ensures Forgiving(CAS_REGISTER) && Forgiving(REGISTER)
  {
    forall s, op, other ensures
      && (CASStep(s, op).1 ==>
            CASStep(s, Downgrade(op)) == CASStep(s, op) && CASStep(other, Downgrade(op)).1)
      && (RegisterStep(s, op).1 ==>
            RegisterStep(s, Downgrade(op)) == RegisterStep(s, op) && RegisterStep(other, Downgrade(op)).1)
    {
    }
  }

  /** Every state a register can reach holds the initial value or one that some
      operation puts there. */
  ghost function States(ops: seq<Op>): set<int> {
    {INITIAL_VALUE} + (set o | o in ops :: if o.kind == Write then o.value else o.to)
  }

  lemma StepStaysInStates(m: Model, ops: seq<Op>, s: int, op: Op)
    requires m == CAS_REGISTER || m == REGISTER
    requires op in ops && s in States(ops) && m.Step(s, op).1
    ensures m.Step(s, op).0 in States(ops)
  {
    assert (if op.kind == Write then op.value else op.to) in States(ops);
  }
}
