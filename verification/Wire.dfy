/** The on-disk form of a history, and what survives it. */
module Wire {
  import opened History
  import opened Model
  import opened Linearization
  import opened Sorting
  import opened Slicing
  import opened Truncating
  import opened Validity
  import opened Pairs
  import opened Locality
  import opened Verdicts
  import opened Workers
  import Check

  /** One line of a file. A field left out is not the same as a field that is zero. */
  datatype WireOp = WireOp(
    process: Option<int>,
    key: string,
    kind: string,
    value: Option<int>,
    from: Option<int>,
    to: Option<int>,
    observed: Option<int>,
    swapped: Option<bool>,
    outcome: string,
    invoke: Option<Int64>,
    complete: Option<Int64>,
    err: string)

  datatype Problem =
    | UnknownKind | UnknownOutcome
    | NoProcess | NoInvoke | NoValue | NoFromOrTo | NoObserved | NoSwapped | NoComplete

  datatype Result<T> = Ok(value: T) | Err(problem: Problem)

  function KindName(k: Kind): string {
    match k case Read => "read" case Write => "write" case CAS => "cas"
  }

  function ParseKind(s: string): Option<Kind> {
    if s == "read" then Some(Read) else if s == "write" then Some(Write) else if s == "cas" then Some(CAS) else None
  }

  function OutcomeName(o: Outcome): string {
    match o case OK => "ok" case Fail => "fail" case Info => "info"
  }

  function ParseOutcome(s: string): Option<Outcome> {
    if s == "ok" then Some(OK) else if s == "fail" then Some(Fail) else if s == "info" then Some(Info) else None
  }

  lemma NamesRoundTrip(k: Kind, o: Outcome)
    ensures ParseKind(KindName(k)) == Some(k) && ParseOutcome(OutcomeName(o)) == Some(o)
  {
  }

  function ToWire(o: Op): WireOp {
    WireOp(Some(o.process), o.key, KindName(o.kind),
           if o.kind == Write then Some(o.value) else None,
           if o.kind == CAS then Some(o.from) else None,
           if o.kind == CAS then Some(o.to) else None,
           if o.outcome == OK && o.kind == Read then Some(o.observed) else None,
           if o.outcome == OK && o.kind == CAS then Some(o.swapped) else None,
           OutcomeName(o.outcome), Some(o.invoke),
           if o.outcome != Info then Some(o.complete) else None,
           o.err)
  }

  /** The first field missing that the kind and outcome give a meaning to. */
  function Missing(w: WireOp, k: Kind, oc: Outcome): Option<Problem> {
    if w.process == None then Some(NoProcess)
    else if w.invoke == None then Some(NoInvoke)
    else if k == Write && w.value == None then Some(NoValue)
    else if k == CAS && (w.from == None || w.to == None) then Some(NoFromOrTo)
    else if oc != OK then None
    else if k == Read && w.observed == None then Some(NoObserved)
    else if k == CAS && w.swapped == None then Some(NoSwapped)
    else None
  }

  function OrZero(v: Option<int>): int { if v.Some? then v.value else 0 }

  function ToOp(w: WireOp): Result<Op> {
    match ParseKind(w.kind)
    case None => Err(UnknownKind)
    case Some(k) =>
      match ParseOutcome(w.outcome)
      case None => Err(UnknownOutcome)
      case Some(oc) =>
        match Missing(w, k, oc)
        case Some(p) => Err(p)
        case None =>
          if w.complete == None && oc != Info then Err(NoComplete)
          else
            Ok(Op(w.process.value, w.key, k, OrZero(w.value), OrZero(w.from), OrZero(w.to), OrZero(w.observed),
                  w.swapped.Some? && w.swapped.value, oc, w.invoke.value,
                  if w.complete.Some? then w.complete.value else PENDING, w.err))
  }

  /** The operation without the fields its kind and outcome give no meaning to. */
  function Normal(o: Op): Op {
    o.(value := if o.kind == Write then o.value else 0,
       from := if o.kind == CAS then o.from else 0,
       to := if o.kind == CAS then o.to else 0,
       observed := if o.kind == Read && o.outcome == OK then o.observed else 0,
       swapped := o.kind == CAS && o.outcome == OK && o.swapped,
       complete := if o.outcome == Info then PENDING else o.complete)
  }

  /** Saving and loading an operation loses exactly the fields without a meaning,
      and doing so again loses nothing more. */
  lemma RoundTrip(o: Op)
    ensures ToOp(ToWire(o)) == Ok(Normal(o))
    ensures Normal(Normal(o)) == Normal(o)
    ensures ToWire(Normal(o)) == ToWire(o)
  {
    NamesRoundTrip(o.kind, o.outcome);
    hide ParseKind, ParseOutcome, KindName, OutcomeName;
  }

  /** A line is accepted only if it says everything the checker will read, and then
      nothing the checker reads was made up. */
  lemma NothingIsMadeUp(w: WireOp)
    requires ToOp(w).Ok?
    ensures var o := ToOp(w).value;
            && w.process == Some(o.process) && w.key == o.key && w.invoke == Some(o.invoke)
            && w.kind == KindName(o.kind) && w.outcome == OutcomeName(o.outcome)
            && (o.kind == Write ==> w.value == Some(o.value))
            && (o.kind == CAS ==> w.from == Some(o.from) && w.to == Some(o.to))
            && (o.outcome == OK && o.kind == Read ==> w.observed == Some(o.observed))
            && (o.outcome == OK && o.kind == CAS ==> w.swapped == Some(o.swapped))
            && (o.outcome != Info ==> w.complete == Some(o.complete))
  {
  }

  /** A line is accepted exactly when its names are known and no field is missing that they
      give a meaning to. */
  lemma AcceptedIff(w: WireOp)
    ensures ToOp(w).Ok? <==>
            && w.process.Some? && w.invoke.Some?
            && (w.kind == "read" || (w.kind == "write" && w.value.Some?)
                || (w.kind == "cas" && w.from.Some? && w.to.Some?))
            && ((w.outcome == "ok" && w.complete.Some?
                 && (w.kind == "read" ==> w.observed.Some?) && (w.kind == "cas" ==> w.swapped.Some?))
                || (w.outcome == "fail" && w.complete.Some?)
                || w.outcome == "info")
  {
  }

  /** Whatever else a line says is kept, and what it leaves out is zero. */
  lemma TheRestIsKept(w: WireOp)
    requires ToOp(w).Ok?
    ensures var o := ToOp(w).value;
            && o.value == w.value.UnwrapOr(0) && o.from == w.from.UnwrapOr(0) && o.to == w.to.UnwrapOr(0)
            && o.observed == w.observed.UnwrapOr(0) && o.swapped == w.swapped.UnwrapOr(false)
            && o.complete == w.complete.UnwrapOr(PENDING) && o.err == w.err
  {
  }

  /** The specifications cannot tell the difference. */
  lemma StepIgnoresTheRest(s: int, o: Op)
    ensures CAS_REGISTER.Step(s, Normal(o)) == CAS_REGISTER.Step(s, o)
    ensures REGISTER.Step(s, Normal(o)) == REGISTER.Step(s, o)
  {
  }

  // ----- Whole histories

  function KeepNormal(): Op -> Option<Op> { (o: Op) => Some(Normal(o)) }

  /** The history as it comes back. */
  function Reloaded(h: seq<Op>): seq<Op> { Collect(KeepNormal(), ByInvoke(h)) }

  method Save(h: seq<Op>) returns (lines: seq<WireOp>)
    ensures |lines| == |h| && forall i :: 0 <= i < |h| ==> lines[i] == ToWire(ByInvoke(h)[i])
  {
    var sorted := ByInvoke(h);
    lines := [];
    for i := 0 to |sorted|
      invariant |lines| == i && forall j :: 0 <= j < i ==> lines[j] == ToWire(sorted[j])
    {
      lines := lines + [ToWire(sorted[i])];
    }
  }

  /** A malformed line is an error, not a line to skip. */
  method Load(lines: seq<WireOp>) returns (r: Result<seq<Op>>)
    ensures r.Ok? <==> forall i :: 0 <= i < |lines| ==> ToOp(lines[i]).Ok?
    ensures r.Ok? ==> |r.value| == |lines| && forall i :: 0 <= i < |lines| ==> ToOp(lines[i]) == Ok(r.value[i])
  {
    var h := [];
    for i := 0 to |lines|
      invariant |h| == i && forall j :: 0 <= j < i ==> ToOp(lines[j]) == Ok(h[j])
    {
      var o := ToOp(lines[i]);
      if o.Err? {
        return Err(o.problem);
      }
      h := h + [o.value];
    }
    return Ok(h);
  }

  lemma {:induction false} NormalAll(h: seq<Op>)
    ensures |Collect(KeepNormal(), h)| == |h|
    ensures forall i :: 0 <= i < |h| ==> Collect(KeepNormal(), h)[i] == Normal(h[i])
  {
    if h == [] {
    } else {
      NormalAll(h[1..]);
      assert Collect(KeepNormal(), h) == [Normal(h[0])] + Collect(KeepNormal(), h[1..]);
    }
  }

  /** What is loaded after saving is the history reloaded, and never an error. */
  lemma LoadAfterSave(h: seq<Op>, lines: seq<WireOp>, r: Result<seq<Op>>)
    requires |lines| == |h| && forall i :: 0 <= i < |h| ==> lines[i] == ToWire(ByInvoke(h)[i])
    requires r.Ok? <==> forall i :: 0 <= i < |lines| ==> ToOp(lines[i]).Ok?
    requires r.Ok? ==> |r.value| == |lines| && forall i :: 0 <= i < |lines| ==> ToOp(lines[i]) == Ok(r.value[i])
    ensures r == Ok(Reloaded(h))
  {
    forall i | 0 <= i < |h| ensures ToOp(lines[i]) == Ok(Normal(ByInvoke(h)[i])) {
      RoundTrip(ByInvoke(h)[i]);
    }
    NormalAll(ByInvoke(h));
    hide ToOp, ToWire, Normal, Collect, ByInvoke;
    assert r.value == Reloaded(h);
  }

  // ----- The verdict survives

  /** The specification reads only what is written. */
  ghost predicate ReadsWhatIsWritten(m: Model) {
    forall s, o {:trigger m.Step(s, Normal(o))} :: m.Step(s, Normal(o)) == m.Step(s, o)
  }

  lemma RegistersReadWhatIsWritten()
    ensures ReadsWhatIsWritten(CAS_REGISTER) && ReadsWhatIsWritten(REGISTER)
  {
    forall s, o ensures CAS_REGISTER.Step(s, Normal(o)) == CAS_REGISTER.Step(s, o)
                     && REGISTER.Step(s, Normal(o)) == REGISTER.Step(s, o) {
      StepIgnoresTheRest(s, o);
    }
  }

  lemma {:induction false} FinalOfNormal(m: Model, s: int, w: seq<Op>)
    requires ReadsWhatIsWritten(m)
    ensures Final(m, s, Collect(KeepNormal(), w)) == Final(m, s, w)
    decreases w
  {
    if w == [] {
    } else {
      assert Collect(KeepNormal(), w) == [Normal(w[0])] + Collect(KeepNormal(), w[1..]);
      assert m.Step(s, Normal(w[0])) == m.Step(s, w[0]);
      FinalOfNormal(m, m.Step(s, w[0]).0, w[1..]);
    }
  }

  lemma NormalKeepsOrder(w: seq<Op>)
    requires Settled(w)
    ensures RespectsRealTime(Collect(KeepNormal(), w)) <==> RespectsRealTime(w)
  {
    NormalAll(w);
    forall i | 0 <= i < |w|
      ensures var n := Collect(KeepNormal(), w)[i]; n.invoke == w[i].invoke && n.complete == w[i].complete {
      assert w[i] in w;
    }
    hide Collect, Normal;
  }

  /** Any rearrangement of the normalised history is the normalisation of one. */
  lemma {:induction false} LiftOrder(h: seq<Op>, v: seq<Op>) returns (w: seq<Op>)
    requires multiset(v) == multiset(Collect(KeepNormal(), h))
    ensures multiset(w) == multiset(h) && Collect(KeepNormal(), w) == v
    decreases |v|
  {
    hide *;
    if v == [] {
      NothingToLift(h);
      return h;
    }
    var i, rest := MatchFirst(h, v);
    var w' := LiftOrder(rest, v[1..]);
    w := [h[i]] + w';
    PutFirst(h, i, rest, w');
    NormalCons(h[i], w');
    assert v == [v[0]] + v[1..];
  }

  lemma NothingToLift(h: seq<Op>)
    requires multiset(Collect(KeepNormal(), h)) == multiset{}
    ensures Collect(KeepNormal(), h) == []
  {
    assert |multiset(Collect(KeepNormal(), h))| == |Collect(KeepNormal(), h)|;
  }

  lemma PutFirst(h: seq<Op>, i: nat, rest: seq<Op>, w: seq<Op>)
    requires i < |h| && rest == h[..i] + h[i + 1..] && multiset(w) == multiset(rest)
    ensures multiset([h[i]] + w) == multiset(h)
  {
    Split(h, i);
  }

  lemma NormalCons(o: Op, w: seq<Op>)
    ensures Collect(KeepNormal(), [o] + w) == [Normal(o)] + Collect(KeepNormal(), w)
  {
    assert ([o] + w)[1..] == w;
  }

  lemma MatchFirst(h: seq<Op>, v: seq<Op>) returns (i: nat, rest: seq<Op>)
    requires v != [] && multiset(v) == multiset(Collect(KeepNormal(), h))
    ensures i < |h| && rest == h[..i] + h[i + 1..] && Normal(h[i]) == v[0]
    ensures multiset(v[1..]) == multiset(Collect(KeepNormal(), rest))
  {
    NormalAll(h);
    hide Collect, Normal;
    var n := Collect(KeepNormal(), h);
    i := Find(v, n, 0);
    RemoveSame(v, 0, n, i);
    rest := h[..i] + h[i + 1..];
    NormalAll(rest);
    assert Collect(KeepNormal(), rest) == n[..i] + n[i + 1..];
    assert v[..0] + v[1..] == v[1..];
  }

  lemma SettledRearranged(a: seq<Op>, b: seq<Op>)
    requires multiset(a) == multiset(b) && Settled(a)
    ensures Settled(b)
  {
    SameMembers(a, b);
  }

  lemma NormalLinearizes(m: Model, h: seq<Op>)
    requires ReadsWhatIsWritten(m) && Settled(h)
    ensures HasLinearization(m, Collect(KeepNormal(), h)) <==> HasLinearization(m, h)
  {
    hide Collect, Final, Settled, ReadsWhatIsWritten, RespectsRealTime;
    var n := Collect(KeepNormal(), h);
    if HasLinearization(m, h) {
      var w :| IsLinearization(m, h, w);
      SettledRearranged(h, w);
      CollectMultiset(KeepNormal(), w, h);
      NormalKeepsOrder(w);
      FinalOfNormal(m, m.Init(), w);
      assert IsLinearization(m, n, Collect(KeepNormal(), w));
    }
    if HasLinearization(m, n) {
      var v :| IsLinearization(m, n, v);
      var w := LiftOrder(h, v);
      SettledRearranged(h, w);
      NormalKeepsOrder(w);
      FinalOfNormal(m, m.Init(), w);
      assert IsLinearization(m, h, w);
    }
  }

  // ----- A saved and reloaded history gets the same verdict

  lemma {:induction false} NormalByKey(h: seq<Op>, k: string)
    ensures Check.LiveKey(Collect(KeepNormal(), h), k) == Collect(KeepNormal(), Check.LiveKey(h, k))
  {
    LiveOnKey(h, k);
    LiveOnKey(Collect(KeepNormal(), h), k);
    NormalCommutes(h, k);
  }

  lemma {:induction false} NormalCommutes(h: seq<Op>, k: string)
    ensures Collect(KeepLiveOnKey(k), Collect(KeepNormal(), h)) == Collect(KeepNormal(), Collect(KeepLiveOnKey(k), h))
  {
    if h == [] {
    } else {
      var o, rest := h[0], h[1..];
      NormalCommutes(rest, k);
      assert Collect(KeepNormal(), h) == [Normal(o)] + Collect(KeepNormal(), rest);
      CollectAppend(KeepLiveOnKey(k), [Normal(o)], Collect(KeepNormal(), rest));
      assert h == [o] + rest;
      CollectAppend(KeepLiveOnKey(k), [o], rest);
      CollectAppend(KeepNormal(), Collect(KeepLiveOnKey(k), [o]), Collect(KeepLiveOnKey(k), rest));
      JustOne(KeepLiveOnKey(k), o);
      JustOne(KeepLiveOnKey(k), Normal(o));
      JustOne(KeepNormal(), o);
    }
  }

  lemma JustOne(f: Op -> Option<Op>, o: Op)
    ensures Collect(f, [o]) == (match f(o) case None => [] case Some(p) => [p])
    ensures Collect(f, []) == []
  {
    assert [o][1..] == [];
  }

  lemma ReloadedIsValid(h: seq<Op>)
    requires ValidHistory(h)
    ensures ValidHistory(Reloaded(h))
  {
    ValidRearranged(h, ByInvoke(h));
    forall o | o in Reloaded(h) ensures Sound(o) {
      var p := CollectOrigin(KeepNormal(), ByInvoke(h), o);
      assert Sound(p);
    }
    PairwiseCollect(Clashless(), Clashless(), KeepNormal(), ByInvoke(h));
    PairwiseCollect(Sequential(), Sequential(), KeepNormal(), ByInvoke(h));
  }

  lemma ReloadedAt(h: seq<Op>)
    ensures |Reloaded(h)| == |h| == |ByInvoke(h)|
    ensures forall i :: 0 <= i < |h| ==> Reloaded(h)[i] == Normal(ByInvoke(h)[i])
    ensures forall o :: o in ByInvoke(h) ==> Normal(o) in Reloaded(h)
  {
    NormalAll(ByInvoke(h));
    forall o | o in ByInvoke(h) ensures Normal(o) in Reloaded(h) {
      var i :| 0 <= i < |h| && ByInvoke(h)[i] == o;
      assert Reloaded(h)[i] == Normal(o);
    }
  }

  lemma NormalSaysAll(o: Op, p: Op)
    requires o.outcome == Info ==> o.complete == PENDING
    requires p.outcome == Info ==> p.complete == PENDING
    ensures Sound(Normal(o)) <==> Sound(o)
    ensures NoClash(Normal(o), Normal(p)) <==> NoClash(o, p)
    ensures TakeTurns(Normal(o), Normal(p)) <==> TakeTurns(o, p)
  {
  }

  /** Reloading repairs one thing only, a completion time that an indeterminate operation
      must not carry: without one, what is valid after reloading was valid before. */
  lemma ReloadedIsValidIff(h: seq<Op>)
    ensures ValidHistory(h) <==>
            ValidHistory(Reloaded(h)) && forall o :: o in h && o.outcome == Info ==> o.complete == PENDING
  {
    var s := ByInvoke(h);
    if ValidHistory(h) {
      ReloadedIsValid(h);
      assert forall o :: o in h ==> Sound(o);
    }
    if ValidHistory(Reloaded(h)) && forall o :: o in h && o.outcome == Info ==> o.complete == PENDING {
      SameMembers(h, s);
      ReloadedAt(h);
      hide Collect, Sort, Normal, Sound, NoClash, TakeTurns;
      forall o | o in s ensures Sound(o) {
        assert Sound(Normal(o));
        NormalSaysAll(o, o);
      }
      forall i, j | 0 <= i < j < |s| ensures Clashless()(s[i], s[j]) && Sequential()(s[i], s[j]) {
        assert s[i] in s && s[j] in s;
        assert Clashless()(Reloaded(h)[i], Reloaded(h)[j]) && Sequential()(Reloaded(h)[i], Reloaded(h)[j]);
        NormalSaysAll(s[i], s[j]);
      }
      ValidRearranged(h, s);
    }
  }

  lemma ReloadedIsNoLater(h: seq<Op>)
    requires Check.OneLatePerKey(h)
    ensures Check.OneLatePerKey(Reloaded(h))
  {
    var s := ByInvoke(h);
    forall k ensures OneAtTheEnd(Check.LiveKey(Reloaded(h), k)) {
      assert OneAtTheEnd(Check.LiveKey(h, k));
      CollectMultiset(KeepLive(), h, s);
      CollectMultiset(KeepOnKey(k), Live(h), Live(s));
      PairwiseRearranged(NotBothLate(), Check.LiveKey(h, k), Check.LiveKey(s, k));
      hide Collect, Pairwise, Normal;
      NormalByKey(s, k);
      NormalIsNoLater();
      PairwiseCollect(NotBothLate(), NotBothLate(), KeepNormal(), Check.LiveKey(s, k));
    }
  }

  lemma NormalIsNoLater()
    ensures forall a, b :: NotBothLate()(a, b) ==> NotBothLate()(Normal(a), Normal(b))
  {
  }

  lemma KeySurvives(m: Model, h: seq<Op>, k: string)
    requires ReadsWhatIsWritten(m) && ValidHistory(h)
    ensures HasLinearization(m, Check.LiveKey(Reloaded(h), k)) <==> HasLinearization(m, Check.LiveKey(h, k))
    ensures Check.HasKey(Reloaded(h), k) <==> Check.HasKey(h, k)
  {
    var s := ByInvoke(h);
    ValidRearranged(h, s);
    KeyOfValid(s, k);
    NormalByKey(s, k);
    NormalLinearizes(m, Check.LiveKey(s, k));
    Check.KeyLayout(s, h, m, k);
    HasKeyIs(Reloaded(h), k);
    HasKeyIs(s, k);
    NormalAll(Check.LiveKey(s, k));
  }

  lemma HasKeyIs(h: seq<Op>, k: string)
    ensures Check.HasKey(h, k) <==> Check.LiveKey(h, k) != []
  {
    OnKeyIsEmpty(Live(h), k);
  }

  /** Saving a history and loading it again changes neither the verdict nor the key
      reported. */
  lemma ReloadKeepsVerdict(h: seq<Op>, m: Model, opt: Options, a: KeyClocks, b: KeyClocks, r: Check.Result,
                           s: Check.Result)
    requires ReadsWhatIsWritten(m) && opt.Unlimited() && ValidHistory(h) && Check.OneLatePerKey(h)
    requires ValidHistory(Reloaded(h)) && Check.OneLatePerKey(Reloaded(h))
    requires Check.Tells(h, m, opt, a, r) && Check.Tells(Reloaded(h), m, opt, b, s)
    ensures r.verdict == s.verdict && r.key == s.key
  {
    hide ValidHistory, Check.Stat, Check.HasKey, HasLinearization;
    forall k
      ensures Check.HasKey(h, k) <==> Check.HasKey(Reloaded(h), k)
      ensures Check.Stat(h, k, m, opt, a).verdict == Check.Stat(Reloaded(h), k, m, opt, b).verdict
    {
      KeySurvives(m, h, k);
      Check.VerdictOfKey(h, k, m, opt, a);
      Check.VerdictOfKey(Reloaded(h), k, m, opt, b);
    }
    Check.SameVerdicts(r.perKey, s.perKey, r.verdict, r.key);
    Check.OneReport(s.perKey, r.verdict, r.key, s.verdict, s.key);
  }

  /** For both registers: reloading a history on which `Check` is exact yields another,
      and the same verdict and key. */
  lemma RegistersSurviveReloading(h: seq<Op>, m: Model, opt: Options, a: KeyClocks, b: KeyClocks,
                                  r: Check.Result, s: Check.Result)
    requires m == CAS_REGISTER || m == REGISTER
    requires opt.Unlimited() && ValidHistory(h) && Check.OneLatePerKey(h) && Check.Tells(h, m, opt, a, r)
    ensures ValidHistory(Reloaded(h)) && Check.OneLatePerKey(Reloaded(h))
    ensures Check.Tells(Reloaded(h), m, opt, b, s) ==> r.verdict == s.verdict && r.key == s.key
  {
    hide *;
    ReloadedIsValid(h);
    ReloadedIsNoLater(h);
    RegistersReadWhatIsWritten();
    if Check.Tells(Reloaded(h), m, opt, b, s) {
      ReloadKeepsVerdict(h, m, opt, a, b, r, s);
    }
  }
}
