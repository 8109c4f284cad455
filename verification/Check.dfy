/** Deciding a whole history: validate it, split it by key, search every key. */
module Check {
  import opened History
  import opened Model
  import opened Linearization
  import opened Verdicts
  import opened Sorting
  import opened Slicing
  import opened Truncating
  import opened Minimise
  import opened Validity
  import opened Workers
  import opened Locality
  import opened Pairs
  import opened SearchTheorems
  import Search

  /** What happened on one key. */
  datatype KeyStat = KeyStat(ops: nat, visits: nat, verdict: Verdict)

  datatype Result = Result(
    verdict: Verdict,
    key: Option<string>,
    ops: Option<seq<Op>>,
    culprit: Option<Op>,
    visits: nat,
    perKey: map<string, KeyStat>)

  /** The operations of one key that may have taken effect. */
  function LiveKey(h: seq<Op>, k: string): seq<Op> { OnKey(Live(h), k) }

  /** No two calls on one key began at the end of time. */
  ghost predicate OneLatePerKey(h: seq<Op>) {
    forall k :: OneAtTheEnd(LiveKey(h, k))
  }

  lemma LiveKeyIsFrom(h: seq<Op>, k: string, o: Op)
    requires o in LiveKey(h, k)
    ensures o in h
  {
    var p := CollectOrigin(KeepOnKey(k), Live(h), o);
    var q := CollectOrigin(KeepLive(), h, p);
  }

  lemma NoneIsLate(h: seq<Op>)
    requires BeforeTheEnd(h)
    ensures OneLatePerKey(h)
  {
    forall k ensures OneAtTheEnd(LiveKey(h, k)) {
      var ops := LiveKey(h, k);
      forall i, j | 0 <= i < j < |ops| ensures NotBothLate()(ops[i], ops[j]) {
        LiveKeyIsFrom(h, k, ops[i]);
      }
    }
  }

  ghost predicate HasKey(h: seq<Op>, k: string) {
    exists o :: o in Live(h) && o.key == k
  }

  /** What the search of one key of the history answers. */
  ghost function Answer(h: seq<Op>, k: string, m: Model, opt: Options, late: KeyClocks): KeyResult
    requires ValidHistory(h)
  {
    KeyIsCheckable(h, k);
    KeyAnswer(k, LiveKey(h, k), m, opt, late)
  }

  /** Every key of a valid history may be searched. */
  lemma KeyIsCheckable(h: seq<Op>, k: string)
    requires ValidHistory(h)
    ensures Checkable(LiveKey(h, k))
  {
    ValidKeyIsCheckable(h, k);
  }

  ghost function Stat(h: seq<Op>, k: string, m: Model, opt: Options, late: KeyClocks): KeyStat
    requires ValidHistory(h)
  {
    var kr := Answer(h, k, m, opt, late);
    KeyStat(|LiveKey(h, k)|, kr.visits, kr.verdict)
  }

  /** `k` is the first key, in dictionary order, with this verdict. */
  ghost predicate FirstWith(perKey: map<string, KeyStat>, v: Verdict, k: string) {
    && k in perKey && perKey[k].verdict == v
    && forall l :: l in perKey && perKey[l].verdict == v ==> InDictionaryOrder(k, l)
  }

  ghost predicate NoneWith(perKey: map<string, KeyStat>, v: Verdict) {
    forall l :: l in perKey ==> perKey[l].verdict != v
  }

  /** A violation on any key is reported, then a budget that ran out, else a pass;
      and always for the first key it applies to. */
  ghost predicate Reports(perKey: map<string, KeyStat>, verdict: Verdict, key: Option<string>) {
    match verdict
    case NotLinearizable => key.Some? && FirstWith(perKey, NotLinearizable, key.value)
    case Unknown => key.Some? && FirstWith(perKey, Unknown, key.value) && NoneWith(perKey, NotLinearizable)
    case Linearizable => key == None && NoneWith(perKey, NotLinearizable) && NoneWith(perKey, Unknown)
  }

  function Total(keys: seq<string>, perKey: map<string, KeyStat>): nat
    requires forall k :: k in keys ==> k in perKey
  {
    if keys == [] then 0
    else
      assert forall k :: k in keys[..|keys| - 1] ==> k in keys;
      assert keys[|keys| - 1] in keys;
      Total(keys[..|keys| - 1], perKey) + perKey[keys[|keys| - 1]].visits
  }

  /** Everything a call reports, apart from the counterexample. */
  ghost predicate Tells(h: seq<Op>, m: Model, opt: Options, late: KeyClocks, res: Result)
    requires ValidHistory(h)
  {
    && (forall k :: k in res.perKey <==> HasKey(h, k))
    && (forall k :: k in res.perKey ==> res.perKey[k] == Stat(h, k, m, opt, late))
    && Reports(res.perKey, res.verdict, res.key)
  }

  // ----- What the verdict means

  lemma VerdictOfKey(h: seq<Op>, k: string, m: Model, opt: Options, late: KeyClocks)
    requires ValidHistory(h)
    ensures var s := Stat(h, k, m, opt, late);
            && (s.verdict == Verdict.Linearizable ==>
                  (HasLinearization(m, LiveKey(h, k)) <==> OneAtTheEnd(LiveKey(h, k))))
            && (s.verdict == Verdict.NotLinearizable ==> !HasLinearization(m, LiveKey(h, k)))
            && (opt.Unlimited() ==> s.verdict != Verdict.Unknown)
  {
    KeyIsCheckable(h, k);
    ValidKeyIsSearchableIff(h, k);
    KeyAnswerIsExact(k, LiveKey(h, k), m, opt, late);
    hide ValidHistory, Checkable, KeyAnswer, HasLinearization, Live, OnKey, CollisionFree, OneAtTheEnd;
  }

  lemma AbsentKeyLinearizes(h: seq<Op>, m: Model, k: string)
    requires !HasKey(h, k)
    ensures HasLinearization(m, LiveKey(h, k)) && OneAtTheEnd(LiveKey(h, k))
  {
    OnKeyIsEmpty(Live(h), k);
    KeySearch.NothingIsLinearizable(m);
  }

  lemma LinearizesMeansOneLate(h: seq<Op>, m: Model, k: string)
    requires ValidHistory(h) && HasLinearization(m, LiveKey(h, k))
    ensures OneAtTheEnd(LiveKey(h, k))
  {
    if !OneAtTheEnd(OnKey(Live(h), k)) { TwoAtTheEnd(h, k, m); }
  }

  /** A refusal means that the key named does not linearize. A pass means that every key
      does, exactly when no key has two calls at the end of time. Without a budget it is
      one or the other, and a history whose keys all linearize passes. */
  lemma VerdictIsTrue(h: seq<Op>, m: Model, opt: Options, late: KeyClocks, res: Result)
    requires ValidHistory(h) && Tells(h, m, opt, late, res)
    ensures res.verdict == Verdict.Linearizable ==> (EveryKeyLinearizes(m, Live(h)) <==> OneLatePerKey(h))
    ensures res.verdict == Verdict.NotLinearizable ==> !HasLinearization(m, LiveKey(h, res.key.value))
    ensures opt.Unlimited() ==> res.verdict != Verdict.Unknown
    ensures opt.Unlimited() ==>
              (EveryKeyLinearizes(m, Live(h)) <==> res.verdict == Verdict.Linearizable && OneLatePerKey(h))
  {
    hide ValidHistory, Stat, HasLinearization, HasKey, OneAtTheEnd;
    forall k
      ensures k in res.perKey && res.perKey[k].verdict == Verdict.Linearizable ==>
                (HasLinearization(m, LiveKey(h, k)) <==> OneAtTheEnd(LiveKey(h, k)))
      ensures k in res.perKey && res.perKey[k].verdict == Verdict.NotLinearizable ==>
                !HasLinearization(m, LiveKey(h, k))
      ensures k in res.perKey && opt.Unlimited() ==> res.perKey[k].verdict != Verdict.Unknown
      ensures k !in res.perKey ==> HasLinearization(m, LiveKey(h, k)) && OneAtTheEnd(LiveKey(h, k))
      ensures HasLinearization(m, LiveKey(h, k)) ==> OneAtTheEnd(LiveKey(h, k))
    {
      VerdictOfKey(h, k, m, opt, late);
      if !HasKey(h, k) { AbsentKeyLinearizes(h, m, k); }
      if HasLinearization(m, LiveKey(h, k)) { LinearizesMeansOneLate(h, m, k); }
    }
    LiveKeyIs(h);
    assert EveryKeyLinearizes(m, Live(h)) <==> forall k :: HasLinearization(m, LiveKey(h, k));
  }

  lemma LiveIsOrdered(h: seq<Op>)
    requires ValidHistory(h)
    ensures AllOrdered(Live(h))
  {
    forall o | o in Live(h) ensures o.Ordered() {
      var p := CollectOrigin(KeepLive(), h, o);
    }
  }

  lemma ApartMeansOneLate(h: seq<Op>)
    requires ValidHistory(h) && CollisionFree(Live(h))
    ensures OneLatePerKey(h)
  {
    hide ValidHistory, OneAtTheEnd, Live;
    ApartIsCollisionFree(Live(h));
    forall k ensures OneAtTheEnd(LiveKey(h, k)) {
      PairwiseCollect(Apart(), Apart(), KeepOnKey(k), Live(h));
      ApartIsCollisionFree(LiveKey(h, k));
      ValidKeyIsSearchableIff(h, k);
    }
  }

  /** With no budget, Linearizable is the verdict if and only if one order of all
      the operations that may have happened respects real time and is legal for
      every key, as long as no two of them precede each other. */
  lemma VerdictIsGlobal(h: seq<Op>, m: Model, opt: Options, late: KeyClocks, res: Result)
    requires ValidHistory(h) && Tells(h, m, opt, late, res)
    requires opt.Unlimited() && CollisionFree(Live(h))
    ensures res.verdict == Verdict.Linearizable <==> HasGlobalOrder(m, Live(h))
  {
    VerdictIsTrue(h, m, opt, late, res);
    ApartMeansOneLate(h);
    LiveIsOrdered(h);
    KeysDecide(m, Live(h));
  }

  /** A refusal means that there is no such order, and a pass that there is, exactly when
      no two operations precede each other, under any budget. */
  lemma PassWithoutGlobalOrder(h: seq<Op>, m: Model, opt: Options, late: KeyClocks, res: Result)
    requires ValidHistory(h) && Tells(h, m, opt, late, res)
    ensures res.verdict == Verdict.Linearizable ==> (HasGlobalOrder(m, Live(h)) <==> CollisionFree(Live(h)))
    ensures res.verdict == Verdict.NotLinearizable ==> !HasGlobalOrder(m, Live(h))
  {
    VerdictIsTrue(h, m, opt, late, res);
    LiveIsOrdered(h);
    KeysDecide(m, Live(h));
    if CollisionFree(Live(h)) { ApartMeansOneLate(h); }
    if res.verdict == Verdict.NotLinearizable { LiveKeyIs(h); }
  }

  lemma SharedInstantIsValid()
    ensures var h := SharedInstant();
            ValidHistory(h) && BeforeTheEnd(h) && Live(h) == h
  {
    var h := SharedInstant();
    assert h == [h[0]] + [h[1]];
    PairwiseCons(Clashless(), h[0], [h[1]]);
    PairwiseCons(Sequential(), h[0], [h[1]]);
    assert h[1..] == [h[1]];
    assert Collect(KeepLive(), [h[1]]) == [h[1]];
  }

  /** It does happen: a valid history which `Check` passes though no one order explains
      all of it. */
  lemma SharedInstantPasses(opt: Options, late: KeyClocks, res: Result)
    requires opt.Unlimited()
    ensures var h := SharedInstant();
            && ValidHistory(h)
            && (Tells(h, CAS_REGISTER, opt, late, res) ==>
                  res.verdict == Verdict.Linearizable && !HasGlobalOrder(CAS_REGISTER, Live(h)))
  {
    hide *;
    var h := SharedInstant();
    SharedInstantIsValid();
    NoneIsLate(h);
    SharedInstantIsNotLocal();
    if Tells(h, CAS_REGISTER, opt, late, res) {
      VerdictIsTrue(h, CAS_REGISTER, opt, late, res);
    }
  }

  /** A key is left undecided only when a limit was reached, and the culprit of one that is
      refused is an operation refused where its search got furthest. */
  lemma KeyIsAnswered(h: seq<Op>, k: string, m: Model, opt: Options, late: KeyClocks)
    requires ValidHistory(h)
    ensures var kr, ops := Answer(h, k, m, opt, late), ByInvoke(LiveKey(h, k));
            && (kr.verdict == Verdict.Unknown ==>
                  RanOut(opt, late(k, true), kr.visits, kr.visits * EntryBytes(|ops|)))
            && (kr.verdict == Verdict.NotLinearizable ==>
                  exists ids: seq<nat>, i: nat :: Search.Furthest(ops, m, ids, i) && kr.culprit == Some(ops[i]))
  {
    KeyIsCheckable(h, k);
    SortedIsRecorded(LiveKey(h, k));
    var ops := ByInvoke(LiveKey(h, k));
    var kr := KeySearch.KeyOutcome(ops, m, opt, late(k, false), late(k, true));
    assert Answer(h, k, m, opt, late) == kr;
    hide *;
    if kr.verdict == Verdict.Unknown {
      KeySearch.KeyUnknownIsEarned(ops, m, opt, late(k, false), late(k, true));
    }
    if kr.verdict == Verdict.NotLinearizable {
      KeySearch.KeyCulpritIsFurthest(ops, m, opt, late(k, false), late(k, true));
    }
  }

  /** The verdict is that of the worst key: one that is refused is never hidden by others
      that ran out of a budget, nor that by any that pass. The key named is the first, in
      dictionary order, of those with that verdict. */
  lemma WorstKeyIsReported(h: seq<Op>, m: Model, opt: Options, late: KeyClocks, res: Result)
    requires ValidHistory(h) && Tells(h, m, opt, late, res)
    ensures res.verdict == Verdict.NotLinearizable <==>
            exists k :: HasKey(h, k) && Stat(h, k, m, opt, late).verdict == Verdict.NotLinearizable
    ensures res.verdict == Verdict.Linearizable <==>
            forall k :: HasKey(h, k) ==> Stat(h, k, m, opt, late).verdict == Verdict.Linearizable
    ensures res.key.None? <==> res.verdict == Verdict.Linearizable
    ensures res.key.Some? ==> HasKey(h, res.key.value)
    ensures res.key.Some? ==> Stat(h, res.key.value, m, opt, late).verdict == res.verdict
    ensures res.key.Some? ==>
              forall k :: HasKey(h, k) && Stat(h, k, m, opt, late).verdict == res.verdict ==>
                InDictionaryOrder(res.key.value, k)
  {
    hide ValidHistory, Stat, HasKey, InDictionaryOrder;
    forall k ensures HasKey(h, k) <==> k in res.perKey {
    }
  }

  // ----- What the verdict depends on

  /** There is only one way to report the same outcomes. */
  lemma OneReport(perKey: map<string, KeyStat>, v: Verdict, k: Option<string>, u: Verdict, l: Option<string>)
    requires Reports(perKey, v, k) && Reports(perKey, u, l)
    ensures v == u && k == l
  {
    if k.Some? && l.Some? {
      NoLaterIsTotal(k.value, l.value, []);
      NoLaterIsDictionaryOrder(k.value, l.value);
      NoLaterIsDictionaryOrder(l.value, k.value);
    }
  }

  /** Without a deadline the report depends on nothing but the question: not on the
      number of workers, the schedule, the clocks or the hash. */
  lemma ReportIsDetermined(h: seq<Op>, m: Model, opt: Options, a: KeyClocks, b: KeyClocks, r: Result, s: Result)
    requires ValidHistory(h) && !opt.timeout
    requires Tells(h, m, opt, a, r) && Tells(h, m, opt, b, s)
    ensures r.verdict == s.verdict && r.key == s.key && r.perKey == s.perKey
  {
    hide ValidHistory, Stat, HasKey, Reports;
    forall k ensures Stat(h, k, m, opt, a) == Stat(h, k, m, opt, b) {
      StatIgnoresClock(h, k, m, opt, a, b);
    }
    assert r.perKey == s.perKey;
    OneReport(r.perKey, r.verdict, r.key, s.verdict, s.key);
  }

  lemma StatIgnoresClock(h: seq<Op>, k: string, m: Model, opt: Options, a: KeyClocks, b: KeyClocks)
    requires ValidHistory(h) && !opt.timeout
    ensures Stat(h, k, m, opt, a) == Stat(h, k, m, opt, b)
  {
    KeyIsCheckable(h, k);
    SortedIsRecorded(LiveKey(h, k));
    KeySearch.KeyIgnoresClock(ByInvoke(LiveKey(h, k)), m, opt, a(k, false), a(k, true), b(k, false), b(k, true));
    hide ValidHistory, AllOrdered, CollisionFree, KeySearch.KeyOutcome, LiveKey;
  }

  /** With no budget at all, neither the verdict nor the key reported depends on how
      the operations were laid out in the slice. */
  lemma LayoutDoesNotMatter(g: seq<Op>, h: seq<Op>, m: Model, opt: Options, a: KeyClocks, b: KeyClocks,
                            r: Result, s: Result)
    requires multiset(g) == multiset(h) && opt.Unlimited() && OneLatePerKey(g) && OneLatePerKey(h)
    requires ValidHistory(g) && Tells(g, m, opt, a, r)
    requires ValidHistory(h) && Tells(h, m, opt, b, s)
    ensures r.verdict == s.verdict && r.key == s.key
  {
    hide ValidHistory, Stat, HasKey, HasLinearization;
    forall k
      ensures HasKey(g, k) <==> HasKey(h, k)
      ensures Stat(g, k, m, opt, a).verdict == Stat(h, k, m, opt, b).verdict
    {
      KeyLayout(g, h, m, k);
      VerdictOfKey(g, k, m, opt, a);
      VerdictOfKey(h, k, m, opt, b);
    }
    SameVerdicts(r.perKey, s.perKey, r.verdict, r.key);
    OneReport(s.perKey, r.verdict, r.key, s.verdict, s.key);
  }

  lemma KeyLayout(g: seq<Op>, h: seq<Op>, m: Model, k: string)
    requires multiset(g) == multiset(h)
    ensures HasKey(g, k) <==> HasKey(h, k)
    ensures HasLinearization(m, LiveKey(g, k)) <==> HasLinearization(m, LiveKey(h, k))
  {
    CollectMultiset(KeepLive(), g, h);
    SameMembers(Live(g), Live(h));
    CollectMultiset(KeepOnKey(k), Live(g), Live(h));
    LayoutIndependent(m, LiveKey(g, k), LiveKey(h, k));
  }

  lemma SameVerdicts(p: map<string, KeyStat>, q: map<string, KeyStat>, v: Verdict, k: Option<string>)
    requires forall l :: l in p <==> l in q
    requires forall l :: l in p ==> p[l].verdict == q[l].verdict
    requires Reports(p, v, k)
    ensures Reports(q, v, k)
  {
  }

  // ----- What a larger budget changes

  lemma StatMonotone(h: seq<Op>, k: string, m: Model, a: Options, b: Options, late: KeyClocks)
    requires ValidHistory(h) && Roomier(a, b) && Stat(h, k, m, a, late).verdict != Verdict.Unknown
    ensures Stat(h, k, m, b, late).verdict == Stat(h, k, m, a, late).verdict
  {
    KeyIsCheckable(h, k);
    SortedIsRecorded(LiveKey(h, k));
    hide ValidHistory, AllOrdered, CollisionFree, KeySearch.KeyOutcome, LiveKey;
    KeySearch.KeyMonotone(ByInvoke(LiveKey(h, k)), m, a, b, late(k, false), late(k, true));
  }

  /** Raising the budget of transitions never loses or flips a decisive verdict. */
  lemma MoreBudgetNeverLoses(h: seq<Op>, m: Model, a: Options, b: Options, late: KeyClocks, r: Result, s: Result)
    requires ValidHistory(h) && Roomier(a, b)
    requires Tells(h, m, a, late, r) && Tells(h, m, b, late, s) && r.verdict != Verdict.Unknown
    ensures s.verdict == r.verdict
  {
    hide ValidHistory, Stat, HasKey;
    forall k | k in r.perKey && r.perKey[k].verdict != Verdict.Unknown
      ensures k in s.perKey && s.perKey[k].verdict == r.perKey[k].verdict
    {
      StatMonotone(h, k, m, a, b, late);
    }
    if r.verdict == Verdict.NotLinearizable {
      var k := r.key.value;
      assert s.perKey[k].verdict == Verdict.NotLinearizable;
    } else {
      forall k | k in s.perKey ensures s.perKey[k].verdict == Verdict.Linearizable {
        assert k in r.perKey;
      }
    }
  }

  // ----- The method

  /** The probes of the minimisation have clocks of their own. */
  datatype Clockwork = Clockwork(search: KeyClocks, probes: Clocks)

  lemma AllKeysCheckable(h: seq<Op>, keys: seq<string>, byKey: map<string, seq<Op>>)
    requires ValidHistory(h) && KeysOf(Live(h), keys)
    requires forall k :: k in byKey <==> exists o :: o in Live(h) && o.key == k
    requires forall k :: k in byKey ==> byKey[k] == LiveKey(h, k)
    ensures AllCheckable(keys, byKey)
    ensures forall k :: k in keys <==> HasKey(h, k)
    ensures NoDuplicates(keys) && forall k :: k in keys ==> k in byKey
  {
    hide ValidHistory, Checkable, LiveKey;
    forall k ensures Checkable(LiveKey(h, k)) { KeyIsCheckable(h, k); }
  }

  /** The statistics of the first n keys. */
  ghost predicate Counted(keys: seq<string>, n: nat, perKey: map<string, KeyStat>, stats: seq<KeyStat>, total: nat)
    requires n <= |keys| == |stats|
  {
    && (forall k :: k in perKey <==> k in keys[..n])
    && (forall i :: 0 <= i < n ==> keys[i] in perKey && perKey[keys[i]] == stats[i])
    && total == Total(keys[..n], perKey)
  }

  lemma {:induction false} TotalOfSame(keys: seq<string>, p: map<string, KeyStat>, q: map<string, KeyStat>)
    requires forall k :: k in keys ==> k in p && k in q && p[k] == q[k]
    ensures Total(keys, p) == Total(keys, q)
  {
    if keys == [] {
    } else {
      var last := |keys| - 1;
      assert keys[last] in keys;
      forall k | k in keys[..last] ensures k in keys { }
      TotalOfSame(keys[..last], p, q);
    }
  }

  lemma CountOneMore(keys: seq<string>, n: nat, perKey: map<string, KeyStat>, stats: seq<KeyStat>, total: nat)
    requires n < |keys| == |stats| && NoDuplicates(keys) && Counted(keys, n, perKey, stats, total)
    ensures Counted(keys, n + 1, perKey[keys[n] := stats[n]], stats, total + stats[n].visits)
  {
    var perKey' := perKey[keys[n] := stats[n]];
    assert keys[..n + 1] == keys[..n] + [keys[n]];
    assert keys[n] !in keys[..n];
    TotalOfSame(keys[..n], perKey, perKey');
    assert keys[..n + 1][..n] == keys[..n];
  }

  lemma NothingCounted(keys: seq<string>, stats: seq<KeyStat>)
    requires |keys| == |stats|
    ensures Counted(keys, 0, map[], stats, 0)
  {
  }

  lemma AllCounted(keys: seq<string>, perKey: map<string, KeyStat>, stats: seq<KeyStat>, total: nat)
    requires |keys| == |stats| && Counted(keys, |keys|, perKey, stats, total)
    ensures forall k :: k in perKey <==> k in keys
    ensures forall i :: 0 <= i < |keys| ==> keys[i] in perKey && perKey[keys[i]] == stats[i]
    ensures total == Total(keys, perKey)
  {
    assert keys[..|keys|] == keys;
  }

  /** The first slot with this verdict, if there is one. */
  method FindFirst(results: seq<KeyResult>, want: Verdict) returns (at: Option<nat>)
    ensures at.None? ==> forall i :: 0 <= i < |results| ==> results[i].verdict != want
    ensures at.Some? ==> at.value < |results| && results[at.value].verdict == want
    ensures at.Some? ==> forall i :: 0 <= i < at.value ==> results[i].verdict != want
  {
    for i := 0 to |results|
      invariant forall j :: 0 <= j < i ==> results[j].verdict != want
    {
      if results[i].verdict == want {
        return Some(i);
      }
    }
    return None;
  }

  lemma FirstInOrder(keys: seq<string>, perKey: map<string, KeyStat>, results: seq<KeyResult>, v: Verdict,
                     at: Option<nat>)
    requires SortedBy(Dictionary(), keys) && |results| == |keys| && forall k :: k in perKey <==> k in keys
    requires forall i :: 0 <= i < |keys| ==> perKey[keys[i]].verdict == results[i].verdict
    requires at.None? ==> forall i :: 0 <= i < |results| ==> results[i].verdict != v
    requires at.Some? ==> at.value < |results| && results[at.value].verdict == v
    requires at.Some? ==> forall i :: 0 <= i < at.value ==> results[i].verdict != v
    ensures at.None? ==> NoneWith(perKey, v)
    ensures at.Some? ==> FirstWith(perKey, v, keys[at.value])
  {
    if at.Some? {
      forall l | l in perKey && perKey[l].verdict == v ensures InDictionaryOrder(keys[at.value], l) {
        NoLaterIsDictionaryOrder(keys[at.value], l);
        var i :| 0 <= i < |keys| && keys[i] == l;
        NoLaterIsTotal(l, l, []);
        assert i > at.value ==> Dictionary()(keys[at.value], keys[i]);
      }
    }
  }

  /** The counterexample: the smallest failing truncation of the key that failed,
      and the operation invoked last in it. */
  ghost predicate Minimal(m: Model, ops: seq<Op>, truncated: seq<Op>, culprit: Option<Op>) {
    && (exists e: Int64 :: RightAfter(m, ByInvoke(ops), e, truncated))
    && !HasLinearization(m, truncated)
    && truncated != [] && culprit == Some(truncated[|truncated| - 1])
  }

  /** What is known of a key once every call before the end of time has been made. */
  function KnownByTheEnd(ops: seq<Op>): seq<Op> { Truncation(ByInvoke(ops), PENDING) }

  /** Some probe of the minimisation of this key ran out of a budget. */
  ghost predicate MinimisingIsUndecided(ops: seq<Op>, m: Model, opt: Options, probes: Clocks)
    requires Checkable(ops)
  {
    SortedIsRecorded(ops);
    SomeProbeIsUndecided(ByInvoke(ops), m, opt, probes)
  }

  method AttachDetail(ops: seq<Op>, kr: KeyResult, verdict: Verdict, m: Model, opt: Options, probes: Clocks,
                      hash: (seq<bv64>, int) -> int)
    returns (truncated: Option<seq<Op>>, culprit: Option<Op>)
    requires Checkable(ops)
    ensures truncated.Some? ==> verdict == Verdict.NotLinearizable && opt.minimize
    ensures truncated.Some? && !HasLinearization(m, KnownByTheEnd(ops)) ==> Minimal(m, ops, truncated.value, culprit)
    ensures truncated.Some? && Forgiving(m) && HasLinearization(m, KnownByTheEnd(ops)) ==>
              truncated.value == ByInvoke(KnownByTheEnd(ops))
    ensures truncated.None? || truncated.value == [] ==> culprit == kr.culprit
    ensures verdict == Verdict.NotLinearizable && opt.minimize && truncated.None? ==>
              MinimisingIsUndecided(ops, m, opt, probes)
    ensures verdict == Verdict.NotLinearizable && opt.minimize && opt.Unlimited() ==> truncated.Some?
  {
    hide *;
    culprit := kr.culprit;
    truncated := None;
    if verdict != Verdict.NotLinearizable || !opt.minimize {
      return;
    }
    SortedIsRecorded(ops);
    KnownIs(ops);
    UndecidedIs(ops, m, opt, probes);
    var smallest := Minimise.Minimise(ByInvoke(ops), m, opt, probes, hash);
    if smallest == None {
      return;
    }
    var trunc := ByInvoke(smallest.value);
    LayoutIndependent(m, trunc, smallest.value);
    if trunc == [] { KeySearch.NothingIsLinearizable(m); }
    truncated := Some(trunc);
    if |trunc| > 0 {
      culprit := Some(trunc[|trunc| - 1]);
    }
    if !HasLinearization(m, KnownByTheEnd(ops)) {
      SortedAlready(m, ops, smallest.value);
      IsMinimal(m, ops, trunc, culprit);
    } else if Forgiving(m) {
      ByInvokeTwice(KnownByTheEnd(ops));
    }
  }

  lemma UndecidedIs(ops: seq<Op>, m: Model, opt: Options, probes: Clocks)
    requires Checkable(ops)
    ensures Checkable(ByInvoke(ops))
    ensures MinimisingIsUndecided(ops, m, opt, probes) <==> SomeProbeIsUndecided(ByInvoke(ops), m, opt, probes)
  {
    hide Checkable, SomeProbeIsUndecided;
    SortedIsRecorded(ops);
  }

  lemma KnownIs(ops: seq<Op>)
    ensures KnownByTheEnd(ops) == Truncation(ByInvoke(ops), PENDING)
    ensures ByInvoke(KnownByTheEnd(ops)) == SortedTruncation(ByInvoke(ops), PENDING)
  {
  }

  lemma ByInvokeTwice(ops: seq<Op>)
    ensures ByInvoke(ByInvoke(ops)) == ByInvoke(ops)
  {
    ByInvokeSorts(ops);
    SortedStays(EarlierFirst(), ByInvoke(ops));
  }

  lemma SortedAlready(m: Model, ops: seq<Op>, smallest: seq<Op>)
    requires exists e: Int64 :: RightAfter(m, ByInvoke(ops), e, smallest)
    ensures ByInvoke(smallest) == smallest
  {
    hide Turns, Sort, Truncation;
    var e: Int64 :| RightAfter(m, ByInvoke(ops), e, smallest);
    ByInvokeSorts(Truncation(ByInvoke(ops), e + 1));
    SortedStays(EarlierFirst(), smallest);
  }

  lemma IsMinimal(m: Model, ops: seq<Op>, smallest: seq<Op>, culprit: Option<Op>)
    requires exists e: Int64 :: RightAfter(m, ByInvoke(ops), e, smallest)
    requires !HasLinearization(m, smallest)
    requires smallest != [] && culprit == Some(smallest[|smallest| - 1])
    ensures Minimal(m, ops, smallest, culprit)
  {
    hide RightAfter, HasLinearization, Sort;
  }

  // ----- Putting the report together

  lemma LiveKeyIs(h: seq<Op>)
    ensures forall k :: LiveKey(h, k) == OnKey(Live(h), k)
  {
  }

  ghost function Stats(h: seq<Op>, keys: seq<string>, m: Model, opt: Options, late: KeyClocks): (r: seq<KeyStat>)
    requires ValidHistory(h)
    ensures |r| == |keys|
    ensures forall i :: 0 <= i < |keys| ==> r[i] == Stat(h, keys[i], m, opt, late)
  {
    seq(|keys|, i requires 0 <= i < |keys| => Stat(h, keys[i], m, opt, late))
  }

  lemma StatsAt(h: seq<Op>, keys: seq<string>, m: Model, opt: Options, late: KeyClocks, i: nat)
    requires ValidHistory(h) && i < |keys|
    ensures |Stats(h, keys, m, opt, late)| == |keys|
    ensures Stats(h, keys, m, opt, late)[i] == Stat(h, keys[i], m, opt, late)
  {
    hide ValidHistory, Stat;
  }

  lemma HowManyStats(h: seq<Op>, keys: seq<string>, m: Model, opt: Options, late: KeyClocks)
    requires ValidHistory(h)
    ensures |Stats(h, keys, m, opt, late)| == |keys|
  {
    hide ValidHistory, Stat;
  }

  lemma StatIsAnswer(h: seq<Op>, k: string, m: Model, opt: Options, late: KeyClocks)
    requires ValidHistory(h)
    ensures var kr := Answer(h, k, m, opt, late);
            Stat(h, k, m, opt, late) == KeyStat(|LiveKey(h, k)|, kr.visits, kr.verdict)
  {
    hide ValidHistory, Answer, LiveKey;
  }

  lemma AnswerIs(h: seq<Op>, keys: seq<string>, byKey: map<string, seq<Op>>, m: Model, opt: Options,
                 late: KeyClocks, i: nat)
    requires ValidHistory(h) && AllCheckable(keys, byKey) && i < |keys|
    requires keys[i] in byKey && byKey[keys[i]] == LiveKey(h, keys[i])
    ensures Answers(keys, byKey, m, opt, late)[i] == Answer(h, keys[i], m, opt, late)
  {
    KeyIsCheckable(h, keys[i]);
    AnswersAt(keys, byKey, m, opt, late, i);
    hide ValidHistory, Checkable, KeyAnswer, LiveKey;
  }

  lemma Assembled(h: seq<Op>, keys: seq<string>, m: Model, opt: Options, late: KeyClocks,
                  perKey: map<string, KeyStat>, total: nat)
    requires ValidHistory(h) && KeysOf(Live(h), keys)
    requires Counted(keys, |keys|, perKey, Stats(h, keys, m, opt, late), total)
    ensures perKey.Keys == (set k | k in keys) && total == Total(keys, perKey)
    ensures forall k :: k in perKey <==> HasKey(h, k)
    ensures forall k :: k in perKey <==> k in keys
    ensures forall k :: k in perKey ==> perKey[k] == Stat(h, k, m, opt, late)
    ensures SortedBy(Dictionary(), keys)
  {
    hide ValidHistory, Stat, Live;
    AllCounted(keys, perKey, Stats(h, keys, m, opt, late), total);
  }

  /** Some probe of the minimisation of key `k` ran out of a budget. */
  ghost predicate KeyIsUndecided(h: seq<Op>, k: string, m: Model, opt: Options, probes: Clocks)
    requires ValidHistory(h)
  {
    KeyIsCheckable(h, k);
    MinimisingIsUndecided(LiveKey(h, k), m, opt, probes)
  }

  lemma KeyUndecidedIs(h: seq<Op>, k: string, m: Model, opt: Options, probes: Clocks)
    requires ValidHistory(h)
    ensures Checkable(LiveKey(h, k))
    ensures KeyIsUndecided(h, k, m, opt, probes) <==> MinimisingIsUndecided(LiveKey(h, k), m, opt, probes)
  {
    hide ValidHistory, Checkable, MinimisingIsUndecided, LiveKey;
    KeyIsCheckable(h, k);
  }

  /** Decides whether the whole history is linearizable. A malformed history is an
      error; otherwise every key is reported, whatever the parallelism. */
  method Check(h: seq<Op>, m: Model, opt: Options, late: Clockwork, hash: (seq<bv64>, int) -> int,
               parallelism: int, processors: int)
    returns (e: Option<Malformed>, res: Result, ghost keys: seq<string>)
    ensures e.None? <==> ValidHistory(h)
    ensures e.Some? ==> Justified(h, e.value) && res.verdict == Verdict.Unknown
    ensures e.None? ==> Tells(h, m, opt, late.search, res)
    ensures e.None? ==>
                KeysOf(Live(h), keys) && res.perKey.Keys == (set k | k in keys) && res.visits == Total(keys, res.perKey)
    ensures e.None? && res.key.Some? && res.ops.None? ==>
              res.culprit == Answer(h, res.key.value, m, opt, late.search).culprit
    ensures res.ops.Some? ==> e.None? && res.verdict == Verdict.NotLinearizable && opt.minimize && res.key.Some?
    ensures res.ops.Some? && !HasLinearization(m, KnownByTheEnd(LiveKey(h, res.key.value))) ==>
              Minimal(m, LiveKey(h, res.key.value), res.ops.value, res.culprit)
    ensures res.ops.Some? && Forgiving(m) && HasLinearization(m, KnownByTheEnd(LiveKey(h, res.key.value))) ==>
              res.ops.value == ByInvoke(KnownByTheEnd(LiveKey(h, res.key.value)))
    ensures res.ops.Some? && OneLatePerKey(h) && Trusted(m, h) ==>
              Minimal(m, LiveKey(h, res.key.value), res.ops.value, res.culprit)
    ensures e.None? && res.verdict == Verdict.NotLinearizable && opt.minimize && res.ops.None? ==>
              res.key.Some? && KeyIsUndecided(h, res.key.value, m, opt, late.probes)
    ensures e.None? && res.verdict == Verdict.NotLinearizable && opt.minimize && opt.Unlimited() ==> res.ops.Some?
  {
    hide *;
    keys := [];
    res := Result(Verdict.Unknown, None, None, None, 0, map[]);
    e := Validate(h);
    if e.Some? {
      return;
    }
    var live := DropFailed(h);
    var byKey := ByKey(live);
    var ks := Keys(live);
    keys := ks;
    LiveKeyIs(h);
    AllKeysCheckable(h, ks, byKey);
    var slots := new Option<KeyResult>[|ks|](_ => None);
    ghost var filled := SearchAll(ks, byKey, slots, m, opt, late.search, hash, parallelism, processors);
    HowMany(ks, byKey, m, opt, late.search);
    var results := seq(|ks|, i requires 0 <= i < |ks| && slots[i].Some? reads slots => slots[i].value);
    assert results == Answers(ks, byKey, m, opt, late.search);
    ghost var stats := Stats(h, ks, m, opt, late.search);
    HowManyStats(h, ks, m, opt, late.search);

    var perKey: map<string, KeyStat>, total: nat := map[], 0;
    NothingCounted(ks, stats);
    for i := 0 to |ks|
      invariant Counted(ks, i, perKey, stats, total)
    {
      var kr := results[i];
      AnswerIs(h, ks, byKey, m, opt, late.search, i);
      StatIsAnswer(h, ks[i], m, opt, late.search);
      StatsAt(h, ks, m, opt, late.search, i);
      CountOneMore(ks, i, perKey, stats, total);
      perKey := perKey[ks[i] := KeyStat(|byKey[ks[i]]|, kr.visits, kr.verdict)];
      total := total + kr.visits;
    }
    Assembled(h, ks, m, opt, late.search, perKey, total);
    forall i | 0 <= i < |ks|
      ensures ks[i] in perKey && perKey[ks[i]].verdict == results[i].verdict
      ensures results[i] == Answer(h, ks[i], m, opt, late.search)
    {
      AnswerIs(h, ks, byKey, m, opt, late.search, i);
      StatIsAnswer(h, ks[i], m, opt, late.search);
      assert ks[i] in ks;
    }
    var verdict := Verdict.Linearizable;
    var reported := FindFirst(results, NotLinearizable);
    FirstInOrder(ks, perKey, results, NotLinearizable, reported);
    if reported.Some? {
      verdict := NotLinearizable;
    } else {
      reported := FindFirst(results, Unknown);
      FirstInOrder(ks, perKey, results, Unknown, reported);
      if reported.Some? {
        verdict := Unknown;
      }
    }
    res := Result(verdict, None, None, None, total, perKey);
    if reported.Some? {
      var k := ks[reported.value];
      VerdictOfKey(h, k, m, opt, late.search);
      KeyUndecidedIs(h, k, m, opt, late.probes);
      if verdict == NotLinearizable && OneLatePerKey(h) && Trusted(m, h) {
        TrustedKeyFails(h, k, m);
      }
      var truncated, culprit := AttachDetail(byKey[k], results[reported.value], verdict, m, opt, late.probes, hash);
      res := Result(verdict, Some(k), truncated, culprit, total, perKey);
    }
    Telling(h, m, opt, late.search, res);
  }

  /** A key that fails is known to fail by the end of time, if that makes no difference. */
  lemma TrustedKeyFails(h: seq<Op>, k: string, m: Model)
    requires ValidHistory(h) && OneLatePerKey(h) && Trusted(m, h) && !HasLinearization(m, LiveKey(h, k))
    ensures !HasLinearization(m, KnownByTheEnd(LiveKey(h, k)))
  {
    hide ValidHistory, HasLinearization, Checkable, CollisionFree, Live, OnKey, Collect, Sort;
    var ops := LiveKey(h, k);
    KeyIsCheckable(h, k);
    assert OneAtTheEnd(ops);
    ValidKeyIsSearchableIff(h, k);
    SortedIsRecorded(ops);
    LayoutIndependent(m, ops, ByInvoke(ops));
    forall o | o in ByInvoke(ops) ensures o in h {
      SameMembers(ops, ByInvoke(ops));
      LiveKeyIsFrom(h, k, o);
    }
    FailsByTheEnd(m, ByInvoke(ops));
  }

  /** Without that proviso it can be missed: a valid history, refused by the plain
      register, of which nothing at all is reported as the smallest failing part. */
  lemma EndOfTimeMisleads()
    ensures var o := Op(0, "k", CAS, 0, 1, 2, 0, false, Info, PENDING, PENDING, ""); var h := [o];
            && ValidHistory(h) && OneLatePerKey(h) && LiveKey(h, "k") == h && !HasLinearization(REGISTER, h)
            && ByInvoke(KnownByTheEnd(h)) == [] && HasLinearization(REGISTER, KnownByTheEnd(h))
  {
    var o := Op(0, "k", CAS, 0, 1, 2, 0, false, Info, PENDING, PENDING, "");
    var h := [o];
    AloneAtTheEnd(o);
    LateSwapsAreNot(h);
    KeySearch.NothingIsLinearizable(REGISTER);
    SortedStays(EarlierFirst(), h);
    LiveOnKey(h, "k");
    CollectAll(KeepLiveOnKey("k"), h);
    forall k ensures OneAtTheEnd(LiveKey(h, k)) {
      LiveOnKey(h, k);
      assert h[1..] == [];
    }
  }

  lemma Telling(h: seq<Op>, m: Model, opt: Options, late: KeyClocks, res: Result)
    requires ValidHistory(h)
    requires forall k :: k in res.perKey <==> HasKey(h, k)
    requires forall k :: k in res.perKey ==> res.perKey[k] == Stat(h, k, m, opt, late)
    requires match res.verdict
             case NotLinearizable => res.key.Some? && FirstWith(res.perKey, NotLinearizable, res.key.value)
             case Unknown =>
               && res.key.Some? && FirstWith(res.perKey, Unknown, res.key.value)
               && NoneWith(res.perKey, NotLinearizable)
             case Linearizable =>
               res.key == None && NoneWith(res.perKey, NotLinearizable) && NoneWith(res.perKey, Unknown)
    ensures Tells(h, m, opt, late, res)
  {
    hide ValidHistory, Stat, HasKey, FirstWith, NoneWith;
  }
}
