/** The earliest moment at which a violation became unavoidable. */
module Minimise {
  import opened History
  import opened Model
  import opened Linearization
  import opened Verdicts
  import opened Sorting
  import opened Slicing
  import opened Truncating
  import opened Pairs
  import KeySearch

  ghost predicate StrictlyIncreasing(s: seq<Int64>) {
    forall i, j :: 0 <= i < j < |s| ==> s[i] < s[j]
  }

  function Ascending(): (Int64, Int64) -> bool {
    (a: Int64, b: Int64) => a <= b
  }

  /** One more than the largest timestamp is the smallest. */
  function Wrapped(x: int): Int64
    requires -0x8000_0000_0000_0000 <= x <= 0x8000_0000_0000_0000
  {
    if x == 0x8000_0000_0000_0000 then -0x8000_0000_0000_0000 else x
  }

  /** The latest event, or zero if that is later. */
  ghost predicate Latest(h: seq<Op>, last: Int64) {
    && last >= 0
    && (forall e: int :: IsEvent(h, e) ==> e <= last)
    && (last == 0 || IsEvent(h, last))
  }

  /** The distinct event times, and the moment after the latest of them, in order.
      That moment comes last, unless something happened at the end of time. */
  ghost predicate TimesOf(h: seq<Op>, times: seq<Int64>, last: Int64) {
    && |times| > 0
    && StrictlyIncreasing(times)
    && Latest(h, last)
    && (forall x: Int64 :: x in times <==> IsEvent(h, x) || x == Wrapped(last + 1))
  }

  lemma AscendingIsTotal()
    ensures TotalPreorder(Ascending())
  {
    forall a: Int64, b: Int64, c: Int64
      ensures Ascending()(a, b) || Ascending()(b, a)
      ensures Ascending()(a, b) && Ascending()(b, c) ==> Ascending()(a, c)
    {
    }
  }

  /** Adds a moment unless it is there already. */
  method Note(seen: set<Int64>, times: seq<Int64>, t: Int64) returns (seen': set<Int64>, times': seq<Int64>)
    requires NoDuplicates(times) && forall x :: x in seen <==> x in times
    ensures NoDuplicates(times') && forall x :: x in seen' <==> x in times'
    ensures forall x :: x in times' <==> x in times || x == t
  {
    if t in seen {
      return seen, times;
    }
    return seen + {t}, times + [t];
  }

  lemma OneMoreEvent(h: seq<Op>, i: nat, e: int)
    requires i < |h|
    ensures IsEvent(h[..i + 1], e) <==>
            IsEvent(h[..i], e) || e == h[i].invoke || (e == h[i].complete && h[i].complete != PENDING)
  {
    assert h[..i + 1] == h[..i] + [h[i]];
    assert h[i] in h[..i + 1];
    if IsEvent(h[..i + 1], e) && !(e == h[i].invoke || (e == h[i].complete && h[i].complete != PENDING)) {
      var o :| o in h[..i + 1] && (e == o.invoke || (e == o.complete && o.complete != PENDING));
      assert o in h[..i];
    }
    if IsEvent(h[..i], e) {
      var o :| o in h[..i] && (e == o.invoke || (e == o.complete && o.complete != PENDING));
      assert o in h[..i + 1];
    }
  }

  lemma NoEvents()
    ensures forall e :: !IsEvent([], e)
  {
  }

  method EventTimes(h: seq<Op>) returns (times: seq<Int64>, ghost latest: Int64)
    ensures TimesOf(h, times, latest)
  {
    hide IsEvent;
    var seen: set<Int64> := {};
    times := [];
    var last: Int64 := 0;
    NoEvents();
    assert h[..0] == [];
    for i := 0 to |h|
      invariant NoDuplicates(times) && forall x :: x in seen <==> x in times
      invariant forall e: int :: IsEvent(h[..i], e) <==> e in times
      invariant last >= 0 && (last == 0 || last in times) && forall x :: x in times ==> x <= last
    {
      forall e: int ensures IsEvent(h[..i + 1], e) <==>
            IsEvent(h[..i], e) || e == h[i].invoke || (e == h[i].complete && h[i].complete != PENDING) {
        OneMoreEvent(h, i, e);
      }
      seen, times := Note(seen, times, h[i].invoke);
      if h[i].invoke > last {
        last := h[i].invoke;
      }
      if h[i].complete != PENDING {
        seen, times := Note(seen, times, h[i].complete);
        if h[i].complete > last {
          last := h[i].complete;
        }
      }
    }
    assert h[..|h|] == h;
    latest := last;
    assert Latest(h, last);
    seen, times := Note(seen, times, Wrapped(last + 1));
    ghost var noted := times;
    times := Sort(Ascending(), times);
    AscendingIsTotal();
    SortSorts(Ascending(), noted);
    SortKeepsDistinct(Ascending(), noted);
    SameMembers(times, noted);
    StrictlySorted(times, Wrapped(last + 1));
  }

  lemma StrictlySorted(times: seq<Int64>, x: Int64)
    requires NoDuplicates(times) && SortedBy(Ascending(), times) && x in times
    ensures |times| > 0 && StrictlyIncreasing(times)
  {
    forall i, j | 0 <= i < j < |times| ensures times[i] < times[j] {
      assert Ascending()(times[i], times[j]);
    }
  }

  // ----- The binary search

  /** One key's operations, as they come out of a valid history: two of them precede
      each other only if both were called at the end of time. */
  ghost predicate Checkable(h: seq<Op>) {
    AllOrdered(h) && Settled(h) && Pairwise(CollideLate(), h)
  }

  function CollideLate(): (Op, Op) -> bool {
    (o: Op, p: Op) => Colliding(o, p) ==> o.invoke == PENDING && p.invoke == PENDING
  }

  function Apart(): (Op, Op) -> bool { (o: Op, p: Op) => !Colliding(o, p) }

  lemma ApartIsCollisionFree(h: seq<Op>)
    ensures Pairwise(Apart(), h) <==> CollisionFree(h)
  {
    if Pairwise(Apart(), h) {
      forall i, j | 0 <= i < j < |h| ensures !Colliding(h[i], h[j]) {
        assert Apart()(h[i], h[j]);
      }
    }
  }

  /** Once sorted, they are what deciding a key asks for. */
  lemma SortedIsRecorded(h: seq<Op>)
    requires Checkable(h)
    ensures Checkable(ByInvoke(h))
    ensures CollisionFree(ByInvoke(h)) <==> CollisionFree(h)
    ensures CollisionFree(ByInvoke(h)) ==> KeySearch.Recorded(ByInvoke(h))
  {
    var s := ByInvoke(h);
    SameMembers(h, s);
    PairwiseRearranged(CollideLate(), h, s);
    ApartIsCollisionFree(h);
    ApartIsCollisionFree(s);
    if CollisionFree(h) { PairwiseRearranged(Apart(), h, s); }
    if CollisionFree(s) {
      PairwiseRearranged(Apart(), s, h);
      InOrderIsRecorded(h);
    }
  }

  lemma InOrderIsRecorded(h: seq<Op>)
    requires AllOrdered(ByInvoke(h)) && Settled(ByInvoke(h)) && CollisionFree(ByInvoke(h))
    ensures KeySearch.Recorded(ByInvoke(h))
  {
    var s := ByInvoke(h);
    ByInvokeSorts(h);
    forall i, j | 0 <= i < j < |s| ensures KeySearch.FirstIsInTime()(s[i], s[j]) {
      assert EarlierFirst()(s[i], s[j]) && !Colliding(s[i], s[j]);
      assert s[i] in s && s[j] in s;
    }
  }

  function SortedTruncation(h: seq<Op>, t: Int64): seq<Op> { ByInvoke(Truncation(h, t)) }

  lemma TruncationIsSettled(h: seq<Op>, t: Int64)
    requires Settled(h)
    ensures Settled(Truncation(h, t))
  {
    forall o | o in Truncation(h, t) ensures o.outcome == Info <==> o.complete == PENDING {
      var p := CollectOrigin(Cut(t), h, o);
    }
  }

  /** A cut drops every call made at the end of time, and so every collision. */
  lemma TruncationIsSearchable(h: seq<Op>, t: Int64)
    requires Checkable(h)
    ensures Searchable(Truncation(h, t)) && Checkable(Truncation(h, t))
  {
    forall o | o in Truncation(h, t) ensures o.Ordered() {
      var p := CollectOrigin(Cut(t), h, o);
    }
    TruncationIsSettled(h, t);
    CutSetsApart(h, t);
    PairwiseCollect(CollideLate(), Apart(), Cut(t), h);
    ApartIsCollisionFree(Truncation(h, t));
    assert forall a, b :: Apart()(a, b) ==> CollideLate()(a, b);
  }

  lemma CutSetsApart(h: seq<Op>, t: Int64)
    requires AllOrdered(h)
    ensures forall a, b :: a in h && b in h && CollideLate()(a, b) && Cut(t)(a).Some? && Cut(t)(b).Some? ==>
              Apart()(Cut(t)(a).value, Cut(t)(b).value)
  {
    forall a, b | a in h && b in h && CollideLate()(a, b) && Cut(t)(a).Some? && Cut(t)(b).Some?
      ensures Apart()(Cut(t)(a).value, Cut(t)(b).value)
    {
      CutKeepsShape(a, b, t);
    }
  }

  /** Every probe is a question the search answers exactly. */
  lemma ProbeIsAllowed(h: seq<Op>, t: Int64)
    requires Checkable(h)
    ensures var s := SortedTruncation(h, t); AllOrdered(s) && CollisionFree(s) && KeySearch.Recorded(s)
  {
    TruncationIsSearchable(h, t);
    SortedIsRecorded(Truncation(h, t));
    hide Collect, Sort, KeySearch.Recorded;
  }

  lemma SortingIsHarmless(m: Model, h: seq<Op>, t: Int64)
    ensures HasLinearization(m, SortedTruncation(h, t)) <==> HasLinearization(m, Truncation(h, t))
  {
    LayoutIndependent(m, SortedTruncation(h, t), Truncation(h, t));
  }

  /** After the last of the times nothing happens before the end of time. */
  lemma LastTime(h: seq<Op>, times: seq<Int64>, last: Int64)
    requires TimesOf(h, times, last)
    ensures Truncation(h, times[|times| - 1]) == Truncation(h, PENDING)
  {
    hide IsEvent, Collect;
    var n := |times| - 1;
    var top: Int64 := if last < PENDING then last + 1 else PENDING;
    assert top in times;
    var j :| 0 <= j <= n && times[j] == top;
    assert times[j] <= times[n];
    NothingHappens(h, times[n], PENDING);
  }

  /** With every call before the end of time, that keeps everything. */
  lemma EndKeepsEverything(h: seq<Op>)
    requires Settled(h) && forall o :: o in h ==> o.invoke < PENDING
    ensures Truncation(h, PENDING) == h
  {
    KeepEverything(h, PENDING);
  }

  /** Before the first event nothing is known. */
  lemma {:induction false} NothingYet(h: seq<Op>, t: Int64)
    requires forall o :: o in h ==> t <= o.invoke
    ensures Truncation(h, t) == []
  {
    if h == [] {
    } else {
      NothingYet(h[1..], t);
    }
  }

  lemma NothingBefore(h: seq<Op>, t: Int64)
    requires forall e: int :: IsEvent(h, e) ==> t <= e
    ensures Truncation(h, t) == []
  {
    forall o | o in h ensures t <= o.invoke {
      assert IsEvent(h, o.invoke);
    }
    NothingYet(h, t);
  }

  lemma FirstTimeIsEmpty(h: seq<Op>, times: seq<Int64>, last: Int64)
    requires TimesOf(h, times, last)
    ensures Truncation(h, times[0]) == []
  {
    hide IsEvent, Collect;
    forall e: int | IsEvent(h, e) ensures times[0] <= e {
      EventIsListed(h, times, last, e);
    }
    NothingBefore(h, times[0]);
  }

  lemma EventIsListed(h: seq<Op>, times: seq<Int64>, last: Int64, e: int)
    requires TimesOf(h, times, last) && IsEvent(h, e)
    ensures exists j :: 0 <= j < |times| && times[j] == e && times[0] <= times[j]
  {
    var x: Int64 := EventIsInt64(h, e);
    assert x in times;
    var j :| 0 <= j < |times| && times[j] == x;
    assert j == 0 || times[0] < times[j];
  }

  lemma EventIsInt64(h: seq<Op>, e: int) returns (x: Int64)
    requires IsEvent(h, e)
    ensures x == e
  {
    var o :| o in h && (e == o.invoke || (e == o.complete && o.complete != PENDING));
    x := if e == o.invoke then o.invoke else o.complete;
  }

  /** `e` is the last moment at which the history could still have been explained. */
  ghost predicate Turns(m: Model, h: seq<Op>, e: Int64) {
    && IsEvent(h, e)
    && forall t: Int64 :: HasLinearization(m, Truncation(h, t)) <==> t <= e
  }

  /** Only an event comes right before a time at which the truncation fails. */
  lemma EventBefore(m: Model, h: seq<Op>, times: seq<Int64>, last: Int64, k: nat)
    requires TimesOf(h, times, last) && 0 < k < |times| && !HasLinearization(m, Truncation(h, times[k]))
    ensures IsEvent(h, times[k - 1])
  {
    hide IsEvent, HasLinearization, Collect;
    if !IsEvent(h, times[k - 1]) {
      assert times[k - 1] in times;
      if last < PENDING {
        MomentAfterIsLast(h, times, last, k - 1);
      } else {
        SmallestIsFirst(times, k - 1);
        forall e: int | IsEvent(h, e) ensures times[k] <= e {
          EventIsListed(h, times, last, e);
          var j :| 0 <= j < |times| && times[j] == e;
          assert j != 0;
          assert j > 1 ==> times[1] < times[j];
        }
        NothingBefore(h, times[k]);
        KeySearch.NothingIsLinearizable(m);
      }
    }
  }

  lemma MomentAfterIsLast(h: seq<Op>, times: seq<Int64>, last: Int64, i: nat)
    requires TimesOf(h, times, last) && last < PENDING && i < |times| && times[i] == last + 1
    ensures i == |times| - 1
  {
    hide IsEvent;
    var top := times[|times| - 1];
    assert top in times;
  }

  lemma SmallestIsFirst(times: seq<Int64>, i: nat)
    requires StrictlyIncreasing(times) && i < |times| && times[i] == -0x8000_0000_0000_0000
    ensures i == 0
  {
    var first := times[0];
  }

  /** If the verdict turns between two neighbouring times, it turns right after the
      earlier one, and no later cut before the next event differs. */
  lemma TurnsBetween(m: Model, h: seq<Op>, times: seq<Int64>, last: Int64, k: nat)
    requires TimesOf(h, times, last) && 0 < k < |times|
    requires HasLinearization(m, Truncation(h, times[k - 1]))
    requires !HasLinearization(m, Truncation(h, times[k]))
    ensures times[k - 1] < PENDING
    ensures Truncation(h, times[k]) == Truncation(h, times[k - 1] + 1)
    ensures Forgiving(m) ==> Turns(m, h, times[k - 1])
  {
    hide HasLinearization, Collect, Forgiving, IsEvent;
    var e := times[k - 1];
    EventBefore(m, h, times, last, k);
    assert e < times[k];
    forall t: Int64 | e < t <= times[k] ensures Truncation(h, t) == Truncation(h, times[k]) {
      forall x | t <= x < times[k] ensures !IsEvent(h, x) {
        NotBetween(h, times, last, k, x);
      }
      NothingHappens(h, t, times[k]);
    }
    if Forgiving(m) {
      forall t: Int64 ensures HasLinearization(m, Truncation(h, t)) <==> t <= e {
        if t <= e {
          Downward(m, h, t, e);
        } else if times[k] < t && HasLinearization(m, Truncation(h, t)) {
          Downward(m, h, times[k], t);
        }
      }
    }
  }

  lemma NotBetween(h: seq<Op>, times: seq<Int64>, last: Int64, k: nat, x: int)
    requires TimesOf(h, times, last) && 0 < k < |times| && times[k - 1] < x < times[k]
    ensures !IsEvent(h, x)
  {
    hide IsEvent;
    NotListed(times, k, x);
    if IsEvent(h, x) { EventIsListed(h, times, last, x); }
  }

  lemma NotListed(times: seq<Int64>, k: nat, x: int)
    requires StrictlyIncreasing(times) && 0 < k < |times| && times[k - 1] < x < times[k]
    ensures forall j :: 0 <= j < |times| ==> times[j] != x
  {
    forall j | 0 <= j < |times| ensures times[j] != x {
      assert j < k - 1 ==> times[j] < times[k - 1];
      assert k < j ==> times[k] < times[j];
    }
  }

  /** The clocks of the probes: one for each half of each of them. */
  type Clocks = (nat, bool) -> Clock

  /** This is what was known right after the event at which the verdict turned. */
  ghost predicate RightAfter(m: Model, h: seq<Op>, e: Int64, known: seq<Op>) {
    && e < PENDING && known == SortedTruncation(h, e + 1)
    && (Forgiving(m) ==> Turns(m, h, e))
  }

  /** What one probe answers: the search of what was known at `t`, told not to minimise
      but otherwise under the budgets of the caller. */
  ghost function Probing(h: seq<Op>, t: Int64, m: Model, opt: Options, late: Clocks, k: nat): KeySearch.KeyResult
    requires Checkable(h)
  {
    ProbeIsAllowed(h, t);
    KeySearch.KeyOutcome(SortedTruncation(h, t), m, opt.(minimize := false), late(k, false), late(k, true))
  }

  /** Some probe ran out of a budget. */
  ghost predicate SomeProbeIsUndecided(h: seq<Op>, m: Model, opt: Options, late: Clocks)
    requires Checkable(h)
  {
    exists t: Int64, k: nat :: Probing(h, t, m, opt, late, k).verdict == Verdict.Unknown
  }

  lemma ProbeCounts(h: seq<Op>, t: Int64, m: Model, opt: Options, late: Clocks, k: nat)
    requires Checkable(h)
    ensures var s := SortedTruncation(h, t);
            && AllOrdered(s)
            && Probing(h, t, m, opt, late, k) ==
                 KeySearch.KeyOutcome(s, m, opt.(minimize := false), late(k, false), late(k, true))
    ensures Probing(h, t, m, opt, late, k).verdict == Verdict.Unknown ==> SomeProbeIsUndecided(h, m, opt, late)
  {
    ProbeIsAllowed(h, t);
    hide Checkable, KeySearch.KeyOutcome, AllOrdered, SortedTruncation;
  }

  lemma UnlimitedProbesDecide(h: seq<Op>, m: Model, opt: Options, late: Clocks)
    requires Checkable(h) && opt.Unlimited()
    ensures !SomeProbeIsUndecided(h, m, opt, late)
  {
    hide Checkable, KeySearch.KeyOutcome, SortedTruncation;
    forall t: Int64, k: nat ensures Probing(h, t, m, opt, late, k).verdict != Verdict.Unknown {
      ProbeIsAllowed(h, t);
      KeySearch.KeyIsExact(SortedTruncation(h, t), m, opt.(minimize := false), late(k, false), late(k, true));
    }
  }

  /** Finds the smallest failing truncation of a history that fails at the end of time.
      It reports none only if a probe ran out of a budget.
      When it reports one, the verdict turns at a single event, and what it returns is
      exactly what was known right after that event. If what was known at the end of
      time does not fail, neither does what it reports. */
  method Minimise(h: seq<Op>, m: Model, opt: Options, late: Clocks, hash: (seq<bv64>, int) -> int)
    returns (smallest: Option<seq<Op>>)
    requires Checkable(h)
    ensures smallest.Some? && Forgiving(m) ==>
              (HasLinearization(m, smallest.value) <==> HasLinearization(m, Truncation(h, PENDING)))
    ensures smallest.Some? && !HasLinearization(m, Truncation(h, PENDING)) ==>
              !HasLinearization(m, smallest.value)
    ensures smallest.Some? && !HasLinearization(m, Truncation(h, PENDING)) ==>
              exists e: Int64 :: RightAfter(m, h, e, smallest.value)
    ensures smallest.Some? && Forgiving(m) && HasLinearization(m, Truncation(h, PENDING)) ==>
              smallest.value == SortedTruncation(h, PENDING)
    ensures smallest.None? ==> SomeProbeIsUndecided(h, m, opt, late)
    ensures opt.Unlimited() ==> smallest.Some?
  {
    hide HasLinearization, AllOrdered, CollisionFree, Collect, Forgiving, IsEvent, KeySearch.KeyOutcome,
      StrictlyIncreasing, Probing, SomeProbeIsUndecided;
    if opt.Unlimited() { UnlimitedProbesDecide(h, m, opt, late); }
    var probe := opt.(minimize := false);
    var times, last := EventTimes(h);
    KeySearch.NothingIsLinearizable(m);
    FirstTimeIsEmpty(h, times, last);
    LastTime(h, times, last);
    var lo, hi := 0, |times| - 1;
    while lo < hi
      invariant 0 <= lo <= hi < |times|
      invariant hi == |times| - 1 || !HasLinearization(m, Truncation(h, times[hi]))
      invariant lo > 0 ==> HasLinearization(m, Truncation(h, times[lo - 1]))
      invariant Forgiving(m) && HasLinearization(m, Truncation(h, PENDING)) ==> hi == |times| - 1
    {
      var mid := (lo + hi) / 2;
      ProbeIsAllowed(h, times[mid]);
      SortingIsHarmless(m, h, times[mid]);
      ProbeCounts(h, times[mid], m, opt, late, mid);
      var kr := KeySearch.SearchKey(SortedTruncation(h, times[mid]), m, probe, late(mid, false), late(mid, true), hash);
      if Forgiving(m) && HasLinearization(m, Truncation(h, PENDING)) {
        Downward(m, h, times[mid], PENDING);
      }
      match kr.verdict
      case NotLinearizable => hi := mid;
      case Linearizable => lo := mid + 1;
      case Unknown => return None;
    }
    SortingIsHarmless(m, h, times[lo]);
    smallest := Some(SortedTruncation(h, times[lo]));
    if !HasLinearization(m, Truncation(h, times[lo])) {
      assert lo != 0;
      TurnsBetween(m, h, times, last, lo);
      assert smallest.value == SortedTruncation(h, times[lo - 1] + 1);
      assert RightAfter(m, h, times[lo - 1], smallest.value);
    }
  }

  /** What it returns is the smallest: it is itself cut down from every truncation
      that fails, and cutting it any further makes it linearizable. */
  lemma SmallestFailure(m: Model, h: seq<Op>, e: Int64, t: Int64)
    requires e < PENDING && Turns(m, h, e) && !HasLinearization(m, Truncation(h, t))
    ensures Truncation(Truncation(h, t), e + 1) == Truncation(h, e + 1)
    ensures HasLinearization(m, Truncation(Truncation(h, e + 1), e))
  {
    TruncationComposes(h, e + 1, t);
    TruncationComposes(h, e, e + 1);
  }

  // ----- A call at the end of time

  /** The moment after the latest event does not exist if that is the end of time, so
      what is left to look at is the history without the calls made then. */
  function KeepLate(): Op -> Option<Op> {
    (o: Op) => if o.invoke == PENDING then Some(o) else None
  }

  function Late(h: seq<Op>): seq<Op> { Collect(KeepLate(), h) }

  lemma PartsCons(x: Op, h: seq<Op>)
    requires x.outcome == Info <==> x.complete == PENDING
    ensures Truncation([x] + h, PENDING) == (if x.invoke < PENDING then [x] else []) + Truncation(h, PENDING)
    ensures Late([x] + h) == (if x.invoke < PENDING then [] else [x]) + Late(h)
  {
    assert ([x] + h)[1..] == h;
  }

  lemma {:induction false} PartsOf(h: seq<Op>, o: Op)
    requires Settled(h)
    ensures multiset(Truncation(h, PENDING))[o] + multiset(Late(h))[o] == multiset(h)[o]
  {
    hide Collect;
    if h == [] {
      NoParts();
    } else {
      var x, rest := h[0], h[1..];
      assert h == [x] + rest;
      PartsOf(rest, o);
      PartsCons(x, rest);
      CountCons(x, rest, o);
      CountCons(x, Truncation(rest, PENDING), o);
      CountCons(x, Late(rest), o);
      assert [] + Truncation(rest, PENDING) == Truncation(rest, PENDING) && [] + Late(rest) == Late(rest);
    }
  }

  lemma NoParts()
    ensures Truncation([], PENDING) == [] && Late([]) == []
  {
  }

  lemma OneLate(s: seq<Op>)
    requires CollisionFree(s) && forall o :: o in s ==> o.invoke == PENDING && o.complete == PENDING
    ensures |s| <= 1
  {
    if |s| > 1 {
      assert s[0] in s && s[1] in s;
      assert s[0].Precedes(s[1]) && s[1].Precedes(s[0]);
    }
  }

  lemma LateFacts(h: seq<Op>, w: seq<Op>)
    requires Checkable(h) && CollisionFree(h) && multiset(w) == multiset(Truncation(h, PENDING))
    ensures forall o :: o in w ==> o.invoke < PENDING
    ensures forall o :: o in Late(h) ==> o.complete == PENDING && o.outcome == Info && o.invoke == PENDING
    ensures |Late(h)| <= 1
  {
    forall o | o in w ensures o.invoke < PENDING {
      assert o in multiset(w);
      var p := CollectOrigin(Cut(PENDING), h, o);
    }
    forall o | o in Late(h) ensures o.complete == PENDING && o.outcome == Info && o.invoke == PENDING {
      var p := CollectOrigin(KeepLate(), h, o);
      assert p.Ordered();
    }
    KeySearch.SelectionIsSearchable(KeepLate(), h);
    OneLate(Late(h));
  }

  lemma LateComesLast(h: seq<Op>, w: seq<Op>)
    requires Checkable(h) && CollisionFree(h)
    requires RespectsRealTime(w) && multiset(w) == multiset(Truncation(h, PENDING))
    ensures RespectsRealTime(w + Late(h)) && multiset(w + Late(h)) == multiset(h)
    ensures forall o :: o in Late(h) ==> o.outcome == Info
  {
    LateFacts(h, w);
    forall o ensures multiset(w + Late(h))[o] == multiset(h)[o] {
      PartsOf(h, o);
    }
    hide Checkable, CollisionFree, Collect, RespectsRealTime, Late;
    KeySearch.UnansweredLast(w, Late(h));
  }

  /** The registers accept the late calls after everything else, but for the plain one's
      compare-and-swaps. */
  lemma LateCallsAreAccepted(m: Model, h: seq<Op>, w: seq<Op>)
    requires m == CAS_REGISTER || (m == REGISTER && NoLateSwap(h))
    requires Checkable(h) && CollisionFree(h) && IsLinearization(m, Truncation(h, PENDING), w)
    ensures IsLinearization(m, h, w + Late(h))
  {
    hide Checkable, CollisionFree, Collect, NoLateSwap;
    LateComesLast(h, w);
    LateAreNoSwaps(h);
    FinalAppend(m, m.Init(), w, Late(h));
    UnansweredIsAccepted(m, Final(m, m.Init(), w).value, Late(h));
  }

  /** No compare-and-swap is called at the end of time. */
  ghost predicate NoLateSwap(h: seq<Op>) {
    forall o :: o in h && o.invoke == PENDING ==> o.kind != CAS
  }

  lemma LateAreNoSwaps(h: seq<Op>)
    ensures NoLateSwap(h) ==> forall o :: o in Late(h) ==> o.kind != CAS
  {
    forall o | NoLateSwap(h) && o in Late(h) ensures o.kind != CAS {
      var p := CollectOrigin(KeepLate(), h, o);
    }
  }

  /** To the compare-and-swap register a call at the end of time makes no difference: it
      may come last, and is never refused. */
  lemma LateCallsAreHarmless(h: seq<Op>)
    requires Checkable(h) && CollisionFree(h)
    ensures HasLinearization(CAS_REGISTER, h) <==> HasLinearization(CAS_REGISTER, Truncation(h, PENDING))
  {
    RegistersForgive();
    if HasLinearization(CAS_REGISTER, h) {
      TruncationLinearizes(CAS_REGISTER, h, PENDING);
    }
    if HasLinearization(CAS_REGISTER, Truncation(h, PENDING)) {
      var w :| IsLinearization(CAS_REGISTER, Truncation(h, PENDING), w);
      hide Checkable, CollisionFree, Collect;
      LateCallsAreAccepted(CAS_REGISTER, h, w);
    }
  }

  lemma {:induction false} RegisterTakesNoSwaps(s: int, w: seq<Op>)
    requires Final(REGISTER, s, w).Some?
    ensures forall o :: o in w ==> o.kind != CAS
    decreases w
  {
    if w == [] {
    } else {
      RegisterTakesNoSwaps(REGISTER.Step(s, w[0]).0, w[1..]);
      assert w == [w[0]] + w[1..];
    }
  }

  /** To the plain register it makes none exactly if it is not a compare-and-swap. */
  lemma LateSwapsAreNot(h: seq<Op>)
    requires Checkable(h) && CollisionFree(h)
    ensures HasLinearization(REGISTER, h) <==>
            HasLinearization(REGISTER, Truncation(h, PENDING)) && NoLateSwap(h)
  {
    RegistersForgive();
    if HasLinearization(REGISTER, h) {
      TruncationLinearizes(REGISTER, h, PENDING);
      var w :| IsLinearization(REGISTER, h, w);
      RegisterTakesNoSwaps(REGISTER.Init(), w);
      forall o | o in h ensures o.kind != CAS {
        assert o in multiset(w);
      }
    }
    if HasLinearization(REGISTER, Truncation(h, PENDING)) && NoLateSwap(h) {
      var w :| IsLinearization(REGISTER, Truncation(h, PENDING), w);
      hide Checkable, CollisionFree, Collect, NoLateSwap;
      LateCallsAreAccepted(REGISTER, h, w);
    }
  }

  /** Every call came before the end of time. */
  ghost predicate BeforeTheEnd(h: seq<Op>) {
    forall o :: o in h ==> o.invoke < PENDING
  }

  /** What a failing key is cut down to can be trusted: no call came at the end of time,
      or it makes no difference to the model. */
  ghost predicate Trusted(m: Model, h: seq<Op>) {
    || m == CAS_REGISTER
    || (m == REGISTER && NoLateSwap(h))
    || BeforeTheEnd(h)
  }

  lemma FailsByTheEnd(m: Model, h: seq<Op>)
    requires Checkable(h) && CollisionFree(h) && Trusted(m, h)
    ensures HasLinearization(m, h) <==> HasLinearization(m, Truncation(h, PENDING))
  {
    hide Checkable, CollisionFree, HasLinearization, Collect;
    if m == CAS_REGISTER {
      LateCallsAreHarmless(h);
    } else if m == REGISTER && NoLateSwap(h) {
      LateSwapsAreNot(h);
    } else {
      CheckableIs(h);
      EndKeepsEverything(h);
    }
  }

  lemma CheckableIs(h: seq<Op>)
    requires Checkable(h)
    ensures AllOrdered(h) && Settled(h)
  {
  }

  /** All that is known of the keys in question: this is one of their calls. */
  ghost predicate LateCall(z: Op, h: seq<Op>) {
    z in h && Checkable(h) && CollisionFree(h)
  }

  /** A call at the end of time leaves the minimisation of every failing key of the plain
      register as it should be, exactly if it is not a compare-and-swap. */
  lemma LateCallMattersIff(z: Op)
    requires z.invoke == PENDING && z.complete == PENDING && z.outcome == Info
    ensures (forall h :: LateCall(z, h) && !HasLinearization(REGISTER, h) ==>
                           !HasLinearization(REGISTER, Truncation(h, PENDING)))
       <==> z.kind != CAS
  {
    if z.kind != CAS {
      forall h | LateCall(z, h) && !HasLinearization(REGISTER, h)
        ensures !HasLinearization(REGISTER, Truncation(h, PENDING))
      {
        OnlyLateCall(z, h);
        LateSwapsAreNot(h);
      }
    } else {
      AloneAtTheEnd(z);
      LateSwapsAreNot([z]);
      KeySearch.NothingIsLinearizable(REGISTER);
    }
  }

  lemma OnlyLateCall(z: Op, h: seq<Op>)
    requires LateCall(z, h) && z.invoke == PENDING && z.kind != CAS
    ensures NoLateSwap(h)
  {
    forall o | o in h && o.invoke == PENDING ensures o == z {
      var i :| 0 <= i < |h| && h[i] == o;
      var j :| 0 <= j < |h| && h[j] == z;
      assert i < j ==> !Colliding(h[i], h[j]);
      assert j < i ==> !Colliding(h[j], h[i]);
    }
  }

  lemma AloneAtTheEnd(z: Op)
    requires z.invoke == PENDING && z.complete == PENDING && z.outcome == Info
    ensures LateCall(z, [z]) && Truncation([z], PENDING) == []
    ensures z.kind == CAS ==> !NoLateSwap([z])
  {
    assert z in [z];
    assert [z][1..] == [];
  }
}
