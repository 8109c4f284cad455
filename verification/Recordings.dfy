/** The history a run leaves behind, and why the checker never accuses the store. */
module Recordings {
  import opened History
  import opened Model
  import opened Linearization
  import opened Store
  import opened Client
  import opened Forward
  import opened Runs
  import opened Locality
  import opened Minimise
  import opened Verdicts
  import opened Validity
  import opened Workers
  import opened Slicing
  import Check

  /** What is recorded of a call; one still open is recorded as unanswered. */
  function OpOf(c: Call): Op {
    match c.record
    case Some(o) => o
    case None => Recording(c.process, c.req, c.invoke, PENDING, Unclear)
  }

  function HistoryOf(calls: seq<Call>): (h: seq<Op>)
    ensures |h| == |calls| && forall i :: 0 <= i < |calls| ==> h[i] == OpOf(calls[i])
  {
    seq(|calls|, i requires 0 <= i < |calls| => OpOf(calls[i]))
  }

  ghost predicate Within(ids: seq<nat>, n: nat) {
    forall x :: 0 <= x < |ids| ==> ids[x] < n
  }

  /** The operations at these places of a history, in this order. */
  ghost function Pick(h: seq<Op>, ids: seq<nat>): (r: seq<Op>)
    requires Within(ids, |h|)
    ensures |r| == |ids|
    ensures forall x :: 0 <= x < |ids| ==> r[x] == h[ids[x]]
  {
    seq(|ids|, x requires 0 <= x < |ids| => h[ids[x]])
  }

  /** The places of the operations that are in it as unanswered only. */
  ghost function Rest(h: seq<Op>, log: seq<nat>, n: nat): (r: seq<nat>)
    requires n <= |h|
    ensures Within(r, n) && Unrepeated(r)
    ensures forall i: nat :: i in r <==> i < n && i !in log && h[i].outcome != Fail
  {
    if n == 0 then []
    else if n - 1 in log || h[n - 1].outcome == Fail then Rest(h, log, n - 1)
    else Rest(h, log, n - 1) + [n - 1]
  }

  ghost predicate Unrepeated(ids: seq<nat>) {
    forall x, y :: 0 <= x < y < |ids| ==> ids[x] != ids[y]
  }

  // ----- Each live operation is picked once

  lemma PickRemoves(h: seq<Op>, ids: seq<nat>, x: nat, rest: seq<nat>)
    requires Within(ids, |h|) && x < |ids| && rest == ids[..x] + ids[x + 1..]
    ensures Within(rest, |h|)
    ensures multiset(Pick(h, ids)) == multiset{h[ids[x]]} + multiset(Pick(h, rest))
  {
    var p := Pick(h, ids);
    Split(p, x);
    assert Pick(h, rest) == p[..x] + p[x + 1..];
  }

  /** These are exactly the places of the live operations among the first n. */
  ghost predicate LivePlaces(h: seq<Op>, ids: seq<nat>, n: nat) {
    && n <= |h| && Unrepeated(ids)
    && forall i: nat :: i in ids <==> i < n && h[i].outcome != Fail
  }

  lemma LivePlacesWithin(h: seq<Op>, ids: seq<nat>, n: nat)
    requires LivePlaces(h, ids, n)
    ensures Within(ids, |h|) && Within(ids, n)
  {
    forall x | 0 <= x < |ids| ensures ids[x] < n {
      assert ids[x] in ids;
    }
  }

  lemma WithinAt(ids: seq<nat>, n: nat, x: nat)
    requires Within(ids, n) && x < |ids|
    ensures ids[x] < n
  {
  }

  lemma NothingWithin(ids: seq<nat>)
    requires Within(ids, 0)
    ensures ids == []
  {
    if |ids| > 0 { WithinAt(ids, 0, 0); }
  }

  /** Picking exactly the live places, in whatever order, yields the live operations. */
  lemma {:induction false} PickAllLive(h: seq<Op>, ids: seq<nat>, n: nat)
    requires LivePlaces(h, ids, n)
    ensures Within(ids, |h|)
    ensures multiset(Pick(h, ids)) == multiset(Live(h[..n]))
    decreases n
  {
    LivePlacesWithin(h, ids, n);
    if n == 0 {
      NothingWithin(ids);
      assert Pick(h, ids) == [] && h[..n] == [];
    } else {
      hide *;
      LastPlace(h, n);
      if h[n - 1].outcome == Fail {
        NotLast(h, ids, n);
        PickAllLive(h, ids, n - 1);
      } else {
        var x, rest := TakeLast(h, ids, n);
        PickRemoves(h, ids, x, rest);
        PickAllLive(h, rest, n - 1);
      }
    }
  }

  lemma LastPlace(h: seq<Op>, n: nat)
    requires 0 < n <= |h|
    ensures h[n - 1].outcome == Fail ==> Live(h[..n]) == Live(h[..n - 1])
    ensures h[n - 1].outcome != Fail ==> multiset(Live(h[..n])) == multiset{h[n - 1]} + multiset(Live(h[..n - 1]))
  {
    CollectOneMore(KeepLive(), h, n - 1);
    hide Collect;
  }

  lemma NotLast(h: seq<Op>, ids: seq<nat>, n: nat)
    requires LivePlaces(h, ids, n) && n > 0 && h[n - 1].outcome == Fail
    ensures LivePlaces(h, ids, n - 1)
  {
  }

  lemma TakeLast(h: seq<Op>, ids: seq<nat>, n: nat) returns (x: nat, rest: seq<nat>)
    requires LivePlaces(h, ids, n) && n > 0 && h[n - 1].outcome != Fail
    ensures x < |ids| && ids[x] == n - 1 && rest == ids[..x] + ids[x + 1..]
    ensures LivePlaces(h, rest, n - 1)
  {
    x :| 0 <= x < |ids| && ids[x] == n - 1;
    rest := ids[..x] + ids[x + 1..];
    OthersPicked(ids, x, n - 1, rest);
    hide Unrepeated;
  }

  lemma OthersPicked(ids: seq<nat>, x: nat, last: nat, rest: seq<nat>)
    requires x < |ids| && ids[x] == last && Unrepeated(ids) && rest == ids[..x] + ids[x + 1..]
    ensures Unrepeated(rest)
    ensures forall i: nat :: i in rest <==> i in ids && i != last
  {
    forall i: nat | i in ids && i != last ensures i in rest {
      var y :| 0 <= y < |ids| && ids[y] == i;
      assert rest[if y < x then y else y - 1] == i;
    }
    forall i: nat | i in rest ensures i in ids && i != last {
      var y :| 0 <= y < |rest| && rest[y] == i;
      assert ids[if y < x then y else y + 1] == i;
    }
  }

  // ----- The order of a run

  /** The calls the leader carried out, as it did, then those it has not. */
  ghost function OrderOf(s: Run): seq<nat> {
    s.log + Rest(HistoryOf(s.calls), s.log, |s.calls|)
  }

  lemma OrderIsLive(s: Run)
    requires Inv(s)
    ensures LivePlaces(HistoryOf(s.calls), OrderOf(s), |s.calls|) && Within(OrderOf(s), |s.calls|)
  {
    hide Replay;
    var rest := Rest(HistoryOf(s.calls), s.log, |s.calls|);
    forall i: nat | i in s.log ensures i < |s.calls| && HistoryOf(s.calls)[i].outcome != Fail {
      assert Honest(s.calls[i], s.now);
    }
    var all := OrderOf(s);
    forall x, y | 0 <= x < y < |all| ensures all[x] != all[y] {
      if x < |s.log| <= y {
        assert all[x] in s.log && all[y] in rest;
      }
    }
    LivePlacesWithin(HistoryOf(s.calls), OrderOf(s), |s.calls|);
  }

  ghost function Witness(s: Run): seq<Op>
    requires Inv(s)
  {
    OrderIsLive(s);
    Pick(HistoryOf(s.calls), OrderOf(s))
  }

  lemma WitnessAt(s: Run, x: nat)
    requires Inv(s) && x < |Witness(s)|
    ensures |Witness(s)| == |OrderOf(s)| && OrderOf(s)[x] < |s.calls|
    ensures Witness(s)[x] == OpOf(s.calls[OrderOf(s)[x]])
    ensures x < |s.log| ==> OrderOf(s)[x] == s.log[x]
    ensures x >= |s.log| ==> Witness(s)[x].outcome == Info && Witness(s)[x].complete == PENDING
    ensures 0 <= Witness(s)[x].invoke < PENDING
  {
    hide Replay;
    OrderIsLive(s);
    var i := OrderOf(s)[x];
    assert i in OrderOf(s);
    assert Honest(s.calls[i], s.now);
    if x >= |s.log| {
      assert i in Rest(HistoryOf(s.calls), s.log, |s.calls|);
    }
  }

  /** A call was not over, as recorded, before it took effect. */
  lemma EffectInside(c: Call, now: int)
    requires Honest(c, now) && c.effect.Some?
    ensures OpOf(c).invoke <= c.effect.value.time < OpOf(c).complete || OpOf(c).complete == PENDING
    ensures OpOf(c).invoke <= c.effect.value.time
  {
  }

  lemma WitnessInTime(s: Run)
    requires Inv(s)
    ensures RespectsRealTime(Witness(s))
  {
    var w := Witness(s);
    hide Witness, Replay;
    forall x, y | 0 <= x < y < |w| ensures !w[y].Precedes(w[x]) {
      WitnessAt(s, x);
      WitnessAt(s, y);
      if y < |s.log| {
        EffectInside(s.calls[s.log[x]], s.now);
        EffectInside(s.calls[s.log[y]], s.now);
        assert TimeOf(s.calls, s.log[x]) <= TimeOf(s.calls, s.log[y]);
        assert s.log[x] in s.log && s.log[y] in s.log;
      }
    }
  }

  /** The registers, read off the operations as recorded, hold what the leader holds. */
  lemma {:induction false} LoggedIsAccepted(calls: seq<Call>, log: seq<nat>, now: int, k: string)
    requires forall i :: 0 <= i < |calls| ==> Honest(calls[i], now)
    requires Replay(calls, log).Some?
    ensures Within(log, |calls|)
    ensures Final(CAS_REGISTER, INITIAL_VALUE, OnKey(Pick(HistoryOf(calls), log), k)) ==
            Some(Held(Replay(calls, log).value, k))
  {
    if log == [] {
    } else {
      var n := |log| - 1;
      LoggedIsAccepted(calls, log[..n], now, k);
      var i, h := log[n], HistoryOf(calls);
      var d := Replay(calls, log[..n]).value;
      forall x | 0 <= x < |log| ensures log[x] < |calls| {
        assert x < n ==> log[..n][x] == log[x];
      }
      assert Pick(h, log) == Pick(h, log[..n]) + [h[i]];
      OnKeyAppend(Pick(h, log[..n]), [h[i]], k);
      OnOneKey([h[i]], h[i].key);
      FinalAppend(CAS_REGISTER, INITIAL_VALUE, OnKey(Pick(h, log[..n]), k), OnKey([h[i]], k));
      AsRecorded(calls[i], now, d);
      PerformIsStep(d, calls[i].req, h[i]);
      OneMoreStep(Held(d, k), h[i], k);
    }
  }

  lemma AsRecorded(c: Call, now: int, d: Data)
    requires Honest(c, now) && c.effect.Some? && Perform(d, c.req).1 == c.effect.value.resp
    ensures Records(OpOf(c), c.req, Perform(d, c.req).1)
  {
  }

  lemma OneMoreStep(v: int, o: Op, k: string)
    requires o.key == k ==> CAS_REGISTER.Step(v, o).1
    ensures Final(CAS_REGISTER, v, OnKey([o], k)) == Some(if o.key == k then CAS_REGISTER.Step(v, o).0 else v)
  {
    assert [o][1..] == [];
    assert OnKey([o], k) == if o.key == k then [o] else [];
  }

  /** The operations the leader never carried out are all unanswered. */
  lemma WitnessSplits(s: Run) returns (left: seq<Op>)
    requires Inv(s)
    ensures Within(s.log, |s.calls|)
    ensures Witness(s) == Pick(HistoryOf(s.calls), s.log) + left
    ensures forall o :: o in left ==> o.outcome == Info
  {
    var h, rest := HistoryOf(s.calls), Rest(HistoryOf(s.calls), s.log, |s.calls|);
    hide *;
    OrderIs(s);
    WithinAppend(s.log, rest, |h|);
    PickAppend(h, s.log, rest);
    left := Pick(h, rest);
    TailIsUnanswered(s, Pick(h, s.log), left);
  }

  lemma TailIsUnanswered(s: Run, done: seq<Op>, left: seq<Op>)
    requires Inv(s) && |done| == |s.log| && Witness(s) == done + left
    ensures forall o :: o in left ==> o.outcome == Info
  {
    hide *;
    forall o | o in left ensures o.outcome == Info {
      var x :| 0 <= x < |left| && left[x] == o;
      assert Witness(s)[|s.log| + x] == o;
      WitnessAt(s, |s.log| + x);
    }
  }

  lemma OrderIs(s: Run)
    requires Inv(s)
    ensures |HistoryOf(s.calls)| == |s.calls|
    ensures var all := s.log + Rest(HistoryOf(s.calls), s.log, |s.calls|);
            Within(all, |s.calls|) && Witness(s) == Pick(HistoryOf(s.calls), all)
  {
    hide Inv, Rest, LivePlaces, Pick;
    OrderIsLive(s);
  }

  lemma PickAppend(h: seq<Op>, a: seq<nat>, b: seq<nat>)
    requires Within(a, |h|) && Within(b, |h|) && Within(a + b, |h|)
    ensures Pick(h, a + b) == Pick(h, a) + Pick(h, b)
    ensures |Pick(h, a)| == |a|
  {
  }

  lemma WithinAppend(a: seq<nat>, b: seq<nat>, n: nat)
    requires Within(a + b, n)
    ensures Within(a, n) && Within(b, n)
  {
    forall x | 0 <= x < |a| ensures a[x] < n { assert (a + b)[x] == a[x]; }
    forall x | 0 <= x < |b| ensures b[x] < n { assert (a + b)[|a| + x] == b[x]; }
  }

  lemma WitnessIsAccepted(s: Run, k: string)
    requires Inv(s)
    ensures Final(CAS_REGISTER, INITIAL_VALUE, OnKey(Witness(s), k)).Some?
  {
    var left := WitnessSplits(s);
    LoggedIsAccepted(s.calls, s.log, s.now, k);
    hide *;
    var done := Pick(HistoryOf(s.calls), s.log);
    OnKeyAppend(done, left, k);
    forall o | o in OnKey(left, k) ensures o.outcome == Info {
      OnKeyComesFrom(left, k, o);
    }
    InvReplays(s);
    UnansweredIsAccepted(CAS_REGISTER, Held(Replay(s.calls, s.log).value, k), OnKey(left, k));
    FinalAppend(CAS_REGISTER, INITIAL_VALUE, OnKey(done, k), OnKey(left, k));
  }

  lemma InvReplays(s: Run)
    requires Inv(s)
    ensures forall i :: 0 <= i < |s.calls| ==> Honest(s.calls[i], s.now)
    ensures Replay(s.calls, s.log) == Some(s.data)
  {
  }

  lemma OnKeyComesFrom(w: seq<Op>, k: string, o: Op)
    requires o in OnKey(w, k)
    ensures o in w
  {
    var p := CollectOrigin(KeepOnKey(k), w, o);
  }

  /** At every moment of a run there is one order of everything that may have
      happened that respects real time and is legal for every key. */
  lemma HistoryLinearizes(s: Run)
    requires Inv(s)
    ensures HasGlobalOrder(CAS_REGISTER, Live(HistoryOf(s.calls)))
  {
    var h := HistoryOf(s.calls);
    OrderIsLive(s);
    PickAllLive(h, OrderOf(s), |h|);
    assert h[..|h|] == h;
    WitnessInTime(s);
    forall k ensures Final(CAS_REGISTER, CAS_REGISTER.Init(), OnKey(Witness(s), k)).Some? {
      WitnessIsAccepted(s, k);
    }
    assert IsGlobalOrder(CAS_REGISTER, Live(h), Witness(s));
  }

  // ----- Whole runs

  /** Every follower has just been started. */
  ghost predicate Fresh(s: Run) {
    forall n :: n in s.followers ==>
      var f := s.followers[n];
      f == NewFollower(f.promote, f.promoteAfter) && f.promoteAfter >= 1
  }

  /** Followers start afresh, and each of them either is not configured to promote
      itself or has never had its number of forwards in a row fail. */
  ghost predicate Unprovoked(states: seq<Run>, steps: seq<Step>)
    requires |states| == |steps| + 1
  {
    && Fresh(states[0])
    && forall n :: n in states[0].followers ==> NotProvoked(states, steps, n)
  }

  ghost predicate NotProvoked(states: seq<Run>, steps: seq<Step>, n: int)
    requires |states| == |steps| + 1 && n in states[0].followers
  {
    var f := states[0].followers[n];
    !f.promote || NeverInARow(Tries(LogOf(states, steps, n, |steps|)), f.promoteAfter)
  }

  /** A follower is loyal at every moment of a run exactly when its own forwards never
      provoked it. */
  lemma LoyalIffNotProvoked(states: seq<Run>, steps: seq<Step>, n: int)
    requires Takes(states, steps) && Fresh(states[0]) && n in states[0].followers
    ensures (forall t :: 0 <= t < |states| ==> n in states[t].followers && states[t].followers[n].Loyal())
       <==> NotProvoked(states, steps, n)
  {
    var f, T := states[0].followers[n], |steps|;
    var log := LogOf(states, steps, n, T);
    LoyalUnlessCutOff(f.promote, f.promoteAfter, log);
    hide Takes, LogOf, NeverInARow, Tries, AfterAll, Follower.Loyal;
    forall t | 0 <= t < |states|
      ensures n in states[t].followers && |LogOf(states, steps, n, t)| <= |log|
      ensures states[t].followers[n] == AfterAll(f, log[..|LogOf(states, steps, n, t)|])
    {
      FollowerIsItsLog(states, steps, n, t);
      LogGrows(states, steps, n, t, T);
    }
    forall k | 0 <= k <= |log|
      ensures exists t :: 0 <= t < |states| && states[t].followers[n] == AfterAll(f, log[..k])
    {
      var t := LogReaches(states, steps, n, T, k);
      assert states[t].followers[n] == AfterAll(f, log[..k]);
    }
  }

  /** In an unprovoked run no follower ever promotes itself. */
  lemma UnprovokedIsLoyal(states: seq<Run>, steps: seq<Step>, t: nat)
    requires Takes(states, steps) && Unprovoked(states, steps) && t < |states|
    ensures AllLoyal(states[t])
  {
    forall n | n in states[t].followers ensures !states[t].followers[n].promoted {
      FollowerIsItsLog(states, steps, n, t);
      LoyalIffNotProvoked(states, steps, n);
      assert states[t].followers[n].Loyal();
    }
  }

  /** So all that holds without promotion holds at each of its moments. */
  lemma UnprovokedKeeps(states: seq<Run>, steps: seq<Step>, t: nat)
    requires Takes(states, steps) && Unprovoked(states, steps) && t < |states|
    ensures IsRun(states) && Inv(states[t])
  {
    hide *;
    TakesIsRun(states, steps);
    forall u | 0 <= u < |states| ensures AllLoyal(states[u]) {
      UnprovokedIsLoyal(states, steps, u);
    }
    RunKeeps(states, t);
  }

  /** Whatever the network loses, delays or refuses, and whatever clients and
      followers give up on: the history recorded so far linearizes. */
  lemma RunsLinearize(states: seq<Run>, steps: seq<Step>, t: nat)
    requires Takes(states, steps) && Unprovoked(states, steps) && t < |states|
    ensures HasGlobalOrder(CAS_REGISTER, Live(HistoryOf(states[t].calls)))
  {
    hide *;
    UnprovokedKeeps(states, steps, t);
    HistoryLinearizes(states[t]);
  }

  lemma HistoryIsOrdered(s: Run)
    requires Inv(s)
    ensures AllOrdered(HistoryOf(s.calls))
    ensures BeforeTheEnd(HistoryOf(s.calls))
  {
    hide Replay;
    var h := HistoryOf(s.calls);
    forall o | o in h ensures o.Ordered() && o.invoke < PENDING {
      var i :| 0 <= i < |h| && h[i] == o;
      assert Honest(s.calls[i], s.now);
    }
  }

  /** The checker never accuses such a run: not under any budget, and without one it
      passes. */
  lemma NeverAccused(states: seq<Run>, steps: seq<Step>, t: nat, opt: Options, late: KeyClocks, res: Check.Result)
    requires Takes(states, steps) && Unprovoked(states, steps) && t < |states|
    requires ValidHistory(HistoryOf(states[t].calls))
    ensures Check.OneLatePerKey(HistoryOf(states[t].calls))
    ensures Check.Tells(HistoryOf(states[t].calls), CAS_REGISTER, opt, late, res) ==>
              res.verdict != Verdict.NotLinearizable && (opt.Unlimited() ==> res.verdict == Verdict.Linearizable)
  {
    hide *;
    var h := HistoryOf(states[t].calls);
    UnprovokedKeeps(states, steps, t);
    HistoryIsOrdered(states[t]);
    Check.NoneIsLate(h);
    HistoryLinearizes(states[t]);
    if Check.Tells(h, CAS_REGISTER, opt, late, res) {
      GlobalOrderIsNotRefused(h, opt, late, res);
    }
  }

  lemma GlobalOrderIsNotRefused(h: seq<Op>, opt: Options, late: KeyClocks, res: Check.Result)
    requires ValidHistory(h) && Check.Tells(h, CAS_REGISTER, opt, late, res)
    requires HasGlobalOrder(CAS_REGISTER, Live(h))
    ensures res.verdict != Verdict.NotLinearizable && (opt.Unlimited() ==> res.verdict == Verdict.Linearizable)
  {
    Check.LiveIsOrdered(h);
    KeysDecide(CAS_REGISTER, Live(h));
    Check.VerdictIsTrue(h, CAS_REGISTER, opt, late, res);
  }

  // ----- What a definite failure means

  lemma RecordsStay(s: Run, step: Step, i: nat)
    requires Enabled(s, step) && s.granularity > 0 && i < |s.calls| && s.calls[i].record.Some?
    ensures i < |After(s, step).calls| && After(s, step).calls[i].record == s.calls[i].record
  {
    hide Perform, Recording, Forwarded;
  }

  lemma {:induction false} RecordsStayForGood(states: seq<Run>, t: nat, u: nat, i: nat)
    requires IsRun(states) && t <= u < |states| && i < |states[t].calls| && states[t].calls[i].record.Some?
    ensures i < |states[u].calls| && states[u].calls[i].record == states[t].calls[i].record
    decreases u
  {
    if t >= u {
    } else {
      hide *;
      RecordsStayForGood(states, t, u - 1, i);
      var step := LastStep(states, u);
      RecordsStay(states[u - 1], step, i);
    }
  }

  /** An operation recorded as failed was not applied before, and is not applied at
      any later moment of the run. */
  lemma FailedIsNeverApplied(states: seq<Run>, steps: seq<Step>, t: nat, u: nat, i: nat)
    requires Takes(states, steps) && Unprovoked(states, steps) && t <= u < |states|
    requires i < |states[t].calls| && states[t].calls[i].record.Some? && states[t].calls[i].record.value.outcome == Fail
    ensures i < |states[u].calls| && states[u].calls[i].effect == None && i !in states[u].log
  {
    hide *;
    UnprovokedKeeps(states, steps, u);
    RecordsStayForGood(states, t, u, i);
    FailedHasNoEffect(states[u], i);
  }

  lemma FailedHasNoEffect(s: Run, i: nat)
    requires Inv(s) && i < |s.calls| && s.calls[i].record.Some? && s.calls[i].record.value.outcome == Fail
    ensures s.calls[i].effect == None && i !in s.log
  {
    hide Replay;
    assert Honest(s.calls[i], s.now);
  }

  // ----- When a recorded history is valid

  /** What the harness's own generator sees to. */
  predicate Proper(req: Request) {
    req.key != "" && !(req.kind == CAS && req.from == req.to)
  }

  /** The client was answered, and waited until the completion recorded for that
      answer had passed before it made the other call. */
  predicate Waited(c: Call, d: Call) {
    c.record.Some? && c.record.value.outcome != Info && c.record.value.complete <= d.invoke
  }

  ghost predicate SpacedOut(calls: seq<Call>) {
    forall i, j :: 0 <= i < j < |calls| && calls[i].process == calls[j].process ==>
      Waited(calls[i], calls[j]) || Waited(calls[j], calls[i])
  }

  lemma RecordIsSound(c: Call, now: int)
    requires Honest(c, now)
    ensures Sound(OpOf(c)) <==> Proper(c.req)
    ensures !AtOnce(OpOf(c)) && OpOf(c).process == c.process
  {
  }

  lemma TurnsAreWaits(c: Call, d: Call, now: int)
    requires Honest(c, now) && Honest(d, now)
    ensures TakeTurns(OpOf(c), OpOf(d)) <==> (c.process == d.process ==> Waited(c, d) || Waited(d, c))
  {
  }

  /** `Validate` accepts what a run recorded exactly when its requests are proper and
      every client waited, before each call, for the completion recorded for the one
      before. */
  lemma RecordedIsValidIff(s: Run)
    requires Inv(s)
    ensures ValidHistory(HistoryOf(s.calls)) <==>
            (forall i :: 0 <= i < |s.calls| ==> Proper(s.calls[i].req)) && SpacedOut(s.calls)
  {
    hide Replay, InOrder, Honest, Waited, TakeTurns, Sound, Proper, AtOnce, OpOf;
    var h := HistoryOf(s.calls);
    forall i | 0 <= i < |h|
      ensures Sound(h[i]) <==> Proper(s.calls[i].req)
      ensures !AtOnce(h[i]) && h[i] in h
    {
      RecordIsSound(s.calls[i], s.now);
    }
    forall i, j | 0 <= i < j < |h|
      ensures Sequential()(h[i], h[j]) <==>
              (s.calls[i].process == s.calls[j].process ==>
                    Waited(s.calls[i], s.calls[j]) || Waited(s.calls[j], s.calls[i]))
      ensures Clashless()(h[i], h[j])
    {
      TurnsAreWaits(s.calls[i], s.calls[j], s.now);
    }
  }

  /** The wait is a tick of the clock after the answer was read. */
  lemma NextCallNeedsATick(c: Call, d: Call, measured: int, granularity: int, sent: Sent)
    requires granularity > 0 && sent != Unclear && c.invoke <= measured
    requires Completion(c.invoke, measured, granularity) < PENDING
    requires c.record == Some(Recording(c.process, c.req, c.invoke, Completion(c.invoke, measured, granularity), sent))
    ensures Waited(c, d) <==> d.invoke >= measured + granularity
  {
  }

  /** A client that is answered, and calls again within the same tick. */
  lemma TwoCalls(granularity: int, req: Request) returns (states: seq<Run>, steps: seq<Step>)
    requires 0 < granularity < PENDING
    ensures Takes(states, steps) && |steps| == 4 && states[0].followers == map[]
    ensures var calls := states[4].calls;
            && |calls| == 2 && calls[0].record.Some? && calls[0].record.value.outcome == OK
            && calls[0].record.value.complete == granularity && calls[0].invoke == calls[1].invoke == 0
            && calls[1].record == None && calls[0].process == calls[1].process
            && calls[0].req == calls[1].req == req
  {
    var s0 := Start(granularity, map[]);
    var call := Invoke(0, req, 0, 0);
    var s1 := After(s0, call);
    var s2 := After(s1, Arrive(0));
    var s3 := After(s2, HearNode(0, 0));
    var s4 := After(s3, call);
    states, steps := [s0, s1, s2, s3, s4], [call, Arrive(0), HearNode(0, 0), call];
    assert Leads(s0, call, s1) && Leads(s1, Arrive(0), s2);
    assert Leads(s2, HearNode(0, 0), s3) && Leads(s3, call, s4);
    assert Takes(states, steps) by {
      hide Leads;
    }
  }

  lemma NotSpacedOut(calls: seq<Call>)
    requires |calls| == 2 && calls[0].process == calls[1].process
    requires !Waited(calls[0], calls[1]) && !Waited(calls[1], calls[0])
    ensures !SpacedOut(calls)
  {
  }

  /** Nothing makes a client wait: whatever the clock's granularity, there is a run with
      proper requests, no fault and no two calls of a client at once that `Validate`
      refuses. */
  lemma ImpatientRun(granularity: int, req: Request) returns (states: seq<Run>, steps: seq<Step>)
    requires 0 < granularity < PENDING && Proper(req)
    ensures Takes(states, steps) && Unprovoked(states, steps)
    ensures var calls := states[|steps|].calls;
            && |calls| == 2 && calls[0].record.Some? && calls[0].record.value.outcome == OK
            && calls[0].req == calls[1].req == req
            && !ValidHistory(HistoryOf(calls))
  {
    hide *;
    states, steps := TwoCalls(granularity, req);
    TakesLength(states, steps);
    NobodyIsProvoked(states, steps);
    UnprovokedKeeps(states, steps, 4);
    Impatient(states[4].calls[0], states[4].calls[1]);
    NotSpacedOut(states[4].calls);
    RecordedIsValidIff(states[4]);
  }

  lemma Impatient(c: Call, d: Call)
    requires c.record.Some? && d.record == None && d.invoke < c.record.value.complete
    ensures !Waited(c, d) && !Waited(d, c)
  {
  }

  lemma NobodyIsProvoked(states: seq<Run>, steps: seq<Step>)
    requires Takes(states, steps) && states[0].followers == map[]
    ensures Unprovoked(states, steps)
  {
    hide Takes;
  }
}
