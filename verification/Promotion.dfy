/** What promotion does: as many failed forwards in a row as it takes are enough for a
    stale answer, however many that is. */
module Promotion {
  import opened History
  import opened Model
  import opened Linearization
  import opened Store
  import opened Client
  import opened Forward
  import opened Runs
  import opened Recordings
  import opened Locality
  import opened Validity

  /** A client writes through the leader, and is answered. */
  const WRITTEN := Op(0, "k", Write, 1, 0, 0, 0, false, OK, 0, 1, "")

  /** Later, another reads the initial value. */
  function Stale(process: int): Op { Op(process, "k", Read, 0, 0, 0, 0, false, OK, 1, 2, "") }

  const WRITING := Request(Write, "k", 1, 0, 0)
  const ELSEWHERE := Request(Read, "x", 0, 0, 0)
  const READING := Request(Read, "k", 0, 0, 0)

  /** The write is done, and the one follower has failed to forward k reads of another
      key, all of them still unanswered. */
  ghost predicate Poised(s: Run, promoteAfter: int, k: nat) {
    && s.now == 1 && s.granularity == 1
    && s.followers == map[7 := Follower(true, promoteAfter, k, false, map[])]
    && |s.calls| == k + 1
    && s.calls[0].record == Some(WRITTEN)
    && forall i :: 0 < i <= k ==> s.calls[i].record == None && s.calls[i].req == ELSEWHERE
  }

  lemma TakesOneMore(states: seq<Run>, steps: seq<Step>, step: Step)
    requires Takes(states, steps) && states[|steps|].granularity > 0 && Enabled(states[|steps|], step)
    ensures Takes(states + [After(states[|steps|], step)], steps + [step])
  {
    var more, all := states + [After(states[|steps|], step)], steps + [step];
    assert Leads(states[|steps|], step, After(states[|steps|], step));
    forall t | 0 <= t < |all| ensures Leads(more[t], all[t], more[t + 1]) {
      if t < |steps| { assert Leads(states[t], steps[t], states[t + 1]); }
    }
  }

  lemma TheWrite(promoteAfter: int) returns (states: seq<Run>, steps: seq<Step>)
    requires promoteAfter >= 1
    ensures Takes(states, steps) && Fresh(states[0]) && states[0].followers == map[7 := NewFollower(true, promoteAfter)]
    ensures Poised(states[|steps|], promoteAfter, 0)
  {
    var s0 := Start(1, map[7 := NewFollower(true, promoteAfter)]);
    var call := Invoke(0, WRITING, 0, 0);
    var s1 := After(s0, call);
    var s2 := After(s1, Arrive(0));
    var s3 := After(s2, HearNode(0, 0));
    var s4 := After(s3, Tick);
    states, steps := [s0, s1, s2, s3, s4], [call, Arrive(0), HearNode(0, 0), Tick];
    assert Leads(s0, call, s1) && Leads(s1, Arrive(0), s2);
    assert Leads(s2, HearNode(0, 0), s3) && Leads(s3, Tick, s4);
    assert Takes(states, steps) by {
      hide Leads;
    }
  }

  /** A request to the follower, which forwards it and gives up. */
  function Forwarding(s: Run, req: Request): (r: Run)
    requires Reads(s, 1) && s.granularity > 0 && 7 in s.followers
    ensures |r.calls| == |s.calls| + 1
  {
    var i := |s.calls|;
    var s1 := After(s, Invoke(i, req, 7, 1));
    var s2 := After(s1, Arrive(i));
    After(s2, MissLeader(i))
  }

  lemma ForwardingIsTaken(states: seq<Run>, steps: seq<Step>, req: Request) returns (more: seq<Run>, all: seq<Step>)
    requires Takes(states, steps)
    requires var s := states[|steps|]; Reads(s, 1) && s.granularity > 0 && 7 in s.followers
    ensures Takes(more, all) && more[0] == states[0] && more[|all|] == Forwarding(states[|steps|], req)
  {
    var s := states[|steps|];
    var i := |s.calls|;
    var s1 := After(s, Invoke(i, req, 7, 1));
    var s2 := After(s1, Arrive(i));
    hide Takes;
    TakesLength(states, steps);
    TakesOneMore(states, steps, Invoke(i, req, 7, 1));
    more, all := states + [s1], steps + [Invoke(i, req, 7, 1)];
    TakesOneMore(more, all, Arrive(i));
    more, all := more + [s2], all + [Arrive(i)];
    TakesOneMore(more, all, MissLeader(i));
    more, all := more + [After(s2, MissLeader(i))], all + [MissLeader(i)];
  }

  lemma ForwardingFails(s: Run, promoteAfter: int, k: nat)
    requires Poised(s, promoteAfter, k) && k + 1 < promoteAfter
    ensures Poised(Forwarding(s, ELSEWHERE), promoteAfter, k + 1)
  {
  }

  lemma {:induction false} AllButOne(promoteAfter: int, k: nat) returns (states: seq<Run>, steps: seq<Step>)
    requires k < promoteAfter
    ensures Takes(states, steps) && Fresh(states[0]) && states[0].followers == map[7 := NewFollower(true, promoteAfter)]
    ensures Poised(states[|steps|], promoteAfter, k)
  {
    if k == 0 {
      states, steps := TheWrite(promoteAfter);
    } else {
      states, steps := AllButOne(promoteAfter, k - 1);
      var s := states[|steps|];
      states, steps := ForwardingIsTaken(states, steps, ELSEWHERE);
      ForwardingFails(s, promoteAfter, k - 1);
    }
  }

  /** One more failed forward: the follower promotes itself and answers from its empty
      cache, and the client writes that down. */
  lemma TheStaleRead(s: Run, promoteAfter: int)
    requires promoteAfter >= 1 && Poised(s, promoteAfter, promoteAfter - 1)
    ensures var s' := Forwarding(s, READING);
            && s'.granularity > 0 && Enabled(s', HearNode(promoteAfter, 1))
            && var calls := After(s', HearNode(promoteAfter, 1)).calls;
               && |calls| == promoteAfter + 1
               && calls[0].record == Some(WRITTEN) && calls[promoteAfter].record == Some(Stale(promoteAfter))
               && forall i :: 0 < i < promoteAfter ==> calls[i].record == None && calls[i].req == ELSEWHERE
  {
    var s' := Forwarding(s, READING);
    assert s'.calls[promoteAfter].answer == Some(Reply(ReadOK(0)));
  }

  // ----- No order explains it

  lemma OnlyOrder(a: Op, b: Op, w: seq<Op>)
    requires a != b && a.Precedes(b) && multiset(w) == multiset([a, b]) && RespectsRealTime(w)
    ensures w == [a, b]
  {
    assert |multiset(w)| == 2;
    assert w[0] in multiset(w) && w[1] in multiset(w);
    assert w == [w[0], w[1]];
    assert a in multiset(w) && b in multiset(w);
  }

  /** Of the key in question, the history holds the write and the stale read. */
  lemma OnTheKey(calls: seq<Call>, n: nat)
    requires n > 0 && |calls| == n + 1
    requires calls[0].record == Some(WRITTEN) && calls[n].record == Some(Stale(n))
    requires forall i :: 0 < i < n ==> calls[i].record == None && calls[i].req == ELSEWHERE
    ensures OnKey(Live(HistoryOf(calls)), "k") == [WRITTEN, Stale(n)]
  {
    hide *;
    var h := HistoryOf(calls);
    var mid := MidIsElsewhere(calls, n);
    LiveOnKey(h, "k");
    ThreeParts(KeepLiveOnKey("k"), WRITTEN, mid, Stale(n));
  }

  lemma MidIsElsewhere(calls: seq<Call>, n: nat) returns (mid: seq<Op>)
    requires n > 0 && |calls| == n + 1
    requires calls[0].record == Some(WRITTEN) && calls[n].record == Some(Stale(n))
    requires forall i :: 0 < i < n ==> calls[i].record == None && calls[i].req == ELSEWHERE
    ensures HistoryOf(calls) == [WRITTEN] + mid + [Stale(n)]
    ensures KeepLiveOnKey("k")(WRITTEN) == Some(WRITTEN) && KeepLiveOnKey("k")(Stale(n)) == Some(Stale(n))
    ensures forall o :: o in mid ==> KeepLiveOnKey("k")(o) == None
  {
    var h := HistoryOf(calls);
    mid := h[1..n];
    assert h == [h[0]] + mid + [h[n]];
    forall o | o in mid ensures o.key == "x" {
      var i :| 0 <= i < |mid| && mid[i] == o;
      assert mid[i] == h[i + 1];
    }
  }

  lemma ThreeParts(f: Op -> Option<Op>, a: Op, mid: seq<Op>, b: Op)
    requires f(a) == Some(a) && f(b) == Some(b) && forall o :: o in mid ==> f(o) == None
    ensures Collect(f, [a] + mid + [b]) == [a, b]
  {
    hide Collect;
    CollectAppend(f, [a] + mid, [b]);
    CollectAppend(f, [a], mid);
    CollectNone(f, mid);
    CollectAll(f, [a]);
    CollectAll(f, [b]);
  }

  lemma StaleAfterWrite(n: int)
    ensures Final(CAS_REGISTER, CAS_REGISTER.Init(), [WRITTEN, Stale(n)]).None?
    ensures WRITTEN != Stale(n) && WRITTEN.Precedes(Stale(n))
  {
    assert [WRITTEN, Stale(n)][1..] == [Stale(n)];
  }

  lemma StaleIsRefused(h: seq<Op>, n: int)
    requires OnKey(h, "k") == [WRITTEN, Stale(n)]
    ensures !HasGlobalOrder(CAS_REGISTER, h)
  {
    hide *;
    if HasGlobalOrder(CAS_REGISTER, h) {
      var w := SomeGlobalOrder(CAS_REGISTER, h);
      RestrictToKey(CAS_REGISTER, h, w, "k");
      OrderIs(CAS_REGISTER, OnKey(h, "k"), OnKey(w, "k"));
      StaleAfterWrite(n);
      OnlyOrder(WRITTEN, Stale(n), OnKey(w, "k"));
    }
  }

  lemma OrderIs(m: Model, h: seq<Op>, w: seq<Op>)
    requires IsLinearization(m, h, w)
    ensures multiset(w) == multiset(h) && RespectsRealTime(w) && Final(m, m.Init(), w).Some?
  {
  }

  lemma SomeGlobalOrder(m: Model, h: seq<Op>) returns (w: seq<Op>)
    requires HasGlobalOrder(m, h)
    ensures IsGlobalOrder(m, h, w)
  {
    w :| IsGlobalOrder(m, h, w);
  }

  /** The proviso of the theorem about runs is needed whatever the configuration: for
      every number of failed forwards it can take, there is a run in which a follower
      configured to promote itself is provoked, and whose history no order explains. */
  lemma ProvokedIsCaught(promoteAfter: int) returns (states: seq<Run>, steps: seq<Step>)
    requires promoteAfter >= 1
    ensures Takes(states, steps) && Fresh(states[0]) && states[0].followers == map[7 := NewFollower(true, promoteAfter)]
    ensures !Unprovoked(states, steps)
    ensures !HasGlobalOrder(CAS_REGISTER, Live(HistoryOf(states[|steps|].calls)))
  {
    hide *;
    states, steps := AllButOne(promoteAfter, promoteAfter - 1);
    var s := states[|steps|];
    PoisedToForward(s, promoteAfter);
    states, steps := ForwardingIsTaken(states, steps, READING);
    TheStaleRead(s, promoteAfter);
    TakesLength(states, steps);
    TakesOneMore(states, steps, HearNode(promoteAfter, 1));
    states, steps := states + [After(states[|steps|], HearNode(promoteAfter, 1))], steps + [HearNode(promoteAfter, 1)];
    var calls := states[|steps|].calls;
    OnTheKey(calls, promoteAfter);
    StaleIsRefused(Live(HistoryOf(calls)), promoteAfter);
    TakesLength(states, steps);
    if Unprovoked(states, steps) {
      RunsLinearize(states, steps, |steps|);
    }
  }

  lemma PoisedToForward(s: Run, promoteAfter: int)
    requires promoteAfter >= 1 && Poised(s, promoteAfter, promoteAfter - 1)
    ensures Reads(s, 1) && s.granularity > 0 && 7 in s.followers
  {
  }
}
