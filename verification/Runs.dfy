/** Whole runs against a leader and its followers: clients, a network that loses,
    delays and refuses, nodes, and the history that is recorded. */
module Runs {
  import opened History
  import opened Store
  import opened Client
  import opened Forward

  /** What the leader did with a request, and when. */
  datatype Effect = Effect(time: int, resp: Response)

  /** One request, from the client's call to the end of its traces. */
  datatype Call = Call(
    process: int,
    req: Request,
    node: int,
    invoke: Int64,           // the clock's reading when it was called
    began: int,              // the moment it really was
    toNode: bool,            // the request may yet reach the node it was sent to
    toLeader: bool,          // forwarded, it may yet reach the leader
    waiting: bool,           // the follower is waiting for the leader
    alone: bool,             // the follower had promoted itself when it came in
    effect: Option<Effect>,
    answer: Option<Answer>,  // what the node answered, if that was not lost
    record: Option<Op>)      // what the client wrote down

  /** Any node that is not a follower is the leader. Every client counts time with
      one clock, and `granularity` is its step. */
  datatype Run = Run(
    now: int,
    granularity: int,
    calls: seq<Call>,
    followers: map<int, Follower>,
    data: Data,
    log: seq<nat>)           // the calls the leader has carried out, in order

  datatype Step =
    | Tick
    | Invoke(process: int, req: Request, node: int, reading: int)
    | RefuseClient(i: nat, reading: int)   // nothing listens at the node
    | Arrive(i: nat)                       // a node takes the request
    | ArriveForwarded(i: nat)              // the leader takes a forwarded one
    | RefuseFollower(i: nat)               // nothing listens at the leader
    | HearLeader(i: nat)
    | MissLeader(i: nat)                   // the follower gives up on the leader
    | HearNode(i: nat, reading: int)
    | MissNode(i: nat)                     // the client gives up on the node

  function Start(granularity: int, followers: map<int, Follower>): Run {
    Run(0, granularity, [], followers, map[], [])
  }

  predicate Reads(s: Run, reading: int) {
    reading <= s.now < reading + s.granularity
  }

  predicate Open(s: Run, i: nat) { i < |s.calls| && s.calls[i].record == None }

  predicate Waiting(s: Run, i: nat) {
    i < |s.calls| && s.calls[i].waiting && s.calls[i].node in s.followers
  }

  predicate InTime(s: Run, i: nat, reading: int)
    requires i < |s.calls|
  {
    Reads(s, reading) && Completion(s.calls[i].invoke, reading, s.granularity) < PENDING
  }

  predicate Enabled(s: Run, step: Step) {
    match step
    case Tick => true
    case Invoke(_, _, _, reading) => 0 <= reading < PENDING && Reads(s, reading)
    case RefuseClient(i, reading) => Open(s, i) && s.calls[i].toNode && InTime(s, i, reading)
    case Arrive(i) => i < |s.calls| && s.calls[i].toNode
    case ArriveForwarded(i) => i < |s.calls| && s.calls[i].toLeader
    case RefuseFollower(i) => Waiting(s, i) && s.calls[i].toLeader
    case HearLeader(i) => Waiting(s, i) && s.calls[i].effect.Some?
    case MissLeader(i) => Waiting(s, i)
    case HearNode(i, reading) => Open(s, i) && s.calls[i].answer.Some? && InTime(s, i, reading)
    case MissNode(i) => Open(s, i)
  }

  /** The leader carries out the request, under its lock. */
  function Executed(s: Run, i: nat): Run
    requires i < |s.calls|
  {
    var c := s.calls[i];
    var (data, resp) := Perform(s.data, c.req);
    var done := c.(toNode := false, toLeader := false, effect := Some(Effect(s.now, resp)),
                   answer := if c.toNode then Some(Reply(resp)) else c.answer);
    s.(data := data, log := s.log + [i], calls := s.calls[i := done])
  }

  /** The follower learns how forwarding went, and answers. */
  function Resolved(s: Run, i: nat, sent: Sent): Run
    requires Waiting(s, i)
  {
    var c := s.calls[i];
    var (f, a) := Forwarded(s.followers[c.node], c.alone, c.req, sent);
    s.(followers := s.followers[c.node := f],
       calls := s.calls[i := c.(waiting := false, toLeader := c.toLeader && sent != NeverSent, answer := Some(a))])
  }

  /** The client writes down what it learned. */
  function Recorded(s: Run, i: nat, reading: int, sent: Sent): Run
    requires i < |s.calls| && (sent == Unclear || InTime(s, i, reading)) && s.granularity > 0
  {
    var c := s.calls[i];
    var done: Int64 := if sent == Unclear then PENDING else Completion(c.invoke, reading, s.granularity);
    s.(calls := s.calls[i := c.(toNode := c.toNode && sent != NeverSent,
                                record := Some(Recording(c.process, c.req, c.invoke, done, sent)))])
  }

  function After(s: Run, step: Step): Run
    requires Enabled(s, step) && s.granularity > 0
  {
    match step
    case Tick => s.(now := s.now + 1)
    case Invoke(process, req, node, reading) =>
      s.(calls := s.calls + [Call(process, req, node, reading, s.now, true, false, false, false, None, None, None)])
    case RefuseClient(i, reading) => Recorded(s, i, reading, Send(s.calls[i].req, ConnectionRefused))
    case Arrive(i) =>
      var c := s.calls[i];
      if c.node !in s.followers then Executed(s, i)
      else s.(calls := s.calls[i := c.(toNode := false, toLeader := true, waiting := true,
                                       alone := s.followers[c.node].promoted)])
    case ArriveForwarded(i) => Executed(s, i)
    case RefuseFollower(i) => Resolved(s, i, Send(s.calls[i].req, ConnectionRefused))
    case HearLeader(i) => Resolved(s, i, Send(s.calls[i].req, Parsed(s.calls[i].effect.value.resp)))
    case MissLeader(i) => Resolved(s, i, Send(s.calls[i].req, Broken))
    case HearNode(i, reading) =>
      var x := match s.calls[i].answer.value case Reply(resp) => Parsed(resp) case Indeterminate => BadStatus;
      Recorded(s, i, reading, Send(s.calls[i].req, x))
    case MissNode(i) => Recorded(s, i, s.now, Send(s.calls[i].req, Broken))
  }

  /** What each way to end a call has the client write down. */
  lemma WhatIsWrittenDown(s: Run, step: Step)
    requires Enabled(s, step) && s.granularity > 0
    ensures step.RefuseClient? ==> var o := After(s, step).calls[step.i].record;
              && o.Some? && o.value.outcome == Fail
              && o.value.complete == Completion(s.calls[step.i].invoke, step.reading, s.granularity)
    ensures step.MissNode? ==> var o := After(s, step).calls[step.i].record;
              o.Some? && o.value.outcome == Info && o.value.complete == PENDING
    ensures step.HearNode? ==> var c, o := s.calls[step.i], After(s, step).calls[step.i].record;
              o.Some? &&
              match c.answer.value
              case Indeterminate => o.value.outcome == Info && o.value.complete == PENDING
              case Reply(resp) =>
                if !WellShaped(c.req, resp) then o.value.outcome == Info && o.value.complete == PENDING
                else
                  && o.value.outcome == (if resp.ok then OK else Fail)
                  && o.value.complete == Completion(c.invoke, step.reading, s.granularity)
                  && (resp.ok ==> Records(o.value, c.req, resp))
  {
  }

  /** What each way to end a forward has a follower answer that stays loyal. */
  lemma WhatALoyalFollowerAnswers(s: Run, step: Step)
    requires Enabled(s, step) && s.granularity > 0
    requires step.RefuseFollower? || step.HearLeader? || step.MissLeader?
    requires !s.calls[step.i].alone && !After(s, step).followers[s.calls[step.i].node].promoted
    ensures var c, a := s.calls[step.i], After(s, step).calls[step.i].answer;
            match step
            case RefuseFollower(_) => a.Some? && a.value.Reply? && !a.value.resp.ok
            case MissLeader(_) => a == Some(Indeterminate)
            case _ =>
              a == Some(if WellShaped(c.req, c.effect.value.resp) then Reply(c.effect.value.resp) else Indeterminate)
  {
    var c := s.calls[step.i];
    var f := s.followers[c.node];
    match step
    case RefuseFollower(_) => LoyalOnlyForwards(f, c.req, ConnectionRefused);
    case MissLeader(_) => LoyalOnlyForwards(f, c.req, Broken);
    case HearLeader(_) => LoyalOnlyForwards(f, c.req, Parsed(c.effect.value.resp));
  }

  /** No follower has promoted itself. */
  ghost predicate AllLoyal(s: Run) {
    forall n :: n in s.followers ==> !s.followers[n].promoted
  }

  /** A run, state by state. */
  ghost predicate IsRun(states: seq<Run>) {
    && |states| > 0
    && states[0].granularity > 0
    && states[0] == Start(states[0].granularity, states[0].followers)
    && forall t :: 0 < t < |states| ==> Follows(states[t - 1], states[t])
  }

  /** The same, with the steps that were taken. */
  ghost predicate Takes(states: seq<Run>, steps: seq<Step>) {
    && |states| == |steps| + 1
    && states[0].granularity > 0
    && states[0] == Start(states[0].granularity, states[0].followers)
    && forall t :: 0 <= t < |steps| ==> Leads(states[t], steps[t], states[t + 1])
  }

  ghost predicate Leads(s: Run, step: Step, s': Run) {
    s.granularity > 0 && Enabled(s, step) && s' == After(s, step)
  }

  ghost predicate Follows(s: Run, s': Run) {
    s.granularity > 0 && exists step :: Enabled(s, step) && s' == After(s, step)
  }

  // ----- What every step keeps

  /** What the traces of one call say about each other. */
  ghost predicate Honest(c: Call, now: int) {
    && 0 <= c.invoke <= c.began <= now && c.invoke < PENDING && !c.alone
    && (c.effect.Some? ==> !c.toNode && !c.toLeader && c.began <= c.effect.value.time <= now)
    && (c.toNode ==> !c.toLeader && !c.waiting && c.answer.None?)
    && (c.waiting ==> c.answer.None?)
    && (c.answer.Some? && c.answer.value.Reply? ==>
          if c.answer.value.resp.ok then c.effect.Some? && c.effect.value.resp == c.answer.value.resp
          else NeverApplied(c))
    && (c.record.Some? ==> Justly(c, c.record.value))
  }

  /** The leader has not seen it and never will. */
  predicate NeverApplied(c: Call) {
    c.effect.None? && !c.toNode && !c.toLeader && !c.waiting
  }

  /** The record says no more than what happened. */
  ghost predicate Justly(c: Call, o: Op) {
    && o.key == c.req.key && o.kind == c.req.kind && o.value == c.req.value && o.from == c.req.from && o.to == c.req.to
    && o.process == c.process && o.invoke == c.invoke
    && match o.outcome
       case Fail => NeverApplied(c) && c.invoke < o.complete < PENDING
       case Info => o.complete == PENDING
       case OK =>
         && c.effect.Some? && Records(o, c.req, c.effect.value.resp)
         && c.effect.value.time < o.complete < PENDING && c.invoke < o.complete
  }

  /** The data after the leader carried out these calls, if its replies were those
      it gave. */
  ghost function Replay(calls: seq<Call>, log: seq<nat>): Option<Data> {
    if log == [] then Some(map[])
    else
      var i := log[|log| - 1];
      match Replay(calls, log[..|log| - 1])
      case None => None
      case Some(d) =>
        if i < |calls| && calls[i].effect.Some? && Perform(d, calls[i].req).1 == calls[i].effect.value.resp
        then Some(Perform(d, calls[i].req).0) else None
  }

  function TimeOf(calls: seq<Call>, i: nat): int {
    if i < |calls| && calls[i].effect.Some? then calls[i].effect.value.time else 0
  }

  /** The log holds each call with an effect once, in the order of the effects. */
  ghost predicate InOrder(s: Run) {
    && (forall i :: i in s.log ==> i < |s.calls| && s.calls[i].effect.Some?)
    && (forall i :: 0 <= i < |s.calls| && s.calls[i].effect.Some? ==> i in s.log)
    && (forall x, y :: 0 <= x < y < |s.log| ==>
          s.log[x] != s.log[y] && TimeOf(s.calls, s.log[x]) <= TimeOf(s.calls, s.log[y]))
  }

  ghost predicate Inv(s: Run) {
    && s.granularity > 0
    && (forall i :: 0 <= i < |s.calls| ==> Honest(s.calls[i], s.now))
    && InOrder(s)
    && Replay(s.calls, s.log) == Some(s.data)
  }

  lemma {:induction false} ReplaySame(a: seq<Call>, b: seq<Call>, log: seq<nat>)
    requires |a| <= |b|
    requires forall i :: i in log ==> i < |a| && a[i].req == b[i].req && a[i].effect == b[i].effect
    ensures Replay(a, log) == Replay(b, log)
  {
    if log == [] {
    } else {
      var n := |log| - 1;
      assert log[n] in log && forall i :: i in log[..n] ==> i in log;
      ReplaySame(a, b, log[..n]);
    }
  }

  lemma ReplayOneMore(calls: seq<Call>, log: seq<nat>, i: nat)
    requires Replay(calls, log).Some? && i < |calls|
    requires calls[i].effect.Some? && Perform(Replay(calls, log).value, calls[i].req).1 == calls[i].effect.value.resp
    ensures Replay(calls, log + [i]) == Some(Perform(Replay(calls, log).value, calls[i].req).0)
  {
    assert (log + [i])[..|log|] == log;
  }

  /** A step that changes one call, and neither its request nor its effect. */
  lemma ChangeOne(s: Run, s': Run, i: nat)
    requires Inv(s) && i < |s.calls| && s' == s.(calls := s'.calls, followers := s'.followers)
    requires |s'.calls| == |s.calls| && s'.calls == s.calls[i := s'.calls[i]]
    requires s'.calls[i].req == s.calls[i].req && s'.calls[i].effect == s.calls[i].effect
    requires Honest(s'.calls[i], s.now)
    ensures Inv(s')
  {
    hide Honest, Replay;
    ReplaySame(s.calls, s'.calls, s.log);
  }

  lemma ExecuteKeeps(s: Run, i: nat)
    requires Inv(s) && i < |s.calls| && (s.calls[i].toNode || s.calls[i].toLeader)
    ensures Inv(Executed(s, i))
  {
    hide *;
    var s' := Executed(s, i);
    ExecutedIs(s, i);
    ReplaySame(s.calls, s'.calls, s.log);
    ReplayOneMore(s'.calls, s.log, i);
    Appended(s, s', i);
    Assembled(s');
  }

  lemma Assembled(s: Run)
    requires s.granularity > 0 && InOrder(s) && Replay(s.calls, s.log) == Some(s.data)
    requires forall i :: 0 <= i < |s.calls| ==> Honest(s.calls[i], s.now)
    ensures Inv(s)
  {
  }

  lemma ExecutedCall(s: Run, i: nat)
    requires i < |s.calls| && Honest(s.calls[i], s.now) && (s.calls[i].toNode || s.calls[i].toLeader)
    ensures s.calls[i].effect.None?
    ensures Honest(Executed(s, i).calls[i], s.now)
  {
    assert Perform(s.data, s.calls[i].req).1.ok;
    hide Perform;
  }

  lemma ExecutedIs(s: Run, i: nat)
    requires Inv(s) && i < |s.calls| && (s.calls[i].toNode || s.calls[i].toLeader)
    ensures var s', resp := Executed(s, i), Perform(s.data, s.calls[i].req).1;
            && |s'.calls| == |s.calls| && s'.log == s.log + [i] && s'.granularity == s.granularity > 0
            && s'.data == Perform(s.data, s.calls[i].req).0
            && i !in s.log && InOrder(s) && Replay(s.calls, s.log) == Some(s.data)
            && (forall j :: 0 <= j < |s.calls| && j != i ==> s'.calls[j] == s.calls[j])
            && s'.calls[i].req == s.calls[i].req && s'.calls[i].effect == Some(Effect(s.now, resp))
            && (forall j :: 0 <= j < |s.calls| ==> Honest(s'.calls[j], s'.now))
            && (forall j :: 0 <= j < |s.calls| && s.calls[j].effect.Some? ==> s.calls[j].effect.value.time <= s.now)
            && (forall j :: j in s.log ==> j < |s.calls| && s'.calls[j] == s.calls[j])
  {
    hide Perform, Replay;
    ExecutedCall(s, i);
    assert forall j :: 0 <= j < |s.calls| ==> Honest(s.calls[j], s.now);
  }

  lemma Appended(s: Run, s': Run, i: nat)
    requires i < |s.calls| == |s'.calls| && i !in s.log && s'.log == s.log + [i] && InOrder(s)
    requires forall j :: 0 <= j < |s.calls| && j != i ==> s'.calls[j] == s.calls[j]
    requires s'.calls[i].effect.Some?
    requires forall j :: 0 <= j < |s.calls| && s.calls[j].effect.Some? ==>
                s.calls[j].effect.value.time <= s'.calls[i].effect.value.time
    ensures InOrder(s')
  {
    forall j ensures j in s'.log <==> j in s.log || j == i {
    }
    forall x, y | 0 <= x < y < |s'.log|
      ensures s'.log[x] != s'.log[y]
      ensures TimeOf(s'.calls, s'.log[x]) <= TimeOf(s'.calls, s'.log[y])
    {
      assert s'.log[x] == s.log[x] && s.log[x] in s.log;
      if y < |s.log| { assert s'.log[y] == s.log[y] && s.log[y] in s.log; }
    }
  }

  lemma ResolveKeeps(s: Run, i: nat, sent: Sent)
    requires Inv(s) && Waiting(s, i)
    requires sent == NeverSent ==> s.calls[i].toLeader
    requires sent.Replied? ==> s.calls[i].effect.Some? && sent.resp == s.calls[i].effect.value.resp && sent.resp.ok
    requires AllLoyal(Resolved(s, i, sent))
    ensures Inv(Resolved(s, i, sent))
  {
    var s', c := Resolved(s, i, sent), s.calls[i];
    var f := s'.followers[c.node];
    assert !f.promoted;
    assert Honest(c, s.now);
    LoyalOnlyPassesOn(s.followers[c.node], c.req, sent);
    hide Forwarded;
    assert Honest(s'.calls[i], s.now);
    ChangeOne(s, s', i);
  }

  lemma RecordKeeps(s: Run, i: nat, reading: int, sent: Sent)
    requires Inv(s) && Open(s, i) && (sent == Unclear || InTime(s, i, reading))
    requires sent == NeverSent ==> s.calls[i].toNode
    requires sent.Replied? ==> s.calls[i].answer == Some(Reply(sent.resp))
    ensures Inv(Recorded(s, i, reading, sent))
  {
    var s', c := Recorded(s, i, reading, sent), s.calls[i];
    assert Honest(c, s.now);
    if sent != Unclear {
      CompletionIsSafe(c.invoke, reading, s.granularity);
      assert MayEndAt(c.invoke, reading, s.granularity, s.now);
    }
    assert Justly(s'.calls[i], s'.calls[i].record.value);
    ChangeOne(s, s', i);
  }

  lemma RepliesAreOk(s: Run, i: nat)
    requires Inv(s) && i < |s.calls| && s.calls[i].effect.Some?
    ensures s.calls[i].effect.value.resp.ok
  {
    assert i in s.log;
    var x :| 0 <= x < |s.log| && s.log[x] == i;
    LoggedIsOk(s.calls, s.log, x);
  }

  lemma {:induction false} LoggedIsOk(calls: seq<Call>, log: seq<nat>, x: nat)
    requires Replay(calls, log).Some? && x < |log|
    ensures log[x] < |calls| && calls[log[x]].effect.Some? && calls[log[x]].effect.value.resp.ok
  {
    if x >= |log| - 1 {
    } else {
      LoggedIsOk(calls, log[..|log| - 1], x);
    }
  }

  lemma StepKeeps(s: Run, step: Step)
    requires Inv(s) && Enabled(s, step) && AllLoyal(s) && AllLoyal(After(s, step))
    ensures Inv(After(s, step))
  {
    match step
    case Tick => TickKeeps(s);
    case Invoke(process, req, node, reading) => InvokeKeeps(s, step);
    case RefuseClient(i, reading) => RecordKeeps(s, i, reading, NeverSent);
    case Arrive(i) =>
      if s.calls[i].node !in s.followers {
        ExecuteKeeps(s, i);
      } else {
        var s' := After(s, step);
        assert Honest(s.calls[i], s.now);
        ChangeOne(s, s', i);
      }
    case ArriveForwarded(i) => ExecuteKeeps(s, i);
    case RefuseFollower(i) => ResolveKeeps(s, i, NeverSent);
    case HearLeader(i) =>
      RepliesAreOk(s, i);
      ResolveKeeps(s, i, Send(s.calls[i].req, Parsed(s.calls[i].effect.value.resp)));
    case MissLeader(i) => ResolveKeeps(s, i, Unclear);
    case HearNode(i, reading) =>
      var x := match s.calls[i].answer.value case Reply(resp) => Parsed(resp) case Indeterminate => BadStatus;
      RecordKeeps(s, i, reading, Send(s.calls[i].req, x));
    case MissNode(i) => RecordKeeps(s, i, s.now, Unclear);
  }

  lemma TickKeeps(s: Run)
    requires Inv(s)
    ensures Inv(s.(now := s.now + 1))
  {
    hide Replay;
  }

  lemma InvokeKeeps(s: Run, step: Step)
    requires Inv(s) && step.Invoke? && Enabled(s, step)
    ensures Inv(After(s, step))
  {
    var s' := After(s, step);
    hide Replay;
    assert Honest(s'.calls[|s.calls|], s.now);
    ReplaySame(s.calls, s'.calls, s.log);
  }

  lemma LastStep(states: seq<Run>, t: nat) returns (step: Step)
    requires IsRun(states) && 0 < t < |states|
    ensures states[t - 1].granularity > 0 && Enabled(states[t - 1], step)
    ensures states[t] == After(states[t - 1], step)
  {
    assert Follows(states[t - 1], states[t]);
    hide After, Enabled;
    step :| Enabled(states[t - 1], step) && states[t] == After(states[t - 1], step);
  }

  lemma StartIsFine(states: seq<Run>)
    requires IsRun(states)
    ensures |states| > 0 && Inv(states[0])
  {
    hide Follows;
  }

  /** In a run in which no follower promotes itself, every state is as it should be. */
  lemma {:induction false} RunKeeps(states: seq<Run>, t: nat)
    requires IsRun(states) && t < |states| && forall u :: 0 <= u < |states| ==> AllLoyal(states[u])
    ensures Inv(states[t])
  {
    hide *;
    StartIsFine(states);
    if t > 0 {
      RunKeeps(states, t - 1);
      var step := LastStep(states, t);
      StepKeeps(states[t - 1], step);
    }
  }

  lemma TakesLength(states: seq<Run>, steps: seq<Step>)
    requires Takes(states, steps)
    ensures |states| == |steps| + 1
  {
  }

  lemma StepAt(states: seq<Run>, steps: seq<Step>, t: nat)
    requires Takes(states, steps) && t < |steps|
    ensures states[t].granularity > 0 && Enabled(states[t], steps[t]) && states[t + 1] == After(states[t], steps[t])
  {
    assert Leads(states[t], steps[t], states[t + 1]);
    hide After, Enabled;
  }

  lemma TakesIsRun(states: seq<Run>, steps: seq<Step>)
    requires Takes(states, steps)
    ensures IsRun(states)
  {
    hide After, Enabled;
    forall t | 0 < t < |states| ensures Follows(states[t - 1], states[t]) {
      StepAt(states, steps, t - 1);
    }
  }

  // ----- What a follower is told

  /** What forwarding requests showed follower `n` in this step. */
  function Told(s: Run, step: Step, n: int): (r: seq<(bool, Request, Sent)>)
    ensures |r| <= 1
  {
    match step
    case RefuseFollower(i) =>
      if i < |s.calls| && s.calls[i].node == n
      then [(s.calls[i].alone, s.calls[i].req, Send(s.calls[i].req, ConnectionRefused))] else []
    case HearLeader(i) =>
      if i < |s.calls| && s.calls[i].node == n && s.calls[i].effect.Some?
      then [(s.calls[i].alone, s.calls[i].req, Send(s.calls[i].req, Parsed(s.calls[i].effect.value.resp)))] else []
    case MissLeader(i) =>
      if i < |s.calls| && s.calls[i].node == n
      then [(s.calls[i].alone, s.calls[i].req, Send(s.calls[i].req, Broken))] else []
    case _ => []
  }

  /** And in the first t steps of a run. */
  function LogOf(states: seq<Run>, steps: seq<Step>, n: int, t: nat): (r: seq<(bool, Request, Sent)>)
    requires t <= |steps| <= |states|
    ensures |r| <= t
  {
    if t == 0 then [] else LogOf(states, steps, n, t - 1) + Told(states[t - 1], steps[t - 1], n)
  }

  lemma OneStepTold(s: Run, step: Step, n: int)
    requires s.granularity > 0 && Enabled(s, step)
    ensures n in After(s, step).followers <==> n in s.followers
    ensures n in s.followers ==>
              After(s, step).followers[n] ==
              (if Told(s, step, n) == [] then s.followers[n]
               else Forwarded(s.followers[n], Told(s, step, n)[0].0, Told(s, step, n)[0].1, Told(s, step, n)[0].2).0)
  {
    hide Perform, Recording, Forwarded, Send;
  }

  lemma AfterOneMore(f: Follower, log: seq<(bool, Request, Sent)>, told: seq<(bool, Request, Sent)>)
    requires |told| <= 1
    ensures AfterAll(f, log + told) ==
            if told == [] then AfterAll(f, log)
            else Forwarded(AfterAll(f, log), told[0].0, told[0].1, told[0].2).0
  {
    if told == [] {
      assert log + told == log;
    } else {
      assert (log + told)[..|log|] == log;
    }
  }

  /** A follower is what it was told made of it, and nothing else changes it. */
  lemma {:induction false} FollowerIsItsLog(states: seq<Run>, steps: seq<Step>, n: int, t: nat)
    requires Takes(states, steps) && t <= |steps|
    ensures n in states[t].followers <==> n in states[0].followers
    ensures n in states[0].followers ==>
              states[t].followers[n] == AfterAll(states[0].followers[n], LogOf(states, steps, n, t))
  {
    hide *;
    TakesLength(states, steps);
    if t == 0 {
      NothingTold(states, steps, n);
    } else {
      FollowerIsItsLog(states, steps, n, t - 1);
      StepAt(states, steps, t - 1);
      OneStepTold(states[t - 1], steps[t - 1], n);
      LogOneMore(states, steps, n, t);
      if n in states[0].followers {
        AfterOneMore(states[0].followers[n], LogOf(states, steps, n, t - 1), Told(states[t - 1], steps[t - 1], n));
      }
    }
  }

  lemma NothingTold(states: seq<Run>, steps: seq<Step>, n: int)
    requires |steps| <= |states|
    ensures forall f: Follower :: AfterAll(f, LogOf(states, steps, n, 0)) == f
  {
  }

  lemma LogOneMore(states: seq<Run>, steps: seq<Step>, n: int, t: nat)
    requires 0 < t <= |steps| <= |states|
    ensures LogOf(states, steps, n, t) == LogOf(states, steps, n, t - 1) + Told(states[t - 1], steps[t - 1], n)
  {
  }

  lemma {:induction false} LogGrows(states: seq<Run>, steps: seq<Step>, n: int, t: nat, u: nat)
    requires t <= u <= |steps| <= |states|
    ensures |LogOf(states, steps, n, t)| <= |LogOf(states, steps, n, u)|
    ensures LogOf(states, steps, n, u)[..|LogOf(states, steps, n, t)|] == LogOf(states, steps, n, t)
    decreases u
  {
    hide *;
    if t == u {
    } else {
      LogGrows(states, steps, n, t, u - 1);
      LogOneMore(states, steps, n, u);
    }
  }

  /** Every length of the log is reached at some moment. */
  lemma {:induction false} LogReaches(states: seq<Run>, steps: seq<Step>, n: int, u: nat, k: nat) returns (t: nat)
    requires u <= |steps| <= |states| && k <= |LogOf(states, steps, n, u)|
    ensures t <= u && |LogOf(states, steps, n, t)| == k
  {
    if k == |LogOf(states, steps, n, u)| {
      t := u;
    } else {
      t := LogReaches(states, steps, n, u - 1, k);
    }
  }
}
