/** Timelines of faults on links, and what is down when. */
module Faults {
  import opened History
  import opened Sorting

  datatype Link = Client(node: nat) | Peer(from: nat, to: nat)

  datatype Fault = Pass | Delay | Drop | Reset | Refuse

  /** One link, or every link of the run. */
  datatype Target = All | One(link: Link)
  {
    predicate Names(l: Link) { All? || link == l }
  }

  datatype Event = Event(at: int, target: Target, fault: Fault, delay: int)

  // ----- Accepting a timeline

  predicate Acceptable(links: seq<Link>, d: int, e: Event) {
    && (e.target.One? ==> e.target.link in links)
    && 0 <= e.at <= d
    && e.delay >= 0
  }

  function Earlier(): (Event, Event) -> bool { (a: Event, b: Event) => a.at <= b.at }

  /** A schedule, if every event names a known link and lies within the run: the
      events sorted by time, those of one moment in the order they were given. */
  method NewSchedule(links: seq<Link>, d: int, events: seq<Event>) returns (s: Option<seq<Event>>)
    ensures s.Some? <==> d >= 0 && forall e :: e in events ==> Acceptable(links, d, e)
    ensures s.Some? <==> d >= 0 && forall i :: 0 <= i < |events| ==>
              && (events[i].target == All || exists l :: l in links && events[i].target == One(l))
              && 0 <= events[i].at <= d && events[i].delay >= 0
    ensures s.Some? ==> s.value == Sort(Earlier(), events) && SortedBy(Earlier(), s.value)
    ensures s.Some? && SortedBy(Earlier(), events) ==> s.value == events
  {
    if d < 0 {
      return None;
    }
    for i := 0 to |events|
      invariant forall j :: 0 <= j < i ==> Acceptable(links, d, events[j])
    {
      var e := events[i];
      assert e in events;
      if e.target != All && e.target.link !in links {
        return None;
      }
      if e.at < 0 || e.at > d {
        return None;
      }
      if e.delay < 0 {
        return None;
      }
    }
    SortSorts(Earlier(), events);
    if SortedBy(Earlier(), events) { SortedStays(Earlier(), events); }
    return Some(Sort(Earlier(), events));
  }

  /** What happens at one moment happens in the order in which it was given. */
  lemma MomentsAreKept(events: seq<Event>, at: int)
    ensures var now := (e: Event) => e.at == at;
            Filter(now, Sort(Earlier(), events)) == Filter(now, events)
  {
    SortKeepsTies(Earlier(), events, (e: Event) => e.at == at);
  }

  // ----- Replaying a timeline

  /** The fault in force on a link at a moment: that of the last event by then which
      names it. */
  function FaultAt(events: seq<Event>, l: Link, now: int): Fault {
    if events == [] then Pass
    else
      var e := events[|events| - 1];
      if e.at <= now && e.target.Names(l) then e.fault else FaultAt(events[..|events| - 1], l, now)
  }

  /** One event at the same moment for each of these targets. */
  function Batch(at: int, targets: seq<Target>, fault: Fault, delay: int): (r: seq<Event>)
    ensures |r| == |targets|
    ensures forall i :: 0 <= i < |r| ==> r[i] == Event(at, targets[i], fault, delay)
  {
    seq(|targets|, i requires 0 <= i < |targets| => Event(at, targets[i], fault, delay))
  }

  ghost predicate Hits(targets: seq<Target>, l: Link) {
    exists x :: x in targets && x.Names(l)
  }

  lemma {:induction false} AfterBatch(before: seq<Event>, at: int, targets: seq<Target>, fault: Fault,
                                      delay: int, l: Link, now: int)
    ensures FaultAt(before + Batch(at, targets, fault, delay), l, now) ==
            if at <= now && Hits(targets, l) then fault else FaultAt(before, l, now)
    decreases |targets|
  {
    var all := before + Batch(at, targets, fault, delay);
    if targets == [] {
      assert all == before;
    } else {
      var n := |targets| - 1;
      assert Batch(at, targets, fault, delay) ==
             Batch(at, targets[..n], fault, delay) + [Event(at, targets[n], fault, delay)];
      assert all[..|all| - 1] == before + Batch(at, targets[..n], fault, delay);
      AfterBatch(before, at, targets[..n], fault, delay, l, now);
      HitsOneMore(targets, l);
    }
  }

  lemma HitsOneMore(targets: seq<Target>, l: Link)
    requires targets != []
    ensures Hits(targets, l) <==> Hits(targets[..|targets| - 1], l) || targets[|targets| - 1].Names(l)
  {
    var n := |targets| - 1;
    assert targets == targets[..n] + [targets[n]];
    if Hits(targets, l) {
      var x :| x in targets && x.Names(l);
      assert x in targets[..n] || x == targets[n];
    }
    if Hits(targets[..n], l) {
      var x :| x in targets[..n] && x.Names(l);
      assert x in targets;
    }
    assert targets[n] in targets;
  }

  // ----- Phases: a fault and its cure

  /** From `start` the targets `hit` suffer the fault; at `end` those of `cure` pass again. */
  datatype Phase = Phase(start: int, end: int, hit: seq<Target>, fault: Fault, delay: int, cure: seq<Target>)
  {
    function Events(): seq<Event> {
      Batch(start, hit, fault, delay) + Batch(end, cure, Pass, 0)
    }

    predicate Under(now: int) { start <= now < end }

    ghost predicate Cures() {
      start <= end && forall l :: Hits(hit, l) ==> Hits(cure, l)
    }
  }

  function Flatten(phases: seq<Phase>): seq<Event> {
    if phases == [] then [] else Flatten(phases[..|phases| - 1]) + phases[|phases| - 1].Events()
  }

  /** Every fault is cured, and cured before the next one strikes. */
  ghost predicate OneAtATime(phases: seq<Phase>) {
    && (forall i :: 0 <= i < |phases| ==> phases[i].Cures())
    && (forall i, j :: 0 <= i < j < |phases| ==> phases[i].end <= phases[j].start)
  }

  ghost predicate Down(phases: seq<Phase>, l: Link, now: int, i: nat) {
    i < |phases| && phases[i].Under(now) && Hits(phases[i].hit, l)
  }

  lemma AfterPhase(before: seq<Event>, p: Phase, l: Link, now: int)
    requires p.Cures()
    ensures FaultAt(before + p.Events(), l, now) ==
            if p.Under(now) && Hits(p.hit, l) then p.fault
            else if p.end <= now && Hits(p.cure, l) then Pass
            else FaultAt(before, l, now)
  {
    hide FaultAt, Hits;
    var struck := before + Batch(p.start, p.hit, p.fault, p.delay);
    assert before + p.Events() == struck + Batch(p.end, p.cure, Pass, 0);
    AfterBatch(before, p.start, p.hit, p.fault, p.delay, l, now);
    AfterBatch(struck, p.end, p.cure, Pass, 0, l, now);
  }

  lemma LastPhase(phases: seq<Phase>, l: Link, now: int)
    requires phases != [] && OneAtATime(phases)
    ensures var n := |phases| - 1; var rest, p := phases[..n], phases[n];
            && OneAtATime(rest) && p.Cures() && Flatten(phases) == Flatten(rest) + p.Events()
            && (Down(phases, l, now, n) <==> p.Under(now) && Hits(p.hit, l))
            && (forall i: nat :: i != n ==> (Down(phases, l, now, i) <==> Down(rest, l, now, i)))
            && (forall i: nat :: Down(rest, l, now, i) ==> i < n && rest[i] == phases[i])
            && (p.start <= now ==> forall i: nat :: !Down(rest, l, now, i))
  {
    hide Hits, Flatten, Phase.Events;
    var n := |phases| - 1;
    assert forall i :: 0 <= i < n ==> phases[i].end <= phases[n].start;
    FlattenSnoc(phases);
  }

  lemma FlattenSnoc(phases: seq<Phase>)
    requires phases != []
    ensures Flatten(phases) == Flatten(phases[..|phases| - 1]) + phases[|phases| - 1].Events()
  {
  }

  /** At every moment a link suffers the fault of the phase under way, if that phase
      hits it, and otherwise none at all. */
  lemma {:induction false} OnlyThePhaseUnderWay(phases: seq<Phase>, l: Link, now: int)
    requires OneAtATime(phases)
    ensures forall i: nat :: Down(phases, l, now, i) ==>
                i < |phases| && FaultAt(Flatten(phases), l, now) == phases[i].fault
    ensures (forall i: nat :: !Down(phases, l, now, i)) ==> FaultAt(Flatten(phases), l, now) == Pass
    decreases |phases|
  {
    if phases == [] {
    } else {
      hide *;
      var n := |phases| - 1;
      LastPhase(phases, l, now);
      OnlyThePhaseUnderWay(phases[..n], l, now);
      AfterPhase(Flatten(phases[..n]), phases[n], l, now);
      CuredIfHit(phases[n], l, now);
    }
  }

  lemma CuredIfHit(p: Phase, l: Link, now: int)
    requires p.Cures()
    ensures Hits(p.hit, l) ==> Hits(p.cure, l)
    ensures p.Under(now) || p.end <= now ==> p.start <= now
  {
  }

  /** From the last cure on, every link passes. */
  lemma EndsWhole(phases: seq<Phase>, l: Link, now: int)
    requires OneAtATime(phases) && forall i :: 0 <= i < |phases| ==> phases[i].end <= now
    ensures FaultAt(Flatten(phases), l, now) == Pass
  {
    OnlyThePhaseUnderWay(phases, l, now);
  }

  // ----- How phases follow each other

  /** What is drawn from `lo` up to but not including `hi`, or `lo` if there is nothing else. */
  predicate Drawn(x: int, lo: int, hi: int) { lo <= x && (x < hi || x == lo) }

  /** Phases as long as `holds` allows, each that long after the one before, or after
      `from`, as `waits` allows. */
  ghost predicate Spaced(phases: seq<Phase>, from: int, waits: (nat, int) -> bool, holds: Phase -> bool) {
    forall i :: 0 <= i < |phases| ==> holds(phases[i]) && waits(i, phases[i].start - EndBefore(phases, i, from))
  }

  /** When the phase before phase i ended. */
  function EndBefore(phases: seq<Phase>, i: nat, from: int): int
    requires i <= |phases|
  {
    if i == 0 then from else phases[i - 1].end
  }

  lemma SpacedSnoc(phases: seq<Phase>, from: int, waits: (nat, int) -> bool, holds: Phase -> bool, p: Phase)
    requires Spaced(phases, from, waits, holds)
    requires holds(p) && waits(|phases|, p.start - EndBefore(phases, |phases|, from))
    ensures Spaced(phases + [p], from, waits, holds)
    ensures EndBefore(phases + [p], |phases| + 1, from) == p.end
  {
    hide EndBefore;
    var all := phases + [p];
    EndBeforeSnoc(phases, p, from);
    forall i | 0 <= i < |all|
      ensures holds(all[i]) && waits(i, all[i].start - EndBefore(all, i, from))
    {
      if i < |phases| { assert all[i] == phases[i]; }
    }
  }

  lemma EndBeforeSnoc(phases: seq<Phase>, p: Phase, from: int)
    ensures forall i :: 0 <= i <= |phases| ==> EndBefore(phases + [p], i, from) == EndBefore(phases, i, from)
    ensures EndBefore(phases + [p], |phases| + 1, from) == p.end
  {
  }

  /** Every phase lies in this stretch of time, and hits and cures only these links. */
  ghost predicate Confined(phases: seq<Phase>, links: seq<Link>, from: int, to: int) {
    forall i :: 0 <= i < |phases| ==>
      && from <= phases[i].start && phases[i].end <= to && phases[i].delay >= 0
      && Known(phases[i].hit, links) && Known(phases[i].cure, links)
  }

  ghost predicate Known(targets: seq<Target>, links: seq<Link>) {
    forall x :: x in targets && x.One? ==> x.link in links
  }

  lemma SortedAppend(a: seq<Event>, b: seq<Event>)
    requires SortedBy(Earlier(), a) && SortedBy(Earlier(), b)
    requires forall i, j :: 0 <= i < |a| && 0 <= j < |b| ==> a[i].at <= b[j].at
    ensures SortedBy(Earlier(), a + b)
  {
  }

  lemma BatchIsAcceptable(at: int, targets: seq<Target>, fault: Fault, delay: int, links: seq<Link>, d: int)
    requires Known(targets, links) && 0 <= at <= d && delay >= 0
    ensures forall e :: e in Batch(at, targets, fault, delay) ==> Acceptable(links, d, e) && e.at == at
    ensures SortedBy(Earlier(), Batch(at, targets, fault, delay))
  {
    var batch := Batch(at, targets, fault, delay);
    forall e | e in batch ensures Acceptable(links, d, e) && e.at == at {
      var i :| 0 <= i < |batch| && batch[i] == e;
      assert targets[i] in targets;
    }
  }

  lemma PhaseIsAcceptable(p: Phase, links: seq<Link>, d: int)
    requires Known(p.hit, links) && Known(p.cure, links) && 0 <= p.start <= p.end <= d && p.delay >= 0
    ensures forall e :: e in p.Events() ==> Acceptable(links, d, e) && p.start <= e.at <= p.end
    ensures SortedBy(Earlier(), p.Events())
  {
    hide *;
    BatchIsAcceptable(p.start, p.hit, p.fault, p.delay, links, d);
    BatchIsAcceptable(p.end, p.cure, Pass, 0, links, d);
    JoinInOrder(Batch(p.start, p.hit, p.fault, p.delay), Batch(p.end, p.cure, Pass, 0), links, d, p.start, p.end);
    EventsAre(p);
  }

  lemma EventsAre(p: Phase)
    ensures p.Events() == Batch(p.start, p.hit, p.fault, p.delay) + Batch(p.end, p.cure, Pass, 0)
  {
  }

  /** Such a timeline is in order already, and no schedule ever rejects it. */
  lemma {:induction false} FlattenIsAcceptable(phases: seq<Phase>, links: seq<Link>, from: int, to: int, d: int)
    requires OneAtATime(phases) && Confined(phases, links, from, to) && 0 <= from && to <= d
    ensures SortedBy(Earlier(), Flatten(phases))
    ensures forall e :: e in Flatten(phases) ==>
              Acceptable(links, d, e) && (phases == [] || e.at <= phases[|phases| - 1].end)
  {
    hide *;
    FlattenNothing();
    if phases == [] {
    } else {
      var n := |phases| - 1;
      LastOfMany(phases, links, from, to);
      FlattenIsAcceptable(phases[..n], links, from, to, d);
      PhaseIsAcceptable(phases[n], links, d);
      FlattenSnoc(phases);
      JoinInOrder(Flatten(phases[..n]), phases[n].Events(), links, d, phases[n].start, phases[n].end);
    }
  }

  lemma FlattenNothing()
    ensures Flatten([]) == [] && SortedBy(Earlier(), [])
  {
  }

  lemma LastOfMany(phases: seq<Phase>, links: seq<Link>, from: int, to: int)
    requires phases != [] && OneAtATime(phases) && Confined(phases, links, from, to)
    ensures var n := |phases| - 1;
            && OneAtATime(phases[..n]) && Confined(phases[..n], links, from, to)
            && from <= phases[n].start <= phases[n].end <= to && phases[n].delay >= 0
            && Known(phases[n].hit, links) && Known(phases[n].cure, links)
            && (n > 0 ==> phases[..n][n - 1].end <= phases[n].start)
  {
    hide Known, Hits;
    assert phases[|phases| - 1].Cures();
  }

  lemma JoinInOrder(a: seq<Event>, b: seq<Event>, links: seq<Link>, d: int, start: int, end: int)
    requires start <= end && SortedBy(Earlier(), a) && SortedBy(Earlier(), b)
    requires forall e :: e in a ==> Acceptable(links, d, e) && e.at <= start
    requires forall e :: e in b ==> Acceptable(links, d, e) && start <= e.at <= end
    ensures SortedBy(Earlier(), a + b)
    ensures forall e :: e in a + b ==> Acceptable(links, d, e) && e.at <= end
    ensures forall e :: e in a + b ==> e in a || e in b
  {
    hide Acceptable;
    forall i, j | 0 <= i < |a| && 0 <= j < |b| ensures a[i].at <= b[j].at {
      assert a[i] in a && b[j] in b;
    }
    SortedAppend(a, b);
  }

  lemma OneAtATimeSnoc(phases: seq<Phase>, p: Phase)
    requires OneAtATime(phases) && p.Cures() && forall i :: 0 <= i < |phases| ==> phases[i].end <= p.start
    ensures OneAtATime(phases + [p])
  {
    hide Phase.Cures;
    var all := phases + [p];
    forall i | 0 <= i < |all| ensures all[i].Cures() {
      assert i < |phases| ==> all[i] == phases[i];
    }
    forall i, j | 0 <= i < j < |all| ensures all[i].end <= all[j].start {
      assert all[i] == phases[i];
      if j < |phases| { assert all[j] == phases[j]; } else { assert all[j] == p; }
    }
  }

  lemma ConfinedSnoc(phases: seq<Phase>, p: Phase, links: seq<Link>, from: int, to: int)
    requires Confined(phases, links, from, to)
    requires Known(p.hit, links) && Known(p.cure, links) && from <= p.start && p.end <= to && p.delay >= 0
    ensures Confined(phases + [p], links, from, to)
  {
    hide Known;
  }

  lemma OnePhaseMore(phases: seq<Phase>, p: Phase, links: seq<Link>, from: int, to: int)
    requires OneAtATime(phases) && Confined(phases, links, from, to)
    requires p.Cures() && Known(p.hit, links) && Known(p.cure, links) && from <= p.start && p.end <= to && p.delay >= 0
    requires forall i :: 0 <= i < |phases| ==> phases[i].end <= p.start
    ensures OneAtATime(phases + [p]) && Confined(phases + [p], links, from, to)
    ensures Flatten(phases + [p]) == Flatten(phases) + p.Events()
  {
    hide *;
    OneAtATimeSnoc(phases, p);
    ConfinedSnoc(phases, p, links, from, to);
    FlattenSnoc(phases + [p]);
    assert (phases + [p])[..|phases|] == phases;
  }

  lemma EventsOf(before: seq<Event>, p: Phase)
    ensures before + Batch(p.start, p.hit, p.fault, p.delay) + Batch(p.end, p.cure, Pass, 0) == before + p.Events()
  {
  }

  lemma FaultDuring(phases: seq<Phase>, i: nat, l: Link, now: int)
    requires OneAtATime(phases) && i < |phases| && phases[i].Under(now)
    ensures FaultAt(Flatten(phases), l, now) == if Hits(phases[i].hit, l) then phases[i].fault else Pass
  {
    hide FaultAt, Flatten, Hits;
    OnlyThePhaseUnderWay(phases, l, now);
    if Hits(phases[i].hit, l) {
      assert Down(phases, l, now, i);
    } else {
      forall j: nat ensures !Down(phases, l, now, j) {
        assert j < i ==> phases[j].end <= phases[i].start;
        assert i < j < |phases| ==> phases[i].end <= phases[j].start;
      }
    }
  }

  // ----- Random draws

  const MILLISECOND := 1_000_000

  lemma MillisecondIs()
    ensures MILLISECOND == 1_000_000
  {
  }

  /** Numbers out of an arbitrary stream. */
  class Rng {
    const numbers: nat -> nat
    var at: nat

    constructor (numbers: nat -> nat)
      ensures this.numbers == numbers && at == 0
    {
      this.numbers, at := numbers, 0;
    }

    /** A number below n. */
    method IntN(n: int) returns (r: int)
      requires n > 0
      modifies this
      ensures 0 <= r < n
      ensures r == numbers(old(at)) % n && at == old(at) + 1
    {
      r := numbers(at) % n;
      at := at + 1;
    }

    /** Those of the numbers below n for which the coin comes up one. */
    function Chosen(from: nat, n: nat): (s: seq<nat>)
      ensures |s| <= n
      ensures forall i :: 0 <= i < |s| ==> s[i] < n
      ensures forall i, j :: 0 <= i < j < |s| ==> s[i] < s[j]
    {
      if n == 0 then []
      else Chosen(from, n - 1) + (if numbers(from + n - 1) % 2 == 1 then [n - 1] else [])
    }

    /** Wherever one starts tossing, some round chooses neither none nor all. Any
        stream of fair coins does so with probability one. */
    ghost predicate Fair(n: nat) {
      forall from: nat :: Ends(from, n)
    }

    ghost predicate Ends(from: nat, n: nat) {
      exists rounds: nat :: Succeeds(from, rounds, n)
    }

    ghost predicate Succeeds(from: nat, rounds: nat, n: nat) {
      IsProperSubset(Chosen(After(from, rounds, n), n), n)
    }

    /** Where the stream stands after so many rounds of n coins. */
    function After(from: nat, rounds: nat, n: nat): nat
      decreases rounds
    {
      if rounds == 0 then from else After(from + n, rounds - 1, n)
    }

    /** Tossing heads and tails in turn never needs a second round. */
    lemma AlternatingIsFair(n: nat)
      requires n >= 2 && forall k :: numbers(k) == k
      ensures Fair(n)
    {
      forall from: nat ensures Ends(from, n) {
        SomeButNotAll(from, n);
        assert Succeeds(from, 0, n);
      }
    }

    lemma {:induction false} SomeButNotAll(from: nat, n: nat)
      requires n >= 2 && forall k :: numbers(k) == k
      ensures 0 < |Chosen(from, n)| < n
    {
      if n == 2 {
        assert Chosen(from, 1) == if from % 2 == 1 then [0] else [];
      } else {
        SomeButNotAll(from, n - 1);
      }
    }

    /** Tails for ever never ends. */
    lemma ConstantIsNotFair(n: nat)
      requires n >= 2 && forall k :: numbers(k) == 0
      ensures !Fair(n)
    {
      forall rounds: nat ensures !Succeeds(0, rounds, n) {
        NothingChosen(After(0, rounds, n), n);
      }
      assert !Ends(0, n);
    }

    lemma {:induction false} NothingChosen(from: nat, n: nat)
      requires forall k :: numbers(k) == 0
      ensures Chosen(from, n) == []
    {
      if n == 0 {
      } else {
        NothingChosen(from, n - 1);
      }
    }

    /** One round: tosses a coin for each of the numbers below n. */
    method Toss(n: nat) returns (s: seq<nat>)
      modifies this
      ensures s == Chosen(old(at), n) && at == old(at) + n
    {
      ghost var from := at;
      s := [];
      for i := 0 to n
        invariant at == from + i && s == Chosen(from, i)
      {
        var coin := IntN(2);
        if coin == 1 {
          s := s + [i];
        }
      }
    }

    /** This many rounds failed, and the next does not. */
    ghost predicate FirstSuccess(from: nat, rounds: nat, n: nat) {
      Succeeds(from, rounds, n) && forall r: nat :: r < rounds ==> !Succeeds(from, r, n)
    }

    /** Some but not all of the numbers below n: tosses until the outcome is neither none
        nor all. */
    method ProperSubset(n: nat) returns (s: seq<nat>, ghost rounds: nat)
      requires n >= 2 && Fair(n)
      modifies this
      ensures IsProperSubset(s, n)
      ensures FirstSuccess(old(at), rounds, n)
      ensures s == Chosen(After(old(at), rounds, n), n) && at == After(old(at), rounds + 1, n)
    {
      hide *;
      ghost var from := at;
      ghost var left := RoundsFrom(at, n);
      rounds := 0;
      NoRounds(from, n);
      while true
        invariant Succeeds(at, left, n)
        invariant at == After(from, rounds, n)
        invariant forall r: nat :: r < rounds ==> !Succeeds(from, r, n)
        decreases left
      {
        RoundFails(at, left, n);
        OneRoundMore(from, rounds, n);
        s := Toss(n);
        if 0 < |s| < n {
          ThisRound(from, rounds, n);
          return;
        }
        rounds, left := rounds + 1, left - 1;
      }
    }

    lemma NoRounds(from: nat, n: nat)
      ensures After(from, 0, n) == from
    {
    }

    lemma {:induction false} OneRoundMore(from: nat, rounds: nat, n: nat)
      ensures After(from, rounds + 1, n) == After(from, rounds, n) + n
      ensures Succeeds(from, rounds, n) ==> 0 < |Chosen(After(from, rounds, n), n)| < n
      decreases rounds
    {
      if rounds == 0 {
        assert After(from, 1, n) == After(from + n, 0, n);
      } else {
        OneRoundMore(from + n, rounds - 1, n);
      }
    }

    lemma ThisRound(from: nat, rounds: nat, n: nat)
      requires 0 < |Chosen(After(from, rounds, n), n)| < n
      requires forall r: nat :: r < rounds ==> !Succeeds(from, r, n)
      ensures FirstSuccess(from, rounds, n)
    {
    }

    lemma RoundsFrom(from: nat, n: nat) returns (rounds: nat)
      requires Fair(n)
      ensures Succeeds(from, rounds, n)
    {
      hide Succeeds;
      assert Ends(from, n);
      rounds :| Succeeds(from, rounds, n);
    }

    /** Either this round succeeds, or one of the rest does. */
    lemma RoundFails(from: nat, rounds: nat, n: nat)
      requires Succeeds(from, rounds, n)
      ensures if 0 < |Chosen(from, n)| < n then IsProperSubset(Chosen(from, n), n)
              else rounds > 0 && Succeeds(from + n, rounds - 1, n)
    {
      hide Chosen;
    }
  }

  /** In ascending order, at least one and not all of the numbers below n. */
  ghost predicate IsProperSubset(s: seq<nat>, n: nat) {
    && 0 < |s| < n
    && (forall i :: 0 <= i < |s| ==> s[i] < n)
    && (forall i, j :: 0 <= i < j < |s| ==> s[i] < s[j])
  }

  lemma SomeoneIsLeft(s: seq<nat>, n: nat) returns (x: nat)
    requires IsProperSubset(s, n)
    ensures x < n && x !in s
  {
    x := 0;
    while x < |s| && s[x] == x
      invariant x <= |s| && forall i :: 0 <= i < x ==> s[i] == i
    {
      x := x + 1;
    }
    if x in s {
      var i :| 0 <= i < |s| && s[i] == x;
      if x < |s| { AtLeast(s, n, x); }
    }
  }

  lemma {:induction false} AtLeast(s: seq<nat>, n: nat, i: nat)
    requires IsProperSubset(s, n) && i < |s|
    ensures s[i] >= i
  {
    if i == 0 {
    } else {
      AtLeast(s, n, i - 1);
      assert s[i - 1] < s[i];
    }
  }
}
