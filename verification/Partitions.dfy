/** Partitions of the nodes: every cut splits the cluster in two, both halves keep a
    client, and every cut is healed before the next. */
module Partitions {
  import opened History
  import opened Sorting
  import opened Faults

  /** A link in front of each node, and one for each of these ordered pairs of nodes. */
  datatype Topology = Topology(nodes: nat, peer: seq<(nat, nat)>)
  {
    predicate Valid() {
      forall p :: p in peer ==> p.0 < nodes && p.1 < nodes && p.0 != p.1
    }

    function Links(): seq<Link> {
      seq(nodes, i requires 0 <= i < nodes => Client(i)) +
      seq(|peer|, i requires 0 <= i < |peer| => Peer(peer[i].0, peer[i].1))
    }

    /** All of them, each by name. */
    function Everything(): (r: seq<Target>)
      ensures |r| == |Links()| && forall i :: 0 <= i < |r| ==> r[i] == One(Links()[i])
    {
      seq(|Links()|, i requires 0 <= i < |Links()| => One(Links()[i]))
    }
  }

  /** The peer links with one end on either side. */
  function Crossing(peer: seq<(nat, nat)>, isolated: seq<nat>): (r: seq<Target>)
    ensures forall x :: x in r <==>
                exists p :: p in peer && (p.0 in isolated) != (p.1 in isolated) && x == One(Peer(p.0, p.1))
  {
    if peer == [] then []
    else
      var n := |peer| - 1;
      var p := peer[n];
      assert peer == peer[..n] + [p];
      var r := Crossing(peer[..n], isolated) +
               (if (p.0 in isolated) != (p.1 in isolated) then [One(Peer(p.0, p.1))] else []);
      assert forall q :: q in peer <==> q in peer[..n] || q == p;
      r
  }

  lemma LinksAre(t: Topology)
    ensures forall i: nat :: Client(i) in t.Links() <==> i < t.nodes
    ensures forall a: nat, b: nat :: Peer(a, b) in t.Links() <==> (a, b) in t.peer
    ensures forall l :: Hits(t.Everything(), l) <==> l in t.Links()
  {
    var n := t.nodes;
    forall i: nat | i < n ensures Client(i) in t.Links() {
      assert t.Links()[i] == Client(i);
    }
    forall a: nat, b: nat | (a, b) in t.peer ensures Peer(a, b) in t.Links() {
      var j :| 0 <= j < |t.peer| && t.peer[j] == (a, b);
      assert t.Links()[n + j] == Peer(a, b);
    }
    forall a: nat, b: nat | Peer(a, b) in t.Links() ensures (a, b) in t.peer {
      var j :| 0 <= j < |t.Links()| && t.Links()[j] == Peer(a, b);
      assert j >= n && t.peer[j - n] == (a, b);
    }
    forall l ensures Hits(t.Everything(), l) <==> l in t.Links() {
      if l in t.Links() {
        var j :| 0 <= j < |t.Links()| && t.Links()[j] == l;
        assert t.Everything()[j] == One(l);
        assert One(l) in t.Everything() && One(l).Names(l);
      }
    }
  }

  /** Cuts the peer links that cross the boundary, and leaves every client link up. */
  method CutEvents(t: Topology, at: int, isolated: seq<nat>, f: Fault) returns (events: seq<Event>)
    ensures events == Batch(at, Crossing(t.peer, isolated), f, 0)
  {
    events := [];
    for i := 0 to |t.peer|
      invariant events == Batch(at, Crossing(t.peer[..i], isolated), f, 0)
    {
      assert t.peer[..i + 1][..i] == t.peer[..i];
      var (a, b) := t.peer[i];
      if (a in isolated) != (b in isolated) {
        events := events + [Event(at, One(Peer(a, b)), f, 0)];
      }
    }
    assert t.peer[..|t.peer|] == t.peer;
  }

  /** The client links of these nodes, as far as there are such nodes. */
  function Stranded(n: nat, nodes: seq<nat>): seq<Target> {
    if nodes == [] then []
    else
      var last := nodes[|nodes| - 1];
      Stranded(n, nodes[..|nodes| - 1]) + (if last < n then [One(Client(last))] else [])
  }

  lemma StrandedFirst(n: nat, isolated: seq<nat>)
    requires IsProperSubset(isolated, n)
    ensures Stranded(n, isolated[..1]) == [One(Client(isolated[0]))]
  {
    assert isolated[..1][..0] == [];
  }

  /** Strands the clients of these nodes. */
  method CutClientEvents(t: Topology, at: int, isolated: seq<nat>, f: Fault) returns (events: seq<Event>)
    ensures events == Batch(at, Stranded(t.nodes, isolated), f, 0)
  {
    events := [];
    for i := 0 to |isolated|
      invariant events == Batch(at, Stranded(t.nodes, isolated[..i]), f, 0)
    {
      assert isolated[..i + 1][..i] == isolated[..i];
      if isolated[i] < t.nodes {
        events := events + [Event(at, One(Client(isolated[i])), f, 0)];
      }
    }
    assert isolated[..|isolated|] == isolated;
  }

  /** Restores every link. */
  method HealEvents(t: Topology, at: int) returns (events: seq<Event>)
    ensures events == Batch(at, t.Everything(), Pass, 0)
  {
    events := [];
    var links := t.Links();
    for i := 0 to |links|
      invariant |events| == i && forall j :: 0 <= j < i ==> events[j] == Event(at, One(links[j]), Pass, 0)
    {
      events := events + [Event(at, One(links[i]), Pass, 0)];
    }
  }

  /** What the stream says at this place, from lo to hi. */
  function Jittered(rng: Rng, at: nat, lo: int, hi: int): int
    requires lo <= hi
  {
    lo + rng.numbers(at) % (hi - lo + 1)
  }

  /** A number from lo to hi. */
  method Jitter(rng: Rng, lo: int, hi: int) returns (r: int)
    requires lo <= hi
    modifies rng
    ensures lo <= r <= hi
    ensures lo < hi ==> r == Jittered(rng, old(rng.at), lo, hi) && rng.at == old(rng.at) + 1
  {
    if hi <= lo {
      return lo;
    }
    var n := rng.IntN(hi - lo + 1);
    r := lo + n;
  }

  /** An eighth, rounded towards zero. */
  function Eighth(d: int): int { if d >= 0 then d / 8 else -(-d / 8) }

  lemma EighthIs(d: int)
    ensures d >= 0 ==> 8 * Eighth(d) <= d < 8 * Eighth(d) + 8
  {
  }

  /** This phase cuts `isolated` off from the other nodes, and strands at most the
      clients of its first node, and those only if it has another. */
  ghost predicate CutsOff(t: Topology, p: Phase, isolated: seq<nat>, f: Fault) {
    && IsProperSubset(isolated, t.nodes)
    && p.fault == f && p.cure == t.Everything()
    && (|| p.hit == Crossing(t.peer, isolated)
        || (|isolated| >= 2 && p.hit == Crossing(t.peer, isolated) + Stranded(t.nodes, isolated[..1])))
  }

  ghost predicate IsCut(t: Topology, p: Phase, f: Fault) {
    exists isolated: seq<nat> :: CutsOff(t, p, isolated, f)
  }

  /** The last act of a schedule: everything passes again. */
  function Closing(t: Topology, at: int): Phase { Phase(at, at, [], Pass, 0, t.Everything()) }

  lemma CrossingIsKnown(t: Topology, isolated: seq<nat>)
    ensures forall x :: x in Crossing(t.peer, isolated) ==> x.One? && x.link in t.Links()
  {
    LinksAre(t);
  }

  lemma CutIsCured(t: Topology, p: Phase, isolated: seq<nat>, f: Fault)
    requires CutsOff(t, p, isolated, f) && p.start <= p.end
    ensures p.Cures() && Known(p.hit, t.Links()) && Known(p.cure, t.Links())
  {
    LinksAre(t);
    CrossingIsKnown(t, isolated);
    forall x | x in p.hit ensures x.One? && x.link in t.Links() {
      StrandedFirst(t.nodes, isolated);
      if x !in Crossing(t.peer, isolated) {
        assert x in Stranded(t.nodes, isolated[..1]);
        assert x == One(Client(isolated[0]));
      }
    }
    EverythingIsKnown(t);
  }

  lemma EverythingIsKnown(t: Topology)
    ensures Known(t.Everything(), t.Links())
  {
  }

  lemma BatchJoins(before: seq<Event>, at: int, a: seq<Target>, b: seq<Target>, f: Fault)
    ensures before + Batch(at, a, f, 0) + Batch(at, b, f, 0) == before + Batch(at, a + b, f, 0)
  {
    assert Batch(at, a, f, 0) + Batch(at, b, f, 0) == Batch(at, a + b, f, 0);
  }

  // ----- How often and how long

  /** The first cut comes at once, and every other 200 to 900 ms after the one before. */
  function Pauses(): (nat, int) -> bool {
    (i: nat, gap: int) => if i == 0 then gap == 0 else 200 * MILLISECOND <= gap <= 900 * MILLISECOND
  }

  /** It lasts from `least` to `most`, unless it ends sooner because time is up. */
  function Lasts(least: int, most: int, until: int): Phase -> bool {
    (p: Phase) =>
      0 < p.end - p.start <= most && p.end <= until && (least <= p.end - p.start || p.end == until)
  }

  /** The cuts come in time, and go on coming until time is up. */
  ghost predicate Paced(cuts: seq<Phase>, d: int, least: int, most: int) {
    && Spaced(cuts, Eighth(d), Pauses(), Lasts(least, most, d - Eighth(d)))
    && (d > 0 ==> cuts != [] && d - Eighth(d) <= cuts[|cuts| - 1].end + 900 * MILLISECOND)
    && (d <= 0 ==> cuts == [])
  }

  ghost predicate PacedSoFar(cuts: seq<Phase>, now: int, d: int, least: int, most: int) {
    && Spaced(cuts, Eighth(d), Pauses(), Lasts(least, most, d - Eighth(d)))
    && Pauses()(|cuts|, now - EndBefore(cuts, |cuts|, Eighth(d)))
  }

  lemma PacedNothing(d: int, least: int, most: int)
    ensures PacedSoFar([], Eighth(d), d, least, most)
  {
  }

  lemma PacedOneMore(cuts: seq<Phase>, now: int, d: int, least: int, most: int, p: Phase, pause: int)
    requires PacedSoFar(cuts, now, d, least, most) && p.start == now
    requires 0 < p.end - now <= most && p.end <= d - Eighth(d) && (least <= p.end - now || p.end == d - Eighth(d))
    requires 200 * MILLISECOND <= pause <= 900 * MILLISECOND
    ensures PacedSoFar(cuts + [p], p.end + pause, d, least, most)
  {
    hide Spaced, EndBefore;
    SpacedSnoc(cuts, Eighth(d), Pauses(), Lasts(least, most, d - Eighth(d)), p);
  }

  lemma PacedDone(cuts: seq<Phase>, now: int, d: int, least: int, most: int)
    requires PacedSoFar(cuts, now, d, least, most) && now >= d - Eighth(d)
    ensures Paced(cuts, d, least, most)
  {
    if cuts != [] {
      assert EndBefore(cuts, 0, Eighth(d)) == Eighth(d);
      assert Pauses()(0, cuts[0].start - Eighth(d));
      assert Lasts(least, most, d - Eighth(d))(cuts[0]);
    }
  }

  lemma PacedIs(cuts: seq<Phase>, d: int, least: int, most: int)
    requires d > 0 && Paced(cuts, d, least, most)
    ensures cuts != [] && cuts[0].start == Eighth(d)
    ensures d - Eighth(d) <= cuts[|cuts| - 1].end + 900 * MILLISECOND
    ensures forall i :: 0 < i < |cuts| ==> cuts[i].start <= cuts[i - 1].end + 900 * MILLISECOND
  {
    assert Pauses()(0, cuts[0].start - EndBefore(cuts, 0, Eighth(d)));
    forall i | 0 < i < |cuts| ensures cuts[i].start <= cuts[i - 1].end + 900 * MILLISECOND {
      assert Pauses()(i, cuts[i].start - EndBefore(cuts, i, Eighth(d)));
    }
  }

  /** From the first eighth of the run to the last it is never more than 900 ms since the
      latest cut. */
  lemma NeverQuietForLong(cuts: seq<Phase>, d: int, least: int, most: int, now: int) returns (i: nat)
    requires d > 0 && Paced(cuts, d, least, most) && Eighth(d) <= now <= d - Eighth(d)
    ensures i < |cuts| && cuts[i].start <= now <= cuts[i].end + 900 * MILLISECOND
  {
    hide *;
    PacedIs(cuts, d, least, most);
    i := 0;
    while i + 1 < |cuts| && cuts[i + 1].start <= now
      invariant i < |cuts| && cuts[i].start <= now
    {
      i := i + 1;
    }
    if i + 1 < |cuts| { assert cuts[i + 1].start <= cuts[i].end + 900 * MILLISECOND; }
  }

  // ----- From the numbers drawn

  /** The draws of one cut: where the stream stands, and how many rounds of coins fail. */
  datatype Draw = Draw(at: nat, rounds: nat)
  {
    function Isolated(rng: Rng, n: nat): seq<nat> { rng.Chosen(rng.After(at, rounds, n), n) }

    /** Behind the coins comes how long the cut lasts ... */
    function Behind(rng: Rng, n: nat): nat { rng.After(at, rounds + 1, n) }

    function Hold(rng: Rng, n: nat): int {
      Jittered(rng, Behind(rng, n), 300 * MILLISECOND, 1200 * MILLISECOND)
    }

    /** ... then, if the side cut off has a node to spare, whether to strand a client ... */
    predicate Strands(rng: Rng, n: nat) {
      |Isolated(rng, n)| >= 2 && rng.numbers(Behind(rng, n) + 1) % 3 == 0
    }

    /** ... and at last how long to pause. */
    function PauseAt(rng: Rng, n: nat): nat {
      Behind(rng, n) + if |Isolated(rng, n)| >= 2 then 2 else 1
    }

    function Pause(rng: Rng, n: nat): int {
      Jittered(rng, PauseAt(rng, n), 200 * MILLISECOND, 900 * MILLISECOND)
    }

    function Hit(t: Topology, rng: Rng): seq<Target> {
      var isolated := Isolated(rng, t.nodes);
      Crossing(t.peer, isolated) + if Strands(rng, t.nodes) then Stranded(t.nodes, isolated[..1]) else []
    }

    /** The cut that begins at `now`: as long as drawn, or until time is up. */
    function Cut(t: Topology, rng: Rng, now: int, until: int, f: Fault): Phase {
      var end := now + Hold(rng, t.nodes);
      Phase(now, if end > until then until else end, Hit(t, rng), f, 0, t.Everything())
    }
  }

  /** Where the stream stands before cut i, and when it begins. */
  function DrawnAt(rng: Rng, n: nat, from: nat, draws: seq<Draw>, i: nat): nat
    requires i <= |draws|
  {
    if i == 0 then from else draws[i - 1].PauseAt(rng, n) + 1
  }

  function BeginsAt(rng: Rng, n: nat, d: int, draws: seq<Draw>, cuts: seq<Phase>, i: nat): int
    requires i <= |draws| == |cuts|
  {
    if i == 0 then Eighth(d) else cuts[i - 1].end + draws[i - 1].Pause(rng, n)
  }

  ghost predicate OneAsDrawn(t: Topology, rng: Rng, from: nat, draws: seq<Draw>, cuts: seq<Phase>, d: int, f: Fault,
                             i: nat)
    requires i < |draws| == |cuts|
  {
    && draws[i].at == DrawnAt(rng, t.nodes, from, draws, i)
    && rng.FirstSuccess(draws[i].at, draws[i].rounds, t.nodes)
    && cuts[i] == draws[i].Cut(t, rng, BeginsAt(rng, t.nodes, d, draws, cuts, i), d - Eighth(d), f)
  }

  /** Every cut is what the next numbers of the stream say. */
  ghost predicate AsDrawn(t: Topology, rng: Rng, from: nat, draws: seq<Draw>, cuts: seq<Phase>, d: int, f: Fault) {
    |draws| == |cuts| && forall i :: 0 <= i < |cuts| ==> OneAsDrawn(t, rng, from, draws, cuts, d, f, i)
  }

  ghost predicate AsDrawnSoFar(t: Topology, rng: Rng, from: nat, draws: seq<Draw>, cuts: seq<Phase>, d: int, f: Fault,
                               at: nat, now: int) {
    && AsDrawn(t, rng, from, draws, cuts, d, f)
    && at == DrawnAt(rng, t.nodes, from, draws, |draws|)
    && now == BeginsAt(rng, t.nodes, d, draws, cuts, |draws|)
  }

  lemma NothingDrawn(t: Topology, rng: Rng, from: nat, d: int, f: Fault)
    ensures AsDrawnSoFar(t, rng, from, [], [], d, f, from, Eighth(d))
  {
  }

  lemma OneMoreDrawn(t: Topology, rng: Rng, from: nat, draws: seq<Draw>, cuts: seq<Phase>, d: int, f: Fault,
                     at: nat, now: int, x: Draw, p: Phase)
    requires AsDrawnSoFar(t, rng, from, draws, cuts, d, f, at, now)
    requires x.at == at && rng.FirstSuccess(x.at, x.rounds, t.nodes)
    requires p == x.Cut(t, rng, now, d - Eighth(d), f)
    ensures AsDrawnSoFar(t, rng, from, draws + [x], cuts + [p], d, f,
                         x.PauseAt(rng, t.nodes) + 1, p.end + x.Pause(rng, t.nodes))
  {
    hide Rng.FirstSuccess, Draw.Cut, Draw.PauseAt, Draw.Pause;
    var xs, ps := draws + [x], cuts + [p];
    forall i | 0 <= i < |ps| ensures OneAsDrawn(t, rng, from, xs, ps, d, f, i) {
      assert DrawnAt(rng, t.nodes, from, xs, i) == DrawnAt(rng, t.nodes, from, draws, i);
      assert BeginsAt(rng, t.nodes, d, xs, ps, i) == BeginsAt(rng, t.nodes, d, draws, cuts, i);
      if i < |cuts| { assert OneAsDrawn(t, rng, from, draws, cuts, d, f, i); }
    }
  }

  /** What comes before the closing. */
  function Cuts(phases: seq<Phase>): seq<Phase>
    requires phases != []
  {
    phases[..|phases| - 1]
  }

  /** The timeline of a partition: each phase cuts some nodes off from the others, for 300
      to 1200 ms. */
  ghost predicate Partitioning(t: Topology, phases: seq<Phase>, d: int, f: Fault) {
    && phases != [] && OneAtATime(phases) && Confined(phases, t.Links(), Eighth(d), d - Eighth(d))
    && phases[|phases| - 1] == Closing(t, d - Eighth(d))
    && (forall i :: 0 <= i < |phases| - 1 ==> IsCut(t, phases[i], f))
    && Paced(Cuts(phases), d, 300 * MILLISECOND, 1200 * MILLISECOND)
  }

  /** The timeline up to `now`, as far as it has been built. */
  ghost predicate SoFar(t: Topology, phases: seq<Phase>, d: int, f: Fault, now: int, events: seq<Event>) {
    && events == Flatten(phases)
    && OneAtATime(phases) && Confined(phases, t.Links(), Eighth(d), d - Eighth(d))
    && (forall i :: 0 <= i < |phases| ==> IsCut(t, phases[i], f))
    && (forall i :: 0 <= i < |phases| ==> phases[i].end <= now)
  }

  lemma OneMoreCut(t: Topology, phases: seq<Phase>, p: Phase, isolated: seq<nat>, d: int, f: Fault, now: int,
                   events: seq<Event>)
    requires SoFar(t, phases, d, f, now, events) && p.start == now
    requires CutsOff(t, p, isolated, f) && Eighth(d) <= p.start <= p.end <= d - Eighth(d) && p.delay == 0
    ensures SoFar(t, phases + [p], d, f, p.end, events + p.Events())
  {
    hide *;
    SoFarIs(t, phases, d, f, now, events);
    CutIsCured(t, p, isolated, f);
    OnePhaseMore(phases, p, t.Links(), Eighth(d), d - Eighth(d));
    EachIsCut(t, phases, p, isolated, f);
    OpensSoFar(t, phases + [p], d, f, p.end, events + p.Events());
  }

  lemma SoFarIs(t: Topology, phases: seq<Phase>, d: int, f: Fault, now: int, events: seq<Event>)
    requires SoFar(t, phases, d, f, now, events)
    ensures events == Flatten(phases)
    ensures OneAtATime(phases) && Confined(phases, t.Links(), Eighth(d), d - Eighth(d))
    ensures forall i :: 0 <= i < |phases| ==> IsCut(t, phases[i], f)
    ensures forall i :: 0 <= i < |phases| ==> phases[i].end <= now
  {
  }

  lemma OpensSoFar(t: Topology, phases: seq<Phase>, d: int, f: Fault, now: int, events: seq<Event>)
    requires events == Flatten(phases)
    requires OneAtATime(phases) && Confined(phases, t.Links(), Eighth(d), d - Eighth(d))
    requires forall i :: 0 <= i < |phases| ==> IsCut(t, phases[i], f) && phases[i].end <= now
    ensures SoFar(t, phases, d, f, now, events)
  {
  }

  lemma EachIsCut(t: Topology, phases: seq<Phase>, p: Phase, isolated: seq<nat>, f: Fault)
    requires CutsOff(t, p, isolated, f) && p.start <= p.end
    requires forall i :: 0 <= i < |phases| ==> IsCut(t, phases[i], f) && phases[i].end <= p.start
    ensures forall i :: 0 <= i < |phases + [p]| ==> IsCut(t, (phases + [p])[i], f) && (phases + [p])[i].end <= p.end
  {
    assert IsCut(t, p, f);
    hide CutsOff, IsCut;
  }

  lemma GoesOn(t: Topology, phases: seq<Phase>, d: int, f: Fault, now: int, events: seq<Event>)
    requires SoFar(t, phases, d, f, now, events)
    ensures forall later :: now <= later ==> SoFar(t, phases, d, f, later, events)
  {
  }

  lemma CutsDone(t: Topology, phases: seq<Phase>, d: int, f: Fault, now: int, events: seq<Event>)
    requires d >= 0 && SoFar(t, phases, d, f, now, events) && now >= d - Eighth(d)
    requires PacedSoFar(phases, now, d, 300 * MILLISECOND, 1200 * MILLISECOND)
    ensures var all := phases + [Closing(t, d - Eighth(d))];
            && events + Batch(d - Eighth(d), t.Everything(), Pass, 0) == Flatten(all)
            && SortedBy(Earlier(), Flatten(all)) && (forall e :: e in Flatten(all) ==> Acceptable(t.Links(), d, e))
            && Partitioning(t, all, d, f)
  {
    hide IsCut, Flatten, Closing, Acceptable, OneAtATime, Confined, PacedSoFar, Paced;
    SoFarIs(t, phases, d, f, now, events);
    CloseIt(t, phases, d);
    PacedDone(phases, now, d, 300 * MILLISECOND, 1200 * MILLISECOND);
    assert Cuts(phases + [Closing(t, d - Eighth(d))]) == phases;
  }

  lemma ClosingIs(t: Topology, phases: seq<Phase>, d: int)
    requires d >= 0 && Confined(phases, t.Links(), Eighth(d), d - Eighth(d))
    ensures var p := Closing(t, d - Eighth(d));
            && p.Cures() && Known(p.hit, t.Links()) && p.cure == t.Everything()
            && p.start == p.end == d - Eighth(d) && p.delay == 0 && 0 <= Eighth(d) <= d - Eighth(d) <= d
            && (forall i :: 0 <= i < |phases| ==> phases[i].end <= p.start)
            && p.Events() == Batch(d - Eighth(d), t.Everything(), Pass, 0)
  {
    hide Known;
    NothingToHit(t.Links());
    var p := Closing(t, d - Eighth(d));
    assert p.Events() == Batch(d - Eighth(d), t.Everything(), Pass, 0);
  }

  lemma NothingToHit(links: seq<Link>)
    ensures Known([], links)
  {
  }

  lemma CloseIt(t: Topology, phases: seq<Phase>, d: int)
    requires d >= 0 && OneAtATime(phases) && Confined(phases, t.Links(), Eighth(d), d - Eighth(d))
    ensures var all := phases + [Closing(t, d - Eighth(d))];
            && OneAtATime(all) && Confined(all, t.Links(), Eighth(d), d - Eighth(d))
            && Flatten(all) == Flatten(phases) + Batch(d - Eighth(d), t.Everything(), Pass, 0)
            && SortedBy(Earlier(), Flatten(all)) && forall e :: e in Flatten(all) ==> Acceptable(t.Links(), d, e)
  {
    hide *;
    var p := Closing(t, d - Eighth(d));
    EverythingIsKnown(t);
    ClosingIs(t, phases, d);
    OnePhaseMore(phases, p, t.Links(), Eighth(d), d - Eighth(d));
    FlattenIsAcceptable(phases + [p], t.Links(), Eighth(d), d - Eighth(d), d);
  }

  /** Cuts these nodes off, and one time in three, if there are two of them, strands the
      clients of the first. */
  method CutOff(t: Topology, rng: Rng, at: int, isolated: seq<nat>, f: Fault)
    returns (events: seq<Event>, ghost strands: bool)
    modifies rng
    ensures strands <==> |isolated| >= 2 && rng.numbers(old(rng.at)) % 3 == 0
    ensures rng.at == old(rng.at) + if |isolated| >= 2 then 1 else 0
    ensures events ==
            Batch(at, Crossing(t.peer, isolated) + (if strands then Stranded(t.nodes, isolated[..1]) else []), f, 0)
  {
    hide *;
    ghost var hit := Crossing(t.peer, isolated);
    strands := false;
    events := CutEvents(t, at, isolated, f);
    if |isolated| >= 2 {
      var coin := rng.IntN(3);
      if coin == 0 {
        var strand := CutClientEvents(t, at, isolated[..1], f);
        BatchJoins([], at, hit, Stranded(t.nodes, isolated[..1]), f);
        events := events + strand;
        strands := true;
        assert [] + Batch(at, hit, f, 0) == Batch(at, hit, f, 0);
        return;
      }
    }
    assert hit + [] == hit;
  }

  /** Builds a partition timeline. Whatever is drawn, no event of it is refused. */
  method PartitionSchedule(t: Topology, rng: Rng, d: int, f: Fault)
    returns (s: Option<seq<Event>>, ghost phases: seq<Phase>, ghost draws: seq<Draw>)
    requires t.Valid() && t.nodes > 0 && (t.nodes >= 2 ==> rng.Fair(t.nodes))
    modifies rng
    ensures s.Some? <==> d >= 0
    ensures s.Some? ==> s.value == Flatten(phases) && SortedBy(Earlier(), s.value)
    ensures s.Some? ==> forall e :: e in s.value ==> Acceptable(t.Links(), d, e)
    ensures s.Some? && t.nodes >= 2 ==> Partitioning(t, phases, d, f)
    ensures s.Some? && t.nodes >= 2 ==> AsDrawn(t, rng, old(rng.at), draws, Cuts(phases), d, f)
    ensures s.Some? && t.nodes == 1 ==> Blipping(t, phases, d, f)
    ensures s.Some? && t.nodes == 1 ==> BlipsAsDrawn(rng, old(rng.at), Cuts(phases), d, f)
  {
    hide *;
    phases, draws := [], [];
    if t.nodes < 2 {
      s, phases := SingleNodeSchedule(t, rng, d, f);
      return;
    }
    var events: seq<Event> := [];
    var warmup, tail := Eighth(d), Eighth(d);
    var now := warmup;
    NothingYet(t, d, f);
    PacedNothing(d, 300 * MILLISECOND, 1200 * MILLISECOND);
    NothingDrawn(t, rng, rng.at, d, f);
    MillisecondIs();
    while now < d - tail
      invariant SoFar(t, phases, d, f, now, events)
      invariant PacedSoFar(phases, now, d, 300 * MILLISECOND, 1200 * MILLISECOND)
      invariant AsDrawnSoFar(t, rng, old(rng.at), draws, phases, d, f, rng.at, now)
      invariant warmup <= now
      decreases d - tail - now
    {
      ghost var at := rng.at;
      var isolated, rounds := rng.ProperSubset(t.nodes);
      ghost var x := Draw(at, rounds);
      var cutFor := Jitter(rng, 300 * MILLISECOND, 1200 * MILLISECOND);
      ghost var hold := cutFor;
      if now + cutFor > d - tail {
        cutFor := d - tail - now;
      }
      if cutFor <= 0 {
        break;
      }
      var cut, strands := CutOff(t, rng, now, isolated, f);
      ghost var hit := Crossing(t.peer, isolated) + if strands then Stranded(t.nodes, isolated[..1]) else [];
      ghost var before := events;
      events := events + cut;
      var heal := HealEvents(t, now + cutFor);
      ghost var p := Phase(now, now + cutFor, hit, f, 0, t.Everything());
      EventsOf(before, p);
      events := events + heal;
      IsACut(t, p, isolated, f);
      OneMoreCut(t, phases, p, isolated, d, f, now, before);
      GoesOn(t, phases + [p], d, f, now + cutFor, events);
      var pause := Jitter(rng, 200 * MILLISECOND, 900 * MILLISECOND);
      PacedOneMore(phases, now, d, 300 * MILLISECOND, 1200 * MILLISECOND, p, pause);
      IsDrawn(t, rng, x, isolated, hold, now, cutFor, d - tail, strands, p, pause, f, rng.at);
      OneMoreDrawn(t, rng, old(rng.at), draws, phases, d, f, at, now, x, p);
      draws := draws + [x];
      phases := phases + [p];
      now := now + cutFor + pause;
    }
    var heal := HealEvents(t, d - tail);
    if d >= 0 { CutsDone(t, phases, d, f, now, events); }
    events := events + heal;
    DrawnSoFar(t, rng, old(rng.at), draws, phases, d, f, rng.at, now);
    CutsAre(phases, Closing(t, d - tail));
    phases := phases + [Closing(t, d - tail)];
    s := NewSchedule(t.Links(), d, events);
  }

  lemma IsDrawn(t: Topology, rng: Rng, x: Draw, isolated: seq<nat>, hold: int, now: int, cutFor: int, until: int,
                strands: bool, p: Phase, pause: int, f: Fault, after: nat)
    requires isolated == rng.Chosen(rng.After(x.at, x.rounds, t.nodes), t.nodes)
    requires strands ==> |isolated| >= 2
    requires p.hit == Crossing(t.peer, isolated) + if strands then Stranded(t.nodes, isolated[..1]) else []
    requires p.start == now && p.end == now + cutFor && p.fault == f && p.delay == 0 && p.cure == t.Everything()
    requires cutFor == if now + hold > until then until - now else hold
    requires var behind := rng.After(x.at, x.rounds + 1, t.nodes); var coins := if |isolated| >= 2 then 1 else 0;
             && hold == Jittered(rng, behind, 300 * MILLISECOND, 1200 * MILLISECOND)
             && strands == (|isolated| >= 2 && rng.numbers(behind + 1) % 3 == 0)
             && pause == Jittered(rng, behind + 1 + coins, 200 * MILLISECOND, 900 * MILLISECOND)
             && after == behind + 2 + coins
    ensures p == x.Cut(t, rng, now, until, f) && pause == x.Pause(rng, t.nodes)
    ensures after == x.PauseAt(rng, t.nodes) + 1
  {
    hide *;
    DrawIs(x, rng, t.nodes);
    CutIs(x, t, rng, now, until, f);
  }

  lemma DrawIs(x: Draw, rng: Rng, n: nat)
    ensures x.Isolated(rng, n) == rng.Chosen(rng.After(x.at, x.rounds, n), n)
    ensures var behind := rng.After(x.at, x.rounds + 1, n);
            var coins := if |x.Isolated(rng, n)| >= 2 then 1 else 0;
            && x.Hold(rng, n) == Jittered(rng, behind, 300 * MILLISECOND, 1200 * MILLISECOND)
            && x.Strands(rng, n) == (|x.Isolated(rng, n)| >= 2 && rng.numbers(behind + 1) % 3 == 0)
            && x.PauseAt(rng, n) == behind + 1 + coins
            && x.Pause(rng, n) == Jittered(rng, behind + 1 + coins, 200 * MILLISECOND, 900 * MILLISECOND)
  {
    hide Rng.Chosen, Rng.After, Jittered;
  }

  lemma CutIs(x: Draw, t: Topology, rng: Rng, now: int, until: int, f: Fault)
    ensures x.Strands(rng, t.nodes) ==> |x.Isolated(rng, t.nodes)| >= 2
    ensures var isolated := x.Isolated(rng, t.nodes); var end := now + x.Hold(rng, t.nodes);
            var hit := Crossing(t.peer, isolated)
                       + if x.Strands(rng, t.nodes) then Stranded(t.nodes, isolated[..1]) else [];
            x.Cut(t, rng, now, until, f) == Phase(now, if end > until then until else end, hit, f, 0, t.Everything())
  {
    hide Rng.Chosen, Rng.After, Jittered, Crossing, Stranded;
  }

  lemma CutsAre(cuts: seq<Phase>, last: Phase)
    ensures Cuts(cuts + [last]) == cuts
  {
  }

  lemma DrawnSoFar(t: Topology, rng: Rng, from: nat, draws: seq<Draw>, cuts: seq<Phase>, d: int, f: Fault,
                   at: nat, now: int)
    requires AsDrawnSoFar(t, rng, from, draws, cuts, d, f, at, now)
    ensures AsDrawn(t, rng, from, draws, cuts, d, f)
  {
  }

  lemma NothingYet(t: Topology, d: int, f: Fault)
    ensures SoFar(t, [], d, f, Eighth(d), [])
    ensures Flatten([]) == [] && OneAtATime([]) && Confined([], t.Links(), Eighth(d), d - Eighth(d))
    ensures d >= 0 ==> 0 <= Eighth(d) <= d - Eighth(d)
    ensures d < 0 ==> Eighth(d) >= d - Eighth(d)
  {
  }

  lemma IsACut(t: Topology, p: Phase, isolated: seq<nat>, f: Fault)
    requires IsProperSubset(isolated, t.nodes) && p.fault == f && p.cure == t.Everything()
    requires || p.hit == Crossing(t.peer, isolated)
             || (|isolated| >= 2 && p.hit == Crossing(t.peer, isolated) + Stranded(t.nodes, isolated[..1]))
    ensures CutsOff(t, p, isolated, f) && IsCut(t, p, f)
  {
    assert CutsOff(t, p, isolated, f);
  }

  // ----- One node only

  /** A single node has no boundary to cut: its client link is cut instead, for 200 to 700 ms. */
  ghost predicate Blipping(t: Topology, phases: seq<Phase>, d: int, f: Fault) {
    && phases != [] && OneAtATime(phases) && Confined(phases, t.Links(), Eighth(d), d - Eighth(d))
    && phases[|phases| - 1] == Closing(t, d - Eighth(d))
    && (forall i :: 0 <= i < |phases| - 1 ==> Blip(phases[i], f))
    && Paced(Cuts(phases), d, 200 * MILLISECOND, 700 * MILLISECOND)
  }

  ghost predicate Blip(p: Phase, f: Fault) {
    p.start < p.end && p.hit == [One(Client(0))] && p.fault == f && p.delay == 0 && p.cure == [One(Client(0))]
  }

  lemma OnlyOneLink(t: Topology)
    requires t.Valid() && t.nodes == 1
    ensures t.Links() == [Client(0)] && t.Everything() == [One(Client(0))]
  {
    if |t.peer| > 0 { assert t.peer[0] in t.peer; }
  }

  lemma OneMoreBlip(t: Topology, phases: seq<Phase>, p: Phase, d: int, f: Fault)
    requires OneAtATime(phases) && Confined(phases, t.Links(), Eighth(d), d - Eighth(d)) && t.Links() == [Client(0)]
    requires forall i :: 0 <= i < |phases| ==> phases[i].end <= p.start
    requires Blip(p, f) && Eighth(d) <= p.start && p.end <= d - Eighth(d)
    ensures OneAtATime(phases + [p]) && Confined(phases + [p], t.Links(), Eighth(d), d - Eighth(d))
    ensures Flatten(phases + [p]) ==
            Flatten(phases) + [Event(p.start, One(Client(0)), f, 0), Event(p.end, One(Client(0)), Pass, 0)]
  {
    hide *;
    BlipIs(p, f);
    OnePhaseMore(phases, p, t.Links(), Eighth(d), d - Eighth(d));
  }

  lemma BlipIs(p: Phase, f: Fault)
    requires Blip(p, f)
    ensures p.Cures() && Known(p.hit, [Client(0)]) && Known(p.cure, [Client(0)]) && p.delay == 0
    ensures p.Events() == [Event(p.start, One(Client(0)), f, 0), Event(p.end, One(Client(0)), Pass, 0)]
  {
    assert p.Events() == [Event(p.start, One(Client(0)), f, 0), Event(p.end, One(Client(0)), Pass, 0)];
  }

  /** When blip i begins, and how long it would last. */
  function BlipBegins(rng: Rng, from: nat, d: int, blips: seq<Phase>, i: nat): int
    requires i <= |blips|
  {
    if i == 0 then Eighth(d)
    else
      blips[i - 1].end + Jittered(rng, from + 2 * i - 1, 200 * MILLISECOND, 900 * MILLISECOND)
  }

  function BlipHold(rng: Rng, from: nat, i: nat): int {
    Jittered(rng, from + 2 * i, 200 * MILLISECOND, 700 * MILLISECOND)
  }

  /** The blip that begins at `now`: as long as drawn, or until time is up. */
  function BlipAt(now: int, hold: int, until: int, f: Fault): Phase {
    Phase(now, if now + hold > until then until else now + hold, [One(Client(0))], f, 0, [One(Client(0))])
  }

  /** Every blip is what the next two numbers of the stream say. */
  ghost predicate BlipsAsDrawn(rng: Rng, from: nat, blips: seq<Phase>, d: int, f: Fault) {
    forall i :: 0 <= i < |blips| ==>
      blips[i] == BlipAt(BlipBegins(rng, from, d, blips, i), BlipHold(rng, from, i), d - Eighth(d), f)
  }

  ghost predicate BlipsSoFar(rng: Rng, from: nat, blips: seq<Phase>, d: int, f: Fault, at: nat, now: int) {
    BlipsAsDrawn(rng, from, blips, d, f) && at == from + 2 * |blips| && now == BlipBegins(rng, from, d, blips, |blips|)
  }

  lemma NoBlips(rng: Rng, from: nat, d: int, f: Fault)
    ensures BlipsSoFar(rng, from, [], d, f, from, Eighth(d))
  {
  }

  lemma OneMoreBlipDrawn(rng: Rng, from: nat, blips: seq<Phase>, d: int, f: Fault, at: nat, now: int, p: Phase,
                         hold: int, pause: int)
    requires BlipsSoFar(rng, from, blips, d, f, at, now)
    requires hold == Jittered(rng, at, 200 * MILLISECOND, 700 * MILLISECOND)
    requires pause == Jittered(rng, at + 1, 200 * MILLISECOND, 900 * MILLISECOND)
    requires p.start == now && p.hit == [One(Client(0))] == p.cure && p.fault == f && p.delay == 0
    requires p.end == if now + hold > d - Eighth(d) then d - Eighth(d) else now + hold
    ensures BlipsSoFar(rng, from, blips + [p], d, f, at + 2, p.end + pause)
  {
    hide BlipBegins, Jittered;
    BlipBeginsSnoc(rng, from, d, blips, p);
    var ps := blips + [p];
    forall i | 0 <= i < |ps|
      ensures ps[i] == BlipAt(BlipBegins(rng, from, d, ps, i), BlipHold(rng, from, i), d - Eighth(d), f)
    {
      if i < |blips| { assert ps[i] == blips[i]; }
    }
  }

  lemma BlipBeginsSnoc(rng: Rng, from: nat, d: int, blips: seq<Phase>, p: Phase)
    ensures forall i :: 0 <= i <= |blips| ==>
              BlipBegins(rng, from, d, blips + [p], i) == BlipBegins(rng, from, d, blips, i)
    ensures BlipBegins(rng, from, d, blips + [p], |blips| + 1) ==
            p.end + Jittered(rng, from + 2 * |blips| + 1, 200 * MILLISECOND, 900 * MILLISECOND)
  {
    hide Jittered;
    var ps := blips + [p];
    forall i | 0 <= i <= |blips| ensures BlipBegins(rng, from, d, ps, i) == BlipBegins(rng, from, d, blips, i) {
      if i > 0 { assert ps[i - 1] == blips[i - 1]; }
    }
    assert ps[|blips|] == p && from + 2 * (|blips| + 1) - 1 == from + 2 * |blips| + 1;
  }

  lemma BlipsDrawn(rng: Rng, from: nat, blips: seq<Phase>, d: int, f: Fault, at: nat, now: int)
    requires BlipsSoFar(rng, from, blips, d, f, at, now)
    ensures BlipsAsDrawn(rng, from, blips, d, f)
  {
  }

  method SingleNodeSchedule(t: Topology, rng: Rng, d: int, f: Fault)
    returns (s: Option<seq<Event>>, ghost phases: seq<Phase>)
    requires t.Valid() && t.nodes == 1
    modifies rng
    ensures s.Some? <==> d >= 0
    ensures s.Some? ==> s.value == Flatten(phases) && SortedBy(Earlier(), s.value)
    ensures s.Some? ==> forall e :: e in s.value ==> Acceptable(t.Links(), d, e)
    ensures s.Some? ==> Blipping(t, phases, d, f)
    ensures s.Some? ==> BlipsAsDrawn(rng, old(rng.at), Cuts(phases), d, f)
  {
    hide *;
    phases := [];
    var events: seq<Event> := [];
    OnlyOneLink(t);
    NothingYet(t, d, f);
    MillisecondIs();
    var name := t.Links()[0];
    var tail := d - Eighth(d);
    var now := Eighth(d);
    PacedNothing(d, 200 * MILLISECOND, 700 * MILLISECOND);
    NoBlips(rng, rng.at, d, f);
    while now < tail
      invariant BlipsSoFar(rng, old(rng.at), phases, d, f, rng.at, now)
      invariant events == Flatten(phases)
      invariant PacedSoFar(phases, now, d, 200 * MILLISECOND, 700 * MILLISECOND)
      invariant OneAtATime(phases) && Confined(phases, t.Links(), Eighth(d), d - Eighth(d))
      invariant forall i :: 0 <= i < |phases| ==> Blip(phases[i], f) && phases[i].end <= now
      invariant Eighth(d) <= now
      decreases tail - now
    {
      ghost var at := rng.at;
      var cutFor := Jitter(rng, 200 * MILLISECOND, 700 * MILLISECOND);
      ghost var hold := cutFor;
      if now + cutFor > tail {
        cutFor := tail - now;
      }
      events := events + [Event(now, One(name), f, 0), Event(now + cutFor, One(name), Pass, 0)];
      ghost var p := Phase(now, now + cutFor, [One(Client(0))], f, 0, [One(Client(0))]);
      IsABlip(p, f);
      OneMoreBlip(t, phases, p, d, f);
      var pause := Jitter(rng, 200 * MILLISECOND, 900 * MILLISECOND);
      PacedOneMore(phases, now, d, 200 * MILLISECOND, 700 * MILLISECOND, p, pause);
      OneMoreBlipDrawn(rng, old(rng.at), phases, d, f, at, now, p, hold, pause);
      phases := phases + [p];
      now := now + cutFor + pause;
    }
    events := events + [Event(d - Eighth(d), One(name), Pass, 0)];
    JustOneEvent(d - Eighth(d), One(name));
    if d >= 0 { CloseIt(t, phases, d); }
    PacedDone(phases, now, d, 200 * MILLISECOND, 700 * MILLISECOND);
    ghost var blips := phases;
    BlipsDrawn(rng, old(rng.at), blips, d, f, rng.at, now);
    phases := phases + [Closing(t, d - Eighth(d))];
    s := NewSchedule(t.Links(), d, events);
    if d >= 0 { IsBlipping(t, blips, phases, d, f); }
    CutsAre(blips, Closing(t, d - Eighth(d)));
  }

  lemma IsABlip(p: Phase, f: Fault)
    requires p.start < p.end && p.hit == [One(Client(0))] && p.fault == f && p.delay == 0 && p.cure == [One(Client(0))]
    ensures Blip(p, f)
  {
  }

  lemma JustOneEvent(at: int, x: Target)
    ensures Batch(at, [x], Pass, 0) == [Event(at, x, Pass, 0)]
  {
  }

  lemma IsBlipping(t: Topology, blips: seq<Phase>, phases: seq<Phase>, d: int, f: Fault)
    requires phases == blips + [Closing(t, d - Eighth(d))]
    requires OneAtATime(phases) && Confined(phases, t.Links(), Eighth(d), d - Eighth(d))
    requires forall i :: 0 <= i < |blips| ==> Blip(blips[i], f)
    requires Paced(blips, d, 200 * MILLISECOND, 700 * MILLISECOND)
    ensures Blipping(t, phases, d, f)
  {
    assert Cuts(phases) == blips;
  }

  /** The client link is cut inside a blip and at no other moment, and from the last
      event on every link passes. */
  lemma OnlyInsideABlip(t: Topology, phases: seq<Phase>, d: int, f: Fault, now: int)
    requires t.Valid() && t.nodes == 1 && Blipping(t, phases, d, f)
    ensures FaultAt(Flatten(phases), Client(0), now) ==
            if exists i :: 0 <= i < |phases| - 1 && phases[i].Under(now) then f else Pass
    ensures now >= d - Eighth(d) ==> forall l :: FaultAt(Flatten(phases), l, now) == Pass
  {
    hide *;
    BlippingIs(t, phases, d, f, now);
    if i: nat :| i < |phases| - 1 && phases[i].Under(now) {
      FaultDuring(phases, i, Client(0), now);
      HitsOne(Client(0));
    } else {
      NoneUnderWay(phases, Client(0), now);
    }
    if now >= d - Eighth(d) {
      forall l ensures FaultAt(Flatten(phases), l, now) == Pass {
        EndsWhole(phases, l, now);
      }
    }
  }

  lemma BlippingIs(t: Topology, phases: seq<Phase>, d: int, f: Fault, now: int)
    requires Blipping(t, phases, d, f)
    ensures phases != [] && OneAtATime(phases)
    ensures forall i :: 0 <= i < |phases| ==> phases[i].end <= d - Eighth(d)
    ensures !phases[|phases| - 1].Under(now)
    ensures forall i :: 0 <= i < |phases| - 1 ==> phases[i].hit == [One(Client(0))] && phases[i].fault == f
  {
    hide Paced, OneAtATime, Known;
    forall i | 0 <= i < |phases| - 1 ensures phases[i].hit == [One(Client(0))] && phases[i].fault == f {
      assert Blip(phases[i], f);
    }
  }

  lemma NoneUnderWay(phases: seq<Phase>, l: Link, now: int)
    requires phases != [] && OneAtATime(phases) && !phases[|phases| - 1].Under(now)
    requires forall i :: 0 <= i < |phases| - 1 ==> !phases[i].Under(now)
    ensures FaultAt(Flatten(phases), l, now) == Pass
  {
    hide FaultAt, Flatten, Hits, Phase.Under, OneAtATime;
    OnlyThePhaseUnderWay(phases, l, now);
  }

  lemma HitsOne(l: Link)
    ensures Hits([One(l)], l)
  {
    assert One(l) in [One(l)] && One(l).Names(l);
  }

  // ----- What a partition does at every moment

  /** The network is split in two: exactly the peer links between the sides suffer,
      and on either side some node's clients can still reach it. */
  ghost predicate SplitInTwo(t: Topology, events: seq<Event>, now: int, f: Fault, isolated: seq<nat>) {
    && IsProperSubset(isolated, t.nodes)
    && (forall p {:trigger p in t.peer} :: p in t.peer ==>
          FaultAt(events, Peer(p.0, p.1), now) == if (p.0 in isolated) != (p.1 in isolated) then f else Pass)
    && (exists a {:trigger a in isolated} :: a in isolated && FaultAt(events, Client(a), now) == Pass)
    && (exists b: nat :: b < t.nodes && b !in isolated && FaultAt(events, Client(b), now) == Pass)
  }

  ghost predicate Whole(t: Topology, events: seq<Event>, now: int) {
    forall l :: l in t.Links() ==> FaultAt(events, l, now) == Pass
  }

  lemma HitsOfCut(t: Topology, p: Phase, isolated: seq<nat>, f: Fault) returns (a: nat, b: nat)
    requires t.Valid() && CutsOff(t, p, isolated, f)
    ensures forall x: nat, y: nat :: (x, y) in t.peer ==>
                (Hits(p.hit, Peer(x, y)) <==> (x in isolated) != (y in isolated))
    ensures a in isolated && !Hits(p.hit, Client(a))
    ensures b < t.nodes && b !in isolated && !Hits(p.hit, Client(b))
  {
    StrandedFirst(t.nodes, isolated);
    b := SomeoneIsLeft(isolated, t.nodes);
    a := isolated[|isolated| - 1];
    var cut := Crossing(t.peer, isolated);
    forall x: nat, y: nat | (x, y) in t.peer
      ensures Hits(p.hit, Peer(x, y)) <==> (x in isolated) != (y in isolated)
    {
      if (x in isolated) != (y in isolated) {
        var q := (x, y);
        assert q in t.peer && (q.0 in isolated) != (q.1 in isolated);
        assert One(Peer(x, y)) in cut;
        assert One(Peer(x, y)) in p.hit && One(Peer(x, y)).Names(Peer(x, y));
      }
    }
  }

  /** While a cut lasts the network is split in two with both sides observed, at every
      other moment it is whole, and so it is from the last heal on. */
  lemma WholeOrSplit(t: Topology, phases: seq<Phase>, d: int, f: Fault, now: int)
    requires t.Valid() && d >= 0 && Partitioning(t, phases, d, f)
    ensures if exists i :: 0 <= i < |phases| - 1 && phases[i].Under(now)
            then exists isolated :: SplitInTwo(t, Flatten(phases), now, f, isolated)
            else Whole(t, Flatten(phases), now)
    ensures now >= d - Eighth(d) ==> Whole(t, Flatten(phases), now)
  {
    if i: nat :| i < |phases| && phases[i].Under(now) {
      assert i < |phases| - 1;
      assert IsCut(t, phases[i], f);
      var isolated: seq<nat> :| CutsOff(t, phases[i], isolated, f);
      SplitDuring(t, phases, i, isolated, f, now);
    } else {
      forall l ensures FaultAt(Flatten(phases), l, now) == Pass {
        OnlyThePhaseUnderWay(phases, l, now);
      }
    }
    if now >= d - Eighth(d) {
      forall l ensures FaultAt(Flatten(phases), l, now) == Pass {
        hide FaultAt, Flatten, Hits;
        EndsWhole(phases, l, now);
      }
    }
  }

  lemma SplitDuring(t: Topology, phases: seq<Phase>, i: nat, isolated: seq<nat>, f: Fault, now: int)
    requires t.Valid() && OneAtATime(phases) && i < |phases| && phases[i].Under(now)
    requires CutsOff(t, phases[i], isolated, f)
    ensures SplitInTwo(t, Flatten(phases), now, f, isolated)
  {
    var a, b := HitsOfCut(t, phases[i], isolated, f);
    hide Flatten, FaultAt, Hits, Crossing, OneAtATime, Phase.Under;
    forall p | p in t.peer
      ensures FaultAt(Flatten(phases), Peer(p.0, p.1), now) ==
              if (p.0 in isolated) != (p.1 in isolated) then f else Pass
    {
      FaultDuring(phases, i, Peer(p.0, p.1), now);
      assert (p.0, p.1) == p;
    }
    FaultDuring(phases, i, Client(a), now);
    FaultDuring(phases, i, Client(b), now);
  }
}
