/** The generators that know only the links: partitions, blips and both. */
module Generators {
  import opened History
  import opened Sorting
  import opened Faults

  datatype Kind = CutPhase | ResetPhase | RefusePhase | DelayedPhase

  /** The range a phase may last, squeezed to fit short runs. */
  function PhaseBounds(d: int): (int, int) {
    var quarter := d / 4;
    var hi := if 1500 * MILLISECOND > quarter then quarter else 1500 * MILLISECOND;
    var lo := if 300 * MILLISECOND > hi then hi else 300 * MILLISECOND;
    var lo' := if lo <= 0 then MILLISECOND else lo;
    (lo', if hi < lo' then lo' else hi)
  }

  function Blip(d: int): int { if d / 3 > MILLISECOND then d / 3 else MILLISECOND }

  /** Phases last at least a moment, and at most a quarter of any run long enough. */
  lemma BoundsAreSane(d: int)
    requires d > 0
    ensures var (lo, hi) := PhaseBounds(d);
            && 0 < lo <= hi && 0 < Blip(lo) <= Blip(hi)
            && (d >= 4 ==> hi <= d / 4) && hi <= 1500 * MILLISECOND
            && (d >= 6000 * MILLISECOND ==> lo == 300 * MILLISECOND && hi == 1500 * MILLISECOND)
  {
  }

  /** A third, and no less than a moment. */
  lemma BlipIsAThird(d: int)
    ensures if d >= 3 * MILLISECOND then 3 * Blip(d) <= d < 3 * Blip(d) + 3 else Blip(d) == MILLISECOND
  {
  }

  /** To the nearest millisecond, halves away from zero. */
  function Rounded(d: int): int
    requires d >= 0
  {
    var r := d % MILLISECOND;
    if r + r < MILLISECOND then d - r else d + MILLISECOND - r
  }

  /** No multiple of a millisecond is nearer, and none as near is later. */
  lemma RoundedIsNearest(d: int)
    requires d >= 0
    ensures Rounded(d) % MILLISECOND == 0
    ensures Rounded(d) - d <= MILLISECOND / 2 && d - Rounded(d) < MILLISECOND / 2
  {
    var n := d / MILLISECOND;
    assert d == n * MILLISECOND + d % MILLISECOND;
    assert Rounded(d) == n * MILLISECOND || Rounded(d) == (n + 1) * MILLISECOND;
  }

  /** What the stream says at this place, from `lo` up to but not including `hi`; if that
      leaves no choice nothing is drawn. */
  function Span(rng: Rng, at: nat, lo: int, hi: int): int {
    if lo < hi then lo + rng.numbers(at) % (hi - lo) else lo
  }

  function Uses(lo: int, hi: int): nat { if lo < hi then 1 else 0 }

  lemma SpanIsDrawn(rng: Rng, at: nat, lo: int, hi: int)
    ensures Drawn(Span(rng, at, lo, hi), lo, hi)
  {
  }

  method Between(rng: Rng, lo: int, hi: int) returns (r: int)
    requires lo <= hi
    modifies rng
    ensures Drawn(r, lo, hi)
    ensures r == Span(rng, old(rng.at), lo, hi) && rng.at == old(rng.at) + Uses(lo, hi)
  {
    if hi <= lo {
      return lo;
    }
    var n := rng.IntN(hi - lo);
    r := lo + n;
  }

  /** These are some of the links but not all of them. */
  ghost predicate StrictlyPart(cut: seq<Target>, links: seq<Link>) {
    && cut != []
    && (forall x :: x in cut ==> x.One? && x.link in links)
    && (NoDuplicates(links) ==> exists l :: l in links && One(l) !in cut)
  }

  function AsTargets(links: seq<Link>): (r: seq<Target>)
    ensures |r| == |links| && forall i :: 0 <= i < |r| ==> r[i] == One(links[i])
  {
    seq(|links|, i requires 0 <= i < |links| => One(links[i]))
  }

  lemma PrefixIsPart(perm: seq<Link>, links: seq<Link>, k: nat)
    requires multiset(perm) == multiset(links) && 0 < k < |perm|
    ensures StrictlyPart(AsTargets(perm[..k]), links)
  {
    SameMembers(perm, links);
    var cut := AsTargets(perm[..k]);
    forall x | x in cut ensures x.One? && x.link in links {
      var i :| 0 <= i < |cut| && cut[i] == x;
      assert perm[i] in perm;
    }
    if NoDuplicates(links) {
      DistinctRearranged(links, perm);
      assert perm[k] in perm;
      forall i | 0 <= i < |cut| ensures cut[i] != One(perm[k]) {
        assert perm[i] != perm[k];
      }
    }
  }

  /** Between one and all but one of the links, in any order; none if there are fewer
      than two. */
  method StrictSubset(rng: Rng, links: seq<Link>) returns (cut: seq<Target>)
    modifies rng
    ensures |links| < 2 ==> cut == [] && rng.at == old(rng.at)
    ensures |links| >= 2 ==> StrictlyPart(cut, links)
    ensures |links| >= 2 ==> cut == SubsetAt(rng, old(rng.at), links) && rng.at == old(rng.at) + |links|
  {
    if |links| < 2 {
      return [];
    }
    var k := rng.IntN(|links| - 1);
    k := 1 + k;
    var perm := new Link[|links|](i requires 0 <= i < |links| => links[i]);
    assert perm[..] == links;
    Shuffle(rng, perm);
    SameLength(perm[..], links);
    PrefixIsPart(perm[..], links, k);
    assert perm[..][..k] == perm[..k];
    cut := AsTargets(perm[..k]);
  }

  /** The first so many of the links, shuffled. */
  function SubsetAt(rng: Rng, at: nat, links: seq<Link>): seq<Target>
    requires |links| >= 2
  {
    AsTargets(Shuffled(rng, at + 1, links, |links| - 1)[..1 + rng.numbers(at) % (|links| - 1)])
  }

  /** The places from i down swapped, one after the other, with one drawn from those up to it. */
  function Shuffled(rng: Rng, at: nat, s: seq<Link>, i: int): (r: seq<Link>)
    requires i < |s|
    ensures |r| == |s|
    decreases i
  {
    if i <= 0 then s
    else
      var j := rng.numbers(at) % (i + 1);
      Shuffled(rng, at + 1, Swapped(s, i, j), i - 1)
  }

  lemma SameLength<T>(a: seq<T>, b: seq<T>)
    requires multiset(a) == multiset(b)
    ensures |a| == |b|
  {
    assert |multiset(a)| == |a| && |multiset(b)| == |b|;
  }

  /** Two links with their places exchanged. */
  function Swapped(s: seq<Link>, i: nat, j: nat): seq<Link>
    requires i < |s| && j < |s|
  {
    s[i := s[j]][j := s[i]]
  }

  method Swap(perm: array<Link>, i: nat, j: nat)
    requires i < perm.Length && j < perm.Length
    modifies perm
    ensures perm[..] == Swapped(old(perm[..]), i, j)
  {
    perm[i], perm[j] := perm[j], perm[i];
  }

  /** Swaps every place, from the last down, with one drawn from those up to it. */
  method Shuffle(rng: Rng, perm: array<Link>)
    modifies rng, perm
    ensures multiset(perm[..]) == multiset(old(perm[..]))
    ensures perm[..] == Shuffled(rng, old(rng.at), old(perm[..]), perm.Length - 1)
    ensures rng.at == old(rng.at) + if perm.Length > 0 then perm.Length - 1 else 0
  {
    hide *;
    ghost var from, start := rng.at, perm[..];
    var i := perm.Length - 1;
    while i > 0
      invariant i < perm.Length && (perm.Length > 0 ==> i >= 0)
      invariant multiset(perm[..]) == multiset(start)
      invariant Shuffled(rng, rng.at, perm[..], i) == Shuffled(rng, from, start, perm.Length - 1)
      invariant rng.at == from + if perm.Length > 0 then perm.Length - 1 - i else 0
    {
      OneSwap(rng, rng.at, perm[..], i);
      var j := rng.IntN(i + 1);
      Swap(perm, i, j);
      i := i - 1;
    }
    ShuffledToTheEnd(rng, rng.at, perm[..], i);
  }

  lemma OneSwap(rng: Rng, at: nat, s: seq<Link>, i: int)
    requires 0 < i < |s|
    ensures var j := rng.numbers(at) % (i + 1);
            && multiset(Swapped(s, i, j)) == multiset(s)
            && Shuffled(rng, at, s, i) == Shuffled(rng, at + 1, Swapped(s, i, j), i - 1)
  {
  }

  lemma ShuffledToTheEnd(rng: Rng, at: nat, s: seq<Link>, i: int)
    requires i <= 0 && i < |s|
    ensures Shuffled(rng, at, s, i) == s
  {
  }

  /** A phase of a generated timeline: a cut of some but not all links, healed
      everywhere, or a blip of a single link, with the fault of a kind that was asked for. */
  ghost predicate Sensible(p: Phase, links: seq<Link>, choices: seq<Kind>) {
    && p.start < p.end
    && match p.fault
       case Pass => false
       case Drop => CutPhase in choices && p.delay == 0 && p.cure == [All] && StrictlyPart(p.hit, links)
       case Reset => ResetPhase in choices && p.delay == 0 && HitsOneLink(p, links)
       case Refuse => RefusePhase in choices && p.delay == 0 && HitsOneLink(p, links)
       case Delay => DelayedPhase in choices && DelaySpan(p.delay) && HitsOneLink(p, links)
  }

  ghost predicate HitsOneLink(p: Phase, links: seq<Link>) {
    p.cure == p.hit && exists l :: l in links && p.hit == [One(l)]
  }

  /** From 20 to 250 ms, in whole milliseconds. */
  predicate DelaySpan(delay: int) {
    20 * MILLISECOND <= delay <= 250 * MILLISECOND && delay % MILLISECOND == 0
  }

  // ----- How often and how long

  /** Every phase that is drawn takes place, until time is up: cuts of nothing are left out. */
  predicate NoneIsSkipped(links: seq<Link>, choices: seq<Kind>) { |links| >= 2 || CutPhase !in choices }

  /** The quiet before each phase. */
  function Waits(d: int, all: bool): (nat, int) -> bool {
    (i: nat, gap: int) => var (lo, hi) := PhaseBounds(d); lo <= gap && (all ==> Drawn(gap, lo, hi))
  }

  /** Cuts last as long as the quiet before them may, and blips a third of that. */
  function Holds(d: int): Phase -> bool {
    (p: Phase) =>
      var (lo, hi) := PhaseBounds(d);
      if p.fault == Drop then Drawn(p.end - p.start, lo, hi) else Drawn(p.end - p.start, Blip(lo), Blip(hi))
  }

  /** The longest a phase may last, cut or blip. */
  function Longest(d: int): int {
    var hi := PhaseBounds(d).1;
    if hi < Blip(hi) then Blip(hi) else hi
  }

  /** Phases one after the other until the next would not fit. */
  ghost predicate Fills(links: seq<Link>, choices: seq<Kind>, phases: seq<Phase>, d: int) {
    && Spaced(phases, 0, Waits(d, NoneIsSkipped(links, choices)), Holds(d))
    && (NoneIsSkipped(links, choices) ==>
          d < EndBefore(phases, |phases|, 0) + PhaseBounds(d).1 + Longest(d))
  }

  ghost predicate FillsSoFar(links: seq<Link>, choices: seq<Kind>, phases: seq<Phase>, d: int, now: int) {
    && Spaced(phases, 0, Waits(d, NoneIsSkipped(links, choices)), Holds(d))
    && EndBefore(phases, |phases|, 0) <= now
    && (NoneIsSkipped(links, choices) ==> EndBefore(phases, |phases|, 0) == now)
  }

  lemma NothingFilled(links: seq<Link>, choices: seq<Kind>, d: int)
    ensures FillsSoFar(links, choices, [], d, 0)
  {
  }

  lemma OneMoreFits(links: seq<Link>, choices: seq<Kind>, phases: seq<Phase>, d: int, now: int, p: Phase)
    requires FillsSoFar(links, choices, phases, d, now)
    requires Drawn(p.start - now, PhaseBounds(d).0, PhaseBounds(d).1)
    requires Holds(d)(p)
    ensures FillsSoFar(links, choices, phases + [p], d, p.end)
  {
    hide Spaced, EndBefore, PhaseBounds, Holds;
    SpacedSnoc(phases, 0, Waits(d, NoneIsSkipped(links, choices)), Holds(d), p);
  }

  lemma CutSkipped(links: seq<Link>, choices: seq<Kind>, phases: seq<Phase>, d: int, now: int, later: int)
    requires FillsSoFar(links, choices, phases, d, now) && now <= later && !NoneIsSkipped(links, choices)
    ensures FillsSoFar(links, choices, phases, d, later)
  {
    hide Spaced, EndBefore;
  }

  /** The next phase would start too late, or end too late. */
  lemma NoMoreFits(links: seq<Link>, choices: seq<Kind>, phases: seq<Phase>, d: int, now: int, wait: int, hold: int)
    requires d > 0 && FillsSoFar(links, choices, phases, d, now)
    requires var (lo, hi) := PhaseBounds(d);
             Drawn(wait, lo, hi) && (hold == 0 || Drawn(hold, lo, hi) || Drawn(hold, Blip(lo), Blip(hi)))
    requires if hold == 0 then now + wait >= d else now + wait + hold > d
    ensures Fills(links, choices, phases, d)
  {
    hide Spaced, EndBefore;
    BoundsAreSane(d);
  }

  /** A run of four milliseconds or more is never left without a fault, if there is one
      that can strike. */
  lemma SomethingStrikes(links: seq<Link>, choices: seq<Kind>, phases: seq<Phase>, d: int)
    requires d >= 4 * MILLISECOND && NoneIsSkipped(links, choices) && Fills(links, choices, phases, d)
    ensures phases != [] && phases[0].start <= d / 4
  {
    if phases != [] {
      assert Waits(d, true)(0, phases[0].start - EndBefore(phases, 0, 0));
    }
  }

  /** With a single link there is nothing to cut without cutting all of it. */
  lemma OneLinkIsNeverCut(links: seq<Link>, choices: seq<Kind>, p: Phase)
    requires |links| < 2 && Sensible(p, links, choices)
    ensures p.fault != Drop
  {
    OneTarget(p.hit, links);
  }

  lemma OneTarget(hit: seq<Target>, links: seq<Link>)
    ensures |links| < 2 && hit != [] && (forall x :: x in hit ==> x.One? && x.link in links) ==>
              links != [] && One(links[0]) in hit
  {
    if hit != [] { assert hit[0] in hit; }
  }

  ghost predicate SoFar(links: seq<Link>, choices: seq<Kind>, phases: seq<Phase>, now: int, d: int,
                        events: seq<Event>) {
    && events == Flatten(phases)
    && OneAtATime(phases) && Confined(phases, links, 0, d)
    && (forall i :: 0 <= i < |phases| ==> Sensible(phases[i], links, choices) && phases[i].end <= now)
  }

  lemma SensibleIsCured(p: Phase, links: seq<Link>, choices: seq<Kind>)
    requires Sensible(p, links, choices)
    ensures p.Cures() && Known(p.hit, links) && Known(p.cure, links)
  {
    forall l | Hits(p.hit, l) ensures Hits(p.cure, l) {
      assert All in [All] && All.Names(l);
    }
  }

  lemma OneMore(links: seq<Link>, choices: seq<Kind>, phases: seq<Phase>, now: int, d: int, events: seq<Event>,
                p: Phase)
    requires SoFar(links, choices, phases, now, d, events)
    requires Sensible(p, links, choices) && now <= p.start && 0 <= p.start && p.end <= d && p.delay >= 0
    ensures SoFar(links, choices, phases + [p], p.end, d,
                  events + Batch(p.start, p.hit, p.fault, p.delay) + Batch(p.end, p.cure, Pass, 0))
  {
    SensibleIsCured(p, links, choices);
    SensibleLater(links, choices, phases, now, p);
    hide Sensible, Phase.Cures, Known, Confined, OneAtATime, Flatten;
    OnePhaseMore(phases, p, links, 0, d);
    EventsOf(events, p);
  }

  lemma SensibleLater(links: seq<Link>, choices: seq<Kind>, phases: seq<Phase>, now: int, p: Phase)
    requires forall i :: 0 <= i < |phases| ==> Sensible(phases[i], links, choices) && phases[i].end <= now
    requires Sensible(p, links, choices) && now <= p.start
    ensures var all := phases + [p];
            forall i :: 0 <= i < |all| ==> Sensible(all[i], links, choices) && all[i].end <= p.end
  {
    assert p.start < p.end;
    hide Sensible;
  }

  lemma JustOne(at: int, x: Target, f: Fault, delay: int)
    ensures Batch(at, [x], f, delay) == [Event(at, x, f, delay)]
  {
  }

  lemma CutIsSensible(p: Phase, links: seq<Link>, choices: seq<Kind>)
    requires p.start < p.end && CutPhase in choices && p.fault == Drop && p.delay == 0 && p.cure == [All]
    requires StrictlyPart(p.hit, links)
    ensures Sensible(p, links, choices)
  {
  }

  lemma Nothing(links: seq<Link>, choices: seq<Kind>, d: int)
    ensures SoFar(links, choices, [], 0, d, [])
    ensures forall t, u: int :: t <= u && SoFar(links, choices, [], t, d, []) ==> SoFar(links, choices, [], u, d, [])
  {
  }

  lemma Later(links: seq<Link>, choices: seq<Kind>, phases: seq<Phase>, now: int, d: int, events: seq<Event>)
    requires SoFar(links, choices, phases, now, d, events)
    ensures forall t :: now <= t ==> SoFar(links, choices, phases, t, d, events)
  {
  }

  // ----- From the numbers drawn

  /** Where the stream and the timeline stand before a phase is drawn. */
  datatype Turn = Turn(at: nat, now: int)
  {
    /** First comes how long all is quiet ... */
    function Start(rng: Rng, d: int): int {
      var (lo, hi) := PhaseBounds(d);
      now + Span(rng, at, lo, hi)
    }

    /** ... then what kind of phase follows ... */
    function KindAt(d: int): nat {
      var (lo, hi) := PhaseBounds(d);
      at + Uses(lo, hi)
    }

    function Choice(rng: Rng, d: int, choices: seq<Kind>): Kind
      requires choices != []
    {
      choices[rng.numbers(KindAt(d)) % |choices|]
    }

    /** ... then how long it lasts, as a cut, and otherwise as a blip ... */
    function End(rng: Rng, d: int, choices: seq<Kind>): int
      requires choices != []
    {
      var (lo, hi) := PhaseBounds(d);
      Start(rng, d) +
        if Choice(rng, d, choices) == CutPhase then Span(rng, KindAt(d) + 1, lo, hi)
        else Span(rng, KindAt(d) + 1 + Uses(lo, hi), Blip(lo), Blip(hi))
    }

    predicate Fits(rng: Rng, d: int, choices: seq<Kind>)
      requires choices != []
    {
      Start(rng, d) < d && End(rng, d, choices) <= d
    }

    /** ... and at last which links it strikes. */
    function LinkAt(rng: Rng, d: int, choices: seq<Kind>): nat
      requires choices != []
    {
      var (lo, hi) := PhaseBounds(d);
      KindAt(d) + 1 + Uses(lo, hi) +
        if Choice(rng, d, choices) == CutPhase then 0 else Uses(Blip(lo), Blip(hi))
    }

    function Next(rng: Rng, links: seq<Link>, d: int, choices: seq<Kind>): (Option<Phase>, Turn)
      requires links != [] && choices != []
    {
      var start, end, x := Start(rng, d), End(rng, d, choices), LinkAt(rng, d, choices);
      match Choice(rng, d, choices)
      case CutPhase =>
        if |links| < 2 then (None, Turn(x, start))
        else (Some(Phase(start, end, SubsetAt(rng, x, links), Drop, 0, [All])), Turn(x + |links|, end))
      case kind =>
        var (p, next) := Struck(rng, links, x, kind, start, end);
        (Some(p), Turn(next, end))
    }
  }

  /** The blip drawn at this place of the stream, and the place behind it. */
  function Struck(rng: Rng, links: seq<Link>, at: nat, kind: Kind, start: int, end: int): (Phase, nat)
    requires links != [] && kind != CutPhase
  {
    var one := [One(links[rng.numbers(at) % |links|])];
    match kind
    case ResetPhase => (Phase(start, end, one, Reset, 0, one), at + 1)
    case RefusePhase => (Phase(start, end, one, Refuse, 0, one), at + 1)
    case DelayedPhase =>
      var held := Span(rng, at + 1, 20 * MILLISECOND, 250 * MILLISECOND);
      SpanIsDrawn(rng, at + 1, 20 * MILLISECOND, 250 * MILLISECOND);
      (Phase(start, end, one, Delay, Rounded(held), one), at + 2)
  }

  lemma StruckIsSensible(rng: Rng, links: seq<Link>, at: nat, kind: Kind, start: int, end: int, choices: seq<Kind>)
    requires links != [] && kind != CutPhase && kind in choices && start < end
    ensures var p := Struck(rng, links, at, kind, start, end).0;
            && Sensible(p, links, choices) && p.start == start && p.end == end && p.delay >= 0 && p.fault != Drop
  {
    SpanIsDrawn(rng, at + 1, 20 * MILLISECOND, 250 * MILLISECOND);
    DelayIsWhole(Span(rng, at + 1, 20 * MILLISECOND, 250 * MILLISECOND));
    var p := Struck(rng, links, at, kind, start, end).0;
    assert p.hit == [One(links[rng.numbers(at) % |links|])];
    assert HitsOneLink(p, links);
  }

  /** Draws a blip: the link, and for a delay how long. */
  method Strike(rng: Rng, links: seq<Link>, kind: Kind, start: int, end: int)
    returns (x: Target, fault: Fault, delay: int)
    requires links != [] && kind != CutPhase
    modifies rng
    ensures (Phase(start, end, [x], fault, delay, [x]), rng.at) == Struck(rng, links, old(rng.at), kind, start, end)
  {
    var n := rng.IntN(|links|);
    x, fault, delay := One(links[n]), Reset, 0;
    if kind == RefusePhase {
      fault := Refuse;
    } else if kind == DelayedPhase {
      fault := Delay;
      var held := Between(rng, 20 * MILLISECOND, 250 * MILLISECOND);
      delay := Rounded(held);
    }
  }

  /** The phases of the first n turns, and where they lead. */
  function Played(rng: Rng, links: seq<Link>, d: int, choices: seq<Kind>, from: nat, n: nat): (seq<Phase>, Turn)
    requires links != [] && choices != []
  {
    if n == 0 then ([], Turn(from, 0))
    else
      var (phases, turn) := Played(rng, links, d, choices, from, n - 1);
      var (p, next) := turn.Next(rng, links, d, choices);
      (if p.Some? then phases + [p.value] else phases, next)
  }

  /** These are the phases of n turns, each of which fits. */
  ghost predicate Plays(rng: Rng, links: seq<Link>, d: int, choices: seq<Kind>, from: nat, n: nat,
                        phases: seq<Phase>, turn: Turn)
    requires links != [] && choices != []
  {
    && (phases, turn) == Played(rng, links, d, choices, from, n)
    && forall i :: 0 <= i < n ==> Played(rng, links, d, choices, from, i).1.Fits(rng, d, choices)
  }

  lemma NothingPlayed(rng: Rng, links: seq<Link>, d: int, choices: seq<Kind>, from: nat)
    requires links != [] && choices != []
    ensures Plays(rng, links, d, choices, from, 0, [], Turn(from, 0))
  {
  }

  lemma OneMorePlayed(rng: Rng, links: seq<Link>, d: int, choices: seq<Kind>, from: nat, n: nat,
                      phases: seq<Phase>, turn: Turn)
    requires links != [] && choices != [] && Plays(rng, links, d, choices, from, n, phases, turn)
    requires turn.Fits(rng, d, choices)
    ensures var (p, next) := turn.Next(rng, links, d, choices);
            Plays(rng, links, d, choices, from, n + 1, if p.Some? then phases + [p.value] else phases, next)
  {
    hide Turn.Next, Turn.Fits;
  }

  lemma TurnIs(turn: Turn, rng: Rng, links: seq<Link>, d: int, choices: seq<Kind>)
    requires links != [] && choices != []
    ensures var (lo, hi) := PhaseBounds(d);
            var start, w := turn.now + Span(rng, turn.at, lo, hi), Uses(lo, hi);
            var kind := choices[rng.numbers(turn.at + w) % |choices|];
            var x := turn.at + w + 1 + w + if kind == CutPhase then 0 else Uses(Blip(lo), Blip(hi));
            var end := start + if kind == CutPhase then Span(rng, turn.at + w + 1, lo, hi)
                               else Span(rng, turn.at + w + 1 + w, Blip(lo), Blip(hi));
            && turn.Start(rng, d) == start && turn.End(rng, d, choices) == end && turn.Choice(rng, d, choices) == kind
            && (turn.Fits(rng, d, choices) <==> start < d && end <= d)
            && turn.Next(rng, links, d, choices) ==
                 if kind != CutPhase then
                   var (p, next) := Struck(rng, links, x, kind, start, end);
                   (Some(p), Turn(next, end))
                 else if |links| < 2 then (None, Turn(x, start))
                 else (Some(Phase(start, end, SubsetAt(rng, x, links), Drop, 0, [All])), Turn(x + |links|, end))
  {
    hide PhaseBounds, Span, Uses, Blip, SubsetAt, Struck;
  }

  /** How far the timeline has been built. */
  ghost predicate Underway(rng: Rng, links: seq<Link>, d: int, choices: seq<Kind>, from: nat, n: nat,
                           phases: seq<Phase>, events: seq<Event>, turn: Turn)
    requires links != [] && choices != []
  {
    && turn.now >= 0
    && SoFar(links, choices, phases, turn.now, d, events)
    && FillsSoFar(links, choices, phases, d, turn.now)
    && Plays(rng, links, d, choices, from, n, phases, turn)
  }

  lemma Begun(rng: Rng, links: seq<Link>, d: int, choices: seq<Kind>)
    requires links != [] && choices != []
    ensures Underway(rng, links, d, choices, rng.at, 0, [], [], Turn(rng.at, 0))
  {
    hide *;
    Nothing(links, choices, d);
    NothingFilled(links, choices, d);
    NothingPlayed(rng, links, d, choices, rng.at);
    IsUnderway(rng, links, d, choices, rng.at, 0, [], [], Turn(rng.at, 0));
  }

  lemma IsUnderway(rng: Rng, links: seq<Link>, d: int, choices: seq<Kind>, from: nat, n: nat,
                   phases: seq<Phase>, events: seq<Event>, turn: Turn)
    requires links != [] && choices != [] && turn.now >= 0
    requires SoFar(links, choices, phases, turn.now, d, events) && FillsSoFar(links, choices, phases, d, turn.now)
    requires Plays(rng, links, d, choices, from, n, phases, turn)
    ensures Underway(rng, links, d, choices, from, n, phases, events, turn)
  {
  }

  lemma UnderwayIs(rng: Rng, links: seq<Link>, d: int, choices: seq<Kind>, from: nat, n: nat,
                   phases: seq<Phase>, events: seq<Event>, turn: Turn)
    requires links != [] && choices != [] && Underway(rng, links, d, choices, from, n, phases, events, turn)
    ensures turn.now >= 0
    ensures SoFar(links, choices, phases, turn.now, d, events) && FillsSoFar(links, choices, phases, d, turn.now)
    ensures Plays(rng, links, d, choices, from, n, phases, turn)
  {
  }

  lemma OneMoreTurn(rng: Rng, links: seq<Link>, d: int, choices: seq<Kind>, from: nat, n: nat,
                    phases: seq<Phase>, events: seq<Event>, turn: Turn, p: Phase, at: nat)
    requires d > 0 && links != [] && choices != []
    requires Underway(rng, links, d, choices, from, n, phases, events, turn)
    requires turn.Fits(rng, d, choices) && turn.Next(rng, links, d, choices) == (Some(p), Turn(at, p.end))
    requires Sensible(p, links, choices) && p.delay >= 0
    requires p.start == turn.Start(rng, d) && p.end == turn.End(rng, d, choices)
    requires p.fault == Drop <==> turn.Choice(rng, d, choices) == CutPhase
    ensures Underway(rng, links, d, choices, from, n + 1, phases + [p],
                     events + Batch(p.start, p.hit, p.fault, p.delay) + Batch(p.end, p.cure, Pass, 0), Turn(at, p.end))
  {
    hide *;
    UnderwayIs(rng, links, d, choices, from, n, phases, events, turn);
    TurnIs(turn, rng, links, d, choices);
    BoundsAreSane(d);
    var (lo, hi) := PhaseBounds(d);
    SpanIsDrawn(rng, turn.at, lo, hi);
    DrawnIs(p.start - turn.now, lo, hi);
    SensibleIsLong(p, links, choices);
    SpanIsDrawn(rng, turn.at + Uses(lo, hi) + 1, lo, hi);
    SpanIsDrawn(rng, turn.at + Uses(lo, hi) + 1 + Uses(lo, hi), Blip(lo), Blip(hi));
    HoldIs(d, p);
    OneMore(links, choices, phases, turn.now, d, events, p);
    OneMoreFits(links, choices, phases, d, turn.now, p);
    OneMorePlayed(rng, links, d, choices, from, n, phases, turn);
    IsUnderway(rng, links, d, choices, from, n + 1, phases + [p],
               events + Batch(p.start, p.hit, p.fault, p.delay) + Batch(p.end, p.cure, Pass, 0), Turn(at, p.end));
  }

  lemma SensibleIsLong(p: Phase, links: seq<Link>, choices: seq<Kind>)
    requires Sensible(p, links, choices)
    ensures p.start < p.end
  {
  }

  lemma OneTurnSkipped(rng: Rng, links: seq<Link>, d: int, choices: seq<Kind>, from: nat, n: nat,
                       phases: seq<Phase>, events: seq<Event>, turn: Turn, next: Turn)
    requires links != [] && choices != [] && Underway(rng, links, d, choices, from, n, phases, events, turn)
    requires turn.Fits(rng, d, choices) && turn.Next(rng, links, d, choices) == (None, next)
    requires turn.now <= next.now && !NoneIsSkipped(links, choices)
    ensures Underway(rng, links, d, choices, from, n + 1, phases, events, next)
  {
    hide *;
    UnderwayIs(rng, links, d, choices, from, n, phases, events, turn);
    Later(links, choices, phases, turn.now, d, events);
    CutSkipped(links, choices, phases, d, turn.now, next.now);
    OneMorePlayed(rng, links, d, choices, from, n, phases, turn);
    IsUnderway(rng, links, d, choices, from, n + 1, phases, events, next);
  }

  lemma NoTurnFits(rng: Rng, links: seq<Link>, d: int, choices: seq<Kind>, from: nat, n: nat,
                   phases: seq<Phase>, events: seq<Event>, turn: Turn)
    requires d > 0 && links != [] && choices != []
    requires Underway(rng, links, d, choices, from, n, phases, events, turn)
    requires !turn.Fits(rng, d, choices)
    ensures Fills(links, choices, phases, d)
    ensures SoFar(links, choices, phases, turn.now, d, events)
    ensures Plays(rng, links, d, choices, from, n, phases, turn)
  {
    hide *;
    UnderwayIs(rng, links, d, choices, from, n, phases, events, turn);
    TurnIs(turn, rng, links, d, choices);
    var (lo, hi) := PhaseBounds(d);
    SpanIsDrawn(rng, turn.at, lo, hi);
    SpanIsDrawn(rng, turn.at + Uses(lo, hi) + 1, lo, hi);
    SpanIsDrawn(rng, turn.at + Uses(lo, hi) + 1 + Uses(lo, hi), Blip(lo), Blip(hi));
    var wait, hold := turn.Start(rng, d) - turn.now, turn.End(rng, d, choices) - turn.Start(rng, d);
    NoMoreFits(links, choices, phases, d, turn.now, wait, if turn.Start(rng, d) >= d then 0 else hold);
  }

  lemma DelayIsWhole(held: int)
    requires Drawn(held, 20 * MILLISECOND, 250 * MILLISECOND)
    ensures held >= 0 && DelaySpan(Rounded(held))
  {
    MillisecondIs();
  }

  lemma HoldIs(d: int, p: Phase)
    ensures var (lo, hi) := PhaseBounds(d);
            Holds(d)(p) <==>
            if p.fault == Drop then Drawn(p.end - p.start, lo, hi) else Drawn(p.end - p.start, Blip(lo), Blip(hi))
  {
  }

  lemma DrawnIs(x: int, lo: int, hi: int)
    requires 0 < lo && Drawn(x, lo, hi)
    ensures x > 0
  {
  }

  /** Lays phases end to end until the run is used up. */
  method Generate(links: seq<Link>, rng: Rng, d: int, choices: seq<Kind>)
    returns (events: seq<Event>, ghost phases: seq<Phase>, ghost turns: nat)
    modifies rng
    ensures d <= 0 || links == [] || choices == [] ==> events == []
    ensures d > 0 && links != [] && choices != [] ==>
              exists turn: Turn ::
                && Plays(rng, links, d, choices, old(rng.at), turns, phases, turn)
                && !turn.Fits(rng, d, choices)
    ensures d > 0 && links != [] && choices != [] ==> Fills(links, choices, phases, d)
    ensures exists end :: SoFar(links, choices, phases, end, d, events)
  {
    hide *;
    events, phases, turns := [], [], 0;
    Nothing(links, choices, d);
    if d <= 0 || |links| == 0 || |choices| == 0 {
      return;
    }
    BoundsAreSane(d);
    MillisecondIs();
    SkippedIff(links, choices);
    var (lo, hi) := PhaseBounds(d);
    var t := 0;
    Begun(rng, links, d, choices);
    while true
      invariant Underway(rng, links, d, choices, old(rng.at), turns, phases, events, Turn(rng.at, t))
      decreases d - t
    {
      ghost var turn := Turn(rng.at, t);
      TurnIs(turn, rng, links, d, choices);
      var wait := Between(rng, lo, hi);
      DrawnIs(wait, lo, hi);
      t := t + wait;
      if t >= d {
        NoTurnFits(rng, links, d, choices, old(rng.at), turns, phases, events, turn);
        break;
      }
      var c := rng.IntN(|choices|);
      var p := choices[c];
      var hold := Between(rng, lo, hi);
      if p != CutPhase {
        hold := Between(rng, Blip(lo), Blip(hi));
        DrawnIs(hold, Blip(lo), Blip(hi));
      } else {
        DrawnIs(hold, lo, hi);
      }
      var end := t + hold;
      if end > d {
        NoTurnFits(rng, links, d, choices, old(rng.at), turns, phases, events, turn);
        break;
      }
      if p == CutPhase {
        var cut := StrictSubset(rng, links);
        if |cut| == 0 {
          StrictlyPartIsNotEmpty(cut, links);
          OneTurnSkipped(rng, links, d, choices, old(rng.at), turns, phases, events, turn, Turn(rng.at, t));
          turns := turns + 1;
          continue;
        }
        var faults := CutAll(cut, t);
        ghost var ph := Phase(t, end, cut, Drop, 0, [All]);
        CutIsSensible(ph, links, choices);
        OneMoreTurn(rng, links, d, choices, old(rng.at), turns, phases, events, turn, ph, rng.at);
        JustOne(end, All, Pass, 0);
        events := events + faults + [Event(end, All, Pass, 0)];
        phases := phases + [ph];
      } else {
        StruckIsSensible(rng, links, rng.at, p, t, end, choices);
        var x, fault, delay := Strike(rng, links, p, t, end);
        ghost var ph := Phase(t, end, [x], fault, delay, [x]);
        OneMoreTurn(rng, links, d, choices, old(rng.at), turns, phases, events, turn, ph, rng.at);
        JustOne(t, x, fault, delay);
        JustOne(end, x, Pass, 0);
        events := events + [Event(t, x, fault, delay)] + [Event(end, x, Pass, 0)];
        phases := phases + [ph];
      }
      t, turns := end, turns + 1;
    }
  }

  lemma SkippedIff(links: seq<Link>, choices: seq<Kind>)
    ensures NoneIsSkipped(links, choices) <==> |links| >= 2 || CutPhase !in choices
  {
  }

  lemma StrictlyPartIsNotEmpty(cut: seq<Target>, links: seq<Link>)
    ensures StrictlyPart(cut, links) ==> cut != []
  {
  }

  method CutAll(cut: seq<Target>, at: int) returns (events: seq<Event>)
    ensures events == Batch(at, cut, Drop, 0)
  {
    events := [];
    for i := 0 to |cut|
      invariant |events| == i && forall j :: 0 <= j < i ==> events[j] == Event(at, cut[j], Drop, 0)
    {
      events := events + [Event(at, cut[i], Drop, 0)];
    }
  }

  // ----- What a generated timeline guarantees

  /** It is in order, within the run, and would be accepted as it stands. */
  lemma GeneratedIsAcceptable(links: seq<Link>, choices: seq<Kind>, phases: seq<Phase>, end: int, d: int,
                              events: seq<Event>)
    requires SoFar(links, choices, phases, end, d, events)
    ensures SortedBy(Earlier(), events) && forall e :: e in events ==> Acceptable(links, d, e)
  {
    hide Sensible;
    FlattenIsAcceptable(phases, links, 0, d, d);
  }

  /** Some link is always untouched, even in the middle of a cut ... */
  lemma NeverEveryLink(links: seq<Link>, choices: seq<Kind>, phases: seq<Phase>, end: int, d: int,
                       events: seq<Event>, now: int)
    requires SoFar(links, choices, phases, end, d, events) && NoDuplicates(links) && |links| >= 2
    ensures exists l :: l in links && FaultAt(events, l, now) == Pass
  {
    if i: nat :| i < |phases| && phases[i].Under(now) {
      var l := Untouched(phases[i], links, choices);
      FaultDuring(phases, i, l, now);
    } else {
      var l := links[0];
      assert l in links;
      hide FaultAt, Hits, Flatten, Sensible;
      OnlyThePhaseUnderWay(phases, l, now);
    }
  }

  lemma Untouched(p: Phase, links: seq<Link>, choices: seq<Kind>) returns (l: Link)
    requires Sensible(p, links, choices) && NoDuplicates(links) && |links| >= 2
    ensures l in links && !Hits(p.hit, l)
  {
    if p.fault == Drop {
      l :| l in links && One(l) !in p.hit;
    } else {
      l := if p.hit == [One(links[0])] then links[1] else links[0];
    }
  }

  /** ... and at the end of the run every link passes. */
  lemma GeneratedEndsWhole(links: seq<Link>, choices: seq<Kind>, phases: seq<Phase>, end: int, d: int,
                           events: seq<Event>, l: Link)
    requires SoFar(links, choices, phases, end, d, events)
    ensures FaultAt(events, l, d) == Pass
  {
    hide Sensible, FaultAt, Hits, Flatten;
    EndsWhole(phases, l, d);
  }
}
