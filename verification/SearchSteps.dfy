/** How the variables of the search loop follow the machine. */
module SearchSteps {
  import opened History
  import opened Model
  import opened Verdicts
  import opened Timeline
  import opened Machine
  import opened MachineInvariant
  import opened MachineResult
  import opened EntryList
  import opened ListInvariant
  import opened Bitset
  import Store = Cache

  /** A placed call, and the state the search was in before it was placed. */
  datatype HeapFrame = HeapFrame(call: Entry, state: int)

  /** The list is what is not yet placed, and what was lifted knows its place. */
  ghost predicate ListShows(t: Timeline, nodes: seq<Entry>, l: Links, frames: seq<Frame>)
    requires t.Valid()
  {
    && l.Linked(nodes, LiveList(t, Placed(Ids(frames))))
    && AllParked(t, l, nodes, frames)
  }

  /** The stack holds the machine's calls. */
  ghost predicate StackShows(t: Timeline, nodes: seq<Entry>, calls: seq<HeapFrame>, frames: seq<Frame>)
    requires t.Valid() && |nodes| == |t.order| + 1
  {
    && |calls| == |frames|
    && forall j :: 0 <= j < |calls| ==> Stacked(t, nodes, calls[j], frames[j])
  }

  ghost predicate Stacked(t: Timeline, nodes: seq<Entry>, h: HeapFrame, f: Frame)
    requires t.Valid() && |nodes| == |t.order| + 1
  {
    f.id < |t.ops| && h.state == f.state && h.call == nodes[CallPos(t, f.id)]
  }

  /** The variables the loop updates: the entry at hand, the model state, the
      calls placed so far, the deepest refusal, and the transitions spent. */
  datatype Vars = Vars(
    e: Entry?,
    state: int,
    calls: seq<HeapFrame>,
    bestDepth: int,
    bestState: int,
    bestOp: Option<Op>,
    visits: nat)

  /** The loop's variables, the list, and the bits are those of the machine. */
  ghost predicate InStep(t: Timeline, nodes: seq<Entry>, l: Links, mates: seq<Entry?>, words: seq<bv64>,
                         v: Vars, s: Search) {
    && Represents(t, nodes, mates)
    && Shows(t, nodes, l, words, v.e, v.calls, s.calls, s.pos)
    && Tallies(t, v, s)
  }

  /** The counters and the deepest refusal so far. */
  ghost predicate Tallies(t: Timeline, v: Vars, s: Search) {
    && v.state == s.state && v.visits == s.visits && v.bestDepth == s.Depth()
    && match s.best
       case None => v.bestOp == None
       case Some(b) => b.culprit < |t.ops| && v.bestState == b.state && v.bestOp == Some(t.ops[b.culprit])
  }

  /** The entry at hand, the stack, the list and the bits are those of the machine. */
  ghost predicate Shows(t: Timeline, nodes: seq<Entry>, l: Links, words: seq<bv64>, e: Entry?,
                        calls: seq<HeapFrame>, frames: seq<Frame>, pos: nat)
    requires t.Valid()
  {
    && Mirrors(t, nodes)
    && ListShows(t, nodes, l, frames) && StackShows(t, nodes, calls, frames)
    && |words| == Words(|t.ops|) && Members(words) == Placed(Ids(frames))
    && pos <= |t.order| && e == At(nodes, pos + 1)
  }

  /** The cache remembers what the machine does, and has counted it. */
  ghost predicate Recalls(t: Timeline, remembered: set<(seq<bv64>, int)>, bytes: nat, s: Search) {
    && (forall w: seq<bv64>, v {:trigger (w, v) in remembered} :: |w| == Words(|t.ops|) ==>
          ((w, v) in remembered <==> (Members(w), v) in s.seen))
    && bytes == |s.seen| * EntryBytes(|t.ops|)
  }

  /** The entry at the machine's position. */
  lemma AtHand(t: Timeline, nodes: seq<Entry>, k: nat)
    requires t.Valid() && Mirrors(t, nodes) && k < |t.order|
    ensures nodes[k + 1].op == Some(t.order[k].op)
    ensures nodes[k + 1].id == t.order[k].id && nodes[k + 1].isReturn == t.order[k].isReturn
    ensures t.order[k].id < |t.ops| && t.order[k].op == t.ops[t.order[k].id]
    ensures !t.order[k].isReturn ==> k + 1 == CallPos(t, t.order[k].id)
  {
    var o := t.order[k];
    assert o == End(t.ops[o.id], o.id, o.isReturn);
  }

  /** Following `next` from a listed entry, or from the sentinel. */
  lemma Follow(t: Timeline, nodes: seq<Entry>, l: Links, frames: seq<Frame>, k: nat)
    requires t.Valid() && |nodes| == |t.order| + 1 && ListShows(t, nodes, l, frames)
    requires k <= |t.order| && (k == 0 || t.Live(Placed(Ids(frames)), k - 1))
    ensures |l.next| == |nodes|
    ensures l.next[k] == At(nodes, t.NextLive(Placed(Ids(frames)), k) + 1)
    ensures l.next[k] == null <==> t.NextLive(Placed(Ids(frames)), k) == |t.order|
  {
    NextEntry(t, Placed(Ids(frames)), k);
    assert l.PointsInto(nodes, LiveList(t, Placed(Ids(frames))), k);
  }

  /** Placing a call. */
  lemma PushShows(t: Timeline, nodes: seq<Entry>, l: Links, calls: seq<HeapFrame>, frames: seq<Frame>, f: Frame)
    requires t.Valid() && |nodes| == |t.order| + 1
    requires ListShows(t, nodes, l, frames) && StackShows(t, nodes, calls, frames)
    requires f.id < |t.ops| && f.id !in Placed(Ids(frames))
    ensures var live := LiveList(t, Placed(Ids(frames)));
            var c, r := CallPos(t, f.id), ReturnPos(t, f.id);
            && 0 < c < r < |nodes| && c in live && r in live && l.Linked(nodes, live)
            && ListShows(t, nodes, l.Lifted(live, c, r), frames + [f])
            && StackShows(t, nodes, calls + [HeapFrame(nodes[c], f.state)], frames + [f])
  {
    PlacingShrinksList(t, Placed(Ids(frames)), f.id);
    ParkedAfterPush(t, l, nodes, frames, f);
    hide Links.PointsInto, Links.Lifted, Links.Linked, AllParked, LiveList;
  }

  /** Taking the last call back. */
  lemma PopShows(t: Timeline, nodes: seq<Entry>, l: Links, calls: seq<HeapFrame>, top: HeapFrame,
                 pre: seq<Frame>, f: Frame)
    requires t.Valid() && |nodes| == |t.order| + 1
    requires ListShows(t, nodes, l, pre + [f]) && StackShows(t, nodes, calls + [top], pre + [f])
    requires f.id !in Placed(Ids(pre))
    ensures var live := LiveList(t, Placed(Ids(pre)));
            var c, r := CallPos(t, f.id), ReturnPos(t, f.id);
            && 0 < c < r < |nodes| && c in live && r in live && |l.prev| == |l.next| == |nodes|
            && l.Parked(nodes, live, c, r) && l.Linked(nodes, live - {c} - {r})
            && top.call == nodes[c] && top.state == f.state && f.id < |t.ops|
            && ListShows(t, nodes, l.Unlifted(nodes, live, c, r), pre)
            && StackShows(t, nodes, calls, pre)
  {
    assert Stacked(t, nodes, (calls + [top])[|pre|], (pre + [f])[|pre|]);
    forall j | 0 <= j < |pre| ensures Stacked(t, nodes, calls[j], pre[j]) {
      assert Stacked(t, nodes, (calls + [top])[j], (pre + [f])[j]);
    }
    ParkedAfterPop(t, l, nodes, pre, f);
    hide Links.PointsInto, Links.Unlifted, Links.Linked, Links.Parked, AllParked, LiveList;
  }

  /** A set bit more, or a set bit less. */
  lemma TracksPlacing(t: Timeline, words: seq<bv64>, more: seq<bv64>, frames: seq<Frame>, f: Frame)
    requires |words| == |more| == Words(|t.ops|) && Members(words) == Placed(Ids(frames))
    requires Members(more) == Members(words) + {f.id}
    ensures Members(more) == Placed(Ids(frames + [f]))
  {
    PushPlaces(frames, f);
  }

  lemma TracksTakingBack(words: seq<bv64>, less: seq<bv64>, pre: seq<Frame>, f: Frame)
    requires Members(words) == Placed(Ids(pre + [f])) && f.id !in Placed(Ids(pre))
    requires Members(less) == Members(words) - {f.id}
    ensures Members(less) == Placed(Ids(pre))
  {
    PushPlaces(pre, f);
  }

  /** The last call was not placed before it was placed. */
  lemma TopIsNew(t: Timeline, m: Model, s: Search)
    requires Inv(t, m, s) && s.calls != []
    ensures var pre, top := s.calls[..|s.calls| - 1], s.calls[|s.calls| - 1];
            top.id !in Placed(Ids(pre)) && top.id < |t.ops|
  {
    AfterLast(t, m, Ids(s.calls));
    IdsPop(s.calls);
  }

  /** Two sets of bits agree on an operation's number exactly when they are equal. */
  lemma SameConfiguration(w: seq<bv64>, v: int, words: seq<bv64>, next: int)
    requires |w| == |words|
    ensures (Members(w), v) == (Members(words), next) <==> w == words && v == next
  {
    if Members(w) == Members(words) { SameMembersSameWords(w, words); }
  }

  /** Remembering one more configuration. */
  lemma RecallsMore(t: Timeline, remembered: set<(seq<bv64>, int)>, bytes: nat, words: seq<bv64>, next: int,
                    s: Search, s': Search)
    requires Recalls(t, remembered, bytes, s) && |words| == Words(|t.ops|)
    requires (Members(words), next) !in s.seen && s'.seen == s.seen + {(Members(words), next)}
    ensures Recalls(t, remembered + {(words, next)}, bytes + EntryBytes(|t.ops|), s')
  {
    forall w: seq<bv64>, v | |w| == Words(|t.ops|)
      ensures (w, v) in remembered + {(words, next)} <==> (Members(w), v) in s'.seen
    {
      SameConfiguration(w, v, words, next);
    }
  }

  lemma RecallsStill(t: Timeline, remembered: set<(seq<bv64>, int)>, bytes: nat, s: Search, s': Search)
    requires Recalls(t, remembered, bytes, s) && s'.seen == s.seen
    ensures Recalls(t, remembered, bytes, s')
  {
  }

  /** What the cache says about a configuration of the history. */
  lemma RecallsIt(t: Timeline, remembered: set<(seq<bv64>, int)>, bytes: nat, s: Search, words: seq<bv64>, v: int)
    requires Recalls(t, remembered, bytes, s) && |words| == Words(|t.ops|)
    ensures (words, v) in remembered <==> (Members(words), v) in s.seen
    ensures bytes == |s.seen| * EntryBytes(|t.ops|)
  {
  }

  // ----- The machine's iterations, field by field

  /** Where a run stands, and how it goes on. */
  lemma RunUnfolds(t: Timeline, m: Model, opt: Options, late: Clock, s: Search, k: nat)
    requires Inv(t, m, s)
    ensures t.Valid() && s.pos <= |t.order|
    ensures Complete(t, s) ==> Run(t, m, opt, late, s, k) == Ending(Verdict.Linearizable, s)
    ensures !Complete(t, s) ==> s.pos < |t.order| && t.Live(s.Done(), s.pos)
    ensures !Complete(t, s) && Spent(t, opt, late, s, k) ==>
              Run(t, m, opt, late, s, k) == Ending(Verdict.Unknown, s)
    ensures !Complete(t, s) && !Spent(t, opt, late, s, k) && Stuck(t, s) ==>
              Run(t, m, opt, late, s, k) == Ending(Verdict.NotLinearizable, s)
    ensures s.calls != [] ==> s.calls[|s.calls| - 1].id < |t.ops|
    ensures !Complete(t, s) && !Spent(t, opt, late, s, k) && !Stuck(t, s) ==>
              var s' := Next(t, m, s);
              && Inv(t, m, s') && Run(t, m, opt, late, s, k) == Run(t, m, opt, late, s', k + 1)
              && (|| Unexplored(t, m, s') < Unexplored(t, m, s)
                  || (s'.seen == s.seen && |s'.calls| < |s.calls|)
                  || (s'.seen == s.seen && |s'.calls| == |s.calls| && s.pos < s'.pos <= |t.order|))
  {
    assert s.calls != [] ==> Holds(t, m, s.calls, |s.calls| - 1, s.Depth());
    if !Complete(t, s) {
      NeverOffTheEnd(t, m, s);
      if !Stuck(t, s) {
        Preserved(t, m, s);
        Progress(t, m, s);
        hide Next, Inv;
      }
    }
  }

  /** The position at hand is a call that is still in the list. */
  ghost predicate AtCall(t: Timeline, s: Search) {
    && t.Valid() && s.pos < |t.order| && !t.order[s.pos].isReturn && t.order[s.pos].id < |t.ops|
    && t.order[s.pos].id !in s.Done()
    && (s.calls != [] ==> s.calls[|s.calls| - 1].id < |t.ops|)
  }

  /** A call refused. */
  lemma NextAfterRefusal(t: Timeline, m: Model, s: Search)
    requires AtCall(t, s) && !m.Step(s.state, t.order[s.pos].op).1
    ensures Next(t, m, s) == s.(
              visits := s.visits + 1,
              pos := t.NextLive(Placed(Ids(s.calls)), s.pos + 1),
              best := if |s.calls| > s.Depth()
                      then Some(Best(Ids(s.calls), s.state, t.order[s.pos].id)) else s.best)
  {
  }

  /** A call that leads where the search has been. */
  lemma NextAfterPrune(t: Timeline, m: Model, s: Search)
    requires AtCall(t, s) && m.Step(s.state, t.order[s.pos].op).1
    requires (Placed(Ids(s.calls)) + {t.order[s.pos].id}, m.Step(s.state, t.order[s.pos].op).0) in s.seen
    ensures Next(t, m, s) == s.(
              visits := s.visits + 1,
              pos := t.NextLive(Placed(Ids(s.calls)), s.pos + 1))
  {
  }

  /** A call placed. */
  lemma NextAfterPlacing(t: Timeline, m: Model, s: Search)
    requires AtCall(t, s) && m.Step(s.state, t.order[s.pos].op).1
    requires (Placed(Ids(s.calls)) + {t.order[s.pos].id}, m.Step(s.state, t.order[s.pos].op).0) !in s.seen
    ensures var calls := s.calls + [Frame(t.order[s.pos].id, s.state)];
            var next := m.Step(s.state, t.order[s.pos].op).0;
            && Next(t, m, s) == s.(
                 visits := s.visits + 1, calls := calls, state := next,
                 seen := s.seen + {(Placed(Ids(s.calls)) + {t.order[s.pos].id}, next)},
                 pos := t.NextLive(Placed(Ids(calls)), 0))
            && Placed(Ids(calls)) == Placed(Ids(s.calls)) + {t.order[s.pos].id}
  {
    PushPlaces(s.calls, Frame(t.order[s.pos].id, s.state));
  }

  lemma NextOfReturn(t: Timeline, m: Model, s: Search)
    requires t.Valid() && s.pos < |t.order| && t.order[s.pos].isReturn && s.calls != []
    requires s.calls[|s.calls| - 1].id < |t.ops|
    ensures var pre, top := s.calls[..|s.calls| - 1], s.calls[|s.calls| - 1];
            Next(t, m, s) == s.(calls := pre, state := top.state,
                                pos := t.NextLive(Placed(Ids(pre)), t.CallIndex(top.id) + 1))
  {
  }

  // ----- The loop's iterations

  lemma SizeOf(t: Timeline, nodes: seq<Entry>)
    requires Mirrors(t, nodes)
    ensures |nodes| == |t.order| + 1
  {
  }

  /** The list, the stack and the bits in step, and `next` followed from position `k`. */
  lemma Showing(t: Timeline, nodes: seq<Entry>, l: Links, words: seq<bv64>, calls: seq<HeapFrame>,
                frames: seq<Frame>, k: nat)
    requires t.Valid() && Mirrors(t, nodes)
    requires |nodes| == |t.order| + 1 && ListShows(t, nodes, l, frames) && StackShows(t, nodes, calls, frames)
    requires |words| == Words(|t.ops|) && Members(words) == Placed(Ids(frames))
    requires k <= |t.order| && (k == 0 || t.Live(Placed(Ids(frames)), k - 1))
    ensures |l.next| == |nodes|
    ensures Shows(t, nodes, l, words, l.next[k], calls, frames, t.NextLive(Placed(Ids(frames)), k))
  {
    hide ListShows, StackShows, Mirrors, Members, Timeline.NextLive, Timeline.Valid, Timeline.Live, Placed, Ids;
    Follow(t, nodes, l, frames, k);
  }

  /** Moving on to the next entry. */
  lemma SkipShows(t: Timeline, nodes: seq<Entry>, l: Links, words: seq<bv64>, e: Entry?,
                  calls: seq<HeapFrame>, frames: seq<Frame>, pos: nat)
    requires t.Valid() && Shows(t, nodes, l, words, e, calls, frames, pos)
    requires pos < |t.order| && t.Live(Placed(Ids(frames)), pos)
    ensures |l.next| == |nodes| == |t.order| + 1
    ensures Shows(t, nodes, l, words, l.next[pos + 1], calls, frames, t.NextLive(Placed(Ids(frames)), pos + 1))
  {
    SizeOf(t, nodes);
    Showing(t, nodes, l, words, calls, frames, pos + 1);
  }

  /** Placing the call at hand: the list is ready for it ... */
  lemma PlaceReady(t: Timeline, nodes: seq<Entry>, l: Links, words: seq<bv64>, e: Entry?,
                   calls: seq<HeapFrame>, frames: seq<Frame>, pos: nat, f: Frame)
    requires t.Valid() && Shows(t, nodes, l, words, e, calls, frames, pos)
    requires f.id < |t.ops| && f.id !in Placed(Ids(frames)) && pos + 1 == CallPos(t, f.id)
    ensures var live := LiveList(t, Placed(Ids(frames)));
            var c, r := CallPos(t, f.id), ReturnPos(t, f.id);
            && 0 < c < r < |nodes| && c in live && r in live && l.Linked(nodes, live) && e == nodes[c]
  {
    SizeOf(t, nodes);
    hide ListShows, StackShows, Mirrors, Members, Timeline.Valid, Placed, Ids, LiveList, Links.Linked;
    PushShows(t, nodes, l, calls, frames, f);
  }

  /** ... and shows what it should afterwards. */
  lemma PlaceShows(t: Timeline, nodes: seq<Entry>, l: Links, words: seq<bv64>, more: seq<bv64>, e: Entry?,
                   calls: seq<HeapFrame>, frames: seq<Frame>, pos: nat, f: Frame, l': Links)
    requires t.Valid() && Shows(t, nodes, l, words, e, calls, frames, pos)
    requires f.id < |t.ops| && f.id !in Placed(Ids(frames)) && pos + 1 == CallPos(t, f.id)
    requires |more| == |words| && Members(more) == Members(words) + {f.id}
    requires 0 < CallPos(t, f.id) < ReturnPos(t, f.id) < |nodes| && |l.prev| == |l.next| == |nodes|
    requires e == nodes[CallPos(t, f.id)]
    requires l' == l.Lifted(LiveList(t, Placed(Ids(frames))), CallPos(t, f.id), ReturnPos(t, f.id))
    ensures |l'.next| == |nodes|
    ensures Shows(t, nodes, l', more, l'.next[0], calls + [HeapFrame(nodes[CallPos(t, f.id)], f.state)], frames + [f],
                  t.NextLive(Placed(Ids(frames + [f])), 0))
  {
    SizeOf(t, nodes);
    hide ListShows, StackShows, Mirrors, Members, Timeline.Valid, Placed, Ids, LiveList, Links.Lifted;
    TracksPlacing(t, words, more, frames, f);
    PushShows(t, nodes, l, calls, frames, f);
    hide Shows;
    Showing(t, nodes, l', more, calls + [HeapFrame(nodes[CallPos(t, f.id)], f.state)], frames + [f], 0);
  }

  /** Taking the last call back: the list and the stack are ready for it ... */
  lemma BacktrackReady(t: Timeline, nodes: seq<Entry>, l: Links, words: seq<bv64>, e: Entry?,
                       calls: seq<HeapFrame>, top: HeapFrame, pre: seq<Frame>, f: Frame, pos: nat)
    requires t.Valid() && Shows(t, nodes, l, words, e, calls + [top], pre + [f], pos)
    requires f.id !in Placed(Ids(pre))
    ensures var live := LiveList(t, Placed(Ids(pre)));
            var c, r := CallPos(t, f.id), ReturnPos(t, f.id);
            && 0 < c < r < |nodes| && c in live && r in live
            && l.Parked(nodes, live, c, r) && l.Linked(nodes, live - {c} - {r})
            && top.call == nodes[c] && top.state == f.state && f.id < |t.ops|
  {
    SizeOf(t, nodes);
    hide ListShows, StackShows, Mirrors, Members, Timeline.Valid, Placed, Ids, LiveList, Links.Parked, Links.Linked;
    PopShows(t, nodes, l, calls, top, pre, f);
  }

  /** ... and show what they should afterwards. */
  lemma BacktrackShows(t: Timeline, nodes: seq<Entry>, l: Links, words: seq<bv64>, less: seq<bv64>, e: Entry?,
                       calls: seq<HeapFrame>, top: HeapFrame, pre: seq<Frame>, f: Frame, pos: nat, l': Links)
    requires t.Valid() && Shows(t, nodes, l, words, e, calls + [top], pre + [f], pos)
    requires f.id !in Placed(Ids(pre)) && f.id < |t.ops|
    requires |less| == |words| && Members(less) == Members(words) - {f.id}
    requires 0 < CallPos(t, f.id) < ReturnPos(t, f.id) < |nodes| && |l.prev| == |l.next| == |nodes|
    requires l' == l.Unlifted(nodes, LiveList(t, Placed(Ids(pre))), CallPos(t, f.id), ReturnPos(t, f.id))
    ensures |l'.next| == |nodes|
    ensures Shows(t, nodes, l', less, l'.next[CallPos(t, f.id)], calls, pre,
                  t.NextLive(Placed(Ids(pre)), CallPos(t, f.id)))
  {
    SizeOf(t, nodes);
    hide ListShows, StackShows, Mirrors, Members, Timeline.Valid, Timeline.Live, Placed, Ids, LiveList, Links.Unlifted;
    TracksTakingBack(words, less, pre, f);
    PopShows(t, nodes, l, calls, top, pre, f);
    CallIsListed(t, Placed(Ids(pre)), f.id);
    hide Shows;
    Showing(t, nodes, l', less, calls, pre, CallPos(t, f.id));
  }

  lemma CallIsListed(t: Timeline, placed: set<nat>, i: nat)
    requires t.Valid() && i < |t.ops| && i !in placed
    ensures 0 < CallPos(t, i) <= |t.order| && t.Live(placed, CallPos(t, i) - 1)
  {
  }

  // ----- The loop's variables after each iteration

  /** What the loop can read off its variables. */
  lemma Reading(t: Timeline, nodes: seq<Entry>, l: Links, mates: seq<Entry?>, words: seq<bv64>, v: Vars, s: Search)
    requires InStep(t, nodes, l, mates, words, v, s)
    ensures t.Valid() && Mirrors(t, nodes) && |nodes| == |mates| == |t.order| + 1 && s.pos <= |t.order|
    ensures v.state == s.state && |v.calls| == |s.calls| && v.bestDepth == s.Depth()
    ensures |words| == Words(|t.ops|) && Members(words) == s.Done() == Placed(Ids(s.calls))
    ensures s.pos < |t.order| ==> v.e == nodes[s.pos + 1]
    ensures Shows(t, nodes, l, words, v.e, v.calls, s.calls, s.pos)
    ensures Represents(t, nodes, mates) && Tallies(t, v, s)
  {
  }

  lemma CallFacts(t: Timeline, s: Search)
    requires AtCall(t, s)
    ensures s.pos < |t.order| && !t.order[s.pos].isReturn && t.order[s.pos].id < |t.ops|
    ensures t.order[s.pos].op == t.ops[t.order[s.pos].id]
    ensures s.pos + 1 == CallPos(t, t.order[s.pos].id) && t.Live(s.Done(), s.pos)
    ensures t.order[s.pos].id !in s.Done()
  {
    var o := t.order[s.pos];
    assert o == End(t.ops[o.id], o.id, o.isReturn);
  }

  lemma TalliesAfter(t: Timeline, v: Vars, s: Search, v': Vars, s': Search)
    requires Tallies(t, v, s) && s'.best == s.best && v'.state == s'.state
    requires v'.visits - v.visits == s'.visits - s.visits
    requires v'.bestDepth == v.bestDepth && v'.bestState == v.bestState && v'.bestOp == v.bestOp
    ensures Tallies(t, v', s')
  {
  }

  lemma TalliesDeeper(t: Timeline, v: Vars, s: Search, v': Vars, s': Search, i: nat)
    requires Tallies(t, v, s) && i < |t.ops| && v'.state == v.state && s'.state == s.state
    requires v'.visits == v.visits + 1 && s'.visits == s.visits + 1
    requires s'.best == Some(Best(Ids(s.calls), s.state, i)) && |v.calls| == |s.calls|
    requires v'.bestDepth == |v.calls| && v'.bestState == v.state && v'.bestOp == Some(t.ops[i])
    ensures Tallies(t, v', s')
  {
  }

  lemma Assembled(t: Timeline, nodes: seq<Entry>, l: Links, mates: seq<Entry?>, words: seq<bv64>, v: Vars, s: Search)
    requires Represents(t, nodes, mates) && Shows(t, nodes, l, words, v.e, v.calls, s.calls, s.pos) && Tallies(t, v, s)
    ensures InStep(t, nodes, l, mates, words, v, s)
  {
  }

  /** Moving on after a refusal ... */
  lemma RefusedInStep(t: Timeline, m: Model, nodes: seq<Entry>, l: Links, mates: seq<Entry?>, words: seq<bv64>,
                      v: Vars, s: Search)
    requires InStep(t, nodes, l, mates, words, v, s) && AtCall(t, s)
    requires !m.Step(s.state, t.order[s.pos].op).1
    ensures |l.next| > s.pos + 1
    ensures var v' := v.(e := l.next[s.pos + 1], visits := v.visits + 1);
            InStep(t, nodes, l, mates, words,
                   if |v.calls| > v.bestDepth
                   then v'.(bestDepth := |v.calls|, bestState := v.state, bestOp := Some(t.order[s.pos].op))
                   else v',
                   Next(t, m, s))
    ensures Next(t, m, s).seen == s.seen
  {
    hide *;
    Reading(t, nodes, l, mates, words, v, s);
    CallFacts(t, s);
    NextAfterRefusal(t, m, s);
    SkipShows(t, nodes, l, words, v.e, v.calls, s.calls, s.pos);
    var v' := v.(e := l.next[s.pos + 1], visits := v.visits + 1);
    if |v.calls| > v.bestDepth {
      v' := v'.(bestDepth := |v.calls|, bestState := v.state, bestOp := Some(t.order[s.pos].op));
      TalliesDeeper(t, v, s, v', Next(t, m, s), t.order[s.pos].id);
    } else {
      TalliesAfter(t, v, s, v', Next(t, m, s));
    }
    Assembled(t, nodes, l, mates, words, v', Next(t, m, s));
  }

  /** ... or after finding the search has been there. */
  lemma PrunedInStep(t: Timeline, m: Model, nodes: seq<Entry>, l: Links, mates: seq<Entry?>, words: seq<bv64>,
                     more: seq<bv64>, v: Vars, s: Search)
    requires InStep(t, nodes, l, mates, words, v, s) && AtCall(t, s)
    requires m.Step(s.state, t.order[s.pos].op).1
    requires Members(more) == Members(words) + {t.order[s.pos].id}
    requires (Members(more), m.Step(s.state, t.order[s.pos].op).0) in s.seen
    ensures |l.next| > s.pos + 1
    ensures InStep(t, nodes, l, mates, words, v.(e := l.next[s.pos + 1], visits := v.visits + 1), Next(t, m, s))
    ensures Next(t, m, s).seen == s.seen
  {
    hide *;
    Reading(t, nodes, l, mates, words, v, s);
    CallFacts(t, s);
    NextAfterPrune(t, m, s);
    SkipShows(t, nodes, l, words, v.e, v.calls, s.calls, s.pos);
    var v' := v.(e := l.next[s.pos + 1], visits := v.visits + 1);
    TalliesAfter(t, v, s, v', Next(t, m, s));
    Assembled(t, nodes, l, mates, words, v', Next(t, m, s));
  }

  /** Placing the call at hand: the list is ready ... */
  lemma ReadyToPlace(t: Timeline, nodes: seq<Entry>, l: Links, mates: seq<Entry?>, words: seq<bv64>, v: Vars, s: Search)
    requires InStep(t, nodes, l, mates, words, v, s) && AtCall(t, s)
    ensures var live := LiveList(t, s.Done());
            var c, r := CallPos(t, t.order[s.pos].id), ReturnPos(t, t.order[s.pos].id);
            && 0 < c < r < |nodes| == |mates| && c in live && r in live && l.Linked(nodes, live) && Distinct(nodes)
            && v.e == nodes[c] && mates[c] == nodes[r]
  {
    hide *;
    Reading(t, nodes, l, mates, words, v, s);
    CallFacts(t, s);
    EntriesAreDistinct(t, nodes);
    PlaceReady(t, nodes, l, words, v.e, v.calls, s.calls, s.pos, Frame(t.order[s.pos].id, s.state));
    MateOf(t, nodes, mates, t.order[s.pos].id);
  }

  lemma MateOf(t: Timeline, nodes: seq<Entry>, mates: seq<Entry?>, i: nat)
    requires Represents(t, nodes, mates) && i < |t.ops|
    ensures CallPos(t, i) < |mates| && ReturnPos(t, i) < |nodes| && mates[CallPos(t, i)] == nodes[ReturnPos(t, i)]
    ensures CallPos(t, i) < |nodes| && nodes[CallPos(t, i)].id == i
    ensures i / 64 < Words(|t.ops|)
  {
    AtHand(t, nodes, t.callAt[i]);
  }

  /** ... and afterwards the machine has placed it too. */
  lemma PlacedInStep(t: Timeline, m: Model, nodes: seq<Entry>, l: Links, l': Links, mates: seq<Entry?>,
                     words: seq<bv64>, more: seq<bv64>, v: Vars, s: Search)
    requires InStep(t, nodes, l, mates, words, v, s) && AtCall(t, s)
    requires m.Step(s.state, t.order[s.pos].op).1
    requires |more| == |words| && Members(more) == Members(words) + {t.order[s.pos].id}
    requires (Members(more), m.Step(s.state, t.order[s.pos].op).0) !in s.seen
    requires var c, r := CallPos(t, t.order[s.pos].id), ReturnPos(t, t.order[s.pos].id);
             && 0 < c < r < |nodes| && |l.prev| == |l.next| == |nodes| && v.e == nodes[c]
             && l' == l.Lifted(LiveList(t, s.Done()), c, r)
    ensures |l'.next| == |nodes| > 0
    ensures var next := m.Step(s.state, t.order[s.pos].op).0;
            && InStep(t, nodes, l', mates, more,
                      v.(e := l'.next[0], visits := v.visits + 1, state := next,
                         calls := v.calls + [HeapFrame(v.e, v.state)]),
                      Next(t, m, s))
            && Next(t, m, s).seen == s.seen + {(Members(more), next)}
  {
    hide *;
    Reading(t, nodes, l, mates, words, v, s);
    CallFacts(t, s);
    NextAfterPlacing(t, m, s);
    PlaceShows(t, nodes, l, words, more, v.e, v.calls, s.calls, s.pos, Frame(t.order[s.pos].id, s.state), l');
    var v' := v.(e := l'.next[0], visits := v.visits + 1, state := m.Step(s.state, t.order[s.pos].op).0,
                 calls := v.calls + [HeapFrame(v.e, v.state)]);
    TalliesAfter(t, v, s, v', Next(t, m, s));
    Assembled(t, nodes, l', mates, more, v', Next(t, m, s));
  }

  /** The position at hand is a return, and there is a call to take back. */
  ghost predicate AtReturn(t: Timeline, m: Model, s: Search) {
    Inv(t, m, s) && s.pos < |t.order| && t.order[s.pos].isReturn && s.calls != []
  }

  /** Taking back the last call: the list is ready ... */
  lemma ReadyToTakeBack(t: Timeline, m: Model, nodes: seq<Entry>, l: Links, mates: seq<Entry?>, words: seq<bv64>,
                        v: Vars, s: Search)
    requires InStep(t, nodes, l, mates, words, v, s) && AtReturn(t, m, s)
    ensures v.calls != []
    ensures var pre, f := s.calls[..|s.calls| - 1], s.calls[|s.calls| - 1];
            var top := v.calls[|v.calls| - 1];
            var live := LiveList(t, Placed(Ids(pre)));
            var c, r := CallPos(t, f.id), ReturnPos(t, f.id);
            && 0 < c < r < |nodes| == |mates| && c in live && r in live && Distinct(nodes)
            && l.Parked(nodes, live, c, r) && l.Linked(nodes, live - {c} - {r})
            && f.id < |t.ops| && top.call == nodes[c] && top.call.id == f.id && top.state == f.state
            && mates[c] == nodes[r] && f.id / 64 < |words|
  {
    hide *;
    Reading(t, nodes, l, mates, words, v, s);
    ReturnFacts(t, m, s);
    var pre, f := s.calls[..|s.calls| - 1], s.calls[|s.calls| - 1];
    EntriesAreDistinct(t, nodes);
    var rest, top := v.calls[..|v.calls| - 1], v.calls[|v.calls| - 1];
    assert v.calls == rest + [top] && s.calls == pre + [f];
    BacktrackReady(t, nodes, l, words, v.e, rest, top, pre, f, s.pos);
    MateOf(t, nodes, mates, f.id);
  }

  lemma ReturnFacts(t: Timeline, m: Model, s: Search)
    requires AtReturn(t, m, s)
    ensures s.pos < |t.order| && t.order[s.pos].isReturn && s.calls != []
    ensures var pre, top := s.calls[..|s.calls| - 1], s.calls[|s.calls| - 1];
            && top.id !in Placed(Ids(pre)) && top.id < |t.ops|
            && Next(t, m, s) == s.(calls := pre, state := top.state,
                                   pos := t.NextLive(Placed(Ids(pre)), CallPos(t, top.id)))
  {
    TopIsNew(t, m, s);
    NextOfReturn(t, m, s);
  }

  /** ... and afterwards the machine has taken it back too. */
  lemma TakenBackInStep(t: Timeline, m: Model, nodes: seq<Entry>, l: Links, l': Links, mates: seq<Entry?>,
                        words: seq<bv64>, less: seq<bv64>, v: Vars, s: Search)
    requires InStep(t, nodes, l, mates, words, v, s) && AtReturn(t, m, s) && v.calls != []
    requires |less| == |words| && Members(less) == Members(words) - {s.calls[|s.calls| - 1].id}
    requires var pre, f := s.calls[..|s.calls| - 1], s.calls[|s.calls| - 1];
             var c, r := CallPos(t, f.id), ReturnPos(t, f.id);
             && 0 < c < r < |nodes| && |l.prev| == |l.next| == |nodes|
             && l' == l.Unlifted(nodes, LiveList(t, Placed(Ids(pre))), c, r)
    ensures var c := CallPos(t, s.calls[|s.calls| - 1].id);
            && c < |l'.next|
            && InStep(t, nodes, l', mates, less,
                      v.(e := l'.next[c], state := v.calls[|v.calls| - 1].state, calls := v.calls[..|v.calls| - 1]),
                      Next(t, m, s))
    ensures Next(t, m, s).seen == s.seen
  {
    hide *;
    Reading(t, nodes, l, mates, words, v, s);
    ReturnFacts(t, m, s);
    var pre, f := s.calls[..|s.calls| - 1], s.calls[|s.calls| - 1];
    var rest, top := v.calls[..|v.calls| - 1], v.calls[|v.calls| - 1];
    assert v.calls == rest + [top] && s.calls == pre + [f];
    BacktrackReady(t, nodes, l, words, v.e, rest, top, pre, f, s.pos);
    BacktrackShows(t, nodes, l, words, less, v.e, rest, top, pre, f, s.pos, l');
    var v' := v.(e := l'.next[CallPos(t, f.id)], state := top.state, calls := rest);
    TalliesAfter(t, v, s, v', Next(t, m, s));
    Assembled(t, nodes, l', mates, less, v', Next(t, m, s));
  }

  // ----- Entering and leaving the loop

  lemma StartInStep(t: Timeline, m: Model, nodes: seq<Entry>, l: Links, mates: seq<Entry?>, words: seq<bv64>)
    requires Represents(t, nodes, mates) && l.Linked(nodes, LiveList(t, {}))
    requires |words| == Words(|t.ops|) && Members(words) == {}
    ensures t.Valid() && |l.next| == |nodes| > 0
    ensures InStep(t, nodes, l, mates, words, Vars(l.next[0], m.Init(), [], -1, 0, None, 0), Start(t, m))
    ensures Recalls(t, {}, 0, Start(t, m))
  {
    assert Placed(Ids([])) == {};
    Follow(t, nodes, l, [], 0);
  }

  /** The list is empty exactly when everything is placed. */
  lemma HeadReading(t: Timeline, nodes: seq<Entry>, l: Links, mates: seq<Entry?>, words: seq<bv64>, v: Vars, s: Search)
    requires InStep(t, nodes, l, mates, words, v, s)
    ensures |l.next| > 0 && (l.next[0] == null <==> Complete(t, s))
  {
    Follow(t, nodes, l, s.calls, 0);
  }

  /** Where the run stands, read off the loop's variables. */
  lemma Standing(t: Timeline, m: Model, opt: Options, late: Clock, nodes: seq<Entry>, l: Links, mates: seq<Entry?>,
                 words: seq<bv64>, v: Vars, s: Search, k: nat)
    requires InStep(t, nodes, l, mates, words, v, s) && Inv(t, m, s) && !Complete(t, s)
    ensures v.e != null && s.pos < |t.order| && v.e.isReturn == t.order[s.pos].isReturn
    ensures !v.e.isReturn ==> AtCall(t, s) && !Stuck(t, s)
    ensures v.e.isReturn ==> (Stuck(t, s) <==> v.calls == [])
    ensures v.e.isReturn && v.calls != [] ==> AtReturn(t, m, s)
  {
    RunUnfolds(t, m, opt, late, s, k);
    AtHand(t, nodes, s.pos);
  }

  lemma BudgetReading(t: Timeline, opt: Options, late: Clock, v: Vars, s: Search, k: nat, bytes: nat)
    requires Tallies(t, v, s) && bytes == |s.seen| * EntryBytes(|t.ops|)
    ensures Spent(t, opt, late, s, k) <==>
            || (opt.maxVisits > 0 && v.visits >= opt.maxVisits)
            || (opt.timeout && ClockIsRead(k) && late(k))
            || (opt.maxCacheBytes > 0 && bytes >= opt.maxCacheBytes)
  {
  }

  /** The outcome, read off the loop's variables. */
  lemma OutcomeReading(t: Timeline, v: Vars, s: Search)
    requires Tallies(t, v, s)
    ensures v.visits == s.visits && v.state == s.state
    ensures s.best.Some? ==> s.best.value.culprit < |t.ops| && v.bestOp == Some(t.ops[s.best.value.culprit])
    ensures s.best.None? ==> v.bestOp == None
  {
  }
}
