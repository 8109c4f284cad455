/** The linked list of the search is the timeline minus both endpoints of every
    placed operation. */
module ListInvariant {
  import opened History
  import opened Timeline
  import opened Machine
  import opened EntryList

  /** Positions in the list: the sentinel, and one past each live endpoint. */
  ghost function LiveList(t: Timeline, placed: set<nat>): (r: set<nat>)
    ensures 0 in r
    ensures forall k: nat :: k in r <==> k == 0 || t.Live(placed, k - 1)
  {
    var r := {0} + set k | 0 <= k < |t.order| && t.Live(placed, k) :: k + 1;
    assert forall k: nat :: k in r ==> k == 0 || t.Live(placed, k - 1);
    r
  }

  /** Where an operation's call and return are in the list. */
  function CallPos(t: Timeline, i: nat): nat { t.CallIndex(i) + 1 }

  function ReturnPos(t: Timeline, i: nat): nat { t.ReturnIndex(i) + 1 }

  /** Following `next` is moving to the next live endpoint. */
  lemma NextEntry(t: Timeline, placed: set<nat>, k: nat)
    requires k <= |t.order|
    ensures Succ(LiveList(t, placed), k, |t.order| + 1) == t.NextLive(placed, k) + 1
  {
    var r := t.NextLive(placed, k);
    forall j | k < j < r + 1 ensures j !in LiveList(t, placed) {
      assert !t.Live(placed, j - 1);
    }
    SuccIs(LiveList(t, placed), k, |t.order| + 1, r + 1);
  }

  /** An operation's two positions, and no others, are its own. */
  lemma PositionsOf(t: Timeline, i: nat)
    requires t.Valid() && i < |t.ops|
    ensures 0 < CallPos(t, i) < ReturnPos(t, i) <= |t.order|
    ensures t.order[CallPos(t, i) - 1].id == i && t.order[ReturnPos(t, i) - 1].id == i
    ensures forall k: nat :: k < |t.order| && t.order[k].id == i ==> k + 1 == CallPos(t, i) || k + 1 == ReturnPos(t, i)
  {
    hide Timeline.AgreesWithRealTime;
  }

  /** Placing an operation takes its call and its return off the list, and
      nothing else. */
  lemma PlacingShrinksList(t: Timeline, placed: set<nat>, i: nat)
    requires t.Valid() && i < |t.ops| && i !in placed
    ensures var live := LiveList(t, placed);
            var c, r := CallPos(t, i), ReturnPos(t, i);
            && c in live && r in live && 0 < c < r <= |t.order|
            && LiveList(t, placed + {i}) == live - {c} - {r}
  {
    PositionsOf(t, i);
    hide Timeline.Valid, LiveList, CallPos, ReturnPos;
    var c, r := CallPos(t, i), ReturnPos(t, i);
    assert t.Live(placed, c - 1) && t.Live(placed, r - 1);
    forall k: nat
      ensures k in LiveList(t, placed + {i}) <==> k in LiveList(t, placed) && k != c && k != r
    {
      if 1 <= k <= |t.order| {
        assert t.order[k - 1].id == i <==> k == c || k == r;
      }
    }
  }

  /** The entry at each position stands for the endpoint there. */
  ghost predicate Mirrors(t: Timeline, nodes: seq<Entry>) {
    && |nodes| == |t.order| + 1 && nodes[0].id == -1
    && forall k {:trigger t.order[k]} :: 0 <= k < |t.order| ==>
         && nodes[k + 1].op == Some(t.order[k].op)
         && nodes[k + 1].id == t.order[k].id
         && nodes[k + 1].isReturn == t.order[k].isReturn
  }

  /** No entry stands for two endpoints. */
  lemma EntriesAreDistinct(t: Timeline, nodes: seq<Entry>)
    requires t.Valid() && Mirrors(t, nodes)
    ensures Distinct(nodes)
  {
    forall i, j | 0 <= i < j < |nodes| ensures nodes[i] != nodes[j] {
      assert nodes[j].id == t.order[j - 1].id;
      if i > 0 { assert nodes[i].id == t.order[i - 1].id; }
    }
  }

  /** Every call's mate is its return. */
  ghost predicate Mated(t: Timeline, nodes: seq<Entry>, mates: seq<Entry?>)
    requires t.Valid() && |nodes| == |mates| == |t.order| + 1
  {
    forall i :: 0 <= i < |t.ops| ==> mates[CallPos(t, i)] == nodes[ReturnPos(t, i)]
  }

  /** The entries stand for the timeline, and calls and returns know each other. */
  ghost predicate Represents(t: Timeline, nodes: seq<Entry>, mates: seq<Entry?>) {
    && t.Valid() && |nodes| == |mates| == |t.order| + 1
    && Mirrors(t, nodes) && Mated(t, nodes, mates)
  }

  /** The list from which the j-th call on the stack was lifted. */
  ghost function ListAt(t: Timeline, calls: seq<Frame>, j: nat): set<nat>
    requires j <= |calls|
  {
    LiveList(t, Placed(Ids(calls[..j])))
  }

  ghost predicate ParkedAt(t: Timeline, l: Links, nodes: seq<Entry>, calls: seq<Frame>, j: nat)
    requires t.Valid() && j < |calls|
  {
    && calls[j].id < |t.ops|
    && l.Parked(nodes, ListAt(t, calls, j), CallPos(t, calls[j].id), ReturnPos(t, calls[j].id))
  }

  /** Every lifted call and return knows its place in the list it was lifted from. */
  ghost predicate AllParked(t: Timeline, l: Links, nodes: seq<Entry>, calls: seq<Frame>)
    requires t.Valid()
  {
    forall j :: 0 <= j < |calls| ==> ParkedAt(t, l, nodes, calls, j)
  }

  /** Lifting or restoring listed entries leaves the pointers of others alone. */
  lemma ParkedStays(l: Links, nodes: seq<Entry>, other: set<nat>, a: nat, b: nat,
                    live: set<nat>, c: nat, r: nat)
    requires l.Parked(nodes, other, a, b) && a !in live && b !in live && 0 in live
    requires 0 < c < r < |nodes|
    ensures l.Lifted(live, c, r).Parked(nodes, other, a, b)
    ensures l.Unlifted(nodes, live, c, r).Parked(nodes, other, a, b)
  {
    hide Succ, Pred, Links.PointsInto, Links.Unlink, Links.Relink;
    var l1, l2 := l.Unlink(live, c), l.Relink(live - {c}, r, nodes[r]);
    OthersUntouched(l, nodes, live, c, a, other);
    OthersUntouched(l, nodes, live, c, b, other - {a});
    OthersUntouched(l1, nodes, live - {c}, r, a, other);
    OthersUntouched(l1, nodes, live - {c}, r, b, other - {a});
    OthersUntouched(l, nodes, live - {c}, r, a, other);
    OthersUntouched(l, nodes, live - {c}, r, b, other - {a});
    OthersUntouched(l2, nodes, live, c, a, other);
    OthersUntouched(l2, nodes, live, c, b, other - {a});
  }

  lemma PlacedIsOffTheList(t: Timeline, calls: seq<Frame>, placed: set<nat>, j: nat)
    requires t.Valid() && j < |calls| && calls[j].id < |t.ops| && calls[j].id in placed
    ensures CallPos(t, calls[j].id) !in LiveList(t, placed)
    ensures ReturnPos(t, calls[j].id) !in LiveList(t, placed)
  {
  }

  lemma ParkedAfterPush(t: Timeline, l: Links, nodes: seq<Entry>, calls: seq<Frame>, f: Frame)
    requires t.Valid() && AllParked(t, l, nodes, calls) && f.id < |t.ops| && |nodes| == |t.order| + 1
    requires f.id !in Placed(Ids(calls))
    requires var live := LiveList(t, Placed(Ids(calls)));
             l.Linked(nodes, live)
    ensures var live := LiveList(t, Placed(Ids(calls)));
            var l' := l.Lifted(live, CallPos(t, f.id), ReturnPos(t, f.id));
            && AllParked(t, l', nodes, calls + [f])
            && l'.Linked(nodes, LiveList(t, Placed(Ids(calls + [f]))))
  {
    hide *;
    var live := LiveList(t, Placed(Ids(calls)));
    var c, r := CallPos(t, f.id), ReturnPos(t, f.id);
    PlacingShrinksList(t, Placed(Ids(calls)), f.id);
    LiftLinks(l, nodes, live, c, r);
    PushPlaces(calls, f);
    SizedIs(l, |nodes|);
    var l', more := l.Lifted(live, c, r), calls + [f];
    forall j | 0 <= j < |more| ensures ParkedAt(t, l', nodes, more, j) {
      if j == |calls| {
        JustParked(t, l', nodes, calls, f);
      } else {
        StaysParked(t, l, nodes, calls, f, j, c, r);
      }
    }
    AllParkedIs(t, l', nodes, more);
  }

  lemma SizedIs(l: Links, n: nat)
    requires l.Sized(n)
    ensures |l.prev| == |l.next| == n
  {
  }

  lemma AllParkedIs(t: Timeline, l: Links, nodes: seq<Entry>, calls: seq<Frame>)
    requires t.Valid()
    ensures AllParked(t, l, nodes, calls) <==> forall j :: 0 <= j < |calls| ==> ParkedAt(t, l, nodes, calls, j)
  {
    hide Timeline.Valid, ParkedAt;
  }

  lemma JustParked(t: Timeline, l: Links, nodes: seq<Entry>, calls: seq<Frame>, f: Frame)
    requires t.Valid() && f.id < |t.ops|
    requires l.Parked(nodes, LiveList(t, Placed(Ids(calls))), CallPos(t, f.id), ReturnPos(t, f.id))
    ensures ParkedAt(t, l, nodes, calls + [f], |calls|)
  {
    hide Timeline.Valid, Links.Parked, LiveList;
    assert (calls + [f])[..|calls|] == calls;
  }

  lemma StaysParked(t: Timeline, l: Links, nodes: seq<Entry>, calls: seq<Frame>, f: Frame, j: nat, c: nat, r: nat)
    requires t.Valid() && AllParked(t, l, nodes, calls) && j < |calls| && 0 < c < r < |nodes|
    requires |l.prev| == |l.next| == |nodes|
    ensures ParkedAt(t, l.Lifted(LiveList(t, Placed(Ids(calls))), c, r), nodes, calls + [f], j)
  {
    hide Timeline.Valid, Links.Parked, Links.Lifted, LiveList, Ids, Placed;
    assert (calls + [f])[..j] == calls[..j];
    assert ParkedAt(t, l, nodes, calls, j);
    InStack(calls, j);
    PlacedIsOffTheList(t, calls, Placed(Ids(calls)), j);
    ParkedStays(l, nodes, ListAt(t, calls, j), CallPos(t, calls[j].id), ReturnPos(t, calls[j].id),
                LiveList(t, Placed(Ids(calls))), c, r);
  }

  lemma PushPlaces(calls: seq<Frame>, f: Frame)
    ensures Placed(Ids(calls + [f])) == Placed(Ids(calls)) + {f.id}
  {
    assert Ids(calls + [f]) == Ids(calls) + [f.id];
    PlacedSnoc(Ids(calls), f.id);
  }

  lemma InStack(calls: seq<Frame>, j: nat)
    requires j < |calls|
    ensures calls[j].id in Placed(Ids(calls))
  {
    assert Ids(calls)[j] == calls[j].id;
  }

  lemma ParkedAfterPop(t: Timeline, l: Links, nodes: seq<Entry>, pre: seq<Frame>, f: Frame)
    requires t.Valid() && AllParked(t, l, nodes, pre + [f]) && |nodes| == |t.order| + 1
    requires l.Linked(nodes, LiveList(t, Placed(Ids(pre + [f]))))
    requires f.id < |t.ops| && f.id !in Placed(Ids(pre))
    ensures var live := LiveList(t, Placed(Ids(pre)));
            var c, r := CallPos(t, f.id), ReturnPos(t, f.id);
            && 0 < c < r < |nodes| && c in live && r in live
            && l.Parked(nodes, live, c, r)
            && l.Linked(nodes, live - {c} - {r})
            && AllParked(t, l.Unlifted(nodes, live, c, r), nodes, pre)
            && l.Unlifted(nodes, live, c, r).Linked(nodes, live)
  {
    var calls := pre + [f];
    assert ParkedAt(t, l, nodes, calls, |pre|) && calls[..|pre|] == pre;
    var live := LiveList(t, Placed(Ids(pre)));
    var c, r := CallPos(t, f.id), ReturnPos(t, f.id);
    PlacingShrinksList(t, Placed(Ids(pre)), f.id);
    PushPlaces(pre, f);
    UnliftLinks(l, nodes, live, c, r);
    forall j | 0 <= j < |pre| ensures ParkedAt(t, l.Unlifted(nodes, live, c, r), nodes, pre, j) {
      hide Links.Parked, Links.Linked, Links.Unlifted, LiveList;
      assert pre[..j] == calls[..j];
      assert ParkedAt(t, l, nodes, calls, j);
      InStack(pre, j);
      PlacedIsOffTheList(t, pre, Placed(Ids(pre)), j);
      ParkedStays(l, nodes, ListAt(t, calls, j), CallPos(t, calls[j].id), ReturnPos(t, calls[j].id), live, c, r);
    }
    hide Links.Linked, Links.Unlifted, LiveList, Links.Parked;
  }
}
