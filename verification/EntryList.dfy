/** The doubly-linked list of entries behind a sentinel head: O(1) removal of a
    call and its return, and their restoration. */
module EntryList {
  import opened History

  /** The first listed position after `k`, or `n` if there is none. */
  ghost function Succ(live: set<nat>, k: nat, n: nat): (r: nat)
    requires k < n
    ensures k < r <= n
    ensures r < n ==> r in live
    ensures forall j :: k < j < r ==> j !in live
    decreases n - k
  {
    if k + 1 == n || k + 1 in live then k + 1 else Succ(live, k + 1, n)
  }

  /** The last listed position before `k`. */
  ghost function Pred(live: set<nat>, k: nat): (r: nat)
    requires 0 in live && 0 < k
    ensures r < k && r in live
    ensures forall j :: r < j < k ==> j !in live
  {
    if k - 1 in live then k - 1 else Pred(live, k - 1)
  }

  ghost predicate Distinct(nodes: seq<Entry>) {
    forall i, j :: 0 <= i < j < |nodes| ==> nodes[i] != nodes[j]
  }

  ghost function At(nodes: seq<Entry>, k: nat): Entry?
    requires k <= |nodes|
  {
    if k == |nodes| then null else nodes[k]
  }

  /** The pointers of every entry. */
  datatype Links = Links(prev: seq<Entry?>, next: seq<Entry?>)
  {
    /** Entry `k` points at its neighbours in the list `live`, whether or not it
        is itself listed. */
    ghost predicate PointsInto(nodes: seq<Entry>, live: set<nat>, k: nat)
      requires k < |nodes| == |prev| == |next| && 0 in live
    {
      && (k > 0 ==> prev[k] == nodes[Pred(live, k)])
      && next[k] == At(nodes, Succ(live, k, |nodes|))
    }

    /** The entries at the positions `live` form a doubly-linked list, in order. */
    ghost predicate Linked(nodes: seq<Entry>, live: set<nat>) {
      && |nodes| == |prev| == |next| && 0 in live
      && (forall k :: k in live ==> k < |nodes|)
      && (forall k {:trigger PointsInto(nodes, live, k)} :: 0 <= k < |nodes| && k in live ==>
            PointsInto(nodes, live, k))
    }

    /** A lifted call and its return know where they belong: the call was taken
        out of the list `live`, its return out of what was left. */
    ghost predicate Parked(nodes: seq<Entry>, live: set<nat>, c: nat, r: nat) {
      && 0 < c < r < |nodes| == |prev| == |next| && 0 in live
      && PointsInto(nodes, live, c) && PointsInto(nodes, live - {c}, r)
    }

    ghost predicate Sized(n: nat) { |prev| == |next| == n }

    /** The pointers after the neighbours of `c` are made to bypass it ... */
    ghost function Unlink(live: set<nat>, c: nat): (l: Links)
      requires 0 < c < |prev| == |next| && 0 in live
      ensures l.Sized(|prev|)
    {
      var n := |prev|;
      Links(if Succ(live, c, n) < n then prev[Succ(live, c, n) := prev[c]] else prev,
            next[Pred(live, c) := next[c]])
    }

    /** ... and after they are made to point at it. */
    ghost function Relink(live: set<nat>, c: nat, e: Entry): (l: Links)
      requires 0 < c < |prev| == |next| && 0 in live
      ensures l.Sized(|prev|)
    {
      Pointed(Pred(live, c), Succ(live, c, |prev|), e)
    }

    /** The pointers after positions `p` and `q` are made neighbours of `e`. */
    ghost function Pointed(p: nat, q: nat, e: Entry): (l: Links)
      requires p < |prev| == |next|
      ensures l.Sized(|prev|)
    {
      Links(if q < |prev| then prev[q := e] else prev, next[p := e])
    }

    /** A call and then its return taken out of the list `live`. */
    ghost function Lifted(live: set<nat>, c: nat, r: nat): (l: Links)
      requires 0 < c < r < |prev| == |next| && 0 in live
      ensures l.Sized(|prev|)
    {
      Unlink(live, c).Unlink(live - {c}, r)
    }

    /** A return and then its call put back. */
    ghost function Unlifted(nodes: seq<Entry>, live: set<nat>, c: nat, r: nat): (l: Links)
      requires 0 < c < r < |prev| == |next| == |nodes| && 0 in live
      ensures l.Sized(|prev|)
    {
      Relink(live - {c}, r, nodes[r]).Relink(live, c, nodes[c])
    }
  }

  /** The other endpoint of every entry. */
  ghost function MatesOf(nodes: seq<Entry>): (r: seq<Entry?>)
    reads nodes
    ensures |r| == |nodes|
    ensures forall k :: 0 <= k < |nodes| ==> r[k] == nodes[k].mate
  {
    seq(|nodes|, k requires 0 <= k < |nodes| reads nodes => nodes[k].mate)
  }

  ghost function LinksOf(nodes: seq<Entry>): (l: Links)
    reads nodes
    ensures |l.prev| == |l.next| == |nodes|
    ensures forall k :: 0 <= k < |nodes| ==> l.prev[k] == nodes[k].prev && l.next[k] == nodes[k].next
  {
    Links(seq(|nodes|, k requires 0 <= k < |nodes| reads nodes => nodes[k].prev),
          seq(|nodes|, k requires 0 <= k < |nodes| reads nodes => nodes[k].next))
  }

  /** What the first and last listed positions are, is determined by their description. */
  lemma SuccIs(live: set<nat>, k: nat, n: nat, r: nat)
    requires k < r <= n && (r < n ==> r in live) && forall j :: k < j < r ==> j !in live
    ensures Succ(live, k, n) == r
  {
    var r' := Succ(live, k, n);
    assert r' < r ==> r' in live;
  }

  lemma PredIs(live: set<nat>, k: nat, r: nat)
    requires 0 in live && r < k && r in live && forall j :: r < j < k ==> j !in live
    ensures Pred(live, k) == r
  {
    var r' := Pred(live, k);
    assert r < r' ==> r' in live;
  }

  /** Successors and predecessors once `c` is no longer listed. */
  lemma SuccWithout(live: set<nat>, c: nat, k: nat, n: nat)
    requires c < n && k < n
    ensures Succ(live - {c}, k, n) == if Succ(live, k, n) == c then Succ(live, c, n) else Succ(live, k, n)
  {
    SuccIs(live - {c}, k, n, if Succ(live, k, n) == c then Succ(live, c, n) else Succ(live, k, n));
  }

  lemma PredWithout(live: set<nat>, c: nat, k: nat)
    requires 0 in live && 0 < c && 0 < k
    ensures Pred(live - {c}, k) == if Pred(live, k) == c then Pred(live, c) else Pred(live, k)
  {
    PredIs(live - {c}, k, if Pred(live, k) == c then Pred(live, c) else Pred(live, k));
  }

  /** `c` is between its neighbours. */
  lemma Neighbours(live: set<nat>, c: nat, k: nat, n: nat)
    requires 0 in live && 0 < c < n && c in live && k < n && k in live
    ensures Succ(live, k, n) == c <==> k == Pred(live, c)
    ensures k > 0 ==> (Pred(live, k) == c <==> k == Succ(live, c, n))
  {
    var p, q := Pred(live, c), Succ(live, c, n);
    if k == p { SuccIs(live, k, n, c); }
    if k == q { PredIs(live, k, c); }
    assert Succ(live, k, n) == c ==> !(k < p < c) && !(p < k < c);
    assert k > 0 && Pred(live, k) == c ==> !(c < q < k) && !(c < k < q);
  }

  /** Where entry `k` points with and without `c` in the list. */
  lemma PointsWithout(l: Links, nodes: seq<Entry>, live: set<nat>, c: nat, k: nat)
    requires l.Sized(|nodes|) && 0 in live && 0 < c < |nodes| && c in live
    requires k < |nodes| && k in live && k != c
    ensures l.PointsInto(nodes, live, k) && l.PointsInto(nodes, live, c) ==>
              l.Unlink(live, c).PointsInto(nodes, live - {c}, k)
    ensures l.PointsInto(nodes, live - {c}, k) && l.PointsInto(nodes, live, c) ==>
              l.Relink(live, c, nodes[c]).PointsInto(nodes, live, k)
  {
    SuccWithout(live, c, k, |nodes|);
    Neighbours(live, c, k, |nodes|);
    if k > 0 { PredWithout(live, c, k); }
    hide Succ, Pred;
  }

  /** Bypassing an entry takes it off the list and leaves its own pointers alone. */
  lemma UnlinkRemoves(l: Links, nodes: seq<Entry>, live: set<nat>, c: nat)
    requires l.Linked(nodes, live) && 0 < c && c in live
    ensures l.Unlink(live, c).Linked(nodes, live - {c})
    ensures l.Unlink(live, c).PointsInto(nodes, live, c)
  {
    assert l.PointsInto(nodes, live, c);
    forall k | 0 <= k < |nodes| && k in live - {c}
      ensures l.Unlink(live, c).PointsInto(nodes, live - {c}, k)
    {
      assert l.PointsInto(nodes, live, k);
      PointsWithout(l, nodes, live, c, k);
    }
    hide Succ, Pred;
  }

  /** Pointing back at it puts it where it was. */
  lemma RelinkRestores(l: Links, nodes: seq<Entry>, live: set<nat>, c: nat)
    requires 0 < c < |nodes| && c in live && 0 in live
    requires l.Linked(nodes, live - {c}) && l.PointsInto(nodes, live, c)
    ensures l.Relink(live, c, nodes[c]).Linked(nodes, live)
  {
    var l' := l.Relink(live, c, nodes[c]);
    assert l'.PointsInto(nodes, live, c);
    forall k | 0 <= k < |nodes| && k in live && k != c ensures l'.PointsInto(nodes, live, k) {
      assert l.PointsInto(nodes, live - {c}, k);
      PointsWithout(l, nodes, live, c, k);
    }
    forall k | k in live ensures k < |nodes| { assert k == c || k in live - {c}; }
    hide Succ, Pred, Links.PointsInto, Links.Relink;
  }

  /** The writes of one removal or restoration miss the entries that are not its neighbours. */
  lemma OthersUntouched(l: Links, nodes: seq<Entry>, live: set<nat>, c: nat, k: nat, other: set<nat>)
    requires 0 < c < |nodes| == |l.prev| == |l.next| && 0 in live && 0 in other && k < |nodes| && k !in live
    requires l.PointsInto(nodes, other, k)
    ensures l.Unlink(live, c).PointsInto(nodes, other, k)
    ensures l.Relink(live, c, nodes[c]).PointsInto(nodes, other, k)
  {
    assert Pred(live, c) != k && Succ(live, c, |nodes|) != k;
  }

  /** Taking out a call and then its return. */
  lemma LiftLinks(l: Links, nodes: seq<Entry>, live: set<nat>, c: nat, r: nat)
    requires l.Linked(nodes, live) && 0 < c < r < |nodes| && c in live && r in live
    ensures l.Sized(|nodes|) && 0 in live && l.PointsInto(nodes, live, c)
    ensures l.Unlink(live, c).PointsInto(nodes, live - {c}, r)
    ensures l.Lifted(live, c, r).Linked(nodes, live - {c} - {r})
    ensures l.Lifted(live, c, r).Parked(nodes, live, c, r)
  {
    var l1 := l.Unlink(live, c);
    assert l.PointsInto(nodes, live, c);
    UnlinkRemoves(l, nodes, live, c);
    assert l1.PointsInto(nodes, live - {c}, r);
    UnlinkRemoves(l1, nodes, live - {c}, r);
    OthersUntouched(l1, nodes, live - {c}, r, c, live);
    hide Links.PointsInto, Links.Unlink, Links.Linked;
  }

  /** Putting a return and then its call back. */
  lemma UnliftLinks(l: Links, nodes: seq<Entry>, live: set<nat>, c: nat, r: nat)
    requires l.Parked(nodes, live, c, r) && c in live && r in live
    requires l.Linked(nodes, live - {c} - {r})
    ensures l.Relink(live - {c}, r, nodes[r]).PointsInto(nodes, live, c)
    ensures l.Unlifted(nodes, live, c, r).Linked(nodes, live)
  {
    var l1 := l.Relink(live - {c}, r, nodes[r]);
    RelinkRestores(l, nodes, live - {c}, r);
    OthersUntouched(l, nodes, live - {c}, r, c, live);
    RelinkRestores(l1, nodes, live, c);
    hide Links.PointsInto, Links.Relink, Links.Linked;
  }

  /** Bypassing an entry and pointing back at it changes nothing. */
  lemma RelinkUndoesUnlink(l: Links, nodes: seq<Entry>, live: set<nat>, c: nat)
    requires l.Linked(nodes, live) && 0 < c && c in live
    ensures l.Unlink(live, c).Relink(live, c, nodes[c]) == l
  {
    var p, q := Pred(live, c), Succ(live, c, |nodes|);
    assert l.PointsInto(nodes, live, p);
    Neighbours(live, c, p, |nodes|);
    assert l.next[p] == nodes[c];
    if q < |nodes| {
      assert l.PointsInto(nodes, live, q);
      Neighbours(live, c, q, |nodes|);
      assert l.prev[q] == nodes[c];
    }
    hide Succ, Pred, Links.PointsInto, Links.Linked;
  }

  /** Restoring what was last removed brings back every pointer exactly. */
  lemma UnliftUndoesLift(l: Links, nodes: seq<Entry>, live: set<nat>, c: nat, r: nat)
    requires l.Linked(nodes, live) && 0 < c < r < |nodes| && c in live && r in live
    ensures l.Lifted(live, c, r).Unlifted(nodes, live, c, r) == l
  {
    var l1 := l.Unlink(live, c);
    UnlinkRemoves(l, nodes, live, c);
    RelinkUndoesUnlink(l1, nodes, live - {c}, r);
    RelinkUndoesUnlink(l, nodes, live, c);
    hide Links.PointsInto, Links.Unlink, Links.Relink, Links.Linked;
  }

  /** A call and its return are adjacent, or their neighbours are apart. */
  lemma AdjacentOrApart(live: set<nat>, c: nat, r: nat, n: nat)
    requires 0 in live && 0 < c < r < n && c in live && r in live
    ensures Succ(live, c, n) <= r
    ensures Succ(live, c, n) == r ==> Pred(live - {c}, r) == Pred(live, c)
    ensures Succ(live, c, n) != r ==> Succ(live, c, n) <= Pred(live - {c}, r)
    ensures Succ(live - {c}, r, n) > r
  {
    PredWithout(live, c, r);
    Neighbours(live, c, r, n);
    var q, p := Succ(live, c, n), Pred(live - {c}, r);
    assert q != r ==> q in live - {c};
  }

  /** The order in which the two are put back does not matter, even when they
      are adjacent and the first write changes the return's own `prev`. */
  lemma CallFirstAgrees(l: Links, nodes: seq<Entry>, live: set<nat>, c: nat, r: nat)
    requires l.Parked(nodes, live, c, r) && c in live && r in live
    ensures var q := Succ(live, c, |nodes|);
            l.Pointed(Pred(live, c), q, nodes[c])
             .Pointed(if q == r then c else Pred(live - {c}, r), Succ(live - {c}, r, |nodes|), nodes[r])
            == l.Unlifted(nodes, live, c, r)
  {
    AdjacentOrApart(live, c, r, |nodes|);
    hide Succ, Pred;
  }

  /** One endpoint of an operation on the timeline. */
  class Entry {
    const op: Option<Op>  // none for the sentinel
    const id: int
    const isReturn: bool
    var mate: Entry?
    var prev: Entry?
    var next: Entry?

    constructor (op: Option<Op>, id: int, isReturn: bool)
      ensures this.op == op && this.id == id && this.isReturn == isReturn
      ensures mate == null && prev == null && next == null
    {
      this.op, this.id, this.isReturn := op, id, isReturn;
      mate, prev, next := null, null, null;
    }

    /** Makes this entry's neighbours bypass it. */
    method Bypass(ghost nodes: seq<Entry>, ghost live: set<nat>, ghost c: nat)
      requires Distinct(nodes) && 0 in live && 0 < c < |nodes| && this == nodes[c]
      requires LinksOf(nodes).PointsInto(nodes, live, c)
      modifies nodes
      ensures LinksOf(nodes) == old(LinksOf(nodes)).Unlink(live, c)
      ensures MatesOf(nodes) == old(MatesOf(nodes))
    {
      prev.next := next;
      if next != null {
        next.prev := prev;
      }
    }

    /** Hangs this entry, at position k, behind the one before it. */
    method HangBehind(before: Entry, ghost nodes: seq<Entry>, ghost k: nat)
      requires Distinct(nodes) && 0 < k < |nodes| && before == nodes[k - 1] && this == nodes[k]
      modifies nodes
      ensures LinksOf(nodes) == Links(old(LinksOf(nodes)).prev[k := before], old(LinksOf(nodes)).next[k - 1 := this])
      ensures MatesOf(nodes) == old(MatesOf(nodes))
    {
      before.next := this;
      prev := before;
    }

    /** Makes this entry's neighbours, at positions `p` and `q`, point at it. */
    method Rejoin(ghost nodes: seq<Entry>, ghost p: nat, ghost q: nat)
      requires Distinct(nodes) && this in nodes
      requires p < |nodes| && q <= |nodes| && prev == nodes[p] != this && next == At(nodes, q)
      modifies nodes
      ensures LinksOf(nodes) == old(LinksOf(nodes)).Pointed(p, q, this)
      ensures MatesOf(nodes) == old(MatesOf(nodes))
    {
      prev.next := this;
      if next != null {
        next.prev := this;
      }
    }

    /** Removes a call and its return from the list. The call must go first: when
        the two are adjacent, the return's `prev` is the call itself. */
    method Lift(ghost nodes: seq<Entry>, ghost live: set<nat>, ghost c: nat, ghost r: nat)
      requires Distinct(nodes) && LinksOf(nodes).Linked(nodes, live)
      requires 0 < c < r < |nodes| && c in live && r in live
      requires this == nodes[c] && mate == nodes[r]
      modifies nodes
      ensures LinksOf(nodes) == old(LinksOf(nodes)).Lifted(live, c, r)
      ensures LinksOf(nodes).Linked(nodes, live - {c} - {r})
      ensures LinksOf(nodes).Parked(nodes, live, c, r)
      ensures MatesOf(nodes) == old(MatesOf(nodes))
    {
      LiftLinks(LinksOf(nodes), nodes, live, c, r);
      hide Links.Linked, Links.Parked, Links.PointsInto, Links.Unlink;
      var m := mate;
      Bypass(nodes, live, c);
      m.Bypass(nodes, live - {c}, r);
    }

    /** Restores what `Lift` removed. */
    method Unlift(ghost nodes: seq<Entry>, ghost live: set<nat>, ghost c: nat, ghost r: nat)
      requires Distinct(nodes) && c in live && r in live
      requires LinksOf(nodes).Parked(nodes, live, c, r)
      requires LinksOf(nodes).Linked(nodes, live - {c} - {r})
      requires this == nodes[c] && mate == nodes[r]
      modifies nodes
      ensures LinksOf(nodes) == old(LinksOf(nodes)).Unlifted(nodes, live, c, r)
      ensures LinksOf(nodes).Linked(nodes, live)
      ensures MatesOf(nodes) == old(MatesOf(nodes))
    {
      UnliftLinks(LinksOf(nodes), nodes, live, c, r);
      hide Links.Linked, Links.Parked, Succ, Pred;
      var m := mate;
      m.Rejoin(nodes, Pred(live - {c}, r), Succ(live - {c}, r, |nodes|));
      Rejoin(nodes, Pred(live, c), Succ(live, c, |nodes|));
    }

    /** The same, with the call put back first. */
    method UnliftCallFirst(ghost nodes: seq<Entry>, ghost live: set<nat>, ghost c: nat, ghost r: nat)
      requires Distinct(nodes) && c in live && r in live
      requires LinksOf(nodes).Parked(nodes, live, c, r)
      requires this == nodes[c] && mate == nodes[r]
      modifies nodes
      ensures LinksOf(nodes) == old(LinksOf(nodes)).Unlifted(nodes, live, c, r)
    {
      ghost var l := LinksOf(nodes);
      ghost var p, q := Pred(live, c), Succ(live, c, |nodes|);
      AdjacentOrApart(live, c, r, |nodes|);
      CallFirstAgrees(l, nodes, live, c, r);
      hide Succ, Pred, Links.Unlifted;
      var m := mate;
      Rejoin(nodes, p, q);
      m.Rejoin(nodes, if q == r then c else Pred(live - {c}, r), Succ(live - {c}, r, |nodes|));
    }
  }
}
