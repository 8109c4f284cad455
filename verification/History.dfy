/** Recorded client operations: what is and is not known about each of them. */
module History {

  datatype Option<+T> = None | Some(value: T)
  {
    function UnwrapOr(default: T): T { if Some? then value else default }
  }

  datatype Kind = Read | Write | CAS

  /** What the client learned about its own request. */
  datatype Outcome = OK | Fail | Info

  /** Timestamps are 64-bit; nothing recorded lies past `Pending`. */
  type Int64 = t: int | -0x8000_0000_0000_0000 <= t <= 0x7FFF_FFFF_FFFF_FFFF

  /** The completion time of an operation that never completed. */
  const PENDING: Int64 := 0x7FFF_FFFF_FFFF_FFFF

  datatype Op = Op(
    process: int,
    key: string,
    kind: Kind,
    value: int,
    from: int,
    to: int,
    observed: int,
    swapped: bool,
    outcome: Outcome,
    invoke: Int64,
    complete: Int64,
    err: string)
  {
    /** Real-time precedence: this operation was over by the time `o` began. */
    predicate Precedes(o: Op) { complete <= o.invoke }

    /** Its invocation and completion coincide. */
    predicate Instant() { complete == invoke }

    /** A completion never lies before its own invocation. */
    predicate Ordered() { invoke <= complete }
  }

  /** Each of the two precedes the other, so no order respects real time. */
  predicate Colliding(o: Op, p: Op) { o.Precedes(p) && p.Precedes(o) }

  /** No two operations of the history precede one another. */
  ghost predicate CollisionFree(h: seq<Op>) {
    forall i, j :: 0 <= i < j < |h| ==> !Colliding(h[i], h[j])
  }

  ghost predicate AllOrdered(h: seq<Op>) {
    forall o :: o in h ==> o.Ordered()
  }

  /** The shape of history the search is exact on. */
  ghost predicate Searchable(h: seq<Op>) {
    AllOrdered(h) && CollisionFree(h)
  }

  /** Among ordered operations a collision is two instants at one time, which is
      how `Validate` looks for one. */
  lemma CollidingMeansInstants(o: Op, p: Op)
    requires o.Ordered() && p.Ordered()
    ensures Colliding(o, p) <==> o.Instant() && p.Instant() && o.invoke == p.invoke
  {
  }

  // ----- Selecting and rewriting the operations of a history, in order

  /** `f` applied to every operation, keeping those it maps to something. */
  function Collect(f: Op -> Option<Op>, h: seq<Op>): (r: seq<Op>)
    ensures |r| <= |h|
  {
    if h == [] then [] else
      (match f(h[0]) case None => [] case Some(o) => [o]) + Collect(f, h[1..])
  }

  /** What becomes of one operation. */
  function One(f: Op -> Option<Op>, o: Op): seq<Op> {
    match f(o) case None => [] case Some(p) => [p]
  }

  lemma CollectCons(f: Op -> Option<Op>, o: Op, h: seq<Op>)
    ensures Collect(f, [o] + h) == One(f, o) + Collect(f, h)
  {
    assert ([o] + h)[1..] == h;
  }

  lemma {:induction false} CollectAppend(f: Op -> Option<Op>, a: seq<Op>, b: seq<Op>)
    ensures Collect(f, a + b) == Collect(f, a) + Collect(f, b)
  {
    hide *;
    if a == [] {
      assert a + b == b;
      CollectNothing(f);
    } else {
      var o, rest := a[0], a[1..];
      assert a == [o] + rest && a + b == [o] + (rest + b);
      CollectCons(f, o, rest);
      CollectCons(f, o, rest + b);
      CollectAppend(f, rest, b);
    }
  }

  lemma CollectNothing(f: Op -> Option<Op>)
    ensures Collect(f, []) == []
  {
  }

  lemma CollectOneMore(f: Op -> Option<Op>, h: seq<Op>, i: nat)
    requires i < |h|
    ensures Collect(f, h[..i + 1]) == Collect(f, h[..i]) + (if f(h[i]).Some? then [f(h[i]).value] else [])
  {
    assert h[..i + 1] == h[..i] + [h[i]];
    CollectAppend(f, h[..i], [h[i]]);
  }

  /** Everything selected comes from some operation of the history. */
  lemma {:induction false} CollectOrigin(f: Op -> Option<Op>, h: seq<Op>, o: Op) returns (p: Op)
    requires o in Collect(f, h)
    ensures p in h && f(p) == Some(o)
  {
    if f(h[0]) == Some(o) { return h[0]; }
    p := CollectOrigin(f, h[1..], o);
  }

  lemma {:induction false} CollectMember(f: Op -> Option<Op>, h: seq<Op>, o: Op)
    requires o in h && f(o).Some?
    ensures f(o).value in Collect(f, h)
  {
    if h[0] != o { CollectMember(f, h[1..], o); }
  }

  lemma {:induction false} CollectAll(f: Op -> Option<Op>, h: seq<Op>)
    requires forall o :: o in h ==> f(o) == Some(o)
    ensures Collect(f, h) == h
  {
    if h == [] {
    } else {
      CollectAll(f, h[1..]);
      assert h == [h[0]] + h[1..];
    }
  }

  lemma {:induction false} CollectNone(f: Op -> Option<Op>, h: seq<Op>)
    requires forall o :: o in h ==> f(o) == None
    ensures Collect(f, h) == []
  {
    if h == [] {
    } else {
      CollectNone(f, h[1..]);
    }
  }

  lemma Split(h: seq<Op>, i: nat)
    requires i < |h|
    ensures h == h[..i] + [h[i]] + h[i + 1..]
    ensures multiset(h) == multiset{h[i]} + multiset(h[..i] + h[i + 1..])
  {
    assert h == h[..i] + [h[i]] + h[i + 1..];
  }

  lemma CancelOne<T>(x: T, a: multiset<T>, b: multiset<T>)
    requires multiset{x} + a == multiset{x} + b
    ensures a == b
  {
    assert a == (multiset{x} + a) - multiset{x};
    assert b == (multiset{x} + b) - multiset{x};
  }

  lemma CountCons(x: Op, s: seq<Op>, o: Op)
    ensures multiset([x] + s)[o] == multiset(s)[o] + if x == o then 1 else 0
  {
  }

  /** Taking the same operation out of two rearrangements of one history. */
  lemma RemoveSame(a: seq<Op>, i: nat, b: seq<Op>, j: nat)
    requires multiset(a) == multiset(b) && i < |a| && j < |b| && a[i] == b[j]
    ensures multiset(a[..i] + a[i + 1..]) == multiset(b[..j] + b[j + 1..])
  {
    Split(a, i);
    Split(b, j);
    CancelOne(a[i], multiset(a[..i] + a[i + 1..]), multiset(b[..j] + b[j + 1..]));
  }

  /** An operation of one arrangement stands somewhere in the other. */
  lemma Find(a: seq<Op>, b: seq<Op>, i: nat) returns (j: nat)
    requires multiset(a) == multiset(b) && i < |a|
    ensures j < |b| && b[j] == a[i]
  {
    assert a[i] in multiset(b);
    j :| 0 <= j < |b| && b[j] == a[i];
  }

  /** Selection depends on which operations there are, not on how they are laid out. */
  lemma {:induction false} CollectMultiset(f: Op -> Option<Op>, a: seq<Op>, b: seq<Op>)
    requires multiset(a) == multiset(b)
    ensures multiset(Collect(f, a)) == multiset(Collect(f, b))
  {
    if a == [] {
      assert |multiset(b)| == |b|;
      assert b == [];
    } else {
      var i := Find(a, b, 0);
      RemoveSame(a, 0, b, i);
      assert a[..0] + a[1..] == a[1..];
      CollectMultiset(f, a[1..], b[..i] + b[i + 1..]);
      Split(b, i);
      CollectAppend(f, b[..i] + [b[i]], b[i + 1..]);
      CollectAppend(f, b[..i], [b[i]]);
      CollectAppend(f, b[..i], b[i + 1..]);
    }
  }

  function KeepOnKey(k: string): Op -> Option<Op> {
    (o: Op) => if o.key == k then Some(o) else None
  }

  /** The sub-history on one key. */
  function OnKey(h: seq<Op>, k: string): seq<Op> { Collect(KeepOnKey(k), h) }

  function KeepLive(): Op -> Option<Op> {
    (o: Op) => if o.outcome != Fail then Some(o) else None
  }

  /** The history without the operations that definitely never took effect. */
  function Live(h: seq<Op>): seq<Op> { Collect(KeepLive(), h) }

  function KeepReturned(): Op -> Option<Op> {
    (o: Op) => if o.outcome != Info then Some(o) else None
  }

  function KeepIndeterminate(): Op -> Option<Op> {
    (o: Op) => if o.outcome == Info then Some(o) else None
  }

  /** The operation as known at time t: unknown if not yet begun, and
      indeterminate if still in flight. */
  function Cut(t: Int64): Op -> Option<Op> {
    (o: Op) =>
      if o.invoke >= t then None
      else if o.complete >= t then Some(o.(outcome := Info, complete := PENDING))
      else Some(o)
  }

  /** The history cut off at time t. */
  function Truncation(h: seq<Op>, t: Int64): seq<Op> { Collect(Cut(t), h) }
}
