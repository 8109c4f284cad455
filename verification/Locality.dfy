/** Linearizability is local: the keys may be checked one by one. */
module Locality {
  import opened History
  import opened Model
  import opened Linearization
  import opened Slicing

  /** One order of the operations of all keys, legal for each of the registers. */
  ghost predicate IsGlobalOrder(m: Model, h: seq<Op>, w: seq<Op>) {
    && multiset(w) == multiset(h)
    && RespectsRealTime(w)
    && forall k :: Final(m, m.Init(), OnKey(w, k)).Some?
  }

  ghost predicate HasGlobalOrder(m: Model, h: seq<Op>) {
    exists w :: IsGlobalOrder(m, h, w)
  }

  ghost predicate EveryKeyLinearizes(m: Model, h: seq<Op>) {
    forall k :: HasLinearization(m, OnKey(h, k))
  }

  // ----- From one order for all keys to one for each

  lemma RestrictToKey(m: Model, h: seq<Op>, w: seq<Op>, k: string)
    requires IsGlobalOrder(m, h, w)
    ensures IsLinearization(m, OnKey(h, k), OnKey(w, k))
  {
    CollectMultiset(KeepOnKey(k), w, h);
    CollectRespectsRealTime(KeepOnKey(k), w);
  }

  lemma OrderMeansNoCollision(h: seq<Op>, w: seq<Op>)
    requires multiset(w) == multiset(h) && RespectsRealTime(w)
    ensures CollisionFree(h)
  {
    forall i, j | 0 <= i < j < |h| ensures !Colliding(h[i], h[j]) {
      var x, y := FindPair(h, w, i, j);
    }
  }

  // ----- From the keys to the whole

  lemma OnKeyCons(a: Op, s: seq<Op>, k: string)
    ensures OnKey([a] + s, k) == (if a.key == k then [a] else []) + OnKey(s, k)
  {
    assert ([a] + s)[1..] == s;
  }

  lemma OnKeyAppend(a: seq<Op>, b: seq<Op>, k: string)
    ensures OnKey(a + b, k) == OnKey(a, k) + OnKey(b, k)
  {
    CollectAppend(KeepOnKey(k), a, b);
  }

  lemma OnKeyHasKey(s: seq<Op>, k: string)
    ensures forall o :: o in OnKey(s, k) ==> o.key == k
    ensures forall o :: o in s && o.key == k ==> o in OnKey(s, k)
  {
    forall o | o in OnKey(s, k) ensures o.key == k {
      var p := CollectOrigin(KeepOnKey(k), s, o);
    }
    forall o | o in s && o.key == k ensures o in OnKey(s, k) {
      CollectMember(KeepOnKey(k), s, o);
    }
  }

  lemma {:induction false} OnOneKey(s: seq<Op>, k: string)
    requires forall o :: o in s ==> o.key == k
    ensures OnKey(s, k) == s
    ensures forall l :: l != k ==> OnKey(s, l) == []
  {
    if s == [] {
    } else {
      assert s == [s[0]] + s[1..];
      OnOneKey(s[1..], k);
      forall l ensures OnKey(s, l) == (if s[0].key == l then [s[0]] else []) + OnKey(s[1..], l) {
        OnKeyCons(s[0], s[1..], l);
      }
    }
  }

  lemma {:induction false} CountOnKey(s: seq<Op>, o: Op)
    ensures multiset(OnKey(s, o.key))[o] == multiset(s)[o]
  {
    if s == [] {
    } else {
      CountOnKey(s[1..], o);
      assert s == [s[0]] + s[1..];
      OnKeyCons(s[0], s[1..], o.key);
      CountCons(s[0], s[1..], o);
      CountCons(s[0], OnKey(s[1..], o.key), o);
      assert [] + OnKey(s[1..], o.key) == OnKey(s[1..], o.key);
    }
  }

  /** A history is all of its keys. */
  lemma SameOnEveryKey(a: seq<Op>, b: seq<Op>)
    requires forall k :: multiset(OnKey(a, k)) == multiset(OnKey(b, k))
    ensures multiset(a) == multiset(b)
  {
    forall o ensures multiset(a)[o] == multiset(b)[o] {
      CountOnKey(a, o);
      CountOnKey(b, o);
    }
  }

  /** Every key in a legal order of its own, however the keys are interleaved. */
  ghost predicate KeysInOrder(w: seq<Op>) {
    forall k :: RespectsRealTime(OnKey(w, k))
  }

  /** One key's order after another. */
  lemma {:induction false} Assemble(m: Model, h: seq<Op>, keys: seq<string>) returns (w: seq<Op>)
    requires EveryKeyLinearizes(m, h) && forall i, j :: 0 <= i < j < |keys| ==> keys[i] != keys[j]
    ensures forall k :: k in keys ==> IsLinearization(m, OnKey(h, k), OnKey(w, k))
    ensures forall k :: k !in keys ==> OnKey(w, k) == []
    decreases keys
  {
    if keys == [] {
      return [];
    }
    hide *;
    var k := keys[0];
    var rest := Assemble(m, h, keys[1..]);
    var v := OrderOfKey(m, h, k);
    w := v + rest;
    OneMoreKey(v, rest, k);
    assert k !in keys[1..];
    assert keys == [k] + keys[1..];
  }

  lemma OrderOfKey(m: Model, h: seq<Op>, k: string) returns (v: seq<Op>)
    requires EveryKeyLinearizes(m, h)
    ensures IsLinearization(m, OnKey(h, k), v) && forall o :: o in v ==> o.key == k
  {
    hide IsLinearization, Collect;
    assert HasLinearization(m, OnKey(h, k));
    v :| IsLinearization(m, OnKey(h, k), v);
    OnKeyHasKey(h, k);
    OrderHasKey(m, OnKey(h, k), v, k);
  }

  lemma OrderHasKey(m: Model, h: seq<Op>, v: seq<Op>, k: string)
    requires IsLinearization(m, h, v) && forall o :: o in h ==> o.key == k
    ensures forall o :: o in v ==> o.key == k
  {
    forall o | o in v ensures o in h {
      assert o in multiset(v);
    }
  }

  lemma OneMoreKey(v: seq<Op>, rest: seq<Op>, k: string)
    requires (forall o :: o in v ==> o.key == k) && OnKey(rest, k) == []
    ensures forall l :: OnKey(v + rest, l) == if l == k then v else OnKey(rest, l)
  {
    hide Collect;
    OnOneKey(v, k);
    forall l ensures OnKey(v + rest, l) == if l == k then v else OnKey(rest, l) {
      OnKeyAppend(v, rest, l);
    }
  }

  /** The operation to be over first, the earlier called if several are. */
  ghost predicate Soonest(w: seq<Op>, z: nat) {
    && z < |w|
    && forall i :: 0 <= i < |w| ==>
         w[z].complete < w[i].complete || (w[z].complete == w[i].complete && w[z].invoke <= w[i].invoke)
  }

  lemma {:induction false} SomeSoonest(w: seq<Op>) returns (z: nat)
    requires w != []
    ensures Soonest(w, z)
  {
    if |w| == 1 { return 0; }
    var y := SomeSoonest(w[..|w| - 1]);
    var last := |w| - 1;
    assert forall i :: 0 <= i < last ==> w[..last][i] == w[i];
    z := if w[y].complete < w[last].complete || (w[y].complete == w[last].complete && w[y].invoke <= w[last].invoke)
         then y else last;
  }

  lemma FirstOfKey(w: seq<Op>, k: string) returns (i: nat)
    requires exists o :: o in w && o.key == k
    ensures i < |w| && w[i].key == k && forall j :: 0 <= j < i ==> w[j].key != k
  {
    i := 0;
    while w[i].key != k
      invariant i < |w| && forall j :: 0 <= j < i ==> w[j].key != k
      decreases |w| - i
    {
      i := i + 1;
    }
  }

  /** Taking the first operation of its key out of an interleaving. */
  lemma WithoutFirst(w: seq<Op>, i: nat, k: string)
    requires i < |w| && forall j :: 0 <= j < i ==> w[j].key != w[i].key
    ensures OnKey(w, k) == (if k == w[i].key then [w[i]] else []) + OnKey(w[..i] + w[i + 1..], k)
  {
    Split(w, i);
    OnKeyAppend(w[..i] + [w[i]], w[i + 1..], k);
    OnKeyAppend(w[..i], [w[i]], k);
    OnKeyAppend(w[..i], w[i + 1..], k);
    OnKeyCons(w[i], [], k);
    assert [w[i]] + [] == [w[i]];
    if k == w[i].key {
      OnKeyIsEmpty(w[..i], k);
    }
  }

  /** The first operation, in its key's own order, of the key that has something
      to be over soonest: nothing else on any key precedes it. */
  lemma NothingPrecedes(w: seq<Op>, z: nat, i: nat, b: nat)
    requires AllOrdered(w) && CollisionFree(w) && KeysInOrder(w) && Soonest(w, z)
    requires i <= z && w[i].key == w[z].key && b < |w| && b != i
    ensures !w[b].Precedes(w[i])
  {
    assert w[z] in w && w[b] in w;
    if i < z {
      InTheirOrder(w, i, z);
    } else if b < i {
      assert !Colliding(w[b], w[i]);
    } else {
      assert !Colliding(w[i], w[b]);
    }
  }

  /** Two operations of one key keep their relative place in the key's own order. */
  lemma InTheirOrder(w: seq<Op>, i: nat, z: nat)
    requires i < z < |w| && w[i].key == w[z].key && KeysInOrder(w)
    ensures !w[z].Precedes(w[i])
  {
    var k := w[i].key;
    Split(w, i);
    OnKeyAppend(w[..i] + [w[i]], w[i + 1..], k);
    OnKeyAppend(w[..i], [w[i]], k);
    OnKeyCons(w[i], [], k);
    assert [w[i]] + [] == [w[i]];
    var before, after := OnKey(w[..i], k), OnKey(w[i + 1..], k);
    var all := OnKey(w, k);
    assert all == before + [w[i]] + after;
    assert w[z] in w[i + 1..] by { assert w[i + 1..][z - i - 1] == w[z]; }
    OnKeyHasKey(w[i + 1..], k);
    var j :| 0 <= j < |after| && after[j] == w[z];
    assert RespectsRealTime(all);
    assert all[|before|] == w[i] && all[|before| + 1 + j] == w[z];
  }

  lemma TailInOrder(a: Op, s: seq<Op>)
    requires RespectsRealTime([a] + s)
    ensures RespectsRealTime(s)
  {
    RealTimeCons(a, s);
  }

  lemma WithoutOne(w: seq<Op>, i: nat, rest: seq<Op>)
    requires i < |w| && Searchable(w) && rest == w[..i] + w[i + 1..]
    ensures Searchable(rest)
    ensures forall o :: o in rest ==> exists j :: 0 <= j < |w| && j != i && w[j] == o
  {
    forall x | 0 <= x < |rest| ensures rest[x] == w[if x < i then x else x + 1] {
    }
    forall x, y | 0 <= x < y < |rest| ensures !Colliding(rest[x], rest[y]) {
      assert !Colliding(w[if x < i then x else x + 1], w[if y < i then y else y + 1]);
    }
    forall o | o in rest ensures exists j :: 0 <= j < |w| && j != i && w[j] == o {
      var x :| 0 <= x < |rest| && rest[x] == o;
      assert w[if x < i then x else x + 1] == o;
    }
  }

  /** Orders of the separate keys can be merged into one that respects real time. */
  lemma {:induction false} Merge(w: seq<Op>) returns (v: seq<Op>)
    requires Searchable(w) && KeysInOrder(w)
    ensures multiset(v) == multiset(w) && RespectsRealTime(v)
    ensures forall k :: OnKey(v, k) == OnKey(w, k)
    decreases |w|
  {
    if w == [] {
      return [];
    }
    hide *;
    var i, rest := NextToGo(w);
    var tail := Merge(rest);
    v := [w[i]] + tail;
    MergeOne(w, i, rest, tail);
  }

  lemma NextToGo(w: seq<Op>) returns (i: nat, rest: seq<Op>)
    requires w != [] && Searchable(w) && KeysInOrder(w)
    ensures i < |w| && rest == w[..i] + w[i + 1..] && |rest| < |w|
    ensures Searchable(rest) && KeysInOrder(rest)
    ensures forall o :: o in rest ==> !o.Precedes(w[i])
    ensures forall j :: 0 <= j < i ==> w[j].key != w[i].key
  {
    var z := SomeSoonest(w);
    i := FirstOfKey(w, w[z].key);
    rest := w[..i] + w[i + 1..];
    WithoutOne(w, i, rest);
    forall k ensures RespectsRealTime(OnKey(rest, k)) {
      WithoutFirst(w, i, k);
      assert RespectsRealTime(OnKey(w, k));
      if k == w[i].key {
        TailInOrder(w[i], OnKey(rest, k));
      } else {
        assert [] + OnKey(rest, k) == OnKey(rest, k);
      }
    }
    forall o | o in rest ensures !o.Precedes(w[i]) {
      var b :| 0 <= b < |w| && b != i && w[b] == o;
      NothingPrecedes(w, z, i, b);
    }
  }

  lemma MergeOne(w: seq<Op>, i: nat, rest: seq<Op>, tail: seq<Op>)
    requires i < |w| && rest == w[..i] + w[i + 1..]
    requires forall o :: o in rest ==> !o.Precedes(w[i])
    requires forall j :: 0 <= j < i ==> w[j].key != w[i].key
    requires multiset(tail) == multiset(rest) && RespectsRealTime(tail)
    requires forall k :: OnKey(tail, k) == OnKey(rest, k)
    ensures var v := [w[i]] + tail;
            && multiset(v) == multiset(w) && RespectsRealTime(v)
            && forall k :: OnKey(v, k) == OnKey(w, k)
  {
    hide OnKey, RespectsRealTime;
    Split(w, i);
    forall o | o in tail ensures o in rest {
      assert o in multiset(tail);
    }
    RealTimeCons(w[i], tail);
    forall k ensures OnKey([w[i]] + tail, k) == OnKey(w, k) {
      WithoutFirst(w, i, k);
      OnKeyCons(w[i], tail, k);
    }
  }

  lemma {:induction false} SomeKeys(h: seq<Op>) returns (keys: seq<string>)
    ensures forall i, j :: 0 <= i < j < |keys| ==> keys[i] != keys[j]
    ensures forall o :: o in h ==> o.key in keys
  {
    if h == [] { return []; }
    keys := SomeKeys(h[1..]);
    if h[0].key !in keys { keys := keys + [h[0].key]; }
  }

  lemma Interleave(m: Model, h: seq<Op>) returns (w: seq<Op>)
    requires EveryKeyLinearizes(m, h) && Searchable(h)
    ensures IsGlobalOrder(m, h, w)
  {
    hide Collect, Final, Searchable, RespectsRealTime;
    var keys := SomeKeys(h);
    var u := Assemble(m, h, keys);
    forall k ensures multiset(OnKey(u, k)) == multiset(OnKey(h, k))
      && RespectsRealTime(OnKey(u, k)) && Final(m, m.Init(), OnKey(u, k)).Some?
    {
      if k in keys {
        assert IsLinearization(m, OnKey(h, k), OnKey(u, k));
      } else {
        OnKeyIsEmpty(h, k);
        OnNothing(m);
      }
    }
    SameOnEveryKey(u, h);
    RearrangedIsSearchable(h, u);
    w := Merge(u);
  }

  lemma OnNothing(m: Model)
    ensures RespectsRealTime([]) && Final(m, m.Init(), []).Some?
  {
  }

  /** Linearizability is local, up to operations of different keys that each
      precede the other. */
  lemma KeysDecide(m: Model, h: seq<Op>)
    requires AllOrdered(h)
    ensures HasGlobalOrder(m, h) <==> EveryKeyLinearizes(m, h) && CollisionFree(h)
  {
    if HasGlobalOrder(m, h) {
      var w :| IsGlobalOrder(m, h, w);
      forall k ensures HasLinearization(m, OnKey(h, k)) {
        RestrictToKey(m, h, w, k);
      }
      OrderMeansNoCollision(h, w);
    }
    if EveryKeyLinearizes(m, h) && CollisionFree(h) {
      var w := Interleave(m, h);
      assert IsGlobalOrder(m, h, w);
    }
  }

  lemma OnKeyOfTwo(x: Op, y: Op, k: string)
    requires x.key != y.key
    ensures OnKey([x, y], k) == (if x.key == k then [x] else if y.key == k then [y] else [])
  {
    hide Collect;
    assert [x, y] == [x] + [y];
    OnKeyCons(x, [y], k);
    OnKeyCons(y, [], k);
    assert [y] + [] == [y];
    OnKeyIsEmpty([], k);
  }

  lemma AtMostOneWrite(h: seq<Op>)
    requires |h| == 0 || (|h| == 1 && h[0].kind == Write)
    ensures HasLinearization(CAS_REGISTER, h)
  {
    assert IsLinearization(CAS_REGISTER, h, h);
  }

  /** Two writes to different keys, each done in an instant and at the same one. */
  function SharedInstant(): seq<Op> {
    var x := Op(0, "x", Write, 1, 0, 0, 0, false, OK, 5, 5, "");
    [x, x.(process := 1, key := "y")]
  }

  /** Without that proviso it is not local: two writes to different keys, each done
      in an instant and at the same one, have an order each but no order together. */
  lemma SharedInstantIsNotLocal()
    ensures var h := SharedInstant();
            EveryKeyLinearizes(CAS_REGISTER, h) && !HasGlobalOrder(CAS_REGISTER, h)
  {
    var h := SharedInstant();
    var x, y := h[0], h[1];
    forall k ensures HasLinearization(CAS_REGISTER, OnKey(h, k)) {
      OnKeyOfTwo(x, y, k);
      AtMostOneWrite(OnKey(h, k));
    }
    KeysDecide(CAS_REGISTER, h);
    assert Colliding(h[0], h[1]);
  }
}
