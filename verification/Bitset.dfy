/** A fixed-width set of operation numbers, packed into 64-bit words. */
module Bitset {
  import opened Verdicts

  // ----- Bits of one word

  function Mask(a: bv6): bv64 { (1 as bv64) << a }
  function And(w: bv64, m: bv64): bv64 { w & m }
  function Xor(w: bv64, v: bv64): bv64 { w ^ v }
  function With(w: bv64, m: bv64): bv64 { w | m }
  function Without(w: bv64, m: bv64): bv64 { w & !m }
  predicate TestBit(w: bv64, a: bv6) { And(w, Mask(a)) != 0 }

  lemma MasksAreDisjoint(a: bv6, b: bv6)
    requires a != b
    ensures And(Mask(a), Mask(b)) == 0
  {
  }

  lemma MaskIsNotZero(a: bv6)
    ensures Mask(a) != 0
  {
  }

  lemma OtherBitsAfterSet(w: bv64, m: bv64, k: bv64)
    requires And(m, k) == 0
    ensures And(With(w, m), k) == And(w, k)
  {
  }

  lemma OtherBitsAfterClear(w: bv64, m: bv64, k: bv64)
    requires And(m, k) == 0
    ensures And(Without(w, m), k) == And(w, k)
  {
  }

  lemma OwnBit(w: bv64, m: bv64)
    ensures And(With(w, m), m) == m
    ensures And(Without(w, m), m) == 0
  {
  }

  /** What is tested after a bit is set or cleared. */
  lemma TestAfterUpdate(w: bv64, a: bv6, b: bv6)
    ensures TestBit(With(w, Mask(a)), b) <==> TestBit(w, b) || a == b
    ensures TestBit(Without(w, Mask(a)), b) <==> TestBit(w, b) && a != b
  {
    hide Mask, And, With, Without;
    MaskIsNotZero(b);
    if a == b {
      OwnBit(w, Mask(a));
    } else {
      MasksAreDisjoint(a, b);
      OtherBitsAfterSet(w, Mask(a), Mask(b));
      OtherBitsAfterClear(w, Mask(a), Mask(b));
    }
  }

  lemma ZeroHasNoBits(a: bv6)
    ensures !TestBit(0, a)
  {
  }

  lemma XorIsZero(w: bv64, v: bv64)
    ensures Xor(w, v) == 0 <==> w == v
  {
  }

  /** Words that agree on a bit have no difference there. */
  lemma AgreeOnBit(w: bv64, v: bv64, m: bv64)
    requires w & m == v & m
    ensures (w ^ v) & m == 0
  {
  }

  lemma OneBit(w: bv64, a: bv6)
    ensures And(w, Mask(a)) == 0 || And(w, Mask(a)) == Mask(a)
  {
  }

  lemma DifferenceHasBit(w: bv64, v: bv64, a: bv6)
    requires TestBit(w, a) == TestBit(v, a)
    ensures !TestBit(Xor(w, v), a)
  {
    assert And(w, Mask(a)) == And(v, Mask(a)) by {
      hide Mask, And;
      OneBit(w, a);
      OneBit(v, a);
    }
    AgreeOnBit(w, v, Mask(a));
    hide Mask;
  }

  /** The bits of a word from number `a` on. */
  function From(x: bv64, a: bv6): bv64 { x >> a }

  lemma FromFacts(x: bv64, a: bv6)
    ensures From(x, 0) == x
    ensures From(x, a) != 0 && !TestBit(x, a) ==> a != 63 && From(x, a + 1) != 0
  {
  }

  /** A word with something from `a` on has a bit. */
  lemma {:induction false} SomeBit(x: bv64, a: bv6) returns (b: bv6)
    requires From(x, a) != 0
    ensures TestBit(x, b)
    decreases 63 - a
  {
    FromFacts(x, a);
    hide From, TestBit;
    if TestBit(x, a) {
      b := a;
    } else {
      b := SomeBit(x, a + 1);
    }
  }

  /** Different words differ in some bit. */
  lemma DifferentBit(w: bv64, v: bv64) returns (b: bv6)
    requires w != v
    ensures TestBit(w, b) != TestBit(v, b)
  {
    XorIsZero(w, v);
    FromFacts(Xor(w, v), 0);
    hide From, TestBit, Xor;
    b := SomeBit(Xor(w, v), 0);
    if TestBit(w, b) == TestBit(v, b) { DifferenceHasBit(w, v, b); }
  }

  // ----- Words and the sets they stand for

  /** Which bit of its word an operation number has. */
  function Slot(i: nat): bv6 { (i % 64) as bv6 }

  lemma SlotIsRemainder(i: nat)
    ensures Slot(i) as nat == i % 64
  {
  }

  lemma SlotsAreDistinct(i: nat, j: nat)
    ensures Slot(i) == Slot(j) <==> i % 64 == j % 64
  {
    SlotIsRemainder(i);
    SlotIsRemainder(j);
    hide Slot;
  }

  lemma SlotOf(k: nat, a: bv6)
    ensures Slot(64 * k + a as nat) == a && (64 * k + a as nat) / 64 == k
  {
    assert (64 * k + a as nat) % 64 == a as nat;
  }

  predicate Has(words: seq<bv64>, i: nat) {
    i / 64 < |words| && TestBit(words[i / 64], Slot(i))
  }

  /** The set the words stand for. */
  ghost function Members(words: seq<bv64>): (r: set<nat>)
    ensures forall i: nat :: i in r <==> Has(words, i)
  {
    var r := set i: nat | i < 64 * |words| && Has(words, i);
    hide TestBit, Slot;
    assert forall i: nat :: Has(words, i) ==> i < 64 * |words|;
    r
  }

  lemma SetOne(words: seq<bv64>, i: nat, j: nat)
    requires i / 64 < |words|
    ensures Has(words[i / 64 := With(words[i / 64], Mask(Slot(i)))], j) <==> Has(words, j) || j == i
    ensures Has(words[i / 64 := Without(words[i / 64], Mask(Slot(i)))], j) <==> Has(words, j) && j != i
  {
    TestAfterUpdate(words[i / 64], Slot(i), Slot(j));
    SlotsAreDistinct(i, j);
    hide TestBit, Slot, With, Without, Mask;
  }

  lemma SetInWords(words: seq<bv64>, i: nat)
    requires i / 64 < |words|
    ensures Members(words[i / 64 := With(words[i / 64], Mask(Slot(i)))]) == Members(words) + {i}
    ensures Members(words[i / 64 := Without(words[i / 64], Mask(Slot(i)))]) == Members(words) - {i}
  {
    hide TestBit, Slot, With, Without, Mask, Has, Members;
    forall j: nat
      ensures Has(words[i / 64 := With(words[i / 64], Mask(Slot(i)))], j) <==> Has(words, j) || j == i
      ensures Has(words[i / 64 := Without(words[i / 64], Mask(Slot(i)))], j) <==> Has(words, j) && j != i
    {
      SetOne(words, i, j);
    }
  }

  /** Word slices of one length stand for the same set only if they are equal. */
  lemma SameMembersSameWords(u: seq<bv64>, v: seq<bv64>)
    requires |u| == |v| && Members(u) == Members(v)
    ensures u == v
  {
    forall k | 0 <= k < |u| ensures u[k] == v[k] {
      if u[k] != v[k] { DifferentWords(u, v, k); }
    }
  }

  lemma DifferentWords(u: seq<bv64>, v: seq<bv64>, k: nat)
    requires k < |u| == |v| && u[k] != v[k]
    ensures Members(u) != Members(v)
  {
    hide TestBit, Slot;
    var a := DifferentBit(u[k], v[k]);
    SlotOf(k, a);
    var i: nat := 64 * k + a as nat;
    assert i in Members(u) <==> TestBit(u[k], a);
    assert i in Members(v) <==> TestBit(v[k], a);
  }

  // ----- Operations

  method NewBitset(n: nat) returns (b: array<bv64>)
    ensures fresh(b) && b.Length == Words(n) && Members(b[..]) == {}
  {
    b := new bv64[Words(n)](_ => 0);
    assert forall k :: 0 <= k < b.Length ==> b[k] == 0;
    ZeroIsEmpty(b[..]);
  }

  lemma ZeroIsEmpty(words: seq<bv64>)
    requires forall k :: 0 <= k < |words| ==> words[k] == 0
    ensures Members(words) == {}
  {
    hide TestBit, Slot, Members;
    forall i: nat ensures !Has(words, i) {
      ZeroHasNoBits(Slot(i));
    }
  }

  method Set(b: array<bv64>, i: nat)
    requires i / 64 < b.Length
    modifies b
    ensures Members(b[..]) == old(Members(b[..])) + {i}
  {
    hide TestBit, Slot, With, Mask, Members;
    ghost var words := b[..];
    SetInWords(words, i);
    b[i / 64] := With(b[i / 64], Mask(Slot(i)));
    assert b[..] == words[i / 64 := With(words[i / 64], Mask(Slot(i)))];
  }

  method Clear(b: array<bv64>, i: nat)
    requires i / 64 < b.Length
    modifies b
    ensures Members(b[..]) == old(Members(b[..])) - {i}
  {
    hide TestBit, Slot, Without, Mask, Members;
    ghost var words := b[..];
    SetInWords(words, i);
    b[i / 64] := Without(b[i / 64], Mask(Slot(i)));
    assert b[..] == words[i / 64 := Without(words[i / 64], Mask(Slot(i)))];
  }

  /** Whether the two hold the same bits. */
  method Equal(b: array<bv64>, o: seq<bv64>) returns (r: bool)
    ensures r <==> b[..] == o
    ensures b.Length == |o| ==> (r <==> Members(b[..]) == Members(o))
  {
    if b.Length != |o| { return false; }
    for i := 0 to b.Length
      invariant forall k :: 0 <= k < i ==> b[k] == o[k]
    {
      if b[i] != o[i] {
        if Members(b[..]) == Members(o) { SameMembersSameWords(b[..], o); }
        return false;
      }
    }
    return true;
  }
}
