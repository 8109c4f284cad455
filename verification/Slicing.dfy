/** Arranging a history: by time, by key, without the operations that failed. */
module Slicing {
  import opened History
  import opened Sorting

  // ----- By time

  /** By invocation, ties broken by process. */
  function EarlierFirst(): (Op, Op) -> bool {
    (o: Op, p: Op) => o.invoke < p.invoke || (o.invoke == p.invoke && o.process <= p.process)
  }

  function ByInvoke(h: seq<Op>): (r: seq<Op>)
    ensures |r| == |h|
    ensures multiset(r) == multiset(h)
  {
    Sort(EarlierFirst(), h)
  }

  /** Earlier calls come first, and of those at one moment the ones of lower processes;
      calls of one process at one moment stay in the order they were in. */
  lemma ByInvokeIsStable(h: seq<Op>, at: Int64, process: int)
    ensures forall i, j :: 0 <= i < j < |h| ==>
              var s := ByInvoke(h);
              s[i].invoke < s[j].invoke || (s[i].invoke == s[j].invoke && s[i].process <= s[j].process)
    ensures var p := (o: Op) => o.invoke == at && o.process == process;
            Filter(p, ByInvoke(h)) == Filter(p, h)
  {
    ByInvokeSorts(h);
    var s := ByInvoke(h);
    assert forall i, j :: 0 <= i < j < |s| ==> EarlierFirst()(s[i], s[j]);
    EarlierFirstIsTotal();
    SortKeepsTies(EarlierFirst(), h, (o: Op) => o.invoke == at && o.process == process);
  }

  lemma EarlierFirstIsTotal()
    ensures TotalPreorder(EarlierFirst())
  {
    var leq := EarlierFirst();
    forall o, p, q ensures (leq(o, p) || leq(p, o)) && (leq(o, p) && leq(p, q) ==> leq(o, q)) {
    }
  }

  lemma ByInvokeSorts(h: seq<Op>)
    ensures SortedBy(EarlierFirst(), ByInvoke(h))
  {
    EarlierFirstIsTotal();
    SortSorts(EarlierFirst(), h);
  }

  // ----- Key names, in dictionary order

  function NoLater(a: string, b: string): bool {
    a == [] || (b != [] && (a[0] < b[0] || (a[0] == b[0] && NoLater(a[1..], b[1..]))))
  }

  lemma {:induction false} NoLaterIsTotal(a: string, b: string, c: string)
    ensures NoLater(a, b) || NoLater(b, a)
    ensures NoLater(a, b) && NoLater(b, a) ==> a == b
    ensures NoLater(a, b) && NoLater(b, c) ==> NoLater(a, c)
  {
    if a == [] || b == [] {
    } else {
      NoLaterIsTotal(a[1..], b[1..], if c == [] then [] else c[1..]);
      assert a == [a[0]] + a[1..] && b == [b[0]] + b[1..];
    }
  }

  /** As in a dictionary: `a` is how `b` begins, or where they first differ it has the
      smaller letter. */
  ghost predicate InDictionaryOrder(a: string, b: string) {
    a <= b || exists i: nat :: FirstDifference(a, b, i) && a[i] < b[i]
  }

  ghost predicate FirstDifference(a: string, b: string, i: nat) {
    i < |a| && i < |b| && a[..i] == b[..i] && a[i] != b[i]
  }

  lemma {:induction false} NoLaterIsDictionaryOrder(a: string, b: string)
    ensures NoLater(a, b) <==> InDictionaryOrder(a, b)
  {
    if a == [] {
      assert a <= b;
    } else if b == [] {
    } else if a[0] != b[0] {
      assert FirstDifference(a, b, 0);
      forall i: nat ensures FirstDifference(a, b, i) ==> i == 0 {
        if 0 < i <= |a| && i <= |b| { assert a[..i][0] == a[0] && b[..i][0] == b[0]; }
      }
    } else {
      NoLaterIsDictionaryOrder(a[1..], b[1..]);
      SameFirstLetter(a, b);
    }
  }

  lemma SameFirstLetter(a: string, b: string)
    requires a != [] && b != [] && a[0] == b[0]
    ensures InDictionaryOrder(a, b) <==> InDictionaryOrder(a[1..], b[1..])
  {
    assert a == [a[0]] + a[1..] && b == [b[0]] + b[1..];
    assert a <= b <==> a[1..] <= b[1..];
    forall i: nat ensures FirstDifference(a, b, i + 1) <==> FirstDifference(a[1..], b[1..], i) {
      if i < |a| - 1 && i < |b| - 1 {
        assert a[..i + 1] == [a[0]] + a[1..][..i] && b[..i + 1] == [b[0]] + b[1..][..i];
        assert a[..i + 1][1..] == a[1..][..i] && b[..i + 1][1..] == b[1..][..i];
      }
    }
    if InDictionaryOrder(a, b) && !(a <= b) {
      var i: nat :| FirstDifference(a, b, i) && a[i] < b[i];
      assert FirstDifference(a[1..], b[1..], i - 1);
    }
    if InDictionaryOrder(a[1..], b[1..]) && !(a[1..] <= b[1..]) {
      var i: nat :| FirstDifference(a[1..], b[1..], i) && a[1..][i] < b[1..][i];
      assert FirstDifference(a, b, i + 1);
    }
  }

  function Dictionary(): (string, string) -> bool {
    (a: string, b: string) => NoLater(a, b)
  }

  lemma DictionaryIsTotal()
    ensures TotalPreorder(Dictionary())
  {
    forall a: string, b: string, c: string
      ensures Dictionary()(a, b) || Dictionary()(b, a)
      ensures Dictionary()(a, b) && Dictionary()(b, c) ==> Dictionary()(a, c)
    {
      NoLaterIsTotal(a, b, c);
    }
  }

  /** The keys of a history, each once, in dictionary order. */
  ghost predicate KeysOf(h: seq<Op>, keys: seq<string>) {
    && NoDuplicates(keys)
    && SortedBy(Dictionary(), keys)
    && forall k :: k in keys <==> exists o :: o in h && o.key == k
  }

  lemma Inhabited(s: seq<string>)
    ensures s != [] <==> exists k :: k in s
  {
    if s != [] { assert s[0] in s; }
  }

  /** Sorting a set of names leaves no freedom. */
  lemma {:induction false} OneSortedArrangement(a: seq<string>, b: seq<string>)
    requires NoDuplicates(a) && NoDuplicates(b)
    requires SortedBy(Dictionary(), a) && SortedBy(Dictionary(), b)
    requires forall k :: k in a <==> k in b
    ensures a == b
  {
    Inhabited(a);
    Inhabited(b);
    if a == [] {
    } else {
      assert a[0] in b && b[0] in a;
      NoLaterIsTotal(a[0], a[0], []);
      assert Dictionary()(a[0], b[0]) && Dictionary()(b[0], a[0]);
      NoLaterIsTotal(a[0], b[0], []);
      forall k ensures k in a[1..] <==> k in b[1..] {
        TailMembers(a, k);
        TailMembers(b, k);
      }
      OneSortedArrangement(a[1..], b[1..]);
    }
  }

  lemma TailMembers(s: seq<string>, k: string)
    requires s != [] && NoDuplicates(s)
    ensures k in s[1..] <==> k in s && k != s[0]
  {
    if k in s[1..] {
      var i :| 0 <= i < |s| - 1 && s[1..][i] == k;
      assert s[i + 1] == k;
    }
  }

  // ----- The loops

  /** Removes the operations that definitely never took effect. */
  method DropFailed(h: seq<Op>) returns (r: seq<Op>)
    ensures r == Live(h)
    ensures forall o :: o in r <==> o in h && o.outcome != Fail
  {
    r := [];
    for i := 0 to |h|
      invariant r == Live(h[..i])
    {
      CollectOneMore(KeepLive(), h, i);
      if h[i].outcome != Fail {
        r := r + [h[i]];
      }
    }
    assert h[..|h|] == h;
    LiveIs(h);
  }

  lemma LiveIs(h: seq<Op>)
    ensures forall o :: o in Live(h) <==> o in h && o.outcome != Fail
  {
    forall o ensures o in Live(h) <==> o in h && o.outcome != Fail {
      if o in Live(h) { var p := CollectOrigin(KeepLive(), h, o); }
      if o in h && o.outcome != Fail { CollectMember(KeepLive(), h, o); }
    }
  }

  lemma OnKeyIs(h: seq<Op>, k: string)
    ensures forall o :: o in OnKey(h, k) <==> o in h && o.key == k
  {
    forall o ensures o in OnKey(h, k) <==> o in h && o.key == k {
      if o in OnKey(h, k) { var p := CollectOrigin(KeepOnKey(k), h, o); }
      if o in h && o.key == k { CollectMember(KeepOnKey(k), h, o); }
    }
  }

  lemma {:induction false} OnKeyIsEmpty(h: seq<Op>, k: string)
    ensures OnKey(h, k) == [] <==> forall o :: o in h ==> o.key != k
  {
    if h == [] {
    } else {
      OnKeyIsEmpty(h[1..], k);
    }
  }

  /** Splits the history into one sub-history per key. */
  method ByKey(h: seq<Op>) returns (parts: map<string, seq<Op>>)
    ensures forall k :: k in parts <==> exists o :: o in h && o.key == k
    ensures forall k :: k in parts ==> parts[k] == OnKey(h, k)
    ensures forall k, o :: k in parts ==> (o in parts[k] <==> o in h && o.key == k)
  {
    parts := map[];
    for i := 0 to |h|
      invariant forall k :: k in parts <==> OnKey(h[..i], k) != []
      invariant forall k :: k in parts ==> parts[k] == OnKey(h[..i], k)
    {
      var op := h[i];
      forall k ensures OnKey(h[..i + 1], k) == OnKey(h[..i], k) + (if op.key == k then [op] else []) {
        CollectOneMore(KeepOnKey(k), h, i);
      }
      parts := parts[op.key := (if op.key in parts then parts[op.key] else []) + [op]];
    }
    assert h[..|h|] == h;
    forall k ensures k in parts <==> exists o :: o in h && o.key == k {
      OnKeyIsEmpty(h, k);
    }
    forall k, o ensures k in parts ==> (o in parts[k] <==> o in h && o.key == k) {
      OnKeyIs(h, k);
    }
  }

  /** The keys the history touches, in sorted order. */
  method Keys(h: seq<Op>) returns (keys: seq<string>)
    ensures KeysOf(h, keys)
    ensures forall i, j :: 0 <= i < j < |keys| ==> InDictionaryOrder(keys[i], keys[j])
  {
    var seen, out: seq<string> := {}, [];
    for i := 0 to |h|
      invariant NoDuplicates(out)
      invariant forall k :: k in seen <==> k in out
      invariant forall k :: k in out <==> exists j :: 0 <= j < i && h[j].key == k
    {
      if h[i].key !in seen {
        seen := seen + {h[i].key};
        out := out + [h[i].key];
      }
    }
    keys := Sort(Dictionary(), out);
    DictionaryIsTotal();
    SortSorts(Dictionary(), out);
    SortKeepsDistinct(Dictionary(), out);
    SameMembers(keys, out);
    forall i, j | 0 <= i < j < |keys| ensures InDictionaryOrder(keys[i], keys[j]) {
      assert Dictionary()(keys[i], keys[j]);
      NoLaterIsDictionaryOrder(keys[i], keys[j]);
    }
  }
}
