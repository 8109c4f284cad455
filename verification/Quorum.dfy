/** Nodes that write locally, gossip the change without waiting, and resolve
    conflicts by last writer wins. */
module Quorum {
  import opened History
  import opened Model
  import opened Slicing
  import Store

  /** A value and the version that produced it. */
  datatype Entry = Entry(value: int, stamp: int, node: string)
  {
    /** It replaces `o`: later, or as late and from the node with the greater name. */
    predicate Dominates(o: Entry) {
      if stamp != o.stamp then stamp > o.stamp else !NoLater(node, o.node)
    }
  }

  /** An update on its way to a peer. */
  datatype Update = Update(key: string, entry: Entry)

  type Data = map<string, Entry>

  lemma DominatesIsStrictOrder(a: Entry, b: Entry, c: Entry)
    ensures !a.Dominates(a)
    ensures a.Dominates(b) && b.Dominates(c) ==> a.Dominates(c)
    ensures a.Dominates(b) || b.Dominates(a) || (a.stamp == b.stamp && a.node == b.node)
    ensures !(a.Dominates(b) && b.Dominates(a))
  {
    NoLaterIsTotal(a.node, a.node, a.node);
    NoLaterIsTotal(a.node, b.node, c.node);
    NoLaterIsTotal(b.node, a.node, c.node);
    NoLaterIsTotal(c.node, b.node, a.node);
    NoLaterIsTotal(a.node, c.node, b.node);
  }

  /** The later stamp wins, and at one stamp the name that comes later in the dictionary. */
  lemma DominatesIs(a: Entry, b: Entry)
    ensures a.Dominates(b) <==>
            a.stamp > b.stamp || (a.stamp == b.stamp && a.node != b.node && InDictionaryOrder(b.node, a.node))
  {
    NoLaterIsTotal(a.node, b.node, []);
    NoLaterIsTotal(a.node, a.node, []);
    NoLaterIsDictionaryOrder(a.node, b.node);
    NoLaterIsDictionaryOrder(b.node, a.node);
    hide InDictionaryOrder, NoLater;
  }

  function ValueOf(d: Data, k: string): int { if k in d then d[k].value else INITIAL_VALUE }

  /** The clock, but never at or behind what the node already holds. */
  function StampFor(d: Data, k: string, clock: int): int {
    if k in d && clock <= d[k].stamp then d[k].stamp + 1 else clock
  }

  /** The earliest stamp, from the clock on, that is ahead of what is held. */
  predicate AheadOf(d: Data, k: string, stamp: int) { k in d ==> d[k].stamp < stamp }

  lemma StampIsLeast(d: Data, k: string, clock: int)
    ensures var stamp := StampFor(d, k, clock);
            && stamp >= clock && AheadOf(d, k, stamp)
            && forall other :: other >= clock && AheadOf(d, k, other) ==> stamp <= other
  {
  }

  /** One operation at node `id`: its data, its reply, and the update it sends out. */
  function Local(d: Data, id: string, req: Store.Request, clock: int): (Data, Store.Response, Option<Update>) {
    match req.kind
    case Write =>
      var e := Entry(req.value, StampFor(d, req.key, clock), id);
      (d[req.key := e], Store.WriteOK(), Some(Update(req.key, e)))
    case CAS =>
      if ValueOf(d, req.key) != req.from then (d, Store.CASOK(false), None)
      else
        var e := Entry(req.to, StampFor(d, req.key, clock), id);
        (d[req.key := e], Store.CASOK(true), Some(Update(req.key, e)))
    case Read => (d, Store.ReadOK(ValueOf(d, req.key)), None)
  }

  /** A peer's update is taken only if it beats what is held. */
  function Receive(d: Data, u: Update): Data {
    if u.key in d && !u.entry.Dominates(d[u.key]) then d else d[u.key := u.entry]
  }

  /** Two updates are not different values under one version. */
  predicate Agree(u: Update, v: Update) {
    u.key == v.key && u.entry.stamp == v.entry.stamp && u.entry.node == v.entry.node ==> u == v
  }

  /** Updates may arrive in any order, and more than once. */
  lemma ReceiveCommutes(d: Data, u: Update, v: Update)
    requires Agree(u, v)
    ensures Receive(Receive(d, u), v) == Receive(Receive(d, v), u)
    ensures Receive(Receive(d, u), u) == Receive(d, u)
  {
    DominatesIsStrictOrder(u.entry, v.entry, u.entry);
    if u.key in d {
      DominatesIsStrictOrder(u.entry, v.entry, d[u.key]);
      DominatesIsStrictOrder(v.entry, u.entry, d[u.key]);
      DominatesIsStrictOrder(d[u.key], u.entry, v.entry);
      DominatesIsStrictOrder(d[u.key], v.entry, u.entry);
      DominatesIsStrictOrder(u.entry, d[u.key], v.entry);
      DominatesIsStrictOrder(v.entry, d[u.key], u.entry);
    }
  }

  /** A local update always beats what its own node held, however far behind its
      clock: the node never discards a write it has acknowledged. */
  lemma LocalUpdateWins(d: Data, id: string, req: Store.Request, clock: int)
    ensures var (d', resp, sent) := Local(d, id, req, clock);
            sent.Some? ==>
              && sent.value.key == req.key && req.key in d' && d'[req.key] == sent.value.entry
              && sent.value.entry.node == id
              && (req.key in d ==> d'[req.key].stamp > d[req.key].stamp && d'[req.key].Dominates(d[req.key]))
  {
  }

  // ----- A node on its own

  /** The two stores answer every read alike. */
  ghost predicate SameValues(d: Data, e: Store.Data) {
    forall k :: ValueOf(d, k) == Store.Held(e, k)
  }

  /** What a node does on its own is what the single store does: it gives the same reply,
      and their values stay the same. */
  lemma LocalIsPerform(d: Data, e: Store.Data, id: string, req: Store.Request, clock: int)
    requires SameValues(d, e)
    ensures var (d', resp, _) := Local(d, id, req, clock);
            resp == Store.Perform(e, req).1 && SameValues(d', Store.Perform(e, req).0)
  {
    assert ValueOf(d, req.key) == Store.Held(e, req.key);
    var d', e' := Local(d, id, req, clock).0, Store.Perform(e, req).0;
    forall k ensures ValueOf(d', k) == Store.Held(e', k) {
      assert ValueOf(d, k) == Store.Held(e, k);
    }
  }

  /** Which is what the register specifies: it accepts the operation as recorded and moves to
      the value the node now holds, and no other key is touched. */
  lemma LocalIsStep(d: Data, id: string, req: Store.Request, clock: int, o: Op)
    requires Store.Records(o, req, Local(d, id, req, clock).1)
    ensures var d' := Local(d, id, req, clock).0;
            && CAS_REGISTER.Step(ValueOf(d, req.key), o) == (ValueOf(d', req.key), true)
            && (req.kind != CAS ==> REGISTER.Step(ValueOf(d, req.key), o) == (ValueOf(d', req.key), true))
            && forall k :: k != req.key ==> ValueOf(d', k) == ValueOf(d, k)
  {
  }

  /** And it refuses an operation that claims another answer. */
  lemma OtherLocalAnswersAreRefused(d: Data, id: string, req: Store.Request, clock: int, o: Op)
    requires o.key == req.key && o.kind == req.kind && o.value == req.value && o.from == req.from && o.to == req.to
    requires o.outcome == OK
    ensures CAS_REGISTER.Step(ValueOf(d, req.key), o).1 <==> Store.Records(o, req, Local(d, id, req, clock).1)
  {
  }

  /** Every change is sent out, with the value the node now holds, its own name and the
      earliest stamp there is for it. */
  lemma ChangesAreSent(d: Data, id: string, req: Store.Request, clock: int)
    ensures var (d', resp, sent) := Local(d, id, req, clock);
            && (sent.Some? <==> req.kind == Write || (req.kind == CAS && ValueOf(d, req.key) == req.from))
            && (sent.None? ==> d' == d)
            && (sent.Some? ==>
                  && sent.value.key == req.key && sent.value.entry.node == id
                  && sent.value.entry.stamp >= clock && AheadOf(d, req.key, sent.value.entry.stamp)
                  && (forall other :: other >= clock && AheadOf(d, req.key, other) ==>
                        sent.value.entry.stamp <= other)
                  && sent.value.entry.value == (if req.kind == Write then req.value else req.to)
                  && d'.Keys == d.Keys + {req.key} && d'[req.key] == sent.value.entry)
  {
  }

  /** What requests at a node that hears from no other leave behind, and are answered. */
  function Alone(d: Data, id: string, asked: seq<(Store.Request, int)>): (Data, seq<Store.Response>) {
    if asked == [] then (d, [])
    else
      var (req, clock) := asked[|asked| - 1];
      var (d', replies) := Alone(d, id, asked[..|asked| - 1]);
      var (d'', resp, _) := Local(d', id, req, clock);
      (d'', replies + [resp])
  }

  function Single(e: Store.Data, asked: seq<(Store.Request, int)>): (Store.Data, seq<Store.Response>) {
    if asked == [] then (e, [])
    else
      var (e', replies) := Single(e, asked[..|asked| - 1]);
      var (e'', resp) := Store.Perform(e', asked[|asked| - 1].0);
      (e'', replies + [resp])
  }

  /** A node left to itself answers any requests as the single store does, whatever its
      clock reads. */
  lemma {:induction false} AloneIsSingle(d: Data, e: Store.Data, id: string, asked: seq<(Store.Request, int)>)
    requires SameValues(d, e)
    ensures Alone(d, id, asked).1 == Single(e, asked).1
    ensures SameValues(Alone(d, id, asked).0, Single(e, asked).0)
  {
    hide SameValues, Local, Store.Perform;
    if asked == [] {
    } else {
      var n := |asked| - 1;
      AloneIsSingle(d, e, id, asked[..n]);
      LocalIsPerform(Alone(d, id, asked[..n]).0, Single(e, asked[..n]).0, id, asked[n].0, asked[n].1);
    }
  }

  // ----- The class

  class QuorumStore {
    const id: string
    var data: Data

    constructor (id: string)
      ensures this.id == id && data == map[]
    {
      this.id := id;
      data := map[];
    }

    /** Performs one operation against the local map and returns at once. */
    method Apply(req: Store.Request, clock: int) returns (resp: Store.Response, sent: Option<Update>)
      modifies this
      ensures (data, resp, sent) == Local(old(data), id, req, clock)
      ensures resp.ok
    {
      match req.kind
      case Write =>
        var stamp := Stamp(req.key, clock);
        var e := Entry(req.value, stamp, id);
        data := data[req.key := e];
        return Store.WriteOK(), Some(Update(req.key, e));
      case CAS =>
        var held := if req.key in data then data[req.key].value else INITIAL_VALUE;
        if held != req.from {
          return Store.CASOK(false), None;
        }
        var stamp := Stamp(req.key, clock);
        var e := Entry(req.to, stamp, id);
        data := data[req.key := e];
        return Store.CASOK(true), Some(Update(req.key, e));
      case Read =>
        return Store.ReadOK(if req.key in data then data[req.key].value else INITIAL_VALUE), None;
    }

    method Stamp(k: string, clock: int) returns (stamp: int)
      ensures stamp == StampFor(data, k, clock) && stamp >= clock
      ensures k in data ==> stamp > data[k].stamp
    {
      stamp := clock;
      if k in data && stamp <= data[k].stamp {
        stamp := data[k].stamp + 1;
      }
    }

    /** Takes a peer's update if it names a key and a node and beats what is held. */
    method HandleReplicate(u: Update) returns (accepted: bool)
      modifies this
      ensures accepted <==> u.key != "" && u.entry.node != ""
      ensures data == if accepted then Receive(old(data), u) else old(data)
    {
      if u.key == "" || u.entry.node == "" {
        return false;
      }
      var _ := ApplyReplication(u);
      return true;
    }

    method ApplyReplication(u: Update) returns (applied: bool)
      modifies this
      ensures data == Receive(old(data), u)
      ensures applied <==> u.key !in old(data) || u.entry.Dominates(old(data)[u.key])
    {
      if u.key in data && !u.entry.Dominates(data[u.key]) {
        return false;
      }
      data := data[u.key := u.entry];
      return true;
    }
  }

  // ----- Whole runs

  /** A node, and the updates it has generated or received. */
  datatype Node = Node(data: Data, seen: set<Update>)

  /** The nodes by name, and every update ever sent. An update that was sent may
      reach any node at any time, any number of times, or never. */
  datatype System = System(nodes: map<string, Node>, sent: set<Update>)

  datatype Step =
    | Operate(id: string, req: Store.Request, clock: int)
    | Deliver(id: string, u: Update)

  predicate Enabled(s: System, step: Step) {
    match step
    case Operate(id, _, _) => id in s.nodes
    case Deliver(id, u) => id in s.nodes && u in s.sent && u.key != "" && u.entry.node != ""
  }

  function After(s: System, step: Step): System
    requires Enabled(s, step)
  {
    match step
    case Operate(id, req, clock) =>
      var n := s.nodes[id];
      var (data, _, sent) := Local(n.data, id, req, clock);
      if sent == None then s
      else System(s.nodes[id := Node(data, n.seen + {sent.value})], s.sent + {sent.value})
    case Deliver(id, u) =>
      var n := s.nodes[id];
      s.(nodes := s.nodes[id := Node(Receive(n.data, u), n.seen + {u})])
  }

  function Start(ids: set<string>): System { System(map id | id in ids :: Node(map[], {}), {}) }

  /** The entry for the key is the greatest version among the updates seen for it. */
  ghost predicate HoldsGreatest(n: Node, k: string) {
    && (k in n.data ==> Update(k, n.data[k]) in n.seen)
    && forall u :: u in n.seen && u.key == k ==> k in n.data && !u.entry.Dominates(n.data[k])
  }

  ghost predicate Inv(s: System) {
    && (forall u, v :: u in s.sent && v in s.sent ==> Agree(u, v))
    && (forall id :: id in s.nodes ==> s.nodes[id].seen <= s.sent)
    && (forall u :: u in s.sent ==> u.entry.node in s.nodes && u in s.nodes[u.entry.node].seen)
    && (forall id, k :: id in s.nodes ==> HoldsGreatest(s.nodes[id], k))
  }

  lemma ReceiveKeeps(n: Node, u: Update, k: string)
    requires HoldsGreatest(n, k) && forall v :: v in n.seen ==> Agree(u, v)
    ensures HoldsGreatest(Node(Receive(n.data, u), n.seen + {u}), k)
  {
    var n' := Node(Receive(n.data, u), n.seen + {u});
    if u.key == k {
      DominatesIsStrictOrder(u.entry, u.entry, u.entry);
      forall v | v in n'.seen && v.key == k ensures k in n'.data && !v.entry.Dominates(n'.data[k]) {
        if k in n.data {
          DominatesIsStrictOrder(v.entry, u.entry, n.data[k]);
          DominatesIsStrictOrder(u.entry, v.entry, n.data[k]);
        }
      }
    }
  }

  lemma OperateKeeps(n: Node, id: string, req: Store.Request, clock: int, k: string)
    requires HoldsGreatest(n, k) && Local(n.data, id, req, clock).2.Some?
    ensures var (data, _, sent) := Local(n.data, id, req, clock);
            HoldsGreatest(Node(data, n.seen + {sent.value}), k)
  {
    LocalUpdateWins(n.data, id, req, clock);
    var (data, _, sent) := Local(n.data, id, req, clock);
    hide Local;
    if k != req.key { LocalTouchesOnlyItsKey(n.data, id, req, clock, k); }
    DominatesIsStrictOrder(sent.value.entry, sent.value.entry, sent.value.entry);
  }

  lemma LocalTouchesOnlyItsKey(d: Data, id: string, req: Store.Request, clock: int, k: string)
    requires k != req.key
    ensures k in Local(d, id, req, clock).0 <==> k in d
    ensures k in d ==> Local(d, id, req, clock).0[k] == d[k]
  {
  }

  /** A new version is new: the node's own earlier versions are all behind it. */
  lemma NewVersionIsNew(s: System, id: string, req: Store.Request, clock: int, v: Update)
    requires Inv(s) && id in s.nodes && Local(s.nodes[id].data, id, req, clock).2.Some? && v in s.sent
    ensures var u := Local(s.nodes[id].data, id, req, clock).2.value;
            Agree(u, v) && Agree(v, u)
  {
    LocalUpdateWins(s.nodes[id].data, id, req, clock);
    assert HoldsGreatest(s.nodes[id], req.key);
    hide Local;
  }

  lemma StepKeeps(s: System, step: Step)
    requires Inv(s) && Enabled(s, step)
    ensures Inv(After(s, step))
  {
    match step
    case Operate(id, req, clock) =>
      var (data, _, sent) := Local(s.nodes[id].data, id, req, clock);
      if sent.Some? {
        forall v | v in s.sent ensures Agree(sent.value, v) && Agree(v, sent.value) {
          NewVersionIsNew(s, id, req, clock, v);
        }
        forall k ensures HoldsGreatest(Node(data, s.nodes[id].seen + {sent.value}), k) {
          OperateKeeps(s.nodes[id], id, req, clock, k);
        }
        LocalUpdateWins(s.nodes[id].data, id, req, clock);
      }
    case Deliver(id, u) =>
      forall k ensures HoldsGreatest(Node(Receive(s.nodes[id].data, u), s.nodes[id].seen + {u}), k) {
        ReceiveKeeps(s.nodes[id], u, k);
      }
  }

  ghost predicate Follows(s: System, s': System) {
    exists step :: Enabled(s, step) && s' == After(s, step)
  }

  ghost predicate IsRun(states: seq<System>) {
    && |states| > 0
    && states[0] == Start(states[0].nodes.Keys)
    && forall t :: 0 < t < |states| ==> Follows(states[t - 1], states[t])
  }

  lemma {:induction false} RunKeeps(states: seq<System>, t: nat)
    requires IsRun(states) && t < |states|
    ensures Inv(states[t])
  {
    if t == 0 {
    } else {
      RunKeeps(states, t - 1);
      assert Follows(states[t - 1], states[t]);
      var step :| Enabled(states[t - 1], step) && states[t] == After(states[t - 1], step);
      hide Inv, After, Enabled;
      StepKeeps(states[t - 1], step);
    }
  }

  /** The two nodes have generated or received the same updates for the key. */
  ghost predicate SawTheSame(a: Node, b: Node, k: string) {
    forall u: Update :: u.key == k ==> (u in a.seen <==> u in b.seen)
  }

  /** Nodes that have seen the same updates agree, in whatever order and however
      often each of them received them, and whatever else was lost. */
  lemma Converges(states: seq<System>, t: nat, a: string, b: string, k: string)
    requires IsRun(states) && t < |states| && a in states[t].nodes && b in states[t].nodes
    requires SawTheSame(states[t].nodes[a], states[t].nodes[b], k)
    ensures k in states[t].nodes[a].data <==> k in states[t].nodes[b].data
    ensures k in states[t].nodes[a].data ==> states[t].nodes[a].data[k] == states[t].nodes[b].data[k]
  {
    RunKeeps(states, t);
    var m, n := states[t].nodes[a], states[t].nodes[b];
    assert HoldsGreatest(m, k) && HoldsGreatest(n, k);
    hide IsRun;
    if k in m.data {
      assert Update(k, m.data[k]) in n.seen;
      assert Update(k, n.data[k]) in m.seen;
      DominatesIsStrictOrder(m.data[k], n.data[k], m.data[k]);
      assert Agree(Update(k, m.data[k]), Update(k, n.data[k]));
    }
    if k in n.data {
      assert Update(k, n.data[k]) in m.seen;
    }
  }

  /** On every run each node holds, for every key, the greatest version it has seen. */
  lemma EntryIsGreatestSeen(states: seq<System>, t: nat, id: string, k: string)
    requires IsRun(states) && t < |states| && id in states[t].nodes
    ensures HoldsGreatest(states[t].nodes[id], k)
  {
    RunKeeps(states, t);
  }

  /** No step ever moves an entry back to an earlier version. */
  lemma EntriesOnlyAdvance(s: System, step: Step, id: string, k: string)
    requires Enabled(s, step) && id in s.nodes && k in s.nodes[id].data
    ensures var s' := After(s, step);
            && id in s'.nodes && k in s'.nodes[id].data
            && (s'.nodes[id].data[k] == s.nodes[id].data[k] || s'.nodes[id].data[k].Dominates(s.nodes[id].data[k]))
  {
    match step
    case Operate(n, req, clock) =>
      LocalUpdateWins(s.nodes[n].data, n, req, clock);
      if k != req.key { LocalTouchesOnlyItsKey(s.nodes[n].data, n, req, clock, k); }
    case Deliver(_, _) =>
  }
}
