/** A follower that holds nothing and forwards everything, until it is told to
    promote itself when the leader does not answer. */
module Forward {
  import opened History
  import opened Model
  import opened Store
  import opened Client

  /** What a node tells its client. */
  datatype Answer = Reply(resp: Response) | Indeterminate

  const DEFAULT_PROMOTE_AFTER := 3

  /** The part of a follower that requests change. */
  datatype Follower = Follower(promote: bool, promoteAfter: int, failures: int, promoted: bool, cache: Data)
  {
    /** It never answers on its own. */
    predicate Loyal() { !promoted && (promote ==> failures < promoteAfter) }
  }

  /** A new follower, with promotion configured one way or the other. */
  function NewFollower(promote: bool, promoteAfter: int): Follower {
    Follower(promote, promoteAfter, 0, false, map[])
  }

  function Cached(c: Data, req: Request, resp: Response): Data {
    match req.kind
    case Read => if resp.value.Some? then c[req.key := resp.value.value] else c
    case Write => c[req.key := req.value]
    case CAS => if resp.swapped == Some(true) then c[req.key := req.to] else c
  }

  /** What is cached is what the leader holds. */
  ghost predicate Current(c: Data, d: Data) {
    forall k :: k in c ==> c[k] == Held(d, k)
  }

  /** A follower that hears every reply of the leader keeps a current cache, and one
      that took effect is in it: the cache only goes stale by what it does not hear. */
  lemma CacheStaysCurrent(c: Data, d: Data, req: Request)
    requires Current(c, d)
    ensures var (d', resp) := Perform(d, req);
            && Current(Cached(c, req, resp), d')
            && (req.kind != CAS || resp.swapped == Some(true) ==> req.key in Cached(c, req, resp))
            && (forall k :: k in c ==> k in Cached(c, req, resp))
  {
  }

  function Succeeded(f: Follower, req: Request, resp: Response): Follower {
    f.(failures := 0, promoted := false,
       cache := if f.promote && resp.ok then Cached(f.cache, req, resp) else f.cache)
  }

  function Failed(f: Follower): Follower {
    f.(failures := f.failures + 1,
       promoted := f.promoted || (f.promote && f.failures + 1 >= f.promoteAfter))
  }

  /** What it says of its own, having lost sight of the leader. */
  function Serve(f: Follower, req: Request): (Follower, Answer) {
    var (cache, resp) := Perform(f.cache, req);
    (f.(cache := cache), Reply(resp))
  }

  /** What a follower makes of one request, given how forwarding it went; `alone`
      is whether it had promoted itself by the time the request came in. */
  function Forwarded(f: Follower, alone: bool, req: Request, sent: Sent): (Follower, Answer) {
    match sent
    case Replied(resp) => (Succeeded(f, req, resp), Reply(resp))
    case _ =>
      var g := Failed(f);
      if alone || g.promoted then Serve(g, req)
      else (g, if sent == NeverSent then Reply(Declined("leader refused the connection")) else Indeterminate)
  }

  /** A follower that has not promoted itself only passes on what it was told: the leader's
      reply, a refusal when the request never left, and otherwise that it does not know. */
  lemma LoyalOnlyForwards(f: Follower, req: Request, x: Exchange)
    requires !Forwarded(f, false, req, Send(req, x)).0.promoted
    ensures var a := Forwarded(f, false, req, Send(req, x)).1;
            match x
            case BadAddress => a.Reply? && !a.resp.ok
            case ConnectionRefused => a.Reply? && !a.resp.ok
            case Parsed(resp) => a == if WellShaped(req, resp) then Reply(resp) else Indeterminate
            case _ => a == Indeterminate
  {
  }

  lemma LoyalOnlyPassesOn(f: Follower, req: Request, sent: Sent)
    requires !Forwarded(f, false, req, sent).0.promoted
    ensures match Forwarded(f, false, req, sent).1
            case Reply(resp) => sent == Replied(resp) || (sent == NeverSent && !resp.ok)
            case Indeterminate => sent == Unclear
  {
  }

  /** A reply that makes sense is passed on by every follower, and ends any promotion.
      Anything else is one more failure, and promotes it exactly if promotion is on and
      they have become too many. */
  lemma RepliesArePassedOn(f: Follower, alone: bool, req: Request, x: Exchange)
    ensures var (g, a) := Forwarded(f, alone, req, Send(req, x));
            && g.promote == f.promote && g.promoteAfter == f.promoteAfter
            && if x.Parsed? && WellShaped(req, x.resp) then
                 a == Reply(x.resp) && g.failures == 0 && !g.promoted
               else
                 && g.failures == f.failures + 1
                 && (g.promoted <==> f.promoted || (f.promote && f.promoteAfter <= f.failures + 1))
  {
  }

  /** A follower that may promote itself, and hears what the leader did, keeps its cache
      current, with what took effect in it. */
  lemma HearingKeepsCurrent(f: Follower, alone: bool, req: Request, d: Data)
    requires f.promote && Current(f.cache, d)
    ensures var (d', resp) := Perform(d, req); var g := Forwarded(f, alone, req, Send(req, Parsed(resp))).0;
            && Current(g.cache, d') && (forall k :: k in f.cache ==> k in g.cache)
            && (req.kind != CAS || resp.swapped == Some(true) ==> req.key in g.cache)
  {
    CacheStaysCurrent(f.cache, d, req);
  }

  /** With promotion off nothing is ever cached, and a refusal is never. */
  lemma NothingIsCached(f: Follower, alone: bool, req: Request, sent: Sent)
    requires !alone && !Forwarded(f, alone, req, sent).0.promoted
    requires !f.promote || !sent.Replied? || !sent.resp.ok
    ensures Forwarded(f, alone, req, sent).0.cache == f.cache
  {
  }

  /** Cut off, it is a register on its own cache: it answers as the single store would
      if that held what is cached. */
  lemma CutOffServesItsCache(f: Follower, alone: bool, req: Request, sent: Sent)
    requires !sent.Replied? && (alone || Forwarded(f, alone, req, sent).0.promoted)
    ensures var (g, a) := Forwarded(f, alone, req, sent);
            (g.cache, a) == (Perform(f.cache, req).0, Reply(Perform(f.cache, req).1))
  {
  }

  /** How the last forwards went: the number of failures since the last success. */
  function Streak(tries: seq<bool>): nat {
    if tries == [] || tries[|tries| - 1] then 0 else 1 + Streak(tries[..|tries| - 1])
  }

  /** The follower after a sequence of forwarded requests. */
  function AfterAll(f: Follower, log: seq<(bool, Request, Sent)>): Follower {
    if log == [] then f
    else
      var (alone, req, sent) := log[|log| - 1];
      Forwarded(AfterAll(f, log[..|log| - 1]), alone, req, sent).0
  }

  function Tries(log: seq<(bool, Request, Sent)>): (r: seq<bool>)
    ensures |r| == |log|
  {
    if log == [] then [] else Tries(log[..|log| - 1]) + [log[|log| - 1].2.Replied?]
  }

  /** No follower can have promoted itself before `n` forwards in a row have failed. */
  ghost predicate NeverInARow(tries: seq<bool>, n: int) {
    forall k :: 0 <= k <= |tries| ==> Streak(tries[..k]) < n
  }

  lemma {:induction false} StreakIsFailures(f: Follower, log: seq<(bool, Request, Sent)>)
    requires f.failures == 0
    ensures AfterAll(f, log).failures == Streak(Tries(log))
    ensures AfterAll(f, log).promote == f.promote && AfterAll(f, log).promoteAfter == f.promoteAfter
  {
    if log == [] {
    } else {
      var n := |log| - 1;
      StreakIsFailures(f, log[..n]);
      assert Tries(log)[..n] == Tries(log[..n]);
    }
  }

  /** Promotion takes exactly that: with it off, or without `promoteAfter` failed
      forwards in a row, a follower is loyal all along; and the first such row of
      failures promotes it. */
  lemma LoyalUnlessCutOff(promote: bool, promoteAfter: int, log: seq<(bool, Request, Sent)>)
    requires promoteAfter >= 1
    ensures (forall k :: 0 <= k <= |log| ==> AfterAll(NewFollower(promote, promoteAfter), log[..k]).Loyal())
       <==> (!promote || NeverInARow(Tries(log), promoteAfter))
  {
    var f := NewFollower(promote, promoteAfter);
    LoyalSoFar(promote, promoteAfter, log);
    forall k | 0 <= k <= |log|
      ensures AfterAll(f, log[..k]).failures == Streak(Tries(log)[..k]) && AfterAll(f, log[..k]).promote == promote
      ensures AfterAll(f, log[..k]).promoteAfter == promoteAfter
    {
      StreakIsFailures(f, log[..k]);
      TriesPrefix(log, k);
    }
  }

  lemma {:induction false} TriesPrefix(log: seq<(bool, Request, Sent)>, k: nat)
    requires k <= |log|
    ensures Tries(log[..k]) == Tries(log)[..k]
  {
    if k < |log| {
      var n := |log| - 1;
      TriesPrefix(log[..n], k);
      assert log[..n][..k] == log[..k];
    } else {
      assert log[..k] == log;
    }
  }

  lemma {:induction false} LoyalSoFar(promote: bool, promoteAfter: int, log: seq<(bool, Request, Sent)>)
    requires promoteAfter >= 1
    ensures !promote || NeverInARow(Tries(log), promoteAfter) ==>
              forall k :: 0 <= k <= |log| ==> AfterAll(NewFollower(promote, promoteAfter), log[..k]).Loyal()
  {
    var f := NewFollower(promote, promoteAfter);
    if !promote || NeverInARow(Tries(log), promoteAfter) {
      if log != [] {
        var n := |log| - 1;
        TriesPrefix(log, n);
        assert forall k :: 0 <= k <= n ==> Tries(log)[..n][..k] == Tries(log)[..k];
        LoyalSoFar(promote, promoteAfter, log[..n]);
        forall k | 0 <= k <= n ensures AfterAll(f, log[..k]).Loyal() {
          assert log[..n][..k] == log[..k];
        }
        assert log[..|log|] == log && Tries(log)[..|log|] == Tries(log);
        StreakIsFailures(f, log);
        StreakIsFailures(f, log[..n]);
        assert log[..n][..n] == log[..n];
      } else {
        assert forall k :: 0 <= k <= |log| ==> log[..k] == [];
      }
    }
  }

  class ForwardStore {
    var leader: Option<string>
    const local: SingleStore
    var promote: bool
    var promoteAfter: int
    var failures: int
    var promoted: bool
    var cache: Data

    constructor (leader: Option<string>)
      ensures this.leader == leader && fresh(local) && local.data == map[]
      ensures State() == NewFollower(false, DEFAULT_PROMOTE_AFTER) && promoteAfter == 3
    {
      this.leader := leader;
      local := new SingleStore();
      promote, promoteAfter, failures, promoted, cache := false, DEFAULT_PROMOTE_AFTER, 0, false, map[];
    }

    function State(): Follower
      reads this
    {
      Follower(promote, promoteAfter, failures, promoted, cache)
    }

    /** Handles one request; `x` is how the exchange with the leader goes, if there
        is one. The leader answers from its data, a follower as it can. */
    method Apply(req: Request, x: Exchange) returns (a: Answer)
      modifies this, local
      ensures leader == old(leader)
      ensures leader == None ==>
                a == Reply(Perform(old(local.data), req).1) && local.data == Perform(old(local.data), req).0
                && State() == old(State())
      ensures leader.Some? ==>
                && (State(), a) == Forwarded(old(State()), old(promoted), req, Send(req, x))
                && local.data == old(local.data)
    {
      if leader == None {
        var r := local.Apply(req);
        return Reply(r);
      }
      if promoted {
        match Send(req, x) {
          case Replied(resp) =>
            ForwardSucceeded(req, resp);
            return Reply(resp);
          case _ =>
            var _ := ForwardFailed();
        }
        var r := ServeFromCache(req);
        return Reply(r);
      }
      match Send(req, x)
      case Replied(resp) =>
        ForwardSucceeded(req, resp);
        return Reply(resp);
      case NeverSent =>
        var alone := ForwardFailed();
        if alone {
          var r := ServeFromCache(req);
          return Reply(r);
        }
        return Reply(Declined("leader refused the connection"));
      case Unclear =>
        var alone := ForwardFailed();
        if alone {
          var r := ServeFromCache(req);
          return Reply(r);
        }
        return Indeterminate;
    }

    method ForwardSucceeded(req: Request, resp: Response)
      modifies this
      ensures State() == Succeeded(old(State()), req, resp) && leader == old(leader)
    {
      failures := 0;
      promoted := false;
      if !promote || !resp.ok {
        return;
      }
      match req.kind
      case Read =>
        if resp.value.Some? {
          cache := cache[req.key := resp.value.value];
        }
      case Write =>
        cache := cache[req.key := req.value];
      case CAS =>
        if resp.swapped.Some? && resp.swapped.value {
          cache := cache[req.key := req.to];
        }
    }

    method ForwardFailed() returns (alone: bool)
      modifies this
      ensures State() == Failed(old(State())) && alone == promoted && leader == old(leader)
    {
      failures := failures + 1;
      if !promote || promoted || failures < promoteAfter {
        return promoted;
      }
      promoted := true;
      return true;
    }

    method ServeFromCache(req: Request) returns (resp: Response)
      modifies this
      ensures (State(), Reply(resp)) == Serve(old(State()), req) && leader == old(leader)
    {
      var held := if req.key in cache then cache[req.key] else INITIAL_VALUE;
      match req.kind
      case Write =>
        cache := cache[req.key := req.value];
        resp := WriteOK();
      case CAS =>
        if held != req.from {
          return CASOK(false);
        }
        cache := cache[req.key := req.to];
        resp := CASOK(true);
      case Read =>
        resp := ReadOK(held);
    }
  }
}
