/** One map behind one mutex: the store every run is measured against. */
module Store {
  import opened History
  import opened Model

  datatype Request = Request(kind: Kind, key: string, value: int, from: int, to: int)

  /** A server's reply. What is absent is not the same as zero. */
  datatype Response = Response(ok: bool, value: Option<int>, swapped: Option<bool>, err: string)

  function ReadOK(v: int): Response { Response(true, Some(v), None, "") }
  function WriteOK(): Response { Response(true, None, None, "") }
  function CASOK(swapped: bool): Response { Response(true, None, Some(swapped), "") }
  function Declined(err: string): Response { Response(false, None, None, err) }

  type Data = map<string, int>

  /** A key never written holds the initial value. */
  function Held(d: Data, k: string): int { if k in d then d[k] else INITIAL_VALUE }

  /** One operation under the lock: the data afterwards, and the reply. */
  function Perform(d: Data, req: Request): (Data, Response) {
    match req.kind
    case Write => (d[req.key := req.value], WriteOK())
    case CAS =>
      if Held(d, req.key) != req.from then (d, CASOK(false))
      else (d[req.key := req.to], CASOK(true))
    case Read => (d, ReadOK(Held(d, req.key)))
  }

  /** A recorded operation claims no more than a request and its reply support: the
      reply it got if it was answered, and nothing if it was not. */
  ghost predicate Records(o: Op, req: Request, resp: Response) {
    && o.key == req.key && o.kind == req.kind && o.value == req.value && o.from == req.from && o.to == req.to
    && o.outcome != Fail
    && (o.outcome == OK ==>
          && (resp.value.Some? ==> o.observed == resp.value.value)
          && (resp.swapped.Some? ==> o.swapped == resp.swapped.value))
  }

  /** What the store does is what the register specifies: the specification accepts
      the operation as recorded, moves to the value the store now holds, and no
      other key is touched. */
  lemma PerformIsStep(d: Data, req: Request, o: Op)
    requires Records(o, req, Perform(d, req).1)
    ensures CAS_REGISTER.Step(Held(d, req.key), o) == (Held(Perform(d, req).0, req.key), true)
    ensures req.kind != CAS ==> REGISTER.Step(Held(d, req.key), o) == (Held(Perform(d, req).0, req.key), true)
    ensures forall k :: k != req.key ==> Held(Perform(d, req).0, k) == Held(d, k)
  {
  }

  /** Which is: a write leaves its value, a compare-and-swap its new value if the key held
      what it expected, and a read what it answers. */
  lemma PerformDoesWhatWasAsked(d: Data, req: Request)
    ensures var (d', resp) := Perform(d, req); var held := Held(d, req.key);
            && resp.ok
            && (req.kind == Write ==> Held(d', req.key) == req.value)
            && (req.kind == CAS ==> resp.swapped == Some(held == req.from))
            && (req.kind == CAS ==> Held(d', req.key) == if held == req.from then req.to else held)
            && (req.kind == Read ==> d' == d && resp.value == Some(held))
  {
  }

  /** The specification refuses an operation that claims another answer. */
  lemma OtherAnswersAreRefused(d: Data, req: Request, o: Op)
    requires o.key == req.key && o.kind == req.kind && o.value == req.value && o.from == req.from && o.to == req.to
    requires o.outcome == OK
    ensures CAS_REGISTER.Step(Held(d, req.key), o).1 <==> Records(o, req, Perform(d, req).1)
    ensures req.kind != CAS ==> (REGISTER.Step(Held(d, req.key), o).1 <==> Records(o, req, Perform(d, req).1))
    ensures req.kind == CAS ==> !REGISTER.Step(Held(d, req.key), o).1
  {
  }

  class SingleStore {
    var data: Data

    constructor ()
      ensures data == map[]
    {
      data := map[];
    }

    /** Performs one operation. It always knows what happened, so it never declines. */
    method Apply(req: Request) returns (resp: Response)
      modifies this
      ensures (data, resp) == Perform(old(data), req)
      ensures resp.ok
    {
      match req.kind
      case Write =>
        data := data[req.key := req.value];
        resp := WriteOK();
      case CAS =>
        var held := Get(req.key);
        if held != req.from {
          return CASOK(false);
        }
        data := data[req.key := req.to];
        resp := CASOK(true);
      case Read =>
        var held := Get(req.key);
        resp := ReadOK(held);
    }

    method Get(k: string) returns (v: int)
      ensures v == Held(data, k)
    {
      if k in data {
        return data[k];
      }
      return INITIAL_VALUE;
    }
  }
}
