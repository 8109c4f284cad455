/** What a client may conclude from what came back over the wire. */
module Client {
  import opened History
  import opened Store

  /** How one exchange with a server went, seen from the sender. */
  datatype Exchange =
    | BadAddress                   // nothing was dialled
    | ConnectionRefused            // nothing was listening
    | Broken                       // a timeout, a reset, a reply cut short
    | BadStatus                    // anything but 200
    | Unparseable
    | Parsed(resp: Response)

  /** All that the sender is entitled to know. */
  datatype Sent =
    | Replied(resp: Response)      // the server reached a decision
    | NeverSent                    // no byte of the request was delivered
    | Unclear                      // it may have been applied, or may be yet

  /** A success that lacks the field the client needs is not an answer. */
  predicate WellShaped(req: Request, resp: Response) {
    resp.ok ==>
      && (req.kind == Read ==> resp.value.Some?)
      && (req.kind == CAS ==> resp.swapped.Some?)
  }

  function Send(req: Request, x: Exchange): Sent {
    match x
    case BadAddress => NeverSent
    case ConnectionRefused => NeverSent
    case Broken => Unclear
    case BadStatus => Unclear
    case Unparseable => Unclear
    case Parsed(resp) => if WellShaped(req, resp) then Replied(resp) else Unclear
  }

  /** The latest moment an operation measured to end at `measured` can have ended. */
  function Completion(invoke: int, measured: int, granularity: int): int {
    (if measured < invoke then invoke else measured) + granularity
  }

  /** The operation as recorded. */
  method Do(process: int, req: Request, invoke: Int64, measured: int, granularity: int, x: Exchange) returns (op: Op)
    requires granularity > 0 && Completion(invoke, measured, granularity) < PENDING
    ensures op == Recording(process, req, invoke, Completion(invoke, measured, granularity), Send(req, x))
    ensures op.process == process && op.invoke == invoke && op.key == req.key && op.kind == req.kind
    ensures op.value == req.value && op.from == req.from && op.to == req.to
    ensures op.outcome == Fail <==> x.BadAddress? || x.ConnectionRefused? || (x.Parsed? && !x.resp.ok)
    ensures op.outcome == OK <==>
            && x.Parsed? && x.resp.ok
            && (req.kind == Read ==> x.resp.value.Some?) && (req.kind == CAS ==> x.resp.swapped.Some?)
    ensures op.outcome == Info ==> op.complete == PENDING
    ensures op.outcome != Info ==>
              op.complete == (if measured < invoke then invoke else measured) + granularity
    ensures op.outcome == OK && req.kind == Read ==> op.observed == x.resp.value.value
    ensures op.outcome == OK && req.kind == CAS ==> op.swapped == x.resp.swapped.value
    ensures op.outcome != OK ==> op.observed == 0 && !op.swapped
  {
    op := Op(process, req.key, req.kind, req.value, req.from, req.to, 0, false, Info, invoke, PENDING, "");
    var done := Completion(invoke, measured, granularity);
    match Send(req, x)
    case Replied(resp) =>
      if resp.ok {
        op := op.(outcome := OK, complete := done);
        if resp.value.Some? {
          op := op.(observed := resp.value.value);
        }
        if resp.swapped.Some? {
          op := op.(swapped := resp.swapped.value);
        }
      } else {
        op := op.(outcome := Fail, complete := done, err := resp.err);
      }
    case NeverSent =>
      op := op.(outcome := Fail, complete := done, err := "never sent");
    case Unclear =>
      op := op.(outcome := Info, complete := PENDING, err := "no answer");
  }

  /** The request, and about its fate exactly what the exchange showed. */
  function Recording(process: int, req: Request, invoke: Int64, done: Int64, s: Sent): Op {
    var asked := Op(process, req.key, req.kind, req.value, req.from, req.to, 0, false, Info, invoke, PENDING, "");
    match s
    case Unclear => asked.(err := "no answer")
    case NeverSent => asked.(outcome := Fail, complete := done, err := "never sent")
    case Replied(resp) =>
      if !resp.ok then asked.(outcome := Fail, complete := done, err := resp.err)
      else asked.(outcome := OK, complete := done,
                  observed := if resp.value.Some? then resp.value.value else 0,
                  swapped := resp.swapped.Some? && resp.swapped.value)
  }

  /** What a reading of the clock says about the true moment of the end: it shows the
      beginning of a tick, and the call cannot have ended before it was invoked. */
  predicate MayEndAt(invoke: int, measured: int, granularity: int, trueEnd: int) {
    invoke <= trueEnd && measured <= trueEnd < measured + granularity
  }

  /** The clock is coarse, and what is recorded stays true nevertheless: an operation
      recorded as over before another began really was over before it began. Nothing
      earlier would do, as the end may have come at the last moment of the tick. */
  lemma CompletionIsSafe(invoke: int, measured: int, granularity: int)
    requires granularity > 0
    ensures invoke < Completion(invoke, measured, granularity)
    ensures forall trueEnd :: MayEndAt(invoke, measured, granularity, trueEnd) ==>
              trueEnd < Completion(invoke, measured, granularity)
    ensures invoke <= measured ==>
              MayEndAt(invoke, measured, granularity, Completion(invoke, measured, granularity) - 1)
  {
  }
}
