/** The connection main loop as a transition system.

    A state holds every request the connection has ever accepted, the `inflight`
    table, the channel from the request futures to the loop, and what has been written.
    A request's number (its index in `reqs`) stands for the identity of its future and
    of its cancel handle; the client's own request IDs may collide.

    Each event is one atomic step: one critical section of a lock, one channel
    operation, or one branch of the loop's `select`. An event that is not possible in
    the current state changes nothing, so every list of events is a run. */
module RunLoopSpec {
  import opened Common
  import Cancel

  datatype RequestId = StrId(s: string) | IntId(n: int)

  type Payload = string

  datatype CancelError = RequestNotFound | CannotCancelRequest | AlreadyCancelled

  datatype RpcError =
    | RequestCancelled
    | CancelFailed(why: CancelError)
    | BadRequest
    | MethodFailed(p: Payload)

  datatype Body = Success(p: Payload) | Failure(e: RpcError) | Update(p: Payload)

  datatype Response = Response(id: Option<RequestId>, body: Body)

  /** A response with the place it came from; the origin is not part of what is written. */
  datatype Message = Message(origin: Option<nat>, response: Response)

  datatype Call = Ordinary(cancellable: bool) | RpcCancel(target: RequestId)

  predicate IsCancellable(m: Call) {
    m.Ordinary? && m.cancellable
  }

  /** How a method's future ended. */
  datatype Outcome = Returned(r: Result<Payload, RpcError>) | CutShort

  const Nil: Payload := "{}"

  /** The stages of `run_method_and_deliver_response`. */
  datatype Phase =
    | Launched
    | Running
    | Sending(o: Outcome)
    | Queued(o: Outcome)
    | Done(o: Outcome)

  /** `updates` are the updates the method emitted; `held` is a handle that an
      `rpc:cancel` call has taken out of the table and not yet used; `victim` is the
      request whose handle that call then cancelled. */
  datatype Req = Req(id: RequestId, wantsUpdates: bool, call: Call, phase: Phase,
                     cell: Cancel.Cell, updates: seq<Payload>,
                     held: Option<nat>, victim: Option<nat>)

  datatype Ending = EndOfRequests | ReadFailed | WriteFailed | ParseFailed

  datatype Conn = Conn(reqs: seq<Req>, inflight: map<RequestId, Option<nat>>,
                       queue: seq<Message>, output: seq<Message>, ended: Option<Ending>)

  const Init := Conn([], map[], [], [], None)

  datatype Event =
    | Receive(id: RequestId, wantsUpdates: bool, call: Call)
    | ReceiveInvalid(badId: Option<RequestId>, written: bool)
    | ReceiveEnd(ending: Ending)
    | Deliver(written: bool)
    | Start(r: nat)
    | Poll(r: nat, emitted: seq<Payload>, answer: Option<Result<Payload, Payload>>, w: Cancel.Waker)
    | TakeHandle(r: nat)
    | FireHandle(r: nat)
    | SendFinal(r: nat)
    | Unregister(r: nat)

  // ---- Pieces of the responses ----

  function BodyOf(o: Outcome): (b: Body) {
    match o
    case Returned(Ok(p)) => Success(p)
    case Returned(Err(e)) => Failure(e)
    case CutShort => Failure(RequestCancelled)
  }

  function FinalOf(id: RequestId, o: Outcome): (m: Response) {
    Response(Some(id), BodyOf(o))
  }

  /** What the update sink passes on: nothing unless the client asked for updates. */
  function UpdatesOf(id: RequestId, wanted: bool, ps: seq<Payload>): (ms: seq<Response>) {
    if !wanted || ps == [] then []
    else UpdatesOf(id, wanted, ps[..|ps| - 1]) + [Response(Some(id), Update(ps[|ps| - 1]))]
  }

  function From(r: nat, ms: seq<Response>): (tagged: seq<Message>)
    ensures |tagged| == |ms|
  {
    seq(|ms|, i requires 0 <= i < |ms| => Message(Some(r), ms[i]))
  }

  function MethodResult(answer: Result<Payload, Payload>): Result<Payload, RpcError> {
    match answer
    case Ok(p) => Ok(p)
    case Err(p) => Err(MethodFailed(p))
  }

  // ---- The steps ----

  function DoReceive(s: Conn, id: RequestId, wantsUpdates: bool, call: Call): Conn {
    s.(reqs := s.reqs + [Req(id, wantsUpdates, call, Launched, Cancel.Fresh, [], None, None)])
  }

  function DoReceiveInvalid(s: Conn, badId: Option<RequestId>, written: bool): Conn {
    if !written then s.(ended := Some(WriteFailed))
    else
      s.(output := s.output + [Message(None, Response(badId, Failure(BadRequest)))],
         ended := if badId.None? then Some(ParseFailed) else None)
  }

  /** The channel is dropped when the loop ends, so a message that could not be written
      may as well stay in it. */
  function DoDeliver(s: Conn, written: bool): Conn
    requires s.queue != []
  {
    if written then s.(output := s.output + [s.queue[0]], queue := s.queue[1..])
    else s.(ended := Some(WriteFailed))
  }

  function HandleFor(q: Req, r: nat): Option<nat> {
    if IsCancellable(q.call) then Some(r) else None
  }

  function DoStart(s: Conn, r: nat): Conn
    requires r < |s.reqs|
  {
    var q := s.reqs[r];
    s.(reqs := s.reqs[r := q.(phase := Running)], inflight := s.inflight[q.id := HandleFor(q, r)])
  }

  /** One poll of the method's future, through its cancel cell when it has one. */
  function DoPoll(s: Conn, r: nat, emitted: seq<Payload>,
                  answer: Option<Result<Payload, Payload>>, w: Cancel.Waker): Conn
    requires r < |s.reqs|
  {
    var q := s.reqs[r];
    if IsCancellable(q.call) && q.cell.status.Cancelled? then
      s.(reqs := s.reqs[r := q.(phase := Sending(CutShort))])
    else
      var cell := if IsCancellable(q.call) then Cancel.PollCell(q.cell, answer, w).0 else q.cell;
      var phase := if answer.Some? then Sending(Returned(MethodResult(answer.value))) else Running;
      s.(reqs := s.reqs[r := q.(phase := phase, cell := cell, updates := q.updates + emitted)],
         queue := s.queue + From(r, UpdatesOf(q.id, q.wantsUpdates, emitted)))
  }

  function Answer(q: Req, res: Result<Payload, RpcError>): Req {
    q.(phase := Sending(Returned(res)), held := None)
  }

  /** First half of `cancel_request`: one critical section of the connection lock. */
  function DoTakeHandle(s: Conn, r: nat): Conn
    requires r < |s.reqs| && s.reqs[r].call.RpcCancel?
  {
    var q := s.reqs[r];
    var t := q.call.target;
    if t !in s.inflight then
      s.(reqs := s.reqs[r := Answer(q, Err(CancelFailed(RequestNotFound)))])
    else match s.inflight[t]
      case None => s.(reqs := s.reqs[r := Answer(q, Err(CancelFailed(CannotCancelRequest)))])
      case Some(h) => s.(reqs := s.reqs[r := q.(held := Some(h))], inflight := s.inflight - {t})
  }

  function CancelResult(v: Result<(), Cancel.CannotCancel>): Result<Payload, RpcError> {
    match v
    case Ok(_) => Ok(Nil)
    case Err(AlreadyCancelled) => Err(CancelFailed(CancelError.AlreadyCancelled))
    case Err(AlreadyFinished) => Err(CancelFailed(RequestNotFound))
  }

  /** Second half of `cancel_request`: `handle.cancel()` under the cell's own lock. */
  function DoFireHandle(s: Conn, r: nat): Conn
    requires r < |s.reqs| && s.reqs[r].held.Some? && s.reqs[r].held.value < |s.reqs|
    requires s.reqs[r].held.value != r
  {
    var h := s.reqs[r].held.value;
    var (cell, seen) := Cancel.CancelCell<()>(s.reqs[h].cell);
    var q := Answer(s.reqs[r], CancelResult(seen.verdict));
    s.(reqs := s.reqs[h := s.reqs[h].(cell := cell)]
                     [r := if seen.verdict.Ok? then q.(victim := Some(h)) else q])
  }

  function DoSendFinal(s: Conn, r: nat): Conn
    requires r < |s.reqs| && s.reqs[r].phase.Sending?
  {
    var q := s.reqs[r];
    s.(reqs := s.reqs[r := q.(phase := Queued(q.phase.o))],
       queue := s.queue + From(r, [FinalOf(q.id, q.phase.o)]))
  }

  function DoUnregister(s: Conn, r: nat): Conn
    requires r < |s.reqs| && s.reqs[r].phase.Queued?
  {
    var q := s.reqs[r];
    s.(reqs := s.reqs[r := q.(phase := Done(q.phase.o))], inflight := s.inflight - {q.id})
  }

  /** Whether the event can happen. An `rpc:cancel` call emits no updates, succeeds only
      through the cancel itself, and may fail before it gets there. */
  predicate Enabled(s: Conn, e: Event) {
    && s.ended.None?
    && match e
       case Receive(_, _, _) => true
       case ReceiveInvalid(_, _) => true
       case ReceiveEnd(ending) => ending.EndOfRequests? || ending.ReadFailed?
       case Deliver(_) => s.queue != []
       case Start(r) => r < |s.reqs| && s.reqs[r].phase.Launched?
       case Poll(r, emitted, answer, _) =>
         && r < |s.reqs| && s.reqs[r].phase.Running?
         && (s.reqs[r].call.RpcCancel? ==>
               s.reqs[r].held.None? && emitted == [] && !(answer.Some? && answer.value.Ok?))
       case TakeHandle(r) =>
         && r < |s.reqs| && s.reqs[r].phase.Running?
         && s.reqs[r].call.RpcCancel? && s.reqs[r].held.None?
       case FireHandle(r) =>
         && r < |s.reqs| && s.reqs[r].phase.Running? && s.reqs[r].held.Some?
         && s.reqs[r].held.value < |s.reqs| && s.reqs[r].held.value != r
       case SendFinal(r) => r < |s.reqs| && s.reqs[r].phase.Sending?
       case Unregister(r) => r < |s.reqs| && s.reqs[r].phase.Queued?
  }

  function Step(s: Conn, e: Event): Conn {
    if !Enabled(s, e) then s
    else match e
      case Receive(id, u, m) => DoReceive(s, id, u, m)
      case ReceiveInvalid(badId, written) => DoReceiveInvalid(s, badId, written)
      case ReceiveEnd(ending) => s.(ended := Some(ending))
      case Deliver(written) => DoDeliver(s, written)
      case Start(r) => DoStart(s, r)
      case Poll(r, emitted, answer, w) => DoPoll(s, r, emitted, answer, w)
      case TakeHandle(r) => DoTakeHandle(s, r)
      case FireHandle(r) => DoFireHandle(s, r)
      case SendFinal(r) => DoSendFinal(s, r)
      case Unregister(r) => DoUnregister(s, r)
  }

  function Exec(s: Conn, es: seq<Event>): Conn {
    if es == [] then s else Step(Exec(s, es[..|es| - 1]), es[|es| - 1])
  }

  /** The state after the run `es` of a fresh connection. */
  function Run(es: seq<Event>): Conn {
    Exec(Init, es)
  }

  lemma {:induction false} ExecConcat(s: Conn, es: seq<Event>, fs: seq<Event>)
    ensures Exec(s, es + fs) == Exec(Exec(s, es), fs)
  {
    if fs == [] {
      assert es + fs == es;
    } else {
      var front := fs[..|fs| - 1];
      assert (es + fs)[..|es + fs| - 1] == es + front;
      ExecConcat(s, es, front);
    }
  }

  lemma ThreeSteps(s: Conn, a: Event, b: Event, c: Event)
    ensures Exec(s, [a, b, c]) == Step(Step(Step(s, a), b), c)
  {
    assert [a, b, c][..2] == [a, b];
    assert [a, b][..1] == [a];
    assert [a][..0] == [];
    assert Exec(s, [a]) == Step(s, a);
    assert Exec(s, [a, b]) == Step(Step(s, a), b);
  }

  lemma FourSteps(s: Conn, a: Event, b: Event, c: Event, d: Event)
    ensures Exec(s, [a, b, c, d]) == Step(Step(Step(Step(s, a), b), c), d)
  {
    assert [a, b, c, d][..3] == [a, b, c];
    ThreeSteps(s, a, b, c);
  }
}
