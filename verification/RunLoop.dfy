/** The connection's main loop and its request futures, updated in place. Each request shares a
    cancel cell with its handle. */
module RunLoop {
  import opened Common
  import opened RunLoopSpec
  import Cancel
  import Objects = Connection

  /** A request without its cancel cell, which is an object of its own. A handle that is held is
      the number of the request it belongs to. */
  datatype Job = Job(id: RequestId, wantsUpdates: bool, call: Call, phase: Phase,
                     updates: seq<Payload>, held: Option<nat>, victim: Option<nat>)

  function WithCell(j: Job, cell: Cancel.Cell): Req {
    Req(j.id, j.wantsUpdates, j.call, j.phase, cell, j.updates, j.held, j.victim)
  }

  function Answered(j: Job, res: Result<Payload, RpcError>): Job {
    j.(phase := Sending(Returned(res)), held := None)
  }

  class RunLoop {
    const conn: Objects.Connection
    var jobs: seq<Job>
    var cells: seq<Cancel.Inner>
    var queue: seq<Message>
    var output: seq<Message>
    var ended: Option<Ending>
    /** The requests with what is in their cells. */
    ghost var reqs: seq<Req>

    ghost predicate Valid()
      reads this, cells
    {
      && |jobs| == |cells| == |reqs|
      && (forall i, j :: 0 <= i < j < |cells| ==> cells[i] != cells[j])
      && (forall i :: 0 <= i < |cells| ==> reqs[i] == WithCell(jobs[i], cells[i].State()))
    }

    ghost function State(): Conn
      reads this, conn
    {
      Conn(reqs, conn.inflight, queue, output, ended)
    }

    constructor (conn: Objects.Connection)
      requires conn.inflight == map[]
      ensures this.conn == conn && Valid() && State() == Init && cells == []
    {
      this.conn := conn;
      jobs, cells, queue, output, ended := [], [], [], [], None;
      reqs := [];
    }

    /** A valid request starts a future with a cell of its own; an invalid one is answered at
        once, and ends the loop if it has no ID. */
    method HandleRequest(e: Event)
      requires Valid() && Enabled(State(), e) && (e.Receive? || e.ReceiveInvalid? || e.ReceiveEnd?)
      modifies this
      ensures Valid() && State() == Step(old(State()), e)
      ensures old(cells) <= cells && forall i :: |old(cells)| <= i < |cells| ==> fresh(cells[i])
    {
      match e {
        case Receive(id, u, m) =>
          var cell := new Cancel.Inner();
          cells := cells + [cell];
          jobs := jobs + [Job(id, u, m, Launched, [], None, None)];
          reqs := reqs + [Req(id, u, m, Launched, Cancel.Fresh, [], None, None)];
        case ReceiveInvalid(badId, written) =>
          if !written {
            ended := Some(WriteFailed);
            return;
          }
          output := output + [Message(None, Response(badId, Failure(BadRequest)))];
          if badId.None? {
            ended := Some(ParseFailed);
          }
        case ReceiveEnd(ending) =>
          ended := Some(ending);
      }
    }

    method DeliverResponse(written: bool)
      requires Valid() && Enabled(State(), Deliver(written))
      modifies this
      ensures Valid() && cells == old(cells) && State() == Step(old(State()), Deliver(written))
    {
      if written {
        output := output + [queue[0]];
        queue := queue[1..];
      } else {
        ended := Some(WriteFailed);
      }
    }

    /** Replace the record of request `r`, whose cell stays as it is. */
    method SetJob(r: nat, j: Job)
      requires Valid() && r < |jobs|
      modifies this`jobs, this`reqs
      ensures Valid() && jobs == old(jobs)[r := j]
      ensures reqs == old(reqs)[r := WithCell(j, old(reqs)[r].cell)]
    {
      jobs := jobs[r := j];
      reqs := reqs[r := WithCell(j, reqs[r].cell)];
    }

    method StartRequest(r: nat)
      requires Valid() && Enabled(State(), Start(r))
      modifies this, conn`inflight
      ensures Valid() && cells == old(cells) && State() == Step(old(State()), Start(r))
    {
      var j := jobs[r];
      conn.RegisterRequest(j.id, if IsCancellable(j.call) then Some(r) else None);
      SetJob(r, j.(phase := Running));
    }

    method PollCell(r: nat, answer: Option<Result<Payload, Payload>>, w: Cancel.Waker)
      returns (polled: Cancel.Polled<Result<Payload, Payload>>)
      requires Valid() && r < |cells|
      modifies this`reqs, cells
      ensures Valid()
      ensures reqs == old(reqs)[r := old(reqs)[r].(cell := Cancel.PollCell(old(reqs)[r].cell, answer, w).0)]
      ensures polled == Cancel.PollCell(old(reqs)[r].cell, answer, w).1.polled
    {
      var ran;
      polled, ran := cells[r].Poll(answer, w);
      reqs := reqs[r := reqs[r].(cell := cells[r].State())];
    }

    method CancelCell(h: nat) returns (verdict: Result<(), Cancel.CannotCancel>, woken: Option<Cancel.Waker>)
      requires Valid() && h < |cells|
      modifies this`reqs, cells
      ensures Valid()
      ensures var (cell, seen) := Cancel.CancelCell<()>(old(reqs)[h].cell);
              && reqs == old(reqs)[h := old(reqs)[h].(cell := cell)]
              && seen == Cancel.CancelSeen(verdict, woken)
    {
      verdict, woken := cells[h].Cancel();
      reqs := reqs[h := reqs[h].(cell := cells[h].State())];
    }

    /** What the method did when it was polled: the updates it emitted and, if it has finished,
        its result. */
    method MethodPolled(r: nat, emitted: seq<Payload>, answer: Option<Result<Payload, Payload>>)
      requires Valid() && r < |jobs| && jobs[r].phase.Running?
      modifies this`jobs, this`reqs, this`queue
      ensures Valid()
      ensures var q := old(reqs)[r];
              && queue == old(queue) + From(r, UpdatesOf(q.id, q.wantsUpdates, emitted))
              && reqs == old(reqs)[r := q.(phase := if answer.Some? then Sending(Returned(MethodResult(answer.value)))
                                                    else Running,
                                           updates := q.updates + emitted)]
    {
      var j := jobs[r];
      if j.wantsUpdates {
        queue := queue + From(r, UpdatesOf(j.id, true, emitted));
      }
      j := j.(updates := j.updates + emitted);
      if answer.Some? {
        j := j.(phase := Sending(Returned(MethodResult(answer.value))));
      }
      SetJob(r, j);
    }

    /** Poll the future, through its cell if it can be cancelled. */
    method PollRequest(e: Event)
      requires Valid() && Enabled(State(), e) && e.Poll?
      modifies this, cells
      ensures Valid() && cells == old(cells) && State() == Step(old(State()), e)
    {
      var j := jobs[e.r];
      var answer := e.answer;
      if IsCancellable(j.call) {
        var polled := PollCell(e.r, e.answer, e.w);
        match polled {
          case WasCancelled =>
            SetJob(e.r, j.(phase := Sending(CutShort)));
            return;
          case Completed(v) => answer := Some(v);
          case StillPending => answer := None;
        }
      }
      MethodPolled(e.r, e.emitted, answer);
    }

    method CancelTake(r: nat)
      requires Valid() && Enabled(State(), TakeHandle(r))
      modifies this, conn`inflight
      ensures Valid() && cells == old(cells) && State() == Step(old(State()), TakeHandle(r))
    {
      var j := jobs[r];
      var found := conn.TakeHandle(j.call.target);
      match found {
        case Handle(h) => j := j.(held := Some(h));
        case Uncancellable => j := Answered(j, Err(CancelFailed(CannotCancelRequest)));
        case Missing => j := Answered(j, Err(CancelFailed(RequestNotFound)));
      }
      SetJob(r, j);
    }

    /** Use the handle, that is, cancel the cell it shares with its request. A successful cancel
        hands back the waker of that request's last poll. */
    method CancelFire(r: nat) returns (woken: Option<Cancel.Waker>)
      requires Valid() && Enabled(State(), FireHandle(r))
      modifies this, cells
      ensures Valid() && cells == old(cells) && State() == Step(old(State()), FireHandle(r))
      ensures old(reqs)[r].victim.None? && reqs[r].victim.Some? ==>
                woken == old(reqs)[old(reqs)[r].held.value].cell.waker
    {
      var j := jobs[r];
      var h := j.held.value;
      var verdict;
      verdict, woken := CancelCell(h);
      j := Answered(j, CancelResult(verdict));
      if verdict.Ok? {
        j := j.(victim := Some(h));
      }
      SetJob(r, j);
    }

    method SendResponse(r: nat)
      requires Valid() && Enabled(State(), SendFinal(r))
      modifies this
      ensures Valid() && cells == old(cells) && State() == Step(old(State()), SendFinal(r))
    {
      var j := jobs[r];
      queue := queue + From(r, [FinalOf(j.id, j.phase.o)]);
      SetJob(r, j.(phase := Queued(j.phase.o)));
    }

    method FinishRequest(r: nat)
      requires Valid() && Enabled(State(), Unregister(r))
      modifies this, conn`inflight
      ensures Valid() && cells == old(cells) && State() == Step(old(State()), Unregister(r))
    {
      var j := jobs[r];
      conn.RemoveRequest(j.id);
      SetJob(r, j.(phase := Done(j.phase.o)));
    }

    /** Whether the event is possible now; it does not depend on what is in the cells. */
    predicate CanHappen(e: Event)
      requires Valid()
      reads this, cells, conn
      ensures CanHappen(e) <==> Enabled(State(), e)
    {
      && ended.None?
      && match e
         case Receive(_, _, _) => true
         case ReceiveInvalid(_, _) => true
         case ReceiveEnd(ending) => ending.EndOfRequests? || ending.ReadFailed?
         case Deliver(_) => queue != []
         case Start(r) => r < |jobs| && jobs[r].phase.Launched?
         case Poll(r, emitted, answer, _) =>
           && r < |jobs| && jobs[r].phase.Running?
           && (jobs[r].call.RpcCancel? ==>
                 jobs[r].held.None? && emitted == [] && !(answer.Some? && answer.value.Ok?))
         case TakeHandle(r) =>
           r < |jobs| && jobs[r].phase.Running? && jobs[r].call.RpcCancel? && jobs[r].held.None?
         case FireHandle(r) =>
           && r < |jobs| && jobs[r].phase.Running? && jobs[r].held.Some?
           && jobs[r].held.value < |jobs| && jobs[r].held.value != r
         case SendFinal(r) => r < |jobs| && jobs[r].phase.Sending?
         case Unregister(r) => r < |jobs| && jobs[r].phase.Queued?
    }

    /** Do what comes next, if it can happen. */
    method HandleEvent(e: Event)
      requires Valid()
      modifies this, cells, conn`inflight
      ensures Valid() && State() == Step(old(State()), e)
      ensures old(cells) <= cells && forall i :: |old(cells)| <= i < |cells| ==> fresh(cells[i])
    {
      if !CanHappen(e) {
        return;
      }
      match e {
        case Receive(_, _, _) => HandleRequest(e);
        case ReceiveInvalid(_, _) => HandleRequest(e);
        case ReceiveEnd(_) => HandleRequest(e);
        case Deliver(written) => DeliverResponse(written);
        case Start(r) => StartRequest(r);
        case Poll(_, _, _, _) => PollRequest(e);
        case TakeHandle(r) => CancelTake(r);
        case FireHandle(r) => var woken := CancelFire(r);
        case SendFinal(r) => SendResponse(r);
        case Unregister(r) => FinishRequest(r);
      }
    }

    /** The loop under a given schedule. */
    method RunEvents(es: seq<Event>)
      requires Valid()
      modifies this, cells, conn`inflight
      ensures Valid() && State() == Exec(old(State()), es)
    {
      var i := 0;
      while i < |es|
        invariant 0 <= i <= |es| && Valid()
        invariant State() == Exec(old(State()), es[..i])
        invariant old(cells) <= cells && forall k :: |old(cells)| <= k < |cells| ==> fresh(cells[k])
      {
        assert es[..i + 1][..i] == es[..i];
        HandleEvent(es[i]);
        i := i + 1;
      }
      assert es[..|es|] == es;
    }
  }
}
