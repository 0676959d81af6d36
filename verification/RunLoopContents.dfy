/** What the responses say, read off the events of the run: which requests there are, the updates
    each of them emitted, and what its final response tells the client. */
module RunLoopContents {
  import opened Common
  import opened RunLoopSpec
  import opened RunLoopTable
  import opened RunLoopMessages

  // ---- The requests ----

  datatype Asked = Asked(id: RequestId, wantsUpdates: bool, call: Call)

  /** The valid requests received while the connection was open, in order. */
  function Accepted(es: seq<Event>): seq<Asked> {
    if es == [] then []
    else
      var front, e := es[..|es| - 1], es[|es| - 1];
      if e.Receive? && Run(front).ended.None?
      then Accepted(front) + [Asked(e.id, e.wantsUpdates, e.call)] else Accepted(front)
  }

  predicate Is(q: Req, a: Asked) {
    q.id == a.id && q.wantsUpdates == a.wantsUpdates && q.call == a.call
  }

  ghost predicate AllAre(reqs: seq<Req>, asked: seq<Asked>) {
    |reqs| == |asked| && forall r :: 0 <= r < |reqs| ==> Is(reqs[r], asked[r])
  }

  lemma SameRequest(s: Conn, e: Event, r: nat)
    requires r < |s.reqs|
    ensures r < |Step(s, e).reqs|
    ensures var q, p := s.reqs[r], Step(s, e).reqs[r];
            p.id == q.id && p.wantsUpdates == q.wantsUpdates && p.call == q.call
  {
  }

  lemma SameNumber(s: Conn, e: Event)
    requires !(e.Receive? && s.ended.None?)
    ensures |Step(s, e).reqs| == |s.reqs|
  {
  }

  /** There is one request for each that was received, with its ID, call and wish for updates. */
  lemma {:induction false} RequestsAreThoseAccepted(es: seq<Event>)
    ensures AllAre(Run(es).reqs, Accepted(es))
  {
    if es != [] {
      var front, e := es[..|es| - 1], es[|es| - 1];
      RequestsAreThoseAccepted(front);
      if !(e.Receive? && Run(front).ended.None?) {
        SameNumber(Run(front), e);
        forall r | 0 <= r < |Run(es).reqs| ensures Is(Run(es).reqs[r], Accepted(es)[r]) {
          assert Is(Run(front).reqs[r], Accepted(front)[r]);
          SameRequest(Run(front), e, r);
        }
      }
    }
  }

  // ---- What a request does ----

  /** The event polls the method of request `r`. */
  predicate Runs(s: Conn, e: Event, r: nat) {
    && e.Poll? && e.r == r && Enabled(s, e)
    && !(IsCancellable(s.reqs[r].call) && IsCancelled(s.reqs[r]))
  }

  /** All updates that the method of `r` emitted. */
  function Emitted(es: seq<Event>, r: nat): seq<Payload> {
    if es == [] then []
    else
      var front, e := es[..|es| - 1], es[|es| - 1];
      if Runs(Run(front), e, r) then Emitted(front, r) + e.emitted else Emitted(front, r)
  }

  /** What the event makes the final response of `r` say, if it settles that: the method's own
      result, that the request was cancelled, or for an `rpc:cancel` how that went. */
  function Settles(s: Conn, e: Event, r: nat): Option<Body> {
    if !Enabled(s, e) then None
    else match e
      case Poll(k, _, answer, _) =>
        if k != r then None
        else if IsCancellable(s.reqs[r].call) && IsCancelled(s.reqs[r]) then Some(Failure(RequestCancelled))
        else if answer.None? then None
        else if answer.value.Ok? then Some(Success(answer.value.value))
        else Some(Failure(MethodFailed(answer.value.error)))
      case TakeHandle(k) =>
        if k != r then None
        else if s.reqs[r].call.target !in s.inflight then Some(Failure(CancelFailed(RequestNotFound)))
        else if s.inflight[s.reqs[r].call.target].None? then Some(Failure(CancelFailed(CannotCancelRequest)))
        else None
      case FireHandle(k) =>
        if k != r then None
        else if s.reqs[s.reqs[r].held.value].cell.status.Finished? then Some(Failure(CancelFailed(RequestNotFound)))
        else Some(Success("{}"))
      case _ => None
  }

  /** What the final response of `r` is to say, as the first event that settles it has it. */
  function FinalBody(es: seq<Event>, r: nat): Option<Body> {
    if es == [] then None
    else
      var front, e := es[..|es| - 1], es[|es| - 1];
      if FinalBody(front, r).Some? then FinalBody(front, r) else Settles(Run(front), e, r)
  }

  // ---- The state follows the events ----

  lemma StepEmits(s: Conn, e: Event, r: nat)
    requires r < |s.reqs|
    ensures r < |Step(s, e).reqs|
    ensures Step(s, e).reqs[r].updates == if Runs(s, e, r) then s.reqs[r].updates + e.emitted else s.reqs[r].updates
  {
  }

  /** An outcome does not change any more. */
  lemma OutcomeStays(s: Conn, e: Event, r: nat)
    requires r < |s.reqs| && OutcomeOf(s.reqs[r]).Some?
    ensures r < |Step(s, e).reqs| && OutcomeOf(Step(s, e).reqs[r]) == OutcomeOf(s.reqs[r])
  {
  }

  lemma PollSettles(s: Conn, e: Event)
    requires TableInv(s) && Enabled(s, e) && e.Poll?
    ensures OutcomeOf(Step(s, e).reqs[e.r]).Some? <==> Settles(s, e, e.r).Some?
    ensures Settles(s, e, e.r).Some? ==> BodyOf(OutcomeOf(Step(s, e).reqs[e.r]).value) == Settles(s, e, e.r).value
  {
  }

  lemma TakeSettles(s: Conn, r: nat)
    requires TableInv(s) && Enabled(s, TakeHandle(r))
    ensures var o, b := OutcomeOf(Step(s, TakeHandle(r)).reqs[r]), Settles(s, TakeHandle(r), r);
            (o.Some? <==> b.Some?) && (b.Some? ==> BodyOf(o.value) == b.value)
  {
  }

  lemma FireSettles(s: Conn, r: nat)
    requires TableInv(s) && Enabled(s, FireHandle(r))
    ensures var o, b := OutcomeOf(Step(s, FireHandle(r)).reqs[r]), Settles(s, FireHandle(r), r);
            (o.Some? <==> b.Some?) && (b.Some? ==> BodyOf(o.value) == b.value)
  {
    assert HeldOk(s, r);
  }

  lemma OthersUndecided(s: Conn, e: Event, r: nat)
    requires Enabled(s, e) && r < |s.reqs| && OutcomeOf(s.reqs[r]).None?
    requires !((e.Poll? || e.TakeHandle? || e.FireHandle?) && e.r == r)
    ensures r < |Step(s, e).reqs| && OutcomeOf(Step(s, e).reqs[r]).None?
  {
  }

  /** Only an event that settles it gives a request an outcome, and then that one. */
  lemma StepSettles(s: Conn, e: Event, r: nat)
    requires TableInv(s) && r < |s.reqs| && OutcomeOf(s.reqs[r]).None?
    ensures r < |Step(s, e).reqs|
    ensures var o, b := OutcomeOf(Step(s, e).reqs[r]), Settles(s, e, r);
            (o.Some? <==> b.Some?) && (b.Some? ==> BodyOf(o.value) == b.value)
  {
    if Enabled(s, e) {
      if e.Poll? && e.r == r {
        PollSettles(s, e);
      } else if e.TakeHandle? && e.r == r {
        TakeSettles(s, r);
      } else if e.FireHandle? && e.r == r {
        FireSettles(s, r);
      } else {
        OthersUndecided(s, e, r);
      }
    }
  }

  lemma GrowsBy(s: Conn, e: Event)
    ensures |s.reqs| <= |Step(s, e).reqs| <= |s.reqs| + 1
    ensures |s.reqs| < |Step(s, e).reqs| ==>
              Step(s, e).reqs[|s.reqs|].phase.Launched? && Step(s, e).reqs[|s.reqs|].updates == []
  {
  }

  lemma {:induction false} NothingYet(es: seq<Event>, r: nat)
    requires r >= |Run(es).reqs|
    ensures Emitted(es, r) == [] && FinalBody(es, r).None?
  {
    if es != [] {
      GrowsBy(Run(es[..|es| - 1]), es[|es| - 1]);
      NothingYet(es[..|es| - 1], r);
    }
  }

  /** The record of `r` is what the events made it. */
  ghost predicate Follows(es: seq<Event>, r: nat)
    requires r < |Run(es).reqs|
  {
    var q := Run(es).reqs[r];
    && q.updates == Emitted(es, r)
    && (OutcomeOf(q).Some? <==> FinalBody(es, r).Some?)
    && (OutcomeOf(q).Some? ==> BodyOf(OutcomeOf(q).value) == FinalBody(es, r).value)
  }

  lemma {:induction false} RunFollows(es: seq<Event>, r: nat)
    requires r < |Run(es).reqs|
    ensures Follows(es, r)
  {
    var front, e := es[..|es| - 1], es[|es| - 1];
    var s := Run(front);
    if r < |s.reqs| {
      RunFollows(front, r);
      StepEmits(s, e, r);
      if OutcomeOf(s.reqs[r]).Some? {
        OutcomeStays(s, e, r);
      } else {
        ExecKeepsTable(Init, front);
        StepSettles(s, e, r);
      }
    } else {
      GrowsBy(s, e);
      NothingYet(front, r);
    }
  }

  // ---- The responses ----

  lemma {:induction false} UpdatesAre(id: RequestId, ps: seq<Payload>)
    ensures |UpdatesOf(id, true, ps)| == |ps|
    ensures forall i :: 0 <= i < |ps| ==> UpdatesOf(id, true, ps)[i] == Response(Some(id), Update(ps[i]))
    ensures UpdatesOf(id, false, ps) == []
  {
    if ps != [] {
      UpdatesAre(id, ps[..|ps| - 1]);
    }
  }

  /** What request `r` has to send according to the events: if it was asked for, each update that
      its method emitted, in order; then, once it has sent it, the one final response. */
  ghost predicate IsTranscript(es: seq<Event>, r: nat, sent: seq<Response>)
    requires r < |Accepted(es)| == |Run(es).reqs|
  {
    var a, ps := Accepted(es)[r], Emitted(es, r);
    var n := if a.wantsUpdates then |ps| else 0;
    var done := Run(es).reqs[r].phase.Queued? || Run(es).reqs[r].phase.Done?;
    && |sent| == n + (if done then 1 else 0)
    && (forall i :: 0 <= i < n ==> sent[i] == Response(Some(a.id), Update(ps[i])))
    && (done ==> FinalBody(es, r).Some? && sent[n] == Response(Some(a.id), FinalBody(es, r).value))
  }

  lemma ExpectedIsTranscript(es: seq<Event>, r: nat)
    requires r < |Accepted(es)| == |Run(es).reqs| && Is(Run(es).reqs[r], Accepted(es)[r]) && Follows(es, r)
    ensures IsTranscript(es, r, Expected(Run(es).reqs[r]))
  {
    UpdatesAre(Accepted(es)[r].id, Emitted(es, r));
  }

  /** In every run, what has been written for a request together with what is waiting to be is
      exactly what the events call for: the updates its method emitted, if the client asked for
      them, and then the result its method answered with, or that it was cancelled, or how the
      cancelling went. */
  lemma ResponsesTell(es: seq<Event>, r: nat)
    requires r < |Run(es).reqs|
    ensures |Accepted(es)| == |Run(es).reqs|
    ensures IsTranscript(es, r, Of(Run(es).output, r) + Of(Run(es).queue, r))
  {
    RequestsAreThoseAccepted(es);
    RunFollows(es, r);
    ExecKeepsMessages(Init, es);
    assert Conserved(Run(es), r) && Is(Run(es).reqs[r], Accepted(es)[r]);
    OfConcat(Run(es).output, Run(es).queue, r);
    ExpectedIsTranscript(es, r);
  }

  lemma {:induction false} SettledSomewhere(es: seq<Event>, r: nat) returns (k: nat)
    requires FinalBody(es, r).Some?
    ensures k < |es| && Settles(Run(es[..k]), es[k], r) == FinalBody(es, r)
  {
    var front := es[..|es| - 1];
    if FinalBody(front, r).Some? {
      k := SettledSomewhere(front, r);
      assert front[..k] == es[..k];
    } else {
      k := |front|;
    }
  }

  /** Event `k` is a poll of `r` that ran its method and to which it answered `answer`. */
  predicate AnsweredAt(es: seq<Event>, k: nat, r: nat, answer: Result<Payload, Payload>) {
    k < |es| && Runs(Run(es[..k]), es[k], r) && es[k].answer == Some(answer)
  }

  lemma {:induction false} AcceptedGrows(es: seq<Event>, k: nat)
    requires k <= |es|
    ensures Accepted(es[..k]) <= Accepted(es)
  {
    if k < |es| {
      AcceptedGrows(es[..|es| - 1], k);
      assert es[..|es| - 1][..k] == es[..k];
    } else {
      assert es[..k] == es;
    }
  }

  lemma CallStays(es: seq<Event>, k: nat, r: nat)
    requires k <= |es| && r < |Run(es[..k]).reqs|
    ensures r < |Run(es).reqs| && Run(es).reqs[r].call == Run(es[..k]).reqs[r].call
  {
    RequestsAreThoseAccepted(es);
    RequestsAreThoseAccepted(es[..k]);
    AcceptedGrows(es, k);
  }

  /** Where the body of an ordinary request's final response comes from. */
  ghost predicate Explained(es: seq<Event>, r: nat, b: Body) {
    match b
    case Success(p) => exists k :: AnsweredAt(es, k, r, Ok(p))
    case Failure(MethodFailed(p)) => exists k :: AnsweredAt(es, k, r, Err(p))
    case Failure(e) => e == RequestCancelled
    case Update(_) => false
  }

  lemma OrdinarySettles(s: Conn, e: Event, r: nat)
    requires TableInv(s) && r < |s.reqs| && s.reqs[r].call.Ordinary? && Settles(s, e, r).Some?
    ensures Settles(s, e, r) == Some(Failure(RequestCancelled))
            || (Runs(s, e, r) && e.answer.Some?
                && Settles(s, e, r).value == (match e.answer.value
                                              case Ok(p) => Success(p)
                                              case Err(p) => Failure(MethodFailed(p))))
  {
    assert HeldOk(s, r);
  }

  lemma SettledIsExplained(es: seq<Event>, k: nat, r: nat, b: Body)
    requires k < |es| && r < |Run(es[..k]).reqs| && Run(es[..k]).reqs[r].call.Ordinary?
    requires Settles(Run(es[..k]), es[k], r) == Some(b)
    ensures Explained(es, r, b)
  {
    ExecKeepsTable(Init, es[..k]);
    OrdinarySettles(Run(es[..k]), es[k], r);
    if b != Failure(RequestCancelled) {
      assert AnsweredAt(es, k, r, es[k].answer.value);
    }
  }

  lemma SettledHasRequest(s: Conn, e: Event, r: nat)
    requires Settles(s, e, r).Some?
    ensures r < |s.reqs|
  {
  }

  /** Conversely, an ordinary request is told of success, or of failure, with some content only
      because its method gave just that answer. */
  lemma FinalWasAnswered(es: seq<Event>, r: nat)
    requires r < |Run(es).reqs| && Run(es).reqs[r].call.Ordinary? && FinalBody(es, r).Some?
    ensures Explained(es, r, FinalBody(es, r).value)
  {
    var k := SettledSomewhere(es, r);
    SettledHasRequest(Run(es[..k]), es[k], r);
    CallStays(es, k, r);
    SettledIsExplained(es, k, r, FinalBody(es, r).value);
  }

  // ---- Refusals and the end ----

  /** The responses that no request sent. */
  function Unsolicited(ms: seq<Message>): seq<Response> {
    if ms == [] then []
    else
      var last := ms[|ms| - 1];
      Unsolicited(ms[..|ms| - 1]) + (if last.origin.None? then [last.response] else [])
  }

  /** The answers that invalid requests must get: an error with the ID if there was one. */
  function Refusals(es: seq<Event>): seq<Response> {
    if es == [] then []
    else
      var front, e := es[..|es| - 1], es[|es| - 1];
      if e.ReceiveInvalid? && e.written && Run(front).ended.None?
      then Refusals(front) + [Response(e.badId, Failure(BadRequest))] else Refusals(front)
  }

  lemma UnsolicitedSnoc(ms: seq<Message>, m: Message)
    ensures Unsolicited(ms + [m]) == Unsolicited(ms) + (if m.origin.None? then [m.response] else [])
  {
    assert (ms + [m])[..|ms|] == ms;
  }

  lemma OutputStays(s: Conn, e: Event)
    requires !((e.ReceiveInvalid? || e.Deliver?) && e.written)
    ensures Step(s, e).output == s.output
  {
  }

  lemma StepRefuses(s: Conn, e: Event)
    requires MessageInv(s)
    ensures Unsolicited(Step(s, e).output) == Unsolicited(s.output) +
            (if e.ReceiveInvalid? && e.written && s.ended.None? then [Response(e.badId, Failure(BadRequest))] else [])
  {
    if !Enabled(s, e) {
    } else if e.ReceiveInvalid? && e.written {
      UnsolicitedSnoc(s.output, Message(None, Response(e.badId, Failure(BadRequest))));
    } else if e.Deliver? && e.written {
      UnsolicitedSnoc(s.output, s.queue[0]);
    } else {
      OutputStays(s, e);
    }
  }

  /** Every invalid request is refused once, in order, under its own ID if it has one; no other
      response is written that no request sent. */
  lemma {:induction false} InvalidRequestsAreRefused(es: seq<Event>)
    ensures Unsolicited(Run(es).output) == Refusals(es)
  {
    if es != [] {
      var front, e := es[..|es| - 1], es[|es| - 1];
      InvalidRequestsAreRefused(front);
      ExecKeepsMessages(Init, front);
      StepRefuses(Run(front), e);
    }
  }

  /** Why the loop ends at this event, if it does: the stream of requests ended or failed, a
      response could not be written, or an invalid request had no ID to answer it under. */
  function EndsWith(s: Conn, e: Event): Option<Ending> {
    match e
    case ReceiveEnd(EndOfRequests) => Some(EndOfRequests)
    case ReceiveEnd(ReadFailed) => Some(ReadFailed)
    case ReceiveInvalid(_, false) => Some(WriteFailed)
    case ReceiveInvalid(None, true) => Some(ParseFailed)
    case Deliver(false) => if s.queue != [] then Some(WriteFailed) else None
    case _ => None
  }

  function FirstEnd(es: seq<Event>): Option<Ending> {
    if es == [] then None
    else
      var front := es[..|es| - 1];
      if FirstEnd(front).Some? then FirstEnd(front) else EndsWith(Run(front), es[|es| - 1])
  }

  /** The loop ends at the first such event and for that reason; until then it goes on, in
      particular after refusing a request that has an ID. */
  lemma {:induction false} EndsExactly(es: seq<Event>)
    ensures Run(es).ended == FirstEnd(es)
  {
    if es != [] {
      EndsExactly(es[..|es| - 1]);
    }
  }

  // ---- Every request can be answered ----

  function StepsToGo(p: Phase): nat {
    match p
    case Launched => 5
    case Running => 4
    case Sending(_) => 2
    case Queued(_) => 1
    case Done(_) => 0
  }

  function ToGo(q: Req): nat {
    StepsToGo(q.phase) - (if q.phase.Running? && q.held.Some? then 1 else 0)
  }

  /** What request `r` may do next. */
  function NextFor(s: Conn, r: nat): Event
    requires r < |s.reqs|
  {
    match s.reqs[r].phase
    case Launched => Start(r)
    case Running => if s.reqs[r].held.Some? then FireHandle(r) else Poll(r, [], Some(Err("")), 0)
    case Sending(_) => SendFinal(r)
    case _ => Unregister(r)
  }

  lemma CanAdvance(s: Conn, r: nat)
    requires TableInv(s) && s.ended.None? && r < |s.reqs| && !s.reqs[r].phase.Done?
    ensures Enabled(s, NextFor(s, r))
    ensures var t := Step(s, NextFor(s, r));
            t.ended.None? && r < |t.reqs| && ToGo(t.reqs[r]) < ToGo(s.reqs[r])
  {
    assert HeldOk(s, r) && OutcomeOk(s.reqs[r]);
  }

  /** On an open connection every request can still be brought to its end, whatever the others
      do or have done. */
  lemma {:induction false} CanFinish(s: Conn, r: nat) returns (fs: seq<Event>)
    requires TableInv(s) && s.ended.None? && r < |s.reqs|
    ensures r < |Exec(s, fs).reqs| && Exec(s, fs).reqs[r].phase.Done? && Exec(s, fs).ended.None?
    decreases ToGo(s.reqs[r])
  {
    if s.reqs[r].phase.Done? {
      fs := [];
    } else {
      var e := NextFor(s, r);
      CanAdvance(s, r);
      StepKeepsTable(s, e);
      var rest := CanFinish(Step(s, e), r);
      fs := [e] + rest;
      ExecConcat(s, [e], rest);
      assert [e][..0] == [];
      assert Exec(s, [e]) == Step(s, e);
    }
  }

  /** While a connection is open, every request accepted on it can be answered in full. */
  lemma EveryRequestCanBeAnswered(es: seq<Event>, r: nat)
    requires Run(es).ended.None? && r < |Run(es).reqs|
    ensures exists fs :: r < |Run(es + fs).reqs| && Run(es + fs).reqs[r].phase.Done? && Run(es + fs).ended.None?
  {
    ExecKeepsTable(Init, es);
    var fs := CanFinish(Run(es), r);
    ExecConcat(Init, es, fs);
    assert Run(es + fs) == Exec(Run(es), fs);
  }
}
