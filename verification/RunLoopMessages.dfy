/** What every step of the loop keeps about the responses: those written plus those
    waiting in the channel are, for each request, exactly what that request sent. */
module RunLoopMessages {
  import opened Common
  import opened RunLoopSpec

  /** The responses that request `r` sent, in order. */
  function Of(ms: seq<Message>, r: nat): (out: seq<Response>) {
    if ms == [] then []
    else
      var last := ms[|ms| - 1];
      Of(ms[..|ms| - 1], r) + (if last.origin == Some(r) then [last.response] else [])
  }

  /** The responses that carry the ID `id`: all that a client can tell apart. */
  function WithId(ms: seq<Message>, id: RequestId): (out: seq<Response>) {
    if ms == [] then []
    else
      var last := ms[|ms| - 1];
      WithId(ms[..|ms| - 1], id) + (if last.response.id == Some(id) then [last.response] else [])
  }

  /** Everything the request has sent so far: its updates, if they were asked for, then
      its one final response. */
  function Expected(q: Req): (out: seq<Response>) {
    UpdatesOf(q.id, q.wantsUpdates, q.updates) +
    (match q.phase
     case Queued(o) => [FinalOf(q.id, o)]
     case Done(o) => [FinalOf(q.id, o)]
     case _ => [])
  }

  function All(s: Conn): seq<Message> {
    s.output + s.queue
  }

  predicate Conserved(s: Conn, r: nat)
    requires r < |s.reqs|
  {
    Of(All(s), r) == Expected(s.reqs[r])
  }

  ghost predicate MessageOk(s: Conn, m: Message) {
    match m.origin
    case Some(r) => r < |s.reqs| && m.response.id == Some(s.reqs[r].id)
    case None => m.response.body == Failure(BadRequest)
  }

  predicate Untouched(q: Req) {
    q.phase.Launched? ==> q.updates == []
  }

  /** Nothing that shows in the responses tells the two records apart. */
  predicate SameSends(q: Req, p: Req) {
    p.id == q.id && Expected(p) == Expected(q) && Untouched(p)
  }

  ghost predicate MessageInv(s: Conn) {
    && (forall r :: 0 <= r < |s.reqs| ==> Conserved(s, r))
    && (forall i :: 0 <= i < |s.output| ==> MessageOk(s, s.output[i]))
    && (forall i :: 0 <= i < |s.queue| ==> MessageOk(s, s.queue[i]) && s.queue[i].origin.Some?)
    && (forall i :: 0 <= i < |s.output| && s.output[i].response.id.None? ==> i == |s.output| - 1)
    && ((s.output != [] && s.output[|s.output| - 1].response.id.None?) <==> s.ended == Some(ParseFailed))
    && (forall r :: 0 <= r < |s.reqs| ==> Untouched(s.reqs[r]))
  }

  lemma {:induction false} OfConcat(a: seq<Message>, b: seq<Message>, r: nat)
    ensures Of(a + b, r) == Of(a, r) + Of(b, r)
  {
    if b == [] {
      assert a + b == a;
    } else {
      assert (a + b)[..|a + b| - 1] == a + b[..|b| - 1];
      OfConcat(a, b[..|b| - 1], r);
    }
  }

  lemma {:induction false} WithIdConcat(a: seq<Message>, b: seq<Message>, id: RequestId)
    ensures WithId(a + b, id) == WithId(a, id) + WithId(b, id)
  {
    if b == [] {
      assert a + b == a;
    } else {
      assert (a + b)[..|a + b| - 1] == a + b[..|b| - 1];
      WithIdConcat(a, b[..|b| - 1], id);
    }
  }

  lemma {:induction false} OfFrom(r: nat, ms: seq<Response>, k: nat)
    ensures Of(From(r, ms), k) == if k == r then ms else []
  {
    if ms != [] {
      var front := ms[..|ms| - 1];
      assert From(r, ms)[..|ms| - 1] == From(r, front);
      OfFrom(r, front, k);
      assert ms == front + [ms[|ms| - 1]];
    }
  }

  /** A request that no message names has sent nothing. */
  lemma {:induction false} OfNobody(ms: seq<Message>, r: nat)
    requires forall i :: 0 <= i < |ms| ==> ms[i].origin != Some(r)
    ensures Of(ms, r) == []
  {
    if ms != [] {
      OfNobody(ms[..|ms| - 1], r);
    }
  }

  lemma {:induction false} UpdatesConcat(id: RequestId, wanted: bool, a: seq<Payload>, b: seq<Payload>)
    ensures UpdatesOf(id, wanted, a + b) == UpdatesOf(id, wanted, a) + UpdatesOf(id, wanted, b)
  {
    if b == [] {
      assert a + b == a;
    } else if wanted {
      assert (a + b)[..|a + b| - 1] == a + b[..|b| - 1];
      UpdatesConcat(id, wanted, a, b[..|b| - 1]);
    }
  }

  lemma {:induction false} UpdatesCarryId(id: RequestId, wanted: bool, ps: seq<Payload>)
    ensures forall m :: m in UpdatesOf(id, wanted, ps) ==> m.id == Some(id) && m.body.Update?
  {
    if wanted && ps != [] {
      UpdatesCarryId(id, wanted, ps[..|ps| - 1]);
    }
  }

  lemma SameMessages(s: Conn, t: Conn)
    requires forall i :: 0 <= i < |s.output| ==> MessageOk(s, s.output[i])
    requires forall i :: 0 <= i < |s.queue| ==> MessageOk(s, s.queue[i]) && s.queue[i].origin.Some?
    requires |s.reqs| <= |t.reqs| && forall k :: 0 <= k < |s.reqs| ==> t.reqs[k].id == s.reqs[k].id
    ensures forall i :: 0 <= i < |s.output| ==> MessageOk(t, s.output[i])
    ensures forall i :: 0 <= i < |s.queue| ==> MessageOk(t, s.queue[i]) && s.queue[i].origin.Some?
  {
    forall i | 0 <= i < |s.output| ensures MessageOk(t, s.output[i]) {
      assert MessageOk(s, s.output[i]);
    }
    forall i | 0 <= i < |s.queue| ensures MessageOk(t, s.queue[i]) {
      assert MessageOk(s, s.queue[i]);
    }
  }

  lemma OfSent(all: seq<Message>, r: nat, ms: seq<Response>, k: nat)
    ensures Of(all + From(r, ms), k) == if k == r then Of(all, k) + ms else Of(all, k)
  {
    OfConcat(all, From(r, ms), k);
    OfFrom(r, ms, k);
  }

  lemma SendConserves(s: Conn, t: Conn, r: nat, ms: seq<Response>, k: nat)
    requires k < |s.reqs| == |t.reqs| && r < |s.reqs| && Conserved(s, k)
    requires k != r ==> t.reqs[k] == s.reqs[k]
    requires t.output == s.output && t.queue == s.queue + From(r, ms)
    requires Expected(t.reqs[r]) == Expected(s.reqs[r]) + ms
    ensures Conserved(t, k)
  {
    assert All(t) == All(s) + From(r, ms);
    OfSent(All(s), r, ms, k);
  }

  /** Request `r` sends `ms`; the others stay as they were. */
  lemma SendKeeps(s: Conn, t: Conn, r: nat, ms: seq<Response>)
    requires MessageInv(s) && r < |s.reqs| && s.ended.None?
    requires |t.reqs| == |s.reqs| && t.reqs[r].id == s.reqs[r].id && Untouched(t.reqs[r])
    requires forall k :: 0 <= k < |s.reqs| && k != r ==> t.reqs[k] == s.reqs[k]
    requires t.output == s.output && t.ended.None? && t.queue == s.queue + From(r, ms)
    requires Expected(t.reqs[r]) == Expected(s.reqs[r]) + ms
    requires forall m :: m in ms ==> m.id == Some(s.reqs[r].id)
    ensures MessageInv(t)
  {
    forall k | 0 <= k < |t.reqs| ensures Conserved(t, k) && Untouched(t.reqs[k]) {
      assert Conserved(s, k) && Untouched(s.reqs[k]);
      SendConserves(s, t, r, ms, k);
    }
    SameMessages(s, t);
    forall i | 0 <= i < |t.queue| ensures MessageOk(t, t.queue[i]) && t.queue[i].origin.Some? {
      if i >= |s.queue| {
        assert t.queue[i].response == ms[i - |s.queue|];
      }
    }
  }

  /** A step that sends nothing and leaves every request's responses as they were. */
  lemma SilentKeeps(s: Conn, t: Conn)
    requires MessageInv(s) && s.ended.None?
    requires |t.reqs| == |s.reqs| && t.output == s.output && t.queue == s.queue
    requires forall k :: 0 <= k < |s.reqs| ==> SameSends(s.reqs[k], t.reqs[k])
    requires t.ended != Some(ParseFailed)
    ensures MessageInv(t)
  {
    assert All(t) == All(s);
    forall k | 0 <= k < |t.reqs| ensures Conserved(t, k) && Untouched(t.reqs[k]) {
      assert Conserved(s, k) && SameSends(s.reqs[k], t.reqs[k]);
    }
    SameMessages(s, t);
  }

  /** Nothing has been sent in the name of a request that is yet to come. */
  lemma NextSentNothing(s: Conn)
    requires MessageInv(s)
    ensures Of(All(s), |s.reqs|) == []
  {
    var r := |s.reqs|;
    forall i | 0 <= i < |s.output| ensures s.output[i].origin != Some(r) {
      assert MessageOk(s, s.output[i]);
    }
    forall i | 0 <= i < |s.queue| ensures s.queue[i].origin != Some(r) {
      assert MessageOk(s, s.queue[i]);
    }
    OfConcat(s.output, s.queue, r);
    OfNobody(s.output, r);
    OfNobody(s.queue, r);
  }

  /** A step that only adds a request, which has sent nothing. */
  lemma AddKeeps(s: Conn, t: Conn, q: Req)
    requires MessageInv(s) && s.ended.None?
    requires t.reqs == s.reqs + [q] && Expected(q) == [] && Untouched(q)
    requires t.output == s.output && t.queue == s.queue && t.ended == s.ended
    ensures MessageInv(t)
  {
    NextSentNothing(s);
    assert All(t) == All(s);
    forall k | 0 <= k < |t.reqs| ensures Conserved(t, k) && Untouched(t.reqs[k]) {
      assert k < |s.reqs| ==> Conserved(s, k) && Untouched(s.reqs[k]);
    }
    SameMessages(s, t);
  }

  lemma ReceiveSends(s: Conn, e: Event)
    requires MessageInv(s) && Enabled(s, e) && e.Receive?
    ensures MessageInv(Step(s, e))
  {
    var t := Step(s, e);
    AddKeeps(s, t, t.reqs[|s.reqs|]);
  }

  lemma OfForeign(a: seq<Message>, m: Message, b: seq<Message>, r: nat)
    requires m.origin != Some(r)
    ensures Of((a + [m]) + b, r) == Of(a + b, r)
  {
    OfConcat(a + [m], b, r);
    OfConcat(a, [m], r);
    OfConcat(a, b, r);
    assert Of([m], r) == [];
  }

  lemma InsertForeign(s: Conn, t: Conn, m: Message)
    requires MessageInv(s) && s.ended.None?
    requires m.origin.None? && m.response.body == Failure(BadRequest)
    requires t.reqs == s.reqs && t.queue == s.queue && t.output == s.output + [m]
    requires t.ended == if m.response.id.None? then Some(ParseFailed) else None
    ensures MessageInv(t)
  {
    forall r | 0 <= r < |t.reqs| ensures Conserved(t, r) {
      assert Conserved(s, r);
      OfForeign(s.output, m, s.queue, r);
    }
    SameMessages(s, t);
  }

  lemma ReceiveInvalidSends(s: Conn, e: Event)
    requires MessageInv(s) && Enabled(s, e) && e.ReceiveInvalid?
    ensures MessageInv(Step(s, e))
  {
    var t := Step(s, e);
    if e.written {
      InsertForeign(s, t, Message(None, Response(e.badId, Failure(BadRequest))));
    } else {
      SilentKeeps(s, t);
    }
  }

  lemma DeliverSends(s: Conn, written: bool)
    requires MessageInv(s) && Enabled(s, Deliver(written))
    ensures MessageInv(Step(s, Deliver(written)))
  {
    var t := Step(s, Deliver(written));
    if written {
      assert MessageOk(s, s.queue[0]);
      assert All(t) == All(s);
      forall k | 0 <= k < |t.reqs| ensures Conserved(t, k) {
        assert Conserved(s, k);
      }
      SameMessages(s, t);
    } else {
      SilentKeeps(s, t);
    }
  }

  /** A poll that runs the method adds the updates it emits to what is expected. */
  lemma ExpectedAfterPoll(q: Req, p: Req, emitted: seq<Payload>)
    requires q.phase.Running? && (p.phase.Running? || p.phase.Sending?)
    requires p.id == q.id && p.wantsUpdates == q.wantsUpdates && p.updates == q.updates + emitted
    ensures Expected(p) == Expected(q) + UpdatesOf(q.id, q.wantsUpdates, emitted)
  {
    UpdatesConcat(q.id, q.wantsUpdates, q.updates, emitted);
  }

  lemma PollRuns(s: Conn, e: Event)
    requires MessageInv(s) && Enabled(s, e) && e.Poll?
    requires !(IsCancellable(s.reqs[e.r].call) && s.reqs[e.r].cell.status.Cancelled?)
    ensures MessageInv(Step(s, e))
  {
    var t, q := Step(s, e), s.reqs[e.r];
    ExpectedAfterPoll(q, t.reqs[e.r], e.emitted);
    UpdatesCarryId(q.id, q.wantsUpdates, e.emitted);
    SendKeeps(s, t, e.r, UpdatesOf(q.id, q.wantsUpdates, e.emitted));
  }

  /** A step that changes one request, but nothing that shows in its responses. */
  lemma SilentUpdate(s: Conn, t: Conn, r: nat)
    requires MessageInv(s) && s.ended.None? && r < |s.reqs| == |t.reqs|
    requires t.reqs == s.reqs[r := t.reqs[r]] && SameSends(s.reqs[r], t.reqs[r])
    requires t.output == s.output && t.queue == s.queue && t.ended == s.ended
    ensures MessageInv(t)
  {
    forall k | 0 <= k < |s.reqs| ensures SameSends(s.reqs[k], t.reqs[k]) {
      assert Untouched(s.reqs[k]);
    }
    SilentKeeps(s, t);
  }

  lemma PollSends(s: Conn, e: Event)
    requires MessageInv(s) && Enabled(s, e) && e.Poll?
    ensures MessageInv(Step(s, e))
  {
    if IsCancellable(s.reqs[e.r].call) && s.reqs[e.r].cell.status.Cancelled? {
      SilentUpdate(s, Step(s, e), e.r);
    } else {
      PollRuns(s, e);
    }
  }

  lemma SendFinalSends(s: Conn, r: nat)
    requires MessageInv(s) && Enabled(s, SendFinal(r))
    ensures MessageInv(Step(s, SendFinal(r)))
  {
    var t := Step(s, SendFinal(r));
    SendKeeps(s, t, r, [FinalOf(s.reqs[r].id, s.reqs[r].phase.o)]);
  }

  lemma StartSends(s: Conn, r: nat)
    requires MessageInv(s) && Enabled(s, Start(r))
    ensures MessageInv(Step(s, Start(r)))
  {
    assert Untouched(s.reqs[r]);
    SilentUpdate(s, Step(s, Start(r)), r);
  }

  lemma TakeHandleSends(s: Conn, r: nat)
    requires MessageInv(s) && Enabled(s, TakeHandle(r))
    ensures MessageInv(Step(s, TakeHandle(r)))
  {
    SilentUpdate(s, Step(s, TakeHandle(r)), r);
  }

  lemma FireHandleSends(s: Conn, r: nat)
    requires MessageInv(s) && Enabled(s, FireHandle(r))
    ensures MessageInv(Step(s, FireHandle(r)))
  {
    var t := Step(s, FireHandle(r));
    forall k | 0 <= k < |s.reqs| ensures SameSends(s.reqs[k], t.reqs[k]) {
      assert Untouched(s.reqs[k]);
    }
    SilentKeeps(s, t);
  }

  lemma UnregisterSends(s: Conn, r: nat)
    requires MessageInv(s) && Enabled(s, Unregister(r))
    ensures MessageInv(Step(s, Unregister(r)))
  {
    SilentUpdate(s, Step(s, Unregister(r)), r);
  }

  lemma EndSends(s: Conn, ending: Ending)
    requires MessageInv(s) && Enabled(s, ReceiveEnd(ending))
    ensures MessageInv(Step(s, ReceiveEnd(ending)))
  {
    forall k | 0 <= k < |s.reqs| ensures SameSends(s.reqs[k], s.reqs[k]) {
      assert Untouched(s.reqs[k]);
    }
    SilentKeeps(s, Step(s, ReceiveEnd(ending)));
  }

  lemma StepKeepsMessages(s: Conn, e: Event)
    requires MessageInv(s)
    ensures MessageInv(Step(s, e))
  {
    if Enabled(s, e) {
      match e
      case Receive(_, _, _) => ReceiveSends(s, e);
      case ReceiveInvalid(_, _) => ReceiveInvalidSends(s, e);
      case Deliver(written) => DeliverSends(s, written);
      case Poll(_, _, _, _) => PollSends(s, e);
      case SendFinal(r) => SendFinalSends(s, r);
      case Start(r) => StartSends(s, r);
      case TakeHandle(r) => TakeHandleSends(s, r);
      case FireHandle(r) => FireHandleSends(s, r);
      case Unregister(r) => UnregisterSends(s, r);
      case ReceiveEnd(ending) => EndSends(s, ending);
    }
  }

  lemma {:induction false} ExecKeepsMessages(s: Conn, es: seq<Event>)
    requires MessageInv(s)
    ensures MessageInv(Exec(s, es))
  {
    if es != [] {
      ExecKeepsMessages(s, es[..|es| - 1]);
      StepKeepsMessages(Exec(s, es[..|es| - 1]), es[|es| - 1]);
    }
  }
}
