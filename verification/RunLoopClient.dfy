/** What a client can see: the responses that carry an ID. As long as the client does not use an
    ID again while a request with it is live, they come in consecutive blocks, one per request,
    never interleaved. */
module RunLoopClient {
  import opened Common
  import opened RunLoopSpec
  import opened RunLoopTable
  import opened RunLoopHandles
  import opened RunLoopMessages

  /** The responses with an ID that requests have sent; refusals of invalid requests are not
      among them. */
  function SentUnder(ms: seq<Message>, id: RequestId): seq<Response> {
    if ms == [] then []
    else
      var last := ms[|ms| - 1];
      SentUnder(ms[..|ms| - 1], id) +
      (if last.origin.Some? && last.response.id == Some(id) then [last.response] else [])
  }

  lemma {:induction false} SentUnderConcat(a: seq<Message>, b: seq<Message>, id: RequestId)
    ensures SentUnder(a + b, id) == SentUnder(a, id) + SentUnder(b, id)
  {
    if b == [] {
      assert a + b == a;
    } else {
      assert (a + b)[..|a + b| - 1] == a + b[..|b| - 1];
      SentUnderConcat(a, b[..|b| - 1], id);
    }
  }

  lemma SentUnderSnoc(ms: seq<Message>, m: Message, id: RequestId)
    ensures SentUnder(ms + [m], id) ==
            SentUnder(ms, id) + (if m.origin.Some? && m.response.id == Some(id) then [m.response] else [])
  {
    assert (ms + [m])[..|ms|] == ms;
  }

  lemma {:induction false} SentUnderFrom(r: nat, ms: seq<Response>, own: RequestId, id: RequestId)
    requires forall m :: m in ms ==> m.id == Some(own)
    ensures SentUnder(From(r, ms), id) == if own == id then ms else []
  {
    if ms != [] {
      var front, last := ms[..|ms| - 1], ms[|ms| - 1];
      assert ms == front + [last] && last in ms;
      SentUnderFrom(r, front, own, id);
      assert From(r, ms) == From(r, front) + [Message(Some(r), last)];
      SentUnderSnoc(From(r, front), Message(Some(r), last), id);
    }
  }

  // ---- What one step sends ----

  /** The request that the event makes send, if any. */
  predicate Sends(s: Conn, e: Event, r: nat) {
    (e.Poll? || e.SendFinal?) && e.r == r && Enabled(s, e)
  }

  function SentBy(s: Conn, e: Event, r: nat): seq<Response>
    requires Sends(s, e, r)
  {
    var q := s.reqs[r];
    if e.SendFinal? then [FinalOf(q.id, q.phase.o)]
    else if IsCancellable(q.call) && q.cell.status.Cancelled? then []
    else UpdatesOf(q.id, q.wantsUpdates, e.emitted)
  }

  lemma SentCarriesId(s: Conn, e: Event, r: nat)
    requires Sends(s, e, r)
    ensures forall m :: m in SentBy(s, e, r) ==> m.id == Some(s.reqs[r].id)
  {
    if e.Poll? {
      UpdatesCarryId(s.reqs[r].id, s.reqs[r].wantsUpdates, e.emitted);
    }
  }

  lemma AllAfterSending(s: Conn, e: Event, r: nat)
    requires Sends(s, e, r)
    ensures All(Step(s, e)) == All(s) + From(r, SentBy(s, e, r))
  {
  }

  lemma SentUnderAfter(s: Conn, e: Event, r: nat, id: RequestId)
    requires Sends(s, e, r)
    ensures SentUnder(All(Step(s, e)), id) ==
            SentUnder(All(s), id) + (if s.reqs[r].id == id then SentBy(s, e, r) else [])
  {
    AllAfterSending(s, e, r);
    SentCarriesId(s, e, r);
    SentUnderConcat(All(s), From(r, SentBy(s, e, r)), id);
    SentUnderFrom(r, SentBy(s, e, r), s.reqs[r].id, id);
  }

  lemma RefusalIsNotSent(a: seq<Message>, m: Message, b: seq<Message>, id: RequestId)
    requires m.origin.None?
    ensures SentUnder(a + [m] + b, id) == SentUnder(a + b, id)
  {
    SentUnderConcat(a + [m], b, id);
    SentUnderConcat(a, [m], id);
    SentUnderConcat(a, b, id);
    assert SentUnder([m], id) == [];
  }

  /** Any other event leaves what has been sent as it is. */
  lemma SentUnderSame(s: Conn, e: Event, id: RequestId)
    requires Enabled(s, e) && !e.Poll? && !e.SendFinal?
    ensures SentUnder(All(Step(s, e)), id) == SentUnder(All(s), id)
  {
    match e
    case ReceiveInvalid(badId, written) =>
      if written {
        RefusalIsNotSent(s.output, Message(None, Response(badId, Failure(BadRequest))), s.queue, id);
      }
    case Deliver(written) =>
      assert All(Step(s, e)) == All(s);
    case _ =>
  }

  lemma ExpectedAfterSending(s: Conn, e: Event, r: nat)
    requires Sends(s, e, r)
    ensures Expected(Step(s, e).reqs[r]) == Expected(s.reqs[r]) + SentBy(s, e, r)
  {
    var q, p := s.reqs[r], Step(s, e).reqs[r];
    if e.Poll? && !(IsCancellable(q.call) && q.cell.status.Cancelled?) {
      ExpectedAfterPoll(q, p, e.emitted);
    }
  }

  lemma ExpectedSame(s: Conn, e: Event, k: nat)
    requires Enabled(s, e) && k < |s.reqs| && !Sends(s, e, k)
    ensures k < |Step(s, e).reqs| && Expected(Step(s, e).reqs[k]) == Expected(s.reqs[k])
  {
  }

  // ---- The order in which requests with an ID were started ----

  predicate LiveWith(s: Conn, id: RequestId, r: nat) {
    r < |s.reqs| && Registered(s.reqs[r]) && s.reqs[r].id == id
  }

  /** No two requests with the ID are registered at the same time. */
  ghost predicate Alone(s: Conn, id: RequestId) {
    forall q, r :: LiveWith(s, id, q) && LiveWith(s, id, r) ==> q == r
  }

  ghost predicate AlwaysAlone(es: seq<Event>, id: RequestId) {
    forall k :: 0 <= k <= |es| ==> Alone(Run(es[..k]), id)
  }

  predicate StartsOne(s: Conn, e: Event, id: RequestId) {
    e.Start? && Enabled(s, e) && s.reqs[e.r].id == id
  }

  function NextOrder(s: Conn, e: Event, order: seq<nat>, id: RequestId): seq<nat> {
    if StartsOne(s, e, id) then order + [e.r] else order
  }

  function StartOrder(es: seq<Event>, id: RequestId): seq<nat> {
    if es == [] then []
    else
      var front := es[..|es| - 1];
      NextOrder(Run(front), es[|es| - 1], StartOrder(front, id), id)
  }

  predicate Started(s: Conn, id: RequestId, r: nat) {
    r < |s.reqs| && s.reqs[r].id == id && !s.reqs[r].phase.Launched?
  }

  /** `order` has each started request with the ID once, and all but the last are done. */
  ghost predicate OrderOk(s: Conn, order: seq<nat>, id: RequestId) {
    && (forall k :: 0 <= k < |order| ==> Started(s, id, order[k]))
    && (forall k :: 0 <= k < |order| - 1 ==> s.reqs[order[k]].phase.Done?)
    && (forall r :: Started(s, id, r) ==> r in order)
    && (forall j, k :: 0 <= j < k < |order| ==> order[j] != order[k])
  }

  lemma StartedAfter(s: Conn, e: Event, id: RequestId, r: nat)
    requires Enabled(s, e)
    ensures Started(Step(s, e), id, r) <==> Started(s, id, r) || (StartsOne(s, e, id) && e.r == r)
  {
  }

  lemma DoneStays(s: Conn, e: Event, r: nat)
    requires Enabled(s, e) && r < |s.reqs| && s.reqs[r].phase.Done?
    ensures r < |Step(s, e).reqs| && Step(s, e).reqs[r].phase.Done?
  {
  }

  /** When a request with the ID is started, any other that was started before is done. */
  lemma EarlierIsDone(s: Conn, e: Event, id: RequestId, r: nat)
    requires StartsOne(s, e, id) && Alone(Step(s, e), id) && Started(s, id, r)
    ensures r < |Step(s, e).reqs| && Step(s, e).reqs[r].phase.Done?
  {
    var t := Step(s, e);
    assert t.reqs[r] == s.reqs[r] && LiveWith(t, id, e.r);
    assert !LiveWith(t, id, r);
  }

  lemma OrderGrows(s: Conn, e: Event, order: seq<nat>, id: RequestId)
    requires OrderOk(s, order, id) && StartsOne(s, e, id) && Alone(Step(s, e), id)
    ensures OrderOk(Step(s, e), order + [e.r], id)
  {
    var t := Step(s, e);
    forall r: nat ensures Started(t, id, r) <==> Started(s, id, r) || e.r == r {
      StartedAfter(s, e, id, r);
    }
    forall k | 0 <= k < |order| ensures t.reqs[order[k]].phase.Done? {
      EarlierIsDone(s, e, id, order[k]);
    }
  }

  lemma OrderStays(s: Conn, e: Event, order: seq<nat>, id: RequestId)
    requires OrderOk(s, order, id) && Enabled(s, e) && !StartsOne(s, e, id)
    ensures OrderOk(Step(s, e), order, id)
  {
    forall r: nat ensures Started(Step(s, e), id, r) <==> Started(s, id, r) {
      StartedAfter(s, e, id, r);
    }
    forall k | 0 <= k < |order| - 1 ensures Step(s, e).reqs[order[k]].phase.Done? {
      DoneStays(s, e, order[k]);
    }
  }

  // ---- Blocks ----

  predicate AllIndices(reqs: seq<Req>, order: seq<nat>) {
    forall k :: 0 <= k < |order| ==> order[k] < |reqs|
  }

  /** Everything that the requests of `order` have sent, one request after the other. */
  function Blocks(reqs: seq<Req>, order: seq<nat>): seq<Response>
    requires AllIndices(reqs, order)
  {
    if order == [] then []
    else Blocks(reqs, order[..|order| - 1]) + Expected(reqs[order[|order| - 1]])
  }

  lemma {:induction false} BlocksSame(a: seq<Req>, b: seq<Req>, order: seq<nat>)
    requires AllIndices(a, order) && AllIndices(b, order)
    requires forall k :: 0 <= k < |order| ==> Expected(a[order[k]]) == Expected(b[order[k]])
    ensures Blocks(a, order) == Blocks(b, order)
  {
    if order != [] {
      BlocksSame(a, b, order[..|order| - 1]);
    }
  }

  /** A request that sends is the last that was started with its ID. */
  lemma SenderIsLast(s: Conn, e: Event, order: seq<nat>, id: RequestId, r: nat)
    requires OrderOk(s, order, id) && Sends(s, e, r) && s.reqs[r].id == id
    ensures order != [] && order[|order| - 1] == r
    ensures forall k :: 0 <= k < |order| - 1 ==> order[k] != r
  {
    assert Started(s, id, r);
    var k :| 0 <= k < |order| && order[k] == r;
  }

  lemma EarlierBlocksStay(s: Conn, e: Event, front: seq<nat>, r: nat)
    requires Sends(s, e, r) && AllIndices(s.reqs, front) && AllIndices(Step(s, e).reqs, front) && r !in front
    ensures Blocks(Step(s, e).reqs, front) == Blocks(s.reqs, front)
  {
    forall k | 0 <= k < |front| ensures Expected(Step(s, e).reqs[front[k]]) == Expected(s.reqs[front[k]]) {
      ExpectedSame(s, e, front[k]);
    }
    BlocksSame(Step(s, e).reqs, s.reqs, front);
  }

  lemma LastBlockGrows(a: seq<Req>, b: seq<Req>, order: seq<nat>, added: seq<Response>)
    requires order != [] && AllIndices(a, order) && AllIndices(b, order)
    requires Blocks(a, order[..|order| - 1]) == Blocks(b, order[..|order| - 1])
    requires Expected(a[order[|order| - 1]]) == Expected(b[order[|order| - 1]]) + added
    ensures Blocks(a, order) == Blocks(b, order) + added
  {
  }

  lemma BlocksSend(s: Conn, e: Event, order: seq<nat>, id: RequestId, r: nat)
    requires OrderOk(s, order, id) && Sends(s, e, r) && s.reqs[r].id == id
    requires AllIndices(s.reqs, order) && AllIndices(Step(s, e).reqs, order)
    ensures Blocks(Step(s, e).reqs, order) == Blocks(s.reqs, order) + SentBy(s, e, r)
  {
    SenderIsLast(s, e, order, id, r);
    EarlierBlocksStay(s, e, order[..|order| - 1], r);
    ExpectedAfterSending(s, e, r);
    LastBlockGrows(Step(s, e).reqs, s.reqs, order, SentBy(s, e, r));
  }

  lemma BlocksStay(s: Conn, e: Event, order: seq<nat>, id: RequestId)
    requires OrderOk(s, order, id) && Enabled(s, e)
    requires forall r: nat :: Sends(s, e, r) ==> s.reqs[r].id != id
    requires AllIndices(s.reqs, order) && AllIndices(Step(s, e).reqs, order)
    ensures Blocks(Step(s, e).reqs, order) == Blocks(s.reqs, order)
  {
    forall k | 0 <= k < |order| ensures Expected(Step(s, e).reqs[order[k]]) == Expected(s.reqs[order[k]]) {
      assert Started(s, id, order[k]);
      ExpectedSame(s, e, order[k]);
    }
    BlocksSame(Step(s, e).reqs, s.reqs, order);
  }

  lemma BlocksGrow(s: Conn, e: Event, order: seq<nat>, id: RequestId)
    requires OrderOk(s, order, id) && StartsOne(s, e, id) && Untouched(s.reqs[e.r])
    requires AllIndices(s.reqs, order) && AllIndices(Step(s, e).reqs, order + [e.r])
    requires AllIndices(Step(s, e).reqs, order)
    ensures Blocks(Step(s, e).reqs, order + [e.r]) == Blocks(s.reqs, order)
  {
    BlocksStay(s, e, order, id);
    assert (order + [e.r])[..|order|] == order;
    assert Expected(Step(s, e).reqs[e.r]) == [];
  }

  // ---- Whole runs ----

  ghost predicate InBlocks(s: Conn, order: seq<nat>, id: RequestId) {
    && OrderOk(s, order, id) && AllIndices(s.reqs, order)
    && SentUnder(All(s), id) == Blocks(s.reqs, order)
  }

  lemma StartKeepsBlocks(s: Conn, e: Event, order: seq<nat>, id: RequestId)
    requires MessageInv(s) && InBlocks(s, order, id) && StartsOne(s, e, id) && Alone(Step(s, e), id)
    ensures InBlocks(Step(s, e), order + [e.r], id)
  {
    OrderGrows(s, e, order, id);
    assert Untouched(s.reqs[e.r]);
    SentUnderSame(s, e, id);
    BlocksGrow(s, e, order, id);
  }

  lemma SendKeepsBlocks(s: Conn, e: Event, order: seq<nat>, id: RequestId, r: nat)
    requires InBlocks(s, order, id) && Sends(s, e, r)
    ensures InBlocks(Step(s, e), order, id)
  {
    OrderStays(s, e, order, id);
    SentUnderAfter(s, e, r, id);
    if s.reqs[r].id == id {
      BlocksSend(s, e, order, id, r);
    } else {
      BlocksStay(s, e, order, id);
    }
  }

  lemma OtherKeepsBlocks(s: Conn, e: Event, order: seq<nat>, id: RequestId)
    requires InBlocks(s, order, id) && Enabled(s, e) && !e.Poll? && !e.SendFinal? && !StartsOne(s, e, id)
    ensures InBlocks(Step(s, e), order, id)
  {
    OrderStays(s, e, order, id);
    SentUnderSame(s, e, id);
    BlocksStay(s, e, order, id);
  }

  lemma AloneBefore(es: seq<Event>, id: RequestId)
    requires es != [] && AlwaysAlone(es, id)
    ensures AlwaysAlone(es[..|es| - 1], id) && Alone(Run(es), id)
  {
    var front := es[..|es| - 1];
    forall k | 0 <= k <= |front| ensures Alone(Run(front[..k]), id) {
      assert front[..k] == es[..k];
    }
    assert es[..|es|] == es;
  }

  lemma StepKeepsBlocks(s: Conn, e: Event, order: seq<nat>, id: RequestId)
    requires MessageInv(s) && InBlocks(s, order, id) && Alone(Step(s, e), id)
    ensures InBlocks(Step(s, e), NextOrder(s, e, order, id), id)
  {
    if StartsOne(s, e, id) {
      StartKeepsBlocks(s, e, order, id);
    } else if Enabled(s, e) && (e.Poll? || e.SendFinal?) {
      SendKeepsBlocks(s, e, order, id, e.r);
    } else if Enabled(s, e) {
      OtherKeepsBlocks(s, e, order, id);
    }
  }

  lemma {:induction false} RunInBlocks(es: seq<Event>, id: RequestId)
    requires AlwaysAlone(es, id)
    ensures InBlocks(Run(es), StartOrder(es, id), id)
  {
    if es != [] {
      var front := es[..|es| - 1];
      AloneBefore(es, id);
      RunInBlocks(front, id);
      ExecKeepsMessages(Init, front);
      StepKeepsBlocks(Run(front), es[|es| - 1], StartOrder(front, id), id);
    }
  }

  // ---- The client's view ----

  /** No invalid request was refused under the ID. */
  predicate NoRefusal(ms: seq<Message>, id: RequestId) {
    forall i :: 0 <= i < |ms| && ms[i].origin.None? ==> ms[i].response.id != Some(id)
  }

  lemma {:induction false} WithIdIsSent(ms: seq<Message>, id: RequestId)
    requires NoRefusal(ms, id)
    ensures WithId(ms, id) == SentUnder(ms, id)
  {
    if ms != [] {
      WithIdIsSent(ms[..|ms| - 1], id);
    }
  }

  /** If no two requests with the ID are ever live at the same time, the responses that carry it,
      written or waiting to be, are everything that the first of them sent, then everything
      that the second sent, and so on: blocks of updates and one final response, never
      interleaved, and complete for all but the last. */
  lemma ClientView(es: seq<Event>, id: RequestId)
    requires AlwaysAlone(es, id) && NoRefusal(Run(es).output, id)
    ensures var s, order := Run(es), StartOrder(es, id);
            && OrderOk(s, order, id) && AllIndices(s.reqs, order)
            && WithId(s.output, id) + WithId(s.queue, id) == Blocks(s.reqs, order)
  {
    var s := Run(es);
    RunInBlocks(es, id);
    ExecKeepsMessages(Init, es);
    WithIdConcat(s.output, s.queue, id);
    WithIdIsSent(All(s), id);
  }

  /** Distinct live IDs are enough, for every ID. */
  lemma LiveDistinctIsAlone(es: seq<Event>, id: RequestId)
    requires AlwaysLiveDistinct(es)
    ensures AlwaysAlone(es, id)
  {
    forall k | 0 <= k <= |es| ensures Alone(Run(es[..k]), id) {
      assert LiveDistinct(Run(es[..k]));
    }
  }

  /** The shape of a block: updates, which come only if they were asked for, and then the one
      final response, which is there exactly if the request has finished. */
  lemma BlockShape(q: Req)
    ensures forall i :: 0 <= i < |Expected(q)| - 1 ==> Expected(q)[i].body.Update?
    ensures (q.phase.Queued? || q.phase.Done?) <==> Expected(q) != [] && !Expected(q)[|Expected(q)| - 1].body.Update?
    ensures !q.wantsUpdates ==> |Expected(q)| <= 1
  {
    UpdatesCarryId(q.id, q.wantsUpdates, q.updates);
    var us := UpdatesOf(q.id, q.wantsUpdates, q.updates);
    assert forall i :: 0 <= i < |us| ==> us[i] in us;
  }

  lemma {:induction false} WithIdIsOf(s: Conn, ms: seq<Message>, r: nat)
    requires r < |s.reqs|
    requires forall i :: 0 <= i < |ms| ==> MessageOk(s, ms[i])
    requires forall q :: 0 <= q < |s.reqs| && q != r ==> s.reqs[q].id != s.reqs[r].id
    requires forall i :: 0 <= i < |ms| && ms[i].origin.None? ==> ms[i].response.id != Some(s.reqs[r].id)
    ensures WithId(ms, s.reqs[r].id) == Of(ms, r)
  {
    if ms != [] {
      assert MessageOk(s, ms[|ms| - 1]);
      WithIdIsOf(s, ms[..|ms| - 1], r);
    }
  }

  /** In particular, if no other request on the connection used the ID, the responses carrying it
      are exactly what the request sent. */
  lemma SingleUseView(es: seq<Event>, r: nat)
    requires r < |Run(es).reqs|
    requires forall q :: 0 <= q < |Run(es).reqs| && q != r ==> Run(es).reqs[q].id != Run(es).reqs[r].id
    requires NoRefusal(Run(es).output, Run(es).reqs[r].id)
    ensures var s := Run(es);
            WithId(s.output, s.reqs[r].id) + WithId(s.queue, s.reqs[r].id) == Expected(s.reqs[r])
  {
    var s := Run(es);
    ExecKeepsMessages(Init, es);
    WithIdIsOf(s, s.output, r);
    WithIdIsOf(s, s.queue, r);
    OfConcat(s.output, s.queue, r);
    assert Conserved(s, r);
  }
}
