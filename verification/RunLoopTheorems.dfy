/** What holds of every run of a connection's main loop. */
module RunLoopTheorems {
  import opened Common
  import opened RunLoopSpec
  import opened RunLoopTable
  import opened RunLoopHandles
  import opened RunLoopMessages
  import Cancel

  lemma RunInvariant(es: seq<Event>)
    ensures TableInv(Run(es)) && MessageInv(Run(es))
  {
    ExecKeepsTable(Init, es);
    ExecKeepsMessages(Init, es);
  }

  // ---- The inflight table ----

  /** Every key of the table is the ID of a registered, unfinished request, and an entry
      with a handle holds that request's own, unused handle. */
  lemma InflightKeysAreLive(es: seq<Event>, id: RequestId)
    requires id in Run(es).inflight
    ensures exists r: nat :: OwnsBareEntry(Run(es), r, id) || OwnsHandleEntry(Run(es), r, id)
    ensures Run(es).inflight[id].Some? ==> OwnsHandleEntry(Run(es), Run(es).inflight[id].value, id)
  {
    RunInvariant(es);
    var s := Run(es);
    assert EntryOk(s, id);
    if s.inflight[id].Some? {
      assert OwnsHandleEntry(s, s.inflight[id].value, id);
    }
  }

  lemma InflightEmptyWhenIdle(es: seq<Event>)
    requires forall r :: 0 <= r < |Run(es).reqs| ==> !Registered(Run(es).reqs[r])
    ensures Run(es).inflight == map[]
  {
    if id :| id in Run(es).inflight {
      InflightKeysAreLive(es, id);
    }
  }

  // ---- Cancellation ----

  /** The error the code calls impossible is impossible, whatever IDs the clients use. */
  lemma AlreadyCancelledIsUnreachable(es: seq<Event>, r: nat)
    requires r < |Run(es).reqs|
    ensures OutcomeOf(Run(es).reqs[r]) != Some(Returned(Err(CancelFailed(AlreadyCancelled))))
  {
    RunInvariant(es);
    assert OutcomeOk(Run(es).reqs[r]);
  }

  /** An `rpc:cancel` that succeeded cancelled exactly one request, one with the ID it was
      given; that request has no outcome yet or is answered with "request cancelled". */
  lemma CancelIsDecisive(es: seq<Event>, c: nat)
    requires c < |Run(es).reqs| && Run(es).reqs[c].call.RpcCancel?
    requires OutcomeOf(Run(es).reqs[c]).Some? && OutcomeOf(Run(es).reqs[c]).value.Returned?
    requires OutcomeOf(Run(es).reqs[c]).value.r.Ok?
    ensures exists h: nat ::
              var s := Run(es);
              && Cancels(s, c, h) && h < |s.reqs| && s.reqs[h].id == s.reqs[c].call.target
              && IsCancelled(s.reqs[h])
              && (OutcomeOf(s.reqs[h]).None? || OutcomeOf(s.reqs[h]) == Some(CutShort))
              && forall d: nat :: d != c ==> !Cancels(s, d, h)
  {
    RunInvariant(es);
    var s := Run(es);
    assert OutcomeOk(s.reqs[c]) && VictimOk(s, c);
    var h := s.reqs[c].victim.value;
    assert CellOk(s.reqs[h]);
    assert Cancels(s, c, h);
  }

  /** Conversely a request is answered with "request cancelled" only because exactly one
      `rpc:cancel` naming its ID succeeded. */
  lemma CutShortMeansCancelled(es: seq<Event>, h: nat)
    requires h < |Run(es).reqs|
    requires OutcomeOf(Run(es).reqs[h]) == Some(CutShort)
    ensures exists c: nat ::
              var s := Run(es);
              && Cancels(s, c, h) && OutcomeOf(s.reqs[c]) == Some(Returned(Ok(Nil)))
              && s.reqs[c].call == RpcCancel(s.reqs[h].id)
              && forall d: nat :: d != c ==> !Cancels(s, d, h)
  {
    RunInvariant(es);
    var s := Run(es);
    assert CellOk(s.reqs[h]) && KilledBySomeone(s, h);
    var c: nat :| Cancels(s, c, h);
    assert VictimOk(s, c);
  }

  /** An `rpc:cancel` that fails has cancelled nothing: whatever is cancelled was cancelled
      by another call. */
  lemma FailedCancelHadNoEffect(es: seq<Event>, c: nat, h: nat)
    requires c < |Run(es).reqs| && h < |Run(es).reqs|
    requires OutcomeOf(Run(es).reqs[c]).Some? && OutcomeOf(Run(es).reqs[c]).value.Returned?
    requires OutcomeOf(Run(es).reqs[c]).value.r.Err?
    ensures IsCancelled(Run(es).reqs[h]) ==> exists d: nat :: d != c && Cancels(Run(es), d, h)
  {
    RunInvariant(es);
    var s := Run(es);
    assert VictimOk(s, c) && KilledBySomeone(s, h);
  }

  /** A cancelled request has no outcome yet or was cut short. */
  lemma CancelledOutcome(es: seq<Event>, h: nat)
    requires h < |Run(es).reqs| && IsCancelled(Run(es).reqs[h])
    ensures IsCancellable(Run(es).reqs[h].call)
    ensures OutcomeOf(Run(es).reqs[h]).None? || OutcomeOf(Run(es).reqs[h]) == Some(CutShort)
  {
    ExecKeepsTable(Init, es);
    assert CellOk(Run(es).reqs[h]);
  }

  lemma {:induction false} CancelledForever(s: Conn, fs: seq<Event>, h: nat)
    requires h < |s.reqs| && IsCancellable(s.reqs[h].call) && IsCancelled(s.reqs[h])
    ensures h < |Exec(s, fs).reqs| && IsCancellable(Exec(s, fs).reqs[h].call) && IsCancelled(Exec(s, fs).reqs[h])
    ensures Exec(s, fs).reqs[h].updates == s.reqs[h].updates
  {
    if fs != [] {
      CancelledForever(s, fs[..|fs| - 1], h);
      CancelledStays(Exec(s, fs[..|fs| - 1]), fs[|fs| - 1], h);
    }
  }

  /** A cancelled request makes no progress in any continuation of the run: it emits no
      further update and can only be answered with "request cancelled". */
  lemma FrozenAfterCancel(es: seq<Event>, fs: seq<Event>, h: nat)
    requires h < |Run(es).reqs|
    requires IsCancelled(Run(es).reqs[h])
    ensures h < |Run(es + fs).reqs| && IsCancelled(Run(es + fs).reqs[h])
    ensures Run(es + fs).reqs[h].updates == Run(es).reqs[h].updates
    ensures OutcomeOf(Run(es + fs).reqs[h]).None? || OutcomeOf(Run(es + fs).reqs[h]) == Some(CutShort)
  {
    CancelledOutcome(es, h);
    CancelledForever(Run(es), fs, h);
    ExecConcat(Init, es, fs);
    CancelledOutcome(es + fs, h);
  }

  // ---- Responses ----

  /** What has been written for a request is a prefix of what it sent: its updates (none
      unless asked for) in order, then one final response, all with its own ID. Nothing is
      lost: the rest is still in the channel. */
  lemma ResponsesExact(es: seq<Event>, r: nat)
    requires r < |Run(es).reqs|
    ensures Of(Run(es).output, r) + Of(Run(es).queue, r) == Expected(Run(es).reqs[r])
  {
    RunInvariant(es);
    var s := Run(es);
    assert Conserved(s, r);
    OfConcat(s.output, s.queue, r);
  }

  /** Once the channel is drained, a request whose future has completed has exactly its
      updates and one final response in the output. */
  lemma DeliveredInFull(es: seq<Event>, r: nat)
    requires r < |Run(es).reqs| && Run(es).queue == []
    requires Run(es).reqs[r].phase.Queued? || Run(es).reqs[r].phase.Done?
    ensures var q := Run(es).reqs[r];
            Of(Run(es).output, r) == UpdatesOf(q.id, q.wantsUpdates, q.updates) + [FinalOf(q.id, q.phase.o)]
  {
    ResponsesExact(es, r);
  }

  lemma DeliverOne(s: Conn)
    requires s.ended.None? && s.queue != []
    ensures var t := Step(s, Deliver(true));
            All(t) == All(s) && t.reqs == s.reqs && t.ended.None? && |t.queue| < |s.queue|
  {
    assert s.output + [s.queue[0]] + s.queue[1..] == s.output + s.queue;
  }

  /** All that was pending has been written, and nothing else has changed. */
  predicate Drained(s: Conn, t: Conn) {
    t.queue == [] && t.output == All(s) && t.reqs == s.reqs && t.ended.None?
  }

  /** The loop can always drain the channel while the connection can be written to. */
  lemma {:induction false} Drain(es: seq<Event>)
    requires Run(es).ended.None?
    ensures exists fs :: Drained(Run(es), Run(es + fs))
    decreases |Run(es).queue|
  {
    var s := Run(es);
    if s.queue == [] {
      assert es + [] == es;
      assert Drained(s, Run(es + []));
    } else {
      var next := es + [Deliver(true)];
      assert next[..|next| - 1] == es;
      DeliverOne(s);
      Drain(next);
      var fs :| Drained(Run(next), Run(next + fs));
      assert next + fs == es + ([Deliver(true)] + fs);
    }
  }

  lemma {:induction false} EndedIsFinal(es: seq<Event>, fs: seq<Event>)
    requires Run(es).ended.Some?
    ensures Run(es + fs) == Run(es)
  {
    if fs == [] {
      assert es + fs == es;
    } else {
      var front := fs[..|fs| - 1];
      assert (es + fs)[..|es + fs| - 1] == es + front;
      EndedIsFinal(es, front);
    }
  }

  /** A response without an ID is written only for an unidentifiable request, closes the
      connection, and stays the last thing written in every continuation. */
  lemma AnonymousResponseIsLast(es: seq<Event>, i: nat, fs: seq<Event>)
    requires i < |Run(es).output|
    requires Run(es).output[i].response.id.None?
    ensures i == |Run(es).output| - 1 && Run(es).output[i].response.body == Failure(BadRequest)
    ensures Run(es).ended == Some(ParseFailed)
    ensures Run(es + fs).output == Run(es).output
  {
    RunInvariant(es);
    assert MessageOk(Run(es), Run(es).output[i]);
    EndedIsFinal(es, fs);
  }

  lemma CancelCourse(s: Conn, c: nat, h: nat, e: Event)
    requires TableInv(s) && s.ended.None? && c < |s.reqs| && h < |s.reqs|
    requires s.reqs[c].phase.Running? && s.reqs[c].held.None? && s.reqs[c].call == RpcCancel(s.reqs[h].id)
    requires s.reqs[h].phase.Running? && InTable(s, h)
    requires e.Poll? && e.r == h
    ensures var t := Step(Step(Step(s, TakeHandle(c)), FireHandle(c)), e);
            && |t.reqs| == |s.reqs| && t.ended.None? && t.queue == s.queue
            && OutcomeOf(t.reqs[c]) == Some(Returned(Ok(Nil)))
            && t.reqs[h] == s.reqs[h].(cell := Cancel.Cell(Cancel.Cancelled, None), phase := Sending(CutShort))
  {
    assert EntryOk(s, s.reqs[h].id) && CellOk(s.reqs[h]);
    var s1 := Step(s, TakeHandle(c));
    assert s1.reqs == s.reqs[c := s.reqs[c].(held := Some(h))];
    var s2 := Step(s1, FireHandle(c));
    assert s2.reqs[h] == s.reqs[h].(cell := Cancel.Cell(Cancel.Cancelled, None));
    assert OutcomeOf(s2.reqs[c]) == Some(Returned(Ok(Nil)));
  }

  lemma CancelSends(s: Conn, c: nat, h: nat, e: Event)
    requires TableInv(s) && s.ended.None? && c < |s.reqs| && h < |s.reqs|
    requires s.reqs[c].phase.Running? && s.reqs[c].held.None? && s.reqs[c].call == RpcCancel(s.reqs[h].id)
    requires s.reqs[h].phase.Running? && InTable(s, h)
    requires e.Poll? && e.r == h
    ensures var t := Step(Step(Step(Step(s, TakeHandle(c)), FireHandle(c)), e), SendFinal(h));
            && |t.reqs| == |s.reqs|
            && OutcomeOf(t.reqs[c]) == Some(Returned(Ok(Nil)))
            && t.reqs[h].updates == s.reqs[h].updates
            && t.queue == s.queue + From(h, [Response(Some(s.reqs[h].id), Failure(RequestCancelled))])
  {
    CancelCourse(s, c, h, e);
    assert EntryOk(s, s.reqs[h].id);
  }

  /** The whole course of a cancellation: while the connection is open, an `rpc:cancel`
      that names a request whose unused handle is in the table succeeds, and the request's
      next poll ends it with "request cancelled", without running its method again. */
  lemma CancelTakesEffect(es: seq<Event>, c: nat, h: nat, emitted: seq<Payload>,
                          answer: Option<Result<Payload, Payload>>, w: Cancel.Waker)
    requires Run(es).ended.None? && c < |Run(es).reqs| && h < |Run(es).reqs|
    requires Run(es).reqs[c].phase.Running? && Run(es).reqs[c].held.None?
    requires Run(es).reqs[c].call == RpcCancel(Run(es).reqs[h].id)
    requires Run(es).reqs[h].phase.Running? && InTable(Run(es), h)
    ensures var s := Run(es);
            var t := Run(es + [TakeHandle(c), FireHandle(c), Poll(h, emitted, answer, w), SendFinal(h)]);
            && |t.reqs| == |s.reqs|
            && OutcomeOf(t.reqs[c]) == Some(Returned(Ok(Nil)))
            && t.reqs[h].updates == s.reqs[h].updates
            && t.queue == s.queue + From(h, [Response(Some(s.reqs[h].id), Failure(RequestCancelled))])
  {
    var e := Poll(h, emitted, answer, w);
    ExecKeepsTable(Init, es);
    CancelSends(Run(es), c, h, e);
    FourSteps(Run(es), TakeHandle(c), FireHandle(c), e, SendFinal(h));
    ExecConcat(Init, es, [TakeHandle(c), FireHandle(c), e, SendFinal(h)]);
  }
}
