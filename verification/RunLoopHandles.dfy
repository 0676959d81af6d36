/** Where the handle of a running request is, and exactly when `rpc:cancel` loses track of it. */
module RunLoopHandles {
  import opened Common
  import opened RunLoopSpec
  import opened RunLoopTable
  import Cancel

  predicate Holds(s: Conn, c: nat, h: nat) {
    c < |s.reqs| && s.reqs[c].held == Some(h)
  }

  /** The handle of `r` is in the table, in the hands of an `rpc:cancel`, or has been used. */
  ghost predicate HandleKnown(s: Conn, r: nat)
    requires r < |s.reqs|
  {
    InTable(s, r) || IsCancelled(s.reqs[r]) || exists c: nat :: Holds(s, c, r)
  }

  /** Another request with the ID of `r` is registered or unregistered. */
  predicate Disturbs(s: Conn, e: Event, r: nat)
    requires r < |s.reqs|
  {
    && Enabled(s, e) && (e.Start? || e.Unregister?)
    && e.r != r && s.reqs[e.r].id == s.reqs[r].id
  }

  // ---- One step ----

  lemma DisturbedIsLost(s: Conn, e: Event, r: nat)
    requires TableInv(s) && r < |s.reqs| && Disturbs(s, e, r) && InTable(s, r)
    ensures r < |Step(s, e).reqs| && !HandleKnown(Step(s, e), r)
  {
    var t := Step(s, e);
    assert EntryOk(s, s.reqs[r].id);
    forall c: nat ensures !Holds(t, c, r) {
      if c < |s.reqs| {
        assert HeldOk(s, c);
      }
    }
  }

  /** A held handle stays held until it is used, which cancels the request. */
  lemma HolderStays(s: Conn, e: Event, c: nat, r: nat)
    requires TableInv(s) && r < |s.reqs| && s.reqs[r].phase.Running? && Holds(s, c, r)
    ensures r < |Step(s, e).reqs| && (Holds(Step(s, e), c, r) || IsCancelled(Step(s, e).reqs[r]))
  {
    assert HeldOk(s, c);
    if Enabled(s, e) && e.FireHandle? && e.r == c {
      FireIsFired(s, c);
      assert CellOk(s.reqs[r]);
    }
  }

  lemma EntryStays(s: Conn, e: Event, r: nat)
    requires r < |s.reqs| && s.reqs[r].phase.Running? && InTable(s, r) && !Disturbs(s, e, r)
    ensures r < |Step(s, e).reqs|
    ensures InTable(Step(s, e), r) || (e.TakeHandle? && Holds(Step(s, e), e.r, r))
  {
  }

  lemma CancelledStays(s: Conn, e: Event, h: nat)
    requires h < |s.reqs| && IsCancellable(s.reqs[h].call) && IsCancelled(s.reqs[h])
    ensures h < |Step(s, e).reqs|
    ensures IsCancellable(Step(s, e).reqs[h].call) && IsCancelled(Step(s, e).reqs[h])
    ensures Step(s, e).reqs[h].updates == s.reqs[h].updates
  {
  }

  lemma KnownStays(s: Conn, e: Event, r: nat)
    requires TableInv(s) && r < |s.reqs| && IsCancellable(s.reqs[r].call) && s.reqs[r].phase.Running?
    requires HandleKnown(s, r) && !(Disturbs(s, e, r) && InTable(s, r))
    ensures r < |Step(s, e).reqs| && HandleKnown(Step(s, e), r)
  {
    if InTable(s, r) {
      EntryStays(s, e, r);
    } else if IsCancelled(s.reqs[r]) {
      CancelledStays(s, e, r);
    } else {
      var c: nat :| Holds(s, c, r);
      HolderStays(s, e, c, r);
    }
  }

  lemma NobodyTakes(s: Conn, e: Event, r: nat, c: nat)
    requires TableInv(s) && r < |s.reqs| && !InTable(s, r) && !Holds(s, c, r)
    ensures !Holds(Step(s, e), c, r)
  {
    if Enabled(s, e) && e.TakeHandle? && s.reqs[e.r].call.target in s.inflight {
      assert EntryOk(s, s.reqs[e.r].call.target);
    }
  }

  lemma NotInTableStays(s: Conn, e: Event, r: nat)
    requires r < |s.reqs| && s.reqs[r].phase.Running? && !InTable(s, r)
    ensures r < |Step(s, e).reqs| && !InTable(Step(s, e), r)
  {
  }

  lemma NotCancelledStays(s: Conn, e: Event, r: nat)
    requires r < |s.reqs| && !IsCancelled(s.reqs[r]) && forall c: nat :: !Holds(s, c, r)
    ensures r < |Step(s, e).reqs| && !IsCancelled(Step(s, e).reqs[r])
  {
    if Enabled(s, e) && e.FireHandle? {
      assert !Holds(s, e.r, r);
    }
  }

  lemma LostStays(s: Conn, e: Event, r: nat)
    requires TableInv(s) && r < |s.reqs| && s.reqs[r].phase.Running? && !HandleKnown(s, r)
    ensures r < |Step(s, e).reqs| && !HandleKnown(Step(s, e), r)
  {
    NotInTableStays(s, e, r);
    NotCancelledStays(s, e, r);
    forall c: nat ensures !Holds(Step(s, e), c, r) {
      NobodyTakes(s, e, r, c);
    }
  }

  /** A step puts a running cancellable request out of reach of `rpc:cancel` exactly when it
      registers or unregisters another request with its ID while its handle is in the table. */
  lemma HandleLostIff(s: Conn, e: Event, r: nat)
    requires TableInv(s) && r < |s.reqs| && IsCancellable(s.reqs[r].call)
    requires s.reqs[r].phase.Running? && HandleKnown(s, r)
    ensures r < |Step(s, e).reqs|
    ensures !HandleKnown(Step(s, e), r) <==> Disturbs(s, e, r) && InTable(s, r)
  {
    if Disturbs(s, e, r) && InTable(s, r) {
      DisturbedIsLost(s, e, r);
    } else {
      KnownStays(s, e, r);
    }
  }

  // ---- Whole runs ----

  /** Step `e` disturbs `r` while its handle is in the table. */
  predicate Loses(s: Conn, e: Event, r: nat) {
    r < |s.reqs| && InTable(s, r) && Disturbs(s, e, r)
  }

  /** Step `k` of the run does so. */
  predicate LostAt(es: seq<Event>, k: nat, r: nat) {
    k < |es| && Loses(Run(es[..k]), es[k], r)
  }

  lemma LostAtFront(es: seq<Event>, k: nat, r: nat)
    requires es != []
    ensures LostAt(es, k, r) <==>
            if k == |es| - 1 then Loses(Run(es[..k]), es[k], r) else LostAt(es[..|es| - 1], k, r)
  {
    if k < |es| - 1 {
      assert es[..|es| - 1][..k] == es[..k];
    }
  }

  lemma StillLaunched(s: Conn, e: Event, r: nat)
    requires r < |Step(s, e).reqs| ==> Step(s, e).reqs[r].phase.Launched?
    ensures r < |s.reqs| ==> s.reqs[r].phase.Launched?
  {
  }

  lemma LaunchedNotInTable(s: Conn, r: nat)
    requires TableInv(s) && r < |s.reqs| && s.reqs[r].phase.Launched?
    ensures !InTable(s, r)
  {
    assert s.reqs[r].id in s.inflight ==> EntryOk(s, s.reqs[r].id);
  }

  /** A request that has not been started has not been lost. */
  lemma {:induction false} NotLostYet(es: seq<Event>, k: nat, r: nat)
    requires r < |Run(es).reqs| ==> Run(es).reqs[r].phase.Launched?
    ensures !LostAt(es, k, r)
  {
    if es != [] {
      var s := Run(es[..|es| - 1]);
      StillLaunched(s, es[|es| - 1], r);
      LostAtFront(es, k, r);
      if k < |es| - 1 {
        NotLostYet(es[..|es| - 1], k, r);
      } else if r < |s.reqs| {
        ExecKeepsTable(Init, es[..|es| - 1]);
        LaunchedNotInTable(s, r);
      }
    }
  }

  lemma JustStarted(s: Conn, e: Event, r: nat)
    requires r < |Step(s, e).reqs| && IsCancellable(Step(s, e).reqs[r].call) && Step(s, e).reqs[r].phase.Running?
    ensures r < |s.reqs| && IsCancellable(s.reqs[r].call)
    ensures s.reqs[r].phase.Running? || (s.reqs[r].phase.Launched? && InTable(Step(s, e), r))
  {
  }

  ghost predicate NeverLost(es: seq<Event>, r: nat) {
    forall k: nat :: !LostAt(es, k, r)
  }

  lemma NeverLostSnoc(es: seq<Event>, r: nat)
    requires es != []
    ensures NeverLost(es, r) <==>
            NeverLost(es[..|es| - 1], r) && !Loses(Run(es[..|es| - 1]), es[|es| - 1], r)
  {
    var front := es[..|es| - 1];
    forall k: nat
      ensures LostAt(es, k, r) <==> if k == |front| then Loses(Run(front), es[k], r) else LostAt(front, k, r)
    {
      LostAtFront(es, k, r);
    }
    if NeverLost(es, r) {
      assert !LostAt(es, |front|, r);
      forall k: nat ensures !LostAt(front, k, r) {
        assert !LostAt(es, k, r);
      }
    }
  }

  lemma StartedNow(es: seq<Event>, r: nat)
    requires es != [] && r < |Run(es[..|es| - 1]).reqs| && Run(es[..|es| - 1]).reqs[r].phase.Launched?
    ensures NeverLost(es, r)
  {
    var front := es[..|es| - 1];
    forall k: nat ensures !LostAt(front, k, r) {
      NotLostYet(front, k, r);
    }
    ExecKeepsTable(Init, front);
    LaunchedNotInTable(Run(front), r);
    NeverLostSnoc(es, r);
  }

  /** In every run a running cancellable request is within reach of `rpc:cancel` exactly if no
      step so far registered or unregistered another request with its ID while its handle was
      in the table. */
  lemma {:induction false} HandleKnownIff(es: seq<Event>, r: nat)
    requires r < |Run(es).reqs| && IsCancellable(Run(es).reqs[r].call) && Run(es).reqs[r].phase.Running?
    ensures HandleKnown(Run(es), r) <==> NeverLost(es, r)
  {
    if es != [] {
      var front, e := es[..|es| - 1], es[|es| - 1];
      JustStarted(Run(front), e, r);
      if Run(front).reqs[r].phase.Running? {
        HandleKnownIff(front, r);
        NeverLostSnoc(es, r);
        ExecKeepsTable(Init, front);
        if HandleKnown(Run(front), r) {
          HandleLostIff(Run(front), e, r);
        } else {
          LostStays(Run(front), e, r);
        }
      } else {
        StartedNow(es, r);
      }
    }
  }

  /** What is out of reach stays out of reach for as long as the request runs. */
  lemma LostStaysLost(es: seq<Event>, fs: seq<Event>, r: nat)
    requires r < |Run(es).reqs| && IsCancellable(Run(es).reqs[r].call) && Run(es).reqs[r].phase.Running?
    requires !HandleKnown(Run(es), r)
    requires r < |Run(es + fs).reqs| && IsCancellable(Run(es + fs).reqs[r].call)
    requires Run(es + fs).reqs[r].phase.Running?
    ensures !HandleKnown(Run(es + fs), r)
  {
    HandleKnownIff(es, r);
    HandleKnownIff(es + fs, r);
    var k: nat :| LostAt(es, k, r);
    assert (es + fs)[..k] == es[..k];
    assert LostAt(es + fs, k, r);
  }

  // ---- Distinct live IDs ----

  /** No two requests that are registered at the same time share an ID. */
  predicate LiveDistinct(s: Conn) {
    forall q, r :: 0 <= q < |s.reqs| && 0 <= r < |s.reqs| && Registered(s.reqs[q]) && Registered(s.reqs[r]) ==>
      q == r || s.reqs[q].id != s.reqs[r].id
  }

  predicate AlwaysLiveDistinct(es: seq<Event>) {
    forall k :: 0 <= k <= |es| ==> LiveDistinct(Run(es[..k]))
  }

  lemma AlwaysBefore(es: seq<Event>)
    requires es != [] && AlwaysLiveDistinct(es)
    ensures AlwaysLiveDistinct(es[..|es| - 1])
    ensures LiveDistinct(Run(es[..|es| - 1])) && LiveDistinct(Run(es))
  {
    var front := es[..|es| - 1];
    forall k | 0 <= k <= |front| ensures LiveDistinct(Run(front[..k])) {
      assert front[..k] == es[..k];
    }
    assert es[..|es|] == es;
  }

  lemma LiveNotDisturbed(s: Conn, e: Event, r: nat)
    requires LiveDistinct(s) && LiveDistinct(Step(s, e)) && r < |s.reqs| && Registered(s.reqs[r])
    ensures !Disturbs(s, e, r)
  {
    var t := Step(s, e);
    if Enabled(s, e) && e.Start? && e.r != r {
      assert Registered(t.reqs[e.r]) && Registered(t.reqs[r]);
    } else if Enabled(s, e) && e.Unregister? {
      assert Registered(s.reqs[e.r]);
    }
  }

  lemma LiveNotLost(es: seq<Event>, k: nat, r: nat)
    requires AlwaysLiveDistinct(es)
    ensures !LostAt(es, k, r)
  {
    if LostAt(es, k, r) {
      var s := Run(es[..k]);
      ExecKeepsTable(Init, es[..k]);
      assert EntryOk(s, s.reqs[r].id);
      assert es[..k + 1][..k] == es[..k];
      assert LiveDistinct(Run(es[..k + 1]));
      LiveNotDisturbed(s, es[k], r);
    }
  }

  /** A registered uncancellable request has a bare entry. */
  predicate BareKept(s: Conn, r: nat)
    requires r < |s.reqs|
  {
    !IsCancellable(s.reqs[r].call) && Registered(s.reqs[r]) ==>
      s.reqs[r].id in s.inflight && s.inflight[s.reqs[r].id].None?
  }

  lemma BareStays(s: Conn, e: Event, r: nat)
    requires r < |s.reqs| && BareKept(s, r) && (Registered(s.reqs[r]) ==> !Disturbs(s, e, r))
    ensures r < |Step(s, e).reqs| && BareKept(Step(s, e), r)
  {
  }

  lemma BareNew(s: Conn, e: Event, r: nat)
    requires |s.reqs| <= r < |Step(s, e).reqs|
    ensures BareKept(Step(s, e), r)
  {
  }

  lemma {:induction false} LiveBareKept(es: seq<Event>, r: nat)
    requires AlwaysLiveDistinct(es) && r < |Run(es).reqs|
    ensures BareKept(Run(es), r)
  {
    if es != [] {
      var front, e := es[..|es| - 1], es[|es| - 1];
      AlwaysBefore(es);
      if r < |Run(front).reqs| {
        LiveBareKept(front, r);
        if Registered(Run(front).reqs[r]) {
          LiveNotDisturbed(Run(front), e, r);
        }
        BareStays(Run(front), e, r);
      } else {
        BareNew(Run(front), e, r);
      }
    }
  }

  /** If requests that are live at the same time have distinct IDs, the table is complete: a
      running cancellable request is in it under its own handle, unless some `rpc:cancel` has
      that handle or has used it, and an uncancellable one has a bare entry. */
  lemma LiveIdsAreTracked(es: seq<Event>, r: nat)
    requires AlwaysLiveDistinct(es) && r < |Run(es).reqs|
    ensures IsCancellable(Run(es).reqs[r].call) && Run(es).reqs[r].phase.Running? ==> HandleKnown(Run(es), r)
    ensures BareKept(Run(es), r)
  {
    LiveBareKept(es, r);
    if IsCancellable(Run(es).reqs[r].call) && Run(es).reqs[r].phase.Running? {
      forall k: nat ensures !LostAt(es, k, r) {
        LiveNotLost(es, k, r);
      }
      assert NeverLost(es, r);
      HandleKnownIff(es, r);
    }
  }

  /** A handle is in one place only: in the table it is unused and nobody holds it. */
  lemma HandleInOnePlace(es: seq<Event>, r: nat)
    requires r < |Run(es).reqs| && InTable(Run(es), r)
    ensures !IsCancelled(Run(es).reqs[r]) && forall c: nat :: !Holds(Run(es), c, r)
  {
    var s := Run(es);
    ExecKeepsTable(Init, es);
    assert EntryOk(s, s.reqs[r].id);
    forall c: nat ensures !Holds(s, c, r) {
      if c < |s.reqs| {
        assert HeldOk(s, c);
      }
    }
  }

  // ---- Without distinct IDs ----

  /** Request 0 is running and cancellable, yet the table is empty. */
  predicate LostEntry(s: Conn, id: RequestId) {
    && |s.reqs| == 2 && s.reqs[0].id == id && s.reqs[0].phase.Running?
    && IsCancellable(s.reqs[0].call) && !IsCancelled(s.reqs[0])
    && s.inflight == map[] && s.ended.None?
  }

  lemma BothStarted(id: RequestId, q: Req)
    requires q == Req(id, false, Ordinary(true), Running, Cancel.Fresh, [], None, None)
    ensures var a := Receive(id, false, Ordinary(true));
            Step(Step(Step(Step(Init, a), a), Start(0)), Start(1)) == Conn([q, q], map[id := Some(1)], [], [], None)
  {
    var a := Receive(id, false, Ordinary(true));
    var l := q.(phase := Launched);
    var s1 := Step(Init, a);
    assert s1 == Conn([l], map[], [], [], None);
    var s2 := Step(s1, a);
    assert s2 == Conn([l, l], map[], [], [], None);
    var s3 := Step(s2, Start(0));
    assert s3 == Conn([q, l], map[id := Some(0)], [], [], None);
  }

  lemma LosesEntry(s: Conn, id: RequestId, q: Req)
    requires q == Req(id, false, Ordinary(true), Running, Cancel.Fresh, [], None, None)
    requires s == Conn([q, q], map[id := Some(1)], [], [], None)
    ensures var t := Step(Step(Step(s, Poll(1, [], Some(Ok("")), 0)), SendFinal(1)), Unregister(1));
            |t.reqs| == 2 && t.reqs[0] == q && t.inflight == map[] && t.ended.None?
  {
    var s1 := Step(s, Poll(1, [], Some(Ok("")), 0));
    assert s1.reqs[1].phase == Sending(Returned(Ok(""))) && s1.reqs[0] == q && s1.inflight == s.inflight;
    var s2 := Step(s1, SendFinal(1));
    assert s2.reqs[1].phase == Queued(Returned(Ok(""))) && s2.reqs[0] == q && s2.inflight == s.inflight;
    var s3 := Step(s2, Unregister(1));
    assert s3.inflight == map[];
  }

  function CollisionState(id: RequestId): Conn {
    var q := Req(id, false, Ordinary(true), Running, Cancel.Fresh, [], None, None);
    Conn([q, q], map[id := Some(1)], [], [], None)
  }

  lemma CollisionBegins(id: RequestId)
    ensures var a := Receive(id, false, Ordinary(true));
            Exec(Init, [a, a, Start(0), Start(1)]) == CollisionState(id)
  {
    var a := Receive(id, false, Ordinary(true));
    var q := Req(id, false, Ordinary(true), Running, Cancel.Fresh, [], None, None);
    BothStarted(id, q);
    FourSteps(Init, a, a, Start(0), Start(1));
  }

  lemma CollisionEnds(s: Conn, id: RequestId)
    requires s == CollisionState(id)
    ensures LostEntry(Exec(s, [Poll(1, [], Some(Ok("")), 0), SendFinal(1), Unregister(1)]), id)
  {
    LosesEntry(s, id, s.reqs[0]);
    ThreeSteps(s, Poll(1, [], Some(Ok("")), 0), SendFinal(1), Unregister(1));
  }

  /** Without distinct IDs completeness fails: finishing request 1, which reused the ID of
      request 0, takes request 0 out of the table. */
  lemma CollisionLosesEntry(id: RequestId)
    ensures exists es :: LostEntry(Run(es), id)
  {
    var a := Receive(id, false, Ordinary(true));
    var begin := [a, a, Start(0), Start(1)];
    var finish := [Poll(1, [], Some(Ok("")), 0), SendFinal(1), Unregister(1)];
    var s := Exec(Init, begin);
    CollisionBegins(id);
    CollisionEnds(s, id);
    ExecConcat(Init, begin, finish);
    assert LostEntry(Run(begin + finish), id);
  }
}
