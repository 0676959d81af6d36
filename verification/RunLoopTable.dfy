/** What every step of the loop keeps about the `inflight` table, the cancel handles
    and the outcome of each request. */
module RunLoopTable {
  import opened Common
  import opened RunLoopSpec
  import Cancel

  /** The request has been registered and has not been unregistered yet. */
  predicate Registered(q: Req) {
    q.phase.Running? || q.phase.Sending? || q.phase.Queued?
  }

  function OutcomeOf(q: Req): (o: Option<Outcome>) {
    match q.phase
    case Launched => None
    case Running => None
    case Sending(o) => Some(o)
    case Queued(o) => Some(o)
    case Done(o) => Some(o)
  }

  predicate IsCancelled(q: Req) {
    q.cell.status.Cancelled?
  }

  /** `r` is a registered request with this ID that was put in the table without a handle. */
  predicate OwnsBareEntry(s: Conn, r: nat, id: RequestId) {
    r < |s.reqs| && s.reqs[r].id == id && Registered(s.reqs[r]) && !IsCancellable(s.reqs[r].call)
  }

  /** `h` is a registered, cancellable request with this ID whose handle is still unused. */
  predicate OwnsHandleEntry(s: Conn, h: nat, id: RequestId) {
    && h < |s.reqs| && s.reqs[h].id == id && Registered(s.reqs[h])
    && IsCancellable(s.reqs[h].call) && !IsCancelled(s.reqs[h])
  }

  ghost predicate EntryOk(s: Conn, id: RequestId)
    requires id in s.inflight
  {
    match s.inflight[id]
    case Some(h) => OwnsHandleEntry(s, h, id)
    case None => exists r: nat :: OwnsBareEntry(s, r, id)
  }

  predicate InTable(s: Conn, h: nat)
    requires h < |s.reqs|
  {
    s.reqs[h].id in s.inflight && s.inflight[s.reqs[h].id] == Some(h)
  }

  /** A handle outside the table is in at most one hand, and is still unused. */
  ghost predicate HeldOk(s: Conn, c: nat)
    requires c < |s.reqs|
  {
    s.reqs[c].held.Some? ==>
      var h := s.reqs[c].held.value;
      && s.reqs[c].call.RpcCancel? && s.reqs[c].phase.Running?
      && h < |s.reqs| && IsCancellable(s.reqs[h].call) && !s.reqs[h].phase.Launched?
      && s.reqs[h].id == s.reqs[c].call.target
      && !IsCancelled(s.reqs[h]) && !InTable(s, h)
      && forall d :: 0 <= d < |s.reqs| && d != c ==> s.reqs[d].held != Some(h)
  }

  /** A successful `rpc:cancel` names a cancelled request, and no two name the same one. */
  ghost predicate VictimOk(s: Conn, c: nat)
    requires c < |s.reqs|
  {
    s.reqs[c].victim.Some? ==>
      var h := s.reqs[c].victim.value;
      && s.reqs[c].call.RpcCancel? && OutcomeOf(s.reqs[c]) == Some(Returned(Ok(Nil)))
      && h < |s.reqs| && IsCancellable(s.reqs[h].call) && IsCancelled(s.reqs[h])
      && s.reqs[h].id == s.reqs[c].call.target
      && forall d :: 0 <= d < |s.reqs| && d != c ==> s.reqs[d].victim != Some(h)
  }

  predicate Cancels(s: Conn, c: nat, h: nat) {
    c < |s.reqs| && s.reqs[c].victim == Some(h)
  }

  ghost predicate KilledBySomeone(s: Conn, h: nat)
    requires h < |s.reqs|
  {
    IsCancelled(s.reqs[h]) ==> exists c: nat :: Cancels(s, c, h)
  }

  /** The cancel cell agrees with how far the request has come. */
  predicate CellOk(q: Req) {
    if IsCancellable(q.call) then
      match q.phase
      case Launched => q.cell == Cancel.Fresh
      case Running => !q.cell.status.Finished?
      case _ => if OutcomeOf(q) == Some(CutShort) then IsCancelled(q) else q.cell.status.Finished?
    else
      q.cell == Cancel.Fresh && OutcomeOf(q) != Some(CutShort)
  }

  /** An `rpc:cancel` call that succeeded cancelled something; the "impossible" error
      and a fabricated cancel error are never an outcome. */
  predicate OutcomeOk(q: Req) {
    && (OutcomeOf(q).Some? && OutcomeOf(q).value.Returned? ==>
          var r := OutcomeOf(q).value.r;
          && (q.call.RpcCancel? && r.Ok? ==> q.victim.Some?)
          && r != Err(CancelFailed(AlreadyCancelled))
          && r != Err(RequestCancelled) && r != Err(BadRequest)
          && (q.call.Ordinary? && r.Err? ==> r.error.MethodFailed?))
    && (q.phase.Launched? ==> q.updates == [] && q.held.None? && q.victim.None?)
  }

  ghost predicate TableInv(s: Conn) {
    && (forall id :: id in s.inflight ==> EntryOk(s, id))
    && (forall c :: 0 <= c < |s.reqs| ==> HeldOk(s, c))
    && (forall c :: 0 <= c < |s.reqs| ==> VictimOk(s, c))
    && (forall h :: 0 <= h < |s.reqs| ==> KilledBySomeone(s, h))
    && (forall r :: 0 <= r < |s.reqs| ==> CellOk(s.reqs[r]) && OutcomeOk(s.reqs[r]))
  }

  // ---- One lemma per kind of step ----

  lemma ReceiveKeeps(s: Conn, e: Event)
    requires TableInv(s) && Enabled(s, e) && e.Receive?
    ensures TableInv(Step(s, e))
  {
    var t := Step(s, e);
    forall id | id in t.inflight ensures EntryOk(t, id) {
      assert EntryOk(s, id);
      if s.inflight[id].None? {
        var r: nat :| OwnsBareEntry(s, r, id);
        assert OwnsBareEntry(t, r, id);
      }
    }
    forall c | 0 <= c < |t.reqs| ensures HeldOk(t, c) && VictimOk(t, c) && KilledBySomeone(t, c) {
      if c < |s.reqs| {
        assert HeldOk(s, c) && VictimOk(s, c) && KilledBySomeone(s, c);
        if IsCancelled(s.reqs[c]) {
          var k: nat :| Cancels(s, k, c);
          assert Cancels(t, k, c);
        }
      }
    }
  }

  /** `t` differs from `s` in the record of `r`, which keeps its identity and its cancel
      bookkeeping, and in the table. */
  predicate Updated(s: Conn, t: Conn, r: nat) {
    && r < |s.reqs| == |t.reqs| && t.reqs == s.reqs[r := t.reqs[r]]
    && t.reqs[r].id == s.reqs[r].id && t.reqs[r].call == s.reqs[r].call
    && IsCancelled(t.reqs[r]) == IsCancelled(s.reqs[r])
    && t.reqs[r].held == s.reqs[r].held && t.reqs[r].victim == s.reqs[r].victim
    && (t.reqs[r].held.Some? ==> t.reqs[r].phase.Running?)
    && (t.reqs[r].victim.Some? ==> OutcomeOf(t.reqs[r]) == OutcomeOf(s.reqs[r]))
    && (t.reqs[r].phase.Launched? ==> s.reqs[r].phase.Launched?)
  }

  lemma UpdateHeld(s: Conn, t: Conn, r: nat, c: nat)
    requires Updated(s, t, r) && c < |s.reqs| && HeldOk(s, c)
    requires forall h :: 0 <= h < |s.reqs| && InTable(s.(inflight := t.inflight), h) ==>
               InTable(s, h) || (h == r && s.reqs[r].phase.Launched?)
    ensures HeldOk(t, c)
  {
    if t.reqs[c].held.Some? {
      assert !InTable(s.(inflight := t.inflight), t.reqs[c].held.value);
    }
  }

  lemma UpdateVictims(s: Conn, t: Conn, r: nat, c: nat)
    requires Updated(s, t, r) && c < |s.reqs| && VictimOk(s, c) && KilledBySomeone(s, c)
    ensures VictimOk(t, c) && KilledBySomeone(t, c)
  {
    if IsCancelled(s.reqs[c]) {
      var k: nat :| Cancels(s, k, c);
      assert Cancels(t, k, c);
    }
  }

  /** Replacing one request record by another of the same identity and unchanged
      cancel bookkeeping keeps what is said about the others. */
  lemma UpdateKeeps(s: Conn, r: nat, q: Req, inflight: map<RequestId, Option<nat>>)
    requires TableInv(s) && r < |s.reqs|
    requires q.id == s.reqs[r].id && q.call == s.reqs[r].call && q.cell.status.Cancelled? == IsCancelled(s.reqs[r])
    requires q.held == s.reqs[r].held && q.victim == s.reqs[r].victim
    requires q.held.Some? ==> q.phase.Running?
    requires q.victim.Some? ==> OutcomeOf(q) == OutcomeOf(s.reqs[r])
    requires q.phase.Launched? ==> s.reqs[r].phase.Launched?
    requires CellOk(q) && OutcomeOk(q)
    requires forall id :: id in inflight ==> EntryOk(s.(reqs := s.reqs[r := q], inflight := inflight), id)
    requires forall h :: 0 <= h < |s.reqs| && InTable(s.(inflight := inflight), h) ==>
               InTable(s, h) || (h == r && s.reqs[r].phase.Launched?)
    ensures TableInv(s.(reqs := s.reqs[r := q], inflight := inflight))
  {
    var t := s.(reqs := s.reqs[r := q], inflight := inflight);
    forall c | 0 <= c < |t.reqs| ensures HeldOk(t, c) {
      assert HeldOk(s, c);
      UpdateHeld(s, t, r, c);
    }
    forall c | 0 <= c < |t.reqs| ensures VictimOk(t, c) && KilledBySomeone(t, c) {
      assert VictimOk(s, c) && KilledBySomeone(s, c);
      UpdateVictims(s, t, r, c);
    }
  }

  lemma StartKeeps(s: Conn, r: nat)
    requires TableInv(s) && Enabled(s, Start(r))
    ensures TableInv(Step(s, Start(r)))
  {
    var t := Step(s, Start(r));
    forall id | id in t.inflight ensures EntryOk(t, id) {
      if id == s.reqs[r].id {
        if !IsCancellable(s.reqs[r].call) {
          assert OwnsBareEntry(t, r, id);
        }
      } else {
        assert EntryOk(s, id);
        if s.inflight[id].None? {
          var k: nat :| OwnsBareEntry(s, k, id);
          assert OwnsBareEntry(t, k, id);
        }
      }
    }
    UpdateKeeps(s, r, t.reqs[r], t.inflight);
  }

  /** A step of one running request that leaves the table alone and keeps it registered. */
  lemma SameTableKeeps(s: Conn, r: nat, q: Req)
    requires TableInv(s) && r < |s.reqs|
    requires q.id == s.reqs[r].id && q.call == s.reqs[r].call && q.cell.status.Cancelled? == IsCancelled(s.reqs[r])
    requires q.held == s.reqs[r].held && q.victim == s.reqs[r].victim
    requires q.held.Some? ==> q.phase.Running?
    requires q.victim.Some? ==> OutcomeOf(q) == OutcomeOf(s.reqs[r])
    requires Registered(s.reqs[r]) && Registered(q)
    requires CellOk(q) && OutcomeOk(q)
    ensures TableInv(s.(reqs := s.reqs[r := q]))
  {
    var t := s.(reqs := s.reqs[r := q]);
    forall id | id in t.inflight ensures EntryOk(t, id) {
      assert EntryOk(s, id);
      if s.inflight[id].None? {
        var k: nat :| OwnsBareEntry(s, k, id);
        assert OwnsBareEntry(t, k, id);
      }
    }
    UpdateKeeps(s, r, q, s.inflight);
    assert t == s.(reqs := s.reqs[r := q], inflight := s.inflight);
  }

  /** The invariant does not look at messages or at the loop's end. */
  lemma SameTable(s: Conn, t: Conn)
    requires TableInv(s) && t.reqs == s.reqs && t.inflight == s.inflight
    ensures TableInv(t)
  {
    forall id | id in t.inflight ensures EntryOk(t, id) {
      assert EntryOk(s, id);
      if s.inflight[id].None? {
        var k: nat :| OwnsBareEntry(s, k, id);
        assert OwnsBareEntry(t, k, id);
      }
    }
    forall c | 0 <= c < |t.reqs| ensures HeldOk(t, c) && VictimOk(t, c) && KilledBySomeone(t, c) {
      assert HeldOk(s, c) && VictimOk(s, c) && KilledBySomeone(s, c);
      if IsCancelled(s.reqs[c]) {
        var k: nat :| Cancels(s, k, c);
        assert Cancels(t, k, c);
      }
    }
  }

  lemma PollKeeps(s: Conn, e: Event)
    requires TableInv(s) && Enabled(s, e) && e.Poll?
    ensures TableInv(Step(s, e))
  {
    var t := Step(s, e);
    assert HeldOk(s, e.r) && VictimOk(s, e.r) && CellOk(s.reqs[e.r]) && OutcomeOk(s.reqs[e.r]);
    SameTableKeeps(s, e.r, t.reqs[e.r]);
    var u := s.(reqs := s.reqs[e.r := t.reqs[e.r]]);
    assert t == u.(queue := t.queue);
    SameTable(u, t);
  }

  /** `r` has moved the handle of `h` from the table into its own hands. */
  predicate Took(s: Conn, t: Conn, r: nat, h: nat) {
    && r < |s.reqs| && h < |s.reqs| && InTable(s, h)
    && s.reqs[r].call == RpcCancel(s.reqs[h].id) && s.reqs[r].phase.Running? && s.reqs[r].held.None?
    && t.reqs == s.reqs[r := s.reqs[r].(held := Some(h))] && t.inflight == s.inflight - {s.reqs[h].id}
  }

  lemma TookEntries(s: Conn, t: Conn, r: nat, h: nat, id: RequestId)
    requires TableInv(s) && Took(s, t, r, h) && id in t.inflight
    ensures EntryOk(t, id)
  {
    assert EntryOk(s, id);
    if s.inflight[id].None? {
      var k: nat :| OwnsBareEntry(s, k, id);
      assert OwnsBareEntry(t, k, id);
    }
  }

  lemma TookHeld(s: Conn, t: Conn, r: nat, h: nat, c: nat)
    requires TableInv(s) && Took(s, t, r, h) && c < |t.reqs|
    ensures HeldOk(t, c)
  {
    assert HeldOk(s, c) && EntryOk(s, s.reqs[h].id);
    forall d | 0 <= d < |s.reqs| ensures s.reqs[d].held != Some(h) {
      assert HeldOk(s, d);
    }
    if s.reqs[c].held.Some? {
      assert !InTable(s, s.reqs[c].held.value);
    }
  }

  lemma TookVictims(s: Conn, t: Conn, r: nat, h: nat, c: nat)
    requires TableInv(s) && Took(s, t, r, h) && c < |t.reqs|
    ensures VictimOk(t, c) && KilledBySomeone(t, c)
  {
    assert VictimOk(s, c) && KilledBySomeone(s, c);
    if IsCancelled(s.reqs[c]) {
      var k: nat :| Cancels(s, k, c);
      assert Cancels(t, k, c);
    }
  }

  lemma TookKeeps(s: Conn, t: Conn, r: nat, h: nat)
    requires TableInv(s) && Took(s, t, r, h)
    ensures TableInv(t)
  {
    forall id | id in t.inflight ensures EntryOk(t, id) {
      TookEntries(s, t, r, h, id);
    }
    forall c | 0 <= c < |t.reqs| ensures HeldOk(t, c) {
      TookHeld(s, t, r, h, c);
    }
    forall c | 0 <= c < |t.reqs| ensures VictimOk(t, c) && KilledBySomeone(t, c) {
      TookVictims(s, t, r, h, c);
    }
    assert CellOk(s.reqs[r]) && OutcomeOk(s.reqs[r]);
  }

  lemma TakeHandleKeeps(s: Conn, r: nat)
    requires TableInv(s) && Enabled(s, TakeHandle(r))
    ensures TableInv(Step(s, TakeHandle(r)))
  {
    var t := Step(s, TakeHandle(r));
    var id := s.reqs[r].call.target;
    assert HeldOk(s, r) && VictimOk(s, r) && CellOk(s.reqs[r]) && OutcomeOk(s.reqs[r]);
    if id in s.inflight && s.inflight[id].Some? {
      assert EntryOk(s, id);
      TookKeeps(s, t, r, s.inflight[id].value);
    } else {
      SameTableKeeps(s, r, t.reqs[r]);
    }
  }

  /** `r` has used the handle of `h` it held, and cancelled `h` unless `h` had finished. */
  predicate Fired(s: Conn, t: Conn, r: nat, h: nat) {
    && r < |s.reqs| == |t.reqs| && h < |s.reqs| && h != r && t.inflight == s.inflight
    && s.reqs[r].held == Some(h) && s.reqs[r].victim.None?
    && t.reqs[r] == s.reqs[r].(phase := t.reqs[r].phase, held := None, victim := t.reqs[r].victim)
    && (if t.reqs[r].victim.Some? then
          && t.reqs[r].victim == Some(h) && t.reqs[r].phase == Sending(Returned(Ok(Nil)))
          && t.reqs[h] == s.reqs[h].(cell := t.reqs[h].cell) && IsCancelled(t.reqs[h])
        else t.reqs[r].phase.Sending? && t.reqs[h] == s.reqs[h])
    && forall k :: 0 <= k < |s.reqs| && k != r && k != h ==> t.reqs[k] == s.reqs[k]
  }

  lemma FiredEntries(s: Conn, t: Conn, r: nat, h: nat, id: RequestId)
    requires TableInv(s) && Fired(s, t, r, h) && id in s.inflight
    ensures EntryOk(t, id)
  {
    assert EntryOk(s, id) && HeldOk(s, r);
    if s.inflight[id].None? {
      var k: nat :| OwnsBareEntry(s, k, id);
      assert OwnsBareEntry(t, k, id);
    } else {
      assert InTable(s, s.inflight[id].value);
    }
  }

  lemma FiredHeld(s: Conn, t: Conn, r: nat, h: nat, c: nat)
    requires TableInv(s) && Fired(s, t, r, h) && c < |t.reqs|
    ensures HeldOk(t, c)
  {
    assert HeldOk(s, c) && HeldOk(s, r);
    if c != r && t.reqs[c].held.Some? {
      assert !InTable(s, t.reqs[c].held.value);
    }
  }

  lemma FiredVictims(s: Conn, t: Conn, r: nat, h: nat, c: nat)
    requires TableInv(s) && Fired(s, t, r, h) && c < |t.reqs|
    ensures VictimOk(t, c) && KilledBySomeone(t, c)
  {
    assert HeldOk(s, r) && VictimOk(s, c) && KilledBySomeone(s, c);
    forall d | 0 <= d < |s.reqs| ensures s.reqs[d].victim != Some(h) {
      assert VictimOk(s, d);
    }
    if IsCancelled(s.reqs[c]) {
      var k: nat :| Cancels(s, k, c);
      assert Cancels(t, k, c);
    } else if IsCancelled(t.reqs[c]) {
      assert Cancels(t, r, h);
    }
  }

  lemma FireIsFired(s: Conn, r: nat)
    requires TableInv(s) && Enabled(s, FireHandle(r))
    ensures Fired(s, Step(s, FireHandle(r)), r, s.reqs[r].held.value)
    ensures CellOk(Step(s, FireHandle(r)).reqs[r]) && OutcomeOk(Step(s, FireHandle(r)).reqs[r])
    ensures var q := Step(s, FireHandle(r)).reqs[s.reqs[r].held.value];
            CellOk(q) && OutcomeOk(q)
  {
    var h := s.reqs[r].held.value;
    assert HeldOk(s, r) && VictimOk(s, r) && CellOk(s.reqs[r]) && CellOk(s.reqs[h]) && OutcomeOk(s.reqs[h]);
  }

  lemma FireHandleKeeps(s: Conn, r: nat)
    requires TableInv(s) && Enabled(s, FireHandle(r))
    ensures TableInv(Step(s, FireHandle(r)))
  {
    var t, h := Step(s, FireHandle(r)), s.reqs[r].held.value;
    FireIsFired(s, r);
    forall id | id in t.inflight ensures EntryOk(t, id) {
      FiredEntries(s, t, r, h, id);
    }
    forall c | 0 <= c < |t.reqs| ensures HeldOk(t, c) {
      FiredHeld(s, t, r, h, c);
    }
    forall c | 0 <= c < |t.reqs| ensures VictimOk(t, c) && KilledBySomeone(t, c) {
      FiredVictims(s, t, r, h, c);
    }
  }

  lemma SendFinalKeeps(s: Conn, r: nat)
    requires TableInv(s) && Enabled(s, SendFinal(r))
    ensures TableInv(Step(s, SendFinal(r)))
  {
    var t := Step(s, SendFinal(r));
    assert HeldOk(s, r) && VictimOk(s, r) && CellOk(s.reqs[r]) && OutcomeOk(s.reqs[r]);
    SameTableKeeps(s, r, t.reqs[r]);
    SameTable(s.(reqs := t.reqs), t);
  }

  /** The entries left are those of other IDs, so of other requests. */
  lemma UnregisterEntry(s: Conn, r: nat, id: RequestId)
    requires TableInv(s) && Enabled(s, Unregister(r)) && id in Step(s, Unregister(r)).inflight
    ensures EntryOk(Step(s, Unregister(r)), id)
  {
    assert EntryOk(s, id);
    if s.inflight[id].None? {
      var k: nat :| OwnsBareEntry(s, k, id);
      assert OwnsBareEntry(Step(s, Unregister(r)), k, id);
    }
  }

  lemma UnregisterKeeps(s: Conn, r: nat)
    requires TableInv(s) && Enabled(s, Unregister(r))
    ensures TableInv(Step(s, Unregister(r)))
  {
    var t := Step(s, Unregister(r));
    assert HeldOk(s, r) && VictimOk(s, r) && CellOk(s.reqs[r]) && OutcomeOk(s.reqs[r]);
    forall id | id in t.inflight ensures EntryOk(t, id) {
      UnregisterEntry(s, r, id);
    }
    UpdateKeeps(s, r, t.reqs[r], t.inflight);
  }

  lemma StepKeepsTable(s: Conn, e: Event)
    requires TableInv(s)
    ensures TableInv(Step(s, e))
  {
    if Enabled(s, e) {
      match e
      case Receive(_, _, _) => ReceiveKeeps(s, e);
      case ReceiveInvalid(_, _) => SameTable(s, Step(s, e));
      case ReceiveEnd(_) => SameTable(s, Step(s, e));
      case Deliver(_) => SameTable(s, Step(s, e));
      case Start(r) => StartKeeps(s, r);
      case Poll(_, _, _, _) => PollKeeps(s, e);
      case TakeHandle(r) => TakeHandleKeeps(s, r);
      case FireHandle(r) => FireHandleKeeps(s, r);
      case SendFinal(r) => SendFinalKeeps(s, r);
      case Unregister(r) => UnregisterKeeps(s, r);
    }
  }

  lemma {:induction false} ExecKeepsTable(s: Conn, es: seq<Event>)
    requires TableInv(s)
    ensures TableInv(Exec(s, es))
  {
    if es != [] {
      ExecKeepsTable(s, es[..|es| - 1]);
      StepKeepsTable(Exec(s, es[..|es| - 1]), es[|es| - 1]);
    }
  }
}
