/** Cancellable futures: the cell shared by a `Cancel` future and its `CancelHandle`.

    The inner future is not modelled. What it would answer if it were polled now is
    an argument of `Poll`, so every theorem holds for all inner futures. */
module Cancel {
  import opened Common

  type Waker = nat

  datatype Status = Pending | Finished | Cancelled

  /** The lock-protected state. */
  datatype Cell = Cell(status: Status, waker: Option<Waker>)

  const Fresh := Cell(Pending, None)

  datatype CannotCancel = AlreadyCancelled | AlreadyFinished

  /** What one poll of the wrapping future yields. */
  datatype Polled<+T> = StillPending | Completed(value: T) | WasCancelled

  /** What one step reports: `ran` says whether the inner future was polled at all,
      `woken` is the waker that the step fires. */
  datatype Observation<+T> =
    | PollSeen(polled: Polled<T>, ran: bool)
    | CancelSeen(verdict: Result<(), CannotCancel>, woken: Option<Waker>)

  /** One poll; `answer` is what the inner future says when asked (None: not ready). */
  function PollCell<T>(c: Cell, answer: Option<T>, w: Waker): (r: (Cell, Observation<T>)) {
    if c.status.Cancelled? then
      (c, PollSeen(WasCancelled, false))
    else match answer
      case Some(v) => (c.(status := Finished), PollSeen(Completed(v), true))
      case None => (c.(waker := Some(w)), PollSeen(StillPending, true))
  }

  function CancelCell<T>(c: Cell): (r: (Cell, Observation<T>)) {
    match c.status
    case Pending => (Cell(Status.Cancelled, None), CancelSeen(Ok(()), c.waker))
    case Finished => (c, CancelSeen(Err(AlreadyFinished), None))
    case Cancelled => (c, CancelSeen(Err(AlreadyCancelled), None))
  }

  /** The shared object itself, updated in place under its lock. */
  class Inner {
    var status: Status
    var waker: Option<Waker>

    ghost function State(): Cell
      reads this
    {
      Cell(status, waker)
    }

    constructor ()
      ensures State() == Fresh
    {
      status, waker := Pending, None;
    }

    method Cancel() returns (verdict: Result<(), CannotCancel>, woken: Option<Waker>)
      modifies this
      ensures (State(), CancelSeen(verdict, woken)) == CancelCell<()>(old(State()))
    {
      woken := None;
      match status {
        case Pending => status := Status.Cancelled;
        case Finished => return Err(AlreadyFinished), None;
        case Cancelled => return Err(AlreadyCancelled), None;
      }
      if waker.Some? {
        woken := waker;
        waker := None;
      }
      verdict := Ok(());
    }

    method Poll<T>(answer: Option<T>, w: Waker) returns (polled: Polled<T>, ran: bool)
      modifies this
      ensures (State(), PollSeen(polled, ran)) == PollCell(old(State()), answer, w)
    {
      if status == Status.Cancelled {
        return WasCancelled, false;
      }
      ran := true;
      match answer {
        case Some(v) =>
          status := Finished;
          polled := Completed(v);
        case None =>
          waker := Some(w);
          polled := StillPending;
      }
    }
  }

  // ---- Whole runs ----

  datatype Event<+T> = Poll(answer: Option<T>, w: Waker) | Cancel

  function Step<T>(c: Cell, e: Event<T>): (r: (Cell, Observation<T>)) {
    match e
    case Poll(answer, w) => PollCell(c, answer, w)
    case Cancel => CancelCell(c)
  }

  /** The cell after the events `es`, starting from a fresh one. */
  function After<T>(es: seq<Event<T>>): (c: Cell) {
    if es == [] then Fresh else Step(After(es[..|es| - 1]), es[|es| - 1]).0
  }

  /** What event number `k` of the run reports. */
  function Seen<T>(es: seq<Event<T>>, k: nat): (o: Observation<T>)
    requires k < |es|
  {
    Step(After(es[..k]), es[k]).1
  }

  /** The waker handed in by the most recent poll. */
  function LastWaker<T>(es: seq<Event<T>>): (w: Option<Waker>) {
    if es == [] then None
    else match es[|es| - 1]
      case Poll(_, w) => Some(w)
      case Cancel => LastWaker(es[..|es| - 1])
  }

  lemma {:induction false} TerminalStays<T>(es: seq<Event<T>>, i: nat, j: nat)
    requires i <= j <= |es|
    requires After(es[..i]).status != Pending
    ensures After(es[..j]).status == After(es[..i]).status
    decreases j
  {
    if i < j {
      TerminalStays(es, i, j - 1);
      assert es[..j][..j - 1] == es[..j - 1];
    }
  }

  lemma AfterNext<T>(es: seq<Event<T>>, k: nat)
    requires k < |es|
    ensures After(es[..k + 1]) == Step(After(es[..k]), es[k]).0
  {
    assert es[..k + 1][..k] == es[..k];
  }

  lemma {:induction false} PendingKeepsLastWaker<T>(es: seq<Event<T>>)
    requires After(es).status == Pending
    ensures After(es).waker == LastWaker(es)
  {
    if es != [] {
      var front := es[..|es| - 1];
      assert After(front).status == Pending;
      PendingKeepsLastWaker(front);
    }
  }

  /** After a successful cancel the inner future is never polled again: every later poll
      reports cancellation and every later cancel is refused. */
  lemma CancelWins<T>(es: seq<Event<T>>, i: nat, j: nat)
    requires i < j < |es|
    requires Seen(es, i).CancelSeen? && Seen(es, i).verdict.Ok?
    ensures es[j].Poll? ==> Seen(es, j) == PollSeen(WasCancelled, false)
    ensures es[j].Cancel? ==> Seen(es, j) == CancelSeen(Err(AlreadyCancelled), None)
  {
    AfterNext(es, i);
    TerminalStays(es, i + 1, j);
  }

  /** After the future has completed, every cancel fails and no poll reports cancellation. */
  lemma CompletionWins<T>(es: seq<Event<T>>, i: nat, j: nat)
    requires i < j < |es|
    requires Seen(es, i).PollSeen? && Seen(es, i).polled.Completed?
    ensures es[j].Cancel? ==> Seen(es, j) == CancelSeen(Err(AlreadyFinished), None)
    ensures es[j].Poll? ==> Seen(es, j).ran && !Seen(es, j).polled.WasCancelled?
  {
    AfterNext(es, i);
    TerminalStays(es, i + 1, j);
  }

  /** No wake-up is lost: a successful cancel fires the waker of the most recent poll
      (and that poll had answered "pending"), or nobody has polled yet. */
  lemma CancelWakesLastPoller<T>(es: seq<Event<T>>, j: nat)
    requires j < |es|
    requires Seen(es, j).CancelSeen? && Seen(es, j).verdict.Ok?
    ensures Seen(es, j).woken == LastWaker(es[..j])
    ensures forall i :: 0 <= i < j && es[i].Poll? ==> Seen(es, i) == PollSeen(StillPending, true)
  {
    PendingKeepsLastWaker(es[..j]);
    forall i | 0 <= i < j && es[i].Poll?
      ensures Seen(es, i) == PollSeen(StillPending, true)
    {
      AfterNext(es, i);
      if After(es[..i + 1]).status != Pending {
        TerminalStays(es, i + 1, j);
      }
      if After(es[..i]).status != Pending {
        TerminalStays(es, i, j);
      }
    }
  }

  // ---- Exactly what each step reports ----

  /** An event that would settle a pending future. */
  predicate Decisive<T>(e: Event<T>) {
    e.Cancel? || e.answer.Some?
  }

  /** Event `i` is the first that settles the future. */
  ghost predicate SettledAt<T>(es: seq<Event<T>>, i: nat) {
    i < |es| && Decisive(es[i]) && forall j :: 0 <= j < i ==> !Decisive(es[j])
  }

  /** How the events so far leave the future, read off the first one that settles it. */
  lemma {:induction false} StatusIs<T>(es: seq<Event<T>>)
    ensures After(es).status == Cancelled <==> exists i: nat :: SettledAt(es, i) && es[i].Cancel?
    ensures After(es).status == Finished <==> exists i: nat :: SettledAt(es, i) && es[i].Poll?
    ensures After(es).status == Pending <==> forall i :: 0 <= i < |es| ==> !Decisive(es[i])
  {
    if es != [] {
      var front := es[..|es| - 1];
      StatusIs(front);
      assert forall i :: 0 <= i < |front| ==> front[i] == es[i];
      if After(front).status == Pending {
        assert forall i :: 0 <= i < |front| ==> !Decisive(es[i]);
        if Decisive(es[|front|]) {
          assert SettledAt(es, |front|);
        }
      } else {
        var i: nat :| SettledAt(front, i);
        assert SettledAt(es, i);
      }
    }
  }

  /** A cancel has settled the future before event `k`. */
  ghost predicate CancelledBefore<T>(es: seq<Event<T>>, k: nat) {
    exists i: nat :: i < k && SettledAt(es, i) && es[i].Cancel?
  }

  /** A poll has completed the future before event `k`. */
  ghost predicate CompletedBefore<T>(es: seq<Event<T>>, k: nat) {
    exists i: nat :: i < k && SettledAt(es, i) && es[i].Poll?
  }

  lemma StatusBefore<T>(es: seq<Event<T>>, k: nat)
    requires k <= |es|
    ensures After(es[..k]).status == Cancelled <==> CancelledBefore(es, k)
    ensures After(es[..k]).status == Finished <==> CompletedBefore(es, k)
  {
    StatusIs(es[..k]);
    forall i: nat ensures SettledAt(es[..k], i) <==> i < k && SettledAt(es, i) {
    }
  }

  /** A poll reports exactly what the inner future answers, unless a cancel came first. */
  lemma PollReportsExactly<T>(es: seq<Event<T>>, k: nat)
    requires k < |es| && es[k].Poll?
    ensures Seen(es, k) ==
            if CancelledBefore(es, k) then PollSeen(WasCancelled, false)
            else if es[k].answer.Some? then PollSeen(Completed(es[k].answer.value), true)
            else PollSeen(StillPending, true)
  {
    StatusBefore(es, k);
  }

  /** A cancel succeeds exactly if nothing has settled the future, and its error says what did. */
  lemma CancelReportsExactly<T>(es: seq<Event<T>>, k: nat)
    requires k < |es| && es[k].Cancel?
    ensures Seen(es, k) ==
            if CancelledBefore(es, k) then CancelSeen(Err(AlreadyCancelled), None)
            else if CompletedBefore(es, k) then CancelSeen(Err(AlreadyFinished), None)
            else CancelSeen(Ok(()), LastWaker(es[..k]))
  {
    StatusBefore(es, k);
    if After(es[..k]).status == Pending {
      PendingKeepsLastWaker(es[..k]);
    }
  }
}
