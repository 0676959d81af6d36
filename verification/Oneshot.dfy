/** A single-use client: the first SOCKS request that names it takes its connector, and every
    later one is turned away. Calls interleave between taking the connector and, for a
    connection, installing the outcome. */
module Oneshot {
  import opened Common

  type Connector = nat

  datatype Inner =
    | Unused(connector: Connector)
    | Launching
    | Stream(ctrl: nat)
    | UsedToResolve
    | StreamFailed

  datatype Kind = Connect | Resolve | ResolvePtr

  /** How a call that took the connector ends: with the stream's control handle or a failure, as
      the connector answered; because the call could not be handed to it at all; or because the
      call's future was dropped, or panicked, before it had written anything. */
  datatype Answer = Connected(ctrl: nat) | Refused | NotDelegated | Dropped

  /** The call ends without the connector's answer. */
  predicate Lost(a: Answer) {
    a.NotDelegated? || a.Dropped?
  }

  /** A call: turned away, at work with the connector it took, or finished. */
  datatype Call = TurnedAway | Working(kind: Kind, connector: Connector) | Finished(was: Kind)

  datatype State = State(inner: Inner, calls: seq<Call>, taken: seq<Connector>)

  function Fresh(c: Connector): State {
    State(Unused(c), [], [])
  }

  datatype Event =
    | Begin(kind: Kind)
    | Finish(i: nat, answer: Answer)

  function UsedAs(kind: Kind): Inner {
    if kind.Connect? then Launching else UsedToResolve
  }

  /** `take_connector`. */
  function Take(inner: Inner, next: Inner): (Inner, Option<Connector>) {
    if inner.Unused? then (next, Some(inner.connector)) else (inner, None)
  }

  function Outcome(inner: Inner, kind: Kind, answer: Answer): Inner {
    if !kind.Connect? then inner
    else match answer
      case Connected(ctrl) => Stream(ctrl)
      case Refused => StreamFailed
      case _ => inner
  }

  function Step(s: State, e: Event): State {
    match e
    case Begin(kind) =>
      var (inner, got) := Take(s.inner, UsedAs(kind));
      (match got
       case Some(c) => State(inner, s.calls + [Working(kind, c)], s.taken + [c])
       case None => State(inner, s.calls + [TurnedAway], s.taken))
    case Finish(i, answer) =>
      if i < |s.calls| && s.calls[i].Working? then
        State(Outcome(s.inner, s.calls[i].kind, answer), s.calls[i := Finished(s.calls[i].kind)], s.taken)
      else s
  }

  function Run(s: State, es: seq<Event>): State {
    if es == [] then s else Step(Run(s, es[..|es| - 1]), es[|es| - 1])
  }

  // ---- The object itself, under its mutex ----

  class OneshotClient {
    var inner: Inner

    constructor (connector: Connector)
      ensures inner == Unused(connector)
    {
      inner := Unused(connector);
    }

    /** Replace the state, and put the old one back if it was not `Unused`. */
    method TakeConnector(newState: Inner) returns (r: Option<Connector>)
      modifies this
      ensures (inner, r) == Take(old(inner), newState)
    {
      var val := inner;
      inner := newState;
      if val.Unused? {
        r := Some(val.connector);
      } else {
        inner := val;
        r := None;
      }
    }

    /** The end of a connection that took the connector. */
    method Install(answer: Answer)
      modifies this
      ensures inner == Outcome(old(inner), Connect, answer)
    {
      if Lost(answer) {
        return;
      }
      inner := if answer.Connected? then Stream(answer.ctrl) else StreamFailed;
    }

    /** A whole run of calls on one client, in any interleaving. */
    method Serve(es: seq<Event>) returns (calls: seq<Call>, taken: seq<Connector>)
      requires inner.Unused?
      modifies this
      ensures State(inner, calls, taken) == Run(Fresh(old(inner).connector), es)
    {
      ghost var start := Fresh(inner.connector);
      calls, taken := [], [];
      var k := 0;
      while k < |es|
        invariant 0 <= k <= |es|
        invariant State(inner, calls, taken) == Run(start, es[..k])
      {
        assert es[..k + 1][..k] == es[..k];
        match es[k] {
          case Begin(kind) =>
            var got := TakeConnector(UsedAs(kind));
            if got.Some? {
              calls, taken := calls + [Working(kind, got.value)], taken + [got.value];
            } else {
              calls := calls + [TurnedAway];
            }
          case Finish(i, answer) =>
            if i < |calls| && calls[i].Working? {
              if calls[i].kind.Connect? {
                Install(answer);
              }
              calls := calls[i := Finished(calls[i].kind)];
            }
        }
        k := k + 1;
      }
      assert es[..|es|] == es;
    }
  }

  // ---- Over whole runs ----

  predicate Winner(c: Call) {
    !c.TurnedAway?
  }

  /** The state that the one winning call accounts for. */
  predicate Explains(c: Call, connector: Connector, inner: Inner) {
    match c
    case TurnedAway => false
    case Working(kind, got) => got == connector && inner == UsedAs(kind)
    case Finished(kind) => if kind.Connect? then inner.Launching? || inner.Stream? || inner.StreamFailed?
                           else inner == UsedToResolve
  }

  /** Before the first call nothing is taken; afterwards the first call, and no other, has the
      connector, and the state is what that call made of it. */
  predicate Inv(connector: Connector, s: State) {
    if s.calls == [] then s == Fresh(connector)
    else
      && s.taken == [connector]
      && Explains(s.calls[0], connector, s.inner)
      && forall i :: 0 < i < |s.calls| ==> s.calls[i].TurnedAway?
  }

  lemma {:induction false} RunKeeps(connector: Connector, es: seq<Event>)
    ensures Inv(connector, Run(Fresh(connector), es))
  {
    if es != [] {
      RunKeeps(connector, es[..|es| - 1]);
    }
  }

  /** In every run the connector is handed out at most once, to the first call; every other call
      is turned away. */
  lemma HandedOutOnce(connector: Connector, es: seq<Event>)
    ensures var s := Run(Fresh(connector), es);
            && (s.inner.Unused? <==> s.calls == [])
            && s.taken == (if s.calls == [] then [] else [connector])
            && forall i :: 0 <= i < |s.calls| ==> (Winner(s.calls[i]) <==> i == 0)
  {
    RunKeeps(connector, es);
  }

  /** A call that is turned away leaves the client as it was. */
  lemma LosersChangeNothing(connector: Connector, es: seq<Event>, kind: Kind)
    requires Run(Fresh(connector), es).calls != []
    ensures var s := Run(Fresh(connector), es);
            Step(s, Begin(kind)) == s.(calls := s.calls + [TurnedAway])
  {
    RunKeeps(connector, es);
  }

  predicate Terminal(inner: Inner) {
    inner.Stream? || inner.StreamFailed? || inner.UsedToResolve?
  }

  /** Stream, StreamFailed and UsedToResolve are never left, whatever calls follow. */
  lemma {:induction false} TerminalIsForever(connector: Connector, es: seq<Event>, more: seq<Event>)
    requires Terminal(Run(Fresh(connector), es).inner)
    ensures Run(Fresh(connector), es + more).inner == Run(Fresh(connector), es).inner
  {
    if more == [] {
      assert es + more == es;
    } else {
      TerminalIsForever(connector, es, more[..|more| - 1]);
      assert (es + more)[..|es + more| - 1] == es + more[..|more| - 1];
      RunKeeps(connector, es + more[..|more| - 1]);
    }
  }

  /** Only the connection that won writes after Launching: the state moves on from Launching
      exactly when that call comes back with a stream or a failure from the connector. */
  lemma OnlyWinnerWrites(connector: Connector, es: seq<Event>, e: Event)
    requires Run(Fresh(connector), es).inner.Launching?
    ensures var s := Run(Fresh(connector), es);
            Step(s, e).inner != s.inner <==>
            && e.Finish? && e.i == 0 && s.calls != [] && s.calls[0] == Working(Connect, connector)
            && !Lost(e.answer)
  {
    RunKeeps(connector, es);
  }

  // ---- The state, read off the events ----

  /** The kind of the first call. */
  function FirstKind(es: seq<Event>): Option<Kind> {
    if es == [] then None
    else if FirstKind(es[..|es| - 1]).Some? then FirstKind(es[..|es| - 1])
    else if es[|es| - 1].Begin? then Some(es[|es| - 1].kind)
    else None
  }

  /** How the first call ended. */
  function FirstAnswer(es: seq<Event>): Option<Answer> {
    if es == [] then None
    else
      var front, e := es[..|es| - 1], es[|es| - 1];
      if FirstAnswer(front).Some? then FirstAnswer(front)
      else if e.Finish? && e.i == 0 && FirstKind(front).Some? then Some(e.answer)
      else None
  }

  ghost predicate FirstIs(connector: Connector, es: seq<Event>, s: State) {
    match FirstKind(es)
    case None => s.calls == [] && FirstAnswer(es).None?
    case Some(kind) =>
      s.calls != [] && s.calls[0] == if FirstAnswer(es).Some? then Finished(kind) else Working(kind, connector)
  }

  /** In every run the state is what the first call and its end make it: a stream with the handle
      that the connector gave, a failure if it refused, used up after a lookup of either kind,
      and launching while a connection is at work or after it was lost. */
  lemma {:induction false} StateIs(connector: Connector, es: seq<Event>)
    ensures FirstIs(connector, es, Run(Fresh(connector), es))
    ensures Run(Fresh(connector), es).inner ==
            match FirstKind(es)
            case None => Unused(connector)
            case Some(Connect) =>
              (match FirstAnswer(es)
               case Some(Connected(ctrl)) => Stream(ctrl)
               case Some(Refused) => StreamFailed
               case _ => Launching)
            case Some(_) => UsedToResolve
  {
    if es != [] {
      StateIs(connector, es[..|es| - 1]);
      RunKeeps(connector, es[..|es| - 1]);
    }
  }

  predicate FirstCallIs(s: State, c: Call) {
    s.calls != [] && s.calls[0] == c
  }

  /** Once the winning connection has ended without an answer, the client stays in Launching
      whatever follows. */
  lemma {:induction false} LaunchingStays(connector: Connector, es: seq<Event>, more: seq<Event>)
    requires Run(Fresh(connector), es).inner.Launching?
    requires FirstCallIs(Run(Fresh(connector), es), Finished(Connect))
    ensures Run(Fresh(connector), es + more).inner.Launching?
    ensures FirstCallIs(Run(Fresh(connector), es + more), Finished(Connect))
  {
    if more == [] {
      assert es + more == es;
    } else {
      LaunchingStays(connector, es, more[..|more| - 1]);
      assert (es + more)[..|es + more| - 1] == es + more[..|more| - 1];
      RunKeeps(connector, es + more[..|more| - 1]);
    }
  }

  /** Event `k` is the winning connection ending without an answer. */
  predicate LostAt(connector: Connector, es: seq<Event>, k: nat) {
    && k < |es| && es[k].Finish? && es[k].i == 0 && Lost(es[k].answer)
    && FirstCallIs(Run(Fresh(connector), es[..k]), Working(Connect, connector))
  }

  lemma LostIsStuck(connector: Connector, es: seq<Event>, k: nat, more: seq<Event>)
    requires LostAt(connector, es, k)
    ensures Run(Fresh(connector), es + more).inner.Launching?
  {
    RunKeeps(connector, es[..k]);
    assert es[..k + 1][..k] == es[..k];
    LaunchingStays(connector, es[..k + 1], es[k + 1..] + more);
    assert es[..k + 1] + (es[k + 1..] + more) == es + more;
  }

  lemma {:induction false} StuckWasLost(connector: Connector, es: seq<Event>) returns (k: nat)
    requires Run(Fresh(connector), es).inner.Launching?
    requires FirstCallIs(Run(Fresh(connector), es), Finished(Connect))
    ensures LostAt(connector, es, k)
  {
    var front := es[..|es| - 1];
    RunKeeps(connector, front);
    if FirstCallIs(Run(Fresh(connector), front), Finished(Connect)) {
      k := StuckWasLost(connector, front);
      assert front[..k] == es[..k];
    } else {
      k := |front|;
    }
  }

  /** A connection that is still at work can leave Launching with its next step. */
  lemma WorkingCanLeave(connector: Connector, es: seq<Event>)
    requires FirstCallIs(Run(Fresh(connector), es), Working(Connect, connector))
    ensures !Run(Fresh(connector), es + [Finish(0, Refused)]).inner.Launching?
  {
    assert (es + [Finish(0, Refused)])[..|es|] == es;
  }

  /** The client is in Launching for ever, whatever follows, exactly if at some point of the run
      the winning connection ended without an answer: it could not be delegated, or its future
      was dropped. */
  lemma LaunchingForeverIff(connector: Connector, es: seq<Event>)
    ensures (forall more :: Run(Fresh(connector), es + more).inner.Launching?) <==>
            exists k: nat :: LostAt(connector, es, k)
  {
    if k: nat :| LostAt(connector, es, k) {
      forall more ensures Run(Fresh(connector), es + more).inner.Launching? {
        LostIsStuck(connector, es, k, more);
      }
    }
    if forall more :: Run(Fresh(connector), es + more).inner.Launching? {
      assert es + [] == es;
      assert Run(Fresh(connector), es + []).inner.Launching?;
      RunKeeps(connector, es);
      if FirstCallIs(Run(Fresh(connector), es), Working(Connect, connector)) {
        WorkingCanLeave(connector, es);
        assert false;
      }
      var k := StuckWasLost(connector, es);
    }
  }

  /** It does happen: the shortest such runs. */
  lemma LaunchingCanBeForever(connector: Connector, lost: Answer, more: seq<Event>)
    requires Lost(lost)
    ensures Run(Fresh(connector), [Begin(Connect), Finish(0, lost)] + more).inner.Launching?
  {
    var es := [Begin(Connect), Finish(0, lost)];
    assert es[..1] == [Begin(Connect)] && [Begin(Connect)][..0] == [];
    assert Run(Fresh(connector), es[..1]) == Step(Fresh(connector), Begin(Connect));
    LostIsStuck(connector, es, 1, more);
  }
}
