/** Acting on the network's list of recommended and required subprotocols.

    At start-up a cached list is evaluated; afterwards a watcher looks out for new lists. The
    configured override may change at any time, so each event carries the one in force. */
module ProtoStatus {
  import opened Common

  /** A subprotocol in one version. */
  type Protocols = set<(nat, nat)>

  datatype Needs = Needs(recommended: Protocols, required: Protocols)

  datatype Statuses = Statuses(client: Needs, relay: Needs)

  datatype SupportError = MissingRequired(missing: Protocols) | MissingRecommended(missing: Protocols)

  function CheckProtocols(needs: Needs, ours: Protocols): Option<SupportError> {
    if needs.required - ours != {} then Some(MissingRequired(needs.required - ours))
    else if needs.recommended - ours != {} then Some(MissingRecommended(needs.recommended - ours))
    else None
  }

  /** The reaction to a list; only `Fatal` stops the client. */
  datatype Verdict = Fine | ExpectedGap | Outdated | Overridden | Fatal(missing: Protocols)

  function Evaluate(s: Statuses, ours: Protocols, gap: Protocols, ignored: Protocols): Verdict {
    match CheckProtocols(s.client, ours)
    case None => Fine
    case Some(MissingRecommended(missing)) => if missing - gap == {} then ExpectedGap else Outdated
    case Some(MissingRequired(missing)) => if missing - ignored == {} then Overridden else Fatal(missing)
  }

  datatype Provider = Gone | NoStatus | Has(timestamp: int, statuses: Statuses)

  /** `relevant`: the event announces a new recommendation. The provider and the override are
      as the watcher finds them when it handles the event. */
  datatype Event = Event(relevant: bool, provider: Provider, ignored: Protocols)

  /** The software: when it was published, its protocols, and known gaps. */
  datatype Software = Software(published: int, ours: Protocols, gap: Protocols)

  datatype Evaluation = Evaluation(timestamp: int, statuses: Statuses, ignored: Protocols)

  /** A running watcher; `fatals` are the calls of `on_fatal`. */
  datatype Watch = Watch(last: Option<Statuses>, over: bool, evaluated: seq<Evaluation>, fatals: seq<Protocols>)

  function Judge(sw: Software, w: Watch, timestamp: int, s: Statuses, ignored: Protocols): Watch {
    var log := w.evaluated + [Evaluation(timestamp, s, ignored)];
    match Evaluate(s, sw.ours, sw.gap, ignored)
    case Fatal(missing) => Watch(w.last, true, log, w.fatals + [missing])
    case _ => Watch(Some(s), false, log, w.fatals)
  }

  function Step(sw: Software, w: Watch, e: Event): Watch {
    if w.over || !e.relevant then w
    else match e.provider
      case Gone => w.(over := true)
      case NoStatus => w
      case Has(timestamp, s) =>
        if timestamp < sw.published || w.last == Some(s) then w
        else Judge(sw, w, timestamp, s, e.ignored)
  }

  function Run(sw: Software, w: Watch, es: seq<Event>): Watch {
    if es == [] then w else Step(sw, Run(sw, w, es[..|es| - 1]), es[|es| - 1])
  }

  /** The start-up check. An unbearable cached status is returned as an error: no watcher is
      started and `on_fatal` is not called. */
  function Start(sw: Software, cached: Option<(int, Statuses)>, ignored: Protocols): Result<Watch, Protocols> {
    if cached.None? || cached.value.0 < sw.published then Ok(Watch(None, false, [], []))
    else match Evaluate(cached.value.1, sw.ours, sw.gap, ignored)
      case Fatal(missing) => Err(missing)
      case _ =>
        Ok(Watch(Some(cached.value.1), false, [Evaluation(cached.value.0, cached.value.1, ignored)], []))
  }

  /** Nothing is evaluated, and `on_fatal` is not called, once the watcher is over. */
  lemma {:induction false} OverIsFinal(sw: Software, w: Watch, es: seq<Event>, more: seq<Event>)
    requires Run(sw, w, es).over
    ensures Run(sw, w, es + more) == Run(sw, w, es)
  {
    if more == [] {
      assert es + more == es;
    } else {
      OverIsFinal(sw, w, es, more[..|more| - 1]);
      assert (es + more)[..|es + more| - 1] == es + more[..|more| - 1];
    }
  }

  /** `watch_protocol_statuses`: `last` is updated in place, event by event. */
  method WatchStatuses(sw: Software, initial: Watch, events: seq<Event>)
    returns (last: Option<Statuses>, evaluated: seq<Evaluation>, fatals: seq<Protocols>)
    requires !initial.over
    ensures last == Run(sw, initial, events).last
    ensures evaluated == Run(sw, initial, events).evaluated
    ensures fatals == Run(sw, initial, events).fatals
  {
    last, evaluated, fatals := initial.last, initial.evaluated, initial.fatals;
    var i := 0;
    while i < |events|
      invariant 0 <= i <= |events|
      invariant Run(sw, initial, events[..i]) == Watch(last, false, evaluated, fatals)
    {
      var e := events[i];
      assert events[..i + 1][..i] == events[..i];
      assert events[..i + 1] + events[i + 1..] == events;
      i := i + 1;
      if !e.relevant {
        continue;
      }
      if e.provider.Gone? {
        OverIsFinal(sw, initial, events[..i], events[i..]);
        return;
      }
      if e.provider.NoStatus? || e.provider.timestamp < sw.published || last == Some(e.provider.statuses) {
        continue;
      }
      var verdict := Evaluate(e.provider.statuses, sw.ours, sw.gap, e.ignored);
      evaluated := evaluated + [Evaluation(e.provider.timestamp, e.provider.statuses, e.ignored)];
      if verdict.Fatal? {
        fatals := fatals + [verdict.missing];
        OverIsFinal(sw, initial, events[..i], events[i..]);
        return;
      }
      last := Some(e.provider.statuses);
    }
    assert events[..|events|] == events;
  }

  // ---- Over whole runs ----

  /** The client can live with `x`: nothing required is missing beyond the override that was in
      force when it was evaluated. */
  predicate Bearable(sw: Software, x: Evaluation) {
    x.statuses.client.required - sw.ours <= x.ignored
  }

  predicate TimelyList(sw: Software, log: seq<Evaluation>) {
    forall i :: 0 <= i < |log| ==> log[i].timestamp >= sw.published
  }

  predicate NoRepeats(log: seq<Evaluation>) {
    forall i :: 0 < i < |log| ==> log[i].statuses != log[i - 1].statuses
  }

  predicate AllBearable(sw: Software, log: seq<Evaluation>) {
    forall i :: 0 <= i < |log| ==> Bearable(sw, log[i])
  }

  predicate LastIs(log: seq<Evaluation>, last: Option<Statuses>) {
    last == if log == [] then None else Some(log[|log| - 1].statuses)
  }

  ghost predicate Inv(sw: Software, w: Watch) {
    && TimelyList(sw, w.evaluated)
    && NoRepeats(w.evaluated)
    && (w.fatals == [] ==> AllBearable(sw, w.evaluated) && LastIs(w.evaluated, w.last))
    && (w.fatals != [] ==>
          && w.over && w.evaluated != []
          && var n := |w.evaluated| - 1;
             && AllBearable(sw, w.evaluated[..n]) && LastIs(w.evaluated[..n], w.last)
             && !Bearable(sw, w.evaluated[n])
             && w.fatals == [w.evaluated[n].statuses.client.required - sw.ours])
  }

  lemma FatalIffUnbearable(sw: Software, x: Evaluation)
    ensures Evaluate(x.statuses, sw.ours, sw.gap, x.ignored) == Fatal(x.statuses.client.required - sw.ours)
            || Bearable(sw, x)
    ensures Evaluate(x.statuses, sw.ours, sw.gap, x.ignored).Fatal? ==> !Bearable(sw, x)
  {
    var missing := x.statuses.client.required - sw.ours;
    if missing - x.ignored == {} {
      assert forall p :: p in missing ==> p !in missing - x.ignored;
    } else {
      var p :| p in missing - x.ignored;
    }
  }

  lemma DifferenceEmpty(a: Protocols, b: Protocols)
    ensures a - b == {} <==> a <= b
  {
    if a - b == {} {
      forall p | p in a ensures p in b {
        assert p !in a - b;
      }
    }
  }

  /** What each verdict means: nothing is missing; only recommended protocols are, which are known
      gaps, or not only those; required protocols are missing, all of them on the override, or
      not. */
  lemma VerdictIff(s: Statuses, ours: Protocols, gap: Protocols, ignored: Protocols)
    ensures var required, recommended := s.client.required - ours, s.client.recommended - ours;
            var v := Evaluate(s, ours, gap, ignored);
            && (v == Fine <==> s.client.required <= ours && s.client.recommended <= ours)
            && (v == ExpectedGap <==> s.client.required <= ours && recommended != {} && recommended <= gap)
            && (v == Outdated <==> s.client.required <= ours && !(recommended <= gap))
            && (v == Overridden <==> required != {} && required <= ignored)
            && (v == Fatal(required) <==> !(required <= ignored))
  {
    DifferenceEmpty(s.client.required, ours);
    DifferenceEmpty(s.client.recommended, ours);
    DifferenceEmpty(s.client.required - ours, ignored);
    DifferenceEmpty(s.client.recommended - ours, gap);
  }

  lemma {:induction false} JudgeIs(sw: Software, w: Watch, x: Evaluation)
    ensures Judge(sw, w, x.timestamp, x.statuses, x.ignored) ==
            if Bearable(sw, x) then Watch(Some(x.statuses), false, w.evaluated + [x], w.fatals)
            else Watch(w.last, true, w.evaluated + [x], w.fatals + [x.statuses.client.required - sw.ours])
  {
    FatalIffUnbearable(sw, x);
  }

  lemma {:induction false} LogAppend(sw: Software, log: seq<Evaluation>, last: Option<Statuses>, x: Evaluation)
    requires TimelyList(sw, log) && NoRepeats(log) && AllBearable(sw, log) && LastIs(log, last)
    requires x.timestamp >= sw.published && last != Some(x.statuses)
    ensures TimelyList(sw, log + [x]) && NoRepeats(log + [x]) && LastIs(log + [x], Some(x.statuses))
    ensures Bearable(sw, x) ==> AllBearable(sw, log + [x])
  {
  }

  lemma {:induction false} JudgeKeeps(sw: Software, w: Watch, timestamp: int, s: Statuses, ignored: Protocols)
    requires Inv(sw, w) && w.fatals == [] && timestamp >= sw.published && w.last != Some(s)
    ensures Inv(sw, Judge(sw, w, timestamp, s, ignored))
  {
    var x := Evaluation(timestamp, s, ignored);
    JudgeIs(sw, w, x);
    LogAppend(sw, w.evaluated, w.last, x);
    assert (w.evaluated + [x])[..|w.evaluated|] == w.evaluated;
  }

  lemma {:induction false} RunKeeps(sw: Software, w: Watch, es: seq<Event>)
    requires Inv(sw, w)
    ensures Inv(sw, Run(sw, w, es))
  {
    if es != [] {
      var before, e := Run(sw, w, es[..|es| - 1]), es[|es| - 1];
      RunKeeps(sw, w, es[..|es| - 1]);
      if Step(sw, before, e) != before && e.provider.Has? {
        JudgeKeeps(sw, before, e.provider.timestamp, e.provider.statuses, e.ignored);
      }
    }
  }

  /** The cached status that the start-up check evaluates, if it is timely. */
  function CachedEvaluation(sw: Software, cached: Option<(int, Statuses)>, ignored: Protocols): Option<Evaluation> {
    if cached.Some? && cached.value.0 >= sw.published
    then Some(Evaluation(cached.value.0, cached.value.1, ignored)) else None
  }

  /** Start-up fails exactly when the cached status is timely and unbearable, and the error is
      what is missing; otherwise the watcher starts from that status, or from none. */
  lemma StartupFailsIff(sw: Software, cached: Option<(int, Statuses)>, ignored: Protocols)
    ensures var x := CachedEvaluation(sw, cached, ignored);
            Start(sw, cached, ignored) ==
            match x
            case None => Ok(Watch(None, false, [], []))
            case Some(x) => if Bearable(sw, x) then Ok(Watch(Some(x.statuses), false, [x], []))
                            else Err(x.statuses.client.required - sw.ours)
  {
    var x := CachedEvaluation(sw, cached, ignored);
    if x.Some? {
      FatalIffUnbearable(sw, x.value);
    }
  }

  lemma StartIsInv(sw: Software, cached: Option<(int, Statuses)>, ignored: Protocols)
    requires Start(sw, cached, ignored).Ok?
    ensures Inv(sw, Start(sw, cached, ignored).value) && Start(sw, cached, ignored).value.fatals == []
  {
    StartupFailsIff(sw, cached, ignored);
  }

  /** For every event list of a watcher that was started: no status older than the software is
      evaluated, none twice in a row, and `on_fatal` is called exactly if some evaluated status
      is unbearable; then it is called once, for the last status evaluated, with what is
      missing, and the watcher is over. */
  lemma WatcherIsSafe(sw: Software, cached: Option<(int, Statuses)>, ignored: Protocols, es: seq<Event>)
    requires Start(sw, cached, ignored).Ok?
    ensures var w := Run(sw, Start(sw, cached, ignored).value, es);
            && TimelyList(sw, w.evaluated) && NoRepeats(w.evaluated)
            && |w.fatals| <= 1
            && (w.fatals == [] <==> AllBearable(sw, w.evaluated))
            && (w.fatals != [] ==>
                  && w.over && w.evaluated != []
                  && AllBearable(sw, w.evaluated[..|w.evaluated| - 1])
                  && w.fatals == [w.evaluated[|w.evaluated| - 1].statuses.client.required - sw.ours])
  {
    StartIsInv(sw, cached, ignored);
    RunKeeps(sw, Start(sw, cached, ignored).value, es);
  }

  /** `enforce_protocol_recommendations`: the start-up check, then the watcher. */
  method Enforce(sw: Software, cached: Option<(int, Statuses)>, ignored: Protocols, events: seq<Event>)
    returns (startup: Option<Protocols>, evaluated: seq<Evaluation>, fatals: seq<Protocols>)
    ensures startup == match Start(sw, cached, ignored) case Err(missing) => Some(missing) case Ok(_) => None
    ensures startup.Some? ==> evaluated == [] && fatals == []
    ensures startup.None? ==> evaluated == Run(sw, Start(sw, cached, ignored).value, events).evaluated
    ensures startup.None? ==> fatals == Run(sw, Start(sw, cached, ignored).value, events).fatals
  {
    evaluated, fatals := [], [];
    var initial: Option<Statuses> := None;
    if cached.Some? && cached.value.0 >= sw.published {
      var verdict := Evaluate(cached.value.1, sw.ours, sw.gap, ignored);
      if verdict.Fatal? {
        return Some(verdict.missing), [], [];
      }
      initial := Some(cached.value.1);
      evaluated := [Evaluation(cached.value.0, cached.value.1, ignored)];
    }
    startup := None;
    var last;
    last, evaluated, fatals := WatchStatuses(sw, Watch(initial, false, evaluated, []), events);
  }

  // ---- Nothing timely is missed ----

  predicate IsTimely(sw: Software, e: Event) {
    e.relevant && e.provider.Has? && e.provider.timestamp >= sw.published
  }

  /** The statuses of the last timely event, or what was there at the start. */
  function LastTimely(sw: Software, initial: Option<Statuses>, es: seq<Event>): Option<Statuses> {
    if es == [] then initial
    else if IsTimely(sw, es[|es| - 1]) then Some(es[|es| - 1].provider.statuses)
    else LastTimely(sw, initial, es[..|es| - 1])
  }

  /** As long as the watcher runs, the last status evaluated is the last timely one seen. */
  lemma {:induction false} LastEvaluatedIsLastTimely(sw: Software, w: Watch, es: seq<Event>)
    requires !Run(sw, w, es).over
    ensures Run(sw, w, es).last == LastTimely(sw, w.last, es)
  {
    if es != [] {
      LastEvaluatedIsLastTimely(sw, w, es[..|es| - 1]);
    }
  }

  lemma StepFatalIff(sw: Software, w: Watch, e: Event)
    requires !w.over && w.fatals == []
    ensures Step(sw, w, e).fatals != [] <==>
            && IsTimely(sw, e) && w.last != Some(e.provider.statuses)
            && !Bearable(sw, Evaluation(e.provider.timestamp, e.provider.statuses, e.ignored))
  {
    if IsTimely(sw, e) {
      FatalIffUnbearable(sw, Evaluation(e.provider.timestamp, e.provider.statuses, e.ignored));
    }
  }

  lemma {:induction false} RunningHasNoFatals(sw: Software, w: Watch, es: seq<Event>)
    requires !Run(sw, w, es).over && w.fatals == []
    ensures Run(sw, w, es).fatals == []
  {
    if es != [] {
      RunningHasNoFatals(sw, w, es[..|es| - 1]);
    }
  }

  /** When a running watcher calls `on_fatal`: on a timely status that differs from the last timely
      one and lacks required protocols beyond the override in force. */
  lemma {:induction false} FatalIff(sw: Software, w: Watch, es: seq<Event>, e: Event)
    requires !Run(sw, w, es).over && w.fatals == []
    ensures Run(sw, w, es).fatals == []
    ensures Run(sw, w, es + [e]).fatals != [] <==>
            && IsTimely(sw, e)
            && LastTimely(sw, w.last, es) != Some(e.provider.statuses)
            && !Bearable(sw, Evaluation(e.provider.timestamp, e.provider.statuses, e.ignored))
  {
    LastEvaluatedIsLastTimely(sw, w, es);
    RunningHasNoFatals(sw, w, es);
    assert (es + [e])[..|es|] == es;
    StepFatalIff(sw, Run(sw, w, es), e);
  }

  /** The event stream was still being served, as far as the provider goes. */
  predicate NotGone(es: seq<Event>) {
    forall j :: 0 <= j < |es| ==> !(es[j].relevant && es[j].provider.Gone?)
  }

  lemma {:induction false} OverIff(sw: Software, w: Watch, es: seq<Event>)
    requires !w.over && w.fatals == []
    ensures !Run(sw, w, es).over ==> NotGone(es)
    ensures Run(sw, w, es).over && NotGone(es) ==> Run(sw, w, es).fatals != []
  {
    if es != [] {
      var front := es[..|es| - 1];
      OverIff(sw, w, front);
      if NotGone(es) {
        assert NotGone(front);
      }
      assert forall j :: 0 <= j < |front| ==> es[j] == front[j];
    }
  }

  /** Event `k` brings a timely, changed and unbearable status to a watcher whose provider is
      still there. */
  predicate FatalAt(sw: Software, initial: Option<Statuses>, es: seq<Event>, k: nat) {
    && k < |es| && NotGone(es[..k]) && IsTimely(sw, es[k])
    && LastTimely(sw, initial, es[..k]) != Some(es[k].provider.statuses)
    && !Bearable(sw, Evaluation(es[k].provider.timestamp, es[k].provider.statuses, es[k].ignored))
  }

  lemma {:induction false} FatalMeansOver(sw: Software, w: Watch, es: seq<Event>)
    requires !w.over && w.fatals == [] && Run(sw, w, es).fatals != []
    ensures Run(sw, w, es).over
  {
    if es != [] && Run(sw, w, es[..|es| - 1]).fatals != [] {
      FatalMeansOver(sw, w, es[..|es| - 1]);
    }
  }

  lemma {:induction false} FatalAtCalls(sw: Software, w: Watch, es: seq<Event>, k: nat)
    requires !w.over && w.fatals == [] && FatalAt(sw, w.last, es, k)
    ensures Run(sw, w, es).fatals != []
  {
    var before, rest := es[..k], es[k + 1..];
    if Run(sw, w, before).over {
      OverIff(sw, w, before);
      OverIsFinal(sw, w, before, es[k..]);
      assert before + es[k..] == es;
    } else {
      FatalIff(sw, w, before, es[k]);
      OverIff(sw, w, before + [es[k]]);
      FatalMeansOver(sw, w, before + [es[k]]);
      OverIsFinal(sw, w, before + [es[k]], rest);
      assert before + [es[k]] + rest == es;
    }
  }

  lemma {:induction false} CallHasFatalAt(sw: Software, w: Watch, es: seq<Event>) returns (k: nat)
    requires !w.over && w.fatals == [] && Run(sw, w, es).fatals != []
    ensures FatalAt(sw, w.last, es, k)
  {
    var front, e := es[..|es| - 1], es[|es| - 1];
    if Run(sw, w, front).fatals != [] {
      k := CallHasFatalAt(sw, w, front);
      assert front[..k] == es[..k];
    } else {
      k := |front|;
      OverIff(sw, w, front);
      FatalIff(sw, w, front, e);
      assert front + [e] == es;
    }
  }

  /** Over whole runs: `on_fatal` is called exactly if some event brings a timely status that
      differs from the last timely one and lacks required protocols beyond the override in
      force, while the provider is there. */
  lemma FatalCalledIff(sw: Software, w: Watch, es: seq<Event>)
    requires !w.over && w.fatals == []
    ensures Run(sw, w, es).fatals != [] <==> exists k :: FatalAt(sw, w.last, es, k)
  {
    if Run(sw, w, es).fatals != [] {
      var k := CallHasFatalAt(sw, w, es);
    }
    if k: nat :| FatalAt(sw, w.last, es, k) {
      FatalAtCalls(sw, w, es, k);
    }
  }

  /** "In force when it was evaluated" cannot be strengthened to "in force now": taking a
      protocol off the override later does not stop the client while the list stays the same. */
  lemma LaterOverrideIsNotApplied()
    ensures exists sw, e1: Event, e2: Event ::
              && IsTimely(sw, e2)
              && !Bearable(sw, Evaluation(e2.provider.timestamp, e2.provider.statuses, e2.ignored))
              && Run(sw, Watch(None, false, [], []), [e1, e2]).fatals == []
  {
    var p := {(1, 1)};
    var sw := Software(0, {}, {});
    var status := Has(0, Statuses(Needs({}, p), Needs({}, {})));
    var e1, e2 := Event(true, status, p), Event(true, status, {});
    var none := Watch(None, false, [], []);
    assert [e1, e2][..1] == [e1] && [e1][..0] == [];
    assert (1, 1) in p;
    var x1 := Evaluation(0, status.statuses, p);
    FatalIffUnbearable(sw, x1);
    assert Bearable(sw, x1);
    assert Run(sw, none, []) == none;
    assert Run(sw, none, [e1]) == Judge(sw, none, 0, status.statuses, p);
    assert Run(sw, none, [e1]).last == Some(status.statuses);
    assert Run(sw, none, [e1, e2]) == Run(sw, none, [e1]);
    assert (1, 1) in p - {} && !Bearable(sw, Evaluation(0, status.statuses, {}));
  }
}
