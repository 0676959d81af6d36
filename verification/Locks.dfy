/** The lock hierarchy of the RPC server, and why it excludes deadlock.

    Threads run the server's code paths in any number and any interleaving. A path is
    reduced to the locks it takes and releases. */
module Locks {
  import opened Common

  datatype Lock = CancelInner(r: nat) | ConnectionInner(c: nat) | MgrInner | DispatchTable

  /** Outermost first: a lock may be taken only while every lock held has a lower rank. */
  function Rank(l: Lock): nat {
    match l
    case CancelInner(_) => 0
    case ConnectionInner(_) => 1
    case MgrInner => 2
    case DispatchTable => 3
  }

  /** The dispatch table is behind a reader-writer lock; the others are always exclusive. */
  datatype Mode = Shared | Exclusive

  datatype Instr = Acquire(l: Lock, m: Mode) | Release(l: Lock)

  /** The code paths.
      - Using: one critical section of a connection (looking up, registering or releasing
        an object, registering or unregistering a request).
      - Cancelling: `cancel_request`; `hit` is the request whose handle it found.
      - ManagerLookup: `found` is the connection that the global ID names.
      - Polling: polling a cancellable request; the method it runs takes the paths `body`
        while the request's own cell is locked. */
  datatype Path =
    | Using(c: nat)
    | Cancelling(c: nat, hit: Option<nat>)
    | ManagerLookup(found: Option<nat>)
    | OpeningConnection
    | ReadingDispatch
    | WritingDispatch
    | Polling(r: nat, body: seq<Path>)

  function Section(l: Lock, m: Mode): seq<Instr> {
    [Acquire(l, m), Release(l)]
  }

  function Compile(p: Path): (code: seq<Instr>)
    decreases p, 1
  {
    match p
    case Using(c) => Section(ConnectionInner(c), Exclusive)
    case Cancelling(c, hit) =>
      Section(ConnectionInner(c), Exclusive) +
      (if hit.Some? then Section(CancelInner(hit.value), Exclusive) else [])
    case ManagerLookup(found) =>
      Section(MgrInner, Exclusive) +
      (if found.Some? then Section(ConnectionInner(found.value), Exclusive) else [])
    case OpeningConnection => Section(MgrInner, Exclusive)
    case ReadingDispatch => Section(DispatchTable, Shared)
    case WritingDispatch => Section(DispatchTable, Exclusive)
    case Polling(r, body) =>
      [Acquire(CancelInner(r), Exclusive)] + CompileAll(body) + [Release(CancelInner(r))]
  }

  function CompileAll(ps: seq<Path>): (code: seq<Instr>)
    decreases ps, 0
  {
    if ps == [] then [] else Compile(ps[0]) + CompileAll(ps[1..])
  }

  predicate TakesNoCell(p: Path) {
    !p.Polling? && !(p.Cancelling? && p.hit.Some?)
  }

  /** No cancel handle is used, and no other cancellable request polled, under a cell's lock.
      The server ensures this by making every method that cancels uncancellable. */
  predicate Permitted(p: Path) {
    p.Polling? ==> forall i :: 0 <= i < |p.body| ==> TakesNoCell(p.body[i])
  }

  // ---- Rank discipline of a piece of code ----

  /** From `held` on, the code takes locks in increasing rank, releases only what it holds,
      and ends holding nothing. */
  predicate Ordered(held: set<Lock>, code: seq<Instr>)
    decreases |code|
  {
    if code == [] then held == {}
    else match code[0]
      case Acquire(l, _) => (forall k :: k in held ==> Rank(k) < Rank(l)) && Ordered(held + {l}, code[1..])
      case Release(l) => l in held && Ordered(held - {l}, code[1..])
  }

  lemma {:induction false} SectionOrdered(held: set<Lock>, l: Lock, m: Mode, rest: seq<Instr>)
    requires l !in held
    ensures Ordered(held, Section(l, m) + rest) <==>
            (forall k :: k in held ==> Rank(k) < Rank(l)) && Ordered(held, rest)
  {
    var code := Section(l, m) + rest;
    assert code[1..] == [Release(l)] + rest && code[1..][1..] == rest;
    assert held + {l} - {l} == held;
  }

  /** A section of a lock that is not a cell, under nothing but cells. */
  lemma {:induction false} InnerSection(held: set<Lock>, l: Lock, m: Mode, rest: seq<Instr>)
    requires !l.CancelInner? && forall k :: k in held ==> k.CancelInner?
    ensures Ordered(held, Section(l, m) + rest) <==> Ordered(held, rest)
  {
    SectionOrdered(held, l, m, rest);
  }

  lemma ConcatAssociates(a: seq<Instr>, b: seq<Instr>, c: seq<Instr>)
    ensures a + b + c == a + (b + c)
  {
  }

  lemma {:induction false} LookupOrdered(found: nat, held: set<Lock>, rest: seq<Instr>)
    requires forall k :: k in held ==> k.CancelInner?
    ensures Ordered(held, Compile(ManagerLookup(Some(found))) + rest) <==> Ordered(held, rest)
  {
    var outer, inner := Section(MgrInner, Exclusive), Section(ConnectionInner(found), Exclusive);
    InnerSection(held, ConnectionInner(found), Exclusive, rest);
    InnerSection(held, MgrInner, Exclusive, inner + rest);
    assert Compile(ManagerLookup(Some(found))) == outer + inner;
    ConcatAssociates(outer, inner, rest);
  }

  /** A path that takes no cell keeps the discipline under nothing but cells. */
  lemma {:induction false} InnerOrdered(p: Path, held: set<Lock>, rest: seq<Instr>)
    requires TakesNoCell(p) && forall k :: k in held ==> k.CancelInner?
    ensures Ordered(held, Compile(p) + rest) <==> Ordered(held, rest)
  {
    match p
    case Using(c) => InnerSection(held, ConnectionInner(c), Exclusive, rest);
    case Cancelling(c, hit) =>
      InnerSection(held, ConnectionInner(c), Exclusive, rest);
      assert Compile(p) == Section(ConnectionInner(c), Exclusive);
    case ManagerLookup(found) =>
      if found.Some? {
        LookupOrdered(found.value, held, rest);
      } else {
        InnerSection(held, MgrInner, Exclusive, rest);
        assert Compile(p) == Section(MgrInner, Exclusive);
      }
    case OpeningConnection => InnerSection(held, MgrInner, Exclusive, rest);
    case ReadingDispatch => InnerSection(held, DispatchTable, Shared, rest);
    case WritingDispatch => InnerSection(held, DispatchTable, Exclusive, rest);
  }

  lemma {:induction false} BodyOrdered(ps: seq<Path>, r: nat, rest: seq<Instr>)
    requires forall i :: 0 <= i < |ps| ==> TakesNoCell(ps[i])
    ensures Ordered({CancelInner(r)}, CompileAll(ps) + rest) <==> Ordered({CancelInner(r)}, rest)
  {
    if ps == [] {
      assert CompileAll(ps) + rest == rest;
    } else {
      BodyOrdered(ps[1..], r, rest);
      InnerOrdered(ps[0], {CancelInner(r)}, CompileAll(ps[1..]) + rest);
      ConcatAssociates(Compile(ps[0]), CompileAll(ps[1..]), rest);
    }
  }

  lemma {:induction false} BadPathUnordered(p: Path, r: nat, rest: seq<Instr>)
    requires !TakesNoCell(p)
    ensures !Ordered({CancelInner(r)}, Compile(p) + rest)
  {
    var held := {CancelInner(r)};
    assert CancelInner(r) in held;
    match p
    case Cancelling(c, hit) =>
      var inner := Section(CancelInner(hit.value), Exclusive);
      SectionOrdered(held, ConnectionInner(c), Exclusive, inner + rest);
      assert Compile(p) + rest == Section(ConnectionInner(c), Exclusive) + (inner + rest);
      assert (inner + rest)[0] == Acquire(CancelInner(hit.value), Exclusive);
    case Polling(q, body) =>
      assert (Compile(p) + rest)[0] == Acquire(CancelInner(q), Exclusive);
  }

  /** Under a cell's lock, code that goes on to take a cell breaks the discipline. */
  lemma {:induction false} BadBodyUnordered(ps: seq<Path>, r: nat, rest: seq<Instr>, i: nat)
    requires i < |ps| && !TakesNoCell(ps[i])
    requires forall j :: 0 <= j < i ==> TakesNoCell(ps[j])
    ensures !Ordered({CancelInner(r)}, CompileAll(ps) + rest)
  {
    var after := CompileAll(ps[1..]) + rest;
    assert CompileAll(ps) + rest == Compile(ps[0]) + after;
    if i > 0 {
      BadBodyUnordered(ps[1..], r, rest, i - 1);
      InnerOrdered(ps[0], {CancelInner(r)}, after);
    } else {
      BadPathUnordered(ps[0], r, after);
    }
  }

  ghost function FirstBad(ps: seq<Path>, from: nat): (i: nat)
    requires from <= |ps|
    requires forall j :: 0 <= j < from ==> TakesNoCell(ps[j])
    requires exists j :: 0 <= j < |ps| && !TakesNoCell(ps[j])
    ensures i < |ps| && !TakesNoCell(ps[i]) && forall j :: 0 <= j < i ==> TakesNoCell(ps[j])
    decreases |ps| - from
  {
    if from < |ps| && !TakesNoCell(ps[from]) then from else FirstBad(ps, from + 1)
  }

  /** A code path keeps the lock hierarchy exactly when no method running under a cell's
      lock uses a cancel handle. */
  lemma {:induction false} PathsOrderedIff(p: Path)
    ensures Ordered({}, Compile(p)) <==> Permitted(p)
  {
    assert Compile(p) + [] == Compile(p);
    match p
    case Polling(r, body) =>
      var done := [Release(CancelInner(r))];
      var code := Compile(p);
      assert code[0] == Acquire(CancelInner(r), Exclusive) && code[1..] == CompileAll(body) + done;
      assert {} + {CancelInner(r)} == {CancelInner(r)};
      assert done[1..] == [] && {CancelInner(r)} - {CancelInner(r)} == {};
      assert Ordered({CancelInner(r)}, done);
      if Permitted(p) {
        BodyOrdered(body, r, done);
      } else {
        var i := FirstBad(body, 0);
        BadBodyUnordered(body, r, done, i);
      }
    case Cancelling(c, hit) =>
      if hit.Some? {
        var inner := Section(CancelInner(hit.value), Exclusive);
        SectionOrdered({}, CancelInner(hit.value), Exclusive, []);
        SectionOrdered({}, ConnectionInner(c), Exclusive, inner);
        assert inner + [] == inner;
      } else {
        InnerOrdered(p, {}, []);
      }
    case _ => InnerOrdered(p, {}, []);
  }

  // ---- Any number of threads ----

  datatype Thread = Thread(held: map<Lock, Mode>, code: seq<Instr>)

  datatype Event = Spawn | Launch(t: nat, p: Path) | Run(t: nat)

  /** Thread `t` cannot go on because of a lock that `u` holds. */
  predicate WaitsFor(s: seq<Thread>, t: nat, u: nat) {
    && t < |s| && u < |s| && s[t].code != [] && s[t].code[0].Acquire?
    && var l := s[t].code[0].l;
       l in s[u].held && (t == u || s[t].code[0].m.Exclusive? || s[u].held[l].Exclusive?)
  }

  ghost predicate CanRun(s: seq<Thread>, t: nat) {
    t < |s| && s[t].code != [] && forall u: nat :: !WaitsFor(s, t, u)
  }

  function Execute(th: Thread): Thread
    requires th.code != []
  {
    match th.code[0]
    case Acquire(l, m) => Thread(th.held[l := m], th.code[1..])
    case Release(l) => Thread(th.held - {l}, th.code[1..])
  }

  /** An idle thread may start any code path; a thread that waits stays where it is. */
  ghost function Step(s: seq<Thread>, e: Event): seq<Thread> {
    match e
    case Spawn => s + [Thread(map[], [])]
    case Launch(t, p) => if t < |s| && s[t].code == [] then s[t := s[t].(code := Compile(p))] else s
    case Run(t) => if CanRun(s, t) then s[t := Execute(s[t])] else s
  }

  ghost function Exec(s: seq<Thread>, es: seq<Event>): seq<Thread> {
    if es == [] then s else Step(Exec(s, es[..|es| - 1]), es[|es| - 1])
  }

  predicate AllPermitted(es: seq<Event>) {
    forall i :: 0 <= i < |es| && es[i].Launch? ==> Permitted(es[i].p)
  }

  predicate Disciplined(s: seq<Thread>) {
    forall t :: 0 <= t < |s| ==> Ordered(s[t].held.Keys, s[t].code)
  }

  lemma {:induction false} StepDisciplined(s: seq<Thread>, e: Event)
    requires Disciplined(s) && (e.Launch? ==> Permitted(e.p))
    ensures Disciplined(Step(s, e))
  {
    match e
    case Spawn =>
    case Launch(t, p) =>
      if t < |s| && s[t].code == [] {
        PathsOrderedIff(p);
        assert Ordered(s[t].held.Keys, s[t].code);
      }
    case Run(t) =>
      if CanRun(s, t) {
        var th := s[t];
        assert Ordered(th.held.Keys, th.code);
        match th.code[0]
        case Acquire(l, m) => assert th.held[l := m].Keys == th.held.Keys + {l};
        case Release(l) => assert (th.held - {l}).Keys == th.held.Keys - {l};
      }
  }

  lemma {:induction false} ExecDisciplined(es: seq<Event>)
    requires AllPermitted(es)
    ensures Disciplined(Exec([], es))
  {
    if es != [] {
      ExecDisciplined(es[..|es| - 1]);
      StepDisciplined(Exec([], es[..|es| - 1]), es[|es| - 1]);
    }
  }

  function WaitRank(s: seq<Thread>, t: nat): nat
    requires t < |s| && s[t].code != [] && s[t].code[0].Acquire?
  {
    Rank(s[t].code[0].l)
  }

  /** Whoever is waited for is either running or waits for a lock of higher rank. */
  lemma {:induction false} WaitingClimbs(s: seq<Thread>, t: nat, u: nat)
    requires Disciplined(s) && WaitsFor(s, t, u)
    ensures s[u].code != []
    ensures s[u].code[0].Acquire? ==> WaitRank(s, t) < WaitRank(s, u)
  {
    assert Ordered(s[u].held.Keys, s[u].code);
    assert s[t].code[0].l in s[u].held.Keys;
  }

  /** Each thread of the chain waits for the next. */
  predicate WaitChain(s: seq<Thread>, ts: seq<nat>) {
    forall i :: 0 <= i < |ts| - 1 ==> WaitsFor(s, ts[i], ts[i + 1])
  }

  lemma {:induction false} ChainClimbs(s: seq<Thread>, ts: seq<nat>)
    requires Disciplined(s) && |ts| >= 2 && WaitChain(s, ts)
    requires ts[|ts| - 1] < |s| && s[ts[|ts| - 1]].code != [] && s[ts[|ts| - 1]].code[0].Acquire?
    ensures WaitsFor(s, ts[0], ts[1]) && WaitRank(s, ts[0]) < WaitRank(s, ts[|ts| - 1])
  {
    assert WaitsFor(s, ts[0], ts[1]);
    WaitingClimbs(s, ts[0], ts[1]);
    if |ts| > 2 {
      var rest := ts[1..];
      assert WaitChain(s, rest) by {
        forall i | 0 <= i < |rest| - 1 ensures WaitsFor(s, rest[i], rest[i + 1]) {
          assert WaitsFor(s, ts[i + 1], ts[i + 2]);
        }
      }
      ChainClimbs(s, rest);
    }
  }

  /** In no reachable state do threads wait for each other in a circle. */
  lemma {:induction false} NoWaitCycle(es: seq<Event>, ts: seq<nat>)
    requires AllPermitted(es) && |ts| >= 2 && ts[0] == ts[|ts| - 1]
    ensures !WaitChain(Exec([], es), ts)
  {
    ExecDisciplined(es);
    var s := Exec([], es);
    if WaitChain(s, ts) {
      assert WaitsFor(s, ts[0], ts[1]);
      ChainClimbs(s, ts);
    }
  }

  /** Every unfinished thread can run now or waits, through others, for one that can. */
  lemma {:induction false} SomeoneCanRun(s: seq<Thread>, t: nat) returns (ts: seq<nat>)
    requires Disciplined(s) && t < |s| && s[t].code != []
    ensures |ts| >= 1 && ts[0] == t && WaitChain(s, ts) && CanRun(s, ts[|ts| - 1])
    decreases if s[t].code[0].Acquire? then 4 - WaitRank(s, t) else 0
  {
    if CanRun(s, t) {
      ts := [t];
    } else {
      var u: nat :| WaitsFor(s, t, u);
      WaitingClimbs(s, t, u);
      var rest := SomeoneCanRun(s, u);
      ts := [t] + rest;
      forall i | 0 <= i < |ts| - 1 ensures WaitsFor(s, ts[i], ts[i + 1]) {
        if i > 0 {
          assert WaitsFor(s, rest[i - 1], rest[i]);
        }
      }
    }
  }

  /** The server never deadlocks: in every reachable state each unfinished thread depends,
      in the end, on one that can take a step. */
  lemma {:induction false} DeadlockFree(es: seq<Event>, t: nat)
    requires AllPermitted(es) && t < |Exec([], es)| && Exec([], es)[t].code != []
    ensures exists ts: seq<nat> ::
              |ts| >= 1 && ts[0] == t && WaitChain(Exec([], es), ts) && CanRun(Exec([], es), ts[|ts| - 1])
  {
    ExecDisciplined(es);
    var ts := SomeoneCanRun(Exec([], es), t);
  }

  lemma {:induction false} ExecConcat(s: seq<Thread>, es: seq<Event>, more: seq<Event>)
    ensures Exec(s, es + more) == Exec(Exec(s, es), more)
  {
    if more == [] {
      assert es + more == es;
    } else {
      ExecConcat(s, es, more[..|more| - 1]);
      assert (es + more)[..|es + more| - 1] == es + more[..|more| - 1];
    }
  }

  // ---- Exclusion ----

  /** A lock that two threads hold at once is held shared by both. */
  predicate Exclusion(s: seq<Thread>) {
    forall t, u, l :: 0 <= t < |s| && 0 <= u < |s| && t != u && l in s[t].held && l in s[u].held ==>
      s[t].held[l].Shared?
  }

  lemma RunExcludes(s: seq<Thread>, t: nat)
    requires Exclusion(s) && CanRun(s, t)
    ensures Exclusion(s[t := Execute(s[t])])
  {
    var n := s[t := Execute(s[t])];
    forall a, b, l | 0 <= a < |n| && 0 <= b < |n| && a != b && l in n[a].held && l in n[b].held
      ensures n[a].held[l].Shared?
    {
      assert !WaitsFor(s, t, a) && !WaitsFor(s, t, b);
    }
  }

  lemma {:induction false} ExecExcludes(es: seq<Event>)
    ensures Exclusion(Exec([], es))
  {
    if es != [] {
      var s, e := Exec([], es[..|es| - 1]), es[|es| - 1];
      ExecExcludes(es[..|es| - 1]);
      if e.Run? && CanRun(s, e.t) {
        RunExcludes(s, e.t);
      }
    }
  }

  predicate SharesOnlyDispatch(code: seq<Instr>) {
    forall i :: 0 <= i < |code| && code[i].Acquire? && code[i].m.Shared? ==> code[i].l.DispatchTable?
  }

  lemma {:induction false} CompileShares(p: Path)
    ensures SharesOnlyDispatch(Compile(p))
    decreases p, 1
  {
    if p.Polling? {
      CompileAllShares(p.body);
    }
  }

  lemma {:induction false} CompileAllShares(ps: seq<Path>)
    ensures SharesOnlyDispatch(CompileAll(ps))
    decreases ps, 0
  {
    if ps != [] {
      CompileShares(ps[0]);
      CompileAllShares(ps[1..]);
    }
  }

  predicate ThreadShares(th: Thread) {
    SharesOnlyDispatch(th.code) && forall l :: l in th.held && th.held[l].Shared? ==> l.DispatchTable?
  }

  lemma {:induction false} ExecShares(es: seq<Event>)
    ensures forall t :: 0 <= t < |Exec([], es)| ==> ThreadShares(Exec([], es)[t])
  {
    if es != [] {
      ExecShares(es[..|es| - 1]);
      var s, e := Exec([], es[..|es| - 1]), es[|es| - 1];
      if e.Launch? {
        CompileShares(e.p);
      } else if e.Run? && CanRun(s, e.t) {
        assert ThreadShares(s[e.t]);
      }
    }
  }

  predicate Holds(s: seq<Thread>, u: nat, l: Lock) {
    u < |s| && l in s[u].held
  }

  /** In every run, whatever paths the threads take: two of them hold a lock at once only if it
      is the dispatch table's, and then both hold it shared. */
  lemma MutualExclusion(es: seq<Event>, t: nat, u: nat, l: Lock)
    requires t != u && Holds(Exec([], es), t, l) && Holds(Exec([], es), u, l)
    ensures l == DispatchTable && Exec([], es)[t].held[l].Shared? && Exec([], es)[u].held[l].Shared?
  {
    ExecExcludes(es);
    ExecShares(es);
    assert ThreadShares(Exec([], es)[t]);
  }

  /** A thread may begin to read the dispatch table exactly if nobody writes it, and to write it
      exactly if nobody uses it. */
  lemma {:induction false} DispatchOpenIff(es: seq<Event>, t: nat)
    requires AllPermitted(es) && t < |Exec([], es)| && Exec([], es)[t].code == []
    ensures var s := Exec([], es);
            && (CanRun(Step(s, Launch(t, ReadingDispatch)), t) <==>
                forall u: nat :: Holds(s, u, DispatchTable) ==> s[u].held[DispatchTable].Shared?)
            && (CanRun(Step(s, Launch(t, WritingDispatch)), t) <==>
                forall u: nat :: !Holds(s, u, DispatchTable))
  {
    var s := Exec([], es);
    ExecDisciplined(es);
    assert Ordered(s[t].held.Keys, s[t].code);
    forall p | p == ReadingDispatch || p == WritingDispatch
      ensures CanRun(Step(s, Launch(t, p)), t) <==>
              forall u: nat :: Holds(s, u, DispatchTable) ==> p.ReadingDispatch? && s[u].held[DispatchTable].Shared?
    {
      var n := Step(s, Launch(t, p));
      forall u: nat
        ensures WaitsFor(n, t, u) <==>
                Holds(s, u, DispatchTable) && !(p.ReadingDispatch? && s[u].held[DispatchTable].Shared?)
      {
      }
    }
  }

  lemma {:induction false} PausedStays(s: seq<Thread>, t: nat, more: seq<Event>)
    requires t < |s| && s[t].code != [] && Run(t) !in more
    ensures t < |Exec(s, more)| && Exec(s, more)[t] == s[t]
  {
    if more != [] {
      PausedStays(s, t, more[..|more| - 1]);
    }
  }

  lemma {:induction false} WriterEnters(s: seq<Thread>, t: nat)
    requires t < |s| && s[t].code == [] && CanRun(Step(s, Launch(t, WritingDispatch)), t)
    ensures var n := Exec(s, [Launch(t, WritingDispatch), Run(t)]);
            t < |n| && Holds(n, t, DispatchTable) && n[t].held[DispatchTable].Exclusive? && n[t].code != []
  {
    var es := [Launch(t, WritingDispatch), Run(t)];
    assert es[..1][..0] == [];
    assert Exec(s, es[..1]) == Step(s, es[0]);
    assert es[..|es| - 1] == es[..1];
  }

  /** Until it lets go of it, a thread that has begun to write the dispatch table is the only one
      to use it, whatever the others do. */
  lemma {:induction false} WriterIsAlone(es: seq<Event>, t: nat, more: seq<Event>, u: nat)
    requires t < |Exec([], es)| && Exec([], es)[t].code == [] && t != u
    requires CanRun(Step(Exec([], es), Launch(t, WritingDispatch)), t) && Run(t) !in more
    ensures !Holds(Exec([], es + [Launch(t, WritingDispatch), Run(t)] + more), u, DispatchTable)
  {
    var enter := [Launch(t, WritingDispatch), Run(t)];
    WriterEnters(Exec([], es), t);
    ExecConcat([], es, enter);
    ExecConcat([], es + enter, more);
    PausedStays(Exec([], es + enter), t, more);
    ExecExcludes(es + enter + more);
  }

  // ---- Why methods that cancel must be uncancellable ----

  /** A request that cancels itself while it is being polled. */
  function SelfCancel(c: nat, r: nat): Path {
    Polling(r, [Cancelling(c, Some(r))])
  }

  function StuckThread(c: nat, r: nat): Thread {
    Thread(map[CancelInner(r) := Exclusive],
           [Acquire(CancelInner(r), Exclusive), Release(CancelInner(r)), Release(CancelInner(r))])
  }

  lemma {:induction false} SelfCancelCode(c: nat, r: nat)
    ensures Compile(SelfCancel(c, r)) ==
            [Acquire(CancelInner(r), Exclusive), Acquire(ConnectionInner(c), Exclusive),
             Release(ConnectionInner(c)), Acquire(CancelInner(r), Exclusive),
             Release(CancelInner(r)), Release(CancelInner(r))]
  {
    var body := [Cancelling(c, Some(r))];
    assert body[1..] == [];
    assert CompileAll(body) == Compile(body[0]);
  }

  /** A thread that waits for itself never moves again, whatever other threads do. */
  lemma {:induction false} StuckStays(s: seq<Thread>, t: nat, more: seq<Event>)
    requires WaitsFor(s, t, t)
    ensures t < |Exec(s, more)| && Exec(s, more)[t] == s[t] && WaitsFor(Exec(s, more), t, t)
  {
    if more != [] {
      StuckStays(s, t, more[..|more| - 1]);
    }
  }

  lemma {:induction false} SelfCancelRun(c: nat, r: nat)
    ensures Exec([], [Spawn, Launch(0, SelfCancel(c, r)), Run(0), Run(0), Run(0)]) == [StuckThread(c, r)]
  {
    var es := [Spawn, Launch(0, SelfCancel(c, r)), Run(0), Run(0), Run(0)];
    var code := Compile(SelfCancel(c, r));
    SelfCancelCode(c, r);
    var s1 := [Thread(map[], [])];
    var s2 := [Thread(map[], code)];
    var s3 := [Thread(map[CancelInner(r) := Exclusive], code[1..])];
    var s4 := [Thread(map[CancelInner(r) := Exclusive, ConnectionInner(c) := Exclusive], code[2..])];
    assert Exec([], es[..1]) == s1 by { assert es[..1][..0] == []; }
    assert Exec([], es[..2]) == s2 by { assert es[..2][..1] == es[..1]; }
    assert Exec([], es[..3]) == s3 by { assert es[..3][..2] == es[..2]; assert CanRun(s2, 0); }
    assert Exec([], es[..4]) == s4 by { assert es[..4][..3] == es[..3]; assert CanRun(s3, 0); }
    assert es[..|es| - 1] == es[..4];
    assert CanRun(s4, 0);
    assert s4[0].held - {ConnectionInner(c)} == StuckThread(c, r).held;
  }

  /** A request that cancels itself locks its thread out for ever, whatever other threads are
      spawned and whatever they do. */
  lemma {:induction false} SelfCancelDeadlocks(c: nat, r: nat, more: seq<Event>)
    ensures var s := Exec([], [Spawn, Launch(0, SelfCancel(c, r)), Run(0), Run(0), Run(0)] + more);
            s != [] && s[0] == StuckThread(c, r) && WaitsFor(s, 0, 0)
  {
    var es := [Spawn, Launch(0, SelfCancel(c, r)), Run(0), Run(0), Run(0)];
    SelfCancelRun(c, r);
    ExecConcat([], es, more);
    assert WaitsFor([StuckThread(c, r)], 0, 0);
    StuckStays([StuckThread(c, r)], 0, more);
  }
}
