/** Looking up a global ID from outside takes two critical sections: under the manager's lock the
    connection is found and a strong reference to it taken; then, under the connection's own
    lock, its table is read. Anything may happen in between. */
module LookupSpec {
  import opened Common
  import opened ObjectIds
  import opened ManagerSpec
  import Cap = Capabilities

  /** None stands for the panic on a poisoned lock. */
  type Answer = Option<Result<(nat, Cap.Object), LookupError>>

  /** A lookup that holds connection `c`, or one that has its answer. */
  datatype Look = Held(id: ObjectId, g: GlobalId, c: nat) | Answered(id: ObjectId, answer: Answer)

  /** The first critical section. */
  function FindConnection(mac: MacFn, m: Mgr, id: ObjectId): Look {
    match DecodeGlobal(mac, id)
    case Err(e) => Answered(id, Some(Err(e)))
    case Ok(None) => Answered(id, Some(Err(NoObject(id))))
    case Ok(Some(g)) =>
      if m.poisoned then Answered(id, None)
      else match Find(m, g.connection)
        case None => Answered(id, Some(Err(NoObject(id))))
        case Some(c) => Held(id, g, c)
  }

  /** The second one; it does not touch the manager's lock. */
  function ReadTable(m: Mgr, look: Look): Answer
    requires look.Held? ==> look.c < |m.conns|
  {
    match look
    case Answered(_, answer) => answer
    case Held(id, g, c) =>
      match Cap.LookupIdx(m.conns[c].table, g.local)
      case None => Some(Err(NoObject(id)))
      case Some(o) => Some(Ok((c, o)))
  }

  /** Without anything in between, the two sections are the lookup in one state. */
  lemma TwoSectionsAreLookup(mac: MacFn, m: Mgr, id: ObjectId)
    ensures var look := FindConnection(mac, m, id);
            && (look.Held? ==> look.c < |m.conns|)
            && ReadTable(m, look) == Lookup(mac, m, id)
  {
  }

  // ---- Runs ----

  /** `began` and `ended` are the numbers of the events at which it did. */
  datatype Job = Job(look: Look, began: nat, ended: nat)

  datatype State = State(m: Mgr, jobs: seq<Job>, now: nat)

  const Init := State(NewMgr, [], 0)

  datatype Event = Other(e: ManagerSpec.Event) | FindStep(id: ObjectId) | ReadStep(j: nat)

  /** Some lookup holds a strong reference to the connection. */
  predicate IsHeld(jobs: seq<Job>, c: nat) {
    exists j :: 0 <= j < |jobs| && jobs[j].look.Held? && jobs[j].look.c == c
  }

  /** A connection that a lookup holds is not dropped. */
  function Next(mac: MacFn, s: State, e: Event): State {
    match e
    case Other(x) =>
      if x.Drop? && IsHeld(s.jobs, x.c) then s.(now := s.now + 1)
      else s.(m := ManagerSpec.Step(mac, s.m, x), now := s.now + 1)
    case FindStep(id) =>
      s.(jobs := s.jobs + [Job(FindConnection(mac, s.m, id), s.now, s.now)], now := s.now + 1)
    case ReadStep(j) =>
      if j < |s.jobs| && s.jobs[j].look.Held? && s.jobs[j].look.c < |s.m.conns| then
        var look := s.jobs[j].look;
        s.(jobs := s.jobs[j := Job(Answered(look.id, ReadTable(s.m, look)), s.jobs[j].began, s.now)], now := s.now + 1)
      else s.(now := s.now + 1)
  }

  function Run(mac: MacFn, es: seq<Event>): State {
    if es == [] then Init else Next(mac, Run(mac, es[..|es| - 1]), es[|es| - 1])
  }

  // ---- What every step keeps ----

  /** A held connection is live and is the one that the ID names. */
  predicate HoldsRight(mac: MacFn, m: Mgr, look: Look) {
    look.Held? ==>
      && DecodeGlobal(mac, look.id) == Ok(Some(look.g))
      && IsLive(m, look.c) && m.conns[look.c].table.id == look.g.connection
  }

  ghost predicate Inv(mac: MacFn, s: State) {
    MgrInv(s.m) && forall j :: 0 <= j < |s.jobs| ==> HoldsRight(mac, s.m, s.jobs[j].look) && s.jobs[j].began < s.now
  }

  lemma FindHoldsRight(mac: MacFn, m: Mgr, id: ObjectId)
    requires MgrInv(m)
    ensures HoldsRight(mac, m, FindConnection(mac, m, id))
  {
  }

  lemma StepHoldsRight(mac: MacFn, m: Mgr, x: ManagerSpec.Event, look: Look)
    requires MgrInv(m) && HoldsRight(mac, m, look) && look.Held? && x != Drop(look.c)
    ensures HoldsRight(mac, ManagerSpec.Step(mac, m, x), look)
  {
    StepOnTable(mac, m, x, look.c);
    assert ConnOk(m, look.c);
    if x.On? {
      Cap.ApplyKeeps(mac, m.conns[look.c].table, x.op);
    }
  }

  lemma NextKeeps(mac: MacFn, s: State, e: Event)
    requires Inv(mac, s)
    ensures Inv(mac, Next(mac, s, e))
  {
    var n := Next(mac, s, e);
    if e.Other? {
      StepKeepsMgr(mac, s.m, e.e);
    }
    forall j | 0 <= j < |n.jobs| ensures HoldsRight(mac, n.m, n.jobs[j].look) {
      assert j < |s.jobs| ==> HoldsRight(mac, s.m, s.jobs[j].look);
      if e.FindStep? && j == |s.jobs| {
        FindHoldsRight(mac, s.m, e.id);
      } else if n.m != s.m && n.jobs[j].look.Held? {
        StepHoldsRight(mac, s.m, e.e, n.jobs[j].look);
      }
    }
  }

  lemma {:induction false} RunKeeps(mac: MacFn, es: seq<Event>)
    ensures Inv(mac, Run(mac, es)) && Run(mac, es).now == |es|
  {
    if es != [] {
      RunKeeps(mac, es[..|es| - 1]);
      NextKeeps(mac, Run(mac, es[..|es| - 1]), es[|es| - 1]);
    }
  }

  // ---- The answer is right in the state in which it is given ----

  /** The answer that the manager's state `m` calls for: object `o` of connection `c` exactly if
      the ID is a valid global ID that names `c`, `c` is live, and `c`'s own lookup finds `o`. */
  ghost predicate RightIn(mac: MacFn, m: Mgr, id: ObjectId, answer: Answer) {
    forall c: nat, o :: answer == Some(Ok((c, o))) <==> FoundIn(mac, m, id, c, o)
  }

  lemma LookupIsRight(mac: MacFn, m: Mgr, id: ObjectId)
    requires MgrInv(m) && !m.poisoned
    ensures RightIn(mac, m, id, Lookup(mac, m, id))
  {
    forall c: nat, o ensures Lookup(mac, m, id) == Some(Ok((c, o))) <==> FoundIn(mac, m, id, c, o) {
      LookupsAgreeIn(mac, m, id, c, o);
    }
  }

  /** The second section gives what the lookup in one state would give at that very moment. */
  lemma ReadIsLookup(mac: MacFn, m: Mgr, look: Look)
    requires MgrInv(m) && !m.poisoned && look.Held? && HoldsRight(mac, m, look)
    ensures ReadTable(m, look) == Lookup(mac, m, look.id)
  {
    assert ConnOk(m, look.c);
  }

  ghost predicate RightAt(mac: MacFn, m: Mgr, look: Look)
    requires look.Answered?
  {
    if m.poisoned then forall c: nat, o :: look.answer == Some(Ok((c, o))) ==> FoundIn(mac, m, look.id, c, o)
    else look.answer == Lookup(mac, m, look.id) && RightIn(mac, m, look.id, look.answer)
  }

  /** The lookup has its answer: it was given at an event between the beginning and now, and it
      is right in the state at that event. If the manager's lock was poisoned by then, the
      lookup may have panicked, but an object that it gave is right. */
  ghost predicate AnsweredRight(mac: MacFn, es: seq<Event>, job: Job) {
    job.look.Answered? ==>
      && job.began <= job.ended < |es|
      && RightAt(mac, Run(mac, es[..job.ended]).m, job.look)
  }

  lemma FirstSectionRight(mac: MacFn, m: Mgr, id: ObjectId)
    requires MgrInv(m) && FindConnection(mac, m, id).Answered?
    ensures RightAt(mac, m, FindConnection(mac, m, id))
  {
    if !m.poisoned {
      LookupIsRight(mac, m, id);
    }
  }

  lemma SecondSectionRight(mac: MacFn, m: Mgr, look: Look)
    requires MgrInv(m) && look.Held? && HoldsRight(mac, m, look)
    ensures RightAt(mac, m, Answered(look.id, ReadTable(m, look)))
  {
    NameSpacesDisjoint(mac, look.id);
    if !m.poisoned {
      ReadIsLookup(mac, m, look);
      LookupIsRight(mac, m, look.id);
    }
  }

  lemma AnswerStays(mac: MacFn, es: seq<Event>, job: Job)
    requires es != [] && AnsweredRight(mac, es[..|es| - 1], job)
    ensures AnsweredRight(mac, es, job)
  {
    if job.look.Answered? {
      assert es[..|es| - 1][..job.ended] == es[..job.ended];
    }
  }

  /** What one event does to a lookup: nothing, or it gives the answer, rightly. */
  lemma NextJob(mac: MacFn, s: State, e: Event, j: nat)
    requires Inv(mac, s) && j < |Next(mac, s, e).jobs|
    ensures var job := Next(mac, s, e).jobs[j];
            || (j < |s.jobs| && job == s.jobs[j])
            || job.look.Held?
            || (job.began <= job.ended == s.now && RightAt(mac, s.m, job.look))
  {
    if e.ReadStep? && j < |s.jobs| {
      assert HoldsRight(mac, s.m, s.jobs[j].look);
      if s.jobs[j].look.Held? {
        SecondSectionRight(mac, s.m, s.jobs[j].look);
      }
    } else if e.FindStep? && FindConnection(mac, s.m, e.id).Answered? {
      FirstSectionRight(mac, s.m, e.id);
    }
  }

  /** In every run, with anything happening between the two sections, each finished lookup gave
      the answer that was right at some moment between its beginning and its end: that of its
      second section, or of its first if that already settled it. */
  lemma {:induction false} LookupsAreRight(mac: MacFn, es: seq<Event>, j: nat)
    requires j < |Run(mac, es).jobs|
    ensures AnsweredRight(mac, es, Run(mac, es).jobs[j])
  {
    var front := es[..|es| - 1];
    var s, job := Run(mac, front), Run(mac, es).jobs[j];
    RunKeeps(mac, front);
    NextJob(mac, s, es[|es| - 1], j);
    if j < |s.jobs| && job == s.jobs[j] {
      LookupsAreRight(mac, front, j);
      AnswerStays(mac, es, job);
    }
  }
}
