/** The RPC manager: all connections it has made, and the weak index from connection IDs to
    connections that lets global object IDs be used from outside a connection. */
module ManagerSpec {
  import opened Common
  import opened SlotMap
  import opened ObjectIds
  import Cap = Capabilities

  /** A connection stays in `conns` after it has been dropped, but is no longer live. */
  datatype Conn = Conn(table: Cap.Table, live: bool)

  /** `poisoned`: some thread panicked while it held the manager's lock. */
  datatype Mgr = Mgr(conns: seq<Conn>, index: map<ConnectionId, nat>, poisoned: bool)

  const NewMgr := Mgr([], map[], false)

  predicate IsLive(m: Mgr, c: nat) {
    c < |m.conns| && m.conns[c].live
  }

  /** A weak entry counts only while its connection is live. */
  function Find(m: Mgr, id: ConnectionId): Option<nat> {
    if id in m.index && IsLive(m, m.index[id]) then Some(m.index[id]) else None
  }

  /** The ID is random. If a live connection already has it, the code panics after replacing
      the entry; the lock is then poisoned and the new connection is dropped. */
  function NewConnection(m: Mgr, id: ConnectionId): (r: (Mgr, Option<nat>)) {
    if m.poisoned then (m, None)
    else
      var c := |m.conns|;
      if Find(m, id).Some? then
        (Mgr(m.conns + [Conn(Cap.NewTable(id), false)], m.index[id := c], true), None)
      else
        (Mgr(m.conns + [Conn(Cap.NewTable(id), true)], m.index[id := c], false), Some(c))
  }

  /** None stands for the panic on a poisoned lock. */
  function Lookup(mac: MacFn, m: Mgr, id: ObjectId): (r: Option<Result<(nat, Cap.Object), LookupError>>) {
    match DecodeGlobal(mac, id)
    case Err(e) => Some(Err(e))
    case Ok(None) => Some(Err(NoObject(id)))
    case Ok(Some(g)) =>
      if m.poisoned then None
      else match Find(m, g.connection)
        case None => Some(Err(NoObject(id)))
        case Some(c) =>
          match Cap.LookupIdx(m.conns[c].table, g.local)
          case None => Some(Err(NoObject(id)))
          case Some(o) => Some(Ok((c, o)))
  }

  datatype Event = Open(id: ConnectionId) | Drop(c: nat) | On(c: nat, op: Cap.Op)

  function Step(mac: MacFn, m: Mgr, e: Event): Mgr {
    match e
    case Open(id) => NewConnection(m, id).0
    case Drop(c) => if IsLive(m, c) then m.(conns := m.conns[c := m.conns[c].(live := false)]) else m
    case On(c, op) =>
      if IsLive(m, c) then
        m.(conns := m.conns[c := m.conns[c].(table := Cap.Apply(mac, m.conns[c].table, op))])
      else m
  }

  function Exec(mac: MacFn, m: Mgr, es: seq<Event>): Mgr {
    if es == [] then m else Step(mac, Exec(mac, m, es[..|es| - 1]), es[|es| - 1])
  }

  // ---- Invariant ----

  ghost predicate ConnOk(m: Mgr, c: nat)
    requires c < |m.conns|
  {
    && Cap.TableOk(m.conns[c].table)
    && (m.conns[c].live && !m.poisoned ==> Find(m, m.conns[c].table.id) == Some(c))
  }

  /** Live connections have different IDs. This holds even after a collision, since the newcomer
      is dropped. */
  predicate LiveApart(m: Mgr) {
    forall c, d :: 0 <= c < |m.conns| && 0 <= d < |m.conns| && m.conns[c].live && m.conns[d].live ==>
      c == d || m.conns[c].table.id != m.conns[d].table.id
  }

  ghost predicate MgrInv(m: Mgr) {
    && (forall id :: id in m.index ==> m.index[id] < |m.conns| && m.conns[m.index[id]].table.id == id)
    && (forall c :: 0 <= c < |m.conns| ==> ConnOk(m, c))
    && LiveApart(m)
  }

  /** A connection that is opened live has an ID that no live one has. */
  lemma OpenStaysApart(m: Mgr, id: ConnectionId)
    requires MgrInv(m)
    ensures LiveApart(NewConnection(m, id).0)
  {
    if !m.poisoned && Find(m, id).None? {
      forall c | 0 <= c < |m.conns| && m.conns[c].live ensures m.conns[c].table.id != id {
        assert ConnOk(m, c);
      }
    }
  }

  lemma OpenKeeps(mac: MacFn, m: Mgr, id: ConnectionId)
    requires MgrInv(m)
    ensures MgrInv(Step(mac, m, Open(id)))
  {
    OpenStaysApart(m, id);
    var n := NewConnection(m, id).0;
    if !m.poisoned {
      forall c | 0 <= c < |n.conns| ensures ConnOk(n, c) {
        if c < |m.conns| {
          assert ConnOk(m, c);
        }
      }
    }
  }

  lemma DropKeeps(mac: MacFn, m: Mgr, d: nat)
    requires MgrInv(m)
    ensures MgrInv(Step(mac, m, Drop(d)))
  {
    var n := Step(mac, m, Drop(d));
    forall c | 0 <= c < |n.conns| ensures ConnOk(n, c) {
      assert ConnOk(m, c);
    }
  }

  lemma TouchKeeps(mac: MacFn, m: Mgr, d: nat, op: Cap.Op)
    requires MgrInv(m) && IsLive(m, d) && Cap.TableOk(m.conns[d].table)
    ensures MgrInv(m.(conns := m.conns[d := m.conns[d].(table := Cap.Apply(mac, m.conns[d].table, op))]))
  {
    var t := Cap.Apply(mac, m.conns[d].table, op);
    Cap.ApplyKeeps(mac, m.conns[d].table, op);
    var n := m.(conns := m.conns[d := m.conns[d].(table := t)]);
    forall c | 0 <= c < |n.conns| ensures ConnOk(n, c) {
      assert ConnOk(m, c);
    }
  }

  lemma OnKeeps(mac: MacFn, m: Mgr, d: nat, op: Cap.Op)
    requires MgrInv(m)
    ensures MgrInv(Step(mac, m, On(d, op)))
  {
    if IsLive(m, d) {
      assert ConnOk(m, d);
      TouchKeeps(mac, m, d, op);
    }
  }

  lemma StepKeepsMgr(mac: MacFn, m: Mgr, e: Event)
    requires MgrInv(m)
    ensures MgrInv(Step(mac, m, e))
  {
    match e
    case Open(id) => OpenKeeps(mac, m, id);
    case Drop(c) => DropKeeps(mac, m, c);
    case On(c, op) => OnKeeps(mac, m, c, op);
  }

  lemma {:induction false} ExecKeeps(mac: MacFn, m: Mgr, es: seq<Event>)
    requires MgrInv(m)
    ensures MgrInv(Exec(mac, m, es))
  {
    if es != [] {
      ExecKeeps(mac, m, es[..|es| - 1]);
      StepKeepsMgr(mac, Exec(mac, m, es[..|es| - 1]), es[|es| - 1]);
    }
  }

  // ---- The two lookups agree ----

  /** The ID is a valid global ID that names `c`, `c` is live, and `c`'s own lookup finds `o`. */
  predicate FoundIn(mac: MacFn, m: Mgr, id: ObjectId, c: nat, o: Cap.Object) {
    && DecodeGlobal(mac, id).Ok? && DecodeGlobal(mac, id).value.Some?
    && IsLive(m, c) && m.conns[c].table.id == DecodeGlobal(mac, id).value.value.connection
    && Cap.Lookup(mac, m.conns[c].table, id) == Ok(Cap.Ref(o))
  }

  lemma LookupsAgreeIn(mac: MacFn, m: Mgr, id: ObjectId, c: nat, o: Cap.Object)
    requires MgrInv(m)
    ensures Lookup(mac, m, id) == Some(Ok((c, o))) <==> !m.poisoned && FoundIn(mac, m, id, c, o)
  {
    NameSpacesDisjoint(mac, id);
    if IsLive(m, c) {
      assert ConnOk(m, c);
    }
  }

  /** In every reachable state the manager finds object `o` on connection `c` exactly when
      the ID is a valid global ID naming `c`, which is live, `c`'s own lookup finds `o`, and
      the manager's lock can be taken. */
  lemma LookupsAgree(mac: MacFn, es: seq<Event>, id: ObjectId, c: nat, o: Cap.Object)
    ensures var m := Exec(mac, NewMgr, es);
            Lookup(mac, m, id) == Some(Ok((c, o))) <==> !m.poisoned && FoundIn(mac, m, id, c, o)
  {
    ExecKeeps(mac, NewMgr, es);
    LookupsAgreeIn(mac, Exec(mac, NewMgr, es), id, c, o);
  }

  /** In every reachable state, also after a collision of connection IDs, no live connection
      resolves a global ID that belongs to another. */
  lemma ForeignGlobalIdsFail(mac: MacFn, es: seq<Event>, id: ObjectId, c: nat, d: nat)
    requires c != d && IsLive(Exec(mac, NewMgr, es), c) && IsLive(Exec(mac, NewMgr, es), d)
    requires DecodeGlobal(mac, id).Ok? && DecodeGlobal(mac, id).value.Some?
    requires DecodeGlobal(mac, id).value.value.connection == Exec(mac, NewMgr, es).conns[c].table.id
    ensures Cap.Lookup(mac, Exec(mac, NewMgr, es).conns[d].table, id) == Err(NoObject(id))
  {
    ExecKeeps(mac, NewMgr, es);
    NameSpacesDisjoint(mac, id);
    assert LiveApart(Exec(mac, NewMgr, es));
  }

  /** Event `k` draws the ID of a live connection while the lock is still good. */
  predicate CollidesAt(mac: MacFn, m: Mgr, es: seq<Event>, k: nat) {
    && k < |es| && es[k].Open?
    && Find(Exec(mac, m, es[..k]), es[k].id).Some? && !Exec(mac, m, es[..k]).poisoned
  }

  lemma {:induction false} PoisonStays(mac: MacFn, m: Mgr, es: seq<Event>, k: nat)
    requires k <= |es| && Exec(mac, m, es[..k]).poisoned
    ensures Exec(mac, m, es).poisoned
  {
    if k < |es| {
      assert es[..|es| - 1][..k] == es[..k];
      PoisonStays(mac, m, es[..|es| - 1], k);
    } else {
      assert es[..k] == es;
    }
  }

  lemma {:induction false} PoisonHasCollision(mac: MacFn, m: Mgr, es: seq<Event>) returns (k: nat)
    requires !m.poisoned && Exec(mac, m, es).poisoned
    ensures CollidesAt(mac, m, es, k)
  {
    var front := es[..|es| - 1];
    if Exec(mac, m, front).poisoned {
      k := PoisonHasCollision(mac, m, front);
      assert front[..k] == es[..k];
    } else {
      k := |front|;
    }
  }

  /** The manager's lock gets poisoned exactly if some connection ID drawn is that of a live
      connection. */
  lemma PoisonedIff(mac: MacFn, m: Mgr, es: seq<Event>)
    requires !m.poisoned
    ensures Exec(mac, m, es).poisoned <==> exists k :: CollidesAt(mac, m, es, k)
  {
    if Exec(mac, m, es).poisoned {
      var k := PoisonHasCollision(mac, m, es);
    }
    if k: nat :| CollidesAt(mac, m, es, k) {
      assert es[..k + 1][..k] == es[..k];
      PoisonStays(mac, m, es, k + 1);
    }
  }

  /** Local IDs and "connection" mean nothing outside a connection. */
  lemma OnlyGlobalIdsWorkOutside(mac: MacFn, m: Mgr, id: ObjectId)
    requires DecodeLocal(id).Ok? || id == CONNECTION_OBJ_ID
    ensures Lookup(mac, m, id) == Some(Err(NoObject(id)))
  {
    NameSpacesDisjoint(mac, id);
  }

  // ---- End to end ----

  /** What happens to connection `c` in the history. */
  function OpsOn(es: seq<Event>, c: nat): seq<Cap.Op> {
    if es == [] then []
    else
      var front, last := OpsOn(es[..|es| - 1], c), es[|es| - 1];
      if last.On? && last.c == c then front + [last.op] else front
  }

  lemma StepOnTable(mac: MacFn, m: Mgr, e: Event, c: nat)
    requires IsLive(m, c) && e != Drop(c)
    ensures IsLive(Step(mac, m, e), c)
    ensures Step(mac, m, e).conns[c].table ==
            if e.On? && e.c == c then Cap.Apply(mac, m.conns[c].table, e.op) else m.conns[c].table
  {
  }

  lemma {:induction false} TableFollows(mac: MacFn, m: Mgr, es: seq<Event>, c: nat)
    requires IsLive(m, c) && Drop(c) !in es
    ensures IsLive(Exec(mac, m, es), c)
    ensures Exec(mac, m, es).conns[c].table == Cap.ApplyAll(mac, m.conns[c].table, OpsOn(es, c))
  {
    if es != [] {
      var front, last := es[..|es| - 1], es[|es| - 1];
      TableFollows(mac, m, front, c);
      StepOnTable(mac, Exec(mac, m, front), last, c);
      if last.On? && last.c == c {
        var ops := OpsOn(front, c);
        assert OpsOn(es, c) == ops + [last.op];
        assert (ops + [last.op])[..|ops|] == ops;
      }
    }
  }

  function AsOutside(c: nat, id: ObjectId, r: Result<Cap.Target, LookupError>): Result<(nat, Cap.Object), LookupError> {
    if r.Ok? && r.value.Ref? then Ok((c, r.value.o)) else Err(NoObject(id))
  }

  /** What the manager says of a tagged ID of connection `c` is what `c` says of it. */
  lemma OutsideSeesInside(mac: MacFn, n: Mgr, c: nat, id: ObjectId)
    requires MgrInv(n) && IsLive(n, c) && !n.poisoned
    requires id != [] && id[0] == TAG_CHAR && Cap.LocalIdx(mac, n.conns[c].table, id).Ok?
    ensures Lookup(mac, n, id) ==
            Some(AsOutside(c, id, Cap.Lookup(mac, n.conns[c].table, id)))
  {
    assert ConnOk(n, c);
    NameSpacesDisjoint(mac, id);
  }

  lemma OutsideFollows(mac: MacFn, m: Mgr, c: nat, id: ObjectId, es: seq<Event>)
    requires MgrInv(m) && IsLive(m, c) && Drop(c) !in es && !Exec(mac, m, es).poisoned
    requires id != [] && id[0] == TAG_CHAR && Cap.LocalIdx(mac, m.conns[c].table, id).Ok?
    ensures Lookup(mac, Exec(mac, m, es), id) ==
            Some(AsOutside(c, id, Cap.Lookup(mac, Cap.ApplyAll(mac, m.conns[c].table, OpsOn(es, c)), id)))
  {
    assert ConnOk(m, c);
    TableFollows(mac, m, es, c);
    ExecKeeps(mac, m, es);
    Cap.ApplyAllKeeps(mac, m.conns[c].table, OpsOn(es, c));
    OutsideSeesInside(mac, Exec(mac, m, es), c, id);
  }

  /** The manager and the ID after registering `o` on connection `c`. */
  function RegisterOn(mac: MacFn, m: Mgr, c: nat, o: Cap.Object, choice: nat, rand: u64): (r: (Mgr, Option<ObjectId>))
    requires IsLive(m, c)
  {
    (Step(mac, m, On(c, Cap.DoRegister(o, choice, rand))),
     Cap.Register(mac, m.conns[c].table, o, choice, rand).1)
  }

  /** An exposed object registered on `c` is found from outside, on `c`, in every later
      state of the manager, until its index is released on `c`, as long as `c` lives and the
      manager's lock is good: other connections, their registrations and their releases make
      no difference. */
  lemma GlobalNameWorksOutside(mac: MacFn, m: Mgr, c: nat, o: Cap.Object, choice: nat, rand: u64, es: seq<Event>)
    requires MgrInv(m) && IsLive(m, c) && o.exposed && Drop(c) !in es
    requires RegisterOn(mac, m, c, o, choice, rand).1.Some?
    ensures var (n, id) := RegisterOn(mac, m, c, o, choice, rand);
            && IsLive(n, c) && Cap.LocalIdx(mac, n.conns[c].table, id.value).Ok?
            && Lookup(mac, Exec(mac, n, es), id.value) ==
               if Exec(mac, n, es).poisoned then None
               else Some(if Cap.ReleasedIn(mac, n.conns[c].table, OpsOn(es, c),
                                           Cap.LocalIdx(mac, n.conns[c].table, id.value).value)
                         then Err(NoObject(id.value)) else Ok((c, o)))
  {
    var (n, id) := RegisterOn(mac, m, c, o, choice, rand);
    assert ConnOk(m, c);
    OnKeeps(mac, m, c, Cap.DoRegister(o, choice, rand));
    Cap.CapabilityLifetime(mac, m.conns[c].table, o, choice, rand, OpsOn(es, c));
    if Exec(mac, n, es).poisoned {
      NameSpacesDisjoint(mac, id.value);
    } else {
      OutsideFollows(mac, n, c, id.value, es);
    }
  }

  /** An object that is not exposed is never found from outside under the name it was given, in
      any state of the manager, while on its connection that name works as any other. */
  lemma UnexposedStaysInside(mac: MacFn, t: Cap.Table, o: Cap.Object, choice: nat, rand: u64, m: Mgr)
    requires Cap.TableOk(t) && !o.exposed && Cap.Register(mac, t, o, choice, rand).1.Some?
    ensures var (u, id) := Cap.Register(mac, t, o, choice, rand);
            && DecodeGlobal(mac, id.value) == Ok(None)
            && Lookup(mac, m, id.value) == Some(Err(NoObject(id.value)))
            && Cap.Lookup(mac, u, id.value) == Ok(Cap.Ref(o))
  {
    var (u, id) := Cap.Register(mac, t, o, choice, rand);
    var k := Insert(t.strong, o, choice).1.value;
    InsertIsFresh(t.strong, o, choice);
    Cap.NameKind(mac, t, o, Strong(k), rand);
    Cap.NameDecodes(mac, u, o, Strong(k), rand);
  }

  /** A connection that is made starts empty, under the ID drawn, and is the one found by it. */
  lemma NewConnectionIsFound(m: Mgr, id: ConnectionId)
    requires MgrInv(m)
    ensures var (n, c) := NewConnection(m, id);
            && (c.Some? <==> !m.poisoned && Find(m, id).None?)
            && (c.Some? ==> c.value == |m.conns| && IsLive(n, c.value) && Find(n, id) == c
                            && n.conns[c.value].table == Cap.NewTable(id) && !n.poisoned)
            && (c.None? && !m.poisoned ==> n.poisoned)
            && |m.conns| <= |n.conns| && forall d :: 0 <= d < |m.conns| ==> n.conns[d] == m.conns[d]
  {
  }

  predicate NobodyIs(m: Mgr, cid: ConnectionId) {
    forall c :: 0 <= c < |m.conns| && m.conns[c].live ==> m.conns[c].table.id != cid
  }

  lemma {:induction false} NobodyBecomes(mac: MacFn, m: Mgr, es: seq<Event>, cid: ConnectionId)
    requires NobodyIs(m, cid) && Open(cid) !in es
    ensures NobodyIs(Exec(mac, m, es), cid)
  {
    if es != [] {
      var front, last := es[..|es| - 1], es[|es| - 1];
      NobodyBecomes(mac, m, front, cid);
      assert last in es;
    }
  }

  /** Once a connection is gone its global IDs lead nowhere, in every later state, unless its
      connection ID is drawn again. */
  lemma GlobalNameDiesWithConnection(mac: MacFn, m: Mgr, id: ObjectId, es: seq<Event>)
    requires DecodeGlobal(mac, id).Ok? && DecodeGlobal(mac, id).value.Some?
    requires NobodyIs(m, DecodeGlobal(mac, id).value.value.connection)
    requires Open(DecodeGlobal(mac, id).value.value.connection) !in es
    requires MgrInv(m)
    ensures Lookup(mac, Exec(mac, m, es), id) ==
            if Exec(mac, m, es).poisoned then None else Some(Err(NoObject(id)))
  {
    var n, cid := Exec(mac, m, es), DecodeGlobal(mac, id).value.value.connection;
    NobodyBecomes(mac, m, es, cid);
    ExecKeeps(mac, m, es);
  }

  lemma FindsObject(mac: MacFn, m: Mgr, c: nat, id: ObjectId, g: GlobalId, o: Cap.Object)
    requires DecodeGlobal(mac, id) == Ok(Some(g)) && !m.poisoned
    requires g.connection in m.index && m.index[g.connection] == c && IsLive(m, c)
    requires Cap.LookupIdx(m.conns[c].table, g.local) == Some(o)
    ensures Lookup(mac, m, id) == Some(Ok((c, o)))
  {
  }

  lemma FiveSteps(mac: MacFn, m: Mgr, es: seq<Event>, m1: Mgr, m2: Mgr, m3: Mgr, m4: Mgr, m5: Mgr)
    requires |es| == 5
    requires Step(mac, m, es[0]) == m1 && Step(mac, m1, es[1]) == m2 && Step(mac, m2, es[2]) == m3
    requires Step(mac, m3, es[3]) == m4 && Step(mac, m4, es[4]) == m5
    ensures Exec(mac, m, es[..2]) == m2 && Exec(mac, m, es) == m5
  {
    assert es[..1][..0] == [] && es[..2][..1] == es[..1] && es[..3][..2] == es[..2];
    assert es[..4][..3] == es[..3];
    assert Exec(mac, m, es[..1]) == m1;
    assert Exec(mac, m, es[..2]) == m2;
    assert Exec(mac, m, es[..3]) == m3;
    assert Exec(mac, m, es[..4]) == m4;
  }

  lemma AliasRun(mac: MacFn, es: seq<Event>, cid: ConnectionId, t: Cap.Table, to: Cap.Table, tp: Cap.Table)
    requires |es| == 5 && t == Cap.NewTable(cid) && es[0] == Open(cid) == es[3] && es[2] == Drop(0)
    requires es[1].On? && es[1].c == 0 && Cap.Apply(mac, t, es[1].op) == to
    requires es[4].On? && es[4].c == 1 && Cap.Apply(mac, t, es[4].op) == tp
    ensures Exec(mac, NewMgr, es[..2]) == Mgr([Conn(to, true)], map[cid := 0], false)
    ensures Exec(mac, NewMgr, es) == Mgr([Conn(to, false), Conn(tp, true)], map[cid := 1], false)
  {
    var m1 := Mgr([Conn(t, true)], map[cid := 0], false);
    var m2 := Mgr([Conn(to, true)], map[cid := 0], false);
    var m3 := Mgr([Conn(to, false)], map[cid := 0], false);
    var m4 := Mgr([Conn(to, false), Conn(t, true)], map[cid := 1], false);
    FiveSteps(mac, NewMgr, es, m1, m2, m3, m4, Mgr([Conn(to, false), Conn(tp, true)], map[cid := 1], false));
  }

  lemma FirstRegistration(mac: MacFn, t: Cap.Table, o: Cap.Object, rand: u64)
    requires t.strong == Empty<Cap.Object>() && o.exposed
    ensures var (u, id) := Cap.Register(mac, t, o, 0, rand);
            && id == Some(EncodeGlobal(mac, GlobalId(t.id, Strong(Key(1, 1))), rand))
            && Cap.LookupIdx(u, Strong(Key(1, 1))) == Some(o)
  {
  }

  /** The guarantee ends with the connection: if its random ID ever came up again after it
      was dropped, an old global ID would name an object of the new connection. */
  lemma ReusedConnectionIdAliases(mac: MacFn, cid: ConnectionId, rand: u64, q: u64)
    ensures var o, p := Cap.Object(1, true), Cap.Object(2, true);
            var es := [Open(cid), On(0, Cap.DoRegister(o, 0, rand)), Drop(0),
                       Open(cid), On(1, Cap.DoRegister(p, 0, q))];
            var id := Cap.Register(mac, Cap.NewTable(cid), o, 0, rand).1;
            && id.Some?
            && Lookup(mac, Exec(mac, NewMgr, es[..2]), id.value) == Some(Ok((0, o)))
            && Lookup(mac, Exec(mac, NewMgr, es), id.value) == Some(Ok((1, p)))
  {
    var o, p := Cap.Object(1, true), Cap.Object(2, true);
    var es := [Open(cid), On(0, Cap.DoRegister(o, 0, rand)), Drop(0), Open(cid), On(1, Cap.DoRegister(p, 0, q))];
    var t := Cap.NewTable(cid);
    var to, tp := Cap.Register(mac, t, o, 0, rand).0, Cap.Register(mac, t, p, 0, q).0;
    AliasRun(mac, es, cid, t, to, tp);
    FirstRegistration(mac, t, o, rand);
    FirstRegistration(mac, t, p, q);
    var g := GlobalId(cid, Strong(Key(1, 1)));
    GlobalRoundTrip(mac, g, rand);
    var id := EncodeGlobal(mac, g, rand);
    FindsObject(mac, Exec(mac, NewMgr, es[..2]), 0, id, g, o);
    FindsObject(mac, Exec(mac, NewMgr, es), 1, id, g, p);
  }
}
