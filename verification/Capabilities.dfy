/** The capability table of one connection: objects are registered under an ID, looked up
    by any ID that names them, and released.

    The model is of the build without the `weakref` feature: an ID that decodes to a weak
    index names nothing. */
module Capabilities {
  import opened Common
  import opened SlotMap
  import opened ObjectIds

  /** An object's identity, and whether its ID must also work outside the connection. */
  datatype Object = Object(tag: nat, exposed: bool)

  /** `named` says that the connection still answers to "connection". */
  datatype Table = Table(id: ConnectionId, strong: Slots<Object>, named: bool)

  /** What a lookup can find: an object of the table or the connection itself. */
  datatype Target = Ref(o: Object) | Self

  function NewTable(id: ConnectionId): Table {
    Table(id, Empty(), true)
  }

  ghost predicate TableOk(t: Table) {
    Inv(t.strong)
  }

  function LocalIdx(mac: MacFn, t: Table, id: ObjectId): (r: Result<GenIdx, LookupError>) {
    match DecodeGlobal(mac, id)
    case Err(e) => Err(e)
    case Ok(Some(g)) => if g.connection == t.id then Ok(g.local) else Err(NoObject(id))
    case Ok(None) => DecodeLocal(id)
  }

  function LookupIdx(t: Table, g: GenIdx): Option<Object> {
    match g
    case Weak(_) => None
    case Strong(k) => Get(t.strong, k)
  }

  function Lookup(mac: MacFn, t: Table, id: ObjectId): (r: Result<Target, LookupError>) {
    if id == CONNECTION_OBJ_ID then
      if t.named then Ok(Self) else Err(NoObject(id))
    else match LocalIdx(mac, t, id)
      case Err(e) => Err(e)
      case Ok(g) =>
        match LookupIdx(t, g)
        case None => Err(NoObject(id))
        case Some(o) => Ok(Ref(o))
  }

  function NameFor(mac: MacFn, t: Table, o: Object, g: GenIdx, rand: u64): ObjectId {
    if o.exposed then EncodeGlobal(mac, GlobalId(t.id, g), rand) else EncodeLocal(g, rand)
  }

  /** None stands for the panic on a full arena. */
  function Register(mac: MacFn, t: Table, o: Object, choice: nat, rand: u64): (r: (Table, Option<ObjectId>)) {
    var (strong, k) := Insert(t.strong, o, choice);
    match k
    case None => (t, None)
    case Some(k) => (t.(strong := strong), Some(NameFor(mac, t, o, Strong(k), rand)))
  }

  function Release(mac: MacFn, t: Table, id: ObjectId): (r: (Table, Result<(), LookupError>)) {
    if id == CONNECTION_OBJ_ID then
      (t.(named := false), if t.named then Ok(()) else Err(NoObject(id)))
    else match LocalIdx(mac, t, id)
      case Err(e) => (t, Err(e))
      case Ok(Weak(_)) => (t, Err(WrongType(id)))
      case Ok(Strong(k)) =>
        var (strong, o) := Remove(t.strong, k);
        (t.(strong := strong), if o.Some? then Ok(()) else Err(NoObject(id)))
  }

  // ---- Histories ----

  datatype Op = DoRegister(o: Object, choice: nat, rand: u64) | DoRelease(id: ObjectId)

  function Apply(mac: MacFn, t: Table, op: Op): Table {
    match op
    case DoRegister(o, choice, rand) => Register(mac, t, o, choice, rand).0
    case DoRelease(id) => Release(mac, t, id).0
  }

  function ApplyAll(mac: MacFn, t: Table, ops: seq<Op>): Table {
    if ops == [] then t else Apply(mac, ApplyAll(mac, t, ops[..|ops| - 1]), ops[|ops| - 1])
  }

  /** The operation is a release under some name of the index `g`. */
  predicate Releases(mac: MacFn, t: Table, op: Op, g: GenIdx) {
    op.DoRelease? && op.id != CONNECTION_OBJ_ID && LocalIdx(mac, t, op.id) == Ok(g)
  }

  predicate ReleasedIn(mac: MacFn, t: Table, ops: seq<Op>, g: GenIdx) {
    exists i :: 0 <= i < |ops| && Releases(mac, t, ops[i], g)
  }

  predicate IsWeakName(mac: MacFn, t: Table, id: ObjectId) {
    LocalIdx(mac, t, id).Ok? && LocalIdx(mac, t, id).value.Weak?
  }

  /** Decoded indices always carry a valid key. */
  lemma LocalIdxValid(mac: MacFn, t: Table, id: ObjectId)
    requires LocalIdx(mac, t, id).Ok?
    ensures ValidKey(LocalIdx(mac, t, id).value.k)
  {
  }

  /** A name leads back to the index it was made for. */
  lemma NameDecodes(mac: MacFn, t: Table, o: Object, g: GenIdx, rand: u64)
    requires ValidKey(g.k)
    ensures NameFor(mac, t, o, g, rand) != CONNECTION_OBJ_ID
    ensures LocalIdx(mac, t, NameFor(mac, t, o, g, rand)) == Ok(g)
  {
    var id := NameFor(mac, t, o, g, rand);
    NameSpacesDisjoint(mac, id);
    if o.exposed {
      GlobalRoundTrip(mac, GlobalId(t.id, g), rand);
    } else {
      LocalRoundTrip(g, rand);
    }
  }

  /** The kind of name tells whether the object is exposed: an exposed one gets a global name of
      this connection, any other a local name, which is not a global one. */
  lemma NameKind(mac: MacFn, t: Table, o: Object, g: GenIdx, rand: u64)
    requires ValidKey(g.k)
    ensures o.exposed <==> DecodeGlobal(mac, NameFor(mac, t, o, g, rand)) == Ok(Some(GlobalId(t.id, g)))
    ensures !o.exposed <==> DecodeGlobal(mac, NameFor(mac, t, o, g, rand)) == Ok(None)
    ensures !o.exposed <==> DecodeLocal(NameFor(mac, t, o, g, rand)) == Ok(g)
  {
    NameSpacesDisjoint(mac, NameFor(mac, t, o, g, rand));
    if o.exposed {
      GlobalRoundTrip(mac, GlobalId(t.id, g), rand);
    } else {
      LocalRoundTrip(g, rand);
    }
  }

  /** Releasing agrees with looking up: it succeeds exactly if the name leads somewhere, and then
      the name leads nowhere; otherwise nothing changes, and the error is that of the lookup,
      except that a weak index has the wrong type. */
  lemma ReleaseAgreesWithLookup(mac: MacFn, t: Table, id: ObjectId)
    requires TableOk(t)
    ensures var (u, r) := Release(mac, t, id);
            && (r.Ok? <==> Lookup(mac, t, id).Ok?)
            && (r.Ok? ==> Lookup(mac, u, id) == Err(NoObject(id)))
            && (r.Err? ==> u == t)
            && (r.Err? ==> r == Err(if id != CONNECTION_OBJ_ID && IsWeakName(mac, t, id) then WrongType(id)
                                    else NoObject(id)))
    ensures Lookup(mac, t, id).Err? ==> Lookup(mac, t, id) == Err(NoObject(id))
  {
    if id != CONNECTION_OBJ_ID && LocalIdx(mac, t, id).Ok? && LocalIdx(mac, t, id).value.Strong? {
      LocalIdxValid(mac, t, id);
      RemoveIsExact(t.strong, LocalIdx(mac, t, id).value.k);
    }
  }

  lemma ApplyKeeps(mac: MacFn, t: Table, op: Op)
    requires TableOk(t)
    ensures TableOk(Apply(mac, t, op)) && Apply(mac, t, op).id == t.id
    ensures forall j: Key :: Issued(t.strong, j) ==> Issued(Apply(mac, t, op).strong, j)
  {
    match op
    case DoRegister(o, choice, rand) => InsertIsFresh(t.strong, o, choice);
    case DoRelease(id) =>
      if id != CONNECTION_OBJ_ID && LocalIdx(mac, t, id).Ok? && LocalIdx(mac, t, id).value.Strong? {
        LocalIdxValid(mac, t, id);
        RemoveIsExact(t.strong, LocalIdx(mac, t, id).value.k);
      }
  }

  lemma {:induction false} ApplyAllKeeps(mac: MacFn, t: Table, ops: seq<Op>)
    requires TableOk(t)
    ensures TableOk(ApplyAll(mac, t, ops)) && ApplyAll(mac, t, ops).id == t.id
    ensures forall j: Key :: Issued(t.strong, j) ==> Issued(ApplyAll(mac, t, ops).strong, j)
  {
    if ops != [] {
      ApplyAllKeeps(mac, t, ops[..|ops| - 1]);
      ApplyKeeps(mac, ApplyAll(mac, t, ops[..|ops| - 1]), ops[|ops| - 1]);
    }
  }

  /** One step's effect on an index that has been handed out: only a release under one of
      its names changes what it leads to. */
  lemma StepOnIssued(mac: MacFn, t: Table, op: Op, k: Key)
    requires TableOk(t) && ValidKey(k) && Issued(t.strong, k)
    ensures Get(Apply(mac, t, op).strong, k) ==
            if Releases(mac, t, op, Strong(k)) then None else Get(t.strong, k)
  {
    match op
    case DoRegister(o, choice, rand) => InsertIsFresh(t.strong, o, choice);
    case DoRelease(id) =>
      if id != CONNECTION_OBJ_ID && LocalIdx(mac, t, id).Ok? && LocalIdx(mac, t, id).value.Strong? {
        LocalIdxValid(mac, t, id);
        RemoveIsExact(t.strong, LocalIdx(mac, t, id).value.k);
      }
  }

  lemma SameIdSameNames(mac: MacFn, t: Table, u: Table, op: Op, g: GenIdx)
    requires t.id == u.id
    ensures Releases(mac, t, op, g) == Releases(mac, u, op, g)
  {
  }

  lemma ReleasedSnoc(mac: MacFn, t: Table, ops: seq<Op>, g: GenIdx)
    requires ops != []
    ensures ReleasedIn(mac, t, ops, g) <==>
            ReleasedIn(mac, t, ops[..|ops| - 1], g) || Releases(mac, t, ops[|ops| - 1], g)
  {
    var front := ops[..|ops| - 1];
    if i :| 0 <= i < |ops| && Releases(mac, t, ops[i], g) {
      assert i < |front| ==> front[i] == ops[i];
    }
    if i :| 0 <= i < |front| && Releases(mac, t, front[i], g) {
      assert ops[i] == front[i];
    }
  }

  /** As `StepOnIssued`, for a table that `t` has become. */
  lemma StepOnBecome(mac: MacFn, t: Table, u: Table, op: Op, k: Key)
    requires TableOk(u) && ValidKey(k) && Issued(u.strong, k) && u.id == t.id
    ensures Get(Apply(mac, u, op).strong, k) ==
            if Releases(mac, t, op, Strong(k)) then None else Get(u.strong, k)
  {
    StepOnIssued(mac, u, op, k);
    SameIdSameNames(mac, t, u, op, Strong(k));
  }

  lemma IssuedStays(mac: MacFn, t: Table, ops: seq<Op>, k: Key)
    requires TableOk(t) && Issued(t.strong, k)
    ensures TableOk(ApplyAll(mac, t, ops)) && Issued(ApplyAll(mac, t, ops).strong, k)
    ensures ApplyAll(mac, t, ops).id == t.id
  {
    ApplyAllKeeps(mac, t, ops);
  }

  lemma {:induction false} HistoryOnIssued(mac: MacFn, t: Table, ops: seq<Op>, k: Key)
    requires TableOk(t) && ValidKey(k) && Issued(t.strong, k)
    ensures Get(ApplyAll(mac, t, ops).strong, k) ==
            if ReleasedIn(mac, t, ops, Strong(k)) then None else Get(t.strong, k)
  {
    if ops != [] {
      var front := ops[..|ops| - 1];
      HistoryOnIssued(mac, t, front, k);
      IssuedStays(mac, t, front, k);
      StepOnBecome(mac, t, ApplyAll(mac, t, front), ops[|ops| - 1], k);
      ReleasedSnoc(mac, t, ops, Strong(k));
    }
  }

  /** The lifetime of a capability. The ID that a registration returns leads to that object
      in every later state, until the index behind it is released under any of its names;
      from then on it leads to nothing, whatever is registered later. */
  lemma CapabilityLifetime(mac: MacFn, t: Table, o: Object, choice: nat, rand: u64, ops: seq<Op>)
    requires TableOk(t)
    ensures var (u, id) := Register(mac, t, o, choice, rand);
            id.Some? ==>
              && LocalIdx(mac, u, id.value).Ok?
              && Lookup(mac, ApplyAll(mac, u, ops), id.value) ==
                 if ReleasedIn(mac, u, ops, LocalIdx(mac, u, id.value).value)
                 then Err(NoObject(id.value)) else Ok(Ref(o))
  {
    var (u, id) := Register(mac, t, o, choice, rand);
    if id.Some? {
      var k := Insert(t.strong, o, choice).1.value;
      InsertIsFresh(t.strong, o, choice);
      NameDecodes(mac, u, o, Strong(k), rand);
      HistoryOnIssued(mac, u, ops, k);
      ApplyAllKeeps(mac, u, ops);
      assert LocalIdx(mac, ApplyAll(mac, u, ops), id.value) == Ok(Strong(k));
    }
  }

  /** An index is released successfully at most once: a release under one of its names
      succeeds exactly when no earlier one did. */
  lemma ReleasedAtMostOnce(mac: MacFn, t: Table, o: Object, choice: nat, rand: u64, ops: seq<Op>, again: ObjectId)
    requires TableOk(t)
    requires Register(mac, t, o, choice, rand).1.Some?
    requires var (u, id) := Register(mac, t, o, choice, rand);
             again != CONNECTION_OBJ_ID && LocalIdx(mac, u, again) == LocalIdx(mac, u, id.value)
    ensures var (u, id) := Register(mac, t, o, choice, rand);
            && LocalIdx(mac, u, id.value).Ok?
            && (Release(mac, ApplyAll(mac, u, ops), again).1.Ok? <==>
                !ReleasedIn(mac, u, ops, LocalIdx(mac, u, id.value).value))
  {
    var (u, id) := Register(mac, t, o, choice, rand);
    var k := Insert(t.strong, o, choice).1.value;
    InsertIsFresh(t.strong, o, choice);
    NameDecodes(mac, u, o, Strong(k), rand);
    HistoryOnIssued(mac, u, ops, k);
    ApplyAllKeeps(mac, u, ops);
    RemoveIsExact(ApplyAll(mac, u, ops).strong, k);
  }

  // ---- Conservation ----

  /** +1 for a registration that returned an ID, -1 for a successful release of an object. */
  function Balance(mac: MacFn, t: Table, op: Op): int {
    match op
    case DoRegister(o, choice, rand) => if Register(mac, t, o, choice, rand).1.Some? then 1 else 0
    case DoRelease(id) => if id != CONNECTION_OBJ_ID && Release(mac, t, id).1.Ok? then -1 else 0
  }

  function TotalBalance(mac: MacFn, t: Table, ops: seq<Op>): int {
    if ops == [] then 0
    else
      var front := ops[..|ops| - 1];
      TotalBalance(mac, t, front) + Balance(mac, ApplyAll(mac, t, front), ops[|ops| - 1])
  }

  /** The strong references held are the registrations less the successful releases. */
  lemma {:induction false} HeldEqualsRegisteredMinusReleased(mac: MacFn, t: Table, ops: seq<Op>)
    requires TableOk(t)
    ensures Len(ApplyAll(mac, t, ops).strong) == Len(t.strong) + TotalBalance(mac, t, ops)
  {
    if ops != [] {
      var front, last := ops[..|ops| - 1], ops[|ops| - 1];
      HeldEqualsRegisteredMinusReleased(mac, t, front);
      ApplyAllKeeps(mac, t, front);
      var u := ApplyAll(mac, t, front);
      match last
      case DoRegister(o, choice, rand) => InsertIsFresh(u.strong, o, choice);
      case DoRelease(id) =>
        if id != CONNECTION_OBJ_ID && LocalIdx(mac, u, id).Ok? && LocalIdx(mac, u, id).value.Strong? {
          LocalIdxValid(mac, u, id);
          RemoveIsExact(u.strong, LocalIdx(mac, u, id).value.k);
        }
    }
  }

  lemma NamedAfterStep(mac: MacFn, t: Table, op: Op)
    ensures Apply(mac, t, op).named <==> t.named && op != DoRelease(CONNECTION_OBJ_ID)
  {
  }

  lemma {:induction false} NamedAfter(mac: MacFn, t: Table, ops: seq<Op>)
    ensures ApplyAll(mac, t, ops).named <==> t.named && DoRelease(CONNECTION_OBJ_ID) !in ops
  {
    if ops != [] {
      var front, last := ops[..|ops| - 1], ops[|ops| - 1];
      NamedAfter(mac, t, front);
      NamedAfterStep(mac, ApplyAll(mac, t, front), last);
      assert ops == front + [last];
    }
  }

  /** "connection" leads to the connection itself until it is released, and never again. */
  lemma ConnectionNameLifetime(mac: MacFn, t: Table, ops: seq<Op>)
    requires t.named
    ensures Lookup(mac, ApplyAll(mac, t, ops), CONNECTION_OBJ_ID) ==
            if DoRelease(CONNECTION_OBJ_ID) in ops then Err(NoObject(CONNECTION_OBJ_ID)) else Ok(Self)
  {
    NamedAfter(mac, t, ops);
  }
}
