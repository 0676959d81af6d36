/** The server's objects, updated in place: the object map, a connection and the manager.
    Each method is one critical section of the lock that the object is kept behind, except that
    `RpcMgr.LookupObject` is two. */
module Connection {
  import opened Common
  import opened SlotMap
  import opened ObjectIds
  import CarefulMap
  import Cap = Capabilities
  import Mgr = ManagerSpec
  import Look = LookupSpec
  import Loop = RunLoopSpec

  class ObjMap {
    const strong: CarefulMap.CarefulMap<Cap.Object>

    ghost function Contents(): Slots<Cap.Object>
      reads strong
    {
      strong.Contents()
    }

    ghost predicate Valid()
      reads strong
    {
      strong.Valid()
    }

    /** What an index leads to. */
    ghost function At(g: GenIdx): Option<Cap.Object>
      reads strong
    {
      if g.Weak? then None else Get(Contents(), g.k)
    }

    constructor ()
      ensures Valid() && Contents() == Empty() && fresh(strong)
    {
      strong := new CarefulMap.CarefulMap();
    }

    /** A new strong index that leads to `o`; all others lead where they did. None stands for the
        panic on a full arena. */
    method InsertStrong(o: Cap.Object, choice: nat) returns (g: Option<GenIdx>)
      requires Valid()
      modifies strong
      ensures Valid() && Contents() == Insert(old(Contents()), o, choice).0
      ensures g.Some? ==>
                && g.value.Strong? && Insert(old(Contents()), o, choice).1 == Some(g.value.k)
                && !Issued(old(Contents()), g.value.k) && At(g.value) == Some(o)
      ensures g.None? ==> Contents() == old(Contents()) && Insert(old(Contents()), o, choice).1.None?
      ensures forall h: GenIdx :: g != Some(h) ==> At(h) == old(At(h))
    {
      var k := strong.Insert(o, choice);
      match k {
        case None => g := None;
        case Some(k) => g := Some(Strong(k));
      }
    }

    method Lookup(g: GenIdx) returns (o: Option<Cap.Object>)
      ensures o == At(g)
    {
      match g {
        case Weak(_) => o := None;
        case Strong(k) => o := strong.Get(k);
      }
    }

    /** The index leads nowhere afterwards; all others lead where they did. */
    method RemoveEntry(g: GenIdx) returns (o: Option<Cap.Object>)
      requires Valid() && ValidKey(g.k)
      modifies strong
      ensures Valid() && o == old(At(g)) && At(g).None?
      ensures forall h: GenIdx :: h != g && ValidKey(h.k) ==> At(h) == old(At(h))
      ensures Contents() == if g.Weak? then old(Contents()) else Remove(old(Contents()), g.k).0
    {
      match g {
        case Weak(_) => o := None;
        case Strong(k) => o := strong.Remove(k);
      }
    }
  }

  /** What `cancel_request` finds in the table. */
  datatype Found = Handle(h: nat) | Uncancellable | Missing

  class Connection {
    const id: ConnectionId
    const mac: MacFn
    const objects: ObjMap
    var inflight: map<Loop.RequestId, Option<nat>>
    /** Whether `this_connection` is still set. */
    var named: bool
    /** Whether any strong reference to the connection remains. */
    var alive: bool

    ghost function Table(): Cap.Table
      reads this, objects.strong
    {
      Cap.Table(id, objects.Contents(), named)
    }

    ghost predicate Valid()
      reads objects.strong
    {
      objects.Valid()
    }

    /** `alive` is false for a connection that is dropped as soon as it is made. */
    constructor (id: ConnectionId, mac: MacFn, alive: bool)
      ensures Valid() && Table() == Cap.NewTable(id) && inflight == map[] && fresh(objects) && fresh(objects.strong)
      ensures this.id == id && this.mac == mac && this.alive == alive
    {
      this.id, this.mac := id, mac;
      objects := new ObjMap();
      inflight, named, this.alive := map[], true, alive;
    }

    method IdIntoLocalIdx(name: ObjectId) returns (r: Result<GenIdx, LookupError>)
      ensures r == Cap.LocalIdx(mac, Table(), name)
    {
      var decoded := DecodeGlobal(mac, name);
      match decoded {
        case Err(e) => r := Err(e);
        case Ok(Some(g)) => r := if g.connection == id then Ok(g.local) else Err(NoObject(name));
        case Ok(None) => r := DecodeLocal(name);
      }
    }

    method LookupObject(name: ObjectId) returns (r: Result<Cap.Target, LookupError>)
      ensures r == Cap.Lookup(mac, Table(), name)
    {
      if name == CONNECTION_OBJ_ID {
        r := if named then Ok(Cap.Self) else Err(NoObject(name));
      } else {
        var local := IdIntoLocalIdx(name);
        match local {
          case Err(e) => r := Err(e);
          case Ok(g) =>
            var o := objects.Lookup(g);
            r := if o.Some? then Ok(Cap.Ref(o.value)) else Err(NoObject(name));
        }
      }
    }

    method RegisterOwned(o: Cap.Object, choice: nat, rand: u64) returns (name: Option<ObjectId>)
      requires Valid()
      modifies objects.strong
      ensures Valid() && (Table(), name) == Cap.Register(mac, old(Table()), o, choice, rand)
    {
      var g := objects.InsertStrong(o, choice);
      match g {
        case None => name := None;
        case Some(g) =>
          name := Some(if o.exposed then EncodeGlobal(mac, GlobalId(id, g), rand) else EncodeLocal(g, rand));
      }
    }

    method ReleaseOwned(name: ObjectId) returns (r: Result<(), LookupError>)
      requires Valid()
      modifies this`named, objects.strong
      ensures Valid() && (Table(), r) == Cap.Release(mac, old(Table()), name)
    {
      var removed: bool;
      if name == CONNECTION_OBJ_ID {
        removed := named;
        named := false;
      } else {
        var local := IdIntoLocalIdx(name);
        match local {
          case Err(e) => return Err(e);
          case Ok(g) =>
            if g.Weak? {
              return Err(WrongType(name));
            }
            Cap.LocalIdxValid(mac, Table(), name);
            var o := objects.RemoveEntry(g);
            removed := o.Some?;
        }
      }
      r := if removed then Ok(()) else Err(NoObject(name));
    }

    method RegisterRequest(req: Loop.RequestId, handle: Option<nat>)
      modifies this`inflight
      ensures inflight == old(inflight)[req := handle]
    {
      inflight := inflight[req := handle];
    }

    method RemoveRequest(req: Loop.RequestId)
      modifies this`inflight
      ensures inflight == old(inflight) - {req}
    {
      inflight := inflight - {req};
    }

    /** The part of `cancel_request` under the connection's lock; a bare entry is taken out
        and put back. */
    method TakeHandle(req: Loop.RequestId) returns (found: Found)
      modifies this`inflight
      ensures found == if req !in old(inflight) then Missing
                       else if old(inflight)[req].None? then Uncancellable
                       else Handle(old(inflight)[req].value)
      ensures inflight == if found.Handle? then old(inflight) - {req} else old(inflight)
    {
      if req !in inflight {
        return Missing;
      }
      var entry := inflight[req];
      inflight := inflight - {req};
      match entry {
        case Some(h) => found := Handle(h);
        case None =>
          inflight := inflight[req := None];
          found := Uncancellable;
      }
    }
  }

  ghost function Snapshot(cs: seq<Connection>): (s: seq<Mgr.Conn>)
    reads cs, set c | c in cs :: c.objects.strong
    ensures |s| == |cs|
  {
    if cs == [] then []
    else
      var c := cs[|cs| - 1];
      Snapshot(cs[..|cs| - 1]) + [Mgr.Conn(c.Table(), c.alive)]
  }

  lemma {:induction false} SnapshotAt(cs: seq<Connection>)
    ensures forall i :: 0 <= i < |cs| ==> Snapshot(cs)[i] == Mgr.Conn(cs[i].Table(), cs[i].alive)
  {
    if cs != [] {
      SnapshotAt(cs[..|cs| - 1]);
    }
  }

  lemma SnapshotAppend(cs: seq<Connection>, c: Connection)
    ensures Snapshot(cs + [c]) == Snapshot(cs) + [Mgr.Conn(c.Table(), c.alive)]
  {
    assert (cs + [c])[..|cs|] == cs;
  }

  class RpcMgr {
    const mac: MacFn
    /** Every connection made so far; the position is what a weak reference points to. */
    var all: seq<Connection>
    var connections: map<ConnectionId, nat>
    var poisoned: bool

    /** The connections, and the arenas behind their objects, are all different. */
    ghost predicate Apart()
      reads this
    {
      forall i, j :: 0 <= i < j < |all| ==> all[i] != all[j] && all[i].objects.strong != all[j].objects.strong
    }

    ghost predicate Valid()
      reads this, all, set c | c in all :: c.objects.strong
    {
      && (forall id :: id in connections ==> connections[id] < |all|)
      && (forall c :: c in all ==> c.mac == mac && c.Valid())
      && Apart()
    }

    ghost function State(): Mgr.Mgr
      reads this, all, set c | c in all :: c.objects.strong
    {
      Mgr.Mgr(Snapshot(all), connections, poisoned)
    }

    constructor (mac: MacFn)
      ensures Valid() && State() == Mgr.NewMgr
    {
      this.mac := mac;
      all, connections, poisoned := [], map[], false;
    }

    /** Enter a new connection into the index; `poison` if this replaced a live one. */
    method AddConnection(connection: Connection, poison: bool)
      requires Valid() && connection.mac == mac && connection.Valid()
      requires forall i :: 0 <= i < |all| ==>
                 all[i] != connection && all[i].objects.strong != connection.objects.strong
      modifies this
      ensures Valid() && all == old(all) + [connection] && poisoned == poison
      ensures connections == old(connections)[connection.id := |old(all)|]
    {
      connections, all := connections[connection.id := |all|], all + [connection];
      poisoned := poison;
    }

    method NewConnection(id: ConnectionId) returns (c: Option<nat>)
      requires Valid()
      modifies this
      ensures Valid() && old(all) <= all && |all| <= |old(all)| + 1
      ensures (State(), c) == Mgr.NewConnection(old(State()), id)
    {
      if poisoned {
        return None;
      }
      SnapshotAt(all);
      var replaced := id in connections && all[connections[id]].alive;
      assert replaced == Mgr.Find(State(), id).Some?;
      var connection := new Connection(id, mac, !replaced);
      SnapshotAppend(all, connection);
      c := if replaced then None else Some(|all|);
      AddConnection(connection, replaced);
    }

    /** A registration on one connection leaves all others alone. */
    method RegisterOn(c: nat, o: Cap.Object, choice: nat, rand: u64) returns (name: Option<ObjectId>)
      requires Valid() && c < |all| && all[c].alive
      modifies all[c].objects.strong
      ensures Valid() && State() == Mgr.Step(mac, old(State()), Mgr.On(c, Cap.DoRegister(o, choice, rand)))
      ensures name == Cap.Register(mac, old(all[c].Table()), o, choice, rand).1
    {
      SnapshotAt(all);
      ghost var before := Snapshot(all);
      name := all[c].RegisterOwned(o, choice, rand);
      SnapshotAt(all);
      assert Snapshot(all) == before[c := before[c].(table := all[c].Table())];
    }

    method ReleaseOn(c: nat, name: ObjectId) returns (r: Result<(), LookupError>)
      requires Valid() && c < |all| && all[c].alive
      modifies all[c], all[c].objects.strong
      ensures Valid() && State() == Mgr.Step(mac, old(State()), Mgr.On(c, Cap.DoRelease(name)))
      ensures r == Cap.Release(mac, old(all[c].Table()), name).1 && all[c].inflight == old(all[c].inflight)
    {
      SnapshotAt(all);
      ghost var before := Snapshot(all);
      r := all[c].ReleaseOwned(name);
      SnapshotAt(all);
      assert Snapshot(all) == before[c := before[c].(table := all[c].Table())];
    }

    /** The last strong reference to the connection goes away; the weak one in the index stays. */
    method DropConnection(c: nat)
      requires Valid() && c < |all|
      modifies all[c]
      ensures Valid() && State() == Mgr.Step(mac, old(State()), Mgr.Drop(c))
      ensures all[c].inflight == old(all[c].inflight)
    {
      SnapshotAt(all);
      ghost var before := Snapshot(all);
      all[c].alive := false;
      SnapshotAt(all);
      assert Snapshot(all) == before[c := before[c].(live := false)];
    }

    /** Under the manager's lock: decode the ID and get hold of its connection. */
    method FindConnection(name: ObjectId) returns (look: Look.Look)
      requires Valid()
      ensures look == Look.FindConnection(mac, State(), name)
      ensures look.Held? ==> look.c < |all|
    {
      SnapshotAt(all);
      var decoded := DecodeGlobal(mac, name);
      match decoded {
        case Err(e) => return Look.Answered(name, Some(Err(e)));
        case Ok(None) => return Look.Answered(name, Some(Err(NoObject(name))));
        case Ok(Some(g)) =>
          if poisoned {
            return Look.Answered(name, None);
          }
          if g.connection !in connections || !all[connections[g.connection]].alive {
            return Look.Answered(name, Some(Err(NoObject(name))));
          }
          look := Look.Held(name, g, connections[g.connection]);
      }
    }

    /** Under the connection's lock: read its table. */
    method ReadTable(look: Look.Look) returns (r: Look.Answer)
      requires look.Held? ==> look.c < |all|
      ensures r == Look.ReadTable(State(), look)
    {
      SnapshotAt(all);
      match look {
        case Answered(_, answer) => r := answer;
        case Held(name, g, c) =>
          var o := all[c].objects.Lookup(g.local);
          r := Some(if o.Some? then Ok((c, o.value)) else Err(NoObject(name)));
      }
    }

    /** Both sections with nothing in between. */
    method LookupObject(name: ObjectId) returns (r: Look.Answer)
      requires Valid()
      ensures r == Mgr.Lookup(mac, State(), name)
    {
      var look := FindConnection(name);
      r := ReadTable(look);
      Look.TwoSectionsAreLookup(mac, State(), name);
    }
  }
}
