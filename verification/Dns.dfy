/** The DNS proxy: requests for the same thing share one query over Tor, and every asker
    gets its own reply.

    Each accepted datagram is handled on its own, numbered by its position in `askers`. The first
    asker of a key leads: it runs the query, takes the waiting askers out of the table and
    replies to them one by one. Tasks interleave at every lock and every await. */
module Dns {
  import opened Common
  import opened Text

  datatype QueryType = TypeA | TypeAAAA | TypePTR | OtherType
  datatype QueryClass = ClassIN | OtherClass

  datatype Query = Query(name: string, typ: QueryType, cls: QueryClass)

  datatype Addr = Addr(ip: Ip, port: nat)

  datatype Request = Request(id: nat, recursionDesired: bool, queries: seq<Query>)

  datatype Code = NoError | FormErr | ServFail | NotImp

  datatype RData = DataA(ip: Ip) | DataAAAA(ip: Ip) | DataPTR(name: string)

  datatype Record = Record(name: string, ttl: nat, data: RData)

  datatype Response = Response(id: nat, code: Code, recursionDesired: bool,
                               queries: seq<Query>, answers: seq<Record>)

  /** Names are equal as keys when they differ only in ASCII case. */
  function Canon(qs: seq<Query>): (ks: seq<Query>)
    ensures |ks| == |qs|
  {
    if qs == [] then [] else [qs[0].(name := LowerAll(qs[0].name))] + Canon(qs[1..])
  }

  datatype Key = Key(listener: nat, ip: Ip, queries: seq<Query>)

  /** `key` is the asker's own copy of its table key. */
  datatype Asker = Asker(listener: nat, addr: Addr, req: Request, key: Key)

  function KeyFor(listener: nat, addr: Addr, req: Request): Key {
    Key(listener, addr.ip, Canon(req.queries))
  }

  function NewAsker(listener: nat, addr: Addr, req: Request): Asker {
    Asker(listener, addr, req, KeyFor(listener, addr, req))
  }

  predicate KeyRight(a: Asker) {
    a.key == KeyFor(a.listener, a.addr, a.req)
  }

  /** The same questions up to the case of ASCII letters in the names. */
  predicate SameQuestions(qs: seq<Query>, rs: seq<Query>) {
    |qs| == |rs| && forall i :: 0 <= i < |qs| ==>
      qs[i].typ == rs[i].typ && qs[i].cls == rs[i].cls && SameText(qs[i].name, rs[i].name)
  }

  lemma {:induction false} CanonAt(qs: seq<Query>, i: nat)
    requires i < |qs|
    ensures Canon(qs)[i] == qs[i].(name := LowerAll(qs[i].name))
  {
    if i > 0 {
      CanonAt(qs[1..], i - 1);
    }
  }

  lemma CanonIff(qs: seq<Query>, rs: seq<Query>)
    ensures Canon(qs) == Canon(rs) <==> SameQuestions(qs, rs)
  {
    if |qs| == |rs| {
      forall i | 0 <= i < |qs|
        ensures Canon(qs)[i] == Canon(rs)[i] <==>
                qs[i].typ == rs[i].typ && qs[i].cls == rs[i].cls && SameText(qs[i].name, rs[i].name)
      {
        CanonAt(qs, i);
        CanonAt(rs, i);
        LowerAllIff(qs[i].name, rs[i].name);
      }
    }
  }

  /** Two requests are for the same thing exactly if they came to the same listener from the same
      IP address with the same questions; port and transaction ID play no part. */
  lemma SameKeyIff(l: nat, a: Addr, req: Request, l2: nat, a2: Addr, req2: Request)
    ensures KeyFor(l, a, req) == KeyFor(l2, a2, req2) <==>
            l == l2 && a.ip == a2.ip && SameQuestions(req.queries, req2.queries)
  {
    CanonIff(req.queries, req2.queries);
  }

  /** How far the handling of an asker's request is. A follower has nothing more to do. */
  datatype Role =
    | Follower
    | Querying
    | Collecting(res: Response)
    | Replying(res: Response, todo: seq<nat>)

  datatype Packet = Packet(asker: nat, leader: nat, via: nat, dest: Addr, res: Response)

  /** `unsent` are askers whose reply could not be serialised. */
  datatype State = State(askers: seq<Asker>, roles: seq<Role>, table: map<Key, seq<nat>>,
                         sent: seq<Packet>, unsent: seq<nat>)

  const Init := State([], [], map[], [], [])

  datatype Event =
    | Arrive(listener: nat, addr: Addr, packet: Option<Request>)
    | QueryDone(t: nat, result: Result<seq<Record>, Code>)
    | Collect(t: nat)
    | Reply(t: nat, serialised: bool)

  predicate InFlight(r: Role) {
    r.Querying? || r.Collecting?
  }

  function MakeResponse(req: Request, result: Result<seq<Record>, Code>): Response {
    match result
    case Ok(answers) => Response(0, NoError, req.recursionDesired, req.queries, answers)
    case Err(code) => Response(req.id, code, false, [], [])
  }

  /** The askers waiting for a key; a missing entry counts as an empty one. */
  function Entry(table: map<Key, seq<nat>>, k: Key): seq<nat> {
    if k in table then table[k] else []
  }

  function DoArrive(s: State, a: Asker): State {
    var t := |s.askers|;
    var k := a.key;
    var waiting := Entry(s.table, k) + [t];
    s.(askers := s.askers + [a], table := s.table[k := waiting],
       roles := s.roles + [if |waiting| > 1 then Follower else Querying])
  }

  function Waiting(s: State, t: nat): seq<nat>
    requires t < |s.askers|
  {
    Entry(s.table, s.askers[t].key)
  }

  function DoCollect(s: State, t: nat): State
    requires t < |s.askers| == |s.roles| && s.roles[t].Collecting?
  {
    s.(roles := s.roles[t := Replying(s.roles[t].res, Waiting(s, t))],
       table := s.table - {s.askers[t].key})
  }

  function DoReply(s: State, t: nat, serialised: bool): State
    requires t < |s.roles| && s.roles[t].Replying? && s.roles[t].todo != []
    requires s.roles[t].todo[0] < |s.askers|
  {
    var Replying(res, todo) := s.roles[t];
    var a := todo[0];
    var own := res.(id := s.askers[a].req.id);
    var roles := s.roles[t := Replying(own, todo[1..])];
    if serialised then
      s.(roles := roles, sent := s.sent + [Packet(a, t, s.askers[a].listener, s.askers[a].addr, own)])
    else s.(roles := roles, unsent := s.unsent + [a])
  }

  predicate Enabled(s: State, e: Event) {
    match e
    case Arrive(_, _, packet) => packet.Some?
    case QueryDone(t, _) => t < |s.askers| == |s.roles| && s.roles[t].Querying?
    case Collect(t) => t < |s.askers| == |s.roles| && s.roles[t].Collecting?
    case Reply(t, _) =>
      && t < |s.roles| && s.roles[t].Replying? && s.roles[t].todo != []
      && s.roles[t].todo[0] < |s.askers|
  }

  /** A datagram that does not parse is ignored. */
  function Step(s: State, e: Event): State {
    if !Enabled(s, e) then s
    else match e
      case Arrive(listener, addr, packet) => DoArrive(s, NewAsker(listener, addr, packet.value))
      case QueryDone(t, result) =>
        s.(roles := s.roles[t := Collecting(MakeResponse(s.askers[t].req, result))])
      case Collect(t) => DoCollect(s, t)
      case Reply(t, serialised) => DoReply(s, t, serialised)
  }

  function Run(es: seq<Event>): State {
    if es == [] then Init else Step(Run(es[..|es| - 1]), es[|es| - 1])
  }

  // ---- Where an asker is ----

  function CountIn(xs: seq<nat>, a: nat): nat {
    if xs == [] then 0 else CountIn(xs[..|xs| - 1], a) + (if xs[|xs| - 1] == a then 1 else 0)
  }

  function InTable(s: State, a: nat): nat
    requires a < |s.askers|
  {
    CountIn(Waiting(s, a), a)
  }

  function Todo(r: Role): seq<nat> {
    if r.Replying? then r.todo else []
  }

  function InTodo(roles: seq<Role>, a: nat): nat {
    if roles == [] then 0
    else InTodo(roles[..|roles| - 1], a) + CountIn(Todo(roles[|roles| - 1]), a)
  }

  function InSent(sent: seq<Packet>, a: nat): nat {
    if sent == [] then 0
    else InSent(sent[..|sent| - 1], a) + (if sent[|sent| - 1].asker == a then 1 else 0)
  }

  /** How often the asker occurs: waiting in the table, waiting for its reply, replied to,
      or given up because its reply could not be serialised. */
  function Occurrences(s: State, a: nat): nat
    requires a < |s.askers|
  {
    InTable(s, a) + InTodo(s.roles, a) + InSent(s.sent, a) + CountIn(s.unsent, a)
  }

  // ---- Invariant ----

  predicate Member(s: State, k: Key, a: nat) {
    a < |s.askers| && s.askers[a].key == k
  }

  predicate Members(s: State, k: Key, xs: seq<nat>) {
    forall i :: 0 <= i < |xs| ==> Member(s, k, xs[i])
  }

  /** A table entry is a non-empty list of askers of its key, led by the one whose query is
      in flight. */
  predicate EntryOk(s: State, k: Key)
    requires k in s.table
  {
    && s.table[k] != []
    && Members(s, k, s.table[k])
    && s.table[k][0] < |s.roles| && InFlight(s.roles[s.table[k][0]])
  }

  predicate ResponseOk(s: State, t: nat, res: Response)
    requires t < |s.askers|
  {
    res.queries == [] || res.queries == s.askers[t].req.queries
  }

  /** `t` is the first of the askers waiting for its key. */
  predicate Leads(s: State, t: nat)
    requires t < |s.askers|
  {
    s.askers[t].key in s.table && s.table[s.askers[t].key] != [] && s.table[s.askers[t].key][0] == t
  }

  predicate RoleOk(s: State, t: nat)
    requires t < |s.askers| == |s.roles|
  {
    match s.roles[t]
    case Follower => true
    case Querying => Leads(s, t)
    case Collecting(res) => Leads(s, t) && ResponseOk(s, t, res)
    case Replying(res, todo) =>
      && ResponseOk(s, t, res)
      && Members(s, s.askers[t].key, todo)
  }

  /** A packet goes to its asker's own address, through its own listener, with its own
      transaction ID, and answers a leader that asked the same thing from the same place. */
  predicate PacketOk(s: State, p: Packet) {
    && p.asker < |s.askers| && p.leader < |s.askers|
    && p.res.id == s.askers[p.asker].req.id
    && p.dest == s.askers[p.asker].addr && p.via == s.askers[p.asker].listener
    && s.askers[p.asker].key == s.askers[p.leader].key
    && (p.res.queries == [] || p.res.queries == s.askers[p.leader].req.queries)
  }

  ghost predicate EntriesOk(s: State) {
    forall k :: k in s.table ==> EntryOk(s, k)
  }

  ghost predicate RolesOk(s: State) {
    |s.roles| == |s.askers| && forall t :: 0 <= t < |s.roles| ==> RoleOk(s, t)
  }

  ghost predicate PacketsOk(s: State) {
    && (forall i :: 0 <= i < |s.sent| ==> PacketOk(s, s.sent[i]))
    && (forall i :: 0 <= i < |s.unsent| ==> s.unsent[i] < |s.askers|)
  }

  ghost predicate KeysRight(s: State) {
    forall a :: 0 <= a < |s.askers| ==> KeyRight(s.askers[a])
  }

  ghost predicate Shape(s: State) {
    EntriesOk(s) && RolesOk(s) && PacketsOk(s) && KeysRight(s)
  }

  predicate OnePlace(s: State, a: nat)
    requires a < |s.askers|
  {
    Occurrences(s, a) == 1
  }

  ghost predicate Inv(s: State) {
    Shape(s) && forall a :: 0 <= a < |s.askers| ==> OnePlace(s, a)
  }

  // ---- Counting lemmas ----

  lemma {:induction false} CountAppend(xs: seq<nat>, y: nat, a: nat)
    ensures CountIn(xs + [y], a) == CountIn(xs, a) + (if y == a then 1 else 0)
  {
    assert (xs + [y])[..|xs|] == xs;
  }

  lemma {:induction false} CountTail(xs: seq<nat>, a: nat)
    requires xs != []
    ensures CountIn(xs, a) == (if xs[0] == a then 1 else 0) + CountIn(xs[1..], a)
  {
    if |xs| > 1 {
      CountTail(xs[..|xs| - 1], a);
      assert xs[1..][..|xs| - 2] == xs[..|xs| - 1][1..];
    }
  }

  lemma {:induction false} CountAbsent(xs: seq<nat>, a: nat)
    requires forall i :: 0 <= i < |xs| ==> xs[i] != a
    ensures CountIn(xs, a) == 0
  {
    if xs != [] {
      CountAbsent(xs[..|xs| - 1], a);
    }
  }

  lemma {:induction false} TodoUpdate(roles: seq<Role>, t: nat, r: Role, a: nat)
    requires t < |roles|
    ensures InTodo(roles[t := r], a) == InTodo(roles, a) - CountIn(Todo(roles[t]), a) + CountIn(Todo(r), a)
    ensures InTodo(roles, a) >= CountIn(Todo(roles[t]), a)
  {
    var front := roles[..|roles| - 1];
    if t < |front| {
      assert roles[t := r][..|roles| - 1] == front[t := r];
      TodoUpdate(front, t, r, a);
    } else {
      assert roles[t := r][..|roles| - 1] == front;
    }
  }

  lemma {:induction false} TodoAppend(roles: seq<Role>, r: Role, a: nat)
    ensures InTodo(roles + [r], a) == InTodo(roles, a) + CountIn(Todo(r), a)
  {
    assert (roles + [r])[..|roles|] == roles;
  }

  lemma {:induction false} NoTodo(s: State, a: nat, n: nat)
    requires Shape(s) && a == |s.askers| && n <= |s.roles|
    ensures InTodo(s.roles[..n], a) == 0
  {
    if n > 0 {
      NoTodo(s, a, n - 1);
      assert s.roles[..n][..n - 1] == s.roles[..n - 1];
      assert RoleOk(s, n - 1);
      var todo := Todo(s.roles[n - 1]);
      forall i | 0 <= i < |todo| ensures todo[i] != a {
        assert Member(s, s.askers[n - 1].key, todo[i]);
      }
      CountAbsent(todo, a);
    }
  }

  lemma {:induction false} NoPacket(s: State, a: nat, n: nat)
    requires Shape(s) && a == |s.askers| && n <= |s.sent|
    ensures InSent(s.sent[..n], a) == 0
  {
    if n > 0 {
      NoPacket(s, a, n - 1);
      assert s.sent[..n][..n - 1] == s.sent[..n - 1];
      assert PacketOk(s, s.sent[n - 1]);
    }
  }

  lemma {:induction false} NobodyYet(s: State, a: nat)
    requires Shape(s) && a == |s.askers|
    ensures InTodo(s.roles, a) == 0 && InSent(s.sent, a) == 0 && CountIn(s.unsent, a) == 0
    ensures forall k :: k in s.table ==> CountIn(s.table[k], a) == 0
  {
    NoTodo(s, a, |s.roles|);
    assert s.roles[..|s.roles|] == s.roles;
    NoPacket(s, a, |s.sent|);
    assert s.sent[..|s.sent|] == s.sent;
    CountAbsent(s.unsent, a);
    forall k | k in s.table ensures CountIn(s.table[k], a) == 0 {
      assert EntryOk(s, k);
      forall i | 0 <= i < |s.table[k]| ensures s.table[k][i] != a {
        assert Member(s, k, s.table[k][i]);
      }
      CountAbsent(s.table[k], a);
    }
  }

  // ---- One lemma per kind of step ----

  /** The askers so far are still there. */
  predicate Extends(s: State, n: State) {
    |s.askers| <= |n.askers| && forall a :: 0 <= a < |s.askers| ==> n.askers[a] == s.askers[a]
  }

  lemma {:induction false} SameMembers(s: State, n: State, k: Key, xs: seq<nat>)
    requires Extends(s, n) && Members(s, k, xs)
    ensures Members(n, k, xs)
  {
    forall i | 0 <= i < |xs| ensures Member(n, k, xs[i]) {
      assert Member(s, k, xs[i]);
    }
  }

  lemma {:induction false} SamePackets(s: State, n: State)
    requires Extends(s, n) && PacketsOk(s) && n.sent == s.sent && n.unsent == s.unsent
    ensures PacketsOk(n)
  {
    forall i | 0 <= i < |s.sent| ensures PacketOk(n, s.sent[i]) {
      assert PacketOk(s, s.sent[i]);
    }
  }

  /** An entry and a role that the step does not touch. */
  lemma {:induction false} SameEntry(s: State, n: State, k: Key)
    requires Extends(s, n) && k in s.table && EntryOk(s, k)
    requires k in n.table && n.table[k] == s.table[k]
    requires s.table[k][0] < |n.roles| && InFlight(n.roles[s.table[k][0]])
    ensures EntryOk(n, k)
  {
    SameMembers(s, n, k, s.table[k]);
  }

  lemma {:induction false} SameRole(s: State, n: State, u: nat)
    requires Extends(s, n) && |s.roles| == |s.askers| && |n.roles| == |n.askers|
    requires u < |s.roles| && u < |n.roles| && n.roles[u] == s.roles[u] && RoleOk(s, u)
    requires InFlight(s.roles[u]) ==> Leads(n, u)
    ensures RoleOk(n, u)
  {
    if s.roles[u].Replying? {
      SameMembers(s, n, s.askers[u].key, s.roles[u].todo);
    }
  }

  lemma {:induction false} ArriveTable(s: State, x: Asker, a: nat)
    requires a <= |s.askers|
    ensures InTable(DoArrive(s, x), a) ==
            if a < |s.askers| then InTable(s, a)
            else 1 + (if x.key in s.table then CountIn(s.table[x.key], a) else 0)
  {
    var n := DoArrive(s, x);
    var before := if x.key in s.table then s.table[x.key] else [];
    if a < |s.askers| && s.askers[a].key != x.key {
      assert Waiting(n, a) == Waiting(s, a);
    } else {
      assert Waiting(n, a) == before + [|s.askers|];
      CountAppend(before, |s.askers|, a);
    }
  }

  lemma {:induction false} ArriveCounts(s: State, x: Asker, a: nat)
    requires Shape(s) && a <= |s.askers| && (a < |s.askers| ==> OnePlace(s, a))
    ensures a < |DoArrive(s, x).askers| && OnePlace(DoArrive(s, x), a)
  {
    ArriveTable(s, x, a);
    TodoAppend(s.roles, DoArrive(s, x).roles[|s.roles|], a);
    if a == |s.askers| {
      NobodyYet(s, a);
    }
  }

  lemma {:induction false} ArriveEntry(s: State, x: Asker, k: Key)
    requires EntriesOk(s) && |s.roles| == |s.askers| && k in DoArrive(s, x).table
    ensures EntryOk(DoArrive(s, x), k)
  {
    var n := DoArrive(s, x);
    if k in s.table {
      assert EntryOk(s, k);
      if k == x.key {
        SameMembers(s, n, k, s.table[k]);
        assert Members(n, k, s.table[k] + [|s.askers|]);
      } else {
        SameEntry(s, n, k);
      }
    }
  }

  lemma {:induction false} ArriveRole(s: State, x: Asker, u: nat)
    requires EntriesOk(s) && RolesOk(s) && u <= |s.roles|
    ensures RoleOk(DoArrive(s, x), u)
  {
    if u < |s.roles| {
      assert RoleOk(s, u);
      SameRole(s, DoArrive(s, x), u);
    } else if x.key in s.table {
      assert EntryOk(s, x.key);
    }
  }

  lemma {:induction false} ArriveShape(s: State, x: Asker)
    requires Shape(s) && KeyRight(x)
    ensures Shape(DoArrive(s, x))
  {
    var n := DoArrive(s, x);
    SamePackets(s, n);
    forall k | k in n.table ensures EntryOk(n, k) {
      ArriveEntry(s, x, k);
    }
    forall u | 0 <= u < |n.roles| ensures RoleOk(n, u) {
      ArriveRole(s, x, u);
    }
  }

  /** A step that only changes the role of `t`, which keeps the lead if it had it. */
  lemma {:induction false} RoleChange(s: State, n: State, t: nat)
    requires EntriesOk(s) && RolesOk(s) && n.askers == s.askers && n.table == s.table
    requires t < |s.roles| == |n.roles| && n.roles == s.roles[t := n.roles[t]]
    requires InFlight(s.roles[t]) ==> InFlight(n.roles[t])
    requires RoleOk(n, t)
    ensures EntriesOk(n) && RolesOk(n)
  {
    forall k | k in n.table ensures EntryOk(n, k) {
      assert EntryOk(s, k);
      SameEntry(s, n, k);
    }
    forall u | 0 <= u < |n.roles| ensures RoleOk(n, u) {
      assert RoleOk(s, u);
      if u != t {
        SameRole(s, n, u);
      }
    }
  }

  lemma {:induction false} QueryDoneShape(s: State, t: nat, result: Result<seq<Record>, Code>)
    requires Shape(s) && Enabled(s, QueryDone(t, result))
    ensures Shape(Step(s, QueryDone(t, result)))
  {
    var n := Step(s, QueryDone(t, result));
    SamePackets(s, n);
    assert RoleOk(s, t);
    RoleChange(s, n, t);
  }

  lemma {:induction false} QueryDoneCounts(s: State, t: nat, result: Result<seq<Record>, Code>, a: nat)
    requires Enabled(s, QueryDone(t, result)) && a < |s.askers| && OnePlace(s, a)
    ensures OnePlace(Step(s, QueryDone(t, result)), a)
  {
    TodoUpdate(s.roles, t, Step(s, QueryDone(t, result)).roles[t], a);
  }

  /** Collecting moves the askers of one key from the table to the leader's list. */
  lemma {:induction false} CollectTable(s: State, t: nat, a: nat)
    requires EntriesOk(s) && Enabled(s, Collect(t)) && a < |s.askers|
    ensures InTable(Step(s, Collect(t)), a) + CountIn(Waiting(s, t), a) == InTable(s, a)
  {
    var k := s.askers[t].key;
    if k in s.table && s.askers[a].key != k {
      assert EntryOk(s, k);
      forall i | 0 <= i < |s.table[k]| ensures s.table[k][i] != a {
        assert Member(s, k, s.table[k][i]);
      }
      CountAbsent(s.table[k], a);
    }
  }

  lemma {:induction false} CollectCounts(s: State, t: nat, a: nat)
    requires EntriesOk(s) && Enabled(s, Collect(t)) && a < |s.askers| && OnePlace(s, a)
    ensures OnePlace(Step(s, Collect(t)), a)
  {
    CollectTable(s, t, a);
    TodoUpdate(s.roles, t, Step(s, Collect(t)).roles[t], a);
  }

  lemma {:induction false} CollectEntries(s: State, t: nat)
    requires EntriesOk(s) && Enabled(s, Collect(t))
    ensures EntriesOk(Step(s, Collect(t)))
  {
    var n := Step(s, Collect(t));
    forall k | k in n.table ensures EntryOk(n, k) {
      assert EntryOk(s, k);
      assert Member(s, k, s.table[k][0]);
      SameEntry(s, n, k);
    }
  }

  lemma {:induction false} CollectRoles(s: State, t: nat)
    requires EntriesOk(s) && RolesOk(s) && Enabled(s, Collect(t))
    ensures RolesOk(Step(s, Collect(t)))
  {
    var n := Step(s, Collect(t));
    assert RoleOk(s, t) && EntryOk(s, s.askers[t].key);
    SameMembers(s, n, s.askers[t].key, Waiting(s, t));
    forall u | 0 <= u < |n.roles| ensures RoleOk(n, u) {
      assert RoleOk(s, u);
      if u != t {
        SameRole(s, n, u);
      }
    }
  }

  lemma {:induction false} CollectShape(s: State, t: nat)
    requires Shape(s) && Enabled(s, Collect(t))
    ensures Shape(Step(s, Collect(t)))
  {
    SamePackets(s, Step(s, Collect(t)));
    CollectEntries(s, t);
    CollectRoles(s, t);
  }

  lemma {:induction false} SentAppend(sent: seq<Packet>, p: Packet, a: nat)
    ensures InSent(sent + [p], a) == InSent(sent, a) + (if p.asker == a then 1 else 0)
  {
    assert (sent + [p])[..|sent|] == sent;
  }

  /** A reply takes the next asker off the leader's list, */
  lemma {:induction false} ReplyTodo(s: State, t: nat, ok: bool, a: nat)
    requires Enabled(s, Reply(t, ok))
    ensures InTodo(Step(s, Reply(t, ok)).roles, a) + (if s.roles[t].todo[0] == a then 1 else 0) == InTodo(s.roles, a)
  {
    TodoUpdate(s.roles, t, Step(s, Reply(t, ok)).roles[t], a);
    CountTail(s.roles[t].todo, a);
  }

  /** and puts it with those replied to or given up. */
  lemma {:induction false} ReplyDone(s: State, t: nat, ok: bool, a: nat)
    requires Enabled(s, Reply(t, ok))
    ensures var n := Step(s, Reply(t, ok));
            InSent(n.sent, a) + CountIn(n.unsent, a) ==
            InSent(s.sent, a) + CountIn(s.unsent, a) + (if s.roles[t].todo[0] == a then 1 else 0)
  {
    var n := Step(s, Reply(t, ok));
    if ok {
      SentAppend(s.sent, n.sent[|s.sent|], a);
    } else {
      CountAppend(s.unsent, s.roles[t].todo[0], a);
    }
  }

  lemma {:induction false} ReplyCounts(s: State, t: nat, ok: bool, a: nat)
    requires Enabled(s, Reply(t, ok)) && a < |s.askers| && OnePlace(s, a)
    ensures OnePlace(Step(s, Reply(t, ok)), a)
  {
    ReplyTodo(s, t, ok, a);
    ReplyDone(s, t, ok, a);
    assert InTable(Step(s, Reply(t, ok)), a) == InTable(s, a);
  }

  lemma {:induction false} ReplyRole(s: State, t: nat, ok: bool)
    requires RolesOk(s) && Enabled(s, Reply(t, ok))
    ensures RoleOk(Step(s, Reply(t, ok)), t)
    ensures Member(s, s.askers[t].key, s.roles[t].todo[0])
  {
    assert RoleOk(s, t);
    var todo := s.roles[t].todo;
    assert Member(s, s.askers[t].key, todo[0]);
    forall i | 0 <= i < |todo[1..]| ensures Member(s, s.askers[t].key, todo[1..][i]) {
      assert Member(s, s.askers[t].key, todo[i + 1]);
    }
    SameMembers(s, Step(s, Reply(t, ok)), s.askers[t].key, todo[1..]);
  }

  lemma {:induction false} ReplyShape(s: State, t: nat, ok: bool)
    requires Shape(s) && Enabled(s, Reply(t, ok))
    ensures Shape(Step(s, Reply(t, ok)))
  {
    var n := Step(s, Reply(t, ok));
    ReplyRole(s, t, ok);
    RoleChange(s, n, t);
    assert RoleOk(s, t);
    forall i | 0 <= i < |n.sent| ensures PacketOk(n, n.sent[i]) {
      if i < |s.sent| {
        assert PacketOk(s, s.sent[i]);
      }
    }
  }

  lemma {:induction false} StepKeeps(s: State, e: Event)
    requires Inv(s)
    ensures Inv(Step(s, e))
  {
    if Enabled(s, e) {
      match e
      case Arrive(listener, addr, packet) =>
        var x := NewAsker(listener, addr, packet.value);
        ArriveShape(s, x);
        forall a | 0 <= a < |DoArrive(s, x).askers| ensures OnePlace(DoArrive(s, x), a) {
          assert a < |s.askers| ==> OnePlace(s, a);
          ArriveCounts(s, x, a);
        }
      case QueryDone(t, result) =>
        QueryDoneShape(s, t, result);
        forall a | 0 <= a < |s.askers| ensures OnePlace(Step(s, e), a) {
          assert OnePlace(s, a);
          QueryDoneCounts(s, t, result, a);
        }
      case Collect(t) =>
        CollectShape(s, t);
        forall a | 0 <= a < |s.askers| ensures OnePlace(Step(s, e), a) {
          assert OnePlace(s, a);
          CollectCounts(s, t, a);
        }
      case Reply(t, ok) =>
        ReplyShape(s, t, ok);
        forall a | 0 <= a < |s.askers| ensures OnePlace(Step(s, e), a) {
          assert OnePlace(s, a);
          ReplyCounts(s, t, ok, a);
        }
    }
  }

  lemma {:induction false} RunKeeps(es: seq<Event>)
    ensures Inv(Run(es))
  {
    if es != [] {
      RunKeeps(es[..|es| - 1]);
      StepKeeps(Run(es[..|es| - 1]), es[|es| - 1]);
    }
  }

  // ---- Theorems ----

  /** In every run each accepted asker is in exactly one place: waiting in the table,
      waiting for a leader to reply, replied to once, or given up once. */
  lemma {:induction false} AskersConserved(es: seq<Event>, a: nat)
    requires a < |Run(es).askers|
    ensures Occurrences(Run(es), a) == 1
  {
    RunKeeps(es);
    assert OnePlace(Run(es), a);
  }

  predicate Idle(s: State) {
    forall t :: 0 <= t < |s.roles| ==> !InFlight(s.roles[t]) && Todo(s.roles[t]) == []
  }

  lemma {:induction false} EmptyTodo(roles: seq<Role>, a: nat)
    requires forall t :: 0 <= t < |roles| ==> Todo(roles[t]) == []
    ensures InTodo(roles, a) == 0
  {
    if roles != [] {
      EmptyTodo(roles[..|roles| - 1], a);
      assert Todo(roles[|roles| - 1]) == [];
    }
  }

  /** When no query is in flight and no leader has replies left, the table is empty and
      every asker has been replied to exactly once or given up. */
  lemma {:induction false} IdleMeansAnswered(es: seq<Event>, a: nat)
    requires Idle(Run(es))
    requires a < |Run(es).askers|
    ensures Run(es).table == map[]
    ensures InSent(Run(es).sent, a) + CountIn(Run(es).unsent, a) == 1
  {
    RunKeeps(es);
    var s := Run(es);
    forall k ensures k !in s.table {
    }
    EmptyTodo(s.roles, a);
    assert OnePlace(s, a);
  }

  /** A query for the key is in flight, led by asker `t`. */
  predicate LeadsFor(s: State, k: Key, t: nat) {
    Member(s, k, t) && t < |s.roles| && InFlight(s.roles[t])
  }

  /** A key is in the table exactly while one query for it is in flight, and that query's
      leader is the first in the list. */
  lemma {:induction false} KeyMeansOneLeader(es: seq<Event>, k: Key)
    ensures k in Run(es).table <==> exists t :: LeadsFor(Run(es), k, t)
    ensures forall t, u | LeadsFor(Run(es), k, t) && LeadsFor(Run(es), k, u) :: t == u
  {
    RunKeeps(es);
    var s := Run(es);
    if k in s.table {
      assert EntryOk(s, k);
      assert LeadsFor(s, k, s.table[k][0]);
    }
    forall t | LeadsFor(s, k, t)
      ensures k in s.table && s.table[k] != [] && s.table[k][0] == t
    {
      assert RoleOk(s, t);
    }
  }

  /** A request that is accepted becomes the last asker. It waits for a leader exactly if one is
      at work for the same thing; otherwise it leads. A datagram that cannot be parsed is
      ignored. */
  lemma {:induction false} FollowsIffLed(es: seq<Event>, listener: nat, addr: Addr, req: Request)
    ensures var s, n := Run(es), Step(Run(es), Arrive(listener, addr, Some(req)));
            var k := KeyFor(listener, addr, req);
            && n.askers == s.askers + [Asker(listener, addr, req, k)]
            && n.roles == s.roles + [if exists t :: LeadsFor(s, k, t) then Follower else Querying]
            && Step(s, Arrive(listener, addr, None)) == s
  {
    KeyMeansOneLeader(es, KeyFor(listener, addr, req));
    RunKeeps(es);
    var s, k := Run(es), KeyFor(listener, addr, req);
    if k in s.table {
      assert EntryOk(s, k);
    }
  }

  /** `remove` never finds nothing: a leader that comes to collect finds at least itself. */
  lemma {:induction false} CollectFindsItself(es: seq<Event>, t: nat)
    requires Enabled(Run(es), Collect(t))
    ensures Run(es).askers[t].key in Run(es).table
    ensures Waiting(Run(es), t) != [] && Waiting(Run(es), t)[0] == t
  {
    RunKeeps(es);
    assert RoleOk(Run(es), t);
  }

  /** Every packet goes to an accepted asker, at its address, through its listener, with its
      transaction ID; the query it answers was made from the same listener and source
      address, for the same question up to letter case. */
  lemma {:induction false} RepliesReachTheirAsker(es: seq<Event>, i: nat)
    requires i < |Run(es).sent|
    ensures var s, p := Run(es), Run(es).sent[i];
            && p.asker < |s.askers| && p.leader < |s.askers|
            && p.res.id == s.askers[p.asker].req.id
            && p.dest == s.askers[p.asker].addr && p.via == s.askers[p.asker].listener
            && s.askers[p.leader].listener == s.askers[p.asker].listener
            && s.askers[p.leader].addr.ip == s.askers[p.asker].addr.ip
            && Canon(s.askers[p.leader].req.queries) == Canon(s.askers[p.asker].req.queries)
            && (p.res.queries == [] || Canon(p.res.queries) == Canon(s.askers[p.asker].req.queries))
  {
    RunKeeps(es);
    assert PacketOk(Run(es), Run(es).sent[i]);
  }

  /** What the query led by asker `t` came back with, if it has come back. */
  function QueryResult(es: seq<Event>, t: nat): Option<Result<seq<Record>, Code>> {
    if es == [] then None
    else
      var front, e := es[..|es| - 1], es[|es| - 1];
      if e.QueryDone? && e.t == t && Enabled(Run(front), e) then Some(e.result) else QueryResult(front, t)
  }

  /** `res` is, apart from its transaction ID, what that query came back with. */
  predicate ResultIs(es: seq<Event>, t: nat, req: Request, res: Response) {
    QueryResult(es, t).Some? && res == MakeResponse(req, QueryResult(es, t).value).(id := res.id)
  }

  predicate RoleCarries(es: seq<Event>, s: State, t: nat)
    requires t < |s.roles| == |s.askers|
  {
    s.roles[t].Collecting? || s.roles[t].Replying? ==> ResultIs(es, t, s.askers[t].req, s.roles[t].res)
  }

  predicate PacketCarries(es: seq<Event>, s: State, p: Packet)
    requires |s.roles| == |s.askers|
  {
    && p.leader < |s.roles| && s.roles[p.leader].Replying?
    && ResultIs(es, p.leader, s.askers[p.leader].req, p.res)
  }

  ghost predicate Carried(es: seq<Event>) {
    var s := Run(es);
    && |s.roles| == |s.askers|
    && (forall t :: 0 <= t < |s.roles| ==> RoleCarries(es, s, t))
    && (forall i :: 0 <= i < |s.sent| ==> PacketCarries(es, s, s.sent[i]))
  }

  /** The result of a query that has come back does not change. */
  lemma {:induction false} ResultStays(es: seq<Event>, t: nat)
    requires es != []
    requires var s := Run(es[..|es| - 1]);
             t < |s.roles| == |s.askers| && !s.roles[t].Querying?
    ensures QueryResult(es, t) == QueryResult(es[..|es| - 1], t)
  {
  }

  lemma {:induction false} RoleCarriesOn(es: seq<Event>, t: nat)
    requires es != [] && Carried(es[..|es| - 1])
    requires |Run(es).roles| == |Run(es).askers| && t < |Run(es).roles|
    ensures RoleCarries(es, Run(es), t)
  {
    var front := es[..|es| - 1];
    var s := Run(front);
    if t < |s.roles| {
      assert RoleCarries(front, s, t);
      if !s.roles[t].Querying? {
        ResultStays(es, t);
      }
    }
  }

  lemma {:induction false} PacketCarriesOn(es: seq<Event>, i: nat)
    requires es != [] && Carried(es[..|es| - 1])
    requires |Run(es).roles| == |Run(es).askers| && i < |Run(es).sent|
    ensures PacketCarries(es, Run(es), Run(es).sent[i])
  {
    var front, e := es[..|es| - 1], es[|es| - 1];
    var s := Run(front);
    if i < |s.sent| {
      assert PacketCarries(front, s, s.sent[i]);
      ResultStays(es, s.sent[i].leader);
    } else {
      assert RoleCarries(front, s, e.t);
      ResultStays(es, e.t);
    }
  }

  lemma {:induction false} RunCarries(es: seq<Event>)
    ensures Carried(es)
  {
    if es != [] {
      RunCarries(es[..|es| - 1]);
      RunKeeps(es);
      forall t | 0 <= t < |Run(es).roles| ensures RoleCarries(es, Run(es), t) {
        RoleCarriesOn(es, t);
      }
      forall i | 0 <= i < |Run(es).sent| ensures PacketCarries(es, Run(es), Run(es).sent[i]) {
        PacketCarriesOn(es, i);
      }
    }
  }

  /** What an asker is sent is the outcome of its leader's own query, under the asker's
      transaction ID. */
  lemma RepliesCarryTheResult(es: seq<Event>, i: nat)
    requires i < |Run(es).sent|
    ensures var s, p := Run(es), Run(es).sent[i];
            && p.leader < |s.askers| && p.asker < |s.askers|
            && QueryResult(es, p.leader).Some?
            && p.res == MakeResponse(s.askers[p.leader].req, QueryResult(es, p.leader).value)
                        .(id := s.askers[p.asker].req.id)
  {
    RunCarries(es);
    RunKeeps(es);
    var p := Run(es).sent[i];
    assert PacketOk(Run(es), p) && PacketCarries(es, Run(es), p);
  }

  /** What a reply says: if the leader's query succeeded, no error and all of its answers, with
      the leader's questions and wish for recursion; if it failed, its error code and nothing
      else. */
  lemma ReplySays(es: seq<Event>, i: nat)
    requires i < |Run(es).sent|
    ensures var s, p := Run(es), Run(es).sent[i];
            && p.leader < |s.askers| && p.asker < |s.askers| && QueryResult(es, p.leader).Some?
            && p.res.id == s.askers[p.asker].req.id
            && match QueryResult(es, p.leader).value
               case Ok(records) =>
                 && p.res.code == NoError && p.res.answers == records
                 && p.res.queries == s.askers[p.leader].req.queries
                 && p.res.recursionDesired == s.askers[p.leader].req.recursionDesired
               case Err(code) =>
                 && p.res.code == code && p.res.answers == [] && p.res.queries == [] && !p.res.recursionDesired
  {
    RepliesCarryTheResult(es, i);
  }

  /** Exactly when a reply repeats the asker's own questions: when the leader's query succeeded
      and the leader spelt the questions the same way, or there were no questions. In
      particular an error reply repeats no question. */
  lemma EchoIff(es: seq<Event>, i: nat)
    requires i < |Run(es).sent|
    ensures var s, p := Run(es), Run(es).sent[i];
            && p.leader < |s.askers| && p.asker < |s.askers| && QueryResult(es, p.leader).Some?
            && (p.res.queries == s.askers[p.asker].req.queries <==>
                || (QueryResult(es, p.leader).value.Ok?
                    && s.askers[p.leader].req.queries == s.askers[p.asker].req.queries)
                || s.askers[p.asker].req.queries == [])
            && (QueryResult(es, p.leader).value.Err? ==> p.res.queries == [])
  {
    RepliesCarryTheResult(es, i);
    RepliesReachTheirAsker(es, i);
    var s, p := Run(es), Run(es).sent[i];
    assert |Canon(s.askers[p.leader].req.queries)| == |Canon(s.askers[p.asker].req.queries)|;
  }

  lemma {:induction false} TwoArrive(es: seq<Event>, x: Asker, y: Asker)
    requires |es| == 6 && x.key == y.key && KeyRight(x) && KeyRight(y)
    requires es[0] == Arrive(x.listener, x.addr, Some(x.req)) && es[1] == Arrive(y.listener, y.addr, Some(y.req))
    ensures Run(es[..2]) == State([x, y], [Querying, Follower], map[x.key := [0, 1]], [], [])
  {
    var s1 := State([x], [Querying], map[x.key := [0]], [], []);
    assert Run(es[..1]) == s1 by {
      assert es[..1][..0] == [];
      assert [] + [0] == [0];
      assert DoArrive(Init, x) == s1;
    }
    assert es[..2][..1] == es[..1];
    assert [0] + [1] == [0, 1];
    assert DoArrive(s1, y) == State([x, y], [Querying, Follower], map[x.key := [0, 1]], [], []);
  }

  lemma {:induction false} TwoReplied(es: seq<Event>, x: Asker, y: Asker, res: Response)
    requires |es| == 6 && x.key == y.key && res == MakeResponse(x.req, Ok([]))
    requires Run(es[..2]) == State([x, y], [Querying, Follower], map[x.key := [0, 1]], [], [])
    requires es[2] == QueryDone(0, Ok([])) && es[3] == Collect(0) && es[4] == Reply(0, true) == es[5]
    ensures Run(es).askers == [x, y]
    ensures |Run(es).sent| == 2 && Run(es).sent[1] == Packet(1, 0, y.listener, y.addr, res.(id := y.req.id))
  {
    var s3 := Run(es[..3]);
    assert s3 == State([x, y], [Collecting(res), Follower], map[x.key := [0, 1]], [], []) by {
      assert es[..3][..2] == es[..2];
    }
    var s4 := Run(es[..4]);
    assert s4 == State([x, y], [Replying(res, [0, 1]), Follower], map[], [], []) by {
      assert es[..4][..3] == es[..3];
    }
    var s5 := Run(es[..5]);
    assert s5.askers == [x, y] && s5.roles == [Replying(res.(id := x.req.id), [1]), Follower] && |s5.sent| == 1 by {
      assert es[..5][..4] == es[..4];
    }
    assert es[..|es| - 1] == es[..5];
  }

  lemma {:induction false} SameKey(ip: Ip, x: Asker, y: Asker)
    requires x == NewAsker(0, Addr(ip, 1), Request(1, true, [Query("a", TypeA, ClassIN)]))
    requires y == NewAsker(0, Addr(ip, 2), Request(2, true, [Query("A", TypeA, ClassIN)]))
    ensures x.key == y.key
  {
    assert LowerAll("a") == "a" && LowerAll("A") == "a";
    assert x.req.queries[1..] == [] == y.req.queries[1..];
  }

  /** "Up to letter case" cannot be dropped: an asker may be sent the question in the
      spelling of the asker that came first. */
  lemma {:induction false} EchoMayDifferInCase(ip: Ip)
    ensures exists es, i :: 0 <= i < |Run(es).sent| &&
              var p := Run(es).sent[i];
              p.asker < |Run(es).askers| && p.res.queries != [] && p.res.queries != Run(es).askers[p.asker].req.queries
  {
    var small, big := [Query("a", TypeA, ClassIN)], [Query("A", TypeA, ClassIN)];
    var x := NewAsker(0, Addr(ip, 1), Request(1, true, small));
    var y := NewAsker(0, Addr(ip, 2), Request(2, true, big));
    var es := [Arrive(0, x.addr, Some(x.req)), Arrive(0, y.addr, Some(y.req)),
               QueryDone(0, Ok([])), Collect(0), Reply(0, true), Reply(0, true)];
    SameKey(ip, x, y);
    var res := Response(0, NoError, true, small, []);
    TwoArrive(es, x, y);
    TwoReplied(es, x, y, res);
    assert Run(es).sent[1].res.queries == small;
    assert small[0].name != big[0].name;
  }

  // ---- Everybody can be answered ----

  /** Steps that a leader needs before it can reply. */
  function StepsLeft(r: Role): nat {
    if r.Querying? then 2 else if r.Collecting? then 1 else 0
  }

  function AllStepsLeft(roles: seq<Role>): nat {
    if roles == [] then 0 else AllStepsLeft(roles[..|roles| - 1]) + StepsLeft(roles[|roles| - 1])
  }

  function AllTodo(roles: seq<Role>): nat {
    if roles == [] then 0 else AllTodo(roles[..|roles| - 1]) + |Todo(roles[|roles| - 1])|
  }

  lemma {:induction false} LeftUpdate(roles: seq<Role>, t: nat, r: Role)
    requires t < |roles|
    ensures AllStepsLeft(roles[t := r]) == AllStepsLeft(roles) - StepsLeft(roles[t]) + StepsLeft(r)
    ensures AllTodo(roles[t := r]) == AllTodo(roles) - |Todo(roles[t])| + |Todo(r)|
  {
    var front := roles[..|roles| - 1];
    if t < |front| {
      assert roles[t := r][..|roles| - 1] == front[t := r];
      LeftUpdate(front, t, r);
    } else {
      assert roles[t := r][..|roles| - 1] == front;
    }
  }

  /** What leader `t` does next. */
  function NextOf(s: State, t: nat): Event
    requires t < |s.roles|
  {
    if s.roles[t].Querying? then QueryDone(t, Ok([]))
    else if s.roles[t].Collecting? then Collect(t)
    else Reply(t, true)
  }

  predicate Busy(r: Role) {
    InFlight(r) || Todo(r) != []
  }

  lemma {:induction false} BusyCanStep(s: State, t: nat)
    requires Inv(s) && t < |s.roles| && Busy(s.roles[t])
    ensures Enabled(s, NextOf(s, t))
    ensures var n := Step(s, NextOf(s, t));
            && n.askers == s.askers && n.unsent == s.unsent && |n.roles| == |s.roles|
            && n.roles == s.roles[t := n.roles[t]]
            && (StepsLeft(n.roles[t]) < StepsLeft(s.roles[t])
                || (StepsLeft(n.roles[t]) == StepsLeft(s.roles[t]) && |Todo(n.roles[t])| < |Todo(s.roles[t])|))
  {
    assert RoleOk(s, t);
    if s.roles[t].Replying? {
      assert Member(s, s.askers[t].key, s.roles[t].todo[0]);
    }
  }

  /** Less is left to do in `n` than in `s`. */
  predicate Nearer(s: State, n: State) {
    || AllStepsLeft(n.roles) < AllStepsLeft(s.roles)
    || (AllStepsLeft(n.roles) == AllStepsLeft(s.roles) && AllTodo(n.roles) < AllTodo(s.roles))
  }

  lemma {:induction false} BusyGetsNearer(s: State, t: nat)
    requires Inv(s) && t < |s.roles| && Busy(s.roles[t])
    ensures var n := Step(s, NextOf(s, t));
            n.askers == s.askers && n.unsent == s.unsent && Nearer(s, n)
  {
    BusyCanStep(s, t);
    LeftUpdate(s.roles, t, Step(s, NextOf(s, t)).roles[t]);
  }

  lemma {:induction false} SomeoneBusy(s: State) returns (t: nat)
    requires !Idle(s)
    ensures t < |s.roles| && Busy(s.roles[t])
  {
    t :| 0 <= t < |s.roles| && !(!InFlight(s.roles[t]) && Todo(s.roles[t]) == []);
  }

  /** Going on from any state. */
  function Continue(s: State, es: seq<Event>): State
    decreases |es|
  {
    if es == [] then s else Continue(Step(s, es[0]), es[1..])
  }

  lemma {:induction false} ContinueSnoc(s: State, es: seq<Event>)
    requires es != []
    ensures Continue(s, es) == Step(Continue(s, es[..|es| - 1]), es[|es| - 1])
    decreases |es|
  {
    if |es| > 1 {
      ContinueSnoc(Step(s, es[0]), es[1..]);
      assert es[1..][..|es| - 2] == es[..|es| - 1][1..];
    }
  }

  lemma {:induction false} RunContinue(es: seq<Event>, fs: seq<Event>)
    ensures Run(es + fs) == Continue(Run(es), fs)
  {
    if fs == [] {
      assert es + fs == es;
    } else {
      RunContinue(es, fs[..|fs| - 1]);
      assert (es + fs)[..|es + fs| - 1] == es + fs[..|fs| - 1];
      ContinueSnoc(Run(es), fs);
    }
  }

  lemma {:induction false} CanSettle(s: State) returns (fs: seq<Event>)
    requires Inv(s)
    ensures Idle(Continue(s, fs))
    ensures Continue(s, fs).askers == s.askers && Continue(s, fs).unsent == s.unsent
    decreases AllStepsLeft(s.roles), AllTodo(s.roles)
  {
    if Idle(s) {
      fs := [];
    } else {
      var t := SomeoneBusy(s);
      var e := NextOf(s, t);
      BusyGetsNearer(s, t);
      StepKeeps(s, e);
      var rest := CanSettle(Step(s, e));
      fs := [e] + rest;
      assert fs[1..] == rest;
    }
  }

  /** The askers are the same, and those not given up in `s` have been answered once in `t`. */
  ghost predicate Settled(s: State, t: State) {
    && t.askers == s.askers && t.unsent == s.unsent
    && forall a :: 0 <= a < |s.askers| ==> InSent(t.sent, a) == 1 - CountIn(s.unsent, a)
  }

  /** From every reachable state there is a continuation without new askers in which every asker
      not yet given up is answered, exactly once. */
  lemma {:induction false} EveryoneCanBeAnswered(es: seq<Event>)
    ensures exists fs :: Settled(Run(es), Run(es + fs))
  {
    RunKeeps(es);
    var fs := CanSettle(Run(es));
    RunContinue(es, fs);
    forall a | 0 <= a < |Run(es).askers|
      ensures InSent(Run(es + fs).sent, a) == 1 - CountIn(Run(es).unsent, a)
    {
      IdleMeansAnswered(es + fs, a);
    }
    assert Settled(Run(es), Run(es + fs));
  }

  // ---- The shared table, updated in place ----

  class Resolver {
    var askers: seq<Asker>
    var roles: seq<Role>
    var currentRequests: map<Key, seq<nat>>
    var sent: seq<Packet>
    var unsent: seq<nat>

    ghost function Snapshot(): State
      reads this
    {
      State(askers, roles, currentRequests, sent, unsent)
    }

    constructor ()
      ensures Snapshot() == Init
    {
      askers, roles, currentRequests, sent, unsent := [], [], map[], [], [];
    }

    /** The part of `handle_dns_req` up to the query: parse, join the table, and go on only
        as the first asker of the key. */
    method Receive(listener: nat, addr: Addr, packet: Option<Request>) returns (leads: bool)
      modifies this
      ensures Snapshot() == Step(old(Snapshot()), Arrive(listener, addr, packet))
      ensures leads <==> packet.Some? && Entry(old(currentRequests), KeyFor(listener, addr, packet.value)) == []
    {
      if packet.None? {
        return false;
      }
      var key := KeyFor(listener, addr, packet.value);
      if key !in currentRequests {
        currentRequests := currentRequests[key := []];
      }
      currentRequests := currentRequests[key := currentRequests[key] + [|askers|]];
      leads := |currentRequests[key]| <= 1;
      askers := askers + [Asker(listener, addr, packet.value, key)];
      roles := roles + [if leads then Querying else Follower];
    }

    method FinishQuery(t: nat, result: Result<seq<Record>, Code>)
      requires Enabled(Snapshot(), QueryDone(t, result))
      modifies this
      ensures Snapshot() == Step(old(Snapshot()), QueryDone(t, result))
    {
      var res: Response;
      match result {
        case Ok(answers) =>
          res := Response(0, NoError, askers[t].req.recursionDesired, askers[t].req.queries, answers);
        case Err(code) =>
          res := Response(askers[t].req.id, code, false, [], []);
      }
      roles := roles[t := Collecting(res)];
    }

    method CollectTargets(t: nat)
      requires Enabled(Snapshot(), Collect(t))
      modifies this
      ensures Snapshot() == Step(old(Snapshot()), Collect(t))
    {
      var key := askers[t].key;
      var targets := Entry(currentRequests, key);
      currentRequests := currentRequests - {key};
      roles := roles[t := Replying(roles[t].res, targets)];
    }

    method ReplyToNext(t: nat, serialised: bool)
      requires Enabled(Snapshot(), Reply(t, serialised))
      modifies this
      ensures Snapshot() == Step(old(Snapshot()), Reply(t, serialised))
    {
      var target := roles[t].todo[0];
      var res := roles[t].res.(id := askers[target].req.id);
      roles := roles[t := Replying(res, roles[t].todo[1..])];
      if !serialised {
        unsent := unsent + [target];
        return;
      }
      sent := sent + [Packet(target, t, askers[target].listener, askers[target].addr, res)];
    }
  }
}
