/** Turning the questions of one DNS request into answers over Tor. What the Tor network
    says to each question is an argument, so nothing is assumed about it. */
module DnsQuery {
  import opened Common
  import opened Dns

  const TTL: nat := 3600

  /** How looking up a name or an address went; `notFound` is the error kind that is
      reported as "no data". */
  datatype Lookup<+T> = Found(items: seq<T>) | Failed(notFound: bool)

  /** For each question: what resolving its name gives, whether its name is a reverse
      address, and what the reverse lookup gives (None: not a valid name). */
  datatype Network = Network(forward: nat -> Lookup<Ip>, isArpa: nat -> bool, reverse: nat -> Lookup<Option<string>>)

  function ErrorCode<T>(l: Lookup<T>): Code
    requires l.Failed?
  {
    if l.notFound then NoError else ServFail
  }

  /** The answer that one found address gives to a question of type `typ`, if it fits. */
  function AddressRecord(name: string, ip: Ip, typ: QueryType): seq<Record> {
    match (ip, typ)
    case (V4(_, _, _, _), TypeA) => [Record(name, TTL, DataA(ip))]
    case (V6(_), TypeAAAA) => [Record(name, TTL, DataAAAA(ip))]
    case _ => []
  }

  function AddressRecords(name: string, ips: seq<Ip>, typ: QueryType): seq<Record> {
    if ips == [] then []
    else AddressRecords(name, ips[..|ips| - 1], typ) + AddressRecord(name, ips[|ips| - 1], typ)
  }

  function PtrRecords(name: string, domains: seq<Option<string>>): Option<seq<Record>> {
    if domains == [] then Some([])
    else match (PtrRecords(name, domains[..|domains| - 1]), domains[|domains| - 1])
      case (Some(rs), Some(d)) => Some(rs + [Record(name, TTL, DataPTR(d))])
      case _ => None
  }

  function AnswerAddress(q: Query, l: Lookup<Ip>): Result<seq<Record>, Code> {
    if l.Failed? then Err(ErrorCode(l)) else Ok(AddressRecords(q.name, l.items, q.typ))
  }

  function AnswerPtr(q: Query, l: Lookup<Option<string>>): Result<seq<Record>, Code> {
    if l.Failed? then Err(ErrorCode(l))
    else match PtrRecords(q.name, l.items)
      case Some(rs) => Ok(rs)
      case None => Err(ServFail)
  }

  /** The outcome of one question. */
  function AnswerOne(q: Query, i: nat, net: Network): Result<seq<Record>, Code> {
    if q.cls.OtherClass? then Err(NotImp)
    else match q.typ
      case TypeA => AnswerAddress(q, net.forward(i))
      case TypeAAAA => AnswerAddress(q, net.forward(i))
      case TypePTR => if net.isArpa(i) then AnswerPtr(q, net.reverse(i)) else Err(FormErr)
      case OtherType => Err(NotImp)
  }

  /** All questions in order; the first failure is the outcome. */
  function AnswerAll(qs: seq<Query>, net: Network): Result<seq<Record>, Code> {
    if qs == [] then Ok([])
    else match AnswerAll(qs[..|qs| - 1], net)
      case Err(c) => Err(c)
      case Ok(rs) =>
        match AnswerOne(qs[|qs| - 1], |qs| - 1, net)
        case Err(c) => Err(c)
        case Ok(more) => Ok(rs + more)
  }

  method CollectAddresses(q: Query, ips: seq<Ip>) returns (answers: seq<Record>)
    ensures answers == AddressRecords(q.name, ips, q.typ)
  {
    answers := [];
    var i := 0;
    while i < |ips|
      invariant 0 <= i <= |ips|
      invariant answers == AddressRecords(q.name, ips[..i], q.typ)
    {
      assert ips[..i + 1][..i] == ips[..i];
      match (ips[i], q.typ) {
        case (V4(_, _, _, _), TypeA) => answers := answers + [Record(q.name, TTL, DataA(ips[i]))];
        case (V6(_), TypeAAAA) => answers := answers + [Record(q.name, TTL, DataAAAA(ips[i]))];
        case _ => assert AddressRecord(q.name, ips[i], q.typ) == [];
      }
      i := i + 1;
    }
    assert ips[..|ips|] == ips;
  }

  lemma {:induction false} BadNameSpoils(name: string, domains: seq<Option<string>>, i: nat)
    requires i < |domains| && domains[i].None?
    ensures PtrRecords(name, domains).None?
  {
    if i < |domains| - 1 {
      BadNameSpoils(name, domains[..|domains| - 1], i);
    }
  }

  method CollectNames(q: Query, domains: seq<Option<string>>) returns (result: Result<seq<Record>, Code>)
    ensures result == match PtrRecords(q.name, domains) case Some(rs) => Ok(rs) case None => Err(ServFail)
  {
    var answers := [];
    var i := 0;
    while i < |domains|
      invariant 0 <= i <= |domains|
      invariant PtrRecords(q.name, domains[..i]) == Some(answers)
    {
      assert domains[..i + 1][..i] == domains[..i];
      match domains[i] {
        case None =>
          BadNameSpoils(q.name, domains, i);
          return Err(ServFail);
        case Some(d) =>
          answers := answers + [Record(q.name, TTL, DataPTR(d))];
      }
      i := i + 1;
    }
    assert domains[..|domains|] == domains;
    result := Ok(answers);
  }

  method AnswerQuestion(q: Query, i: nat, net: Network) returns (result: Result<seq<Record>, Code>)
    ensures result == AnswerOne(q, i, net)
  {
    if q.cls.OtherClass? {
      return Err(NotImp);
    }
    match q.typ {
      case OtherType => return Err(NotImp);
      case TypePTR =>
        if !net.isArpa(i) {
          return Err(FormErr);
        }
        var l := net.reverse(i);
        if l.Failed? {
          return Err(ErrorCode(l));
        }
        result := CollectNames(q, l.items);
      case _ =>
        var l := net.forward(i);
        if l.Failed? {
          return Err(ErrorCode(l));
        }
        var rs := CollectAddresses(q, l.items);
        result := Ok(rs);
    }
  }

  lemma {:induction false} AllGood(qs: seq<Query>, net: Network)
    requires forall k :: 0 <= k < |qs| ==> AnswerOne(qs[k], k, net).Ok?
    ensures AnswerAll(qs, net).Ok?
  {
    if qs != [] {
      AllGood(qs[..|qs| - 1], net);
    }
  }

  /** If some question fails, the outcome is the code of the first that does: answers to
      earlier questions are not sent. */
  lemma {:induction false} FirstErrorWins(qs: seq<Query>, n: nat, net: Network)
    requires n < |qs| && AnswerOne(qs[n], n, net).Err?
    requires forall k :: 0 <= k < n ==> AnswerOne(qs[k], k, net).Ok?
    ensures AnswerAll(qs, net) == Err(AnswerOne(qs[n], n, net).error)
    decreases |qs|
  {
    var front := qs[..|qs| - 1];
    if n < |front| {
      FirstErrorWins(front, n, net);
    } else {
      AllGood(front, net);
    }
  }

  /** `do_query`: the answers are collected in place, question by question. */
  method DoQuery(qs: seq<Query>, net: Network) returns (result: Result<seq<Record>, Code>)
    ensures result == AnswerAll(qs, net)
  {
    var answers := [];
    var n := 0;
    while n < |qs|
      invariant 0 <= n <= |qs|
      invariant AnswerAll(qs[..n], net) == Ok(answers)
      invariant forall k :: 0 <= k < n ==> AnswerOne(qs[k], k, net).Ok?
    {
      var one := AnswerQuestion(qs[n], n, net);
      assert qs[..n + 1][..n] == qs[..n];
      if one.Err? {
        FirstErrorWins(qs, n, net);
        return Err(one.error);
      }
      answers := answers + one.value;
      n := n + 1;
    }
    assert qs[..|qs|] == qs;
    result := Ok(answers);
  }

  /** How often the network said, in reply to question `i`, what record `r` states, if `r` names
      the question and is of the type asked for. */
  ghost function TimesSaid(q: Query, i: nat, net: Network, r: Record): nat {
    if r.name != q.name || r.ttl != TTL || q.cls.OtherClass? then 0
    else match r.data
      case DataA(ip) =>
        if q.typ.TypeA? && ip.V4? && net.forward(i).Found? then multiset(net.forward(i).items)[ip] else 0
      case DataAAAA(ip) =>
        if q.typ.TypeAAAA? && ip.V6? && net.forward(i).Found? then multiset(net.forward(i).items)[ip] else 0
      case DataPTR(d) =>
        if q.typ.TypePTR? && net.isArpa(i) && net.reverse(i).Found? then multiset(net.reverse(i).items)[Some(d)] else 0
  }

  /** The same over all questions. */
  ghost function AllTimesSaid(qs: seq<Query>, net: Network, r: Record): nat {
    if qs == [] then 0
    else AllTimesSaid(qs[..|qs| - 1], net, r) + TimesSaid(qs[|qs| - 1], |qs| - 1, net, r)
  }

  predicate Fits(name: string, typ: QueryType, r: Record) {
    && r.name == name && r.ttl == TTL
    && ((r.data.DataA? && typ.TypeA? && r.data.ip.V4?) || (r.data.DataAAAA? && typ.TypeAAAA? && r.data.ip.V6?))
  }

  lemma TimesInConcat<T>(a: seq<T>, b: seq<T>, x: T)
    ensures multiset(a + b)[x] == multiset(a)[x] + multiset(b)[x]
  {
  }

  lemma TimesInSnoc<T>(a: seq<T>, x: T)
    requires a != []
    ensures multiset(a)[x] == multiset(a[..|a| - 1])[x] + (if a[|a| - 1] == x then 1 else 0)
  {
    assert a == a[..|a| - 1] + [a[|a| - 1]];
  }

  lemma {:induction false} AddressCounted(name: string, ip: Ip, typ: QueryType, r: Record)
    ensures multiset(AddressRecord(name, ip, typ))[r] == if Fits(name, typ, r) && r.data.ip == ip then 1 else 0
  {
  }

  lemma {:induction false} AddressesCounted(name: string, ips: seq<Ip>, typ: QueryType, r: Record)
    ensures multiset(AddressRecords(name, ips, typ))[r] == if Fits(name, typ, r) then multiset(ips)[r.data.ip] else 0
  {
    if ips != [] {
      var front, last := ips[..|ips| - 1], ips[|ips| - 1];
      AddressesCounted(name, front, typ, r);
      AddressCounted(name, last, typ, r);
      TimesInConcat(AddressRecords(name, front, typ), AddressRecord(name, last, typ), r);
      if Fits(name, typ, r) {
        TimesInSnoc(ips, r.data.ip);
      }
    }
  }

  lemma {:induction false} NamesCounted(name: string, domains: seq<Option<string>>, r: Record)
    requires PtrRecords(name, domains).Some?
    ensures multiset(PtrRecords(name, domains).value)[r] ==
            if r.name == name && r.ttl == TTL && r.data.DataPTR? then multiset(domains)[Some(r.data.name)] else 0
  {
    if domains != [] {
      var front, last := domains[..|domains| - 1], domains[|domains| - 1];
      NamesCounted(name, front, r);
      TimesInConcat(PtrRecords(name, front).value, [Record(name, TTL, DataPTR(last.value))], r);
      if r.data.DataPTR? {
        TimesInSnoc(domains, Some(r.data.name));
      }
    }
  }

  lemma {:induction false} OneCounted(q: Query, i: nat, net: Network, r: Record)
    requires AnswerOne(q, i, net).Ok?
    ensures multiset(AnswerOne(q, i, net).value)[r] == TimesSaid(q, i, net, r)
  {
    if q.typ.TypePTR? {
      NamesCounted(q.name, net.reverse(i).items, r);
    } else {
      AddressesCounted(q.name, net.forward(i).items, q.typ, r);
    }
  }

  lemma {:induction false} AnswerAllSnoc(qs: seq<Query>, net: Network)
    requires qs != [] && AnswerAll(qs, net).Ok?
    ensures var front, n := qs[..|qs| - 1], |qs| - 1;
            && AnswerAll(front, net).Ok? && AnswerOne(qs[n], n, net).Ok?
            && AnswerAll(qs, net).value == AnswerAll(front, net).value + AnswerOne(qs[n], n, net).value
  {
  }

  /** If all questions succeed, each record is among the answers exactly as often as the network
      said what it states in reply to a question it fits: nothing is left out, repeated or
      made up. */
  lemma {:induction false} AnswersCounted(qs: seq<Query>, net: Network, r: Record)
    requires AnswerAll(qs, net).Ok?
    ensures multiset(AnswerAll(qs, net).value)[r] == AllTimesSaid(qs, net, r)
  {
    if qs != [] {
      var front, n := qs[..|qs| - 1], |qs| - 1;
      AnswerAllSnoc(qs, net);
      AnswersCounted(front, net, r);
      OneCounted(qs[n], n, net, r);
      TimesInConcat(AnswerAll(front, net).value, AnswerOne(qs[n], n, net).value, r);
    }
  }

  /** A record is a proper answer to question `i`: it names the question, is of the type
      asked for, and states something the network said. */
  ghost predicate Answers(q: Query, i: nat, net: Network, r: Record) {
    TimesSaid(q, i, net, r) > 0
  }

  lemma {:induction false} SaidSomewhere(qs: seq<Query>, net: Network, r: Record)
    ensures AllTimesSaid(qs, net, r) > 0 <==> exists i :: 0 <= i < |qs| && Answers(qs[i], i, net, r)
  {
    if qs != [] {
      var front, n := qs[..|qs| - 1], |qs| - 1;
      SaidSomewhere(front, net, r);
      assert forall i :: 0 <= i < n ==> front[i] == qs[i];
    }
  }

  /** In particular the answers are exactly the proper answers to the questions. */
  lemma AnswersExact(qs: seq<Query>, net: Network, r: Record)
    requires AnswerAll(qs, net).Ok?
    ensures r in AnswerAll(qs, net).value <==> exists i :: 0 <= i < |qs| && Answers(qs[i], i, net, r)
  {
    AnswersCounted(qs, net, r);
    SaidSomewhere(qs, net, r);
    assert r in AnswerAll(qs, net).value <==> r in multiset(AnswerAll(qs, net).value);
  }

  /** The answers keep the order of the questions, and each question's answers the order of what
      the network said: asking or saying less from the end leaves a prefix. */
  lemma {:induction false} AnswersInOrder(qs: seq<Query>, n: nat, net: Network)
    requires n <= |qs| && AnswerAll(qs, net).Ok?
    ensures AnswerAll(qs[..n], net).Ok? && AnswerAll(qs[..n], net).value <= AnswerAll(qs, net).value
  {
    if n < |qs| {
      AnswersInOrder(qs[..|qs| - 1], n, net);
      assert qs[..|qs| - 1][..n] == qs[..n];
    } else {
      assert qs[..n] == qs;
    }
  }

  lemma {:induction false} AddressesInOrder(name: string, ips: seq<Ip>, n: nat, typ: QueryType)
    requires n <= |ips|
    ensures AddressRecords(name, ips[..n], typ) <= AddressRecords(name, ips, typ)
  {
    if n < |ips| {
      AddressesInOrder(name, ips[..|ips| - 1], n, typ);
      assert ips[..|ips| - 1][..n] == ips[..n];
    } else {
      assert ips[..n] == ips;
    }
  }

  lemma {:induction false} NamesInOrder(name: string, domains: seq<Option<string>>, n: nat)
    requires n <= |domains| && PtrRecords(name, domains).Some?
    ensures PtrRecords(name, domains[..n]).Some?
    ensures PtrRecords(name, domains[..n]).value <= PtrRecords(name, domains).value
  {
    if n < |domains| {
      NamesInOrder(name, domains[..|domains| - 1], n);
      assert domains[..|domains| - 1][..n] == domains[..n];
    } else {
      assert domains[..n] == domains;
    }
  }

  // ---- Errors ----

  predicate Supported(q: Query) {
    q.cls.ClassIN? && !q.typ.OtherType?
  }

  /** The network could not answer the question, with what error. */
  predicate LookupFails(q: Query, i: nat, net: Network, notFound: bool) {
    if q.typ.TypePTR? then net.reverse(i).Failed? && net.reverse(i).notFound == notFound
    else net.forward(i).Failed? && net.forward(i).notFound == notFound
  }

  lemma {:induction false} PtrFailsIff(name: string, domains: seq<Option<string>>)
    ensures PtrRecords(name, domains).None? <==> None in domains
  {
    if domains != [] {
      PtrFailsIff(name, domains[..|domains| - 1]);
      assert domains == domains[..|domains| - 1] + [domains[|domains| - 1]];
    }
  }

  /** When a question fails, and with what code: "not implemented" if its type or class is not
      supported; "format error" if a reverse question does not name an address; "no error", for
      no data, if the network did not find it; "server failure" if the network failed otherwise
      or gave a name that is none. */
  lemma QuestionFailsIff(q: Query, i: nat, net: Network)
    ensures AnswerOne(q, i, net) == Err(NotImp) <==> !Supported(q)
    ensures AnswerOne(q, i, net) == Err(FormErr) <==> Supported(q) && q.typ.TypePTR? && !net.isArpa(i)
    ensures AnswerOne(q, i, net) == Err(NoError) <==>
            Supported(q) && (q.typ.TypePTR? ==> net.isArpa(i)) && LookupFails(q, i, net, true)
    ensures AnswerOne(q, i, net) == Err(ServFail) <==>
            && Supported(q) && (q.typ.TypePTR? ==> net.isArpa(i))
            && (LookupFails(q, i, net, false)
                || (q.typ.TypePTR? && net.reverse(i).Found? && None in net.reverse(i).items))
  {
    if q.typ.TypePTR? && net.reverse(i).Found? {
      PtrFailsIff(q.name, net.reverse(i).items);
    }
  }

  // ---- Together with the table of askers ----

  /** Every query that came back did so as its leader's questions and the network had it. */
  ghost predicate Faithful(es: seq<Event>, nets: nat -> Network) {
    forall t: nat :: t < |Run(es).askers| && QueryResult(es, t).Some? ==>
      QueryResult(es, t).value == AnswerAll(Run(es).askers[t].req.queries, nets(t))
  }

  /** End to end, in every run: the records in a reply are exactly the proper answers to the
      questions of the leader, if all of them could be answered, and otherwise there are none
      and the code is that of the first that could not; and the leader asked what the asker
      asked, up to letter case. */
  lemma RepliesAreAnswers(es: seq<Event>, nets: nat -> Network, i: nat, r: Record)
    requires i < |Run(es).sent| && Faithful(es, nets)
    ensures Run(es).sent[i].leader < |Run(es).askers| && Run(es).sent[i].asker < |Run(es).askers|
    ensures var s, p := Run(es), Run(es).sent[i];
            var qs, net := s.askers[p.leader].req.queries, nets(p.leader);
            && SameQuestions(qs, s.askers[p.asker].req.queries)
            && (r in p.res.answers <==>
                AnswerAll(qs, net).Ok? && exists k :: 0 <= k < |qs| && Answers(qs[k], k, net, r))
            && p.res.code == (if AnswerAll(qs, net).Ok? then NoError else AnswerAll(qs, net).error)
  {
    RepliesReachTheirAsker(es, i);
    ReplySays(es, i);
    var s, p := Run(es), Run(es).sent[i];
    CanonIff(s.askers[p.leader].req.queries, s.askers[p.asker].req.queries);
    if AnswerAll(s.askers[p.leader].req.queries, nets(p.leader)).Ok? {
      AnswersExact(s.askers[p.leader].req.queries, nets(p.leader), r);
    }
  }
}
