/** Isolation values of streams, and their partial join: a circuit's isolation is the join over
    all streams that ever used it, and a stream that makes the join fail may not use it.

    Joins are taken over trees, so every order and every grouping is covered. */
module Isolation {
  import opened Common

  datatype Tree<T> = Leaf(value: T) | Node(left: Tree<T>, right: Tree<T>)

  function Leaves<T>(t: Tree<T>): seq<T> {
    match t
    case Leaf(x) => [x]
    case Node(l, r) => Leaves(l) + Leaves(r)
  }

  /** The same leaves in another order or grouping, with the same multiplicities. */
  ghost predicate Rearranged<T>(t: Tree<T>, u: Tree<T>) {
    multiset(Leaves(t)) == multiset(Leaves(u))
  }

  lemma SameMembers<T>(t: Tree<T>, u: Tree<T>, x: T)
    requires Rearranged(t, u)
    ensures x in Leaves(t) <==> x in Leaves(u)
  {
    assert x in Leaves(t) <==> x in multiset(Leaves(t));
    assert x in Leaves(u) <==> x in multiset(Leaves(u));
  }

  // ---- Tokens and DNS keys: only equal values share a circuit ----

  predicate CompatibleKeys<K(==)>(a: K, b: K) {
    a == b
  }

  function JoinKeys<K(==)>(a: K, b: K): Option<K> {
    if a == b then Some(a) else None
  }

  function JoinAllKeys<K(==)>(t: Tree<K>): Option<K> {
    match t
    case Leaf(x) => Some(x)
    case Node(l, r) =>
      match (JoinAllKeys(l), JoinAllKeys(r))
      case (Some(a), Some(b)) => JoinKeys(a, b)
      case _ => None
  }

  ghost predicate AllAre<K>(xs: seq<K>, k: K) {
    forall i :: 0 <= i < |xs| ==> xs[i] == k
  }

  lemma AllAreConcat<K>(xs: seq<K>, ys: seq<K>, k: K)
    ensures AllAre(xs + ys, k) <==> AllAre(xs, k) && AllAre(ys, k)
  {
    if AllAre(xs + ys, k) {
      assert forall i :: 0 <= i < |xs| ==> xs[i] == (xs + ys)[i];
      assert forall i :: 0 <= i < |ys| ==> ys[i] == (xs + ys)[i + |xs|];
    }
  }

  /** The join exists exactly when all keys are the same, and is that key. */
  lemma {:induction false} KeysJoin<K>(t: Tree<K>, k: K)
    ensures JoinAllKeys(t) == Some(k) <==> AllAre(Leaves(t), k)
  {
    if t.Node? {
      KeysJoin(t.left, k);
      KeysJoin(t.right, k);
      AllAreConcat(Leaves(t.left), Leaves(t.right), k);
    } else {
      assert Leaves(t)[0] == t.value;
    }
  }

  // ---- Sensitive or innocent streams ----

  datatype Sensitivity = Sensitive(token: nat) | Innocent

  predicate CompatibleSensitive(a: Sensitivity, b: Sensitivity) {
    match (a, b)
    case (Sensitive(i), Sensitive(j)) => CompatibleKeys(i, j)
    case _ => true
  }

  function JoinSensitive(a: Sensitivity, b: Sensitivity): Option<Sensitivity> {
    match (a, b)
    case (Sensitive(i), Sensitive(j)) =>
      (match JoinKeys(i, j)
       case Some(k) => Some(Sensitive(k))
       case None => None)
    case (Sensitive(i), Innocent) => Some(a)
    case (Innocent, Sensitive(j)) => Some(b)
    case (Innocent, Innocent) => Some(Innocent)
  }

  function JoinAllSensitive(t: Tree<Sensitivity>): Option<Sensitivity> {
    match t
    case Leaf(x) => Some(x)
    case Node(l, r) =>
      match (JoinAllSensitive(l), JoinAllSensitive(r))
      case (Some(a), Some(b)) => JoinSensitive(a, b)
      case _ => None
  }

  predicate OneToken(xs: seq<Sensitivity>) {
    forall a, b :: a in xs && b in xs && a.Sensitive? && b.Sensitive? ==> a == b
  }

  predicate IsTheOne(xs: seq<Sensitivity>, r: Sensitivity) {
    (r.Sensitive? ==> r in xs) && forall a :: a in xs && a.Sensitive? ==> a == r
  }

  lemma {:induction false} OneTokenConcat(xs: seq<Sensitivity>, ys: seq<Sensitivity>, a: Option<Sensitivity>,
                                          b: Option<Sensitivity>)
    requires a.Some? <==> OneToken(xs)
    requires b.Some? <==> OneToken(ys)
    requires a.Some? ==> IsTheOne(xs, a.value)
    requires b.Some? ==> IsTheOne(ys, b.value)
    ensures a.Some? && b.Some? && JoinSensitive(a.value, b.value).Some? <==> OneToken(xs + ys)
    ensures a.Some? && b.Some? && JoinSensitive(a.value, b.value).Some? ==>
              IsTheOne(xs + ys, JoinSensitive(a.value, b.value).value)
  {
    if OneToken(xs + ys) {
      assert forall x :: x in xs ==> x in xs + ys;
      assert forall y :: y in ys ==> y in xs + ys;
      assert OneToken(xs) && OneToken(ys);
    }
  }

  /** The join exists exactly when all sensitive streams have the same token; it is sensitive
      with that token if there is one, and innocent otherwise. */
  lemma {:induction false} SensitiveJoin(t: Tree<Sensitivity>)
    ensures JoinAllSensitive(t).Some? <==> OneToken(Leaves(t))
    ensures JoinAllSensitive(t).Some? ==> IsTheOne(Leaves(t), JoinAllSensitive(t).value)
  {
    if t.Node? {
      SensitiveJoin(t.left);
      SensitiveJoin(t.right);
      OneTokenConcat(Leaves(t.left), Leaves(t.right), JoinAllSensitive(t.left), JoinAllSensitive(t.right));
    }
  }

  ghost predicate Alike(xs: seq<Sensitivity>, ys: seq<Sensitivity>) {
    forall x :: x in xs <==> x in ys
  }

  lemma AlikeOneToken(xs: seq<Sensitivity>, ys: seq<Sensitivity>)
    requires Alike(xs, ys) && OneToken(xs)
    ensures OneToken(ys)
  {
  }

  lemma AlikeTheOne(xs: seq<Sensitivity>, ys: seq<Sensitivity>, r: Sensitivity, q: Sensitivity)
    requires Alike(xs, ys) && IsTheOne(xs, r) && IsTheOne(ys, q)
    ensures r == q
  {
  }

  lemma {:induction false} SensitiveOrderFree(t: Tree<Sensitivity>, u: Tree<Sensitivity>)
    requires Rearranged(t, u)
    ensures JoinAllSensitive(t) == JoinAllSensitive(u)
  {
    SensitiveJoin(t);
    SensitiveJoin(u);
    var xs, ys, a, b := Leaves(t), Leaves(u), JoinAllSensitive(t), JoinAllSensitive(u);
    assert Alike(xs, ys) by {
      forall x
        ensures x in xs <==> x in ys
      {
        SameMembers(t, u, x);
      }
    }
    if a.Some? {
      AlikeOneToken(xs, ys);
      AlikeTheOne(xs, ys, a.value, b.value);
    } else if b.Some? {
      AlikeOneToken(ys, xs);
    }
  }

  // ---- At most so many usages per circuit ----

  /** What a stream is for; nothing depends on what it looks like. */
  type Usage = nat

  predicate CompatibleUsages(max: nat, a: set<Usage>, b: set<Usage>) {
    |a + b| <= max
  }

  function JoinUsages(max: nat, a: set<Usage>, b: set<Usage>): Option<set<Usage>> {
    if |a + b| <= max then Some(a + b) else None
  }

  function JoinAllUsages(max: nat, t: Tree<set<Usage>>): Option<set<Usage>> {
    match t
    case Leaf(x) => Some(x)
    case Node(l, r) =>
      match (JoinAllUsages(max, l), JoinAllUsages(max, r))
      case (Some(a), Some(b)) => JoinUsages(max, a, b)
      case _ => None
  }

  function Union(xs: seq<set<Usage>>): set<Usage> {
    if xs == [] then {} else xs[0] + Union(xs[1..])
  }

  lemma {:induction false} UnionConcat(xs: seq<set<Usage>>, ys: seq<set<Usage>>)
    ensures Union(xs + ys) == Union(xs) + Union(ys)
  {
    if xs == [] {
      assert xs + ys == ys;
    } else {
      assert (xs + ys)[1..] == xs[1..] + ys;
      UnionConcat(xs[1..], ys);
    }
  }

  lemma {:induction false} InUnion(xs: seq<set<Usage>>, x: Usage)
    ensures x in Union(xs) <==> exists s :: s in xs && x in s
  {
    if xs != [] {
      InUnion(xs[1..], x);
      assert xs == [xs[0]] + xs[1..];
    }
  }

  lemma Grows(a: set<Usage>, b: set<Usage>)
    ensures |a| <= |a + b|
  {
    assert |a + b| == |a| + |b - a| by {
      assert a + b == a + (b - a);
    }
  }

  lemma {:induction false} FailureIsTooMany(max: nat, t: Tree<set<Usage>>)
    ensures JoinAllUsages(max, t).Some? ==> JoinAllUsages(max, t).value == Union(Leaves(t))
    ensures JoinAllUsages(max, t).None? ==> |Union(Leaves(t))| > max
    ensures t.Node? && JoinAllUsages(max, t).Some? ==> |Union(Leaves(t))| <= max
  {
    if t.Node? {
      var l, r := Union(Leaves(t.left)), Union(Leaves(t.right));
      FailureIsTooMany(max, t.left);
      FailureIsTooMany(max, t.right);
      UnionConcat(Leaves(t.left), Leaves(t.right));
      Grows(l, r);
      Grows(r, l);
      assert l + r == r + l;
    } else {
      assert t.value + {} == t.value;
      assert Union([t.value]) == t.value + Union([]);
    }
  }

  /** The join of two or more isolations exists exactly when their usages together are at most
      `max`, and is the union. */
  lemma UsagesJoin(max: nat, t: Tree<set<Usage>>)
    requires t.Node?
    ensures JoinAllUsages(max, t) ==
            if |Union(Leaves(t))| <= max then Some(Union(Leaves(t))) else None
  {
    FailureIsTooMany(max, t);
  }

  /** With one leaf nothing is checked, so "two or more" is needed exactly when that one
      isolation already has too many usages. */
  lemma LoneUsageIsUnchecked(max: nat, x: set<Usage>)
    ensures JoinAllUsages(max, Leaf(x)).Some?
    ensures |x| > max <==> JoinAllUsages(max, Node(Leaf(x), Leaf(x))).None?
  {
    assert x + x == x;
  }

  lemma SameUnion(xs: seq<set<Usage>>, ys: seq<set<Usage>>)
    requires forall s :: s in xs <==> s in ys
    ensures Union(xs) == Union(ys)
  {
    forall x: Usage
      ensures x in Union(xs) <==> x in Union(ys)
    {
      InUnion(xs, x);
      InUnion(ys, x);
    }
  }

  lemma UsagesOrderFree(max: nat, t: Tree<set<Usage>>, u: Tree<set<Usage>>)
    requires Rearranged(t, u) && t.Node? && u.Node?
    ensures JoinAllUsages(max, t) == JoinAllUsages(max, u)
  {
    UsagesJoin(max, t);
    UsagesJoin(max, u);
    forall s
      ensures s in Leaves(t) <==> s in Leaves(u)
    {
      SameMembers(t, u, s);
    }
    SameUnion(Leaves(t), Leaves(u));
  }

  /** For any pair, the streams may share a circuit exactly when the join exists. */
  lemma CompatibleIffJoins<K>(i: K, j: K, a: Sensitivity, b: Sensitivity, max: nat, x: set<Usage>, y: set<Usage>)
    ensures CompatibleKeys(i, j) <==> JoinKeys(i, j).Some?
    ensures CompatibleSensitive(a, b) <==> JoinSensitive(a, b).Some?
    ensures CompatibleUsages(max, x, y) <==> JoinUsages(max, x, y).Some?
  {
  }
}
