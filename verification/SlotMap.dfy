/** The generational arena behind object IDs.

    `BareInsert`, `BareRemove` and `BareGet` are the contract assumed of the underlying
    `slotmap` crate: a slot's 32-bit version is odd while the slot is full, goes up by one
    on every insertion and removal, and wraps around. Which vacant slot an insertion
    reuses is left open (`choice`). `Insert`, `Remove` and `Get` are the careful wrapper,
    which retires a slot before its version can wrap. */
module SlotMap {
  import opened Common

  const VERSION_LIMIT: nat := 0x1_0000_0000
  const INDEX_LIMIT: nat := 0xffff_ffff
  const SATURATE_AT_VERSION: nat := 0x7fff_fffe

  datatype Key = Key(idx: nat, version: nat)

  /** Keys as 32-bit pairs; a key's version is always odd. */
  predicate ValidKey(k: Key) {
    k.idx < VERSION_LIMIT && k.version < VERSION_LIMIT && k.version % 2 == 1
  }

  datatype Entry<+V> = Present(v: V) | Unusable

  datatype Slot<+V> = Slot(version: nat, entry: Option<Entry<V>>)

  datatype Slots<+V> = Slots(slots: seq<Slot<V>>, nUnusable: nat)

  /** Slot 0 is a sentinel that is never used. */
  function Empty<V>(): Slots<V> {
    Slots([Slot(0, None)], 0)
  }

  // ---- The underlying map ----

  function BareGet<V>(s: Slots<V>, k: Key): Option<Entry<V>> {
    if k.idx < |s.slots| && s.slots[k.idx].version == k.version then s.slots[k.idx].entry else None
  }

  /** None stands for the panic on a full arena. */
  function BareInsert<V>(s: Slots<V>, e: Entry<V>, choice: nat): (r: (Slots<V>, Option<Key>)) {
    if 0 < choice < |s.slots| && s.slots[choice].entry.None? then
      var version := s.slots[choice].version + 1;
      (s.(slots := s.slots[choice := Slot(version, Some(e))]), Some(Key(choice, version)))
    else if |s.slots| >= INDEX_LIMIT then (s, None)
    else (s.(slots := s.slots + [Slot(1, Some(e))]), Some(Key(|s.slots|, 1)))
  }

  function BareRemove<V>(s: Slots<V>, k: Key): (r: (Slots<V>, Option<Entry<V>>)) {
    if BareGet(s, k).None? then (s, None)
    else (s.(slots := s.slots[k.idx := Slot((k.version + 1) % VERSION_LIMIT, None)]), BareGet(s, k))
  }

  // ---- The careful wrapper ----

  function KeyVersion(k: Key): nat {
    k.version / 2
  }

  function Insert<V>(s: Slots<V>, v: V, choice: nat): (r: (Slots<V>, Option<Key>)) {
    BareInsert(s, Present(v), choice)
  }

  function Get<V>(s: Slots<V>, k: Key): Option<V> {
    match BareGet(s, k)
    case Some(Present(v)) => Some(v)
    case _ => None
  }

  /** A slot whose version may not grow is marked unusable instead of being emptied. */
  function Remove<V>(s: Slots<V>, k: Key): (r: (Slots<V>, Option<V>)) {
    if KeyVersion(k) == SATURATE_AT_VERSION then
      match Get(s, k)
      case None => (s, None)
      case Some(v) =>
        (Slots(s.slots[k.idx := Slot(k.version, Some(Unusable))], s.nUnusable + 1), Some(v))
    else
      var (t, e) := BareRemove(s, k);
      (t, match e case Some(Present(v)) => Some(v) case _ => None)
  }

  function CountIf<V>(slots: seq<Slot<V>>, p: Slot<V> -> bool): nat {
    if slots == [] then 0
    else CountIf(slots[..|slots| - 1], p) + (if p(slots[|slots| - 1]) then 1 else 0)
  }

  predicate IsFull<V>(x: Slot<V>) { x.entry.Some? }
  predicate IsUnusable<V>(x: Slot<V>) { x.entry == Some(Unusable) }
  predicate IsPresent<V>(x: Slot<V>) { x.entry.Some? && x.entry.value.Present? }

  /** `len()`: full slots less unusable ones. */
  function Len<V>(s: Slots<V>): int {
    CountIf(s.slots, IsFull) - s.nUnusable
  }

  // ---- Invariant ----

  predicate SlotOk<V>(x: Slot<V>) {
    && (x.entry.Some? <==> x.version % 2 == 1)
    && x.version <= 2 * SATURATE_AT_VERSION + 1
    && (x.entry == Some(Unusable) ==> x.version / 2 == SATURATE_AT_VERSION)
  }

  ghost predicate Inv<V>(s: Slots<V>) {
    && 0 < |s.slots| <= INDEX_LIMIT
    && s.slots[0] == Slot(0, None)
    && (forall i :: 0 <= i < |s.slots| ==> SlotOk(s.slots[i]))
    && s.nUnusable == CountIf(s.slots, IsUnusable)
  }

  lemma {:induction false} CountUpdate<V>(slots: seq<Slot<V>>, i: nat, x: Slot<V>, p: Slot<V> -> bool)
    requires i < |slots|
    ensures CountIf(slots[i := x], p) == CountIf(slots, p) - (if p(slots[i]) then 1 else 0) + (if p(x) then 1 else 0)
  {
    var front := slots[..|slots| - 1];
    if i < |front| {
      assert slots[i := x][..|slots| - 1] == front[i := x];
      CountUpdate(front, i, x, p);
    } else {
      assert slots[i := x][..|slots| - 1] == front;
    }
  }

  lemma CountAppend<V>(slots: seq<Slot<V>>, x: Slot<V>, p: Slot<V> -> bool)
    ensures CountIf(slots + [x], p) == CountIf(slots, p) + (if p(x) then 1 else 0)
  {
    assert (slots + [x])[..|slots|] == slots;
  }

  lemma {:induction false} FullSplits<V>(slots: seq<Slot<V>>)
    ensures CountIf(slots, IsFull) == CountIf(slots, IsPresent) + CountIf(slots, IsUnusable)
  {
    if slots != [] {
      FullSplits(slots[..|slots| - 1]);
    }
  }

  /** The subtraction in `len()` never underflows: the result is the number of values held. */
  lemma LenCountsValues<V>(s: Slots<V>)
    requires Inv(s)
    ensures Len(s) == CountIf(s.slots, IsPresent)
  {
    FullSplits(s.slots);
  }

  /** The key has been handed out at some time. Since versions only grow, this can be read
      off the arena itself. */
  predicate Issued<V>(s: Slots<V>, k: Key) {
    0 < k.idx < |s.slots| && k.version % 2 == 1 && k.version <= s.slots[k.idx].version
  }

  /** `t` is `s` with the value `v` added under the key `k`, which was never used before. */
  ghost predicate AddsFresh<V>(s: Slots<V>, t: Slots<V>, k: Key, v: V) {
    && Inv(t) && Len(t) == Len(s) + 1
    && ValidKey(k) && !Issued(s, k) && Issued(t, k)
    && Get(t, k) == Some(v)
    && (forall j: Key :: j != k ==> Get(t, j) == Get(s, j))
    && (forall j: Key :: Issued(s, j) ==> Issued(t, j))
  }

  lemma ReuseIsFresh<V>(s: Slots<V>, v: V, i: nat)
    requires Inv(s) && 0 < i < |s.slots| && s.slots[i].entry.None?
    ensures Insert(s, v, i).1.Some? && AddsFresh(s, Insert(s, v, i).0, Insert(s, v, i).1.value, v)
  {
    var x := Slot(s.slots[i].version + 1, Some(Present(v)));
    assert SlotOk(s.slots[i]) && SlotOk(x);
    CountUpdate(s.slots, i, x, IsFull);
    CountUpdate(s.slots, i, x, IsUnusable);
  }

  lemma AppendIsFresh<V>(s: Slots<V>, v: V)
    requires Inv(s) && |s.slots| < INDEX_LIMIT
    ensures var x := Slot(1, Some(Present(v)));
            AddsFresh(s, s.(slots := s.slots + [x]), Key(|s.slots|, 1), v)
  {
    var x := Slot(1, Some(Present(v)));
    assert SlotOk(x);
    CountAppend(s.slots, x, IsFull);
    CountAppend(s.slots, x, IsUnusable);
  }

  /** An insertion hands out a key that was never handed out before and changes nothing
      else; a full arena is left as it was. */
  lemma InsertIsFresh<V>(s: Slots<V>, v: V, choice: nat)
    requires Inv(s)
    ensures var (t, k) := Insert(s, v, choice);
            if k.Some? then AddsFresh(s, t, k.value, v) else t == s
  {
    if 0 < choice < |s.slots| && s.slots[choice].entry.None? {
      ReuseIsFresh(s, v, choice);
    } else if |s.slots| < INDEX_LIMIT {
      AppendIsFresh(s, v);
    }
  }

  /** What a removal leaves in the slot: a retired or an emptied one. */
  function Vacated<V>(k: Key): Slot<V> {
    if KeyVersion(k) == SATURATE_AT_VERSION then Slot(k.version, Some(Unusable)) else Slot(k.version + 1, None)
  }

  /** A removal that finds its key changes one slot, and never meets an unusable entry. */
  lemma RemoveHit<V>(s: Slots<V>, k: Key)
    requires Inv(s) && ValidKey(k) && BareGet(s, k).Some?
    ensures 0 < k.idx < |s.slots|
    ensures KeyVersion(k) != SATURATE_AT_VERSION ==> BareGet(s, k).value.Present?
    ensures BareGet(s, k).value.Present? ==>
              && SlotOk(Vacated<V>(k))
              && Remove(s, k) == (Slots(s.slots[k.idx := Vacated(k)],
                                        s.nUnusable + (if Vacated<V>(k).entry.Some? then 1 else 0)),
                                  Some(BareGet(s, k).value.v))
  {
    assert SlotOk(s.slots[k.idx]);
  }

  lemma RemoveKeepsInv<V>(s: Slots<V>, k: Key)
    requires Inv(s) && ValidKey(k)
    ensures Inv(Remove(s, k).0)
    ensures Len(Remove(s, k).0) == Len(s) - (if Remove(s, k).1.Some? then 1 else 0)
  {
    if BareGet(s, k).Some? {
      RemoveHit(s, k);
      CountUpdate(s.slots, k.idx, Vacated<V>(k), IsFull);
      CountUpdate(s.slots, k.idx, Vacated<V>(k), IsUnusable);
    }
  }

  lemma RemoveKillsOne<V>(s: Slots<V>, k: Key)
    requires Inv(s) && ValidKey(k)
    ensures var (t, v) := Remove(s, k);
            && v == Get(s, k) && Get(t, k) == None
            && (forall j: Key :: j != k && ValidKey(j) ==> Get(t, j) == Get(s, j))
            && (forall j: Key :: Issued(s, j) ==> Issued(t, j))
  {
    if BareGet(s, k).Some? {
      RemoveHit(s, k);
    }
  }

  /** A removal returns exactly what the key named and makes that key, and no other, dead.
      No removed entry is ever an unusable one, so the wrapper's `unwrap` cannot panic. */
  lemma RemoveIsExact<V>(s: Slots<V>, k: Key)
    requires Inv(s) && ValidKey(k)
    ensures var (t, v) := Remove(s, k);
            && Inv(t)
            && v == Get(s, k) && Get(t, k) == None
            && Len(t) == Len(s) - (if v.Some? then 1 else 0)
            && (forall j: Key :: j != k && ValidKey(j) ==> Get(t, j) == Get(s, j))
            && (forall j: Key :: Issued(s, j) ==> Issued(t, j))
            && (KeyVersion(k) != SATURATE_AT_VERSION ==> BareGet(s, k) != Some(Unusable))
  {
    RemoveKeepsInv(s, k);
    RemoveKillsOne(s, k);
    if BareGet(s, k).Some? {
      RemoveHit(s, k);
    }
  }

  // ---- Whole histories ----

  datatype Op<+V> = DoInsert(v: V, choice: nat) | DoRemove(k: Key)

  function Apply<V>(s: Slots<V>, op: Op<V>): Slots<V> {
    match op
    case DoInsert(v, choice) => Insert(s, v, choice).0
    case DoRemove(k) => if ValidKey(k) then Remove(s, k).0 else s
  }

  function ApplyAll<V>(s: Slots<V>, ops: seq<Op<V>>): Slots<V> {
    if ops == [] then s else Apply(ApplyAll(s, ops[..|ops| - 1]), ops[|ops| - 1])
  }

  lemma {:induction false} ApplyAllKeeps<V>(s: Slots<V>, ops: seq<Op<V>>)
    requires Inv(s)
    ensures Inv(ApplyAll(s, ops))
    ensures forall j: Key :: Issued(s, j) ==> Issued(ApplyAll(s, ops), j)
  {
    if ops != [] {
      var front := ops[..|ops| - 1];
      ApplyAllKeeps(s, front);
      match ops[|ops| - 1]
      case DoInsert(v, choice) => InsertIsFresh(ApplyAll(s, front), v, choice);
      case DoRemove(k) => if ValidKey(k) { RemoveIsExact(ApplyAll(s, front), k); }
    }
  }

  /** A key that was handed out and is dead stays dead whatever is inserted or removed later. */
  lemma {:induction false} DeadKeysStayDead<V>(s: Slots<V>, ops: seq<Op<V>>, k: Key)
    requires Inv(s) && ValidKey(k) && Issued(s, k) && Get(s, k).None?
    ensures Get(ApplyAll(s, ops), k).None?
  {
    if ops != [] {
      var front := ops[..|ops| - 1];
      DeadKeysStayDead(s, front, k);
      ApplyAllKeeps(s, front);
      match ops[|ops| - 1]
      case DoInsert(v, choice) => InsertIsFresh(ApplyAll(s, front), v, choice);
      case DoRemove(j) => if ValidKey(j) { RemoveIsExact(ApplyAll(s, front), j); }
    }
  }

  /** Two insertions in one history never return the same key. */
  lemma KeysAreNeverReused<V>(s: Slots<V>, v: V, choice: nat, ops: seq<Op<V>>, w: V, other: nat)
    requires Inv(s)
    ensures var (t, k) := Insert(s, v, choice);
            var j := Insert(ApplyAll(t, ops), w, other).1;
            k.Some? && j.Some? ==> k != j
  {
    InsertIsFresh(s, v, choice);
    var t := Insert(s, v, choice).0;
    ApplyAllKeeps(t, ops);
    InsertIsFresh(ApplyAll(t, ops), w, other);
  }

  // ---- The underlying map alone ----

  /** Put `v` into slot 1 and take it out again. */
  function BareRound<V>(s: Slots<V>, v: V): Slots<V> {
    var (t, k) := BareInsert(s, Present(v), 1);
    if k.None? then s else BareRemove(t, k.value).0
  }

  function BareRounds<V>(n: nat, v: V): Slots<V> {
    if n == 0 then Empty() else BareRound(BareRounds(n - 1, v), v)
  }

  lemma OneBareRound<V>(version: nat, v: V)
    requires version + 1 < VERSION_LIMIT
    ensures BareRound(Slots([Slot(0, None), Slot(version, None)], 0), v) ==
            Slots([Slot(0, None), Slot((version + 2) % VERSION_LIMIT, None)], 0)
  {
    var s: Slots<V> := Slots([Slot(0, None), Slot(version, None)], 0);
    var t := BareInsert(s, Present(v), 1).0;
    assert t.slots == [Slot(0, None), Slot(version + 1, Some(Present(v)))];
  }

  lemma {:induction false} BareRoundsAre<V>(n: nat, v: V)
    requires 0 < n <= VERSION_LIMIT / 2
    ensures BareRounds(n, v) == Slots([Slot(0, None), Slot(2 * n % VERSION_LIMIT, None)], 0)
  {
    if n == 1 {
      assert BareRounds(0, v) == Empty<V>();
      var t := BareInsert(Empty<V>(), Present(v), 1).0;
      assert t.slots == [Slot(0, None), Slot(1, Some(Present(v)))];
    } else {
      BareRoundsAre(n - 1, v);
      OneBareRound(2 * (n - 1), v);
    }
  }

  /** The underlying map alone does reuse keys: after 2^31 insertions into one slot, each
      followed by a removal, the version has wrapped round and the very first key comes again. */
  lemma BareMapReusesKeys<V>(v: V, w: V)
    ensures BareInsert(Empty<V>(), Present(v), 1).1 == Some(Key(1, 1))
    ensures BareInsert(BareRounds(VERSION_LIMIT / 2, v), Present(w), 1).1 == Some(Key(1, 1))
  {
    BareRoundsAre(VERSION_LIMIT / 2, v);
  }
}
