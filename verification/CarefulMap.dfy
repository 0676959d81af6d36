/** The careful wrapper around `slotmap`, updated in place. */
module CarefulMap {
  import opened Common
  import S = SlotMap

  class CarefulMap<V> {
    var slots: seq<S.Slot<V>>
    var nUnusable: nat

    ghost function Contents(): S.Slots<V>
      reads this
    {
      S.Slots(slots, nUnusable)
    }

    ghost predicate Valid()
      reads this
    {
      S.Inv(Contents())
    }

    constructor ()
      ensures Valid() && Contents() == S.Empty<V>()
    {
      slots, nUnusable := [S.Slot(0, None)], 0;
    }

    /** `choice` is the vacant slot to use, if it is one; None stands for the panic on a full
        arena. */
    method Insert(v: V, choice: nat) returns (k: Option<S.Key>)
      requires Valid()
      modifies this
      ensures Valid() && (Contents(), k) == S.Insert(old(Contents()), v, choice)
      ensures k.Some? ==> S.AddsFresh(old(Contents()), Contents(), k.value, v)
      ensures k.None? ==> Contents() == old(Contents()) && |slots| == S.INDEX_LIMIT
    {
      S.InsertIsFresh(Contents(), v, choice);
      if 0 < choice < |slots| && slots[choice].entry.None? {
        var version := slots[choice].version + 1;
        slots := slots[choice := S.Slot(version, Some(S.Present(v)))];
        return Some(S.Key(choice, version));
      }
      if |slots| >= S.INDEX_LIMIT {
        return None;
      }
      slots := slots + [S.Slot(1, Some(S.Present(v)))];
      k := Some(S.Key(|slots| - 1, 1));
    }

    method Get(k: S.Key) returns (v: Option<V>)
      ensures v == S.Get(Contents(), k)
    {
      if k.idx < |slots| && slots[k.idx].version == k.version && slots[k.idx].entry.Some? {
        match slots[k.idx].entry.value {
          case Present(x) => return Some(x);
          case Unusable => return None;
        }
      }
      v := None;
    }

    method Remove(k: S.Key) returns (v: Option<V>)
      requires Valid() && S.ValidKey(k)
      modifies this
      ensures Valid() && (Contents(), v) == S.Remove(old(Contents()), k)
      ensures v == S.Get(old(Contents()), k) && S.Get(Contents(), k).None?
      ensures forall j: S.Key :: j != k && S.ValidKey(j) ==> S.Get(Contents(), j) == S.Get(old(Contents()), j)
    {
      S.RemoveIsExact(Contents(), k);
      v := Get(k);
      if v.None? {
        return;
      }
      if S.KeyVersion(k) == S.SATURATE_AT_VERSION {
        slots := slots[k.idx := S.Slot(k.version, Some(S.Unusable))];
        nUnusable := nUnusable + 1;
      } else {
        slots := slots[k.idx := S.Slot((k.version + 1) % S.VERSION_LIMIT, None)];
      }
    }
  }
}
