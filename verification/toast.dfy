/** Toast notifications: a counter hands out ids, a provider keeps the list
    of shown toasts, and a single dispatcher slot lets `toast()` reach the
    mounted provider. The timed removal is an explicit `Expire` event. */
module Toast {
  import opened Seqs

  datatype ToastType = Success | Error | Info

  datatype ToastItem = ToastItem(id: int, message: string, kind: ToastType)

  /** Ids strictly increase along the list. */
  ghost predicate IdsIncreasing(ts: seq<ToastItem>)
  {
    forall i, j :: 0 <= i < j < |ts| ==> ts[i].id < ts[j].id
  }

  /** `prev.filter(t => t.id !== id)`. */
  function WithoutId(ts: seq<ToastItem>, id: int): seq<ToastItem>
  {
    Filter((t: ToastItem) => t.id != id, ts)
  }

  /** Removal takes out the toasts with that id and keeps the others in order;
      an id that is not shown changes nothing. */
  lemma {:induction false} WithoutIdSpec(ts: seq<ToastItem>, id: int, t: ToastItem)
    ensures t in WithoutId(ts, id) <==> t in ts && t.id != id
    ensures IsSubseq(WithoutId(ts, id), ts)
    ensures (forall i :: 0 <= i < |ts| ==> ts[i].id != id) ==> WithoutId(ts, id) == ts
  {
    var keep := (x: ToastItem) => x.id != id;
    FilterMembership(keep, ts, t);
    FilterIsSubseq(keep, ts);
    if forall i :: 0 <= i < |ts| ==> ts[i].id != id {
      FilterKeepsAll(keep, ts);
    }
  }

  /** With distinct ids, removing a shown id removes exactly one toast: the
      list is what comes before it followed by what comes after it. */
  lemma {:induction false} WithoutIdRemovesOne(ts: seq<ToastItem>, k: nat)
    requires IdsIncreasing(ts) && k < |ts|
    ensures WithoutId(ts, ts[k].id) == ts[..k] + ts[k + 1..]
  {
    var keep := (x: ToastItem) => x.id != ts[k].id;
    var a, b := ts[..k], ts[k + 1..];
    assert ts == a + [ts[k]] + b;
    forall i | 0 <= i < |a|
      ensures keep(a[i])
    {
      assert a[i] == ts[i];
    }
    forall i | 0 <= i < |b|
      ensures keep(b[i])
    {
      assert b[i] == ts[k + 1 + i];
    }
    FilterDropOne(keep, a, ts[k], b);
  }

  /** The provider's state together with the module-level counter and dispatcher slot. */
  class ToastCenter {
    var toastId: int
    var registered: bool
    var toasts: seq<ToastItem>

    /** Every shown toast has an id handed out so far, ids increase along the
        list, and a provider that is not mounted shows nothing. */
    ghost predicate Valid()
      reads this
    {
      toastId >= 0
      && (!registered ==> toasts == [])
      && (forall i :: 0 <= i < |toasts| ==> 1 <= toasts[i].id <= toastId)
      && IdsIncreasing(toasts)
    }

    /** The counter starts at 0, the slot is empty and no toast is shown. */
    constructor ()
      ensures Valid()
      ensures toastId == 0 && !registered && toasts == []
    {
      toastId, registered, toasts := 0, false, [];
    }

    /** `addToast`: the next id (so the first is 1), appended at the end. The
        callback belongs to the mounted provider, so it runs only while mounted. */
    method AddToast(message: string, kind: ToastType) returns (id: int)
      requires Valid() && registered
      modifies this
      ensures Valid()
      ensures id == old(toastId) + 1 && toastId == id
      ensures toasts == old(toasts) + [ToastItem(id, message, kind)]
      ensures registered == old(registered)
    {
      toastId := toastId + 1;
      id := toastId;
      toasts := toasts + [ToastItem(id, message, kind)];
    }

    /** The timer of toast `id` firing: that toast leaves the list. */
    method Expire(id: int)
      requires Valid()
      modifies this
      ensures Valid()
      ensures toasts == WithoutId(old(toasts), id)
      ensures toastId == old(toastId) && registered == old(registered)
    {
      ghost var before := toasts;
      toasts := WithoutId(toasts, id);
      RemovalKeepsIdsIncreasing(before, id);
      forall i | 0 <= i < |toasts| ensures 1 <= toasts[i].id <= toastId {
        assert toasts[i] in before;
      }
    }

    /** `toast()`: reaches the provider only while one is registered. */
    method Toast(message: string, kind: ToastType) returns (shown: bool)
      requires Valid()
      modifies this
      ensures Valid()
      ensures shown == old(registered)
      ensures !old(registered) ==> toasts == old(toasts) && toastId == old(toastId)
      ensures old(registered) ==> (toastId == old(toastId) + 1
        && toasts == old(toasts) + [ToastItem(toastId, message, kind)])
      ensures registered == old(registered)
    {
      shown := registered;
      if registered {
        var _ := AddToast(message, kind);
      }
    }

    /** `toast(message)` without a type: the type defaults to `"success"`. */
    method ToastSuccess(message: string) returns (shown: bool)
      requires Valid()
      modifies this
      ensures Valid()
      ensures shown == old(registered)
      ensures !old(registered) ==> toasts == old(toasts) && toastId == old(toastId)
      ensures old(registered) ==> (toastId == old(toastId) + 1
        && toasts == old(toasts) + [ToastItem(toastId, message, Success)])
      ensures registered == old(registered)
    {
      shown := Toast(message, Success);
    }

    /** Mounting the provider fills the dispatcher slot; a provider mounted
        afresh starts from the empty list its unmounting left. */
    method Mount()
      requires Valid()
      modifies this
      ensures Valid()
      ensures registered
      ensures toasts == old(toasts) && toastId == old(toastId)
    {
      registered := true;
    }

    /** Unmounting empties the slot and discards the provider's list; the
        module-level counter keeps its value. */
    method Unmount()
      requires Valid()
      modifies this
      ensures Valid()
      ensures !registered
      ensures toasts == [] && toastId == old(toastId)
    {
      registered, toasts := false, [];
    }

    /** The provider renders something exactly when a toast is shown, which
        happens only while it is mounted. */
    function Renders(): (r: bool)
      requires Valid()
      reads this
      ensures r ==> registered
    {
      toasts != []
    }
  }

  /** Removing toasts keeps the ids increasing and within the handed-out range. */
  lemma {:induction false} RemovalKeepsIdsIncreasing(ts: seq<ToastItem>, id: int)
    requires IdsIncreasing(ts)
    ensures IdsIncreasing(WithoutId(ts, id))
    ensures forall t :: t in WithoutId(ts, id) ==> t in ts
  {
    var keep := (x: ToastItem) => x.id != id;
    FilterIncreasing(keep, ts);
  }

  lemma {:induction false} FilterIncreasing(p: ToastItem -> bool, ts: seq<ToastItem>)
    requires IdsIncreasing(ts)
    ensures IdsIncreasing(Filter(p, ts))
    ensures forall i :: 0 <= i < |Filter(p, ts)| ==> ts[0].id <= Filter(p, ts)[i].id
  {
    if ts != [] {
      var tail := ts[1..];
      var rest := Filter(p, tail);
      FilterIncreasing(p, tail);
      assert IdsIncreasing(tail) by {
        forall i, j | 0 <= i < j < |tail| ensures tail[i].id < tail[j].id {
          assert tail[i] == ts[i + 1] && tail[j] == ts[j + 1];
        }
      }
      forall i | 0 <= i < |rest| ensures ts[0].id < rest[i].id {
        assert tail != [];
        assert ts[0].id < ts[1].id;
      }
    }
  }
}
