/**
 * The toast list hook: `showToast` appends a notification stamped with the
 * current millisecond time, `removeToast` drops every notification with an id.
 */
module Toast {
  import opened Aggregate

  datatype ToastType = Success | Error | Warning

  datatype ToastData = ToastData(id: int, message: string, tipo: ToastType)

  function DistintoDe(id: int): ToastData -> bool {
    (toast: ToastData) => toast.id != id
  }

  /** The list without the toasts carrying `id`, the rest in their order. */
  function Sin(toasts: seq<ToastData>, id: int): (r: seq<ToastData>)
    ensures SubsequenceOf(r, toasts)
    ensures forall t :: t in r <==> t in toasts && t.id != id
  {
    FilterSubsequence(toasts, DistintoDe(id));
    Filter(toasts, DistintoDe(id))
  }

  /** Removing an id that no toast carries leaves the list as it was. */
  lemma SinAbsent(toasts: seq<ToastData>, id: int)
    requires forall k :: 0 <= k < |toasts| ==> toasts[k].id != id
    ensures Sin(toasts, id) == toasts
  {
    FilterAll(toasts, DistintoDe(id));
  }

  /** Removing twice is removing once. */
  lemma SinIdempotent(toasts: seq<ToastData>, id: int)
    ensures Sin(Sin(toasts, id), id) == Sin(toasts, id)
  {
    var r := Sin(toasts, id);
    forall k | 0 <= k < |r| ensures r[k].id != id {
      assert r[k] in r;
    }
    SinAbsent(r, id);
  }

  /** Showing a toast and then removing it restores the list, if no earlier toast had the same id. */
  lemma ShowThenRemove(toasts: seq<ToastData>, message: string, tipo: ToastType, now: int)
    requires forall k :: 0 <= k < |toasts| ==> toasts[k].id != now
    ensures Sin(toasts + [ToastData(now, message, tipo)], now) == toasts
  {
    var ts := toasts + [ToastData(now, message, tipo)];
    assert ts[..|ts| - 1] == toasts;
    SinAbsent(toasts, now);
  }

  class Toasts {
    var toasts: seq<ToastData>

    constructor()
      ensures toasts == []
    {
      toasts := [];
    }

    /** `showToast`: one new toast at the end, id `now`, type "success" unless given. */
    method ShowToast(message: string, now: int, tipo: ToastType := Success)
      modifies this
      ensures toasts == old(toasts) + [ToastData(now, message, tipo)]
    {
      toasts := toasts + [ToastData(now, message, tipo)];
    }

    /** `removeToast`: every toast with that id goes, the others keep their order. */
    method RemoveToast(id: int)
      modifies this
      ensures toasts == Sin(old(toasts), id)
    {
      toasts := Sin(toasts, id);
    }
  }
}
