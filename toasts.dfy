/**
 * The toast queue of the `useToast` hook: `toast` appends a notification
 * stamped with the current millisecond, a timer removes it again after five
 * seconds, and `dismiss` removes notifications by id.
 */
module Toasts {
  import opened Wrappers
  import opened Seqs
  import opened JsStrings

  datatype Variant = Default | Destructive

  datatype Toast = Toast(id: string, title: string, description: Option<string>, variant: Variant)

  /** What a caller passes to `toast`: a toast without its id, the variant optional. */
  datatype ToastRequest = ToastRequest(title: string, description: Option<string>, variant: Option<Variant>)

  /** The destructuring default `variant = 'default'`. */
  function VariantOrDefault(v: Option<Variant>): (r: Variant)
    ensures v.Some? ==> r == v.value
    ensures v.None? ==> r == Default
  {
    match v
    case None => Default
    case Some(x) => x
  }

  /** The row test `t.id !== id`. */
  function OtherThan(id: string): Toast -> bool
  {
    (t: Toast) => t.id != id
  }

  /** `prev.filter(t => t.id !== id)`. */
  function WithoutId(toasts: seq<Toast>, id: string): (r: seq<Toast>)
    ensures forall i :: 0 <= i < |r| ==> r[i].id != id
  {
    Filter(toasts, OtherThan(id))
  }

  /** A toast survives removal by `id` exactly when it was there and carries another id. */
  lemma WithoutIdMember(toasts: seq<Toast>, id: string, t: Toast)
    ensures t in WithoutId(toasts, id) <==> t in toasts && t.id != id
  {
    FilterMember(toasts, OtherThan(id), t);
  }

  /** Removal keeps the relative order of what it keeps: it commutes with concatenation. */
  lemma WithoutIdConcat(a: seq<Toast>, b: seq<Toast>, id: string)
    ensures WithoutId(a + b, id) == WithoutId(a, id) + WithoutId(b, id)
  {
    FilterConcat(a, b, OtherThan(id));
  }

  /** Removing the same id twice is removing it once. */
  lemma WithoutIdIdempotent(toasts: seq<Toast>, id: string)
    ensures WithoutId(WithoutId(toasts, id), id) == WithoutId(toasts, id)
  {
    FilterIdempotent(toasts, OtherThan(id));
  }

  /** Removing an id no toast carries changes nothing. */
  lemma WithoutAbsentId(toasts: seq<Toast>, id: string)
    requires forall i :: 0 <= i < |toasts| ==> toasts[i].id != id
    ensures WithoutId(toasts, id) == toasts
  {
    FilterKeepsAll(toasts, OtherThan(id));
  }

  /** The toast `toast` builds from a request and the id it stamps. */
  function MakeToast(req: ToastRequest, id: string): (t: Toast)
    ensures t.id == id && t.title == req.title && t.description == req.description
    ensures t.variant == VariantOrDefault(req.variant)
  {
    Toast(id, req.title, req.description, VariantOrDefault(req.variant))
  }

  /**
   * The timer of a toast whose id was fresh removes it and leaves the list
   * as it was before the toast was shown, order included.
   */
  lemma ExpiryUndoesToast(toasts: seq<Toast>, req: ToastRequest, id: string)
    requires forall i :: 0 <= i < |toasts| ==> toasts[i].id != id
    ensures WithoutId(toasts + [MakeToast(req, id)], id) == toasts
  {
    WithoutIdConcat(toasts, [MakeToast(req, id)], id);
    WithoutAbsentId(toasts, id);
    assert !OtherThan(id)(MakeToast(req, id));
  }

  /**
   * Ids are the millisecond clock in decimal, so two toasts shown in the same
   * millisecond share an id, and the first one's timer removes both.
   */
  lemma SameMillisecondToastsExpireTogether(toasts: seq<Toast>, first: ToastRequest, second: ToastRequest, now: nat)
    ensures var both := toasts + [MakeToast(first, NatToDecimal(now)), MakeToast(second, NatToDecimal(now))];
      MakeToast(second, NatToDecimal(now)) !in WithoutId(both, NatToDecimal(now))
  {
    var id := NatToDecimal(now);
    WithoutIdMember(toasts + [MakeToast(first, id), MakeToast(second, id)], id, MakeToast(second, id));
  }

  /** The hook's state: the toasts on screen, oldest first. */
  class ToastList {
    var toasts: seq<Toast>

    /** `useState<Toast[]>([])`. */
    constructor()
      ensures toasts == []
    {
      toasts := [];
    }

    /**
     * `toast(req)` at clock reading `now` (milliseconds): one toast appended,
     * the earlier ones untouched. Returns the id its timer will remove.
     */
    method Show(req: ToastRequest, now: nat) returns (id: string)
      modifies this
      ensures id == NatToDecimal(now)
      ensures toasts == old(toasts) + [MakeToast(req, id)]
    {
      id := NatToDecimal(now);
      toasts := toasts + [MakeToast(req, id)];
    }

    /** `dismiss(id)`: every toast with that id goes, the rest keep their order. */
    method Dismiss(id: string)
      modifies this
      ensures toasts == WithoutId(old(toasts), id)
    {
      toasts := WithoutId(toasts, id);
    }

    /** The five-second timer set up by `Show` for the toast with `id`. */
    method Expire(id: string)
      modifies this
      ensures toasts == WithoutId(old(toasts), id)
    {
      toasts := WithoutId(toasts, id);
    }
  }
}
