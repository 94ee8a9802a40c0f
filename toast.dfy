/** The toast queue: a module-wide counter hands out ids, new toasts are
    appended, and closing a toast filters out every toast with its id. The
    auto-dismiss timer and the rendering are not modelled. */
module Toasts {
  import opened Seqs

  const SUCCESS := "success"
  const ERROR := "error"
  const WARNING := "warning"
  const INFO := "info"

  /** What a caller hands to addToast; `ownId` is an `id` member of the
      payload, when it has one. */
  datatype Payload = Payload(ownId: Option<int>, kind: string, message: string, title: Option<string>)

  /** A toast on screen. */
  datatype Toast = Toast(id: int, kind: string, message: string, title: Option<string>)

  /** `{ id, ...toast }`: the counter value, unless the payload brings its
      own id, which is spread after it and wins. */
  function Stamp(p: Payload, counter: int): (t: Toast)
    ensures p.ownId.None? ==> t.id == counter
    ensures p.ownId.Some? ==> t.id == p.ownId.value
    ensures t.kind == p.kind && t.message == p.message && t.title == p.title
  {
    Toast(if p.ownId.Some? then p.ownId.value else counter, p.kind, p.message, p.title)
  }

  /** The payload of `toast.success`, `toast.error` and the others: a type,
      a message and a title, no id. */
  function Typed(kind: string, message: string, title: Option<string>): Payload {
    Payload(None, kind, message, title)
  }

  /** A typed toast is stored with the drawn counter value and its type. */
  lemma TypedToastKeepsCounter(kind: string, message: string, title: Option<string>, counter: int)
    ensures Stamp(Typed(kind, message, title), counter) == Toast(counter, kind, message, title)
  {
  }

  predicate HasOtherId(id: int, t: Toast) { t.id != id }

  /** `prev.filter(toast => toast.id !== id)`: every toast with another id,
      in order, and none with this one. */
  function Without(toasts: seq<Toast>, id: int): (r: seq<Toast>)
    ensures |r| <= |toasts|
    ensures forall t :: t in r <==> t in toasts && t.id != id
  {
    Filter(toasts, (t: Toast) => HasOtherId(id, t))
  }

  /** Closing an id no toast has changes nothing. */
  lemma {:induction false} WithoutAbsentId(toasts: seq<Toast>, id: int)
    requires forall i :: 0 <= i < |toasts| ==> toasts[i].id != id
    ensures Without(toasts, id) == toasts
  {
    FilterAll(toasts, (t: Toast) => HasOtherId(id, t));
  }

  /** Closing the same id twice is closing it once. */
  lemma {:induction false} WithoutTwice(toasts: seq<Toast>, id: int)
    ensures Without(Without(toasts, id), id) == Without(toasts, id)
  {
    var once := Without(toasts, id);
    forall i | 0 <= i < |once| ensures once[i].id != id {
      assert once[i] in once;
    }
    WithoutAbsentId(once, id);
  }

  /** Closing a toast with a fresh id right after adding it restores the
      queue. */
  lemma {:induction false} AddThenClose(toasts: seq<Toast>, t: Toast)
    requires forall i :: 0 <= i < |toasts| ==> toasts[i].id != t.id
    ensures Without(toasts + [t], t.id) == toasts
  {
    FilterConcat(toasts, [t], (u: Toast) => HasOtherId(t.id, u));
    WithoutAbsentId(toasts, t.id);
    FilterNone([t], (u: Toast) => HasOtherId(t.id, u));
  }

  /** Closing keeps the relative order of the remaining toasts: closing
      after appending is appending after closing. */
  lemma {:induction false} WithoutDistributes(toasts: seq<Toast>, more: seq<Toast>, id: int)
    ensures Without(toasts + more, id) == Without(toasts, id) + Without(more, id)
  {
    FilterConcat(toasts, more, (t: Toast) => HasOtherId(id, t));
  }

  /** The module-level `toastId`, shared by every provider. */
  class IdCounter {
    var last: int
    /** Every value handed out so far, oldest first. */
    ghost var drawn: seq<int>

    /** The values handed out rise strictly and none exceeds the counter. */
    ghost predicate Valid()
      reads this
    {
      && (forall i, j :: 0 <= i < j < |drawn| ==> drawn[i] < drawn[j])
      && (forall i :: 0 <= i < |drawn| ==> drawn[i] <= last)
    }

    constructor()
      ensures last == 0 && drawn == [] && Valid()
    {
      last := 0;
      drawn := [];
    }
  }

  /** The provider's `toasts` state. */
  class ToastQueue {
    var toasts: seq<Toast>

    constructor()
      ensures toasts == []
    {
      toasts := [];
    }

    /** addToast: draws the next counter value, which is larger than every
        value drawn before, appends the stamped toast and returns the drawn
        value (even when the payload's own id was stored). */
    method AddToast(ids: IdCounter, p: Payload) returns (id: int)
      requires ids.Valid()
      modifies this, ids
      ensures id == old(ids.last) + 1 && ids.last == id
      ensures forall i :: 0 <= i < |old(ids.drawn)| ==> old(ids.drawn)[i] < id
      ensures ids.drawn == old(ids.drawn) + [id] && ids.Valid()
      ensures toasts == old(toasts) + [Stamp(p, id)]
    {
      ids.last := ids.last + 1;
      id := ids.last;
      ids.drawn := ids.drawn + [id];
      toasts := toasts + [Stamp(p, id)];
    }

    /** removeToast */
    method RemoveToast(id: int)
      modifies this
      ensures toasts == Without(old(toasts), id)
    {
      toasts := Without(toasts, id);
    }

    /** `toast.success`, `toast.error`, `toast.warning`, `toast.info`. */
    method Notify(ids: IdCounter, kind: string, message: string, title: Option<string>) returns (id: int)
      requires kind in {SUCCESS, ERROR, WARNING, INFO}
      requires ids.Valid()
      modifies this, ids
      ensures id == old(ids.last) + 1 && ids.last == id
      ensures forall i :: 0 <= i < |old(ids.drawn)| ==> old(ids.drawn)[i] < id
      ensures ids.drawn == old(ids.drawn) + [id] && ids.Valid()
      ensures toasts == old(toasts) + [Toast(id, kind, message, title)]
    {
      id := AddToast(ids, Typed(kind, message, title));
      TypedToastKeepsCounter(kind, message, title, id);
    }
  }
}
