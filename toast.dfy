/**
 * The notification manager: a list of toasts on screen and a list of
 * listeners, each of which is handed a copy of the list after every change.
 *
 * A listener is a callback compared by identity; here it is that identity.
 * What the callbacks receive is recorded, in call order, in `delivered`.
 * The random identifier and the removal timer are outside the model: the
 * identifier is a parameter and the timer's firing is a call of
 * `RemoveToast`.
 */
module ToastModel {

  import opened Seqs

  datatype ToastType = Success | Error | Info | Warning

  datatype Toast = Toast(id: string, message: string, kind: ToastType)

  /** A listener callback, known only by its identity. */
  datatype Listener = Listener(identity: nat)

  /** One call of a listener with the snapshot it was given. */
  datatype Delivery = Delivery(listener: Listener, snapshot: seq<Toast>)

  /** One call per listener, in subscription order, each with the same snapshot. */
  function Broadcast(ls: seq<Listener>, ts: seq<Toast>): (r: seq<Delivery>)
    ensures |r| == |ls|
    ensures forall i :: 0 <= i < |ls| ==> r[i].listener == ls[i] && r[i].snapshot == ts
  {
    if ls == [] then [] else Broadcast(ls[..|ls| - 1], ts) + [Delivery(ls[|ls| - 1], ts)]
  }

  function IdIsNot(id: string): Toast -> bool {
    (t: Toast) => t.id != id
  }

  function ListenerIsNot(l: Listener): Listener -> bool {
    (m: Listener) => m != l
  }

  /** The toasts left once the one with that id is dismissed. */
  function Without(ts: seq<Toast>, id: string): seq<Toast> {
    Filter(ts, IdIsNot(id))
  }

  class ToastManager {
    var toasts: seq<Toast>
    var listeners: seq<Listener>
    var delivered: seq<Delivery>

    constructor ()
      ensures toasts == [] && listeners == [] && delivered == []
    {
      toasts := [];
      listeners := [];
      delivered := [];
    }

    /** Calls every listener, in order, with a copy of the current toasts. */
    method Notify()
      modifies this
      ensures delivered == old(delivered) + Broadcast(listeners, toasts)
      ensures toasts == old(toasts) && listeners == old(listeners)
    {
      for i := 0 to |listeners|
        invariant toasts == old(toasts) && listeners == old(listeners)
        invariant delivered == old(delivered) + Broadcast(listeners[..i], toasts)
      {
        assert listeners[..i + 1][..i] == listeners[..i];
        delivered := delivered + [Delivery(listeners[i], toasts)];
      }
      assert listeners[..|listeners|] == listeners;
    }

    /** Shows a toast at the end of the list, tells the listeners, and returns its id. */
    method AddToast(message: string, kind: ToastType, id: string) returns (r: string)
      modifies this
      ensures r == id
      ensures toasts == old(toasts) + [Toast(id, message, kind)]
      ensures listeners == old(listeners)
      ensures delivered == old(delivered) + Broadcast(listeners, toasts)
    {
      toasts := toasts + [Toast(id, message, kind)];
      Notify();
      r := id;
    }

    /** Dismisses every toast with that id and tells the listeners, even when none had it. */
    method RemoveToast(id: string)
      modifies this
      ensures toasts == Without(old(toasts), id)
      ensures listeners == old(listeners)
      ensures delivered == old(delivered) + Broadcast(listeners, toasts)
    {
      toasts := Without(toasts, id);
      Notify();
    }

    method Success(message: string, id: string) returns (r: string)
      modifies this
      ensures r == id
      ensures toasts == old(toasts) + [Toast(id, message, ToastType.Success)]
      ensures listeners == old(listeners)
      ensures delivered == old(delivered) + Broadcast(listeners, toasts)
    {
      r := AddToast(message, ToastType.Success, id);
    }

    method Error(message: string, id: string) returns (r: string)
      modifies this
      ensures r == id
      ensures toasts == old(toasts) + [Toast(id, message, ToastType.Error)]
      ensures listeners == old(listeners)
      ensures delivered == old(delivered) + Broadcast(listeners, toasts)
    {
      r := AddToast(message, ToastType.Error, id);
    }

    method Info(message: string, id: string) returns (r: string)
      modifies this
      ensures r == id
      ensures toasts == old(toasts) + [Toast(id, message, ToastType.Info)]
      ensures listeners == old(listeners)
      ensures delivered == old(delivered) + Broadcast(listeners, toasts)
    {
      r := AddToast(message, ToastType.Info, id);
    }

    method Warning(message: string, id: string) returns (r: string)
      modifies this
      ensures r == id
      ensures toasts == old(toasts) + [Toast(id, message, ToastType.Warning)]
      ensures listeners == old(listeners)
      ensures delivered == old(delivered) + Broadcast(listeners, toasts)
    {
      r := AddToast(message, ToastType.Warning, id);
    }

    /** Adds a listener at the end; it is not called until the next change. */
    method Subscribe(l: Listener)
      modifies this
      ensures listeners == old(listeners) + [l]
      ensures toasts == old(toasts) && delivered == old(delivered)
    {
      listeners := listeners + [l];
    }

    /** What the function returned by `subscribe` does: drops every registration of that listener. */
    method Unsubscribe(l: Listener)
      modifies this
      ensures listeners == Filter(old(listeners), ListenerIsNot(l))
      ensures toasts == old(toasts) && delivered == old(delivered)
    {
      listeners := Filter(listeners, ListenerIsNot(l));
    }
  }

  // ---------------------------------------------------------- properties

  /**
   * Dismissing a toast drops exactly the toasts with that id: the rest stay,
   * in order and with every copy.
   */
  lemma WithoutSpec(ts: seq<Toast>, id: string)
    ensures IsSubseq(Without(ts, id), ts)
    ensures forall i :: 0 <= i < |Without(ts, id)| ==> Without(ts, id)[i].id != id
    ensures forall t: Toast :: t.id != id ==> multiset(Without(ts, id))[t] == multiset(ts)[t]
  {
    FilterIsSubseq(ts, IdIsNot(id));
    FilterMembers(ts, IdIsNot(id));
    forall t: Toast | t.id != id ensures multiset(Without(ts, id))[t] == multiset(ts)[t] {
      FilterMultiset(ts, IdIsNot(id), t);
    }
  }

  /** Dismissing an id that no toast has changes nothing (but still notifies). */
  lemma WithoutUnknown(ts: seq<Toast>, id: string)
    requires forall i :: 0 <= i < |ts| ==> ts[i].id != id
    ensures Without(ts, id) == ts
  {
    FilterAll(ts, IdIsNot(id));
  }

  /** The timer's removal undoes the addition when the new id was not in use. */
  lemma AddThenRemove(ts: seq<Toast>, t: Toast)
    requires forall i :: 0 <= i < |ts| ==> ts[i].id != t.id
    ensures Without(ts + [t], t.id) == ts
  {
    FilterConcat(ts, [t], IdIsNot(t.id));
    WithoutUnknown(ts, t.id);
    assert Filter([t], IdIsNot(t.id)) == [];
  }

  /** A second removal of the same id finds nothing more to remove. */
  lemma RemoveIdempotent(ts: seq<Toast>, id: string)
    ensures Without(Without(ts, id), id) == Without(ts, id)
  {
    FilterMembers(ts, IdIsNot(id));
    FilterAll(Without(ts, id), IdIsNot(id));
  }

  /** After unsubscribing, the listener is never called again; the others stay in order. */
  lemma UnsubscribeSpec(ls: seq<Listener>, l: Listener, ts: seq<Toast>)
    ensures l !in Filter(ls, ListenerIsNot(l))
    ensures IsSubseq(Filter(ls, ListenerIsNot(l)), ls)
    ensures forall m: Listener :: m != l ==> multiset(Filter(ls, ListenerIsNot(l)))[m] == multiset(ls)[m]
    ensures forall d :: d in Broadcast(Filter(ls, ListenerIsNot(l)), ts) ==> d.listener != l
  {
    FilterIsSubseq(ls, ListenerIsNot(l));
    FilterMembers(ls, ListenerIsNot(l));
    forall m: Listener | m != l ensures multiset(Filter(ls, ListenerIsNot(l)))[m] == multiset(ls)[m] {
      FilterMultiset(ls, ListenerIsNot(l), m);
    }
  }
}
