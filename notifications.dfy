/**
 * `showNotification`: the page keeps at most one `.notification` element attached to the
 * body. Showing one removes the element already there, appends the new one and schedules
 * its dismissal: after a delay it slides out, and a second, shorter timer then detaches it.
 * Timers are pending callbacks that the event loop runs in some order; the timers of a
 * replaced notification are never cancelled and later run against their own, already
 * detached element.
 */
module Notifications {
  import opened Options

  /** Background colours of the two styles. */
  const SuccessColour := "#10b981"
  const ErrorColour := "#ef4444"

  /** One notification element: `id` is its identity as a DOM node, `leaving` records that
      its slide-out animation has started. */
  datatype Notification = Notification(id: nat, message: string, kind: string, leaving: bool)

  /** `notification.className`. */
  function ClassName(n: Notification): string {
    "notification notification-" + n.kind
  }

  /** The class attribute tells the types apart: two elements share it iff they share a type. */
  lemma ClassNameDeterminesKind(n: Notification, m: Notification)
    ensures ClassName(n) == ClassName(m) <==> n.kind == m.kind
  {
    var prefix := "notification notification-";
    assert ClassName(n)[|prefix|..] == n.kind;
    assert ClassName(m)[|prefix|..] == m.kind;
  }

  /** The background of the element: green for the type 'success', red for any other. */
  function Background(n: Notification): (c: string)
    ensures c == SuccessColour <==> n.kind == "success"
    ensures c == ErrorColour <==> n.kind != "success"
  {
    if n.kind == "success" then SuccessColour else ErrorColour
  }

  /** A scheduled callback, with the element it closes over. */
  datatype Timer =
    | SlideOut(target: nat)   // the dismissal delay: start the slide-out, then schedule Detach
    | Detach(target: nat)     // the exit transition: remove the element

  /** The timer that will next move `n` toward dismissal. */
  function DismissalOf(n: Notification): Timer {
    if n.leaving then Detach(n.id) else SlideOut(n.id)
  }

  /** `element.remove()` for the element `id`: a no-op when it is not attached. */
  function Detached(shown: seq<Notification>, id: nat): (r: seq<Notification>)
    ensures forall n :: n in r <==> n in shown && n.id != id
    ensures |r| <= |shown|
    ensures (forall n :: n in shown ==> n.id != id) ==> r == shown
  {
    if shown == [] then []
    else if shown[0].id == id then Detached(shown[1..], id)
    else [shown[0]] + Detached(shown[1..], id)
  }

  /** The slide-out animation set on the element `id`, wherever it is attached. */
  function SlidingOut(shown: seq<Notification>, id: nat): (r: seq<Notification>)
    ensures |r| == |shown|
    ensures forall k :: 0 <= k < |r| ==>
      r[k] == if shown[k].id == id then shown[k].(leaving := true) else shown[k]
    ensures (forall n :: n in shown ==> n.id != id) ==> r == shown
  {
    if shown == [] then []
    else [if shown[0].id == id then shown[0].(leaving := true) else shown[0]] + SlidingOut(shown[1..], id)
  }

  /** The pending timers once the one at `k` has run. */
  function Without(pending: seq<Timer>, k: nat): (r: seq<Timer>)
    requires k < |pending|
    ensures |r| == |pending| - 1
    ensures forall t :: t in pending && t != pending[k] ==> t in r
    ensures forall t :: t in r ==> t in pending
  {
    pending[..k] + pending[k + 1..]
  }

  class NotificationLayer {
    /** The `.notification` elements attached to the document body, in document order. */
    var shown: seq<Notification>
    /** Scheduled callbacks that have not run yet. */
    var pending: seq<Timer>
    /** Identity of the next element created. */
    var nextId: nat

    /** At most one notification is attached; every attached one has its dismissal pending;
        identities handed out so far are below nextId. */
    ghost predicate Valid()
      reads this
    {
      && |shown| <= 1
      && (forall n :: n in shown ==> n.id < nextId && DismissalOf(n) in pending)
      && (forall t :: t in pending ==> t.target < nextId)
    }

    /** The notification on screen, if any. */
    function Current(): Option<Notification>
      reads this
    {
      if shown == [] then None else Some(shown[0])
    }

    constructor ()
      ensures Valid()
      ensures shown == [] && pending == [] && nextId == 0
    {
      shown, pending, nextId := [], [], 0;
    }

    /** `showNotification(message, type)`. */
    method Show(message: string, kind: string)
      requires Valid()
      modifies this
      ensures Valid()
      ensures shown == [Notification(old(nextId), message, kind, false)]
      ensures Current() == Some(Notification(old(nextId), message, kind, false))
      ensures pending == old(pending) + [SlideOut(old(nextId))]
      ensures nextId == old(nextId) + 1
    {
      // document.querySelector('.notification') finds the first attached one
      if shown != [] {
        shown := Detached(shown, shown[0].id);
      }
      var n := Notification(nextId, message, kind, false);
      nextId := nextId + 1;
      shown := shown + [n];
      pending := pending + [SlideOut(n.id)];
    }

    /** The event loop runs the pending timer at index `k`. */
    method Fire(k: nat)
      requires Valid()
      requires k < |pending|
      modifies this
      ensures Valid()
      ensures nextId == old(nextId)
      ensures old(pending[k]).SlideOut? ==>
        && shown == SlidingOut(old(shown), old(pending[k]).target)
        && pending == Without(old(pending), k) + [Detach(old(pending[k]).target)]
      ensures old(pending[k]).Detach? ==>
        && shown == Detached(old(shown), old(pending[k]).target)
        && pending == Without(old(pending), k)
      ensures (forall n :: n in old(shown) ==> n.id != old(pending[k]).target) ==> shown == old(shown)
    {
      var t := pending[k];
      var rest := Without(pending, k);
      match t
      case SlideOut(id) =>
        shown := SlidingOut(shown, id);
        pending := rest + [Detach(id)];
      case Detach(id) =>
        shown := Detached(shown, id);
        pending := rest;
    }
  }

  /** Two notifications in quick succession: only the second is on screen, both dismissal
      timers are pending, and when the first one's timers run they leave it on screen. */
  method ShowTwiceScenario(m1: string, k1: string, m2: string, k2: string)
    returns (afterShows: seq<Notification>, timers: seq<Timer>, afterStale: seq<Notification>)
    ensures afterShows == [Notification(1, m2, k2, false)]
    ensures timers == [SlideOut(0), SlideOut(1)]
    ensures afterStale == afterShows
  {
    var layer := new NotificationLayer();
    layer.Show(m1, k1);
    layer.Show(m2, k2);
    afterShows, timers := layer.shown, layer.pending;
    layer.Fire(0);
    assert layer.pending == [SlideOut(1), Detach(0)];
    layer.Fire(1);
    afterStale := layer.shown;
  }

  /** One notification left alone: its first timer starts the slide-out, its second
      removes it. */
  method DismissScenario(message: string, kind: string)
    returns (sliding: seq<Notification>, afterDetach: seq<Notification>)
    ensures sliding == [Notification(0, message, kind, true)]
    ensures afterDetach == []
  {
    var layer := new NotificationLayer();
    layer.Show(message, kind);
    layer.Fire(0);
    sliding := layer.shown;
    assert layer.pending == [Detach(0)];
    layer.Fire(0);
    afterDetach := layer.shown;
  }
}
