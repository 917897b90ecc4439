/** The toast queue: notifications are appended at the end and dismissed by id. */
module Toasts {
  import opened Common

  datatype ToastType = Success | Warning | Error | Info

  datatype Toast = Toast(id: string, message: string, kind: ToastType)

  /** The type a toast gets when `showToast` is called without one. */
  function TypeOrDefault(kind: Option<ToastType>): (r: ToastType)
    ensures kind.None? ==> r == Success
    ensures kind.Some? ==> r == kind.value
  {
    match kind
    case None => Success
    case Some(k) => k
  }

  /** `showToast`: one toast, with the freshly drawn id, after all the others. */
  function Shown(toasts: seq<Toast>, id: string, message: string, kind: Option<ToastType>): (r: seq<Toast>)
    ensures |r| == |toasts| + 1 && r[..|toasts|] == toasts
    ensures r[|toasts|] == Toast(id, message, TypeOrDefault(kind))
  {
    toasts + [Toast(id, message, TypeOrDefault(kind))]
  }

  function IdIsNot(id: string): Toast -> bool
  {
    (t: Toast) => t.id != id
  }

  /** `dismissToast`. */
  function Dismissed(toasts: seq<Toast>, id: string): (r: seq<Toast>)
    ensures |r| <= |toasts|
  {
    Filter(toasts, IdIsNot(id))
  }

  predicate HasId(toasts: seq<Toast>, id: string)
  {
    exists i :: 0 <= i < |toasts| && toasts[i].id == id
  }

  /** Dismissing keeps exactly the toasts with another id, each as often as before. */
  lemma DismissedCounts(toasts: seq<Toast>, id: string, t: Toast)
    ensures multiset(Dismissed(toasts, id))[t] == if t.id == id then 0 else multiset(toasts)[t]
  {
    FilterMultiset(toasts, IdIsNot(id), t);
  }

  /** No toast with the dismissed id remains. */
  lemma DismissedHasNoId(toasts: seq<Toast>, id: string)
    ensures !HasId(Dismissed(toasts, id), id)
  {
    var r := Dismissed(toasts, id);
    FilterMembers(toasts, IdIsNot(id));
    forall i | 0 <= i < |r|
      ensures r[i].id != id
    {
      assert r[i] in r;
    }
  }

  /** Dismissing an id no toast has changes nothing. */
  lemma DismissAbsent(toasts: seq<Toast>, id: string)
    requires !HasId(toasts, id)
    ensures Dismissed(toasts, id) == toasts
  {
    forall t | t in toasts
      ensures IdIsNot(id)(t)
    {
      var i :| 0 <= i < |toasts| && toasts[i] == t;
    }
    FilterAllKept(toasts, IdIsNot(id));
  }

  /** Dismissing the same id twice is dismissing it once. */
  lemma DismissTwice(toasts: seq<Toast>, id: string)
    ensures Dismissed(Dismissed(toasts, id), id) == Dismissed(toasts, id)
  {
    FilterIdempotent(toasts, IdIsNot(id));
  }

  /** Showing a toast under a new id and dismissing that id gives the old queue back. */
  lemma ShowThenDismiss(toasts: seq<Toast>, id: string, message: string, kind: Option<ToastType>)
    requires !HasId(toasts, id)
    ensures Dismissed(Shown(toasts, id, message, kind), id) == toasts
  {
    FilterSnoc(toasts, Toast(id, message, TypeOrDefault(kind)), IdIsNot(id));
    DismissAbsent(toasts, id);
  }

  /** Dismissing another id does not disturb a toast just shown: it stays last. */
  lemma DismissOtherKeepsShown(toasts: seq<Toast>, id: string, message: string, kind: Option<ToastType>, other: string)
    requires other != id
    ensures Dismissed(Shown(toasts, id, message, kind), other)
            == Shown(Dismissed(toasts, other), id, message, kind)
  {
    FilterSnoc(toasts, Toast(id, message, TypeOrDefault(kind)), IdIsNot(other));
  }

  /** The hook's state. */
  class ToastQueue {
    var toasts: seq<Toast>

    constructor ()
      ensures toasts == []
    {
      toasts := [];
    }

    /** `showToast`; the id, drawn at random in the component, is passed in. */
    method ShowToast(id: string, message: string, kind: Option<ToastType>)
      modifies this
      ensures toasts == Shown(old(toasts), id, message, kind)
    {
      toasts := toasts + [Toast(id, message, TypeOrDefault(kind))];
    }

    method DismissToast(id: string)
      modifies this
      ensures toasts == Dismissed(old(toasts), id)
    {
      toasts := Filter(toasts, IdIsNot(id));
    }
  }
}
