/**
 * The notification queue (contexts/ToastContext.tsx). Real timers become
 * explicit transitions: `showToast` reports the delay of the exit timer it
 * starts, and the timer firing is `ExitTimerFires`; `handleUndo` reports the
 * delay after which its own timer calls `DismissToast`.
 */
module Toasts {
  import opened Wrappers
  import opened Seqs

  datatype ToastType = Success | Error | Info

  /** `ToastItem`; `hasUndo` says whether an `onUndo` callback was given, `exiting` is `false` while unset. */
  datatype ToastItem = ToastItem(
    id: string,
    title: string,
    message: string,
    toastType: ToastType,
    hasUndo: bool,
    createdAt: int,
    exiting: bool)

  /** The title, message and type of a `showToast` call. */
  datatype Notice = Notice(title: string, message: string, toastType: ToastType)

  const DURATION_MS: int := 3000
  const EXIT_DURATION_MS: int := 300
  const UNDO_DISMISS_DELAY_MS: int := 200
  const PROVIDER_MISSING: string := "useToast must be used within ToastProvider"

  predicate HasToast(toasts: seq<ToastItem>, id: string) {
    exists i :: 0 <= i < |toasts| && toasts[i].id == id
  }

  /** `prev.filter((t) => t.id !== id)`. */
  function RemoveToast(toasts: seq<ToastItem>, id: string): (r: seq<ToastItem>)
    ensures |r| <= |toasts|
    ensures forall i :: 0 <= i < |r| ==> r[i].id != id && r[i] in toasts
  {
    Filter(toasts, (t: ToastItem) => t.id != id)
  }

  /** `prev.map((t) => (t.id === id ? { ...t, exiting: true } : t))`. */
  function MarkExiting(toasts: seq<ToastItem>, id: string): (r: seq<ToastItem>)
    ensures |r| == |toasts|
    ensures forall i :: 0 <= i < |toasts| && toasts[i].id == id ==> r[i].exiting
    ensures forall i :: 0 <= i < |toasts| && toasts[i].id != id ==> r[i] == toasts[i]
  {
    Map(toasts, (t: ToastItem) => if t.id == id then t.(exiting := true) else t)
  }

  /**
   * Dismissing removes every toast with the id and keeps the others, with
   * their multiplicities, in their order; an unknown id changes nothing.
   */
  lemma RemoveToastSpec(toasts: seq<ToastItem>, id: string)
    ensures forall t :: t in RemoveToast(toasts, id) ==> t.id != id
    ensures forall t :: t in toasts && t.id != id ==> t in RemoveToast(toasts, id)
    ensures forall t: ToastItem :: t.id != id ==> multiset(RemoveToast(toasts, id))[t] == multiset(toasts)[t]
    ensures IsSubsequence(RemoveToast(toasts, id), toasts)
    ensures !HasToast(toasts, id) ==> RemoveToast(toasts, id) == toasts
  {
    var p := (t: ToastItem) => t.id != id;
    FilterIsSubsequence(toasts, p);
    forall t: ToastItem | t.id != id ensures multiset(RemoveToast(toasts, id))[t] == multiset(toasts)[t] {
      FilterCount(toasts, p, t);
    }
    if !HasToast(toasts, id) {
      FilterKeepsAll(toasts, p);
    }
  }

  /**
   * The exit step flags exactly the toasts with the id, changes nothing else
   * about them, and keeps length, order and ids.
   */
  lemma MarkExitingSpec(toasts: seq<ToastItem>, id: string)
    ensures |MarkExiting(toasts, id)| == |toasts|
    ensures forall i :: 0 <= i < |toasts| ==>
      MarkExiting(toasts, id)[i] == if toasts[i].id == id then toasts[i].(exiting := true) else toasts[i]
    ensures forall i :: 0 <= i < |toasts| ==> MarkExiting(toasts, id)[i].id == toasts[i].id
    ensures !HasToast(toasts, id) ==> MarkExiting(toasts, id) == toasts
  {
  }

  /** A late exit timer for a dismissed toast has no effect. */
  lemma ExitAfterDismissIsNoop(toasts: seq<ToastItem>, id: string)
    ensures MarkExiting(RemoveToast(toasts, id), id) == RemoveToast(toasts, id)
  {
    var rest := RemoveToast(toasts, id);
    assert !HasToast(rest, id);
    MarkExitingSpec(rest, id);
  }

  /**
   * The full life of a toast with a fresh id: appended, flagged by its exit
   * timer, then removed at the end of its exit animation, leaving the queue
   * as it was before.
   */
  lemma {:induction false} LifecycleRestoresQueue(toasts: seq<ToastItem>, item: ToastItem)
    requires !HasToast(toasts, item.id)
    ensures RemoveToast(MarkExiting(toasts + [item], item.id), item.id) == toasts
  {
    var f := (t: ToastItem) => if t.id == item.id then t.(exiting := true) else t;
    var p := (t: ToastItem) => t.id != item.id;
    MapAppend(toasts, [item], f);
    MarkExitingSpec(toasts, item.id);
    assert Map(toasts + [item], f) == toasts + [item.(exiting := true)];
    FilterAppend(toasts, [item.(exiting := true)], p);
    FilterKeepsAll(toasts, p);
    assert Filter([item.(exiting := true)], p) == [];
    assert toasts + [] == toasts;
  }

  /** `ToastProvider`'s `toasts` state, plus the local `isExiting` flag of each rendered `ToastItem`. */
  class ToastProvider {
    var toasts: seq<ToastItem>
    /** Ids of rendered items whose own `isExiting` state has been set by `handleUndo`. */
    var locallyExiting: set<string>

    constructor ()
      ensures toasts == [] && locallyExiting == {}
    {
      toasts, locallyExiting := [], {};
    }

    /** `dismissToast(id)`; the item's component, and its local state, go with it. */
    method DismissToast(id: string)
      modifies this
      ensures toasts == RemoveToast(old(toasts), id)
      ensures locallyExiting == old(locallyExiting) - {id}
    {
      toasts := RemoveToast(toasts, id);
      locallyExiting := locallyExiting - {id};
    }

    /**
     * `showToast(title, message, type?, options?)` with the generated id and
     * the current time as inputs; `exitTimerDelay` is when the exit timer fires.
     */
    method ShowToast(title: string, message: string, toastType: Option<ToastType>, hasUndo: bool,
                     id: string, now: int) returns (exitTimerDelay: int)
      modifies this
      ensures toasts == old(toasts) + [ToastItem(id, title, message,
                                                 if toastType.Some? then toastType.value else Success,
                                                 hasUndo, now, false)]
      ensures locallyExiting == old(locallyExiting)
      ensures exitTimerDelay == 2700
    {
      var kind := if toastType.Some? then toastType.value else Success;
      toasts := toasts + [ToastItem(id, title, message, kind, hasUndo, now, false)];
      exitTimerDelay := DURATION_MS - EXIT_DURATION_MS;
    }

    /** The exit timer started by `showToast` for `id` fires. */
    method ExitTimerFires(id: string)
      modifies this
      ensures toasts == MarkExiting(old(toasts), id)
      ensures locallyExiting == old(locallyExiting)
      ensures forall i :: 0 <= i < |toasts| && toasts[i].id == id ==> ShowsExiting(toasts[i])
    {
      toasts := MarkExiting(toasts, id);
    }

    /** `handleAnimationEnd` of a rendered item: only an item flagged `exiting` is dismissed. */
    method HandleAnimationEnd(toast: ToastItem)
      modifies this
      ensures toast.exiting ==> toasts == RemoveToast(old(toasts), toast.id) && locallyExiting == old(locallyExiting) - {toast.id}
      ensures !toast.exiting ==> toasts == old(toasts) && locallyExiting == old(locallyExiting)
    {
      if toast.exiting {
        DismissToast(toast.id);
      }
    }

    /**
     * `handleUndo` of a rendered item: the item shows as exiting at once,
     * `callsUndo` says whether `onUndo` is invoked, and the item is dismissed
     * `dismissDelay` milliseconds later.
     */
    method HandleUndo(toast: ToastItem) returns (callsUndo: bool, dismissDelay: int)
      modifies this
      ensures locallyExiting == old(locallyExiting) + {toast.id}
      ensures toasts == old(toasts)
      ensures callsUndo == toast.hasUndo
      ensures dismissDelay == 200
      ensures ShowsExiting(toast)
    {
      locallyExiting := locallyExiting + {toast.id};
      callsUndo := toast.hasUndo;
      dismissDelay := UNDO_DISMISS_DELAY_MS;
    }

    /** `toast.exiting || isExiting`: whether the item plays its exit animation. */
    function ShowsExiting(toast: ToastItem): (r: bool)
      reads this
      ensures r <==> toast.exiting || toast.id in locallyExiting
    {
      toast.exiting || toast.id in locallyExiting
    }
  }

  /** `useToast`: the provider's context, or the error it throws outside one. */
  function UseToast(ctx: Option<ToastProvider>): (r: Result<ToastProvider, string>)
    ensures r.Err? <==> ctx.None?
    ensures r.Err? ==> r.error == PROVIDER_MISSING
    ensures r.Ok? ==> r.value == ctx.value
  {
    match ctx
    case None => Err(PROVIDER_MISSING)
    case Some(c) => Ok(c)
  }
}
