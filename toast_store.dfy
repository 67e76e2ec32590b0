/** The toast notification store (`src/lib/stores/toastStore.ts`): a list of toasts
    shown on screen. Outside the browser every action does nothing. The id of a new toast
    (`crypto.randomUUID()`) is an input. */
module ToastStore {
  import Types

  datatype ToastType = Success | Error | Info | Warning

  datatype Toast = Toast(id: string, message: string, toastType: ToastType, duration: int)

  const DefaultDuration: int := 3000

  /** The duration each typed helper uses when none is given. */
  function HelperDuration(t: ToastType): (d: int)
    ensures t == Error ==> d == 4000
    ensures t == Warning ==> d == 3500
    ensures t == Success || t == Info ==> d == DefaultDuration
  {
    match t
    case Success => 3000
    case Error => 4000
    case Info => 3000
    case Warning => 3500
  }

  /** `toasts.filter(toast => toast.id !== id)`. */
  function Without(toasts: seq<Toast>, id: string): (r: seq<Toast>)
    ensures |r| <= |toasts|
    ensures forall t :: t in r <==> t in toasts && t.id != id
  {
    if toasts == [] then []
    else if toasts[0].id == id then Without(toasts[1..], id)
    else [toasts[0]] + Without(toasts[1..], id)
  }

  /** Filtering keeps the order of what it keeps: it works piecewise on a concatenation. */
  lemma {:induction false} WithoutAppend(a: seq<Toast>, b: seq<Toast>, id: string)
    ensures Without(a + b, id) == Without(a, id) + Without(b, id)
  {
    if a != [] {
      assert (a + b)[1..] == a[1..] + b;
      WithoutAppend(a[1..], b, id);
    } else {
      assert a + b == b;
    }
  }

  /** A list with no toast of that id is left as it is. */
  lemma {:induction false} WithoutAbsent(toasts: seq<Toast>, id: string)
    requires forall t :: t in toasts ==> t.id != id
    ensures Without(toasts, id) == toasts
  {
    if toasts != [] {
      assert forall t :: t in toasts[1..] ==> t in toasts;
      WithoutAbsent(toasts[1..], id);
      assert [toasts[0]] + toasts[1..] == toasts;
    }
  }

  /** Removing twice is removing once. */
  lemma WithoutIdempotent(toasts: seq<Toast>, id: string)
    ensures Without(Without(toasts, id), id) == Without(toasts, id)
  {
    WithoutAbsent(Without(toasts, id), id);
  }

  /** Removing a toast right after adding it, with an id no other toast has, restores the
      list. */
  lemma RemoveAfterAdd(toasts: seq<Toast>, t: Toast)
    requires forall u :: u in toasts ==> u.id != t.id
    ensures Without(toasts + [t], t.id) == toasts
  {
    WithoutAppend(toasts, [t], t.id);
    WithoutAbsent(toasts, t.id);
    assert Without([t], t.id) == Without([], t.id);
    assert toasts + [] == toasts;
  }

  class ToastList {
    const inBrowser: bool
    var toasts: seq<Toast>

    constructor(inBrowser: bool)
      ensures this.inBrowser == inBrowser && toasts == []
    {
      this.inBrowser := inBrowser;
      toasts := [];
    }

    /** `addToast(message, type = 'info', duration = 3000)`: `None` stands for an
        argument left out. The auto-removal timer is not part of this model. */
    method Add(message: string, toastType: Types.Option<ToastType>, duration: Types.Option<int>, id: string)
      returns (r: string)
      modifies this
      ensures !inBrowser ==> r == "" && toasts == old(toasts)
      ensures inBrowser ==> r == id && toasts == old(toasts) + [Toast(id, message,
        if toastType.Some? then toastType.value else Info,
        if duration.Some? then duration.value else DefaultDuration)]
    {
      if !inBrowser {
        return "";
      }
      var t := if toastType.Some? then toastType.value else Info;
      var d := if duration.Some? then duration.value else DefaultDuration;
      toasts := toasts + [Toast(id, message, t, d)];
      return id;
    }

    /** The `success`, `error`, `info` and `warning` helpers: the type is fixed and the
        duration defaults to the type's own. */
    method Notify(toastType: ToastType, message: string, duration: Types.Option<int>, id: string)
      returns (r: string)
      modifies this
      ensures !inBrowser ==> r == "" && toasts == old(toasts)
      ensures inBrowser ==> r == id && toasts == old(toasts) + [Toast(id, message, toastType,
        if duration.Some? then duration.value else HelperDuration(toastType))]
    {
      var d := if duration.Some? then duration.value else HelperDuration(toastType);
      r := Add(message, Types.Some(toastType), Types.Some(d), id);
    }

    method Remove(id: string)
      modifies this
      ensures toasts == if inBrowser then Without(old(toasts), id) else old(toasts)
    {
      if !inBrowser {
        return;
      }
      toasts := Without(toasts, id);
    }

    method Clear()
      modifies this
      ensures toasts == if inBrowser then [] else old(toasts)
    {
      if !inBrowser {
        return;
      }
      toasts := [];
    }
  }
}
