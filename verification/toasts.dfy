/**
 * The toast queue (src/store/toastStore.ts): notifications appended in
 * arrival order and dismissed by id. The five-second timer is not modelled;
 * a toast expires by an explicit `RemoveToast` of the id `AddToast` returns.
 */
module ToastStore {
  import opened Wrappers
  import opened Types

  datatype ToastType = SuccessToast | ErrorToast | InfoToast

  /**
   * The undo callback the board attaches to a move toast, as data: the
   * snapshot the callback captured, which it restores when there is one.
   */
  datatype UndoToken = RestoreSnapshot(snapshot: Option<Issue>)

  datatype Toast = Toast(id: string, message: string, kind: ToastType, onUndo: Option<UndoToken>)

  /** The decimal digit for `d`. */
  function DigitChar(d: nat): char
    requires d < 10
  {
    "0123456789"[d]
  }

  /** The value of a decimal digit character (0 for any other character). */
  function DigitValue(c: char): nat
  {
    if '0' <= c <= '9' then (c as int - '0' as int) as nat else 0
  }

  /** Decimal rendering of a natural number, without leading zeros. */
  function NatToString(n: nat): (s: string)
    ensures |s| > 0
    ensures forall i :: 0 <= i < |s| ==> '0' <= s[i] <= '9'
    decreases n
  {
    if n < 10 then [DigitChar(n)] else NatToString(n / 10) + [DigitChar(n % 10)]
  }

  /** Reads a string of decimal digits back as a number. */
  function ParseNat(s: string): nat
  {
    if |s| == 0 then 0 else ParseNat(s[..|s| - 1]) * 10 + DigitValue(s[|s| - 1])
  }

  /** Template-literal rendering of an integer: a minus sign, then the digits. */
  function IntToString(i: int): (s: string)
    ensures |s| > 0
  {
    if i < 0 then "-" + NatToString(-i) else NatToString(i)
  }

  function ParseInt(s: string): int
  {
    if |s| > 0 && s[0] == '-' then -(ParseNat(s[1..]) as int) else ParseNat(s)
  }

  lemma {:induction false} NatRoundTrip(n: nat)
    ensures ParseNat(NatToString(n)) == n
    decreases n
  {
    var s := NatToString(n);
    if n < 10 {
      assert s[..|s| - 1] == [];
    } else {
      NatRoundTrip(n / 10);
      assert s[..|s| - 1] == NatToString(n / 10);
    }
  }

  /** A rendered natural number starts with a digit, not a minus sign. */
  lemma ParseIntOfDigits(n: nat)
    ensures ParseInt(NatToString(n)) == n
  {
    var s := NatToString(n);
    assert '0' <= s[0] <= '9';
    NatRoundTrip(n);
  }

  /** A minus sign in front of rendered digits reads back as the negated number. */
  lemma ParseIntOfSigned(n: nat)
    ensures ParseInt("-" + NatToString(n)) == -(n as int)
  {
    var digits := NatToString(n);
    var s := "-" + digits;
    assert s[0] == '-' && s[1..] == digits;
    NatRoundTrip(n);
  }

  /** Reading a rendered integer back gives the integer. */
  lemma IntRoundTrip(i: int)
    ensures ParseInt(IntToString(i)) == i
  {
    if i < 0 {
      assert IntToString(i) == "-" + NatToString(-i);
      ParseIntOfSigned(-i);
    } else {
      assert IntToString(i) == NatToString(i);
      ParseIntOfDigits(i);
    }
  }

  /** A toast's id: the prefix "toast-" followed by the clock reading in decimal. */
  function ToastId(now: int): (id: string)
    ensures |id| > 6 && id[..6] == "toast-"
    ensures ParseInt(id[6..]) == now
  {
    var id := "toast-" + IntToString(now);
    assert id[6..] == IntToString(now);
    IntRoundTrip(now);
    id
  }

  /** Toasts created at different instants have different ids, and at the same instant the same id. */
  lemma ToastIdsDistinct(t1: int, t2: int)
    ensures ToastId(t1) == ToastId(t2) <==> t1 == t2
  {
    if ToastId(t1) == ToastId(t2) {
      assert IntToString(t1) == ToastId(t1)[6..];
      assert IntToString(t2) == ToastId(t2)[6..];
      IntRoundTrip(t1);
      IntRoundTrip(t2);
    }
  }

  /** The queue with every toast carrying `id` removed, the others in their order. */
  function Dismiss(ts: seq<Toast>, id: string): (r: seq<Toast>)
    ensures |r| <= |ts|
  {
    if |ts| == 0 then []
    else (if ts[0].id == id then [] else [ts[0]]) + Dismiss(ts[1..], id)
  }

  /** What survives a dismissal: exactly the toasts with another id. */
  lemma {:induction false} DismissMembers(ts: seq<Toast>, id: string)
    ensures forall t :: t in Dismiss(ts, id) <==> t in ts && t.id != id
  {
    if |ts| > 0 {
      DismissMembers(ts[1..], id);
      assert ts == [ts[0]] + ts[1..];
    }
  }

  /** Dismissal works piecewise, so the surviving toasts keep their order. */
  lemma {:induction false} DismissConcat(a: seq<Toast>, b: seq<Toast>, id: string)
    ensures Dismiss(a + b, id) == Dismiss(a, id) + Dismiss(b, id)
  {
    if |a| == 0 {
      assert a + b == b;
    } else {
      var ab := a + b;
      assert ab[0] == a[0];
      assert ab[1..] == a[1..] + b;
      var head := if a[0].id == id then [] else [a[0]];
      DismissConcat(a[1..], b, id);
      calc {
        Dismiss(ab, id);
        head + Dismiss(a[1..] + b, id);
        head + (Dismiss(a[1..], id) + Dismiss(b, id));
        (head + Dismiss(a[1..], id)) + Dismiss(b, id);
        Dismiss(a, id) + Dismiss(b, id);
      }
    }
  }

  /** Dismissing an id no toast carries changes nothing. */
  lemma {:induction false} DismissUnknown(ts: seq<Toast>, id: string)
    requires forall t :: t in ts ==> t.id != id
    ensures Dismiss(ts, id) == ts
  {
    if |ts| > 0 {
      DismissUnknown(ts[1..], id);
      assert ts == [ts[0]] + ts[1..];
    }
  }

  /** Dismissing twice is dismissing once. */
  lemma DismissTwice(ts: seq<Toast>, id: string)
    ensures Dismiss(Dismiss(ts, id), id) == Dismiss(ts, id)
  {
    DismissMembers(ts, id);
    DismissUnknown(Dismiss(ts, id), id);
  }

  /**
   * A toast's expiry removes it, and it removes no earlier toast unless that
   * one was created in the same millisecond and so carries the same id.
   */
  lemma ExpiryRemovesOnlyItsInstant(ts: seq<Toast>, message: string, kind: ToastType, onUndo: Option<UndoToken>, now: int)
    requires forall t :: t in ts ==> t.id != ToastId(now)
    ensures Dismiss(ts + [Toast(ToastId(now), message, kind, onUndo)], ToastId(now)) == ts
  {
    var t := Toast(ToastId(now), message, kind, onUndo);
    DismissConcat(ts, [t], ToastId(now));
    DismissUnknown(ts, ToastId(now));
    assert [t][1..] == [];
  }

  /** Dismissing the first of two toasts with different ids leaves the second. */
  lemma DismissFirstOfTwo(first: Toast, second: Toast)
    requires first.id != second.id
    ensures Dismiss([first, second], first.id) == [second]
  {
    assert [first, second][1..] == [second] && [second][1..] == [];
  }

  /** Two toasts added in the same millisecond share an id, so dismissing one dismisses both. */
  lemma SameInstantToastsDismissedTogether(a: Toast, b: Toast, now: int)
    requires a.id == ToastId(now) && b.id == ToastId(now)
    ensures Dismiss([a, b], a.id) == []
  {
    assert [a, b][1..] == [b] && [b][1..] == [];
  }

  /** The store's `toasts` list and its two actions. */
  class ToastState {
    var toasts: seq<Toast>

    constructor()
      ensures toasts == []
    {
      toasts := [];
    }

    /**
     * `addToast`: appends one toast stamped with the clock; the returned id
     * is the one its timer later passes to `RemoveToast`.
     */
    method AddToast(message: string, kind: ToastType, onUndo: Option<UndoToken>, now: int) returns (expiryId: string)
      modifies this`toasts
      ensures toasts == old(toasts) + [Toast(ToastId(now), message, kind, onUndo)]
      ensures expiryId == ToastId(now)
    {
      expiryId := ToastId(now);
      toasts := toasts + [Toast(expiryId, message, kind, onUndo)];
    }

    /** `removeToast`: drops every toast with the id, keeping the rest in order. */
    method RemoveToast(id: string)
      modifies this`toasts
      ensures toasts == Dismiss(old(toasts), id)
    {
      toasts := Dismiss(toasts, id);
    }
  }
}
