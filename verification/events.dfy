/// Event handler lists: the invocation list of a C# event, as `+=` and
/// `-=` update it.
module Events {
  /// An event handler delegate. Two handlers are the same delegate exactly
  /// when they are equal.
  type Handler = nat

  /// The index of the last occurrence of `h` in `list`, or -1.
  function LastIndexOf(list: seq<Handler>, h: Handler): (k: int)
    ensures -1 <= k < |list|
    ensures k == -1 <==> h !in list
    ensures k >= 0 ==> list[k] == h && forall j :: k < j < |list| ==> list[j] != h
  {
    if |list| == 0 then -1
    else if list[|list| - 1] == h then |list| - 1
    else LastIndexOf(list[..|list| - 1], h)
  }

  /// `Delegate.Remove(list, h)`, which `-=` calls: it drops the last
  /// occurrence of `h` and keeps the order of the rest. An absent handler
  /// leaves the list as it is.
  function RemoveLast(list: seq<Handler>, h: Handler): (r: seq<Handler>)
  {
    if |list| == 0 then []
    else
      var init, last := list[..|list| - 1], list[|list| - 1];
      if last == h then init else RemoveLast(init, h) + [last]
  }

  /// `-=` removes exactly one subscription of `h`, if there is one.
  lemma {:induction false} RemoveLastMultiset(list: seq<Handler>, h: Handler)
    ensures multiset(RemoveLast(list, h)) == multiset(list) - multiset{h}
  {
    if |list| > 0 {
      var init, last := list[..|list| - 1], list[|list| - 1];
      assert list == init + [last];
      if last != h {
        RemoveLastMultiset(init, h);
      }
    }
  }

  /// `-=` with a handler that is not subscribed changes nothing.
  lemma {:induction false} RemoveAbsent(list: seq<Handler>, h: Handler)
    requires h !in list
    ensures RemoveLast(list, h) == list
  {
    if |list| > 0 {
      var init := list[..|list| - 1];
      assert list == init + [list[|list| - 1]];
      RemoveAbsent(init, h);
    }
  }

  /// `-=` cuts the last occurrence out of the list.
  lemma {:induction false} RemoveLastCutsLastOccurrence(list: seq<Handler>, h: Handler, k: int)
    requires k == LastIndexOf(list, h) && k >= 0
    ensures RemoveLast(list, h) == list[..k] + list[k + 1..]
  {
    var init, last := list[..|list| - 1], list[|list| - 1];
    assert list == init + [last];
    if last != h {
      assert k == LastIndexOf(init, h);
      RemoveLastCutsLastOccurrence(init, h, k);
      calc {
        RemoveLast(list, h);
        RemoveLast(init, h) + [last];
        init[..k] + init[k + 1..] + [last];
        { assert list[k + 1..] == init[k + 1..] + [last]; }
        list[..k] + list[k + 1..];
      }
    }
  }

  /// Subscribing a handler and then unsubscribing it restores the list.
  lemma AddThenRemove(list: seq<Handler>, h: Handler)
    ensures RemoveLast(list + [h], h) == list
  {
    assert (list + [h])[..|list|] == list;
  }
}
