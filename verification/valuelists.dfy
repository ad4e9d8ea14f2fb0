/// `CameraParamList` and `DepthWorkModeList`. Apart from their item type
/// and item getter the two classes are the same code, so they are
/// modelled together. The item type is the type parameter `V`. Each item
/// is a structure the native getter returns by value.
module ValueLists {
  import opened Base
  import opened Int32
  import opened ObTypes
  import opened Native
  import opened ObException
  import opened PtrWrappers
  import opened Helpers
  import opened NativeLists

  predicate IsValueListKind(kind: HandleKind)
  {
    kind == HandleKind.CameraParamList || kind == HandleKind.DepthWorkModeList
  }

  /// The native item getter of each list.
  function ValueItemGetter(kind: HandleKind): (name: string)
    requires IsValueListKind(kind)
    ensures name != CountGetter(kind)
  {
    if kind == HandleKind.CameraParamList then "ob_camera_param_list_get_param" else "ob_depth_work_mode_list_get_item"
  }

  /// What `this[index]` yields once the bounds check has passed: the
  /// value the getter returned, or what the getter or the disposal check
  /// threw.
  function ItemOutcome<V>(bounds: Result<()>, disposed: bool, h: Handle, value: V, err: ErrorPtr): (r: Result<V>)
    ensures bounds.Throw? ==> r == Throw(bounds.exc)
    ensures r.Ok? <==> bounds.Ok? && !disposed && Thrown(err).None?
    ensures r.Ok? ==> r.value == value
  {
    if bounds.Throw? then Throw(bounds.exc) else GetValueResult(disposed, h, value, err)
  }

  /// The native calls of `this[index]` after the bounds check: none when
  /// the index is out of range or the list is disposed.
  function ItemCalls(bounds: Result<()>, disposed: bool, h: Handle, index: int, err: ErrorPtr): (calls: seq<NativeCall>)
    requires IsValueListKind(h.kind)
    ensures |calls| > 0 <==> bounds.Ok? && !disposed
  {
    if bounds.Throw? || disposed then []
    else [NativeCall(Getter(ValueItemGetter(h.kind)), h.address, [WrapUnsigned(index)])] + CheckErrorCalls(err, true)
  }

  /// `this[index]`: the bounds check, which may read `Count`, then the
  /// item getter on the live pointer with the index cast to `uint`, then
  /// the error check.
  method Get<V>(lib: NativeSdk, list: NativeList, index: int, value: V, err: ErrorPtr, countErr: ErrorPtr) returns (r: Result<V>)
    requires list.Valid() && lib.Valid() && IsValueListKind(list.ptr.handle.kind)
    modifies list, lib
    ensures list.Valid() && lib.Valid() && lib.state == old(lib.state)
    ensures list.forwarding == old(list.forwarding) && list.disposedRaised == old(list.disposedRaised)
    ensures index < 0 ==> r == Throw(IndexOutOfRange) && list.lazyCount == old(list.lazyCount) && lib.calls == old(lib.calls)
    ensures index >= 0 ==>
      && list.lazyCount == (if old(list.lazyCount).NotCreated? then CountOutcome(list.ptr.IsDisposed(), list.ptr.handle, list.nativeCount, countErr) else old(list.lazyCount))
      && var bounds := BoundsCheck(index, Forced(list.lazyCount));
         && r == ItemOutcome(bounds, list.ptr.IsDisposed(), list.ptr.handle, value, err)
         && lib.calls == old(lib.calls) + CountCalls(old(list.lazyCount).NotCreated?, list.ptr.IsDisposed(), list.ptr.handle, countErr)
                         + ItemCalls(bounds, list.ptr.IsDisposed(), list.ptr.handle, index, err)
  {
    var b := list.CheckIndex(lib, index, countErr);
    if b.Throw? {
      return Throw(b.exc);
    }
    var h := list.ptr.ValueNotDisposed();
    if h.Throw? {
      return Throw(h.exc);
    }
    lib.Call(Getter(ValueItemGetter(h.value.kind)), h.value.address, [WrapUnsigned(index)]);
    var c := Check(lib, err);
    if c.Throw? {
      return Throw(c.exc);
    }
    return Ok(value);
  }

  /// One step of the enumerator: `this[index]` once `Count` is known and
  /// the index is below it. The bounds check then passes without a native
  /// call.
  method NextValue<V>(lib: NativeSdk, list: NativeList, index: int, value: V, err: ErrorPtr, countErr: ErrorPtr) returns (r: Result<V>)
    requires list.Valid() && lib.Valid() && IsValueListKind(list.ptr.handle.kind)
    requires list.lazyCount.Created? && 0 <= index < list.lazyCount.value
    modifies list, lib
    ensures list.Valid() && lib.Valid() && lib.state == old(lib.state) && list.lazyCount == old(list.lazyCount)
    ensures list.forwarding == old(list.forwarding) && list.disposedRaised == old(list.disposedRaised)
    ensures r == GetValueResult(list.ptr.IsDisposed(), list.ptr.handle, value, err)
  {
    r := Get(lib, list, index, value, err, countErr);
  }

  /// The loop of the enumerator once `Count` is known: `this[0]`,
  /// `this[1]`, … until `Count` items are out or an item throws.
  method YieldValues<V>(lib: NativeSdk, list: NativeList, values: seq<V>, errs: seq<ErrorPtr>, countErr: ErrorPtr)
    returns (items: seq<V>, r: Result<()>)
    requires list.Valid() && lib.Valid() && IsValueListKind(list.ptr.handle.kind) && list.lazyCount.Created?
    requires |values| >= Span(list.lazyCount.value) && |errs| >= Span(list.lazyCount.value)
    modifies list, lib
    ensures list.Valid() && lib.Valid() && lib.state == old(lib.state) && list.lazyCount == old(list.lazyCount)
    ensures list.forwarding == old(list.forwarding) && list.disposedRaised == old(list.disposedRaised)
    ensures |items| <= Span(list.lazyCount.value)
    ensures |items| > 0 ==> !list.ptr.IsDisposed()
    ensures forall i :: 0 <= i < |items| ==> Thrown(errs[i]).None? && items[i] == values[i]
    ensures |items| < Span(list.lazyCount.value) ==>
      var failed := GetValueResult(list.ptr.IsDisposed(), list.ptr.handle, values[|items|], errs[|items|]);
      failed.Throw? && r == Throw(failed.exc)
    ensures |items| == Span(list.lazyCount.value) ==> r == Ok(())
  {
    items := [];
    var n := list.lazyCount.value;
    var i := 0;
    while i < n
      invariant list.Valid() && lib.Valid() && lib.state == old(lib.state) && list.lazyCount == old(list.lazyCount)
      invariant 0 <= i <= Span(n) && |items| == i
      invariant list.forwarding == old(list.forwarding) && list.disposedRaised == old(list.disposedRaised)
      invariant i > 0 ==> !list.ptr.IsDisposed()
      invariant forall k :: 0 <= k < i ==> Thrown(errs[k]).None? && items[k] == values[k]
    {
      var item := NextValue(lib, list, i, values[i], errs[i], countErr);
      if item.Throw? {
        return items, Throw(item.exc);
      }
      items := items + [item.value];
      i := i + 1;
    }
    return items, Ok(());
  }

  /// `GetEnumerator`: reads `Count`, then yields `this[0]`, `this[1]`, …
  /// until `Count` items are out or an item throws. `items` are the values
  /// yielded before the enumeration ended, and `r` is how it ended. The
  /// native getter reports `values[i]` and `errs[i]` for item `i`, for
  /// every index below the native count.
  method Enumerate<V>(lib: NativeSdk, list: NativeList, values: seq<V>, errs: seq<ErrorPtr>, countErr: ErrorPtr)
    returns (items: seq<V>, r: Result<()>)
    requires list.Valid() && lib.Valid() && IsValueListKind(list.ptr.handle.kind)
    requires |values| >= Span(Wrap(list.nativeCount)) && |errs| >= Span(Wrap(list.nativeCount))
    modifies list, lib
    ensures list.Valid() && lib.Valid() && lib.state == old(lib.state)
    ensures list.forwarding == old(list.forwarding) && list.disposedRaised == old(list.disposedRaised)
    ensures list.lazyCount == (if old(list.lazyCount).NotCreated? then CountOutcome(list.ptr.IsDisposed(), list.ptr.handle, list.nativeCount, countErr) else old(list.lazyCount))
    ensures list.lazyCount.Faulted? ==> items == [] && r == Throw(list.lazyCount.exc)
    ensures list.lazyCount.Created? ==> |items| <= Span(list.lazyCount.value)
    ensures |items| <= |values| && |items| <= |errs|
    ensures |items| > 0 ==> !list.ptr.IsDisposed()
    ensures forall i :: 0 <= i < |items| ==> Thrown(errs[i]).None? && items[i] == values[i]
    ensures list.lazyCount.Created? && |items| < Span(list.lazyCount.value) ==>
      var failed := GetValueResult(list.ptr.IsDisposed(), list.ptr.handle, values[|items|], errs[|items|]);
      failed.Throw? && r == Throw(failed.exc)
    ensures list.lazyCount.Created? && |items| == Span(list.lazyCount.value) ==> r == Ok(())
  {
    var count := list.Count(lib, countErr);
    if count.Throw? {
      return [], Throw(count.exc);
    }
    items, r := YieldValues(lib, list, values, errs, countErr);
  }
}
