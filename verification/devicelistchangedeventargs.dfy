/// `DeviceListChangedEventArgs`: the removed and added device lists a
/// context hands to its `DeviceListChanged` handlers, disposed afterwards
/// unless a handler opted out.
module DeviceListChangedEvents {
  import opened Base
  import opened ObTypes
  import opened Native
  import opened NativeLists

  /// What one list's `Dispose` returns: a failed first release throws.
  function DisposeResult(wasDisposed: bool, err: ErrorPtr): (r: Result<()>)
    ensures r.Throw? <==> !wasDisposed && err.Error?
  {
    if !wasDisposed && err.Error? then Throw(InvalidOperation) else Ok(())
  }

  /// The native state after one list's `Dispose`: a release only when the
  /// list was still live.
  function DisposeEffect(s: NativeState, wasDisposed: bool, a: Address, err: ErrorPtr): (t: NativeState)
    requires WellFormed(s)
    ensures WellFormed(t)
    ensures wasDisposed ==> t == s
  {
    if wasDisposed then s else ReleaseEffect(s, a, err)
  }

  class DeviceListChangedEventArgs {
    /// `RemovedDevices`
    const removed: NativeList
    /// `AddedDevices`
    const added: NativeList
    /// `AutoListsDisposing`
    var autoListsDisposing: bool

    /// The two lists are distinct objects over distinct wrappers.
    ghost predicate Valid()
      reads removed, removed.ptr, added, added.ptr
    {
      && removed.Valid() && added.Valid()
      && removed != added && removed.ptr != added.ptr
    }

    /// `new DeviceListChangedEventArgs(removedDevices, addedDevices)`:
    /// automatic disposal is on.
    constructor (removedDevices: NativeList, addedDevices: NativeList)
      ensures removed == removedDevices && added == addedDevices && autoListsDisposing
    {
      removed := removedDevices;
      added := addedDevices;
      autoListsDisposing := true;
    }

    /// `Dispose`: with `AutoListsDisposing` set, disposes the removed list
    /// and then the added one. A failed release of the removed list throws
    /// out of `Dispose`, so the added list is then left live. With the flag
    /// cleared nothing happens.
    method Dispose(lib: NativeSdk, removedErr: ErrorPtr, addedErr: ErrorPtr) returns (r: Result<()>)
      requires Valid() && lib.Valid()
      modifies removed, removed.ptr, added, added.ptr, lib
      ensures Valid() && lib.Valid()
      ensures !autoListsDisposing ==>
        && r == Ok(()) && lib.state == old(lib.state) && lib.calls == old(lib.calls)
        && unchanged(removed, removed.ptr, added, added.ptr)
      ensures autoListsDisposing ==>
        var first := DisposeResult(old(removed.IsDisposed()), removedErr);
        var afterFirst := DisposeEffect(old(lib.state), old(removed.IsDisposed()), removed.ptr.handle.address, removedErr);
        && removed.IsDisposed()
        && (first.Throw? ==>
              && r == first && lib.state == afterFirst && unchanged(added, added.ptr))
        && (first.Ok? ==>
              && added.IsDisposed()
              && r == DisposeResult(old(added.IsDisposed()), addedErr)
              && lib.state == DisposeEffect(afterFirst, old(added.IsDisposed()), added.ptr.handle.address, addedErr))
    {
      r := Ok(());
      if autoListsDisposing {
        r := removed.Dispose(lib, removedErr);
        if r.Throw? {
          return;
        }
        r := added.Dispose(lib, addedErr);
      }
    }
  }
}
