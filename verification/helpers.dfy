/// `Helpers`: reads a value through a native getter on a live wrapper.
module Helpers {
  import opened Base
  import opened ObTypes
  import opened Native
  import opened ObException
  import opened PtrWrappers

  /// What `GetValue` returns, given the getter's value and error object on
  /// a wrapper that is or is not disposed.
  function GetValueResult<V>(disposed: bool, h: Handle, value: V, err: ErrorPtr): (r: Result<V>)
    ensures disposed ==> r == Throw(ObjectDisposed(Describe(h)))
    ensures !disposed ==> (r.Ok? <==> Thrown(err).None?)
    ensures r.Ok? ==> r.value == value
  {
    if disposed then Throw(ObjectDisposed(Describe(h)))
    else if Thrown(err).Some? then Throw(Thrown(err).value)
    else Ok(value)
  }

  /// A disposed wrapper's result does not depend on what the getter would
  /// report: the getter is not consulted.
  lemma GetValueIgnoresGetterWhenDisposed<V>(h: Handle, v1: V, e1: ErrorPtr, v2: V, e2: ErrorPtr)
    ensures GetValueResult(true, h, v1, e1) == GetValueResult(true, h, v2, e2)
  {
  }

  /// `Helpers.GetValue(getter, ptr)`. On a disposed wrapper it throws
  /// `ObjectDisposedException` without calling the getter. Otherwise it
  /// calls the getter once on the wrapped pointer and checks the error.
  method GetValue<V>(lib: NativeSdk, ptr: PtrWrapper, getter: string, value: V, err: ErrorPtr) returns (r: Result<V>)
    requires lib.Valid() && ptr.Valid()
    modifies lib
    ensures lib.Valid() && lib.state == old(lib.state)
    ensures r == GetValueResult(ptr.IsDisposed(), ptr.handle, value, err)
    ensures ptr.IsDisposed() ==> lib.calls == old(lib.calls)
    ensures !ptr.IsDisposed() ==>
      lib.calls == old(lib.calls) + [NativeCall(Getter(getter), ptr.handle.address, [])] + CheckErrorCalls(err, true)
  {
    var h := ptr.ValueNotDisposed();
    if h.Throw? {
      return Throw(h.exc);
    }
    lib.Call(Getter(getter), h.value.address, []);
    var c := Check(lib, err);
    if c.Throw? {
      return Throw(c.exc);
    }
    return Ok(value);
  }

  /// `Helpers.GetStringValue`: `GetValue` on a getter that returns a C
  /// string. A zero string pointer reads as `null` (`None`).
  method GetStringValue(lib: NativeSdk, ptr: PtrWrapper, getter: string, value: Option<string>, err: ErrorPtr)
    returns (r: Result<Option<string>>)
    requires lib.Valid() && ptr.Valid()
    modifies lib
    ensures lib.Valid() && lib.state == old(lib.state)
    ensures r == GetValueResult(ptr.IsDisposed(), ptr.handle, value, err)
    ensures ptr.IsDisposed() ==> lib.calls == old(lib.calls)
    ensures !ptr.IsDisposed() ==>
      lib.calls == old(lib.calls) + [NativeCall(Getter(getter), ptr.handle.address, [])] + CheckErrorCalls(err, true)
  {
    r := GetValue(lib, ptr, getter, value, err);
  }
}
