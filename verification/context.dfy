/// `Context`: the entry point of the SDK. It owns the native context,
/// queries the device list, and bridges the native device-changed callback
/// to managed handlers through a token of `IntPtrToObjectMap<Context>`.
module Contexts {
  import opened Base
  import opened Int32
  import opened ObTypes
  import opened Native
  import opened HandleOps
  import opened ObException
  import opened PtrWrappers
  import opened Registry
  import opened Events
  import opened NativeBools
  import opened NativeLists
  import opened DeviceListChangedEvents
  import opened Int64
  import opened TimeSpans

  class Context {
    const ptr: PtrWrapper
    /// The invocation list of the private `deviceListChangedImpl` event.
    var deviceListChanged: seq<Handler>
    /// `callbackUserData`: the token of this context in the context map,
    /// once a `DeviceListChanged` handler has been added.
    var callbackUserData: Option<int>
    /// Whether `obContextPtr_Disposed` is still attached to the wrapper.
    var forwarding: bool
    /// Times this context's own `Disposed` event was raised.
    ghost var disposedRaised: nat

    /// The context raises `Disposed` exactly when its wrapper does.
    ghost predicate Valid()
      reads this, ptr
    {
      && ptr.Valid() && ptr.handle.kind == HandleKind.Context
      && disposedRaised == ptr.disposedRaised
      && (forwarding <==> disposedRaised == 0)
    }

    /// The private `Context(ptr)` constructor.
    constructor Make(p: PtrWrapper)
      requires p.Valid() && p.handle.kind == HandleKind.Context && p.disposedRaised == 0
      ensures Valid() && ptr == p && deviceListChanged == []
      ensures callbackUserData == None && forwarding && disposedRaised == 0
    {
      ptr := p;
      deviceListChanged := [];
      callbackUserData := None;
      forwarding := true;
      disposedRaised := 0;
    }

    /// `new Context()` (`configPath` is `None`) and `new Context(configPath)`.
    /// The native creation's error is checked first. Then the implicit
    /// conversion of the returned pointer refuses zero.
    static method Create(lib: NativeSdk, configPath: Option<string>, a: Address, err: ErrorPtr) returns (r: Result<Context>)
      requires lib.Valid()
      modifies lib
      ensures lib.Valid()
      ensures lib.calls == old(lib.calls)
        + [if configPath.None? then NativeCall(Invoke("ob_create_context"), 0, [])
           else NativeCall(Invoke("ob_create_context_with_config"), 0, Chars(configPath.value))]
        + CheckErrorCalls(err, true)
      ensures lib.state.refs == (if err.Error? || a == 0 || a in old(lib.state.refs) then old(lib.state.refs) else old(lib.state.refs)[a := 1])
      ensures Thrown(err).Some? ==> r == Throw(Thrown(err).value)
      ensures Thrown(err).None? && a == 0 ==> r == Throw(ArgumentInvalid("ptr"))
      ensures r.Ok? <==> Thrown(err).None? && a != 0
      ensures r.Ok? ==>
        && fresh(r.value) && fresh(r.value.ptr) && r.value.Valid() && r.value.ptr.handle == Handle(HandleKind.Context, a)
        && !r.value.IsDisposed() && r.value.callbackUserData == None && r.value.deviceListChanged == []
    {
      if configPath.None? {
        lib.Acquire(Invoke("ob_create_context"), 0, [], a, err);
      } else {
        lib.Acquire(Invoke("ob_create_context_with_config"), 0, Chars(configPath.value), a, err);
      }
      var c := Check(lib, err);
      if c.Throw? {
        return Throw(c.exc);
      }
      var w := PtrWrapper.Create(Handle(HandleKind.Context, a));
      if w.Throw? {
        return Throw(w.exc);
      }
      var context := new Context.Make(w.value);
      return Ok(context);
    }

    predicate IsDisposed()
      reads ptr
    {
      ptr.IsDisposed()
    }

    /// `GetHashCode`: the wrapper's hash. It is also the start of the
    /// token probe.
    function GetHashCode(): int32
    {
      ptr.GetHashCode()
    }

    /// `Dispose`: disposes the wrapper. Its first successful release runs
    /// `obContextPtr_Disposed`, which unregisters the token, if there is
    /// one, clears it, detaches itself and raises `Disposed`. A failed
    /// release throws, raises nothing and keeps the token.
    method Dispose(lib: NativeSdk, reg: IdentityMap<Context>, err: ErrorPtr) returns (r: Result<()>)
      requires Valid() && lib.Valid()
      modifies this, ptr, lib, reg
      ensures Valid() && lib.Valid() && IsDisposed()
      ensures deviceListChanged == old(deviceListChanged)
      ensures r == if !old(IsDisposed()) && err.Error? then Throw(InvalidOperation) else Ok(())
      ensures var raised := !old(IsDisposed()) && err.Zero?;
        && disposedRaised == old(disposedRaised) + (if raised then 1 else 0)
        && callbackUserData == (if raised then None else old(callbackUserData))
        && reg.entries == (if raised && old(callbackUserData).Some? then old(reg.entries) - {old(callbackUserData).value} else old(reg.entries))
        && reg.collected == old(reg.collected)
      ensures disposedRaised <= 1
      ensures old(IsDisposed()) ==> lib.state == old(lib.state) && lib.calls == old(lib.calls)
      ensures !old(IsDisposed()) ==>
        lib.state == ReleaseEffect(old(lib.state), ptr.handle.address, err) &&
        lib.calls == old(lib.calls) + ReleaseCalls(ptr.handle, err)
    {
      var raised;
      r, raised := ptr.Dispose(lib, err);
      if raised && forwarding {
        OnPtrDisposed(reg);
      }
    }

    /// `obContextPtr_Disposed`.
    method OnPtrDisposed(reg: IdentityMap<Context>)
      requires forwarding
      modifies this, reg
      ensures !forwarding && disposedRaised == old(disposedRaised) + 1 && callbackUserData == None
      ensures deviceListChanged == old(deviceListChanged)
      ensures reg.entries == (if old(callbackUserData).Some? then old(reg.entries) - {old(callbackUserData).value} else old(reg.entries))
      ensures reg.collected == old(reg.collected)
    {
      if callbackUserData.Some? {
        var _ := reg.Unregister(callbackUserData.value);
        callbackUserData := None;
      }
      forwarding := false;
      disposedRaised := disposedRaised + 1;
    }

    /// `DeviceList`: a new device list over the pointer the native query
    /// returns, after its error check. Its `Count` is left unread.
    method QueryDeviceList(lib: NativeSdk, a: Address, n: uint32, err: ErrorPtr) returns (r: Result<NativeList>)
      requires Valid() && lib.Valid()
      modifies lib
      ensures lib.Valid()
      ensures IsDisposed() ==>
        r == Throw(ObjectDisposed(Describe(ptr.handle))) && lib.state == old(lib.state) && lib.calls == old(lib.calls)
      ensures !IsDisposed() ==>
        && lib.calls == old(lib.calls) + [NativeCall(Getter("ob_query_device_list"), ptr.handle.address, [])]
                        + CheckErrorCalls(err, true)
        && lib.state.refs == (if err.Error? || a == 0 || a in old(lib.state.refs) then old(lib.state.refs) else old(lib.state.refs)[a := 1])
        && (Thrown(err).Some? ==> r == Throw(Thrown(err).value))
        && (Thrown(err).None? && a == 0 ==> r == Throw(ArgumentInvalid("ptr")))
        && (Thrown(err).None? && a != 0 ==> r.Ok?)
      ensures r.Ok? ==>
        && fresh(r.value) && r.value.Valid() && r.value.ptr.handle == Handle(HandleKind.DeviceList, a)
        && r.value.nativeCount == n && r.value.lazyCount == NotCreated && !r.value.IsDisposed()
    {
      var h := ptr.ValueNotDisposed();
      if h.Throw? {
        return Throw(h.exc);
      }
      lib.Acquire(Getter("ob_query_device_list"), h.value.address, [], a, err);
      var c := Check(lib, err);
      if c.Throw? {
        return Throw(c.exc);
      }
      var w := PtrWrapper.Create(Handle(HandleKind.DeviceList, a));
      if w.Throw? {
        return Throw(w.exc);
      }
      var list := new NativeList(w.value, n);
      return Ok(list);
    }

    /// `DeviceListChanged += handler`.
    /// - The first subscription registers this context in the context map,
    ///   probing from its hash, and stores the token.
    /// - Only that subscription makes the native registration call.
    /// - The token is stored before the native call. A failed native
    ///   registration therefore leaves the token in place and is never
    ///   retried; the handler is not added.
    /// - Every successful subscription appends the handler.
    method AddDeviceListChanged(lib: NativeSdk, reg: IdentityMap<Context>, handler: Handler, err: ErrorPtr) returns (r: Result<()>)
      requires Valid() && lib.Valid()
      modifies this, lib, reg
      ensures Valid() && lib.Valid() && lib.state == old(lib.state)
      ensures forwarding == old(forwarding) && disposedRaised == old(disposedRaised)
      ensures reg.collected == old(reg.collected)
      ensures old(callbackUserData).Some? ==>
        && r == Ok(()) && deviceListChanged == old(deviceListChanged) + [handler]
        && callbackUserData == old(callbackUserData) && reg.entries == old(reg.entries) && lib.calls == old(lib.calls)
      ensures old(callbackUserData).None? ==>
        match FirstFree(old(reg.entries).Keys, GetHashCode(), 0)
        case None =>
          && r == Throw(InvalidOperation) && deviceListChanged == old(deviceListChanged)
          && callbackUserData == None && reg.entries == old(reg.entries) && lib.calls == old(lib.calls)
        case Some(k) =>
          var token := Probe(GetHashCode(), k);
          && callbackUserData == Some(token as int)
          && reg.entries == old(reg.entries)[token as int := this]
          && (IsDisposed() ==> r == Throw(ObjectDisposed(Describe(ptr.handle))) && lib.calls == old(lib.calls))
          && (!IsDisposed() ==>
                && lib.calls == old(lib.calls) + [NativeCall(Invoke("ob_set_device_changed_callback"), ptr.handle.address, [token as int])]
                                + CheckErrorCalls(err, true)
                && r == (if Thrown(err).Some? then Throw(Thrown(err).value) else Ok(())))
          && deviceListChanged == (if r.Ok? then old(deviceListChanged) + [handler] else old(deviceListChanged))
    {
      if callbackUserData.Some? {
        deviceListChanged := deviceListChanged + [handler];
        return Ok(());
      }
      r := RegisterToken(reg);
      if r.Throw? {
        return;
      }
      r := Subscribe(lib, err);
      if r.Ok? {
        deviceListChanged := deviceListChanged + [handler];
      }
    }

    /// The managed half of the first subscription: registers this context
    /// under a fresh token and keeps the token, before any native call.
    method RegisterToken(reg: IdentityMap<Context>) returns (r: Result<()>)
      requires Valid() && callbackUserData.None?
      modifies this`callbackUserData, reg
      ensures Valid() && reg.collected == old(reg.collected)
      ensures match FirstFree(old(reg.entries).Keys, GetHashCode(), 0)
        case None => r == Throw(InvalidOperation) && callbackUserData == None && reg.entries == old(reg.entries)
        case Some(k) =>
          var token := Probe(GetHashCode(), k);
          r == Ok(()) && callbackUserData == Some(token as int) && reg.entries == old(reg.entries)[token as int := this]
    {
      var t := reg.Register(this, GetHashCode());
      if t.Throw? {
        return Throw(t.exc);
      }
      callbackUserData := Some(t.value as int);
      return Ok(());
    }

    /// The native half of the first subscription: hands the stored token to
    /// `ob_set_device_changed_callback` and checks the error.
    method Subscribe(lib: NativeSdk, err: ErrorPtr) returns (r: Result<()>)
      requires Valid() && lib.Valid() && callbackUserData.Some?
      modifies lib
      ensures lib.Valid() && lib.state == old(lib.state)
      ensures IsDisposed() ==> r == Throw(ObjectDisposed(Describe(ptr.handle))) && lib.calls == old(lib.calls)
      ensures !IsDisposed() ==>
        && lib.calls == old(lib.calls) + [NativeCall(Invoke("ob_set_device_changed_callback"), ptr.handle.address, [callbackUserData.value])]
                        + CheckErrorCalls(err, true)
        && r == (if Thrown(err).Some? then Throw(Thrown(err).value) else Ok(()))
    {
      var h := ptr.ValueNotDisposed();
      if h.Throw? {
        return Throw(h.exc);
      }
      lib.Call(Invoke("ob_set_device_changed_callback"), h.value.address, [callbackUserData.value]);
      r := Check(lib, err);
    }

    /// `DeviceListChanged -= handler`: removes the handler's last
    /// subscription. The token stays registered.
    method RemoveDeviceListChanged(handler: Handler)
      modifies this
      ensures deviceListChanged == RemoveLast(old(deviceListChanged), handler)
      ensures callbackUserData == old(callbackUserData)
      ensures forwarding == old(forwarding) && disposedRaised == old(disposedRaised)
    {
      deviceListChanged := RemoveLast(deviceListChanged, handler);
    }

    /// `EnableNetDeviceEnumeration(enable)`: the flag goes out as a
    /// `NativeBool` byte.
    method EnableNetDeviceEnumeration(lib: NativeSdk, enable: bool, err: ErrorPtr) returns (r: Result<()>)
      requires Valid() && lib.Valid()
      modifies lib
      ensures lib.Valid() && lib.state == old(lib.state)
      ensures IsDisposed() ==> r == Throw(ObjectDisposed(Describe(ptr.handle))) && lib.calls == old(lib.calls)
      ensures !IsDisposed() ==>
        && lib.calls == old(lib.calls)
             + [NativeCall(Invoke("ob_enable_net_device_enumeration"), ptr.handle.address, [if enable then 1 else 0])]
             + CheckErrorCalls(err, true)
        && r == (if Thrown(err).Some? then Throw(Thrown(err).value) else Ok(()))
    {
      var h := ptr.ValueNotDisposed();
      if h.Throw? {
        return Throw(h.exc);
      }
      lib.Call(Invoke("ob_enable_net_device_enumeration"), h.value.address, [FromBool(enable).rawValue as int]);
      r := Check(lib, err);
    }

    /// `EnableDeviceClockSync(repeatInterval)`, the interval in `TimeSpan`
    /// ticks. A negative interval is refused before anything else, even on
    /// a disposed context. Otherwise the interval goes out rounded to whole
    /// milliseconds.
    method EnableDeviceClockSync(lib: NativeSdk, repeatInterval: int64, err: ErrorPtr) returns (r: Result<()>)
      requires Valid() && lib.Valid()
      modifies lib
      ensures lib.Valid() && lib.state == old(lib.state)
      ensures repeatInterval < 0 ==> r == Throw(ArgumentOutOfRange("repeatInterval")) && lib.calls == old(lib.calls)
      ensures repeatInterval >= 0 && IsDisposed() ==>
        r == Throw(ObjectDisposed(Describe(ptr.handle))) && lib.calls == old(lib.calls)
      ensures repeatInterval >= 0 && !IsDisposed() ==>
        && lib.calls == old(lib.calls)
             + [NativeCall(Invoke("ob_enable_device_clock_sync"), ptr.handle.address, [RoundMilliseconds(repeatInterval)])]
             + CheckErrorCalls(err, true)
        && r == (if Thrown(err).Some? then Throw(Thrown(err).value) else Ok(()))
    {
      if repeatInterval < 0 {
        return Throw(ArgumentOutOfRange("repeatInterval"));
      }
      var ms := RoundMilliseconds(repeatInterval);
      var h := ptr.ValueNotDisposed();
      if h.Throw? {
        return Throw(h.exc);
      }
      lib.Call(Invoke("ob_enable_device_clock_sync"), h.value.address, [ms]);
      r := Check(lib, err);
    }

    /// `FreeIdleMemory`
    method FreeIdleMemory(lib: NativeSdk, err: ErrorPtr) returns (r: Result<()>)
      requires Valid() && lib.Valid()
      modifies lib
      ensures lib.Valid() && lib.state == old(lib.state)
      ensures IsDisposed() ==> r == Throw(ObjectDisposed(Describe(ptr.handle))) && lib.calls == old(lib.calls)
      ensures !IsDisposed() ==>
        && lib.calls == old(lib.calls) + [NativeCall(Invoke("ob_free_idle_memory"), ptr.handle.address, [])]
                        + CheckErrorCalls(err, true)
        && r == (if Thrown(err).Some? then Throw(Thrown(err).value) else Ok(()))
    {
      var h := ptr.ValueNotDisposed();
      if h.Throw? {
        return Throw(h.exc);
      }
      lib.Call(Invoke("ob_free_idle_memory"), h.value.address, []);
      r := Check(lib, err);
    }
  }

  /// `OnDeviceChanged`: the native device-changed trampoline.
  /// - It wraps the removed and the added list. The implicit conversion
  ///   refuses a zero pointer, and that exception ends the callback.
  /// - It runs the handlers only if the token still resolves to a live
  ///   context whose current token is this one. Otherwise the call is
  ///   dropped.
  /// - The arguments are disposed on every path of the `using` block. The
  ///   lists are released unless a handler ran and cleared
  ///   `AutoListsDisposing` (`optOut`).
  method OnDeviceChanged(lib: NativeSdk, reg: IdentityMap<Context>, removed: Address, removedCount: uint32,
                         added: Address, addedCount: uint32, userData: int, optOut: bool,
                         removedErr: ErrorPtr, addedErr: ErrorPtr)
    returns (r: Result<()>, args: Option<DeviceListChangedEventArgs>, target: Option<Context>, invoked: seq<Handler>)
    requires lib.Valid()
    modifies lib
    ensures lib.Valid()
    ensures args.None? <==> removed == 0 || added == 0
    ensures args.None? ==>
      r == Throw(ArgumentInvalid("ptr")) && target.None? && invoked == []
      && lib.state == old(lib.state) && lib.calls == old(lib.calls)
    ensures args.Some? ==>
      var e := args.value;
      && fresh(e) && fresh(e.removed) && fresh(e.added) && e.Valid()
      && e.removed.ptr.handle == Handle(HandleKind.DeviceList, removed) && e.removed.nativeCount == removedCount
      && e.added.ptr.handle == Handle(HandleKind.DeviceList, added) && e.added.nativeCount == addedCount
      && (target.Some? <==>
            userData in reg.entries && reg.entries[userData] !in reg.collected
            && reg.entries[userData].callbackUserData == Some(userData))
      && (target.Some? ==> target.value == reg.entries[userData] && invoked == target.value.deviceListChanged)
      && (target.None? ==> invoked == [])
      && var kept := |invoked| > 0 && optOut;
         && (kept <==> !e.removed.IsDisposed())
         && (kept ==> r == Ok(()) && !e.added.IsDisposed() && lib.state == old(lib.state))
         && (!kept ==>
               && (e.added.IsDisposed() <==> removedErr.Zero?)
               && r == (if removedErr.Error? || addedErr.Error? then Throw(InvalidOperation) else Ok(()))
               && lib.state == DisposeEffect(ReleaseEffect(old(lib.state), removed, removedErr), removedErr.Error?, added, addedErr))
  {
    target := None;
    invoked := [];
    var rw := PtrWrapper.Create(Handle(HandleKind.DeviceList, removed));
    if rw.Throw? {
      return Throw(rw.exc), None, None, [];
    }
    var removedDevices := new NativeList(rw.value, removedCount);
    var aw := PtrWrapper.Create(Handle(HandleKind.DeviceList, added));
    if aw.Throw? {
      return Throw(aw.exc), None, None, [];
    }
    var addedDevices := new NativeList(aw.value, addedCount);
    var e := new DeviceListChangedEventArgs(removedDevices, addedDevices);
    args := Some(e);
    target := reg.TryGet(userData);
    if target.Some? && target.value.callbackUserData == Some(userData) {
      invoked := target.value.deviceListChanged;
      if |invoked| > 0 && optOut {
        e.autoListsDisposing := false;
      }
    } else {
      target := None;
    }
    r := e.Dispose(lib, removedErr, addedErr);
  }
}
