/// `Device`: a managed device object. It owns the native device, caches
/// its property list, and bridges the native state-changed and progress
/// callbacks to managed handlers through tokens of `IntPtrToObjectMap`.
module Devices {
  import opened Base
  import opened Int32
  import opened ObTypes
  import opened Native
  import opened HandleOps
  import opened ObException
  import opened PtrWrappers
  import opened Registry
  import opened Events
  import opened DeviceProperties
  import opened DevicePropertyLists

  /// `DeviceStateChangedEventArgs`: the native state code and message.
  datatype DeviceStateChangedEventArgs = DeviceStateChangedEventArgs(state: int, message: Option<string>)

  /// The members that pass a progress callback to a native transfer, with
  /// their arguments.
  datatype ProgressOp =
    | GetRawData(propertyId: int)
    | SetRawData(propertyId: int, dataPtr: Address, dataSizeBytes: int32)
    | ReadFlash(offset: int32, dataSize: int32)
    | WriteFlash(offset: int32, dataPtr: Address, dataSizeBytes: int32)
    | SendFileToDestination(filePath: string, dstPath: string)
    | Upgrade(path: string)
    | UpgradeFromData(dataPtr: Address, dataSizeBytes: int32)

  /// The delegate type of each operation's callback. Each type has its own
  /// token map.
  datatype CallbackType = DataReceiveCallback | DataSendCallback | FileTransferCallback | UpgradeCallback

  function CallbackTypeOf(op: ProgressOp): CallbackType
  {
    match op
    case GetRawData(_) => DataReceiveCallback
    case ReadFlash(_, _) => DataReceiveCallback
    case SetRawData(_, _, _) => DataSendCallback
    case WriteFlash(_, _, _) => DataSendCallback
    case SendFileToDestination(_, _) => FileTransferCallback
    case Upgrade(_) => UpgradeCallback
    case UpgradeFromData(_, _) => UpgradeCallback
  }

  /// The four static maps `IntPtrToObjectMap<DataReceiveCallback>`,
  /// `IntPtrToObjectMap<DataSendCallback>`,
  /// `IntPtrToObjectMap<FileTransferCallback>` and
  /// `IntPtrToObjectMap<UpgradeCallback>`: one per delegate type, each a
  /// separate object.
  class CallbackMaps {
    const receive: IdentityMap<Handler>
    const send: IdentityMap<Handler>
    const fileTransfer: IdentityMap<Handler>
    const upgrade: IdentityMap<Handler>

    ghost predicate Valid()
    {
      && receive != send && receive != fileTransfer && receive != upgrade
      && send != fileTransfer && send != upgrade && fileTransfer != upgrade
    }

    constructor ()
      ensures Valid() && fresh(receive) && fresh(send) && fresh(fileTransfer) && fresh(upgrade)
      ensures receive.entries == map[] && send.entries == map[] && fileTransfer.entries == map[] && upgrade.entries == map[]
    {
      receive := new IdentityMap();
      send := new IdentityMap();
      fileTransfer := new IdentityMap();
      upgrade := new IdentityMap();
    }

    /// The map of one delegate type.
    function For(t: CallbackType): IdentityMap<Handler>
    {
      match t
      case DataReceiveCallback => receive
      case DataSendCallback => send
      case FileTransferCallback => fileTransfer
      case UpgradeCallback => upgrade
    }

    /// Distinct delegate types have distinct maps.
    lemma ForIsInjective(t: CallbackType, u: CallbackType)
      requires Valid() && t != u
      ensures For(t) != For(u)
    {
    }
  }

  /// A string argument, as its length and its character codes.
  function StringArg(s: string): (a: seq<int>)
    ensures |a| == |s| + 1 && a[0] == |s| && a[1..] == Chars(s)
  {
    [|s|] + Chars(s)
  }

  /// The native function each operation calls.
  function ProgressFunction(op: ProgressOp): string
  {
    match op
    case GetRawData(_) => "ob_device_get_raw_data"
    case SetRawData(_, _, _) => "ob_device_set_raw_data"
    case ReadFlash(_, _) => "ob_device_read_flash"
    case WriteFlash(_, _, _) => "ob_device_write_flash"
    case SendFileToDestination(_, _) => "ob_device_send_file_to_destination"
    case Upgrade(_) => "ob_device_upgrade"
    case UpgradeFromData(_, _) => "ob_device_upgrade_from_data"
  }

  /// The arguments of the native call, ending with `async: false` and the
  /// token. Sizes and offsets go through the unchecked cast to `uint`.
  function ProgressArgs(op: ProgressOp, token: int): (args: seq<int>)
    ensures |args| >= 2 && args[|args| - 1] == token && args[|args| - 2] == 0
  {
    var fixedArgs := match op
      case GetRawData(id) => [id]
      case SetRawData(id, data, size) => [id, data, WrapUnsigned(size)]
      case ReadFlash(offset, size) => [WrapUnsigned(offset), WrapUnsigned(size)]
      case WriteFlash(offset, data, size) => [WrapUnsigned(offset), data, WrapUnsigned(size)]
      case SendFileToDestination(filePath, dstPath) => StringArg(filePath) + StringArg(dstPath)
      case Upgrade(path) => StringArg(path)
      case UpgradeFromData(data, size) => [data, WrapUnsigned(size)];
    fixedArgs + [0, token]
  }

  class Device {
    const ptr: PtrWrapper
    /// `supportedProperties`, a thread-safe `Lazy<DevicePropertyList>`.
    var properties: Lazy<DevicePropertyList>
    /// The invocation list of the private `deviceStateChangedImpl` event.
    var stateChanged: seq<Handler>
    /// `callbackUserData`: the token of this device in the device map,
    /// once a state-changed handler has been added.
    var callbackUserData: Option<int>
    /// Whether `obDevicePtr_Disposed` is still attached to the wrapper.
    var forwarding: bool
    /// Times this device's own `Disposed` event was raised.
    ghost var disposedRaised: nat

    ghost function PropertiesRepr(): set<object>
      reads this
    {
      if properties.Created? then {properties.value, properties.value.items} else {}
    }

    /// The device raises `Disposed` exactly when its wrapper does. A created
    /// property list belongs to this device.
    ghost predicate Valid()
      reads this, ptr, PropertiesRepr()
    {
      && ptr.Valid() && ptr.handle.kind == HandleKind.Device
      && disposedRaised == ptr.disposedRaised
      && (forwarding <==> disposedRaised == 0)
      && (properties.Created? ==> properties.value.devicePtr == ptr && properties.value.Valid())
    }

    /// `new Device(ptr)`.
    constructor Make(p: PtrWrapper)
      requires p.Valid() && p.handle.kind == HandleKind.Device && p.disposedRaised == 0
      ensures Valid() && ptr == p && properties == NotCreated && stateChanged == []
      ensures callbackUserData == None && forwarding && disposedRaised == 0
    {
      ptr := p;
      properties := NotCreated;
      stateChanged := [];
      callbackUserData := None;
      forwarding := true;
      disposedRaised := 0;
    }

    /// `new Device(ptr)` from a native pointer: the implicit conversion
    /// refuses a zero pointer.
    static method Create(h: Handle) returns (r: Result<Device>)
      requires h.kind == HandleKind.Device
      ensures r.Ok? <==> h.address != 0
      ensures r.Throw? ==> r.exc == ArgumentInvalid("ptr")
      ensures r.Ok? ==> fresh(r.value) && fresh(r.value.ptr) && r.value.Valid() && r.value.ptr.handle == h
      ensures r.Ok? ==> !r.value.IsDisposed() && r.value.callbackUserData == None && r.value.stateChanged == []
    {
      var p := PtrWrapper.Create(h);
      if p.Throw? {
        return Throw(p.exc);
      }
      var d := new Device.Make(p.value);
      return Ok(d);
    }

    predicate IsDisposed()
      reads ptr
    {
      ptr.IsDisposed()
    }

    /// `NativePtr`
    method NativePtr() returns (r: Result<Handle>)
      ensures !IsDisposed() ==> r == Ok(ptr.handle)
      ensures IsDisposed() ==> r == Throw(ObjectDisposed(Describe(ptr.handle)))
    {
      r := ptr.ValueNotDisposed();
    }

    /// `GetHashCode`: the wrapper's hash. It is also the start of the
    /// token probe.
    function GetHashCode(): int32
      reads this
    {
      ptr.GetHashCode()
    }

    /// `Dispose`.
    /// - A created property list is disposed first.
    /// - Then the wrapper is disposed.
    /// - Its first successful release runs `obDevicePtr_Disposed`. That
    ///   handler unregisters the token, if there is one, and clears it.
    ///   Then it detaches itself and raises `Disposed`.
    /// - A failed release throws, raises nothing and keeps the token.
    method Dispose(lib: NativeSdk, reg: IdentityMap<Device>, err: ErrorPtr) returns (r: Result<()>)
      requires Valid() && lib.Valid()
      modifies this, ptr, lib, reg, PropertiesRepr()
      ensures Valid() && lib.Valid() && IsDisposed()
      ensures properties == old(properties) && stateChanged == old(stateChanged)
      ensures properties.Created? ==> properties.value.lockDisposed
      ensures r == if !old(IsDisposed()) && err.Error? then Throw(InvalidOperation) else Ok(())
      ensures var raised := !old(IsDisposed()) && err.Zero?;
        && disposedRaised == old(disposedRaised) + (if raised then 1 else 0)
        && callbackUserData == (if raised then None else old(callbackUserData))
        && reg.entries == (if raised && old(callbackUserData).Some? then old(reg.entries) - {old(callbackUserData).value} else old(reg.entries))
        && reg.collected == old(reg.collected)
      ensures disposedRaised <= 1
      ensures old(IsDisposed()) ==> lib.state == old(lib.state) && lib.calls == old(lib.calls)
      ensures !old(IsDisposed()) ==>
        lib.state == ReleaseEffect(old(lib.state), ptr.handle.address, err) &&
        lib.calls == old(lib.calls) + ReleaseCalls(ptr.handle, err)
    {
      if properties.Created? {
        properties.value.Dispose();
      }
      var raised;
      r, raised := ptr.Dispose(lib, err);
      if raised && forwarding {
        OnPtrDisposed(reg);
      }
    }

    /// `obDevicePtr_Disposed`.
    method OnPtrDisposed(reg: IdentityMap<Device>)
      requires forwarding
      modifies this, reg
      ensures !forwarding && disposedRaised == old(disposedRaised) + 1 && callbackUserData == None
      ensures properties == old(properties) && stateChanged == old(stateChanged)
      ensures reg.entries == (if old(callbackUserData).Some? then old(reg.entries) - {old(callbackUserData).value} else old(reg.entries))
      ensures reg.collected == old(reg.collected)
    {
      if callbackUserData.Some? {
        var _ := reg.Unregister(callbackUserData.value);
        callbackUserData := None;
      }
      forwarding := false;
      disposedRaised := disposedRaised + 1;
    }

    /// `SupportedProperties`: the lazily built property list. The first
    /// read builds it, and caches the list or the exception. Later reads
    /// return the cache with no native call.
    method SupportedProperties(lib: NativeSdk, catalog: seq<PropertyItem>, err: ErrorPtr) returns (r: Result<DevicePropertyList>)
      requires Valid() && lib.Valid() && |catalog| < MODULUS
      modifies this, lib
      ensures Valid() && lib.Valid() && lib.state == old(lib.state)
      ensures stateChanged == old(stateChanged) && callbackUserData == old(callbackUserData)
      ensures forwarding == old(forwarding) && disposedRaised == old(disposedRaised)
      ensures !old(properties).NotCreated? ==> properties == old(properties) && lib.calls == old(lib.calls)
      ensures old(properties).NotCreated? ==>
        && (properties.Created? <==> !IsDisposed() && Thrown(err).None? && |catalog| <= MAX)
        && (properties.Created? ==>
              fresh(properties.value) && properties.value.catalog == catalog && !properties.value.lockDisposed)
        && (properties.Faulted? ==>
              properties.exc == (if IsDisposed() then ObjectDisposed(Describe(ptr.handle))
                                 else if Thrown(err).Some? then Thrown(err).value
                                 else Overflow))
      ensures !properties.NotCreated? && r == (if properties.Created? then Ok(properties.value) else Throw(properties.exc))
    {
      if properties.NotCreated? {
        var list := DevicePropertyList.Create(lib, ptr, catalog, err);
        properties := if list.Ok? then Created(list.value) else Faulted(list.exc);
      }
      r := if properties.Created? then Ok(properties.value) else Throw(properties.exc);
    }

    /// `StateChanged += handler`.
    /// - The first subscription registers this device in the device map,
    ///   probing from its hash, and stores the token.
    /// - Only that subscription makes the native registration call.
    /// - The token is stored before the native call. A failed native
    ///   registration therefore leaves the token in place and is never
    ///   retried; the handler is not added.
    /// - Every successful subscription appends the handler.
    method AddStateChanged(lib: NativeSdk, reg: IdentityMap<Device>, handler: Handler, err: ErrorPtr) returns (r: Result<()>)
      requires Valid() && lib.Valid()
      modifies this, lib, reg
      ensures Valid() && lib.Valid() && lib.state == old(lib.state)
      ensures properties == old(properties) && forwarding == old(forwarding) && disposedRaised == old(disposedRaised)
      ensures reg.collected == old(reg.collected)
      ensures old(callbackUserData).Some? ==>
        && r == Ok(()) && stateChanged == old(stateChanged) + [handler]
        && callbackUserData == old(callbackUserData) && reg.entries == old(reg.entries) && lib.calls == old(lib.calls)
      ensures old(callbackUserData).None? ==>
        match FirstFree(old(reg.entries).Keys, GetHashCode(), 0)
        case None =>
          && r == Throw(InvalidOperation) && stateChanged == old(stateChanged)
          && callbackUserData == None && reg.entries == old(reg.entries) && lib.calls == old(lib.calls)
        case Some(k) =>
          var token := Probe(GetHashCode(), k);
          && callbackUserData == Some(token as int)
          && reg.entries == old(reg.entries)[token as int := this]
          && (IsDisposed() ==> r == Throw(ObjectDisposed(Describe(ptr.handle))) && lib.calls == old(lib.calls))
          && (!IsDisposed() ==>
                && lib.calls == old(lib.calls) + [NativeCall(Invoke("ob_device_set_state_changed_callback"), ptr.handle.address, [token as int])]
                                + CheckErrorCalls(err, true)
                && r == (if Thrown(err).Some? then Throw(Thrown(err).value) else Ok(())))
          && stateChanged == (if r.Ok? then old(stateChanged) + [handler] else old(stateChanged))
    {
      if callbackUserData.Some? {
        stateChanged := stateChanged + [handler];
        return Ok(());
      }
      r := RegisterToken(reg);
      if r.Throw? {
        return;
      }
      r := Subscribe(lib, err);
      if r.Ok? {
        stateChanged := stateChanged + [handler];
      }
    }

    /// The managed half of the first subscription: registers this device
    /// under a fresh token and keeps the token, before any native call.
    method RegisterToken(reg: IdentityMap<Device>) returns (r: Result<()>)
      requires Valid() && callbackUserData.None?
      modifies this`callbackUserData, reg
      ensures Valid() && reg.collected == old(reg.collected)
      ensures match FirstFree(old(reg.entries).Keys, GetHashCode(), 0)
        case None => r == Throw(InvalidOperation) && callbackUserData == None && reg.entries == old(reg.entries)
        case Some(k) =>
          var token := Probe(GetHashCode(), k);
          r == Ok(()) && callbackUserData == Some(token as int) && reg.entries == old(reg.entries)[token as int := this]
    {
      var t := reg.Register(this, GetHashCode());
      if t.Throw? {
        return Throw(t.exc);
      }
      callbackUserData := Some(t.value as int);
      return Ok(());
    }

    /// The native half of the first subscription: hands the stored token to
    /// `ob_device_set_state_changed_callback` and checks the error.
    method Subscribe(lib: NativeSdk, err: ErrorPtr) returns (r: Result<()>)
      requires Valid() && lib.Valid() && callbackUserData.Some?
      modifies lib
      ensures lib.Valid() && lib.state == old(lib.state)
      ensures IsDisposed() ==> r == Throw(ObjectDisposed(Describe(ptr.handle))) && lib.calls == old(lib.calls)
      ensures !IsDisposed() ==>
        && lib.calls == old(lib.calls) + [NativeCall(Invoke("ob_device_set_state_changed_callback"), ptr.handle.address, [callbackUserData.value])]
                        + CheckErrorCalls(err, true)
        && r == (if Thrown(err).Some? then Throw(Thrown(err).value) else Ok(()))
    {
      var h := NativePtr();
      if h.Throw? {
        return Throw(h.exc);
      }
      lib.Call(Invoke("ob_device_set_state_changed_callback"), h.value.address, [callbackUserData.value]);
      r := Check(lib, err);
    }

    /// `StateChanged -= handler`: removes the handler's last subscription.
    /// The token stays registered.
    method RemoveStateChanged(handler: Handler)
      modifies this
      ensures stateChanged == RemoveLast(old(stateChanged), handler)
      ensures callbackUserData == old(callbackUserData) && properties == old(properties)
      ensures forwarding == old(forwarding) && disposedRaised == old(disposedRaised)
    {
      stateChanged := RemoveLast(stateChanged, handler);
    }

    /// `SwitchDepthWorkMode(ref workMode)`: true iff the native status is
    /// `Ok`, after the error check.
    method SwitchDepthWorkMode(lib: NativeSdk, workMode: seq<int>, status: int, err: ErrorPtr) returns (r: Result<bool>)
      requires Valid() && lib.Valid()
      modifies lib
      ensures lib.Valid() && lib.state == old(lib.state)
      ensures IsDisposed() ==> r == Throw(ObjectDisposed(Describe(ptr.handle))) && lib.calls == old(lib.calls)
      ensures !IsDisposed() ==>
        && lib.calls == old(lib.calls) + [NativeCall(Invoke("ob_device_switch_depth_work_mode"), ptr.handle.address, workMode)]
                        + CheckErrorCalls(err, true)
        && r == (if Thrown(err).Some? then Throw(Thrown(err).value) else Ok(status == STATUS_OK))
    {
      var h := NativePtr();
      if h.Throw? {
        return Throw(h.exc);
      }
      lib.Call(Invoke("ob_device_switch_depth_work_mode"), h.value.address, workMode);
      var check := Check(lib, err);
      if check.Throw? {
        return Throw(check.exc);
      }
      return Ok(status == STATUS_OK);
    }

    /// `SwitchDepthWorkMode(workModeName)`: the same, by name.
    method SwitchDepthWorkModeByName(lib: NativeSdk, workModeName: string, status: int, err: ErrorPtr) returns (r: Result<bool>)
      requires Valid() && lib.Valid()
      modifies lib
      ensures lib.Valid() && lib.state == old(lib.state)
      ensures IsDisposed() ==> r == Throw(ObjectDisposed(Describe(ptr.handle))) && lib.calls == old(lib.calls)
      ensures !IsDisposed() ==>
        && lib.calls == old(lib.calls) + [NativeCall(Invoke("ob_device_switch_depth_work_mode_by_name"), ptr.handle.address, Chars(workModeName))]
                        + CheckErrorCalls(err, true)
        && r == (if Thrown(err).Some? then Throw(Thrown(err).value) else Ok(status == STATUS_OK))
    {
      var h := NativePtr();
      if h.Throw? {
        return Throw(h.exc);
      }
      lib.Call(Invoke("ob_device_switch_depth_work_mode_by_name"), h.value.address, Chars(workModeName));
      var check := Check(lib, err);
      if check.Throw? {
        return Throw(check.exc);
      }
      return Ok(status == STATUS_OK);
    }

    /// `GetRawData`, `SetRawData`, `ReadFlash`, `WriteFlash`,
    /// `SendFileToDestination`, `Upgrade` and `UpgradeFromData`. The
    /// callback goes into the map of its delegate type,
    /// `maps.For(CallbackTypeOf(op))`; the other three maps are untouched.
    /// - The callback is registered first. A full map throws before any
    ///   native call.
    /// - The native transfer runs with the token as its user data, and its
    ///   error is checked.
    /// - While the native call runs, the token resolves to the callback
    ///   (`duringCall` is the map at that moment).
    /// - The token is unregistered in `finally`, on every path. So the map
    ///   is left exactly as it was, and the callback cannot run after the
    ///   member returns.
    method TransferWithProgress(lib: NativeSdk, maps: CallbackMaps, op: ProgressOp, callback: Handler,
                                callbackHash: int32, err: ErrorPtr)
      returns (r: Result<()>, token: Option<int32>, ghost duringCall: map<int, Handler>)
      requires Valid() && lib.Valid() && maps.Valid()
      modifies lib, maps.For(CallbackTypeOf(op))
      ensures lib.Valid() && lib.state == old(lib.state)
      ensures forall t :: t != CallbackTypeOf(op) ==> unchanged(maps.For(t))
      ensures var reg := maps.For(CallbackTypeOf(op));
        reg.entries == old(reg.entries) && reg.collected == old(reg.collected)
      ensures var reg := maps.For(CallbackTypeOf(op));
        && (token.Some? <==> FirstFree(old(reg.entries).Keys, callbackHash, 0).Some?)
        && (token.Some? ==> token.value == Probe(callbackHash, FirstFree(old(reg.entries).Keys, callbackHash, 0).value))
        && (token.Some? ==> token.value as int !in old(reg.entries))
        && (token.Some? ==> duringCall == old(reg.entries)[token.value as int := callback])
      ensures token.None? ==> r == Throw(InvalidOperation) && lib.calls == old(lib.calls)
      ensures token.Some? && IsDisposed() ==> r == Throw(ObjectDisposed(Describe(ptr.handle))) && lib.calls == old(lib.calls)
      ensures token.Some? && !IsDisposed() ==>
        && lib.calls == old(lib.calls)
             + [NativeCall(Invoke(ProgressFunction(op)), ptr.handle.address, ProgressArgs(op, token.value))]
             + CheckErrorCalls(err, true)
        && r == (if Thrown(err).Some? then Throw(Thrown(err).value) else Ok(()))
    {
      var reg := maps.For(CallbackTypeOf(op));
      forall t | t != CallbackTypeOf(op)
        ensures maps.For(t) != reg
      {
        maps.ForIsInjective(t, CallbackTypeOf(op));
      }
      duringCall := reg.entries;
      var t := reg.Register(callback, callbackHash);
      if t.Throw? {
        return Throw(t.exc), None, duringCall;
      }
      token := Some(t.value);
      duringCall := reg.entries;
      r := Transfer(lib, op, t.value, err);
      var _ := reg.Unregister(t.value);
    }

    /// The `try` block of the transfer members: the native transfer with
    /// `token` as its user data, then its error check.
    method Transfer(lib: NativeSdk, op: ProgressOp, token: int32, err: ErrorPtr) returns (r: Result<()>)
      requires Valid() && lib.Valid()
      modifies lib
      ensures lib.Valid() && lib.state == old(lib.state)
      ensures IsDisposed() ==> r == Throw(ObjectDisposed(Describe(ptr.handle))) && lib.calls == old(lib.calls)
      ensures !IsDisposed() ==>
        && lib.calls == old(lib.calls)
             + [NativeCall(Invoke(ProgressFunction(op)), ptr.handle.address, ProgressArgs(op, token))]
             + CheckErrorCalls(err, true)
        && r == (if Thrown(err).Some? then Throw(Thrown(err).value) else Ok(()))
    {
      var h := NativePtr();
      if h.Throw? {
        return Throw(h.exc);
      }
      lib.Call(Invoke(ProgressFunction(op)), h.value.address, ProgressArgs(op, token));
      var check := Check(lib, err);
      r := if check.Throw? then Throw(check.exc) else Ok(());
    }
  }

  /// `OnDeviceStateChanged`: the native state-changed trampoline. It runs
  /// the device's handlers only if the token still resolves to a live
  /// device whose current token is this one. Otherwise the call is
  /// dropped. `invoked` is the invocation list it ran.
  method OnDeviceStateChanged(reg: IdentityMap<Device>, state: int, message: Option<string>, userData: int)
    returns (target: Option<Device>, invoked: seq<Handler>, args: Option<DeviceStateChangedEventArgs>)
    ensures target.Some? <==>
      userData in reg.entries && reg.entries[userData] !in reg.collected
      && reg.entries[userData].callbackUserData == Some(userData)
    ensures target.Some? ==> target.value == reg.entries[userData] && invoked == target.value.stateChanged
    ensures target.Some? ==> args == Some(DeviceStateChangedEventArgs(state, message))
    ensures target.None? ==> invoked == [] && args == None
  {
    var device := reg.TryGet(userData);
    if device.Some? && device.value.callbackUserData == Some(userData) {
      return device, device.value.stateChanged, Some(DeviceStateChangedEventArgs(state, message));
    }
    return None, [], None;
  }

  /// `OnGetRawData`, `OnSetRawData`, `OnFileSindingProgress` and
  /// `OnDeviceUpgrading`: each trampoline looks the token up in the map of
  /// its own delegate type `t`. It runs the registered callback while the
  /// token still resolves there, and drops the call otherwise.
  method OnProgress(maps: CallbackMaps, t: CallbackType, userData: int) returns (invoked: Option<Handler>)
    ensures var reg := maps.For(t);
      invoked.Some? <==> userData in reg.entries && reg.entries[userData] !in reg.collected
    ensures invoked.Some? ==> invoked.value == maps.For(t).entries[userData]
  {
    invoked := maps.For(t).TryGet(userData);
  }
}
