/// `DeviceList`: the devices a context enumerated. Its count, bounds check
/// and disposal are the shared `NativeList`. This module adds the items
/// (`IBasicDeviceInfo` views that read through the list) and the three
/// ways of acquiring a `Device` from the list.
module DeviceLists {
  import opened Base
  import opened Int32
  import opened ObTypes
  import opened Native
  import opened ObException
  import opened PtrWrappers
  import opened NativeLists
  import opened Devices

  predicate IsDeviceList(list: NativeList)
    reads list
  {
    list.ptr.handle.kind == HandleKind.DeviceList
  }

  /// The `IBasicDeviceInfo` properties of a list item.
  datatype BasicInfoField = Pid | Vid | Uid | SerialNumber | ConnectionType | IPAddress | ExtensionInfo

  /// The native getter behind each property. Each takes the list and the
  /// item's index.
  function ItemGetter(field: BasicInfoField): (name: string)
    ensures |name| > 0
  {
    match field
    case Pid => "ob_device_list_get_device_pid"
    case Vid => "ob_device_list_get_device_vid"
    case Uid => "ob_device_list_get_device_uid"
    case SerialNumber => "ob_device_list_get_device_serial_number"
    case ConnectionType => "ob_device_list_get_device_connection_type"
    case IPAddress => "ob_device_list_get_device_ip_address"
    case ExtensionInfo => "ob_device_list_get_extension_info"
  }

  /// Distinct properties read through distinct native getters.
  lemma ItemGetterInjective(f: BasicInfoField, g: BasicInfoField)
    ensures ItemGetter(f) == ItemGetter(g) <==> f == g
  {
  }

  /// A property of an item: the item's getter on the owner's live
  /// pointer, with the item's index cast to `uint`, then the error check.
  /// The owner's bounds are not checked again.
  method ItemValue<V>(lib: NativeSdk, item: ListItem, field: BasicInfoField, value: V, err: ErrorPtr) returns (r: Result<V>)
    requires item.owner.Valid() && lib.Valid()
    modifies lib
    ensures lib.Valid() && lib.state == old(lib.state)
    ensures r == Helpers.GetValueResult(item.owner.ptr.IsDisposed(), item.owner.ptr.handle, value, err)
    ensures item.owner.ptr.IsDisposed() ==> lib.calls == old(lib.calls)
    ensures !item.owner.ptr.IsDisposed() ==>
      lib.calls == old(lib.calls)
        + [NativeCall(Getter(ItemGetter(field)), item.owner.ptr.handle.address, [WrapUnsigned(item.index)])]
        + CheckErrorCalls(err, true)
  {
    var h := item.owner.ptr.ValueNotDisposed();
    if h.Throw? {
      return Throw(h.exc);
    }
    lib.Call(Getter(ItemGetter(field)), h.value.address, [WrapUnsigned(item.index)]);
    var c := Check(lib, err);
    if c.Throw? {
      return Throw(c.exc);
    }
    return Ok(value);
  }

  /// The tail shared by the three device getters: call `fn` on the list's
  /// live pointer, check the error, then wrap the returned pointer `a` in
  /// a new `Device`. A zero pointer without an error is refused by the
  /// wrapper's conversion.
  method AcquireDevice(lib: NativeSdk, list: NativeList, fn: string, args: seq<int>, a: Address, err: ErrorPtr)
    returns (r: Result<Device>)
    requires list.Valid() && lib.Valid()
    modifies lib
    ensures lib.Valid()
    ensures list.ptr.IsDisposed() ==>
      r == Throw(ObjectDisposed(Describe(list.ptr.handle))) && lib.state == old(lib.state) && lib.calls == old(lib.calls)
    ensures !list.ptr.IsDisposed() ==>
      && lib.calls == old(lib.calls) + [NativeCall(Getter(fn), list.ptr.handle.address, args)] + CheckErrorCalls(err, true)
      && lib.state.refs == (if err.Error? || a == 0 || a in old(lib.state.refs) then old(lib.state.refs) else old(lib.state.refs)[a := 1])
      && (Thrown(err).Some? ==> r == Throw(Thrown(err).value))
      && (Thrown(err).None? && a == 0 ==> r == Throw(ArgumentInvalid("ptr")))
      && (Thrown(err).None? && a != 0 ==> r.Ok?)
    ensures r.Ok? ==>
      && fresh(r.value) && fresh(r.value.ptr) && r.value.Valid() && r.value.ptr.handle == Handle(HandleKind.Device, a)
      && !r.value.IsDisposed() && r.value.callbackUserData == None && r.value.stateChanged == []
  {
    var h := list.ptr.ValueNotDisposed();
    if h.Throw? {
      return Throw(h.exc);
    }
    lib.Acquire(Getter(fn), h.value.address, args, a, err);
    var c := Check(lib, err);
    if c.Throw? {
      return Throw(c.exc);
    }
    r := Device.Create(Handle(HandleKind.Device, a));
  }

  /// `GetDevice(index)`: the `|` bounds check reads `Count` first, then the
  /// device at that index is acquired.
  method GetDevice(lib: NativeSdk, list: NativeList, index: int, a: Address, err: ErrorPtr, countErr: ErrorPtr)
    returns (r: Result<Device>)
    requires list.Valid() && lib.Valid()
    modifies list, lib
    ensures list.Valid() && lib.Valid()
    ensures list.forwarding == old(list.forwarding) && list.disposedRaised == old(list.disposedRaised)
    ensures list.lazyCount == (if old(list.lazyCount).NotCreated? then CountOutcome(list.ptr.IsDisposed(), list.ptr.handle, list.nativeCount, countErr) else old(list.lazyCount))
    ensures BoundsCheckEager(index, Forced(list.lazyCount)).Throw? ==>
      r == Throw(BoundsCheckEager(index, Forced(list.lazyCount)).exc) && lib.state == old(lib.state)
    ensures BoundsCheckEager(index, Forced(list.lazyCount)).Ok? ==> 0 <= index < list.lazyCount.value
    ensures BoundsCheckEager(index, Forced(list.lazyCount)).Ok? && list.ptr.IsDisposed() ==>
      r == Throw(ObjectDisposed(Describe(list.ptr.handle))) && lib.state == old(lib.state)
    ensures BoundsCheckEager(index, Forced(list.lazyCount)).Ok? && !list.ptr.IsDisposed() ==>
      && lib.calls == old(lib.calls) + CountCalls(old(list.lazyCount).NotCreated?, false, list.ptr.handle, countErr)
           + [NativeCall(Getter("ob_device_list_get_device"), list.ptr.handle.address, [index])]
           + CheckErrorCalls(err, true)
      && (Thrown(err).Some? ==> r == Throw(Thrown(err).value))
      && (Thrown(err).None? ==> (r.Ok? <==> a != 0))
    ensures r.Ok? ==> fresh(r.value) && r.value.Valid() && r.value.ptr.handle == Handle(HandleKind.Device, a) && !r.value.IsDisposed()
  {
    var b := list.CheckIndexEager(lib, index, countErr);
    if b.Throw? {
      return Throw(b.exc);
    }
    r := AcquireDevice(lib, list, "ob_device_list_get_device", [WrapUnsigned(index)], a, err);
  }

  /// `GetDeviceBySerialNumber(serialNumber)`: a null or blank serial number
  /// throws `ArgumentNullException` before any native call.
  method GetDeviceBySerialNumber(lib: NativeSdk, list: NativeList, serialNumber: Option<string>, a: Address, err: ErrorPtr)
    returns (r: Result<Device>)
    requires list.Valid() && lib.Valid()
    modifies lib
    ensures lib.Valid()
    ensures IsNullOrWhiteSpace(serialNumber) ==>
      r == Throw(ArgumentNull("serialNumber")) && lib.state == old(lib.state) && lib.calls == old(lib.calls)
    ensures !IsNullOrWhiteSpace(serialNumber) && list.ptr.IsDisposed() ==>
      r == Throw(ObjectDisposed(Describe(list.ptr.handle))) && lib.calls == old(lib.calls)
    ensures !IsNullOrWhiteSpace(serialNumber) && !list.ptr.IsDisposed() ==>
      && lib.calls == old(lib.calls)
           + [NativeCall(Getter("ob_device_list_get_device_by_serial_number"), list.ptr.handle.address, StringArg(serialNumber.value))]
           + CheckErrorCalls(err, true)
      && (Thrown(err).Some? ==> r == Throw(Thrown(err).value))
      && (Thrown(err).None? ==> (r.Ok? <==> a != 0))
    ensures r.Ok? ==> fresh(r.value) && r.value.Valid() && r.value.ptr.handle == Handle(HandleKind.Device, a) && !r.value.IsDisposed()
  {
    if IsNullOrWhiteSpace(serialNumber) {
      return Throw(ArgumentNull("serialNumber"));
    }
    r := AcquireDevice(lib, list, "ob_device_list_get_device_by_serial_number", StringArg(serialNumber.value), a, err);
  }

  /// `GetDeviceByUid(uid)`: as `GetDeviceBySerialNumber`, keyed by UID.
  method GetDeviceByUid(lib: NativeSdk, list: NativeList, uid: Option<string>, a: Address, err: ErrorPtr)
    returns (r: Result<Device>)
    requires list.Valid() && lib.Valid()
    modifies lib
    ensures lib.Valid()
    ensures IsNullOrWhiteSpace(uid) ==>
      r == Throw(ArgumentNull("uid")) && lib.state == old(lib.state) && lib.calls == old(lib.calls)
    ensures !IsNullOrWhiteSpace(uid) && list.ptr.IsDisposed() ==>
      r == Throw(ObjectDisposed(Describe(list.ptr.handle))) && lib.calls == old(lib.calls)
    ensures !IsNullOrWhiteSpace(uid) && !list.ptr.IsDisposed() ==>
      && lib.calls == old(lib.calls)
           + [NativeCall(Getter("ob_device_list_get_device_by_uid"), list.ptr.handle.address, StringArg(uid.value))]
           + CheckErrorCalls(err, true)
      && (Thrown(err).Some? ==> r == Throw(Thrown(err).value))
      && (Thrown(err).None? ==> (r.Ok? <==> a != 0))
    ensures r.Ok? ==> fresh(r.value) && r.value.Valid() && r.value.ptr.handle == Handle(HandleKind.Device, a) && !r.value.IsDisposed()
  {
    if IsNullOrWhiteSpace(uid) {
      return Throw(ArgumentNull("uid"));
    }
    r := AcquireDevice(lib, list, "ob_device_list_get_device_by_uid", StringArg(uid.value), a, err);
  }
}
