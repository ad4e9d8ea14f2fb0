/// `SensorList`: the sensors of a device. Its count, bounds check,
/// indexer, enumerator and disposal are the shared `NativeList`. This
/// module adds the item properties and the lookup by sensor type.
module SensorLists {
  import opened Base
  import opened Int32
  import opened ObTypes
  import opened Native
  import opened ObException
  import opened PtrWrappers
  import opened Helpers
  import opened NativeLists
  import opened Sensors

  /// `SensorListItem.SensorType`: the type getter on the owner's live
  /// pointer, with the index as `uint`, then the error check.
  method ItemSensorType(lib: NativeSdk, item: ListItem, sensorType: int, err: ErrorPtr) returns (r: Result<int>)
    requires item.owner.Valid() && lib.Valid()
    modifies lib
    ensures lib.Valid() && lib.state == old(lib.state)
    ensures r == GetValueResult(item.owner.ptr.IsDisposed(), item.owner.ptr.handle, sensorType, err)
    ensures item.owner.ptr.IsDisposed() ==> lib.calls == old(lib.calls)
    ensures !item.owner.ptr.IsDisposed() ==>
      lib.calls == old(lib.calls)
        + [NativeCall(Getter("ob_sensor_list_get_sensor_type"), item.owner.ptr.handle.address, [WrapUnsigned(item.index)])]
        + CheckErrorCalls(err, true)
  {
    var h := item.owner.ptr.ValueNotDisposed();
    if h.Throw? {
      return Throw(h.exc);
    }
    lib.Call(Getter("ob_sensor_list_get_sensor_type"), h.value.address, [WrapUnsigned(item.index)]);
    var c := Check(lib, err);
    if c.Throw? {
      return Throw(c.exc);
    }
    return Ok(sensorType);
  }

  /// `SensorListItem.Sensor`: a new `Sensor` over the sensor the native
  /// getter hands out at `a`. A zero pointer is refused by the wrapper's
  /// conversion.
  method ItemSensor(lib: NativeSdk, item: ListItem, a: Address, err: ErrorPtr) returns (r: Result<Sensor>)
    requires item.owner.Valid() && lib.Valid()
    modifies lib
    ensures lib.Valid()
    ensures item.owner.ptr.IsDisposed() ==>
      r == Throw(ObjectDisposed(Describe(item.owner.ptr.handle))) && lib.state == old(lib.state) && lib.calls == old(lib.calls)
    ensures !item.owner.ptr.IsDisposed() ==>
      && lib.calls == old(lib.calls)
           + [NativeCall(Getter("ob_sensor_list_get_sensor"), item.owner.ptr.handle.address, [WrapUnsigned(item.index)])]
           + CheckErrorCalls(err, true)
      && lib.state.refs == (if err.Error? || a == 0 || a in old(lib.state.refs) then old(lib.state.refs) else old(lib.state.refs)[a := 1])
      && (Thrown(err).Some? ==> r == Throw(Thrown(err).value))
      && (Thrown(err).None? && a == 0 ==> r == Throw(ArgumentInvalid("ptr")))
      && (Thrown(err).None? && a != 0 ==> r.Ok?)
    ensures r.Ok? ==>
      && fresh(r.value) && r.value.Valid() && r.value.ptr.handle == Handle(HandleKind.Sensor, a)
      && !r.value.IsDisposed() && r.value.callbackUserData == None
  {
    var h := item.owner.ptr.ValueNotDisposed();
    if h.Throw? {
      return Throw(h.exc);
    }
    lib.Acquire(Getter("ob_sensor_list_get_sensor"), h.value.address, [WrapUnsigned(item.index)], a, err);
    var c := Check(lib, err);
    if c.Throw? {
      return Throw(c.exc);
    }
    r := Sensor.Create(Handle(HandleKind.Sensor, a));
  }

  /// `this[sensorType]`: the sensor of that type, or `null` when the
  /// native lookup returns the zero pointer. There is no bounds check and
  /// `Count` is not read.
  method GetByType(lib: NativeSdk, list: NativeList, sensorType: int, a: Address, err: ErrorPtr) returns (r: Result<Option<Sensor>>)
    requires list.Valid() && lib.Valid()
    modifies lib
    ensures lib.Valid()
    ensures list.ptr.IsDisposed() ==>
      r == Throw(ObjectDisposed(Describe(list.ptr.handle))) && lib.state == old(lib.state) && lib.calls == old(lib.calls)
    ensures !list.ptr.IsDisposed() ==>
      && lib.calls == old(lib.calls)
           + [NativeCall(Getter("ob_sensor_list_get_sensor_by_type"), list.ptr.handle.address, [sensorType])]
           + CheckErrorCalls(err, true)
      && lib.state.refs == (if err.Error? || a == 0 || a in old(lib.state.refs) then old(lib.state.refs) else old(lib.state.refs)[a := 1])
      && (Thrown(err).Some? ==> r == Throw(Thrown(err).value))
      && (Thrown(err).None? ==> r.Ok? && (r.value.None? <==> a == 0))
    ensures r.Ok? && r.value.Some? ==>
      && fresh(r.value.value) && r.value.value.Valid() && r.value.value.ptr.handle == Handle(HandleKind.Sensor, a)
      && !r.value.value.IsDisposed() && r.value.value.callbackUserData == None
  {
    var h := list.ptr.ValueNotDisposed();
    if h.Throw? {
      return Throw(h.exc);
    }
    lib.Acquire(Getter("ob_sensor_list_get_sensor_by_type"), h.value.address, [sensorType], a, err);
    var c := Check(lib, err);
    if c.Throw? {
      return Throw(c.exc);
    }
    if a == 0 {
      return Ok(None);
    }
    var s := Sensor.Create(Handle(HandleKind.Sensor, a));
    return Ok(Some(s.value));
  }
}
