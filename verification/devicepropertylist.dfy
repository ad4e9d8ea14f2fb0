/// `DevicePropertyList`: the supported properties of a device, built on
/// demand and cached slot by slot.
module DevicePropertyLists {
  import opened Base
  import opened Int32
  import opened ObTypes
  import opened Native
  import opened ObException
  import opened PtrWrappers
  import opened DeviceProperties

  /// The index of the first property item with id `id`, if any: the
  /// reference for the lookup by `PropertyId`.
  function FirstWithId(catalog: seq<PropertyItem>, id: int): (k: Option<nat>)
    ensures k.Some? ==> k.value < |catalog| && catalog[k.value].id == id
    ensures k.Some? ==> forall j :: 0 <= j < k.value ==> catalog[j].id != id
    ensures k.None? <==> forall j :: 0 <= j < |catalog| ==> catalog[j].id != id
  {
    if |catalog| == 0 then None
    else if catalog[0].id == id then Some(0)
    else
      var rest := FirstWithId(catalog[1..], id);
      if rest.None? then None else Some(rest.value + 1)
  }

  /// Every item of the catalog has a supported property type.
  predicate AllTypesKnown(catalog: seq<PropertyItem>)
  {
    forall j :: 0 <= j < |catalog| ==> PropertyClassOf(catalog[j].propertyType).Ok?
  }

  class DevicePropertyList {
    const devicePtr: PtrWrapper
    /// The property items the device reports, by index.
    const catalog: seq<PropertyItem>
    /// `Count`, fixed at construction.
    const count: int32
    /// The cache slots.
    const items: array<DeviceProperty?>
    /// Whether `Dispose` has disposed the slot lock.
    var lockDisposed: bool

    /// Each filled slot holds a property of this device built from the
    /// catalog item of its index.
    ghost predicate Valid()
      reads this, items, devicePtr
    {
      && devicePtr.Valid() && devicePtr.handle.kind == HandleKind.Device
      && 0 <= count && items.Length == count as int && |catalog| == count as int
      && forall j :: 0 <= j < items.Length && items[j] != null ==>
           items[j].devicePtr == devicePtr && items[j].item == catalog[j] && items[j].Valid()
    }

    constructor Make(p: PtrWrapper, c: seq<PropertyItem>)
      requires p.Valid() && p.handle.kind == HandleKind.Device && |c| <= MAX
      ensures Valid() && fresh(items) && devicePtr == p && catalog == c && count as int == |c| && !lockDisposed
      ensures forall j :: 0 <= j < items.Length ==> items[j] == null
    {
      devicePtr := p;
      catalog := c;
      count := |c|;
      items := new DeviceProperty?[|c|](_ => null);
      lockDisposed := false;
    }

    /// The constructor: `Count` is the native property count cast to `int`,
    /// and every slot starts empty. A count of 2^31 or more reads as a
    /// negative `int`, and allocating the slot array then throws
    /// `OverflowException`.
    static method Create(lib: NativeSdk, p: PtrWrapper, c: seq<PropertyItem>, err: ErrorPtr)
      returns (r: Result<DevicePropertyList>)
      requires lib.Valid() && p.Valid() && p.handle.kind == HandleKind.Device && |c| < MODULUS
      modifies lib
      ensures lib.Valid() && lib.state == old(lib.state)
      ensures p.IsDisposed() ==> r == Throw(ObjectDisposed(Describe(p.handle))) && lib.calls == old(lib.calls)
      ensures !p.IsDisposed() ==>
        lib.calls == old(lib.calls) + [NativeCall(Getter("ob_device_get_supported_property_count"), p.handle.address, [])]
                     + CheckErrorCalls(err, true)
      ensures !p.IsDisposed() && Thrown(err).Some? ==> r == Throw(Thrown(err).value)
      ensures !p.IsDisposed() && Thrown(err).None? && Wrap(|c|) < 0 ==> r == Throw(Overflow)
      ensures r.Ok? <==> !p.IsDisposed() && Thrown(err).None? && |c| <= MAX
      ensures r.Ok? ==> fresh(r.value) && fresh(r.value.items) && r.value.Valid() && r.value.devicePtr == p
      ensures r.Ok? ==> r.value.count as int == |c| && r.value.catalog == c && !r.value.lockDisposed
      ensures r.Ok? ==> forall j :: 0 <= j < r.value.items.Length ==> r.value.items[j] == null
    {
      var h := p.ValueNotDisposed();
      if h.Throw? {
        return Throw(h.exc);
      }
      lib.Call(Getter("ob_device_get_supported_property_count"), h.value.address, []);
      var check := Check(lib, err);
      if check.Throw? {
        return Throw(check.exc);
      }
      var n := Wrap(|c|);
      if n < 0 {
        return Throw(Overflow);
      }
      var list := new DevicePropertyList.Make(p, c);
      return Ok(list);
    }

    /// `Dispose`: disposes the slot lock only. The device is not touched.
    method Dispose()
      requires Valid()
      modifies this
      ensures Valid() && lockDisposed
    {
      lockDisposed := true;
    }

    /// The indexer `this[int]`.
    /// - An index outside [0, Count) throws `IndexOutOfRangeException`.
    /// - Taking the slot lock of a disposed list throws
    ///   `ObjectDisposedException`.
    /// - A filled slot is returned with no native call.
    /// - An empty slot is filled from the native property item. The new
    ///   property is stored only if the write lock was obtained (`stored`).
    /// - No other slot changes.
    method Get(lib: NativeSdk, index: int, err: ErrorPtr, stored: bool) returns (r: Result<DeviceProperty>)
      requires Valid() && lib.Valid()
      modifies lib, items
      ensures Valid() && lib.Valid() && lib.state == old(lib.state)
      ensures forall j :: 0 <= j < items.Length && j != index ==> items[j] == old(items[j])
      ensures !(0 <= index < count) ==> r == Throw(IndexOutOfRange) && lib.calls == old(lib.calls)
      ensures 0 <= index < count && lockDisposed ==> r == Throw(ObjectDisposed("")) && lib.calls == old(lib.calls)
      ensures 0 <= index < count && !lockDisposed ==> (
        if old(items[index]) != null then
          r == Ok(old(items[index])) && lib.calls == old(lib.calls) && items[index] == old(items[index])
        else
          && (r.Ok? <==> !devicePtr.IsDisposed() && Thrown(err).None? && PropertyClassOf(catalog[index].propertyType).Ok?)
          && (r.Ok? ==> fresh(r.value) && r.value.Valid() && r.value.devicePtr == devicePtr && r.value.item == catalog[index])
          && items[index] == (if r.Ok? && stored then r.value else null)
          && (devicePtr.IsDisposed() ==> r == Throw(ObjectDisposed(Describe(devicePtr.handle))) && lib.calls == old(lib.calls))
          && (!devicePtr.IsDisposed() ==>
                lib.calls == old(lib.calls) + [NativeCall(Getter("ob_device_get_supported_property"), devicePtr.handle.address, [index])]
                             + CheckErrorCalls(err, true)))
    {
      if index < 0 || index >= count as int {
        return Throw(IndexOutOfRange);
      }
      if lockDisposed {
        return Throw(ObjectDisposed(""));
      }
      var item := items[index];
      if item != null {
        return Ok(item);
      }
      var h := devicePtr.ValueNotDisposed();
      if h.Throw? {
        return Throw(h.exc);
      }
      lib.Call(Getter("ob_device_get_supported_property"), h.value.address, [WrapUnsigned(index)]);
      var check := Check(lib, err);
      if check.Throw? {
        return Throw(check.exc);
      }
      r := DeviceProperty.Create(devicePtr, catalog[index]);
      if r.Ok? && stored {
        items[index] := r.value;
      }
    }

    /// `IsPropertySupported(propertyId, permission)`: the native answer
    /// `supported`, after `CheckError`.
    method IsPropertySupported(lib: NativeSdk, propertyId: int, permission: int, supported: bool, err: ErrorPtr)
      returns (r: Result<bool>)
      requires Valid() && lib.Valid()
      modifies lib
      ensures lib.Valid() && lib.state == old(lib.state)
      ensures devicePtr.IsDisposed() ==> r == Throw(ObjectDisposed(Describe(devicePtr.handle))) && lib.calls == old(lib.calls)
      ensures !devicePtr.IsDisposed() ==>
        && lib.calls == old(lib.calls) + [NativeCall(Getter("ob_device_is_property_supported"), devicePtr.handle.address, [propertyId, permission])]
                        + CheckErrorCalls(err, true)
        && r == if Thrown(err).Some? then Throw(Thrown(err).value) else Ok(supported)
    {
      var h := devicePtr.ValueNotDisposed();
      if h.Throw? {
        return Throw(h.exc);
      }
      lib.Call(Getter("ob_device_is_property_supported"), h.value.address, [propertyId, permission]);
      var check := Check(lib, err);
      if check.Throw? {
        return Throw(check.exc);
      }
      return Ok(supported);
    }

    /// The enumerator: `this[0]` to `this[Count - 1]`, in order. `err` is
    /// what each native item lookup reports.
    method Enumerate(lib: NativeSdk, err: ErrorPtr, stored: bool) returns (r: Result<seq<DeviceProperty>>)
      requires Valid() && lib.Valid()
      modifies lib, items
      ensures Valid() && lib.Valid() && lib.state == old(lib.state)
      ensures !lockDisposed && !devicePtr.IsDisposed() && Thrown(err).None? && AllTypesKnown(catalog) ==>
        r.Ok? && |r.value| == count as int
        && forall i :: 0 <= i < |r.value| ==> r.value[i].item == catalog[i] && r.value[i].devicePtr == devicePtr
    {
      var acc: seq<DeviceProperty> := [];
      var i := 0;
      while i < count as int
        invariant Valid() && lib.Valid() && lib.state == old(lib.state)
        invariant 0 <= i <= count as int && |acc| == i
        invariant forall k :: 0 <= k < i ==> acc[k].item == catalog[k] && acc[k].devicePtr == devicePtr
      {
        var p := Get(lib, i, err, stored);
        if p.Throw? {
          return Throw(p.exc);
        }
        acc := acc + [p.value];
        i := i + 1;
      }
      return Ok(acc);
    }

    /// The indexer `this[PropertyId]`.
    /// - It asks whether the property is supported with any permission;
    ///   if not, it answers null.
    /// - Otherwise it walks the list in index order and answers the first
    ///   property with that id, or null if there is none.
    method Find(lib: NativeSdk, propertyId: int, supported: bool, supportedErr: ErrorPtr, err: ErrorPtr, stored: bool)
      returns (r: Result<Option<DeviceProperty>>)
      requires Valid() && lib.Valid()
      modifies lib, items
      ensures Valid() && lib.Valid() && lib.state == old(lib.state)
      ensures devicePtr.IsDisposed() ==> r == Throw(ObjectDisposed(Describe(devicePtr.handle)))
      ensures !devicePtr.IsDisposed() && Thrown(supportedErr).Some? ==> r == Throw(Thrown(supportedErr).value)
      ensures !devicePtr.IsDisposed() && Thrown(supportedErr).None? && !supported ==> r == Ok(None)
      ensures !devicePtr.IsDisposed() && Thrown(supportedErr).None? && supported
              && !lockDisposed && Thrown(err).None? && AllTypesKnown(catalog) ==>
        && r.Ok?
        && (r.value.None? <==> FirstWithId(catalog, propertyId).None?)
        && (r.value.Some? ==> r.value.value.item == catalog[FirstWithId(catalog, propertyId).value])
    {
      var s := IsPropertySupported(lib, propertyId, PERMISSION_ANY, supported, supportedErr);
      if s.Throw? {
        return Throw(s.exc);
      }
      if !s.value {
        return Ok(None);
      }
      var i := 0;
      while i < count as int
        invariant Valid() && lib.Valid() && lib.state == old(lib.state)
        invariant 0 <= i <= count as int
        invariant forall k :: 0 <= k < i ==> catalog[k].id != propertyId
      {
        var p := Get(lib, i, err, stored);
        if p.Throw? {
          return Throw(p.exc);
        }
        if p.value.item.id == propertyId {
          return Ok(Some(p.value));
        }
        i := i + 1;
      }
      return Ok(None);
    }
  }

  /// `PermissionType.Any`
  const PERMISSION_ANY: int := 255
}
