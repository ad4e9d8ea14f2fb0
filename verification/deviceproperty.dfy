/// `DeviceProperty` and its `Bool`, `Int` and `Struct` subclasses: typed
/// access to one property of a device.
/// - A property is described by its native property item.
/// - Its accessors call the native getters and setters with the device
///   pointer and the property's id.
module DeviceProperties {
  import opened Base
  import opened Int32
  import opened ObTypes
  import opened Native
  import opened ObException
  import opened PtrWrappers
  import opened NativeBools

  /// `PropertyType` codes.
  const PROPERTY_BOOL: int := 0
  const PROPERTY_INT: int := 1
  const PROPERTY_FLOAT: int := 2
  const PROPERTY_STRUCT: int := 3

  /// The subclass of a property.
  datatype PropertyClass = BoolProperty | IntProperty | FloatProperty | StructProperty

  /// `ObPropertyItem`: id, name, type code and permission code.
  datatype PropertyItem = PropertyItem(id: int, name: Option<string>, propertyType: int, permission: int)

  /// The subclass `DeviceProperty.Create` instantiates for a type code.
  /// Any other code throws `NotSupportedException`.
  function PropertyClassOf(propertyType: int): (r: Result<PropertyClass>)
    ensures r.Throw? <==> !(PROPERTY_BOOL <= propertyType <= PROPERTY_STRUCT)
    ensures r.Throw? ==> r.exc == NotSupported
    ensures propertyType == PROPERTY_BOOL ==> r == Ok(BoolProperty)
    ensures propertyType == PROPERTY_INT ==> r == Ok(IntProperty)
    ensures propertyType == PROPERTY_FLOAT ==> r == Ok(FloatProperty)
    ensures propertyType == PROPERTY_STRUCT ==> r == Ok(StructProperty)
  {
    if propertyType == PROPERTY_INT then Ok(IntProperty)
    else if propertyType == PROPERTY_FLOAT then Ok(FloatProperty)
    else if propertyType == PROPERTY_BOOL then Ok(BoolProperty)
    else if propertyType == PROPERTY_STRUCT then Ok(StructProperty)
    else Throw(NotSupported)
  }

  /// The `TypeCode` of the type argument `T` of `GetValue<T>` and
  /// `GetPropertyRange<T>`. `Other` stands for every remaining type code.
  datatype TypeCode = Boolean | SByte | Byte | Int16 | UInt16 | Int32 | UInt32 | Int64 | UInt64 | Single | Double | Other

  /// A value of type `T`, boxed.
  datatype Value = BoolValue(b: bool) | IntegerValue(i: int) | RealValue(r: real)

  /// The widths of the integer types an `int` can be cast to.
  datatype IntWidth = W8 | W16 | W32 | W64

  /// How many values a type of width `w` has.
  function Span(w: IntWidth): int
  {
    match w
    case W8 => 0x100
    case W16 => 0x1_0000
    case W32 => 0x1_0000_0000
    case W64 => 0x1_0000_0000_0000_0000
  }

  /// Whether `v` is a value of the type of width `w` and signedness `signed`.
  predicate Fits(v: int, w: IntWidth, signed: bool)
  {
    if signed then -(Span(w) / 2) <= v < Span(w) / 2 else 0 <= v < Span(w)
  }

  /// An unchecked cast to an integer type: the value modulo the type's
  /// range, read as signed or unsigned.
  function Narrow(v: int, w: IntWidth, signed: bool): (r: int)
    ensures (r - v) % Span(w) == 0
    ensures Fits(r, w, signed)
  {
    var m := Span(w);
    var u := v % m;
    if signed && u >= m / 2 then u - m else u
  }

  /// A cast to a type that holds the value already does not change it.
  lemma NarrowKeepsInRange(v: int, w: IntWidth, signed: bool)
    requires Fits(v, w, signed)
    ensures Narrow(v, w, signed) == v
  {
    var m := Span(w);
    if v < 0 {
      assert v % m == v + m;
    }
  }

  /// Casting between a signed and an unsigned type of one width and back
  /// gives the original value, as in `(int)(uint)v == v`.
  lemma NarrowRoundTrip(v: int, w: IntWidth, signed: bool)
    requires Fits(v, w, signed)
    ensures Narrow(Narrow(v, w, !signed), w, signed) == v
  {
    var m := Span(w);
    var u := Narrow(v, w, !signed);
    SmallMod(v, m);
    SmallMod(u, m);
  }

  /// `%` on a value less than one range away from [0, m).
  lemma SmallMod(x: int, m: int)
    requires m > 0 && -m <= x < m
    ensures x % m == if x < 0 then x + m else x
  {
  }

  /// `Bool.CastValue<T>`: true and false as 1 and 0 of every numeric type,
  /// the value itself for `bool`. Other types throw
  /// `NotSupportedException`.
  function BoolCastValue(t: TypeCode, value: bool): (r: Result<Value>)
    ensures r.Throw? <==> t == Other
    ensures r.Throw? ==> r.exc == NotSupported
    ensures t == Boolean ==> r == Ok(BoolValue(value))
    ensures t == Single || t == Double ==> r == Ok(RealValue(if value then 1.0 else 0.0))
    ensures t !in {Boolean, Single, Double, Other} ==> r == Ok(IntegerValue(if value then 1 else 0))
  {
    match t
    case Boolean => Ok(BoolValue(value))
    case SByte => Ok(IntegerValue(if value then 1 else 0))
    case Byte => Ok(IntegerValue(if value then 1 else 0))
    case Int16 => Ok(IntegerValue(if value then 1 else 0))
    case UInt16 => Ok(IntegerValue(if value then 1 else 0))
    case Int32 => Ok(IntegerValue(if value then 1 else 0))
    case UInt32 => Ok(IntegerValue(if value then 1 else 0))
    case Int64 => Ok(IntegerValue(if value then 1 else 0))
    case UInt64 => Ok(IntegerValue(if value then 1 else 0))
    case Single => Ok(RealValue(if value then 1.0 else 0.0))
    case Double => Ok(RealValue(if value then 1.0 else 0.0))
    case Other => Throw(NotSupported)
  }

  /// `r` is an integer of the type of width `w` and signedness `signed`
  /// that agrees with `value` modulo the type's range.
  predicate IsCastOf(r: Result<Value>, value: int, w: IntWidth, signed: bool)
  {
    r.Ok? && r.value.IntegerValue? && (r.value.i - value) % Span(w) == 0 && Fits(r.value.i, w, signed)
  }

  /// `Int.CastValue<T>`: unchecked casts of an `int`.
  /// - `int` and `long` keep the value; `double` holds it exactly.
  /// - Narrower and unsigned types take it modulo their range.
  /// - `float` is not modelled; other types throw `NotSupportedException`.
  function IntCastValue(t: TypeCode, value: int32): (r: Result<Value>)
    requires t != Single
    ensures r.Throw? <==> t == Boolean || t == Other
    ensures r.Throw? ==> r.exc == NotSupported
    ensures t == Int32 || t == Int64 ==> r == Ok(IntegerValue(value))
    ensures t == Double ==> r == Ok(RealValue(value as real))
    ensures t == SByte ==> IsCastOf(r, value, W8, true)
    ensures t == Byte ==> IsCastOf(r, value, W8, false)
    ensures t == Int16 ==> IsCastOf(r, value, W16, true)
    ensures t == UInt16 ==> IsCastOf(r, value, W16, false)
    ensures t == UInt32 ==> IsCastOf(r, value, W32, false)
    ensures t == UInt64 ==> IsCastOf(r, value, W64, false)
  {
    match t
    case Int32 => Ok(IntegerValue(value))
    case UInt32 => Ok(IntegerValue(Narrow(value, W32, false)))
    case Int16 => Ok(IntegerValue(Narrow(value, W16, true)))
    case UInt16 => Ok(IntegerValue(Narrow(value, W16, false)))
    case Int64 => Ok(IntegerValue(value))
    case UInt64 => Ok(IntegerValue(Narrow(value, W64, false)))
    case SByte => Ok(IntegerValue(Narrow(value, W8, true)))
    case Byte => Ok(IntegerValue(Narrow(value, W8, false)))
    case Double => Ok(RealValue(value as real))
    case Boolean => Throw(NotSupported)
    case Other => Throw(NotSupported)
  }

  /// The cast to `ulong` adds 2^64 to a negative `int` and keeps the rest.
  lemma UInt64CastOfInt(value: int32)
    ensures IntCastValue(UInt64, value) == Ok(IntegerValue(if value < 0 then value + Span(W64) else value))
  {
    if value < 0 {
      SmallMod(value, Span(W64));
    } else {
      NarrowKeepsInRange(value, W64, false);
    }
  }

  /// Every integer target holds 0 and 1, so on the integers the `Int` cast
  /// of 0 or 1 agrees with the `Bool` cast of false or true.
  lemma {:induction false} BoolAndIntCastsAgree(t: TypeCode, value: bool)
    requires t !in {Boolean, Single, Other}
    ensures IntCastValue(t, if value then 1 else 0) == BoolCastValue(t, value)
  {
    var v: int32 := if value then 1 else 0;
    match t {
      case UInt32 => NarrowKeepsInRange(v, W32, false);
      case Int16 => NarrowKeepsInRange(v, W16, true);
      case UInt16 => NarrowKeepsInRange(v, W16, false);
      case UInt64 => NarrowKeepsInRange(v, W64, false);
      case SByte => NarrowKeepsInRange(v, W8, true);
      case Byte => NarrowKeepsInRange(v, W8, false);
      case _ =>
    }
  }

  /// `PropertyRange<T>`
  datatype PropertyRange<T> = PropertyRange(current: T, min: T, max: T, step: T, default: T)

  /// `ObBoolPropertyRange` and `ObIntPropertyRange`: the native field order
  /// is Cur, Max, Min, Step, Def.
  datatype NativeRange<T> = NativeRange(cur: T, max: T, min: T, step: T, def: T)

  /// The `Range` getters: each native field goes to the field of the same
  /// meaning.
  function RangeOf<T>(n: NativeRange<T>): (r: PropertyRange<T>)
    ensures r.current == n.cur && r.max == n.max && r.min == n.min && r.step == n.step && r.default == n.def
  {
    PropertyRange(n.cur, n.min, n.max, n.step, n.def)
  }

  /// `GetPropertyRange<T>` of `Bool`: each of the five fields cast on its
  /// own. An unsupported `T` throws.
  function BoolRangeAs(t: TypeCode, range: PropertyRange<bool>): (r: Result<PropertyRange<Value>>)
    ensures r.Throw? <==> t == Other
    ensures r.Throw? ==> r.exc == NotSupported
    ensures r.Ok? ==>
      && Ok(r.value.current) == BoolCastValue(t, range.current) && Ok(r.value.min) == BoolCastValue(t, range.min)
      && Ok(r.value.max) == BoolCastValue(t, range.max) && Ok(r.value.step) == BoolCastValue(t, range.step)
      && Ok(r.value.default) == BoolCastValue(t, range.default)
  {
    if t == Other then Throw(NotSupported)
    else Ok(PropertyRange(BoolCastValue(t, range.current).value, BoolCastValue(t, range.min).value,
                          BoolCastValue(t, range.max).value, BoolCastValue(t, range.step).value,
                          BoolCastValue(t, range.default).value))
  }

  /// `GetPropertyRange<T>` of `Int`: each of the five fields cast on its
  /// own. An unsupported `T` throws.
  function IntRangeAs(t: TypeCode, range: PropertyRange<int32>): (r: Result<PropertyRange<Value>>)
    requires t != Single
    ensures r.Throw? <==> t == Boolean || t == Other
    ensures r.Throw? ==> r.exc == NotSupported
    ensures r.Ok? ==>
      && Ok(r.value.current) == IntCastValue(t, range.current) && Ok(r.value.min) == IntCastValue(t, range.min)
      && Ok(r.value.max) == IntCastValue(t, range.max) && Ok(r.value.step) == IntCastValue(t, range.step)
      && Ok(r.value.default) == IntCastValue(t, range.default)
  {
    if t == Boolean || t == Other then Throw(NotSupported)
    else Ok(PropertyRange(IntCastValue(t, range.current).value, IntCastValue(t, range.min).value,
                          IntCastValue(t, range.max).value, IntCastValue(t, range.step).value,
                          IntCastValue(t, range.default).value))
  }

  /// `int / int` in C#: the quotient truncated toward zero.
  function TruncDiv(a: int, b: int): (q: int)
    requires b > 0
    ensures a >= 0 ==> q == a / b
    ensures a < 0 ==> q == -((-a) / b)
  {
    if a >= 0 then a / b else -((-a) / b)
  }

  /// A property of one device. It keeps the device's wrapper, which is what
  /// `Device.NativePtr` reads.
  class DeviceProperty {
    const devicePtr: PtrWrapper
    const item: PropertyItem
    const cls: PropertyClass

    ghost predicate Valid()
      reads devicePtr
    {
      devicePtr.Valid() && devicePtr.handle.kind == HandleKind.Device && PropertyClassOf(item.propertyType) == Ok(cls)
    }

    constructor Make(p: PtrWrapper, it: PropertyItem, c: PropertyClass)
      requires p.Valid() && p.handle.kind == HandleKind.Device && PropertyClassOf(it.propertyType) == Ok(c)
      ensures Valid() && devicePtr == p && item == it && cls == c
    {
      devicePtr := p;
      item := it;
      cls := c;
    }

    /// `DeviceProperty.Create`: the subclass chosen by the item's type.
    static method Create(p: PtrWrapper, it: PropertyItem) returns (r: Result<DeviceProperty>)
      requires p.Valid() && p.handle.kind == HandleKind.Device
      ensures r.Ok? <==> PropertyClassOf(it.propertyType).Ok?
      ensures r.Throw? ==> r.exc == NotSupported
      ensures r.Ok? ==> fresh(r.value) && r.value.Valid() && r.value.devicePtr == p && r.value.item == it
      ensures r.Ok? ==> r.value.cls == PropertyClassOf(it.propertyType).value
    {
      var c := PropertyClassOf(it.propertyType);
      if c.Throw? {
        return Throw(c.exc);
      }
      var dp := new DeviceProperty.Make(p, it, c.value);
      return Ok(dp);
    }

    predicate DeviceDisposed()
      reads devicePtr
    {
      devicePtr.IsDisposed()
    }

    /// `GetProperty(getter)`: the native getter on the device pointer and
    /// this property's id, then `CheckError`. `value` is what the getter
    /// returns.
    method GetProperty<V>(lib: NativeSdk, getter: string, value: V, err: ErrorPtr) returns (r: Result<V>)
      requires Valid() && lib.Valid()
      modifies lib
      ensures lib.Valid() && lib.state == old(lib.state)
      ensures DeviceDisposed() ==> r == Throw(ObjectDisposed(Describe(devicePtr.handle))) && lib.calls == old(lib.calls)
      ensures !DeviceDisposed() ==>
        && lib.calls == old(lib.calls) + [NativeCall(Getter(getter), devicePtr.handle.address, [item.id])] + CheckErrorCalls(err, true)
        && r == if Thrown(err).Some? then Throw(Thrown(err).value) else Ok(value)
    {
      var h := devicePtr.ValueNotDisposed();
      if h.Throw? {
        return Throw(h.exc);
      }
      lib.Call(Getter(getter), h.value.address, [item.id]);
      var c := Check(lib, err);
      if c.Throw? {
        return Throw(c.exc);
      }
      return Ok(value);
    }

    /// `SetProperty(setter, value)`: the native setter on the device pointer,
    /// this property's id and `args`, then `CheckError`.
    method SetProperty(lib: NativeSdk, setter: string, args: seq<int>, err: ErrorPtr) returns (r: Result<()>)
      requires Valid() && lib.Valid()
      modifies lib
      ensures lib.Valid() && lib.state == old(lib.state)
      ensures DeviceDisposed() ==> r == Throw(ObjectDisposed(Describe(devicePtr.handle))) && lib.calls == old(lib.calls)
      ensures !DeviceDisposed() ==>
        && lib.calls == old(lib.calls) + [NativeCall(Invoke(setter), devicePtr.handle.address, [item.id] + args)] + CheckErrorCalls(err, true)
        && r == if Thrown(err).Some? then Throw(Thrown(err).value) else Ok(())
    {
      var h := devicePtr.ValueNotDisposed();
      if h.Throw? {
        return Throw(h.exc);
      }
      lib.Call(Invoke(setter), h.value.address, [item.id] + args);
      r := Check(lib, err);
    }

    /// `CmdVersion`: the command version of this property, the `ushort` the
    /// native getter returns for its id.
    method CmdVersion(lib: NativeSdk, version: bv16, err: ErrorPtr) returns (r: Result<bv16>)
      requires Valid() && lib.Valid()
      modifies lib
      ensures lib.Valid() && lib.state == old(lib.state)
      ensures r.Ok? <==> !DeviceDisposed() && Thrown(err).None?
      ensures r.Ok? ==> r.value == version
      ensures DeviceDisposed() ==> r == Throw(ObjectDisposed(Describe(devicePtr.handle))) && lib.calls == old(lib.calls)
      ensures !DeviceDisposed() && Thrown(err).Some? ==> r == Throw(Thrown(err).value)
      ensures !DeviceDisposed() ==>
        lib.calls == old(lib.calls) + [NativeCall(Getter("ob_device_get_cmd_version"), devicePtr.handle.address, [item.id])] + CheckErrorCalls(err, true)
    {
      r := GetProperty(lib, "ob_device_get_cmd_version", version, err);
    }

    /// `Bool.Value` getter: the native byte read as a `NativeBool`.
    method GetBool(lib: NativeSdk, raw: NativeBool, err: ErrorPtr) returns (r: Result<bool>)
      requires Valid() && cls == BoolProperty && lib.Valid()
      modifies lib
      ensures lib.Valid() && lib.state == old(lib.state)
      ensures r.Ok? <==> !DeviceDisposed() && Thrown(err).None?
      ensures r.Ok? ==> r.value == raw.Value()
      ensures DeviceDisposed() ==> r == Throw(ObjectDisposed(Describe(devicePtr.handle))) && lib.calls == old(lib.calls)
      ensures !DeviceDisposed() && Thrown(err).Some? ==> r == Throw(Thrown(err).value)
      ensures !DeviceDisposed() ==>
        lib.calls == old(lib.calls) + [NativeCall(Getter("ob_device_get_bool_property"), devicePtr.handle.address, [item.id])] + CheckErrorCalls(err, true)
    {
      var v := GetProperty(lib, "ob_device_get_bool_property", raw, err);
      if v.Throw? {
        return Throw(v.exc);
      }
      return Ok(v.value.Value());
    }

    /// `Bool.Value` setter: the value goes out as a canonical `NativeBool`
    /// byte, 1 or 0.
    method SetBool(lib: NativeSdk, value: bool, err: ErrorPtr) returns (r: Result<()>)
      requires Valid() && cls == BoolProperty && lib.Valid()
      modifies lib
      ensures lib.Valid() && lib.state == old(lib.state)
      ensures r.Ok? <==> !DeviceDisposed() && Thrown(err).None?
      ensures DeviceDisposed() ==> r == Throw(ObjectDisposed(Describe(devicePtr.handle))) && lib.calls == old(lib.calls)
      ensures !DeviceDisposed() && Thrown(err).Some? ==> r == Throw(Thrown(err).value)
      ensures !DeviceDisposed() ==>
        lib.calls == old(lib.calls) + [NativeCall(Invoke("ob_device_set_bool_property"), devicePtr.handle.address,
                                                  [item.id, if value then 1 else 0])] + CheckErrorCalls(err, true)
    {
      var raw := FromBool(value).rawValue as int;
      assert [item.id] + [raw] == [item.id, if value then 1 else 0];
      r := SetProperty(lib, "ob_device_set_bool_property", [raw], err);
    }

    /// `Bool.GetValue<T>`: the value, cast by `Bool.CastValue`.
    method GetBoolAs(lib: NativeSdk, t: TypeCode, raw: NativeBool, err: ErrorPtr) returns (r: Result<Value>)
      requires Valid() && cls == BoolProperty && lib.Valid()
      modifies lib
      ensures lib.Valid() && lib.state == old(lib.state)
      ensures !DeviceDisposed() && Thrown(err).None? ==> r == BoolCastValue(t, raw.Value())
      ensures DeviceDisposed() ==> r == Throw(ObjectDisposed(Describe(devicePtr.handle))) && lib.calls == old(lib.calls)
      ensures !DeviceDisposed() && Thrown(err).Some? ==> r == Throw(Thrown(err).value)
      ensures !DeviceDisposed() ==>
        lib.calls == old(lib.calls) + [NativeCall(Getter("ob_device_get_bool_property"), devicePtr.handle.address, [item.id])] + CheckErrorCalls(err, true)
    {
      var v := GetBool(lib, raw, err);
      if v.Throw? {
        return Throw(v.exc);
      }
      r := BoolCastValue(t, v.value);
    }

    /// `Bool.Range`, and `Bool.GetPropertyRange<T>` when `t` is given: the
    /// native range, field by field, then cast.
    method GetBoolRange(lib: NativeSdk, t: Option<TypeCode>, raw: NativeRange<NativeBool>, err: ErrorPtr)
      returns (r: Result<PropertyRange<Value>>)
      requires Valid() && cls == BoolProperty && lib.Valid()
      modifies lib
      ensures lib.Valid() && lib.state == old(lib.state)
      ensures DeviceDisposed() ==> r == Throw(ObjectDisposed(Describe(devicePtr.handle))) && lib.calls == old(lib.calls)
      ensures !DeviceDisposed() && Thrown(err).Some? ==> r == Throw(Thrown(err).value)
      ensures !DeviceDisposed() ==>
        lib.calls == old(lib.calls) + [NativeCall(Getter("ob_device_get_bool_property_range"), devicePtr.handle.address, [item.id])] + CheckErrorCalls(err, true)
      ensures !DeviceDisposed() && Thrown(err).None? ==>
        var range := RangeOf(NativeRange(raw.cur.Value(), raw.max.Value(), raw.min.Value(), raw.step.Value(), raw.def.Value()));
        r == BoolRangeAs(if t.Some? then t.value else Boolean, range)
    {
      var n := GetProperty(lib, "ob_device_get_bool_property_range", raw, err);
      if n.Throw? {
        return Throw(n.exc);
      }
      var range := RangeOf(NativeRange(n.value.cur.Value(), n.value.max.Value(), n.value.min.Value(),
                                       n.value.step.Value(), n.value.def.Value()));
      r := BoolRangeAs(if t.Some? then t.value else Boolean, range);
    }

    /// `Int.Value` getter: the native `int`.
    method GetInt(lib: NativeSdk, value: int32, err: ErrorPtr) returns (r: Result<int32>)
      requires Valid() && cls == IntProperty && lib.Valid()
      modifies lib
      ensures lib.Valid() && lib.state == old(lib.state)
      ensures r.Ok? <==> !DeviceDisposed() && Thrown(err).None?
      ensures r.Ok? ==> r.value == value
      ensures DeviceDisposed() ==> r == Throw(ObjectDisposed(Describe(devicePtr.handle))) && lib.calls == old(lib.calls)
      ensures !DeviceDisposed() && Thrown(err).Some? ==> r == Throw(Thrown(err).value)
      ensures !DeviceDisposed() ==>
        lib.calls == old(lib.calls) + [NativeCall(Getter("ob_device_get_int_property"), devicePtr.handle.address, [item.id])] + CheckErrorCalls(err, true)
    {
      r := GetProperty(lib, "ob_device_get_int_property", value, err);
    }

    /// `Int.Value` setter, and `Int.SetValue<T>` after `Convert.ToInt32`:
    /// the value goes out unchanged with the property id.
    method SetInt(lib: NativeSdk, value: int32, err: ErrorPtr) returns (r: Result<()>)
      requires Valid() && cls == IntProperty && lib.Valid()
      modifies lib
      ensures lib.Valid() && lib.state == old(lib.state)
      ensures r.Ok? <==> !DeviceDisposed() && Thrown(err).None?
      ensures DeviceDisposed() ==> r == Throw(ObjectDisposed(Describe(devicePtr.handle))) && lib.calls == old(lib.calls)
      ensures !DeviceDisposed() && Thrown(err).Some? ==> r == Throw(Thrown(err).value)
      ensures !DeviceDisposed() ==>
        lib.calls == old(lib.calls) + [NativeCall(Invoke("ob_device_set_int_property"), devicePtr.handle.address, [item.id, value])] + CheckErrorCalls(err, true)
    {
      assert [item.id] + [value as int] == [item.id, value];
      r := SetProperty(lib, "ob_device_set_int_property", [value as int], err);
    }

    /// `Int.GetValue<T>`: the value, cast by `Int.CastValue`.
    method GetIntAs(lib: NativeSdk, t: TypeCode, value: int32, err: ErrorPtr) returns (r: Result<Value>)
      requires Valid() && cls == IntProperty && lib.Valid() && t != Single
      modifies lib
      ensures lib.Valid() && lib.state == old(lib.state)
      ensures !DeviceDisposed() && Thrown(err).None? ==> r == IntCastValue(t, value)
      ensures DeviceDisposed() ==> r == Throw(ObjectDisposed(Describe(devicePtr.handle))) && lib.calls == old(lib.calls)
      ensures !DeviceDisposed() && Thrown(err).Some? ==> r == Throw(Thrown(err).value)
      ensures !DeviceDisposed() ==>
        lib.calls == old(lib.calls) + [NativeCall(Getter("ob_device_get_int_property"), devicePtr.handle.address, [item.id])] + CheckErrorCalls(err, true)
    {
      var v := GetInt(lib, value, err);
      if v.Throw? {
        return Throw(v.exc);
      }
      r := IntCastValue(t, v.value);
    }

    /// `Int.Range`, and `Int.GetPropertyRange<T>` when `t` is given.
    method GetIntRange(lib: NativeSdk, t: Option<TypeCode>, raw: NativeRange<int32>, err: ErrorPtr)
      returns (r: Result<PropertyRange<Value>>)
      requires Valid() && cls == IntProperty && lib.Valid() && t != Some(Single)
      modifies lib
      ensures lib.Valid() && lib.state == old(lib.state)
      ensures DeviceDisposed() ==> r == Throw(ObjectDisposed(Describe(devicePtr.handle))) && lib.calls == old(lib.calls)
      ensures !DeviceDisposed() && Thrown(err).Some? ==> r == Throw(Thrown(err).value)
      ensures !DeviceDisposed() ==>
        lib.calls == old(lib.calls) + [NativeCall(Getter("ob_device_get_int_property_range"), devicePtr.handle.address, [item.id])] + CheckErrorCalls(err, true)
      ensures !DeviceDisposed() && Thrown(err).None? ==> r == IntRangeAs(if t.Some? then t.value else Int32, RangeOf(raw))
    {
      var n := GetProperty(lib, "ob_device_get_int_property_range", raw, err);
      if n.Throw? {
        return Throw(n.exc);
      }
      r := IntRangeAs(if t.Some? then t.value else Int32, RangeOf(n.value));
    }

    /// `Struct.GetValue(bufferPtr, ref dataSizeBytes)`.
    /// - The caller's size goes to the SDK as `uint`.
    /// - The size the SDK reports, read back as `int`, replaces it.
    /// - When `CheckError` throws, the caller's size is not overwritten.
    method GetStructured(lib: NativeSdk, dataSizeBytes: int32, reported: uint32, err: ErrorPtr)
      returns (r: Result<()>, newSize: int32)
      requires Valid() && cls == StructProperty && lib.Valid()
      modifies lib
      ensures lib.Valid() && lib.state == old(lib.state)
      ensures DeviceDisposed() ==> r == Throw(ObjectDisposed(Describe(devicePtr.handle))) && lib.calls == old(lib.calls)
      ensures !DeviceDisposed() ==>
        lib.calls == old(lib.calls) + [NativeCall(Getter("ob_device_get_structured_data"), devicePtr.handle.address,
                                                  [item.id, WrapUnsigned(dataSizeBytes)])] + CheckErrorCalls(err, true)
      ensures r.Ok? <==> !DeviceDisposed() && Thrown(err).None?
      ensures !DeviceDisposed() && Thrown(err).Some? ==> r == Throw(Thrown(err).value)
      ensures newSize == if r.Ok? then Wrap(reported) else dataSizeBytes
    {
      var h := devicePtr.ValueNotDisposed();
      if h.Throw? {
        return Throw(h.exc), dataSizeBytes;
      }
      var size := WrapUnsigned(dataSizeBytes);
      lib.Call(Getter("ob_device_get_structured_data"), h.value.address, [item.id, size]);
      r := Check(lib, err);
      if r.Throw? {
        return r, dataSizeBytes;
      }
      newSize := Wrap(reported);
    }

    /// `Struct.GetValue<T>(T[] buffer)`: the capacity is
    /// `buffer.Length * sizeof(T)` bytes in unchecked `int` arithmetic. The
    /// result is the reported byte count divided by `sizeof(T)`, truncated.
    method GetStructuredArray(lib: NativeSdk, length: nat, elementSize: nat, reported: uint32, err: ErrorPtr)
      returns (r: Result<int>)
      requires Valid() && cls == StructProperty && lib.Valid() && elementSize >= 1
      modifies lib
      ensures lib.Valid() && lib.state == old(lib.state)
      ensures !DeviceDisposed() ==>
        lib.calls == old(lib.calls) + [NativeCall(Getter("ob_device_get_structured_data"), devicePtr.handle.address,
                                                  [item.id, WrapUnsigned(Wrap(length * elementSize))])] + CheckErrorCalls(err, true)
      ensures r.Ok? <==> !DeviceDisposed() && Thrown(err).None?
      ensures DeviceDisposed() ==> r == Throw(ObjectDisposed(Describe(devicePtr.handle))) && lib.calls == old(lib.calls)
      ensures !DeviceDisposed() && Thrown(err).Some? ==> r == Throw(Thrown(err).value)
      ensures r.Ok? ==> r.value == TruncDiv(Wrap(reported), elementSize)
      ensures r.Ok? && reported <= MAX ==> 0 <= r.value && r.value * elementSize <= reported < (r.value + 1) * elementSize
    {
      var size := Wrap(length * elementSize);
      var res, newSize := GetStructured(lib, size, reported, err);
      if res.Throw? {
        return Throw(res.exc);
      }
      return Ok(TruncDiv(newSize, elementSize));
    }

    /// `Struct.GetValue<T>()`: reads `sizeof(T)` bytes. A reported size that
    /// differs throws `InvalidOperationException`. The decoded structure
    /// itself is not modelled.
    method GetStructuredValue(lib: NativeSdk, size: int32, reported: uint32, err: ErrorPtr) returns (r: Result<()>)
      requires Valid() && cls == StructProperty && lib.Valid()
      modifies lib
      ensures lib.Valid() && lib.state == old(lib.state)
      ensures r.Ok? <==> !DeviceDisposed() && Thrown(err).None? && Wrap(reported) == size
      ensures DeviceDisposed() ==> r == Throw(ObjectDisposed(Describe(devicePtr.handle))) && lib.calls == old(lib.calls)
      ensures !DeviceDisposed() && Thrown(err).Some? ==> r == Throw(Thrown(err).value)
      ensures !DeviceDisposed() ==>
        lib.calls == old(lib.calls) + [NativeCall(Getter("ob_device_get_structured_data"), devicePtr.handle.address,
                                                  [item.id, WrapUnsigned(size)])] + CheckErrorCalls(err, true)
      ensures !DeviceDisposed() && Thrown(err).None? && Wrap(reported) != size ==> r == Throw(InvalidOperation)
    {
      var res, s := GetStructured(lib, size, reported, err);
      if res.Throw? {
        return res;
      }
      if s != size {
        return Throw(InvalidOperation);
      }
      return Ok(());
    }

    /// `Struct.SetValue(dataPtr, dataSizeBytes)`: the size goes to the SDK
    /// as `uint`.
    method SetStructured(lib: NativeSdk, dataSizeBytes: int32, err: ErrorPtr) returns (r: Result<()>)
      requires Valid() && cls == StructProperty && lib.Valid()
      modifies lib
      ensures lib.Valid() && lib.state == old(lib.state)
      ensures r.Ok? <==> !DeviceDisposed() && Thrown(err).None?
      ensures DeviceDisposed() ==> r == Throw(ObjectDisposed(Describe(devicePtr.handle))) && lib.calls == old(lib.calls)
      ensures !DeviceDisposed() && Thrown(err).Some? ==> r == Throw(Thrown(err).value)
      ensures !DeviceDisposed() ==>
        lib.calls == old(lib.calls) + [NativeCall(Invoke("ob_device_set_structured_data"), devicePtr.handle.address,
                                                  [item.id, WrapUnsigned(dataSizeBytes)])] + CheckErrorCalls(err, true)
    {
      assert [item.id] + [WrapUnsigned(dataSizeBytes)] == [item.id, WrapUnsigned(dataSizeBytes)];
      r := SetProperty(lib, "ob_device_set_structured_data", [WrapUnsigned(dataSizeBytes)], err);
    }

    /// `Struct.SetValue<T>(T[] data)`: exactly `data.Length * sizeof(T)`
    /// bytes, in unchecked `int` arithmetic.
    method SetStructuredArray(lib: NativeSdk, length: nat, elementSize: nat, err: ErrorPtr) returns (r: Result<()>)
      requires Valid() && cls == StructProperty && lib.Valid()
      modifies lib
      ensures lib.Valid() && lib.state == old(lib.state)
      ensures r.Ok? <==> !DeviceDisposed() && Thrown(err).None?
      ensures DeviceDisposed() ==> r == Throw(ObjectDisposed(Describe(devicePtr.handle))) && lib.calls == old(lib.calls)
      ensures !DeviceDisposed() && Thrown(err).Some? ==> r == Throw(Thrown(err).value)
      ensures !DeviceDisposed() ==>
        lib.calls == old(lib.calls) + [NativeCall(Invoke("ob_device_set_structured_data"), devicePtr.handle.address,
                                                  [item.id, WrapUnsigned(Wrap(length * elementSize))])] + CheckErrorCalls(err, true)
    {
      r := SetStructured(lib, Wrap(length * elementSize), err);
    }

    /// `Struct.GetPropertyRange<T>`: structured properties have no range.
    method GetStructuredRange() returns (r: Result<PropertyRange<Value>>)
      requires cls == StructProperty
      ensures r == Throw(NotSupported)
    {
      r := Throw(NotSupported);
    }
  }
}
