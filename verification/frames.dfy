/// `Frame` and its subclasses: a managed view of a native frame.
/// - Duplicates share the native frame; each holds its own reference.
/// - Frames created over a managed array keep the array pinned until the
///   native side drops its last reference.
module Frames {
  import opened Base
  import opened Int32
  import opened ObTypes
  import opened Native
  import opened HandleOps
  import opened ObException
  import opened PtrWrappers
  import opened Helpers
  import opened Int64
  import opened TimeSpans

  /// `FrameType` codes.
  const FRAME_UNKNOWN: int := -1
  const FRAME_VIDEO: int := 0
  const FRAME_IR: int := 1
  const FRAME_COLOR: int := 2
  const FRAME_DEPTH: int := 3
  const FRAME_ACCEL: int := 4
  const FRAME_SET: int := 5
  const FRAME_POINTS: int := 6
  const FRAME_GYRO: int := 7
  const FRAME_IR_LEFT: int := 8
  const FRAME_IR_RIGHT: int := 9
  const FRAME_RAW_PHASE: int := 10

  /// The sealed subclasses of `Frame`.
  datatype FrameClass = Accel | Color | Depth | Gyro | IR | Points | RawPhase | Video | Set

  /// The subclass `FromNativePtr(ptr, frameType)` instantiates. Every named
  /// type except `Unknown` has one. The three infrared types share `IR`.
  function ClassFor(frameType: int): (c: Option<FrameClass>)
    ensures c.None? <==> !(FRAME_VIDEO <= frameType <= FRAME_RAW_PHASE)
    ensures c == Some(IR) <==> frameType == FRAME_IR || frameType == FRAME_IR_LEFT || frameType == FRAME_IR_RIGHT
  {
    if frameType == FRAME_ACCEL then Some(Accel)
    else if frameType == FRAME_COLOR then Some(Color)
    else if frameType == FRAME_DEPTH then Some(Depth)
    else if frameType == FRAME_GYRO then Some(Gyro)
    else if frameType == FRAME_IR || frameType == FRAME_IR_LEFT || frameType == FRAME_IR_RIGHT then Some(IR)
    else if frameType == FRAME_POINTS then Some(Points)
    else if frameType == FRAME_RAW_PHASE then Some(RawPhase)
    else if frameType == FRAME_VIDEO then Some(Video)
    else if frameType == FRAME_SET then Some(Set)
    else None
  }

  /// Apart from `IR`, each subclass comes from exactly one frame type.
  lemma ClassForSingleSource(a: int, b: int)
    requires ClassFor(a).Some? && ClassFor(a) == ClassFor(b) && ClassFor(a) != Some(IR)
    ensures a == b
  {
  }

  /// What the native frame-type getter answers for the frame at `a`.
  function NativeFrameType(s: NativeState, a: Address): int
  {
    if a in s.frames then s.frames[a].frameType else FRAME_UNKNOWN
  }

  /// What a native timestamp getter answers for the frame at `a`.
  function NativeTimestamp(s: NativeState, a: Address, field: TimestampField): uint64
  {
    if a in s.frames then Timestamp(s.frames[a], field) else 0
  }

  /// What a timestamp getter makes of the native value `raw`:
  /// - `DeviceTimestampUsec` is `(long)raw`, negative above long.MaxValue;
  /// - the two millisecond getters give `TimeSpan.FromMilliseconds(raw)`
  ///   as ticks, which throws `OverflowException` when it does not fit.
  function TimestampValue(field: TimestampField, raw: uint64): (r: Result<int>)
    ensures field == DeviceTimestampUs ==> r.Ok? && MIN64 <= r.value <= MAX64 && (r.value - raw) % MODULUS64 == 0
    ensures field == DeviceTimestampUs ==> (r.value < 0 <==> raw > MAX64)
    ensures field != DeviceTimestampUs ==> r == FromMilliseconds(raw)
  {
    if field == DeviceTimestampUs then Ok(AsLong(raw)) else FromMilliseconds(raw)
  }

  /// What a timestamp setter hands to the native setter for a non-negative
  /// `value`: `(ulong)value` microseconds for `DeviceTimestampUsec`, and
  /// `(ulong)Math.Round(value.TotalMilliseconds)` for a span of `value`
  /// ticks otherwise.
  function SentValue(field: TimestampField, value: int64): (v: uint64)
    requires value >= 0
    ensures field == DeviceTimestampUs ==> v == value
    ensures field != DeviceTimestampUs ==> v == RoundMilliseconds(value)
  {
    if field == DeviceTimestampUs then value else
      assert RoundMilliseconds(value) * TICKS_PER_MILLISECOND <= value + TICKS_PER_MILLISECOND / 2;
      RoundMilliseconds(value)
  }

  /// A frame whose timestamp was set and is read back, with no native
  /// error on either side: the microsecond timestamp comes back unchanged,
  /// and a millisecond timestamp comes back as the whole millisecond nearest
  /// to the span that was set, unless that span is within half a
  /// millisecond of `TimeSpan.MaxValue`.
  lemma SetThenGetTimestamp(s: NativeState, a: Address, field: TimestampField, value: int64)
    requires WellFormed(s) && a in s.frames && value >= 0
    requires field != DeviceTimestampUs ==> value <= MAX64 - TICKS_PER_MILLISECOND / 2
    ensures var r := TimestampValue(field, NativeTimestamp(SetTimestampEffect(s, a, field, SentValue(field, value), ErrorPtr.Zero), a, field));
      && r.Ok?
      && (field == DeviceTimestampUs ==> r.value == value)
      && (field != DeviceTimestampUs ==>
            && Distance(r.value, value) <= TICKS_PER_MILLISECOND / 2
            && forall m: nat :: Distance(r.value, value) <= Distance(m * TICKS_PER_MILLISECOND, value))
  {
    if field != DeviceTimestampUs {
      RoundThenFromMilliseconds(value);
    }
  }

  /// The native getter of each timestamp field.
  function TimestampGetter(field: TimestampField): string
  {
    match field
    case DeviceTimestamp => "ob_frame_time_stamp"
    case DeviceTimestampUs => "ob_frame_time_stamp_us"
    case SystemTimestamp => "ob_frame_system_time_stamp"
  }

  /// Each timestamp field has its own native getter.
  lemma TimestampGetterInjective(f: TimestampField, g: TimestampField)
    requires f != g
    ensures TimestampGetter(f) != TimestampGetter(g)
  {
  }

  /// The property name a timestamp setter reports when it refuses a value.
  function TimestampName(field: TimestampField): string
  {
    match field
    case DeviceTimestamp => "DeviceTimestamp"
    case DeviceTimestampUs => "DeviceTimestampUsec"
    case SystemTimestamp => "SystemTimestamp"
  }

  /// `ObFramePtr.AddRef`: the native add-reference call, then `CheckError`.
  method AddRef(lib: NativeSdk, h: Handle, err: ErrorPtr) returns (r: Result<()>)
    requires lib.Valid()
    modifies lib
    ensures lib.Valid() && lib.state == AddRefEffect(old(lib.state), h.address, err)
    ensures lib.calls == old(lib.calls) + [NativeCall(FrameAddRef, h.address, [])] + CheckErrorCalls(err, true)
    ensures r == if Thrown(err).Some? then Throw(Thrown(err).value) else Ok(())
  {
    lib.AddRef(h.address, err);
    r := Check(lib, err);
  }

  class Frame {
    const ptr: PtrWrapper
    /// The subclass of this object.
    const cls: FrameClass
    /// `FrameType`, fixed at construction.
    const frameType: int
    /// Times this frame's own `Disposed` event was raised.
    ghost var disposedRaised: nat

    /// The frame's `Disposed` event follows its wrapper's, so it is raised
    /// at most once.
    ghost predicate Valid()
      reads this, ptr
    {
      ptr.Valid() && ptr.handle.kind == HandleKind.Frame && disposedRaised <= ptr.disposedRaised
    }

    constructor (p: PtrWrapper, c: FrameClass, t: int)
      requires p.Valid() && p.handle.kind == HandleKind.Frame
      ensures Valid() && ptr == p && cls == c && frameType == t && disposedRaised == 0
    {
      ptr := p;
      cls := c;
      frameType := t;
      disposedRaised := 0;
    }

    predicate IsDisposed()
      reads ptr
    {
      ptr.IsDisposed()
    }

    /// `FromNativePtr(ptr, frameType)`: an object of the subclass for
    /// `frameType` over `p`. An unsupported type throws
    /// `NotSupportedException`.
    static method FromNativePtrOfType(p: PtrWrapper, frameType: int) returns (r: Result<Frame>)
      requires p.Valid() && p.handle.kind == HandleKind.Frame
      ensures r.Ok? <==> ClassFor(frameType).Some?
      ensures r.Throw? ==> r.exc == NotSupported
      ensures r.Ok? ==> fresh(r.value) && r.value.Valid() && r.value.ptr == p && r.value.disposedRaised == 0
      ensures r.Ok? ==> r.value.cls == ClassFor(frameType).value && r.value.frameType == frameType
    {
      var c := ClassFor(frameType);
      if c.None? {
        return Throw(NotSupported);
      }
      var f := new Frame(p, c.value, frameType);
      return Ok(f);
    }

    /// `FromNativePtr(ptr)`: reads the frame type through
    /// `Helpers.GetValue`, then dispatches on it.
    static method FromNativePtr(lib: NativeSdk, p: PtrWrapper, typeErr: ErrorPtr) returns (r: Result<Frame>)
      requires lib.Valid() && p.Valid() && p.handle.kind == HandleKind.Frame
      modifies lib
      ensures lib.Valid() && lib.state == old(lib.state) && old(lib.calls) <= lib.calls
      ensures r.Ok? <==> !p.IsDisposed() && Thrown(typeErr).None? && ClassFor(NativeFrameType(lib.state, p.handle.address)).Some?
      ensures r.Ok? ==> fresh(r.value) && r.value.Valid() && r.value.ptr == p && r.value.disposedRaised == 0
      ensures r.Ok? ==> r.value.frameType == NativeFrameType(lib.state, p.handle.address)
      ensures r.Ok? ==> r.value.cls == ClassFor(r.value.frameType).value
      ensures r.Throw? ==>
        r.exc == (if p.IsDisposed() then ObjectDisposed(Describe(p.handle))
                  else if Thrown(typeErr).Some? then Thrown(typeErr).value
                  else NotSupported)
    {
      var t := GetValue(lib, p, "ob_frame_get_type", NativeFrameType(lib.state, p.handle.address), typeErr);
      if t.Throw? {
        return Throw(t.exc);
      }
      r := FromNativePtrOfType(p, t.value);
    }

    /// `FromNativePtr` on a raw frame pointer, through the implicit
    /// conversion to a wrapper. A zero pointer is refused by the wrapper.
    static method FromHandle(lib: NativeSdk, h: Handle, typeErr: ErrorPtr) returns (r: Result<Frame>)
      requires lib.Valid() && h.kind == HandleKind.Frame
      modifies lib
      ensures lib.Valid() && lib.state == old(lib.state) && old(lib.calls) <= lib.calls
      ensures h.address == 0 ==> r == Throw(ArgumentInvalid("ptr"))
      ensures r.Ok? <==> h.address != 0 && Thrown(typeErr).None? && ClassFor(NativeFrameType(lib.state, h.address)).Some?
      ensures r.Ok? ==> fresh(r.value) && fresh(r.value.ptr) && r.value.Valid() && r.value.ptr.handle == h
      ensures r.Ok? ==> !r.value.IsDisposed() && r.value.disposedRaised == 0
      ensures r.Ok? ==> r.value.frameType == NativeFrameType(lib.state, h.address)
      ensures r.Ok? ==> r.value.cls == ClassFor(r.value.frameType).value
    {
      var w := PtrWrapper.Create(h);
      if w.Throw? {
        return Throw(w.exc);
      }
      r := FromNativePtr(lib, w.value, typeErr);
    }

    /// `FromNativePtrNullable`: `null` for the zero pointer, otherwise
    /// `FromNativePtr`.
    static method FromNativePtrNullable(lib: NativeSdk, h: Handle, typeErr: ErrorPtr) returns (r: Result<Option<Frame>>)
      requires lib.Valid() && h.kind == HandleKind.Frame
      modifies lib
      ensures lib.Valid() && lib.state == old(lib.state)
      ensures h.address == 0 ==> r == Ok(None) && lib.calls == old(lib.calls)
      ensures h.address != 0 ==> (r.Ok? <==> Thrown(typeErr).None? && ClassFor(NativeFrameType(lib.state, h.address)).Some?)
      ensures r.Ok? && r.value.Some? ==> fresh(r.value.value) && r.value.value.Valid() && r.value.value.ptr.handle == h
    {
      if h.address == 0 {
        return Ok(None);
      }
      var f := FromHandle(lib, h, typeErr);
      if f.Throw? {
        return Throw(f.exc);
      }
      return Ok(Some(f.value));
    }

    /// `Dispose`: disposes the wrapper. The wrapper's first successful
    /// release raises this frame's `Disposed` event through the handler
    /// the constructor attached.
    method Dispose(lib: NativeSdk, err: ErrorPtr) returns (r: Result<()>)
      requires Valid() && lib.Valid()
      modifies this, ptr, lib
      ensures Valid() && lib.Valid() && IsDisposed()
      ensures r == if !old(IsDisposed()) && err.Error? then Throw(InvalidOperation) else Ok(())
      ensures disposedRaised == old(disposedRaised) + (if !old(IsDisposed()) && err.Zero? then 1 else 0)
      ensures old(IsDisposed()) ==> lib.state == old(lib.state) && lib.calls == old(lib.calls)
      ensures !old(IsDisposed()) ==> lib.state == ReleaseEffect(old(lib.state), ptr.handle.address, err)
    {
      var raised;
      r, raised := ptr.Dispose(lib, err);
      if raised {
        disposedRaised := disposedRaised + 1;
      }
    }

    /// `DuplicateReference`: a new frame object over the same native frame,
    /// holding a reference of its own.
    /// - The native reference is added first.
    /// - If building the new object then fails, the new wrapper is disposed,
    ///   which gives the reference back, and the exception is rethrown.
    /// - This frame is not changed.
    method DuplicateReference(lib: NativeSdk, addRefErr: ErrorPtr, typeErr: ErrorPtr, releaseErr: ErrorPtr)
      returns (r: Result<Frame>)
      requires Valid() && lib.Valid()
      modifies lib
      ensures lib.Valid()
      ensures IsDisposed() ==>
        r == Throw(ObjectDisposed(Describe(ptr.handle))) && lib.state == old(lib.state) && lib.calls == old(lib.calls)
      ensures !IsDisposed() && Thrown(addRefErr).Some? ==>
        r == Throw(Thrown(addRefErr).value) && lib.state == AddRefEffect(old(lib.state), ptr.handle.address, addRefErr)
      ensures r.Ok? <==> (!IsDisposed() && Thrown(addRefErr).None? && Thrown(typeErr).None?
        && ClassFor(NativeFrameType(old(lib.state), ptr.handle.address)).Some?)
      ensures r.Ok? ==> fresh(r.value) && fresh(r.value.ptr) && r.value.Valid() && !r.value.IsDisposed()
      ensures r.Ok? ==> Equals(r.value) && r.value.frameType == NativeFrameType(old(lib.state), ptr.handle.address)
      ensures r.Ok? ==> lib.state == AddRefEffect(old(lib.state), ptr.handle.address, addRefErr)
      ensures !IsDisposed() && Thrown(addRefErr).None? && r.Throw? ==>
        && lib.state == ReleaseEffect(AddRefEffect(old(lib.state), ptr.handle.address, addRefErr), ptr.handle.address, releaseErr)
        && r.exc == (if releaseErr.Error? then InvalidOperation
                     else if Thrown(typeErr).Some? then Thrown(typeErr).value else NotSupported)
      ensures !IsDisposed() && addRefErr.Zero? && releaseErr.Zero? && ptr.handle.address in old(lib.state.refs) && r.Throw? ==>
        lib.state == old(lib.state)
    {
      var h := ptr.ValueNotDisposed();
      if h.Throw? {
        return Throw(h.exc);
      }
      var added := AddRef(lib, h.value, addRefErr);
      if added.Throw? {
        return Throw(added.exc);
      }
      var refPtr := new PtrWrapper(h.value);
      r := FromNativePtr(lib, refPtr, typeErr);
      if r.Throw? {
        var disposed, _ := refPtr.Dispose(lib, releaseErr);
        if disposed.Throw? {
          r := Throw(disposed.exc);
        }
        if addRefErr.Zero? && releaseErr.Zero? && h.value.address in old(lib.state.refs) {
          AddRefThenRelease(old(lib.state), h.value.address);
        }
      }
    }

    /// `ReinterpretAs<T>()`: like `DuplicateReference`, but the new object
    /// has the requested subclass and keeps this frame's `FrameType`.
    /// `target` is `None` when `T` is `Frame` itself, which is not supported.
    method ReinterpretAs(lib: NativeSdk, target: Option<FrameClass>, addRefErr: ErrorPtr, releaseErr: ErrorPtr)
      returns (r: Result<Frame>)
      requires Valid() && lib.Valid()
      modifies lib
      ensures lib.Valid()
      ensures IsDisposed() ==>
        r == Throw(ObjectDisposed(Describe(ptr.handle))) && lib.state == old(lib.state) && lib.calls == old(lib.calls)
      ensures r.Ok? <==> !IsDisposed() && Thrown(addRefErr).None? && target.Some?
      ensures r.Ok? ==> fresh(r.value) && fresh(r.value.ptr) && r.value.Valid() && !r.value.IsDisposed()
      ensures r.Ok? ==> Equals(r.value) && r.value.cls == target.value && r.value.frameType == frameType
      ensures r.Ok? ==> lib.state == AddRefEffect(old(lib.state), ptr.handle.address, addRefErr)
      ensures !IsDisposed() && Thrown(addRefErr).None? && target.None? ==>
        && lib.state == ReleaseEffect(AddRefEffect(old(lib.state), ptr.handle.address, addRefErr), ptr.handle.address, releaseErr)
        && r == Throw(if releaseErr.Error? then InvalidOperation else NotSupported)
    {
      var h := ptr.ValueNotDisposed();
      if h.Throw? {
        return Throw(h.exc);
      }
      var added := AddRef(lib, h.value, addRefErr);
      if added.Throw? {
        return Throw(added.exc);
      }
      var refPtr := new PtrWrapper(h.value);
      if target.None? {
        var disposed, _ := refPtr.Dispose(lib, releaseErr);
        if disposed.Throw? {
          return Throw(disposed.exc);
        }
        return Throw(NotSupported);
      }
      var f := new Frame(refPtr, target.value, frameType);
      return Ok(f);
    }

    /// `Equals(Frame?)`: both frames view the same native frame.
    predicate Equals(other: Frame?)
    {
      other != null && other.ptr.handle.address == ptr.handle.address
    }

    /// `operator ==`.
    static predicate OpEquals(left: Frame?, right: Frame?)
    {
      (left == null && right == null) || (left != null && left.Equals(right))
    }

    /// `GetHashCode`: the wrapper's hash.
    function GetHashCode(): int32
    {
      ptr.GetHashCode()
    }

    /// `NativePtr`: the wrapped pointer while the frame is not disposed.
    method NativePtr() returns (r: Result<Handle>)
      ensures !IsDisposed() ==> r == Ok(ptr.handle)
      ensures IsDisposed() ==> r == Throw(ObjectDisposed(Describe(ptr.handle)))
    {
      r := ptr.ValueNotDisposed();
    }

    /// The `DeviceTimestamp`, `DeviceTimestampUsec` and `SystemTimestamp`
    /// getters. Each reads its own native field through `Helpers.GetValue`
    /// and converts it as `TimestampValue` says.
    method GetTimestamp(lib: NativeSdk, field: TimestampField, err: ErrorPtr) returns (r: Result<int>)
      requires Valid() && lib.Valid()
      modifies lib
      ensures lib.Valid() && lib.state == old(lib.state)
      ensures var g := GetValueResult(IsDisposed(), ptr.handle, NativeTimestamp(lib.state, ptr.handle.address, field), err);
        r == if g.Throw? then Throw(g.exc) else TimestampValue(field, g.value)
      ensures IsDisposed() ==> lib.calls == old(lib.calls)
      ensures !IsDisposed() ==>
        lib.calls == old(lib.calls) + [NativeCall(Getter(TimestampGetter(field)), ptr.handle.address, [])] + CheckErrorCalls(err, true)
    {
      var g := GetValue(lib, ptr, TimestampGetter(field), NativeTimestamp(lib.state, ptr.handle.address, field), err);
      if g.Throw? {
        return Throw(g.exc);
      }
      r := TimestampValue(field, g.value);
    }

    /// The three timestamp setters. `value` is the `long` microseconds of
    /// `DeviceTimestampUsec`, and the `TimeSpan` ticks of the other two.
    /// - A negative value throws `ArgumentOutOfRangeException` before
    ///   anything else, even on a disposed frame. A span is negative
    ///   exactly when its `TotalMilliseconds` is.
    /// - Otherwise `SentValue` goes to the native setter of that one field.
    method SetTimestamp(lib: NativeSdk, field: TimestampField, value: int64, err: ErrorPtr) returns (r: Result<()>)
      requires Valid() && lib.Valid()
      modifies lib
      ensures lib.Valid()
      ensures value < 0 ==>
        r == Throw(ArgumentOutOfRange(TimestampName(field))) && lib.state == old(lib.state) && lib.calls == old(lib.calls)
      ensures value >= 0 && IsDisposed() ==>
        r == Throw(ObjectDisposed(Describe(ptr.handle))) && lib.state == old(lib.state) && lib.calls == old(lib.calls)
      ensures value >= 0 && !IsDisposed() ==>
        && lib.state == SetTimestampEffect(old(lib.state), ptr.handle.address, field, SentValue(field, value), err)
        && lib.calls == old(lib.calls) + [NativeCall(FrameSetTimestamp(field), ptr.handle.address, [SentValue(field, value)])]
             + CheckErrorCalls(err, true)
        && r == if Thrown(err).Some? then Throw(Thrown(err).value) else Ok(())
    {
      if value < 0 {
        return Throw(ArgumentOutOfRange(TimestampName(field)));
      }
      var v := SentValue(field, value);
      var h := ptr.ValueNotDisposed();
      if h.Throw? {
        return Throw(h.exc);
      }
      lib.SetTimestamp(h.value.address, field, v, err);
      r := Check(lib, err);
    }

    /// `Create(format, width, height, strideBytes, frameType)`: a new native
    /// frame of the requested type, wrapped by `FromNativePtr`.
    static method Create(lib: NativeSdk, format: int, width: int32, height: int32, strideBytes: int32, frameType: int,
                         a: Address, createErr: ErrorPtr, typeErr: ErrorPtr)
      returns (r: Result<Frame>)
      requires lib.Valid()
      modifies lib
      ensures lib.Valid()
      ensures |lib.calls| > |old(lib.calls)|
      ensures lib.calls[|old(lib.calls)|] == NativeCall(Fn.CreateFrame, 0, [format, width, height, strideBytes, frameType])
      ensures Thrown(createErr).Some? ==> r == Throw(Thrown(createErr).value) && lib.state == old(lib.state)
      ensures createErr.Zero? && a != 0 && a !in old(lib.state.refs) ==>
        && a in lib.state.frames && lib.state.refs[a] == 1 && lib.state.frames[a] == FrameData(frameType, 0, 0, 0, None)
        && (r.Ok? <==> Thrown(typeErr).None? && ClassFor(frameType).Some?)
        && (r.Ok? ==> r.value.frameType == frameType && r.value.cls == ClassFor(frameType).value)
      ensures r.Ok? ==> Thrown(createErr).None? && a != 0
      ensures r.Ok? ==> fresh(r.value) && r.value.Valid() && !r.value.IsDisposed() && r.value.ptr.handle == Handle(HandleKind.Frame, a)
    {
      lib.CreateFrame(Fn.CreateFrame, a, frameType, None, [format, width, height, strideBytes, frameType], createErr);
      var c := Check(lib, createErr);
      if c.Throw? {
        return Throw(c.exc);
      }
      r := FromHandle(lib, Handle(HandleKind.Frame, a), typeErr);
    }

    /// `CreateFromArray<T>(buffer, format, width, height)`.
    /// - It pins the array and asks the SDK for a frame over it. The frame's
    ///   destroy callback unpins the array.
    /// - The byte size is `buffer.Length * sizeof(T)` in unchecked 32-bit
    ///   arithmetic, passed as `uint`.
    /// - If the SDK reports an error, the exception is thrown and the pin is
    ///   not freed.
    static method CreateFromArray(lib: NativeSdk, bufferLength: nat, elementSize: nat, format: int,
                                  width: int32, height: int32, a: Address, nativeType: int,
                                  createErr: ErrorPtr, typeErr: ErrorPtr)
      returns (r: Result<Frame>, pin: PinId)
      requires lib.Valid()
      modifies lib
      ensures lib.Valid()
      ensures pin !in old(lib.state.pinned) && pin in lib.state.pinned
      ensures |lib.calls| > |old(lib.calls)|
      ensures lib.calls[|old(lib.calls)|] == NativeCall(Fn.CreateFrameFromBuffer, 0,
        [format, WrapUnsigned(width), WrapUnsigned(height), WrapUnsigned(Wrap(bufferLength * elementSize))])
      ensures Thrown(createErr).Some? ==> r == Throw(Thrown(createErr).value)
      ensures Thrown(createErr).Some? ==>
        pin in lib.state.pinned && forall b :: b in lib.state.frames ==> lib.state.frames[b].pin != Some(pin)
      ensures createErr.Zero? && a != 0 && a !in old(lib.state.refs) ==>
        && a in lib.state.frames && lib.state.refs[a] == 1 && lib.state.frames[a] == FrameData(nativeType, 0, 0, 0, Some(pin))
        && (r.Ok? <==> Thrown(typeErr).None? && ClassFor(nativeType).Some?)
      ensures r.Ok? ==> Thrown(createErr).None? && a != 0
      ensures r.Ok? ==> fresh(r.value) && r.value.Valid() && !r.value.IsDisposed() && r.value.ptr.handle == Handle(HandleKind.Frame, a)
    {
      var sizeBytes := Wrap(bufferLength * elementSize);
      pin := lib.AllocPinned();
      lib.CreateFrame(Fn.CreateFrameFromBuffer, a, nativeType, Some(pin), [format, WrapUnsigned(width), WrapUnsigned(height), WrapUnsigned(sizeBytes)], createErr);
      var c := Check(lib, createErr);
      if c.Throw? {
        return Throw(c.exc), pin;
      }
      r := FromHandle(lib, Handle(HandleKind.Frame, a), typeErr);
    }
  }

  /// A duplicate made by `DuplicateReference` keeps the native frame alive
  /// after the original is disposed. The pair of calls leaves the native
  /// state as it was, and the duplicate now holds the original's reference.
  method DuplicateOutlivesOriginal(lib: NativeSdk, f: Frame, addRefErr: ErrorPtr, typeErr: ErrorPtr,
                                   releaseErr: ErrorPtr, disposeErr: ErrorPtr)
    returns (dup: Result<Frame>)
    requires f.Valid() && lib.Valid() && !f.IsDisposed() && f.ptr.handle.address in lib.state.refs
    modifies lib, f, f.ptr
    ensures f.IsDisposed()
    ensures dup.Ok? ==> dup.value.Valid() && !dup.value.IsDisposed() && dup.value.Equals(f)
    ensures dup.Ok? && addRefErr.Zero? && disposeErr.Zero? ==>
      lib.state == old(lib.state) && f.ptr.handle.address in lib.state.refs
  {
    dup := f.DuplicateReference(lib, addRefErr, typeErr, releaseErr);
    var _ := f.Dispose(lib, disposeErr);
    if dup.Ok? && addRefErr.Zero? && disposeErr.Zero? {
      AddRefThenRelease(old(lib.state), f.ptr.handle.address);
    }
  }
}
