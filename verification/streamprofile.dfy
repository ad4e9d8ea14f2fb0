/// `StreamProfile` and its sealed subclasses `Video`, `Accel` and `Gyro`.
/// The subclass of a profile is chosen by the native stream type. Each
/// subclass accepts only the stream types it is compatible with.
module StreamProfiles {
  import opened Base
  import opened Int32
  import opened ObTypes
  import opened Native
  import opened ObException
  import opened PtrWrappers
  import opened Helpers

  /// `StreamType` codes.
  const STREAM_UNKNOWN: int := -1
  const STREAM_VIDEO: int := 0
  const STREAM_IR: int := 1
  const STREAM_COLOR: int := 2
  const STREAM_DEPTH: int := 3
  const STREAM_ACCEL: int := 4
  const STREAM_GYRO: int := 5
  const STREAM_IR_LEFT: int := 6
  const STREAM_IR_RIGHT: int := 7
  const STREAM_RAW_PHASE: int := 8

  datatype ProfileClass = Video | Accel | Gyro

  /// `Video.IsCompatibleWith`: every image stream.
  predicate VideoIsCompatibleWith(streamType: int)
  {
    || streamType == STREAM_COLOR || streamType == STREAM_DEPTH || streamType == STREAM_IR
    || streamType == STREAM_IR_LEFT || streamType == STREAM_IR_RIGHT || streamType == STREAM_RAW_PHASE
    || streamType == STREAM_VIDEO
  }

  /// `Accel.IsCompatibleWith`
  predicate AccelIsCompatibleWith(streamType: int)
  {
    streamType == STREAM_ACCEL
  }

  /// `Gyro.IsCompatibleWith`
  predicate GyroIsCompatibleWith(streamType: int)
  {
    streamType == STREAM_GYRO
  }

  /// `IsSupportedStreamType` of each subclass: its own `IsCompatibleWith`.
  predicate IsSupportedStreamType(cls: ProfileClass, streamType: int)
  {
    match cls
    case Video => VideoIsCompatibleWith(streamType)
    case Accel => AccelIsCompatibleWith(streamType)
    case Gyro => GyroIsCompatibleWith(streamType)
  }

  /// The subclass `FromNativePtr` picks: it asks `Video`, then `Accel`, then
  /// `Gyro`.
  function ClassFor(streamType: int): (c: Option<ProfileClass>)
    ensures c.Some? ==> IsSupportedStreamType(c.value, streamType)
    ensures c.None? <==>
      !IsSupportedStreamType(Video, streamType) && !IsSupportedStreamType(Accel, streamType) && !IsSupportedStreamType(Gyro, streamType)
  {
    if VideoIsCompatibleWith(streamType) then Some(Video)
    else if AccelIsCompatibleWith(streamType) then Some(Accel)
    else if GyroIsCompatibleWith(streamType) then Some(Gyro)
    else None
  }

  /// The three compatible sets are disjoint and together hold exactly the
  /// named stream types other than `Unknown`. So the order `FromNativePtr`
  /// asks in does not matter: a type has at most one subclass.
  lemma CompatibleSetsPartitionStreamTypes(streamType: int, a: ProfileClass, b: ProfileClass)
    ensures IsSupportedStreamType(a, streamType) && IsSupportedStreamType(b, streamType) ==> a == b
    ensures ClassFor(streamType).Some? <==> STREAM_VIDEO <= streamType <= STREAM_RAW_PHASE
    ensures IsSupportedStreamType(a, streamType) ==> ClassFor(streamType) == Some(a)
  {
  }

  class StreamProfile {
    const ptr: PtrWrapper
    const cls: ProfileClass
    /// `StreamType`, stored exactly as given.
    const streamType: int
    /// Whether the handler forwarding the wrapper's `Disposed` event is
    /// still attached.
    var forwarding: bool
    /// Times this profile's own `Disposed` event was raised.
    ghost var disposedRaised: nat

    /// The profile forwards its wrapper's single `Disposed` event, and the
    /// handler detaches itself when it runs.
    ghost predicate Valid()
      reads this, ptr
    {
      && ptr.Valid() && ptr.handle.kind == HandleKind.StreamProfile
      && IsSupportedStreamType(cls, streamType)
      && disposedRaised == ptr.disposedRaised
      && (forwarding <==> disposedRaised == 0)
    }

    constructor Make(p: PtrWrapper, c: ProfileClass, t: int)
      requires p.Valid() && p.handle.kind == HandleKind.StreamProfile && !p.IsDisposed()
      requires IsSupportedStreamType(c, t)
      ensures Valid() && ptr == p && cls == c && streamType == t && disposedRaised == 0
    {
      ptr := p;
      cls := c;
      streamType := t;
      forwarding := true;
      disposedRaised := 0;
    }

    predicate IsDisposed()
      reads ptr
    {
      ptr.IsDisposed()
    }

    /// The subclass constructors `Video(ptr, streamType)`,
    /// `Accel(ptr, streamType)` and `Gyro(ptr, streamType)`. An incompatible
    /// stream type throws `ArgumentException`.
    static method Create(p: PtrWrapper, c: ProfileClass, t: int) returns (r: Result<StreamProfile>)
      requires p.Valid() && p.handle.kind == HandleKind.StreamProfile && !p.IsDisposed()
      ensures r.Ok? <==> IsSupportedStreamType(c, t)
      ensures r.Throw? ==> r.exc == ArgumentInvalid("streamType")
      ensures r.Ok? ==> fresh(r.value) && r.value.Valid() && r.value.ptr == p && r.value.cls == c && r.value.streamType == t
    {
      if !IsSupportedStreamType(c, t) {
        return Throw(ArgumentInvalid("streamType"));
      }
      var sp := new StreamProfile.Make(p, c, t);
      return Ok(sp);
    }

    /// The subclass constructors `Video(ptr)`, `Accel(ptr)` and `Gyro(ptr)`:
    /// the stream type is read from the native profile first.
    static method CreateFromNative(lib: NativeSdk, p: PtrWrapper, c: ProfileClass, nativeType: int, typeErr: ErrorPtr)
      returns (r: Result<StreamProfile>)
      requires lib.Valid() && p.Valid() && p.handle.kind == HandleKind.StreamProfile
      modifies lib
      ensures lib.Valid() && lib.state == old(lib.state) && old(lib.calls) <= lib.calls
      ensures r.Ok? <==> !p.IsDisposed() && Thrown(typeErr).None? && IsSupportedStreamType(c, nativeType)
      ensures r.Throw? ==>
        r.exc == (if p.IsDisposed() then ObjectDisposed(Describe(p.handle))
                  else if Thrown(typeErr).Some? then Thrown(typeErr).value
                  else ArgumentInvalid("streamType"))
      ensures r.Ok? ==> fresh(r.value) && r.value.Valid() && r.value.ptr == p && r.value.cls == c && r.value.streamType == nativeType
    {
      var t := GetValue(lib, p, "ob_stream_profile_get_type", nativeType, typeErr);
      if t.Throw? {
        return Throw(t.exc);
      }
      r := Create(p, c, t.value);
    }

    /// `FromNativePtr`: reads the stream type and builds the first subclass
    /// compatible with it. A type no subclass supports throws
    /// `NotSupportedException`.
    static method FromNativePtr(lib: NativeSdk, p: PtrWrapper, nativeType: int, typeErr: ErrorPtr)
      returns (r: Result<StreamProfile>)
      requires lib.Valid() && p.Valid() && p.handle.kind == HandleKind.StreamProfile
      modifies lib
      ensures lib.Valid() && lib.state == old(lib.state) && old(lib.calls) <= lib.calls
      ensures r.Ok? <==> !p.IsDisposed() && Thrown(typeErr).None? && ClassFor(nativeType).Some?
      ensures r.Throw? ==>
        r.exc == (if p.IsDisposed() then ObjectDisposed(Describe(p.handle))
                  else if Thrown(typeErr).Some? then Thrown(typeErr).value
                  else NotSupported)
      ensures r.Ok? ==> fresh(r.value) && r.value.Valid() && r.value.ptr == p
      ensures r.Ok? ==> r.value.cls == ClassFor(nativeType).value && r.value.streamType == nativeType
    {
      var t := GetValue(lib, p, "ob_stream_profile_get_type", nativeType, typeErr);
      if t.Throw? {
        return Throw(t.exc);
      }
      var c := ClassFor(t.value);
      if c.None? {
        return Throw(NotSupported);
      }
      var sp := new StreamProfile.Make(p, c.value, t.value);
      return Ok(sp);
    }

    /// `Dispose`: disposes the wrapper. Its first successful release runs
    /// the forwarding handler, which detaches itself and raises this
    /// profile's `Disposed` event.
    method Dispose(lib: NativeSdk, err: ErrorPtr) returns (r: Result<()>)
      requires Valid() && lib.Valid()
      modifies this, ptr, lib
      ensures Valid() && lib.Valid() && IsDisposed()
      ensures r == if !old(IsDisposed()) && err.Error? then Throw(InvalidOperation) else Ok(())
      ensures disposedRaised == old(disposedRaised) + (if !old(IsDisposed()) && err.Zero? then 1 else 0)
      ensures disposedRaised <= 1
      ensures old(IsDisposed()) ==> lib.state == old(lib.state) && lib.calls == old(lib.calls)
      ensures !old(IsDisposed()) ==> lib.state == ReleaseEffect(old(lib.state), ptr.handle.address, err)
    {
      var raised;
      r, raised := ptr.Dispose(lib, err);
      if raised && forwarding {
        forwarding := false;
        disposedRaised := disposedRaised + 1;
      }
    }

    /// `NativePtr`
    method NativePtr() returns (r: Result<Handle>)
      ensures !IsDisposed() ==> r == Ok(ptr.handle)
      ensures IsDisposed() ==> r == Throw(ObjectDisposed(Describe(ptr.handle)))
    {
      r := ptr.ValueNotDisposed();
    }

    /// `GetHashCode`: the wrapper's hash.
    function GetHashCode(): int32
    {
      ptr.GetHashCode()
    }
  }
}
