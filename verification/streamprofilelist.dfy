/// `StreamProfileList`: the stream profiles of a sensor. Its count, bounds
/// check and disposal are the shared `NativeList`. Each item is a new
/// `StreamProfile` over a profile the native list hands out, typed by the
/// profile's native stream type.
module StreamProfileLists {
  import opened Base
  import opened Int32
  import opened ObTypes
  import opened Native
  import opened ObException
  import opened PtrWrappers
  import opened NativeLists
  import opened StreamProfiles

  /// The "any" values of the profile queries. The integer ones and the
  /// range and rate ones are the default value 0. The format is `Unknown`,
  /// whose code is `0xFF`.
  const WIDTH_ANY: int32 := 0
  const HEIGHT_ANY: int32 := 0
  const OB_FPS_ANY: int32 := 0
  const FORMAT_ANY: int := 0xFF
  const ACCEL_FULL_SCALE_RANGE_ANY: int := 0
  const GYRO_FULL_SCALE_RANGE_ANY: int := 0
  const SAMPLE_RATE_ANY: int := 0

  /// The profile of a successful query: `Ok(c)` when the profile object
  /// built over `a` has subclass `c`, or what was thrown on the way.
  /// - The list must not be disposed.
  /// - The native getter must not report an error.
  /// - The pointer must not be zero.
  /// - The stream type must be read without error.
  /// - The type must fit a subclass. With `cls` set, it must fit that
  ///   subclass; otherwise the first that fits is taken.
  function ProfileOutcome(disposed: bool, h: Handle, a: Address, err: ErrorPtr, cls: Option<ProfileClass>,
                          nativeType: int, typeErr: ErrorPtr): (r: Result<ProfileClass>)
    ensures disposed ==> r == Throw(ObjectDisposed(Describe(h)))
    ensures r.Ok? <==>
      && !disposed && Thrown(err).None? && a != 0 && Thrown(typeErr).None?
      && (if cls.Some? then IsSupportedStreamType(cls.value, nativeType) else ClassFor(nativeType).Some?)
    ensures r.Ok? ==> IsSupportedStreamType(r.value, nativeType) && (cls.Some? ==> r.value == cls.value)
  {
    if disposed then Throw(ObjectDisposed(Describe(h)))
    else if Thrown(err).Some? then Throw(Thrown(err).value)
    else if a == 0 then Throw(ArgumentInvalid("ptr"))
    else if Thrown(typeErr).Some? then Throw(Thrown(typeErr).value)
    else if cls.Some? then
      (if IsSupportedStreamType(cls.value, nativeType) then Ok(cls.value) else Throw(ArgumentInvalid("streamType")))
    else if ClassFor(nativeType).Some? then Ok(ClassFor(nativeType).value)
    else Throw(NotSupported)
  }

  /// The shared tail of the indexer and the three typed queries: call
  /// `fn`, check its error, wrap the returned pointer (refusing zero), and
  /// build the profile object. `cls` is the subclass the caller constructs
  /// (`new(ptr)` of that subclass), or `None` for `FromNativePtr`.
  method AcquireProfile(lib: NativeSdk, list: NativeList, fn: string, args: seq<int>, cls: Option<ProfileClass>,
                        a: Address, err: ErrorPtr, nativeType: int, typeErr: ErrorPtr)
    returns (r: Result<StreamProfile>)
    requires list.Valid() && lib.Valid()
    modifies lib
    ensures lib.Valid()
    ensures list.ptr.IsDisposed() ==> lib.state == old(lib.state) && lib.calls == old(lib.calls)
    ensures !list.ptr.IsDisposed() ==>
      && old(lib.calls) + [NativeCall(Getter(fn), list.ptr.handle.address, args)] <= lib.calls
      && lib.state.refs == (if err.Error? || a == 0 || a in old(lib.state.refs) then old(lib.state.refs) else old(lib.state.refs)[a := 1])
    ensures var outcome := ProfileOutcome(list.ptr.IsDisposed(), list.ptr.handle, a, err, cls, nativeType, typeErr);
      && (r.Ok? <==> outcome.Ok?)
      && (r.Throw? ==> r.exc == outcome.exc)
      && (r.Ok? ==>
            && fresh(r.value) && r.value.Valid() && r.value.ptr.handle == Handle(HandleKind.StreamProfile, a)
            && !r.value.IsDisposed() && r.value.cls == outcome.value && r.value.streamType == nativeType)
  {
    var h := list.ptr.ValueNotDisposed();
    if h.Throw? {
      return Throw(h.exc);
    }
    lib.Acquire(Getter(fn), h.value.address, args, a, err);
    var c := Check(lib, err);
    if c.Throw? {
      return Throw(c.exc);
    }
    var w := PtrWrapper.Create(Handle(HandleKind.StreamProfile, a));
    if w.Throw? {
      return Throw(w.exc);
    }
    if cls.Some? {
      r := StreamProfile.CreateFromNative(lib, w.value, cls.value, nativeType, typeErr);
    } else {
      r := StreamProfile.FromNativePtr(lib, w.value, nativeType, typeErr);
    }
  }

  /// `this[index]`: the bounds check, which may read `Count`, then the
  /// profile at `index` through `StreamProfile.FromNativePtr`. No native
  /// call is made for an index out of range.
  method Get(lib: NativeSdk, list: NativeList, index: int, a: Address, err: ErrorPtr, nativeType: int, typeErr: ErrorPtr,
             countErr: ErrorPtr)
    returns (r: Result<StreamProfile>)
    requires list.Valid() && lib.Valid() && list.ptr.handle.kind == HandleKind.StreamProfileList
    modifies list, lib
    ensures list.Valid() && lib.Valid()
    ensures list.forwarding == old(list.forwarding) && list.disposedRaised == old(list.disposedRaised)
    ensures index < 0 ==> r == Throw(IndexOutOfRange) && list.lazyCount == old(list.lazyCount) && lib.calls == old(lib.calls)
    ensures index >= 0 ==>
      list.lazyCount == (if old(list.lazyCount).NotCreated? then CountOutcome(list.ptr.IsDisposed(), list.ptr.handle, list.nativeCount, countErr) else old(list.lazyCount))
    ensures index >= 0 ==>
      var bounds := BoundsCheck(index, Forced(list.lazyCount));
      && (bounds.Throw? ==>
            && r == Throw(bounds.exc) && lib.state == old(lib.state)
            && lib.calls == old(lib.calls) + CountCalls(old(list.lazyCount).NotCreated?, list.ptr.IsDisposed(), list.ptr.handle, countErr))
      && (bounds.Ok? ==>
            var outcome := ProfileOutcome(list.ptr.IsDisposed(), list.ptr.handle, a, err, None, nativeType, typeErr);
            && (r.Ok? <==> outcome.Ok?)
            && (r.Throw? ==> r.exc == outcome.exc)
            && (r.Ok? ==>
                  && fresh(r.value) && r.value.Valid() && r.value.ptr.handle == Handle(HandleKind.StreamProfile, a)
                  && r.value.cls == outcome.value && r.value.streamType == nativeType))
  {
    var b := list.CheckIndex(lib, index, countErr);
    if b.Throw? {
      return Throw(b.exc);
    }
    r := AcquireProfile(lib, list, "ob_stream_profile_list_get_profile", [index], None, a, err, nativeType, typeErr);
  }

  /// A profile the enumerator yielded for native pointer `a` and stream
  /// type `t`: a live object of the subclass for `t`.
  ghost predicate Yielded(p: StreamProfile, a: Address, t: int)
    reads p, p.ptr
  {
    && p.Valid() && p.ptr.handle == Handle(HandleKind.StreamProfile, a)
    && ClassFor(t).Some? && p.cls == ClassFor(t).value && p.streamType == t
  }

  /// One step of the enumerator: `this[index]` once `Count` is known and
  /// the index is below it. The bounds check then passes without a native
  /// call, and the outcome is the profile's own.
  method NextProfile(lib: NativeSdk, list: NativeList, index: int, a: Address, err: ErrorPtr, nativeType: int,
                     typeErr: ErrorPtr, countErr: ErrorPtr)
    returns (r: Result<StreamProfile>)
    requires list.Valid() && lib.Valid() && list.ptr.handle.kind == HandleKind.StreamProfileList
    requires list.lazyCount.Created? && 0 <= index < list.lazyCount.value
    modifies list, lib
    ensures list.Valid() && lib.Valid() && list.lazyCount == old(list.lazyCount)
    ensures list.forwarding == old(list.forwarding) && list.disposedRaised == old(list.disposedRaised)
    ensures var outcome := ProfileOutcome(list.ptr.IsDisposed(), list.ptr.handle, a, err, None, nativeType, typeErr);
      && (r.Ok? <==> outcome.Ok?)
      && (r.Throw? ==> r.exc == outcome.exc)
      && (r.Ok? ==> fresh(r.value) && Yielded(r.value, a, nativeType))
  {
    r := Get(lib, list, index, a, err, nativeType, typeErr, countErr);
  }

  /// The loop of the enumerator once `Count` is known: `this[0]`,
  /// `this[1]`, … until `Count` profiles are out or one throws.
  method YieldProfiles(lib: NativeSdk, list: NativeList, addrs: seq<Address>, errs: seq<ErrorPtr>, types: seq<int>,
                       typeErrs: seq<ErrorPtr>, countErr: ErrorPtr)
    returns (items: seq<StreamProfile>, r: Result<()>)
    requires list.Valid() && lib.Valid() && list.ptr.handle.kind == HandleKind.StreamProfileList && list.lazyCount.Created?
    requires var n := Span(list.lazyCount.value); |addrs| >= n && |errs| >= n && |types| >= n && |typeErrs| >= n
    modifies list, lib
    ensures list.Valid() && lib.Valid() && list.lazyCount == old(list.lazyCount)
    ensures list.forwarding == old(list.forwarding) && list.disposedRaised == old(list.disposedRaised)
    ensures |items| <= Span(list.lazyCount.value)
    ensures forall i :: 0 <= i < |items| ==>
      ProfileOutcome(list.ptr.IsDisposed(), list.ptr.handle, addrs[i], errs[i], None, types[i], typeErrs[i]).Ok?
    ensures forall i :: 0 <= i < |items| ==> fresh(items[i]) && Yielded(items[i], addrs[i], types[i])
    ensures |items| < Span(list.lazyCount.value) ==>
      var k := |items|;
      var failed := ProfileOutcome(list.ptr.IsDisposed(), list.ptr.handle, addrs[k], errs[k], None, types[k], typeErrs[k]);
      failed.Throw? && r == Throw(failed.exc)
    ensures |items| == Span(list.lazyCount.value) ==> r == Ok(())
  {
    items := [];
    var n := list.lazyCount.value;
    var i := 0;
    while i < n
      invariant list.Valid() && lib.Valid() && list.lazyCount == old(list.lazyCount)
      invariant 0 <= i <= Span(n) && |items| == i
      invariant list.forwarding == old(list.forwarding) && list.disposedRaised == old(list.disposedRaised)
      invariant forall k :: 0 <= k < i ==>
        ProfileOutcome(list.ptr.IsDisposed(), list.ptr.handle, addrs[k], errs[k], None, types[k], typeErrs[k]).Ok?
      invariant forall k :: 0 <= k < i ==> fresh(items[k]) && Yielded(items[k], addrs[k], types[k])
    {
      var item := NextProfile(lib, list, i, addrs[i], errs[i], types[i], typeErrs[i], countErr);
      if item.Throw? {
        return items, Throw(item.exc);
      }
      items := items + [item.value];
      i := i + 1;
    }
    return items, Ok(());
  }

  /// `GetEnumerator`: reads `Count`, then yields `this[0]`, `this[1]`, …
  /// until `Count` profiles are out or one throws. `items` are the profiles
  /// yielded before the enumeration ended, and `r` is how it ended. For
  /// profile `i` the native side reports pointer `addrs[i]`, error
  /// `errs[i]`, stream type `types[i]` and type error `typeErrs[i]`.
  method Enumerate(lib: NativeSdk, list: NativeList, addrs: seq<Address>, errs: seq<ErrorPtr>, types: seq<int>,
                   typeErrs: seq<ErrorPtr>, countErr: ErrorPtr)
    returns (items: seq<StreamProfile>, r: Result<()>)
    requires list.Valid() && lib.Valid() && list.ptr.handle.kind == HandleKind.StreamProfileList
    requires var n := Span(Wrap(list.nativeCount)); |addrs| >= n && |errs| >= n && |types| >= n && |typeErrs| >= n
    modifies list, lib
    ensures list.Valid() && lib.Valid()
    ensures list.forwarding == old(list.forwarding) && list.disposedRaised == old(list.disposedRaised)
    ensures list.lazyCount == (if old(list.lazyCount).NotCreated? then CountOutcome(list.ptr.IsDisposed(), list.ptr.handle, list.nativeCount, countErr) else old(list.lazyCount))
    ensures list.lazyCount.Faulted? ==> items == [] && r == Throw(list.lazyCount.exc)
    ensures list.lazyCount.Created? ==> |items| <= Span(list.lazyCount.value)
    ensures |items| <= |addrs| && |items| <= |errs| && |items| <= |types| && |items| <= |typeErrs|
    ensures forall i :: 0 <= i < |items| ==>
      ProfileOutcome(list.ptr.IsDisposed(), list.ptr.handle, addrs[i], errs[i], None, types[i], typeErrs[i]).Ok?
    ensures forall i :: 0 <= i < |items| ==> fresh(items[i]) && Yielded(items[i], addrs[i], types[i])
    ensures list.lazyCount.Created? && |items| < Span(list.lazyCount.value) ==>
      var k := |items|;
      var failed := ProfileOutcome(list.ptr.IsDisposed(), list.ptr.handle, addrs[k], errs[k], None, types[k], typeErrs[k]);
      failed.Throw? && r == Throw(failed.exc)
    ensures list.lazyCount.Created? && |items| == Span(list.lazyCount.value) ==> r == Ok(())
  {
    var count := list.Count(lib, countErr);
    if count.Throw? {
      return [], Throw(count.exc);
    }
    items, r := YieldProfiles(lib, list, addrs, errs, types, typeErrs, countErr);
  }

  /// `GetVideoStreamProfile(width, height, format, fps)`: the matching
  /// video profile, built by the `Video` constructor. Unspecified
  /// arguments take the "any" values.
  method GetVideoStreamProfile(lib: NativeSdk, list: NativeList, a: Address, err: ErrorPtr, nativeType: int, typeErr: ErrorPtr,
                               width: int32 := WIDTH_ANY, height: int32 := HEIGHT_ANY, format: int := FORMAT_ANY,
                               fps: int32 := OB_FPS_ANY)
    returns (r: Result<StreamProfile>)
    requires list.Valid() && lib.Valid()
    modifies lib
    ensures lib.Valid()
    ensures !list.ptr.IsDisposed() ==>
      old(lib.calls) + [NativeCall(Getter("ob_stream_profile_list_get_video_stream_profile"), list.ptr.handle.address, [width, height, format, fps])]
        <= lib.calls
    ensures var outcome := ProfileOutcome(list.ptr.IsDisposed(), list.ptr.handle, a, err, Some(Video), nativeType, typeErr);
      && (r.Ok? <==> outcome.Ok?) && (r.Throw? ==> r.exc == outcome.exc)
      && (r.Ok? ==> fresh(r.value) && r.value.Valid() && r.value.cls == Video && r.value.ptr.handle == Handle(HandleKind.StreamProfile, a))
  {
    r := AcquireProfile(lib, list, "ob_stream_profile_list_get_video_stream_profile", [width, height, format, fps], Some(Video),
                        a, err, nativeType, typeErr);
  }

  /// `GetAccelStreamProfile(fullScaleRange, sampleRate)`, built by the
  /// `Accel` constructor.
  method GetAccelStreamProfile(lib: NativeSdk, list: NativeList, a: Address, err: ErrorPtr, nativeType: int, typeErr: ErrorPtr,
                               fullScaleRange: int := ACCEL_FULL_SCALE_RANGE_ANY, sampleRate: int := SAMPLE_RATE_ANY)
    returns (r: Result<StreamProfile>)
    requires list.Valid() && lib.Valid()
    modifies lib
    ensures lib.Valid()
    ensures !list.ptr.IsDisposed() ==>
      old(lib.calls) + [NativeCall(Getter("ob_stream_profile_list_get_accel_stream_profile"), list.ptr.handle.address, [fullScaleRange, sampleRate])]
        <= lib.calls
    ensures var outcome := ProfileOutcome(list.ptr.IsDisposed(), list.ptr.handle, a, err, Some(Accel), nativeType, typeErr);
      && (r.Ok? <==> outcome.Ok?) && (r.Throw? ==> r.exc == outcome.exc)
      && (r.Ok? ==> fresh(r.value) && r.value.Valid() && r.value.cls == Accel && r.value.ptr.handle == Handle(HandleKind.StreamProfile, a))
  {
    r := AcquireProfile(lib, list, "ob_stream_profile_list_get_accel_stream_profile", [fullScaleRange, sampleRate], Some(Accel),
                        a, err, nativeType, typeErr);
  }

  /// `GetGyroStreamProfile(fullScaleRange, sampleRate)`, built by the
  /// `Gyro` constructor.
  method GetGyroStreamProfile(lib: NativeSdk, list: NativeList, a: Address, err: ErrorPtr, nativeType: int, typeErr: ErrorPtr,
                              fullScaleRange: int := GYRO_FULL_SCALE_RANGE_ANY, sampleRate: int := SAMPLE_RATE_ANY)
    returns (r: Result<StreamProfile>)
    requires list.Valid() && lib.Valid()
    modifies lib
    ensures lib.Valid()
    ensures !list.ptr.IsDisposed() ==>
      old(lib.calls) + [NativeCall(Getter("ob_stream_profile_list_get_gyro_stream_profile"), list.ptr.handle.address, [fullScaleRange, sampleRate])]
        <= lib.calls
    ensures var outcome := ProfileOutcome(list.ptr.IsDisposed(), list.ptr.handle, a, err, Some(Gyro), nativeType, typeErr);
      && (r.Ok? <==> outcome.Ok?) && (r.Throw? ==> r.exc == outcome.exc)
      && (r.Ok? ==> fresh(r.value) && r.value.Valid() && r.value.cls == Gyro && r.value.ptr.handle == Handle(HandleKind.StreamProfile, a))
  {
    r := AcquireProfile(lib, list, "ob_stream_profile_list_get_gyro_stream_profile", [fullScaleRange, sampleRate], Some(Gyro),
                        a, err, nativeType, typeErr);
  }
}
