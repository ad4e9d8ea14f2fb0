/// A stand-in for the native Orbbec SDK. The wrapper's behaviour depends on
/// the native state kept here: reference counts, the fields of each frame,
/// and the managed buffers that frames keep pinned. Every native call the
/// wrapper makes is appended to a ghost call log. What a call reports (its
/// error object, its return value) is a parameter of the wrapper member that
/// makes it.
module Native {
  import opened Base
  import opened ObTypes
  import opened Int64

  /// A pinned `GCHandle` over a managed buffer.
  type PinId = nat

  /// The native functions the wrapper calls, as they appear in the call log.
  datatype Fn =
    | DeleteObject(kind: HandleKind)
    | DeleteError
    | ErrorGetStatus
    | ErrorGetExceptionType
    | ErrorGetMessage
    | ErrorGetFunction
    | ErrorGetArgs
    | FrameAddRef
    | FrameSetTimestamp(field: TimestampField)
    | CreateFrame
    | CreateFrameFromBuffer
    | Getter(name: string)
    | Invoke(name: string)

  datatype NativeCall = NativeCall(fn: Fn, target: Address, args: seq<int>)

  /// A string argument of a native call, as its character codes.
  function Chars(s: string): (codes: seq<int>)
    ensures |codes| == |s| && forall i :: 0 <= i < |s| ==> codes[i] == s[i] as int
  {
    seq(|s|, i requires 0 <= i < |s| => s[i] as int)
  }

  datatype TimestampField = DeviceTimestamp | DeviceTimestampUs | SystemTimestamp

  /// What the native side keeps for one frame. `pin` is set for a frame
  /// created over a pinned managed buffer. Its destroy callback frees that pin.
  /// The timestamps are the native `uint64_t` values: milliseconds for the
  /// device and system timestamps, microseconds for `deviceTimestampUs`.
  datatype FrameData = FrameData(
    frameType: int,
    deviceTimestamp: uint64,
    deviceTimestampUs: uint64,
    systemTimestamp: uint64,
    pin: Option<PinId>)

  function Timestamp(f: FrameData, field: TimestampField): uint64
  {
    match field
    case DeviceTimestamp => f.deviceTimestamp
    case DeviceTimestampUs => f.deviceTimestampUs
    case SystemTimestamp => f.systemTimestamp
  }

  /// The native state:
  /// - `refs`: the reference count of each live native object;
  /// - `frames`: the data of each live frame;
  /// - `pinned`: the managed buffers pinned for native frames;
  /// - `nextPin`: the next fresh pin handle.
  datatype NativeState = NativeState(
    refs: map<Address, nat>,
    frames: map<Address, FrameData>,
    pinned: set<PinId>,
    nextPin: PinId)

  ghost predicate WellFormed(s: NativeState)
  {
    && 0 !in s.refs
    && (forall a :: a in s.refs ==> s.refs[a] >= 1)
    && s.frames.Keys <= s.refs.Keys
    && (forall a :: a in s.frames && s.frames[a].pin.Some? ==> s.frames[a].pin.value in s.pinned)
    && (forall a, b :: a in s.frames && b in s.frames && a != b && s.frames[a].pin.Some? ==> s.frames[a].pin != s.frames[b].pin)
    && (forall p :: p in s.pinned ==> p < s.nextPin)
  }

  /// The frame destroy callback registered by `Frame.CreateFromArray`: it
  /// frees the `GCHandle` that pins the buffer.
  function ReleasePinnedArray(s: NativeState, p: PinId): (t: NativeState)
    ensures p !in t.pinned
  {
    s.(pinned := s.pinned - {p})
  }

  /// The native object at `a` is freed. A frame over a pinned buffer calls
  /// its destroy callback.
  function Destroy(s: NativeState, a: Address): NativeState
  {
    var t := s.(refs := s.refs - {a}, frames := s.frames - {a});
    if a in s.frames && s.frames[a].pin.Some? then ReleasePinnedArray(t, s.frames[a].pin.value) else t
  }

  /// The state after a native delete/release call on `a` that reported `err`.
  /// A call that reports an error changes nothing. Otherwise it drops one
  /// reference. Dropping the last reference frees the object.
  function ReleaseEffect(s: NativeState, a: Address, err: ErrorPtr): (t: NativeState)
    requires WellFormed(s)
    ensures WellFormed(t)
    ensures t.nextPin == s.nextPin
    ensures forall b :: b != a ==>
      (b in t.refs <==> b in s.refs) && (b in t.refs ==> t.refs[b] == s.refs[b]) &&
      (b in t.frames <==> b in s.frames) && (b in t.frames ==> t.frames[b] == s.frames[b])
    ensures a in s.refs && err.Zero? ==> (a in t.refs <==> s.refs[a] > 1)
    ensures a in t.refs ==> a in s.refs && t.refs[a] == if err.Zero? then s.refs[a] - 1 else s.refs[a]
  {
    if err.Error? || a !in s.refs then s
    else if s.refs[a] > 1 then s.(refs := s.refs[a := s.refs[a] - 1])
    else Destroy(s, a)
  }

  /// The state after a native add-reference call on `a` that reported `err`.
  function AddRefEffect(s: NativeState, a: Address, err: ErrorPtr): (t: NativeState)
    requires WellFormed(s)
    ensures WellFormed(t)
    ensures t.frames == s.frames && t.pinned == s.pinned
    ensures t.refs.Keys == s.refs.Keys
    ensures forall b :: b in t.refs ==>
      t.refs[b] == if b == a && err.Zero? then s.refs[b] + 1 else s.refs[b]
  {
    if err.Error? || a !in s.refs then s else s.(refs := s.refs[a := s.refs[a] + 1])
  }

  /// The state after a native timestamp setter stored `v` in `field` of frame `a`.
  function SetTimestampEffect(s: NativeState, a: Address, field: TimestampField, v: uint64, err: ErrorPtr): (t: NativeState)
    requires WellFormed(s)
    ensures WellFormed(t)
    ensures t.refs == s.refs && t.frames.Keys == s.frames.Keys && t.pinned == s.pinned
    ensures forall b :: b in t.frames && b != a ==> t.frames[b] == s.frames[b]
    ensures a in s.frames ==>
      t.frames[a].frameType == s.frames[a].frameType && t.frames[a].pin == s.frames[a].pin &&
      forall g :: Timestamp(t.frames[a], g) == if g == field && err.Zero? then v else Timestamp(s.frames[a], g)
  {
    if err.Error? || a !in s.frames then s
    else
      var f := s.frames[a];
      var f' := match field
        case DeviceTimestamp => f.(deviceTimestamp := v)
        case DeviceTimestampUs => f.(deviceTimestampUs := v)
        case SystemTimestamp => f.(systemTimestamp := v);
      s.(frames := s.frames[a := f'])
  }

  /// Taking a reference and then dropping it leaves the native state as it was.
  lemma AddRefThenRelease(s: NativeState, a: Address)
    requires WellFormed(s) && a in s.refs
    ensures ReleaseEffect(AddRefEffect(s, a, Zero), a, Zero) == s
  {
    var t := AddRefEffect(s, a, Zero);
    assert t.refs[a] > 1;
    assert t.refs[a := t.refs[a] - 1] == s.refs;
  }

  /// A frame over a pinned buffer keeps the buffer pinned until the release
  /// of its last reference. That release unpins it.
  lemma PinnedWhileReferenced(s: NativeState, a: Address, err: ErrorPtr)
    requires WellFormed(s) && a in s.frames && s.frames[a].pin.Some?
    ensures s.frames[a].pin.value in ReleaseEffect(s, a, err).pinned <==> !(err.Zero? && s.refs[a] == 1)
  {
    var p := s.frames[a].pin.value;
    if err.Zero? && s.refs[a] == 1 {
      assert ReleaseEffect(s, a, err) == ReleasePinnedArray(s.(refs := s.refs - {a}, frames := s.frames - {a}), p);
    }
  }

  class NativeSdk {
    var state: NativeState
    ghost var calls: seq<NativeCall>

    ghost predicate Valid()
      reads this
    {
      WellFormed(state)
    }

    constructor ()
      ensures Valid() && state == NativeState(map[], map[], {}, 0) && calls == []
    {
      state := NativeState(map[], map[], {}, 0);
      calls := [];
    }

    /// A native call whose effect on the native state is not modelled.
    method Call(fn: Fn, target: Address, args: seq<int>)
      requires Valid()
      modifies this
      ensures Valid() && state == old(state)
      ensures calls == old(calls) + [NativeCall(fn, target, args)]
    {
      calls := calls + [NativeCall(fn, target, args)];
    }

    /// `ob_delete_…` of the object behind `h`, which reported `err`.
    method DeleteObject(h: Handle, err: ErrorPtr)
      requires Valid()
      modifies this
      ensures Valid() && state == ReleaseEffect(old(state), h.address, err)
      ensures calls == old(calls) + [NativeCall(Fn.DeleteObject(h.kind), h.address, [])]
    {
      state := ReleaseEffect(state, h.address, err);
      calls := calls + [NativeCall(Fn.DeleteObject(h.kind), h.address, [])];
    }

    /// `ob_frame_add_ref` on the frame at `a`, which reported `err`.
    method AddRef(a: Address, err: ErrorPtr)
      requires Valid()
      modifies this
      ensures Valid() && state == AddRefEffect(old(state), a, err)
      ensures calls == old(calls) + [NativeCall(FrameAddRef, a, [])]
    {
      state := AddRefEffect(state, a, err);
      calls := calls + [NativeCall(FrameAddRef, a, [])];
    }

    /// A native timestamp setter on the frame at `a`, which reported `err`.
    method SetTimestamp(a: Address, field: TimestampField, v: uint64, err: ErrorPtr)
      requires Valid()
      modifies this
      ensures Valid() && state == SetTimestampEffect(old(state), a, field, v, err)
      ensures calls == old(calls) + [NativeCall(FrameSetTimestamp(field), a, [v])]
    {
      state := SetTimestampEffect(state, a, field, v, err);
      calls := calls + [NativeCall(FrameSetTimestamp(field), a, [v])];
    }

    /// `GCHandle.Alloc(buffer, GCHandleType.Pinned)`: a fresh pin handle.
    method AllocPinned() returns (p: PinId)
      requires Valid()
      modifies this
      ensures Valid() && p !in old(state.pinned) && state.pinned == old(state.pinned) + {p}
      ensures state.refs == old(state.refs) && state.frames == old(state.frames)
      ensures calls == old(calls)
    {
      p := state.nextPin;
      state := state.(pinned := state.pinned + {p}, nextPin := state.nextPin + 1);
    }

    /// A native call that hands out a new object at `a` holding one
    /// reference (a device, a sensor, a list, a profile, a context). A call
    /// that reports an error hands out nothing.
    method Acquire(fn: Fn, target: Address, args: seq<int>, a: Address, err: ErrorPtr)
      requires Valid()
      modifies this
      ensures Valid() && state.frames == old(state.frames) && state.pinned == old(state.pinned)
      ensures state.nextPin == old(state.nextPin)
      ensures state.refs == if err.Error? || a == 0 || a in old(state.refs) then old(state.refs) else old(state.refs)[a := 1]
      ensures calls == old(calls) + [NativeCall(fn, target, args)]
    {
      if !(err.Error? || a == 0 || a in state.refs) {
        state := state.(refs := state.refs[a := 1]);
      }
      calls := calls + [NativeCall(fn, target, args)];
    }

    /// `ob_create_frame` (`fn` is `CreateFrame`) or
    /// `ob_create_frame_from_buffer` (`fn` is `CreateFrameFromBuffer`), called
    /// with the arguments `args`. On success the SDK hands out a new frame at
    /// `a`. It holds one reference and has type `frameType`. When `pin` is
    /// set, the frame's destroy callback unpins it.
    method CreateFrame(fn: Fn, a: Address, frameType: int, pin: Option<PinId>, args: seq<int>, err: ErrorPtr)
      requires Valid()
      requires pin.Some? ==> pin.value in state.pinned && forall b :: b in state.frames ==> state.frames[b].pin != pin
      modifies this
      ensures Valid() && state.pinned == old(state.pinned) && state.nextPin == old(state.nextPin)
      ensures state == if err.Error? || a == 0 || a in old(state.refs) then old(state)
        else old(state).(refs := old(state.refs)[a := 1], frames := old(state.frames)[a := FrameData(frameType, 0, 0, 0, pin)])
      ensures calls == old(calls) + [NativeCall(fn, 0, args)]
    {
      if !(err.Error? || a == 0 || a in state.refs) {
        state := state.(refs := state.refs[a := 1], frames := state.frames[a := FrameData(frameType, 0, 0, 0, pin)]);
      }
      calls := calls + [NativeCall(fn, 0, args)];
    }
  }
}
