/// `Sensor`: one sensor of a device. Streaming hands the native side the
/// sensor's token from the sensor map. The static frame trampoline
/// resolves the token back to the sensor.
module Sensors {
  import opened Base
  import opened Int32
  import opened ObTypes
  import opened Native
  import opened HandleOps
  import opened ObException
  import opened PtrWrappers
  import opened Helpers
  import opened Registry
  import opened Events
  import opened Frames
  import opened StreamProfiles
  import opened FrameReadyEvents
  import opened NativeLists

  class Sensor {
    const ptr: PtrWrapper
    /// `callbackUserData`: the token of this sensor in the sensor map,
    /// once `Start` has been called.
    var callbackUserData: Option<int>
    /// The invocation list of `FrameReady`.
    var frameReady: seq<Handler>
    /// Whether `obSensorPtr_Disposed` is still attached to the wrapper.
    var forwarding: bool
    /// Times this sensor's own `Disposed` event was raised.
    ghost var disposedRaised: nat

    /// The sensor raises `Disposed` exactly when its wrapper does, once.
    ghost predicate Valid()
      reads this, ptr
    {
      && ptr.Valid() && ptr.handle.kind == HandleKind.Sensor
      && disposedRaised == ptr.disposedRaised
      && (forwarding <==> disposedRaised == 0)
    }

    /// `new Sensor(ptr)`.
    constructor Make(p: PtrWrapper)
      requires p.Valid() && p.handle.kind == HandleKind.Sensor && p.disposedRaised == 0
      ensures Valid() && ptr == p && callbackUserData == None && frameReady == []
      ensures forwarding && disposedRaised == 0
    {
      ptr := p;
      callbackUserData := None;
      frameReady := [];
      forwarding := true;
      disposedRaised := 0;
    }

    /// `new Sensor(ptr)` from a native pointer: the implicit conversion
    /// refuses a zero pointer.
    static method Create(h: Handle) returns (r: Result<Sensor>)
      requires h.kind == HandleKind.Sensor
      ensures r.Ok? <==> h.address != 0
      ensures r.Throw? ==> r.exc == ArgumentInvalid("ptr")
      ensures r.Ok? ==> fresh(r.value) && fresh(r.value.ptr) && r.value.Valid() && r.value.ptr.handle == h
      ensures r.Ok? ==> !r.value.IsDisposed() && r.value.callbackUserData == None && r.value.frameReady == []
    {
      var p := PtrWrapper.Create(h);
      if p.Throw? {
        return Throw(p.exc);
      }
      var s := new Sensor.Make(p.value);
      return Ok(s);
    }

    predicate IsDisposed()
      reads ptr
    {
      ptr.IsDisposed()
    }

    /// `GetHashCode`: the wrapper's hash. It is also the start of the
    /// token probe.
    function GetHashCode(): int32
    {
      ptr.GetHashCode()
    }

    /// `Dispose`: disposes the wrapper. Its first successful release runs
    /// `obSensorPtr_Disposed`, which unregisters and clears the token, then
    /// detaches itself and raises `Disposed`. A failed release throws and
    /// keeps the token.
    method Dispose(lib: NativeSdk, reg: IdentityMap<Sensor>, err: ErrorPtr) returns (r: Result<()>)
      requires Valid() && lib.Valid()
      modifies this, ptr, lib, reg
      ensures Valid() && lib.Valid() && IsDisposed() && frameReady == old(frameReady)
      ensures r == if !old(IsDisposed()) && err.Error? then Throw(InvalidOperation) else Ok(())
      ensures var raised := !old(IsDisposed()) && err.Zero?;
        && disposedRaised == old(disposedRaised) + (if raised then 1 else 0)
        && callbackUserData == (if raised then None else old(callbackUserData))
        && reg.entries == (if raised && old(callbackUserData).Some? then old(reg.entries) - {old(callbackUserData).value} else old(reg.entries))
        && reg.collected == old(reg.collected)
      ensures disposedRaised <= 1
      ensures old(IsDisposed()) ==> lib.state == old(lib.state) && lib.calls == old(lib.calls)
      ensures !old(IsDisposed()) ==>
        lib.state == ReleaseEffect(old(lib.state), ptr.handle.address, err) &&
        lib.calls == old(lib.calls) + ReleaseCalls(ptr.handle, err)
    {
      var raised;
      r, raised := ptr.Dispose(lib, err);
      if raised && forwarding {
        OnPtrDisposed(reg);
      }
    }

    /// `obSensorPtr_Disposed`.
    method OnPtrDisposed(reg: IdentityMap<Sensor>)
      requires forwarding
      modifies this, reg
      ensures !forwarding && disposedRaised == old(disposedRaised) + 1 && callbackUserData == None
      ensures frameReady == old(frameReady)
      ensures reg.entries == (if old(callbackUserData).Some? then old(reg.entries) - {old(callbackUserData).value} else old(reg.entries))
      ensures reg.collected == old(reg.collected)
    {
      if callbackUserData.Some? {
        var _ := reg.Unregister(callbackUserData.value);
        callbackUserData := None;
      }
      forwarding := false;
      disposedRaised := disposedRaised + 1;
    }

    /// `SensorType`, through `Helpers.GetValue`.
    method SensorType(lib: NativeSdk, sensorType: int, err: ErrorPtr) returns (r: Result<int>)
      requires Valid() && lib.Valid()
      modifies lib
      ensures lib.Valid() && lib.state == old(lib.state)
      ensures r == GetValueResult(IsDisposed(), ptr.handle, sensorType, err)
      ensures IsDisposed() ==> lib.calls == old(lib.calls)
      ensures !IsDisposed() ==>
        lib.calls == old(lib.calls) + [NativeCall(Getter("ob_sensor_get_type"), ptr.handle.address, [])] + CheckErrorCalls(err, true)
    {
      r := GetValue(lib, ptr, "ob_sensor_get_type", sensorType, err);
    }

    /// `StreamProfileList`: a new list over the profile list the native
    /// getter hands out at `a`, which reports `n` profiles. A zero pointer
    /// is refused by the wrapper's conversion.
    method StreamProfileList(lib: NativeSdk, a: Address, n: uint32, err: ErrorPtr) returns (r: Result<NativeList>)
      requires Valid() && lib.Valid()
      modifies lib
      ensures lib.Valid()
      ensures IsDisposed() ==>
        r == Throw(ObjectDisposed(Describe(ptr.handle))) && lib.state == old(lib.state) && lib.calls == old(lib.calls)
      ensures !IsDisposed() ==>
        && lib.calls == old(lib.calls) + [NativeCall(Getter("ob_sensor_get_stream_profile_list"), ptr.handle.address, [])]
                        + CheckErrorCalls(err, true)
        && lib.state.refs == (if err.Error? || a == 0 || a in old(lib.state.refs) then old(lib.state.refs) else old(lib.state.refs)[a := 1])
        && (Thrown(err).Some? ==> r == Throw(Thrown(err).value))
        && (Thrown(err).None? && a == 0 ==> r == Throw(ArgumentInvalid("ptr")))
        && (Thrown(err).None? && a != 0 ==> r.Ok?)
      ensures r.Ok? ==>
        && fresh(r.value) && r.value.Valid() && r.value.ptr.handle == Handle(HandleKind.StreamProfileList, a)
        && r.value.nativeCount == n && r.value.lazyCount == NotCreated && !r.value.IsDisposed()
    {
      var h := ptr.ValueNotDisposed();
      if h.Throw? {
        return Throw(h.exc);
      }
      lib.Acquire(Getter("ob_sensor_get_stream_profile_list"), h.value.address, [], a, err);
      var c := Check(lib, err);
      if c.Throw? {
        return Throw(c.exc);
      }
      var w := PtrWrapper.Create(Handle(HandleKind.StreamProfileList, a));
      if w.Throw? {
        return Throw(w.exc);
      }
      var list := new NativeList(w.value, n);
      return Ok(list);
    }

    /// `Start(streamProfile)`.
    /// - The first call registers this sensor in the sensor map, probing
    ///   from its hash, and keeps the token. Later calls reuse it.
    /// - Then, on every call, the native start runs with that token.
    /// - The token is taken before the disposal check, so `Start` on a
    ///   disposed sensor that had no token leaves a fresh one registered.
    method Start(lib: NativeSdk, reg: IdentityMap<Sensor>, profile: StreamProfile, err: ErrorPtr) returns (r: Result<()>)
      requires Valid() && lib.Valid()
      modifies this, lib, reg
      ensures Valid() && lib.Valid() && lib.state == old(lib.state)
      ensures frameReady == old(frameReady) && forwarding == old(forwarding) && disposedRaised == old(disposedRaised)
      ensures reg.collected == old(reg.collected)
      ensures old(callbackUserData).Some? ==> callbackUserData == old(callbackUserData) && reg.entries == old(reg.entries)
      ensures old(callbackUserData).None? ==>
        match FirstFree(old(reg.entries).Keys, GetHashCode(), 0)
        case None =>
          r == Throw(InvalidOperation) && callbackUserData == None && reg.entries == old(reg.entries) && lib.calls == old(lib.calls)
        case Some(k) =>
          var token := Probe(GetHashCode(), k);
          callbackUserData == Some(token as int) && reg.entries == old(reg.entries)[token as int := this]
      ensures callbackUserData.Some? ==> r == StartOutcome(IsDisposed(), ptr.handle, profile.IsDisposed(), profile.ptr.handle, err)
      ensures callbackUserData.Some? ==>
        lib.calls == old(lib.calls) + StartCalls(IsDisposed(), ptr.handle, profile.IsDisposed(), profile.ptr.handle, callbackUserData.value, err)
    {
      if callbackUserData.None? {
        r := RegisterToken(reg);
        if r.Throw? {
          return;
        }
      }
      r := StartNative(lib, profile, err);
    }

    /// The token registration of the first `Start`.
    method RegisterToken(reg: IdentityMap<Sensor>) returns (r: Result<()>)
      requires Valid() && callbackUserData.None?
      modifies this`callbackUserData, reg
      ensures Valid() && reg.collected == old(reg.collected)
      ensures match FirstFree(old(reg.entries).Keys, GetHashCode(), 0)
        case None => r == Throw(InvalidOperation) && callbackUserData == None && reg.entries == old(reg.entries)
        case Some(k) =>
          var token := Probe(GetHashCode(), k);
          r == Ok(()) && callbackUserData == Some(token as int) && reg.entries == old(reg.entries)[token as int := this]
    {
      var t := reg.Register(this, GetHashCode());
      if t.Throw? {
        return Throw(t.exc);
      }
      callbackUserData := Some(t.value as int);
      return Ok(());
    }

    /// The native half of `Start`: the sensor's live pointer, then the
    /// profile's, then `ob_sensor_start` with the token, then the error
    /// check.
    method StartNative(lib: NativeSdk, profile: StreamProfile, err: ErrorPtr) returns (r: Result<()>)
      requires Valid() && lib.Valid() && callbackUserData.Some?
      modifies lib
      ensures lib.Valid() && lib.state == old(lib.state)
      ensures r == StartOutcome(IsDisposed(), ptr.handle, profile.IsDisposed(), profile.ptr.handle, err)
      ensures lib.calls == old(lib.calls) + StartCalls(IsDisposed(), ptr.handle, profile.IsDisposed(), profile.ptr.handle, callbackUserData.value, err)
    {
      var h := ptr.ValueNotDisposed();
      if h.Throw? {
        return Throw(h.exc);
      }
      var p := profile.NativePtr();
      if p.Throw? {
        return Throw(p.exc);
      }
      lib.Call(Invoke("ob_sensor_start"), h.value.address, [p.value.address, callbackUserData.value]);
      r := Check(lib, err);
    }

    /// `Stop`: the native stop on the live pointer, then the error check.
    /// The token stays registered.
    method Stop(lib: NativeSdk, err: ErrorPtr) returns (r: Result<()>)
      requires Valid() && lib.Valid()
      modifies lib
      ensures lib.Valid() && lib.state == old(lib.state)
      ensures r == GetValueResult(IsDisposed(), ptr.handle, (), err)
      ensures IsDisposed() ==> lib.calls == old(lib.calls)
      ensures !IsDisposed() ==>
        lib.calls == old(lib.calls) + [NativeCall(Invoke("ob_sensor_stop"), ptr.handle.address, [])] + CheckErrorCalls(err, true)
    {
      var h := ptr.ValueNotDisposed();
      if h.Throw? {
        return Throw(h.exc);
      }
      lib.Call(Invoke("ob_sensor_stop"), h.value.address, []);
      r := Check(lib, err);
    }

    /// `SwitchProfile(streamProfile)`: the sensor's live pointer, then the
    /// profile's, then the native switch and the error check.
    method SwitchProfile(lib: NativeSdk, profile: StreamProfile, err: ErrorPtr) returns (r: Result<()>)
      requires Valid() && lib.Valid()
      modifies lib
      ensures lib.Valid() && lib.state == old(lib.state)
      ensures IsDisposed() ==> r == Throw(ObjectDisposed(Describe(ptr.handle))) && lib.calls == old(lib.calls)
      ensures !IsDisposed() && profile.IsDisposed() ==>
        r == Throw(ObjectDisposed(Describe(profile.ptr.handle))) && lib.calls == old(lib.calls)
      ensures !IsDisposed() && !profile.IsDisposed() ==>
        && lib.calls == old(lib.calls) + [NativeCall(Invoke("ob_sensor_switch_profile"), ptr.handle.address, [profile.ptr.handle.address])]
                        + CheckErrorCalls(err, true)
        && r == (if Thrown(err).Some? then Throw(Thrown(err).value) else Ok(()))
    {
      var h := ptr.ValueNotDisposed();
      if h.Throw? {
        return Throw(h.exc);
      }
      var p := profile.NativePtr();
      if p.Throw? {
        return Throw(p.exc);
      }
      lib.Call(Invoke("ob_sensor_switch_profile"), h.value.address, [p.value.address]);
      r := Check(lib, err);
    }

    /// `FrameReady += handler`
    method AddFrameReady(handler: Handler)
      modifies this`frameReady
      ensures frameReady == old(frameReady) + [handler]
    {
      frameReady := frameReady + [handler];
    }

    /// `FrameReady -= handler`: removes the handler's last subscription.
    method RemoveFrameReady(handler: Handler)
      modifies this`frameReady
      ensures frameReady == RemoveLast(old(frameReady), handler)
    {
      frameReady := RemoveLast(frameReady, handler);
    }
  }

  /// What `Start` throws, if anything, once it holds a token: a disposed
  /// sensor, then a disposed profile, then the native error.
  function StartOutcome(sensorDisposed: bool, sensor: Handle, profileDisposed: bool, profile: Handle, err: ErrorPtr): (r: Result<()>)
    ensures sensorDisposed ==> r == Throw(ObjectDisposed(Describe(sensor)))
    ensures !sensorDisposed && profileDisposed ==> r == Throw(ObjectDisposed(Describe(profile)))
    ensures r.Ok? <==> !sensorDisposed && !profileDisposed && Thrown(err).None?
  {
    if sensorDisposed then Throw(ObjectDisposed(Describe(sensor)))
    else if profileDisposed then Throw(ObjectDisposed(Describe(profile)))
    else if Thrown(err).Some? then Throw(Thrown(err).value)
    else Ok(())
  }

  /// The native calls `Start` makes once it holds a token: none when the
  /// sensor or the profile is disposed.
  function StartCalls(sensorDisposed: bool, sensor: Handle, profileDisposed: bool, profile: Handle, token: int, err: ErrorPtr)
    : (calls: seq<NativeCall>)
    ensures sensorDisposed || profileDisposed ==> calls == []
    ensures !sensorDisposed && !profileDisposed ==>
      |calls| > 0 && calls[0] == NativeCall(Invoke("ob_sensor_start"), sensor.address, [profile.address, token])
  {
    if sensorDisposed || profileDisposed then []
    else [NativeCall(Invoke("ob_sensor_start"), sensor.address, [profile.address, token])] + CheckErrorCalls(err, true)
  }

  /// `OnFrameReady(frame, userData)`, the static trampoline.
  /// - It always wraps the native frame first.
  /// - It runs the sensor's `FrameReady` handlers only when the token
  ///   resolves to a live sensor whose current token it is.
  /// - Then it disposes the event arguments, and so the frame, unless a
  ///   handler cleared `AutoFrameDisposing` (`optOut`).
  /// `typeErr` is what reading the frame type reports; `releaseErr` is
  /// what releasing the frame reports.
  method OnFrameReady(lib: NativeSdk, reg: IdentityMap<Sensor>, h: Handle, userData: int, optOut: bool,
                      typeErr: ErrorPtr, releaseErr: ErrorPtr)
    returns (r: Result<()>, frame: Option<Frame>, target: Option<Sensor>, invoked: seq<Handler>)
    requires lib.Valid() && h.kind == HandleKind.Frame
    modifies lib
    ensures lib.Valid()
    ensures frame.None? ==> r.Throw? && target.None? && invoked == [] && lib.state == old(lib.state)
    ensures frame.None? <==> !(h.address != 0 && Thrown(typeErr).None? && Frames.ClassFor(NativeFrameType(old(lib.state), h.address)).Some?)
    ensures frame.Some? ==>
      && fresh(frame.value) && frame.value.Valid() && frame.value.ptr.handle == h
      && (target.Some? <==>
            userData in reg.entries && reg.entries[userData] !in reg.collected
            && reg.entries[userData].callbackUserData == Some(userData))
      && (target.Some? ==> target.value == reg.entries[userData] && invoked == target.value.frameReady)
      && (target.None? ==> invoked == [])
      && var kept := |invoked| > 0 && optOut;
         && (kept <==> !frame.value.IsDisposed())
         && (kept ==> r == Ok(()) && lib.state == old(lib.state))
         && (!kept ==>
               && lib.state == ReleaseEffect(old(lib.state), h.address, releaseErr)
               && r == (if releaseErr.Error? then Throw(InvalidOperation) else Ok(())))
  {
    var f := Frame.FromHandle(lib, h, typeErr);
    if f.Throw? {
      return Throw(f.exc), None, None, [];
    }
    frame := Some(f.value);
    var args := new FrameReadyEventArgs(f.value);
    target := reg.TryGet(userData);
    invoked := [];
    if target.Some? && target.value.callbackUserData == Some(userData) {
      invoked := target.value.frameReady;
      if |invoked| > 0 && optOut {
        args.autoFrameDisposing := false;
      }
    } else {
      target := None;
    }
    r := args.Dispose(lib, releaseErr);
  }
}
