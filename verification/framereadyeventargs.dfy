/// `FrameReadyEventArgs`: carries the frame a sensor delivered to the
/// `FrameReady` handlers, and disposes it afterwards unless a handler
/// opted out.
module FrameReadyEvents {
  import opened Base
  import opened ObTypes
  import opened Native
  import opened Frames

  class FrameReadyEventArgs {
    /// `Frame`: exactly the frame given to the constructor.
    const frame: Frame
    /// `AutoFrameDisposing`
    var autoFrameDisposing: bool

    /// `new FrameReadyEventArgs(frame)`: automatic disposal is on.
    constructor (f: Frame)
      ensures frame == f && autoFrameDisposing
    {
      frame := f;
      autoFrameDisposing := true;
    }

    /// `Dispose`: disposes the frame exactly when `AutoFrameDisposing` is
    /// set. Otherwise the frame, and the native state, are left as they are.
    method Dispose(lib: NativeSdk, err: ErrorPtr) returns (r: Result<()>)
      requires frame.Valid() && lib.Valid()
      modifies frame, frame.ptr, lib
      ensures frame.Valid() && lib.Valid()
      ensures !autoFrameDisposing ==>
        && r == Ok(()) && lib.state == old(lib.state) && lib.calls == old(lib.calls)
        && unchanged(frame, frame.ptr)
      ensures autoFrameDisposing ==>
        && frame.IsDisposed()
        && r == (if !old(frame.IsDisposed()) && err.Error? then Throw(InvalidOperation) else Ok(()))
        && (!old(frame.IsDisposed()) ==> lib.state == ReleaseEffect(old(lib.state), frame.ptr.handle.address, err))
        && (old(frame.IsDisposed()) ==> lib.state == old(lib.state) && lib.calls == old(lib.calls))
    {
      r := Ok(());
      if autoFrameDisposing {
        r := frame.Dispose(lib, err);
      }
    }
  }
}
