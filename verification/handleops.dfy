/// The members of the typed native pointers (`Ob…Ptr` structs):
/// - deleting an error object;
/// - releasing the native object that a handle points to.
module HandleOps {
  import opened ObTypes
  import opened Native

  /// The native calls of `ObErrorPtr.Dispose`: one delete for a non-zero
  /// error object, none for the zero pointer.
  function DisposeErrorCalls(e: ErrorPtr): (calls: seq<NativeCall>)
    ensures |calls| == if e.Zero? then 0 else 1
    ensures e.Error? ==> calls[0].fn == DeleteError && calls[0].target == e.address
  {
    if e.Zero? then [] else [NativeCall(DeleteError, e.address, [])]
  }

  /// `ObErrorPtr.Dispose`: deletes a non-zero error object and leaves the
  /// zero pointer alone.
  method DisposeError(lib: NativeSdk, e: ErrorPtr)
    requires lib.Valid()
    modifies lib
    ensures lib.Valid() && lib.state == old(lib.state)
    ensures lib.calls == old(lib.calls) + DisposeErrorCalls(e)
  {
    if e.Error? {
      lib.Call(DeleteError, e.address, []);
    }
  }

  /// The native calls of a handle's `Release`: the type-specific delete,
  /// then the deletion of the error object it reported, if any.
  function ReleaseCalls(h: Handle, err: ErrorPtr): (calls: seq<NativeCall>)
    ensures |calls| >= 1 && calls[0] == NativeCall(Fn.DeleteObject(h.kind), h.address, [])
    ensures calls[1..] == DisposeErrorCalls(err)
  {
    [NativeCall(Fn.DeleteObject(h.kind), h.address, [])] + DisposeErrorCalls(err)
  }

  /// `Release` of every `INativePtr` struct. It calls the native delete for
  /// the handle's type and succeeds exactly when no error object came back.
  /// The error object is deleted either way.
  method Release(lib: NativeSdk, h: Handle, err: ErrorPtr) returns (ok: bool)
    requires lib.Valid()
    modifies lib
    ensures lib.Valid() && lib.state == ReleaseEffect(old(lib.state), h.address, err)
    ensures lib.calls == old(lib.calls) + ReleaseCalls(h, err)
    ensures ok <==> err.Zero?
  {
    lib.DeleteObject(h, err);
    ok := err.Zero?;
    DisposeError(lib, err);
  }
}
