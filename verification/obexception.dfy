/// `ObException.CheckError`: turns the error object of a native call into
/// the managed exception it stands for. The error object is deleted on
/// every path.
module ObException {
  import opened Base
  import opened ObTypes
  import opened Native
  import opened HandleOps

  /// The exception class for a native exception type. Each named type has
  /// its own class. Every other code, `Unknown` included, gets the base
  /// class.
  function ClassOf(exceptionType: int): (c: SdkException)
    ensures c == Generic <==> !(EXC_CAMERA_DISCONNECTED <= exceptionType <= EXC_UNSUPPORTED_OPERATION)
    ensures exceptionType == EXC_CAMERA_DISCONNECTED ==> c == CameraDisconnected
    ensures exceptionType == EXC_PLATFORM ==> c == Platform
    ensures exceptionType == EXC_INVALID_VALUE ==> c == InvalidParameter
    ensures exceptionType == EXC_WRONG_API_CALL_SEQUENCE ==> c == VersionMismatch
    ensures exceptionType == EXC_NOT_IMPLEMENTED ==> c == NotImplemented
    ensures exceptionType == EXC_IO ==> c == IO
    ensures exceptionType == EXC_MEMORY ==> c == Memory
    ensures exceptionType == EXC_UNSUPPORTED_OPERATION ==> c == UnsupportedOperation
  {
    if exceptionType == EXC_CAMERA_DISCONNECTED then CameraDisconnected
    else if exceptionType == EXC_PLATFORM then Platform
    else if exceptionType == EXC_INVALID_VALUE then InvalidParameter
    else if exceptionType == EXC_WRONG_API_CALL_SEQUENCE then VersionMismatch
    else if exceptionType == EXC_NOT_IMPLEMENTED then NotImplemented
    else if exceptionType == EXC_IO then IO
    else if exceptionType == EXC_MEMORY then Memory
    else if exceptionType == EXC_UNSUPPORTED_OPERATION then UnsupportedOperation
    else Generic
  }

  /// Distinct named exception types map to distinct classes.
  lemma ClassOfInjective(a: int, b: int)
    requires ClassOf(a) != Generic && ClassOf(a) == ClassOf(b)
    ensures a == b
  {
  }

  /// The exception `CheckError` throws for an error pointer, if any. The
  /// zero pointer and an error object whose status is `Ok` throw nothing.
  function Thrown(e: ErrorPtr): (x: Option<Exception>)
    ensures x.Some? <==> e.Error? && e.status != STATUS_OK
    ensures x.Some? ==> x.value.Sdk? && x.value.cls == ClassOf(e.exceptionType)
    ensures x.Some? ==> x.value.message == e.message && x.value.functionName == e.functionName && x.value.functionParameters == e.args
  {
    if e.Zero? || e.status == STATUS_OK then None
    else Some(Sdk(ClassOf(e.exceptionType), e.message, e.functionName, e.args))
  }

  /// The native calls of `CheckError`:
  /// - none for the zero pointer;
  /// - otherwise the status query;
  /// - for a failure status, the four field queries;
  /// - the deletion, when `deleteError` is set.
  function CheckErrorCalls(e: ErrorPtr, deleteError: bool): (calls: seq<NativeCall>)
    ensures e.Zero? ==> calls == []
    ensures e.Error? ==> |calls| >= 1 && calls[0] == NativeCall(ErrorGetStatus, e.address, [])
    ensures e.Error? && deleteError ==> calls[|calls| - 1] == NativeCall(DeleteError, e.address, [])
  {
    if e.Zero? then []
    else
      [NativeCall(ErrorGetStatus, e.address, [])]
      + (if e.status == STATUS_OK then []
         else [NativeCall(ErrorGetExceptionType, e.address, []), NativeCall(ErrorGetMessage, e.address, []),
               NativeCall(ErrorGetFunction, e.address, []), NativeCall(ErrorGetArgs, e.address, [])])
      + (if deleteError then DisposeErrorCalls(e) else [])
  }

  /// `CheckError(ref error, deleteError)`. It throws `Thrown(error)` when
  /// there is one. The error object is deleted on every path when
  /// `deleteError` is set, and the reference is then cleared to zero.
  method CheckError(lib: NativeSdk, error: ErrorPtr, deleteError: bool) returns (r: Result<()>, after: ErrorPtr)
    requires lib.Valid()
    modifies lib
    ensures lib.Valid() && lib.state == old(lib.state)
    ensures lib.calls == old(lib.calls) + CheckErrorCalls(error, deleteError)
    ensures r == if Thrown(error).Some? then Throw(Thrown(error).value) else Ok(())
    ensures after == if deleteError then Zero else error
  {
    after := error;
    r := Ok(());
    if error.Zero? {
      return;
    }
    lib.Call(ErrorGetStatus, error.address, []);
    if error.status != STATUS_OK {
      lib.Call(ErrorGetExceptionType, error.address, []);
      lib.Call(ErrorGetMessage, error.address, []);
      lib.Call(ErrorGetFunction, error.address, []);
      lib.Call(ErrorGetArgs, error.address, []);
      r := Throw(Sdk(ClassOf(error.exceptionType), error.message, error.functionName, error.args));
    }
    if deleteError {
      DisposeError(lib, error);
      after := Zero;
    }
  }

  /// `CheckError` with its default `deleteError: true`, as every caller in
  /// the core uses it.
  method Check(lib: NativeSdk, error: ErrorPtr) returns (r: Result<()>)
    requires lib.Valid()
    modifies lib
    ensures lib.Valid() && lib.state == old(lib.state)
    ensures lib.calls == old(lib.calls) + CheckErrorCalls(error, true)
    ensures r == if Thrown(error).Some? then Throw(Thrown(error).value) else Ok(())
  {
    var after;
    r, after := CheckError(lib, error, true);
  }
}
