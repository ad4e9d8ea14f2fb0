/// Values shared by every module. `Option` stands for a nullable value.
/// `Result` stands for a member that either returns a value or throws a
/// managed exception. `Exception` lists the exception classes the wrapper
/// layer throws.
module Base {
  datatype Option<+T> = None | Some(value: T)

  /// The SDK-specific exception classes, all derived from `ObException`.
  /// `Generic` is `ObException` itself.
  datatype SdkException =
    | CameraDisconnected
    | Platform
    | InvalidParameter
    | VersionMismatch
    | NotImplemented
    | IO
    | Memory
    | UnsupportedOperation
    | Generic

  /// The managed exceptions thrown by the core. The `string` payloads are
  /// the parameter names and the texts that the exceptions carry.
  datatype Exception =
    | ObjectDisposed(objectName: string)
    | ArgumentInvalid(paramName: string)
    | ArgumentOutOfRange(paramName: string)
    | ArgumentNull(paramName: string)
    | IndexOutOfRange
    | NotSupported
    | InvalidOperation
    | Overflow
    | Sdk(cls: SdkException, message: string, functionName: string, functionParameters: string)

  /// The outcome of a member that may throw: its value, or the exception.
  datatype Result<+T> = Ok(value: T) | Throw(exc: Exception)

  /// The lazily initialised value of a `Lazy<T>` created with
  /// `isThreadSafe: true`. That mode caches a value factory's exception
  /// exactly as it caches a value.
  datatype Lazy<+T> = NotCreated | Created(value: T) | Faulted(exc: Exception)

  /// `char.IsWhiteSpace`: the Unicode White_Space characters.
  predicate IsWhiteSpace(c: char)
  {
    || '\U{0009}' <= c <= '\U{000D}' || c == '\U{0020}' || c == '\U{0085}' || c == '\U{00A0}' || c == '\U{1680}'
    || '\U{2000}' <= c <= '\U{200A}' || c == '\U{2028}' || c == '\U{2029}' || c == '\U{202F}' || c == '\U{205F}'
    || c == '\U{3000}'
  }

  /// `string.IsNullOrWhiteSpace`: null, empty, or white space only.
  predicate IsNullOrWhiteSpace(s: Option<string>)
  {
    s.None? || forall i :: 0 <= i < |s.value| ==> IsWhiteSpace(s.value[i])
  }
}
