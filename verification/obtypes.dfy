/// The value types of the native interface: the typed native pointers
/// (`Ob…Ptr` structs), the error pointer, and the integer codes of the
/// native enumerations. Codes stay plain integers because a C# enum
/// variable can hold any value of its underlying type, not only the
/// named ones.
module ObTypes {
  import opened Int32

  /// A native address: an `IntPtr` in a 64-bit process.
  type Address = a: int | -0x8000_0000_0000_0000 <= a < 0x8000_0000_0000_0000

  /// The native object types that a wrapper can own, one per `Ob…Ptr` struct.
  datatype HandleKind =
    | Context
    | DeviceList
    | DeviceInfo
    | Device
    | SensorList
    | Sensor
    | StreamProfileList
    | StreamProfile
    | Frame
    | CameraParamList
    | DepthWorkModeList

  /// A typed native pointer. `address` is what `UnsafeValue` returns.
  datatype Handle = Handle(kind: HandleKind, address: Address)

  /// An `ob_error*` out-value of a native call: either the zero pointer or
  /// a native error object with the fields its accessor functions return.
  datatype ErrorPtr =
    | Zero
    | Error(address: Address, status: int, exceptionType: int, message: string, functionName: string, args: string)

  /// `ObStatus`
  const STATUS_OK: int := 0
  const STATUS_ERROR: int := 1

  /// `ObExceptionType`
  const EXC_UNKNOWN: int := 0
  const EXC_CAMERA_DISCONNECTED: int := 1
  const EXC_PLATFORM: int := 2
  const EXC_INVALID_VALUE: int := 3
  const EXC_WRONG_API_CALL_SEQUENCE: int := 4
  const EXC_NOT_IMPLEMENTED: int := 5
  const EXC_IO: int := 6
  const EXC_MEMORY: int := 7
  const EXC_UNSUPPORTED_OPERATION: int := 8

  /// `ObLogSeverity`
  const SEVERITY_DEBUG: int := 0
  const SEVERITY_INFO: int := 1
  const SEVERITY_WARN: int := 2
  const SEVERITY_ERROR: int := 3
  const SEVERITY_FATAL: int := 4
  const SEVERITY_OFF: int := 5

  /// The C# type name of each pointer struct, used by `PtrWrapper.ToString`.
  function TypeName(kind: HandleKind): string
  {
    match kind
    case Context => "ObContextPtr"
    case DeviceList => "ObDeviceListPtr"
    case DeviceInfo => "ObDeviceInfoPtr"
    case Device => "ObDevicePtr"
    case SensorList => "ObSensorListPtr"
    case Sensor => "ObSensorPtr"
    case StreamProfileList => "ObStreamProfileListPtr"
    case StreamProfile => "ObStreamProfilePtr"
    case Frame => "ObFramePtr"
    case CameraParamList => "ObCameraParamListPtr"
    case DepthWorkModeList => "ObDepthWorkModeListPtr"
  }

  function HexDigit(d: nat): char
    requires d < 16
  {
    if d < 10 then '0' + d as char else 'A' + (d - 10) as char
  }

  /// Upper-case hexadecimal digits of `n` with no leading zeros.
  function Hex(n: nat): string
  {
    if n < 16 then [HexDigit(n)] else Hex(n / 16) + [HexDigit(n % 16)]
  }

  /// `{PointerTypeName}#{Address}`, as `PtrWrapper.ToString` prints it. The
  /// address is printed as its 64-bit two's-complement value, in hexadecimal.
  function Describe(h: Handle): string
  {
    TypeName(h.kind) + "#" + Hex(h.address % 0x1_0000_0000_0000_0000)
  }
}
