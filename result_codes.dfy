/** The public result codes, the version macros and the error-name table
    of the front-end library (CAEN_FELib_ErrorCode, CAEN_FELIB_VERSION*,
    _getError). */
module ResultCodes {
  import opened Common

  const SUCCESS: int := 0
  const GENERIC_ERROR: int := -1
  const INVALID_PARAM: int := -2
  const DEVICE_ALREADY_OPEN: int := -3
  const DEVICE_NOT_FOUND: int := -4
  const MAX_DEVICES_ERROR: int := -5
  const COMMAND_ERROR: int := -6
  const INTERNAL_ERROR: int := -7
  const NOT_IMPLEMENTED: int := -8
  const INVALID_HANDLE: int := -9
  const DEVICE_LIBRARY_NOT_AVAILABLE: int := -10
  const TIMEOUT: int := -11
  const STOP: int := -12
  const DISABLED: int := -13
  const BAD_LIBRARY_VERSION: int := -14
  const COMMUNICATION_ERROR: int := -15

  /** The enumeration CAEN_FELib_ErrorCode: 0 and -1 down to -15. */
  predicate IsResultCode(code: int) {
    COMMUNICATION_ERROR <= code <= SUCCESS
  }

  /** Buffer sizes the header documents for the textual outputs. */
  const ERROR_NAME_SIZE: nat := 32
  const ERROR_DESCRIPTION_SIZE: nat := 256
  const VERSION_SIZE: nat := 16

  const VERSION_MAJOR: nat := 1
  const VERSION_MINOR: nat := 3
  const VERSION_PATCH: nat := 1
  const VERSION: nat := VERSION_MAJOR * 10000 + VERSION_MINOR * 100 + VERSION_PATCH
  /** CAEN_FELIB_VERSION_STRING: the three numbers stringised and joined by dots. */
  const VERSION_STRING: string := "1.3.1"

  /** The version string is the dotted rendering of the three macros, the
      numeric version is their weighted sum, and the string fits (with its
      terminator) the 16-byte buffer of GetLibVersion. */
  lemma VersionMacros()
    ensures VERSION_STRING == NatToDecimal(VERSION_MAJOR) + "." + NatToDecimal(VERSION_MINOR) + "." + NatToDecimal(VERSION_PATCH)
    ensures VERSION == 10301
    ensures |VERSION_STRING| + 1 <= VERSION_SIZE
  {
    assert NatToDecimal(1) == "1";
    assert NatToDecimal(3) == "3";
  }

  /** CAEN_FELib_GetLibVersion: copies at most 15 characters of the version
      string into the caller's 16-byte buffer and succeeds. */
  function GetLibVersion(): (r: (int, string))
    ensures r.0 == SUCCESS
    ensures r.1 == VERSION_STRING && |r.1| < VERSION_SIZE
  {
    (SUCCESS, Truncate(VERSION_STRING, VERSION_SIZE - 1))
  }

  /** CAEN_FELib_ErrorCode as an enumeration; `Value` gives its integer. */
  datatype ErrorCode =
    | Success | GenericError | InvalidParam | DeviceAlreadyOpen | DeviceNotFound
    | MaxDevicesError | CommandError | InternalError | NotImplemented | InvalidHandle
    | DeviceLibraryNotAvailable | Timeout | Stop | Disabled | BadLibraryVersion
    | CommunicationError

  function Value(e: ErrorCode): int {
    match e
    case Success => SUCCESS
    case GenericError => GENERIC_ERROR
    case InvalidParam => INVALID_PARAM
    case DeviceAlreadyOpen => DEVICE_ALREADY_OPEN
    case DeviceNotFound => DEVICE_NOT_FOUND
    case MaxDevicesError => MAX_DEVICES_ERROR
    case CommandError => COMMAND_ERROR
    case InternalError => INTERNAL_ERROR
    case NotImplemented => NOT_IMPLEMENTED
    case InvalidHandle => INVALID_HANDLE
    case DeviceLibraryNotAvailable => DEVICE_LIBRARY_NOT_AVAILABLE
    case Timeout => TIMEOUT
    case Stop => STOP
    case Disabled => DISABLED
    case BadLibraryVersion => BAD_LIBRARY_VERSION
    case CommunicationError => COMMUNICATION_ERROR
  }

  /** The enumerator with the given integer value, if there is one. */
  function FromValue(code: int): Option<ErrorCode> {
    if code == SUCCESS then Some(Success)
    else if code == GENERIC_ERROR then Some(GenericError)
    else if code == INVALID_PARAM then Some(InvalidParam)
    else if code == DEVICE_ALREADY_OPEN then Some(DeviceAlreadyOpen)
    else if code == DEVICE_NOT_FOUND then Some(DeviceNotFound)
    else if code == MAX_DEVICES_ERROR then Some(MaxDevicesError)
    else if code == COMMAND_ERROR then Some(CommandError)
    else if code == INTERNAL_ERROR then Some(InternalError)
    else if code == NOT_IMPLEMENTED then Some(NotImplemented)
    else if code == INVALID_HANDLE then Some(InvalidHandle)
    else if code == DEVICE_LIBRARY_NOT_AVAILABLE then Some(DeviceLibraryNotAvailable)
    else if code == TIMEOUT then Some(Timeout)
    else if code == STOP then Some(Stop)
    else if code == DISABLED then Some(Disabled)
    else if code == BAD_LIBRARY_VERSION then Some(BadLibraryVersion)
    else if code == COMMUNICATION_ERROR then Some(CommunicationError)
    else None
  }

  // The texts of the _getError switch, one constant per code.
  const NAME_SUCCESS: string := "SUCCESS"
  const NAME_GENERIC_ERROR: string := "GENERIC ERROR"
  const NAME_INVALID_PARAM: string := "INVALID PARAMETER"
  const NAME_DEVICE_ALREADY_OPEN: string := "DEVICE ALREADY OPENED"
  const NAME_DEVICE_NOT_FOUND: string := "DEVICE NOT FOUND"
  const NAME_MAX_DEVICES_ERROR: string := "TOO MANY DEVICES OPENED"
  const NAME_COMMAND_ERROR: string := "COMMAND ERROR"
  const NAME_INTERNAL_ERROR: string := "INTERNAL ERROR"
  const NAME_NOT_IMPLEMENTED: string := "API NOT IMPLEMENTED"
  const NAME_INVALID_HANDLE: string := "INVALID HANDLE"
  const NAME_DEVICE_LIBRARY_NOT_AVAILABLE: string := "DEVICE LIBRARY NOT AVAILABLE"
  const NAME_TIMEOUT: string := "TIMEOUT"
  const NAME_STOP: string := "STOP"
  const NAME_DISABLED: string := "DISABLED"
  const NAME_BAD_LIBRARY_VERSION: string := "BAD LIBRARY VERSION"
  const NAME_COMMUNICATION_ERROR: string := "COMMUNICATION ERROR"
  const DESCRIPTION_SUCCESS: string := "Success"
  const DESCRIPTION_GENERIC_ERROR: string := "Generic error"
  const DESCRIPTION_INVALID_PARAM: string := "One of the parameters used in the API has not been recognized by the library"
  const DESCRIPTION_DEVICE_ALREADY_OPEN: string := "The device is already opened by this library, please close the connection before open a new one"
  const DESCRIPTION_DEVICE_NOT_FOUND: string := "The device is not responding or it is not connected, verify that the path parameter is correct and the physical connection to the device"
  const DESCRIPTION_MAX_DEVICES_ERROR: string := "This library supports up to 256 simultaneous connections but seems tgat all the rooms are full. Please close a connection before open a new one"
  const DESCRIPTION_COMMAND_ERROR: string := "Command error"
  const DESCRIPTION_INTERNAL_ERROR: string := "Generic internal error"
  const DESCRIPTION_NOT_IMPLEMENTED: string := "The API is not yet implemented in this library version, please try to upgrade the library to a new version"
  const DESCRIPTION_INVALID_HANDLE: string := "The handle used is not a valid handle, it is related to a closed connection or it is not an handle of an item"
  const DESCRIPTION_DEVICE_LIBRARY_NOT_AVAILABLE: string := "Returned by CAEN_FELib_Open() in case of invalid prefix"
  const DESCRIPTION_TIMEOUT: string := "Returned by CAEN_FELib_ReadData() in case of timeout"
  const DESCRIPTION_STOP: string := "Returned by CAEN_FELib_ReadData() after last event"
  const DESCRIPTION_DISABLED: string := "Disabled function"
  const DESCRIPTION_BAD_LIBRARY_VERSION: string := "Returned by CAEN_FELib_Open() when succeeded, but the version of the underlying library is not aligned to the hardware"
  const DESCRIPTION_COMMUNICATION_ERROR: string := "Communication error"

  function Name(e: ErrorCode): string {
    match e
    case Success => NAME_SUCCESS
    case GenericError => NAME_GENERIC_ERROR
    case InvalidParam => NAME_INVALID_PARAM
    case DeviceAlreadyOpen => NAME_DEVICE_ALREADY_OPEN
    case DeviceNotFound => NAME_DEVICE_NOT_FOUND
    case MaxDevicesError => NAME_MAX_DEVICES_ERROR
    case CommandError => NAME_COMMAND_ERROR
    case InternalError => NAME_INTERNAL_ERROR
    case NotImplemented => NAME_NOT_IMPLEMENTED
    case InvalidHandle => NAME_INVALID_HANDLE
    case DeviceLibraryNotAvailable => NAME_DEVICE_LIBRARY_NOT_AVAILABLE
    case Timeout => NAME_TIMEOUT
    case Stop => NAME_STOP
    case Disabled => NAME_DISABLED
    case BadLibraryVersion => NAME_BAD_LIBRARY_VERSION
    case CommunicationError => NAME_COMMUNICATION_ERROR
  }

  function Description(e: ErrorCode): string {
    match e
    case Success => DESCRIPTION_SUCCESS
    case GenericError => DESCRIPTION_GENERIC_ERROR
    case InvalidParam => DESCRIPTION_INVALID_PARAM
    case DeviceAlreadyOpen => DESCRIPTION_DEVICE_ALREADY_OPEN
    case DeviceNotFound => DESCRIPTION_DEVICE_NOT_FOUND
    case MaxDevicesError => DESCRIPTION_MAX_DEVICES_ERROR
    case CommandError => DESCRIPTION_COMMAND_ERROR
    case InternalError => DESCRIPTION_INTERNAL_ERROR
    case NotImplemented => DESCRIPTION_NOT_IMPLEMENTED
    case InvalidHandle => DESCRIPTION_INVALID_HANDLE
    case DeviceLibraryNotAvailable => DESCRIPTION_DEVICE_LIBRARY_NOT_AVAILABLE
    case Timeout => DESCRIPTION_TIMEOUT
    case Stop => DESCRIPTION_STOP
    case Disabled => DESCRIPTION_DISABLED
    case BadLibraryVersion => DESCRIPTION_BAD_LIBRARY_VERSION
    case CommunicationError => DESCRIPTION_COMMUNICATION_ERROR
  }

  /** Decoding the integer of an enumerator gives the enumerator back. */
  lemma FromValueOfValue(e: ErrorCode)
    ensures FromValue(Value(e)) == Some(e)
  {
  }

  /** Exactly the integers 0, -1, ..., -15 are codes, and decoding is
      inverted by `Value`. */
  lemma FromValueDomain(code: int)
    ensures FromValue(code).Some? <==> IsResultCode(code)
    ensures FromValue(code).Some? ==> Value(FromValue(code).value) == code
  {
  }

  /** Every name fits, with its terminator, the 32-byte buffer of
      GetErrorName and every description the 256-byte buffer of
      GetErrorDescription. */
  lemma ErrorTextFits(e: ErrorCode)
    ensures |Name(e)| + 1 <= ERROR_NAME_SIZE
    ensures |Description(e)| + 1 <= ERROR_DESCRIPTION_SIZE
  {
  }

  /** _getError on an integer: the name and the description of the code, or
      nothing for a value outside the enumeration. */
  function ErrorText(code: int): (r: Option<(string, string)>)
    ensures r.Some? <==> IsResultCode(code)
    ensures r.Some? ==> |r.value.0| < ERROR_NAME_SIZE && |r.value.1| < ERROR_DESCRIPTION_SIZE
  {
    FromValueDomain(code);
    match FromValue(code)
    case None => None
    case Some(e) =>
      ErrorTextFits(e);
      Some((Name(e), Description(e)))
  }
}
